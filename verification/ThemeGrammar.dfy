/** What a presentation means, without reading it: which texts are values of each kind, which
    chunks assign which declarations, and which declarations a whole source makes. */
module ThemeGrammar {
  import opened Text
  import opened Scanner
  import opened Theme
  import FolderGrammar
  import FolderNames
  import ValueGrammar
  import Values

  // -- values ------------------------------------------------------------------------------------

  /** `text` is the words of `raw` with one space between each two. */
  ghost predicate Normal(raw: string, text: string) {
    exists ws :: ValueGrammar.Spaced(raw, ws) && text == Join(ws, " ")
  }

  lemma NormalExact(raw: string, text: string)
    ensures Normal(raw, text) <==> NormalizeWhitespace(raw) == text
  {
    ValueGrammar.NormalizeExact(raw, text);
    if ws :| ValueGrammar.Spaced(raw, ws) && text == Join(ws, " ") { ValueGrammar.SpacedWords(raw, ws); }
  }

  /** A normalized text of a kind that is not a folder list, and the value it gives. */
  ghost predicate Plain(g: Grammar, kind: Kind, text: string, value: string) {
    match kind
    case Color => value == text && ValueGrammar.Color(g.colors, Lower(text))
    case Length => value == text && ValueGrammar.Length(text)
    case Number => value == text && ValueGrammar.Number(text)
    case Keyword(allowed) => value == Lower(text) && value in allowed
    case Folders => false
  }

  /** The value that a property of this kind is given by `raw`. */
  ghost predicate Gives(g: Grammar, kind: Kind, raw: string, value: string) {
    if kind.Folders? then
      && Bytes(raw) <= 3072
      && exists names :: FolderGrammar.List(raw, names) && FolderGrammar.Names(names) && value == FolderNames.Render(names)
    else exists text :: Normal(raw, text) && Bytes(text) <= 128 && Plain(g, kind, text, value)
  }

  lemma PlainExact(g: Grammar, kind: Kind, text: string, value: string)
    requires Values.PaletteOk(g.colors) && !kind.Folders?
    ensures Plain(g, kind, text, value)
            <==> match kind
                 case Color => value == text && Values.IsColor(g.colors, text)
                 case Length => value == text && Values.IsLength(text)
                 case Number => value == text && Values.IsNumber(text)
                 case Keyword(allowed) => value == Lower(text) && value in allowed
                 case Folders => false
  {
    match kind {
      case Color => ValueGrammar.ColorExact(g.colors, text);
      case Length => ValueGrammar.LengthExact(text);
      case Number => ValueGrammar.NumberExact(text);
      case _ =>
    }
  }

  /** The server takes `value` for `raw` exactly when the grammar of the kind gives it. */
  lemma ValueExact(g: Grammar, kind: Kind, raw: string, value: string)
    requires Values.PaletteOk(g.colors)
    ensures Canonicalize(g, kind, raw) == Some(value) <==> Gives(g, kind, raw, value)
  {
    if kind.Folders? {
      FolderGrammar.CanonicalListExact(raw, value);
    } else {
      forall text ensures Normal(raw, text) <==> NormalizeWhitespace(raw) == text { NormalExact(raw, text); }
      PlainExact(g, kind, NormalizeWhitespace(raw), value);
    }
  }

  // -- chunks ---------------------------------------------------------------------------------------

  /** `c` stands outside quotes in `s`, and nothing that is `wanted` does so before it. */
  ghost predicate FirstOutside(s: string, wanted: char -> bool, i: nat) {
    && i < |s| && s[i] != '"' && wanted(s[i]) && Scan(Outside, s[..i]) == Outside
    && forall j :: 0 <= j < i && s[j] != '"' && wanted(s[j]) ==> Scan(Outside, s[..j]) != Outside
  }

  ghost predicate NoneOutside(s: string, wanted: char -> bool) {
    forall i :: 0 <= i < |s| && s[i] != '"' && wanted(s[i]) ==> Scan(Outside, s[..i]) != Outside
  }

  lemma {:induction false} FindOutsideFirst(q: Quote, s: string, wanted: char -> bool) returns (i: nat)
    requires FindOutside(q, s, wanted).Some?
    ensures i < |s| && FindOutside(q, s, wanted) == Some(s[i]) && s[i] != '"' && wanted(s[i]) && Scan(q, s[..i]) == Outside
    ensures forall j :: 0 <= j < i && s[j] != '"' && wanted(s[j]) ==> Scan(q, s[..j]) != Outside
    decreases |s|
  {
    if q == Outside && s[0] != '"' && wanted(s[0]) {
      i := 0;
    } else {
      var k := FindOutsideFirst(Step(q, s[0]), s[1..], wanted);
      i := k + 1;
      assert s[..i][1..] == s[1..][..k];
      forall j | 0 <= j < i && s[j] != '"' && wanted(s[j]) ensures Scan(q, s[..j]) != Outside {
        if j > 0 {
          assert s[1..][j - 1] == s[j];
          assert s[..j][1..] == s[1..][..j - 1];
        }
      }
    }
  }

  /** The search finds the first wanted character outside quotes, and nothing if there is none. */
  lemma FindExact(s: string, wanted: char -> bool, c: char)
    ensures FindOutside(Outside, s, wanted).None? <==> NoneOutside(s, wanted)
    ensures FindOutside(Outside, s, wanted) == Some(c) <==> exists i: nat :: FirstOutside(s, wanted, i) && s[i] == c
  {
    FindOutsideMeaning(Outside, s, wanted);
    if FindOutside(Outside, s, wanted).Some? {
      var i := FindOutsideFirst(Outside, s, wanted);
      assert FirstOutside(s, wanted, i);
      forall k: nat | FirstOutside(s, wanted, k) ensures k == i {}
    }
  }

  /** The first property of the table with this name, and its kind. */
  ghost predicate Declared(g: Grammar, name: string, kind: Kind) {
    exists i :: 0 <= i < |g.properties| && g.properties[i] == Property(name, kind)
                && forall j :: 0 <= j < i ==> g.properties[j].name != name
  }

  ghost predicate Unknown(g: Grammar, name: string) {
    forall i :: 0 <= i < |g.properties| ==> g.properties[i].name != name
  }

  lemma {:induction false} LookupFirst(properties: seq<Property>, name: string) returns (i: nat)
    ensures Lookup(properties, name).None? ==> forall j :: 0 <= j < |properties| ==> properties[j].name != name
    ensures Lookup(properties, name).Some? ==> i < |properties| && properties[i] == Property(name, Lookup(properties, name).value)
                                               && forall j :: 0 <= j < i ==> properties[j].name != name
  {
    i := 0;
    if properties != [] && properties[0].name != name {
      var k := LookupFirst(properties[1..], name);
      i := k + 1;
      forall j | 0 < j < i && j <= |properties| - 1 ensures properties[j] == properties[1..][j - 1] {}
      assert forall j :: 1 <= j < |properties| ==> properties[j] == properties[1..][j - 1];
    }
  }

  lemma LookupExact(g: Grammar, name: string, kind: Kind)
    ensures Lookup(g.properties, name) == Some(kind) <==> Declared(g, name, kind)
    ensures Lookup(g.properties, name).None? <==> Unknown(g, name)
  {
    var i := LookupFirst(g.properties, name);
    if Declared(g, name, kind) {
      var k :| 0 <= k < |g.properties| && g.properties[k] == Property(name, kind)
               && forall j :: 0 <= j < k ==> g.properties[j].name != name;
    }
  }

  /** The characters that may not stand outside quotes. */
  lemma ForbiddenExact(c: char)
    ensures IsForbidden(c) <==> c in {'{', '}', '@', '<', '>', '\'', '\\'}
    ensures IsBang(c) <==> c == '!'
  {
  }

  /** A chunk without forbidden characters or `!` outside quotes. */
  ghost predicate Clean(chunk: string) {
    NoneOutside(chunk, IsForbidden) && NoneOutside(chunk, IsBang)
  }

  /** The two sides of the first colon. */
  ghost predicate Sides(chunk: string, left: string, right: string) {
    chunk == left + [':'] + right && NoChar(left, ':')
  }

  ghost predicate Assigns(g: Grammar, source: string, d: Declaration) {
    exists left, right, kind :: AssignsBy(g, source, d, left, right, kind)
  }

  /** The chunk is `name: value`, in whatever case and spacing, for a known property. */
  ghost predicate AssignsBy(g: Grammar, source: string, d: Declaration, left: string, right: string, kind: Kind) {
    && Clean(Trim(source)) && Sides(Trim(source), left, right) && !Blank(right)
    && d.property == Lower(Trim(left)) && Declared(g, d.property, kind) && Gives(g, kind, Trim(right), d.value)
  }

  lemma SidesExact(chunk: string, left: string, right: string)
    ensures SplitOnce(chunk, ':') == Some((left, right)) <==> Sides(chunk, left, right)
  {
    if Sides(chunk, left, right) { SplitOnceUnique(left, ':', right); }
  }

  lemma BlankChunk(g: Grammar, source: string)
    ensures ParseChunk(g, source) == Ok(None) <==> Blank(source)
  {
    ValueGrammar.TrimBlank(source);
  }

  lemma CleanExact(chunk: string)
    ensures Clean(chunk) <==> FindOutside(Outside, chunk, IsForbidden).None? && FindOutside(Outside, chunk, IsBang).None?
  {
    FindExact(chunk, IsForbidden, ' ');
    FindExact(chunk, IsBang, ' ');
  }

  lemma AssignedBy(g: Grammar, source: string, d: Declaration, left: string, right: string, kind: Kind)
    requires Values.PaletteOk(g.colors)
    ensures AssignsBy(g, source, d, left, right, kind) <==>
              && Clean(Trim(source)) && SplitOnce(Trim(source), ':') == Some((left, right)) && Trim(right) != []
              && d.property == Lower(Trim(left)) && Lookup(g.properties, d.property) == Some(kind)
              && Canonicalize(g, kind, Trim(right)) == Some(d.value)
  {
    SidesExact(Trim(source), left, right);
    ValueGrammar.TrimBlank(right);
    LookupExact(g, d.property, kind);
    ValueExact(g, kind, Trim(right), d.value);
  }

  /** The chunk is read as a declaration exactly when it assigns it. */
  lemma ChunkExact(g: Grammar, source: string, d: Declaration)
    requires Values.PaletteOk(g.colors)
    ensures ParseChunk(g, source) == Ok(Some(d)) <==> Assigns(g, source, d)
  {
    CleanExact(Trim(source));
    if ParseChunk(g, source) == Ok(Some(d)) {
      var sides := SplitOnce(Trim(source), ':').value;
      AssignedBy(g, source, d, sides.0, sides.1, Lookup(g.properties, d.property).value);
    }
    if left, right, kind :| AssignsBy(g, source, d, left, right, kind) {
      AssignedBy(g, source, d, left, right, kind);
      SidesExact(Trim(source), left, right);
    }
  }

  /** Why a chunk is refused before its sides are looked at, in the order of the checks. */
  lemma ChunkErrors(g: Grammar, source: string, c: char)
    ensures var chunk, r := Trim(source), ParseChunk(g, source);
            && (r == Err(ForbiddenCharacter(c)) <==> exists i: nat :: FirstOutside(chunk, IsForbidden, i) && chunk[i] == c)
            && (r == Err(Important) <==> NoneOutside(chunk, IsForbidden) && !NoneOutside(chunk, IsBang))
            && (r == Err(MissingColon) <==> !Blank(source) && Clean(chunk) && NoChar(chunk, ':'))
  {
    var chunk := Trim(source);
    ValueGrammar.TrimBlank(source);
    FindExact(chunk, IsForbidden, c);
    FindExact(chunk, IsBang, c);
    ColonExact(chunk);
  }

  /** Why a chunk with a name and perhaps a value is refused. */
  lemma SideErrors(g: Grammar, source: string, left: string, right: string)
    requires Clean(Trim(source)) && Sides(Trim(source), left, right)
    ensures var name, r := Lower(Trim(left)), ParseChunk(g, source);
            && (r == Err(NoValue(name)) <==> Blank(right))
            && (r == Err(UnknownProperty(name)) <==> !Blank(right) && Unknown(g, name))
  {
    ValueGrammar.TrimBlank(right);
    CleanExact(Trim(source));
    SidesExact(Trim(source), left, right);
    LookupExact(g, Lower(Trim(left)), Folders);
  }

  /** A value is refused exactly when the grammar of its property gives none. */
  lemma ValueErrors(g: Grammar, source: string, left: string, right: string, kind: Kind)
    requires Values.PaletteOk(g.colors) && Clean(Trim(source)) && Sides(Trim(source), left, right)
    requires Declared(g, Lower(Trim(left)), kind) && !Blank(right)
    ensures ParseChunk(g, source) == Err(BadValue(Lower(Trim(left)))) <==> forall v :: !Gives(g, kind, Trim(right), v)
  {
    ValueGrammar.TrimBlank(right);
    CleanExact(Trim(source));
    SidesExact(Trim(source), left, right);
    LookupExact(g, Lower(Trim(left)), kind);
    forall v ensures Canonicalize(g, kind, Trim(right)) == Some(v) <==> Gives(g, kind, Trim(right), v) {
      ValueExact(g, kind, Trim(right), v);
    }
    var value := Canonicalize(g, kind, Trim(right));
    assert value.Some? ==> Gives(g, kind, Trim(right), value.value);
  }

  lemma ColonExact(chunk: string)
    ensures SplitOnce(chunk, ':').None? <==> NoChar(chunk, ':')
  {
    if NoChar(chunk, ':') { ValueGrammar.SplitOnceNone(chunk, ':'); }
  }

  // -- whole sources ----------------------------------------------------------------------------------

  ghost predicate AssignsAt(g: Grammar, chunks: seq<string>, k: nat, d: Declaration) {
    k < |chunks| && Assigns(g, chunks[k], d)
  }

  /** The chunk `k` assigns `d`, and no chunk after it assigns that property. */
  ghost predicate LastAt(g: Grammar, chunks: seq<string>, k: nat, d: Declaration) {
    AssignsAt(g, chunks, k, d) && forall j, e :: k < j && AssignsAt(g, chunks, j, e) ==> e.property != d.property
  }

  ghost predicate Assigned(ds: seq<Declaration>, property: string) {
    exists i :: 0 <= i < |ds| && ds[i].property == property
  }

  lemma AssignedAfter(first: Declaration, rest: seq<Declaration>, property: string)
    ensures Assigned([first] + rest, property) <==> first.property == property || Assigned(rest, property)
  {
    var all := [first] + rest;
    assert all[0] == first && forall i :: 0 <= i < |rest| ==> all[i + 1] == rest[i];
  }

  lemma AssignedBefore(rest: seq<Declaration>, property: string)
    requires rest != []
    ensures Assigned(rest, property) <==> rest[|rest| - 1].property == property || Assigned(rest[..|rest| - 1], property)
  {
    var n := |rest| - 1;
    assert forall i :: 0 <= i < n ==> rest[..n][i] == rest[i];
    if i :| 0 <= i < |rest| && rest[i].property == property {
      if i < n { assert rest[..n][i].property == property; }
    }
  }

  lemma {:induction false} LastValueAfter(first: Declaration, rest: seq<Declaration>, property: string)
    requires first.property == property || Assigned(rest, property)
    ensures Assigned([first] + rest, property)
    ensures LastValue([first] + rest, property) == if Assigned(rest, property) then LastValue(rest, property) else first.value
  {
    AssignedAfter(first, rest, property);
    if rest != [] {
      var n := |rest| - 1;
      AssignedBefore(rest, property);
      assert ([first] + rest)[..n + 1] == [first] + rest[..n];
      if rest[n].property != property { LastValueAfter(first, rest[..n], property); }
    }
  }

  /** What a chunk list writes to a property last. */
  ghost predicate Writes(g: Grammar, chunks: seq<string>, d: Declaration)
    requires Assignments(g, chunks).Ok?
  {
    var writes := Assignments(g, chunks).value;
    Assigned(writes, d.property) && LastValue(writes, d.property) == d.value
  }

  lemma WritesAfter(g: Grammar, chunks: seq<string>, d: Declaration)
    requires chunks != [] && Assignments(g, chunks).Ok?
    ensures Assignments(g, chunks[1..]).Ok? && ParseChunk(g, chunks[0]).Ok?
    ensures var first := ParseChunk(g, chunks[0]).value;
            && (Assigned(Assignments(g, chunks).value, d.property)
                <==> Assigned(Assignments(g, chunks[1..]).value, d.property) || (first.Some? && first.value.property == d.property))
            && (Writes(g, chunks, d) <==>
                  if Assigned(Assignments(g, chunks[1..]).value, d.property) then Writes(g, chunks[1..], d) else first == Some(d))
  {
    var first, rest := ParseChunk(g, chunks[0]).value, Assignments(g, chunks[1..]).value;
    if first.Some? {
      AssignedAfter(first.value, rest, d.property);
      if first.value.property == d.property || Assigned(rest, d.property) { LastValueAfter(first.value, rest, d.property); }
    } else {
      assert [] + rest == rest;
    }
  }

  /** A chunk list that is read without error writes `d` last exactly when the last chunk that
      assigns its property assigns `d`. */
  lemma {:induction false} WritesExact(g: Grammar, chunks: seq<string>, d: Declaration)
    requires Values.PaletteOk(g.colors) && Assignments(g, chunks).Ok?
    ensures Assigned(Assignments(g, chunks).value, d.property)
            <==> exists k: nat, e :: AssignsAt(g, chunks, k, e) && e.property == d.property
    ensures Writes(g, chunks, d) <==> exists k: nat :: LastAt(g, chunks, k, d)
    decreases |chunks|
  {
    if chunks != [] {
      var later := chunks[1..];
      WritesAfter(g, chunks, d);
      WritesExact(g, later, d);
      forall e ensures ParseChunk(g, chunks[0]) == Ok(Some(e)) <==> AssignsAt(g, chunks, 0, e) { ChunkExact(g, chunks[0], e); }
      forall k: nat, e ensures AssignsAt(g, later, k, e) <==> AssignsAt(g, chunks, k + 1, e) {}
      LaterAssigned(g, chunks, d);
      LaterLast(g, chunks, d);
    }
  }

  lemma LaterAssigned(g: Grammar, chunks: seq<string>, d: Declaration)
    requires chunks != []
    ensures (exists k: nat, e :: AssignsAt(g, chunks, k, e) && e.property == d.property)
            <==> (exists e :: AssignsAt(g, chunks, 0, e) && e.property == d.property)
                 || exists k: nat, e :: AssignsAt(g, chunks[1..], k, e) && e.property == d.property
  {
    if k: nat, e :| AssignsAt(g, chunks, k, e) && e.property == d.property {
      if k > 0 { assert AssignsAt(g, chunks[1..], k - 1, e); }
    }
    if k: nat, e :| AssignsAt(g, chunks[1..], k, e) && e.property == d.property {
      assert AssignsAt(g, chunks, k + 1, e);
    }
  }

  lemma LaterLast(g: Grammar, chunks: seq<string>, d: Declaration)
    requires chunks != []
    ensures (exists k: nat :: LastAt(g, chunks, k, d))
            <==> if exists k: nat, e :: AssignsAt(g, chunks[1..], k, e) && e.property == d.property
                 then exists k: nat :: LastAt(g, chunks[1..], k, d)
                 else AssignsAt(g, chunks, 0, d)
  {
    var later := chunks[1..];
    forall k: nat, e ensures AssignsAt(g, later, k, e) <==> AssignsAt(g, chunks, k + 1, e) {}
    forall k: nat ensures LastAt(g, later, k, d) <==> LastAt(g, chunks, k + 1, d) {
      if LastAt(g, later, k, d) {
        forall j, e | k + 1 < j && AssignsAt(g, chunks, j, e) ensures e.property != d.property {
          assert AssignsAt(g, later, j - 1, e);
        }
      }
      if LastAt(g, chunks, k + 1, d) {
        forall j, e | k < j && AssignsAt(g, later, j, e) ensures e.property != d.property {
          assert AssignsAt(g, chunks, j + 1, e);
        }
      }
    }
    if k: nat :| LastAt(g, chunks, k, d) {
      if k > 0 { assert LastAt(g, later, k - 1, d) && AssignsAt(g, later, k - 1, d); }
    }
    if AssignsAt(g, chunks, 0, d) && !(exists k: nat, e :: AssignsAt(g, later, k, e) && e.property == d.property) {
      forall j, e | 0 < j && AssignsAt(g, chunks, j, e) ensures e.property != d.property {
        assert AssignsAt(g, later, j - 1, e);
      }
      assert LastAt(g, chunks, 0, d);
    }
  }

  /** The chunk `k` is the first that is refused, with this error. */
  ghost predicate FirstError(g: Grammar, chunks: seq<string>, k: nat, error: ParseError) {
    k < |chunks| && ParseChunk(g, chunks[k]) == Err(error) && forall j :: 0 <= j < k ==> ParseChunk(g, chunks[j]).Ok?
  }

  lemma LaterError(g: Grammar, chunks: seq<string>, k: nat, error: ParseError)
    requires chunks != [] && ParseChunk(g, chunks[0]).Ok?
    ensures FirstError(g, chunks[1..], k, error) <==> FirstError(g, chunks, k + 1, error)
  {
    assert forall j :: 0 <= j < |chunks| - 1 ==> chunks[1..][j] == chunks[j + 1];
    if FirstError(g, chunks, k + 1, error) {
      forall j | 0 <= j < k ensures ParseChunk(g, chunks[1..][j]).Ok? { assert ParseChunk(g, chunks[j + 1]).Ok?; }
    }
    if FirstError(g, chunks[1..], k, error) {
      forall j | 0 < j < k + 1 ensures ParseChunk(g, chunks[j]).Ok? { assert ParseChunk(g, chunks[1..][j - 1]).Ok?; }
    }
  }

  lemma {:induction false} FirstErrorExact(g: Grammar, chunks: seq<string>, error: ParseError)
    ensures Assignments(g, chunks) == Err(error) <==> exists k: nat :: FirstError(g, chunks, k, error)
  {
    if chunks != [] {
      FirstErrorExact(g, chunks[1..], error);
      if ParseChunk(g, chunks[0]).Ok? {
        forall k: nat ensures FirstError(g, chunks[1..], k, error) <==> FirstError(g, chunks, k + 1, error) {
          LaterError(g, chunks, k, error);
        }
        if k: nat :| FirstError(g, chunks, k, error) { assert FirstError(g, chunks[1..], k - 1, error); }
      } else if ParseChunk(g, chunks[0]) == Err(error) {
        assert FirstError(g, chunks, 0, error);
      }
    }
  }

  lemma {:induction false} AllRead(g: Grammar, chunks: seq<string>)
    ensures Assignments(g, chunks).Ok? <==> forall k :: 0 <= k < |chunks| ==> ParseChunk(g, chunks[k]).Ok?
  {
    if chunks != [] {
      AllRead(g, chunks[1..]);
      assert forall k :: 0 <= k < |chunks| - 1 ==> chunks[1..][k] == chunks[k + 1];
    }
  }

  lemma CollapsedHas(result: seq<Declaration>, writes: seq<Declaration>, d: Declaration)
    requires IsCollapsed(result, writes)
    ensures d in result <==> Assigned(writes, d.property) && LastValue(writes, d.property) == d.value
  {
    FirstsAssigned(writes);
    if d in result {
      var i :| 0 <= i < |result| && result[i] == d;
    }
    if Assigned(writes, d.property) && LastValue(writes, d.property) == d.value {
      assert d.property in Firsts(writes);
      var i :| 0 <= i < |Firsts(writes)| && Firsts(writes)[i] == d.property;
      assert result[i] == d;
    }
  }

  /** What a presentation declares. A source of permitted length whose comments and quotes close is
      read exactly when each of its chunks is blank or assigns something; it then declares exactly
      what the last chunk that assigns a property assigns to it; and otherwise its error is that of
      the first chunk that is refused. */
  lemma ParseExact(g: Grammar, input: string, d: Declaration, error: ParseError)
    requires Values.PaletteOk(g.colors) && Bytes(input) <= 4096 && Strip(Outside, input).Ok?
    ensures var chunks, r := Split(Outside, Strip(Outside, input).value), Parse(g, input);
            && (r.Ok? <==> forall k: nat :: k < |chunks| ==> Blank(chunks[k]) || exists e :: AssignsAt(g, chunks, k, e))
            && (r.Ok? ==> (d in r.value <==> exists k: nat :: LastAt(g, chunks, k, d)))
            && (r == Err(error) <==> exists k: nat :: FirstError(g, chunks, k, error))
  {
    var chunks := Split(Outside, Strip(Outside, input).value);
    ParseCollapses(g, input);
    FirstErrorExact(g, chunks, error);
    AllRead(g, chunks);
    forall k: nat | k < |chunks|
      ensures ParseChunk(g, chunks[k]).Ok? <==> Blank(chunks[k]) || exists e :: AssignsAt(g, chunks, k, e)
    {
      ReadsExact(g, chunks, k);
    }
    if Assignments(g, chunks).Ok? {
      WritesExact(g, chunks, d);
      CollapsedHas(Parse(g, input).value, Assignments(g, chunks).value, d);
    }
  }

  lemma ReadsExact(g: Grammar, chunks: seq<string>, k: nat)
    requires Values.PaletteOk(g.colors) && k < |chunks|
    ensures ParseChunk(g, chunks[k]).Ok? <==> Blank(chunks[k]) || exists e :: AssignsAt(g, chunks, k, e)
  {
    BlankChunk(g, chunks[k]);
    var r := ParseChunk(g, chunks[k]);
    if r.Ok? && r.value.Some? {
      ChunkExact(g, chunks[k], r.value.value);
      assert AssignsAt(g, chunks, k, r.value.value);
    }
    if e :| AssignsAt(g, chunks, k, e) { ChunkExact(g, chunks[k], e); }
  }
}
