/** Profile presentation: reading a source into declarations, writing declarations back as
    canonical text, and when reading undoes writing.

    Everything is stated for a `Grammar`, the table of known properties and the table of
    colour names; `ThemeTable` shows that the server's own tables satisfy `GrammarOk`. */
module Theme {
  import opened Text
  import opened Scanner
  import Values
  import FolderNames

  const MAX_INPUT: nat := 4096
  const MAX_LAYOUT_VALUE: nat := 3072

  datatype Kind = Color | Length | Number | Keyword(allowed: seq<string>) | Folders

  datatype Property = Property(name: string, kind: Kind)

  datatype Grammar = Grammar(properties: seq<Property>, colors: seq<string>)

  datatype Declaration = Declaration(property: string, value: string)

  datatype ParseError =
    | TooLong
    | BadSource(error: StripError)
    | ForbiddenCharacter(bad: char)
    | Important
    | MissingColon
    | NoValue(name: string)
    | UnknownProperty(name: string)
    | BadValue(name: string)

  // -- what a table must satisfy ----------------------------------------------------------

  predicate IsNameChar(c: char) { 'a' <= c <= 'z' || IsDigit(c) || c == '-' }

  ghost predicate NameText(s: string) {
    s != [] && forall i :: 0 <= i < |s| ==> IsNameChar(s[i])
  }

  ghost predicate PropertyOk(p: Property) {
    && NameText(p.name)
    && (p.kind.Folders? ==> !HasPrefix(p.name, "--pico-"))
    && (p.kind.Keyword? ==> forall i :: 0 <= i < |p.kind.allowed| ==> NameText(p.kind.allowed[i]))
  }

  ghost predicate GrammarOk(g: Grammar) {
    && Values.PaletteOk(g.colors)
    && forall i :: 0 <= i < |g.properties| ==> PropertyOk(g.properties[i])
  }

  // -- canonical values -------------------------------------------------------------------

  function Canonicalize(g: Grammar, kind: Kind, raw: string): Option<string> {
    if kind.Folders? then
      if Bytes(raw) > MAX_LAYOUT_VALUE then None else FolderNames.CanonicalList(raw)
    else
      var value := NormalizeWhitespace(raw);
      if Bytes(value) > Values.MAX_VALUE then None
      else
        match kind
        case Color => if Values.IsColor(g.colors, value) then Some(value) else None
        case Length => if Values.IsLength(value) then Some(value) else None
        case Number => if Values.IsNumber(value) then Some(value) else None
        case Keyword(allowed) => if Lower(value) in allowed then Some(Lower(value)) else None
  }

  /** The kind of the first property in the table with this name. */
  function Lookup(properties: seq<Property>, name: string): (kind: Option<Kind>)
    ensures kind.Some? ==> exists i :: 0 <= i < |properties| && properties[i] == Property(name, kind.value)
  {
    if properties == [] then None
    else if properties[0].name == name then Some(properties[0].kind)
    else
      var rest := Lookup(properties[1..], name);
      assert rest.Some? ==> exists i :: 1 <= i < |properties| && properties[i] == Property(name, rest.value);
      rest
  }

  // -- reading ------------------------------------------------------------------------------

  predicate IsForbidden(c: char) {
    c == '{' || c == '}' || c == '@' || c == '<' || c == '>' || c == '\'' || c == '\\'
  }

  predicate IsBang(c: char) { c == '!' }

  predicate IsUnwanted(c: char) { IsForbidden(c) || IsBang(c) }

  /** One chunk between semicolons: nothing, a declaration, or what is wrong with it. */
  function ParseChunk(g: Grammar, source: string): Result<Option<Declaration>, ParseError> {
    var chunk := Trim(source);
    if chunk == [] then Ok(None)
    else if FindOutside(Outside, chunk, IsForbidden).Some? then
      Err(ForbiddenCharacter(FindOutside(Outside, chunk, IsForbidden).value))
    else if FindOutside(Outside, chunk, IsBang).Some? then Err(Important)
    else
      match SplitOnce(chunk, ':')
      case None => Err(MissingColon)
      case Some(sides) =>
        var name := Lower(Trim(sides.0));
        var raw := Trim(sides.1);
        if raw == [] then Err(NoValue(name))
        else
          match Lookup(g.properties, name)
          case None => Err(UnknownProperty(name))
          case Some(kind) =>
            match Canonicalize(g, kind, raw)
            case None => Err(BadValue(name))
            case Some(value) => Ok(Some(Declaration(name, value)))
  }

  function IndexOf(declarations: seq<Declaration>, property: string): (i: Option<nat>)
    ensures i.Some? ==> i.value < |declarations| && declarations[i.value].property == property
    ensures i.None? ==> forall k :: 0 <= k < |declarations| ==> declarations[k].property != property
  {
    if declarations == [] then None
    else if declarations[0].property == property then Some(0)
    else
      match IndexOf(declarations[1..], property)
      case None => None
      case Some(i) => Some(i + 1)
  }

  /** Last one wins, in the place of the first one. */
  function Upsert(declarations: seq<Declaration>, d: Declaration): seq<Declaration> {
    match IndexOf(declarations, d.property)
    case Some(i) => declarations[i := declarations[i].(value := d.value)]
    case None => declarations + [d]
  }

  function Fold(g: Grammar, chunks: seq<string>, done: seq<Declaration>): Result<seq<Declaration>, ParseError>
    decreases |chunks|
  {
    if chunks == [] then Ok(done)
    else
      match ParseChunk(g, chunks[0])
      case Err(e) => Err(e)
      case Ok(None) => Fold(g, chunks[1..], done)
      case Ok(Some(d)) => Fold(g, chunks[1..], Upsert(done, d))
  }

  function Parse(g: Grammar, input: string): Result<seq<Declaration>, ParseError> {
    if Bytes(input) > MAX_INPUT then Err(TooLong)
    else
      match Strip(Outside, input)
      case Err(e) => Err(BadSource(e))
      case Ok(source) => Fold(g, Split(Outside, source), [])
  }

  method ParseTheme(g: Grammar, input: string) returns (r: Result<seq<Declaration>, ParseError>)
    ensures r == Parse(g, input)
  {
    if Bytes(input) > MAX_INPUT { return Err(TooLong); }
    var stripped := StripComments(input);
    if stripped.Err? { return Err(BadSource(stripped.error)); }
    var chunks := SplitDeclarations(stripped.value);
    var declarations: seq<Declaration> := [];
    for i := 0 to |chunks|
      invariant Parse(g, input) == Fold(g, chunks[i..], declarations)
    {
      assert chunks[i..][1..] == chunks[i + 1..];
      var chunk := Trim(chunks[i]);
      if chunk == [] { continue; }
      var bad := FindOutsideQuotes(chunk, IsForbidden);
      if bad.Some? { return Err(ForbiddenCharacter(bad.value)); }
      var bang := FindOutsideQuotes(chunk, IsBang);
      if bang.Some? { return Err(Important); }
      var sides := SplitOnce(chunk, ':');
      if sides.None? { return Err(MissingColon); }
      var name := Lower(Trim(sides.value.0));
      var raw := Trim(sides.value.1);
      if raw == [] { return Err(NoValue(name)); }
      var kind := Lookup(g.properties, name);
      if kind.None? { return Err(UnknownProperty(name)); }
      var value := Canonicalize(g, kind.value, raw);
      if value.None? { return Err(BadValue(name)); }
      var existing := IndexOf(declarations, name);
      match existing {
        case Some(k) => declarations := declarations[k := declarations[k].(value := value.value)];
        case None => declarations := declarations + [Declaration(name, value.value)];
      }
    }
    return Ok(declarations);
  }

  // -- writing ------------------------------------------------------------------------------

  function Line(d: Declaration): string {
    d.property + ": " + d.value + ";\n"
  }

  function ToCss(declarations: seq<Declaration>): string {
    if declarations == [] then [] else Line(declarations[0]) + ToCss(declarations[1..])
  }

  // -- what a canonical value is like ---------------------------------------------------------

  /** A value the canonicalizer returns for itself, that no scanner reacts to. */
  ghost predicate Settled(value: string) {
    && value != [] && IsTrimmed(value)
    && Inert(value, IsUnwanted)
  }

  lemma PicoTextInert(s: string)
    requires Values.PicoText(s)
    ensures Inert(s, IsUnwanted)
  {
    InertPlain(s, IsUnwanted);
  }

  lemma NameTextInert(s: string)
    requires NameText(s)
    ensures Inert(s, IsUnwanted) && IsWord(s) && IsTrimmed(s) && Lower(s) == s
    ensures Values.PicoText(s) && NoChar(s, ':')
  {
    assert Values.PicoText(s);
    PicoTextInert(s);
    LowerFixed(s);
  }

  lemma KindOk(g: Grammar, name: string)
    requires GrammarOk(g) && Lookup(g.properties, name).Some?
    ensures PropertyOk(Property(name, Lookup(g.properties, name).value))
  {
    var kind := Lookup(g.properties, name).value;
    var i :| 0 <= i < |g.properties| && g.properties[i] == Property(name, kind);
    assert PropertyOk(g.properties[i]);
  }

  /** An accepted value that is not a folder list is written in the Pico alphabet. */
  lemma PlainValueAlphabet(g: Grammar, name: string, kind: Kind, raw: string)
    requires Values.PaletteOk(g.colors) && PropertyOk(Property(name, kind)) && !kind.Folders?
    requires Canonicalize(g, kind, raw).Some?
    ensures Values.PicoText(Canonicalize(g, kind, raw).value)
  {
    var value := NormalizeWhitespace(raw);
    NormalizeCanonical(raw);
    match kind {
      case Color => Values.ColorAlphabet(g.colors, value);
      case Length => Values.LengthAlphabet(value);
      case Number => Values.NumberAlphabet(value);
      case Keyword(allowed) =>
        var i :| 0 <= i < |allowed| && allowed[i] == Lower(value);
        NameTextInert(allowed[i]);
    }
  }

  lemma ColorNonempty(colors: seq<string>)
    requires Values.PaletteOk(colors)
    ensures !Values.IsColor(colors, "")
  {
    LowerFixed("");
    if Values.IsFlatColor(colors, "") {
      Values.FlatColorNonempty(colors, "");
    }
  }

  lemma PlainValueNonempty(g: Grammar, name: string, kind: Kind, raw: string)
    requires Values.PaletteOk(g.colors) && PropertyOk(Property(name, kind)) && !kind.Folders?
    requires Canonicalize(g, kind, raw).Some?
    ensures Canonicalize(g, kind, raw).value != []
  {
    if kind.Color? { ColorNonempty(g.colors); }
  }

  lemma FolderListSettled(raw: string)
    requires FolderNames.CanonicalList(raw).Some?
    ensures var value := FolderNames.CanonicalList(raw).value;
            Settled(value) && FolderNames.CanonicalList(value) == Some(value)
  {
    var names := FolderNames.ReadArray("[" + raw + "]").value;
    FolderNames.CanonicalListFixed(raw);
    FolderNames.RenderedInert(names, ", ", IsUnwanted);
    FolderNames.RenderedTrimmed(names, ", ");
  }

  /** Canonicalizing is a projection, for every kind of value. */
  lemma CanonicalFixed(g: Grammar, name: string, kind: Kind, raw: string)
    requires Values.PaletteOk(g.colors) && PropertyOk(Property(name, kind))
    requires Canonicalize(g, kind, raw).Some?
    ensures var value := Canonicalize(g, kind, raw).value;
            && Settled(value)
            && (Canonicalize(g, kind, value) == Some(value)
                <==> (kind.Folders? ==> Bytes(value) <= MAX_LAYOUT_VALUE))
  {
    var value := Canonicalize(g, kind, raw).value;
    if kind.Folders? {
      FolderListSettled(raw);
    } else {
      PlainValueAlphabet(g, name, kind, raw);
      PlainValueNonempty(g, name, kind, raw);
      PicoTextInert(value);
      NormalizeCanonical(raw);
      if kind.Keyword? {
        var i :| 0 <= i < |kind.allowed| && kind.allowed[i] == value;
        NameTextInert(kind.allowed[i]);
        NormalizeWord(value);
        LowerBytes(NormalizeWhitespace(raw));
      }
    }
  }

  // -- accepted declarations -------------------------------------------------------------------

  /** A declaration that some chunk can produce. */
  ghost predicate Accepted(g: Grammar, d: Declaration) {
    && Lookup(g.properties, d.property).Some?
    && exists raw :: Canonicalize(g, Lookup(g.properties, d.property).value, raw) == Some(d.value)
  }

  ghost predicate Distinct(ds: seq<Declaration>) {
    forall i, j :: 0 <= i < j < |ds| ==> ds[i].property != ds[j].property
  }

  ghost predicate AllAccepted(g: Grammar, ds: seq<Declaration>) {
    forall i :: 0 <= i < |ds| ==> Accepted(g, ds[i])
  }

  lemma {:induction false} FoldAccepted(g: Grammar, chunks: seq<string>, done: seq<Declaration>)
    requires AllAccepted(g, done) && Distinct(done)
    requires Fold(g, chunks, done).Ok?
    ensures AllAccepted(g, Fold(g, chunks, done).value) && Distinct(Fold(g, chunks, done).value)
    decreases |chunks|
  {
    if chunks != [] {
      match ParseChunk(g, chunks[0]).value {
        case None => FoldAccepted(g, chunks[1..], done);
        case Some(d) =>
          UpsertAccepted(g, chunks[0], done);
          FoldAccepted(g, chunks[1..], Upsert(done, d));
      }
    }
  }

  // -- reading back one line -----------------------------------------------------------------

  ghost predicate FitsLayout(g: Grammar, d: Declaration) {
    Lookup(g.properties, d.property) == Some(Folders) ==> Bytes(d.value) <= MAX_LAYOUT_VALUE
  }

  /** The line of an accepted declaration, up to its semicolon. */
  function Body(d: Declaration): string {
    d.property + ": " + d.value
  }

  lemma AcceptedShape(g: Grammar, d: Declaration)
    requires GrammarOk(g) && Accepted(g, d)
    ensures NameText(d.property) && Settled(d.value)
  {
    var kind := Lookup(g.properties, d.property).value;
    KindOk(g, d.property);
    var raw :| Canonicalize(g, kind, raw) == Some(d.value);
    CanonicalFixed(g, d.property, kind, raw);
  }

  lemma BodyShape(d: Declaration)
    requires NameText(d.property) && Settled(d.value)
    ensures Inert(Body(d), IsUnwanted) && IsTrimmed(Body(d)) && Body(d) != []
  {
    NameTextInert(d.property);
    InertPlain(": ", IsUnwanted);
    InertConcat(d.property, ": ", IsUnwanted);
    InertConcat(d.property + ": ", d.value, IsUnwanted);
  }

  lemma BodySides(d: Declaration)
    requires NameText(d.property) && Settled(d.value)
    ensures SplitOnce(Body(d), ':') == Some((d.property, " " + d.value))
    ensures Lower(Trim(d.property)) == d.property && Trim(" " + d.value) == d.value
  {
    NameTextInert(d.property);
    assert Body(d) == d.property + [':'] + (" " + d.value);
    SplitOnceUnique(d.property, ':', " " + d.value);
    TrimTrimmed(d.property);
    TrimPadded(" ", d.value, []);
    assert " " + d.value + [] == " " + d.value;
  }

  /** What a chunk with a colon outside its value is read as. */
  lemma ParseSides(g: Grammar, source: string, left: string, right: string, kind: Kind)
    requires var chunk := Trim(source);
             && chunk != []
             && FindOutside(Outside, chunk, IsUnwanted).None?
             && SplitOnce(chunk, ':') == Some((left, right))
    requires Lookup(g.properties, Lower(Trim(left))) == Some(kind) && Trim(right) != []
    ensures var name, value := Lower(Trim(left)), Canonicalize(g, kind, Trim(right));
            ParseChunk(g, source) == if value.Some? then Ok(Some(Declaration(name, value.value))) else Err(BadValue(name))
  {
    FindOutsideWeaken(Outside, Trim(source), IsUnwanted, IsForbidden);
    FindOutsideWeaken(Outside, Trim(source), IsUnwanted, IsBang);
  }

  lemma AcceptedFixed(g: Grammar, d: Declaration)
    requires GrammarOk(g) && Accepted(g, d)
    ensures Canonicalize(g, Lookup(g.properties, d.property).value, d.value) == if FitsLayout(g, d) then Some(d.value) else None
  {
    var kind := Lookup(g.properties, d.property).value;
    KindOk(g, d.property);
    var raw :| Canonicalize(g, kind, raw) == Some(d.value);
    CanonicalFixed(g, d.property, kind, raw);
  }

  lemma LineChunk(pre: string, d: Declaration)
    requires NameText(d.property) && Settled(d.value) && Blank(pre)
    ensures var chunk := Trim(pre + Body(d));
            && chunk != [] && FindOutside(Outside, chunk, IsUnwanted).None?
            && SplitOnce(chunk, ':') == Some((d.property, " " + d.value))
  {
    BodyShape(d);
    BodySides(d);
    TrimPadded(pre, Body(d), []);
    assert pre + Body(d) + [] == pre + Body(d);
  }

  /** A written line is read back as its declaration, exactly when a folder list in it has
      not outgrown its limit. */
  lemma ParseLine(g: Grammar, pre: string, d: Declaration)
    requires GrammarOk(g) && Accepted(g, d) && Blank(pre)
    ensures ParseChunk(g, pre + Body(d)) == if FitsLayout(g, d) then Ok(Some(d)) else Err(BadValue(d.property))
  {
    AcceptedShape(g, d);
    AcceptedFixed(g, d);
    BodySides(d);
    LineChunk(pre, d);
    ParseSides(g, pre + Body(d), d.property, " " + d.value, Lookup(g.properties, d.property).value);
  }

  // -- reading back a whole text ----------------------------------------------------------------

  lemma {:induction false} CssUncommented(g: Grammar, ds: seq<Declaration>)
    requires GrammarOk(g) && AllAccepted(g, ds)
    ensures Scan(Outside, ToCss(ds)) == Outside && Uncommented(Outside, ToCss(ds))
    ensures ToCss(ds) != [] ==> ToCss(ds)[0] != '*'
  {
    if ds != [] {
      var body := Body(ds[0]);
      AcceptedShape(g, ds[0]);
      BodyShape(ds[0]);
      CssUncommented(g, ds[1..]);
      assert Line(ds[0]) == body + ";\n";
      ScanUnquoted(";\n");
      assert Uncommented(Outside, ";\n") by { assert ";\n"[1..] == "\n"; }
      ScanConcat(Outside, body, ";\n");
      UncommentedConcat(Outside, body, ";\n");
      ScanConcat(Outside, Line(ds[0]), ToCss(ds[1..]));
      UncommentedConcat(Outside, Line(ds[0]), ToCss(ds[1..]));
    }
  }

  lemma LineApart(pre: string, body: string, rest: string)
    ensures pre + (body + ";\n" + rest) == (pre + body) + ";" + ("\n" + rest)
  {
    assert ";\n" == ";" + "\n";
  }

  lemma LineIsBody(d: Declaration)
    ensures Line(d) == Body(d) + ";\n"
  {
  }

  lemma SplitPiece(piece: string, rest: string)
    requires Inert(piece, IsUnwanted)
    ensures Split(Outside, piece + ";" + rest) == [piece] + Split(Outside, rest)
  {
    SplitAt(Outside, piece, rest);
  }

  lemma PieceInert(pre: string, d: Declaration)
    requires NameText(d.property) && Settled(d.value)
    requires pre == "" || pre == "\n"
    ensures Inert(pre + Body(d), IsUnwanted)
  {
    BodyShape(d);
    InertPlain(pre, IsUnwanted);
    InertConcat(pre, Body(d), IsUnwanted);
  }

  /** The first chunk of a written text is its first line. */
  lemma SplitLine(pre: string, d: Declaration, rest: string)
    requires NameText(d.property) && Settled(d.value)
    requires pre == "" || pre == "\n"
    ensures Split(Outside, pre + (Line(d) + rest)) == [pre + Body(d)] + Split(Outside, "\n" + rest)
  {
    PieceInert(pre, d);
    SplitPiece(pre + Body(d), "\n" + rest);
    LineIsBody(d);
    LineApart(pre, Body(d), rest);
  }

  lemma BlankTail(g: Grammar, pre: string, done: seq<Declaration>)
    requires pre == "" || pre == "\n"
    ensures Fold(g, Split(Outside, pre), done) == Ok(done)
  {
    if pre == "\n" {
      assert "\n"[1..] == "";
      var rest := Split(Outside, "\n"[1..]);
      assert rest == [[]];
      assert ['\n'] + rest[0] == "\n" && rest[1..] == [];
      assert Split(Outside, "\n") == ["\n"];
      assert TrimStart("\n") == TrimStart("\n"[1..]);
    }
    assert Fold(g, [pre][1..], done) == Ok(done);
  }

  ghost predicate AllFit(g: Grammar, ds: seq<Declaration>) {
    forall i :: 0 <= i < |ds| ==> FitsLayout(g, ds[i])
  }

  lemma AllFitFirst(g: Grammar, ds: seq<Declaration>)
    requires ds != []
    ensures AllFit(g, ds) <==> FitsLayout(g, ds[0]) && AllFit(g, ds[1..])
  {
    assert forall i :: 1 <= i < |ds| ==> ds[i] == ds[1..][i - 1];
  }

  lemma FoldFirst(g: Grammar, chunk: string, chunks: seq<string>, done: seq<Declaration>)
    ensures Fold(g, [chunk] + chunks, done) ==
            var r := ParseChunk(g, chunk);
            if r.Err? then Err(r.error)
            else Fold(g, chunks, if r.value.Some? then Upsert(done, r.value.value) else done)
  {
    assert ([chunk] + chunks)[1..] == chunks;
  }

  lemma UpsertNew(done: seq<Declaration>, d: Declaration, rest: seq<Declaration>)
    requires Distinct(done + ([d] + rest))
    ensures Upsert(done, d) == done + [d]
    ensures (done + [d]) + rest == done + ([d] + rest)
  {
    var all := done + ([d] + rest);
    assert all[|done|] == d;
    assert forall k :: 0 <= k < |done| ==> all[k] == done[k];
  }

  /** Reading one written line adds its declaration, or fails where that does not fit. */
  lemma FoldLine(g: Grammar, pre: string, d: Declaration, rest: seq<Declaration>, done: seq<Declaration>)
    requires GrammarOk(g) && Accepted(g, d) && Distinct(done + ([d] + rest))
    requires pre == "" || pre == "\n"
    ensures var r := Fold(g, Split(Outside, pre + (Line(d) + ToCss(rest))), done);
            if FitsLayout(g, d) then r == Fold(g, Split(Outside, "\n" + ToCss(rest)), done + [d]) else r.Err?
  {
    AcceptedShape(g, d);
    SplitLine(pre, d, ToCss(rest));
    ParseLine(g, pre, d);
    UpsertNew(done, d, rest);
    FoldFirst(g, pre + Body(d), Split(Outside, "\n" + ToCss(rest)), done);
  }

  /** Reading back written declarations gives them in order, exactly when all fit. */
  lemma {:induction false} FoldCss(g: Grammar, pre: string, ds: seq<Declaration>, done: seq<Declaration>)
    requires GrammarOk(g) && AllAccepted(g, ds) && Distinct(done + ds)
    requires pre == "" || pre == "\n"
    ensures var r := Fold(g, Split(Outside, pre + ToCss(ds)), done);
            if AllFit(g, ds) then r == Ok(done + ds) else r.Err?
    decreases |ds|
  {
    if ds == [] {
      BlankTail(g, pre, done);
      assert pre + ToCss(ds) == pre;
      assert done + ds == done;
    } else {
      var d, rest := ds[0], ds[1..];
      assert ds == [d] + rest;
      FoldLine(g, pre, d, rest, done);
      AllFitFirst(g, ds);
      if FitsLayout(g, d) {
        UpsertNew(done, d, rest);
        FoldCss(g, "\n", rest, done + [d]);
      }
    }
  }

  /** The two limits that canonical text can outgrow. */
  ghost predicate FitsLimits(g: Grammar, ds: seq<Declaration>) {
    Bytes(ToCss(ds)) <= MAX_INPUT && AllFit(g, ds)
  }

  /** Round trip. Whatever an input is read as, its canonical text is read as the same
      declarations, exactly when that text is within the two length limits. */
  lemma RoundTrip(g: Grammar, input: string)
    requires GrammarOk(g) && Parse(g, input).Ok?
    ensures var ds := Parse(g, input).value;
            Parse(g, ToCss(ds)) == Ok(ds) <==> FitsLimits(g, ds)
  {
    var ds := Parse(g, input).value;
    FoldAccepted(g, Split(Outside, Strip(Outside, input).value), []);
    CssUncommented(g, ds);
    StripFixed(Outside, ToCss(ds));
    FoldCss(g, "", ds, []);
    assert "" + ToCss(ds) == ToCss(ds);
    assert [] + ds == ds;
  }

  /** Within the limits, writing what was read and reading it again changes nothing. */
  lemma CanonicalTextIsStable(g: Grammar, input: string)
    requires GrammarOk(g) && Parse(g, input).Ok? && FitsLimits(g, Parse(g, input).value)
    ensures var css := ToCss(Parse(g, input).value);
            Parse(g, css).Ok? && ToCss(Parse(g, css).value) == css
  {
    RoundTrip(g, input);
  }

  // -- the fold, declaratively --------------------------------------------------------------------

  /** The properties assigned, once each, in the order of their first assignment. */
  function Firsts(ds: seq<Declaration>): seq<string> {
    if ds == [] then []
    else
      var n := |ds| - 1;
      var before := Firsts(ds[..n]);
      if ds[n].property in before then before else before + [ds[n].property]
  }

  /** The value of the last assignment to a property. */
  function LastValue(ds: seq<Declaration>, property: string): string
    requires exists i :: 0 <= i < |ds| && ds[i].property == property
  {
    var n := |ds| - 1;
    if ds[n].property == property then ds[n].value else LastValue(ds[..n], property)
  }

  lemma {:induction false} FirstsAssigned(ds: seq<Declaration>)
    ensures forall p :: p in Firsts(ds) <==> exists i :: 0 <= i < |ds| && ds[i].property == p
    ensures forall i, j :: 0 <= i < j < |Firsts(ds)| ==> Firsts(ds)[i] != Firsts(ds)[j]
  {
    if ds != [] {
      var n := |ds| - 1;
      FirstsAssigned(ds[..n]);
      forall p
        ensures p in Firsts(ds) <==> exists i :: 0 <= i < |ds| && ds[i].property == p
      {
        if p in Firsts(ds[..n]) {
          var i :| 0 <= i < n && ds[..n][i].property == p;
          assert ds[i].property == p;
        }
        if i :| 0 <= i < |ds| && ds[i].property == p {
          if i < n { assert ds[..n][i].property == p; }
        }
      }
    }
  }

  ghost predicate IsCollapsed(result: seq<Declaration>, writes: seq<Declaration>) {
    && |result| == |Firsts(writes)|
    && forall i :: 0 <= i < |result| ==>
         && result[i].property == Firsts(writes)[i]
         && (exists k :: 0 <= k < |writes| && writes[k].property == result[i].property)
         && result[i].value == LastValue(writes, result[i].property)
  }

  lemma CollapseStep(result: seq<Declaration>, writes: seq<Declaration>, d: Declaration)
    requires IsCollapsed(result, writes)
    ensures IsCollapsed(Upsert(result, d), writes + [d])
  {
    var next := writes + [d];
    assert next[..|next| - 1] == writes;
    FirstsAssigned(writes);
    FirstsAssigned(next);
    var r := Upsert(result, d);
    var at := IndexOf(result, d.property);
    assert at.None? ==> d.property !in Firsts(writes);
    assert at.Some? ==> Firsts(writes)[at.value] == d.property;
    forall i | 0 <= i < |r|
      ensures r[i].property == Firsts(next)[i]
      ensures exists k :: 0 <= k < |next| && next[k].property == r[i].property
      ensures r[i].value == LastValue(next, r[i].property)
    {
      assert r[i].property in Firsts(next);
      assert exists k :: 0 <= k < |next| && next[k].property == r[i].property;
    }
  }

  /** The assignments of a chunk list, none dropped. */
  function Assignments(g: Grammar, chunks: seq<string>): Result<seq<Declaration>, ParseError> {
    if chunks == [] then Ok([])
    else
      match ParseChunk(g, chunks[0])
      case Err(e) => Err(e)
      case Ok(first) =>
        match Assignments(g, chunks[1..])
        case Err(e) => Err(e)
        case Ok(rest) => Ok((if first.Some? then [first.value] else []) + rest)
  }

  /** `folded` fails where `writes` does, and otherwise is `before` and `writes` collapsed. */
  ghost predicate FoldsTo(
    folded: Result<seq<Declaration>, ParseError>, before: seq<Declaration>, writes: Result<seq<Declaration>, ParseError>)
  {
    match writes
    case Err(e) => folded == Err(e)
    case Ok(rest) => folded.Ok? && IsCollapsed(folded.value, before + rest)
  }

  lemma FoldsToNext(folded: Result<seq<Declaration>, ParseError>, before: seq<Declaration>, d: seq<Declaration>,
                    rest: Result<seq<Declaration>, ParseError>)
    requires FoldsTo(folded, before + d, rest)
    ensures FoldsTo(folded, before, match rest case Err(e) => Err(e) case Ok(writes) => Ok(d + writes))
  {
    if rest.Ok? { assert before + d + rest.value == before + (d + rest.value); }
  }

  lemma {:induction false} FoldCollapses(g: Grammar, chunks: seq<string>, done: seq<Declaration>, before: seq<Declaration>)
    requires IsCollapsed(done, before)
    ensures FoldsTo(Fold(g, chunks, done), before, Assignments(g, chunks))
    decreases |chunks|
  {
    if chunks == [] {
      assert before + [] == before;
    } else if ParseChunk(g, chunks[0]).Ok? {
      match ParseChunk(g, chunks[0]).value {
        case None =>
          FoldCollapses(g, chunks[1..], done, before);
          assert before + [] == before;
          FoldsToNext(Fold(g, chunks, done), before, [], Assignments(g, chunks[1..]));
        case Some(d) =>
          CollapseStep(done, before, d);
          FoldCollapses(g, chunks[1..], Upsert(done, d), before + [d]);
          FoldsToNext(Fold(g, chunks, done), before, [d], Assignments(g, chunks[1..]));
      }
    }
  }

  /** Reading gives one declaration for each assigned property, in the order of first
      assignment, each with the value assigned last; it fails only where a chunk does. */
  lemma ParseCollapses(g: Grammar, input: string)
    requires Bytes(input) <= MAX_INPUT && Strip(Outside, input).Ok?
    ensures var writes := Assignments(g, Split(Outside, Strip(Outside, input).value));
            && (Parse(g, input).Ok? <==> writes.Ok?)
            && (writes.Err? ==> Parse(g, input) == Err(writes.error))
            && (writes.Ok? ==> IsCollapsed(Parse(g, input).value, writes.value))
  {
    var chunks := Split(Outside, Strip(Outside, input).value);
    assert IsCollapsed([], []);
    FoldCollapses(g, chunks, [], []);
    if Assignments(g, chunks).Ok? {
      assert [] + Assignments(g, chunks).value == Assignments(g, chunks).value;
    }
  }

  // -- how much longer canonical text can be --------------------------------------------------------

  /** The commas between the names of a folder list; none in any other value. */
  function Commas(g: Grammar, d: Declaration): nat {
    if Lookup(g.properties, d.property) != Some(Folders) then 0
    else
      match FolderNames.ReadArray("[" + d.value + "]")
      case Some(names) => if names == [] then 0 else |names| - 1
      case None => 0
  }

  function TotalCommas(g: Grammar, ds: seq<Declaration>): nat {
    if ds == [] then 0 else Commas(g, ds[0]) + TotalCommas(g, ds[1..])
  }

  /** What a declaration weighs in the shortest source that could assign it. */
  function Weight(g: Grammar, d: Declaration): int {
    Bytes(d.property) + Bytes(d.value) + 2 - Commas(g, d)
  }

  function TotalWeight(g: Grammar, ds: seq<Declaration>): int {
    if ds == [] then 0 else Weight(g, ds[0]) + TotalWeight(g, ds[1..])
  }

  lemma {:induction false} CssBytes(g: Grammar, ds: seq<Declaration>)
    ensures Bytes(ToCss(ds)) == TotalWeight(g, ds) + 2 * |ds| + TotalCommas(g, ds)
  {
    if ds != [] {
      var d := ds[0];
      CssBytes(g, ds[1..]);
      BytesConcat(Line(d), ToCss(ds[1..]));
      BytesConcat(d.property + ": " + d.value, ";\n");
      BytesConcat3(d.property, ": ", d.value);
      assert Bytes(";\n") == 2 && Bytes(": ") == 2 by {
        assert ";\n"[1..] == "\n" && ": "[1..] == " ";
      }
    }
  }

  lemma {:induction false} TotalWeightConcat(g: Grammar, a: seq<Declaration>, b: seq<Declaration>)
    ensures TotalWeight(g, a + b) == TotalWeight(g, a) + TotalWeight(g, b)
  {
    if a == [] {
      assert a + b == b;
    } else {
      TotalWeightConcat(g, a[1..], b);
      assert (a + b)[1..] == a[1..] + b;
    }
  }

  lemma WeightPositive(g: Grammar, d: Declaration)
    requires Accepted(g, d)
    ensures Weight(g, d) >= 0
  {
    if Lookup(g.properties, d.property) == Some(Folders) {
      var raw :| Canonicalize(g, Folders, raw) == Some(d.value);
      var names := FolderNames.ReadArray("[" + raw + "]").value;
      FolderNames.ReadArrayOfRender(names, ", ");
      FolderNames.RenderBytesAtLeastCommas(names);
    }
  }

  lemma {:induction false} ReplaceWeight(g: Grammar, ds: seq<Declaration>, i: nat, d: Declaration)
    requires i < |ds|
    ensures TotalWeight(g, ds[i := d]) == TotalWeight(g, ds) - Weight(g, ds[i]) + Weight(g, d)
    decreases i
  {
    if i == 0 {
      assert ds[i := d][1..] == ds[1..];
    } else {
      ReplaceWeight(g, ds[1..], i - 1, d);
      assert ds[i := d][1..] == ds[1..][i - 1 := d];
    }
  }

  lemma UpsertWeight(g: Grammar, ds: seq<Declaration>, d: Declaration)
    requires AllAccepted(g, ds)
    ensures TotalWeight(g, Upsert(ds, d)) <= TotalWeight(g, ds) + Weight(g, d)
  {
    match IndexOf(ds, d.property)
    case None =>
      TotalWeightConcat(g, ds, [d]);
    case Some(i) =>
      assert ds[i].(value := d.value) == d;
      ReplaceWeight(g, ds, i, d);
      WeightPositive(g, ds[i]);
  }

  lemma {:induction false} CanonicalBytes(g: Grammar, name: string, kind: Kind, raw: string)
    requires Lookup(g.properties, name) == Some(kind) && Canonicalize(g, kind, raw).Some?
    ensures var d := Declaration(name, Canonicalize(g, kind, raw).value);
            Bytes(d.value) <= Bytes(raw) + Commas(g, d)
  {
    if kind.Folders? {
      var names := FolderNames.ReadArray("[" + raw + "]").value;
      FolderNames.CanonicalListBytes(raw);
      FolderNames.ReadArrayOfRender(names, ", ");
    } else {
      NormalizeBytes(raw);
      LowerBytes(NormalizeWhitespace(raw));
    }
  }

  /** A chunk is at least as long as its declaration weighs, less its semicolon. */
  lemma ChunkBytes(g: Grammar, chunk: string)
    requires ParseChunk(g, chunk).Ok? && ParseChunk(g, chunk).value.Some?
    ensures Weight(g, ParseChunk(g, chunk).value.value) <= Bytes(chunk) + 1
  {
    var sides := SplitOnce(Trim(chunk), ':').value;
    TrimBytes(chunk);
    BytesConcat3(sides.0, ":", sides.1);
    TrimBytes(sides.0);
    LowerBytes(Trim(sides.0));
    TrimBytes(sides.1);
    var name := Lower(Trim(sides.0));
    CanonicalBytes(g, name, Lookup(g.properties, name).value, Trim(sides.1));
  }

  /** The bytes of the chunks and of a semicolon after each. */
  function ChunksBytes(chunks: seq<string>): nat {
    if chunks == [] then 0 else Bytes(chunks[0]) + 1 + ChunksBytes(chunks[1..])
  }

  lemma {:induction false} ChunksBytesJoin(chunks: seq<string>)
    requires chunks != []
    ensures ChunksBytes(chunks) == Bytes(Join(chunks, ";")) + 1
  {
    if |chunks| == 1 {
      assert ChunksBytes(chunks[1..]) == 0;
    } else {
      ChunksBytesJoin(chunks[1..]);
      BytesConcat3(chunks[0], ";", Join(chunks[1..], ";"));
      assert Bytes(";") == 1 by { assert ";"[1..] == ""; }
    }
  }

  lemma {:induction false} FoldWeight(g: Grammar, chunks: seq<string>, done: seq<Declaration>)
    requires AllAccepted(g, done) && Fold(g, chunks, done).Ok?
    ensures TotalWeight(g, Fold(g, chunks, done).value) <= TotalWeight(g, done) + ChunksBytes(chunks)
    decreases |chunks|
  {
    if chunks != [] {
      var parsed := ParseChunk(g, chunks[0]).value;
      if parsed.Some? {
        ChunkBytes(g, chunks[0]);
        UpsertWeight(g, done, parsed.value);
        UpsertAccepted(g, chunks[0], done);
        FoldWeight(g, chunks[1..], Upsert(done, parsed.value));
      } else {
        FoldWeight(g, chunks[1..], done);
      }
    }
  }

  lemma UpsertAccepted(g: Grammar, chunk: string, done: seq<Declaration>)
    requires AllAccepted(g, done) && ParseChunk(g, chunk).Ok? && ParseChunk(g, chunk).value.Some?
    ensures Accepted(g, ParseChunk(g, chunk).value.value)
    ensures AllAccepted(g, Upsert(done, ParseChunk(g, chunk).value.value))
  {
    var d := ParseChunk(g, chunk).value.value;
    assert Accepted(g, d);
  }

  /** Canonical text is longer than its source by at most two bytes a declaration, one byte
      a folder comma, and one more. */
  lemma CanonicalGrowth(g: Grammar, input: string)
    requires Parse(g, input).Ok?
    ensures var ds := Parse(g, input).value;
            Bytes(ToCss(ds)) <= Bytes(input) + 2 * |ds| + 1 + TotalCommas(g, ds)
  {
    var source := Strip(Outside, input).value;
    StripClean(Outside, input);
    FoldWeight(g, Split(Outside, source), []);
    ChunksBytesJoin(Split(Outside, source));
    SplitJoin(Outside, source);
    CssBytes(g, Parse(g, input).value);
  }

  // -- safety of the generated rule -----------------------------------------------------------------

  /** Every accepted declaration names a known property, and a `--pico-` value is written
      only with letters, digits and `#%.,/()+- `. */
  lemma AcceptedIsSafe(g: Grammar, input: string, i: nat)
    requires GrammarOk(g) && Parse(g, input).Ok? && i < |Parse(g, input).value|
    ensures var d := Parse(g, input).value[i];
            && (exists k :: 0 <= k < |g.properties| && g.properties[k].name == d.property)
            && (HasPrefix(d.property, "--pico-") ==> Values.PicoText(d.value))
  {
    var ds := Parse(g, input).value;
    FoldAccepted(g, Split(Outside, Strip(Outside, input).value), []);
    var d := ds[i];
    var kind := Lookup(g.properties, d.property).value;
    var k :| 0 <= k < |g.properties| && g.properties[k] == Property(d.property, kind);
    assert PropertyOk(g.properties[k]);
    if HasPrefix(d.property, "--pico-") {
      var raw :| Canonicalize(g, kind, raw) == Some(d.value);
      PlainValueAlphabet(g, d.property, kind, raw);
    }
  }

  /** Canonical text is the declarations one after another, a line each: the property, a colon and a
      space, the value, a semicolon. */
  lemma {:induction false} CssLines(a: seq<Declaration>, b: seq<Declaration>, d: Declaration)
    ensures ToCss(a + b) == ToCss(a) + ToCss(b)
    ensures ToCss([d]) == d.property + ": " + d.value + ";\n"
  {
    assert [d][1..] == [];
    assert ToCss([d][1..]) == [];
    if a == [] {
      assert a + b == b;
    } else {
      CssLines(a[1..], b, d);
      assert (a + b)[1..] == a[1..] + b;
    }
  }
}
