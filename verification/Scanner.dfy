/** The three quote-aware scanners of a profile presentation: removing comments, cutting a
    source at its semicolons, and looking for a character outside quotes. Each is a loop in
    the server; here each loop is a method proved against a recursive function, and the
    lemmas below say how the three see the same quotes. */
module Scanner {
  import opened Text

  /** Where a scanner stands: outside a quoted name, inside one, or just after a backslash
      inside one. The server keeps it in the two flags `quoted` and `escaped`. */
  datatype Quote = Outside | Inside | Escaped

  function Step(q: Quote, c: char): Quote {
    match q
    case Outside => if c == '"' then Inside else Outside
    case Inside => if c == '\\' then Escaped else if c == '"' then Outside else Inside
    case Escaped => Inside
  }

  function Scan(q: Quote, s: string): Quote
    decreases |s|
  {
    if s == [] then q else Scan(Step(q, s[0]), s[1..])
  }

  lemma {:induction false} ScanConcat(q: Quote, a: string, b: string)
    ensures Scan(q, a + b) == Scan(Scan(q, a), b)
    decreases |a|
  {
    if a == [] {
      assert a + b == b;
    } else {
      ScanConcat(Step(q, a[0]), a[1..], b);
      assert (a + b)[1..] == a[1..] + b;
    }
  }

  /** Text without a quotation mark leaves a scanner that is outside where it is. */
  lemma {:induction false} ScanUnquoted(s: string)
    requires NoChar(s, '"')
    ensures Scan(Outside, s) == Outside
  {
    if s != [] { ScanUnquoted(s[1..]); }
  }

  // -- strip_comments --------------------------------------------------------------

  datatype StripError = UnclosedComment | UnclosedQuote

  predicate OpensComment(s: string) {
    |s| >= 2 && s[0] == '/' && s[1] == '*'
  }

  /** How many characters of `s`, the text after an opening `/` `*`, the comment still
      takes, its closing `*` `/` included. */
  function CommentLength(s: string): (n: Option<nat>)
    ensures n.Some? ==> 2 <= n.value <= |s|
  {
    if |s| < 2 then None
    else if s[0] == '*' && s[1] == '/' then Some(2)
    else
      match CommentLength(s[1..])
      case None => None
      case Some(n) => Some(n + 1)
  }

  function Prepend(text: string, r: Result<string, StripError>): Result<string, StripError> {
    match r
    case Ok(rest) => Ok(text + rest)
    case Err(e) => Err(e)
  }

  function Strip(q: Quote, s: string): Result<string, StripError>
    decreases |s|
  {
    if s == [] then
      if q == Outside then Ok([]) else Err(UnclosedQuote)
    else if q == Outside && OpensComment(s) then
      match CommentLength(s[2..])
      case None => Err(UnclosedComment)
      case Some(n) => Prepend(" ", Strip(Outside, s[2 + n..]))
    else
      Prepend([s[0]], Strip(Step(q, s[0]), s[1..]))
  }

  lemma PrependNothing(r: Result<string, StripError>)
    ensures Prepend("", r) == r
  {
    if r.Ok? { assert "" + r.value == r.value; }
  }

  lemma PrependTwice(a: string, b: string, r: Result<string, StripError>)
    ensures Prepend(a, Prepend(b, r)) == Prepend(a + b, r)
  {
    if r.Ok? { assert a + (b + r.value) == (a + b) + r.value; }
  }

  /** The inner loop: skip a comment, remembering only the previous character. */
  method SkipComment(input: string, start: nat) returns (end: Option<nat>)
    requires start <= |input|
    ensures end.Some? <==> CommentLength(input[start..]).Some?
    ensures end.Some? ==> end.value == start + CommentLength(input[start..]).value
  {
    var previous := '\0';
    var i := start;
    while i < |input|
      invariant start <= i <= |input|
      invariant i == start ==> previous == '\0'
      invariant start < i ==> previous == input[i - 1]
      invariant var from := if start < i then i - 1 else i;
                && (CommentLength(input[start..]).Some? <==> CommentLength(input[from..]).Some?)
                && (CommentLength(input[start..]).Some? ==>
                      start + CommentLength(input[start..]).value
                      == from + CommentLength(input[from..]).value)
    {
      var comment := input[i];
      if previous == '*' && comment == '/' {
        assert input[i - 1..][1..] == input[i..];
        return Some(i + 1);
      }
      if start < i { assert input[i - 1..][1..] == input[i..]; }
      previous := comment;
      i := i + 1;
    }
    return None;
  }

  method StripComments(input: string) returns (r: Result<string, StripError>)
    ensures r == Strip(Outside, input)
  {
    var out := "";
    var i := 0;
    var quoted, escaped := false, false;
    assert input[0..] == input;
    PrependNothing(Strip(Outside, input));
    while i < |input|
      invariant 0 <= i <= |input|
      invariant escaped ==> quoted
      invariant Strip(Outside, input) == Prepend(out, Strip(State(quoted, escaped), input[i..]))
    {
      var character := input[i];
      ghost var q := State(quoted, escaped);
      ghost var rest := input[i..];
      assert rest[1..] == input[i + 1..];
      i := i + 1;
      if quoted {
        PrependTwice(out, [character], Strip(Step(q, character), rest[1..]));
        out := out + [character];
        if escaped {
          escaped := false;
        } else if character == '\\' {
          escaped := true;
        } else if character == '"' {
          quoted := false;
        }
      } else if character == '"' {
        PrependTwice(out, [character], Strip(Step(q, character), rest[1..]));
        quoted := true;
        out := out + [character];
      } else if character == '/' && i < |input| && input[i] == '*' {
        assert rest[2..] == input[i + 1..];
        var end := SkipComment(input, i + 1);
        if end.None? {
          return Err(UnclosedComment);
        }
        i := end.value;
        assert rest[2 + CommentLength(rest[2..]).value..] == input[i..];
        PrependTwice(out, " ", Strip(Outside, input[i..]));
        out := out + " ";
      } else {
        PrependTwice(out, [character], Strip(Step(q, character), rest[1..]));
        out := out + [character];
      }
    }
    assert input[i..] == [];
    if quoted {
      return Err(UnclosedQuote);
    }
    assert out + [] == out;
    return Ok(out);
  }

  function State(quoted: bool, escaped: bool): Quote {
    if !quoted then Outside else if escaped then Escaped else Inside
  }

  /** No comment opens outside quotes anywhere in `s`. */
  ghost predicate Uncommented(q: Quote, s: string)
    decreases |s|
  {
    s == [] || (!(q == Outside && OpensComment(s)) && Uncommented(Step(q, s[0]), s[1..]))
  }

  /** What a stripped text starts with, when it starts outside quotes. */
  lemma StripHead(s: string)
    requires Strip(Outside, s).Ok? && Strip(Outside, s).value != []
    ensures s != []
    ensures Strip(Outside, s).value[0] == '*' ==> s[0] == '*'
  {
  }

  /** Whatever comes out of the comment stripper has every quote closed and no comment. */
  lemma {:induction false} StripClean(q: Quote, s: string)
    requires Strip(q, s).Ok?
    ensures Scan(q, Strip(q, s).value) == Outside
    ensures Uncommented(q, Strip(q, s).value)
    ensures Bytes(Strip(q, s).value) <= Bytes(s)
    decreases |s|
  {
    if s != [] {
      var out := Strip(q, s).value;
      if q == Outside && OpensComment(s) {
        var n := 2 + CommentLength(s[2..]).value;
        StripClean(Outside, s[n..]);
        assert out[1..] == Strip(Outside, s[n..]).value;
        assert s == s[..n] + s[n..];
        BytesConcat(s[..n], s[n..]);
        BytesAtLeastLength(s[..n]);
      } else {
        StripClean(Step(q, s[0]), s[1..]);
        assert out[1..] == Strip(Step(q, s[0]), s[1..]).value;
        if q == Outside && s[0] == '/' && out[1..] != [] { StripHead(s[1..]); }
      }
    }
  }

  /** A text with every quote closed and no comment is left alone. */
  lemma {:induction false} StripFixed(q: Quote, s: string)
    requires Scan(q, s) == Outside && Uncommented(q, s)
    ensures Strip(q, s) == Ok(s)
    decreases |s|
  {
    if s != [] {
      StripFixed(Step(q, s[0]), s[1..]);
      assert [s[0]] + s[1..] == s;
    }
  }

  /** Comment stripping is a projection onto the balanced, comment-free texts. */
  lemma StripIsProjection(input: string)
    requires Strip(Outside, input).Ok?
    ensures var out := Strip(Outside, input).value;
            Scan(Outside, out) == Outside && Uncommented(Outside, out) && Strip(Outside, out) == Ok(out)
  {
    StripClean(Outside, input);
    StripFixed(Outside, Strip(Outside, input).value);
  }

  /** `body` does not close a comment. */
  ghost predicate NoCommentEnd(body: string) {
    forall i :: 0 <= i < |body| - 1 ==> !(body[i] == '*' && body[i + 1] == '/')
  }

  lemma {:induction false} CommentLengthOf(body: string, after: string)
    requires NoCommentEnd(body)
    ensures CommentLength(body + "*/" + after) == Some(|body| + 2)
  {
    var s := body + "*/" + after;
    if body != [] {
      assert forall i :: 0 <= i < |body| - 1 ==> body[1..][i] == body[i + 1];
      CommentLengthOf(body[1..], after);
      assert s[1..] == body[1..] + "*/" + after;
      assert |body| > 1 ==> s[1] == body[1];
    }
  }

  lemma StripFirstComment(body: string, after: string)
    requires NoCommentEnd(body)
    ensures Strip(Outside, "/*" + (body + "*/" + after)) == Prepend(" ", Strip(Outside, after))
  {
    var comment := body + "*/" + after;
    var s := "/*" + comment;
    CommentLengthOf(body, after);
    assert s[2..] == comment;
    assert comment[|body| + 2..] == after;
    assert s[2 + |body| + 2..] == comment[|body| + 2..];
  }

  lemma StripFirstCharacter(q: Quote, s: string, before: string, r: Result<string, StripError>)
    requires s != [] && !(q == Outside && OpensComment(s))
    requires Strip(Step(q, s[0]), s[1..]) == Prepend(before, r)
    ensures Strip(q, s) == Prepend([s[0]] + before, r)
  {
    PrependTwice([s[0]], before, r);
  }

  /** A comment that opens outside quotes becomes one space, and stripping goes on after it.
      With `StripFixed` this fixes the output on every input that strips. */
  lemma {:induction false} StripReplacesComment(q: Quote, before: string, body: string, after: string)
    requires Scan(q, before) == Outside && Uncommented(q, before) && NoCommentEnd(body)
    ensures Strip(q, before + ("/*" + (body + "*/" + after))) == Prepend(before + " ", Strip(Outside, after))
    decreases |before|
  {
    var comment := "/*" + (body + "*/" + after);
    if before == [] {
      StripFirstComment(body, after);
      assert before + comment == comment && before + " " == " ";
    } else {
      var s := before + comment;
      StripReplacesComment(Step(q, before[0]), before[1..], body, after);
      assert s[1..] == before[1..] + comment;
      assert OpensComment(s) ==> OpensComment(before);
      StripFirstCharacter(q, s, before[1..] + " ", Strip(Outside, after));
      assert [before[0]] + (before[1..] + " ") == before + " ";
    }
  }

  lemma {:induction false} UnclosedQuoteStays(q: Quote, s: string)
    requires Uncommented(q, s) && Scan(q, s) != Outside
    ensures Strip(q, s) == Err(UnclosedQuote)
    decreases |s|
  {
    if s != [] { UnclosedQuoteStays(Step(q, s[0]), s[1..]); }
  }

  lemma {:induction false} NoEndNoLength(rest: string)
    requires NoCommentEnd(rest)
    ensures CommentLength(rest).None?
  {
    if |rest| >= 2 {
      assert forall i :: 0 <= i < |rest| - 1 ==> rest[1..][i] == rest[i + 1];
      NoEndNoLength(rest[1..]);
    }
  }

  lemma {:induction false} UnclosedCommentStays(q: Quote, before: string, rest: string)
    requires Scan(q, before) == Outside && Uncommented(q, before) && NoCommentEnd(rest)
    ensures Strip(q, before + ("/*" + rest)) == Err(UnclosedComment)
    decreases |before|
  {
    var s := before + ("/*" + rest);
    if before == [] {
      NoEndNoLength(rest);
      assert s[2..] == rest;
    } else {
      UnclosedCommentStays(Step(q, before[0]), before[1..], rest);
      assert s[1..] == before[1..] + ("/*" + rest);
      assert OpensComment(s) ==> OpensComment(before);
    }
  }

  /** Where the first comment outside quotes opens. */
  lemma {:induction false} FirstComment(q: Quote, s: string) returns (before: string, rest: string)
    requires !Uncommented(q, s)
    ensures s == before + ("/*" + rest) && Scan(q, before) == Outside && Uncommented(q, before)
    decreases |s|
  {
    if q == Outside && OpensComment(s) {
      before, rest := [], s[2..];
      assert s == "/*" + rest && [] + ("/*" + rest) == "/*" + rest;
    } else {
      var more;
      more, rest := FirstComment(Step(q, s[0]), s[1..]);
      before := [s[0]] + more;
      assert before[1..] == more;
      assert OpensComment(before) ==> OpensComment(s);
    }
  }

  lemma LaterEnd(rest: string)
    requires !NoCommentEnd(rest) && !(rest[0] == '*' && rest[1] == '/')
    ensures !NoCommentEnd(rest[1..])
  {
    var i :| 0 <= i < |rest| - 1 && rest[i] == '*' && rest[i + 1] == '/';
    assert rest[1..][i - 1] == '*' && rest[1..][i] == '/';
  }

  lemma NoEndBefore(c: char, more: string)
    requires NoCommentEnd(more) && !(c == '*' && more != [] && more[0] == '/')
    ensures NoCommentEnd([c] + more)
  {
    var body := [c] + more;
    forall k | 0 <= k < |body| - 1 ensures !(body[k] == '*' && body[k + 1] == '/') {
      if k > 0 { assert body[k] == more[k - 1]; }
      assert body[k + 1] == more[k];
    }
  }

  /** Where the first comment end is. */
  lemma {:induction false} FirstEnd(rest: string) returns (body: string, after: string)
    requires !NoCommentEnd(rest)
    ensures rest == body + "*/" + after && NoCommentEnd(body)
    decreases |rest|
  {
    if rest[0] == '*' && rest[1] == '/' {
      body, after := [], rest[2..];
    } else {
      LaterEnd(rest);
      var more;
      more, after := FirstEnd(rest[1..]);
      body := [rest[0]] + more;
      assert rest == [rest[0]] + rest[1..];
      assert more != [] ==> more[0] == rest[1];
      NoEndBefore(rest[0], more);
    }
  }

  /** Every text is stripped in one of four ways. Without a comment it is left alone, or refused
      when a quote is open at its end; with one, that comment is not closed and the text is refused,
      or it becomes a space and stripping goes on after it. */
  lemma StripCases(s: string) returns (before: string, rest: string, body: string, after: string)
    ensures Uncommented(Outside, s) ==> Strip(Outside, s) == if Scan(Outside, s) == Outside then Ok(s) else Err(UnclosedQuote)
    ensures !Uncommented(Outside, s) ==>
              && s == before + ("/*" + rest) && Scan(Outside, before) == Outside && Uncommented(Outside, before)
              && (NoCommentEnd(rest) ==> Strip(Outside, s) == Err(UnclosedComment))
              && (!NoCommentEnd(rest) ==> rest == body + "*/" + after && NoCommentEnd(body)
                                          && Strip(Outside, s) == Prepend(before + " ", Strip(Outside, after)))
  {
    before, rest, body, after := [], [], [], [];
    if Uncommented(Outside, s) {
      if Scan(Outside, s) == Outside { StripFixed(Outside, s); } else { UnclosedQuoteStays(Outside, s); }
    } else {
      before, rest := FirstComment(Outside, s);
      if NoCommentEnd(rest) {
        UnclosedCommentStays(Outside, before, rest);
      } else {
        body, after := FirstEnd(rest);
        StripReplacesComment(Outside, before, body, after);
      }
    }
  }

  /** Pieces that leave the scanner outside, and do not put a `/` against a `*`, join into a
      comment-free text. */
  lemma {:induction false} UncommentedConcat(q: Quote, a: string, b: string)
    requires Uncommented(q, a) && Uncommented(Scan(q, a), b)
    requires (a != [] && a[|a| - 1] == '/') ==> (b == [] || b[0] != '*')
    ensures Uncommented(q, a + b)
    decreases |a|
  {
    if a == [] {
      assert a + b == b;
    } else {
      UncommentedConcat(Step(q, a[0]), a[1..], b);
      assert (a + b)[1..] == a[1..] + b;
    }
  }

  // -- split_declarations ------------------------------------------------------------

  /** The pieces of `s` between the semicolons that stand outside quotes. */
  function Split(q: Quote, s: string): (chunks: seq<string>)
    ensures chunks != []
    decreases |s|
  {
    if s == [] then [[]]
    else if q == Outside && s[0] == ';' then [[]] + Split(Outside, s[1..])
    else
      var rest := Split(Step(q, s[0]), s[1..]);
      [[s[0]] + rest[0]] + rest[1..]
  }

  /** `chunks` with its last element extended by what `tail` splits into. */
  function Continue(chunks: seq<string>, piece: string, tail: seq<string>): seq<string>
    requires tail != []
  {
    chunks + [piece + tail[0]] + tail[1..]
  }

  lemma ContinueAfterCut(chunks: seq<string>, piece: string, tail: seq<string>)
    requires tail != []
    ensures Continue(chunks, piece, [[]] + tail) == Continue(chunks + [piece], [], tail)
  {
    assert piece + [] == piece && [] + tail[0] == tail[0];
    assert ([[]] + tail)[1..] == tail;
  }

  lemma ContinueAfterCharacter(chunks: seq<string>, piece: string, c: char, tail: seq<string>)
    requires tail != []
    ensures Continue(chunks, piece, [[c] + tail[0]] + tail[1..]) == Continue(chunks, piece + [c], tail)
  {
    assert piece + ([c] + tail[0]) == (piece + [c]) + tail[0];
    assert ([[c] + tail[0]] + tail[1..])[1..] == tail[1..];
  }

  method SplitDeclarations(input: string) returns (chunks: seq<string>)
    ensures chunks == Split(Outside, input)
  {
    chunks := [];
    var start, i := 0, 0;
    var quoted, escaped := false, false;
    ghost var whole := Split(Outside, input);
    assert input[0..0] == [] && input[0..] == input;
    assert [] + whole[0] == whole[0] && Continue([], [], whole) == whole;
    while i < |input|
      invariant 0 <= start <= i <= |input|
      invariant escaped ==> quoted
      invariant Split(Outside, input)
                == Continue(chunks, input[start..i], Split(State(quoted, escaped), input[i..]))
    {
      var character := input[i];
      ghost var before := chunks;
      ghost var piece := input[start..i];
      ghost var q := State(quoted, escaped);
      assert input[i..][1..] == input[i + 1..];
      if quoted {
        if escaped {
          escaped := false;
        } else if character == '\\' {
          escaped := true;
        } else if character == '"' {
          quoted := false;
        }
      } else if character == '"' {
        quoted := true;
      } else if character == ';' {
        chunks := chunks + [input[start..i]];
        start := i + 1;
      }
      i := i + 1;
      ghost var tail := Split(State(quoted, escaped), input[i..]);
      if q == Outside && character == ';' {
        ContinueAfterCut(before, piece, tail);
        assert input[start..i] == [];
      } else {
        ContinueAfterCharacter(before, piece, character, tail);
        assert input[start..i] == piece + [character];
      }
    }
    assert input[i..] == [];
    chunks := chunks + [input[start..]];
    assert input[start..i] + [] == input[start..];
  }

  /** No semicolon stands outside quotes in `s`. */
  ghost predicate NoSplit(q: Quote, s: string)
    decreases |s|
  {
    s == [] || (!(q == Outside && s[0] == ';') && NoSplit(Step(q, s[0]), s[1..]))
  }

  lemma JoinHead(c: char, rest: seq<string>)
    requires rest != []
    ensures Join([[c] + rest[0]] + rest[1..], ";") == [c] + Join(rest, ";")
  {
    var grown := [[c] + rest[0]] + rest[1..];
    assert grown[1..] == rest[1..];
    if |rest| > 1 {
      assert ([c] + rest[0]) + ";" + Join(rest[1..], ";") == [c] + (rest[0] + ";" + Join(rest[1..], ";"));
    }
  }

  lemma JoinEmptyFirst(rest: seq<string>)
    requires rest != []
    ensures Join([[]] + rest, ";") == ";" + Join(rest, ";")
  {
    assert ([[]] + rest)[1..] == rest;
    assert [] + ";" + Join(rest, ";") == ";" + Join(rest, ";");
  }

  /** Splitting loses nothing: the chunks with semicolons between them are the source. */
  lemma {:induction false} SplitJoin(q: Quote, s: string)
    ensures Join(Split(q, s), ";") == s
    decreases |s|
  {
    if s != [] {
      assert s == [s[0]] + s[1..];
      if q == Outside && s[0] == ';' {
        SplitJoin(Outside, s[1..]);
        JoinEmptyFirst(Split(Outside, s[1..]));
      } else {
        SplitJoin(Step(q, s[0]), s[1..]);
        JoinHead(s[0], Split(Step(q, s[0]), s[1..]));
      }
    }
  }

  /** Every chunk of a balanced source opens and closes outside quotes and holds no
      semicolon there. */
  lemma {:induction false} SplitChunks(q: Quote, s: string)
    requires Scan(q, s) == Outside
    ensures var chunks := Split(q, s);
            && Scan(q, chunks[0]) == Outside && NoSplit(q, chunks[0])
            && forall k :: 0 < k < |chunks| ==> Scan(Outside, chunks[k]) == Outside && NoSplit(Outside, chunks[k])
    decreases |s|
  {
    if s != [] {
      if q == Outside && s[0] == ';' {
        SplitChunks(Outside, s[1..]);
      } else {
        SplitChunks(Step(q, s[0]), s[1..]);
        var rest := Split(Step(q, s[0]), s[1..]);
        assert ([s[0]] + rest[0])[1..] == rest[0];
      }
    }
  }

  /** A closed piece without semicolons, then a semicolon, is one chunk. */
  lemma {:induction false} SplitAt(q: Quote, piece: string, rest: string)
    requires Scan(q, piece) == Outside && NoSplit(q, piece)
    ensures Split(q, piece + ";" + rest) == [piece] + Split(Outside, rest)
    decreases |piece|
  {
    var s := piece + ";" + rest;
    if piece == [] {
      assert s == ";" + rest;
      assert s[1..] == rest;
    } else {
      SplitAt(Step(q, piece[0]), piece[1..], rest);
      assert s[1..] == piece[1..] + ";" + rest;
      assert [piece[0]] + piece[1..] == piece;
    }
  }

  /** Where chunk `k` starts in the text the chunks were split from. */
  function Offset(chunks: seq<string>, k: nat): nat
    requires k <= |chunks|
  {
    if k == 0 then 0 else |chunks[0]| + 1 + Offset(chunks[1..], k - 1)
  }

  /** A balanced source is its first chunk, a semicolon, and a balanced rest. */
  lemma SplitFirst(source: string) returns (rest: string)
    requires Scan(Outside, source) == Outside && |Split(Outside, source)| > 1
    ensures var first := Split(Outside, source)[0];
            source == (first + ";") + rest && Scan(Outside, first + ";") == Outside
    ensures Scan(Outside, rest) == Outside && Split(Outside, rest) == Split(Outside, source)[1..]
  {
    var chunks := Split(Outside, source);
    SplitJoin(Outside, source);
    SplitChunks(Outside, source);
    rest := Join(chunks[1..], ";");
    SplitAt(Outside, chunks[0], rest);
    ScanConcat(Outside, chunks[0] + ";", rest);
    ScanConcat(Outside, chunks[0], ";");
  }

  /** The first `i` characters of `chunk` stand at `at` in `source`, and a scan that starts
      at the chunk is there in the same quote state as the scan of the whole source. */
  ghost predicate SeenAlike(source: string, at: nat, chunk: string, i: nat)
    requires i <= |chunk|
  {
    && at + i <= |source|
    && source[at..at + i] == chunk[..i]
    && Scan(Outside, source[..at + i]) == Scan(Outside, chunk[..i])
  }

  lemma SeenAfter(source: string, head: string, rest: string, at: nat, chunk: string, i: nat)
    requires source == head + rest && Scan(Outside, head) == Outside
    requires i <= |chunk| && SeenAlike(rest, at, chunk, i)
    ensures SeenAlike(source, |head| + at, chunk, i)
  {
    assert (head + rest)[..|head| + at + i] == head + rest[..at + i];
    ScanConcat(Outside, head, rest[..at + i]);
  }

  lemma SeenFirst(source: string, i: nat)
    requires i <= |Split(Outside, source)[0]|
    ensures SeenAlike(source, 0, Split(Outside, source)[0], i)
  {
    SplitJoin(Outside, source);
    assert source[..i] == Split(Outside, source)[0][..i];
  }

  lemma SeenNext(source: string, rest: string, chunks: seq<string>, k: nat, i: nat)
    requires 0 < k < |chunks| && i <= |chunks[k]|
    requires source == (chunks[0] + ";") + rest && Scan(Outside, chunks[0] + ";") == Outside
    requires SeenAlike(rest, Offset(chunks[1..], k - 1), chunks[k], i)
    ensures SeenAlike(source, Offset(chunks, k), chunks[k], i)
  {
    SeenAfter(source, chunks[0] + ";", rest, Offset(chunks[1..], k - 1), chunks[k], i);
  }

  /** The scanners agree. At every position of every chunk, a scan that starts at the chunk
      is in the same quote state as the scan of the whole balanced source. */
  lemma {:induction false} ScannersAgree(source: string, chunks: seq<string>, k: nat, i: nat)
    requires Scan(Outside, source) == Outside && chunks == Split(Outside, source)
    requires k < |chunks| && i <= |chunks[k]|
    ensures SeenAlike(source, Offset(chunks, k), chunks[k], i)
    decreases k
  {
    if k == 0 {
      SeenFirst(source, i);
    } else {
      var rest := SplitFirst(source);
      var later := chunks[1..];
      ScannersAgree(rest, later, k - 1, i);
      SeenNext(source, rest, chunks, k, i);
    }
  }

  // -- find_outside_quotes -----------------------------------------------------------

  function FindOutside(q: Quote, s: string, wanted: char -> bool): Option<char>
    decreases |s|
  {
    if s == [] then None
    else if q == Outside && s[0] != '"' && wanted(s[0]) then Some(s[0])
    else FindOutside(Step(q, s[0]), s[1..], wanted)
  }

  method FindOutsideQuotes(input: string, wanted: char -> bool) returns (found: Option<char>)
    ensures found == FindOutside(Outside, input, wanted)
  {
    var i := 0;
    var quoted, escaped := false, false;
    while i < |input|
      invariant 0 <= i <= |input|
      invariant escaped ==> quoted
      invariant FindOutside(Outside, input, wanted)
                == FindOutside(State(quoted, escaped), input[i..], wanted)
    {
      var character := input[i];
      assert input[i..][1..] == input[i + 1..];
      if quoted {
        if escaped {
          escaped := false;
        } else if character == '\\' {
          escaped := true;
        } else if character == '"' {
          quoted := false;
        }
      } else if character == '"' {
        quoted := true;
      } else if wanted(character) {
        return Some(character);
      }
      i := i + 1;
    }
    return None;
  }

  /** What the search means: the first wanted character at which the scan is outside quotes,
      and none when there is no such position. */
  lemma {:induction false} FindOutsideMeaning(q: Quote, s: string, wanted: char -> bool)
    ensures FindOutside(q, s, wanted).None? <==>
            forall i :: 0 <= i < |s| && s[i] != '"' && wanted(s[i]) ==> Scan(q, s[..i]) != Outside
    decreases |s|
  {
    if s != [] {
      var found := FindOutside(q, s, wanted);
      assert s[..0] == [];
      if !(q == Outside && s[0] != '"' && wanted(s[0])) {
        FindOutsideMeaning(Step(q, s[0]), s[1..], wanted);
        forall i | 0 < i < |s|
          ensures Scan(q, s[..i]) == Scan(Step(q, s[0]), s[1..][..i - 1]) && s[i] == s[1..][i - 1]
        {
          assert s[..i][1..] == s[1..][..i - 1];
        }
        if found.None? {
          forall i | 0 <= i < |s| && s[i] != '"' && wanted(s[i])
            ensures Scan(q, s[..i]) != Outside
          {
            if i > 0 { assert s[i] == s[1..][i - 1]; }
          }
        } else {
          var j :| 0 <= j < |s[1..]| && s[1..][j] != '"' && wanted(s[1..][j])
                   && Scan(Step(q, s[0]), s[1..][..j]) == Outside;
          assert Scan(q, s[..j + 1]) == Outside && s[j + 1] == s[1..][j];
        }
      }
    }
  }

  lemma {:induction false} FindOutsideConcat(q: Quote, a: string, b: string, wanted: char -> bool)
    requires FindOutside(q, a, wanted).None? && FindOutside(Scan(q, a), b, wanted).None?
    ensures FindOutside(q, a + b, wanted).None?
    decreases |a|
  {
    if a == [] {
      assert a + b == b;
    } else {
      FindOutsideConcat(Step(q, a[0]), a[1..], b, wanted);
      assert (a + b)[1..] == a[1..] + b;
    }
  }

  // -- inert text ----------------------------------------------------------------------

  /** Text that no scanner reacts to: its quotes close, and outside them it has no comment,
      no semicolon and no wanted character. */
  ghost predicate Inert(s: string, wanted: char -> bool) {
    && Scan(Outside, s) == Outside
    && Uncommented(Outside, s)
    && NoSplit(Outside, s)
    && FindOutside(Outside, s, wanted).None?
    && (s != [] ==> s[0] != '*')
  }

  lemma {:induction false} NoSplitConcat(q: Quote, a: string, b: string)
    requires NoSplit(q, a) && NoSplit(Scan(q, a), b)
    ensures NoSplit(q, a + b)
    decreases |a|
  {
    if a == [] {
      assert a + b == b;
    } else {
      NoSplitConcat(Step(q, a[0]), a[1..], b);
      assert (a + b)[1..] == a[1..] + b;
    }
  }

  lemma InertConcat(a: string, b: string, wanted: char -> bool)
    requires Inert(a, wanted) && Inert(b, wanted)
    ensures Inert(a + b, wanted)
  {
    ScanConcat(Outside, a, b);
    UncommentedConcat(Outside, a, b);
    NoSplitConcat(Outside, a, b);
    FindOutsideConcat(Outside, a, b, wanted);
  }

  lemma {:induction false} InertPlain(s: string, wanted: char -> bool)
    requires forall i :: 0 <= i < |s| ==> s[i] != '"' && s[i] != ';' && s[i] != '*' && !wanted(s[i])
    ensures Inert(s, wanted)
  {
    if s != [] { InertPlain(s[1..], wanted); }
  }

  /** Looking for fewer characters finds nothing more. */
  lemma {:induction false} FindOutsideWeaken(q: Quote, s: string, wanted: char -> bool, fewer: char -> bool)
    requires forall c: char :: fewer(c) ==> wanted(c)
    requires FindOutside(q, s, wanted).None?
    ensures FindOutside(q, s, fewer).None?
    decreases |s|
  {
    if s != [] { FindOutsideWeaken(Step(q, s[0]), s[1..], wanted, fewer); }
  }
}
