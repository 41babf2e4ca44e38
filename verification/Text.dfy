/** Text as the server sees it: a `string` is a sequence of Unicode scalar values, and
    the library calls the profile code makes on it are written out here. */
module Text {

  datatype Option<+T> = None | Some(value: T)

  datatype Result<+T, +E> = Ok(value: T) | Err(error: E)

  /** The Unicode White_Space property, which `trim` and `split_whitespace` test. */
  predicate IsWhitespace(c: char) {
    || '\t' <= c <= '\r' || c == ' ' || c == '\U{0085}' || c == '\U{00A0}' || c == '\U{1680}'
    || '\U{2000}' <= c <= '\U{200A}' || c == '\U{2028}' || c == '\U{2029}'
    || c == '\U{202F}' || c == '\U{205F}' || c == '\U{3000}'
  }

  /** The Unicode general category Cc. */
  predicate IsControl(c: char) {
    c < ' ' || '\U{007F}' <= c <= '\U{009F}'
  }

  predicate IsDigit(c: char) { '0' <= c <= '9' }

  predicate IsLetter(c: char) { 'a' <= c <= 'z' || 'A' <= c <= 'Z' }

  /** The value of a hexadecimal digit of either case. */
  function HexDigit(c: char): (n: Option<nat>)
    ensures n.Some? ==> n.value < 16
  {
    if '0' <= c <= '9' then Some(c as nat - '0' as nat)
    else if 'a' <= c <= 'f' then Some(c as nat - 'a' as nat + 10)
    else if 'A' <= c <= 'F' then Some(c as nat - 'A' as nat + 10)
    else None
  }

  // -- byte length ---------------------------------------------------------------

  /** How many bytes a scalar value takes in UTF-8. */
  function CharBytes(c: char): (n: nat)
    ensures 1 <= n <= 4
  {
    if c < '\U{0080}' then 1 else if c < '\U{0800}' then 2 else if c < '\U{10000}' then 3 else 4
  }

  /** The byte length that `str::len` reports. */
  function Bytes(s: string): nat {
    if s == [] then 0 else CharBytes(s[0]) + Bytes(s[1..])
  }

  lemma {:induction false} BytesConcat(a: string, b: string)
    ensures Bytes(a + b) == Bytes(a) + Bytes(b)
  {
    if a == [] {
      assert a + b == b;
    } else {
      BytesConcat(a[1..], b);
      assert (a + b)[1..] == a[1..] + b;
    }
  }

  lemma BytesConcat3(a: string, b: string, c: string)
    ensures Bytes(a + b + c) == Bytes(a) + Bytes(b) + Bytes(c)
  {
    BytesConcat(a + b, c);
    BytesConcat(a, b);
  }

  lemma {:induction false} BytesAtLeastLength(s: string)
    ensures |s| <= Bytes(s)
  {
    if s != [] { BytesAtLeastLength(s[1..]); }
  }

  // -- ASCII case ----------------------------------------------------------------

  function LowerChar(c: char): char {
    if 'A' <= c <= 'Z' then c - 'A' + 'a' else c
  }

  /** `to_ascii_lowercase` */
  function Lower(s: string): (r: string)
    ensures |r| == |s|
    ensures forall i :: 0 <= i < |s| ==> r[i] == LowerChar(s[i])
  {
    seq(|s|, i requires 0 <= i < |s| => LowerChar(s[i]))
  }

  predicate IsLower(s: string) {
    forall i :: 0 <= i < |s| ==> !('A' <= s[i] <= 'Z')
  }

  lemma LowerFixed(s: string)
    requires IsLower(s)
    ensures Lower(s) == s
  {
  }

  lemma LowerIsLower(s: string)
    ensures IsLower(Lower(s)) && Lower(Lower(s)) == Lower(s)
  {
    LowerFixed(Lower(s));
  }

  lemma {:induction false} LowerBytes(s: string)
    ensures Bytes(Lower(s)) == Bytes(s)
  {
    if s != [] {
      LowerBytes(s[1..]);
      assert Lower(s)[1..] == Lower(s[1..]);
    }
  }

  // -- order ---------------------------------------------------------------------

  /** The order of texts by their scalar values, which is also that of their UTF-8 bytes. */
  predicate AtMost(a: string, b: string) {
    a == [] || (b != [] && (a[0] < b[0] || (a[0] == b[0] && AtMost(a[1..], b[1..]))))
  }

  lemma {:induction false} AtMostTotal(a: string, b: string)
    ensures AtMost(a, b) || AtMost(b, a)
    ensures AtMost(a, b) && AtMost(b, a) ==> a == b
  {
    if a != [] && b != [] && a[0] == b[0] {
      AtMostTotal(a[1..], b[1..]);
      assert a == [a[0]] + a[1..] && b == [b[0]] + b[1..];
    }
  }

  lemma {:induction false} AtMostTransitive(a: string, b: string, c: string)
    requires AtMost(a, b) && AtMost(b, c)
    ensures AtMost(a, c)
  {
    if a != [] && a[0] == b[0] == c[0] { AtMostTransitive(a[1..], b[1..], c[1..]); }
  }

  // -- trimming ------------------------------------------------------------------

  ghost predicate Blank(s: string) {
    forall i :: 0 <= i < |s| ==> IsWhitespace(s[i])
  }

  ghost predicate IsTrimmed(s: string) {
    s == [] || (!IsWhitespace(s[0]) && !IsWhitespace(s[|s| - 1]))
  }

  function TrimStart(s: string): string {
    if s != [] && IsWhitespace(s[0]) then TrimStart(s[1..]) else s
  }

  function TrimEnd(s: string): string {
    if s != [] && IsWhitespace(s[|s| - 1]) then TrimEnd(s[..|s| - 1]) else s
  }

  function Trim(s: string): string {
    TrimEnd(TrimStart(s))
  }

  lemma {:induction false} TrimStartShape(s: string) returns (pre: string)
    ensures Blank(pre) && s == pre + TrimStart(s)
    ensures TrimStart(s) != [] ==> !IsWhitespace(TrimStart(s)[0])
  {
    if s != [] && IsWhitespace(s[0]) {
      var p := TrimStartShape(s[1..]);
      pre := [s[0]] + p;
    } else {
      pre := [];
    }
  }

  lemma {:induction false} TrimEndShape(s: string) returns (post: string)
    ensures Blank(post) && s == TrimEnd(s) + post
    ensures TrimEnd(s) != [] ==> !IsWhitespace(TrimEnd(s)[|TrimEnd(s)| - 1])
  {
    if s != [] && IsWhitespace(s[|s| - 1]) {
      var p := TrimEndShape(s[..|s| - 1]);
      post := p + [s[|s| - 1]];
    } else {
      post := [];
    }
  }

  /** Trimming takes whitespace off both ends and nothing else. */
  lemma TrimShape(s: string) returns (pre: string, post: string)
    ensures Blank(pre) && Blank(post) && s == pre + Trim(s) + post
    ensures IsTrimmed(Trim(s))
  {
    pre := TrimStartShape(s);
    post := TrimEndShape(TrimStart(s));
  }

  lemma {:induction false} TrimStartPadded(pre: string, t: string)
    requires Blank(pre)
    requires t == [] || !IsWhitespace(t[0])
    ensures TrimStart(pre + t) == t
  {
    if pre == [] {
      assert pre + t == t;
    } else {
      TrimStartPadded(pre[1..], t);
      assert (pre + t)[1..] == pre[1..] + t;
    }
  }

  lemma {:induction false} TrimEndPadded(t: string, post: string)
    requires Blank(post)
    requires t == [] || !IsWhitespace(t[|t| - 1])
    ensures TrimEnd(t + post) == t
  {
    if post == [] {
      assert t + post == t;
    } else {
      var n := |post| - 1;
      TrimEndPadded(t, post[..n]);
      assert (t + post)[..|t + post| - 1] == t + post[..n];
    }
  }

  /** A trimmed text is what `trim` finds between any two blank paddings. */
  lemma TrimPadded(pre: string, t: string, post: string)
    requires Blank(pre) && Blank(post) && IsTrimmed(t) && t != []
    ensures Trim(pre + t + post) == t
  {
    assert pre + t + post == pre + (t + post);
    TrimStartPadded(pre, t + post);
    TrimEndPadded(t, post);
  }

  lemma TrimTrimmed(t: string)
    requires IsTrimmed(t)
    ensures Trim(t) == t
  {
    if t != [] {
      TrimPadded([], t, []);
      assert [] + t + [] == t;
    }
  }

  lemma TrimBytes(s: string)
    ensures Bytes(Trim(s)) <= Bytes(s)
  {
    var pre, post := TrimShape(s);
    BytesConcat3(pre, Trim(s), post);
  }

  // -- words ---------------------------------------------------------------------

  function Join(parts: seq<string>, sep: string): string {
    if parts == [] then []
    else if |parts| == 1 then parts[0]
    else parts[0] + sep + Join(parts[1..], sep)
  }

  /** How many characters at the front of `s` are not whitespace. */
  function WordLength(s: string): (n: nat)
    ensures n <= |s|
    ensures forall i :: 0 <= i < n ==> !IsWhitespace(s[i])
    ensures n < |s| ==> IsWhitespace(s[n])
  {
    if s == [] || IsWhitespace(s[0]) then 0 else 1 + WordLength(s[1..])
  }

  /** `split_whitespace` */
  function Words(s: string): seq<string>
    decreases |s|
  {
    if s == [] then []
    else if IsWhitespace(s[0]) then Words(s[1..])
    else
      var n := WordLength(s);
      [s[..n]] + Words(s[n..])
  }

  ghost predicate IsWord(w: string) {
    w != [] && forall i :: 0 <= i < |w| ==> !IsWhitespace(w[i])
  }

  ghost predicate AllWords(ws: seq<string>) {
    forall i :: 0 <= i < |ws| ==> IsWord(ws[i])
  }

  lemma {:induction false} WordsAreWords(s: string)
    ensures AllWords(Words(s))
    decreases |s|
  {
    if s != [] {
      if IsWhitespace(s[0]) {
        WordsAreWords(s[1..]);
      } else {
        WordsAreWords(s[WordLength(s)..]);
      }
    }
  }

  /** A word followed by nothing or by whitespace is the first word. */
  lemma WordsStep(w: string, rest: string)
    requires IsWord(w)
    requires rest == [] || IsWhitespace(rest[0])
    ensures Words(w + rest) == [w] + Words(rest)
  {
    var s := w + rest;
    assert forall i :: 0 <= i < |w| ==> s[i] == w[i];
    assert rest != [] ==> s[|w|] == rest[0];
    var n := WordLength(s);
    assert n == |w|;
    assert s[..n] == w && s[n..] == rest;
  }

  lemma {:induction false} WordsOfJoin(ws: seq<string>)
    requires AllWords(ws)
    ensures Words(Join(ws, " ")) == ws
  {
    if ws != [] {
      if |ws| == 1 {
        WordsStep(ws[0], []);
        assert ws[0] + [] == ws[0];
      } else {
        var rest := " " + Join(ws[1..], " ");
        WordsOfJoin(ws[1..]);
        WordsStep(ws[0], rest);
        assert ws[0] + " " + Join(ws[1..], " ") == ws[0] + rest;
        assert rest[1..] == Join(ws[1..], " ");
      }
    }
  }

  /** `normalize_whitespace`: the words of `s`, one space apart. */
  function NormalizeWhitespace(s: string): string {
    Join(Words(s), " ")
  }

  ghost predicate OnlySpaces(s: string) {
    forall i :: 0 <= i < |s| ==> IsWhitespace(s[i]) ==> s[i] == ' '
  }

  lemma {:induction false} JoinedWordsShape(ws: seq<string>)
    requires AllWords(ws)
    ensures IsTrimmed(Join(ws, " ")) && OnlySpaces(Join(ws, " "))
    ensures ws != [] ==> Join(ws, " ") != [] && !IsWhitespace(Join(ws, " ")[0])
  {
    if |ws| > 1 {
      JoinedWordsShape(ws[1..]);
      var j := Join(ws, " ");
      var t := Join(ws[1..], " ");
      assert j == ws[0] + " " + t;
      assert j[|j| - 1] == t[|t| - 1];
      forall i | 0 <= i < |j| && IsWhitespace(j[i])
        ensures j[i] == ' '
      {
        if i > |ws[0]| { assert j[i] == t[i - |ws[0]| - 1]; }
      }
    }
  }

  /** Normalizing is a projection, and what it leaves is trimmed and spaced by `' '` only. */
  lemma NormalizeCanonical(s: string)
    ensures NormalizeWhitespace(NormalizeWhitespace(s)) == NormalizeWhitespace(s)
    ensures IsTrimmed(NormalizeWhitespace(s)) && OnlySpaces(NormalizeWhitespace(s))
  {
    WordsAreWords(s);
    WordsOfJoin(Words(s));
    JoinedWordsShape(Words(s));
  }

  /** Text that is one word is already normal. */
  lemma NormalizeWord(w: string)
    requires IsWord(w)
    ensures NormalizeWhitespace(w) == w
  {
    WordsStep(w, []);
    assert w + [] == w;
  }

  lemma {:induction false} NormalizeBytes(s: string)
    ensures Bytes(NormalizeWhitespace(s)) <= Bytes(s)
    decreases |s|
  {
    if s != [] {
      if IsWhitespace(s[0]) {
        NormalizeBytes(s[1..]);
      } else {
        var n := WordLength(s);
        var rest := s[n..];
        assert s == s[..n] + rest;
        BytesConcat(s[..n], rest);
        if Words(rest) != [] {
          // The whitespace character that ended the word pays for the space that joins it.
          NormalizeBytes(rest[1..]);
          BytesConcat3(s[..n], " ", Join(Words(rest), " "));
          assert Words(s)[1..] == Words(rest);
        }
      }
    }
  }

  // -- splitting and affixes -------------------------------------------------------

  ghost predicate NoChar(s: string, c: char) {
    forall i :: 0 <= i < |s| ==> s[i] != c
  }

  /** `split_once` on one character: the text before and after its first occurrence. */
  function SplitOnce(s: string, c: char): (r: Option<(string, string)>)
    ensures r.Some? ==> s == r.value.0 + [c] + r.value.1 && NoChar(r.value.0, c)
    ensures r.None? ==> NoChar(s, c)
  {
    if s == [] then None
    else if s[0] == c then
      assert s == [] + [c] + s[1..];
      Some(([], s[1..]))
    else
      match SplitOnce(s[1..], c)
      case None => None
      case Some(p) =>
        assert s == [s[0]] + (p.0 + [c] + p.1);
        Some(([s[0]] + p.0, p.1))
  }

  /** There is only one way to cut a text at the first occurrence of a character. */
  lemma SplitOnceUnique(a: string, c: char, b: string)
    requires NoChar(a, c)
    ensures SplitOnce(a + [c] + b, c) == Some((a, b))
  {
    var s := a + [c] + b;
    assert s[|a|] == c;
    var p := SplitOnce(s, c).value;
    assert s[|p.0|] == c;
    assert forall i :: 0 <= i < |a| ==> s[i] == a[i];
    assert forall i :: 0 <= i < |p.0| ==> s[i] == p.0[i];
    assert |p.0| == |a|;
    assert p.0 == s[..|a|] == a;
    assert p.1 == s[|a| + 1..] == b;
  }

  predicate HasPrefix(s: string, p: string) {
    |p| <= |s| && s[..|p|] == p
  }

  predicate HasSuffix(s: string, p: string) {
    |p| <= |s| && s[|s| - |p|..] == p
  }

  function StripSuffix(s: string, p: string): (r: Option<string>)
    ensures r.Some? ==> s == r.value + p
  {
    if HasSuffix(s, p) then Some(s[..|s| - |p|]) else None
  }
}
