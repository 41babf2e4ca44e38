/** Folder lists as a grammar: which texts denote which names, by sections 2, 5 and 7 of RFC 8259,
    without reading them. */
module FolderGrammar {
  import opened Text
  import opened FolderNames

  // -- characters -------------------------------------------------------------------------------

  ghost predicate Spaces(s: string) {
    forall i :: 0 <= i < |s| ==> s[i] == ' ' || s[i] == '\t' || s[i] == '\n' || s[i] == '\r'
  }

  /** Four hexadecimal digits that denote `n`. */
  ghost predicate Hex(s: string, n: nat) {
    && |s| == 4 && (forall i :: 0 <= i < 4 ==> HexDigit(s[i]).Some?)
    && n == HexDigit(s[0]).value * 4096 + HexDigit(s[1]).value * 256 + HexDigit(s[2]).value * 16 + HexDigit(s[3]).value
  }

  /** The two-character escapes. */
  ghost predicate Short(escape: char, c: char) {
    || (escape == '"' && c == '"') || (escape == '\\' && c == '\\') || (escape == '/' && c == '/')
    || (escape == 'b' && c == '\U{0008}') || (escape == 'f' && c == '\U{000C}') || (escape == 'n' && c == '\U{000A}')
    || (escape == 'r' && c == '\U{000D}') || (escape == 't' && c == '\U{0009}')
  }

  /** A `\u` escape of a scalar value below U+10000. */
  ghost predicate Basic(token: string, c: char) {
    |token| == 6 && token[..2] == "\\u" && Hex(token[2..], c as nat)
  }

  /** Two `\u` escapes that are a surrogate pair. */
  ghost predicate Surrogates(token: string, c: char) {
    && |token| == 12 && token[..2] == "\\u" && token[6..8] == "\\u"
    && exists high: nat, low: nat :: Hex(token[2..6], high) && Hex(token[8..], low) && 0xD800 <= high < 0xDC00 && 0xDC00 <= low < 0xE000
                           && c as nat == 0x10000 + (high - 0xD800) * 0x400 + (low - 0xDC00)
  }

  /** What stands for one character between the quotes of a string. */
  ghost predicate Denotes(token: string, c: char) {
    || (token == [c] && c >= ' ' && c != '"' && c != '\\')
    || (|token| == 2 && token[0] == '\\' && Short(token[1], c))
    || Basic(token, c) || Surrogates(token, c)
  }

  /** `body` stands for `name` between the quotes of a string. */
  ghost predicate Body(body: string, name: string)
    decreases |name|
  {
    if name == [] then body == []
    else exists token, rest :: BodyFrom(body, name, token, rest)
  }

  ghost predicate BodyFrom(body: string, name: string, token: string, rest: string)
    requires name != []
    decreases |name|, 0
  {
    body == token + rest && Denotes(token, name[0]) && Body(rest, name[1..])
  }

  // -- lists ----------------------------------------------------------------------------------------

  /** An element with spaces around it. */
  ghost predicate Element(s: string, name: string) {
    exists pre, body, post :: ElementOf(s, name, pre, body, post)
  }

  ghost predicate ElementOf(s: string, name: string, pre: string, body: string, post: string) {
    s == pre + ("\"" + (body + ("\"" + post))) && Spaces(pre) && Spaces(post) && Body(body, name)
  }

  /** One or more elements with commas between them. */
  ghost predicate List(s: string, names: seq<string>)
    decreases |names|
  {
    if |names| == 0 then false
    else if |names| == 1 then Element(s, names[0])
    else exists first, rest :: ListFrom(s, names, first, rest)
  }

  ghost predicate ListFrom(s: string, names: seq<string>, first: string, rest: string)
    requires |names| > 1
    decreases |names|, 0
  {
    s == first + ("," + rest) && Element(first, names[0]) && List(rest, names[1..])
  }

  // -- reading a string ---------------------------------------------------------------------------

  lemma Hex4Exact(s: string, rest: string, n: nat)
    requires Hex(s, n)
    ensures Hex4(s + rest) == Some(n)
  {
    var t := s + rest;
    assert t[0] == s[0] && t[1] == s[1] && t[2] == s[2] && t[3] == s[3];
  }

  lemma Hex4Sound(s: string)
    requires Hex4(s).Some?
    ensures |s| >= 4 && Hex(s[..4], Hex4(s).value)
  {
  }

  lemma UnicodeIsRead(token: string, c: char, rest: string)
    requires Basic(token, c)
    ensures ReadChar(token + rest) == Some((c, rest))
  {
    var s := token + rest;
    var t := s[1..][1..];
    assert s[0] == '\\' && s[1..][0] == 'u' by { assert token[0] == token[..2][0] && token[1] == token[..2][1]; }
    assert t == token[2..] + rest && t[4..] == rest;
    Hex4Exact(token[2..], rest, c as nat);
  }

  /** Two groups of digits with a `\u` between them, as they stand after the first `\u`. */
  lemma PairIsRead(first: string, high: nat, second: string, low: nat, rest: string)
    requires Hex(first, high) && Hex(second, low) && 0xD800 <= high < 0xDC00 && 0xDC00 <= low < 0xE000
    ensures UnicodeEscape(first + ("\\u" + (second + rest))) == Some(((0x10000 + (high - 0xD800) * 0x400 + (low - 0xDC00)) as char, rest))
  {
    var t := first + ("\\u" + (second + rest));
    Hex4Exact(first, "\\u" + (second + rest), high);
    Hex4Exact(second, rest, low);
    assert t[4] == '\\' && t[5] == 'u' && t[6..] == second + rest && t[10..] == rest;
  }

  lemma PairApart(token: string, rest: string)
    requires |token| == 12 && token[..2] == "\\u" && token[6..8] == "\\u"
    ensures var s := token + rest;
            s[0] == '\\' && s[1] == 'u' && s[2..] == token[2..6] + ("\\u" + (token[8..] + rest))
  {
    var s := token + rest;
    assert s[0] == token[..2][0] && s[1] == token[..2][1];
    assert token == token[..6] + (token[6..8] + token[8..]);
  }

  lemma SurrogatesAreRead(token: string, c: char, rest: string)
    requires Surrogates(token, c)
    ensures ReadChar(token + rest) == Some((c, rest))
  {
    var s := token + rest;
    var high: nat, low: nat :| Hex(token[2..6], high) && Hex(token[8..], low) && 0xD800 <= high < 0xDC00 && 0xDC00 <= low < 0xE000
                               && c as nat == 0x10000 + (high - 0xD800) * 0x400 + (low - 0xDC00);
    PairIsRead(token[2..6], high, token[8..], low, rest);
    PairApart(token, rest);
    assert s[1..][1..] == s[2..];
  }

  lemma ShortIsRead(token: string, c: char, rest: string)
    requires |token| == 2 && token[0] == '\\' && Short(token[1], c)
    ensures ReadChar(token + rest) == Some((c, rest))
  {
    var s := token + rest;
    assert s[1..][0] == token[1] && s[1..][1..] == rest;
  }

  lemma TokenIsRead(token: string, c: char, rest: string)
    requires Denotes(token, c)
    ensures token != [] && token[0] >= ' ' && token[0] != '"' && ReadChar(token + rest) == Some((c, rest))
  {
    if token == [c] && c >= ' ' && c != '"' && c != '\\' {
      assert (token + rest)[1..] == rest;
    } else if Basic(token, c) {
      assert token[0] == token[..2][0];
      UnicodeIsRead(token, c, rest);
    } else if Surrogates(token, c) {
      assert token[0] == token[..2][0];
      SurrogatesAreRead(token, c, rest);
    } else {
      ShortIsRead(token, c, rest);
    }
  }

  lemma {:induction false} BodyIsRead(body: string, name: string, rest: string)
    requires Body(body, name)
    ensures ReadString(body + ("\"" + rest)) == Some((name, rest))
    decreases |name|
  {
    var s := body + ("\"" + rest);
    if name == [] {
      assert s[1..] == rest;
    } else {
      var token, more :| BodyFrom(body, name, token, more);
      TokenIsRead(token, name[0], more + ("\"" + rest));
      assert s == token + (more + ("\"" + rest));
      BodyIsRead(more, name[1..], rest);
      assert [name[0]] + name[1..] == name;
    }
  }

  // -- a string that is read ------------------------------------------------------------------------

  lemma UnicodeSound(s: string)
    requires UnicodeEscape(s).Some?
    ensures var (c, rest) := UnicodeEscape(s).value;
            var n := |s| - |rest|;
            s[n..] == rest && Denotes("\\u" + s[..n], c)
  {
    var (c, rest) := UnicodeEscape(s).value;
    Hex4Sound(s);
    var n := Hex4(s).value;
    if 0xD800 <= n < 0xDC00 {
      Hex4Sound(s[6..]);
      var token := "\\u" + s[..10];
      assert token[2..6] == s[..4] && token[6..8] == s[4..6] && token[8..] == s[6..][..4] && s[4..6] == ['\\', 'u'];
      assert Hex(token[2..6], n) && Hex(token[8..], Hex4(s[6..]).value);
      assert Surrogates(token, c);
    } else {
      var token := "\\u" + s[..4];
      assert token[2..] == s[..4];
      assert Basic(token, c);
    }
  }

  lemma ReadCharSound(s: string)
    requires s != [] && s[0] >= ' ' && s[0] != '"' && ReadChar(s).Some?
    ensures var (c, rest) := ReadChar(s).value;
            var n := |s| - |rest|;
            s[n..] == rest && Denotes(s[..n], c)
  {
    if s[0] == '\\' {
      if s[1] == 'u' {
        assert s[1..][1..] == s[2..];
        UnicodeSound(s[2..]);
        var (c, rest) := UnicodeEscape(s[2..]).value;
        var n := |s[2..]| - |rest|;
        assert s[..n + 2] == "\\u" + s[2..][..n];
        assert s[n + 2..] == s[2..][n..];
      } else {
        assert s[1..][1..] == s[2..];
        assert Short(s[1], ReadChar(s).value.0);
        assert |s[..2]| == 2;
      }
    } else {
      assert s[..1] == [s[0]];
    }
  }

  lemma BodyGrows(token: string, c: char, rest: string, name: string)
    requires Denotes(token, c) && Body(rest, name)
    ensures Body(token + rest, [c] + name)
  {
    assert ([c] + name)[1..] == name;
    assert BodyFrom(token + rest, [c] + name, token, rest);
  }

  lemma TokenApart(s: string, token: string, more: string, rest: string, after: string)
    requires |more| <= |s| && s[|s| - |more|..] == more && token == s[..|s| - |more|] && more == rest + ("\"" + after)
    ensures s == (token + rest) + ("\"" + after)
  {
    assert s == token + more;
  }

  lemma {:induction false} ReadStringSound(s: string) returns (body: string)
    requires ReadString(s).Some?
    ensures Body(body, ReadString(s).value.0) && s == body + ("\"" + ReadString(s).value.1)
    decreases |s|
  {
    if s[0] == '"' {
      body := [];
      assert s == [] + ("\"" + s[1..]);
    } else {
      var (c, more) := ReadChar(s).value;
      ReadCharSound(s);
      var rest := ReadStringSound(more);
      var token := s[..|s| - |more|];
      body := token + rest;
      var (name, after) := ReadString(more).value;
      BodyGrows(token, c, rest, name);
      TokenApart(s, token, more, rest, after);
    }
  }

  // -- reading a list -----------------------------------------------------------------------------------

  lemma {:induction false} SkipSpaces(pre: string, s: string)
    requires Spaces(pre) && (s == [] || !IsJsonSpace(s[0]))
    ensures SkipSpace(pre + s) == s
  {
    if pre == [] {
      assert pre + s == s;
    } else {
      SkipSpaces(pre[1..], s);
      assert (pre + s)[1..] == pre[1..] + s;
    }
  }

  lemma {:induction false} Skipped(s: string) returns (pre: string)
    ensures Spaces(pre) && s == pre + SkipSpace(s)
    ensures SkipSpace(s) != [] ==> !IsJsonSpace(SkipSpace(s)[0])
  {
    if s != [] && IsJsonSpace(s[0]) {
      var more := Skipped(s[1..]);
      pre := [s[0]] + more;
    } else {
      pre := [];
    }
  }

  lemma ElementIsRead(s: string, name: string, after: string)
    requires Element(s, name) && after != [] && !IsJsonSpace(after[0])
    ensures var t := SkipSpace(s + after);
            && t != [] && t[0] == '"' && ReadString(t[1..]).Some?
            && ReadString(t[1..]).value.0 == name && SkipSpace(ReadString(t[1..]).value.1) == after
  {
    var pre, body, post :| ElementOf(s, name, pre, body, post);
    var t := "\"" + (body + ("\"" + (post + after)));
    assert s + after == pre + t;
    SkipSpaces(pre, t);
    BodyIsRead(body, name, post + after);
    assert t[1..] == body + ("\"" + (post + after));
    SkipSpaces(post, after);
  }

  lemma {:induction false} ListIsRead(s: string, names: seq<string>)
    requires List(s, names)
    ensures ReadElements(s + "]") == Some(names)
    decreases |names|
  {
    if |names| == 1 {
      ElementIsRead(s, names[0], "]");
      assert SkipSpace("]"[1..]) == [];
      assert names == [names[0]] + [];
    } else {
      var first, rest :| ListFrom(s, names, first, rest);
      ElementIsRead(first, names[0], "," + (rest + "]"));
      assert s + "]" == first + ("," + (rest + "]"));
      assert ("," + (rest + "]"))[1..] == rest + "]";
      ListIsRead(rest, names[1..]);
      assert names == [names[0]] + names[1..];
    }
  }

  /** The text after an element that is read: its end, or a comma and more. */
  lemma MoreSound(s: string) returns (post: string, rest: string)
    requires ReadMore(s).Some?
    ensures Spaces(post)
    ensures ReadMore(s).value == [] ==> s == post + ("]" + rest) && Spaces(rest)
    ensures ReadMore(s).value != [] ==> s == post + ("," + rest) && ReadElements(rest) == ReadMore(s)
  {
    post := Skipped(s);
    var t := SkipSpace(s);
    rest := t[1..];
    assert t == [t[0]] + rest;
    if t[0] == ']' {
      var spaces := Skipped(rest);
      assert spaces + [] == spaces;
    } else {
      assert ReadElements(rest).value != [] by { ElementsNonempty(rest); }
    }
  }

  lemma ElementsNonempty(s: string)
    requires ReadElements(s).Some?
    ensures ReadElements(s).value != []
  {
  }

  lemma ElementApart(pre: string, body: string, gap: string, rest: string)
    ensures pre + ("\"" + (body + ("\"" + (gap + rest)))) == (pre + ("\"" + (body + ("\"" + gap)))) + rest
  {
  }

  /** The first element of a list that is read, and what follows it. */
  lemma FirstSound(s: string) returns (first: string, rest: string)
    requires ReadElements(s).Some?
    ensures var names := ReadElements(s).value;
            && names != [] && Element(first, names[0]) && |rest| < |s|
            && (|names| == 1 ==> s == first + ("]" + rest) && Spaces(rest))
            && (|names| > 1 ==> s == first + ("," + rest) && ReadElements(rest) == Some(names[1..]))
  {
    var pre := Skipped(s);
    var t := SkipSpace(s);
    var (name, after) := ReadString(t[1..]).value;
    var body := ReadStringSound(t[1..]);
    var gap;
    gap, rest := MoreSound(after);
    first := pre + ("\"" + (body + ("\"" + gap)));
    assert ElementOf(first, name, pre, body, gap);
    var more := ReadMore(after).value;
    assert t == "\"" + t[1..];
    ElementApart(pre, body, gap, (if more == [] then "]" else ",") + rest);
  }

  lemma {:induction false} ElementsSound(s: string) returns (list: string, post: string)
    requires ReadElements(s).Some?
    ensures List(list, ReadElements(s).value) && s == list + ("]" + post) && Spaces(post)
    decreases |s|
  {
    var names := ReadElements(s).value;
    var first, rest := FirstSound(s);
    if |names| == 1 {
      list, post := first, rest;
    } else {
      var more;
      more, post := ElementsSound(rest);
      list := first + ("," + more);
      assert ListFrom(list, names, first, more);
    }
  }

  lemma EndsAtBracket(raw: string, list: string, post: string)
    requires raw + "]" == list + ("]" + post) && Spaces(post)
    ensures post == [] && list == raw
  {
    var s, tail := raw + "]", "]" + post;
    assert (list + tail)[|s| - 1] == tail[|post|];
    assert list == s[..|list|];
  }

  lemma {:induction false} ListOpens(s: string, names: seq<string>)
    requires List(s, names)
    ensures SkipSpace(s + "]") != [] && SkipSpace(s + "]")[0] == '"'
    decreases |names|
  {
    if |names| == 1 {
      ElementIsRead(s, names[0], "]");
    } else {
      var first, rest :| ListFrom(s, names, first, rest);
      ElementIsRead(first, names[0], "," + (rest + "]"));
      assert s + "]" == first + ("," + (rest + "]"));
    }
  }

  /** The server reads a folder list as some names exactly when the grammar says that it is a list
      of them. */
  lemma ListExact(raw: string, names: seq<string>)
    requires names != []
    ensures ReadArray("[" + raw + "]") == Some(names) <==> List(raw, names)
  {
    var text := "[" + raw + "]";
    assert text[1..] == raw + "]";
    if List(raw, names) {
      ListIsRead(raw, names);
      ListOpens(raw, names);
    }
    if ReadArray(text) == Some(names) {
      var list, post := ElementsSound(raw + "]");
      EndsAtBracket(raw, list, post);
    }
  }

  /** One to sixty-four distinct names, each trimmed, of one to forty characters and without
      control characters. */
  ghost predicate Names(names: seq<string>) {
    && 1 <= |names| <= 64
    && (forall i :: 0 <= i < |names| ==> 1 <= |names[i]| <= 40 && IsTrimmed(names[i]))
    && (forall i, k :: 0 <= i < |names| && 0 <= k < |names[i]| ==> !IsControl(names[i][k]))
    && forall i, j :: 0 <= i < j < |names| ==> names[i] != names[j]
  }

  lemma NamesExact(names: seq<string>)
    ensures ValidNames(names) <==> Names(names)
  {
    forall i | 0 <= i < |names| ensures Trim(names[i]) == names[i] <==> IsTrimmed(names[i]) {
      var pre, post := TrimShape(names[i]);
      if IsTrimmed(names[i]) { TrimTrimmed(names[i]); }
    }
  }

  /** A presentation's folder list is taken exactly when it is a list of such names, and it is
      written back from them. */
  lemma CanonicalListExact(raw: string, value: string)
    ensures CanonicalList(raw) == Some(value) <==> exists names :: List(raw, names) && Names(names) && value == Render(names)
  {
    var read := ReadArray("[" + raw + "]");
    if read.Some? && read.value != [] { ListExact(raw, read.value); }
    forall names | List(raw, names) && names != [] ensures read == Some(names) { ListExact(raw, names); }
    forall names ensures ValidNames(names) <==> Names(names) { NamesExact(names); }
  }
}
