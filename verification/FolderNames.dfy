/** Folder lists: one or more JSON strings separated by commas, read and written back in a
    canonical form. Arrays are section 5 of RFC 8259, strings section 7. */
module FolderNames {
  import opened Text
  import opened Scanner

  const MAX_FOLDER_NAME: nat := 40
  const MAX_LAYOUT_FOLDERS: nat := 64

  // -- reading -------------------------------------------------------------------------

  /** The value of four hexadecimal digits at the front of `s`. */
  function Hex4(s: string): (n: Option<nat>)
    ensures n.Some? ==> |s| >= 4
  {
    if |s| < 4 then None
    else
      match (HexDigit(s[0]), HexDigit(s[1]), HexDigit(s[2]), HexDigit(s[3]))
      case (Some(a), Some(b), Some(c), Some(d)) => Some(a * 0x1000 + b * 0x100 + c * 0x10 + d)
      case _ => None
  }

  /** The scalar value a `\u` escape denotes and the text after it; `s` follows the `u`.
      Surrogates count only as a pair. */
  function UnicodeEscape(s: string): (r: Option<(char, string)>)
    ensures r.Some? ==> |r.value.1| < |s|
  {
    match Hex4(s)
    case None => None
    case Some(n) =>
      if 0xD800 <= n < 0xDC00 then
        if |s| >= 6 && s[4] == '\\' && s[5] == 'u' then
          match Hex4(s[6..])
          case Some(low) =>
            if 0xDC00 <= low < 0xE000 then
              Some(((0x10000 + (n - 0xD800) * 0x400 + (low - 0xDC00)) as char, s[10..]))
            else None
          case None => None
        else None
      else if 0xDC00 <= n < 0xE000 || n >= 0x10000 then None
      else Some((n as char, s[4..]))
  }

  /** The scalar value after a backslash, and the text that follows it. */
  function Unescape(s: string): (r: Option<(char, string)>)
    ensures r.Some? ==> |r.value.1| < |s|
  {
    if s == [] then None
    else
      var rest := s[1..];
      match s[0]
      case '"' => Some(('"', rest))
      case '\\' => Some(('\\', rest))
      case '/' => Some(('/', rest))
      case 'b' => Some(('\U{0008}', rest))
      case 'f' => Some(('\U{000C}', rest))
      case 'n' => Some(('\n', rest))
      case 'r' => Some(('\r', rest))
      case 't' => Some(('\t', rest))
      case 'u' => UnicodeEscape(rest)
      case _ => None
  }

  /** One character of a string, escaped or not, and the text after it. */
  function ReadChar(s: string): (r: Option<(char, string)>)
    requires s != []
    ensures r.Some? ==> |r.value.1| < |s|
  {
    if s[0] == '\\' then Unescape(s[1..]) else Some((s[0], s[1..]))
  }

  /** Read a JSON string whose opening quote is already consumed: its value and the text
      after its closing quote. A raw control character below U+0020 is refused. */
  function ReadString(s: string): (r: Option<(string, string)>)
    ensures r.Some? ==> |r.value.1| < |s|
    decreases |s|
  {
    if s == [] || s[0] < ' ' then None
    else if s[0] == '"' then Some(("", s[1..]))
    else
      match ReadChar(s)
      case None => None
      case Some(head) =>
        match ReadString(head.1)
        case None => None
        case Some(tail) => Some(([head.0] + tail.0, tail.1))
  }

  predicate IsJsonSpace(c: char) {
    c == ' ' || c == '\t' || c == '\n' || c == '\r'
  }

  function SkipSpace(s: string): (r: string)
    ensures |r| <= |s|
  {
    if s != [] && IsJsonSpace(s[0]) then SkipSpace(s[1..]) else s
  }

  /** The rest of an array of strings where an element must come next. */
  function ReadElements(s: string): Option<seq<string>>
    decreases |s|, 1
  {
    var t := SkipSpace(s);
    if t == [] || t[0] != '"' then None
    else
      match ReadString(t[1..])
      case None => None
      case Some(first) =>
        match ReadMore(first.1)
        case None => None
        case Some(names) => Some([first.0] + names)
  }

  /** The rest of an array after an element: its end, or a comma and another element. */
  function ReadMore(s: string): Option<seq<string>>
    decreases |s|, 0
  {
    var t := SkipSpace(s);
    if t == [] then None
    else if t[0] == ']' then if SkipSpace(t[1..]) == [] then Some([]) else None
    else if t[0] == ',' then ReadElements(t[1..])
    else None
  }

  /** A whole text read as one JSON array of strings. */
  function ReadArray(text: string): Option<seq<string>> {
    var t := SkipSpace(text);
    if t == [] || t[0] != '[' then None
    else
      var inner := SkipSpace(t[1..]);
      if inner != [] && inner[0] == ']' then if SkipSpace(inner[1..]) == [] then Some([]) else None
      else ReadElements(t[1..])
  }

  // -- writing -------------------------------------------------------------------------

  /** A JSON string body. Valid names hold no control characters, so these two escapes are
      the only ones a serializer needs for them. */
  function Escape(name: string): string {
    if name == [] then []
    else if name[0] == '"' then "\\\"" + Escape(name[1..])
    else if name[0] == '\\' then "\\\\" + Escape(name[1..])
    else [name[0]] + Escape(name[1..])
  }

  function Quote(name: string): string {
    "\"" + Escape(name) + "\""
  }

  function QuoteAll(names: seq<string>): (r: seq<string>)
    ensures |r| == |names|
    ensures forall i :: 0 <= i < |names| ==> r[i] == Quote(names[i])
  {
    if names == [] then [] else [Quote(names[0])] + QuoteAll(names[1..])
  }

  /** The quoted names with a separator between them. */
  function RenderWith(names: seq<string>, sep: string): string {
    Join(QuoteAll(names), sep)
  }

  /** The canonical list: a comma and a space between the names. */
  function Render(names: seq<string>): string {
    RenderWith(names, ", ")
  }

  lemma RenderCons(names: seq<string>, sep: string)
    requires |names| > 1
    ensures RenderWith(names, sep) == Quote(names[0]) + sep + RenderWith(names[1..], sep)
  {
    assert QuoteAll(names)[1..] == QuoteAll(names[1..]);
  }

  // -- the accepted lists ---------------------------------------------------------------

  predicate ValidName(name: string) {
    && name != []
    && Trim(name) == name
    && |name| <= MAX_FOLDER_NAME
    && forall i :: 0 <= i < |name| ==> !IsControl(name[i])
  }

  predicate ValidNames(names: seq<string>) {
    && 0 < |names| <= MAX_LAYOUT_FOLDERS
    && (forall i :: 0 <= i < |names| ==> ValidName(names[i]))
    && forall i, j :: 0 <= i < j < |names| ==> names[i] != names[j]
  }

  function CanonicalList(value: string): Option<string> {
    match ReadArray("[" + value + "]")
    case None => None
    case Some(names) => if ValidNames(names) then Some(Render(names)) else None
  }

  /** The checks on one name of a list. */
  method CheckName(name: string) returns (ok: bool)
    ensures ok == ValidName(name)
  {
    if name == [] || Trim(name) != name || |name| > MAX_FOLDER_NAME { return false; }
    ok := !exists k :: 0 <= k < |name| && IsControl(name[k]);
  }

  method ParseFolderNames(value: string) returns (r: Option<string>)
    ensures r == CanonicalList(value)
  {
    var parsed := ReadArray("[" + value + "]");
    if parsed.None? { return None; }
    var names := parsed.value;
    if names == [] || |names| > MAX_LAYOUT_FOLDERS { return None; }
    var valid := CheckNames(names);
    return if valid then Some(Render(names)) else None;
  }

  /** The loop over the names, which remembers those it has seen. */
  method CheckNames(names: seq<string>) returns (ok: bool)
    requires 0 < |names| <= MAX_LAYOUT_FOLDERS
    ensures ok == ValidNames(names)
  {
    var seen: set<string> := {};
    for i := 0 to |names|
      invariant seen == set n | n in names[..i]
      invariant forall k :: 0 <= k < i ==> ValidName(names[k])
      invariant forall k, l :: 0 <= k < l < i ==> names[k] != names[l]
    {
      var name := names[i];
      assert names[..i + 1] == names[..i] + [name];
      var valid := CheckName(name);
      if !valid || name in seen {
        return false;
      }
      seen := seen + {name};
    }
    return true;
  }

  // -- reading undoes writing -------------------------------------------------------------

  lemma {:induction false} ReadEscaped(name: string, rest: string)
    requires forall i :: 0 <= i < |name| ==> !IsControl(name[i])
    ensures ReadString(Escape(name) + "\"" + rest) == Some((name, rest))
  {
    var s := Escape(name) + "\"" + rest;
    if name == [] {
      assert s[1..] == rest;
    } else {
      var tail := Escape(name[1..]) + "\"" + rest;
      ReadEscaped(name[1..], rest);
      if name[0] == '"' || name[0] == '\\' {
        assert s == ['\\', name[0]] + tail;
        assert s[1..][1..] == tail;
      } else {
        assert s == [name[0]] + tail;
        assert s[1..] == tail;
      }
      assert [name[0]] + name[1..] == name;
    }
  }

  lemma ReadElementsSpace(s: string)
    ensures ReadElements(" " + s) == ReadElements(s)
  {
    assert (" " + s)[1..] == s;
  }

  lemma ReadElementsAt(s: string, name: string, after: string, names: seq<string>)
    requires s != [] && s[0] == '"' && ReadString(s[1..]) == Some((name, after)) && ReadMore(after) == Some(names)
    ensures ReadElements(s) == Some([name] + names)
  {
  }

  lemma QuoteApart(name: string, after: string)
    ensures var s := Quote(name) + after;
            s != [] && s[0] == '"' && s[1..] == Escape(name) + "\"" + after
  {
  }

  lemma ReadElementsStep(name: string, after: string, names: seq<string>)
    requires ValidName(name) && ReadMore(after) == Some(names)
    ensures ReadElements(Quote(name) + after) == Some([name] + names)
  {
    QuoteApart(name, after);
    ReadEscaped(name, after);
    ReadElementsAt(Quote(name) + after, name, after, names);
  }

  lemma ReadMoreStep(sep: string, rest: string, names: seq<string>)
    requires sep == "," || sep == ", "
    requires ReadElements(rest) == Some(names)
    ensures ReadMore(sep + rest) == Some(names)
  {
    var s := sep + rest;
    if sep == "," {
      assert s[1..] == rest;
    } else {
      ReadElementsSpace(rest);
      assert s[1..] == " " + rest;
    }
  }

  lemma ReadLast(name: string)
    requires ValidName(name)
    ensures ReadElements(Quote(name) + "]") == Some([name])
  {
    assert ReadMore("]") == Some([]);
    ReadElementsStep(name, "]", []);
    assert [name] + [] == [name];
  }

  lemma ReadNext(name: string, sep: string, rest: string, names: seq<string>)
    requires ValidName(name) && (sep == "," || sep == ", ")
    requires ReadElements(rest) == Some(names)
    ensures ReadElements(Quote(name) + (sep + rest)) == Some([name] + names)
  {
    ReadMoreStep(sep, rest, names);
    ReadElementsStep(name, sep + rest, names);
  }

  /** `text`, which follows the opening bracket, is `names` rendered and the closing one. */
  ghost predicate IsRendered(text: string, names: seq<string>, sep: string) {
    text == RenderWith(names, sep) + "]"
  }

  lemma RenderedNext(text: string, names: seq<string>, sep: string) returns (rest: string)
    requires |names| > 1 && IsRendered(text, names, sep)
    ensures IsRendered(rest, names[1..], sep)
    ensures text == Quote(names[0]) + (sep + rest)
  {
    rest := RenderWith(names[1..], sep) + "]";
    RenderCons(names, sep);
  }

  lemma {:induction false} ReadRendered(text: string, names: seq<string>, sep: string)
    requires names != [] && (sep == "," || sep == ", ")
    requires forall i :: 0 <= i < |names| ==> ValidName(names[i])
    requires IsRendered(text, names, sep)
    ensures ReadElements(text) == Some(names)
    decreases |names|
  {
    if |names| == 1 {
      ReadLast(names[0]);
      assert names == [names[0]];
    } else {
      var rest := RenderedNext(text, names, sep);
      ReadRendered(rest, names[1..], sep);
      ReadNext(names[0], sep, rest, names[1..]);
      assert names == [names[0]] + names[1..];
    }
  }

  /** Reading back a rendered list gives the list it was rendered from. */
  lemma ReadArrayOfRender(names: seq<string>, sep: string)
    requires ValidNames(names) && (sep == "," || sep == ", ")
    ensures ReadArray("[" + RenderWith(names, sep) + "]") == Some(names)
  {
    var text := "[" + RenderWith(names, sep) + "]";
    assert text[1..] == RenderWith(names, sep) + "]";
    ReadRendered(text[1..], names, sep);
    RenderedTrimmed(names, sep);
  }

  /** Canonical folder lists are fixed points of the canonicalizer. */
  lemma CanonicalListFixed(value: string)
    requires CanonicalList(value).Some?
    ensures CanonicalList(CanonicalList(value).value) == CanonicalList(value)
  {
    ReadArrayOfRender(ReadArray("[" + value + "]").value, ", ");
  }

  // -- no scanner looks inside -------------------------------------------------------------

  lemma {:induction false} EscapedInert(name: string, wanted: char -> bool)
    ensures Scan(Inside, Escape(name)) == Inside
    ensures Uncommented(Inside, Escape(name)) && NoSplit(Inside, Escape(name))
    ensures FindOutside(Inside, Escape(name), wanted).None?
  {
    if name != [] {
      EscapedInert(name[1..], wanted);
      var e, tail := Escape(name), Escape(name[1..]);
      if name[0] == '"' || name[0] == '\\' {
        assert e[1..] == [name[0]] + tail;
        assert e[1..][1..] == tail;
      } else {
        assert e[1..] == tail;
      }
    }
  }

  lemma QuotedInert(name: string, wanted: char -> bool)
    ensures Inert(Quote(name), wanted)
  {
    var body := Escape(name) + "\"";
    EscapedInert(name, wanted);
    ScanConcat(Inside, Escape(name), "\"");
    UncommentedConcat(Inside, Escape(name), "\"");
    NoSplitConcat(Inside, Escape(name), "\"");
    FindOutsideConcat(Inside, Escape(name), "\"", wanted);
    assert Quote(name) == "\"" + body;
    assert Quote(name)[1..] == body;
  }

  lemma {:induction false} RenderedInert(names: seq<string>, sep: string, wanted: char -> bool)
    requires sep == "," || sep == ", "
    requires !wanted(',') && !wanted(' ')
    ensures Inert(RenderWith(names, sep), wanted)
  {
    if |names| == 1 {
      QuotedInert(names[0], wanted);
    } else if |names| > 1 {
      RenderCons(names, sep);
      QuotedInert(names[0], wanted);
      InertPlain(sep, wanted);
      RenderedInert(names[1..], sep, wanted);
      InertConcat(Quote(names[0]), sep, wanted);
      InertConcat(Quote(names[0]) + sep, RenderWith(names[1..], sep), wanted);
    }
  }

  lemma {:induction false} RenderedTrimmed(names: seq<string>, sep: string)
    requires names != []
    ensures var r := RenderWith(names, sep);
            r != [] && r[0] == '"' && r[|r| - 1] == '"'
  {
    if |names| > 1 {
      RenderCons(names, sep);
      RenderedTrimmed(names[1..], sep);
    }
  }

  // -- growth -------------------------------------------------------------------------------

  lemma EscapeOneBytes(c: char)
    ensures Bytes(Escape([c])) == if c == '"' || c == '\\' then 2 else CharBytes(c)
  {
    assert [c][1..] == [];
    assert Escape([c][1..]) == [];
    assert "\\\""[1..][1..] == [] && "\\\\"[1..][1..] == [];
    assert Bytes("\\\""[1..]) == 1 && Bytes("\\\\"[1..]) == 1;
  }

  lemma UnescapeBytes(s: string)
    requires Unescape(s).Some?
    ensures var r := Unescape(s).value;
            Bytes(Escape([r.0])) + Bytes(r.1) <= 1 + Bytes(s)
  {
    var r := Unescape(s).value;
    var taken := s[..|s| - |r.1|];
    assert s == taken + r.1;
    BytesConcat(taken, r.1);
    BytesAtLeastLength(taken);
    EscapeOneBytes(r.0);
  }

  lemma ReadCharBytes(s: string)
    requires s != [] && s[0] != '"' && ReadChar(s).Some?
    ensures var r := ReadChar(s).value;
            Bytes(Escape([r.0])) + Bytes(r.1) <= Bytes(s)
  {
    if s[0] == '\\' {
      UnescapeBytes(s[1..]);
    } else {
      EscapeOneBytes(s[0]);
    }
  }

  lemma EscapeConsBytes(c: char, rest: string)
    ensures Bytes(Escape([c] + rest)) == Bytes(Escape([c])) + Bytes(Escape(rest))
  {
    assert ([c] + rest)[1..] == rest;
    assert [c][1..] == [] && Escape([c][1..]) == [];
    assert Escape([c] + rest) == Escape([c]) + Escape(rest);
    BytesConcat(Escape([c]), Escape(rest));
  }

  /** Writing a string back takes no more bytes than reading it took. */
  lemma {:induction false} ReadStringBytes(s: string)
    requires ReadString(s).Some?
    ensures var r := ReadString(s).value;
            Bytes(Escape(r.0)) + 1 + Bytes(r.1) <= Bytes(s)
    decreases |s|
  {
    if s[0] != '"' {
      var head := ReadChar(s).value;
      ReadStringBytes(head.1);
      ReadCharBytes(s);
      EscapeConsBytes(head.0, ReadString(head.1).value.0);
    }
  }

  lemma {:induction false} SkipSpaceBytes(s: string)
    ensures Bytes(SkipSpace(s)) <= Bytes(s)
  {
    if s != [] && IsJsonSpace(s[0]) { SkipSpaceBytes(s[1..]); }
  }

  lemma QuoteBytes(name: string)
    ensures Bytes(Quote(name)) == Bytes(Escape(name)) + 2
  {
    BytesConcat3("\"", Escape(name), "\"");
  }

  /** The canonical list is at most one byte a comma longer than what was read. */
  lemma {:induction false} ReadElementsBytes(s: string)
    requires ReadElements(s).Some?
    ensures ReadElements(s).value != []
    ensures Bytes(Render(ReadElements(s).value)) + 1 <= Bytes(s) + |ReadElements(s).value| - 1
    decreases |s|
  {
    var names := ReadElements(s).value;
    var t := SkipSpace(s);
    SkipSpaceBytes(s);
    var first := ReadString(t[1..]).value;
    ReadStringBytes(t[1..]);
    QuoteBytes(names[0]);
    var u := SkipSpace(first.1);
    SkipSpaceBytes(first.1);
    if u[0] == ']' {
      assert names == [first.0];
      assert Render(names) == Quote(first.0);
    } else {
      ReadElementsBytes(u[1..]);
      assert names[1..] == ReadElements(u[1..]).value;
      RenderCons(names, ", ");
      BytesConcat3(Quote(names[0]), ", ", Render(names[1..]));
    }
  }

  lemma CanonicalListBytes(value: string)
    requires CanonicalList(value).Some?
    ensures var names := ReadArray("[" + value + "]").value;
            Bytes(CanonicalList(value).value) <= Bytes(value) + |names| - 1
  {
    var text := "[" + value + "]";
    assert text[1..] == value + "]";
    BytesConcat(value, "]");
    ReadElementsBytes(value + "]");
  }

  lemma {:induction false} RenderBytesAtLeastCommas(names: seq<string>)
    requires names != []
    ensures |names| - 1 <= Bytes(Render(names))
  {
    if |names| > 1 {
      RenderCons(names, ", ");
      RenderBytesAtLeastCommas(names[1..]);
      BytesConcat3(Quote(names[0]), ", ", Render(names[1..]));
    }
  }

  /** A character of a written name. */
  function EscapeOne(c: char): string {
    if c == '"' then "\\\"" else if c == '\\' then "\\\\" else [c]
  }

  lemma EscapeFirst(name: string)
    requires name != []
    ensures Escape(name) == EscapeOne(name[0]) + Escape(name[1..])
  {
  }

  lemma Associative(a: string, b: string, c: string)
    ensures a + (b + c) == (a + b) + c
  {
  }

  lemma EscapeStep(c: char, rest: string, b: string)
    requires Escape(rest + b) == Escape(rest) + Escape(b)
    ensures Escape([c] + (rest + b)) == Escape([c] + rest) + Escape(b)
  {
    EscapeFirst([c] + rest);
    EscapeFirst([c] + (rest + b));
    assert ([c] + rest)[1..] == rest && ([c] + (rest + b))[1..] == rest + b;
    Associative(EscapeOne(c), Escape(rest), Escape(b));
  }

  lemma {:induction false} EscapeConcat(a: string, b: string)
    ensures Escape(a + b) == Escape(a) + Escape(b)
  {
    if a == [] {
      assert a + b == b;
    } else {
      EscapeConcat(a[1..], b);
      EscapeStep(a[0], a[1..], b);
      assert a == [a[0]] + a[1..] && a + b == [a[0]] + (a[1..] + b);
    }
  }

  /** A written name is its characters one after another, a quotation mark or backslash behind a
      backslash and every other as it is. */
  lemma EscapeExact(a: string, b: string, c: char)
    ensures Escape(a + b) == Escape(a) + Escape(b)
    ensures Escape([c]) == if c == '"' then "\\\"" else if c == '\\' then "\\\\" else [c]
  {
    EscapeConcat(a, b);
    EscapeFirst([c]);
    assert [c][1..] == [];
  }

  /** A written list is its names in quotation marks with a comma and a space between each two. */
  lemma RenderExact(names: seq<string>)
    ensures Render([]) == ""
    ensures |names| == 1 ==> Render(names) == "\"" + Escape(names[0]) + "\""
    ensures |names| > 1 ==> Render(names) == "\"" + Escape(names[0]) + "\"" + ", " + Render(names[1..])
  {
    if |names| > 1 { RenderCons(names, ", "); }
  }
}
