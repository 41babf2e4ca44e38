/** The value grammars again, written without the code that decides them: what a number, a length
    and a flat colour are, and what normalizing whitespace makes of a text. */
module ValueGrammar {
  import opened Text
  import Values

  // -- words ---------------------------------------------------------------------------------

  /** `s` is the words `ws` with whitespace between them, and perhaps around them. */
  ghost predicate Spaced(s: string, ws: seq<string>)
    decreases |ws|
  {
    if ws == [] then Blank(s)
    else exists pre, rest :: SpacedFrom(s, ws, pre, rest)
  }

  ghost predicate SpacedFrom(s: string, ws: seq<string>, pre: string, rest: string)
    requires ws != []
    decreases |ws|, 0
  {
    && s == pre + (ws[0] + rest) && Blank(pre) && IsWord(ws[0])
    && (rest == [] || IsWhitespace(rest[0])) && Spaced(rest, ws[1..])
  }

  lemma {:induction false} WordsAfterBlank(pre: string, s: string)
    requires Blank(pre)
    ensures Words(pre + s) == Words(s)
  {
    if pre == [] {
      assert pre + s == s;
    } else {
      WordsAfterBlank(pre[1..], s);
      assert (pre + s)[1..] == pre[1..] + s;
    }
  }

  lemma {:induction false} SpacedWords(s: string, ws: seq<string>)
    requires Spaced(s, ws)
    ensures Words(s) == ws
    decreases |ws|
  {
    if ws == [] {
      WordsAfterBlank(s, []);
      assert s + [] == s;
    } else {
      var pre, rest :| SpacedFrom(s, ws, pre, rest);
      WordsAfterBlank(pre, ws[0] + rest);
      WordsStep(ws[0], rest);
      SpacedWords(rest, ws[1..]);
      assert ws == [ws[0]] + ws[1..];
    }
  }

  lemma SpacedLater(c: char, s: string, ws: seq<string>)
    requires IsWhitespace(c) && Spaced(s, ws)
    ensures Spaced([c] + s, ws)
  {
    if ws != [] {
      var pre, rest :| SpacedFrom(s, ws, pre, rest);
      assert [c] + s == ([c] + pre) + (ws[0] + rest);
      assert SpacedFrom([c] + s, ws, [c] + pre, rest);
    }
  }

  lemma {:induction false} WordsSpaced(s: string)
    ensures Spaced(s, Words(s))
    decreases |s|
  {
    if s != [] {
      if IsWhitespace(s[0]) {
        WordsSpaced(s[1..]);
        SpacedLater(s[0], s[1..], Words(s[1..]));
        assert s == [s[0]] + s[1..];
      } else {
        var n := WordLength(s);
        WordsSpaced(s[n..]);
        assert s == [] + (s[..n] + s[n..]);
        assert SpacedFrom(s, [s[..n]] + Words(s[n..]), [], s[n..]);
      }
    }
  }

  /** Normalizing gives the words of the text with one space between each two. */
  lemma NormalizeExact(s: string, r: string)
    ensures NormalizeWhitespace(s) == r <==> exists ws :: Spaced(s, ws) && r == Join(ws, " ")
  {
    WordsSpaced(s);
    forall ws | Spaced(s, ws) ensures Words(s) == ws { SpacedWords(s, ws); }
    assert Spaced(s, Words(s)) && NormalizeWhitespace(s) == Join(Words(s), " ");
  }

  // -- numbers and lengths --------------------------------------------------------------------

  ghost predicate Digits(s: string) {
    forall i :: 0 <= i < |s| ==> IsDigit(s[i])
  }

  ghost predicate Decimal(s: string, a: string, b: string) {
    s == a + "." + b && Digits(a) && Digits(b) && a + b != []
  }

  /** One to eight digits, one of which may be a dot unless it is alone. */
  ghost predicate Number(s: string) {
    0 < |s| <= 8 && (Digits(s) || exists a, b :: Decimal(s, a, b))
  }

  lemma {:induction false} NoDots(s: string)
    ensures Values.CountChar(s, '.') == 0 <==> NoChar(s, '.')
  {
    if s != [] {
      NoDots(s[1..]);
      assert NoChar(s, '.') <==> s[0] != '.' && NoChar(s[1..], '.');
    }
  }

  lemma {:induction false} DotsBetween(a: string, b: string)
    requires NoChar(a, '.')
    ensures Values.CountChar(a + "." + b, '.') == 1 + Values.CountChar(b, '.')
  {
    var s := a + "." + b;
    if a == [] {
      assert s[1..] == b;
    } else {
      DotsBetween(a[1..], b);
      assert s[1..] == a[1..] + "." + b;
    }
  }

  lemma {:induction false} AsciiBytes(s: string)
    requires forall i :: 0 <= i < |s| ==> s[i] < '\U{0080}'
    ensures Bytes(s) == |s|
  {
    if s != [] { AsciiBytes(s[1..]); }
  }

  lemma DecimalIsNumber(s: string, a: string, b: string)
    requires Decimal(s, a, b) && |s| <= 8
    ensures Values.IsNumber(s)
  {
    DotsBetween(a, b);
    NoDots(b);
    AsciiBytes(s);
  }

  lemma NumberExact(s: string)
    ensures Values.IsNumber(s) <==> Number(s)
  {
    if Values.IsNumber(s) {
      AsciiBytes(s);
      NoDots(s);
      var cut := SplitOnce(s, '.');
      if cut.Some? {
        DotsBetween(cut.value.0, cut.value.1);
        NoDots(cut.value.1);
        assert Digits(cut.value.0) by {
          forall i | 0 <= i < |cut.value.0| ensures IsDigit(cut.value.0[i]) { assert cut.value.0[i] == s[i]; }
        }
        assert Digits(cut.value.1) by {
          forall i | 0 <= i < |cut.value.1| ensures IsDigit(cut.value.1[i]) {
            assert cut.value.1[i] == s[|cut.value.0| + 1 + i];
          }
        }
        assert Decimal(s, cut.value.0, cut.value.1);
      }
    } else if Number(s) {
      if Digits(s) {
        NoDots(s);
        AsciiBytes(s);
      } else {
        var a, b :| Decimal(s, a, b);
        DecimalIsNumber(s, a, b);
      }
    }
  }

  ghost predicate Unit(u: string) {
    u == "px" || u == "rem" || u == "em" || u == "ch" || u == "ex"
    || u == "vw" || u == "vh" || u == "vmin" || u == "vmax" || u == "%"
  }

  /** Zero, or a number and one of the ten units. */
  ghost predicate Length(s: string) {
    s == "0" || exists n, u :: s == n + u && Number(n) && Unit(u)
  }

  lemma UnitsExact(u: string)
    ensures u in Values.UNITS <==> Unit(u)
  {
    assert Values.UNITS == ["px", "rem", "em", "ch", "ex", "vw", "vh", "vmin", "vmax", "%"];
    if Unit(u) {
      assert Values.UNITS[0] == "px" && Values.UNITS[1] == "rem" && Values.UNITS[2] == "em" && Values.UNITS[3] == "ch"
          && Values.UNITS[4] == "ex" && Values.UNITS[5] == "vw" && Values.UNITS[6] == "vh" && Values.UNITS[7] == "vmin"
          && Values.UNITS[8] == "vmax" && Values.UNITS[9] == "%";
    }
  }

  lemma HasUnitExact(s: string, u: string)
    ensures Values.HasUnit(s, u) <==> exists n :: s == n + u && Number(n)
  {
    if Values.HasUnit(s, u) {
      NumberExact(StripSuffix(s, u).value);
    }
    if n :| s == n + u && Number(n) {
      NumberExact(n);
      assert s[|s| - |u|..] == u && s[..|s| - |u|] == n;
    }
  }

  lemma LengthExact(s: string)
    ensures Values.IsLength(s) <==> Length(s)
  {
    if i :| 0 <= i < |Values.UNITS| && Values.HasUnit(s, Values.UNITS[i]) {
      UnitsExact(Values.UNITS[i]);
      HasUnitExact(s, Values.UNITS[i]);
    }
    if n, u :| s == n + u && Number(n) && Unit(u) {
      UnitsExact(u);
      var i :| 0 <= i < |Values.UNITS| && Values.UNITS[i] == u;
      HasUnitExact(s, u);
    }
  }

  // -- flat colours -----------------------------------------------------------------------------

  ghost predicate Separator(c: char) { c == ',' || c == ' ' || c == '/' }

  /** What the components of a colour function are written with. */
  ghost predicate Component(c: char) {
    '0' <= c <= '9' || c == ' ' || c == '.' || c == ',' || c == '%' || c == '/' || c == '+' || c == '-'
  }

  ghost predicate HexDigitChar(c: char) {
    '0' <= c <= '9' || 'a' <= c <= 'f' || 'A' <= c <= 'F'
  }

  /** Where a piece between separators begins. */
  ghost predicate Begins(s: string, i: nat) {
    i < |s| && !Separator(s[i]) && (i > 0 ==> Separator(s[i - 1]))
  }

  ghost function Beginnings(s: string): set<nat> {
    set i: nat | i < |s| && Begins(s, i)
  }

  /** The pieces that begin in the last `|s| - k` characters of `s`. */
  lemma {:induction false} PiecesFrom(s: string, k: nat)
    requires k <= |s|
    ensures Values.Pieces(s[k..], k > 0 && !Separator(s[k - 1])) == |set i: nat | k <= i < |s| && Begins(s, i)|
    decreases |s| - k
  {
    var later := set i: nat | k <= i < |s| && Begins(s, i);
    if k == |s| {
      assert later == {};
    } else {
      var rest := set i: nat | k + 1 <= i < |s| && Begins(s, i);
      PiecesFrom(s, k + 1);
      assert s[k..][1..] == s[k + 1..];
      if Begins(s, k) {
        assert later == rest + {k};
      } else {
        assert later == rest;
      }
    }
  }

  ghost predicate HexColor(s: string) {
    exists hex :: s == "#" + hex && |hex| in {3, 4, 6, 8} && forall i :: 0 <= i < |hex| ==> HexDigitChar(hex[i])
  }

  /** A colour function of at most four components, none of which is a function. */
  ghost predicate CallOf(s: string, name: string, args: string) {
    && s == name + "(" + (args + ")")
    && (name == "rgb" || name == "rgba" || name == "hsl" || name == "hsla" || name == "oklch")
    && !Blank(args) && (forall i :: 0 <= i < |args| ==> Component(args[i]))
    && |Beginnings(args)| <= 4
  }

  ghost predicate FlatColor(colors: seq<string>, s: string) {
    || s == "transparent" || s == "currentcolor" || HexColor(s) || s in colors
    || exists name, args :: CallOf(s, name, args)
  }

  lemma TrimBlank(s: string)
    ensures Trim(s) == [] <==> Blank(s)
  {
    var pre, post := TrimShape(s);
    if Blank(s) {
      TrimStartPadded(s, []);
      assert s + [] == s;
    }
  }

  lemma PiecesExact(args: string)
    ensures Values.Pieces(args, false) == |Beginnings(args)|
  {
    PiecesFrom(args, 0);
    assert args[0..] == args;
    assert Beginnings(args) == set i: nat | 0 <= i < |args| && Begins(args, i);
  }

  /** Neither a keyword nor a hexadecimal colour. */
  lemma CallIsNoWord(name: string, args: string)
    requires NoChar(name, '(') && name != [] && name[0] != '#'
    ensures var s := name + "(" + (args + ")");
            s != "transparent" && s != "currentcolor" && !HasPrefix(s, "#") && SplitOnce(s, '(') == Some((name, args + ")"))
  {
    var s := name + "(" + (args + ")");
    SplitOnceUnique(name, '(', args + ")");
    assert s == name + ['('] + (args + ")");
    assert s[|name|] == '(' && NoChar("transparent", '(') && NoChar("currentcolor", '(');
  }

  lemma CallExact(colors: seq<string>, name: string, args: string)
    requires NoChar(name, '(') && name != [] && name[0] != '#'
    ensures Values.IsFlatColor(colors, name + "(" + (args + ")")) <==> CallOf(name + "(" + (args + ")"), name, args)
  {
    CallIsNoWord(name, args);
    assert StripSuffix(args + ")", ")") == Some(args);
    TrimBlank(args);
    PiecesExact(args);
  }

  lemma {:induction false} SplitOnceNone(s: string, c: char)
    requires NoChar(s, c)
    ensures SplitOnce(s, c).None?
  {
    if s != [] { SplitOnceNone(s[1..], c); }
  }

  lemma CallName(s: string, name: string, args: string)
    requires CallOf(s, name, args)
    ensures NoChar(name, '(') && name != [] && name[0] != '#'
  {
  }

  lemma HexExact(colors: seq<string>, s: string)
    requires HasPrefix(s, "#")
    ensures Values.IsFlatColor(colors, s) <==> HexColor(s)
  {
    assert s == "#" + s[1..] && s[0] == '#';
    forall hex | s == "#" + hex ensures hex == s[1..] {}
  }

  lemma NamedFlat(colors: seq<string>, s: string)
    requires Values.PaletteOk(colors) && s in colors
    ensures Values.IsFlatColor(colors, s)
  {
    var i :| 0 <= i < |colors| && colors[i] == s;
    SplitOnceNone(s, '(');
  }

  lemma CallFlat(colors: seq<string>, s: string, name: string, args: string)
    requires CallOf(s, name, args)
    ensures Values.IsFlatColor(colors, s)
  {
    CallName(s, name, args);
    CallExact(colors, name, args);
  }

  lemma FlatCall(colors: seq<string>, s: string) returns (name: string, args: string)
    requires Values.IsFlatColor(colors, s) && s != "transparent" && s != "currentcolor" && !HasPrefix(s, "#")
    requires SplitOnce(s, '(').Some?
    ensures CallOf(s, name, args)
  {
    var call := SplitOnce(s, '(').value;
    name, args := call.0, StripSuffix(call.1, ")").value;
    assert s == name + "(" + (args + ")");
    CallExactName(name, s, colors);
    CallExact(colors, name, args);
  }

  /** A flat colour is a keyword, a hexadecimal colour of three, four, six or eight digits, a
      named colour, or a function of at most four plain components. */
  lemma FlatColorExact(colors: seq<string>, s: string)
    requires Values.PaletteOk(colors)
    ensures Values.IsFlatColor(colors, s) <==> FlatColor(colors, s)
  {
    if HasPrefix(s, "#") { HexExact(colors, s); }
    if s in colors { NamedFlat(colors, s); }
    forall name, args | CallOf(s, name, args) ensures Values.IsFlatColor(colors, s) { CallFlat(colors, s, name, args); }
    if Values.IsFlatColor(colors, s) && s != "transparent" && s != "currentcolor" && !HasPrefix(s, "#") {
      if SplitOnce(s, '(').Some? { var name, args := FlatCall(colors, s); }
    }
  }

  lemma CallExactName(name: string, s: string, colors: seq<string>)
    requires Values.IsFlatColor(colors, s) && s != "transparent" && s != "currentcolor" && !HasPrefix(s, "#")
    requires SplitOnce(s, '(').Some? && SplitOnce(s, '(').value.0 == name
    ensures NoChar(name, '(') && name != [] && name[0] != '#'
  {
  }

  ghost predicate PairOf(colors: seq<string>, s: string, a: string, b: string) {
    s == "light-dark(" + (a + "," + b) + ")" && FlatColor(colors, Trim(a)) && FlatColor(colors, Trim(b))
  }

  /** A colour, of either kind, in lower case. */
  ghost predicate Color(colors: seq<string>, s: string) {
    FlatColor(colors, s) || exists a, b :: PairOf(colors, s, a, b)
  }

  lemma ColorExact(colors: seq<string>, s: string)
    requires Values.PaletteOk(colors)
    ensures Values.IsColor(colors, s) <==> Color(colors, Lower(s))
  {
    Values.ColorGrammarExact(colors, s);
    FlatColorExact(colors, Lower(s));
    forall a, b ensures Values.IsPairOf(colors, Lower(s), a, b) <==> PairOf(colors, Lower(s), a, b) {
      FlatColorExact(colors, Trim(a));
      FlatColorExact(colors, Trim(b));
    }
  }
}
