/** The value grammars of a profile presentation: colours, lengths and numbers.

    A colour is decided by code that counts parentheses to find the one top-level comma of
    `light-dark()`. The lemmas say that this code accepts a grammar written without any
    counting, that the comma it finds is the only possible one, and that the eight-bit
    depth it counts with never overflows on a value of permitted length. */
module Values {
  import opened Text

  /** The longest accepted value, in bytes. */
  const MAX_VALUE: nat := 128

  // -- alphabets -------------------------------------------------------------------

  /** The characters an accepted Pico value is written with. */
  predicate InPicoAlphabet(c: char) {
    || IsLetter(c) || IsDigit(c)
    || c == '#' || c == '%' || c == '.' || c == ',' || c == '/'
    || c == '(' || c == ')' || c == '+' || c == '-' || c == ' '
  }

  ghost predicate PicoText(s: string) {
    forall i :: 0 <= i < |s| ==> InPicoAlphabet(s[i])
  }

  ghost predicate Letters(s: string) {
    forall i :: 0 <= i < |s| ==> 'a' <= s[i] <= 'z'
  }

  /** What the table of CSS colour names must satisfy. */
  ghost predicate PaletteOk(colors: seq<string>) {
    forall i :: 0 <= i < |colors| ==> colors[i] != [] && Letters(colors[i])
  }

  // -- numbers and lengths -----------------------------------------------------------

  function CountChar(s: string, c: char): nat {
    if s == [] then 0 else (if s[0] == c then 1 else 0) + CountChar(s[1..], c)
  }

  predicate IsNumber(value: string) {
    && value != []
    && (forall i :: 0 <= i < |value| ==> IsDigit(value[i]) || value[i] == '.')
    && CountChar(value, '.') <= 1
    && value != "."
    && Bytes(value) <= 8
  }

  const UNITS: seq<string> := ["px", "rem", "em", "ch", "ex", "vw", "vh", "vmin", "vmax", "%"]

  predicate IsLength(value: string) {
    || value == "0"
    || exists i :: 0 <= i < |UNITS| && HasUnit(value, UNITS[i])
  }

  predicate HasUnit(value: string, unit: string) {
    var number := StripSuffix(value, unit);
    number.Some? && number.value != [] && IsNumber(number.value)
  }

  lemma NumberAlphabet(value: string)
    requires IsNumber(value)
    ensures PicoText(value)
  {
  }

  lemma UnitAlphabet(i: nat)
    requires i < |UNITS|
    ensures PicoText(UNITS[i])
  {
    var unit := UNITS[i];
    assert unit == "px" || unit == "rem" || unit == "em" || unit == "ch" || unit == "ex"
        || unit == "vw" || unit == "vh" || unit == "vmin" || unit == "vmax" || unit == "%";
  }

  lemma PicoConcat(a: string, b: string)
    requires PicoText(a) && PicoText(b)
    ensures PicoText(a + b)
  {
  }

  lemma LengthAlphabet(value: string)
    requires IsLength(value)
    ensures PicoText(value)
  {
    if value != "0" {
      var i :| 0 <= i < |UNITS| && HasUnit(value, UNITS[i]);
      var number := StripSuffix(value, UNITS[i]).value;
      UnitAlphabet(i);
      NumberAlphabet(number);
      PicoConcat(number, UNITS[i]);
    }
  }

  // -- flat colours ------------------------------------------------------------------

  predicate IsHexDigit(c: char) {
    IsDigit(c) || 'a' <= c <= 'f' || 'A' <= c <= 'F'
  }

  /** What may stand between the parentheses of `rgb()` and its like. */
  predicate IsArgument(c: char) {
    IsDigit(c) || c == ' ' || c == '.' || c == ',' || c == '%' || c == '/' || c == '+' || c == '-'
  }

  predicate IsSeparator(c: char) { c == ',' || c == ' ' || c == '/' }

  /** How many nonempty pieces lie between separators; `open` says a piece has begun. */
  function Pieces(s: string, open: bool): nat {
    if s == [] then 0
    else if IsSeparator(s[0]) then Pieces(s[1..], false)
    else (if open then 0 else 1) + Pieces(s[1..], true)
  }

  predicate IsColorFunction(name: string) {
    name == "rgb" || name == "rgba" || name == "hsl" || name == "hsla" || name == "oklch"
  }

  predicate IsFlatColor(colors: seq<string>, value: string) {
    if value == "transparent" || value == "currentcolor" then true
    else if HasPrefix(value, "#") then
      var hex := value[1..];
      (|hex| == 3 || |hex| == 4 || |hex| == 6 || |hex| == 8) && forall i :: 0 <= i < |hex| ==> IsHexDigit(hex[i])
    else
      match SplitOnce(value, '(')
      case Some(call) =>
        var args := StripSuffix(call.1, ")");
        && args.Some?
        && IsColorFunction(call.0)
        && Trim(args.value) != []
        && (forall i :: 0 <= i < |args.value| ==> IsArgument(args.value[i]))
        && Pieces(args.value, false) <= 4
      case None => value in colors
  }

  /** A flat colour is a plain word, or one function applied to plain arguments. */
  ghost predicate IsPlain(s: string) {
    forall i :: 0 <= i < |s| ==> InPicoAlphabet(s[i]) && s[i] != '(' && s[i] != ')' && s[i] != ','
  }

  ghost predicate IsCall(s: string, function_: string, args: string) {
    && s == function_ + "(" + args + ")"
    && IsPlain(function_)
    && forall i :: 0 <= i < |args| ==> IsArgument(args[i])
  }

  lemma ColorFunctionPlain(name: string)
    requires IsColorFunction(name)
    ensures IsPlain(name)
  {
  }

  lemma FlatColorShape(colors: seq<string>, value: string) returns (function_: string, args: string)
    requires PaletteOk(colors) && IsFlatColor(colors, value)
    ensures IsPlain(value) || IsCall(value, function_, args)
  {
    function_, args := "", "";
    if value == "transparent" {
    } else if value == "currentcolor" {
    } else if HasPrefix(value, "#") {
      assert value == "#" + value[1..];
    } else if SplitOnce(value, '(').Some? {
      var call := SplitOnce(value, '(').value;
      function_ := call.0;
      args := StripSuffix(call.1, ")").value;
      assert value == function_ + "(" + args + ")";
      ColorFunctionPlain(function_);
    } else {
      var i :| 0 <= i < |colors| && colors[i] == value;
      assert Letters(value);
    }
  }

  // -- light-dark() --------------------------------------------------------------------

  /** The loop of `split_color_pair` from character `at` on: `None` when it gives up, else
      the separator it ends with. The depth is an unsigned byte, so it may not pass 255. */
  function SeparatorFrom(s: string, at: nat, depth: nat, separator: Option<nat>): (r: Option<Option<nat>>)
    requires at <= |s|
    requires separator.Some? ==> separator.value < at
    ensures r.Some? && r.value.Some? ==> r.value.value < |s|
    decreases |s| - at
  {
    if at == |s| then if depth == 0 then Some(separator) else None
    else if s[at] == '(' then
      if depth == 255 then None else SeparatorFrom(s, at + 1, depth + 1, separator)
    else if s[at] == ')' then
      if depth == 0 then None else SeparatorFrom(s, at + 1, depth - 1, separator)
    else if s[at] == ',' && depth == 0 then
      if separator.Some? then None else SeparatorFrom(s, at + 1, depth, Some(at))
    else SeparatorFrom(s, at + 1, depth, separator)
  }

  function PairAt(args: string, separator: Option<nat>): Option<(string, string)>
    requires separator.Some? ==> separator.value < |args|
  {
    if separator.None? then None
    else
      var light := Trim(args[..separator.value]);
      var dark := Trim(args[separator.value + 1..]);
      if light != [] && dark != [] then Some((light, dark)) else None
  }

  function SplitColorPair(args: string): Option<(string, string)> {
    match SeparatorFrom(args, 0, 0, None)
    case None => None
    case Some(separator) => PairAt(args, separator)
  }

  newtype Byte = x: int | 0 <= x < 256

  method SplitPair(args: string) returns (r: Option<(string, string)>)
    ensures r == SplitColorPair(args)
  {
    var depth: Byte := 0;
    var separator: Option<nat> := None;
    for index := 0 to |args|
      invariant separator.Some? ==> separator.value < index
      invariant SeparatorFrom(args, 0, 0, None) == SeparatorFrom(args, index, depth as nat, separator)
    {
      var character := args[index];
      if character == '(' {
        if depth == 255 { return None; }
        depth := depth + 1;
      } else if character == ')' {
        if depth == 0 { return None; }
        depth := depth - 1;
      } else if character == ',' && depth == 0 {
        if separator.Some? { return None; }
        separator := Some(index);
      }
    }
    if depth != 0 { return None; }
    return PairAt(args, separator);
  }

  /** The text between `light-dark(` and the last parenthesis. */
  function PairArguments(v: string): Option<string> {
    if HasPrefix(v, "light-dark(") && HasSuffix(v[|"light-dark("|..], ")") then
      Some(v[|"light-dark("|..|v| - 1])
    else None
  }

  predicate IsColor(colors: seq<string>, value: string) {
    var v := Lower(value);
    match PairArguments(v)
    case Some(args) =>
      var pair := SplitColorPair(args);
      pair.Some? && IsFlatColor(colors, pair.value.0) && IsFlatColor(colors, pair.value.1)
    case None => IsFlatColor(colors, v)
  }

  // -- the declarative grammar ----------------------------------------------------------

  ghost predicate IsPairOf(colors: seq<string>, v: string, a: string, b: string) {
    && v == "light-dark(" + (a + "," + b) + ")"
    && IsFlatColor(colors, Trim(a))
    && IsFlatColor(colors, Trim(b))
  }

  /** A colour, without counting: a flat colour, or `light-dark(a, b)` around two of them. */
  ghost predicate IsColorGrammar(colors: seq<string>, v: string) {
    IsFlatColor(colors, v) || exists a, b :: IsPairOf(colors, v, a, b)
  }

  /** The depth after `s`, read from depth `d`, when no parenthesis closes too early, none
      nests past a byte, and no comma is met at depth 0. */
  function Level(s: string, d: nat): Option<nat> {
    if s == [] then Some(d)
    else if s[0] == '(' then if d == 255 then None else Level(s[1..], d + 1)
    else if s[0] == ')' then if d == 0 then None else Level(s[1..], d - 1)
    else if s[0] == ',' && d == 0 then None
    else Level(s[1..], d)
  }

  lemma {:induction false} LevelConcat(a: string, b: string, d: nat)
    requires Level(a, d).Some?
    ensures Level(a + b, d) == Level(b, Level(a, d).value)
    decreases |a|
  {
    if a == [] {
      assert a + b == b;
    } else {
      assert (a + b)[1..] == a[1..] + b;
      LevelConcat(a[1..], b, if a[0] == '(' then d + 1 else if a[0] == ')' then d - 1 else d);
    }
  }

  lemma {:induction false} LevelFlat(s: string, d: nat)
    requires NoChar(s, '(') && NoChar(s, ')')
    requires d == 0 ==> NoChar(s, ',')
    ensures Level(s, d) == Some(d)
    decreases |s|
  {
    if s != [] { LevelFlat(s[1..], d); }
  }

  lemma FlatColorLevel(colors: seq<string>, value: string)
    requires PaletteOk(colors) && IsFlatColor(colors, value)
    ensures Level(value, 0) == Some(0)
  {
    var function_, args := FlatColorShape(colors, value);
    if IsPlain(value) {
      LevelFlat(value, 0);
    } else {
      LevelFlat(function_, 0);
      LevelFlat(args, 1);
      LevelConcat(function_, "(", 0);
      LevelConcat(function_ + "(", args, 0);
      LevelConcat(function_ + "(" + args, ")", 0);
    }
  }

  /** A flat colour with whitespace around it has balanced parentheses and no comma outside
      them. */
  lemma PaddedFlatLevel(colors: seq<string>, s: string)
    requires PaletteOk(colors) && IsFlatColor(colors, Trim(s))
    ensures Level(s, 0) == Some(0)
  {
    var pre, post := TrimShape(s);
    FlatColorLevel(colors, Trim(s));
    LevelFlat(pre, 0);
    LevelFlat(post, 0);
    LevelConcat(pre, Trim(s), 0);
    LevelConcat(pre + Trim(s), post, 0);
  }

  /** Reading a stretch without top-level commas moves the splitter to its end. */
  lemma {:induction false} SeparatorSkips(s: string, start: nat, end: nat, d: nat, separator: Option<nat>)
    requires start <= end <= |s|
    requires separator.Some? ==> separator.value < start
    requires Level(s[start..end], d).Some?
    ensures SeparatorFrom(s, start, d, separator)
            == SeparatorFrom(s, end, Level(s[start..end], d).value, separator)
    decreases end - start
  {
    if start < end {
      assert s[start..end][1..] == s[start + 1..end];
      SeparatorSkips(s, start + 1, end,
                     if s[start] == '(' then d + 1 else if s[start] == ')' then d - 1 else d, separator);
    }
  }

  lemma SeparatorBetween(a: string, b: string)
    requires Level(a, 0) == Some(0) && Level(b, 0) == Some(0)
    ensures SeparatorFrom(a + "," + b, 0, 0, None) == Some(Some(|a|))
  {
    var s := a + "," + b;
    assert s[0..|a|] == a && s[|a| + 1..|s|] == b;
    SeparatorSkips(s, 0, |a|, 0, None);
    SeparatorSkips(s, |a| + 1, |s|, 0, Some(|a|));
  }

  lemma PairBetween(a: string, b: string)
    requires Level(a, 0) == Some(0) && Level(b, 0) == Some(0) && Trim(a) != [] && Trim(b) != []
    ensures SplitColorPair(a + "," + b) == Some((Trim(a), Trim(b)))
  {
    SeparatorBetween(a, b);
    var s := a + "," + b;
    assert s[..|a|] == a && s[|a| + 1..] == b;
  }

  lemma FlatSide(colors: seq<string>, s: string)
    requires PaletteOk(colors) && IsFlatColor(colors, Trim(s))
    ensures Level(s, 0) == Some(0) && Trim(s) != []
  {
    PaddedFlatLevel(colors, s);
    FlatColorNonempty(colors, Trim(s));
  }

  /** The splitter finds the comma between two flat colours. */
  lemma SplitFindsPair(colors: seq<string>, a: string, b: string)
    requires PaletteOk(colors) && IsFlatColor(colors, Trim(a)) && IsFlatColor(colors, Trim(b))
    ensures SeparatorFrom(a + "," + b, 0, 0, None) == Some(Some(|a|))
    ensures SplitColorPair(a + "," + b) == Some((Trim(a), Trim(b)))
  {
    FlatSide(colors, a);
    FlatSide(colors, b);
    SeparatorBetween(a, b);
    PairBetween(a, b);
  }

  lemma FlatColorNonempty(colors: seq<string>, value: string)
    requires PaletteOk(colors) && IsFlatColor(colors, value)
    ensures value != []
  {
  }

  /** Nothing that begins `light-dark(` is a flat colour. */
  lemma PairIsNotFlat(colors: seq<string>, rest: string)
    ensures !IsFlatColor(colors, "light-dark(" + rest)
  {
    var v := "light-dark(" + rest;
    assert v == "light-dark" + ['('] + rest;
    SplitOnceUnique("light-dark", '(', rest);
    assert v[0] == 'l';
  }

  lemma PairArgumentsShape(v: string)
    requires PairArguments(v).Some?
    ensures v == "light-dark(" + PairArguments(v).value + ")"
    ensures v == "light-dark(" + (PairArguments(v).value + ")")
  {
  }

  lemma PairArgumentsOf(args: string)
    ensures PairArguments("light-dark(" + args + ")") == Some(args)
  {
    var v := "light-dark(" + args + ")";
    assert v[|"light-dark("|..] == args + ")";
  }

  /** What the splitter returns are the trimmed sides of a comma in its argument. */
  lemma SplitIsSound(args: string) returns (a: string, b: string)
    requires SplitColorPair(args).Some?
    ensures args == a + "," + b
    ensures SplitColorPair(args) == Some((Trim(a), Trim(b)))
  {
    var k := SeparatorFrom(args, 0, 0, None).value.value;
    SeparatorIsComma(args, 0, 0, None);
    a, b := args[..k], args[k + 1..];
  }

  /** The splitter accepts exactly the declarative grammar. */
  lemma ColorGrammarExact(colors: seq<string>, value: string)
    requires PaletteOk(colors)
    ensures IsColor(colors, value) <==> IsColorGrammar(colors, Lower(value))
  {
    var v := Lower(value);
    var args := PairArguments(v);
    if args.Some? {
      PairArgumentsShape(v);
      PairIsNotFlat(colors, args.value + ")");
      if IsColor(colors, value) {
        var a, b := SplitIsSound(args.value);
        assert IsPairOf(colors, v, a, b);
      }
      if IsColorGrammar(colors, v) {
        var a, b :| IsPairOf(colors, v, a, b);
        PairArgumentsOf(a + "," + b);
        SplitFindsPair(colors, a, b);
      }
    } else if IsColorGrammar(colors, v) && !IsFlatColor(colors, v) {
      var a, b :| IsPairOf(colors, v, a, b);
      PairArgumentsOf(a + "," + b);
      assert false;
    }
  }

  lemma {:induction false} SeparatorIsComma(s: string, at: nat, depth: nat, separator: Option<nat>)
    requires at <= |s|
    requires separator.Some? ==> separator.value < at && s[separator.value] == ','
    ensures var r := SeparatorFrom(s, at, depth, separator);
            r.Some? && r.value.Some? ==> s[r.value.value] == ','
    decreases |s| - at
  {
    if at < |s| {
      if s[at] == '(' {
        if depth != 255 { SeparatorIsComma(s, at + 1, depth + 1, separator); }
      } else if s[at] == ')' {
        if depth != 0 { SeparatorIsComma(s, at + 1, depth - 1, separator); }
      } else if s[at] == ',' && depth == 0 {
        if separator.None? { SeparatorIsComma(s, at + 1, depth, Some(at)); }
      } else {
        SeparatorIsComma(s, at + 1, depth, separator);
      }
    }
  }

  /** A colour pair can be read in one way only. */
  lemma PairUnique(colors: seq<string>, v: string, a: string, b: string, c: string, d: string)
    requires PaletteOk(colors)
    requires IsPairOf(colors, v, a, b) && IsPairOf(colors, v, c, d)
    ensures a == c && b == d
  {
    var args := a + "," + b;
    PairArgumentsOf(args);
    PairArgumentsOf(c + "," + d);
    SplitFindsPair(colors, a, b);
    SplitFindsPair(colors, c, d);
    assert a == args[..|a|] == c;
    assert b == args[|a| + 1..] == d;
  }

  // -- the depth byte -------------------------------------------------------------------

  /** The same loop with an unbounded depth. */
  function SeparatorUnbounded(s: string, at: nat, depth: nat, separator: Option<nat>): Option<Option<nat>>
    requires at <= |s|
    decreases |s| - at
  {
    if at == |s| then if depth == 0 then Some(separator) else None
    else if s[at] == '(' then SeparatorUnbounded(s, at + 1, depth + 1, separator)
    else if s[at] == ')' then
      if depth == 0 then None else SeparatorUnbounded(s, at + 1, depth - 1, separator)
    else if s[at] == ',' && depth == 0 then
      if separator.Some? then None else SeparatorUnbounded(s, at + 1, depth, Some(at))
    else SeparatorUnbounded(s, at + 1, depth, separator)
  }

  lemma {:induction false} DepthWithinByte(s: string, at: nat, depth: nat, separator: Option<nat>)
    requires at <= |s| <= 255 && depth <= at
    requires separator.Some? ==> separator.value < at
    ensures SeparatorFrom(s, at, depth, separator) == SeparatorUnbounded(s, at, depth, separator)
    decreases |s| - at
  {
    if at < |s| {
      if s[at] == '(' {
        DepthWithinByte(s, at + 1, depth + 1, separator);
      } else if s[at] == ')' {
        if depth != 0 { DepthWithinByte(s, at + 1, depth - 1, separator); }
      } else if s[at] == ',' && depth == 0 {
        if separator.None? { DepthWithinByte(s, at + 1, depth, Some(at)); }
      } else {
        DepthWithinByte(s, at + 1, depth, separator);
      }
    }
  }

  /** Within the length a value may have, the byte-sized depth changes no verdict. */
  lemma DepthNeverOverflows(args: string)
    requires Bytes(args) <= MAX_VALUE
    ensures SeparatorFrom(args, 0, 0, None) == SeparatorUnbounded(args, 0, 0, None)
  {
    BytesAtLeastLength(args);
    DepthWithinByte(args, 0, 0, None);
  }

  // -- the alphabet of colours ------------------------------------------------------------

  lemma FlatColorAlphabet(colors: seq<string>, value: string)
    requires PaletteOk(colors) && IsFlatColor(colors, value)
    ensures PicoText(value)
  {
    var function_, args := FlatColorShape(colors, value);
  }

  lemma PaddedColorAlphabet(colors: seq<string>, s: string)
    requires PaletteOk(colors) && IsFlatColor(colors, Trim(s)) && OnlySpaces(s)
    ensures PicoText(s)
  {
    var pre, post := TrimShape(s);
    FlatColorAlphabet(colors, Trim(s));
    forall i | 0 <= i < |s| ensures InPicoAlphabet(s[i]) {
      if i < |pre| {
        assert s[i] == pre[i];
      } else if i < |pre| + |Trim(s)| {
        assert s[i] == Trim(s)[i - |pre|];
      } else {
        assert s[i] == post[i - |pre| - |Trim(s)|];
      }
    }
  }

  lemma PairAlphabet(colors: seq<string>, v: string, a: string, b: string)
    requires PaletteOk(colors) && IsPairOf(colors, v, a, b) && OnlySpaces(v)
    ensures PicoText(v)
  {
    var head := "light-dark(";
    assert forall i :: 0 <= i < |a| ==> a[i] == v[|head| + i];
    assert forall i :: 0 <= i < |b| ==> b[i] == v[|head| + |a| + 1 + i];
    PaddedColorAlphabet(colors, a);
    PaddedColorAlphabet(colors, b);
    assert PicoText(head);
    PicoConcat(a, ",");
    PicoConcat(a + ",", b);
    PicoConcat(head, a + "," + b);
    PicoConcat(head + (a + "," + b), ")");
  }

  /** A colour whose whitespace is normal is written in the Pico alphabet. */
  lemma ColorAlphabet(colors: seq<string>, value: string)
    requires PaletteOk(colors) && IsColor(colors, value) && OnlySpaces(value)
    ensures PicoText(value)
  {
    var v := Lower(value);
    ColorGrammarExact(colors, value);
    assert OnlySpaces(v);
    if IsFlatColor(colors, v) {
      FlatColorAlphabet(colors, v);
    } else {
      var a, b :| IsPairOf(colors, v, a, b);
      PairAlphabet(colors, v, a, b);
    }
    forall i | 0 <= i < |value| ensures InPicoAlphabet(value[i]) {
      assert v[i] == LowerChar(value[i]);
    }
  }
}
