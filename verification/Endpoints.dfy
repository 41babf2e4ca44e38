/** Endpoint ids: 32-byte keys written in hexadecimal, in either case and with whitespace
    around them. Tables keep and compare the text. */
module Endpoints {
  import opened Text
  import opened Statements

  /** `parse_endpoint_id` */
  function ParseEndpoint(text: string): Option<KeyBytes> {
    var t := Trim(text);
    if |t| != 64 || (exists i :: 0 <= i < 64 && HexDigit(t[i]).None?) then None
    else Some(seq(32, i requires 0 <= i < 32 => 16 * HexDigit(t[2 * i]).value + HexDigit(t[2 * i + 1]).value))
  }

  function Nibble(n: nat): char
    requires n < 16
  {
    if n < 10 then '0' + n as char else 'a' + (n - 10) as char
  }

  /** The lower-case hexadecimal form of a key. */
  function HexLower(key: KeyBytes): (text: string)
    ensures |text| == 64
    ensures forall i :: 0 <= i < 64 ==> text[i] == Nibble(if i % 2 == 0 then key[i / 2] / 16 else key[i / 2] % 16)
  {
    seq(64, i requires 0 <= i < 64 => Nibble(if i % 2 == 0 then key[i / 2] / 16 else key[i / 2] % 16))
  }

  lemma NibbleDigit(n: nat)
    requires n < 16
    ensures HexDigit(Nibble(n)) == Some(n) && !IsWhitespace(Nibble(n))
  {
  }

  lemma HexLowerDigit(key: KeyBytes, i: nat)
    requires i < 64
    ensures HexDigit(HexLower(key)[i]) == Some(if i % 2 == 0 then key[i / 2] / 16 else key[i / 2] % 16)
    ensures !IsWhitespace(HexLower(key)[i])
  {
    NibbleDigit(if i % 2 == 0 then key[i / 2] / 16 else key[i / 2] % 16);
  }

  lemma HexLowerPair(key: KeyBytes, i: nat)
    requires i < 32
    ensures HexDigit(HexLower(key)[2 * i]).Some? && HexDigit(HexLower(key)[2 * i + 1]).Some?
    ensures 16 * HexDigit(HexLower(key)[2 * i]).value + HexDigit(HexLower(key)[2 * i + 1]).value == key[i]
  {
    HexLowerDigit(key, 2 * i);
    HexLowerDigit(key, 2 * i + 1);
  }

  lemma HexLowerTrimmed(key: KeyBytes)
    ensures HexLower(key) != [] && IsTrimmed(HexLower(key))
  {
    HexLowerDigit(key, 0);
    HexLowerDigit(key, 63);
  }

  /** A key is read back from its lower-case form. */
  lemma ParseHexLower(key: KeyBytes)
    ensures ParseEndpoint(HexLower(key)) == Some(key)
  {
    var text := HexLower(key);
    HexLowerTrimmed(key);
    TrimTrimmed(text);
    forall i | 0 <= i < 64 ensures HexDigit(text[i]).Some? { HexLowerDigit(key, i); }
    forall j | 0 <= j < 32
      ensures HexDigit(text[2 * j]).Some? && HexDigit(text[2 * j + 1]).Some?
              && key[j] == 16 * HexDigit(text[2 * j]).value + HexDigit(text[2 * j + 1]).value
    {
      HexLowerPair(key, j);
    }
    ParseExact(text, key);
  }

  lemma DigitNibble(c: char)
    requires HexDigit(c).Some?
    ensures Nibble(HexDigit(c).value) == LowerChar(c)
  {
  }

  lemma ParsedDigits(text: string, j: nat)
    requires ParseEndpoint(text).Some? && j < 32
    ensures var t, key := Trim(text), ParseEndpoint(text).value;
            && |t| == 64 && HexDigit(t[2 * j]).Some? && HexDigit(t[2 * j + 1]).Some?
            && key[j] / 16 == HexDigit(t[2 * j]).value && key[j] % 16 == HexDigit(t[2 * j + 1]).value
  {
  }

  /** The text of a key, trimmed and in lower case, is the key's lower-case form. */
  lemma CanonicalText(text: string)
    requires ParseEndpoint(text).Some?
    ensures HexLower(ParseEndpoint(text).value) == Lower(Trim(text))
  {
    var t, hex := Trim(text), HexLower(ParseEndpoint(text).value);
    forall i | 0 <= i < 64 ensures hex[i] == LowerChar(t[i]) {
      ParsedDigits(text, i / 2);
      assert i == 2 * (i / 2) || i == 2 * (i / 2) + 1;
      DigitNibble(t[i]);
    }
  }

  /** Two accepted texts name one key exactly when they differ only in letter case and in the
      whitespace around them. */
  lemma SameKeyExact(a: string, b: string)
    requires ParseEndpoint(a).Some? && ParseEndpoint(b).Some?
    ensures ParseEndpoint(a) == ParseEndpoint(b) <==> Lower(Trim(a)) == Lower(Trim(b))
  {
    CanonicalText(a);
    CanonicalText(b);
    ParseHexLower(ParseEndpoint(a).value);
    ParseHexLower(ParseEndpoint(b).value);
  }

  /** One key has many texts: two different ids in a table may name the same endpoint. */
  lemma TextsShareAKey(key: KeyBytes)
    ensures HexLower(key) + [' '] != HexLower(key)
    ensures ParseEndpoint(HexLower(key) + [' ']) == ParseEndpoint(HexLower(key))
  {
    var text := HexLower(key);
    HexLowerTrimmed(key);
    TrimTrimmed(text);
    TrimSpaceAfter(text);
    assert |text + [' ']| != |text|;
  }

  lemma TrimSpaceAfter(text: string)
    requires text != [] && IsTrimmed(text)
    ensures Trim(text + [' ']) == Trim(text)
  {
    TrimTrimmed(text);
    TrimPadded("", text, [' ']);
    assert "" + text + [' '] == text + [' '];
  }

  /** A text is an endpoint id exactly when, without the whitespace around it, it is 64 hexadecimal
      digits of either case, and it then names the key whose bytes they are. */
  lemma ParseExact(text: string, key: KeyBytes)
    ensures var t := Trim(text);
            ParseEndpoint(text) == Some(key) <==>
              && |t| == 64 && (forall i :: 0 <= i < 64 ==> HexDigit(t[i]).Some?)
              && forall j :: 0 <= j < 32 ==> HexDigit(t[2 * j]).Some? && HexDigit(t[2 * j + 1]).Some?
                                             && key[j] == 16 * HexDigit(t[2 * j]).value + HexDigit(t[2 * j + 1]).value
  {
    if ParseEndpoint(text).Some? {
      var parsed := ParseEndpoint(text).value;
      if forall j :: 0 <= j < 32 ==> key[j] == parsed[j] { assert key == parsed; }
    }
  }
}
