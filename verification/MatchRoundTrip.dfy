/** Parsing undoes printing, match by match. */
module MatchRoundTrip {
  import opened Wrappers
  import opened Text
  import opened Numerals
  import opened Matches
  import opened MatchParser

  // ---------- Text that survives inside a flow ----------

  predicate PlainChar(c: char) { c != ',' && c != '=' && !IsSpace(c) }

  // Neither a separator of the flow syntax nor white space.
  predicate Plain(s: string) {
    forall i :: 0 <= i < |s| ==> PlainChar(s[i])
  }

  lemma PlainAppend(a: string, b: string)
    requires Plain(a) && Plain(b)
    ensures Plain(a + b)
  {
  }

  lemma PlainTrimmed(s: string)
    requires Plain(s)
    ensures TrimSpace(s) == s && ',' !in s && '=' !in s
  {
  }

  lemma PlainDigit(c: char)
    requires DigitValue(c) < 16
    ensures PlainChar(c) && c != '/' && c != '-' && c != '+'
  {
  }

  // ---------- Keys ----------

  // The second, sixth and third last characters tell the keys apart.
  function Marks(s: string): (char, char, char)
    requires |s| >= 6
  {
    (s[1], s[5], s[|s| - 3])
  }

  lemma KeyLength(k: Key)
    ensures |KeyText(k)| >= 6
  {
  }

  lemma IntDistinct(a: Key, b: Key)
    requires a.KInt? && KeyText(a) == KeyText(b)
    ensures a == b
  {
    KeyLength(a);
    assert Marks(KeyText(a)) == Marks(KeyText(b));
  }

  lemma AddressDistinct(a: Key, b: Key)
    requires (a.KIpv4? || a.KIpv6?) && !b.KInt? && KeyText(a) == KeyText(b)
    ensures a == b
  {
    KeyLength(a);
    assert Marks(KeyText(a)) == Marks(KeyText(b));
  }

  lemma OtherDistinct(a: Key, b: Key)
    requires !a.KInt? && !a.KIpv4? && !a.KIpv6? && !b.KInt? && !b.KIpv4? && !b.KIpv6? && KeyText(a) == KeyText(b)
    ensures a == b
  {
    KeyLength(a);
    assert Marks(KeyText(a)) == Marks(KeyText(b));
  }

  lemma KeysDistinct(a: Key, b: Key)
    requires KeyText(a) == KeyText(b)
    ensures a == b
  {
    hide KeyText;
    if a.KInt? { IntDistinct(a, b); }
    else if b.KInt? { IntDistinct(b, a); }
    else if a.KIpv4? || a.KIpv6? { AddressDistinct(a, b); }
    else if b.KIpv4? || b.KIpv6? { AddressDistinct(b, a); }
    else { OtherDistinct(a, b); }
  }

  // The dispatch takes a text for a key only if it is that key's text.
  lemma KeySound(s: string)
    ensures KeyOf(s).Some? ==> KeyText(KeyOf(s).value) == s
  {
    hide MacKindOf, IntKindOf, Ipv4KindOf, Ipv6KindOf, MaskKindOf, PortKeyOf, PlainKeyOf, MacKey, IntKey, Ipv4Key,
      Ipv6Key, MaskKey, PortKey;
  }

  lemma PlainKeyFound(k: Key)
    requires !k.KMac? && !k.KInt? && !k.KIpv4? && !k.KIpv6? && !k.KMasked? && !k.KPort?
    ensures PlainKeyOf(KeyText(k)).Some?
  {
  }

  lemma KeyFound(k: Key)
    ensures KeyOf(KeyText(k)).Some?
  {
    if !k.KMac? && !k.KInt? && !k.KIpv4? && !k.KIpv6? && !k.KMasked? && !k.KPort? { PlainKeyFound(k); }
    hide MacKindOf, IntKindOf, Ipv4KindOf, Ipv6KindOf, MaskKindOf, PortKeyOf, PlainKeyOf, MacKey, IntKey, Ipv4Key,
      Ipv6Key, MaskKey, PortKey;
  }

  // No key is captured by another case of the dispatch.
  lemma KeyRoundTrip(k: Key)
    ensures KeyOf(KeyText(k)) == Some(k)
  {
    hide *;
    KeyFound(k);
    KeySound(KeyText(k));
    KeysDistinct(KeyOf(KeyText(k)).value, k);
  }

  // ---------- Masked numbers ----------

  predicate HexText(s: string) {
    forall i :: 0 <= i < |s| ==> DigitValue(s[i]) < 16
  }

  lemma {:induction false} ZerosAreHex(k: nat)
    ensures HexText(Zeros(k))
  {
    if k > 0 { ZerosAreHex(k - 1); }
  }

  lemma PaddedHexIsHex(n: nat, width: nat)
    ensures HexText(PaddedHex(n, width))
  {
    hide DigitValue;
    var s := Digits(n, 16);
    DigitsAreDigits(n, 16);
    if |s| < width { ZerosAreHex(width - |s|); }
  }

  lemma HexIsPlain(n: nat, width: nat)
    ensures Plain(Hex(n, width)) && '/' !in Hex(n, width)
  {
    PaddedHexIsHex(n, width);
    var s := PaddedHex(n, width);
    hide DigitValue, PlainChar;
    forall i | 0 <= i < |s| ensures PlainChar(s[i]) && s[i] != '/' {
      PlainDigit(s[i]);
    }
    assert PlainChar('0') && PlainChar('x') by { ZeroX(); }
    PlainAppend("0x", s);
  }

  lemma ZeroX()
    ensures PlainChar('0') && PlainChar('x') && PlainChar('/') && PlainChar('-')
  {
  }

  lemma ParseHexText(n: nat, width: nat, max: nat)
    requires n <= max && (max == MAX_U16 || max == MAX_U32 || max == MAX_U64)
    ensures ParseHex(Hex(n, width), max) == Ok(n)
    ensures ParsePart(Hex(n, width), max) == Ok(n)
  {
    var s := PaddedHex(n, width);
    ParsePaddedHex(n, width, if max == MAX_U16 then MAX_U32 else max);
    hide ParseUint, PaddedHex, ParseInt;
    assert ("0x" + s)[..2] == "0x" && ("0x" + s)[2..] == s;
    assert n % (max + 1) == n;
  }

  // Printing a number with its mask, omitted when 0, and parsing it gives both back.
  lemma MaskedRoundTrip(value: nat, mask: nat, width: nat, max: nat)
    requires value <= max && mask <= max && (max == MAX_U16 || max == MAX_U32 || max == MAX_U64)
    ensures ParseMasked(MaskedText(value, mask, width), max) == Ok((value, mask))
    ensures Plain(MaskedText(value, mask, width))
  {
    hide Hex, ParsePart, Split, Plain;
    HexIsPlain(value, width);
    HexIsPlain(mask, width);
    ParseHexText(value, width, max);
    ParseHexText(mask, width, max);
    var v, m := Hex(value, width), Hex(mask, width);
    if mask == 0 {
      SplitNone(v, '/');
      PartsOne(v, max);
    } else {
      TwoParts(v, m);
      PartsTwo(v, m, max);
      PlainSlash(v, m);
    }
  }

  lemma TwoParts(v: string, m: string)
    requires '/' !in v && '/' !in m
    ensures Split(v + "/" + m, "/") == [v, m]
  {
    SplitFirst(v, '/', m);
    SplitNone(m, '/');
  }

  lemma PlainSlash(v: string, m: string)
    requires Plain(v) && Plain(m)
    ensures Plain(v + "/" + m)
  {
  }

  lemma PartsOne(v: string, max: nat)
    requires ParsePart(v, max).Ok?
    ensures ParseParts([v], max) == Ok([ParsePart(v, max).value])
  {
    hide ParsePart;
    assert [v][1..] == [];
    assert ParseParts([], max) == Ok([]);
    assert [ParsePart(v, max).value] + [] == [ParsePart(v, max).value];
  }

  lemma PartsTwo(v: string, m: string, max: nat)
    requires ParsePart(v, max).Ok? && ParsePart(m, max).Ok?
    ensures ParseParts([v, m], max) == Ok([ParsePart(v, max).value, ParsePart(m, max).value])
  {
    hide ParsePart;
    PartsOne(m, max);
    assert [v, m][1..] == [m];
    assert [v, m][0] == v;
    assert [ParsePart(v, max).value] + [ParsePart(m, max).value] == [ParsePart(v, max).value, ParsePart(m, max).value];
  }

  // ---------- Decimal numbers ----------

  lemma NotHexPrefix(s: string)
    requires forall i :: 0 <= i < |s| ==> s[i] != 'x'
    ensures !HasPrefix(s, "0x")
  {
    if |s| >= 2 { assert s[..2][1] == s[1]; }
  }

  lemma FormatIntText(n: int)
    ensures Plain(FormatInt(n)) && '/' !in FormatInt(n)
    ensures !HasPrefix(FormatInt(n), "0x")
  {
    var m: nat := if n < 0 then 0 - n else n;
    DigitsAreDigits(m, 10);
    var d := Digits(m, 10);
    hide Digits;
    forall i | 0 <= i < |d| ensures PlainChar(d[i]) && d[i] != '/' && d[i] != 'x' {
      PlainDigit(d[i]);
      assert DigitValue(d[i]) < 10;
    }
    ZeroX();
    hide PlainChar, DigitValue;
    if n < 0 {
      assert FormatInt(n) == "-" + d;
      PlainAppend("-", d);
    }
    NotHexPrefix(FormatInt(n));
  }

  // ---------- Ports ----------

  // A port, with its mask unless that is 0, parses back to the same pair.
  lemma PortRoundTrip(port: u16, mask: u16)
    ensures ParsePort(PortText(port, mask)) == Ok((port, mask))
    ensures Plain(PortText(port, mask))
  {
    hide Hex, Split, ParseHex, FormatInt, ParseInt, Plain;
    if mask == 0 {
      FormatIntText(port);
      ParseFormatInt(port);
      SplitNone(FormatInt(port), '/');
    } else {
      HexIsPlain(port, 4);
      HexIsPlain(mask, 4);
      ParseHexText(port, 4, MAX_U64);
      ParseHexText(mask, 4, MAX_U64);
      TwoParts(Hex(port, 4), Hex(mask, 4));
      PlainSlash(Hex(port, 4), Hex(mask, 4));
    }
  }
}
