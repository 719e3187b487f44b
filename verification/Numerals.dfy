/** Numerals as Go's strconv and fmt packages print and parse them. */
module Numerals {
  import opened Wrappers
  import opened Text

  const MAX_U16: nat := 0xffff
  const MAX_U32: nat := 0xffff_ffff
  const MAX_U64: nat := 0xffff_ffff_ffff_ffff
  const MAX_INT: int := 0x7fff_ffff_ffff_ffff
  const MIN_INT: int := -0x8000_0000_0000_0000

  type u16 = n: nat | n <= 0xffff
  type u64 = n: nat | n <= 0xffff_ffff_ffff_ffff
  type int64 = n: int | -0x8000_0000_0000_0000 <= n <= 0x7fff_ffff_ffff_ffff

  // A numeral out of range is clipped to the nearest bound, as strconv does.
  datatype NumError = Syntax | OutOfRange(clip: int)

  type Num = Result<int64, NumError>

  // ---------- Printing ----------

  function DigitChar(d: nat): char
    requires d < 16
  {
    "0123456789abcdef"[d]
  }

  function Digits(n: nat, base: nat): (s: string)
    requires base == 10 || base == 16
    ensures s != ""
    decreases n
  {
    if n < base then [DigitChar(n)] else Digits(n / base, base) + [DigitChar(n % base)]
  }

  function Zeros(k: nat): (s: string)
    ensures |s| == k
  {
    if k == 0 then "" else "0" + Zeros(k - 1)
  }

  // %0<width>x
  function PaddedHex(n: nat, width: nat): string {
    var s := Digits(n, 16);
    (if |s| < width then Zeros(width - |s|) else "") + s
  }

  // strconv.FormatInt(n, 10), strconv.Itoa and %d
  function FormatInt(n: int): string {
    if n < 0 then "-" + Digits(-n, 10) else Digits(n, 10)
  }

  // ---------- Parsing ----------

  // The value of a digit of a base up to 16, or 16.
  function DigitValue(c: char): nat {
    if '0' <= c <= '9' then c as nat - '0' as nat
    else if 'a' <= c <= 'f' then c as nat - 'a' as nat + 10
    else if 'A' <= c <= 'F' then c as nat - 'A' as nat + 10
    else 16
  }

  // The loop of strconv.ParseUint from the accumulated value acc.
  function Scan(s: string, base: nat, max: nat, acc: nat): Result<nat, NumError> {
    if s == "" then Ok(acc)
    else
      var d := DigitValue(s[0]);
      if d >= base then Err(Syntax)
      else if acc * base + d > max then Err(OutOfRange(max))
      else Scan(s[1..], base, max, acc * base + d)
  }

  // strconv.ParseUint(s, base, bits) with base 10 or 16 and 2^bits - 1 == max.
  function ParseUint(s: string, base: nat, max: nat): Result<nat, NumError> {
    if s == "" then Err(Syntax) else Scan(s, base, max, 0)
  }

  function StripSign(s: string): (string, bool) {
    if s != "" && s[0] == '-' then (s[1..], true)
    else if s != "" && s[0] == '+' then (s[1..], false)
    else (s, false)
  }

  // strconv.ParseInt(s, 10, 0) and strconv.Atoi on a 64-bit platform.
  function ParseInt(s: string): Num {
    var (t, neg) := StripSign(s);
    match ParseUint(t, 10, MAX_U64)
    case Err(Syntax) => Err(Syntax)
    case Err(OutOfRange(_)) => Err(OutOfRange(if neg then MIN_INT else MAX_INT))
    case Ok(v) =>
      if neg then (if v > MAX_INT + 1 then Err(OutOfRange(MIN_INT)) else Ok(0 - v))
      else if v > MAX_INT then Err(OutOfRange(MAX_INT)) else Ok(v)
  }

  // The value strconv.Atoi returns next to its error.
  function AtoiValue(s: string): int {
    match ParseInt(s)
    case Ok(v) => v
    case Err(Syntax) => 0
    case Err(OutOfRange(clip)) => clip
  }

  // strconv.ParseUint(s, 0, 64): the base comes from the prefix, and digits may be grouped
  // by single underscores.
  function ParseUintAnyBase(s: string): (r: Result<nat, NumError>)
    ensures r.Ok? ==> r.value <= MAX_U64
  {
    if s == "" then Err(Syntax)
    else
      var (base, t) := BasePrefix(s);
      var v := Scan(WithoutUnderscores(t), base, MAX_U64, 0);
      ScanBound(WithoutUnderscores(t), base, MAX_U64, 0);
      if v.Ok? && '_' in t && !UnderscoresOk(s) then Err(Syntax) else v
  }

  lemma {:induction false} ScanBound(s: string, base: nat, max: nat, acc: nat)
    requires acc <= max
    ensures Scan(s, base, max, acc).Ok? ==> Scan(s, base, max, acc).value <= max
  {
    if s != "" {
      var next := acc * base + DigitValue(s[0]);
      if DigitValue(s[0]) < base && next <= max { ScanBound(s[1..], base, max, next); }
    }
  }

  function BasePrefix(s: string): (nat, string)
    requires s != ""
  {
    if s[0] != '0' then (10, s)
    else if |s| >= 3 && LowerChar(s[1]) == 'b' then (2, s[2..])
    else if |s| >= 3 && LowerChar(s[1]) == 'o' then (8, s[2..])
    else if |s| >= 3 && LowerChar(s[1]) == 'x' then (16, s[2..])
    else (8, s[1..])
  }

  function WithoutUnderscores(s: string): string {
    if s == "" then "" else (if s[0] == '_' then "" else [s[0]]) + WithoutUnderscores(s[1..])
  }

  // Every underscore stands between digits; a base prefix counts as a digit.
  predicate UnderscoresOk(s: string) {
    if |s| >= 2 && s[0] == '0' && LowerChar(s[1]) in "box"
    then UnderscoresFrom(s[2..], LowerChar(s[1]) == 'x', '0')
    else UnderscoresFrom(s, false, '^')
  }

  predicate UnderscoresFrom(s: string, hex: bool, last: char) {
    if s == "" then last != '_'
    else if DigitValue(s[0]) < (if hex then 16 else 10) then UnderscoresFrom(s[1..], hex, '0')
    else if s[0] == '_' then last == '0' && UnderscoresFrom(s[1..], hex, '_')
    else last != '_' && UnderscoresFrom(s[1..], hex, '!')
  }

  // ---------- Parsing undoes printing ----------

  lemma {:induction false} ScanAppend(a: string, b: string, base: nat, max: nat, acc: nat)
    ensures Scan(a + b, base, max, acc) ==
      match Scan(a, base, max, acc) case Ok(v) => Scan(b, base, max, v) case Err(e) => Err(e)
  {
    if a == "" {
      assert a + b == b;
    } else {
      assert (a + b)[0] == a[0] && (a + b)[1..] == a[1..] + b;
      var next := acc * base + DigitValue(a[0]);
      ScanAppend(a[1..], b, base, max, next);
    }
  }

  lemma DigitRoundTrip(d: nat)
    requires d < 16
    ensures DigitValue(DigitChar(d)) == d
  {
  }

  lemma {:induction false} ScanDigits(n: nat, base: nat, max: nat)
    requires base == 10 || base == 16
    requires n <= max
    ensures Scan(Digits(n, base), base, max, 0) == Ok(n)
  {
    if n < base {
      DigitRoundTrip(n);
      ScanOne(DigitChar(n), base, max, 0);
    } else {
      var q, d := n / base, n % base;
      ScanDigits(q, base, max);
      ScanAppend(Digits(q, base), [DigitChar(d)], base, max, 0);
      DigitRoundTrip(d);
      assert q * base + d == n;
      ScanOne(DigitChar(d), base, max, q);
    }
  }

  lemma ScanOne(c: char, base: nat, max: nat, acc: nat)
    requires DigitValue(c) < base && acc * base + DigitValue(c) <= max
    ensures Scan([c], base, max, acc) == Ok(acc * base + DigitValue(c))
  {
    var next := acc * base + DigitValue(c);
    assert Scan("", base, max, next) == Ok(next);
    assert [c][1..] == "";
  }

  lemma {:induction false} ScanZeros(k: nat, s: string, base: nat, max: nat)
    requires base > 0
    ensures Scan(Zeros(k) + s, base, max, 0) == Scan(s, base, max, 0)
  {
    if k == 0 {
      assert Zeros(k) + s == s;
    } else {
      ScanZeros(k - 1, s, base, max);
      assert (Zeros(k) + s)[1..] == Zeros(k - 1) + s;
    }
  }

  lemma ParsePaddedHex(n: nat, width: nat, max: nat)
    requires n <= max
    ensures ParseUint(PaddedHex(n, width), 16, max) == Ok(n)
  {
    hide Scan, Digits, Zeros;
    var s := Digits(n, 16);
    ScanDigits(n, 16, max);
    if |s| < width { ScanZeros(width - |s|, s, 16, max); }
    assert "" + s == s;
  }

  // Every character of a numeral is a digit of the base.
  lemma {:induction false} DigitsAreDigits(n: nat, base: nat)
    requires base == 10 || base == 16
    ensures forall i :: 0 <= i < |Digits(n, base)| ==> DigitValue(Digits(n, base)[i]) < base
  {
    if n < base {
      DigitRoundTrip(n);
    } else {
      DigitsAreDigits(n / base, base);
      DigitRoundTrip(n % base);
    }
  }

  lemma ParseFormatInt(n: int64)
    ensures ParseInt(FormatInt(n)) == Ok(n)
  {
    hide Scan, Digits;
    var m: nat := if n < 0 then 0 - n else n;
    ScanDigits(m, 10, MAX_U64);
    DigitsAreDigits(m, 10);
    if n < 0 {
      assert ("-" + Digits(m, 10))[1..] == Digits(m, 10);
    } else {
      assert DigitValue(Digits(m, 10)[0]) < 10;
    }
  }

  lemma DigitsInjective(a: nat, b: nat)
    requires Digits(a, 10) == Digits(b, 10)
    ensures a == b
  {
    hide *;
    ScanDigits(a, 10, a + b);
    ScanDigits(b, 10, a + b);
  }
}
