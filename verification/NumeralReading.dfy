/**
 What the number parsers make of any text, said with the digits of a table and their positional
 value: capital hexadecimal digits, signs, leading zeros, base prefixes, underscores and numbers
 out of range included.
 */
module NumeralReading {
  import opened Wrappers
  import opened Numerals

  // The character stands for the digit d, below 16.
  predicate Stands(c: char, d: nat) {
    d < 16 && (c == "0123456789abcdef"[d] || c == "0123456789ABCDEF"[d])
  }

  // The text spells these digits of the base.
  predicate Spells(s: string, ds: seq<nat>, base: nat) {
    |s| == |ds| && forall i :: 0 <= i < |s| ==> ds[i] < base && Stands(s[i], ds[i])
  }

  function Value(ds: seq<nat>, base: nat): nat {
    if ds == [] then 0 else Value(ds[..|ds| - 1], base) * base + ds[|ds| - 1]
  }

  lemma DigitStands(c: char, d: nat)
    ensures Stands(c, d) <==> DigitValue(c) == d && d < 16
  {
  }

  // ---------- Digits ----------

  lemma Grows(v: nat, base: nat, d: nat, max: nat)
    requires base > 0 && v > max
    ensures v * base + d > max
  {
    assert v * base >= v;
  }

  lemma {:induction false} ScanReads(s: string, ds: seq<nat>, base: nat, max: nat)
    requires 0 < base <= 16 && Spells(s, ds, base)
    ensures Scan(s, base, max, 0) == if Value(ds, base) <= max then Ok(Value(ds, base)) else Err(OutOfRange(max))
    decreases |s|
  {
    if s != "" {
      var n := |s| - 1;
      var c, d, v := s[n], ds[n], Value(ds[..n], base);
      ScanReads(s[..n], ds[..n], base, max);
      ScanAppend(s[..n], [c], base, max, 0);
      assert s[..n] + [c] == s;
      DigitStands(c, d);
      hide Stands, DigitValue;
      if v <= max {
        ScanLast(c, d, base, max, v);
      } else {
        Grows(v, base, d, max);
      }
    }
  }

  lemma ScanLast(c: char, d: nat, base: nat, max: nat, acc: nat)
    requires DigitValue(c) == d < base
    ensures Scan([c], base, max, acc) ==
      if acc * base + d <= max then Ok(acc * base + d) else Err(OutOfRange(max))
  {
    if acc * base + d <= max { ScanOne(c, base, max, acc); }
    hide DigitValue;
  }

  // Digits are read as their positional value, or are out of range.
  lemma DigitsRead(s: string, ds: seq<nat>, base: nat, max: nat)
    requires (base == 10 || base == 16) && s != "" && Spells(s, ds, base)
    ensures ParseUint(s, base, max) == if Value(ds, base) <= max then Ok(Value(ds, base)) else Err(OutOfRange(max))
  {
    ScanReads(s, ds, base, max);
    hide Scan, Value, Spells;
  }

  lemma {:induction false} ScanSpelled(s: string, base: nat, max: nat, acc: nat) returns (ds: seq<nat>)
    requires base <= 16 && Scan(s, base, max, acc).Ok?
    ensures Spells(s, ds, base)
  {
    if s == "" {
      ds := [];
    } else {
      var d := DigitValue(s[0]);
      DigitStands(s[0], d);
      ds := ScanSpelled(s[1..], base, max, acc * base + d);
      ds := [d] + ds;
    }
  }

  // Nothing but digits is read as a number.
  lemma OnlyDigitsRead(s: string, base: nat, max: nat) returns (ds: seq<nat>)
    requires (base == 10 || base == 16) && ParseUint(s, base, max).Ok?
    ensures s != "" && Spells(s, ds, base) && ParseUint(s, base, max) == Ok(Value(ds, base)) && Value(ds, base) <= max
  {
    ds := ScanSpelled(s, base, max, 0);
    ScanReads(s, ds, base, max);
    hide Scan, Spells;
  }

  // ---------- Signed numbers ----------

  // A sign and decimal digits: the number, or the bound it lies beyond.
  lemma SignedRead(s: string, ds: seq<nat>)
    requires s != "" && Spells(s, ds, 10)
    ensures var v := Value(ds, 10);
      && ParseInt(s) == (if v <= MAX_INT then Ok(v) else Err(OutOfRange(MAX_INT)))
      && ParseInt("+" + s) == ParseInt(s)
      && ParseInt("-" + s) == (if 0 - v >= MIN_INT then Ok(0 - v) else Err(OutOfRange(MIN_INT)))
  {
    DigitsRead(s, ds, 10, MAX_U64);
    assert Stands(s[0], ds[0]);
    assert s[0] != '-' && s[0] != '+';
    assert ("+" + s)[1..] == s && ("-" + s)[1..] == s;
    hide Scan, Value, Spells, Stands;
  }

  // The digits of a printed number.
  function DigitList(n: nat): (ds: seq<nat>)
    ensures ds != []
  {
    if n < 10 then [n] else DigitList(n / 10) + [n % 10]
  }

  lemma {:induction false} PrintedDigits(n: nat)
    ensures Spells(Digits(n, 10), DigitList(n), 10) && Value(DigitList(n), 10) == n
  {
    if n < 10 {
      assert DigitList(n)[..0] == [];
      assert Value([], 10) == 0;
    } else {
      PrintedDigits(n / 10);
      var ds := DigitList(n / 10);
      assert (ds + [n % 10])[..|ds|] == ds;
    }
  }

  // Every printed integer reads back, or is refused with the bound it lies beyond.
  lemma AnyIntReads(n: int)
    ensures ParseInt(FormatInt(n)) ==
      if n > MAX_INT then Err(OutOfRange(MAX_INT)) else if n < MIN_INT then Err(OutOfRange(MIN_INT)) else Ok(n)
  {
    var m: nat := if n < 0 then 0 - n else n;
    PrintedDigits(m);
    SignedRead(Digits(m, 10), DigitList(m));
    hide Digits, DigitList, ParseInt, Spells, Value;
  }

  // ---------- Bases told by a prefix ----------

  lemma {:induction false} NoUnderscores(s: string, ds: seq<nat>, base: nat)
    requires Spells(s, ds, base)
    ensures WithoutUnderscores(s) == s && '_' !in s
  {
    if s != "" {
      NotUnderscore(s[0], ds[0]);
      hide Stands;
      NoUnderscores(s[1..], ds[1..], base);
    }
  }

  lemma NotUnderscore(c: char, d: nat)
    requires Stands(c, d)
    ensures c != '_'
  {
    DigitStands(c, d);
    hide Stands;
  }

  // The base is 16 behind 0x or 0X, 2 behind 0b or 0B, 8 behind 0o, 0O or a mere 0, and 10
  // otherwise.
  lemma AnyBaseReads(prefix: string, s: string, ds: seq<nat>, base: nat)
    requires s != "" && Spells(s, ds, base)
    requires (prefix in ["0x", "0X"] && base == 16) || (prefix in ["0b", "0B"] && base == 2)
      || (prefix in ["0o", "0O", "0"] && base == 8) || (prefix == "" && base == 10 && s[0] != '0')
    ensures ParseUintAnyBase(prefix + s) ==
      if Value(ds, base) <= MAX_U64 then Ok(Value(ds, base)) else Err(OutOfRange(MAX_U64))
  {
    ScanReads(s, ds, base, MAX_U64);
    NoUnderscores(s, ds, base);
    BaseTold(prefix, s, ds, base);
    hide Scan, Spells, Value, WithoutUnderscores, BasePrefix;
  }

  lemma BaseTold(prefix: string, s: string, ds: seq<nat>, base: nat)
    requires s != "" && Spells(s, ds, base)
    requires (prefix in ["0x", "0X"] && base == 16) || (prefix in ["0b", "0B"] && base == 2)
      || (prefix in ["0o", "0O", "0"] && base == 8) || (prefix == "" && base == 10 && s[0] != '0')
    ensures prefix + s != "" && BasePrefix(prefix + s) == (base, s)
  {
    var t := prefix + s;
    assert Stands(s[0], ds[0]);
    if |prefix| == 2 {
      assert t[0] == '0' && t[1] == prefix[1] && t[2..] == s;
    } else if |prefix| == 1 {
      assert t[0] == '0' && t[1] == s[0] && t[1..] == s;
    } else {
      assert t == s;
    }
  }

  // ---------- Underscores ----------

  // The text behind a prefix: 0x for hexadecimal, none for decimal.
  predicate Behind(prefix: string, t: string) {
    t != "" && (prefix == "0x" || (prefix == "" && t[0] != '0'))
  }

  predicate DigitText(s: string, hex: bool) {
    s != "" && forall i :: 0 <= i < |s| ==> DigitValue(s[i]) < (if hex then 16 else 10)
  }

  lemma ReadBehind(prefix: string, t: string)
    requires Behind(prefix, t)
    ensures var hex := prefix == "0x";
      var v := Scan(WithoutUnderscores(t), if hex then 16 else 10, MAX_U64, 0);
      ParseUintAnyBase(prefix + t) ==
        if v.Ok? && '_' in t && !UnderscoresFrom(t, hex, if hex then '0' else '^') then Err(Syntax) else v
  {
    var s := prefix + t;
    if prefix == "0x" {
      assert s[0] == '0' && s[1] == 'x' && s[2..] == t;
    } else {
      assert s == t;
    }
    hide Scan, WithoutUnderscores, UnderscoresFrom;
  }

  lemma {:induction false} Dropped(a: string, b: string)
    ensures WithoutUnderscores(a + b) == WithoutUnderscores(a) + WithoutUnderscores(b)
  {
    if a == "" {
      assert a + b == b;
    } else {
      assert (a + b)[0] == a[0] && (a + b)[1..] == a[1..] + b;
      Dropped(a[1..], b);
    }
  }

  lemma {:induction false} DigitsStay(s: string)
    requires forall i :: 0 <= i < |s| ==> DigitValue(s[i]) < 16
    ensures WithoutUnderscores(s) == s
  {
    if s != "" { DigitsStay(s[1..]); }
  }

  // Digits leave it open whether the next character may be an underscore.
  lemma {:induction false} DigitsPass(s: string, rest: string, hex: bool, last: char)
    requires forall i :: 0 <= i < |s| ==> DigitValue(s[i]) < (if hex then 16 else 10)
    requires s != "" || last == '0'
    ensures UnderscoresFrom(s + rest, hex, last) == UnderscoresFrom(rest, hex, '0')
  {
    hide DigitValue;
    if s == "" {
      assert s + rest == rest;
    } else {
      assert (s + rest)[0] == s[0] && (s + rest)[1..] == s[1..] + rest;
      DigitsPass(s[1..], rest, hex, '0');
    }
  }

  lemma UnderscoreStep(rest: string, hex: bool, last: char)
    ensures UnderscoresFrom("_" + rest, hex, last) == (last == '0' && UnderscoresFrom(rest, hex, '_'))
  {
    assert ("_" + rest)[1..] == rest;
  }

  lemma OneUnderscore()
    ensures WithoutUnderscores("_") == ""
  {
    assert "_"[1..] == "";
  }

  lemma TextWith(a: string, gap: string, b: string, hex: bool)
    requires DigitText(a, hex) && DigitText(b, hex) && (gap == "_" || gap == "__")
    ensures WithoutUnderscores(a + (gap + b)) == a + b == WithoutUnderscores(a + b) && '_' in a + (gap + b)
  {
    OneUnderscore();
    assert gap == "__" ==> gap == "_" + "_";
    Dropped("_", "_");
    DigitsStay(a);
    DigitsStay(b);
    hide WithoutUnderscores;
    Dropped(a, gap + b);
    Dropped(gap, b);
    Dropped(a, b);
    assert "" + b == b;
    assert (a + (gap + b))[|a|] == '_';
  }

  // An underscore may stand between two digits, and between a prefix and a digit.
  lemma UnderscoreBetween(prefix: string, a: string, b: string)
    requires Behind(prefix, a) && DigitText(a, prefix == "0x") && DigitText(b, prefix == "0x")
    ensures ParseUintAnyBase(prefix + (a + ("_" + b))) == ParseUintAnyBase(prefix + (a + b))
    ensures ParseUintAnyBase("0x" + ("_" + b)) == ParseUintAnyBase("0x" + b)
  {
    var hex, last := prefix == "0x", if prefix == "0x" then '0' else '^';
    TextWith(a, "_", b, hex);
    NoUnderscoreIn(a, b, hex);
    hide WithoutUnderscores, UnderscoresFrom, Scan, DigitValue, ParseUintAnyBase;
    ReadBehind(prefix, a + ("_" + b));
    ReadBehind(prefix, a + b);
    DigitsPass(a, "_" + b, hex, last);
    UnderscoreStep(b, hex, '0');
    BehindUnderscore(b, hex);
    PrefixUnderscore(b);
  }

  lemma NoUnderscoreIn(a: string, b: string, hex: bool)
    requires DigitText(a, hex) && DigitText(b, hex)
    ensures '_' !in a + b
  {
  }

  lemma BehindUnderscore(b: string, hex: bool)
    requires DigitText(b, hex)
    ensures UnderscoresFrom(b, hex, '_')
  {
    assert b + "" == b;
    DigitsPass(b, "", hex, '_');
  }

  lemma PrefixUnderscore(b: string)
    requires forall i :: 0 <= i < |b| ==> DigitValue(b[i]) < 16
    requires b != ""
    ensures ParseUintAnyBase("0x" + ("_" + b)) == ParseUintAnyBase("0x" + b)
  {
    OneUnderscore();
    DigitsStay(b);
    assert '_' !in b;
    hide WithoutUnderscores, UnderscoresFrom, Scan, DigitValue, ParseUintAnyBase;
    Dropped("_", b);
    assert "" + b == b;
    ReadBehind("0x", "_" + b);
    ReadBehind("0x", b);
    UnderscoreStep(b, true, '0');
    BehindUnderscore(b, true);
  }

  // Two in a row, one at the end, and one in front of a decimal number are refused.
  lemma UnderscoreMisplaced(prefix: string, a: string, b: string)
    requires Behind(prefix, a) && DigitText(a, prefix == "0x") && DigitText(b, prefix == "0x")
    ensures ParseUintAnyBase(prefix + (a + ("__" + b))).Err? && ParseUintAnyBase(prefix + (a + "_")).Err?
    ensures ParseUintAnyBase("_" + a).Err?
  {
    var hex, last := prefix == "0x", if prefix == "0x" then '0' else '^';
    TextWith(a, "__", b, hex);
    hide WithoutUnderscores, UnderscoresFrom, Scan, DigitValue, ParseUintAnyBase;
    ReadBehind(prefix, a + ("__" + b));
    DigitsPass(a, "__" + b, hex, last);
    assert "__" + b == "_" + ("_" + b);
    UnderscoreStep("_" + b, hex, '0');
    UnderscoreStep(b, hex, '_');
    ReadBehind(prefix, a + "_");
    DigitsPass(a, "_", hex, last);
    assert "_" == "_" + "" && (a + "_")[|a|] == '_';
    UnderscoreStep("", hex, '0');
    NothingBehindUnderscore(hex);
    ReadBehind("", "_" + a);
    UnderscoreStep(a, false, '^');
    assert "" + ("_" + a) == "_" + a;
  }

  lemma NothingBehindUnderscore(hex: bool)
    ensures !UnderscoresFrom("", hex, '_')
  {
  }
}
