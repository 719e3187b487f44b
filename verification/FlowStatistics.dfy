/**
 What only ovs-ofctl prints: the counters of a dumped flow, and white space around keys and
 values.
 */
module FlowStatistics {
  import opened Wrappers
  import opened Text
  import opened Numerals
  import opened Matches
  import opened MatchParser
  import opened MatchRoundTrip
  import opened Flows
  import opened FlowRoundTrip

  lemma {:induction false} FirstDigit(n: nat)
    requires n > 0
    ensures Digits(n, 10)[0] != '0'
  {
    if n >= 10 { FirstDigit(n / 10); }
  }

  // A decimal counter reads back although the base is told from the prefix: only 0 itself
  // begins with a zero.
  lemma CounterParses(n: u64)
    ensures ParseUintAnyBase(Digits(n, 10)) == Ok(n)
  {
    var d := Digits(n, 10);
    ScanDigits(n, 10, MAX_U64);
    DigitsAreDigits(n, 10);
    DecimalHasNoUnderscore(d);
    if n > 0 {
      FirstDigit(n);
      hide Digits, Scan, WithoutUnderscores;
    } else {
      assert d == "0" && d[1..] == "";
      assert WithoutUnderscores("") == "" && Scan("", 8, MAX_U64, 0) == Ok(0);
    }
  }

  lemma {:induction false} DecimalHasNoUnderscore(s: string)
    requires forall i :: 0 <= i < |s| ==> DigitValue(s[i]) < 10
    ensures WithoutUnderscores(s) == s && '_' !in s
  {
    if s != "" { DecimalHasNoUnderscore(s[1..]); }
  }

  // ---------- White space around keys and values ----------

  lemma AroundHasNo(a: string, s: string, b: string)
    requires AllSpace(a) && AllSpace(b) && '=' !in s
    ensures '=' !in a + s + b
  {
  }

  // A key and a value; a value with an equals sign makes the field one that is skipped.
  lemma PairApplied(net: Net, f: FlowData, k: string, v: string)
    requires '=' !in k
    ensures ApplyField(net, f, k + "=" + v) ==
      if '=' in v then (f, None) else ApplyPair(net, f, k, TrimSpace(v))
  {
    var field := k + "=" + v;
    hide Contains, TrimSpace, Split, ApplyPair;
    ContainsChar(field, '=');
    assert field[|k|] == '=';
    SplitFirst(k, '=', v);
    MoreParts(v);
  }

  lemma MoreParts(v: string)
    ensures if '=' in v then |Split(v, "=")| > 1 else Split(v, "=") == [v]
  {
    ContainsChar(v, '=');
  }

  // White space on either side of a key and of a value does not matter to the fields of a flow.
  lemma SpacedPair(net: Net, f: FlowData, a: string, k: string, b: string, c: string, v: string, d: string)
    requires AllSpace(a) && AllSpace(b) && AllSpace(c) && AllSpace(d)
    requires FieldOf(k).Some? && Trimmed(v) && '=' !in v
    ensures ApplyField(net, f, (a + k + b) + "=" + (c + v + d)) == ApplyKnown(f, FieldOf(k).value, v)
  {
    NamesPlain(k);
    PlainTrimmed(k);
    Ends(k);
    TrimAround(a, k, b);
    TrimAround(c, v, d);
    AroundHasNo(a, k, b);
    AroundHasNo(c, v, d);
    hide TrimSpace, FieldOf, ApplyKnown, ApplyMatch, ApplyField, Plain, Trimmed, AllSpace;
    PairApplied(net, f, a + k + b, c + v + d);
  }

  lemma NamesWord(k: string)
    requires FieldOf(k).Some?
    ensures k == "actions" || KeyWord(k)
  {
  }

  lemma NamesPlain(k: string)
    requires FieldOf(k).Some?
    ensures Plain(k)
  {
    NamesWord(k);
    hide FieldOf, KeyWord;
    if k != "actions" { KeyWordIsKeyLike(k); }
  }

  lemma Ends(s: string)
    requires Plain(s)
    ensures Trimmed(s)
  {
    hide IsSpace;
    if s != "" { assert PlainChar(s[0]) && PlainChar(s[|s| - 1]); }
  }

  lemma CounterKeys()
    ensures FieldOf("n_packets") == Some(FPackets) && FieldOf("n_bytes") == Some(FBytes)
  {
  }

  // The counters of a dumped flow are read into its statistics.
  lemma CountersSet(net: Net, f: FlowData, a: string, b: string, c: string, n: u64, d: string)
    requires AllSpace(a) && AllSpace(b) && AllSpace(c) && AllSpace(d)
    ensures ApplyField(net, f, (a + "n_packets" + b) + "=" + (c + Digits(n, 10) + d)) == (f.(packets := n), None)
    ensures ApplyField(net, f, (a + "n_bytes" + b) + "=" + (c + Digits(n, 10) + d)) == (f.(bytes := n), None)
  {
    CounterKeys();
    CounterParses(n);
    CounterText(n);
    hide ApplyField, Digits, FieldOf, Trimmed, AllSpace, ParseUintAnyBase;
    SpacedPair(net, f, a, "n_packets", b, c, Digits(n, 10), d);
    SpacedPair(net, f, a, "n_bytes", b, c, Digits(n, 10), d);
  }

  lemma CounterText(n: nat)
    ensures Trimmed(Digits(n, 10)) && '=' !in Digits(n, 10)
  {
    FormatIntText(n);
    PlainTrimmed(FormatInt(n));
    Ends(FormatInt(n));
  }

  // The key of a match is looked up as it stands, so a key that is a match's key but for white
  // space around it is read exactly if there is no such space; otherwise the match is dropped
  // without an error.
  lemma MatchReadExactly(net: Net, f: FlowData, k: Key, key: string, v: string)
    requires !k.KInPort? && TrimSpace(key) == KeyText(k)
    ensures ApplyField(net, f, key + "=" + v) ==
      if key == KeyText(k) && '=' !in v then ApplyMatch(net, f, KeyText(k), TrimSpace(v)) else (f, None)
  {
    KeyIsPlain(k);
    NoSignAround(key);
    if key != KeyText(k) { SpacedKeyUnknown(k, key); }
    hide TrimSpace, FieldOf, KeyOf, KeyText, ApplyField, ParseByKey;
    PairApplied(net, f, key, v);
  }

  lemma KeyIsPlain(k: Key)
    requires !k.KInPort?
    ensures Plain(KeyText(k)) && FieldOf(KeyText(k)) == None && '=' !in KeyText(k)
  {
    KeyFits(k);
    PlainTrimmed(KeyText(k));
  }

  lemma NoSignAround(key: string)
    requires '=' !in TrimSpace(key)
    ensures '=' !in key
  {
    var a, b := BlanksCut(key);
    AroundHasNo(a, TrimSpace(key), b);
  }

  // No key begins or ends with white space.
  lemma SpacedKeyUnknown(k: Key, key: string)
    requires TrimSpace(key) == KeyText(k) && key != KeyText(k)
    ensures KeyOf(key) == None
  {
    hide KeyOf, KeyText, TrimSpace, Plain;
    KeySound(key);
    if KeyOf(key).Some? {
      TextTrimmed(KeyOf(key).value);
    }
  }

  lemma TextTrimmed(k: Key)
    ensures TrimSpace(KeyText(k)) == KeyText(k)
  {
    if k.KInPort? {
      TrimSpaceTrimmed("in_port");
    } else {
      KeyIsPlain(k);
      PlainTrimmed(KeyText(k));
    }
  }
}
