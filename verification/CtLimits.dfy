/**
 The reading of connection tracking limits in GetCTLimits of ovs/datapath.go.  Lines that
 mention default are removed from the backing array while the loop still ranges over the
 original slice.
 */
module CtLimits {
  import opened Wrappers
  import opened Text
  import opened Numerals
  import opened NumeralReading

  predicate IsDefault(line: string) { Contains(line, "default") }

  function ToU64(n: int): u64 { n % 0x1_0000_0000_0000_0000 }

  datatype LimitError = BadLimit(num: NumError) | IndexPanic | SlicePanic

  // The number behind the first equals sign; without one the index is out of range.
  function Limit(line: string): Result<u64, LimitError> {
    var parts := Split(line, "=");
    if |parts| < 2 then Err(IndexPanic)
    else
      match ParseInt(parts[1])
      case Err(e) => Err(BadLimit(e))
      case Ok(v) => Ok(ToU64(v))
  }

  datatype Removal = Removed(entries: seq<string>, limit: Option<u64>) | Failed(error: LimitError)

  // The backing array after the element at i is deleted from a slice of len elements: the
  // last element stays behind as well.
  function Shifted(b: seq<string>, i: nat, len: nat): (r: seq<string>)
    requires i < len <= |b|
    ensures |r| == |b|
  {
    b[..i] + b[i + 1..len] + b[len - 1..]
  }

  // The loop from index i, when the backing array is b and the slice has len elements.
  function RangeFrom(b: seq<string>, i: nat, len: nat, limit: Option<u64>): Removal
    requires i <= |b| && len <= |b|
    decreases |b| - i
  {
    if i == |b| then Removed(b[..len], limit)
    else if !IsDefault(b[i]) then RangeFrom(b, i + 1, len, limit)
    else
      match Limit(b[i])
      case Err(e) => Failed(e)
      case Ok(n) =>
        if i + 1 > len then Failed(SlicePanic)
        else RangeFrom(Shifted(b, i, len), i + 1, len - 1, Some(n))
  }

  method RemoveDefaults(a: array<string>) returns (r: Removal)
    modifies a
    ensures r == RangeFrom(old(a[..]), 0, a.Length, None)
  {
    hide IsDefault, Limit;
    var len: nat, limit := a.Length, None;
    ghost var was := a[..];
    for i := 0 to a.Length
      invariant len <= a.Length
      invariant RangeFrom(a[..], i, len, limit) == RangeFrom(was, 0, a.Length, None)
    {
      var entry := a[i];
      if IsDefault(entry) {
        var n := Limit(entry);
        if n.Err? {
          return Failed(n.error);
        }
        limit := Some(n.value);
        if i + 1 > len {
          return Failed(SlicePanic);
        }
        Delete(a, i, len);
        len := len - 1;
      }
    }
    r := Removed(a[..len], limit);
  }

  // append(entries[:i], entries[i+1:]...) in place.
  method Delete(a: array<string>, i: nat, len: nat)
    requires i < len <= a.Length
    modifies a
    ensures a[..] == Shifted(old(a[..]), i, len)
  {
    for k := i to len - 1
      invariant forall j :: 0 <= j < i ==> a[j] == old(a[j])
      invariant forall j :: i <= j < k ==> a[j] == old(a[j + 1])
      invariant forall j :: k <= j < a.Length ==> a[j] == old(a[j])
    {
      a[k] := a[k + 1];
    }
  }

  // ---------- When the removal is right ----------

  // The lines that do not mention default, in order.
  function Without(s: seq<string>): (r: seq<string>)
    ensures |r| <= |s| && forall i :: 0 <= i < |r| ==> !IsDefault(r[i])
  {
    if s == [] then []
    else Without(s[..|s| - 1]) + (if IsDefault(s[|s| - 1]) then [] else [s[|s| - 1]])
  }

  // The limit of the last default line, or the one before.
  function LastLimit(s: seq<string>, limit: Option<u64>): Option<u64> {
    if s == [] then limit
    else
      LastLimit(s[1..], match Limit(s[0]) case Ok(n) => if IsDefault(s[0]) then Some(n) else limit case Err(_) => limit)
  }

  // From p on no two default lines touch; and if the last line is one, it is the only one,
  // with none among the d lines deleted before.
  predicate Apart(s: seq<string>, p: nat, d: nat)
    requires s != []
  {
    && (forall j :: p <= j && j + 1 < |s| ==> !(IsDefault(s[j]) && IsDefault(s[j + 1])))
    && (IsDefault(s[|s| - 1]) ==> d == 0 && forall j :: p <= j < |s| - 1 ==> !IsDefault(s[j]))
  }

  // Every default line from p on holds a number behind its first equals sign.
  predicate LimitsParse(s: seq<string>, p: nat) {
    forall i :: p <= i < |s| && IsDefault(s[i]) ==> Limit(s[i]).Ok?
  }

  // After d deletions and i steps: what is kept, what is to come, and what stays behind.
  predicate Midway(s: seq<string>, b: seq<string>, i: nat, d: nat) {
    && s != [] && |b| == |s| && i + d <= |s|
    && b[..i] == Without(s[..i + d])
    && b[i..|s| - d] == s[i + d..]
    && forall k :: |s| - d <= k < |s| ==> b[k] == s[|s| - 1]
  }

  // One step of the loop.
  lemma RangeStep(b: seq<string>, i: nat, len: nat, limit: Option<u64>)
    requires i < |b| && len <= |b|
    ensures !IsDefault(b[i]) ==> RangeFrom(b, i, len, limit) == RangeFrom(b, i + 1, len, limit)
    ensures IsDefault(b[i]) && (Limit(b[i]).Err? || i + 1 > len) ==> RangeFrom(b, i, len, limit).Failed?
    ensures IsDefault(b[i]) && Limit(b[i]).Ok? && i + 1 <= len ==>
      RangeFrom(b, i, len, limit) == RangeFrom(Shifted(b, i, len), i + 1, len - 1, Some(Limit(b[i]).value))
  {
    hide IsDefault, Limit;
  }

  lemma BeforeStays(b: seq<string>, i: nat, len: nat)
    requires i < len <= |b|
    ensures forall k :: 0 <= k < i ==> Shifted(b, i, len)[k] == b[k]
  {
  }

  // What the loop has passed is never changed again.
  lemma {:induction false} PassedStays(b: seq<string>, i: nat, len: nat, limit: Option<u64>)
    requires i <= |b| && len <= |b|
    ensures var r := RangeFrom(b, i, len, limit);
      r.Removed? ==> forall k :: 0 <= k < i && k < len ==> k < |r.entries| && r.entries[k] == b[k]
    decreases |b| - i
  {
    if i < |b| {
      hide IsDefault, Limit, RangeFrom, Shifted;
      RangeStep(b, i, len, limit);
      if !IsDefault(b[i]) {
        PassedStays(b, i + 1, len, limit);
      } else if Limit(b[i]).Ok? && i + 1 <= len {
        BeforeStays(b, i, len);
        PassedStays(Shifted(b, i, len), i + 1, len - 1, Some(Limit(b[i]).value));
      }
    }
  }

  lemma MidwayStart(s: seq<string>)
    requires s != []
    ensures Midway(s, s, 0, 0)
  {
    assert s[..0] == [] && s[0..|s|] == s[0..];
  }

  lemma MidwayKeep(s: seq<string>, b: seq<string>, i: nat, d: nat)
    requires Midway(s, b, i, d) && i + d < |s| && !IsDefault(b[i])
    ensures b[i] == s[i + d] && Midway(s, b, i + 1, d)
  {
    hide IsDefault;
    var p := i + d;
    assert b[i] == b[i..|s| - d][0];
    assert b[..i + 1] == b[..i] + [b[i]];
    assert s[..p + 1][..p] == s[..p];
    assert b[i + 1..|s| - d] == b[i..|s| - d][1..];
  }

  // Deleting at i moves the next line to i, and the loop goes on behind it.
  lemma MidwayDelete(s: seq<string>, b: seq<string>, i: nat, d: nat)
    requires Midway(s, b, i, d) && i + d + 1 < |s| && IsDefault(b[i])
    ensures b[i] == s[i + d]
    ensures var c := Shifted(b, i, |s| - d);
      c[i] == s[i + d + 1] && (!IsDefault(s[i + d + 1]) ==> Midway(s, c, i + 1, d + 1))
  {
    hide IsDefault;
    Ahead(s, b, i, d);
    MidwayFacts(s, b, i, d);
    hide *;
    ShiftedAt(b, i, |s| - d, Shifted(b, i, |s| - d));
    assert b[i + 1] == s[i + d + 1];
    if !IsDefault(s[i + d + 1]) { Moved(s, b, i, d); }
  }

  lemma Moved(s: seq<string>, b: seq<string>, i: nat, d: nat)
    requires i + d + 1 < |s| == |b| && IsDefault(s[i + d]) && !IsDefault(s[i + d + 1])
    requires b[..i] == Without(s[..i + d])
    requires forall k :: i <= k < |s| - d ==> b[k] == s[k + d]
    requires forall k :: |s| - d <= k < |s| ==> b[k] == s[|s| - 1]
    ensures Midway(s, Shifted(b, i, |s| - d), i + 1, d + 1)
  {
    hide *;
    var len := |s| - d;
    var c := Shifted(b, i, len);
    ShiftedAt(b, i, len, c);
    assert c[i] == b[i + 1] == s[i + d + 1];
    Kept(s, b, c, i, i + d);
    StillAhead(s, b, c, i, d);
    ToCome(s, c, i + 1, i + d + 2, len - 1);
    MidwayFrom(s, c, i + 1, d + 1);
  }

  lemma StillAhead(s: seq<string>, b: seq<string>, c: seq<string>, i: nat, d: nat)
    requires i + d + 1 < |s| == |b| == |c|
    requires forall k :: i <= k < |s| - d - 1 ==> c[k] == b[k + 1]
    requires forall k :: |s| - d - 1 <= k < |s| ==> c[k] == b[k]
    requires forall k :: i <= k < |s| - d ==> b[k] == s[k + d]
    requires forall k :: |s| - d <= k < |s| ==> b[k] == s[|s| - 1]
    ensures forall k :: i + 1 <= k < |s| - d - 1 ==> c[k] == s[k + d + 1]
    ensures forall k :: |s| - d - 1 <= k < |s| ==> c[k] == s[|s| - 1]
  {
  }

  lemma MidwayFacts(s: seq<string>, b: seq<string>, i: nat, d: nat)
    requires Midway(s, b, i, d)
    ensures |b| == |s| && i + d <= |s| && b[..i] == Without(s[..i + d])
    ensures forall k :: |s| - d <= k < |s| ==> b[k] == s[|s| - 1]
  {
  }

  lemma MidwayFrom(s: seq<string>, b: seq<string>, i: nat, d: nat)
    requires s != [] && |b| == |s| && i + d <= |s| && b[..i] == Without(s[..i + d]) && b[i..|s| - d] == s[i + d..]
    requires forall k :: |s| - d <= k < |s| ==> b[k] == s[|s| - 1]
    ensures Midway(s, b, i, d)
  {
  }

  lemma Kept(s: seq<string>, b: seq<string>, c: seq<string>, i: nat, p: nat)
    requires p + 1 < |s| && IsDefault(s[p]) && !IsDefault(s[p + 1])
    requires i < |b| == |c| && b[..i] == Without(s[..p])
    requires (forall k :: 0 <= k < i ==> c[k] == b[k]) && c[i] == s[p + 1]
    ensures c[..i + 1] == Without(s[..p + 2])
  {
    WithoutTwo(s, p);
    hide Without, IsDefault;
    assert c[..i + 1] == b[..i] + [s[p + 1]];
  }

  lemma Ahead(s: seq<string>, b: seq<string>, i: nat, d: nat)
    requires i + d <= |s| == |b| && b[i..|s| - d] == s[i + d..]
    ensures forall k :: i <= k < |s| - d ==> b[k] == s[k + d]
  {
    forall k | i <= k < |s| - d ensures b[k] == s[k + d] { assert b[i..|s| - d][k - i] == s[i + d..][k - i]; }
  }

  lemma ToCome(s: seq<string>, c: seq<string>, i: nat, p: nat, len: nat)
    requires i <= len <= |c| && p <= |s| && len - i == |s| - p
    requires forall k :: i <= k < len ==> c[k] == s[k + p - i]
    ensures c[i..len] == s[p..]
  {
  }

  lemma ShiftedAt(b: seq<string>, i: nat, len: nat, c: seq<string>)
    requires i < len <= |b| && c == Shifted(b, i, len)
    ensures forall k :: 0 <= k < i ==> c[k] == b[k]
    ensures forall k :: i <= k < len - 1 ==> c[k] == b[k + 1]
    ensures forall k :: len - 1 <= k < |b| ==> c[k] == b[k]
  {
  }

  lemma WithoutTwo(s: seq<string>, p: nat)
    requires p + 1 < |s| && IsDefault(s[p]) && !IsDefault(s[p + 1])
    ensures Without(s[..p + 2]) == Without(s[..p]) + [s[p + 1]]
  {
    hide IsDefault;
    assert s[..p + 2][..p + 1] == s[..p + 1] && s[..p + 1][..p] == s[..p];
    assert Without(s[..p + 1]) == Without(s[..p]) + [];
  }

  // The copies of the last line that stay behind do nothing if it is no default line.
  lemma {:induction false} StaleLines(b: seq<string>, i: nat, len: nat, limit: Option<u64>, last: string)
    requires len <= i <= |b| && !IsDefault(last)
    requires forall k :: i <= k < |b| ==> b[k] == last
    ensures RangeFrom(b, i, len, limit) == Removed(b[..len], limit)
    decreases |b| - i
  {
    hide IsDefault, Limit;
    if i < |b| { StaleLines(b, i + 1, len, limit, last); }
  }

  // A default line at the very end.
  lemma LastLine(s: seq<string>, b: seq<string>, i: nat, d: nat, limit: Option<u64>)
    requires Midway(s, b, i, d) && i + d + 1 == |s| && IsDefault(s[|s| - 1]) && Limit(s[|s| - 1]).Ok?
    ensures b[i] == s[|s| - 1]
    ensures d == 0 ==> RangeFrom(b, i, |s| - d, limit) == Removed(Without(s), Some(Limit(b[i]).value))
    ensures d > 0 ==> RangeFrom(b, i, |s| - d, limit) == Failed(SlicePanic)
  {
    hide IsDefault, Limit;
    var len := |s| - d;
    assert b[i] == b[i..len][0];
    var c := Shifted(b, i, len);
    var n := Some(Limit(b[i]).value);
    assert RangeFrom(b, i, len, limit) == RangeFrom(c, i + 1, len - 1, n);
    if d == 0 {
      assert s[..|s| - 1] == s[..i];
      assert c[..len - 1] == b[..i];
      assert Without(s) == Without(s[..i]) + [];
    } else {
      assert c[i + 1] == b[i + 1] == s[|s| - 1];
    }
  }

  // The loop's result r is what the rest of the lines, from p on, calls for.
  predicate Meets(s: seq<string>, r: Removal, p: nat, d: nat, limit: Option<u64>)
    requires s != [] && p <= |s|
  {
    && (Apart(s, p, d) && LimitsParse(s, p) ==> r == Removed(Without(s), LastLimit(s[p..], limit)))
    && (!(Apart(s, p, d) && LimitsParse(s, p)) ==> !(r.Removed? && r.entries == Without(s)))
  }

  lemma {:induction false} RunExactly(s: seq<string>, b: seq<string>, i: nat, d: nat, limit: Option<u64>)
    requires Midway(s, b, i, d)
    ensures Meets(s, RangeFrom(b, i, |s| - d, limit), i + d, d, limit)
    decreases |s| - i
  {
    hide IsDefault, Limit, RangeFrom, LimitsParse, Meets, Shifted;
    var p, n := i + d, |s|;
    if p == n {
      AtEnd(s, b, i, d, limit);
    } else if !IsDefault(b[i]) {
      MidwayKeep(s, b, i, d);
      RunExactly(s, b, i + 1, d, limit);
      KeepStep(s, b, i, d, limit);
    } else if p + 1 == n {
      LastStep(s, b, i, d, limit);
    } else {
      MidwayDelete(s, b, i, d);
      DeleteStep(s, b, i, d, limit);
      if Limit(b[i]).Ok? && !IsDefault(s[p + 1]) {
        RunExactly(s, Shifted(b, i, n - d), i + 1, d + 1, Some(Limit(b[i]).value));
      }
    }
  }

  lemma LastStep(s: seq<string>, b: seq<string>, i: nat, d: nat, limit: Option<u64>)
    requires Midway(s, b, i, d) && i + d + 1 == |s| && IsDefault(b[i])
    ensures Meets(s, RangeFrom(b, i, |s| - d, limit), i + d, d, limit)
  {
    assert b[i] == b[i..|s| - d][0] == s[|s| - 1];
    if Limit(b[i]).Ok? {
      LastLine(s, b, i, d, limit);
      LastLimitOne(s, limit);
      ApartAtLast(s, d);
      assert LimitsParse(s, |s| - 1);
    } else {
      assert !LimitsParse(s, |s| - 1);
    }
    hide IsDefault, Limit, RangeFrom, LimitsParse, Apart, Without, LastLimit, Midway;
  }

  lemma AtEnd(s: seq<string>, b: seq<string>, i: nat, d: nat, limit: Option<u64>)
    requires Midway(s, b, i, d) && i + d == |s|
    ensures Meets(s, RangeFrom(b, i, |s| - d, limit), i + d, d, limit)
  {
    hide IsDefault, Limit;
    assert s[..|s|] == s && s[|s|..] == [];
    if d == 0 || !IsDefault(s[|s| - 1]) {
      if d > 0 { StaleLines(b, i, i, limit, s[|s| - 1]); }
    } else {
      assert b[i] == s[|s| - 1];
    }
  }

  lemma KeepStep(s: seq<string>, b: seq<string>, i: nat, d: nat, limit: Option<u64>)
    requires i + d < |s| == |b| && !IsDefault(b[i]) && b[i] == s[i + d]
    requires Meets(s, RangeFrom(b, i + 1, |s| - d, limit), i + d + 1, d, limit)
    ensures Meets(s, RangeFrom(b, i, |s| - d, limit), i + d, d, limit)
  {
    hide IsDefault, Limit, Without;
    assert s[i + d..][1..] == s[i + d + 1..];
    assert RangeFrom(b, i, |s| - d, limit) == RangeFrom(b, i + 1, |s| - d, limit);
    assert LastLimit(s[i + d..], limit) == LastLimit(s[i + d + 1..], limit);
    assert LimitsParse(s, i + d) <==> LimitsParse(s, i + d + 1);
    hide RangeFrom, LastLimit, LimitsParse;
  }

  lemma LastLimitOne(s: seq<string>, limit: Option<u64>)
    requires s != [] && IsDefault(s[|s| - 1]) && Limit(s[|s| - 1]).Ok?
    ensures LastLimit(s[|s| - 1..], limit) == Some(Limit(s[|s| - 1]).value)
  {
    hide IsDefault, Limit;
    assert s[|s| - 1..][1..] == [];
  }

  lemma ApartAtLast(s: seq<string>, d: nat)
    requires s != [] && IsDefault(s[|s| - 1])
    ensures Apart(s, |s| - 1, d) <==> d == 0
  {
  }

  lemma DeleteStep(s: seq<string>, b: seq<string>, i: nat, d: nat, limit: Option<u64>)
    requires |s| == |b| && i + d + 1 < |s| && IsDefault(b[i]) && b[i] == s[i + d]
    requires var c := Shifted(b, i, |s| - d);
      c[i] == s[i + d + 1] && (!IsDefault(s[i + d + 1]) ==> Midway(s, c, i + 1, d + 1))
    ensures Limit(b[i]).Err? || IsDefault(s[i + d + 1]) ==>
      Meets(s, RangeFrom(b, i, |s| - d, limit), i + d, d, limit)
    ensures Limit(b[i]).Ok? && !IsDefault(s[i + d + 1]) ==>
      var n := Some(Limit(b[i]).value);
      var next := RangeFrom(Shifted(b, i, |s| - d), i + 1, |s| - d - 1, n);
      Meets(s, next, i + d + 2, d + 1, n) ==> Meets(s, RangeFrom(b, i, |s| - d, limit), i + d, d, limit)
  {
    hide IsDefault, Limit, Midway, Shifted;
    var c, len, p := Shifted(b, i, |s| - d), |s| - d, i + d;
    if Limit(b[i]).Err? {
      assert !LimitsParse(s, p);
    } else {
      var n := Some(Limit(b[i]).value);
      assert RangeFrom(b, i, len, limit) == RangeFrom(c, i + 1, len - 1, n);
      if IsDefault(s[p + 1]) {
        PassedStays(c, i + 1, len - 1, n);
      } else {
        TwoLimits(s, p, limit);
        ApartTwo(s, p, d);
        LimitsTwo(s, p);
      }
    }
    hide RangeFrom, LastLimit, Without, LimitsParse;
  }

  lemma LimitsTwo(s: seq<string>, p: nat)
    requires p + 1 < |s| && Limit(s[p]).Ok? && !IsDefault(s[p + 1])
    ensures LimitsParse(s, p) <==> LimitsParse(s, p + 2)
  {
    hide IsDefault, Limit;
  }

  lemma ApartTwo(s: seq<string>, p: nat, d: nat)
    requires p + 1 < |s| && IsDefault(s[p]) && !IsDefault(s[p + 1])
    ensures Apart(s, p, d) <==> Apart(s, p + 2, d + 1)
  {
    hide IsDefault;
  }

  lemma TwoLimits(s: seq<string>, p: nat, limit: Option<u64>)
    requires p + 1 < |s| && IsDefault(s[p]) && !IsDefault(s[p + 1]) && Limit(s[p]).Ok?
    ensures LastLimit(s[p..], limit) == LastLimit(s[p + 2..], Some(Limit(s[p]).value))
  {
    hide IsDefault, Limit;
    assert s[p..][1..] == s[p + 1..] && s[p + 1..][1..] == s[p + 2..];
  }

  // The removal leaves exactly the other lines in order, without a panic or an error, exactly
  // if no two default lines touch, a default line at the end is the only one, and every
  // default line holds a number.
  lemma RemovalExactly(s: seq<string>)
    requires s != []
    ensures var r := RangeFrom(s, 0, |s|, None);
      && ((r.Removed? && r.entries == Without(s)) <==> Apart(s, 0, 0) && LimitsParse(s, 0))
      && (Apart(s, 0, 0) && LimitsParse(s, 0) ==> r.limit == LastLimit(s, None))
  {
    hide RangeFrom, Apart, LimitsParse, Without, LastLimit, Midway;
    MidwayStart(s);
    RunExactly(s, s, 0, 0, None);
    assert s[0..] == s;
  }

  // Two default lines that touch: the second one is left for the zone loop.
  lemma TouchingDefaults(a: string, b: string, c: string)
    requires IsDefault(a) && IsDefault(b) && !IsDefault(c) && Limit(a).Ok?
    ensures RangeFrom([a, b, c], 0, 3, None) == Removed([b, c], Some(Limit(a).value))
  {
    hide IsDefault, Limit;
    var was, now := [a, b, c], [b, c, c];
    assert Shifted(was, 0, 3) == now;
    assert RangeFrom(was, 0, 3, None) == RangeFrom(now, 1, 2, Some(Limit(a).value));
    assert RangeFrom(now, 1, 2, Some(Limit(a).value)) == RangeFrom(now, 2, 2, Some(Limit(a).value));
    assert RangeFrom(now, 2, 2, Some(Limit(a).value)) == RangeFrom(now, 3, 2, Some(Limit(a).value));
    assert now[..2] == [b, c];
  }

  lemma {:induction false} WithoutNone(s: seq<string>)
    requires forall i :: 0 <= i < |s| ==> !IsDefault(s[i])
    ensures Without(s) == s
  {
    if s != [] {
      hide IsDefault;
      WithoutNone(s[..|s| - 1]);
      assert s == s[..|s| - 1] + [s[|s| - 1]];
    }
  }

  lemma {:induction false} WithoutAppend(a: seq<string>, b: seq<string>)
    ensures Without(a + b) == Without(a) + Without(b)
    decreases |b|
  {
    hide IsDefault;
    if b == [] {
      assert a + b == a && Without(a) + [] == Without(a);
    } else {
      var n := |b| - 1;
      assert (a + b)[..|a + b| - 1] == a + b[..n];
      WithoutAppend(a, b[..n]);
    }
  }

  lemma {:induction false} LimitBefore(s: seq<string>, p: nat, limit: Option<u64>)
    requires p < |s| && IsDefault(s[p]) && Limit(s[p]).Ok?
    requires forall i :: 0 <= i < |s| && i != p ==> !IsDefault(s[i])
    ensures LastLimit(s, limit) == Some(Limit(s[p]).value)
    decreases p
  {
    hide IsDefault, Limit;
    if p > 0 {
      LimitBefore(s[1..], p - 1, limit);
    } else {
      NoLimit(s[1..], Some(Limit(s[0]).value));
    }
  }

  lemma {:induction false} NoLimit(s: seq<string>, limit: Option<u64>)
    requires forall i :: 0 <= i < |s| ==> !IsDefault(s[i])
    ensures LastLimit(s, limit) == limit
  {
    hide IsDefault, Limit;
    if s != [] { NoLimit(s[1..], limit); }
  }

  // With one default line, at any index, the other lines remain in order and its limit is
  // found.
  lemma SingleDefault(s: seq<string>, p: nat)
    requires p < |s| && IsDefault(s[p]) && Limit(s[p]).Ok?
    requires forall i :: 0 <= i < |s| && i != p ==> !IsDefault(s[i])
    ensures RangeFrom(s, 0, |s|, None) == Removed(s[..p] + s[p + 1..], Some(Limit(s[p]).value))
  {
    RemovalExactly(s);
    hide IsDefault, Limit, RangeFrom;
    LimitBefore(s, p, None);
    WithoutOne(s, p);
    hide Without, LastLimit;
  }

  lemma WithoutOne(s: seq<string>, p: nat)
    requires p < |s| && IsDefault(s[p])
    requires forall i :: 0 <= i < |s| && i != p ==> !IsDefault(s[i])
    ensures Without(s) == s[..p] + s[p + 1..]
  {
    hide IsDefault;
    hide *;
    var a, b := s[..p], s[p + 1..];
    forall i | 0 <= i < |a| ensures !IsDefault(a[i]) { assert a[i] == s[i]; }
    forall i | 0 <= i < |b| ensures !IsDefault(b[i]) { assert b[i] == s[p + 1 + i]; }
    WithoutNone(a);
    WithoutNone(b);
    WithoutLast(a, s[p]);
    WithoutAppend(a + [s[p]], b);
    Pieces(s, p);
  }

  lemma WithoutLast(a: seq<string>, x: string)
    requires IsDefault(x)
    ensures Without(a + [x]) == Without(a)
  {
    hide IsDefault;
    assert (a + [x])[..|a|] == a;
    assert Without(a) + [] == Without(a);
  }

  // ---------- Zones ----------

  type Zone = map<string, u64>

  function FieldKey(field: string): string { Split(field, "=")[0] }

  // A value that is no number counts with what Atoi returns beside its error.
  function FieldValue(field: string): u64
    requires |Split(field, "=")| > 1
  {
    ToU64(AtoiValue(Split(field, "=")[1]))
  }

  // The fields entered into z in order; None is the panic of a field without an equals sign.
  function Record(fields: seq<string>, z: Zone): Option<Zone>
    decreases |fields|
  {
    if fields == [] then Some(z)
    else if |Split(fields[0], "=")| < 2 then None
    else Record(fields[1..], z[FieldKey(fields[0]) := FieldValue(fields[0])])
  }

  function Zones(entries: seq<string>): Option<seq<Zone>> {
    if entries == [] then Some([])
    else
      match Record(Split(entries[0], ","), map[])
      case None => None
      case Some(z) =>
        match Zones(entries[1..])
        case None => None
        case Some(zs) => Some([z] + zs)
  }

  method ZoneRecord(entry: string) returns (r: Option<Zone>)
    ensures r == Record(Split(entry, ","), map[])
  {
    hide Split;
    var fields := Split(entry, ",");
    var z: Zone := map[];
    assert fields[0..] == fields;
    for i := 0 to |fields|
      invariant Record(fields[i..], z) == Record(fields, map[])
    {
      assert fields[i..][1..] == fields[i + 1..];
      var buf := Split(fields[i], "=");
      if |buf| < 2 {
        return None;
      }
      z := z[buf[0] := ToU64(AtoiValue(buf[1]))];
    }
    r := Some(z);
  }

  method ZoneRecords(entries: seq<string>) returns (r: Option<seq<Zone>>)
    ensures r == Zones(entries)
  {
    hide Record, Split;
    var zones: seq<Zone> := [];
    assert entries[0..] == entries;
    ghost var all := Zones(entries);
    assert all.Some? ==> [] + all.value == all.value;
    for i := 0 to |entries|
      invariant Zones(entries[i..]).Some? <==> all.Some?
      invariant all.Some? ==> all.value == zones + Zones(entries[i..]).value
    {
      assert entries[i..][1..] == entries[i + 1..];
      var z := ZoneRecord(entries[i]);
      if z.None? {
        return None;
      }
      assert Zones(entries[i + 1..]).Some? ==>
        zones + ([z.value] + Zones(entries[i + 1..]).value) == zones + [z.value] + Zones(entries[i + 1..]).value;
      zones := zones + [z.value];
    }
    assert entries[|entries|..] == [] && zones + [] == zones;
    r := Some(zones);
  }

  predicate FieldsFit(entry: string) {
    forall i :: 0 <= i < |Split(entry, ",")| ==> '=' in Split(entry, ",")[i]
  }

  lemma TwoParts(field: string)
    ensures |Split(field, "=")| < 2 <==> '=' !in field
  {
    ContainsChar(field, '=');
  }

  lemma {:induction false} RecordFits(fields: seq<string>, z: Zone)
    ensures Record(fields, z).Some? <==> forall i :: 0 <= i < |fields| ==> '=' in fields[i]
    decreases |fields|
  {
    hide Split;
    if fields != [] {
      TwoParts(fields[0]);
      if '=' in fields[0] {
        RecordFits(fields[1..], z[FieldKey(fields[0]) := FieldValue(fields[0])]);
        assert forall i :: 0 < i < |fields| ==> fields[i] == fields[1..][i - 1];
      }
    }
  }

  // There is one record for each line, in order, and no panic, exactly if every field of
  // every line has an equals sign; an empty line has none.
  lemma {:induction false} ZonesExactly(entries: seq<string>)
    ensures Zones(entries).Some? <==> forall i :: 0 <= i < |entries| ==> FieldsFit(entries[i])
    ensures Zones(entries).Some? ==>
      && |Zones(entries).value| == |entries|
      && forall i :: 0 <= i < |entries| ==> Record(Split(entries[i], ","), map[]) == Some(Zones(entries).value[i])
    ensures !FieldsFit("")
  {
    SplitNone("", ',');
    hide Split, Record;
    assert !FieldsFit("") by { assert Split("", ",")[0] == ""; }
    if entries != [] {
      RecordFits(Split(entries[0], ","), map[]);
      assert Record(Split(entries[0], ","), map[]).Some? <==> FieldsFit(entries[0]);
      hide FieldsFit;
      ZonesExactly(entries[1..]);
      assert forall i :: 0 < i < |entries| ==> entries[i] == entries[1..][i - 1];
    }
  }

  // default counts wherever it stands in a line.
  lemma DefaultAnywhere(front: string, rest: string)
    ensures IsDefault(front + "default" + rest)
  {
    var line := front + "default" + rest;
    PrefixHere("default", rest);
    assert line == front + ("default" + rest);
    assert line[|front|..] == "default" + rest;
    assert OccursAt(line, "default", |front|);
    ContainsIff(line, "default");
    hide Contains;
  }

  // The limit of a default line, and the value of a field, stand between the first equals sign and
  // the second.
  lemma SecondPart(key: string, value: string, rest: string)
    requires '=' !in key && '=' !in value
    ensures Limit(key + "=" + (value + "=" + rest)) == Limit(key + "=" + value)
    ensures var field := key + "=" + (value + "=" + rest);
      |Split(field, "=")| > 1 && FieldKey(field) == key && FieldValue(field) == ToU64(AtoiValue(value))
  {
    SplitFirst(key, '=', value + "=" + rest);
    SplitFirst(value, '=', rest);
    SplitFirst(key, '=', value);
    SplitNone(value, '=');
    hide Split, ParseInt;
  }

  // Of several default lines the last one's limit counts.
  lemma {:induction false} LimitOfLast(a: seq<string>, line: string, b: seq<string>, limit: Option<u64>)
    requires IsDefault(line) && Limit(line).Ok? && forall i :: 0 <= i < |b| ==> !IsDefault(b[i])
    ensures LastLimit(a + [line] + b, limit) == Some(Limit(line).value)
    decreases |a|
  {
    hide IsDefault, Limit;
    var s := a + [line] + b;
    if a == [] {
      assert s[0] == line && s[1..] == b;
      NoLimit(b, Some(Limit(line).value));
    } else {
      assert s[0] == a[0] && s[1..] == a[1..] + [line] + b;
      LimitOfLast(a[1..], line, b, match Limit(a[0])
                                   case Ok(n) => if IsDefault(a[0]) then Some(n) else limit
                                   case Err(_) => limit);
    }
  }

  // The value of a field in a record: a number beyond 64 bits counts as the bound it lies beyond,
  // a negative one wraps around, and anything but a number counts as 0.
  lemma FieldValueExactly(key: string, n: int)
    requires '=' !in key
    ensures var field := key + "=" + FormatInt(n);
      |Split(field, "=")| > 1 && FieldKey(field) == key
        && FieldValue(field) == if n > MAX_INT then 0x7fff_ffff_ffff_ffff
                                else if n < MIN_INT then 0x8000_0000_0000_0000
                                else n % 0x1_0000_0000_0000_0000
  {
    AnyIntReads(n);
    IntHasNoEquals(n);
    hide FormatInt, ParseInt, Split;
    SplitFirst(key, '=', FormatInt(n));
    SplitNone(FormatInt(n), '=');
  }

  lemma NoNumberCountsZero(key: string, value: string)
    requires '=' !in key && '=' !in value && ParseInt(value) == Err(Syntax)
    ensures |Split(key + "=" + value, "=")| > 1 && FieldValue(key + "=" + value) == 0
  {
    hide ParseInt, Split;
    SplitFirst(key, '=', value);
    SplitNone(value, '=');
  }

  lemma IntHasNoEquals(n: int)
    ensures '=' !in FormatInt(n)
  {
    var m: nat := if n < 0 then 0 - n else n;
    DigitsAreDigits(m, 10);
    hide Digits;
  }

  // ---------- The answer as a whole ----------

  // The answer is read as it stands: the limit is the last default one, and there is one
  // record for each other line, in order.
  predicate ReadWhole(lines: seq<string>, removal: Removal, zones: Option<seq<Zone>>) {
    && removal == Removed(Without(lines), LastLimit(lines, None))
    && zones.Some? && |zones.value| == |Without(lines)|
    && forall i :: 0 <= i < |zones.value| ==> Record(Split(Without(lines)[i], ","), map[]) == Some(zones.value[i])
  }

  // No two default lines touch, a default line at the end is the only one, every default line
  // holds a number, and every field of every other line has an equals sign.
  predicate AnswerFits(lines: seq<string>)
    requires lines != []
  {
    && Apart(lines, 0, 0) && LimitsParse(lines, 0)
    && forall i :: 0 <= i < |Without(lines)| ==> FieldsFit(Without(lines)[i])
  }

  lemma AnswerExactly(lines: seq<string>)
    requires lines != []
    ensures var removal := RangeFrom(lines, 0, |lines|, None);
      ReadWhole(lines, removal, if removal.Removed? then Zones(removal.entries) else None) <==> AnswerFits(lines)
  {
    RemovalExactly(lines);
    ZonesExactly(Without(lines));
    hide RangeFrom, Apart, LimitsParse, Without, LastLimit, Record, Split, FieldsFit, Zones;
  }

  // The answer of ovs-dpctl, read line by line.
  method ReadLimits(results: string) returns (removal: Removal, zones: Option<seq<Zone>>)
    ensures var lines := Split(results, "\n"); removal == RangeFrom(lines, 0, |lines|, None)
    ensures zones == if removal.Removed? then Zones(removal.entries) else None
    ensures ReadWhole(Split(results, "\n"), removal, zones) <==> AnswerFits(Split(results, "\n"))
  {
    hide RangeFrom, Zones, Split, ReadWhole, AnswerFits;
    var lines := Split(results, "\n");
    var a := new string[|lines|](i requires 0 <= i < |lines| => lines[i]);
    assert a[..] == lines;
    removal := RemoveDefaults(a);
    zones := None;
    if removal.Removed? {
      zones := ZoneRecords(removal.entries);
    }
    AnswerExactly(lines);
  }

  // An answer without text: exec cuts white space off, and the one empty line that remains
  // makes the zone loop panic.
  lemma EmptyAnswerPanics(output: string)
    requires forall i :: 0 <= i < |output| ==> IsSpace(output[i])
    ensures Split(TrimSpace(output), "\n") == [""]
    ensures RangeFrom([""], 0, 1, None) == Removed([""], None)
    ensures Zones([""]) == None
  {
    BlankTrims(output);
    SplitNone("", '\n');
    SplitNone("", ',');
    SplitNone("", '=');
    assert !IsDefault("");
    hide Split, IsDefault;
    assert RangeFrom([""], 0, 1, None) == RangeFrom([""], 1, 1, None);
    assert [""][..1] == [""];
  }

  lemma {:induction false} BlankTrims(s: string)
    requires forall i :: 0 <= i < |s| ==> IsSpace(s[i])
    ensures TrimSpace(s) == ""
  {
    if s != "" {
      hide IsSpace;
      BlankTrims(s[1..]);
    }
  }

  // An answer that exec returns has no white space at its ends, but a line inside it can be
  // blank; then the zone loop panics as well.
  lemma BlankLinePanics(lines: seq<string>, line: string)
    requires line in Without(lines) && forall i :: 0 <= i < |line| ==> IsSpace(line[i])
    ensures Zones(Without(lines)) == None
  {
    hide Without, Zones, Record, Split;
    assert ',' !in line && '=' !in line;
    SplitNone(line, ',');
    assert [line][0] == line;
    assert !FieldsFit(line);
    ZonesExactly(Without(lines));
  }

  // Two default lines that touch: the second limit comes out as the record of a zone.
  lemma TouchingDefaultsAnswer(m: nat, n: nat, z: nat)
    requires m <= MAX_INT && n <= MAX_INT && z <= MAX_INT
    ensures var first, second, zone := NumberLine("default", m), NumberLine("default", n), NumberLine("zone", z);
      && RangeFrom([first, second, zone], 0, 3, None) == Removed([second, zone], Some(m))
      && Zones([second, zone]) == Some([map["default" := n], map["zone" := z]])
  {
    var first, second, zone := NumberLine("default", m), NumberLine("default", n), NumberLine("zone", z);
    NumberLineParts("default", m);
    NumberLineParts("default", n);
    NumberLineParts("zone", z);
    DefaultLines(m);
    DefaultLines(n);
    DefaultLines(z);
    hide *;
    TouchingDefaults(first, second, zone);
    TwoZones(second, zone, map["default" := n], map["zone" := z]);
  }

  lemma TwoZones(a: string, b: string, y: Zone, z: Zone)
    requires Record(Split(a, ","), map[]) == Some(y) && Record(Split(b, ","), map[]) == Some(z)
    ensures Zones([a, b]) == Some([y, z])
  {
    hide Record, Split;
    assert [a, b][1..] == [b] && [b][1..] == [];
    assert Zones([b][1..]) == Some([]);
    assert Zones([b]) == Some([z] + []) && [z] + [] == [z];
    assert Zones([a, b][1..]) == Some([z]);
    assert [y] + [z] == [y, z];
  }

  lemma OneField(field: string, key: string, number: string, n: u64)
    requires Split(field, "=") == [key, number] && ParseInt(number) == Ok(n)
    ensures Record([field], map[]) == Some(map[key := n]) && Limit(field) == Ok(n)
  {
    hide ParseInt, Split;
    assert Record([field], map[]) == Record([field][1..], map[FieldKey(field) := FieldValue(field)]);
  }

  function NumberLine(key: string, n: nat): string { key + "=" + FormatInt(n) }

  lemma NumberLineParts(key: string, n: nat)
    requires '=' !in key && ',' !in key && n <= MAX_INT
    ensures Limit(NumberLine(key, n)) == Ok(n)
    ensures Record(Split(NumberLine(key, n), ","), map[]) == Some(map[key := n])
  {
    var line := NumberLine(key, n);
    NumberText(n);
    ParseFormatInt(n);
    hide ParseInt, FormatInt;
    SplitFirst(key, '=', FormatInt(n));
    SplitNone(FormatInt(n), '=');
    SplitNone(line, ',');
    hide Split, Record, Limit;
    OneField(line, key, FormatInt(n), n);
  }

  lemma NumberText(n: nat)
    ensures '=' !in FormatInt(n) && ',' !in FormatInt(n) && 'd' !in FormatInt(n)
  {
    DigitsAreDigits(n, 10);
    assert FormatInt(n) == Digits(n, 10);
  }

  lemma DefaultLines(n: nat)
    ensures IsDefault(NumberLine("default", n)) && !IsDefault(NumberLine("zone", n))
  {
    var line, zone := NumberLine("default", n), NumberLine("zone", n);
    NumberText(n);
    hide FormatInt;
    assert line == "default" + ("=" + FormatInt(n));
    assert HasPrefix(line, "default");
    assert 'd' !in zone;
    ContainsIff(zone, "default");
    hide Contains;
    assert forall i :: OccursAt(zone, "default", i) ==> zone[i..][..7][0] == 'd';
  }

  // The last field with the key k, or -1.
  function LastField(fields: seq<string>, k: string): (i: int)
    ensures -1 <= i < |fields| && (i >= 0 ==> FieldKey(fields[i]) == k)
    ensures forall j :: i < j < |fields| ==> FieldKey(fields[j]) != k
  {
    if fields == [] then -1
    else if FieldKey(fields[|fields| - 1]) == k then |fields| - 1
    else LastField(fields[..|fields| - 1], k)
  }

  // A record holds a key exactly if a field names it, with the value of the last such field.
  lemma {:induction false} RecordMeans(fields: seq<string>, z: Zone, k: string)
    requires Record(fields, z).Some?
    ensures var r, i := Record(fields, z).value, LastField(fields, k);
      && (k in r <==> k in z || i >= 0)
      && (i >= 0 ==> |Split(fields[i], "=")| > 1 && r[k] == FieldValue(fields[i]))
      && (i < 0 && k in z ==> r[k] == z[k])
    decreases |fields|
  {
    if fields != [] {
      hide Split, LastField;
      var z1 := z[FieldKey(fields[0]) := FieldValue(fields[0])];
      RecordMeans(fields[1..], z1, k);
      LastFieldStep(fields, k);
    }
  }

  lemma LastFieldStep(fields: seq<string>, k: string)
    requires fields != []
    ensures var j := LastField(fields[1..], k);
      LastField(fields, k) == if j >= 0 then j + 1 else if FieldKey(fields[0]) == k then 0 else -1
  {
    hide FieldKey, LastField;
    var i, j := LastField(fields, k), LastField(fields[1..], k);
    assert forall m :: 0 < m < |fields| ==> fields[m] == fields[1..][m - 1];
    assert i > 0 ==> FieldKey(fields[1..][i - 1]) == k;
    assert j >= 0 ==> FieldKey(fields[j + 1]) == k;
    assert forall m :: j < m < |fields| - 1 ==> FieldKey(fields[1..][m]) != k;
    assert forall m :: j + 1 < m < |fields| ==> FieldKey(fields[m]) == FieldKey(fields[1..][m - 1]) != k;
  }
}
