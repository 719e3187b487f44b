/**
 What the list of BitwiseMatch means.  It accepts every port of the range exactly once and
 no other port, and its blocks are the maximal prefix blocks inside the range, so no shorter
 family of prefix masks covers the same ports.
 */
module PortCover {
  import opened Bits
  import opened PortRanges

  // How many entries accept port p.
  function Hits(c: seq<BitRange>, p: uint16): nat {
    if c == [] then 0
    else Hits(c[..|c| - 1], p) + (if c[|c| - 1].Accepts(p) then 1 else 0)
  }

  // A pair whose mask is a run of ones followed by k zeros; k == 16 is mask 0.
  predicate HasPrefixMask(b: BitRange, k: nat) {
    k <= 16 && b.mask == U16(PORTS - Shl(1, k))
  }

  ghost predicate PrefixFamily(family: seq<BitRange>) {
    forall b :: b in family ==> exists k :: HasPrefixMask(b, k)
  }

  ghost predicate CoversExactly(family: seq<BitRange>, r: PortRange) {
    forall p: uint16 :: r.Contains(p) <==> exists j :: 0 <= j < |family| && family[j].Accepts(p)
  }

  // ---------- Exact cover ----------

  // A prefix pair accepts the ports that agree with its value above bit k.
  lemma PrefixAccepts(b: BitRange, k: nat, p: uint16)
    requires HasPrefixMask(b, k) && k <= 15
    ensures b.Accepts(p) <==> RoundDown(p, k) == b.value
  {
    hide And, Shl, Shr;
    PortCount();
    AndHighBits(p, 16, k);
    XorLowBits(16, k);
    assert b.mask == Shl(1, 16) - Shl(1, k);
  }

  lemma BlockAccepts(h: nat, k: nat, p: uint16)
    requires k <= 15 && Shl(h, k) < PORTS
    ensures Block(Shl(h, k), k).Accepts(p) <==> Shl(h, k) <= p < Shl(h, k) + Shl(1, k)
  {
    hide Shl, Shr, And, U16;
    var b := Block(Shl(h, k), k);
    PrefixAccepts(b, k, p);
    ShrIsBlock(p, h, k);
    ShlAdd(h, 1, k);
    ShrShl(h, k);
    ShrShl(Shr(p, k), k);
  }

  // Every port of a valid range is accepted by exactly one entry, every other port by none.
  lemma {:induction false} ExactCover(start: nat, end: nat, p: uint16)
    requires 0 < start <= end + 1 <= PORTS
    ensures Hits(Cover(start, end), p) == if start <= p <= end then 1 else 0
    decreases end
  {
    hide *;
    if start <= end {
      ExactStep(start, end, p);
      ExactCover(start, end - Shl(1, BlockBits(start, end)), p);
    } else {
      NothingCovered(start, end, p);
    }
  }

  lemma NothingCovered(start: nat, end: nat, p: uint16)
    requires end < start && end < PORTS
    ensures Hits(Cover(start, end), p) == 0
  {
    hide And;
  }

  // The last block takes its own ports, the rest of the list the ports before it.
  lemma ExactStep(start: nat, end: nat, p: uint16)
    requires 0 < start <= end < PORTS
    ensures var first := end + 1 - Shl(1, BlockBits(start, end));
      && start <= first <= end
      && Hits(Cover(start, end), p) == Hits(Cover(start, first - 1), p) + (if first <= p <= end then 1 else 0)
  {
    hide *;
    var k, h, first := CoverStep(start, end);
    BlockAccepts(h, k, p);
    HitsSnoc(Cover(start, first - 1), Block(first, k), p);
  }

  lemma HitsSnoc(c: seq<BitRange>, b: BitRange, p: uint16)
    ensures Hits(c + [b], p) == Hits(c, p) + if b.Accepts(p) then 1 else 0
  {
    assert (c + [b])[..|c|] == c;
  }

  // ---------- Minimality ----------

  // Prefix blocks that share a port are nested.
  lemma Nested(p: nat, q: nat, k: nat, j: nat)
    requires k <= j && RoundDown(p, k) == RoundDown(q, k)
    ensures RoundDown(p, j) == RoundDown(q, j)
  {
    hide Shl, Shr;
    ShrShl(Shr(p, k), k);
    ShrShl(Shr(q, k), k);
    ShrCompose(p, k, j - k);
    ShrCompose(q, k, j - k);
  }

  // Every port the pair accepts lies in the range.
  ghost predicate Inside(b: BitRange, start: nat, end: nat) {
    forall q: uint16 :: b.Accepts(q) ==> start <= q <= end
  }

  lemma InsideMeans(b: BitRange, start: nat, end: nat)
    ensures Inside(b, start, end) <==> forall q: uint16 :: b.Accepts(q) ==> start <= q <= end
  {
  }

  // The blocks of the list are maximal: a prefix pair whose ports all lie in the range has
  // all of them inside one block.
  lemma {:induction false} MaximalBlocks(start: nat, end: nat, b: BitRange, j: nat, p: uint16) returns (i: nat)
    requires 0 < start <= end < PORTS
    requires HasPrefixMask(b, j) && b.Accepts(p)
    requires Inside(b, start, end)
    ensures i < |Cover(start, end)|
    ensures forall q: uint16 :: b.Accepts(q) ==> Cover(start, end)[i].Accepts(q)
    decreases end
  {
    hide *;
    InsideMeans(b, start, end);
    NotEverything(start, end, b, j);
    PrefixAccepts(b, j, p);
    var k, h, first := CoverStep(start, end);
    if first <= p {
      i := |Cover(start, end)| - 1;
      SmallerThanLast(start, end, b, j, p);
      BlockAccepts(h, k, p);
      forall q: uint16 | b.Accepts(q) ensures Block(first, k).Accepts(q) {
        InsideBlock(b, j, h, k, p, q);
      }
    } else {
      forall q: uint16 | b.Accepts(q) ensures start <= q <= first - 1 {
        if q >= first {
          SmallerThanLast(start, end, b, j, q);
          InsideBlock(b, j, h, k, q, p);
          BlockAccepts(h, k, p);
          BlockAccepts(h, k, q);
          assert false;
        }
      }
      InsideMeans(b, start, first - 1);
      i := MaximalBlocks(start, first - 1, b, j, p);
    }
  }

  // Mask 0 accepts port 0 or nothing, so a pair inside the range has at most 15 zeros.
  lemma NotEverything(start: nat, end: nat, b: BitRange, j: nat)
    requires 0 < start
    requires HasPrefixMask(b, j)
    requires exists p: uint16 :: b.Accepts(p)
    requires Inside(b, start, end)
    ensures j <= 15
  {
    if j == 16 {
      PortCount();
      var p: uint16 :| b.Accepts(p);
      MaskZero(b, p);
    }
  }

  lemma MaskZero(b: BitRange, p: uint16)
    requires b.mask == 0 && b.Accepts(p)
    ensures b.Accepts(0)
  {
    AndZero(p);
  }

  lemma {:induction false} AndZero(p: nat)
    ensures And(p, 0) == 0
  {
    if p > 0 { AndZero(p / 2); }
  }

  // A pair inside the range that reaches into the last block is no larger than it.
  lemma SmallerThanLast(start: nat, end: nat, b: BitRange, j: nat, p: uint16)
    requires 0 < start <= end < PORTS && j <= 15
    requires HasPrefixMask(b, j) && b.Accepts(p)
    requires Inside(b, start, end)
    ensures end + 1 - Shl(1, BlockBits(start, end)) <= p ==> j <= BlockBits(start, end)
  {
    var k := BlockBits(start, end);
    if j > k && end + 1 - Shl(1, k) <= p {
      hide Shl, Shr, BlockBits, BitRange.Accepts, And, HasPrefixMask;
      var k', h, first := CoverStep(start, end);
      PrefixAccepts(b, j, p);
      SameBlock(h, k, p, end);
      Nested(p, end, k, j);
      PrefixAccepts(b, j, end);
      ReachesEnd(start, end, b, j);
      BlockBitsMaximal(start, end, j);
    }
  }

  lemma SameBlock(h: nat, k: nat, p: nat, q: nat)
    requires Shl(h, k) <= p < Shl(h, k) + Shl(1, k)
    requires Shl(h, k) <= q < Shl(h, k) + Shl(1, k)
    ensures RoundDown(p, k) == RoundDown(q, k)
  {
    hide Shl, Shr;
    ShlAdd(h, 1, k);
    ShrIsBlock(p, h, k);
    ShrIsBlock(q, h, k);
  }

  // A nonempty prefix pair accepts its own value and the last port of its block.
  lemma FirstPort(b: BitRange, j: nat, p: uint16) returns (last: uint16)
    requires j <= 15 && HasPrefixMask(b, j) && b.Accepts(p)
    ensures b.Accepts(b.value) && b.Accepts(last) && last == b.value + Shl(1, j) - 1
  {
    hide Shl, Shr, BitRange.Accepts, And, HasPrefixMask;
    PrefixAccepts(b, j, p);
    RoundDownBounds(p, j);
    PrefixAccepts(b, j, b.value);
    PortCount();
    RoundDownBelow(p, 16, j);
    Pow2Strict(0, j);
    last := b.value + Shl(1, j) - 1;
    SameBlock(Shr(p, j), j, b.value, last);
    PrefixAccepts(b, j, last);
  }

  // A prefix pair inside the range that accepts end, ends there.
  lemma ReachesEnd(start: nat, end: nat, b: BitRange, j: nat)
    requires 0 < start <= end < PORTS && j <= 15
    requires HasPrefixMask(b, j) && b.Accepts(end)
    requires Inside(b, start, end)
    ensures Aligned(end + 1, j) && Shl(1, j) <= end - start + 1
  {
    hide Shl, Shr, BitRange.Accepts, And, HasPrefixMask;
    var last := FirstPort(b, j, end);
    PrefixAccepts(b, j, end);
    WindowEnd(end, j);
  }

  // A pair no larger than a block has all its ports inside the block or all outside.
  lemma InsideBlock(b: BitRange, j: nat, h: nat, k: nat, p: uint16, q: uint16)
    requires j <= k <= 15 && Shl(h, k) < PORTS
    requires HasPrefixMask(b, j) && b.Accepts(p) && b.Accepts(q)
    ensures Block(Shl(h, k), k).Accepts(p) <==> Block(Shl(h, k), k).Accepts(q)
  {
    hide *;
    PrefixAccepts(b, j, p);
    PrefixAccepts(b, j, q);
    Nested(p, q, j, k);
    var c := Block(Shl(h, k), k);
    assert HasPrefixMask(c, k) by { BlockHasPrefix(h, k); }
    PrefixAccepts(c, k, p);
    PrefixAccepts(c, k, q);
  }

  lemma BlockHasPrefix(h: nat, k: nat)
    requires k <= 15 && Shl(h, k) < PORTS
    ensures HasPrefixMask(Block(Shl(h, k), k), k)
  {
    hide Shl, U16;
  }

  // ---------- No smaller family ----------

  lemma {:induction false} HitsTwice(c: seq<BitRange>, p: uint16, i: nat, j: nat)
    requires i < j < |c| && c[i].Accepts(p) && c[j].Accepts(p)
    ensures Hits(c, p) >= 2
  {
    var front := c[..|c| - 1];
    if j < |c| - 1 {
      HitsTwice(front, p, i, j);
    } else {
      HitsOnce(front, p, i);
    }
  }

  lemma {:induction false} HitsOnce(c: seq<BitRange>, p: uint16, i: nat)
    requires i < |c| && c[i].Accepts(p)
    ensures Hits(c, p) >= 1
  {
    if i < |c| - 1 { HitsOnce(c[..|c| - 1], p, i); }
  }

  // An entry accepts its own value, which is a port of the range.
  lemma {:induction false} OwnValue(start: nat, end: nat, i: nat)
    requires 0 < start <= end < PORTS && i < |Cover(start, end)|
    ensures var b := Cover(start, end)[i]; start <= b.value <= end && b.Accepts(b.value)
    decreases end
  {
    hide *;
    var k, h, first := CoverStep(start, end);
    BlockAccepts(h, k, first);
    if i < |Cover(start, first - 1)| {
      OwnValue(start, first - 1, i);
    }
  }

  lemma SameEntry(r: PortRange, p: uint16, i: nat, j: nat)
    requires r.Valid() && i < |Cover(r.start, r.end)| && j < |Cover(r.start, r.end)|
    requires Cover(r.start, r.end)[i].Accepts(p) && Cover(r.start, r.end)[j].Accepts(p)
    ensures i == j
  {
    hide Cover, Hits, BitRange.Accepts;
    ExactCover(r.start, r.end, p);
    if i < j {
      HitsTwice(Cover(r.start, r.end), p, i, j);
    } else if j < i {
      HitsTwice(Cover(r.start, r.end), p, j, i);
    }
  }

  // For each of the first n entries, a member of the family that accepts the entry's value.
  lemma {:induction false} Representatives(r: PortRange, family: seq<BitRange>, n: nat) returns (f: seq<nat>)
    requires r.Valid() && CoversExactly(family, r) && n <= |Cover(r.start, r.end)|
    ensures |f| == n
    ensures forall i :: 0 <= i < n ==> f[i] < |family| && family[f[i]].Accepts(Cover(r.start, r.end)[i].value)
  {
    hide Cover, BitRange.Accepts;
    if n == 0 {
      f := [];
    } else {
      f := Representatives(r, family, n - 1);
      OwnValue(r.start, r.end, n - 1);
      var p := Cover(r.start, r.end)[n - 1].value;
      assert r.Contains(p);
      var j :| 0 <= j < |family| && family[j].Accepts(p);
      f := f + [j];
    }
  }

  // One member of the family cannot represent two entries.
  lemma Injective(r: PortRange, family: seq<BitRange>, m: nat, i: nat, j: nat)
    requires r.Valid() && PrefixFamily(family) && CoversExactly(family, r) && m < |family|
    requires i < |Cover(r.start, r.end)| && j < |Cover(r.start, r.end)|
    requires family[m].Accepts(Cover(r.start, r.end)[i].value)
    requires family[m].Accepts(Cover(r.start, r.end)[j].value)
    ensures i == j
  {
    hide Cover, BitRange.Accepts, HasPrefixMask;
    var c, b := Cover(r.start, r.end), family[m];
    assert b in family;
    var k :| HasPrefixMask(b, k);
    forall q: uint16 | b.Accepts(q) ensures r.start <= q <= r.end {
      assert r.Contains(q);
    }
    var e := MaximalBlocks(r.start, r.end, b, k, c[i].value);
    OwnValue(r.start, r.end, i);
    OwnValue(r.start, r.end, j);
    SameEntry(r, c[i].value, e, i);
    SameEntry(r, c[j].value, e, j);
  }

  lemma {:induction false} Pigeonhole(f: seq<nat>, m: nat)
    requires forall i :: 0 <= i < |f| ==> f[i] < m
    requires forall i, j :: 0 <= i < j < |f| ==> f[i] != f[j]
    ensures |f| <= m
  {
    CountImage(f, |f|);
    BoundedSet(set i | 0 <= i < |f| :: f[i], m);
  }

  lemma {:induction false} BoundedSet(s: set<nat>, m: nat)
    requires forall x :: x in s ==> x < m
    ensures |s| <= m
  {
    if m == 0 {
      assert s == {};
    } else {
      BoundedSet(s - {m - 1}, m - 1);
    }
  }

  lemma {:induction false} CountImage(f: seq<nat>, n: nat)
    requires n <= |f|
    requires forall i, j :: 0 <= i < j < |f| ==> f[i] != f[j]
    ensures |set i | 0 <= i < n :: f[i]| == n
  {
    if n > 0 {
      CountImage(f, n - 1);
      assert (set i | 0 <= i < n :: f[i]) == (set i | 0 <= i < n - 1 :: f[i]) + {f[n - 1]};
    }
  }

  // No family of prefix masks that accepts exactly the range has fewer members than the
  // list BitwiseMatch returns.  The members may overlap.
  lemma Minimal(r: PortRange, family: seq<BitRange>)
    requires r.Valid() && PrefixFamily(family) && CoversExactly(family, r)
    ensures |Cover(r.start, r.end)| <= |family|
  {
    hide Cover, BitRange.Accepts, PrefixFamily, CoversExactly;
    var f := Representatives(r, family, |Cover(r.start, r.end)|);
    forall i, j | 0 <= i < j < |f| ensures f[i] != f[j] {
      if f[i] == f[j] { Injective(r, family, f[i], i, j); }
    }
    Pigeonhole(f, |family|);
  }

  // The list itself is such a family, so the bound is attained.
  lemma CoverIsFamily(r: PortRange)
    requires r.Valid()
    ensures PrefixFamily(Cover(r.start, r.end)) && CoversExactly(Cover(r.start, r.end), r)
  {
    hide Cover, BitRange.Accepts, HasPrefixMask;
    var c := Cover(r.start, r.end);
    forall b | b in c ensures exists k :: HasPrefixMask(b, k) {
      var i :| 0 <= i < |c| && c[i] == b;
      var k := EntryMask(r.start, r.end, i);
    }
    forall p: uint16 ensures r.Contains(p) <==> exists j :: 0 <= j < |c| && c[j].Accepts(p) {
      ExactCover(r.start, r.end, p);
      if r.Contains(p) {
        var j := SomeHit(c, p);
      } else if j :| 0 <= j < |c| && c[j].Accepts(p) {
        HitsOnce(c, p, j);
      }
    }
  }

  lemma {:induction false} SomeHit(c: seq<BitRange>, p: uint16) returns (j: nat)
    requires Hits(c, p) > 0
    ensures j < |c| && c[j].Accepts(p)
  {
    if c[|c| - 1].Accepts(p) {
      j := |c| - 1;
    } else {
      j := SomeHit(c[..|c| - 1], p);
    }
  }

  lemma {:induction false} EntryMask(start: nat, end: nat, i: nat) returns (k: nat)
    requires 0 < start <= end < PORTS && i < |Cover(start, end)|
    ensures k <= 15 && HasPrefixMask(Cover(start, end)[i], k)
    decreases end
  {
    hide *;
    var k', h, first := CoverStep(start, end);
    if i < |Cover(start, first - 1)| {
      k := EntryMask(start, first - 1, i);
    } else {
      k := k';
      BlockHasPrefix(h, k);
    }
  }
}
