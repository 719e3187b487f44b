/** The shape and the length of the list BitwiseMatch returns. */
module PortSize {
  import opened Bits
  import opened PortRanges

  // The number of low mask zeros of each entry.
  function CoverBits(start: nat, end: nat): (s: seq<nat>)
    requires end < PORTS
    decreases end + 1
  {
    if end < start then []
    else
      var k := BlockBits(start, end);
      BlockBitsFit(start, end);
      var first := end + 1 - Shl(1, k);
      (if first == 0 then [] else CoverBits(start, first - 1)) + [k]
  }

  predicate Rising(s: seq<nat>) {
    forall i, j :: 0 <= i < j < |s| ==> s[i] < s[j]
  }

  predicate Falling(s: seq<nat>) {
    forall i, j :: 0 <= i < j < |s| ==> s[i] > s[j]
  }

  // A rise followed by a fall.
  predicate RisesThenFalls(s: seq<nat>, m: nat) {
    m <= |s| && Rising(s[..m]) && Falling(s[m..])
  }

  predicate Below(s: seq<nat>, b: nat) {
    forall i :: 0 <= i < |s| ==> s[i] < b
  }

  predicate AtLeast(s: seq<nat>, b: nat) {
    forall i :: 0 <= i < |s| ==> s[i] >= b
  }

  lemma BitsStep(start: nat, end: nat) returns (k: nat, h: nat, first: nat)
    requires 0 < start <= end < PORTS
    ensures k == BlockBits(start, end) && k <= 15
    ensures first == end + 1 - Shl(1, k) == Shl(h, k)
    ensures start <= first <= end
    ensures CoverBits(start, end) == CoverBits(start, first - 1) + [k]
    ensures first == start ==> CoverBits(start, first - 1) == []
  {
    hide Shl, BlockBits;
    k := BlockBits(start, end);
    h, first := LastBlock(start, end);
  }

  // ---------- Layout: the entries are aligned blocks, side by side ----------

  ghost predicate SideBySide(c: seq<BitRange>, bits: seq<nat>, start: nat, end: nat) {
    && |c| == |bits| > 0
    && c[0].value == start
    && c[|c| - 1].value + Shl(1, bits[|c| - 1]) == end + 1
    && (forall i :: 0 <= i < |c| ==> c[i].mask == PORTS - Shl(1, bits[i]) && Aligned(c[i].value, bits[i]))
    && (forall i :: 0 < i < |c| ==> c[i].value == c[i - 1].value + Shl(1, bits[i - 1]))
  }

  lemma {:induction false} Layout(start: nat, end: nat)
    requires 0 < start <= end < PORTS
    ensures SideBySide(Cover(start, end), CoverBits(start, end), start, end)
    decreases end
  {
    hide Shl, Cover, CoverBits, BlockBits, Aligned, Block;
    var k, h, first := CoverStep(start, end);
    var k', h', first' := BitsStep(start, end);
    AlignedSucc(h, k);
    if first > start {
      Layout(start, first - 1);
    }
  }

  // ---------- Shape ----------

  // When the end lies on a grid coarser than the whole window, only the window limits the
  // next block.
  lemma WindowLimited(start: nat, end: nat, j: nat)
    requires 0 < start <= end < PORTS
    requires Aligned(end + 1, j) && end - start + 1 < Shl(1, j)
    ensures BlockBits(start, end) < j
    ensures end - start + 1 < Shl(1, BlockBits(start, end) + 1)
  {
    hide Shl, Aligned, FitBits, FloorLog2;
    var w := end - start + 1;
    Log2Below(w, j);
    AlignedDown(end + 1, j, FloorLog2(w));
    BlockBitsMaximal(start, end, FloorLog2(w));
  }

  // Then the blocks grow strictly from left to right, all smaller than the grid.
  lemma {:induction false} RisingPart(start: nat, end: nat, j: nat)
    requires 0 < start <= end + 1 <= PORTS
    requires Aligned(end + 1, j) && end + 1 - start < Shl(1, j)
    ensures Rising(CoverBits(start, end))
    ensures Below(CoverBits(start, end), j)
    decreases end
  {
    if start <= end {
      hide Shl, CoverBits, Aligned, BlockBits;
      var k, h, first := BitsStep(start, end);
      WindowLimited(start, end, j);
      AlignedSucc(h, k);
      ShlTwice(k);
      RisingPart(start, first - 1, k);
      RisingSnoc(CoverBits(start, first - 1), k, j);
    }
  }

  lemma RisingSnoc(s: seq<nat>, k: nat, j: nat)
    requires Rising(s) && Below(s, k) && k < j
    ensures Rising(s + [k]) && Below(s + [k], j)
  {
  }

  lemma ShlTwice(k: nat)
    ensures Shl(1, k + 1) == Shl(1, k) + Shl(1, k)
  {
  }

  // Read from right to left, the blocks first grow, each limited by the alignment of its
  // end, and then shrink, each limited by what is left of the window.
  lemma {:induction false} Shape(start: nat, end: nat, j: nat) returns (m: nat)
    requires 0 < start <= end + 1 <= PORTS && Aligned(end + 1, j)
    ensures RisesThenFalls(CoverBits(start, end), m)
    ensures AtLeast(CoverBits(start, end)[m..], j)
    decreases end
  {
    m := 0;
    if start <= end {
      hide Shl, CoverBits, Aligned, BlockBits;
      var k, h, first := BitsStep(start, end);
      if Aligned(end + 1, k + 1) {
        if Shl(1, k + 1) <= end - start + 1 { BlockBitsMaximal(start, end, k + 1); }
        RisingPart(start, end, k + 1);
        m := |CoverBits(start, end)|;
      } else {
        OddEnd(end, h, k, j);
        m := Shape(start, first - 1, k + 1);
        FallingSnoc(CoverBits(start, first - 1), m, k);
      }
    }
  }

  // The block before an end that lies on no coarser grid starts on a coarser grid.
  lemma OddEnd(end: nat, h: nat, k: nat, j: nat)
    requires end + 1 == Shl(h, k) + Shl(1, k)
    requires !Aligned(end + 1, k + 1) && Aligned(end + 1, j)
    ensures Aligned(Shl(h, k), k + 1) && j <= k
  {
    hide Shl, Aligned;
    AlignedSucc(h, k);
    AlignedUp(h, k);
    AlignedUp(h + 1, k);
    if j > k { AlignedDown(end + 1, j, k + 1); }
  }

  lemma FallingSnoc(s: seq<nat>, m: nat, k: nat)
    requires RisesThenFalls(s, m) && AtLeast(s[m..], k + 1)
    ensures RisesThenFalls(s + [k], m) && AtLeast((s + [k])[m..], k)
  {
    assert (s + [k])[..m] == s[..m];
    assert (s + [k])[m..] == s[m..] + [k];
  }

  // ---------- Length ----------

  lemma {:induction false} RisingLength(s: seq<nat>, b: nat)
    requires Rising(s) && Below(s, b)
    ensures |s| <= b
  {
    if |s| > 0 { RisingLength(s[..|s| - 1], s[|s| - 1]); }
  }

  lemma {:induction false} FallingLength(s: seq<nat>, b: nat)
    requires Falling(s) && Below(s, b)
    ensures |s| <= b
  {
    if |s| > 0 { FallingLength(s[1..], s[0]); }
  }

  lemma LargeBlock(h: nat, end: nat)
    requires 0 < end + 1 - Shl(1, 15) == Shl(h, 15)
    ensures end + 1 >= PORTS
  {
    hide Shl;
    PortCount();
    ShlTwice(15);
    ShlStrict(h, 1, 15);
  }

  lemma BelowSnoc(s: seq<nat>, k: nat, b: nat)
    requires Below(s, b) && k < b
    ensures Below(s + [k], b)
  {
  }

  // A block of 2^15 ports above port 0 ends at 65535.
  lemma {:induction false} SmallBlocks(start: nat, end: nat)
    requires 0 < start <= end + 1 < PORTS
    ensures Below(CoverBits(start, end), 15)
    decreases end
  {
    if start <= end {
      hide Shl, CoverBits, BlockBits;
      var k, h, first := BitsStep(start, end);
      SmallBlocks(start, first - 1);
      if k == 15 { LargeBlock(h, end); }
      BelowSnoc(CoverBits(start, first - 1), k, 15);
    }
  }

  lemma {:induction false} SameLength(start: nat, end: nat)
    requires 0 < start <= end + 1 <= PORTS
    ensures |CoverBits(start, end)| == |Cover(start, end)|
    decreases end
  {
    if start <= end {
      hide *;
      var k, h, first := CoverStep(start, end);
      var k', h', first' := BitsStep(start, end);
      SameLength(start, first - 1);
    }
  }

  // No range of 16-bit ports needs more than 30 entries.
  lemma SizeBound(r: PortRange)
    requires r.Valid()
    ensures 1 <= |Cover(r.start, r.end)| <= 30
  {
    hide Shl, CoverBits, Cover, Aligned;
    var bits := CoverBits(r.start, r.end);
    SameLength(r.start, r.end);
    Layout(r.start, r.end);
    if r.end == 0xffff {
      PortCount();
      AlignedSucc(1, 16);
      RisingPart(r.start, r.end, 16);
      RisingLength(bits, 16);
    } else {
      SmallBlocks(r.start, r.end);
      AlignedZero(r.end + 1);
      var m := Shape(r.start, r.end, 0);
      RisingLength(bits[..m], 15);
      FallingLength(bits[m..], 15);
    }
  }

  lemma AlignedZero(p: nat)
    ensures Aligned(p, 0)
  {
  }

  // ---------- The bound is reached ----------

  lemma {:induction false} GrowingRange(n: nat)
    requires n <= 15
    ensures 0 < Shl(1, n) <= PORTS
    ensures |Cover(1, Shl(1, n) - 1)| == n
  {
    hide Shl, Cover, Aligned, BlockBits;
    PortCount();
    Pow2Strict(n, 16);
    if n == 0 {
      OnePort();
    } else {
      ShlTwice(n - 1);
      Pow2Strict(0, n);
      AlignedSucc(1, n);
      WindowLimited(1, Shl(1, n) - 1, n);
      var k, h, first := CoverStep(1, Shl(1, n) - 1);
      Pow2Strict(n - 1, k + 1);
      GrowingRange(n - 1);
    }
  }

  lemma OnePort()
    ensures Shl(1, 0) == 1 && Cover(1, 0) == []
  {
  }

  lemma {:induction false} ShrinkingEnd(j: nat)
    requires j <= 15
    ensures 0 < Shl(1, j) < PORTS
    ensures |Cover(1, PORTS - Shl(1, j) - 1)| == 30 - j
    decreases 15 - j
  {
    hide Shl, Cover, Aligned, BlockBits;
    PortCount();
    Pow2Strict(j, 16);
    ShlTwice(15);
    if j == 15 {
      GrowingRange(15);
    } else {
      ShlTwice(j);
      Pow2Strict(j, 15);
      var end := PORTS - Shl(1, j) - 1;
      EvenlyAligned(j);
      Pow2Strict(0, j + 1);
      BlockBitsMaximal(1, end, j);
      var k, h, first := CoverStep(1, end);
      if k > j {
        BlockBitsFit(1, end);
        AlignedDown(end + 1, k, j + 1);
      }
      ShrinkingEnd(j + 1);
    }
  }

  lemma EvenlyAligned(j: nat)
    requires j <= 15 && Shl(1, j) <= PORTS
    ensures Aligned(PORTS - Shl(1, j), j) && !Aligned(PORTS - Shl(1, j), j + 1)
  {
    hide Shl, Aligned;
    PortCount();
    ShlCompose(1, 16 - j, j);
    ShlTwice(15 - j);
    Pow2Strict(0, 16 - j);
    var g := Shl(1, 16 - j) - 1;
    AlignedSucc(g, j);
    AlignedUp(g, j);
  }

  lemma BoundReached()
    ensures |Cover(1, 65534)| == 30
  {
    hide Cover;
    OnePort();
    ShrinkingEnd(0);
  }
}
