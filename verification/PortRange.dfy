/**
 The port range compiler of ovs/portrange.go.  BitwiseMatch turns an inclusive range of
 16-bit ports into (value, mask) pairs.  Cover describes the list it returns, and the search
 for each block is shown to find the largest one that fits.
 */
module PortRanges {
  import opened Wrappers
  import opened Bits

  const PORTS: nat := 0x1_0000

  type uint16 = n: nat | n < 0x1_0000

  datatype PortRange = PortRange(start: uint16, end: uint16) {
    predicate Valid() { 0 < start <= end }
    predicate Contains(p: uint16) { start <= p <= end }
  }

  datatype BitRange = BitRange(value: uint16, mask: uint16) {
    // The packet test that a masked port match stands for.
    predicate Accepts(p: uint16) { And(p, mask) == value }
  }

  datatype RangeError = InvalidPortRange

  function U16(x: int): uint16 { x % 0x1_0000 }

  // ---------- The two helpers of the source ----------

  function GetMask(bitLength: nat): (m: uint16)
    ensures bitLength <= 15 ==> m == PORTS - Shl(1, bitLength)
  {
    XorBound(bitLength);
    Xor(0xffff, U16(Shl(1, bitLength) - 1))
  }

  function GetRange(end: uint16, bitLength: nat): (r: (uint16, uint16))
    ensures bitLength <= 15 ==> r.0 == RoundDown(end, bitLength)
    ensures bitLength <= 15 ==> r.1 == r.0 + Shl(1, bitLength) - 1
  {
    var rangeLength := U16(Shl(1, bitLength) - 1);
    AndNotBound(end, rangeLength);
    var rangeStart := AndNot(end, rangeLength);
    WindowFits(end, bitLength);
    (rangeStart, U16(rangeStart + rangeLength))
  }

  lemma PortCount()
    ensures Shl(1, 16) == PORTS
  {
    assert Shl(1, 4) == 16;
    assert Shl(1, 8) == 256;
    assert Shl(1, 12) == 4096;
  }

  lemma {:induction false} AndNotBound(a: nat, b: nat)
    ensures AndNot(a, b) <= a
  {
    if a > 0 { AndNotBound(a / 2, b / 2); }
  }

  // Exclusive-or of 16-bit numbers is one, and complements the low ones of a mask.
  lemma XorBound(k: nat)
    ensures Xor(0xffff, U16(Shl(1, k) - 1)) < PORTS
    ensures k <= 16 ==> Xor(0xffff, U16(Shl(1, k) - 1)) == PORTS - Shl(1, k)
  {
    hide Xor, Shl;
    PortCount();
    XorBelow(0xffff, U16(Shl(1, k) - 1), 16);
    if k <= 16 {
      XorLowBits(16, k);
      assert U16(Shl(1, k) - 1) == Shl(1, k) - 1;
    }
  }

  lemma {:induction false} XorBelow(a: nat, b: nat, w: nat)
    requires a < Shl(1, w) && b < Shl(1, w)
    ensures Xor(a, b) < Shl(1, w)
  {
    if w > 0 { XorBelow(a / 2, b / 2, w - 1); }
  }

  // A window of at most 2^15 ports that starts on its own boundary stays below 2^16.
  lemma WindowFits(end: uint16, k: nat)
    ensures k <= 15 ==>
      && U16(Shl(1, k) - 1) == Shl(1, k) - 1
      && AndNot(end, Shl(1, k) - 1) == RoundDown(end, k)
      && RoundDown(end, k) + Shl(1, k) <= PORTS
  {
    if k <= 15 {
      hide Shl, AndNot, RoundDown;
      PortCount();
      XorLowBits(16, k);
      AndNotLowBits(end, k);
      RoundDownBelow(end, 16, k);
      assert U16(Shl(1, k) - 1) == Shl(1, k) - 1;
    }
  }

  // ---------- The list BitwiseMatch returns ----------

  // The largest window, counted down from 2^k, that can end exactly at end.
  function FitBits(end: nat, k: nat): (r: nat)
    ensures r <= k
  {
    if Aligned(end + 1, k) || k == 0 then k else FitBits(end, k - 1)
  }

  function BlockBits(start: nat, end: nat): (r: nat)
    requires start <= end
  {
    FitBits(end, FloorLog2(end - start + 1))
  }

  // The aligned block of 2^k ports starting at value.
  function Block(value: nat, k: nat): BitRange
    requires value < PORTS
  {
    BitRange(value, U16(PORTS - Shl(1, k)))
  }

  // The last block is the largest aligned one that ends at end and does not start before
  // start; the ports before it are covered the same way.
  function Cover(start: nat, end: nat): seq<BitRange>
    requires end < PORTS
    decreases end + 1
  {
    if end < start then []
    else
      var k := BlockBits(start, end);
      BlockBitsFit(start, end);
      var first := end + 1 - Shl(1, k);
      (if first == 0 then [] else Cover(start, first - 1)) + [Block(first, k)]
  }

  lemma {:induction false} FitBitsMaximal(end: nat, k: nat, j: nat)
    ensures Aligned(end + 1, FitBits(end, k))
    ensures j <= k && Aligned(end + 1, j) ==> j <= FitBits(end, k)
  {
    if !Aligned(end + 1, k) && k > 0 { FitBitsMaximal(end, k - 1, j); }
  }

  lemma BlockBitsFit(start: nat, end: nat)
    requires start <= end
    ensures Aligned(end + 1, BlockBits(start, end))
    ensures 0 < Shl(1, BlockBits(start, end)) <= end - start + 1
  {
    hide Shl, Aligned, FitBits, FloorLog2;
    var w := FloorLog2(end - start + 1);
    FitBitsMaximal(end, w, 0);
    Pow2Strict(w, BlockBits(start, end));
  }

  lemma BlockBitsMaximal(start: nat, end: nat, j: nat)
    requires start <= end
    requires Aligned(end + 1, j) && Shl(1, j) <= end - start + 1
    ensures j <= BlockBits(start, end)
  {
    hide Shl, Aligned, FitBits, FloorLog2;
    Log2AtLeast(end - start + 1, j);
    FitBitsMaximal(end, FloorLog2(end - start + 1), j);
  }

  lemma LastBlock(start: nat, end: nat) returns (h: nat, first: nat)
    requires 0 < start <= end < PORTS
    ensures var k := BlockBits(start, end);
      && k <= 15
      && 0 < Shl(1, k) <= PORTS
      && start <= first <= end
      && first == end + 1 - Shl(1, k) == Shl(h, k)
  {
    hide *;
    var k := BlockBits(start, end);
    BlockBitsFit(start, end);
    first := end + 1 - Shl(1, k);
    PortCount();
    Pow2Strict(k, 16);
    h := AlignedPred(end + 1, k);
  }

  // Everything a proof about one step of Cover needs.
  lemma CoverStep(start: nat, end: nat) returns (k: nat, h: nat, first: nat)
    requires 0 < start <= end < PORTS
    ensures k == BlockBits(start, end) && k <= 15
    ensures first == end + 1 - Shl(1, k) == Shl(h, k)
    ensures start <= first <= end
    ensures Shl(1, k) <= PORTS
    ensures Cover(start, end) == Cover(start, first - 1) + [Block(first, k)]
    ensures first == start ==> Cover(start, first - 1) == []
    ensures Block(first, k) == BitRange(first, PORTS - Shl(1, k))
  {
    hide Shl, BlockBits;
    k := BlockBits(start, end);
    h, first := LastBlock(start, end);
  }

  // ---------- The method ----------

  // One attempt of the search for the window: it reaches end, and stops there exactly
  // when the search is over.
  lemma WindowAttempt(end: uint16, bitLength: nat)
    requires bitLength <= 15
    ensures GetRange(end, bitLength).1 >= end
    ensures GetRange(end, bitLength).1 == end ==>
      FitBits(end, bitLength) == bitLength && GetRange(end, bitLength).0 == end + 1 - Shl(1, bitLength)
    ensures GetRange(end, bitLength).1 > end ==>
      bitLength > 0 && FitBits(end, bitLength) == FitBits(end, bitLength - 1)
  {
    WindowEnd(end, bitLength);
  }

  // No wrap-around: start is positive, so the window has at most 65535 ports.
  lemma WindowLog(r: PortRange)
    requires r.Valid()
    ensures U16(U16(r.end - r.start) + 1) == r.end - r.start + 1 > 0
    ensures FloorLog2(r.end - r.start + 1) <= 15
    ensures BlockBits(r.start, r.end) == FitBits(r.end, FloorLog2(r.end - r.start + 1))
  {
    hide Shl, FitBits, FloorLog2;
    PortCount();
    Log2Below(r.end - r.start + 1, 16);
  }

  // The opening of BitwiseMatch: pick the largest power of two not above the window, then
  // shrink it until it ends on a binary boundary.
  method FindWindow(r: PortRange) returns (bitLength: nat, rangeStart: uint16, rangeEnd: uint16)
    requires r.Valid()
    ensures bitLength == BlockBits(r.start, r.end) && bitLength <= 15
    ensures rangeStart == r.end + 1 - Shl(1, bitLength)
    ensures rangeEnd == r.end
  {
    hide *;
    WindowLog(r);
    var window := U16(U16(r.end - r.start) + 1);
    bitLength := FloorLog2(window);

    var range := GetRange(r.end, bitLength);
    rangeStart, rangeEnd := range.0, range.1;
    WindowAttempt(r.end, bitLength);
    while rangeEnd > r.end
      invariant bitLength <= 15
      invariant (rangeStart, rangeEnd) == GetRange(r.end, bitLength)
      invariant FitBits(r.end, bitLength) == BlockBits(r.start, r.end)
      invariant rangeEnd >= r.end
      decreases bitLength
    {
      WindowAttempt(r.end, bitLength);
      assert bitLength > 0;
      bitLength := bitLength - 1;
      range := GetRange(r.end, bitLength);
      rangeStart, rangeEnd := range.0, range.1;
      WindowAttempt(r.end, bitLength);
    }
    WindowAttempt(r.end, bitLength);
  }

  lemma SinglePort(p: uint16)
    requires p > 0
    ensures Cover(p, p) == [BitRange(p, 0xffff)]
  {
    hide Cover, BlockBits, Block;
    var k, h, first := CoverStep(p, p);
    assert Shl(1, 0) == 1;
    Pow2Strict(0, k);
  }

  // How the method puts its list together, from the window it finds.
  lemma Assembled(r: PortRange) returns (bitLength: nat, rangeStart: uint16)
    requires r.Valid()
    ensures bitLength == BlockBits(r.start, r.end) && rangeStart == r.end + 1 - Shl(1, bitLength)
    ensures r.start <= rangeStart <= r.end
    ensures var last := [BitRange(rangeStart, GetMask(bitLength))];
      Cover(r.start, r.end) == if r.start != rangeStart then [] + Cover(r.start, rangeStart - 1) + last else [] + last
  {
    hide Shl, Cover, BlockBits, Block, GetMask;
    var k, h, first := CoverStep(r.start, r.end);
    bitLength, rangeStart := k, first;
    assert [] + Cover(r.start, rangeStart - 1) == Cover(r.start, rangeStart - 1);
  }

  method BitwiseMatch(r: PortRange) returns (res: Result<seq<BitRange>, RangeError>)
    ensures res.Ok? <==> 0 < r.start <= r.end
    ensures res.Ok? ==> res.value == Cover(r.start, r.end)
    decreases r.end
  {
    if r.start <= 0 || r.end <= 0 {
      return Err(InvalidPortRange);
    }
    if r.start > r.end {
      return Err(InvalidPortRange);
    }
    if r.start == r.end {
      SinglePort(r.start);
      return Ok([BitRange(r.start, 0xffff)]);
    }
    hide *;
    ghost var k, first := Assembled(r);

    var bitRanges: seq<BitRange> := [];
    var bitLength, rangeStart, rangeEnd := FindWindow(r);
    var current := BitRange(rangeStart, GetMask(bitLength));

    if r.start != rangeStart {
      var left := BitwiseMatch(PortRange(r.start, rangeStart - 1));
      if left.Err? {
        assert false; // the left remainder is a valid range
      }
      bitRanges := bitRanges + left.value;
    }

    bitRanges := bitRanges + [current];

    if r.end != rangeEnd {
      assert false; // the window always ends at the range's end: nothing remains on the right
    }
    return Ok(bitRanges);
  }
}
