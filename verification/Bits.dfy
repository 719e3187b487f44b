/**
 Shifts and bitwise operators on natural numbers.  Shifts are defined by repeated
 halving and doubling, the bitwise operators bit by bit, so every fact about them is
 proved by induction on the shift distance.
 */
module Bits {

  // h << k
  function Shl(h: nat, k: nat): nat {
    if k == 0 then h else 2 * Shl(h, k - 1)
  }

  // p >> k
  function Shr(p: nat, k: nat): nat {
    if k == 0 then p else Shr(p / 2, k - 1)
  }

  // The number with its k low bits cleared.
  function RoundDown(p: nat, k: nat): nat {
    Shl(Shr(p, k), k)
  }

  predicate Aligned(p: nat, k: nat) {
    RoundDown(p, k) == p
  }

  function And(a: nat, b: nat): nat {
    if a == 0 then 0 else 2 * And(a / 2, b / 2) + (if a % 2 == 1 && b % 2 == 1 then 1 else 0)
  }

  function AndNot(a: nat, b: nat): nat {
    if a == 0 then 0 else 2 * AndNot(a / 2, b / 2) + (if a % 2 == 1 && b % 2 == 0 then 1 else 0)
  }

  function Xor(a: nat, b: nat): nat
    decreases a + b
  {
    if a + b == 0 then 0 else 2 * Xor(a / 2, b / 2) + (if a % 2 != b % 2 then 1 else 0)
  }

  // floor(log2(n))
  function FloorLog2(n: nat): (k: nat)
    requires n > 0
    ensures Shl(1, k) <= n < Shl(1, k + 1)
  {
    if n == 1 then 0 else FloorLog2(n / 2) + 1
  }

  lemma {:induction false} ShlAdd(g: nat, h: nat, k: nat)
    ensures Shl(g + h, k) == Shl(g, k) + Shl(h, k)
  {
    if k > 0 { ShlAdd(g, h, k - 1); }
  }

  lemma {:induction false} ShlStrict(g: nat, h: nat, k: nat)
    ensures g < h <==> Shl(g, k) < Shl(h, k)
    ensures Shl(0, k) == 0
  {
    if k > 0 { ShlStrict(g, h, k - 1); }
  }

  lemma {:induction false} Pow2Strict(j: nat, k: nat)
    ensures j < k <==> Shl(1, j) < Shl(1, k)
    ensures Shl(1, k) > 0
    decreases j + k
  {
    if j > 0 && k > 0 {
      Pow2Strict(j - 1, k - 1);
    } else if k > 0 {
      Pow2Strict(j, k - 1);
    } else if j > 0 {
      Pow2Strict(j - 1, k);
    }
  }

  lemma Log2Below(n: nat, w: nat)
    requires 0 < n < Shl(1, w)
    ensures FloorLog2(n) < w
  {
    hide *;
    Pow2Strict(FloorLog2(n), w);
  }

  lemma Log2AtLeast(n: nat, j: nat)
    requires 0 < n && Shl(1, j) <= n
    ensures j <= FloorLog2(n)
  {
    hide *;
    Pow2Strict(j, FloorLog2(n) + 1);
  }

  // The numbers whose bits above k spell h form one interval of length 2^k.
  lemma {:induction false} ShrIsBlock(p: nat, h: nat, k: nat)
    ensures Shr(p, k) == h <==> Shl(h, k) <= p < Shl(h + 1, k)
  {
    if k > 0 { ShrIsBlock(p / 2, h, k - 1); }
  }

  lemma {:induction false} ShrShl(h: nat, k: nat)
    ensures Shr(Shl(h, k), k) == h
  {
    ShlStrict(h, h + 1, k);
    ShrIsBlock(Shl(h, k), h, k);
  }

  lemma {:induction false} ShrCompose(p: nat, k: nat, j: nat)
    ensures Shr(p, k + j) == Shr(Shr(p, k), j)
  {
    if k > 0 { ShrCompose(p / 2, k - 1, j); }
  }

  lemma {:induction false} ShlCompose(p: nat, k: nat, j: nat)
    ensures Shl(p, k + j) == Shl(Shl(p, k), j)
  {
    if j > 0 { ShlCompose(p, k, j - 1); }
  }

  lemma RoundDownBounds(p: nat, k: nat)
    ensures RoundDown(p, k) <= p < RoundDown(p, k) + Shl(1, k)
    ensures Aligned(RoundDown(p, k), k)
  {
    ShrIsBlock(p, Shr(p, k), k);
    ShlAdd(Shr(p, k), 1, k);
    ShrShl(Shr(p, k), k);
  }

  lemma {:induction false} RoundDownBelow(p: nat, w: nat, k: nat)
    requires p < Shl(1, w) && k <= w
    ensures RoundDown(p, k) + Shl(1, k) <= Shl(1, w)
  {
    if k > 0 { RoundDownBelow(p / 2, w - 1, k - 1); }
  }

  // A multiple of 2^k plus or minus 2^k is again one.
  lemma AlignedSucc(h: nat, k: nat)
    ensures Aligned(Shl(h, k), k)
    ensures Shl(h + 1, k) == Shl(h, k) + Shl(1, k)
  {
    ShrShl(h, k);
    ShlAdd(h, 1, k);
  }

  // A boundary of a coarser grid is one of a finer grid.
  lemma AlignedDown(p: nat, j: nat, k: nat)
    requires k <= j && Aligned(p, j)
    ensures Aligned(p, k)
  {
    hide Shl, Shr;
    ShlCompose(Shr(p, j), j - k, k);
    ShrShl(Shl(Shr(p, j), j - k), k);
  }

  // Of two consecutive boundaries one lies on the next coarser grid.
  lemma AlignedUp(h: nat, k: nat)
    ensures Aligned(Shl(h, k), k + 1) <==> h % 2 == 0
  {
    hide Shl, Shr;
    ShrCompose(Shl(h, k), k, 1);
    ShrShl(h, k);
    ShlCompose(h / 2, 1, k);
    Half(h);
    ShlStrict(2 * (h / 2), h, k);
  }

  lemma Half(h: nat)
    ensures Shr(h, 1) == h / 2
    ensures forall g: nat :: Shl(g, 1) == 2 * g
  {
    forall g: nat ensures Shl(g, 1) == 2 * g {
      assert Shl(g, 0) == g;
    }
    assert Shr(h / 2, 0) == h / 2;
  }

  lemma AlignedPred(p: nat, k: nat) returns (h: nat)
    requires Aligned(p, k) && p > 0
    ensures p == Shl(h, k) + Shl(1, k)
  {
    var g := Shr(p, k);
    ShlStrict(0, g, k);
    h := g - 1;
    AlignedSucc(h, k);
  }

  // Rounding p down to a 2^k boundary and filling the window with ones never falls
  // short of p, and lands on p exactly when p + 1 is on a boundary.
  lemma WindowEnd(p: nat, k: nat)
    ensures RoundDown(p, k) + Shl(1, k) - 1 >= p
    ensures RoundDown(p, k) + Shl(1, k) - 1 == p <==> Aligned(p + 1, k)
  {
    RoundDownBounds(p, k);
    var h := Shr(p, k);
    AlignedSucc(h, k);
    AlignedSucc(h + 1, k);
    if Aligned(p + 1, k) {
      var g := Shr(p + 1, k);
      ShlStrict(0, g, k);
      AlignedSucc(g - 1, k);
      ShrIsBlock(p, g - 1, k);
      Pow2Strict(0, k);
    }
  }

  // Clearing the low ones mask is rounding down.
  lemma {:induction false} AndNotLowBits(p: nat, k: nat)
    ensures Shl(1, k) > 0
    ensures AndNot(p, Shl(1, k) - 1) == RoundDown(p, k)
  {
    if k == 0 {
      AndNotZero(p);
    } else {
      AndNotLowBits(p / 2, k - 1);
      ShlStrict(0, 1, k);
    }
  }

  lemma {:induction false} AndNotZero(p: nat)
    ensures AndNot(p, 0) == p
  {
    if p > 0 { AndNotZero(p / 2); }
  }

  lemma {:induction false} AndOnes(p: nat, w: nat)
    requires p < Shl(1, w)
    ensures And(p, Shl(1, w) - 1) == p
  {
    if p > 0 {
      assert w > 0;
      var ones := Shl(1, w - 1) - 1;
      assert Shl(1, w) - 1 == 2 * ones + 1;
      assert (2 * ones + 1) / 2 == ones && (2 * ones + 1) % 2 == 1;
      hide Shl;
      AndOnes(p / 2, w - 1);
    }
  }

  lemma {:induction false} XorZero(p: nat)
    ensures Xor(p, 0) == p
  {
    if p > 0 { XorZero(p / 2); }
  }

  lemma XorOdd(a: nat, b: nat)
    ensures Xor(2 * a + 1, 2 * b + 1) == 2 * Xor(a, b)
  {
    assert (2 * a + 1) / 2 == a && (2 * b + 1) / 2 == b;
  }

  // w ones with the k low ones removed.
  lemma {:induction false} XorLowBits(w: nat, k: nat)
    requires k <= w
    ensures 0 < Shl(1, k) <= Shl(1, w)
    ensures Xor(Shl(1, w) - 1, Shl(1, k) - 1) == Shl(1, w) - Shl(1, k)
  {
    Pow2Strict(w, k);
    hide Xor;
    if k == 0 {
      XorZero(Shl(1, w) - 1);
    } else {
      XorLowBits(w - 1, k - 1);
      XorOdd(Shl(1, w - 1) - 1, Shl(1, k - 1) - 1);
    }
  }

  // Masking with w ones whose k low ones are cleared keeps the bits above k.
  lemma {:induction false} AndHighBits(p: nat, w: nat, k: nat)
    requires k <= w && p < Shl(1, w)
    ensures Shl(1, k) <= Shl(1, w)
    ensures And(p, Shl(1, w) - Shl(1, k)) == RoundDown(p, k)
  {
    Pow2Strict(w, k);
    if k == 0 {
      AndOnes(p, w);
    } else {
      AndHighBits(p / 2, w - 1, k - 1);
    }
  }

  // ---------- The operators, bit by bit ----------

  predicate Bit(n: nat, k: nat) { Shr(n, k) % 2 == 1 }

  lemma {:induction false} ShrZero(k: nat)
    ensures Shr(0, k) == 0
  {
    if k > 0 { ShrZero(k - 1); }
  }

  lemma Halves(q: nat, bit: nat)
    requires bit < 2
    ensures (2 * q + bit) / 2 == q && (2 * q + bit) % 2 == bit
  {
  }

  lemma AndHalves(a: nat, b: nat)
    ensures And(a, b) / 2 == And(a / 2, b / 2) && (And(a, b) % 2 == 1 <==> a % 2 == 1 && b % 2 == 1)
    ensures AndNot(a, b) / 2 == AndNot(a / 2, b / 2) && (AndNot(a, b) % 2 == 1 <==> a % 2 == 1 && b % 2 == 0)
  {
    Halves(And(a / 2, b / 2), if a % 2 == 1 && b % 2 == 1 then 1 else 0);
    Halves(AndNot(a / 2, b / 2), if a % 2 == 1 && b % 2 == 0 then 1 else 0);
  }

  lemma XorHalves(a: nat, b: nat)
    ensures Xor(a, b) / 2 == Xor(a / 2, b / 2) && (Xor(a, b) % 2 == 1 <==> a % 2 != b % 2)
  {
    Halves(Xor(a / 2, b / 2), if a % 2 != b % 2 then 1 else 0);
  }

  lemma {:induction false} OperatorBits(a: nat, b: nat, k: nat)
    ensures Bit(And(a, b), k) <==> Bit(a, k) && Bit(b, k)
    ensures Bit(AndNot(a, b), k) <==> Bit(a, k) && !Bit(b, k)
    ensures Bit(Xor(a, b), k) <==> Bit(a, k) != Bit(b, k)
    decreases k
  {
    hide And, AndNot, Xor;
    AndHalves(a, b);
    XorHalves(a, b);
    if k > 0 { OperatorBits(a / 2, b / 2, k - 1); }
  }
}
