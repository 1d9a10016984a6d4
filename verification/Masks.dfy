/**
  The masks of each-operators: the bits of a mask are the levels at which an argument is iterated.
  The combined mask of a call is accepted by an arithmetic test.
 */
module Masks {
  import opened Basics

  function Bit(m: nat, b: nat): bool { if b == 0 then m % 2 == 1 else Bit(m / 2, b - 1) }
  function Or(m: nat, n: nat): nat
    decreases m + n
  {
    if m == 0 && n == 0 then 0 else (if m % 2 == 1 || n % 2 == 1 then 1 else 0) + 2 * Or(m / 2, n / 2)
  }
  function BitLength(m: nat): nat { if m == 0 then 0 else 1 + BitLength(m / 2) }

  lemma {:induction false} BitOfOr(m: nat, n: nat, b: nat)
    ensures Bit(Or(m, n), b) <==> Bit(m, b) || Bit(n, b)
    decreases b
  {
    if m == 0 && n == 0 { ZeroHasNoBits(b); }
    else if b > 0 { BitOfOr(m / 2, n / 2, b - 1); }
  }

  lemma {:induction false} ZeroHasNoBits(b: nat)
    ensures !Bit(0, b)
  {
    if b > 0 { ZeroHasNoBits(b - 1); }
  }

  /** No level is skipped below one that is used. */
  ghost predicate NoGaps(m: nat) { forall b: nat, c: nat :: c <= b && Bit(m, b) ==> Bit(m, c) }

  lemma {:induction false} BitOfOnes(k: nat, b: nat)
    ensures Bit(Exp2(k) - 1, b) <==> b < k
  {
    if k == 0 { ZeroHasNoBits(b); }
    else {
      assert (Exp2(k) - 1) / 2 == Exp2(k - 1) - 1 && (Exp2(k) - 1) % 2 == 1;
      if b > 0 { BitOfOnes(k - 1, b - 1); }
    }
  }

  lemma OnesHaveNoGaps(k: nat)
    ensures NoGaps(Exp2(k) - 1)
  {
    var ones: nat := Exp2(k) - 1;
    forall b: nat, c: nat | c <= b && Bit(ones, b) ensures Bit(ones, c) {
      BitOfOnes(k, b);
      BitOfOnes(k, c);
    }
  }

  lemma {:induction false} NoGapsMeansOnes(m: nat)
    requires NoGaps(m)
    ensures m == Exp2(BitLength(m)) - 1
  {
    if m > 0 {
      SomeBit(m);
      assert Bit(m, BitLength(m) - 1) && Bit(m, 0);
      forall b: nat, c: nat | c <= b && Bit(m / 2, b) ensures Bit(m / 2, c) { assert Bit(m, b + 1) && Bit(m, c + 1); }
      NoGapsMeansOnes(m / 2);
    }
  }

  lemma {:induction false} SomeBit(m: nat)
    requires m > 0
    ensures Bit(m, BitLength(m) - 1)
  {
    if m > 1 { SomeBit(m / 2); }
  }

  lemma {:induction false} LengthOfOnes(k: nat)
    ensures BitLength(Exp2(k) - 1) == k
  {
    if k > 0 {
      assert (Exp2(k) - 1) / 2 == Exp2(k - 1) - 1;
      LengthOfOnes(k - 1);
    }
  }

  /** One less than k ones still has k bits, from two ones on. */
  lemma LengthBelowOnes(k: nat)
    requires k >= 2
    ensures Exp2(k) >= 4 && BitLength(Exp2(k) - 2) == k
  {
    assert Exp2(k) == 2 * Exp2(k - 1) && Exp2(k - 1) == 2 * Exp2(k - 2);
    assert (Exp2(k) - 2) / 2 == Exp2(k - 1) - 1;
    LengthOfOnes(k - 1);
  }

  // ---------- accepting the masks ----------

  const SIGN := Exp2(31)

  // a 32-bit pattern read as a signed number
  function Signed(m: nat): int { if m < SIGN then m else m - 2 * SIGN }

  function Log2Ceil(x: nat): nat
    requires x > 0
  {
    BitLength(x - 1)
  }

  function Accepts(m: nat): bool { var s := Signed(m); s <= 1 || s == Exp2(Log2Ceil(s)) - 1 }
  function Levels(m: nat): nat { var s := Signed(m); if s <= 1 then 1 else Log2Ceil(s) }

  /**
    The test "there are empty levels" is exact on every combined mask that is positive as a signed
    number: it passes the masks without gaps, and counts their levels.  Zero, and any mask with the
    sign bit, pass whatever levels they use.
   */
  lemma AcceptedIff(m: nat)
    requires m < 2 * SIGN
    ensures Accepts(m) <==> Signed(m) <= 0 || NoGaps(m)
    ensures Signed(m) > 0 && NoGaps(m) ==> m == Exp2(Levels(m)) - 1
  {
    if m == 1 { OnesHaveNoGaps(1); LengthOfOnes(1); assert Exp2(1) == 2; }
    if 1 < m < SIGN { AboveOne(m); }
  }

  lemma AboveOne(m: nat)
    requires m > 1
    ensures m == Exp2(Log2Ceil(m)) - 1 <==> NoGaps(m)
  {
    if NoGaps(m) {
      NoGapsMeansOnes(m);
      var k := BitLength(m);
      assert Exp2(0) == 1 && Exp2(1) == 2;
      LengthBelowOnes(k);
    } else if m == Exp2(Log2Ceil(m)) - 1 {
      OnesHaveNoGaps(Log2Ceil(m));
    }
  }
}
