/**
  The random generator: a 64-bit integer hash seeds the two words of a xoroshiro128 state.  What a
  step and the updates of the hash do is stated bit by bit.  The state is never all zero, for any
  seed and after any number of draws, and different seeds give different states for good.
 */
module Random {

  // ---------- the bits of a word ----------

  function One(i: bv64): bv64
    requires i < 64
  {
    1 << i
  }
  function And(x: bv64, y: bv64): bv64 { x & y }
  function Or(x: bv64, y: bv64): bv64 { x | y }
  function Xor(x: bv64, y: bv64): bv64 { x ^ y }
  function Not(x: bv64): bv64 { !x }

  predicate Bit(x: bv64, i: bv64)
    requires i < 64
  {
    And(x, One(i)) != 0
  }

  lemma OneIsSet(i: bv64) requires i < 64 ensures One(i) != 0 {}
  lemma NoneOrOne(x: bv64, i: bv64) requires i < 64 ensures And(x, One(i)) == 0 || And(x, One(i)) == One(i) {}
  lemma AndZero(x: bv64) ensures And(x, 0) == 0 {}

  lemma Xor00(x: bv64, y: bv64, m: bv64) requires And(x, m) == And(y, m) == 0 ensures And(Xor(x, y), m) == 0 {}
  lemma Xor01(x: bv64, y: bv64, m: bv64) requires And(x, m) == 0 && And(y, m) == m ensures And(Xor(x, y), m) == m {}
  lemma Xor10(x: bv64, y: bv64, m: bv64) requires And(x, m) == m && And(y, m) == 0 ensures And(Xor(x, y), m) == m {}
  lemma Xor11(x: bv64, y: bv64, m: bv64) requires And(x, m) == m && And(y, m) == m ensures And(Xor(x, y), m) == 0 {}
  lemma Not0(x: bv64, m: bv64) requires And(x, m) == 0 ensures And(Not(x), m) == m {}
  lemma Not1(x: bv64, m: bv64) requires And(x, m) == m ensures And(Not(x), m) == 0 {}

  predicate Differ(x: bv64, y: bv64, z: bv64, i: bv64)
    requires i < 64
  {
    Bit(z, i) <==> Bit(x, i) != Bit(y, i)
  }

  lemma XorBit(x: bv64, y: bv64, i: bv64)
    requires i < 64
    ensures Differ(x, y, Xor(x, y), i)
  {
    var m := One(i);
    OneIsSet(i);
    NoneOrOne(x, i);
    NoneOrOne(y, i);
    if And(x, m) == 0 {
      if And(y, m) == 0 { Xor00(x, y, m); } else { Xor01(x, y, m); }
    } else {
      if And(y, m) == 0 { Xor10(x, y, m); } else { Xor11(x, y, m); }
    }
  }

  predicate Opposite(x: bv64, z: bv64, i: bv64)
    requires i < 64
  {
    Bit(z, i) <==> !Bit(x, i)
  }

  lemma NotBit(x: bv64, i: bv64)
    requires i < 64
    ensures Opposite(x, Not(x), i)
  {
    OneIsSet(i);
    NoneOrOne(x, i);
    if And(x, One(i)) == 0 { Not0(x, One(i)); } else { Not1(x, One(i)); }
  }

  // the bits up to i
  function Low(i: bv64): bv64
    requires i < 64
  {
    One(i) | (One(i) - 1)
  }
  lemma LowStep(i: bv64) requires 0 < i < 64 ensures Low(i) == Or(Low(i - 1), One(i)) {}
  lemma LowFirst() ensures Low(0) == One(0) {}
  lemma LowLast(x: bv64) ensures And(x, Low(63)) == x {}
  lemma AndOr(x: bv64, y: bv64, m: bv64, n: bv64)
    requires And(x, m) == And(y, m) && And(x, n) == And(y, n)
    ensures And(x, Or(m, n)) == And(y, Or(m, n))
  {}

  lemma {:induction false} LowBitsDecide(x: bv64, y: bv64, i: bv64)
    requires i < 64 && forall j: bv64 :: j <= i ==> Bit(x, j) == Bit(y, j)
    ensures And(x, Low(i)) == And(y, Low(i))
    decreases i
  {
    NoneOrOne(x, i);
    NoneOrOne(y, i);
    assert Bit(x, i) == Bit(y, i);
    if i == 0 {
      LowFirst();
    } else {
      LowBitsDecide(x, y, i - 1);
      LowStep(i);
      AndOr(x, y, Low(i - 1), One(i));
    }
  }

  /** A word is known by its bits. */
  lemma BitsDecide(x: bv64, y: bv64)
    requires forall i: bv64 :: i < 64 ==> Bit(x, i) == Bit(y, i)
    ensures x == y
  {
    LowBitsDecide(x, y, 63);
    LowLast(x);
    LowLast(y);
  }

  // ---------- the eight steps of the hash, each with its inverse ----------

  // adding a shifted copy of the word is multiplication by an odd constant
  function Sum3(h: bv64): (r: bv64) ensures r == h * 0x9 { h + (h << 3) }
  function Sum13(h: bv64): (r: bv64) ensures r == h * 0x2001 { h + (h << 13) }
  function Sum28(h: bv64): (r: bv64) ensures r == h * 0x1000_0001 { h + (h << 28) }
  function Sum32(h: bv64): (r: bv64) ensures r == h * 0x1_0000_0001 { h + (h << 32) }

  function Unsum3(h: bv64): bv64 { h * 0x8e38_e38e_38e3_8e39 }
  function Unsum13(h: bv64): bv64 { h * 0xf_ff80_03ff_e001 }
  function Unsum28(h: bv64): bv64 { h * 0xff_ffff_f000_0001 }
  function Unsum32(h: bv64): bv64 { h * 0xffff_ffff_0000_0001 }

  lemma Product3(x: bv64) ensures Unsum3(x * 0x9) == x {}
  lemma Product13(x: bv64) ensures Unsum13(x * 0x2001) == x {}
  lemma Product28(x: bv64) ensures Unsum28(x * 0x1000_0001) == x {}
  lemma Product32(x: bv64) ensures Unsum32(x * 0x1_0000_0001) == x {}

  function Right5(x: bv64): bv64 { x >> 5 }
  function Right21(x: bv64): bv64 { x >> 21 }
  function Right27(x: bv64): bv64 { x >> 27 }
  function Right31(x: bv64): bv64 { x >> 31 }

  function Mix21(h: bv64): bv64 { Xor(h, Right21(h)) }
  function Mix27(h: bv64): bv64 { Xor(h, Right27(h)) }
  function Flip5(h: bv64): bv64 { Xor(h, Right5(Not(h))) }
  function Flip31(h: bv64): bv64 { Xor(h, Right31(Not(h))) }

  lemma Mix21Is(h: bv64) ensures Mix21(h) == h ^ (h >> 21) { assert Xor(h, h >> 21) == h ^ (h >> 21); }
  lemma Mix27Is(h: bv64) ensures Mix27(h) == h ^ (h >> 27) { assert Xor(h, h >> 27) == h ^ (h >> 27); }
  lemma Flip5Is(h: bv64)
    ensures Flip5(h) == h ^ (!h >> 5)
  {
    assert Right5(!h) == !h >> 5;
    assert Xor(h, !h >> 5) == h ^ (!h >> 5);
  }
  lemma Flip31Is(h: bv64)
    ensures Flip31(h) == h ^ (!h >> 31)
  {
    assert Right31(!h) == !h >> 31;
    assert Xor(h, !h >> 31) == h ^ (!h >> 31);
  }

  function Unmix21(h: bv64): bv64 { h ^ (h >> 21) ^ (h >> 42) ^ (h >> 63) }
  function Unmix27(h: bv64): bv64 { h ^ (h >> 27) ^ (h >> 54) }
  function Unflip31(h: bv64): bv64 { h ^ (!h >> 31) ^ (!h >> 62) }
  function Unmix5(h: bv64): bv64 {
    h ^ (h >> 5) ^ (h >> 10) ^ (h >> 15) ^ (h >> 20) ^ (h >> 25) ^ (h >> 30)
      ^ (h >> 35) ^ (h >> 40) ^ (h >> 45) ^ (h >> 50) ^ (h >> 55) ^ (h >> 60)
  }
  function Mask5(h: bv64): bv64 { h ^ 0x07ff_ffff_ffff_ffff }
  function Mix5(h: bv64): bv64 { h ^ (h >> 5) }
  function Unflip5(h: bv64): bv64 { Unmix5(Mask5(h)) }

  lemma Mixed21(x: bv64) ensures Unmix21(x ^ (x >> 21)) == x {}
  lemma Mixed27(x: bv64) ensures Unmix27(x ^ (x >> 27)) == x {}
  lemma Mixed5(x: bv64) ensures Unmix5(x ^ (x >> 5)) == x {}
  lemma Flipped5(x: bv64) ensures Mask5(x ^ (!x >> 5)) == x ^ (x >> 5) {}
  lemma Flipped31(x: bv64) ensures Unflip31(x ^ (!x >> 31)) == x {}

  // ---------- what an update with a shifted copy does to the bits ----------

  // bit i of y is that of x, changed where the bit n places higher is there and set
  predicate MixBit(n: bv64, x: bv64, y: bv64, i: bv64)
    requires i < 64 && n < 64
  {
    Bit(y, i) <==> Bit(x, i) != (i < 64 - n && Bit(x, i + n))
  }
  ghost predicate MixesBits(n: bv64, x: bv64, y: bv64)
    requires n < 64
  {
    forall i: bv64 :: i < 64 ==> MixBit(n, x, y, i)
  }

  // bit i of y is that of x, changed where the bit n places higher is there and clear
  predicate FlipBit(n: bv64, x: bv64, y: bv64, i: bv64)
    requires i < 64 && n < 64
  {
    Bit(y, i) <==> Bit(x, i) != (i < 64 - n && !Bit(x, i + n))
  }
  ghost predicate FlipsBits(n: bv64, x: bv64, y: bv64)
    requires n < 64
  {
    forall i: bv64 :: i < 64 ==> FlipBit(n, x, y, i)
  }

  predicate Lowered(n: bv64, x: bv64, z: bv64, i: bv64)
    requires i < 64 && n < 64
  {
    Bit(z, i) <==> i < 64 - n && Bit(x, i + n)
  }

  lemma MixOf(n: bv64, x: bv64, z: bv64, y: bv64, i: bv64)
    requires i < 64 && n < 64 && Lowered(n, x, z, i) && Differ(x, z, y, i)
    ensures MixBit(n, x, y, i)
  {}
  lemma FlipOf(n: bv64, x: bv64, o: bv64, z: bv64, y: bv64, i: bv64)
    requires i < 64 && n < 64 && Lowered(n, o, z, i) && Differ(x, z, y, i)
    requires i < 64 - n ==> Opposite(x, o, i + n)
    ensures FlipBit(n, x, y, i)
  {}

  lemma One5(i: bv64) requires i < 64 ensures One(i) << 5 == if i < 59 then One(i + 5) else 0 {}
  lemma And5(x: bv64, m: bv64) ensures And(Right5(x), m) == 0 <==> And(x, m << 5) == 0 {}
  lemma Right5Bit(x: bv64, i: bv64)
    requires i < 64
    ensures Lowered(5, x, Right5(x), i)
  {
    And5(x, One(i));
    One5(i);
    AndZero(x);
  }

  lemma One21(i: bv64) requires i < 64 ensures One(i) << 21 == if i < 43 then One(i + 21) else 0 {}
  lemma And21(x: bv64, m: bv64) ensures And(Right21(x), m) == 0 <==> And(x, m << 21) == 0 {}
  lemma Right21Bit(x: bv64, i: bv64)
    requires i < 64
    ensures Lowered(21, x, Right21(x), i)
  {
    And21(x, One(i));
    One21(i);
    AndZero(x);
  }

  lemma One27(i: bv64) requires i < 64 ensures One(i) << 27 == if i < 37 then One(i + 27) else 0 {}
  lemma And27(x: bv64, m: bv64) ensures And(Right27(x), m) == 0 <==> And(x, m << 27) == 0 {}
  lemma Right27Bit(x: bv64, i: bv64)
    requires i < 64
    ensures Lowered(27, x, Right27(x), i)
  {
    And27(x, One(i));
    One27(i);
    AndZero(x);
  }

  lemma One31(i: bv64) requires i < 64 ensures One(i) << 31 == if i < 33 then One(i + 31) else 0 {}
  lemma And31(x: bv64, m: bv64) ensures And(Right31(x), m) == 0 <==> And(x, m << 31) == 0 {}
  lemma Right31Bit(x: bv64, i: bv64)
    requires i < 64
    ensures Lowered(31, x, Right31(x), i)
  {
    And31(x, One(i));
    One31(i);
    AndZero(x);
  }

  lemma Mix21Bits(x: bv64)
    ensures MixesBits(21, x, Mix21(x))
  {
    forall i: bv64 | i < 64 ensures MixBit(21, x, Mix21(x), i) {
      XorBit(x, Right21(x), i);
      Right21Bit(x, i);
      MixOf(21, x, Right21(x), Mix21(x), i);
    }
  }

  lemma Mix27Bits(x: bv64)
    ensures MixesBits(27, x, Mix27(x))
  {
    forall i: bv64 | i < 64 ensures MixBit(27, x, Mix27(x), i) {
      XorBit(x, Right27(x), i);
      Right27Bit(x, i);
      MixOf(27, x, Right27(x), Mix27(x), i);
    }
  }

  lemma Flip5Bits(x: bv64)
    ensures FlipsBits(5, x, Flip5(x))
  {
    forall i: bv64 | i < 64 ensures FlipBit(5, x, Flip5(x), i) {
      XorBit(x, Right5(Not(x)), i);
      Right5Bit(Not(x), i);
      if i < 59 { NotBit(x, i + 5); }
      FlipOf(5, x, Not(x), Right5(Not(x)), Flip5(x), i);
    }
  }

  lemma Flip31Bits(x: bv64)
    ensures FlipsBits(31, x, Flip31(x))
  {
    forall i: bv64 | i < 64 ensures FlipBit(31, x, Flip31(x), i) {
      XorBit(x, Right31(Not(x)), i);
      Right31Bit(Not(x), i);
      if i < 33 { NotBit(x, i + 31); }
      FlipOf(31, x, Not(x), Right31(Not(x)), Flip31(x), i);
    }
  }

  // ---------- the hash ----------

  function Hash(key: bv64): bv64 { Sum32(Mix27(Sum13(Flip5(Sum3(Mix21(Sum28(Flip31(key)))))))) }
  function Unhash(hash: bv64): bv64 {
    Unflip31(Unsum28(Unmix21(Unsum3(Unflip5(Unsum13(Unmix27(Unsum32(hash))))))))
  }

  /** The nine values the local word goes through. */
  ghost predicate Updates(w: seq<bv64>) {
    |w| == 9 && FourUpdates(w[0], w[1], w[2], w[3], w[4]) && FourMore(w[4], w[5], w[6], w[7], w[8])
  }
  ghost predicate FourUpdates(a: bv64, b: bv64, c: bv64, d: bv64, e: bv64) {
    FlipsBits(31, a, b) && IsProduct(b, 0x1000_0001, c) && MixesBits(21, c, d) && IsProduct(d, 0x9, e)
  }
  ghost predicate FourMore(a: bv64, b: bv64, c: bv64, d: bv64, e: bv64) {
    FlipsBits(5, a, b) && IsProduct(b, 0x2001, c) && MixesBits(27, c, d) && IsProduct(d, 0x1_0000_0001, e)
  }
  predicate IsProduct(x: bv64, c: bv64, y: bv64) { y == x * c }

  lemma Sum3Product(x: bv64) ensures IsProduct(x, 0x9, Sum3(x)) {}
  lemma Sum13Product(x: bv64) ensures IsProduct(x, 0x2001, Sum13(x)) {}
  lemma Sum28Product(x: bv64) ensures IsProduct(x, 0x1000_0001, Sum28(x)) {}
  lemma Sum32Product(x: bv64) ensures IsProduct(x, 0x1_0000_0001, Sum32(x)) {}

  lemma FirstFour(key: bv64)
    ensures var a := Flip31(key); FourUpdates(key, a, Sum28(a), Mix21(Sum28(a)), Sum3(Mix21(Sum28(a))))
  {
    Flip31Bits(key);
    var a := Flip31(key); Sum28Product(a);
    var b := Sum28(a); Mix21Bits(b);
    Sum3Product(Mix21(b));
  }
  lemma LastFour(key: bv64)
    ensures var a := Flip5(key); FourMore(key, a, Sum13(a), Mix27(Sum13(a)), Sum32(Mix27(Sum13(a))))
  {
    Flip5Bits(key);
    var a := Flip5(key); Sum13Product(a);
    var b := Sum13(a); Mix27Bits(b);
    Sum32Product(Mix27(b));
  }

  /** From the key to its hash through the eight updates, each stated by its bits or as a product. */
  lemma HashUpdates(key: bv64)
    ensures exists w :: Updates(w) && w[0] == key && w[8] == Hash(key)
  {
    var a := Flip31(key);
    var b := Sum28(a);
    var c := Mix21(b);
    var d := Sum3(c);
    var e := Flip5(d);
    var f := Sum13(e);
    var g := Mix27(f);
    FirstFour(key);
    LastFour(d);
    assert Updates([key, a, b, c, d, e, f, g, Sum32(g)]);
  }

  lemma Sum3Undone(x: bv64) ensures Unsum3(Sum3(x)) == x { Product3(x); }
  lemma Sum13Undone(x: bv64) ensures Unsum13(Sum13(x)) == x { Product13(x); }
  lemma Sum28Undone(x: bv64) ensures Unsum28(Sum28(x)) == x { Product28(x); }
  lemma Sum32Undone(x: bv64) ensures Unsum32(Sum32(x)) == x { Product32(x); }
  lemma Mix21Undone(x: bv64) ensures Unmix21(Mix21(x)) == x { Mix21Is(x); Mixed21(x); }
  lemma Mix27Undone(x: bv64) ensures Unmix27(Mix27(x)) == x { Mix27Is(x); Mixed27(x); }
  lemma Mix5Undone(x: bv64) ensures Unmix5(Mix5(x)) == x { Mixed5(x); }
  lemma Flip5Masked(x: bv64) ensures Mask5(Flip5(x)) == Mix5(x) { Flip5Is(x); Flipped5(x); }
  lemma Flip5Undone(x: bv64) ensures Unflip5(Flip5(x)) == x { Flip5Masked(x); Mix5Undone(x); }
  lemma Flip31Undone(x: bv64) ensures Unflip31(Flip31(x)) == x { Flip31Is(x); Flipped31(x); }

  lemma HashUndone(key: bv64)
    ensures Unhash(Hash(key)) == key
  {
    Flip31Undone(key);
    var a := Flip31(key); Sum28Undone(a);
    var b := Sum28(a); Mix21Undone(b);
    var c := Mix21(b); Sum3Undone(c);
    var d := Sum3(c); Flip5Undone(d);
    var e := Flip5(d); Sum13Undone(e);
    var f := Sum13(e); Mix27Undone(f);
    Sum32Undone(Mix27(f));
  }

  /** The key can be recovered from what the eight updates leave, so no two keys have the same hash. */
  method Hash64(inKey: bv64) returns (hash: bv64)
    ensures Unhash(hash) == inKey && hash == Hash(inKey)
  {
    HashUndone(inKey);
    hash := inKey;
    hash := Flip31(hash);
    hash := Sum28(hash);
    hash := Mix21(hash);
    hash := Sum3(hash);
    hash := Flip5(hash);
    hash := Sum13(hash);
    hash := Mix27(hash);
    hash := Sum32(hash);
  }

  // ---------- the generator's two words ----------

  datatype State = State(a: bv64, b: bv64)
  const ZERO := State(0, 0)

  function Rotl36(x: bv64): bv64 { (x << 36) | (x >> 28) }
  function Rotl55(x: bv64): bv64 { (x << 55) | (x >> 9) }
  function Rotl28(x: bv64): bv64 { (x << 28) | (x >> 36) }
  function Rotl9(x: bv64): bv64 { (x << 9) | (x >> 55) }

  function Left14(x: bv64): bv64 { x << 14 }
  function Spread(x: bv64): bv64 { Xor(x, Left14(x)) }

  function Next(s: State): State {
    var m := Xor(s.b, s.a);
    State(Xor(Rotl55(s.a), Spread(m)), Rotl36(m))
  }

  function Previous(s: State): State {
    var m := Rotl28(s.b);
    var a := Rotl9(Xor(s.a, Spread(m)));
    State(a, Xor(m, a))
  }

  lemma Rotated36(x: bv64) ensures Rotl28(Rotl36(x)) == x && Rotl36(Rotl28(x)) == x {}
  lemma Rotated55(x: bv64) ensures Rotl9(Rotl55(x)) == x && Rotl55(Rotl9(x)) == x {}
  lemma Masked(x: bv64, y: bv64) ensures Xor(Xor(x, y), y) == x {}

  /** A step loses nothing: every state has exactly one successor and exactly one predecessor. */
  lemma StepIsBijection(s: State)
    ensures Previous(Next(s)) == s && Next(Previous(s)) == s
  {
    var m := Xor(s.b, s.a);
    Rotated36(m); Rotated55(s.a); Masked(Rotl55(s.a), Spread(m)); Masked(s.b, s.a);
    var p := Rotl28(s.b);
    var a := Rotl9(Xor(s.a, Spread(p)));
    Rotated36(s.b); Rotated55(Xor(s.a, Spread(p))); Masked(s.a, Spread(p)); Masked(p, a);
  }

  // ---------- what a step does to the bits ----------

  // the place from which a rotation by 64 - k brings bit i
  function Turn(i: bv64, k: bv64): (j: bv64)
    requires i < 64 && k < 64
    ensures j < 64
  {
    if i < 64 - k then i + k else i - (64 - k)
  }

  predicate BitsDiffer(a: bv64, b: bv64, i: bv64)
    requires i < 64
  {
    Bit(a, i) != Bit(b, i)
  }

  /**
    Bit i of the first word afterwards is the sum, without carry, of bit i + 9 of the first word
    before, of bit i of both words before, and of bit i - 14 of both words before if there is one.
    Places count round the word.
   */
  predicate FirstBit(a: bv64, b: bv64, a1: bv64, i: bv64)
    requires i < 64
  {
    Bit(a1, i) <==> (Bit(a, Turn(i, 9)) != BitsDiffer(a, b, i)) != (14 <= i && BitsDiffer(a, b, i - 14))
  }

  /** Bit i of the second word afterwards is the sum of bit i + 28 of both words before. */
  predicate SecondBit(a: bv64, b: bv64, b1: bv64, i: bv64)
    requires i < 64
  {
    Bit(b1, i) <==> BitsDiffer(a, b, Turn(i, 28))
  }

  ghost predicate StepsBits(a: bv64, b: bv64, a1: bv64, b1: bv64) {
    forall i: bv64 :: i < 64 ==> FirstBit(a, b, a1, i) && SecondBit(a, b, b1, i)
  }

  lemma OneTurned9(i: bv64) requires i < 64 ensures Rotl9(One(i)) == One(Turn(i, 9)) {}
  lemma OneTurned28(i: bv64) requires i < 64 ensures Rotl28(One(i)) == One(Turn(i, 28)) {}
  lemma OneLeft14(i: bv64) requires i < 64 ensures One(i) >> 14 == if i < 14 then 0 else One(i - 14) {}
  lemma And55(x: bv64, m: bv64) ensures And(Rotl55(x), m) == 0 <==> And(x, Rotl9(m)) == 0 {}
  lemma And36(x: bv64, m: bv64) ensures And(Rotl36(x), m) == 0 <==> And(x, Rotl28(m)) == 0 {}
  lemma And14(x: bv64, m: bv64) ensures And(Left14(x), m) == 0 <==> And(x, m >> 14) == 0 {}

  predicate Turned(k: bv64, x: bv64, z: bv64, i: bv64)
    requires i < 64 && k < 64
  {
    Bit(z, i) <==> Bit(x, Turn(i, k))
  }
  predicate Raised14(x: bv64, z: bv64, i: bv64)
    requires i < 64
  {
    Bit(z, i) <==> 14 <= i && Bit(x, i - 14)
  }

  lemma Left14Bit(x: bv64, i: bv64)
    requires i < 64
    ensures Raised14(x, Left14(x), i)
  {
    And14(x, One(i));
    OneLeft14(i);
    AndZero(x);
  }
  lemma Rotl55Bit(x: bv64, i: bv64)
    requires i < 64
    ensures Turned(9, x, Rotl55(x), i)
  {
    And55(x, One(i));
    OneTurned9(i);
  }
  lemma Rotl36Bit(x: bv64, i: bv64)
    requires i < 64
    ensures Turned(28, x, Rotl36(x), i)
  {
    And36(x, One(i));
    OneTurned28(i);
  }

  predicate Spreads(x: bv64, z: bv64, i: bv64)
    requires i < 64
  {
    Bit(z, i) <==> Bit(x, i) != (14 <= i && Bit(x, i - 14))
  }

  lemma SpreadOf(x: bv64, l: bv64, z: bv64, i: bv64)
    requires i < 64 && Raised14(x, l, i) && Differ(x, l, z, i)
    ensures Spreads(x, z, i)
  {}
  lemma SpreadBit(x: bv64, i: bv64)
    requires i < 64
    ensures Spreads(x, Spread(x), i)
  {
    Left14Bit(x, i);
    XorBit(x, Left14(x), i);
    SpreadOf(x, Left14(x), Spread(x), i);
  }

  // the step, with its intermediate words
  lemma FirstOf(a: bv64, b: bv64, m: bv64, p: bv64, r: bv64, a1: bv64, i: bv64)
    requires i < 64 && Differ(b, a, m, i) && (14 <= i ==> Differ(b, a, m, i - 14))
    requires Spreads(m, p, i) && Turned(9, a, r, i) && Differ(r, p, a1, i)
    ensures FirstBit(a, b, a1, i)
  {}
  lemma FirstWord(a: bv64, b: bv64, m: bv64, i: bv64)
    requires i < 64 && Differ(b, a, m, i) && (14 <= i ==> Differ(b, a, m, i - 14))
    ensures FirstBit(a, b, Xor(Rotl55(a), Spread(m)), i)
  {
    SpreadBit(m, i);
    Rotl55Bit(a, i);
    XorBit(Rotl55(a), Spread(m), i);
    FirstOf(a, b, m, Spread(m), Rotl55(a), Xor(Rotl55(a), Spread(m)), i);
  }
  lemma SecondOf(a: bv64, b: bv64, m: bv64, b1: bv64, i: bv64)
    requires i < 64 && Differ(b, a, m, Turn(i, 28)) && Turned(28, m, b1, i)
    ensures SecondBit(a, b, b1, i)
  {}

  lemma NextFirst(s: State, i: bv64)
    requires i < 64
    ensures FirstBit(s.a, s.b, Next(s).a, i)
  {
    XorBit(s.b, s.a, i);
    if 14 <= i { XorBit(s.b, s.a, i - 14); }
    FirstWord(s.a, s.b, Xor(s.b, s.a), i);
  }
  lemma NextSecond(s: State, i: bv64)
    requires i < 64
    ensures SecondBit(s.a, s.b, Next(s).b, i)
  {
    XorBit(s.b, s.a, Turn(i, 28));
    Rotl36Bit(Xor(s.b, s.a), i);
    SecondOf(s.a, s.b, Xor(s.b, s.a), Rotl36(Xor(s.b, s.a)), i);
  }

  lemma NextBits(s: State)
    ensures StepsBits(s.a, s.b, Next(s).a, Next(s).b)
  {
    forall i: bv64 | i < 64 ensures FirstBit(s.a, s.b, Next(s).a, i) && SecondBit(s.a, s.b, Next(s).b, i) {
      NextFirst(s, i);
      NextSecond(s, i);
    }
  }

  lemma WordsStep(a: bv64, b: bv64, m: bv64)
    requires m == Xor(b, a)
    ensures StepsBits(a, b, Xor(Rotl55(a), Spread(m)), Rotl36(m))
  {
    NextBits(State(a, b));
  }

  /** The law about the bits leaves one successor. */
  lemma StepsBitsDecide(s: State, t: State)
    ensures t == Next(s) <==> StepsBits(s.a, s.b, t.a, t.b)
  {
    NextBits(s);
    if StepsBits(s.a, s.b, t.a, t.b) {
      forall i: bv64 | i < 64 ensures Bit(t.a, i) == Bit(Next(s).a, i) && Bit(t.b, i) == Bit(Next(s).b, i) {
        assert FirstBit(s.a, s.b, t.a, i) && FirstBit(s.a, s.b, Next(s).a, i);
        assert SecondBit(s.a, s.b, t.b, i) && SecondBit(s.a, s.b, Next(s).b, i);
      }
      BitsDecide(t.a, Next(s).a);
      BitsDecide(t.b, Next(s).b);
    }
  }

  lemma ZeroIsFixed() ensures Next(ZERO) == ZERO {}

  function After(s: State, draws: nat): State
    decreases draws
  {
    if draws == 0 then s else After(Next(s), draws - 1)
  }

  /** Two different states never meet, however many draws are made. */
  lemma {:induction false} RunsStayApart(s: State, t: State, draws: nat)
    requires After(s, draws) == After(t, draws)
    ensures s == t
    decreases draws
  {
    if draws > 0 {
      RunsStayApart(Next(s), Next(t), draws - 1);
      StepIsBijection(s); StepIsBijection(t);
    }
  }

  lemma {:induction false} ZeroStays(draws: nat)
    ensures After(ZERO, draws) == ZERO
  {
    ZeroIsFixed();
    if draws > 0 { ZeroStays(draws - 1); }
  }

  /** The one state the generator could not leave is reached from no other. */
  lemma ZeroNeverReached(s: State, draws: nat)
    ensures After(s, draws) == ZERO <==> s == ZERO
  {
    ZeroStays(draws);
    if After(s, draws) == ZERO { RunsStayApart(s, ZERO, draws); }
  }

  lemma {:induction false} AfterAdds(s: State, m: nat, n: nat)
    ensures After(After(s, m), n) == After(s, m + n)
    decreases m
  {
    if m > 0 { AfterAdds(Next(s), m - 1, n); }
  }

  /** A run that meets a state twice has come back to where it began: there is no lead-in to a cycle. */
  lemma RepeatMeansCycle(s: State, i: nat, j: nat)
    requires i <= j && After(s, i) == After(s, j)
    ensures After(s, j - i) == s
  {
    AfterAdds(s, j - i, i);
    RunsStayApart(After(s, j - i), s, i);
  }

  lemma AfterOne(s: State)
    ensures After(s, 1) == Next(s)
  {
    assert After(s, 1) == After(Next(s), 0);
  }
  lemma NextZero(s: State)
    ensures Next(s) == ZERO <==> s == ZERO
  {
    ZeroNeverReached(s, 1);
    AfterOne(s);
  }

  // ---------- seeding ----------

  const FIRST: bv64 := 0x43a6_8b0d_0492_ba51
  const SECOND: bv64 := 0x56e3_76c6_e7c2_9504

  function Seeded(seed: bv64): State { State(Hash(seed + FIRST), Hash(seed + SECOND)) }

  /** The words are the hashes of the seed moved on by two constants. */
  lemma SeededKeys(seed: bv64)
    ensures Unhash(Seeded(seed).a) == seed + 0x43a6_8b0d_0492_ba51
    ensures Unhash(Seeded(seed).b) == seed + 0x56e3_76c6_e7c2_9504
  {
    HashUndone(seed + FIRST);
    HashUndone(seed + SECOND);
  }

  lemma KeysDiffer(seed: bv64) ensures seed + FIRST != seed + SECOND {}
  lemma ShiftedBack(seed: bv64) ensures (seed + FIRST) - FIRST == seed {}

  lemma SameHash(k: bv64, l: bv64)
    requires Hash(k) == Hash(l)
    ensures k == l
  {
    HashUndone(k); HashUndone(l);
  }

  /** Every seed gives a generator that never locks up, and no two seeds ever share a state at the same draw. */
  lemma SeedsAreSound(seed: bv64, other: bv64, draws: nat)
    ensures After(Seeded(seed), draws) != ZERO
    ensures After(Seeded(seed), draws) == After(Seeded(other), draws) <==> seed == other
  {
    KeysDiffer(seed);
    if Seeded(seed) == ZERO { SameHash(seed + FIRST, seed + SECOND); }
    ZeroNeverReached(Seeded(seed), draws);
    if After(Seeded(seed), draws) == After(Seeded(other), draws) {
      RunsStayApart(Seeded(seed), Seeded(other), draws);
      SameHash(seed + FIRST, other + FIRST);
      ShiftedBack(seed); ShiftedBack(other);
    }
  }

  /** One draw: the sum of the words, and the words afterwards. */
  method Xoroshiro128(s0: bv64, s1: bv64) returns (result: bv64, t0: bv64, t1: bv64)
    ensures result == s0 + s1
    ensures StepsBits(s0, s1, t0, t1)
    ensures State(t0, t1) == Next(State(s0, s1))
  {
    result := s0 + s1;
    var m := Xor(s1, s0);
    WordsStep(s0, s1, m);
    t0 := Xor(Rotl55(s0), Spread(m));
    t1 := Rotl36(m);
  }

  // ---------- the generator object ----------

  class RGen {
    var s0: bv64
    var s1: bv64

    function Now(): State reads this { State(s0, s1) }

    method Init(seed: bv64)
      modifies this
      ensures Now() == Seeded(seed) != ZERO
    {
      s0 := Hash64(seed + FIRST);
      s1 := Hash64(seed + SECOND);
      SeedsAreSound(seed, seed, 0);
    }

    method Trand() returns (result: bv64)
      modifies this
      ensures result == old(s0) + old(s1) && StepsBits(old(s0), old(s1), s0, s1)
      ensures Now() == Next(old(Now()))
      ensures old(Now()) != ZERO ==> Now() != ZERO
    {
      NextZero(Now());
      var t0, t1;
      result, t0, t1 := Xoroshiro128(s0, s1);
      assert State(t0, t1) == Next(Now());
      s0, s1 := t0, t1;
    }
  }
}
