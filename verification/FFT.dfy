/**
  The in-place radix-2 Fourier transform: the bit-reversal permutation by a reverse-carry counter,
  then log2(n) stages of butterflies.

  Arithmetic is that of any commutative ring.  The twiddle bases exp(-+2 pi i / 2^l) are a
  parameter; all that is used of them is that each is a square root of the one before, and that the
  first one is -1.
 */
module FFT {
  import opened Basics
  import opened Rings

  /** root(l) stands for exp(-+2 pi i / 2^l). */
  type Roots<C> = nat -> C

  ghost predicate IsTower<C(!new)>(r: Ring<C>, root: Roots<C>, m: nat) {
    && root(0) == r.one && (m >= 1 ==> root(1) == r.minusOne)
    && forall l: nat :: 1 <= l < m ==> r.mul(root(l + 1), root(l + 1)) == root(l)
  }

  // ---------- what the transform computes ----------

  /** x[off + stride * j], or zero outside the sequence. */
  function At<C>(r: Ring<C>, x: seq<C>, off: nat, stride: nat, j: nat): C {
    if off + stride * j < |x| then x[off + stride * j] else r.zero
  }

  /** The terms of the defining sum of output `k`. */
  function Term<C>(r: Ring<C>, x: seq<C>, off: nat, stride: nat, w: C, k: nat): nat -> C {
    (j: nat) => r.mul(At(r, x, off, stride, j), Pow(r, w, j * k))
  }

  /** Output `k` of the Fourier transform of the 2^l entries x[off], x[off + stride], ... */
  function Dft<C>(r: Ring<C>, x: seq<C>, off: nat, stride: nat, l: nat, root: Roots<C>, k: nat): C {
    Sum(r, Term(r, x, off, stride, root(l), k), Exp2(l))
  }

  /** `y` is the discrete Fourier transform of `x`: y[k] is the sum of x[j] w^(jk). */
  ghost predicate IsDft<C(!new)>(r: Ring<C>, y: seq<C>, x: seq<C>, w: C) {
    |y| == |x| && forall k: nat :: k < |y| ==> y[k] == Sum(r, Products(r, x, w, k), |x|)
  }

  function Products<C>(r: Ring<C>, x: seq<C>, w: C, k: nat): nat -> C {
    (j: nat) => if j < |x| then r.mul(x[j], Pow(r, w, j * k)) else r.zero
  }

  // ---------- roots ----------

  lemma {:induction false} HalfTurn<C(!new)>(r: Ring<C>, root: Roots<C>, m: nat, l: nat)
    requires Laws(r) && IsTower(r, root, m) && 1 <= l <= m
    ensures Pow(r, root(l), Exp2(l - 1)) == r.minusOne
  {
    if l == 1 {
      assert Pow(r, root(1), 1) == r.mul(Pow(r, root(1), 0), root(1));
      TimesOne(r, root(1));
    } else {
      HalfTurn(r, root, m, l - 1);
      assert r.mul(root(l - 1 + 1), root(l - 1 + 1)) == root(l - 1);
      SquareOf(r, root(l), root(l - 1), Exp2(l - 2));
    }
  }

  lemma SquareOf<C(!new)>(r: Ring<C>, w: C, w2: C, n: nat)
    requires Laws(r) && r.mul(w, w) == w2
    ensures Pow(r, w, 2 * n) == Pow(r, w2, n)
  {
    assert Pow(r, w, 2) == r.mul(Pow(r, w, 1), w);
    assert Pow(r, w, 1) == r.mul(Pow(r, w, 0), w);
    TimesOne(r, w);
    PowOfPow(r, w, 2, n, 2 * n);
  }

  lemma MinusOneSquared<C(!new)>(r: Ring<C>)
    requires Laws(r)
    ensures r.mul(r.minusOne, r.minusOne) == r.one
  {
    var a, b := r.one, r.minusOne;
    TimesOne(r, b);
    assert Units(r, b);                              // b + b*b == 0
    assert Units(r, a);                              // 1 + b == 0
    assert Comm(r, b, a);
    PlusZero(r, a);
    PlusZero(r, r.mul(b, b));
    assert Assoc(r, a, b, r.mul(b, b));              // (1 + b) + b*b == 1 + (b + b*b)
  }

  lemma FullTurn<C(!new)>(r: Ring<C>, root: Roots<C>, m: nat, l: nat)
    requires Laws(r) && IsTower(r, root, m) && l <= m
    ensures Pow(r, root(l), Exp2(l)) == r.one
  {
    if l == 0 {
      assert Pow(r, root(0), 1) == r.mul(Pow(r, root(0), 0), root(0));
      TimesOne(r, root(0));
    } else {
      HalfTurn(r, root, m, l);
      PowAdd(r, root(l), Exp2(l - 1), Exp2(l - 1));
      MinusOneSquared(r);
    }
  }

  lemma TurnedPow<C(!new)>(r: Ring<C>, w: C, n: nat, e: nat, j: nat, t: nat)
    requires Laws(r) && Pow(r, w, n) == r.one && t == n * j
    ensures Pow(r, w, e + t) == Pow(r, w, e)
  {
    PowAdd(r, w, e, t);
    PowOfPow(r, w, n, j, t);
    PowOfOne(r, Pow(r, w, n), j);
    TimesOne(r, Pow(r, w, e));
  }

  // ---------- splitting a transform into two of half the size ----------

  lemma TermEven<C(!new)>(r: Ring<C>, x: seq<C>, off: nat, stride: nat, w: C, w2: C, k: nat, j: nat)
    requires Laws(r) && r.mul(w, w) == w2
    ensures Term(r, x, off, stride, w, k)(2 * j) == Term(r, x, off, 2 * stride, w2, k)(j)
  {
    assert stride * (2 * j) == 2 * stride * j;
    assert At(r, x, off, stride, 2 * j) == At(r, x, off, 2 * stride, j);
    assert 2 * j * k == 2 * (j * k);
    SquareOf(r, w, w2, j * k);
  }

  lemma TermOdd<C(!new)>(r: Ring<C>, x: seq<C>, off: nat, stride: nat, w: C, w2: C, k: nat, j: nat)
    requires Laws(r) && r.mul(w, w) == w2
    ensures Term(r, x, off, stride, w, k)(2 * j + 1) ==
      r.mul(Pow(r, w, k), Term(r, x, off + stride, 2 * stride, w2, k)(j))
  {
    var a := At(r, x, off, stride, 2 * j + 1);
    assert off + stride * (2 * j + 1) == off + stride + 2 * stride * j by {
      assert stride * (2 * j + 1) == 2 * stride * j + stride;
    }
    assert a == At(r, x, off + stride, 2 * stride, j);
    assert (2 * j + 1) * k == k + 2 * (j * k);
    PowAdd(r, w, k, 2 * (j * k));
    SquareOf(r, w, w2, j * k);
    var p, q := Pow(r, w, k), Pow(r, w2, j * k);
    assert Assoc(r, a, p, q) && Comm(r, a, p) && Assoc(r, p, a, q);
  }

  /** One transform of size 2^(l+1) from two of size 2^l. */
  lemma SplitDft<C(!new)>(r: Ring<C>, x: seq<C>, off: nat, stride: nat, l: nat, root: Roots<C>, m: nat, k: nat)
    requires Laws(r) && IsTower(r, root, m) && l + 1 <= m
    ensures Dft(r, x, off, stride, l + 1, root, k)
         == r.add(Dft(r, x, off, 2 * stride, l, root, k),
           r.mul(Pow(r, root(l + 1), k), Dft(r, x, off + stride, 2 * stride, l, root, k)))
  {
    var w, w2, n := root(l + 1), root(l), Exp2(l);
    if l == 0 { MinusOneSquared(r); }
    var f := Term(r, x, off, stride, w, k);
    var e, o := Term(r, x, off, 2 * stride, w2, k), Term(r, x, off + stride, 2 * stride, w2, k);
    var o' := (j: nat) => r.mul(Pow(r, w, k), o(j));
    forall j: nat | j < n ensures e(j) == f(2 * j) && o'(j) == f(2 * j + 1) {
      TermEven(r, x, off, stride, w, w2, k, j);
      TermOdd(r, x, off, stride, w, w2, k, j);
    }
    SumEvenOdd(r, f, e, o', n);
    SumScaled(r, Pow(r, w, k), o, o', n);
  }

  /** A transform of size 2^l has period 2^l. */
  lemma DftPeriodic<C(!new)>(r: Ring<C>, x: seq<C>, off: nat, stride: nat, l: nat, root: Roots<C>, m: nat, k: nat)
    requires Laws(r) && IsTower(r, root, m) && l <= m
    ensures Dft(r, x, off, stride, l, root, k + Exp2(l)) == Dft(r, x, off, stride, l, root, k)
  {
    var w, n := root(l), Exp2(l);
    var f, g := Term(r, x, off, stride, w, k + n), Term(r, x, off, stride, w, k);
    FullTurn(r, root, m, l);
    forall j: nat | j < n ensures f(j) == g(j) {
      assert j * (k + n) == j * k + n * j;
      TurnedPow(r, w, n, j * k, j, n * j);
    }
    SumEqual(r, f, g, n);
  }

  /** The two outputs of one butterfly: u + v and u - v. */
  lemma Butterfly<C(!new)>(r: Ring<C>, x: seq<C>, off: nat, stride: nat, l: nat, root: Roots<C>, m: nat, k: nat)
    requires Laws(r) && IsTower(r, root, m) && l + 1 <= m
    ensures var u := Dft(r, x, off, 2 * stride, l, root, k);
      var v := r.mul(Dft(r, x, off + stride, 2 * stride, l, root, k), Pow(r, root(l + 1), k));
      && Dft(r, x, off, stride, l + 1, root, k) == r.add(u, v)
      && Dft(r, x, off, stride, l + 1, root, k + Exp2(l)) == r.sub(u, v)
  {
    var w, n := root(l + 1), Exp2(l);
    var u, d, p := Dft(r, x, off, 2 * stride, l, root, k), Dft(r, x, off + stride, 2 * stride, l, root, k),
      Pow(r, w, k);
    SplitDft(r, x, off, stride, l, root, m, k);
    SplitDft(r, x, off, stride, l, root, m, k + n);
    DftPeriodic(r, x, off, 2 * stride, l, root, m, k);
    DftPeriodic(r, x, off + stride, 2 * stride, l, root, m, k);
    PowAdd(r, w, k, n);
    HalfTurn(r, root, m, l + 1);
    assert Comm(r, p, d) && Comm(r, p, r.minusOne) && Assoc(r, r.minusOne, p, d) && Comm(r, u, r.mul(d, p));
  }

  // ---------- bit reversal ----------

  /** The `m` low bits of `i` in reverse order. */
  function Rev(m: nat, i: nat): (r: nat)
    requires i < Exp2(m)
    ensures r < Exp2(m)
  {
    if m == 0 then 0 else Bit(i % 2, Exp2(m - 1)) + Rev(m - 1, i / 2)
  }

  /** b * n, for a bit b. */
  function Bit(b: nat, n: nat): nat { if b == 0 then 0 else n }

  /** The same from the top bit down. */
  lemma {:induction false} RevTop(m: nat, b: nat, i: nat)
    requires b <= 1 && i < Exp2(m)
    ensures Bit(b, Exp2(m)) + i < Exp2(m + 1) && Rev(m + 1, Bit(b, Exp2(m)) + i) == 2 * Rev(m, i) + b
  {
    var t := Bit(b, Exp2(m)) + i;
    if m > 0 {
      assert t % 2 == i % 2 && t / 2 == Bit(b, Exp2(m - 1)) + i / 2;
      RevTop(m - 1, b, i / 2);
    } else {
      assert t == b && Rev(1, t) == Bit(b % 2, Exp2(0)) + Rev(0, b / 2);
    }
  }

  lemma {:induction false} RevInvolution(m: nat, i: nat)
    requires i < Exp2(m)
    ensures Rev(m, Rev(m, i)) == i
  {
    if m > 0 {
      RevInvolution(m - 1, i / 2);
      RevTop(m - 1, i % 2, Rev(m - 1, i / 2));
    }
  }

  lemma {:induction false} Exp2Add(a: nat, b: nat)
    ensures Exp2(a + b) == Exp2(a) * Exp2(b)
  {
    if a > 0 { Exp2Add(a - 1, b); }
  }

  /** The inner loop of the reverse-carry counter: `j & bit`, `j ^= bit`, for one-bit masks. */
  function BitSet(j: nat, bit: nat): bool
    requires bit > 0
  {
    j / bit % 2 == 1
  }

  function Flip(j: nat, bit: nat): nat
    requires bit > 0
  {
    if BitSet(j, bit) then (if j >= bit then j - bit else 0) else j + bit
  }

  /** Clears set bits from mask 2^k downwards, sets the first clear one. */
  function Carry(j: nat, k: nat): nat {
    if !BitSet(j, Exp2(k)) then Flip(j, Exp2(k))
    else if k == 0 then 0
    else Carry(Flip(j, Exp2(k)), k - 1)
  }

  /** The counter runs through the bit reversals in order. */
  lemma {:induction false} CarryIsNextRev(m: nat, i: nat)
    requires m > 0 && i + 1 < Exp2(m)
    ensures Carry(Rev(m, i), m - 1) == Rev(m, i + 1)
  {
    var n, low := Exp2(m - 1), Rev(m - 1, i / 2);
    TopBit(n, low);
    if i % 2 == 0 {
      assert (i + 1) % 2 == 1 && (i + 1) / 2 == i / 2;
    } else {
      assert (i + 1) % 2 == 0 && (i + 1) / 2 == i / 2 + 1;
      assert m - 1 > 0;
      CarryIsNextRev(m - 1, i / 2);
    }
  }

  lemma TopBit(n: nat, low: nat)
    requires low < n
    ensures !BitSet(low, n) && BitSet(n + low, n) && Flip(n + low, n) == low && Flip(low, n) == n + low
  {
    assert low / n == 0;
    assert (n + low) / n == 1;
  }
}
