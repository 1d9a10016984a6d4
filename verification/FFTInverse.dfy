/**
  Forward and inverse transforms: the powers of a root other than 1 sum to zero, so the inverse
  transform of a transform gives back every entry n-fold (the code leaves the scaling to its caller).
 */
module FFTInverse {
  import opened Basics
  import opened Rings
  import opened FFT
  import FFTInPlace

  function Powers<C>(r: Ring<C>, z: C): nat -> C { (k: nat) => Pow(r, z, k) }

  lemma {:induction false} OddPowOfMinusOne<C(!new)>(r: Ring<C>, d: nat)
    requires Laws(r) && d % 2 == 1
    ensures Pow(r, r.minusOne, d) == r.minusOne
  {
    var b := r.minusOne;
    assert Pow(r, b, d) == r.mul(Pow(r, b, d - 1), b);
    if d == 1 {
      TimesOne(r, b);
    } else {
      OddPowOfMinusOne(r, d - 2);
      assert Pow(r, b, d - 1) == r.mul(Pow(r, b, d - 2), b);
      MinusOneSquared(r);
      TimesOne(r, b);
    }
  }

  /** If z^half is one or minus one, the second half of the powers repeats or cancels the first. */
  lemma PowersInHalves<C(!new)>(r: Ring<C>, z: C, half: nat, sign: C)
    requires Laws(r) && Pow(r, z, half) == sign
    ensures Sum(r, Powers(r, z), 2 * half) == r.add(Sum(r, Powers(r, z), half), r.mul(sign, Sum(r, Powers(r, z), half)))
  {
    var f := Powers(r, z);
    var g := (k: nat) => f(half + k);
    forall k: nat | k < half ensures g(k) == r.mul(sign, f(k)) { PowAdd(r, z, half, k); }
    SumScaled(r, sign, f, g, half);
    SumHalves(r, f, g, half, half);
  }

  /** Orthogonality: the powers of w^d sum to zero when d is not a multiple of n. */
  lemma {:induction false} PowersSumToZero<C(!new)>(r: Ring<C>, root: Roots<C>, m: nat, d: nat)
    requires Laws(r) && IsTower(r, root, m) && 0 < d < Exp2(m)
    ensures Sum(r, Powers(r, Pow(r, root(m), d)), Exp2(m)) == r.zero
    decreases m
  {
    var z, half := Pow(r, root(m), d), Exp2(m - 1);
    var s := Sum(r, Powers(r, z), half);
    if d % 2 == 0 {
      if m >= 2 { assert r.mul(root(m - 1 + 1), root(m - 1 + 1)) == root(m - 1); }
      SquareOf(r, root(m), root(m - 1), d / 2);
      FullTurn(r, root, m - 1, m - 1);
      PowOfPow(r, root(m - 1), d / 2, half, d / 2 * half);
      PowOfPow(r, root(m - 1), half, d / 2, d / 2 * half);
      PowOfOne(r, Pow(r, root(m - 1), half), d / 2);
      PowersInHalves(r, z, half, r.one);
      PowersSumToZero(r, root, m - 1, d / 2);
      PlusZero(r, r.one);
      PlusZero(r, r.zero);
    } else {
      HalfTurn(r, root, m, m);
      PowOfPow(r, root(m), d, half, d * half);
      PowOfPow(r, root(m), half, d, d * half);
      OddPowOfMinusOne(r, d);
      PowersInHalves(r, z, half, r.minusOne);
      assert Units(r, s);
    }
  }

  /** w^j v^p for inverse roots w and v. */
  lemma {:induction false} CancelPowers<C(!new)>(r: Ring<C>, w: C, v: C, j: nat, p: nat)
    requires Laws(r) && r.mul(w, v) == r.one && p <= j
    ensures r.mul(Pow(r, w, j), Pow(r, v, p)) == Pow(r, w, j - p)
  {
    PowAdd(r, w, j - p, p);
    assert Assoc(r, Pow(r, w, j - p), Pow(r, w, p), Pow(r, v, p));
    PowOfProduct(r, w, v, p);
    PowOfOne(r, r.mul(w, v), p);
    TimesOne(r, Pow(r, w, j - p));
  }

  /** The sum over k of (w^j v^p)^k: n ones if j is p, else zero. */
  lemma Orthogonal<C(!new)>(r: Ring<C>, root: Roots<C>, inverse: Roots<C>, m: nat, j: nat, p: nat)
    requires Laws(r) && IsTower(r, root, m) && IsTower(r, inverse, m) && r.mul(root(m), inverse(m)) == r.one
    requires j < Exp2(m) && p < Exp2(m)
    ensures var z := r.mul(Pow(r, root(m), j), Pow(r, inverse(m), p));
      if j == p then z == r.one else Sum(r, Powers(r, z), Exp2(m)) == r.zero
  {
    var w, v := root(m), inverse(m);
    assert Comm(r, w, v) && Comm(r, Pow(r, w, j), Pow(r, v, p));
    if p <= j {
      CancelPowers(r, w, v, j, p);
      if p < j { PowersSumToZero(r, root, m, j - p); }
    } else {
      CancelPowers(r, v, w, p, j);
      PowersSumToZero(r, inverse, m, p - j);
    }
  }

  /** x[j] w^(jk) v^(kp) */
  function Double<C>(r: Ring<C>, x: seq<C>, w: C, v: C, p: nat): (nat, nat) -> C {
    (k: nat, j: nat) => if j < |x| then r.mul(r.mul(x[j], Pow(r, w, j * k)), Pow(r, v, k * p)) else r.zero
  }

  /** The column of input `j`: x[j] times the powers of w^j v^p. */
  lemma ColumnIsScaled<C(!new)>(r: Ring<C>, x: seq<C>, w: C, v: C, p: nat, j: nat, n: nat)
    requires Laws(r) && j < |x|
    ensures Sum(r, Column(Double(r, x, w, v, p), j), n) ==
      r.mul(x[j], Sum(r, Powers(r, r.mul(Pow(r, w, j), Pow(r, v, p))), n))
  {
    var z := r.mul(Pow(r, w, j), Pow(r, v, p));
    var f, g := Powers(r, z), Column(Double(r, x, w, v, p), j);
    forall k: nat | k < n ensures g(k) == r.mul(x[j], f(k)) {
      var a, b := Pow(r, w, j * k), Pow(r, v, k * p);
      PowOfProduct(r, Pow(r, w, j), Pow(r, v, p), k);
      PowOfPow(r, w, j, k, j * k);
      PowOfPow(r, v, p, k, k * p);
      assert f(k) == r.mul(a, b);
      assert Assoc(r, x[j], a, b);
    }
    SumScaled(r, x[j], f, g, n);
  }

  /** n-fold a. */
  function Times<C>(r: Ring<C>, n: nat, a: C): C { Sum(r, (k: nat) => a, n) }

  /** Transforming forward and then back multiplies every entry by n. */
  lemma RoundTrip<C(!new)>(r: Ring<C>, root: Roots<C>, inverse: Roots<C>, m: nat, x: seq<C>, y: seq<C>, z: seq<C>)
    requires Laws(r) && IsTower(r, root, m) && IsTower(r, inverse, m) && r.mul(root(m), inverse(m)) == r.one
    requires |x| == Exp2(m) && IsDft(r, y, x, root(m)) && IsDft(r, z, y, inverse(m))
    ensures |z| == |x| && forall p :: 0 <= p < |x| ==> z[p] == Times(r, |x|, x[p])
  {
    forall p: nat | p < |x| ensures z[p] == Times(r, |x|, x[p]) {
      RoundTripAt(r, root, inverse, m, x, y, p);
    }
  }

  lemma RoundTripAt<C(!new)>(r: Ring<C>, root: Roots<C>, inverse: Roots<C>, m: nat, x: seq<C>, y: seq<C>, p: nat)
    requires Laws(r) && IsTower(r, root, m) && IsTower(r, inverse, m) && r.mul(root(m), inverse(m)) == r.one
    requires |x| == Exp2(m) && IsDft(r, y, x, root(m)) && p < |x|
    ensures Sum(r, Products(r, y, inverse(m), p), |y|) == Times(r, |x|, x[p])
  {
    var w, v, n := root(m), inverse(m), |x|;
    var f := Double(r, x, w, v, p);
    var outer := Products(r, y, v, p);
    forall k: nat | k < n ensures outer(k) == RowSums(r, f, n)(k) {
      ScaledRow(r, x, w, v, p, k);
    }
    SumEqual(r, outer, RowSums(r, f, n), n);
    SumSwap(r, f, n, n);
    var columns := ColumnSums(r, f, n);
    forall j: nat | j < n && j != p ensures columns(j) == r.zero {
      ColumnIsScaled(r, x, w, v, p, j, n);
      Orthogonal(r, root, inverse, m, j, p);
      PlusZero(r, x[j]);
    }
    SumSingle(r, columns, n, p);
    ColumnIsScaled(r, x, w, v, p, p, n);
    Orthogonal(r, root, inverse, m, p, p);
    OnesScaled(r, r.mul(Pow(r, w, p), Pow(r, v, p)), x[p], n);
  }

  lemma ScaledRow<C(!new)>(r: Ring<C>, x: seq<C>, w: C, v: C, p: nat, k: nat)
    requires Laws(r)
    ensures r.mul(Sum(r, Products(r, x, w, k), |x|), Pow(r, v, k * p)) == Sum(r, Row(Double(r, x, w, v, p), k), |x|)
  {
    var f, g, c := Products(r, x, w, k), Row(Double(r, x, w, v, p), k), Pow(r, v, k * p);
    forall j: nat | j < |x| ensures g(j) == r.mul(c, f(j)) { assert Comm(r, f(j), c); }
    SumScaled(r, c, f, g, |x|);
    assert Comm(r, Sum(r, f, |x|), c);
  }

  lemma OnesScaled<C(!new)>(r: Ring<C>, z: C, a: C, n: nat)
    requires Laws(r) && z == r.one
    ensures r.mul(a, Sum(r, Powers(r, z), n)) == Times(r, n, a)
  {
    var f, g := Powers(r, z), (k: nat) => a;
    forall k: nat | k < n ensures g(k) == r.mul(a, f(k)) {
      PowOfOne(r, z, k);
      TimesOne(r, a);
    }
    SumScaled(r, a, f, g, n);
  }

  /** The code run forward and then backward: n times the data it started with. */
  method ForwardBackward<C(!new)>(r: Ring<C>, data: array<C>, forward: FFTInPlace.Twiddles<C>,
          backward: FFTInPlace.Twiddles<C>, ghost m: nat)
    requires Laws(r) && data.Length == Exp2(m)
    requires IsTower(r, FFTInPlace.RootsOf(forward), m) && IsTower(r, FFTInPlace.RootsOf(backward), m)
    requires r.mul(forward(data.Length), backward(data.Length)) == r.one
    modifies data
    ensures forall p :: 0 <= p < data.Length ==> data[p] == Times(r, data.Length, old(data[p]))
  {
    ghost var x := data[..];
    FFTInPlace.Fft(r, data, forward, m);
    ghost var y := data[..];
    FFTInPlace.Fft(r, data, backward, m);
    RoundTrip(r, FFTInPlace.RootsOf(forward), FFTInPlace.RootsOf(backward), m, x, y, data[..]);
    assert forall p :: 0 <= p < data.Length ==> data[..][p] == data[p] && x[p] == old(data[p]);
  }

  // ---------- the complex twiddles ----------

  /** h is the cosine of half the angle whose cosine is c. */
  predicate HalfCosine(h: real, c: real) { h > 0.0 && 2.0 * (h * h) == 1.0 + c }

  /** cos(l) stands for the cosine of 2 pi / 2^l; all that is used of it is the half-angle formula. */
  ghost predicate Cosines(cos: nat -> real, m: nat) {
    cos(2) == 0.0 && forall l: nat :: 2 < l <= m ==> HalfCosine(cos(l), cos(l - 1))
  }

  /** The sine that goes with it: that of the double angle is twice the product of sine and cosine. */
  function Sine(cos: nat -> real, l: nat): real {
    if l <= 2 then 1.0 else HalfSine(Sine(cos, l - 1), cos(l))
  }
  function HalfSine(s: real, h: real): real { if h == 0.0 then 0.0 else s / (2.0 * h) }

  function ComplexRoot(cos: nat -> real, sign: real): Roots<Complex> {
    (l: nat) => if l == 0 then COMPLEX.one
      else if l == 1 then COMPLEX.minusOne else Complex(cos(l), sign * Sine(cos, l))
  }

  predicate OnCircle(c: real, s: real) { c * c + s * s == 1.0 }
  predicate Halves(h: real, t: real, c: real, s: real) { h * h - t * t == c && 2.0 * (h * t) == s }

  lemma HalfAngle(c: real, s: real, h: real)
    requires OnCircle(c, s) && HalfCosine(h, c)
    ensures OnCircle(h, HalfSine(s, h)) && Halves(h, HalfSine(s, h), c, s)
  {
    var t := HalfSine(s, h);
    DoubleSine(s, h, t);
    DoubleSquares(s, h, t);
    NotOpposite(h, c);
    FromSquares(c, s * s, h * h, t * t);
  }

  lemma DoubleSine(s: real, h: real, t: real)
    requires h > 0.0 && t == HalfSine(s, h)
    ensures 2.0 * (h * t) == s
  {
    Quotient(s, 2.0 * h, t);
  }

  lemma DoubleSquares(s: real, h: real, t: real)
    requires h > 0.0 && 2.0 * (h * t) == s
    ensures (2.0 * (h * h)) * (2.0 * (t * t)) == s * s
  {
    Squares(h, t);
  }

  lemma FromSquares(c: real, ss: real, hh: real, tt: real)
    requires c * c + ss == 1.0 && 1.0 + c > 0.0 && 2.0 * hh == 1.0 + c && (2.0 * hh) * (2.0 * tt) == ss
    ensures hh - tt == c && hh + tt == 1.0
  {
    DifferenceOfSquares(c);
    Cancelled(2.0 * hh, 1.0 + c, 2.0 * tt, 1.0 - c, ss);
  }

  lemma Quotient(s: real, d: real, t: real)
    requires d > 0.0 && t == s / d
    ensures d * t == s
  {}

  lemma NotOpposite(h: real, c: real)
    requires HalfCosine(h, c)
    ensures 1.0 + c > 0.0
  {
    ProductIsPositive(2.0 * h, h, 1.0 + c);
  }

  lemma ProductIsPositive(x: real, y: real, z: real)
    requires x > 0.0 && y > 0.0 && z == x * y
    ensures z > 0.0
  {}

  lemma Squares(h: real, t: real)
    ensures (2.0 * (h * h)) * (2.0 * (t * t)) == (2.0 * (h * t)) * (2.0 * (h * t))
  {}

  lemma DifferenceOfSquares(c: real)
    ensures (1.0 + c) * (1.0 - c) == 1.0 - c * c
  {}

  lemma Cancelled(d: real, e: real, x: real, y: real, p: real)
    requires d == e && d > 0.0 && d * x == p && e * y == p
    ensures x == y
  {}

  lemma {:induction false} UnitCircle(cos: nat -> real, m: nat, l: nat)
    requires Cosines(cos, m) && 2 <= l <= m
    ensures OnCircle(cos(l), Sine(cos, l))
    ensures l > 2 ==> Halves(cos(l), Sine(cos, l), cos(l - 1), Sine(cos, l - 1))
    decreases l
  {
    if l > 2 {
      UnitCircle(cos, m, l - 1);
      HalfAngle(cos(l - 1), Sine(cos, l - 1), cos(l));
    } else {
      assert OnCircle(0.0, 1.0);
    }
  }

  /** The complex twiddles are a tower of roots for every size, forward and backward, and undo each other. */
  lemma ComplexTower(cos: nat -> real, m: nat)
    requires Cosines(cos, m)
    ensures IsTower(COMPLEX, ComplexRoot(cos, 1.0), m) && IsTower(COMPLEX, ComplexRoot(cos, -1.0), m)
    ensures COMPLEX.mul(ComplexRoot(cos, -1.0)(m), ComplexRoot(cos, 1.0)(m)) == COMPLEX.one
  {
    RootsAreTower(cos, 1.0, m);
    RootsAreTower(cos, -1.0, m);
    if m >= 2 {
      assert OnCircle(cos(m), Sine(cos, m)) by { UnitCircle(cos, m, m); }
      ConjugateUndoes(cos(m), Sine(cos, m));
    }
  }

  lemma RootsAreTower(cos: nat -> real, sign: real, m: nat)
    requires Cosines(cos, m) && (sign == 1.0 || sign == -1.0)
    ensures IsTower(COMPLEX, ComplexRoot(cos, sign), m)
  {
    forall l: nat | 1 <= l < m ensures Squared(cos, sign, l) {
      if l > 1 { UnitCircle(cos, m, l + 1); }
      RootSquared(cos, sign, l);
    }
    assert ComplexRoot(cos, sign)(0) == COMPLEX.one;
    forall l: nat | 1 <= l < m
      ensures COMPLEX.mul(ComplexRoot(cos, sign)(l + 1), ComplexRoot(cos, sign)(l + 1)) == ComplexRoot(cos, sign)(l) {
      assert Squared(cos, sign, l);
    }
  }

  ghost predicate Squared(cos: nat -> real, sign: real, l: nat) {
    var root := ComplexRoot(cos, sign);
    COMPLEX.mul(root(l + 1), root(l + 1)) == root(l)
  }

  lemma RootSquared(cos: nat -> real, sign: real, l: nat)
    requires l >= 1 && (sign == 1.0 || sign == -1.0) && cos(2) == 0.0
    requires l > 1 ==> Halves(cos(l + 1), Sine(cos, l + 1), cos(l), Sine(cos, l))
    ensures Squared(cos, sign, l)
  {
    SquareOfComplex(cos(l + 1), Sine(cos, l + 1), sign);
    if l == 1 { assert Sine(cos, 2) == 1.0; }
  }

  lemma SquareOfComplex(h: real, t: real, sign: real)
    requires sign == 1.0 || sign == -1.0
    ensures COMPLEX.mul(Complex(h, sign * t), Complex(h, sign * t)) == Complex(h * h - t * t, sign * (2.0 * (h * t)))
  {}

  lemma ConjugateUndoes(c: real, s: real)
    requires OnCircle(c, s)
    ensures COMPLEX.mul(Complex(c, -1.0 * s), Complex(c, 1.0 * s)) == COMPLEX.one
  {}
}
