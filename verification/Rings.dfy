/** Exact arithmetic for the transform: commutative rings, powers and finite sums; complex numbers over the reals. */
module Rings {

  datatype Ring<!C> = Ring(zero: C, one: C, minusOne: C, add: (C, C) -> C, sub: (C, C) -> C, mul: (C, C) -> C)

  ghost predicate Assoc<C(!new)>(r: Ring<C>, a: C, b: C, c: C) {
    && r.mul(r.mul(a, b), c) == r.mul(a, r.mul(b, c))
    && r.add(r.add(a, b), c) == r.add(a, r.add(b, c))
    && r.mul(a, r.add(b, c)) == r.add(r.mul(a, b), r.mul(a, c))
  }

  ghost predicate Comm<C(!new)>(r: Ring<C>, a: C, b: C) {
    && r.mul(a, b) == r.mul(b, a)
    && r.add(a, b) == r.add(b, a)
    && r.sub(a, b) == r.add(a, r.mul(r.minusOne, b))
  }

  ghost predicate Units<C(!new)>(r: Ring<C>, a: C) {
    && r.mul(r.one, a) == a && r.mul(r.zero, a) == r.zero && r.add(r.zero, a) == a
    && r.add(a, r.mul(r.minusOne, a)) == r.zero
  }

  ghost predicate Laws<C(!new)>(r: Ring<C>) {
    && (forall a, b, c :: Assoc(r, a, b, c))
    && (forall a, b :: Comm(r, a, b))
    && (forall a :: Units(r, a))
  }

  // ---------- complex numbers ----------

  datatype Complex = Complex(re: real, im: real)

  const COMPLEX: Ring<Complex> := Ring(
    Complex(0.0, 0.0), Complex(1.0, 0.0), Complex(-1.0, 0.0),
    (a: Complex, b: Complex) => Complex(a.re + b.re, a.im + b.im),
    (a: Complex, b: Complex) => Complex(a.re - b.re, a.im - b.im),
    (a: Complex, b: Complex) => Complex(a.re * b.re - a.im * b.im, a.re * b.im + a.im * b.re))

  /** Complex arithmetic over the reals satisfies the ring laws. */
  lemma ComplexLaws()
    ensures Laws(COMPLEX)
  {
    forall a: Complex, b: Complex, c: Complex ensures Assoc(COMPLEX, a, b, c) { ComplexAssoc(a, b, c); }
    forall a: Complex, b: Complex ensures Comm(COMPLEX, a, b) { ComplexComm(a, b); }
    forall a: Complex ensures Units(COMPLEX, a) { ComplexUnits(a); }
  }

  lemma RealProducts(x: real, y: real, z: real, t: real, u: real, v: real)
    ensures (x * z - y * t) * u - (x * t + y * z) * v == x * (z * u - t * v) - y * (z * v + t * u)
  {}

  lemma ComplexMulAssoc(a: Complex, b: Complex, c: Complex)
    ensures COMPLEX.mul(COMPLEX.mul(a, b), c) == COMPLEX.mul(a, COMPLEX.mul(b, c))
  {
    RealProducts(a.re, a.im, b.re, b.im, c.re, c.im);
    RealProducts(a.re, a.im, b.re, b.im, c.im, -c.re);
  }

  lemma ComplexAssoc(a: Complex, b: Complex, c: Complex)
    ensures Assoc(COMPLEX, a, b, c)
  {
    ComplexMulAssoc(a, b, c);
    ComplexDistributes(a, b, c);
  }

  lemma RealDistributes(x: real, z: real, u: real, y: real, t: real, v: real)
    ensures x * (z + u) - y * (t + v) == (x * z - y * t) + (x * u - y * v)
    ensures x * (z + u) + y * (t + v) == (x * z + y * t) + (x * u + y * v)
  {}

  lemma ComplexDistributes(a: Complex, b: Complex, c: Complex)
    ensures COMPLEX.mul(a, COMPLEX.add(b, c)) == COMPLEX.add(COMPLEX.mul(a, b), COMPLEX.mul(a, c))
  {
    RealDistributes(a.re, b.re, c.re, a.im, b.im, c.im);
    RealDistributes(a.re, b.im, c.im, a.im, b.re, c.re);
  }

  lemma ComplexComm(a: Complex, b: Complex)
    ensures Comm(COMPLEX, a, b)
  {
    assert COMPLEX.mul(COMPLEX.minusOne, b) == Complex(-b.re, -b.im);
  }

  lemma ComplexUnits(a: Complex)
    ensures Units(COMPLEX, a)
  {
    assert COMPLEX.mul(COMPLEX.minusOne, a) == Complex(-a.re, -a.im);
  }

  // ---------- powers ----------

  function Pow<C>(r: Ring<C>, z: C, k: nat): C {
    if k == 0 then r.one else r.mul(Pow(r, z, k - 1), z)
  }

  lemma TimesOne<C(!new)>(r: Ring<C>, a: C)
    requires Laws(r)
    ensures r.mul(a, r.one) == a && r.mul(r.one, a) == a
  {
    assert Units(r, a) && Comm(r, a, r.one);
  }

  lemma {:induction false} PowAdd<C(!new)>(r: Ring<C>, z: C, j: nat, k: nat)
    requires Laws(r)
    ensures Pow(r, z, j + k) == r.mul(Pow(r, z, j), Pow(r, z, k))
    decreases k
  {
    if k == 0 {
      TimesOne(r, Pow(r, z, j));
    } else {
      PowAdd(r, z, j, k - 1);
      assert Assoc(r, Pow(r, z, j), Pow(r, z, k - 1), z);
    }
  }

  lemma {:induction false} PowOfOne<C(!new)>(r: Ring<C>, z: C, k: nat)
    requires Laws(r) && z == r.one
    ensures Pow(r, z, k) == r.one
  {
    if k > 0 {
      PowOfOne(r, z, k - 1);
      TimesOne(r, z);
    }
  }

  lemma {:induction false} PowOfPow<C(!new)>(r: Ring<C>, z: C, j: nat, k: nat, n: nat)
    requires Laws(r) && n == j * k
    ensures Pow(r, z, n) == Pow(r, Pow(r, z, j), k)
    decreases k
  {
    if k > 0 {
      assert n - j == j * (k - 1);
      PowOfPow(r, z, j, k - 1, n - j);
      PowAdd(r, z, n - j, j);
    }
  }

  lemma {:induction false} PowOfProduct<C(!new)>(r: Ring<C>, y: C, z: C, k: nat)
    requires Laws(r)
    ensures Pow(r, r.mul(y, z), k) == r.mul(Pow(r, y, k), Pow(r, z, k))
  {
    if k == 0 {
      TimesOne(r, r.one);
    } else {
      PowOfProduct(r, y, z, k - 1);
      Interchange(r, Pow(r, y, k - 1), Pow(r, z, k - 1), y, z);
    }
  }

  lemma Interchange<C(!new)>(r: Ring<C>, a: C, b: C, c: C, d: C)
    requires Laws(r)
    ensures r.mul(r.mul(a, b), r.mul(c, d)) == r.mul(r.mul(a, c), r.mul(b, d))
  {
    assert Assoc(r, a, b, r.mul(c, d)) && Assoc(r, b, c, d) && Comm(r, b, c);
    assert Assoc(r, c, b, d) && Assoc(r, a, c, r.mul(b, d));
  }

  // ---------- sums ----------

  /** f(0) + ... + f(n-1) */
  function Sum<C>(r: Ring<C>, f: nat -> C, n: nat): C {
    if n == 0 then r.zero else r.add(Sum(r, f, n - 1), f(n - 1))
  }

  lemma {:induction false} SumEqual<C>(r: Ring<C>, f: nat -> C, g: nat -> C, n: nat)
    requires forall j: nat :: j < n ==> f(j) == g(j)
    ensures Sum(r, f, n) == Sum(r, g, n)
  {
    if n > 0 { SumEqual(r, f, g, n - 1); }
  }

  lemma Swap4<C(!new)>(r: Ring<C>, a: C, b: C, c: C, d: C)
    requires Laws(r)
    ensures r.add(r.add(a, b), r.add(c, d)) == r.add(r.add(a, c), r.add(b, d))
  {
    assert Assoc(r, a, b, r.add(c, d)) && Assoc(r, b, c, d) && Comm(r, b, c);
    assert Assoc(r, c, b, d) && Assoc(r, a, c, r.add(b, d));
  }

  lemma PlusZero<C(!new)>(r: Ring<C>, a: C)
    requires Laws(r)
    ensures r.add(a, r.zero) == a && r.add(r.zero, a) == a
    ensures r.mul(a, r.zero) == r.zero && r.mul(r.zero, a) == r.zero
  {
    assert Units(r, a) && Comm(r, a, r.zero);
  }

  lemma {:induction false} SumAdd<C(!new)>(r: Ring<C>, f: nat -> C, g: nat -> C, h: nat -> C, n: nat)
    requires Laws(r) && forall j: nat :: j < n ==> h(j) == r.add(f(j), g(j))
    ensures Sum(r, h, n) == r.add(Sum(r, f, n), Sum(r, g, n))
  {
    if n == 0 {
      PlusZero(r, r.zero);
    } else {
      SumAdd(r, f, g, h, n - 1);
      Swap4(r, Sum(r, f, n - 1), Sum(r, g, n - 1), f(n - 1), g(n - 1));
    }
  }

  lemma {:induction false} SumScaled<C(!new)>(r: Ring<C>, c: C, f: nat -> C, g: nat -> C, n: nat)
    requires Laws(r) && forall j: nat :: j < n ==> g(j) == r.mul(c, f(j))
    ensures Sum(r, g, n) == r.mul(c, Sum(r, f, n))
  {
    if n == 0 {
      PlusZero(r, c);
    } else {
      SumScaled(r, c, f, g, n - 1);
      assert Assoc(r, c, Sum(r, f, n - 1), f(n - 1));
    }
  }

  /** The even and the odd terms. */
  lemma {:induction false} SumEvenOdd<C(!new)>(r: Ring<C>, f: nat -> C, e: nat -> C, o: nat -> C, n: nat)
    requires Laws(r) && forall j: nat :: j < n ==> e(j) == f(2 * j) && o(j) == f(2 * j + 1)
    ensures Sum(r, f, 2 * n) == r.add(Sum(r, e, n), Sum(r, o, n))
  {
    if n == 0 {
      PlusZero(r, r.zero);
    } else {
      SumEvenOdd(r, f, e, o, n - 1);
      assert e(n - 1) == f(2 * (n - 1)) && o(n - 1) == f(2 * (n - 1) + 1);
      var s := Sum(r, f, 2 * n - 2);
      assert Sum(r, f, 2 * n - 1) == r.add(s, e(n - 1));
      assert Sum(r, f, 2 * n) == r.add(r.add(s, e(n - 1)), o(n - 1));
      assert Assoc(r, s, e(n - 1), o(n - 1));
      Swap4(r, Sum(r, e, n - 1), Sum(r, o, n - 1), e(n - 1), o(n - 1));
    }
  }

  /** The first and the second half. */
  lemma {:induction false} SumHalves<C(!new)>(r: Ring<C>, f: nat -> C, g: nat -> C, m: nat, n: nat)
    requires Laws(r) && forall j: nat :: j < n ==> g(j) == f(m + j)
    ensures Sum(r, f, m + n) == r.add(Sum(r, f, m), Sum(r, g, n))
  {
    if n == 0 {
      PlusZero(r, Sum(r, f, m));
    } else {
      SumHalves(r, f, g, m, n - 1);
      assert Assoc(r, Sum(r, f, m), Sum(r, g, n - 1), g(n - 1));
    }
  }

  lemma {:induction false} SumZero<C(!new)>(r: Ring<C>, f: nat -> C, n: nat)
    requires Laws(r) && forall j: nat :: j < n ==> f(j) == r.zero
    ensures Sum(r, f, n) == r.zero
  {
    if n > 0 {
      SumZero(r, f, n - 1);
      PlusZero(r, r.zero);
    }
  }

  /** Only term `i` of the sum is not zero. */
  lemma {:induction false} SumSingle<C(!new)>(r: Ring<C>, f: nat -> C, n: nat, i: nat)
    requires Laws(r) && i < n && forall j: nat :: j < n && j != i ==> f(j) == r.zero
    ensures Sum(r, f, n) == f(i)
  {
    if i == n - 1 { SumZero(r, f, n - 1); } else { SumSingle(r, f, n - 1, i); }
    PlusZero(r, f(i));
  }

  function Row<C>(f: (nat, nat) -> C, j: nat): nat -> C { (k: nat) => f(j, k) }
  function Column<C>(f: (nat, nat) -> C, k: nat): nat -> C { (j: nat) => f(j, k) }
  function RowSums<C>(r: Ring<C>, f: (nat, nat) -> C, n: nat): nat -> C { (j: nat) => Sum(r, Row(f, j), n) }
  function ColumnSums<C>(r: Ring<C>, f: (nat, nat) -> C, m: nat): nat -> C { (k: nat) => Sum(r, Column(f, k), m) }

  /** The order of two summations does not matter. */
  lemma {:induction false} SumSwap<C(!new)>(r: Ring<C>, f: (nat, nat) -> C, m: nat, n: nat)
    requires Laws(r)
    ensures Sum(r, RowSums(r, f, n), m) == Sum(r, ColumnSums(r, f, m), n)
    decreases m
  {
    if m == 0 {
      SumZero(r, ColumnSums(r, f, m), n);
    } else {
      SumSwap(r, f, m - 1, n);
      SumAdd(r, ColumnSums(r, f, m - 1), Row(f, m - 1), ColumnSums(r, f, m), n);
    }
  }
}
