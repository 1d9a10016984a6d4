/** The transform as it runs on an array, proved to compute the defining sums, and its inverse. */
module FFTInPlace {
  import opened Basics
  import opened Rings
  import opened FFT

  /** `twiddle(len)` is exp(-+2 pi i / len), as the code computes it from the angle. */
  type Twiddles<C> = nat -> C

  function RootsOf<C>(twiddle: Twiddles<C>): Roots<C> { (l: nat) => twiddle(Exp2(l)) }

  // ---------- bit reversal ----------

  /** After the pairs whose smaller index is below `i` have been exchanged. */
  ghost predicate Exchanged<C(!new)>(now: seq<C>, before: seq<C>, m: nat, i: nat) {
    && |now| == |before| == Exp2(m)
    && forall p :: 0 <= p < |now| ==> now[p] == before[if p < i || Rev(m, p) < i then Rev(m, p) else p]
  }

  lemma ExchangeOne<C(!new)>(now: seq<C>, before: seq<C>, m: nat, i: nat)
    requires Exchanged(now, before, m, i) && i < |now|
    ensures Rev(m, i) < |now| && Exchanged(Exchange(now, i, Rev(m, i)), before, m, i + 1)
  {
    var j := Rev(m, i);
    RevInvolution(m, i);
    var next := Exchange(now, i, j);
    forall p | 0 <= p < |next| ensures next[p] == before[if p < i + 1 || Rev(m, p) < i + 1 then Rev(m, p) else p] {
      RevInvolution(m, p);
      assert now[p] == before[if p < i || Rev(m, p) < i then Rev(m, p) else p];
      if p == i || p == j {
        assert Rev(m, p) == i + j - p && (i < j ==> now[i] == before[i] && now[j] == before[j]);
      } else {
        assert next[p] == now[p] && Rev(m, p) != i;
      }
    }
  }

  function Exchange<C>(s: seq<C>, i: nat, j: nat): (r: seq<C>)
    requires i < |s| && j < |s|
    ensures |r| == |s|
  {
    if i < j then s[i := s[j]][j := s[i]] else s
  }

  /** The reverse-carry counter: clears leading ones from the top mask down, then sets a bit. */
  method NextReversed(j0: nat, n: nat, ghost m: nat, ghost i: nat) returns (j: nat)
    requires m > 0 && n == Exp2(m) && i + 1 < n && j0 == Rev(m, i)
    ensures j == Rev(m, i + 1)
  {
    j := j0;
    var bit := n / 2;
    ghost var k := m - 1;
    CarryIsNextRev(m, i);
    while BitSet(j, bit)
      invariant 0 <= k && bit == Exp2(k) && Carry(j, k) == Rev(m, i + 1)
      decreases k
    {
      if k == 0 { RevInvolution(m, i + 1); RevZero(m); }
      j := Flip(j, bit);
      bit := bit / 2;
      k := k - 1;
    }
    j := Flip(j, bit);
  }

  lemma {:induction false} RevZero(m: nat)
    ensures Rev(m, 0) == 0
  {
    if m > 0 { RevZero(m - 1); }
  }

  lemma NothingExchanged<C(!new)>(before: seq<C>, m: nat)
    requires |before| == Exp2(m)
    ensures Exchanged(before, before, m, 1)
  {
    RevZero(m);
    forall p | 0 <= p < |before| && (p < 1 || Rev(m, p) < 1) ensures p == 0 { RevInvolution(m, p); }
  }

  /** The conditional swap. */
  method ExchangePair<C(!new)>(data: array<C>, i: nat, j: nat)
    requires i < data.Length && j < data.Length
    modifies data
    ensures data[..] == Exchange(old(data[..]), i, j)
  {
    if i < j { data[i], data[j] := data[j], data[i]; }
  }

  method ReverseBits<C(!new)>(data: array<C>, ghost m: nat)
    requires data.Length == Exp2(m)
    modifies data
    ensures forall p :: 0 <= p < data.Length ==> data[p] == old(data[Rev(m, p)])
  {
    var n := data.Length;
    ghost var before := data[..];
    var j := 0;
    var i := 1;
    RevZero(m);
    NothingExchanged(before, m);
    while i < n
      invariant 1 <= i <= n && j == Rev(m, i - 1)
      invariant Exchanged(data[..], before, m, i)
    {
      j := NextReversed(j, n, m, i - 1);
      ExchangeOne(data[..], before, m, i);
      ExchangePair(data, i, j);
      i := i + 1;
    }
    forall p | 0 <= p < n ensures data[p] == before[Rev(m, p)] { assert data[..][p] == data[p]; }
  }

  // ---------- butterflies ----------

  /** Entry start + k is output `k` of the transform of x[off], x[off + stride], ... (2^l entries). */
  ghost predicate Holds<C(!new)>(r: Ring<C>, y: seq<C>, start: nat, k: nat, x: seq<C>, off: nat, stride: nat, l: nat,
          root: Roots<C>) {
    start + k < |y| && y[start + k] == Dft(r, x, off, stride, l, root, k)
  }

  /** The 2^l entries from `start` are that transform. */
  ghost predicate Block<C(!new)>(r: Ring<C>, y: seq<C>, start: nat, x: seq<C>, off: nat, stride: nat, l: nat,
          root: Roots<C>) {
    forall k: nat :: k < Exp2(l) ==> Holds(r, y, start, k, x, off, stride, l, root)
  }

  ghost predicate SameOutside<C(!new)>(y: seq<C>, z: seq<C>, lo: nat, hi: nat) {
    |y| == |z| && forall p :: 0 <= p < |y| && !(lo <= p < hi) ==> z[p] == y[p]
  }

  /** The first `k` butterflies of a block are done. */
  ghost predicate Partial<C(!new)>(r: Ring<C>, y: seq<C>, z: seq<C>, start: nat, half: nat, k: nat,
                                   x: seq<C>, off: nat, stride: nat, l1: nat, root: Roots<C>) {
    && |y| == |z|
    && (forall p ::
      0 <= p < |y| && !(start <= p < start + k) && !(start + half <= p < start + half + k) ==> z[p] == y[p])
    && (forall q: nat :: q < k || half <= q < half + k ==> Holds(r, z, start, q, x, off, stride, l1, root))
  }

  lemma PartialStep<C(!new)>(r: Ring<C>, y: seq<C>, z: seq<C>, start: nat, half: nat, k: nat,
                             x: seq<C>, off: nat, stride: nat, l1: nat, root: Roots<C>, a: C, b: C)
    requires Partial(r, y, z, start, half, k, x, off, stride, l1, root) && k < half && start + half + half <= |y|
    requires a == Dft(r, x, off, stride, l1, root, k) && b == Dft(r, x, off, stride, l1, root, k + half)
    ensures Partial(r, y, z[start + k := a][start + k + half := b], start, half, k + 1, x, off, stride, l1, root)
  {
    var z' := z[start + k := a][start + k + half := b];
    forall q: nat | q < k + 1 || half <= q < half + k + 1 ensures Holds(r, z', start, q, x, off, stride, l1, root) {
      if q != k && q != k + half { assert Holds(r, z, start, q, x, off, stride, l1, root); }
    }
  }

  /** Two neighbouring transforms of size 2^l become one of size 2^(l+1). */
  method MergeBlocks<C(!new)>(r: Ring<C>, data: array<C>, i: nat, half: nat, wlen: C,
                              ghost x: seq<C>, ghost off: nat, ghost stride: nat, ghost l: nat, ghost root: Roots<C>,
                              ghost m: nat)
    requires Laws(r) && IsTower(r, root, m) && l + 1 <= m && half == Exp2(l) && wlen == root(l + 1)
    requires i + half + half <= data.Length
    requires Block(r, data[..], i, x, off, 2 * stride, l, root)
    requires Block(r, data[..], i + half, x, off + stride, 2 * stride, l, root)
    modifies data
    ensures Block(r, data[..], i, x, off, stride, l + 1, root)
    ensures SameOutside(old(data[..]), data[..], i, i + half + half)
  {
    var w := r.one;
    var k := 0;
    ghost var before := data[..];
    while k < half
      invariant 0 <= k <= half && w == Pow(r, root(l + 1), k)
      invariant Partial(r, before, data[..], i, half, k, x, off, stride, l + 1, root)
    {
      ghost var now := data[..];
      var u := data[i + k];
      var v := r.mul(data[i + k + half], w);
      assert Holds(r, before, i, k, x, off, 2 * stride, l, root);
      assert Holds(r, before, i + half, k, x, off + stride, 2 * stride, l, root);
      assert now[i + k] == before[i + k] && now[i + half + k] == before[i + half + k];
      Butterfly(r, x, off, stride, l, root, m, k);
      PartialStep(r, before, now, i, half, k, x, off, stride, l + 1, root, r.add(u, v), r.sub(u, v));
      data[i + k] := r.add(u, v);
      data[i + k + half] := r.sub(u, v);
      assert data[..] == now[i + k := r.add(u, v)][i + k + half := r.sub(u, v)];
      w := r.mul(w, wlen);
      k := k + 1;
    }
  }

  /** Where block `b` of size 2^l starts. */
  function Start(b: nat, l: nat): nat {
    if b == 0 then 0 else Start(b - 1, l) + Exp2(l)
  }

  lemma {:induction false} StartDoubled(b: nat, l: nat)
    ensures Start(2 * b, l) == Start(b, l + 1)
  {
    if b > 0 {
      StartDoubled(b - 1, l);
      assert Start(2 * b, l) == Start(2 * b - 1, l) + Exp2(l) == Start(2 * b - 2, l) + Exp2(l) + Exp2(l);
    }
  }

  lemma {:induction false} StartApart(c: nat, b: nat, l: nat)
    requires c < b
    ensures Start(c, l) + Exp2(l) <= Start(b, l)
  {
    if c < b - 1 { StartApart(c, b - 1, l); }
  }

  lemma {:induction false} StartAtEnd(h: nat, l: nat)
    ensures Start(Exp2(h), l) == Exp2(h + l)
    decreases h
  {
    if h == 0 {
      assert Start(1, l) == Start(0, l) + Exp2(l);
    } else {
      StartDoubled(Exp2(h - 1), l);
      StartAtEnd(h - 1, l + 1);
    }
  }

  /** Block `b` among 2^h blocks of size 2^l: which entries of `x` it transforms. */
  ghost predicate StageBlock<C(!new)>(r: Ring<C>, y: seq<C>, x: seq<C>, l: nat, h: nat, b: nat, root: Roots<C>) {
    b < Exp2(h) && Block(r, y, Start(b, l), x, Rev(h, b), Exp2(h), l, root)
  }

  /** The data are 2^h transforms of size 2^l. */
  ghost predicate Stage<C(!new)>(r: Ring<C>, y: seq<C>, x: seq<C>, l: nat, h: nat, root: Roots<C>) {
    forall b: nat :: b < Exp2(h) ==> StageBlock(r, y, x, l, h, b, root)
  }

  lemma {:induction false} StartOfSize1(b: nat)
    ensures Start(b, 0) == b
  {
    if b > 0 { StartOfSize1(b - 1); }
  }

  lemma FirstStage<C(!new)>(r: Ring<C>, y: seq<C>, x: seq<C>, m: nat, root: Roots<C>)
    requires Laws(r) && |x| == |y| == Exp2(m) && forall p :: 0 <= p < |y| ==> y[p] == x[Rev(m, p)]
    ensures Stage(r, y, x, 0, m, root)
  {
    forall b: nat | b < Exp2(m) ensures StageBlock(r, y, x, 0, m, b, root) {
      var off, stride := Rev(m, b), Exp2(m);
      var f := Term(r, x, off, stride, root(0), 0);
      StartOfSize1(b);
      assert f(0) == r.mul(At(r, x, off, stride, 0), Pow(r, root(0), 0 * 0));
      assert At(r, x, off, stride, 0) == x[off] by { assert stride * 0 == 0; }
      TimesOne(r, x[off]);
      PlusZero(r, x[off]);
      assert Sum(r, f, 0) == r.zero && Sum(r, f, 1) == r.add(Sum(r, f, 0), f(0));
      assert Holds(r, y, b, 0, x, off, stride, 0, root);
    }
  }

  lemma LastStage<C(!new)>(r: Ring<C>, y: seq<C>, x: seq<C>, m: nat, root: Roots<C>)
    requires |x| == |y| == Exp2(m) && Stage(r, y, x, m, 0, root)
    ensures IsDft(r, y, x, root(m))
  {
    assert StageBlock(r, y, x, m, 0, 0, root);
    forall k: nat | k < |y| ensures y[k] == Sum(r, Products(r, x, root(m), k), |x|) {
      assert Holds(r, y, 0, k, x, 0, 1, m, root);
      var f, g := Term(r, x, 0, 1, root(m), k), Products(r, x, root(m), k);
      forall j: nat | j < |x| ensures f(j) == g(j) { assert At(r, x, 0, 1, j) == x[j]; }
      SumEqual(r, f, g, |x|);
    }
  }

  lemma BlockKept<C(!new)>(r: Ring<C>, y: seq<C>, z: seq<C>, start: nat, x: seq<C>, off: nat, stride: nat, l: nat,
          root: Roots<C>, lo: nat, hi: nat)
    requires Block(r, y, start, x, off, stride, l, root) && SameOutside(y, z, lo, hi)
    requires start + Exp2(l) <= lo || hi <= start
    ensures Block(r, z, start, x, off, stride, l, root)
  {
    forall k: nat | k < Exp2(l) ensures Holds(r, z, start, k, x, off, stride, l, root) {
      assert Holds(r, y, start, k, x, off, stride, l, root);
    }
  }

  /** During a stage: the first `b` blocks of the larger size are done, the rest are still halves. */
  ghost predicate Merging<C(!new)>(r: Ring<C>, y: seq<C>, x: seq<C>, l: nat, h: nat, l1: nat, h1: nat, b: nat,
          root: Roots<C>) {
    && (forall c: nat :: c < b ==> StageBlock(r, y, x, l1, h1, c, root))
    && (forall c: nat :: 2 * b <= c < Exp2(h) ==> StageBlock(r, y, x, l, h, c, root))
  }

  /** The halves of block `b`. */
  lemma Halves(l: nat, h1: nat, b: nat)
    requires b < Exp2(h1)
    ensures 2 * b + 1 < Exp2(h1 + 1)
    ensures Rev(h1 + 1, 2 * b) == Rev(h1, b) && Rev(h1 + 1, 2 * b + 1) == Rev(h1, b) + Exp2(h1)
    ensures Start(2 * b, l) == Start(b, l + 1) && Start(2 * b + 1, l) == Start(b, l + 1) + Exp2(l)
  {
    assert (2 * b) % 2 == 0 && (2 * b) / 2 == b && (2 * b + 1) % 2 == 1 && (2 * b + 1) / 2 == b;
    StartDoubled(b, l);
    assert Start(2 * b + 1, l) == Start(2 * b, l) + Exp2(l);
  }

  lemma MergedOne<C(!new)>(r: Ring<C>, y: seq<C>, z: seq<C>, x: seq<C>, l: nat, h: nat, l1: nat, h1: nat, b: nat,
          root: Roots<C>)
    requires l1 == l + 1 && h == h1 + 1 && b < Exp2(h1) && Merging(r, y, x, l, h, l1, h1, b, root)
    requires SameOutside(y, z, Start(b, l1), Start(b, l1) + Exp2(l1)) && StageBlock(r, z, x, l1, h1, b, root)
    ensures Merging(r, z, x, l, h, l1, h1, b + 1, root)
  {
    var lo, hi := Start(b, l1), Start(b, l1) + Exp2(l1);
    forall c: nat | c < b + 1 ensures StageBlock(r, z, x, l1, h1, c, root) {
      if c < b {
        assert StageBlock(r, y, x, l1, h1, c, root);
        StartApart(c, b, l1);
        BlockKept(r, y, z, Start(c, l1), x, Rev(h1, c), Exp2(h1), l1, root, lo, hi);
      }
    }
    forall c: nat | 2 * (b + 1) <= c < Exp2(h) ensures StageBlock(r, z, x, l, h, c, root) {
      assert StageBlock(r, y, x, l, h, c, root);
      Halves(l, h1, b);
      StartApart(2 * b + 1, c, l);
      BlockKept(r, y, z, Start(c, l), x, Rev(h, c), Exp2(h), l, root, lo, hi);
    }
  }

  /** One pair of blocks of size 2^l becomes a block of twice the size. */
  method MergePair<C(!new)>(r: Ring<C>, data: array<C>, i: nat, len: nat, wlen: C,
                            ghost x: seq<C>, ghost l: nat, ghost h1: nat, ghost b: nat, ghost root: Roots<C>)
    requires Laws(r) && IsTower(r, root, l + 1 + h1) && len == Exp2(l + 1) && wlen == root(l + 1)
    requires b < Exp2(h1) && i == Start(b, l + 1) && i + len <= data.Length
    requires Merging(r, data[..], x, l, h1 + 1, l + 1, h1, b, root)
    modifies data
    ensures Merging(r, data[..], x, l, h1 + 1, l + 1, h1, b + 1, root)
  {
    Halves(l, h1, b);
    assert StageBlock(r, data[..], x, l, h1 + 1, 2 * b, root) && StageBlock(r, data[..], x, l, h1 + 1, 2 * b + 1, root);
    ghost var before := data[..];
    MergeBlocks(r, data, i, len / 2, wlen, x, Rev(h1, b), Exp2(h1), l, root, l + 1 + h1);
    assert StageBlock(r, data[..], x, l + 1, h1, b, root);
    MergedOne(r, before, data[..], x, l, h1 + 1, l + 1, h1, b, root);
  }

  /** One pass over the data: all blocks of size 2^l are merged in pairs. */
  method MergeAll<C(!new)>(r: Ring<C>, data: array<C>, len: nat, wlen: C,
                           ghost x: seq<C>, ghost l: nat, ghost h1: nat, ghost root: Roots<C>)
    requires Laws(r) && IsTower(r, root, l + 1 + h1) && len == Exp2(l + 1) && wlen == root(l + 1)
    requires data.Length == Exp2(l + 1 + h1) && Stage(r, data[..], x, l, h1 + 1, root)
    modifies data
    ensures Stage(r, data[..], x, l + 1, h1, root)
  {
    var n, i := data.Length, 0;
    ghost var b := 0;
    StartAtEnd(h1, l + 1);
    while i < n
      invariant 0 <= b <= Exp2(h1) && i == Start(b, l + 1)
      invariant Merging(r, data[..], x, l, h1 + 1, l + 1, h1, b, root)
      decreases Exp2(h1) - b
    {
      if b < Exp2(h1) { StartApart(b, Exp2(h1), l + 1); }
      MergePair(r, data, i, len, wlen, x, l, h1, b, root);
      i := i + len;
      b := b + 1;
    }
    if b < Exp2(h1) { StartApart(b, Exp2(h1), l + 1); }
  }

  lemma {:induction false} Exp2Grows(a: nat, b: nat)
    requires a < b
    ensures Exp2(a) < Exp2(b)
  {
    if a < b - 1 { Exp2Grows(a, b - 1); }
  }

  /** All stages: lengths 2, 4, ..., n. */
  method MergeStages<C(!new)>(r: Ring<C>, data: array<C>, twiddle: Twiddles<C>, ghost x: seq<C>, ghost root: Roots<C>,
          ghost m: nat)
    requires Laws(r) && data.Length == Exp2(m) && IsTower(r, root, m) && root == RootsOf(twiddle)
    requires Stage(r, data[..], x, 0, m, root)
    modifies data
    ensures Stage(r, data[..], x, m, 0, root)
  {
    var n, len := data.Length, 2;
    ghost var l, h := 0, m;
    assert Exp2(1) == 2 * Exp2(0) == 2;
    if m > 1 { Exp2Grows(1, m); }
    while len <= n
      invariant l + h == m && len == Exp2(l + 1) && Stage(r, data[..], x, l, h, root)
      invariant h == 0 ==> n < len
      invariant h > 0 ==> len <= n
      decreases h
    {
      MergeAll(r, data, len, twiddle(len), x, l, h - 1, root);
      len := 2 * len;
      l, h := l + 1, h - 1;
      if h > 1 { Exp2Grows(l + 1, m); }
    }
  }

  /** `sapf::fft`: for every power-of-two size, the array ends up holding its discrete Fourier transform. */
  method Fft<C(!new)>(r: Ring<C>, data: array<C>, twiddle: Twiddles<C>, ghost m: nat)
    requires Laws(r) && data.Length == Exp2(m) && IsTower(r, RootsOf(twiddle), m)
    modifies data
    ensures IsDft(r, data[..], old(data[..]), twiddle(data.Length))
  {
    ghost var x, root := data[..], RootsOf(twiddle);
    ReverseBits(data, m);
    FirstStage(r, data[..], x, m, root);
    MergeStages(r, data, twiddle, x, root, m);
    LastStage(r, data[..], x, m, root);
  }
}
