/**
  Nothing lies inside a missing element, and a scalar is the same however deep it is indexed: unless
  the label at a path is that of a list, it is the label at every longer path.
 */
module LazyPaths {
  import opened Basics
  import opened LazyLists

  predicate Stays<A(==)>(l: Label<A>, m: Label<A>) { l.Nest? || m == l }

  ghost predicate Closed<A>(t: seq<Label<A>>) { forall d, e :: 0 <= d <= e < |t| ==> Stays(t[d], t[e]) }

  ghost predicate Uniform<A>(t: seq<Label<A>>) {
    forall d, e :: 0 <= d < |t| && 0 <= e < |t| ==> t[d].Leaf? && t[e] == t[d]
  }

  /** Beside a scalar, linking is plain combination. */
  lemma {:induction false} LinkScalar<A>(op: Op<A>, aScalar: bool, bScalar: bool, a: seq<Label<A>>, b: seq<Label<A>>)
    requires |a| == |b| > 0
    requires (aScalar && Uniform(a) && Closed(b)) || (bScalar && Uniform(b) && Closed(a))
    ensures LinkLabel(op, aScalar, bScalar, a, b) == Combine(op, a[|a| - 1], b[|b| - 1])
    decreases |a|
  {
    if |a| > 1 && !a[0].Absent? && !b[0].Absent? {
      LinkScalar(op, a[0].Leaf?, b[0].Leaf?, a[1..], b[1..]);
    }
  }

  lemma {:induction false} LinkClosed<A>(op: Op<A>, aScalar: bool, bScalar: bool, a: seq<Label<A>>, b: seq<Label<A>>,
          c: nat)
    requires |a| == |b| > c && Closed(a) && Closed(b)
    ensures Stays(LinkLabel(op, aScalar, bScalar, a[..c + 1], b[..c + 1]), LinkLabel(op, aScalar, bScalar, a, b))
    decreases c
  {
    if a[0].Absent? || b[0].Absent? {
      assert Stays(a[c], a[|a| - 1]) && Stays(b[c], b[|b| - 1]);
    } else if c > 0 {
      assert a[..c + 1][1..] == a[1..][..c] && b[..c + 1][1..] == b[1..][..c];
      LinkClosed(op, a[0].Leaf?, b[0].Leaf?, a[1..], b[1..], c - 1);
    } else if a[0].Leaf? && b[0].Leaf? && |a| > 1 {
      assert forall d :: 0 <= d < |a| ==> Stays(a[0], a[d]) && Stays(b[0], b[d]);
      LinkScalar(op, true, true, a[1..], b[1..]);
    }
  }

  lemma {:induction false} ObsClosed<A(!new)>(h: Graph<A>, v: V<A>, p: Path, c: nat)
    requires WF(h) && Valid(h, v) && c <= |p|
    ensures Stays(Obs(h, v, p[..c]), Obs(h, v, p))
    decreases 2 * |p|, 0, 0, 0
  {
    if v.Ref? && c > 0 {
      assert p[..c][1..] == p[1..][..c - 1];
      AtClosed(h, v.id, p[0], p[1..], c - 1);
    }
  }

  lemma {:induction false} AtClosed<A(!new)>(h: Graph<A>, n: nat, i: nat, p: Path, c: nat)
    requires WF(h) && n < |h.cells| && c <= |p|
    ensures Stays(At(h, n, i, p[..c]), At(h, n, i, p))
    decreases 2 * |p| + 1, h.cells[n].level, |h.cells| - n + 4, 0
  {
    assert CellOk(h, n);
    match h.cells[n].body
    case Thunk(g) =>
      assert GenWaits(h, g);
      if !h.gens[g].done { GenClosed(h, h.gens[g], i, p, c); }
    case Filled(items, next) =>
      if i < |items| { ObsClosed(h, items[i], p, c); }
      else if next.To? { AtClosed(h, next.id, i - |items|, p, c); }
  }

  lemma {:induction false} InClosed<A(!new)>(h: Graph<A>, a: In<A>, i: nat, p: Path, c: nat, level: nat)
    requires WF(h) && InOk(h, a, level) && c <= |p|
    ensures Stays(InAt(h, a, i, p[..c], level), InAt(h, a, i, p, level))
    decreases 2 * |p| + 1, if a.Cursor? then h.cells[a.id].level else 0, if a.Cursor? then |h.cells| + 6 else 0, 0
  {
    match a
    case Const(v) => ObsClosed(h, v, p, c);
    case Cursor(n, off) => AtClosed(h, n, off + i, p, c);
    case Spent =>
  }

  lemma {:induction false} TrailClosed<A(!new)>(h: Graph<A>, a: In<A>, i: nat, p: Path, level: nat)
    requires WF(h) && InOk(h, a, level)
    ensures Closed(InTrail(h, a, i, p, level))
    decreases 2 * |p| + 1, level, 0, 1
  {
    var t := InTrail(h, a, i, p, level);
    forall d, e | 0 <= d <= e < |t| ensures Stays(t[d], t[e]) {
      assert p[..e][..d] == p[..d];
      InClosed(h, a, i, p[..e], d, level);
    }
  }

  lemma ValueTrailClosed<A(!new)>(h: Graph<A>, v: V<A>, p: Path)
    requires WF(h) && Valid(h, v)
    ensures Closed(Trail(h, v, p))
  {
    var t := Trail(h, v, p);
    forall d, e | 0 <= d <= e < |t| ensures Stays(t[d], t[e]) {
      assert p[..e][..d] == p[..d];
      ObsClosed(h, v, p[..e], d);
    }
  }

  lemma {:induction false} GenClosed<A(!new)>(h: Graph<A>, g: Gen<A>, i: nat, p: Path, c: nat)
    requires WF(h) && GenOk(h, g) && c <= |p|
    ensures Stays(GenAt(h, g, i, p[..c]), GenAt(h, g, i, p))
    decreases 2 * |p| + 1, g.level, 3, 0
  {
    forall j, k | 0 <= j < |g.ins| && 0 <= k <= i
      ensures Stays(InAt(h, g.ins[j], k, p[..c], g.level), InAt(h, g.ins[j], k, p, g.level)) {
      InClosed(h, g.ins[j], k, p, c, g.level);
    }
    forall v: V<A> | Valid(h, v) ensures Stays(Obs(h, v, p[..c]), Obs(h, v, p)) { ObsClosed(h, v, p, c); }
    match g.kind
    case Unary(_) =>
    case Binary(_) =>
    case Linked(op) => LinkedClosed(h, g, i, p, c);
    case Scan(op, acc) => ScanClosed(h, op, acc, g.ins[0], i, p, c, g.level);
    case IScan(op, z, once) =>
      if !once || i > 0 { ScanClosed(h, op, Some(z), g.ins[0], if once then i - 1 else i, p, c, g.level); }
    case Pairs(_, _) =>
    case IPairs(_, _, _) =>
    case Mapper(f) =>
      var ls, ms := InRow(h, g.ins, i, p[..c], g.level), InRow(h, g.ins, i, p, g.level);
      forall j | 0 <= j < |ls| ensures Stays(ls[j], ms[j]) {
        assert Stays(InAt(h, g.ins[j], i, p[..c], g.level), InAt(h, g.ins[j], i, p, g.level));
      }
      RowCloses(f, ls, ms);
    case Series(op, z, step) => SeriesClosed(h, op, z, step, i, p, c);
    case Each(f, masks, bit, below) =>
      forall j, q: Path, d: nat | 0 <= j < |g.ins| && |q| <= |p| && d <= |q|
        ensures Stays(InAt(h, g.ins[j], i, q[..d], g.level), InAt(h, g.ins[j], i, q, g.level)) {
        InClosed(h, g.ins[j], i, q, d, g.level);
      }
      EachClosed(h, f, View(g.ins, i, NoPaths(|g.ins|), g.level), masks, bit, below, p, c, |p|);
  }

  lemma RowCloses<A>(f: seq<A> -> A, ls: seq<Label<A>>, ms: seq<Label<A>>)
    requires |ls| == |ms| && forall j :: 0 <= j < |ls| ==> Stays(ls[j], ms[j])
    ensures Stays(CombineAll(f, ls), CombineAll(f, ms))
  {
    if j :| 0 <= j < |ls| && ls[j].Absent? { assert ms[j].Absent?; }
    else if forall j :: 0 <= j < |ls| ==> ls[j].Leaf? { assert ms == ls; }
  }

  /** The arguments of a view are closed, along paths up to the given length. */
  ghost predicate ViewClosed<A(!new)>(h: Graph<A>, v: View<A>, len: nat)
    requires ViewOk(h, v)
  {
    forall j, q: Path, d: nat :: 0 <= j < |v.ins| && |q| <= len && d <= |q| ==>
      Stays(InAt(h, v.ins[j], v.i, q[..d], v.level), InAt(h, v.ins[j], v.i, q, v.level))
  }

  lemma {:induction false} FunClosed<A(!new)>(h: Graph<A>, f: Fun<A>, v: View<A>, p: Path, c: nat, len: nat)
    requires ViewOk(h, v) && FunOk(f, |v.ins|) && ViewClosed(h, v, len) && Within(v, len - |p|) && c <= |p|
    ensures Stays(FunAt(h, f, v, p[..c]), FunAt(h, f, v, p))
    decreases f
  {
    match f
    case Arg(j) => assert v.before[j] + p[..c] == (v.before[j] + p)[..|v.before[j]| + c];
    case Lit(_) =>
    case Prim(g, args) =>
      var ls := seq(|args|, k requires 0 <= k < |args| => FunAt(h, args[k], v, p[..c]));
      var ms := seq(|args|, k requires 0 <= k < |args| => FunAt(h, args[k], v, p));
      forall k | 0 <= k < |args| ensures Stays(ls[k], ms[k]) { FunClosed(h, args[k], v, p, c, len); }
      RowCloses(g, ls, ms);
    case Listing(items) =>
      if c > 0 && p[0] < |items| {
        assert p[..c][1..] == p[1..][..c - 1];
        FunClosed(h, items[p[0]], v, p[1..], c - 1, len);
      }
  }

  lemma {:induction false} EachClosed<A(!new)>(h: Graph<A>, f: Fun<A>, v: View<A>, masks: seq<nat>, bit: nat,
          below: nat, p: Path, c: nat, len: nat)
    requires ViewOk(h, v) && |masks| == |v.ins| && FunOk(f, |v.ins|) && ViewClosed(h, v, len)
    requires Within(v, len - |p|) && c <= |p|
    ensures Stays(EachAt(h, f, v, masks, bit, below, p[..c]), EachAt(h, f, v, masks, bit, below, p))
    decreases below
  {
    if Missing(h, v) {
    } else if Settled(h, v, masks, bit, below) {
      FunClosed(h, f, v, p, c, len);
    } else if c > 0 {
      assert p[..c][1..] == p[1..][..c - 1];
      EachClosed(h, f, Deeper(h, v, masks, bit, p[0]), masks, bit + 1, below - 1, p[1..], c - 1, len);
    }
  }

  lemma {:induction false} LinkedClosed<A(!new)>(h: Graph<A>, g: Gen<A>, i: nat, p: Path, c: nat)
    requires WF(h) && GenOk(h, g) && g.kind.Linked? && c <= |p|
    ensures Stays(GenAt(h, g, i, p[..c]), GenAt(h, g, i, p))
    decreases 2 * |p| + 1, g.level, 0, 2
  {
    var a, b := InTrail(h, g.ins[0], i, p, g.level), InTrail(h, g.ins[1], i, p, g.level);
    TrailClosed(h, g.ins[0], i, p, g.level);
    TrailClosed(h, g.ins[1], i, p, g.level);
    forall d | 0 <= d <= c ensures p[..c][..d] == p[..d] {}
    assert InTrail(h, g.ins[0], i, p[..c], g.level) == a[..c + 1];
    assert InTrail(h, g.ins[1], i, p[..c], g.level) == b[..c + 1];
    LinkClosed(g.kind.op, g.ins[0].Const?, g.ins[1].Const?, a, b, c);
  }

  lemma {:induction false} ScanClosed<A(!new)>(h: Graph<A>, op: Op<A>, acc: Option<V<A>>, a: In<A>, i: nat, p: Path,
          c: nat, level: nat)
    requires WF(h) && InOk(h, a, level) && OptValid(h, acc) && c <= |p|
    ensures Stays(ScanAt(h, op, acc, a, i, p[..c], level), ScanAt(h, op, acc, a, i, p, level))
    decreases 2 * |p| + 1, level, 0, i + 1
  {
    InClosed(h, a, i, p, c, level);
    if i > 0 { ScanClosed(h, op, acc, a, i - 1, p, c, level); }
    else if acc.Some? { ObsClosed(h, acc.value, p, c); }
  }

  lemma {:induction false} SeriesClosed<A(!new)>(h: Graph<A>, op: Op<A>, z: V<A>, step: V<A>, i: nat, p: Path, c: nat)
    requires WF(h) && Valid(h, z) && Valid(h, step) && c <= |p|
    ensures Stays(SeriesAt(h, op, z, step, i, p[..c]), SeriesAt(h, op, z, step, i, p))
    decreases 2 * |p| + 1, 0, 0, i + 1
  {
    if i == 0 { ObsClosed(h, z, p, c); }
    else {
      ObsClosed(h, step, p, c);
      SeriesClosed(h, op, z, step, i - 1, p, c);
    }
  }
}
