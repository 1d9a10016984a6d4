/**
  One turn of each generator's loop: if the emitted values carry the right labels and the cursors
  have moved past what was read, the generator stands that many elements further on.
 */
module LazyTurns {
  import opened Basics
  import opened LazyLists
  import opened LazyPaths
  import opened LazyStore

  /** The values are the next elements of the input. */
  ghost predicate Chunk<A(!new)>(h: Graph<A>, a: In<A>, level: nat, chunk: seq<V<A>>) {
    WF(h) && InOk(h, a, level) &&
    forall j :: 0 <= j < |chunk| ==> Valid(h, chunk[j]) && forall p :: Obs(h, chunk[j], p) == InAt(h, a, j, p, level)
  }

  ghost predicate Shifted<A(!new)>(h: Graph<A>, a: In<A>, n: nat, b: In<A>, level: nat, i: nat, p: Path)
    requires WF(h) && InOk(h, a, level) && InOk(h, b, level)
  {
    InAt(h, b, i, p, level) == InAt(h, a, n + i, p, level)
  }

  /** The cursor b reads what a reads n elements further on. */
  ghost predicate Moved<A(!new)>(h: Graph<A>, a: In<A>, n: nat, b: In<A>, level: nat) {
    WF(h) && InOk(h, a, level) && InOk(h, b, level) && a.Const? == b.Const? &&
      forall i, p :: Shifted(h, a, n, b, level, i, p)
  }

  ghost predicate Ended<A(!new)>(h: Graph<A>, a: In<A>, level: nat)
    requires WF(h) && InOk(h, a, level)
  {
    forall i, p :: InAt(h, a, i, p, level) == Absent
  }

  /** The n elements from the cursor on lie in its node. */
  predicate Inside<A>(h: Graph<A>, a: In<A>, n: nat) {
    a.Cursor? && n > 0 ==> a.id < |h.cells| && h.cells[a.id].body.Filled? && a.off + n <= |h.cells[a.id].body.items|
  }

  ghost predicate Running<A(!new)>(h: Graph<A>, g: Gen<A>) { WF(h) && GenOk(h, g) && !g.done }

  // ---------- element-wise generators ----------

  ghost predicate Mapped1<A(!new)>(h: Graph<A>, f: A -> A, chunk: seq<V<A>>, vs: seq<V<A>>)
    requires WF(h) && AllValid(h, chunk)
  {
    |vs| == |chunk| &&
      forall j :: 0 <= j < |vs| ==> Valid(h, vs[j]) && forall p :: Obs(h, vs[j], p) == Apply1(f, Obs(h, chunk[j], p))
  }

  lemma Mapped1More<A(!new)>(h: Graph<A>, k: Graph<A>, f: A -> A, chunk: seq<V<A>>, vs: seq<V<A>>, c: V<A>, v: V<A>)
    requires Keeps(h, k) && AllValid(h, chunk) && Mapped1(h, f, chunk, vs)
    requires Valid(h, c) && Valid(k, v) && forall p :: Obs(k, v, p) == Apply1(f, Obs(h, c, p))
    ensures AllValid(k, chunk + [c]) && Mapped1(k, f, chunk + [c], vs + [v])
  {
    forall j, p | 0 <= j < |vs| ensures Obs(k, vs[j], p) == Apply1(f, Obs(k, chunk[j], p)) {
      ObsKept(h, k, vs[j], p);
      ObsKept(h, k, chunk[j], p);
    }
    forall p ensures Obs(k, v, p) == Apply1(f, Obs(k, c, p)) { ObsKept(h, k, c, p); }
  }

  lemma UnaryTurn<A(!new)>(h: Graph<A>, g: Gen<A>, chunk: seq<V<A>>, vs: seq<V<A>>, b: In<A>)
    requires Running(h, g) && g.kind.Unary? && Chunk(h, g.ins[0], g.level, chunk)
    requires Mapped1(h, g.kind.g, chunk, vs) && Moved(h, g.ins[0], |vs|, b, g.level)
    ensures Progress(h, g, vs, g.(ins := [b]))
  {
    forall i, p ensures InAt(h, b, i, p, g.level) == InAt(h, g.ins[0], |vs| + i, p, g.level) {
      assert Shifted(h, g.ins[0], |vs|, b, g.level, i, p);
    }
  }

  /** The label of a binary operator's result. */
  ghost function OpLabel<A(!new)>(h: Graph<A>, op: Op<A>, a: V<A>, b: V<A>, p: Path): Label<A>
    requires WF(h) && Valid(h, a) && Valid(h, b)
  {
    if op.linked then LinkLabel(op, true, true, Trail(h, a, p), Trail(h, b, p))
      else Combine(op, Obs(h, a, p), Obs(h, b, p))
  }

  /** With a scalar on either side, linking or not makes no difference. */
  lemma ScalarLabel<A(!new)>(h: Graph<A>, op: Op<A>, a: V<A>, b: V<A>, p: Path)
    requires WF(h) && Valid(h, a) && Valid(h, b) && (a.Atom? || b.Atom?)
    ensures OpLabel(h, op, a, b, p) == Combine(op, Obs(h, a, p), Obs(h, b, p))
  {
    ValueTrailClosed(h, a, p);
    ValueTrailClosed(h, b, p);
    assert p[..|p|] == p;
    LinkScalar(op, true, true, Trail(h, a, p), Trail(h, b, p));
  }

  ghost predicate Mapped2<A(!new)>(h: Graph<A>, op: Op<A>, a: seq<V<A>>, b: seq<V<A>>, vs: seq<V<A>>)
    requires WF(h) && AllValid(h, a) && AllValid(h, b)
  {
    |vs| == |a| == |b| &&
      forall j :: 0 <= j < |vs| ==> Valid(h, vs[j]) && forall p :: Obs(h, vs[j], p) == OpLabel(h, op, a[j], b[j], p)
  }

  lemma OpLabelKept<A(!new)>(h: Graph<A>, k: Graph<A>, op: Op<A>, a: V<A>, b: V<A>, p: Path)
    requires Keeps(h, k) && Valid(h, a) && Valid(h, b)
    ensures OpLabel(k, op, a, b, p) == OpLabel(h, op, a, b, p)
  {
    forall q ensures Obs(k, a, q) == Obs(h, a, q) && Obs(k, b, q) == Obs(h, b, q) {
      ObsKept(h, k, a, q);
      ObsKept(h, k, b, q);
    }
    assert Trail(k, a, p) == Trail(h, a, p) && Trail(k, b, p) == Trail(h, b, p);
  }

  lemma Mapped2More<A(!new)>(h: Graph<A>, k: Graph<A>, op: Op<A>, a: seq<V<A>>, b: seq<V<A>>, vs: seq<V<A>>, c: V<A>,
          d: V<A>, v: V<A>)
    requires Keeps(h, k) && AllValid(h, a) && AllValid(h, b) && Mapped2(h, op, a, b, vs)
    requires Valid(h, c) && Valid(h, d) && Valid(k, v) && forall p :: Obs(k, v, p) == OpLabel(h, op, c, d, p)
    ensures AllValid(k, a + [c]) && AllValid(k, b + [d]) && Mapped2(k, op, a + [c], b + [d], vs + [v])
  {
    forall j, p | 0 <= j < |vs| ensures Obs(k, vs[j], p) == OpLabel(k, op, a[j], b[j], p) {
      ObsKept(h, k, vs[j], p);
      OpLabelKept(h, k, op, a[j], b[j], p);
    }
    forall p ensures Obs(k, v, p) == OpLabel(k, op, c, d, p) { OpLabelKept(h, k, op, c, d, p); }
  }

  lemma BinaryTurn<A(!new)>(h: Graph<A>, g: Gen<A>, a: seq<V<A>>, b: seq<V<A>>, vs: seq<V<A>>, x: In<A>, y: In<A>)
    requires Running(h, g) && g.kind.Binary? && Chunk(h, g.ins[0], g.level, a) && Chunk(h, g.ins[1], g.level, b)
    requires Mapped2(h, g.kind.op, a, b, vs) && Moved(h, g.ins[0], |vs|, x, g.level) &&
      Moved(h, g.ins[1], |vs|, y, g.level)
    ensures Progress(h, g, vs, g.(ins := [x, y]))
  {
    forall i, p ensures GenAt(h, g.(ins := [x, y]), i, p) == GenAt(h, g, |vs| + i, p) {
      assert Shifted(h, g.ins[0], |vs|, x, g.level, i, p) && Shifted(h, g.ins[1], |vs|, y, g.level, i, p);
    }
  }

  lemma LinkedTurn<A(!new)>(h: Graph<A>, g: Gen<A>, a: seq<V<A>>, b: seq<V<A>>, vs: seq<V<A>>, x: In<A>, y: In<A>)
    requires Running(h, g) && g.kind.Linked? && Chunk(h, g.ins[0], g.level, a) && Chunk(h, g.ins[1], g.level, b)
    requires Mapped2(h, g.kind.op, a, b, vs) && Moved(h, g.ins[0], |vs|, x, g.level) &&
      Moved(h, g.ins[1], |vs|, y, g.level)
    ensures Progress(h, g, vs, g.(ins := [x, y]))
  {
    var g1 := g.(ins := [x, y]);
    forall j, p | 0 <= j < |vs| ensures Obs(h, vs[j], p) == GenAt(h, g, j, p) {
      assert InTrail(h, g.ins[0], j, p, g.level) == Trail(h, a[j], p);
      assert InTrail(h, g.ins[1], j, p, g.level) == Trail(h, b[j], p);
    }
    forall i, p ensures GenAt(h, g1, i, p) == GenAt(h, g, |vs| + i, p) {
      forall c | 0 <= c <= |p|
        ensures Shifted(h, g.ins[0], |vs|, x, g.level, i, p[..c]) &&
        Shifted(h, g.ins[1], |vs|, y, g.level, i, p[..c]) {}
      assert InTrail(h, x, i, p, g.level) == InTrail(h, g.ins[0], |vs| + i, p, g.level);
      assert InTrail(h, y, i, p, g.level) == InTrail(h, g.ins[1], |vs| + i, p, g.level);
    }
  }

  // ---------- scans ----------

  ghost predicate ScanStep<A(!new)>(h: Graph<A>, op: Op<A>, chunk: seq<V<A>>, vs: seq<V<A>>, j: nat)
    requires WF(h) && 0 < j < |vs| == |chunk| && Valid(h, vs[j - 1]) && Valid(h, vs[j]) && Valid(h, chunk[j])
  {
    forall p :: Obs(h, vs[j], p) == Combine(op, Obs(h, vs[j - 1], p), Obs(h, chunk[j], p))
  }

  ghost predicate Scanned<A(!new)>(h: Graph<A>, op: Op<A>, acc: Option<V<A>>, chunk: seq<V<A>>, vs: seq<V<A>>)
    requires WF(h) && OptValid(h, acc) && AllValid(h, chunk)
  {
    |vs| == |chunk| && AllValid(h, vs) &&
    (|vs| > 0 ==> forall p ::
      Obs(h, vs[0], p) ==
      if acc.None? then Obs(h, chunk[0], p) else Combine(op, Obs(h, acc.value, p), Obs(h, chunk[0], p))) &&
    forall j: nat :: 0 < j < |vs| ==> ScanStep(h, op, chunk, vs, j)
  }

  lemma {:induction false} ScannedAt<A(!new)>(h: Graph<A>, op: Op<A>, acc: Option<V<A>>, a: In<A>, level: nat,
          chunk: seq<V<A>>, vs: seq<V<A>>, j: nat, p: Path)
    requires OptValid(h, acc) && Chunk(h, a, level, chunk) && Scanned(h, op, acc, chunk, vs) && j < |vs|
    ensures Obs(h, vs[j], p) == ScanAt(h, op, acc, a, j, p, level)
    decreases j
  {
    assert Obs(h, chunk[j], p) == InAt(h, a, j, p, level);
    if j > 0 { assert ScanStep(h, op, chunk, vs, j); ScannedAt(h, op, acc, a, level, chunk, vs, j - 1, p); }
  }

  lemma {:induction false} ScanMoved<A(!new)>(h: Graph<A>, op: Op<A>, acc: Option<V<A>>, a: In<A>, level: nat, n: nat,
          z: V<A>, b: In<A>, i: nat, p: Path)
    requires OptValid(h, acc) && n > 0 && Moved(h, a, n, b, level)
    requires Valid(h, z) && Obs(h, z, p) == ScanAt(h, op, acc, a, n - 1, p, level)
    ensures ScanAt(h, op, Some(z), b, i, p, level) == ScanAt(h, op, acc, a, n + i, p, level)
    decreases i
  {
    assert Shifted(h, a, n, b, level, i, p);
    if i > 0 { ScanMoved(h, op, acc, a, level, n, z, b, i - 1, p); }
  }

  lemma ScanRest<A(!new)>(h: Graph<A>, op: Op<A>, acc: Option<V<A>>, a: In<A>, level: nat, chunk: seq<V<A>>,
          vs: seq<V<A>>, z: V<A>, b: In<A>, i: nat, p: Path)
    requires OptValid(h, acc) && Chunk(h, a, level, chunk) && Scanned(h, op, acc, chunk, vs) && |vs| > 0 &&
      z == vs[|vs| - 1]
    requires Moved(h, a, |vs|, b, level)
    ensures ScanAt(h, op, Some(z), b, i, p, level) == ScanAt(h, op, acc, a, |vs| + i, p, level)
  {
    ScannedAt(h, op, acc, a, level, chunk, vs, |vs| - 1, p);
    ScanMoved(h, op, acc, a, level, |vs|, z, b, i, p);
  }

  lemma ScanTurn<A(!new)>(h: Graph<A>, g: Gen<A>, chunk: seq<V<A>>, vs: seq<V<A>>, z: V<A>, b: In<A>)
    requires Running(h, g) && g.kind.Scan? && Chunk(h, g.ins[0], g.level, chunk)
    requires Scanned(h, g.kind.op, g.kind.acc, chunk, vs) && |vs| > 0 && z == vs[|vs| - 1] &&
      Moved(h, g.ins[0], |vs|, b, g.level)
    ensures Progress(h, g, vs, g.(kind := Scan(g.kind.op, Some(z)), ins := [b]))
  {
    var g1 := g.(kind := Scan(g.kind.op, Some(z)), ins := [b]);
    forall j, p | 0 <= j < |vs| ensures Obs(h, vs[j], p) == GenAt(h, g, j, p) {
      ScannedAt(h, g.kind.op, g.kind.acc, g.ins[0], g.level, chunk, vs, j, p);
    }
    forall i: nat, p: Path ensures GenAt(h, g1, i, p) == GenAt(h, g, |vs| + i, p) {
      ScanRest(h, g.kind.op, g.kind.acc, g.ins[0], g.level, chunk, vs, z, b, i, p);
    }
  }

  lemma IScanTurn<A(!new)>(h: Graph<A>, g: Gen<A>, chunk: seq<V<A>>, vs: seq<V<A>>, z: V<A>, b: In<A>)
    requires Running(h, g) && g.kind.IScan? && !g.kind.once && Chunk(h, g.ins[0], g.level, chunk)
    requires Scanned(h, g.kind.op, Some(g.kind.z), chunk, vs) && |vs| > 0 && z == vs[|vs| - 1] &&
      Moved(h, g.ins[0], |vs|, b, g.level)
    ensures Progress(h, g, vs, g.(kind := IScan(g.kind.op, z, false), ins := [b]))
  {
    var g1 := g.(kind := IScan(g.kind.op, z, false), ins := [b]);
    forall j, p | 0 <= j < |vs| ensures Obs(h, vs[j], p) == GenAt(h, g, j, p) {
      ScannedAt(h, g.kind.op, Some(g.kind.z), g.ins[0], g.level, chunk, vs, j, p);
    }
    forall i: nat, p: Path ensures GenAt(h, g1, i, p) == GenAt(h, g, |vs| + i, p) {
      ScanRest(h, g.kind.op, Some(g.kind.z), g.ins[0], g.level, chunk, vs, z, b, i, p);
    }
  }

  lemma ScanStepKept<A(!new)>(h: Graph<A>, k: Graph<A>, op: Op<A>, chunk: seq<V<A>>, vs: seq<V<A>>, j: nat)
    requires Keeps(h, k) && 0 < j < |vs| == |chunk| && Valid(h, vs[j - 1]) && Valid(h, vs[j]) && Valid(h, chunk[j]) &&
      ScanStep(h, op, chunk, vs, j)
    ensures ScanStep(k, op, chunk, vs, j)
  {
    forall p ensures Obs(k, vs[j], p) == Combine(op, Obs(k, vs[j - 1], p), Obs(k, chunk[j], p)) {
      ObsKept(h, k, vs[j], p);
      ObsKept(h, k, vs[j - 1], p);
      ObsKept(h, k, chunk[j], p);
    }
  }

  lemma ScannedKept<A(!new)>(h: Graph<A>, k: Graph<A>, op: Op<A>, acc: V<A>, chunk: seq<V<A>>, vs: seq<V<A>>)
    requires Keeps(h, k) && Valid(h, acc) && AllValid(h, chunk) && Scanned(h, op, Some(acc), chunk, vs)
    ensures AllValid(k, chunk) && Scanned(k, op, Some(acc), chunk, vs)
  {
    forall j: nat | 0 < j < |vs| ensures ScanStep(k, op, chunk, vs, j) { ScanStepKept(h, k, op, chunk, vs, j); }
    if |vs| > 0 {
      forall p ensures Obs(k, vs[0], p) == Combine(op, Obs(k, acc, p), Obs(k, chunk[0], p)) {
        ObsKept(h, k, vs[0], p);
        ObsKept(h, k, chunk[0], p);
        ObsKept(h, k, acc, p);
      }
    }
  }

  lemma ScanMore<A(!new)>(h: Graph<A>, k: Graph<A>, op: Op<A>, acc: V<A>, chunk: seq<V<A>>, vs: seq<V<A>>, c: V<A>,
          v: V<A>)
    requires Keeps(h, k) && Valid(h, acc) && AllValid(h, chunk) && Scanned(h, op, Some(acc), chunk, vs)
    requires Valid(h, c) && Valid(k, v)
    requires var last := if vs == [] then acc else vs[|vs| - 1];
      forall p :: Obs(k, v, p) == Combine(op, Obs(h, last, p), Obs(h, c, p))
    ensures AllValid(k, chunk + [c]) && Scanned(k, op, Some(acc), chunk + [c], vs + [v])
  {
    var last := if vs == [] then acc else vs[|vs| - 1];
    ScannedKept(h, k, op, acc, chunk, vs);
    forall p ensures Obs(k, v, p) == Combine(op, Obs(k, last, p), Obs(k, c, p)) {
      ObsKept(h, k, last, p);
      ObsKept(h, k, c, p);
    }
    ScannedSnoc(k, op, acc, chunk, vs, c, v);
  }

  lemma ScanStepMoved<A(!new)>(h: Graph<A>, op: Op<A>, chunk: seq<V<A>>, vs: seq<V<A>>, j: nat, cs: seq<V<A>>,
          more: seq<V<A>>, i: nat)
    requires WF(h) && 0 < j < |vs| == |chunk| && AllValid(h, vs) && AllValid(h, chunk) && ScanStep(h, op, chunk, vs, j)
    requires 0 < i < |more| == |cs| && cs[i] == chunk[j] && more[i - 1] == vs[j - 1] && more[i] == vs[j]
    ensures ScanStep(h, op, cs, more, i)
  {}

  lemma ScannedSnoc<A(!new)>(k: Graph<A>, op: Op<A>, acc: V<A>, chunk: seq<V<A>>, vs: seq<V<A>>, c: V<A>, v: V<A>)
    requires WF(k) && Valid(k, acc) && AllValid(k, chunk) && Scanned(k, op, Some(acc), chunk, vs) && Valid(k, c) &&
      Valid(k, v)
    requires var last := if vs == [] then acc else vs[|vs| - 1];
      forall p :: Obs(k, v, p) == Combine(op, Obs(k, last, p), Obs(k, c, p))
    ensures AllValid(k, chunk + [c]) && Scanned(k, op, Some(acc), chunk + [c], vs + [v])
  {
    var cs, more := chunk + [c], vs + [v];
    forall j: nat | 0 < j < |more| ensures ScanStep(k, op, cs, more, j) {
      assert more[j - 1] == vs[j - 1];
      if j < |vs| { ScanStepMoved(k, op, chunk, vs, j, cs, more, j); }
    }
  }

  /** Starting without an accumulator, the first element is emitted as it is. */
  lemma ScanFrom<A(!new)>(h: Graph<A>, op: Op<A>, chunk: seq<V<A>>, vs: seq<V<A>>)
    requires WF(h) && AllValid(h, chunk) && |chunk| > 0 && AllValid(h, chunk[1..])
    requires Valid(h, chunk[0]) && Scanned(h, op, Some(chunk[0]), chunk[1..], vs)
    ensures Scanned(h, op, None, chunk, [chunk[0]] + vs)
  {
    var more := [chunk[0]] + vs;
    forall j: nat | 0 < j < |more| ensures ScanStep(h, op, chunk, more, j) {
      if j > 1 { ScanStepMoved(h, op, chunk[1..], vs, j - 1, chunk, more, j); }
    }
  }

  /** The seed goes out first, before anything is consumed, provided there is a first element. */
  lemma SeedTurn<A(!new)>(h: Graph<A>, g: Gen<A>)
    requires Running(h, g) && g.kind.IScan? && g.kind.once && !InAt(h, g.ins[0], 0, [], g.level).Absent?
    ensures Progress(h, g, [g.kind.z], g.(kind := IScan(g.kind.op, g.kind.z, false)))
  {}

  // ---------- pairs ----------

  ghost predicate PairStep<A(!new)>(h: Graph<A>, op: Op<A>, chunk: seq<V<A>>, vs: seq<V<A>>, j: nat)
    requires WF(h) && 0 < j < |vs| == |chunk| && Valid(h, chunk[j - 1]) && Valid(h, vs[j]) && Valid(h, chunk[j])
  {
    forall p :: Obs(h, vs[j], p) == Combine(op, Obs(h, chunk[j], p), Obs(h, chunk[j - 1], p))
  }

  ghost predicate Paired<A(!new)>(h: Graph<A>, op: Op<A>, acc: Option<V<A>>, chunk: seq<V<A>>, vs: seq<V<A>>)
    requires WF(h) && OptValid(h, acc) && AllValid(h, chunk)
  {
    |vs| == |chunk| && AllValid(h, vs) &&
    (|vs| > 0 ==> forall p ::
      Obs(h, vs[0], p) ==
      if acc.None? then Obs(h, chunk[0], p) else Combine(op, Obs(h, chunk[0], p), Obs(h, acc.value, p))) &&
    forall j: nat :: 0 < j < |vs| ==> PairStep(h, op, chunk, vs, j)
  }

  lemma PairsTurn<A(!new)>(h: Graph<A>, g: Gen<A>, chunk: seq<V<A>>, vs: seq<V<A>>, b: In<A>)
    requires Running(h, g) && g.kind.Pairs? && Chunk(h, g.ins[0], g.level, chunk)
    requires Paired(h, g.kind.op, g.kind.acc, chunk, vs) && |vs| > 0 && Moved(h, g.ins[0], |vs|, b, g.level)
    ensures Progress(h, g, vs, g.(kind := Pairs(g.kind.op, Some(chunk[|chunk| - 1])), ins := [b]))
  {
    var g1 := g.(kind := Pairs(g.kind.op, Some(chunk[|chunk| - 1])), ins := [b]);
    forall j, p | 0 <= j < |vs| ensures Obs(h, vs[j], p) == GenAt(h, g, j, p) {
      if j > 0 { assert PairStep(h, g.kind.op, chunk, vs, j); }
    }
    forall i: nat, p: Path ensures GenAt(h, g1, i, p) == GenAt(h, g, |vs| + i, p) {
      assert Shifted(h, g.ins[0], |vs|, b, g.level, i, p);
      if i > 0 { assert Shifted(h, g.ins[0], |vs|, b, g.level, i - 1, p); }
      else { assert Obs(h, chunk[|chunk| - 1], p) == InAt(h, g.ins[0], |vs| - 1, p, g.level); }
    }
  }

  lemma PairStepKept<A(!new)>(h: Graph<A>, k: Graph<A>, op: Op<A>, chunk: seq<V<A>>, vs: seq<V<A>>, j: nat)
    requires Keeps(h, k) && 0 < j < |vs| == |chunk| && AllValid(h, vs) && AllValid(h, chunk) &&
      PairStep(h, op, chunk, vs, j)
    ensures AllValid(k, vs) && AllValid(k, chunk) && PairStep(k, op, chunk, vs, j)
  {
    forall p ensures Obs(k, vs[j], p) == Combine(op, Obs(k, chunk[j], p), Obs(k, chunk[j - 1], p)) {
      ObsKept(h, k, vs[j], p);
      ObsKept(h, k, chunk[j], p);
      ObsKept(h, k, chunk[j - 1], p);
    }
  }

  lemma PairedKept<A(!new)>(h: Graph<A>, k: Graph<A>, op: Op<A>, acc: V<A>, chunk: seq<V<A>>, vs: seq<V<A>>)
    requires Keeps(h, k) && Valid(h, acc) && AllValid(h, chunk) && Paired(h, op, Some(acc), chunk, vs)
    ensures AllValid(k, chunk) && Paired(k, op, Some(acc), chunk, vs)
  {
    forall j: nat | 0 < j < |vs| ensures PairStep(k, op, chunk, vs, j) { PairStepKept(h, k, op, chunk, vs, j); }
    if |vs| > 0 {
      forall p ensures Obs(k, vs[0], p) == Combine(op, Obs(k, chunk[0], p), Obs(k, acc, p)) {
        ObsKept(h, k, vs[0], p);
        ObsKept(h, k, chunk[0], p);
        ObsKept(h, k, acc, p);
      }
    }
  }

  lemma PairStepMoved<A(!new)>(h: Graph<A>, op: Op<A>, chunk: seq<V<A>>, vs: seq<V<A>>, j: nat, cs: seq<V<A>>,
          more: seq<V<A>>, i: nat)
    requires WF(h) && 0 < j < |vs| == |chunk| && AllValid(h, vs) && AllValid(h, chunk) && PairStep(h, op, chunk, vs, j)
    requires 0 < i < |more| == |cs| && cs[i] == chunk[j] && cs[i - 1] == chunk[j - 1] && more[i] == vs[j]
    ensures PairStep(h, op, cs, more, i)
  {}

  lemma PairedSnoc<A(!new)>(k: Graph<A>, op: Op<A>, acc: V<A>, chunk: seq<V<A>>, vs: seq<V<A>>, c: V<A>, v: V<A>)
    requires WF(k) && Valid(k, acc) && AllValid(k, chunk) && Paired(k, op, Some(acc), chunk, vs) && Valid(k, c) &&
      Valid(k, v)
    requires var last := if vs == [] then acc else chunk[|vs| - 1];
      forall p :: Obs(k, v, p) == Combine(op, Obs(k, c, p), Obs(k, last, p))
    ensures AllValid(k, chunk + [c]) && Paired(k, op, Some(acc), chunk + [c], vs + [v])
  {
    var cs, more := chunk + [c], vs + [v];
    forall j: nat | 0 < j < |more| ensures PairStep(k, op, cs, more, j) {
      assert cs[j - 1] == chunk[j - 1];
      if j < |vs| { PairStepMoved(k, op, chunk, vs, j, cs, more, j); }
    }
  }

  lemma PairsMore<A(!new)>(h: Graph<A>, k: Graph<A>, op: Op<A>, acc: V<A>, chunk: seq<V<A>>, vs: seq<V<A>>, c: V<A>,
          v: V<A>)
    requires Keeps(h, k) && Valid(h, acc) && AllValid(h, chunk) && Paired(h, op, Some(acc), chunk, vs)
    requires Valid(h, c) && Valid(k, v)
    requires var last := if vs == [] then acc else chunk[|vs| - 1];
      forall p :: Obs(k, v, p) == Combine(op, Obs(h, c, p), Obs(h, last, p))
    ensures AllValid(k, chunk + [c]) && Paired(k, op, Some(acc), chunk + [c], vs + [v])
  {
    PairedKept(h, k, op, acc, chunk, vs);
    var last := if vs == [] then acc else chunk[|vs| - 1];
    forall p ensures Obs(k, v, p) == Combine(op, Obs(k, c, p), Obs(k, last, p)) {
      ObsKept(h, k, c, p);
      ObsKept(h, k, last, p);
    }
    PairedSnoc(k, op, acc, chunk, vs, c, v);
  }

  /** Starting without a predecessor, the first element is emitted as it is. */
  lemma PairsFrom<A(!new)>(h: Graph<A>, op: Op<A>, chunk: seq<V<A>>, vs: seq<V<A>>)
    requires WF(h) && AllValid(h, chunk) && |chunk| > 0 && AllValid(h, chunk[1..])
    requires Valid(h, chunk[0]) && Paired(h, op, Some(chunk[0]), chunk[1..], vs)
    ensures Paired(h, op, None, chunk, [chunk[0]] + vs)
  {
    var more := [chunk[0]] + vs;
    forall j: nat | 0 < j < |more| ensures PairStep(h, op, chunk, more, j) {
      if j > 1 { PairStepMoved(h, op, chunk[1..], vs, j - 1, chunk, more, j); }
    }
  }

  /** The seeded form: the seed takes the place of the first element. */
  ghost predicate SeedPaired<A(!new)>(h: Graph<A>, op: Op<A>, z: V<A>, once: bool, chunk: seq<V<A>>, vs: seq<V<A>>)
    requires WF(h) && Valid(h, z) && AllValid(h, chunk)
  {
    if !once then Paired(h, op, Some(z), chunk, vs)
    else |vs| == |chunk| > 0 && vs[0] == z && Paired(h, op, Some(chunk[0]), chunk[1..], vs[1..])
  }

  lemma IPairsTurn<A(!new)>(h: Graph<A>, g: Gen<A>, chunk: seq<V<A>>, vs: seq<V<A>>, b: In<A>)
    requires Running(h, g) && g.kind.IPairs? && Chunk(h, g.ins[0], g.level, chunk)
    requires SeedPaired(h, g.kind.op, g.kind.z, g.kind.once, chunk, vs) && |vs| > 0 &&
      Moved(h, g.ins[0], |vs|, b, g.level)
    ensures Progress(h, g, vs, g.(kind := IPairs(g.kind.op, chunk[|chunk| - 1], false), ins := [b]))
  {
    var g1 := g.(kind := IPairs(g.kind.op, chunk[|chunk| - 1], false), ins := [b]);
    var a := g.ins[0];
    forall j, p | 0 <= j < |vs| ensures Valid(h, vs[j]) && Obs(h, vs[j], p) == GenAt(h, g, j, p) {
      assert Obs(h, chunk[0], []) == InAt(h, a, 0, [], g.level);
      assert Obs(h, chunk[j], p) == InAt(h, a, j, p, g.level);
      if j > 0 {
        assert Obs(h, chunk[j - 1], p) == InAt(h, a, j - 1, p, g.level);
        if !g.kind.once { assert PairStep(h, g.kind.op, chunk, vs, j); }
        else {
          assert vs[j] == vs[1..][j - 1] && chunk[j] == chunk[1..][j - 1];
          if j > 1 { assert PairStep(h, g.kind.op, chunk[1..], vs[1..], j - 1); }
        }
      }
    }
    forall i: nat, p: Path ensures GenAt(h, g1, i, p) == GenAt(h, g, |vs| + i, p) {
      assert Shifted(h, a, |vs|, b, g.level, i, p);
      if i > 0 { assert Shifted(h, a, |vs|, b, g.level, i - 1, p); }
      else { assert Obs(h, chunk[|chunk| - 1], p) == InAt(h, a, |vs| - 1, p, g.level); }
    }
  }

  // ---------- mapped functions and series ----------

  ghost function ObsAll<A(!new)>(h: Graph<A>, vs: seq<V<A>>, p: Path): seq<Label<A>>
    requires WF(h) && AllValid(h, vs)
  {
    seq(|vs|, j requires 0 <= j < |vs| => Obs(h, vs[j], p))
  }

  lemma MapperTurn<A(!new)>(h: Graph<A>, g: Gen<A>, row: seq<V<A>>, v: V<A>, ins: seq<In<A>>)
    requires Running(h, g) && g.kind.Mapper? && |row| == |ins| == |g.ins|
    requires forall j ::
      0 <= j < |row| ==> Chunk(h, g.ins[j], g.level, [row[j]]) && Moved(h, g.ins[j], 1, ins[j], g.level)
    requires AllValid(h, row)
    requires Valid(h, v) && forall p :: Obs(h, v, p) == CombineAll(g.kind.f, ObsAll(h, row, p))
    ensures Progress(h, g, [v], g.(ins := ins))
  {
    var g1 := g.(ins := ins);
    forall p ensures Obs(h, v, p) == GenAt(h, g, 0, p) {
      forall j | 0 <= j < |row| ensures Obs(h, row[j], p) == InAt(h, g.ins[j], 0, p, g.level) {
        assert Obs(h, [row[j]][0], p) == InAt(h, g.ins[j], 0, p, g.level);
      }
      assert ObsAll(h, row, p) == InRow(h, g.ins, 0, p, g.level);
    }
    forall i: nat, p: Path ensures GenAt(h, g1, i, p) == GenAt(h, g, 1 + i, p) {
      forall j | 0 <= j < |ins| ensures InAt(h, ins[j], i, p, g.level) == InAt(h, g.ins[j], 1 + i, p, g.level) {
        assert Moved(h, g.ins[j], 1, ins[j], g.level) && Shifted(h, g.ins[j], 1, ins[j], g.level, i, p);
      }
      assert InRow(h, ins, i, p, g.level) == InRow(h, g.ins, 1 + i, p, g.level);
    }
  }

  lemma {:induction false} SeriesMoved<A(!new)>(h: Graph<A>, op: Op<A>, z: V<A>, step: V<A>, y: V<A>, i: nat, p: Path)
    requires WF(h) && Valid(h, z) && Valid(h, step) && Valid(h, y) &&
      Obs(h, y, p) == Combine(op, Obs(h, z, p), Obs(h, step, p))
    ensures SeriesAt(h, op, y, step, i, p) == SeriesAt(h, op, z, step, 1 + i, p)
    decreases i
  {
    if i > 0 { SeriesMoved(h, op, z, step, y, i - 1, p); }
  }

  lemma SeriesTurn<A(!new)>(h: Graph<A>, g: Gen<A>, y: V<A>)
    requires Running(h, g) && g.kind.Series? && Valid(h, y)
    requires forall p :: Obs(h, y, p) == Combine(g.kind.op, Obs(h, g.kind.z, p), Obs(h, g.kind.step, p))
    ensures Progress(h, g, [g.kind.z], g.(kind := Series(g.kind.op, y, g.kind.step)))
  {
    var g1 := g.(kind := Series(g.kind.op, y, g.kind.step));
    forall i: nat, p: Path ensures GenAt(h, g1, i, p) == GenAt(h, g, 1 + i, p) {
      SeriesMoved(h, g.kind.op, g.kind.z, g.kind.step, y, i, p);
    }
  }

  // ---------- the loop of a pull ----------

  lemma MovedKept<A(!new)>(h: Graph<A>, k: Graph<A>, a: In<A>, n: nat, b: In<A>, level: nat)
    requires Keeps(h, k) && Moved(h, a, n, b, level)
    ensures Moved(k, a, n, b, level) && (Normal(h, b) ==> Normal(k, b))
  {
    InKept(h, k, a, 0, [], level);
    InKept(h, k, b, 0, [], level);
    forall i, p ensures Shifted(k, a, n, b, level, i, p) {
      assert Shifted(h, a, n, b, level, i, p);
      InKept(h, k, b, i, p, level);
      InKept(h, k, a, n + i, p, level);
    }
  }

  lemma MovedOn<A(!new)>(h: Graph<A>, ins: In<A>, c: nat, a: In<A>, d: nat, b: In<A>, level: nat)
    requires Moved(h, ins, c, a, level) && Moved(h, a, d, b, level)
    ensures Moved(h, ins, c + d, b, level)
  {
    var e := c + d;
    forall i: nat, p: Path ensures Shifted(h, ins, e, b, level, i, p) {
      assert Shifted(h, a, d, b, level, i, p) && Shifted(h, ins, c, a, level, d + i, p);
    }
  }

  /** A chunk read from a, with b the cursor at its start, can still be used after other work. */
  ghost predicate Fetched<A(!new)>(h: Graph<A>, a: In<A>, b: In<A>, chunk: seq<V<A>>, level: nat) {
    WF(h) && Moved(h, a, 0, b, level) && Normal(h, b) && Chunk(h, a, level, chunk) && Inside(h, b, |chunk|)
  }

  lemma FetchedKept<A(!new)>(h: Graph<A>, k: Graph<A>, a: In<A>, b: In<A>, chunk: seq<V<A>>, level: nat)
    requires Keeps(h, k) && Fetched(h, a, b, chunk, level)
    ensures Fetched(k, a, b, chunk, level)
  {
    MovedKept(h, k, a, 0, b, level);
    forall j, p | 0 <= j < |chunk| ensures Valid(k, chunk[j]) && Obs(k, chunk[j], p) == InAt(k, a, j, p, level) {
      ObsKept(h, k, chunk[j], p);
      InKept(h, k, a, j, p, level);
    }
  }

  lemma FetchedLess<A(!new)>(h: Graph<A>, a: In<A>, b: In<A>, chunk: seq<V<A>>, level: nat, n: nat)
    requires Fetched(h, a, b, chunk, level) && n <= |chunk|
    ensures Fetched(h, a, b, chunk[..n], level)
  {}

  lemma Past<A(!new)>(h: Graph<A>, a: In<A>, b: In<A>, chunk: seq<V<A>>, level: nat, n: nat)
    requires Fetched(h, a, b, chunk, level) && n <= |chunk| && chunk != []
    ensures Moved(h, a, n, Advance(h, b, n), level) && Normal(h, Advance(h, b, n))
  {
    Advanced(h, b, n, level, 0, []);
    forall i, p ensures Shifted(h, a, n, Advance(h, b, n), level, i, p) {
      Advanced(h, b, n, level, i, p);
      assert Shifted(h, a, 0, b, level, n + i, p);
    }
  }

  /** At the end of a node the cursor may go to the next one, or has run out if there is none. */
  lemma NextNode<A(!new)>(h: Graph<A>, a: In<A>, b: In<A>, level: nat)
    requires WF(h) && Moved(h, a, 0, b, level) && b.Cursor? && h.cells[b.id].body.Filled? &&
      b.off == |h.cells[b.id].body.items|
    ensures match h.cells[b.id].body.next case End => Ended(h, b, level) &&
      Moved(h, a, 0, Spent, level) case To(m) => Moved(h, a, 0, Cursor(m, 0), level)
  {
    assert CellOk(h, b.id);
    match h.cells[b.id].body.next
    case End =>
      forall i: nat, p: Path ensures Shifted(h, a, 0, Spent, level, i, p) {
        assert At(h, b.id, b.off + i, p) == Absent;
        assert Shifted(h, a, 0, b, level, i, p);
      }
    case To(m) =>
      forall i: nat, p: Path ensures Shifted(h, a, 0, Cursor(m, 0), level, i, p) {
        assert Shifted(h, a, 0, b, level, i, p);
        assert InAt(h, b, i, p, level) == At(h, m, i, p);
      }
  }

  lemma FromNode<A(!new)>(h: Graph<A>, a: In<A>, b: In<A>, level: nat, n: nat)
    requires WF(h) && Moved(h, a, 0, b, level) && Normal(h, b) && b.Cursor? && h.cells[b.id].body.Filled? &&
      b.off + n <= |h.cells[b.id].body.items|
    ensures Fetched(h, a, b, h.cells[b.id].body.items[b.off..][..n], level)
  {
    assert CellOk(h, b.id);
    var items := h.cells[b.id].body.items;
    forall j, p | 0 <= j < n ensures Obs(h, items[b.off + j], p) == InAt(h, a, j, p, level) {
      assert Shifted(h, a, 0, b, level, j, p);
      assert At(h, b.id, b.off + j, p) == Obs(h, items[b.off + j], p);
    }
  }

  /** When an input has run out, so has the generator, unless it links or needs none. */
  lemma OutOfInput<A(!new)>(h: Graph<A>, g: Gen<A>, j: nat, b: In<A>, i: nat, p: Path)
    requires Running(h, g) && !g.kind.Linked? && j < |g.ins| && Moved(h, g.ins[j], 0, b, g.level) &&
      Ended(h, b, g.level)
    ensures GenAt(h, g, i, p) == Absent
  {
    forall c: nat, q: Path ensures InAt(h, g.ins[j], c, q, g.level) == Absent {
      assert Shifted(h, g.ins[j], 0, b, g.level, c, q);
    }
    match g.kind
    case Unary(_) => assert InAt(h, g.ins[0], i, p, g.level) == Absent;
    case Binary(_) => assert InAt(h, g.ins[0], i, p, g.level) == Absent || InAt(h, g.ins[1], i, p, g.level) == Absent;
    case Scan(op, acc) => assert InAt(h, g.ins[0], i, p, g.level) == Absent;
    case IScan(op, z, once) =>
      assert InAt(h, g.ins[0], i, p, g.level) == Absent;
      if once && i > 0 { assert InAt(h, g.ins[0], i - 1, p, g.level) == Absent; }
      assert InAt(h, g.ins[0], 0, [], g.level) == Absent;
    case Pairs(_, _) => assert InAt(h, g.ins[0], i, p, g.level) == Absent;
    case IPairs(_, _, _) =>
      assert InAt(h, g.ins[0], i, p, g.level) == Absent;
      assert InAt(h, g.ins[0], 0, [], g.level) == Absent;
    case Mapper(_) => assert InRow(h, g.ins, i, p, g.level)[j].Absent?;
    case Series(_, _, _) =>
    case Each(_, _, _, _) =>
      var v := View(g.ins, i, NoPaths(|g.ins|), g.level);
      assert v.before[j] + [] == [] && Seen(h, v, j, []) == Absent && Missing(h, v);
  }

  ghost predicate Pulling<A(!new)>(h0: Graph<A>, h: Graph<A>, g: nat, out: seq<V<A>>, st: Gen<A>) {
    Keeps(h0, h) && g < |h0.gens| && !h0.gens[g].done && Below(h0, h, h0.gens[g].level) && MarksStay(h0, h) &&
    Progress(h, h0.gens[g], out, st) && st.block == h0.gens[g].block &&
      forall j :: 0 <= j < |st.ins| ==> Normal(h, st.ins[j])
  }

  lemma PullStarts<A(!new)>(h: Graph<A>, g: nat)
    requires WF(h) && g < |h.gens| && !h.gens[g].done
    ensures Pulling(h, h, g, [], h.gens[g])
  {
    assert GenWaits(h, g);
  }

  lemma PullKept<A(!new)>(h0: Graph<A>, h: Graph<A>, k: Graph<A>, g: nat, out: seq<V<A>>, st: Gen<A>)
    requires Pulling(h0, h, g, out, st) && Keeps(h, k) && Below(h, k, h0.gens[g].level) && MarksStay(h, k)
    ensures Pulling(h0, k, g, out, st)
  {
    KeepsOn(h0, h, k);
    ProgressKept(h, k, h0.gens[g], out, st);
  }

  lemma PullOn<A(!new)>(h0: Graph<A>, h: Graph<A>, g: nat, out: seq<V<A>>, st: Gen<A>, vs: seq<V<A>>, next: Gen<A>)
    requires Pulling(h0, h, g, out, st) && Progress(h, st, vs, next) && next.block == st.block
    requires forall j :: 0 <= j < |next.ins| ==> Normal(h, next.ins[j])
    ensures Pulling(h0, h, g, out + vs, next)
  {
    ProgressOn(h, h0.gens[g], out, st, vs, next);
  }

  lemma PullEnds<A(!new)>(h0: Graph<A>, h: Graph<A>, g: nat, out: seq<V<A>>, st: Gen<A>, done: bool)
    requires Pulling(h0, h, g, out, st) && (out == [] ==> done)
    requires done ==> forall i, p :: GenAt(h, st, i, p) == Absent
    ensures Closing(h, g, out, st.(done := done)) && h.gens[g] == h0.gens[g]
  {
    assert st.(done := done).(done := false) == st;
  }

  /** A pull has done its work: all is kept, and the output node has a block, full unless the generator is done. */
  ghost predicate Pulled<A(!new)>(h: Graph<A>, k: Graph<A>, g: nat)
    requires WF(h) && g < |h.gens|
  {
    var o := h.gens[g].out;
    Keeps(h, k) && Below(h, k, h.gens[g].level + 1) && MarksStay(h, k) && o < |k.cells| && k.cells[o].body.Filled? &&
    |k.cells[o].body.items| <= h.gens[g].block && (k.gens[g].done || |k.cells[o].body.items| == h.gens[g].block)
  }

  lemma PulledOn<A(!new)>(h: Graph<A>, k: Graph<A>, l: Graph<A>, g: nat, out: seq<V<A>>, st: Gen<A>)
    requires Pulling(h, k, g, out, st) && k.gens[g] == h.gens[g] && Pulled(k, l, g)
    ensures Pulled(h, l, g)
  {
    KeepsOn(h, k, l);
  }

  // ---------- one round of each loop ----------

  lemma UnaryRound<A(!new)>(h: Graph<A>, k: Graph<A>, g: nat, out: seq<V<A>>, st: Gen<A>, a: In<A>, chunk: seq<V<A>>,
          vs: seq<V<A>>)
    requires Pulling(h, k, g, out, st) && st.kind.Unary? && Fetched(k, st.ins[0], a, chunk, st.level) && chunk != []
    requires Mapped1(k, st.kind.g, chunk, vs)
    ensures Pulling(h, k, g, out + vs, st.(ins := [Advance(k, a, |chunk|)]))
  {
    Past(k, st.ins[0], a, chunk, st.level, |chunk|);
    UnaryTurn(k, st, chunk, vs, Advance(k, a, |chunk|));
    PullOn(h, k, g, out, st, vs, st.(ins := [Advance(k, a, |chunk|)]));
  }

  lemma BinaryRound<A(!new)>(h: Graph<A>, k: Graph<A>, g: nat, out: seq<V<A>>, st: Gen<A>, a: In<A>, x: seq<V<A>>,
          b: In<A>, y: seq<V<A>>, vs: seq<V<A>>)
    requires Pulling(h, k, g, out, st) && (st.kind.Binary? || st.kind.Linked?) && 0 < |vs| <= |x| && |vs| <= |y|
    requires Fetched(k, st.ins[0], a, x, st.level) && Fetched(k, st.ins[1], b, y, st.level) && AllValid(k, x[..|vs|]) &&
      AllValid(k, y[..|vs|])
    requires Mapped2(k, st.kind.op, x[..|vs|], y[..|vs|], vs)
    ensures Pulling(h, k, g, out + vs, st.(ins := [Advance(k, a, |vs|), Advance(k, b, |vs|)]))
  {
    var next := st.(ins := [Advance(k, a, |vs|), Advance(k, b, |vs|)]);
    Past(k, st.ins[0], a, x, st.level, |vs|);
    Past(k, st.ins[1], b, y, st.level, |vs|);
    FetchedLess(k, st.ins[0], a, x, st.level, |vs|);
    FetchedLess(k, st.ins[1], b, y, st.level, |vs|);
    if st.kind.Binary? { BinaryTurn(k, st, x[..|vs|], y[..|vs|], vs, next.ins[0], next.ins[1]); }
    else { LinkedTurn(k, st, x[..|vs|], y[..|vs|], vs, next.ins[0], next.ins[1]); }
    PullOn(h, k, g, out, st, vs, next);
  }

  lemma ScanRound<A(!new)>(h: Graph<A>, k: Graph<A>, g: nat, out: seq<V<A>>, st: Gen<A>, a: In<A>, chunk: seq<V<A>>,
          z: V<A>, vs: seq<V<A>>)
    requires Pulling(h, k, g, out, st) && st.kind.Scan? && Fetched(k, st.ins[0], a, chunk, st.level) && chunk != []
    requires Scanned(k, st.kind.op, st.kind.acc, chunk, vs) && z == vs[|vs| - 1]
    ensures Pulling(h, k, g, out + vs, st.(kind := Scan(st.kind.op, Some(z)), ins := [Advance(k, a, |chunk|)]))
  {
    Past(k, st.ins[0], a, chunk, st.level, |chunk|);
    ScanTurn(k, st, chunk, vs, z, Advance(k, a, |chunk|));
    PullOn(h, k, g, out, st, vs, st.(kind := Scan(st.kind.op, Some(z)), ins := [Advance(k, a, |chunk|)]));
  }

  lemma SeedRound<A(!new)>(h: Graph<A>, k: Graph<A>, g: nat, out: seq<V<A>>, st: Gen<A>, a: In<A>, chunk: seq<V<A>>)
    requires Pulling(h, k, g, out, st) && st.kind.IScan? && st.kind.once && Fetched(k, st.ins[0], a, chunk, st.level) &&
      chunk != []
    ensures Pulling(h, k, g, out + [st.kind.z], st.(kind := IScan(st.kind.op, st.kind.z, false)))
  {
    assert Obs(k, chunk[0], []) == InAt(k, st.ins[0], 0, [], st.level);
    SeedTurn(k, st);
    PullOn(h, k, g, out, st, [st.kind.z], st.(kind := IScan(st.kind.op, st.kind.z, false)));
  }

  lemma IScanRound<A(!new)>(h: Graph<A>, k: Graph<A>, g: nat, out: seq<V<A>>, st: Gen<A>, a: In<A>, chunk: seq<V<A>>,
          n: nat, z: V<A>, vs: seq<V<A>>)
    requires Pulling(h, k, g, out, st) && st.kind.IScan? && !st.kind.once &&
      Fetched(k, st.ins[0], a, chunk, st.level) && n <= |chunk| && chunk != []
    requires AllValid(k, chunk[..n]) && Scanned(k, st.kind.op, Some(st.kind.z), chunk[..n], vs) &&
      z == if vs == [] then st.kind.z else vs[|vs| - 1]
    ensures Pulling(h, k, g, out + vs, st.(kind := IScan(st.kind.op, z, false), ins := [Advance(k, a, n)]))
  {
    var next := st.(kind := IScan(st.kind.op, z, false), ins := [Advance(k, a, n)]);
    Past(k, st.ins[0], a, chunk, st.level, n);
    FetchedLess(k, st.ins[0], a, chunk, st.level, n);
    if n > 0 { IScanTurn(k, st, chunk[..n], vs, z, next.ins[0]); } else { Nowhere(k, st, next.ins[0]); }
    PullOn(h, k, g, out, st, vs, next);
  }

  /** Rereading the input through an equivalent cursor changes nothing. */
  lemma Nowhere<A(!new)>(h: Graph<A>, g: Gen<A>, b: In<A>)
    requires Running(h, g) && g.kind.IScan? && !g.kind.once && Moved(h, g.ins[0], 0, b, g.level)
    ensures Progress(h, g, [], g.(ins := [b]))
  {
    forall i: nat, p: Path ensures GenAt(h, g.(ins := [b]), i, p) == GenAt(h, g, 0 + i, p) {
      SameScan(h, g.kind.op, Some(g.kind.z), g.ins[0], b, i, p, g.level);
    }
  }

  lemma {:induction false} SameScan<A(!new)>(h: Graph<A>, op: Op<A>, acc: Option<V<A>>, a: In<A>, b: In<A>, i: nat,
          p: Path, level: nat)
    requires OptValid(h, acc) && Moved(h, a, 0, b, level)
    ensures ScanAt(h, op, acc, b, i, p, level) == ScanAt(h, op, acc, a, i, p, level)
    decreases i
  {
    assert Shifted(h, a, 0, b, level, i, p);
    if i > 0 { SameScan(h, op, acc, a, b, i - 1, p, level); }
  }

  lemma PairsRound<A(!new)>(h: Graph<A>, k: Graph<A>, g: nat, out: seq<V<A>>, st: Gen<A>, a: In<A>, chunk: seq<V<A>>,
          z: V<A>, vs: seq<V<A>>)
    requires Pulling(h, k, g, out, st) && st.kind.Pairs? && Fetched(k, st.ins[0], a, chunk, st.level) && chunk != []
    requires Paired(k, st.kind.op, st.kind.acc, chunk, vs) && z == chunk[|chunk| - 1]
    ensures Pulling(h, k, g, out + vs, st.(kind := Pairs(st.kind.op, Some(z)), ins := [Advance(k, a, |chunk|)]))
  {
    Past(k, st.ins[0], a, chunk, st.level, |chunk|);
    PairsTurn(k, st, chunk, vs, Advance(k, a, |chunk|));
    PullOn(h, k, g, out, st, vs, st.(kind := Pairs(st.kind.op, Some(z)), ins := [Advance(k, a, |chunk|)]));
  }

  lemma IPairsRound<A(!new)>(h: Graph<A>, k: Graph<A>, g: nat, out: seq<V<A>>, st: Gen<A>, a: In<A>, chunk: seq<V<A>>,
          z: V<A>, vs: seq<V<A>>)
    requires Pulling(h, k, g, out, st) && st.kind.IPairs? && Fetched(k, st.ins[0], a, chunk, st.level) && chunk != []
    requires SeedPaired(k, st.kind.op, st.kind.z, st.kind.once, chunk, vs) && z == chunk[|chunk| - 1]
    ensures Pulling(h, k, g, out + vs, st.(kind := IPairs(st.kind.op, z, false), ins := [Advance(k, a, |chunk|)]))
  {
    Past(k, st.ins[0], a, chunk, st.level, |chunk|);
    IPairsTurn(k, st, chunk, vs, Advance(k, a, |chunk|));
    PullOn(h, k, g, out, st, vs, st.(kind := IPairs(st.kind.op, z, false), ins := [Advance(k, a, |chunk|)]));
  }

  lemma SeriesRound<A(!new)>(h: Graph<A>, before: Graph<A>, k: Graph<A>, g: nat, out: seq<V<A>>, st: Gen<A>, y: V<A>)
    requires Pulling(h, k, g, out, st) && st.kind.Series? && Keeps(before, k) && GenOk(before, st) && Valid(k, y)
    requires forall p :: Obs(k, y, p) == OpLabel(before, st.kind.op, st.kind.z, st.kind.step, p)
    ensures Pulling(h, k, g, out + [st.kind.z], st.(kind := Series(st.kind.op, y, st.kind.step)))
  {
    forall p ensures Obs(k, y, p) == Combine(st.kind.op, Obs(k, st.kind.z, p), Obs(k, st.kind.step, p)) {
      ObsKept(before, k, st.kind.z, p);
      ObsKept(before, k, st.kind.step, p);
    }
    SeriesTurn(k, st, y);
    PullOn(h, k, g, out, st, [st.kind.z], st.(kind := Series(st.kind.op, y, st.kind.step)));
  }

  /** One element read from each of the first inputs. */
  ghost predicate RowRead<A(!new)>(h: Graph<A>, ins: seq<In<A>>, level: nat, row: seq<V<A>>, next: seq<In<A>>) {
    WF(h) && |next| == |row| <= |ins| && AllValid(h, row) &&
    forall j :: 0 <= j < |row| ==>
      Chunk(h, ins[j], level, [row[j]]) && Moved(h, ins[j], 1, next[j], level) && Normal(h, next[j])
  }

  lemma RowKept<A(!new)>(h: Graph<A>, k: Graph<A>, ins: seq<In<A>>, level: nat, row: seq<V<A>>, next: seq<In<A>>)
    requires Keeps(h, k) && RowRead(h, ins, level, row, next)
    ensures RowRead(k, ins, level, row, next)
  {
    forall j | 0 <= j < |row|
      ensures Chunk(k, ins[j], level, [row[j]]) && Moved(k, ins[j], 1, next[j], level) && Normal(k, next[j]) {
      MovedKept(h, k, ins[j], 1, next[j], level);
      forall p ensures Obs(k, row[j], p) == InAt(k, ins[j], 0, p, level) {
        ObsKept(h, k, row[j], p);
        InKept(h, k, ins[j], 0, p, level);
        assert Obs(h, [row[j]][0], p) == InAt(h, ins[j], 0, p, level);
      }
    }
  }

  lemma MapperRound<A(!new)>(h: Graph<A>, before: Graph<A>, k: Graph<A>, g: nat, out: seq<V<A>>, st: Gen<A>,
          row: seq<V<A>>, next: seq<In<A>>, v: V<A>)
    requires Pulling(h, k, g, out, st) && st.kind.Mapper? && Keeps(before, k) &&
      RowRead(before, st.ins, st.level, row, next) && |row| == |st.ins|
    requires Valid(k, v) && forall p :: Obs(k, v, p) == CombineAll(st.kind.f, ObsAll(before, row, p))
    ensures Pulling(h, k, g, out + [v], st.(ins := next))
  {
    RowKept(before, k, st.ins, st.level, row, next);
    forall p ensures Obs(k, v, p) == CombineAll(st.kind.f, ObsAll(k, row, p)) {
      forall j | 0 <= j < |row| ensures Obs(k, row[j], p) == Obs(before, row[j], p) { ObsKept(before, k, row[j], p); }
      assert ObsAll(k, row, p) == ObsAll(before, row, p);
    }
    MapperTurn(k, st, row, v, next);
    PullOn(h, k, g, out, st, [v], st.(ins := next));
  }

  // ---------- the end of a linked generator ----------

  lemma NotConstant<A(!new)>(h: Graph<A>, a: In<A>, i: nat, level: nat)
    requires WF(h) && InOk(h, a, level) && InAt(h, a, i, [], level) == Absent
    ensures !a.Const?
  {}

  /** Once input j has run out, a linked generator is the rest of the other input, if that is a list. */
  lemma LinkedRest<A(!new)>(h: Graph<A>, g: Gen<A>, j: nat, b: In<A>, i: nat, p: Path)
    requires Running(h, g) && g.kind.Linked? && j < 2 && Moved(h, g.ins[j], 0, b, g.level) && Ended(h, b, g.level)
    ensures GenAt(h, g, i, p) == if g.ins[1 - j].Const? then Absent else InAt(h, g.ins[1 - j], i, p, g.level)
  {
    var own, other := InTrail(h, g.ins[j], i, p, g.level), InTrail(h, g.ins[1 - j], i, p, g.level);
    assert p[..|p|] == p;
    forall c | 0 <= c <= |p| ensures own[c] == Absent {
      assert Shifted(h, g.ins[j], 0, b, g.level, i, p[..c]);
    }
    TrailClosed(h, g.ins[1 - j], i, p, g.level);
    assert p[..0] == [] && own[0] == InAt(h, g.ins[j], i, p[..0], g.level);
    NotConstant(h, g.ins[j], i, g.level);
    assert own[0] == Absent && own[|own| - 1] == Absent;
    assert other[|other| - 1] == InAt(h, g.ins[1 - j], i, p, g.level);
    assert other[0].Absent? ==> other[|other| - 1].Absent?;
    if j == 0 {
      assert GenAt(h, g, i, p) == LinkLabel(g.kind.op, g.ins[0].Const?, g.ins[1].Const?, own, other);
    } else {
      assert GenAt(h, g, i, p) == LinkLabel(g.kind.op, g.ins[0].Const?, g.ins[1].Const?, other, own);
    }
  }

  ghost predicate Linking<A(!new)>(h: Graph<A>, k: Graph<A>, g: nat, out: seq<V<A>>, st: Gen<A>, b: In<A>) {
    Pulling(h, k, g, out, st) && st.kind.Linked? && g < |k.gens| && k.gens[g].out < |k.cells| && |out| <= st.block &&
    b.Cursor? && InOk(k, b, st.level) && k.cells[b.id].body.Filled? && b.off <= |k.cells[b.id].body.items| &&
    forall i, p :: GenAt(k, st, i, p) == InAt(k, b, i, p, st.level)
  }

  /** The block that was emitted, then the rest of the list at the cursor b: the linked list in full. */
  lemma LinkKeeps<A(!new)>(h: Graph<A>, k: Graph<A>, g: nat, out: seq<V<A>>, st: Gen<A>, b: In<A>)
    requires Linking(h, k, g, out, st, b)
    ensures Pulled(h, LinkedTail(k, g, out, b), g)
  {
    var G := k.gens[g];
    assert G == h.gens[g] && GenWaits(k, g) && CellOk(k, G.out) && CellOk(k, b.id);
    var m := |k.cells|;
    var l := NewNode(k, G.level, G.finite, k.cells[b.id].body.items[b.off..], k.cells[b.id].body.next);
    NewNodeKeeps(k, G.level, G.finite, k.cells[b.id].body.items[b.off..], k.cells[b.id].body.next);
    LinkLabels(h, k, g, out, st, b, l);
    FillKeeps(l, g, out, To(m));
    var e := Fill(l, g, out, To(m));
    KeepsOn(k, l, e);
    KeepsOn(h, k, e);
  }

  lemma LinkLabels<A(!new)>(h: Graph<A>, k: Graph<A>, g: nat, out: seq<V<A>>, st: Gen<A>, b: In<A>, l: Graph<A>)
    requires Linking(h, k, g, out, st, b) && Keeps(k, l) && |l.cells| == |k.cells| + 1
    requires l.cells[|k.cells|].body == Filled(k.cells[b.id].body.items[b.off..], k.cells[b.id].body.next)
    ensures forall j ::
      0 <= j < |out| ==> Valid(l, out[j]) && forall p :: Obs(l, out[j], p) == At(l, k.gens[g].out, j, p)
    ensures forall i, p :: At(l, |k.cells|, i, p) == At(l, k.gens[g].out, |out| + i, p)
  {
    var G := k.gens[g];
    assert G == h.gens[g] && GenWaits(k, g) && CellOk(k, G.out);
    forall j, p | 0 <= j < |out| ensures Valid(l, out[j]) && Obs(l, out[j], p) == At(l, G.out, j, p) {
      ObsKept(k, l, out[j], p);
      assert Obs(k, out[j], p) == GenAt(k, G, j, p);
    }
    forall i, p ensures At(l, |k.cells|, i, p) == At(l, G.out, |out| + i, p) {
      assert GenAt(k, st, i, p) == GenAt(k, G, |out| + i, p);
      TailLabel(k, l, b, |k.cells|, i, p, st.level);
    }
  }

  lemma TailLabel<A(!new)>(k: Graph<A>, l: Graph<A>, b: In<A>, m: nat, i: nat, p: Path, level: nat)
    requires Keeps(k, l) && b.Cursor? && InOk(k, b, level) && k.cells[b.id].body.Filled? &&
      b.off <= |k.cells[b.id].body.items|
    requires m < |l.cells| && l.cells[m].body == Filled(k.cells[b.id].body.items[b.off..], k.cells[b.id].body.next)
    ensures At(l, m, i, p) == InAt(k, b, i, p, level)
  {
    assert CellOk(l, m) && CellOk(l, b.id);
    assert l.cells[b.id] == k.cells[b.id];
    assert At(l, b.id, b.off + i, p) == At(k, b.id, b.off + i, p);
  }

  function LinkedTail<A>(k: Graph<A>, g: nat, out: seq<V<A>>, b: In<A>): Graph<A>
    requires g < |k.gens| && k.gens[g].out < |k.cells|
    requires b.Cursor? && b.id < |k.cells| && k.cells[b.id].body.Filled? && b.off <= |k.cells[b.id].body.items|
  {
    var body := k.cells[b.id].body;
    Fill(NewNode(k, k.gens[g].level, k.gens[g].finite, body.items[b.off..], body.next), g, out, To(|k.cells|))
  }
}
