/** What the lazy lists promise: laws of the generators, stated on what their lists denote. */
module LazyLaws {
  import opened Basics
  import opened LazyLists
  import opened LazyPaths
  import opened LazyStore
  import opened LazyTurns
  import opened LazyRun
  import opened LazySpec

  // ---------- runs ----------

  /** The only node that waits for an unfinished generator is its output. */
  lemma PendingIsUnique<A(!new)>(h: Graph<A>, g: nat, n: nat)
    requires WF(h) && g < |h.gens| && !h.gens[g].done && n < |h.cells|
    ensures h.cells[n].body == Thunk(g) <==> n == h.gens[g].out
  {
    assert GenWaits(h, g) && CellOk(h, n);
  }

  // ---------- lengths ----------

  /** After an absent element there are no more. */
  lemma {:induction false} AbsentOn<A(!new)>(h: Graph<A>, n: nat, i: nat, k: nat)
    requires WF(h) && n < |h.cells| && At(h, n, i, []).Absent? && i <= k
    ensures At(h, n, k, []).Absent?
    decreases h.cells[n].level, |h.cells| - n + 1, 0
  {
    assert CellOk(h, n);
    match h.cells[n].body
    case Thunk(g) =>
      assert GenWaits(h, g);
      if !h.gens[g].done { GenAbsentOn(h, h.gens[g], i, k); }
    case Filled(items, next) =>
      AbsentLater(h, n, i);
      if next.To? { AbsentOn(h, next.id, i - |items|, k - |items|); }
  }

  lemma {:induction false} GenAbsentOn<A(!new)>(h: Graph<A>, g: Gen<A>, i: nat, k: nat)
    requires WF(h) && GenOk(h, g) && GenAt(h, g, i, []).Absent? && i <= k
    ensures GenAt(h, g, k, []).Absent?
    decreases g.level, 0, 0
  {
    forall j, c: nat, d: nat | 0 <= j < |g.ins| && c <= d && InAt(h, g.ins[j], c, [], g.level).Absent?
      ensures InAt(h, g.ins[j], d, [], g.level).Absent? {
      if g.ins[j].Cursor? { AbsentOn(h, g.ins[j].id, g.ins[j].off + c, g.ins[j].off + d); }
    }
    match g.kind
    case Unary(_) =>
    case Binary(_) =>
    case Linked(op) => LinkedFlat(h, g, i); LinkedFlat(h, g, k);
    case Scan(op, acc) => ScanPresent(h, op, acc, g.ins[0], i, g.level); ScanPresent(h, op, acc, g.ins[0], k, g.level);
    case IScan(op, z, once) =>
      if !once || i > 0 { ScanPresent(h, op, Some(z), g.ins[0], if once then i - 1 else i, g.level); }
      if !once || k > 0 { ScanPresent(h, op, Some(z), g.ins[0], if once then k - 1 else k, g.level); }
    case Pairs(_, _) =>
    case IPairs(_, _, _) =>
    case Mapper(f) =>
      var j :| 0 <= j < |g.ins| && InAt(h, g.ins[j], i, [], g.level).Absent?;
      assert InRow(h, g.ins, k, [], g.level)[j].Absent?;
    case Series(op, z, step) => SeriesPresent(h, op, z, step, i);
    case Each(_, _, _, _) => EachPresent(h, g, i); EachPresent(h, g, k);
  }

  lemma {:induction false} FunPresent<A(!new)>(h: Graph<A>, f: Fun<A>, v: View<A>)
    requires ViewOk(h, v) && FunOk(f, |v.ins|) && !Missing(h, v)
    ensures !FunAt(h, f, v, []).Absent?
    decreases f
  {
    if f.Prim? {
      forall c | 0 <= c < |f.args| ensures !FunAt(h, f.args[c], v, []).Absent? { FunPresent(h, f.args[c], v); }
    }
  }

  /** A mapped list has an element exactly where every argument has one. */
  lemma EachPresent<A(!new)>(h: Graph<A>, g: Gen<A>, i: nat)
    requires WF(h) && GenOk(h, g) && g.kind.Each?
    ensures GenAt(h, g, i, []).Absent? <==> exists j :: 0 <= j < |g.ins| && InAt(h, g.ins[j], i, [], g.level).Absent?
  {
    var v := View(g.ins, i, NoPaths(|g.ins|), g.level);
    forall j | 0 <= j < |g.ins| ensures Seen(h, v, j, []) == InAt(h, g.ins[j], i, [], g.level) {
      assert v.before[j] + [] == [];
    }
    if forall j :: 0 <= j < |g.ins| ==> !InAt(h, g.ins[j], i, [], g.level).Absent? {
      assert !Missing(h, v);
      FunPresent(h, g.kind.fun, v);
    } else {
      var j :| 0 <= j < |g.ins| && InAt(h, g.ins[j], i, [], g.level).Absent?;
      OutAt(h, g, j, i, []);
    }
  }

  /** Zip-longest: while both inputs last they are combined; then the one that is a list goes on alone. */
  lemma LinkedFlat<A(!new)>(h: Graph<A>, g: Gen<A>, i: nat)
    requires WF(h) && GenOk(h, g) && g.kind.Linked?
    ensures var a, b := InAt(h, g.ins[0], i, [], g.level), InAt(h, g.ins[1], i, [], g.level);
      GenAt(h, g, i, []) ==
        if a.Absent? then (if g.ins[1].Const? then Absent else b)
        else if b.Absent? then (if g.ins[0].Const? then Absent else a)
        else Combine(g.kind.op, a, b)
  {
    var p: Path := [];
    assert p[..0] == p;
    assert InTrail(h, g.ins[0], i, p, g.level)[0] == InAt(h, g.ins[0], i, p, g.level);
    assert InTrail(h, g.ins[1], i, p, g.level)[0] == InAt(h, g.ins[1], i, p, g.level);
  }

  /** A scan is exactly as long as its input. */
  lemma {:induction false} ScanPresent<A(!new)>(h: Graph<A>, op: Op<A>, acc: Option<V<A>>, a: In<A>, i: nat, level: nat)
    requires WF(h) && InOk(h, a, level) && OptValid(h, acc)
    requires forall c: nat, d: nat :: c <= d && InAt(h, a, c, [], level).Absent? ==> InAt(h, a, d, [], level).Absent?
    ensures ScanAt(h, op, acc, a, i, [], level).Absent? <==> InAt(h, a, i, [], level).Absent?
    decreases i
  {
    if i > 0 { ScanPresent(h, op, acc, a, i - 1, level); }
  }

  ghost predicate InLength<A(!new)>(h: Graph<A>, a: In<A>, level: nat, len: nat)
    requires WF(h) && InOk(h, a, level)
  {
    forall i: nat :: InAt(h, a, i, [], level).Absent? <==> i >= len
  }

  ghost predicate GenLength<A(!new)>(h: Graph<A>, g: Gen<A>, len: nat)
    requires WF(h) && GenOk(h, g)
  {
    forall i: nat :: GenAt(h, g, i, []).Absent? <==> i >= len
  }

  /** A seeded scan of a list that is not empty has one element more than the list; of an empty list, none. */
  lemma SeededScanLength<A(!new)>(h: Graph<A>, g: Gen<A>, len: nat)
    requires WF(h) && GenOk(h, g) && g.kind.IScan? && g.kind.once && InLength(h, g.ins[0], g.level, len)
    ensures GenLength(h, g, if len == 0 then 0 else len + 1)
  {
    forall i: nat ensures GenAt(h, g, i, []).Absent? <==> i >= if len == 0 then 0 else len + 1 {
      if i > 0 { ScanPresent(h, g.kind.op, Some(g.kind.z), g.ins[0], i - 1, g.level); }
    }
  }

  lemma LinkedLength<A(!new)>(h: Graph<A>, g: Gen<A>, m: nat, n: nat)
    requires WF(h) && GenOk(h, g) && g.kind.Linked? && !g.ins[0].Const? && !g.ins[1].Const?
    requires InLength(h, g.ins[0], g.level, m) && InLength(h, g.ins[1], g.level, n)
    ensures GenLength(h, g, if m < n then n else m)
  {
    forall i: nat ensures GenAt(h, g, i, []).Absent? <==> i >= if m < n then n else m { LinkedFlat(h, g, i); }
  }

  // ---------- when a new list ends ----------

  /** A linked list ends exactly if every operand that is a list ends. */
  lemma LinkedEndsIff<A(!new)>(h: Graph<A>, op: Op<A>, a: V<A>, b: V<A>, block: Size)
    requires WF(h) && Valid(h, a) && Valid(h, b) && (a.Ref? || b.Ref?) && Faithful(op) && op.linked
    ensures GenOk(h, BinaryGen(h, op, a, b, block))
    ensures GenEnds(h, BinaryGen(h, op, a, b, block)) <==> (a.Ref? ==> Ends(h, a.id)) && (b.Ref? ==> Ends(h, b.id))
  {
    var g := BinaryGen(h, op, a, b, block);
    if GenEnds(h, g) {
      var i: nat :| GenAt(h, g, i, []) == Absent;
      LinkedFlat(h, g, i);
    }
    if (a.Ref? ==> Ends(h, a.id)) && (b.Ref? ==> Ends(h, b.id)) {
      var m: nat := if a.Ref? then var i: nat :| At(h, a.id, i, []) == Absent; i else 0;
      var n: nat := if b.Ref? then var i: nat :| At(h, b.id, i, []) == Absent; i else 0;
      var i := if m < n then n else m;
      if a.Ref? { AbsentOn(h, a.id, m, i); }
      if b.Ref? { AbsentOn(h, b.id, n, i); }
      LinkedFlat(h, g, i);
    }
  }

  /** The finite flag of an element-wise list is wrong exactly if an operand is marked but no list operand ends. */
  lemma FlagWrongIff<A(!new)>(h: Graph<A>, op: Op<A>, a: V<A>, b: V<A>, block: Size)
    requires WF(h) && Valid(h, a) && Valid(h, b) && Faithful(op) && !op.linked
    ensures GenOk(h, BinaryGen(h, op, a, b, block))
    ensures var g := BinaryGen(h, op, a, b, block);
      g.finite && !GenEnds(h, g) <==> (Marked(h, a) || Marked(h, b)) && !ValueEnds(h, a) && !ValueEnds(h, b)
  {
    BinaryEndsIff(h, op, a, b, block);
  }

  /**
    Where the flags of list operands are right, the flag of the result is wrong exactly if a scalar
    operand calls itself finite and no list operand is marked.
   */
  lemma FlagWrongCheck<A(!new)>(h: Graph<A>, op: Op<A>, a: V<A>, b: V<A>, block: Size)
    requires WF(h) && Valid(h, a) && Valid(h, b) && Faithful(op) && !op.linked
    requires (a.Ref? ==> (h.cells[a.id].finite <==> Ends(h, a.id))) &&
      (b.Ref? ==> (h.cells[b.id].finite <==> Ends(h, b.id)))
    ensures GenOk(h, BinaryGen(h, op, a, b, block))
    ensures var g := BinaryGen(h, op, a, b, block);
      g.finite && !GenEnds(h, g) <==>
        ((a.Atom? && h.flagged(a.x)) || (b.Atom? && h.flagged(b.x))) && !(a.Ref? && Marked(h, a)) &&
          !(b.Ref? && Marked(h, b))
  {
    FlagWrongIff(h, op, a, b, block);
  }

  // numbers, and signals, which are finite objects that a V list treats as scalars
  datatype Scalar = Number(r: real) | Signal(zs: seq<real>)

  function AddScalars(x: Scalar, y: Scalar): Scalar {
    match (x, y)
    case (Number(r), Number(s)) => Number(r + s)
    case (Number(r), Signal(zs)) => Signal(seq(|zs|, i requires 0 <= i < |zs| => r + zs[i]))
    case (Signal(zs), Number(s)) => Signal(seq(|zs|, i requires 0 <= i < |zs| => zs[i] + s))
    case (Signal(zs), Signal(ys)) => Signal(seq(Min(|zs|, |ys|), i requires 0 <= i < Min(|zs|, |ys|) => zs[i] + ys[i]))
  }
  function ZeroIsSame(x: Scalar): Short<Scalar> { if x == Number(0.0) then Same else General }
  const SIGNALPLUS := Op(AddScalars, ZeroIsSame, ZeroIsSame, false)

  lemma SignalPlusIsFaithful()
    ensures Faithful(SIGNALPLUS)
  {
    forall x, y | ZeroIsSame(x).Same? ensures AddScalars(x, y) == y && AddScalars(y, x) == y {
      if y.Signal? {
        assert AddScalars(x, y).zs == y.zs;
        assert AddScalars(y, x).zs == y.zs;
      }
    }
  }

  // the endless list 1 2 3 ..., where signals call themselves finite
  function Counting(): Graph<Scalar> {
    var one := Atom(Number(1.0));
    Graph([Cell(0, false, Thunk(0))], [Gen(Series(SIGNALPLUS, one, one), [], 0, false, 1, false, 0)],
      (x: Scalar) => x.Signal?)
  }

  /** Adding a signal to an endless list gives an endless list marked finite. */
  lemma FlagCanBeWrong(zs: seq<real>)
    ensures var g := BinaryGen(Counting(), SIGNALPLUS, Ref(0), Atom(Signal(zs)), 1);
      WF(Counting()) && GenOk(Counting(), g) && g.finite && !GenEnds(Counting(), g)
  {
    var h, one := Counting(), Atom(Number(1.0));
    SignalPlusIsFaithful();
    assert CellOk(h, 0) && GenWaits(h, 0);
    forall i: nat ensures At(h, 0, i, []) != Absent { SeriesPresent(h, SIGNALPLUS, one, one, i); }
    FlagWrongIff(h, SIGNALPLUS, Ref(0), Atom(Signal(zs)), 1);
  }

  // ---------- scans and pairs undo each other ----------

  /** The operators cancel: taking away what was added last gives the other operand back. */
  ghost predicate Cancel<A(!new)>(plus: Op<A>, minus: Op<A>) {
    forall x, y :: minus.f(plus.f(x, y), x) == y && plus.f(x, minus.f(y, x)) == y
  }

  lemma SumsAndDifferencesCancel()
    ensures Cancel(PLUS, MINUS)
  {}

  ghost predicate LeavesBefore<A(!new)>(h: Graph<A>, a: In<A>, i: nat, p: Path, level: nat)
    requires WF(h) && InOk(h, a, level)
  {
    forall c: nat :: c < i ==> InAt(h, a, c, p, level).Leaf?
  }

  lemma {:induction false} ScanOfLeaves<A(!new)>(h: Graph<A>, op: Op<A>, a: In<A>, i: nat, p: Path, level: nat)
    requires WF(h) && InOk(h, a, level)
    ensures ScanAt(h, op, None, a, i, p, level).Leaf? <==> LeavesBefore(h, a, i + 1, p, level)
    decreases i
  {
    if i > 0 { ScanOfLeaves(h, op, a, i - 1, p, level); }
  }

  /** The pairwise differences of running sums: list b reads as the scan of a, and g takes the pairs of b. */
  lemma PairsOfScan<A(!new)>(h: Graph<A>, plus: Op<A>, minus: Op<A>, a: In<A>, level: nat, g: Gen<A>, i: nat, p: Path)
    requires WF(h) && InOk(h, a, level) && GenOk(h, g) && Cancel(plus, minus) && g.kind == Pairs(minus, None)
    requires forall c: nat :: InAt(h, g.ins[0], c, p, g.level) == ScanAt(h, plus, None, a, c, p, level)
    requires InAt(h, a, i, p, level).Leaf?
    ensures GenAt(h, g, i, p) == InAt(h, a, i, p, level) <==> LeavesBefore(h, a, i, p, level)
  {
    ScanOfLeaves(h, plus, a, i, p, level);
    if i > 0 { ScanOfLeaves(h, plus, a, i - 1, p, level); }
  }

  lemma PairOfLeaves<A(!new)>(h: Graph<A>, g: Gen<A>, i: nat, p: Path)
    requires WF(h) && GenOk(h, g) && g.kind.Pairs? && g.kind.acc.None?
    ensures GenAt(h, g, i, p).Leaf? <==>
      InAt(h, g.ins[0], i, p, g.level).Leaf? && (i > 0 ==> InAt(h, g.ins[0], i - 1, p, g.level).Leaf?)
  {}

  /** The running sums of pairwise differences: list b reads as the pairs that g takes of its input. */
  lemma {:induction false} ScanOfPairs<A(!new)>(h: Graph<A>, plus: Op<A>, minus: Op<A>, g: Gen<A>, b: In<A>, level: nat,
          i: nat, p: Path)
    requires WF(h) && InOk(h, b, level) && GenOk(h, g) && Cancel(plus, minus) && g.kind == Pairs(minus, None)
    requires forall c: nat :: InAt(h, b, c, p, level) == GenAt(h, g, c, p)
    requires InAt(h, g.ins[0], i, p, g.level).Leaf?
    ensures ScanAt(h, plus, None, b, i, p, level) == InAt(h, g.ins[0], i, p, g.level) <==>
      LeavesBefore(h, g.ins[0], i, p, g.level)
    decreases i
  {
    forall c: nat
      ensures GenAt(h, g, c, p).Leaf? <==>
      InAt(h, g.ins[0], c, p, g.level).Leaf? && (c > 0 ==> InAt(h, g.ins[0], c - 1, p, g.level).Leaf?) {
      PairOfLeaves(h, g, c, p);
    }
    ScanOfLeaves(h, plus, b, i, p, level);
    assert InAt(h, b, i, p, level) == GenAt(h, g, i, p);
    if LeavesBefore(h, g.ins[0], i, p, g.level) {
      if i > 0 { ScanOfPairs(h, plus, minus, g, b, level, i - 1, p); }
    } else {
      var c: nat :| c < i && !InAt(h, g.ins[0], c, p, g.level).Leaf?;
      assert InAt(h, b, c, p, level) == GenAt(h, g, c, p);
    }
  }

  // ---------- on the lists that the primitives make ----------

  /** The graph after the scan of list n, and after the pairs of the list at m. */
  function AfterScan<A>(h: Graph<A>, op: Op<A>, n: nat, block: Size): Graph<A>
    requires n < |h.cells|
  {
    NewGen(h, ListGen(h, Scan(op, None), n, block))
  }
  function AfterPairs<A>(h: Graph<A>, op: Op<A>, n: nat, block: Size): Graph<A>
    requires n < |h.cells|
  {
    NewGen(h, ListGen(h, Pairs(op, None), n, block))
  }

  ghost predicate Operators<A(!new)>(plus: Op<A>, minus: Op<A>) {
    Faithful(plus) && !plus.linked && Faithful(minus) && !minus.linked && Cancel(plus, minus)
  }

  /** All earlier elements of the list are leaves, at this path. */
  ghost predicate LeavesUpTo<A(!new)>(h: Graph<A>, n: nat, i: nat, p: Path)
    requires WF(h) && n < |h.cells|
  {
    forall c: nat :: c < i ==> At(h, n, c, p).Leaf?
  }

  /** The differences of the running sums of a list give an element back exactly if all earlier ones are leaves. */
  lemma DifferencesOfSums<A(!new)>(h: Graph<A>, plus: Op<A>, minus: Op<A>, n: nat, block: Size, i: nat, p: Path)
    requires WF(h) && n < |h.cells| && Operators(plus, minus) && At(h, n, i, p).Leaf?
    ensures var k := AfterScan(h, plus, n, block); var l := AfterPairs(k, minus, |h.cells|, block);
      WF(l) && (At(l, |k.cells|, i, p) == At(h, n, i, p) <==> LeavesUpTo(h, n, i, p))
  {
    ListGenLabels(h, Scan(plus, None), n, block);
    var k, level := AfterScan(h, plus, n, block), h.cells[n].level + 1;
    ListGenLabels(k, Pairs(minus, None), |h.cells|, block);
    var g, a := ListGen(k, Pairs(minus, None), |h.cells|, block), Cursor(n, 0);
    forall c: nat ensures InAt(k, g.ins[0], c, p, g.level) == ScanAt(k, plus, None, a, c, p, level) {
      assert At(k, |h.cells|, c, p) == GenAt(h, ListGen(h, Scan(plus, None), n, block), c, p);
      ScanAgrees(h, k, level, plus, None, a, c, p);
    }
    forall c: nat ensures InAt(k, a, c, p, level) == At(h, n, c, p) { assert At(k, n, c, p) == At(h, n, c, p); }
    PairsOfScan(k, plus, minus, a, level, g, i, p);
    assert LeavesUpTo(h, n, i, p) <==> LeavesBefore(k, a, i, p, level);
  }

  /** The running sums of the differences, likewise. */
  lemma SumsOfDifferences<A(!new)>(h: Graph<A>, plus: Op<A>, minus: Op<A>, n: nat, block: Size, i: nat, p: Path)
    requires WF(h) && n < |h.cells| && Operators(plus, minus) && At(h, n, i, p).Leaf?
    ensures var k := AfterPairs(h, minus, n, block); var l := AfterScan(k, plus, |h.cells|, block);
      WF(l) && (At(l, |k.cells|, i, p) == At(h, n, i, p) <==> LeavesUpTo(h, n, i, p))
  {
    ListGenLabels(h, Pairs(minus, None), n, block);
    var g0, k := ListGen(h, Pairs(minus, None), n, block), AfterPairs(h, minus, n, block);
    ListGenLabels(k, Scan(plus, None), |h.cells|, block);
    var b, level := Cursor(|h.cells|, 0), k.cells[|h.cells|].level + 1;
    GenKept(h, k, g0, 0, []);
    forall c: nat ensures InAt(k, b, c, p, level) == GenAt(k, g0, c, p) {
      assert At(k, |h.cells|, c, p) == GenAt(h, g0, c, p);
      GenKept(h, k, g0, c, p);
    }
    forall c: nat ensures InAt(k, g0.ins[0], c, p, g0.level) == At(h, n, c, p) {
      assert At(k, n, c, p) == At(h, n, c, p);
    }
    ScanOfPairs(k, plus, minus, g0, b, level, i, p);
    assert LeavesUpTo(h, n, i, p) <==> LeavesBefore(k, g0.ins[0], i, p, g0.level);
  }

  /** On a list of numbers, however it is cut into blocks, both ways round give the list back. */
  lemma SumsAndDifferencesUndo(h: Graph<real>, n: nat, block: Size, i: nat)
    requires WF(h) && n < |h.cells| && (forall c: nat :: At(h, n, c, []).Leaf? || At(h, n, c, []).Absent?)
    ensures var k := AfterScan(h, PLUS, n, block); var l := AfterPairs(k, MINUS, |h.cells|, block);
      WF(l) && At(l, |k.cells|, i, []) == At(h, n, i, [])
    ensures var k := AfterPairs(h, MINUS, n, block); var l := AfterScan(k, PLUS, |h.cells|, block);
      WF(l) && At(l, |k.cells|, i, []) == At(h, n, i, [])
  {
    ArithmeticIsFaithful();
    SumsAndDifferencesCancel();
    if At(h, n, i, []).Leaf? {
      forall c: nat | c < i ensures At(h, n, c, []).Leaf? { if At(h, n, c, []).Absent? { AbsentOn(h, n, c, i); } }
      DifferencesOfSums(h, PLUS, MINUS, n, block, i, []);
      SumsOfDifferences(h, PLUS, MINUS, n, block, i, []);
    } else {
      EndsToo(h, Scan(PLUS, None), n, block, i);
      EndsToo(AfterScan(h, PLUS, n, block), Pairs(MINUS, None), |h.cells|, block, i);
      EndsToo(h, Pairs(MINUS, None), n, block, i);
      EndsToo(AfterPairs(h, MINUS, n, block), Scan(PLUS, None), |h.cells|, block, i);
    }
  }

  /** Where a list has no element, neither has its scan nor its pairs. */
  lemma EndsToo<A(!new)>(h: Graph<A>, kind: Kind<A>, n: nat, block: Size, i: nat)
    requires WF(h) && n < |h.cells| && (kind.Scan? || kind.Pairs?) && IsFold(kind) && KindOk(h, kind, 1)
    requires At(h, n, i, []).Absent?
    ensures var k := NewGen(h, ListGen(h, kind, n, block)); WF(k) && At(k, |h.cells|, i, []).Absent?
  {
    ListGenLabels(h, kind, n, block);
    var g := ListGen(h, kind, n, block);
    assert InAt(h, g.ins[0], i, [], g.level).Absent?;
    assert GenAt(h, g, i, []).Absent?;
  }

  // [[1] [3 4]], as three filled nodes
  function Ragged(): Graph<real> {
    Graph([Cell(0, true, Filled([Atom(1.0)], End)), Cell(0, true, Filled([Atom(3.0), Atom(4.0)], End)),
           Cell(0, true, Filled([Ref(0), Ref(1)], End))], [], (x: real) => false)
  }

  /** The running sum of [[1] [3 4]] is [[1] [4]]: the 4 cannot come back. */
  lemma RunningSumLosesElements()
    ensures WF(Ragged()) && At(Ragged(), 2, 1, [1]) == Leaf(4.0) && !LeavesUpTo(Ragged(), 2, 1, [1])
    ensures var k := AfterScan(Ragged(), PLUS, 2, 1); var l := AfterPairs(k, MINUS, 3, 1);
      WF(l) && At(l, |k.cells|, 1, [1]) != At(Ragged(), 2, 1, [1])
  {
    var h := Ragged();
    forall n | 0 <= n < 3 ensures CellOk(h, n) {}
    assert [1][1..] == [];
    assert Obs(h, Ref(1), [1]) == At(h, 1, 1, []) == Leaf(4.0);
    assert At(h, 2, 0, [1]) == Obs(h, Ref(0), [1]) == At(h, 0, 1, []);
    ArithmeticIsFaithful();
    SumsAndDifferencesCancel();
    DifferencesOfSums(h, PLUS, MINUS, 2, 1, 1, [1]);
  }
}
