/** The store's operations: applying operators to values, reading cursors, and forcing nodes. */
module LazyRun {
  import opened Basics
  import opened LazyLists
  import opened LazyPaths
  import opened LazyStore
  import opened LazyTurns
  import opened LazyEach

  type Size = n: nat | n > 0 witness 1

  predicate Exists<A>(h: Graph<A>, a: In<A>) { (a.Const? ==> Valid(h, a.v)) && (a.Cursor? ==> a.id < |h.cells|) }

  function Above<A>(h: Graph<A>, ins: seq<In<A>>): (level: nat)
    requires forall j :: 0 <= j < |ins| ==> Exists(h, ins[j])
    ensures forall j :: 0 <= j < |ins| ==> InOk(h, ins[j], level)
  {
    if ins == [] then 0
    else
      assert Exists(h, ins[0]) && forall j :: 0 <= j < |ins| - 1 ==> ins[1..][j] == ins[j + 1];
      var rest, own := Above(h, ins[1..]), if ins[0].Cursor? then h.cells[ins[0].id].level + 1 else 0;
      assert forall j :: 0 < j < |ins| ==> ins[j] == ins[1..][j - 1] && InOk(h, ins[1..][j - 1], rest);
      if rest < own then own else rest
  }

  function Marked<A>(h: Graph<A>, v: V<A>): bool
    requires Valid(h, v)
  {
    match v case Atom(x) => h.flagged(x) case Ref(n) => h.cells[n].finite
  }

  function UnaryGen<A>(h: Graph<A>, f: A -> A, a: V<A>, block: Size): Gen<A>
    requires Valid(h, a)
  {
    Gen(Unary(f), [Input(a)], Above(h, [Input(a)]), Marked(h, a), block, false, 0)
  }

  function BinaryGen<A>(h: Graph<A>, op: Op<A>, a: V<A>, b: V<A>, block: Size): Gen<A>
    requires Valid(h, a) && Valid(h, b)
  {
    var kind, ins := if op.linked then Linked(op) else Binary(op), [Input(a), Input(b)];
    Gen(kind, ins, Above(h, ins), Marked(h, a) || Marked(h, b), block, false, 0)
  }

  lemma UnaryLabels<A(!new)>(h: Graph<A>, f: A -> A, a: V<A>, block: Size)
    requires WF(h) && Valid(h, a) && a.Ref?
    ensures var k := NewGen(h, UnaryGen(h, f, a, block)); Keeps(h, k) && Below(h, k, 0) && MarksStay(h, k)
    ensures var k := NewGen(h, UnaryGen(h, f, a, block));
      forall p :: Obs(k, Ref(|h.cells|), p) == Apply1(f, Obs(h, a, p))
  {
    var g := UnaryGen(h, f, a, block);
    assert GenEnds(h, g) <==> Ends(h, a.id) by {
      forall i: nat ensures GenAt(h, g, i, []).Absent? <==> At(h, a.id, i, []).Absent? {}
      if i: nat :| At(h, a.id, i, []) == Absent { assert GenAt(h, g, i, []) == Absent; }
    }
    NewGenHonest(h, g);
    NewGenExact(h, g);
    NewGenKeeps(h, g);
    var k := NewGen(h, g);
    forall p ensures Obs(k, Ref(|h.cells|), p) == Apply1(f, Obs(h, a, p)) {
      if p != [] {
        assert [p[0]] + p[1..] == p;
        InputLabels(h, a, g.level, p[0], p[1..]);
        assert At(k, |h.cells|, p[0], p[1..]) == GenAt(h, g, p[0], p[1..]);
      }
    }
  }

  lemma BinaryLabels<A(!new)>(h: Graph<A>, op: Op<A>, a: V<A>, b: V<A>, block: Size)
    requires WF(h) && Valid(h, a) && Valid(h, b) && (a.Ref? || b.Ref?) && Faithful(op)
    ensures var k := NewGen(h, BinaryGen(h, op, a, b, block));
      Keeps(h, k) && Below(h, k, 0) && (!op.linked ==> MarksStay(h, k))
    ensures var k := NewGen(h, BinaryGen(h, op, a, b, block));
      forall p :: Obs(k, Ref(|h.cells|), p) == OpLabel(h, op, a, b, p)
  {
    var g := BinaryGen(h, op, a, b, block);
    NewGenKeeps(h, g);
    if !op.linked { BinaryMarks(h, op, a, b, block); }
    var k := NewGen(h, g);
    forall p ensures Obs(k, Ref(|h.cells|), p) == OpLabel(h, op, a, b, p) {
      if p != [] {
        assert [p[0]] + p[1..] == p;
        assert InOk(h, g.ins[0], g.level) && InOk(h, g.ins[1], g.level);
        InputLabels(h, a, g.level, p[0], p[1..]);
        InputLabels(h, b, g.level, p[0], p[1..]);
        assert At(k, |h.cells|, p[0], p[1..]) == GenAt(h, g, p[0], p[1..]);
      }
    }
  }

  ghost predicate ValueEnds<A(!new)>(h: Graph<A>, v: V<A>)
    requires WF(h) && Valid(h, v)
  {
    v.Ref? && Ends(h, v.id)
  }

  /** The list of an element-wise operator ends exactly if one of its operands is a list that ends. */
  lemma BinaryEndsIff<A(!new)>(h: Graph<A>, op: Op<A>, a: V<A>, b: V<A>, block: Size)
    requires WF(h) && Valid(h, a) && Valid(h, b) && Faithful(op) && !op.linked
    ensures GenOk(h, BinaryGen(h, op, a, b, block))
    ensures GenEnds(h, BinaryGen(h, op, a, b, block)) <==> ValueEnds(h, a) || ValueEnds(h, b)
  {
    var g := BinaryGen(h, op, a, b, block);
    if a.Ref? && Ends(h, a.id) {
      var i: nat :| At(h, a.id, i, []) == Absent;
      assert GenAt(h, g, i, []) == Absent;
    }
    if b.Ref? && Ends(h, b.id) {
      var i: nat :| At(h, b.id, i, []) == Absent;
      assert GenAt(h, g, i, []) == Absent;
    }
    if GenEnds(h, g) {
      var i: nat :| GenAt(h, g, i, []) == Absent;
      var l, m := InAt(h, Input(a), i, [], g.level), InAt(h, Input(b), i, [], g.level);
      assert GenAt(h, g, i, []) == Combine(op, l, m);
      if l == Absent {
        NotConstant(h, Input(a), i, g.level);
        assert a.Ref? && At(h, a.id, i, []) == Absent;
      } else {
        NotConstant(h, Input(b), i, g.level);
        assert b.Ref? && At(h, b.id, i, []) == Absent;
      }
    }
  }

  lemma BinaryMarks<A(!new)>(h: Graph<A>, op: Op<A>, a: V<A>, b: V<A>, block: Size)
    requires WF(h) && Valid(h, a) && Valid(h, b) && Faithful(op) && !op.linked
    ensures var k := NewGen(h, BinaryGen(h, op, a, b, block)); Keeps(h, k) && MarksStay(h, k)
  {
    var g := BinaryGen(h, op, a, b, block);
    BinaryEndsIff(h, op, a, b, block);
    NewGenHonest(h, g);
    NewGenExact(h, g);
  }

  function Inputs<A>(row: seq<V<A>>): (ins: seq<In<A>>)
    ensures |ins| == |row|
  {
    seq(|row|, j requires 0 <= j < |row| => Input(row[j]))
  }

  function MapperGen<A>(h: Graph<A>, f: seq<A> -> A, row: seq<V<A>>, block: Size): Gen<A>
    requires AllValid(h, row)
  {
    var finite := exists j :: 0 <= j < |row| && row[j].Ref? && h.cells[row[j].id].finite;
    Gen(Mapper(f), Inputs(row), Above(h, Inputs(row)), finite, block, false, 0)
  }

  /** A mapped list ends exactly if some argument is a list that ends. */
  lemma MapperEndsIff<A(!new)>(h: Graph<A>, f: seq<A> -> A, row: seq<V<A>>, block: Size)
    requires WF(h) && AllValid(h, row)
    ensures GenOk(h, MapperGen(h, f, row, block))
    ensures GenEnds(h, MapperGen(h, f, row, block)) <==> exists j :: 0 <= j < |row| && ValueEnds(h, row[j])
  {
    var g := MapperGen(h, f, row, block);
    if i: nat :| GenAt(h, g, i, []) == Absent {
      var j :| 0 <= j < |row| && InRow(h, g.ins, i, [], g.level)[j].Absent?;
      NotConstant(h, g.ins[j], i, g.level);
      assert At(h, row[j].id, i, []) == Absent && ValueEnds(h, row[j]);
    }
    if j :| 0 <= j < |row| && ValueEnds(h, row[j]) {
      var i: nat :| At(h, row[j].id, i, []) == Absent;
      assert InRow(h, g.ins, i, [], g.level)[j].Absent?;
      assert GenAt(h, g, i, []) == Absent;
    }
  }

  lemma MapperLabels<A(!new)>(h: Graph<A>, f: seq<A> -> A, row: seq<V<A>>, block: Size)
    requires WF(h) && AllValid(h, row) && exists j :: 0 <= j < |row| && row[j].Ref?
    ensures var k := NewGen(h, MapperGen(h, f, row, block)); Keeps(h, k) && Below(h, k, 0) && MarksStay(h, k)
    ensures var k := NewGen(h, MapperGen(h, f, row, block));
      forall p :: Obs(k, Ref(|h.cells|), p) == CombineAll(f, ObsAll(h, row, p))
  {
    var g := MapperGen(h, f, row, block);
    MapperEndsIff(h, f, row, block);
    if Exact(h) && !g.finite {
      forall j | 0 <= j < |row| ensures !ValueEnds(h, row[j]) { assert row[j].Ref? ==> !h.cells[row[j].id].finite; }
    }
    NewGenHonest(h, g);
    NewGenExact(h, g);
    NewGenKeeps(h, g);
    var k := NewGen(h, g);
    forall p ensures Obs(k, Ref(|h.cells|), p) == CombineAll(f, ObsAll(h, row, p)) {
      if p == [] {
        var j :| 0 <= j < |row| && row[j].Ref?;
        assert ObsAll(h, row, p)[j].Nest?;
      } else {
        assert [p[0]] + p[1..] == p;
        forall j | 0 <= j < |row| ensures InAt(h, g.ins[j], p[0], p[1..], g.level) == Obs(h, row[j], p) {
          assert InOk(h, g.ins[j], g.level);
          InputLabels(h, row[j], g.level, p[0], p[1..]);
        }
        assert InRow(h, g.ins, p[0], p[1..], g.level) == ObsAll(h, row, p);
        assert At(k, |h.cells|, p[0], p[1..]) == GenAt(h, g, p[0], p[1..]);
      }
    }
  }

  lemma ScalarsCombine<A(!new)>(h: Graph<A>, f: seq<A> -> A, row: seq<V<A>>, xs: seq<A>, p: Path)
    requires WF(h) && AllValid(h, row) && |xs| == |row| && forall j :: 0 <= j < |row| ==> row[j] == Atom(xs[j])
    ensures CombineAll(f, ObsAll(h, row, p)) == Leaf(f(xs))
  {
    var ls := ObsAll(h, row, p);
    assert seq(|ls|, j requires 0 <= j < |ls| => if ls[j].Leaf? then ls[j].x else f([])) == xs;
  }

  // ---------- generators over one list ----------

  /** A scan or pairs generator over the list at n. */
  function ListGen<A>(h: Graph<A>, kind: Kind<A>, n: nat, block: Size): Gen<A>
    requires n < |h.cells|
  {
    Gen(kind, [Cursor(n, 0)], h.cells[n].level + 1, h.cells[n].finite, block, false, 0)
  }

  predicate IsFold<A>(kind: Kind<A>) {
    match kind
    case Scan(_, acc) => acc.None?
    case Pairs(_, acc) => acc.None?
    case IScan(_, _, once) => once
    case IPairs(_, _, once) => once
    case _ => false
  }

  lemma {:induction false} ScanEndsAt<A(!new)>(h: Graph<A>, op: Op<A>, acc: Option<V<A>>, a: In<A>, i: nat, level: nat)
      returns (c: nat)
    requires WF(h) && InOk(h, a, level) && OptValid(h, acc) && ScanAt(h, op, acc, a, i, [], level).Absent?
    ensures InAt(h, a, c, [], level).Absent?
    decreases i
  {
    if InAt(h, a, i, [], level).Absent? || i == 0 { c := i; } else { c := ScanEndsAt(h, op, acc, a, i - 1, level); }
  }

  /** A scan, or the pairs, of a list end exactly if the list does. */
  lemma FoldEndsIff<A(!new)>(h: Graph<A>, kind: Kind<A>, n: nat, block: Size)
    requires WF(h) && n < |h.cells| && IsFold(kind) && KindOk(h, kind, 1)
    ensures GenOk(h, ListGen(h, kind, n, block)) && (GenEnds(h, ListGen(h, kind, n, block)) <==> Ends(h, n))
  {
    var g := ListGen(h, kind, n, block);
    assert GenOk(h, g);
    if i: nat :| At(h, n, i, []) == Absent {
      var e := if kind.IScan? then i + 1 else i;
      assert InAt(h, g.ins[0], i, [], g.level) == Absent;
      assert GenAt(h, g, e, []) == Absent;
    }
    if i: nat :| GenAt(h, g, i, []) == Absent { FoldEndsAt(h, g, n, i); }
  }

  lemma FoldEndsAt<A(!new)>(h: Graph<A>, g: Gen<A>, n: nat, i: nat)
    requires WF(h) && n < |h.cells| && GenOk(h, g) && IsFold(g.kind) && g.ins == [Cursor(n, 0)] &&
      GenAt(h, g, i, []).Absent?
    ensures Ends(h, n)
  {
    var c := i;
    if g.kind.Scan? { c := ScanEndsAt(h, g.kind.op, g.kind.acc, g.ins[0], i, g.level); }
    else if g.kind.IScan? {
      if i > 0 { c := ScanEndsAt(h, g.kind.op, Some(g.kind.z), g.ins[0], i - 1, g.level); }
    }
    else if i > 0 && !InAt(h, g.ins[0], i, [], g.level).Absent? { c := i - 1; }
    assert InAt(h, g.ins[0], c, [], g.level).Absent? && At(h, n, c, []).Absent?;
  }

  lemma ListGenLabels<A(!new)>(h: Graph<A>, kind: Kind<A>, n: nat, block: Size)
    requires WF(h) && n < |h.cells| && IsFold(kind) && KindOk(h, kind, 1)
    ensures var g := ListGen(h, kind, n, block); GenOk(h, g) && Keeps(h, NewGen(h, g)) && Below(h, NewGen(h, g), 0)
    ensures MarksStay(h, NewGen(h, ListGen(h, kind, n, block)))
    ensures var g := ListGen(h, kind, n, block); forall i, p :: At(NewGen(h, g), |h.cells|, i, p) == GenAt(h, g, i, p)
  {
    var g := ListGen(h, kind, n, block);
    assert GenOk(h, g);
    FoldEndsIff(h, kind, n, block);
    NewGenHonest(h, g);
    NewGenExact(h, g);
    NewGenKeeps(h, g);
  }

  lemma {:induction false} SeriesPresent<A(!new)>(h: Graph<A>, op: Op<A>, z: V<A>, step: V<A>, i: nat)
    requires WF(h) && Valid(h, z) && Valid(h, step)
    ensures !SeriesAt(h, op, z, step, i, []).Absent?
    decreases i
  {
    if i > 0 { SeriesPresent(h, op, z, step, i - 1); }
  }

  function SeriesGen<A>(op: Op<A>, start: V<A>, step: V<A>, block: Size): Gen<A> {
    Gen(Series(op, start, step), [], 0, false, block, false, 0)
  }

  // ---------- each-mappers ----------

  /** The mapper of the list that the row makes at the level of the bit. */
  function EachGen<A>(h: Graph<A>, f: Fun<A>, row: seq<V<A>>, masks: seq<nat>, bit: nat, below: nat, finite: bool,
          block: Size): Gen<A>
    requires AllValid(h, row) && |masks| == |row| && below > 0
  {
    var ins := SubIns(row, masks, bit);
    assert forall j :: 0 <= j < |row| ==> ins[j] == Input(row[j]) || ins[j] == Const(row[j]);
    Gen(Each(f, masks, bit + 1, below - 1), ins, Above(h, ins), finite, block, false, 0)
  }

  predicate AllIteratedFinite<A>(h: Graph<A>, row: seq<V<A>>, masks: seq<nat>, bit: nat)
    requires AllValid(h, row) && |masks| == |row|
  {
    forall j :: 0 <= j < |row| && IsIterated(row[j], masks[j], bit) ==> h.cells[row[j].id].finite
  }

  lemma EachLabels<A(!new)>(h: Graph<A>, f: Fun<A>, row: seq<V<A>>, masks: seq<nat>, bit: nat, below: nat, finite: bool,
          block: Size)
    requires WF(h) && AllValid(h, row) && FunOk(f, |row|) && |masks| == |row| && below > 0 &&
      !AllConstant(row, masks, bit)
    requires finite ==> AllIteratedFinite(h, row, masks, bit)
    ensures var k := NewGen(h, EachGen(h, f, row, masks, bit, below, finite, block));
      Keeps(h, k) && Below(h, k, 0) && StaysHonest(h, k)
    ensures var k := NewGen(h, EachGen(h, f, row, masks, bit, below, finite, block));
      forall p :: Obs(k, Ref(|h.cells|), p) == MapAt(h, f, row, masks, bit, below, p)
  {
    var g := EachGen(h, f, row, masks, bit, below, finite, block);
    if Honest(h) && finite { EachEnds(h, f, row, masks, bit, below, block); }
    NewGenHonest(h, g);
    NewGenKeeps(h, g);
    var k := NewGen(h, g);
    forall p ensures Obs(k, Ref(|h.cells|), p) == MapAt(h, f, row, masks, bit, below, p) {
      if p == [] {
        MapHere(h, f, row, masks, bit, below);
      } else {
        SubMapper(h, f, row, masks, bit, below, g, p[0], p[1..]);
        assert [p[0]] + p[1..] == p;
        assert At(k, |h.cells|, p[0], p[1..]) == GenAt(h, g, p[0], p[1..]);
      }
    }
  }

  lemma EachEnds<A(!new)>(h: Graph<A>, f: Fun<A>, row: seq<V<A>>, masks: seq<nat>, bit: nat, below: nat, block: Size)
    requires WF(h) && AllValid(h, row) && FunOk(f, |row|) && |masks| == |row| && below > 0 &&
      !AllConstant(row, masks, bit)
    requires Honest(h) && AllIteratedFinite(h, row, masks, bit)
    ensures GenOk(h, EachGen(h, f, row, masks, bit, below, true, block)) &&
      GenEnds(h, EachGen(h, f, row, masks, bit, below, true, block))
  {
    var g := EachGen(h, f, row, masks, bit, below, true, block);
    var j :| 0 <= j < |row| && IsIterated(row[j], masks[j], bit);
    var i: nat :| At(h, row[j].id, i, []) == Absent;
    OutAt(h, g, j, i, []);
  }

  /** Where an argument has run out, a mapped list has no element. */
  lemma OutAt<A(!new)>(h: Graph<A>, g: Gen<A>, j: nat, i: nat, p: Path)
    requires WF(h) && GenOk(h, g) && g.kind.Each? && j < |g.ins| && InAt(h, g.ins[j], i, [], g.level) == Absent
    ensures GenAt(h, g, i, p) == Absent
  {
    var v := View(g.ins, i, NoPaths(|g.ins|), g.level);
    assert v.before[j] + [] == [] && Seen(h, v, j, []) == Absent && Missing(h, v);
  }

  /** The values are the results of the calls, over the same row. */
  ghost predicate Called<A(!new)>(h: Graph<A>, fs: seq<Fun<A>>, row: seq<V<A>>, vs: seq<V<A>>) {
    WF(h) && AllValid(h, row) && AllValid(h, vs) && |vs| <= |fs| &&
      (forall c :: 0 <= c < |fs| ==> FunOk(fs[c], |row|)) &&
    forall c, p :: 0 <= c < |vs| ==> Obs(h, vs[c], p) == CallAt(h, fs[c], row, p)
  }

  lemma CalledKept<A(!new)>(h: Graph<A>, k: Graph<A>, fs: seq<Fun<A>>, row: seq<V<A>>, vs: seq<V<A>>)
    requires Keeps(h, k) && Called(h, fs, row, vs)
    ensures Called(k, fs, row, vs)
  {
    forall c, p | 0 <= c < |vs| ensures Obs(k, vs[c], p) == CallAt(k, fs[c], row, p) {
      ObsKept(h, k, vs[c], p);
      CallKept(h, k, fs[c], row, p);
    }
  }

  lemma PrimLabels<A(!new)>(h: Graph<A>, f: Fun<A>, row: seq<V<A>>, vs: seq<V<A>>, p: Path)
    requires f.Prim? && Called(h, f.args, row, vs) && |vs| == |f.args|
    ensures FunOk(f, |row|) && CallAt(h, f, row, p) == CombineAll(f.f, ObsAll(h, vs, p))
  {
    RowViewOk(h, row);
    var ls := seq(|f.args|, k requires 0 <= k < |f.args| => FunAt(h, f.args[k], RowView(row), p));
    forall c | 0 <= c < |vs| ensures ls[c] == ObsAll(h, vs, p)[c] {
      assert Obs(h, vs[c], p) == CallAt(h, f.args[c], row, p);
    }
    assert ls == ObsAll(h, vs, p);
  }

  /** A list literal: a filled node with the items. */
  lemma ListingLabels<A(!new)>(h: Graph<A>, f: Fun<A>, row: seq<V<A>>, vs: seq<V<A>>, p: Path)
    requires f.Listing? && Called(h, f.items, row, vs) && |vs| == |f.items|
    requires Keeps(h, NewNode(h, 0, true, vs, End))
    ensures FunOk(f, |row|) && Obs(NewNode(h, 0, true, vs, End), Ref(|h.cells|), p) == CallAt(h, f, row, p)
  {
    var k := NewNode(h, 0, true, vs, End);
    RowViewOk(h, row);
    assert CellOk(k, |h.cells|);
    if p != [] && p[0] < |vs| {
      ObsKept(h, k, vs[p[0]], p[1..]);
      assert Obs(h, vs[p[0]], p[1..]) == CallAt(h, f.items[p[0]], row, p[1..]);
    }
  }

  lemma NodeHonest<A(!new)>(h: Graph<A>, vs: seq<V<A>>)
    requires Keeps(h, NewNode(h, 0, true, vs, End))
    ensures MarksStay(h, NewNode(h, 0, true, vs, End))
  {
    var k := NewNode(h, 0, true, vs, End);
    assert CellOk(k, |h.cells|);
    assert At(k, |h.cells|, |vs|, []) == Absent;
    HonestIf(h, k);
    ExactIf(h, k);
  }

  class Store<A(!new)> {
    var graph: Graph<A>
    const block: Size

    // V::unaryOp
    method UnaryOp(f: A -> A, a: V<A>) returns (r: V<A>)
      requires WF(graph) && Valid(graph, a)
      modifies this
      ensures Keeps(old(graph), graph) && Below(old(graph), graph, 0) && MarksStay(old(graph), graph) &&
        Valid(graph, r)
      ensures forall p :: Obs(graph, r, p) == Apply1(f, Obs(old(graph), a, p))
    {
      match a
      case Atom(x) =>
        r := Atom(f(x));
        KeepsAll(graph);
      case Ref(n) =>
        UnaryLabels(graph, f, a, block);
        r := Ref(|graph.cells|);
        graph := NewGen(graph, UnaryGen(graph, f, a, block));
    }

    // BinaryOp::makeVList: at least one operand is a list
    method MakeVList(op: Op<A>, a: V<A>, b: V<A>) returns (r: V<A>)
      requires WF(graph) && Valid(graph, a) && Valid(graph, b) && (a.Ref? || b.Ref?) && Faithful(op)
      modifies this
      ensures Keeps(old(graph), graph) && Below(old(graph), graph, 0) &&
        (!op.linked ==> MarksStay(old(graph), graph)) && Valid(graph, r)
      ensures forall p :: Obs(graph, r, p) == OpLabel(old(graph), op, a, b, p)
    {
      if a.Atom? || b.Atom? {
        forall p ensures OpLabel(graph, op, a, b, p) == Combine(op, Obs(graph, a, p), Obs(graph, b, p)) {
          ScalarLabel(graph, op, a, b, p);
        }
      }
      if a.Atom? {
        match op.left(a.x)
        case General =>
        case Same => r := b; return;
        case Map(f) => r := UnaryOp(f, b); return;
      }
      if b.Atom? {
        match op.right(b.x)
        case General =>
        case Same => r := a; return;
        case Map(f) => r := UnaryOp(f, a); return;
      }
      BinaryLabels(graph, op, a, b, block);
      r := Ref(|graph.cells|);
      graph := NewGen(graph, BinaryGen(graph, op, a, b, block));
    }

    method BinaryOp(op: Op<A>, a: V<A>, b: V<A>) returns (r: V<A>)
      requires WF(graph) && Valid(graph, a) && Valid(graph, b) && Faithful(op)
      modifies this
      ensures Keeps(old(graph), graph) && Below(old(graph), graph, 0) &&
        (!op.linked ==> MarksStay(old(graph), graph)) && Valid(graph, r)
      ensures forall p :: Obs(graph, r, p) == OpLabel(old(graph), op, a, b, p)
    {
      match a
      case Atom(x) => r := BinaryOpWithReal(op, x, b);
      case Ref(m) => r := BinaryOpWithVList(op, m, b);
    }

    method BinaryOpWithReal(op: Op<A>, x: A, b: V<A>) returns (r: V<A>)
      requires WF(graph) && Valid(graph, b) && Faithful(op)
      modifies this
      ensures Keeps(old(graph), graph) && Below(old(graph), graph, 0) &&
        (!op.linked ==> MarksStay(old(graph), graph)) && Valid(graph, r)
      ensures forall p :: Obs(graph, r, p) == OpLabel(old(graph), op, Atom(x), b, p)
    {
      match b
      case Atom(y) =>
        r := Atom(op.f(x, y));
        forall p ensures Obs(graph, r, p) == OpLabel(graph, op, Atom(x), b, p) {
          ScalarLabel(graph, op, Atom(x), b, p);
        }
      case Ref(_) => r := MakeVList(op, Atom(x), b);
    }

    method BinaryOpWithVList(op: Op<A>, m: nat, b: V<A>) returns (r: V<A>)
      requires WF(graph) && m < |graph.cells| && Valid(graph, b) && Faithful(op)
      modifies this
      ensures Keeps(old(graph), graph) && Below(old(graph), graph, 0) &&
        (!op.linked ==> MarksStay(old(graph), graph)) && Valid(graph, r)
      ensures forall p :: Obs(graph, r, p) == OpLabel(old(graph), op, Ref(m), b, p)
    {
      r := MakeVList(op, Ref(m), b);
    }

    // mcx_: re-applied to the elements by the mapper it makes
    method Multichannel(f: seq<A> -> A, row: seq<V<A>>) returns (r: V<A>)
      requires WF(graph) && AllValid(graph, row)
      modifies this
      ensures Keeps(old(graph), graph) && Below(old(graph), graph, 0) && MarksStay(old(graph), graph) &&
        Valid(graph, r)
      ensures forall p :: Obs(graph, r, p) == CombineAll(f, ObsAll(old(graph), row, p))
    {
      if exists j :: 0 <= j < |row| && row[j].Ref? {
        MapperLabels(graph, f, row, block);
        r := Ref(|graph.cells|);
        graph := NewGen(graph, MapperGen(graph, f, row, block));
      } else {
        var xs := seq(|row|, j requires 0 <= j < |row| => match row[j] case Atom(x) => x case Ref(_) => f([]));
        r := Atom(f(xs));
        forall p ensures Obs(graph, r, p) == CombineAll(f, ObsAll(graph, row, p)) {
          ScalarsCombine(graph, f, row, xs, p);
        }
      }
    }

    // DoScan, DoPairwise, DoIScan and DoIPairwise, on a list
    method Fold(kind: Kind<A>, n: nat) returns (r: V<A>)
      requires WF(graph) && n < |graph.cells| && IsFold(kind) && KindOk(graph, kind, 1)
      modifies this
      ensures Keeps(old(graph), graph) && Below(old(graph), graph, 0) && MarksStay(old(graph), graph)
      ensures graph == NewGen(old(graph), ListGen(old(graph), kind, n, block)) && r == Ref(|old(graph).cells|)
      ensures forall i, p :: At(graph, r.id, i, p) == GenAt(old(graph), ListGen(old(graph), kind, n, block), i, p)
    {
      ListGenLabels(graph, kind, n, block);
      r := Ref(|graph.cells|);
      graph := NewGen(graph, ListGen(graph, kind, n, block));
    }

    // by and grow
    method NewSeries(op: Op<A>, start: V<A>, step: V<A>) returns (r: V<A>)
      requires WF(graph) && Valid(graph, start) && Valid(graph, step) && Faithful(op) && !op.linked
      modifies this
      ensures Keeps(old(graph), graph) && Below(old(graph), graph, 0) && MarksStay(old(graph), graph)
      ensures r == Ref(|old(graph).cells|) && Valid(graph, r)
      ensures forall i, p :: At(graph, r.id, i, p) == SeriesAt(old(graph), op, start, step, i, p)
    {
      var g := SeriesGen(op, start, step, block);
      if i: nat :| GenAt(graph, g, i, []).Absent? { SeriesPresent(graph, op, start, step, i); }
      NewGenHonest(graph, g);
      NewGenExact(graph, g);
      NewGenKeeps(graph, g);
      r := Ref(|graph.cells|);
      graph := NewGen(graph, g);
    }

    // ---------- calls ----------

    // applying a function to values
    method Call(f: Fun<A>, row: seq<V<A>>) returns (r: V<A>)
      requires WF(graph) && AllValid(graph, row) && FunOk(f, |row|)
      modifies this
      ensures Keeps(old(graph), graph) && Below(old(graph), graph, 0) && MarksStay(old(graph), graph) &&
        Valid(graph, r)
      ensures forall p :: Obs(graph, r, p) == CallAt(old(graph), f, row, p)
      decreases f
    {
      match f
      case Arg(j) =>
        r := row[j];
        KeepsAll(graph);
        forall p ensures Obs(graph, r, p) == CallAt(graph, f, row, p) { RowSeen(graph, row, j, p); }
      case Lit(x) =>
        r := Atom(x);
        KeepsAll(graph);
      case Prim(g, args) =>
        var vs := CallAll(args, row);
        ghost var h := graph;
        r := Multichannel(g, vs);
        KeepsOn(old(graph), h, graph);
        forall p ensures Obs(graph, r, p) == CallAt(old(graph), f, row, p) {
          PrimLabels(h, f, row, vs, p);
          CallKept(old(graph), h, f, row, p);
        }
      case Listing(items) =>
        var vs := CallAll(items, row);
        NewNodeKeeps(graph, 0, true, vs, End);
        ghost var h := graph;
        r := Ref(|graph.cells|);
        graph := NewNode(graph, 0, true, vs, End);
        KeepsOn(old(graph), h, graph);
        NodeHonest(h, vs);
        forall p ensures Obs(graph, r, p) == CallAt(old(graph), f, row, p) {
          ListingLabels(h, f, row, vs, p);
          CallKept(old(graph), h, f, row, p);
        }
    }

    method CallAll(fs: seq<Fun<A>>, row: seq<V<A>>) returns (vs: seq<V<A>>)
      requires WF(graph) && AllValid(graph, row) && forall c :: 0 <= c < |fs| ==> FunOk(fs[c], |row|)
      modifies this
      ensures Keeps(old(graph), graph) && Below(old(graph), graph, 0) && MarksStay(old(graph), graph)
      ensures |vs| == |fs| && Called(graph, fs, row, vs)
      decreases fs
    {
      vs := [];
      KeepsAll(graph);
      for c := 0 to |fs|
        invariant Keeps(old(graph), graph) && Below(old(graph), graph, 0) && MarksStay(old(graph), graph)
        invariant |vs| == c && Called(graph, fs, row, vs)
      {
        ghost var h := graph;
        var v := Call(fs[c], row);
        KeepsOn(old(graph), h, graph);
        CalledKept(h, graph, fs, row, vs);
        forall p ensures Obs(graph, v, p) == CallAt(graph, fs[c], row, p) { CallKept(h, graph, fs[c], row, p); }
        vs := vs + [v];
      }
    }

    // ---------- the loops over one block ----------

    method UnaryLoop(f: A -> A, chunk: seq<V<A>>) returns (vs: seq<V<A>>)
      requires WF(graph) && AllValid(graph, chunk)
      modifies this
      ensures Keeps(old(graph), graph) && Below(old(graph), graph, 0) && MarksStay(old(graph), graph)
      ensures AllValid(graph, chunk) && Mapped1(graph, f, chunk, vs)
    {
      vs := [];
      for i := 0 to |chunk|
        invariant Keeps(old(graph), graph) && Below(old(graph), graph, 0) && MarksStay(old(graph), graph)
        invariant AllValid(graph, chunk) && Mapped1(graph, f, chunk[..i], vs)
      {
        ghost var before := graph;
        var v := UnaryOp(f, chunk[i]);
        KeepsOn(old(graph), before, graph);
        Mapped1More(before, graph, f, chunk[..i], vs, chunk[i], v);
        assert chunk[..i + 1] == chunk[..i] + [chunk[i]];
        vs := vs + [v];
      }
      assert chunk[..|chunk|] == chunk;
    }

    method BinaryLoop(op: Op<A>, a: seq<V<A>>, b: seq<V<A>>) returns (vs: seq<V<A>>)
      requires WF(graph) && AllValid(graph, a) && AllValid(graph, b) && |a| == |b| && Faithful(op)
      modifies this
      ensures Keeps(old(graph), graph) && Below(old(graph), graph, 0) && (!op.linked ==> MarksStay(old(graph), graph))
      ensures AllValid(graph, a) && AllValid(graph, b) && Mapped2(graph, op, a, b, vs)
    {
      vs := [];
      for i := 0 to |a|
        invariant Keeps(old(graph), graph) && Below(old(graph), graph, 0) &&
          (!op.linked ==> MarksStay(old(graph), graph))
        invariant AllValid(graph, a) && AllValid(graph, b) && Mapped2(graph, op, a[..i], b[..i], vs)
      {
        ghost var before := graph;
        var v := BinaryOp(op, a[i], b[i]);
        KeepsOn(old(graph), before, graph);
        Mapped2More(before, graph, op, a[..i], b[..i], vs, a[i], b[i], v);
        assert a[..i + 1] == a[..i] + [a[i]] && b[..i + 1] == b[..i] + [b[i]];
        vs := vs + [v];
      }
      assert a[..|a|] == a && b[..|b|] == b;
    }

    // BinaryOp::scan
    method ScanLoop(op: Op<A>, z: V<A>, chunk: seq<V<A>>) returns (x: V<A>, vs: seq<V<A>>)
      requires WF(graph) && Valid(graph, z) && AllValid(graph, chunk) && Faithful(op) && !op.linked
      modifies this
      ensures Keeps(old(graph), graph) && Below(old(graph), graph, 0) && MarksStay(old(graph), graph)
      ensures Valid(graph, z) && AllValid(graph, chunk) && Scanned(graph, op, Some(z), chunk, vs)
      ensures x == if vs == [] then z else vs[|vs| - 1]
    {
      x, vs := z, [];
      for i := 0 to |chunk|
        invariant Keeps(old(graph), graph) && Below(old(graph), graph, 0) && MarksStay(old(graph), graph)
        invariant Valid(graph, z) && AllValid(graph, chunk) && Scanned(graph, op, Some(z), chunk[..i], vs)
        invariant x == if vs == [] then z else vs[|vs| - 1]
      {
        ghost var before := graph;
        x := BinaryOp(op, x, chunk[i]);
        KeepsOn(old(graph), before, graph);
        ScanMore(before, graph, op, z, chunk[..i], vs, chunk[i], x);
        assert chunk[..i + 1] == chunk[..i] + [chunk[i]];
        vs := vs + [x];
      }
      assert chunk[..|chunk|] == chunk;
    }

    // BinaryOp::pairs
    method PairsLoop(op: Op<A>, z: V<A>, chunk: seq<V<A>>) returns (x: V<A>, vs: seq<V<A>>)
      requires WF(graph) && Valid(graph, z) && AllValid(graph, chunk) && Faithful(op) && !op.linked
      modifies this
      ensures Keeps(old(graph), graph) && Below(old(graph), graph, 0) && MarksStay(old(graph), graph)
      ensures Valid(graph, z) && AllValid(graph, chunk) && Paired(graph, op, Some(z), chunk, vs)
      ensures x == if chunk == [] then z else chunk[|chunk| - 1]
    {
      x, vs := z, [];
      for i := 0 to |chunk|
        invariant Keeps(old(graph), graph) && Below(old(graph), graph, 0) && MarksStay(old(graph), graph)
        invariant Valid(graph, z) && AllValid(graph, chunk) && Paired(graph, op, Some(z), chunk[..i], vs)
        invariant x == if i == 0 then z else chunk[i - 1]
      {
        ghost var before := graph;
        var v := BinaryOp(op, chunk[i], x);
        KeepsOn(old(graph), before, graph);
        PairsMore(before, graph, op, z, chunk[..i], vs, chunk[i], v);
        assert chunk[..i + 1] == chunk[..i] + [chunk[i]];
        vs := vs + [v];
        x := chunk[i];
      }
      assert chunk[..|chunk|] == chunk;
    }

    // a scan whose accumulator may not have been set yet
    method ScanOn(op: Op<A>, acc: Option<V<A>>, chunk: seq<V<A>>) returns (x: V<A>, vs: seq<V<A>>)
      requires WF(graph) && OptValid(graph, acc) && AllValid(graph, chunk) && chunk != [] && Faithful(op) && !op.linked
      modifies this
      ensures Keeps(old(graph), graph) && Below(old(graph), graph, 0) && MarksStay(old(graph), graph)
      ensures OptValid(graph, acc) && AllValid(graph, chunk) && Scanned(graph, op, acc, chunk, vs) && x == vs[|vs| - 1]
    {
      if acc.None? {
        x, vs := ScanLoop(op, chunk[0], chunk[1..]);
        ScanFrom(graph, op, chunk, vs);
        vs := [chunk[0]] + vs;
      } else {
        x, vs := ScanLoop(op, acc.value, chunk);
      }
    }

    method PairsOn(op: Op<A>, acc: Option<V<A>>, chunk: seq<V<A>>) returns (x: V<A>, vs: seq<V<A>>)
      requires WF(graph) && OptValid(graph, acc) && AllValid(graph, chunk) && chunk != [] && Faithful(op) && !op.linked
      modifies this
      ensures Keeps(old(graph), graph) && Below(old(graph), graph, 0) && MarksStay(old(graph), graph)
      ensures OptValid(graph, acc) && AllValid(graph, chunk) && Paired(graph, op, acc, chunk, vs) &&
        x == chunk[|chunk| - 1]
    {
      if acc.None? {
        x, vs := PairsLoop(op, chunk[0], chunk[1..]);
        PairsFrom(graph, op, chunk, vs);
        vs := [chunk[0]] + vs;
      } else {
        x, vs := PairsLoop(op, acc.value, chunk);
      }
    }

    method SeedPairsOn(op: Op<A>, z: V<A>, once: bool, chunk: seq<V<A>>) returns (x: V<A>, vs: seq<V<A>>)
      requires WF(graph) && Valid(graph, z) && AllValid(graph, chunk) && chunk != [] && Faithful(op) && !op.linked
      modifies this
      ensures Keeps(old(graph), graph) && Below(old(graph), graph, 0) && MarksStay(old(graph), graph)
      ensures Valid(graph, z) && AllValid(graph, chunk) && SeedPaired(graph, op, z, once, chunk, vs) &&
        x == chunk[|chunk| - 1]
    {
      if once {
        x, vs := PairsLoop(op, chunk[0], chunk[1..]);
        vs := [z] + vs;
      } else {
        x, vs := PairsLoop(op, z, chunk);
      }
    }

    // ---------- cursors and forcing ----------

    // VIn::one: first on to a node with something left, if there is one
    method Settle(a: In<A>, level: nat) returns (b: In<A>)
      requires WF(graph) && InOk(graph, a, level) && Normal(graph, a) && !a.Const?
      modifies this
      ensures Keeps(old(graph), graph) && Below(old(graph), graph, level) && MarksStay(old(graph), graph)
      ensures Moved(graph, a, 0, b, level) && Normal(graph, b)
      ensures b.Cursor? ==> graph.cells[b.id].body.Filled? && b.off < |graph.cells[b.id].body.items|
      decreases level, 0, 0
    {
      b := a;
      KeepsAll(graph);
      while b.Cursor?
        invariant InOk(graph, b, level) && Normal(graph, b)
        invariant Keeps(old(graph), graph) && Below(old(graph), graph, level) && MarksStay(old(graph), graph)
        invariant Moved(graph, a, 0, b, level)
        decreases b.Cursor?, if b.Cursor? then graph.cells[b.id].level else 0,
                  if b.Cursor? && !AtEnd(graph, b.id) then 1 else 0
      {
        ghost var before := graph;
        if b.off == 0 { Force(b.id); }
        KeepsOn(old(graph), before, graph);
        MovedKept(before, graph, a, 0, b, level);
        assert CellOk(graph, b.id);
        if b.off < |graph.cells[b.id].body.items| { return; }
        NextNode(graph, a, b, level);
        match graph.cells[b.id].body.next
        case To(m) => b := Cursor(m, 0);
        case End => b := Spent;
      }
    }

    // VIn::one
    method One(a: In<A>, level: nat) returns (b: In<A>, got: seq<V<A>>)
      requires WF(graph) && InOk(graph, a, level) && Normal(graph, a)
      modifies this
      ensures Keeps(old(graph), graph) && Below(old(graph), graph, level) && MarksStay(old(graph), graph)
      ensures InOk(graph, a, level) && |got| <= 1
      ensures if got == [] then Ended(graph, a, level)
        else Chunk(graph, a, level, got) && Moved(graph, a, 1, b, level) && Normal(graph, b)
      decreases level, 0, 1
    {
      if a.Const? {
        KeepsAll(graph);
        return a, [a.v];
      }
      b := Settle(a, level);
      if b.Cursor? {
        got := [graph.cells[b.id].body.items[b.off]];
        FromNode(graph, a, b, level, 1);
        assert graph.cells[b.id].body.items[b.off..][..1] == got;
        Past(graph, a, b, got, level, 1);
        b := Advance(graph, b, 1);
      } else {
        got := [];
        forall i: nat, p: Path ensures InAt(graph, a, i, p, level) == Absent {
          assert Shifted(graph, a, 0, b, level, i, p);
        }
      }
    }

    // VIn::operator(): a stretch of at most want elements, or none at the end
    method Read(a: In<A>, want: Size, level: nat) returns (b: In<A>, chunk: seq<V<A>>)
      requires WF(graph) && InOk(graph, a, level) && Normal(graph, a)
      modifies this
      ensures Keeps(old(graph), graph) && Below(old(graph), graph, level) && MarksStay(old(graph), graph)
      ensures |chunk| <= want && Fetched(graph, a, b, chunk, level) && (chunk == [] ==> Ended(graph, b, level))
      decreases level, 0, 0
    {
      b := a;
      KeepsAll(graph);
      match a
      case Const(v) => chunk := seq(want, _ => v);
      case Spent => chunk := [];
      case Cursor(_, _) =>
        while true
          invariant b.Cursor? && InOk(graph, b, level) && Normal(graph, b)
          invariant Keeps(old(graph), graph) && Below(old(graph), graph, level) && MarksStay(old(graph), graph)
          invariant Moved(graph, a, 0, b, level)
          decreases graph.cells[b.id].level, if AtEnd(graph, b.id) then 0 else 1
        {
          ghost var before := graph;
          Force(b.id);
          KeepsOn(old(graph), before, graph);
          MovedKept(before, graph, a, 0, b, level);
          assert CellOk(graph, b.id);
          var items, next := graph.cells[b.id].body.items, graph.cells[b.id].body.next;
          var num := |items| - b.off;
          if num > 0 {
            var n := if num < want then num else want;
            chunk := items[b.off..][..n];
            FromNode(graph, a, b, level, n);
            return;
          }
          NextNode(graph, a, b, level);
          match next
          case To(m) => b := Cursor(m, b.off);
          case End => chunk := []; return;
        }
    }

    // List::force
    method Force(n: nat)
      requires WF(graph) && n < |graph.cells|
      modifies this
      ensures Keeps(old(graph), graph) && Below(old(graph), graph, old(graph).cells[n].level + 1) &&
        MarksStay(old(graph), graph)
      ensures n < |graph.cells| && graph.cells[n].body.Filled?
      decreases graph.cells[n].level, 2, 0
    {
      assert CellOk(graph, n);
      match graph.cells[n].body
      case Filled(_, _) => KeepsAll(graph);
      case Thunk(g) =>
        if graph.gens[g].done { Finish(g); } else { Pull(g); }
    }

    // Gen::end
    method Finish(g: nat)
      requires WF(graph) && g < |graph.gens| && graph.gens[g].done && graph.gens[g].out < |graph.cells| &&
        graph.cells[graph.gens[g].out].body == Thunk(g)
      modifies this
      ensures Keeps(old(graph), graph) && Below(old(graph), graph, old(graph).gens[g].level + 1) &&
        MarksStay(old(graph), graph)
      ensures old(graph).gens[g].out < |graph.cells| && graph.cells[old(graph).gens[g].out].body.Filled?
    {
      assert CellOk(graph, graph.gens[g].out);
      FillKeeps(graph, g, [], End);
      MarksStayIfNoneNew(graph, Fill(graph, g, [], End));
      graph := Fill(graph, g, [], End);
    }

    // fulfill and produce
    method Close(g: nat, items: seq<V<A>>, to: Gen<A>)
      requires Closing(graph, g, items, to)
      modifies this
      ensures Keeps(old(graph), graph) && Below(old(graph), graph, old(graph).gens[g].level + 1) &&
        MarksStay(old(graph), graph)
      ensures g < |graph.gens| && graph.gens[g].done == to.done && old(graph).gens[g].out < |graph.cells|
      ensures graph.cells[old(graph).gens[g].out].body == Filled(items, To(|old(graph).cells|))
    {
      assert GenWaits(graph, g);
      ProduceKeeps(graph, g, items, to);
      ProduceHonest(graph, g, items, to);
      graph := Produce(graph, g, items, to);
    }

    method Pull(g: nat)
      requires WF(graph) && g < |graph.gens| && !graph.gens[g].done
      modifies this
      ensures Pulled(old(graph), graph, g)
      decreases graph.gens[g].level, 1, 0
    {
      match graph.gens[g].kind
      case Unary(_) => PullUnary(g);
      case Binary(_) => PullBinary(g);
      case Linked(_) => PullLinked(g);
      case Scan(_, _) => PullScan(g);
      case IScan(_, _, _) => PullIScan(g);
      case Pairs(_, _) => PullPairs(g);
      case IPairs(_, _, _) => PullIPairs(g);
      case Mapper(_) => PullMapper(g);
      case Series(_, _, _) => PullSeries(g);
      case Each(_, _, _, _) => PullEach(g);
    }

    // the last statement of every pull
    method Wind(g: nat, out: seq<V<A>>, st: Gen<A>, done: bool, ghost h: Graph<A>)
      requires Pulling(h, graph, g, out, st) && (out == [] ==> done) && |out| <= st.block && (done || |out| == st.block)
      requires done ==> forall i, p :: GenAt(graph, st, i, p) == Absent
      modifies this
      ensures Pulled(h, graph, g)
    {
      PullEnds(h, graph, g, out, st, done);
      ghost var k := graph;
      Close(g, out, st.(done := done));
      PulledOn(h, k, graph, g, out, st);
    }

    // UnaryOpGen::pull
    method PullUnary(g: nat)
      requires WF(graph) && g < |graph.gens| && !graph.gens[g].done && graph.gens[g].kind.Unary?
      modifies this
      ensures Pulled(old(graph), graph, g)
      decreases graph.gens[g].level, 0, 1
    {
      PullStarts(graph, g);
      var st, out, done := graph.gens[g], [], false;
      while |out| < st.block && !done
        invariant Pulling(old(graph), graph, g, out, st) && st.kind.Unary? && |out| <= st.block
        invariant done ==> forall i, p :: GenAt(graph, st, i, p) == Absent
        decreases st.block - |out|, !done
      {
        ghost var h := graph;
        var a, chunk := Read(st.ins[0], st.block - |out|, st.level);
        PullKept(old(graph), h, graph, g, out, st);
        if chunk == [] {
          done := true;
          forall i, p ensures GenAt(graph, st, i, p) == Absent { OutOfInput(graph, st, 0, a, i, p); }
        } else {
          h := graph;
          var vs := UnaryLoop(st.kind.g, chunk);
          PullKept(old(graph), h, graph, g, out, st);
          FetchedKept(h, graph, st.ins[0], a, chunk, st.level);
          UnaryRound(old(graph), graph, g, out, st, a, chunk, vs);
          out, st := out + vs, st.(ins := [Advance(graph, a, |chunk|)]);
        }
      }
      Wind(g, out, st, done, old(graph));
    }

    // By::pull and Grow::pull
    method PullSeries(g: nat)
      requires WF(graph) && g < |graph.gens| && !graph.gens[g].done && graph.gens[g].kind.Series?
      modifies this
      ensures Pulled(old(graph), graph, g)
    {
      PullStarts(graph, g);
      var st, out := graph.gens[g], [];
      while |out| < st.block
        invariant Pulling(old(graph), graph, g, out, st) && st.kind.Series? && |out| <= st.block
      {
        ghost var h := graph;
        var z := st.kind.z;
        var y := BinaryOp(st.kind.op, z, st.kind.step);
        PullKept(old(graph), h, graph, g, out, st);
        SeriesRound(old(graph), h, graph, g, out, st, y);
        out, st := out + [z], st.(kind := Series(st.kind.op, y, st.kind.step));
      }
      Wind(g, out, st, false, old(graph));
    }

    // BinaryOpGen::pull
    method PullBinary(g: nat)
      requires WF(graph) && g < |graph.gens| && !graph.gens[g].done && graph.gens[g].kind.Binary?
      modifies this
      ensures Pulled(old(graph), graph, g)
      decreases graph.gens[g].level, 0, 1
    {
      PullStarts(graph, g);
      var st, out, done := graph.gens[g], [], false;
      while |out| < st.block && !done
        invariant Pulling(old(graph), graph, g, out, st) && st.kind.Binary? && |out| <= st.block
        invariant done ==> forall i, p :: GenAt(graph, st, i, p) == Absent
        decreases st.block - |out|, !done
      {
        ghost var h := graph;
        var a, x := Read(st.ins[0], st.block - |out|, st.level);
        PullKept(old(graph), h, graph, g, out, st);
        if x == [] {
          done := true;
          forall i, p ensures GenAt(graph, st, i, p) == Absent { OutOfInput(graph, st, 0, a, i, p); }
        } else {
          h := graph;
          var b, y := Read(st.ins[1], |x|, st.level);
          PullKept(old(graph), h, graph, g, out, st);
          FetchedKept(h, graph, st.ins[0], a, x, st.level);
          if y == [] {
            done := true;
            forall i, p ensures GenAt(graph, st, i, p) == Absent { OutOfInput(graph, st, 1, b, i, p); }
          } else {
            out, st := Round2(g, out, st, a, x, b, y, old(graph));
          }
        }
      }
      Wind(g, out, st, done, old(graph));
    }

    // the element loop of the two-operand generators, and the cursors' advance
    method Round2(g: nat, out: seq<V<A>>, st: Gen<A>, a: In<A>, x: seq<V<A>>, b: In<A>, y: seq<V<A>>,
            ghost h0: Graph<A>)
      returns (more: seq<V<A>>, next: Gen<A>)
      requires Pulling(h0, graph, g, out, st) && (st.kind.Binary? || st.kind.Linked?) && 0 < |y| <= |x|
      requires Fetched(graph, st.ins[0], a, x, st.level) && Fetched(graph, st.ins[1], b, y, st.level)
      modifies this
      ensures Pulling(h0, graph, g, more, next) && next.kind == st.kind && |more| == |out| + |y|
    {
      ghost var h := graph;
      var n := |y|;
      FetchedLess(graph, st.ins[0], a, x, st.level, n);
      var vs := BinaryLoop(st.kind.op, x[..n], y);
      PullKept(h0, h, graph, g, out, st);
      FetchedKept(h, graph, st.ins[0], a, x, st.level);
      FetchedKept(h, graph, st.ins[1], b, y, st.level);
      assert y[..n] == y;
      BinaryRound(h0, graph, g, out, st, a, x, b, y, vs);
      more, next := out + vs, st.(ins := [Advance(graph, a, n), Advance(graph, b, n)]);
    }

    // one element from every argument, or fewer when one of them has run out
    method ReadRow(ins: seq<In<A>>, level: nat) returns (row: seq<V<A>>, next: seq<In<A>>)
      requires WF(graph) && forall j :: 0 <= j < |ins| ==> InOk(graph, ins[j], level) && Normal(graph, ins[j])
      modifies this
      ensures Keeps(old(graph), graph) && Below(old(graph), graph, level) && MarksStay(old(graph), graph)
      ensures RowRead(graph, ins, level, row, next)
      ensures |row| < |ins| ==> InOk(graph, ins[|row|], level) && Ended(graph, ins[|row|], level)
      decreases level, 0, 2
    {
      row, next := [], [];
      while |row| < |ins|
        invariant Keeps(old(graph), graph) && Below(old(graph), graph, level) && MarksStay(old(graph), graph)
        invariant RowRead(graph, ins, level, row, next)
      {
        ghost var h := graph;
        InKept(old(graph), graph, ins[|row|], 0, [], level);
        var b, got := One(ins[|row|], level);
        KeepsOn(old(graph), h, graph);
        RowKept(h, graph, ins, level, row, next);
        if got == [] { return; }
        row, next := row + got, next + [b];
      }
    }

    // MultichannelMapper::pull
    method PullMapper(g: nat)
      requires WF(graph) && g < |graph.gens| && !graph.gens[g].done && graph.gens[g].kind.Mapper?
      modifies this
      ensures Pulled(old(graph), graph, g)
      decreases graph.gens[g].level, 0, 3
    {
      PullStarts(graph, g);
      var st, out, done := graph.gens[g], [], false;
      while |out| < st.block && !done
        invariant Pulling(old(graph), graph, g, out, st) && st.kind.Mapper? && |out| <= st.block
        invariant done ==> forall i, p :: GenAt(graph, st, i, p) == Absent
        decreases st.block - |out|, !done
      {
        ghost var h := graph;
        var row, next := ReadRow(st.ins, st.level);
        PullKept(old(graph), h, graph, g, out, st);
        if |row| < |st.ins| {
          done := true;
          forall i, p ensures GenAt(graph, st, i, p) == Absent { OutOfInput(graph, st, |row|, st.ins[|row|], i, p); }
        } else {
          h := graph;
          var v := Multichannel(st.kind.f, row);
          PullKept(old(graph), h, graph, g, out, st);
          MapperRound(old(graph), h, graph, g, out, st, row, next, v);
          out, st := out + [v], st.(ins := next);
        }
      }
      Wind(g, out, st, done, old(graph));
    }

    // EachMapper::pull
    method PullEach(g: nat)
      requires WF(graph) && g < |graph.gens| && !graph.gens[g].done && graph.gens[g].kind.Each?
      modifies this
      ensures Pulled(old(graph), graph, g)
      decreases graph.gens[g].level, 0, 3
    {
      PullStarts(graph, g);
      var st, out, done, finite := graph.gens[g], [], false, true;
      while |out| < st.block && !done
        invariant Pulling(old(graph), graph, g, out, st) && st.kind.Each? && |out| <= st.block
        invariant done ==> forall i, p :: GenAt(graph, st, i, p) == Absent
        decreases st.block - |out|, !done
      {
        ghost var h := graph;
        var row, next := ReadRow(st.ins, st.level);
        PullKept(old(graph), h, graph, g, out, st);
        if |row| < |st.ins| {
          done := true;
          forall i, p ensures GenAt(graph, st, i, p) == Absent { OutOfInput(graph, st, |row|, st.ins[|row|], i, p); }
        } else {
          finite := finite && AllIteratedFinite(graph, row, st.kind.masks, st.kind.bit);
          h := graph;
          var v := Element(st.kind, row, finite);
          PullKept(old(graph), h, graph, g, out, st);
          RowKept(h, graph, st.ins, st.level, row, next);
          EachRound(old(graph), graph, g, out, st, row, next, v);
          out, st := out + [v], st.(ins := next);
        }
      }
      Wind(g, out, st, done, old(graph));
    }

    // one element of a mapped list: a call, or the list one level down
    method Element(kind: Kind<A>, row: seq<V<A>>, finite: bool) returns (v: V<A>)
      requires WF(graph) && AllValid(graph, row) && kind.Each? && |kind.masks| == |row| && FunOk(kind.fun, |row|)
      requires finite ==> AllIteratedFinite(graph, row, kind.masks, kind.bit)
      requires Deep(kind) ==> !Simple(graph)
      modifies this
      ensures Keeps(old(graph), graph) && Below(old(graph), graph, 0) && MarksStay(old(graph), graph)
      ensures Valid(graph, v) && AllValid(graph, row)
      ensures forall p :: Obs(graph, v, p) == MapAt(graph, kind.fun, row, kind.masks, kind.bit, kind.below, p)
    {
      ghost var h := graph;
      if kind.below == 0 || AllConstant(row, kind.masks, kind.bit) {
        v := Call(kind.fun, row);
        forall p ensures CallAt(h, kind.fun, row, p) == MapAt(h, kind.fun, row, kind.masks, kind.bit, kind.below, p) {
          MapIsCall(h, kind.fun, row, kind.masks, kind.bit, kind.below, p);
        }
      } else {
        EachLabels(graph, kind.fun, row, kind.masks, kind.bit, kind.below, finite, block);
        v := Ref(|graph.cells|);
        graph := NewGen(graph, EachGen(graph, kind.fun, row, kind.masks, kind.bit, kind.below, finite, block));
      }
      forall p ensures MapAt(graph, kind.fun, row, kind.masks, kind.bit, kind.below, p) ==
        MapAt(h, kind.fun, row, kind.masks, kind.bit, kind.below, p) {
        MapKept(h, graph, kind.fun, row, kind.masks, kind.bit, kind.below, p);
      }
    }

    // BinaryOpLinkGen::pull
    method PullLinked(g: nat)
      requires WF(graph) && g < |graph.gens| && !graph.gens[g].done && graph.gens[g].kind.Linked?
      modifies this
      ensures Pulled(old(graph), graph, g)
      decreases graph.gens[g].level, 0, 3
    {
      PullStarts(graph, g);
      var st, out := graph.gens[g], [];
      while |out| < st.block
        invariant Pulling(old(graph), graph, g, out, st) && st.kind.Linked? && |out| <= st.block
      {
        ghost var h := graph;
        var a, x := Read(st.ins[0], st.block - |out|, st.level);
        PullKept(old(graph), h, graph, g, out, st);
        if x == [] {
          LinkTail(g, out, st, 0, a, old(graph));
          return;
        }
        h := graph;
        var b, y := Read(st.ins[1], |x|, st.level);
        PullKept(old(graph), h, graph, g, out, st);
        FetchedKept(h, graph, st.ins[0], a, x, st.level);
        if y == [] {
          LinkTail(g, out, st, 1, b, old(graph));
          return;
        }
        out, st := Round2(g, out, st, a, x, b, y, old(graph));
      }
      Wind(g, out, st, false, old(graph));
    }

    // VIn::link, for the input that is left when input j has run out
    method LinkTail(g: nat, out: seq<V<A>>, st: Gen<A>, j: nat, ghost ended: In<A>, ghost h0: Graph<A>)
      requires Pulling(h0, graph, g, out, st) && st.kind.Linked? && j < 2 && |out| <= st.block
      requires Moved(graph, st.ins[j], 0, ended, st.level) && Ended(graph, ended, st.level)
      modifies this
      ensures Pulled(h0, graph, g)
      decreases st.level, 0, 1
    {
      var b := st.ins[1 - j];
      forall i, p ensures GenAt(graph, st, i, p) == if b.Const? then Absent else InAt(graph, b, i, p, st.level) {
        LinkedRest(graph, st, j, ended, i, p);
      }
      match b
      case Const(_) => Wind(g, out, st, true, h0);
      case Spent => Wind(g, out, st, true, h0);
      case Cursor(id, off) =>
        ghost var h := graph;
        Force(id);
        PullKept(h0, h, graph, g, out, st);
        forall i, p ensures GenAt(graph, st, i, p) == InAt(graph, b, i, p, st.level) {
          GenKept(h, graph, st, i, p);
          InKept(h, graph, b, i, p, st.level);
        }
        assert GenWaits(graph, g);
        LinkKeeps(h0, graph, g, out, st, b);
        graph := LinkedTail(graph, g, out, b);
    }

    // ScanOpGen::pull
    method PullScan(g: nat)
      requires WF(graph) && g < |graph.gens| && !graph.gens[g].done && graph.gens[g].kind.Scan?
      modifies this
      ensures Pulled(old(graph), graph, g)
      decreases graph.gens[g].level, 0, 1
    {
      PullStarts(graph, g);
      var st, out, done := graph.gens[g], [], false;
      while |out| < st.block && !done
        invariant Pulling(old(graph), graph, g, out, st) && st.kind.Scan? && |out| <= st.block
        invariant done ==> forall i, p :: GenAt(graph, st, i, p) == Absent
        decreases st.block - |out|, !done
      {
        ghost var h := graph;
        var a, chunk := Read(st.ins[0], st.block - |out|, st.level);
        PullKept(old(graph), h, graph, g, out, st);
        if chunk == [] {
          done := true;
          forall i, p ensures GenAt(graph, st, i, p) == Absent { OutOfInput(graph, st, 0, a, i, p); }
        } else {
          h := graph;
          var x, vs := ScanOn(st.kind.op, st.kind.acc, chunk);
          PullKept(old(graph), h, graph, g, out, st);
          FetchedKept(h, graph, st.ins[0], a, chunk, st.level);
          ScanRound(old(graph), graph, g, out, st, a, chunk, x, vs);
          out, st := out + vs, st.(kind := Scan(st.kind.op, Some(x)), ins := [Advance(graph, a, |chunk|)]);
        }
      }
      Wind(g, out, st, done, old(graph));
    }

    // IScanOpGen::pull
    method PullIScan(g: nat)
      requires WF(graph) && g < |graph.gens| && !graph.gens[g].done && graph.gens[g].kind.IScan?
      modifies this
      ensures Pulled(old(graph), graph, g)
      decreases graph.gens[g].level, 0, 1
    {
      PullStarts(graph, g);
      var st, out, done := graph.gens[g], [], false;
      while |out| < st.block && !done
        invariant Pulling(old(graph), graph, g, out, st) && st.kind.IScan? && |out| <= st.block
        invariant done ==> forall i, p :: GenAt(graph, st, i, p) == Absent
        decreases st.block - |out|, !done
      {
        ghost var h := graph;
        var a, chunk := Read(st.ins[0], st.block - |out|, st.level);
        PullKept(old(graph), h, graph, g, out, st);
        if chunk == [] {
          done := true;
          forall i, p ensures GenAt(graph, st, i, p) == Absent { OutOfInput(graph, st, 0, a, i, p); }
        } else {
          h := graph;
          var n := |chunk|;
          if st.kind.once {
            SeedRound(old(graph), graph, g, out, st, a, chunk);
            out, st, n := out + [st.kind.z], st.(kind := IScan(st.kind.op, st.kind.z, false)), |chunk| - 1;
          }
          var x, vs := ScanLoop(st.kind.op, st.kind.z, chunk[..n]);
          PullKept(old(graph), h, graph, g, out, st);
          FetchedKept(h, graph, st.ins[0], a, chunk, st.level);
          IScanRound(old(graph), graph, g, out, st, a, chunk, n, x, vs);
          out, st := out + vs, st.(kind := IScan(st.kind.op, x, false), ins := [Advance(graph, a, n)]);
        }
      }
      Wind(g, out, st, done, old(graph));
    }

    // PairsOpGen::pull
    method PullPairs(g: nat)
      requires WF(graph) && g < |graph.gens| && !graph.gens[g].done && graph.gens[g].kind.Pairs?
      modifies this
      ensures Pulled(old(graph), graph, g)
      decreases graph.gens[g].level, 0, 1
    {
      PullStarts(graph, g);
      var st, out, done := graph.gens[g], [], false;
      while |out| < st.block && !done
        invariant Pulling(old(graph), graph, g, out, st) && st.kind.Pairs? && |out| <= st.block
        invariant done ==> forall i, p :: GenAt(graph, st, i, p) == Absent
        decreases st.block - |out|, !done
      {
        ghost var h := graph;
        var a, chunk := Read(st.ins[0], st.block - |out|, st.level);
        PullKept(old(graph), h, graph, g, out, st);
        if chunk == [] {
          done := true;
          forall i, p ensures GenAt(graph, st, i, p) == Absent { OutOfInput(graph, st, 0, a, i, p); }
        } else {
          h := graph;
          var x, vs := PairsOn(st.kind.op, st.kind.acc, chunk);
          PullKept(old(graph), h, graph, g, out, st);
          FetchedKept(h, graph, st.ins[0], a, chunk, st.level);
          PairsRound(old(graph), graph, g, out, st, a, chunk, x, vs);
          out, st := out + vs, st.(kind := Pairs(st.kind.op, Some(x)), ins := [Advance(graph, a, |chunk|)]);
        }
      }
      Wind(g, out, st, done, old(graph));
    }

    // IPairsOpGen::pull
    method PullIPairs(g: nat)
      requires WF(graph) && g < |graph.gens| && !graph.gens[g].done && graph.gens[g].kind.IPairs?
      modifies this
      ensures Pulled(old(graph), graph, g)
      decreases graph.gens[g].level, 0, 1
    {
      PullStarts(graph, g);
      var st, out, done := graph.gens[g], [], false;
      while |out| < st.block && !done
        invariant Pulling(old(graph), graph, g, out, st) && st.kind.IPairs? && |out| <= st.block
        invariant done ==> forall i, p :: GenAt(graph, st, i, p) == Absent
        decreases st.block - |out|, !done
      {
        ghost var h := graph;
        var a, chunk := Read(st.ins[0], st.block - |out|, st.level);
        PullKept(old(graph), h, graph, g, out, st);
        if chunk == [] {
          done := true;
          forall i, p ensures GenAt(graph, st, i, p) == Absent { OutOfInput(graph, st, 0, a, i, p); }
        } else {
          h := graph;
          var x, vs := SeedPairsOn(st.kind.op, st.kind.z, st.kind.once, chunk);
          PullKept(old(graph), h, graph, g, out, st);
          FetchedKept(h, graph, st.ins[0], a, chunk, st.level);
          IPairsRound(old(graph), graph, g, out, st, a, chunk, x, vs);
          out, st := out + vs, st.(kind := IPairs(st.kind.op, x, false), ins := [Advance(graph, a, |chunk|)]);
        }
      }
      Wind(g, out, st, done, old(graph));
    }
  }
}
