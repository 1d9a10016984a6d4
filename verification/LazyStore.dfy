/**
  The store at work: forcing a node runs its generator for one block.  Every method keeps the label
  of every old list at every path, never touches a node once it is filled, and leaves generators
  that lie above the forced node alone.
 */
module LazyStore {
  import opened Basics
  import opened LazyLists

  // ---------- what every operation keeps ----------

  ghost predicate Ends<A(!new)>(h: Graph<A>, n: nat)
    requires WF(h) && n < |h.cells|
  {
    exists i: nat :: At(h, n, i, []) == Absent
  }

  /** A list marked finite does end. */
  ghost predicate Honest<A(!new)>(h: Graph<A>)
    requires WF(h)
  {
    forall n :: 0 <= n < |h.cells| && h.cells[n].finite ==> Ends(h, n)
  }

  /** No scalar claims to be finite, and no generator splices lists together. */
  ghost predicate Plain<A(!new)>(h: Graph<A>) {
    (forall x :: !h.flagged(x)) && forall g :: 0 <= g < |h.gens| ==> !h.gens[g].kind.Linked?
  }

  ghost predicate StaysHonest<A(!new)>(h: Graph<A>, k: Graph<A>)
    requires WF(h) && WF(k)
  {
    Plain(h) && Honest(h) ==> Plain(k) && Honest(k)
  }

  /** Every list is marked exactly if it ends. */
  ghost predicate Exact<A(!new)>(h: Graph<A>)
    requires WF(h)
  {
    forall n :: 0 <= n < |h.cells| ==> (h.cells[n].finite <==> Ends(h, n))
  }

  /** An each-mapper that makes lists of its own, one level down. */
  predicate Deep<A>(kind: Kind<A>) { kind.Each? && kind.below > 0 }

  ghost predicate Simple<A(!new)>(h: Graph<A>) {
    Plain(h) && forall g :: 0 <= g < |h.gens| && !h.gens[g].done ==> !Deep(h.gens[g].kind)
  }

  ghost predicate StaysExact<A(!new)>(h: Graph<A>, k: Graph<A>)
    requires WF(h) && WF(k)
  {
    Simple(h) && Exact(h) ==> Simple(k) && Exact(k)
  }

  /** Finite marks stay right: marked lists still end, and lists that end are still marked. */
  ghost predicate MarksStay<A(!new)>(h: Graph<A>, k: Graph<A>)
    requires WF(h) && WF(k)
  {
    StaysHonest(h, k) && StaysExact(h, k)
  }

  ghost predicate Keeps<A(!new)>(h: Graph<A>, k: Graph<A>) {
    WF(h) && WF(k) && |h.cells| <= |k.cells| && |h.gens| <= |k.gens| && k.flagged == h.flagged &&
    (forall n :: 0 <= n < |h.cells| ==>
      k.cells[n].level == h.cells[n].level && k.cells[n].finite == h.cells[n].finite) &&
    (forall n :: 0 <= n < |h.cells| && h.cells[n].body.Filled? ==> k.cells[n] == h.cells[n]) &&
    (forall n :: 0 <= n < |h.cells| && AtEnd(h, n) ==> AtEnd(k, n)) &&
    (forall n: nat, i, p: Path :: n < |h.cells| ==> At(k, n, i, p) == At(h, n, i, p))
  }

  /** Nodes and generators from this level up are exactly as they were. */
  ghost predicate Below<A(!new)>(h: Graph<A>, k: Graph<A>, level: nat) {
    |h.cells| <= |k.cells| && |h.gens| <= |k.gens| &&
    (forall n :: 0 <= n < |h.cells| && h.cells[n].level >= level ==> k.cells[n] == h.cells[n]) &&
    (forall g :: 0 <= g < |h.gens| && h.gens[g].level >= level ==> k.gens[g] == h.gens[g])
  }

  lemma KeepsAll<A(!new)>(h: Graph<A>)
    requires WF(h)
    ensures Keeps(h, h)
  {}

  lemma KeepsOn<A(!new)>(h: Graph<A>, k: Graph<A>, l: Graph<A>)
    requires Keeps(h, k) && Keeps(k, l)
    ensures Keeps(h, l)
  {
    forall n: nat, i, p: Path | n < |h.cells| ensures At(l, n, i, p) == At(h, n, i, p) {
      assert At(l, n, i, p) == At(k, n, i, p);
    }
  }

  lemma ObsKept<A(!new)>(h: Graph<A>, k: Graph<A>, v: V<A>, p: Path)
    requires Keeps(h, k) && Valid(h, v)
    ensures Valid(k, v) && Obs(k, v, p) == Obs(h, v, p)
  {}

  lemma InKept<A(!new)>(h: Graph<A>, k: Graph<A>, a: In<A>, i: nat, p: Path, level: nat)
    requires Keeps(h, k) && InOk(h, a, level)
    ensures InOk(k, a, level) && InAt(k, a, i, p, level) == InAt(h, a, i, p, level)
    ensures Normal(h, a) ==> Normal(k, a)
  {
    if a.Const? { ObsKept(h, k, a.v, p); }
  }

  lemma GenKept<A(!new)>(h: Graph<A>, k: Graph<A>, g: Gen<A>, i: nat, p: Path)
    requires Keeps(h, k) && GenOk(h, g)
    ensures GenOk(k, g) && GenAt(k, g, i, p) == GenAt(h, g, i, p)
  {
    GenAgrees(h, k, g, i, p);
  }

  // ---------- the progress of one pull ----------

  /** After emitting buf, the generator state g stands |buf| elements further than g0. */
  ghost predicate Progress<A(!new)>(h: Graph<A>, g0: Gen<A>, buf: seq<V<A>>, g: Gen<A>) {
    WF(h) && GenOk(h, g0) && GenOk(h, g) && g.level == g0.level && g.finite == g0.finite && g.out == g0.out &&
      !g.done && g.kind.Linked? == g0.kind.Linked? && Deep(g.kind) == Deep(g0.kind) &&
    (forall j :: 0 <= j < |buf| ==> Valid(h, buf[j]) && forall p :: Obs(h, buf[j], p) == GenAt(h, g0, j, p)) &&
    forall i, p :: GenAt(h, g, i, p) == GenAt(h, g0, |buf| + i, p)
  }

  lemma ProgressKept<A(!new)>(h: Graph<A>, k: Graph<A>, g0: Gen<A>, buf: seq<V<A>>, g: Gen<A>)
    requires Keeps(h, k) && Progress(h, g0, buf, g)
    ensures Progress(k, g0, buf, g)
  {
    GenKept(h, k, g0, 0, []);
    GenKept(h, k, g, 0, []);
    forall i, p ensures GenAt(k, g0, i, p) == GenAt(h, g0, i, p) && GenAt(k, g, i, p) == GenAt(h, g, i, p) {
      GenKept(h, k, g0, i, p);
      GenKept(h, k, g, i, p);
    }
    forall j | 0 <= j < |buf| ensures Valid(k, buf[j]) && forall p :: Obs(k, buf[j], p) == GenAt(k, g0, j, p) {
      forall p ensures Obs(k, buf[j], p) == GenAt(k, g0, j, p) { ObsKept(h, k, buf[j], p); }
    }
    forall i, p ensures GenAt(k, g, i, p) == GenAt(k, g0, |buf| + i, p) {
      assert GenAt(h, g, i, p) == GenAt(h, g0, |buf| + i, p);
    }
  }

  lemma ProgressOn<A(!new)>(h: Graph<A>, g0: Gen<A>, buf: seq<V<A>>, g: Gen<A>, more: seq<V<A>>, g1: Gen<A>)
    requires Progress(h, g0, buf, g) && Progress(h, g, more, g1)
    ensures Progress(h, g0, buf + more, g1)
  {
    forall j, p | 0 <= j < |more| ensures Obs(h, more[j], p) == GenAt(h, g0, |buf| + j, p) {
      assert GenAt(h, g, j, p) == GenAt(h, g0, |buf| + j, p);
    }
    forall i: nat, p: Path ensures GenAt(h, g1, i, p) == GenAt(h, g0, |buf + more| + i, p) {
      assert GenAt(h, g, |more| + i, p) == GenAt(h, g0, |buf| + (|more| + i), p);
    }
  }

  // ---------- the updates of the graph ----------

  function NewGen<A>(h: Graph<A>, g: Gen<A>): Graph<A> {
    h.(cells := h.cells + [Cell(g.level, g.finite, Thunk(|h.gens|))], gens := h.gens + [g.(out := |h.cells|)])
  }

  function NewNode<A>(h: Graph<A>, level: nat, finite: bool, items: seq<V<A>>, next: Next): Graph<A> {
    h.(cells := h.cells + [Cell(level, finite, Filled(items, next))])
  }

  function Fill<A>(h: Graph<A>, g: nat, items: seq<V<A>>, next: Next): Graph<A>
    requires g < |h.gens| && h.gens[g].out < |h.cells|
  {
    var n := h.gens[g].out;
    h.(cells := h.cells[n := h.cells[n].(body := Filled(items, next))], gens := h.gens[g := h.gens[g].(done := true)])
  }

  /** The output node takes the block, and a new pending node takes its place. */
  function Produce<A>(h: Graph<A>, g: nat, items: seq<V<A>>, to: Gen<A>): Graph<A>
    requires g < |h.gens| && h.gens[g].out < |h.cells|
  {
    var n, m := h.gens[g].out, |h.cells|;
    var c := h.cells[n];
    h.(cells := h.cells[n := c.(body := Filled(items, To(m)))] + [Cell(c.level, c.finite, Thunk(g))],
      gens := h.gens[g := to.(out := m)])
  }

  /** Nodes keep their level and their contents once filled. */
  ghost predicate Grown<A(!new)>(h: Graph<A>, k: Graph<A>) {
    |h.cells| <= |k.cells| && forall m :: 0 <= m < |h.cells| ==>
      k.cells[m].level == h.cells[m].level && (h.cells[m].body.Filled? ==> k.cells[m] == h.cells[m])
  }

  lemma GenGrown<A(!new)>(h: Graph<A>, k: Graph<A>, g: Gen<A>)
    requires Grown(h, k) && GenOk(h, g)
    ensures GenOk(k, g)
    ensures (forall j :: 0 <= j < |g.ins| ==> Normal(h, g.ins[j])) ==>
      forall j :: 0 <= j < |g.ins| ==> Normal(k, g.ins[j])
  {}

  lemma CellGrown<A(!new)>(h: Graph<A>, k: Graph<A>, n: nat)
    requires Grown(h, k) && n < |h.cells| && CellOk(h, n) && k.cells[n] == h.cells[n]
    requires h.cells[n].body.Thunk? ==>
      h.cells[n].body.gen < |k.gens| && k.gens[h.cells[n].body.gen] == h.gens[h.cells[n].body.gen]
    requires forall m :: 0 <= m < |h.cells| && AtEnd(h, m) ==> AtEnd(k, m)
    ensures CellOk(k, n)
  {}

  lemma StepKeeps<A(!new)>(h: Graph<A>, k: Graph<A>, n: nat)
    requires Step(h, k, n)
    requires n < |h.cells| ==> h.cells[n].body.Thunk? && (AtEnd(h, n) ==> AtEnd(k, n))
    ensures Keeps(h, k)
  {
    forall m: nat, i, p: Path | m < |h.cells| ensures At(k, m, i, p) == At(h, m, i, p) {
      StepKeepsLabels(h, k, n, m, i, p);
    }
    forall m | 0 <= m < |h.cells| && AtEnd(h, m) ensures AtEnd(k, m) {
      assert CellOk(h, m);
      if n < |h.cells| && m != n { assert CellOk(h, n); }
    }
  }

  lemma NewGenWF<A(!new)>(h: Graph<A>, g: Gen<A>)
    requires WF(h) && GenOk(h, g) && !g.done && forall j :: 0 <= j < |g.ins| ==> Normal(h, g.ins[j])
    ensures WF(NewGen(h, g))
  {
    var k := NewGen(h, g);
    forall n | 0 <= n < |k.cells| ensures CellOk(k, n) {
      if n < |h.cells| { CellGrown(h, k, n); }
    }
    forall c | 0 <= c < |k.gens| ensures GenWaits(k, c) {
      if c < |h.gens| {
        assert GenWaits(h, c);
        if !h.gens[c].done { GenGrown(h, k, h.gens[c]); }
      } else {
        GenGrown(h, k, g);
      }
    }
  }

  lemma NewGenKeeps<A(!new)>(h: Graph<A>, g: Gen<A>)
    requires WF(h) && GenOk(h, g) && !g.done && forall j :: 0 <= j < |g.ins| ==> Normal(h, g.ins[j])
    ensures var k := NewGen(h, g); Keeps(h, k) && Below(h, k, 0) && GenOk(k, g)
    ensures var k := NewGen(h, g); forall i, p :: At(k, |h.cells|, i, p) == GenAt(h, g, i, p)
  {
    var k := NewGen(h, g);
    NewGenWF(h, g);
    StepKeeps(h, k, |h.cells|);
    GenKept(h, k, g, 0, []);
    forall i, p ensures At(k, |h.cells|, i, p) == GenAt(h, g, i, p) {
      GenKept(h, k, g, i, p);
      SameInputs(k, g, |h.cells|, i, p);
    }
  }

  /** Where a generator's output goes has no bearing on what it denotes. */
  lemma SameInputs<A(!new)>(h: Graph<A>, g: Gen<A>, out: nat, i: nat, p: Path)
    requires WF(h) && GenOk(h, g)
    ensures GenOk(h, g.(out := out)) && GenAt(h, g.(out := out), i, p) == GenAt(h, g, i, p)
  {}

  lemma NewNodeKeeps<A(!new)>(h: Graph<A>, level: nat, finite: bool, items: seq<V<A>>, next: Next)
    requires WF(h) && (forall j :: 0 <= j < |items| ==> Valid(h, items[j]))
    requires next.To? ==> next.id < |h.cells| && h.cells[next.id].level < level
    ensures var k := NewNode(h, level, finite, items, next); Keeps(h, k) && Below(h, k, 0) && AtEnd(k, |h.cells|)
  {
    var k := NewNode(h, level, finite, items, next);
    forall n | 0 <= n < |k.cells| ensures CellOk(k, n) {
      if n < |h.cells| { CellGrown(h, k, n); }
    }
    forall c | 0 <= c < |k.gens| ensures GenWaits(k, c) {
      assert GenWaits(h, c);
      if !h.gens[c].done { GenGrown(h, k, h.gens[c]); }
    }
    StepKeeps(h, k, |h.cells|);
  }

  lemma FillKeeps<A(!new)>(h: Graph<A>, g: nat, items: seq<V<A>>, next: Next)
    requires WF(h) && g < |h.gens| && h.gens[g].out < |h.cells| && h.cells[h.gens[g].out].body == Thunk(g)
    requires Follows(h, h.gens[g].out, next) &&
      (next.To? && h.cells[next.id].level == h.gens[g].level ==> AtEnd(h, next.id))
    requires h.gens[g].done ==> next == End
    requires forall j ::
      0 <= j < |items| ==> Valid(h, items[j]) && forall p :: Obs(h, items[j], p) == At(h, h.gens[g].out, j, p)
    requires next.To? ==> forall i, p :: At(h, next.id, i, p) == At(h, h.gens[g].out, |items| + i, p)
    requires next == End ==> forall i, p :: i >= |items| ==> At(h, h.gens[g].out, i, p) == Absent
    ensures Keeps(h, Fill(h, g, items, next)) && Below(h, Fill(h, g, items, next), h.gens[g].level + 1)
  {
    var k := Fill(h, g, items, next);
    var o := h.gens[g].out;
    assert CellOk(h, o);
    forall m | 0 <= m < |h.cells| && AtEnd(h, m) ensures AtEnd(k, m) { assert CellOk(h, m); }
    forall n | 0 <= n < |k.cells| ensures CellOk(k, n) {
      assert CellOk(h, n);
      if n != o { CellGrown(h, k, n); }
    }
    forall c | 0 <= c < |k.gens| ensures GenWaits(k, c) {
      assert GenWaits(h, c);
      if !k.gens[c].done { GenGrown(h, k, h.gens[c]); }
    }
    StepKeeps(h, k, o);
  }

  /** The state to, taken at the end of a pull, may replace the generator: it has run out exactly if it says so. */
  ghost predicate Closing<A(!new)>(h: Graph<A>, g: nat, items: seq<V<A>>, to: Gen<A>) {
    WF(h) && g < |h.gens| && !h.gens[g].done && Progress(h, h.gens[g], items, to.(done := false)) &&
    (forall j :: 0 <= j < |to.ins| ==> Normal(h, to.ins[j])) && (items == [] ==> to.done) &&
    (to.done ==> forall i, p :: GenAt(h, to.(done := false), i, p) == Absent)
  }

  lemma ProduceWF<A(!new)>(h: Graph<A>, g: nat, items: seq<V<A>>, to: Gen<A>)
    requires Closing(h, g, items, to) && GenWaits(h, g)
    ensures WF(Produce(h, g, items, to)) && !AtEnd(h, h.gens[g].out)
    ensures forall m :: 0 <= m < |h.cells| && AtEnd(h, m) ==> AtEnd(Produce(h, g, items, to), m)
  {
    var k := Produce(h, g, items, to);
    var o, m := h.gens[g].out, |h.cells|;
    assert CellOk(h, o);
    forall n | 0 <= n < |h.cells| && AtEnd(h, n) ensures AtEnd(k, n) { assert CellOk(h, n); }
    forall n | 0 <= n < |k.cells| ensures CellOk(k, n) {
      if n < |h.cells| {
        assert CellOk(h, n);
        if n != o { CellGrown(h, k, n); }
      }
    }
    GenGrown(h, k, to.(done := false));
    forall c | 0 <= c < |k.gens| ensures GenWaits(k, c) {
      assert GenWaits(h, c);
      if c != g && !h.gens[c].done { GenGrown(h, k, h.gens[c]); }
    }
  }

  lemma ProduceKeeps<A(!new)>(h: Graph<A>, g: nat, items: seq<V<A>>, to: Gen<A>)
    requires Closing(h, g, items, to) && GenWaits(h, g)
    ensures var k := Produce(h, g, items, to); Keeps(h, k) && Below(h, k, h.gens[g].level + 1)
  {
    var k := Produce(h, g, items, to);
    var o := h.gens[g].out;
    ProduceWF(h, g, items, to);
    assert CellOk(h, o) && CellOk(k, |h.cells|) && CellOk(k, o);
    var to' := k.gens[g];
    forall i, p ensures if to.done then At(h, o, |items| + i, p) == Absent
      else GenOk(h, to') && GenAt(h, to', i, p) == At(h, o, |items| + i, p) {
      SameInputs(h, to.(done := false), |h.cells|, i, p);
      assert GenAt(h, to.(done := false), i, p) == GenAt(h, h.gens[g], |items| + i, p);
    }
    if to.done {
      forall i, p | i >= |items| ensures At(h, o, i, p) == Absent {
        assert GenAt(h, to.(done := false), i - |items|, p) == GenAt(h, h.gens[g], |items| + (i - |items|), p);
      }
    }
    assert Resumes(h, o, |items|, to');
    StepKeeps(h, k, o);
  }

  lemma EndsKept<A(!new)>(h: Graph<A>, k: Graph<A>, n: nat)
    requires Keeps(h, k) && n < |h.cells|
    ensures Ends(k, n) <==> Ends(h, n)
  {
    if i: nat :| At(h, n, i, []) == Absent { assert At(k, n, i, []) == Absent; }
    if i: nat :| At(k, n, i, []) == Absent { assert At(h, n, i, []) == Absent; }
  }

  lemma HonestIf<A(!new)>(h: Graph<A>, k: Graph<A>)
    requires Keeps(h, k)
    requires Plain(h) && Honest(h) ==>
      Plain(k) && forall n :: |h.cells| <= n < |k.cells| && k.cells[n].finite ==> Ends(k, n)
    ensures StaysHonest(h, k)
  {
    if Plain(h) && Honest(h) {
      forall n | 0 <= n < |k.cells| && k.cells[n].finite ensures Ends(k, n) {
        if n < |h.cells| { EndsKept(h, k, n); }
      }
    }
  }

  lemma ExactIf<A(!new)>(h: Graph<A>, k: Graph<A>)
    requires Keeps(h, k)
    requires Simple(h) && Exact(h) ==>
      Simple(k) && forall n :: |h.cells| <= n < |k.cells| ==> (k.cells[n].finite <==> Ends(k, n))
    ensures StaysExact(h, k)
  {
    if Simple(h) && Exact(h) {
      forall n | 0 <= n < |k.cells| ensures k.cells[n].finite <==> Ends(k, n) {
        if n < |h.cells| { EndsKept(h, k, n); }
      }
    }
  }

  /** Without new nodes or generators, or with linked generators about, there is nothing to show. */
  lemma MarksStayIfNoneNew<A(!new)>(h: Graph<A>, k: Graph<A>)
    requires Keeps(h, k) && (Plain(h) ==> |k.cells| == |h.cells| && |k.gens| == |h.gens|)
    requires Plain(h) ==>
      forall g :: 0 <= g < |h.gens| ==> k.gens[g].kind == h.gens[g].kind && (h.gens[g].done ==> k.gens[g].done)
    ensures MarksStay(h, k)
  {
    HonestIf(h, k);
    ExactIf(h, k);
  }

  lemma AbsentLater<A(!new)>(h: Graph<A>, n: nat, i: nat)
    requires WF(h) && n < |h.cells| && h.cells[n].body.Filled? && At(h, n, i, []) == Absent
    ensures i >= |h.cells[n].body.items|
  {
    assert CellOk(h, n);
  }

  lemma ProduceEnds<A(!new)>(h: Graph<A>, g: nat, items: seq<V<A>>, to: Gen<A>)
    requires Closing(h, g, items, to) && GenWaits(h, g)
    ensures Keeps(h, Produce(h, g, items, to)) &&
      (Ends(Produce(h, g, items, to), |h.cells|) <==> Ends(h, h.gens[g].out))
  {
    ProduceKeeps(h, g, items, to);
    var k := Produce(h, g, items, to);
    var o, m := h.gens[g].out, |h.cells|;
    assert CellOk(k, o);
    if i: nat :| At(h, o, i, []) == Absent {
      assert At(k, o, i, []) == Absent;
      AbsentLater(k, o, i);
      assert At(k, m, i - |items|, []) == Absent;
    }
    if i: nat :| At(k, m, i, []) == Absent {
      assert At(k, o, |items| + i, []) == Absent;
      assert At(h, o, |items| + i, []) == Absent;
    }
  }

  lemma ProduceHonest<A(!new)>(h: Graph<A>, g: nat, items: seq<V<A>>, to: Gen<A>)
    requires Closing(h, g, items, to) && GenWaits(h, g)
    ensures Keeps(h, Produce(h, g, items, to)) && MarksStay(h, Produce(h, g, items, to))
  {
    ProduceEnds(h, g, items, to);
    var k := Produce(h, g, items, to);
    assert CellOk(h, h.gens[g].out);
    HonestIf(h, k);
    ExactIf(h, k);
  }

  ghost predicate GenEnds<A(!new)>(h: Graph<A>, g: Gen<A>)
    requires WF(h) && GenOk(h, g)
  {
    exists i: nat :: GenAt(h, g, i, []) == Absent
  }

  ghost predicate Fresh<A(!new)>(h: Graph<A>, g: Gen<A>) {
    WF(h) && GenOk(h, g) && !g.done && forall j :: 0 <= j < |g.ins| ==> Normal(h, g.ins[j])
  }

  lemma NewGenEnds<A(!new)>(h: Graph<A>, g: Gen<A>)
    requires Fresh(h, g)
    ensures Keeps(h, NewGen(h, g)) && (Ends(NewGen(h, g), |h.cells|) <==> GenEnds(h, g))
  {
    var k := NewGen(h, g);
    NewGenKeeps(h, g);
    if i: nat :| GenAt(h, g, i, []) == Absent { assert At(k, |h.cells|, i, []) == Absent; }
    if i: nat :| At(k, |h.cells|, i, []) == Absent { assert GenAt(h, g, i, []) == Absent; }
  }

  lemma NewGenHonest<A(!new)>(h: Graph<A>, g: Gen<A>)
    requires Fresh(h, g) && !g.kind.Linked?
    requires Plain(h) && Honest(h) && g.finite ==> GenEnds(h, g)
    ensures Keeps(h, NewGen(h, g)) && StaysHonest(h, NewGen(h, g))
  {
    NewGenEnds(h, g);
    HonestIf(h, NewGen(h, g));
  }

  lemma NewGenExact<A(!new)>(h: Graph<A>, g: Gen<A>)
    requires Fresh(h, g) && !g.kind.Linked?
    requires Simple(h) && Exact(h) ==> !Deep(g.kind) && (g.finite <==> GenEnds(h, g))
    ensures Keeps(h, NewGen(h, g)) && StaysExact(h, NewGen(h, g))
  {
    NewGenEnds(h, g);
    ExactIf(h, NewGen(h, g));
  }

  // ---------- cursors ----------

  function Input<A>(v: V<A>): In<A> { match v case Atom(_) => Const(v) case Ref(n) => Cursor(n, 0) }

  /** Read as an input, a value shows the labels it has below its first index. */
  lemma InputLabels<A(!new)>(h: Graph<A>, v: V<A>, level: nat, i: nat, p: Path)
    requires WF(h) && Valid(h, v) && InOk(h, Input(v), level)
    ensures InAt(h, Input(v), i, p, level) == Obs(h, v, [i] + p)
    ensures InTrail(h, Input(v), i, p, level) == Trail(h, v, [i] + p)[1..]
  {
    assert ([i] + p)[1..] == p;
    forall c | 0 <= c <= |p| ensures InTrail(h, Input(v), i, p, level)[c] == Trail(h, v, [i] + p)[c + 1] {
      InputStep(h, v, level, i, p, c);
    }
  }

  lemma InputStep<A(!new)>(h: Graph<A>, v: V<A>, level: nat, i: nat, p: Path, c: nat)
    requires WF(h) && Valid(h, v) && InOk(h, Input(v), level) && c <= |p|
    ensures InAt(h, Input(v), i, p[..c], level) == Obs(h, v, ([i] + p)[..c + 1])
  {
    var q := ([i] + p)[..c + 1];
    assert q == [i] + p[..c] && q[0] == i && q[1..] == p[..c];
  }

  /** The cursor n elements on; a cursor never rests at the end of a node. */
  function Advance<A>(h: Graph<A>, a: In<A>, n: nat): In<A> {
    if a.Cursor? && a.id < |h.cells| && h.cells[a.id].body.Filled? then
      var body := h.cells[a.id].body;
      if a.off + n != |body.items| then Cursor(a.id, a.off + n)
      else match body.next case End => Spent case To(m) => Cursor(m, 0)
    else a
  }

  lemma Advanced<A(!new)>(h: Graph<A>, a: In<A>, n: nat, level: nat, i: nat, p: Path)
    requires WF(h) && InOk(h, a, level)
    requires a.Cursor? ==> h.cells[a.id].body.Filled? && a.off + n <= |h.cells[a.id].body.items|
    ensures InOk(h, Advance(h, a, n), level) && Normal(h, Advance(h, a, n)) && Advance(h, a, n).Const? == a.Const?
    ensures InAt(h, Advance(h, a, n), i, p, level) == InAt(h, a, n + i, p, level)
  {
    if a.Cursor? { assert CellOk(h, a.id); }
  }
}
