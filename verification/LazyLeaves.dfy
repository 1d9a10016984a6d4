/**
  What the list primitives give on flat lists: the elements of each result as a sequence, computed
  from the elements of the operands without generators, nodes or paths.
 */
module LazyLeaves {
  import opened Basics
  import opened LazyLists
  import opened LazyStore
  import opened LazyTurns
  import opened LazyRun
  import opened LazySpec
  import opened LazyLaws
  import opened LazyUse

  /** The list's elements are the leaves xs. */
  ghost predicate Holds<A(!new)>(h: Graph<A>, n: nat, xs: seq<A>)
    requires WF(h) && n < |h.cells|
  {
    forall i: nat :: At(h, n, i, []) == if i < |xs| then Leaf(xs[i]) else Absent
  }

  /** f(.. f(f(acc, xs[0]), xs[1]) ..) */
  function FoldFrom<A>(f: (A, A) -> A, acc: A, xs: seq<A>): A {
    if xs == [] then acc else FoldFrom(f, f(acc, xs[0]), xs[1..])
  }

  function Sum(xs: seq<real>): real { if xs == [] then 0.0 else xs[0] + Sum(xs[1..]) }

  lemma {:induction false} FoldOneMore<A>(f: (A, A) -> A, acc: A, xs: seq<A>, x: A)
    ensures FoldFrom(f, acc, xs + [x]) == f(FoldFrom(f, acc, xs), x)
  {
    if xs == [] {
      assert [x][1..] == [];
    } else {
      assert (xs + [x])[1..] == xs[1..] + [x];
      FoldOneMore(f, f(acc, xs[0]), xs[1..], x);
    }
  }

  lemma {:induction false} AddingUp(acc: real, xs: seq<real>)
    ensures FoldFrom(Add, acc, xs) == acc + Sum(xs)
    decreases xs
  {
    if xs != [] { AddingUp(acc + xs[0], xs[1..]); }
  }

  // ---------- scans and pairs ----------

  function OptAtom<A>(acc: Option<A>): Option<V<A>> { match acc case None => None case Some(z) => Some(Atom(z)) }

  /** The first so many elements combined from the left, after the seed if there is one. */
  function Folded1<A>(f: (A, A) -> A, acc: Option<A>, xs: seq<A>): A
    requires acc.None? ==> xs != []
  {
    if acc.Some? then FoldFrom(f, acc.value, xs) else FoldFrom(f, xs[0], xs[1..])
  }

  lemma {:induction false} ScanFolds<A(!new)>(h: Graph<A>, op: Op<A>, acc: Option<A>, n: nat, level: nat, xs: seq<A>,
          i: nat)
    requires WF(h) && n < |h.cells| && Holds(h, n, xs) && InOk(h, Cursor(n, 0), level)
    ensures ScanAt(h, op, OptAtom(acc), Cursor(n, 0), i, [], level) ==
      if i < |xs| then Leaf(Folded1(op.f, acc, xs[..i + 1])) else Absent
    decreases i
  {
    assert InAt(h, Cursor(n, 0), i, [], level) == At(h, n, i, []);
    if i > 0 {
      ScanFolds(h, op, acc, n, level, xs, i - 1);
      if i < |xs| {
        assert xs[..i + 1] == xs[..i] + [xs[i]];
        if acc.Some? {
          FoldOneMore(op.f, acc.value, xs[..i], xs[i]);
        } else {
          assert xs[..i + 1][1..] == xs[..i][1..] + [xs[i]];
          FoldOneMore(op.f, xs[0], xs[..i][1..], xs[i]);
        }
      }
    } else if xs != [] {
      assert xs[..1] == [xs[0]] && [xs[0]][1..] == [];
      if acc.Some? { assert FoldFrom(op.f, acc.value, [xs[0]]) == FoldFrom(op.f, op.f(acc.value, xs[0]), []); }
    }
  }

  /** What `Fold` makes of a list of leaves. */
  function FoldElements<A>(kind: Kind<A>, xs: seq<A>): seq<A>
    requires IsFold(kind) && (kind.IScan? || kind.IPairs? ==> kind.z.Atom?)
  {
    match kind
    case Scan(op, _) => seq(|xs|, i requires 0 <= i < |xs| => FoldFrom(op.f, xs[0], xs[1..i + 1]))
    case Pairs(op, _) => seq(|xs|, i requires 0 <= i < |xs| => if i == 0 then xs[0] else op.f(xs[i], xs[i - 1]))
    case IScan(op, z, _) =>
      if xs == [] then [] else seq(|xs| + 1, i requires 0 <= i <= |xs| => FoldFrom(op.f, z.x, xs[..i]))
    case IPairs(op, z, _) =>
      seq(|xs|, i requires 0 <= i < |xs| => if i == 0 then z.x else op.f(xs[i], xs[i - 1]))
  }

  lemma GeneratedFold<A(!new)>(h: Graph<A>, kind: Kind<A>, n: nat, block: Size, xs: seq<A>, i: nat)
    requires WF(h) && n < |h.cells| && Holds(h, n, xs) && IsFold(kind) && KindOk(h, kind, 1)
    requires kind.IScan? || kind.IPairs? ==> kind.z.Atom?
    ensures var g, ys := ListGen(h, kind, n, block), FoldElements(kind, xs);
      GenOk(h, g) && GenAt(h, g, i, []) == if i < |ys| then Leaf(ys[i]) else Absent
  {
    ListGenLabels(h, kind, n, block);
    var g := ListGen(h, kind, n, block);
    assert InAt(h, g.ins[0], i, [], g.level) == At(h, n, i, []);
    assert InAt(h, g.ins[0], 0, [], g.level) == At(h, n, 0, []);
    if i > 0 { assert InAt(h, g.ins[0], i - 1, [], g.level) == At(h, n, i - 1, []); }
    match kind
    case Scan(op, _) =>
      ScanFolds(h, op, None, n, g.level, xs, i);
      if i < |xs| { assert xs[..i + 1][1..] == xs[1..i + 1]; }
    case IScan(op, z, _) =>
      if i > 0 { ScanFolds(h, op, Some(z.x), n, g.level, xs, i - 1); }
    case _ =>
  }

  /** The list that `Fold` makes, element by element. */
  lemma FoldHolds<A(!new)>(h: Graph<A>, kind: Kind<A>, n: nat, block: Size, xs: seq<A>)
    requires WF(h) && n < |h.cells| && Holds(h, n, xs) && IsFold(kind) && KindOk(h, kind, 1)
    requires kind.IScan? || kind.IPairs? ==> kind.z.Atom?
    ensures var k := NewGen(h, ListGen(h, kind, n, block));
      WF(k) && Holds(k, n, xs) && Holds(k, |h.cells|, FoldElements(kind, xs))
  {
    ListGenLabels(h, kind, n, block);
    var k := NewGen(h, ListGen(h, kind, n, block));
    var ys := FoldElements(kind, xs);
    forall i: nat ensures At(k, |h.cells|, i, []) == if i < |ys| then Leaf(ys[i]) else Absent {
      GeneratedFold(h, kind, n, block, xs, i);
    }
    forall i: nat ensures At(k, n, i, []) == At(h, n, i, []) {}
  }

  /** Running sums: element i is the sum of the elements up to it. */
  lemma RunningSums(h: Graph<real>, n: nat, block: Size, xs: seq<real>)
    requires WF(h) && n < |h.cells| && Holds(h, n, xs)
    ensures var k := NewGen(h, ListGen(h, Scan(PLUS, None), n, block));
      WF(k) && Holds(k, |h.cells|, seq(|xs|, i requires 0 <= i < |xs| => Sum(xs[..i + 1])))
  {
    ArithmeticIsFaithful();
    FoldHolds(h, Scan(PLUS, None), n, block, xs);
    forall i | 0 <= i < |xs| ensures FoldElements(Scan(PLUS, None), xs)[i] == Sum(xs[..i + 1]) {
      AddingUp(xs[0], xs[1..i + 1]);
      assert xs[..i + 1][1..] == xs[1..i + 1];
    }
    assert FoldElements(Scan(PLUS, None), xs) == seq(|xs|, i requires 0 <= i < |xs| => Sum(xs[..i + 1]));
  }

  lemma SumStep(z: real, xs: seq<real>, i: nat)
    requires i < |xs|
    ensures Subtract(FoldFrom(Add, z, xs[..i + 1]), FoldFrom(Add, z, xs[..i])) == xs[i]
  {
    assert xs[..i + 1] == xs[..i] + [xs[i]];
    FoldOneMore(Add, z, xs[..i], xs[i]);
  }

  lemma SumsDiffer(z: real, y: real, xs: seq<real>)
    requires xs != []
    ensures FoldElements(IPairs(MINUS, Atom(y), true), FoldElements(IScan(PLUS, Atom(z), true), xs)) == [y] + xs
  {
    var sums := FoldElements(IScan(PLUS, Atom(z), true), xs);
    var back := FoldElements(IPairs(MINUS, Atom(y), true), sums);
    assert |back| == |xs| + 1;
    forall i | 0 <= i < |xs| ensures back[i + 1] == xs[i] {
      assert sums[i] == FoldFrom(Add, z, xs[..i]) && sums[i + 1] == FoldFrom(Add, z, xs[..i + 1]);
      assert back[i + 1] == Subtract(sums[i + 1], sums[i]);
      SumStep(z, xs, i);
    }
  }

  /** The seeded differences of the seeded running sums: the new seed, then the list itself. */
  lemma SeededSumsUndone(h: Graph<real>, z: real, y: real, n: nat, block: Size, xs: seq<real>)
    requires WF(h) && n < |h.cells| && Holds(h, n, xs)
    ensures var k := NewGen(h, ListGen(h, IScan(PLUS, Atom(z), true), n, block));
      var l := NewGen(k, ListGen(k, IPairs(MINUS, Atom(y), true), |h.cells|, block));
      WF(l) && Holds(l, |k.cells|, if xs == [] then [] else [y] + xs)
  {
    ArithmeticIsFaithful();
    var scan, pairs := IScan(PLUS, Atom(z), true), IPairs(MINUS, Atom(y), true);
    FoldHolds(h, scan, n, block, xs);
    if xs != [] { SumsDiffer(z, y, xs); }
    FoldHolds(NewGen(h, ListGen(h, scan, n, block)), pairs, |h.cells|, block, FoldElements(scan, xs));
  }

  // ---------- reductions ----------

  /** A reduction combines the elements from the left. */
  lemma ReducedIs<A(!new)>(h: Graph<A>, k: Graph<A>, op: Op<A>, acc: Option<A>, n: nat, len: nat, empty: A, r: V<A>,
                           xs: seq<A>)
    requires Reduced(h, k, op, OptAtom(acc), n, len, Atom(if acc.Some? then acc.value else empty), r)
    requires Holds(h, n, xs)
    ensures len == |xs|
    ensures Obs(k, r, []) == Leaf(if acc.None? && xs == [] then empty else Folded1(op.f, acc, xs))
  {
    assert At(h, n, len, []).Absent? && !At(h, n, |xs|, []).Leaf?;
    if len > 0 {
      assert !At(h, n, len - 1, []).Absent?;
      ScanFolds(h, op, acc, n, h.cells[n].level + 1, xs, len - 1);
      assert xs[..len] == xs;
    }
  }

  /** `+/`: the sum of the elements. */
  lemma ReducedSum(h: Graph<real>, k: Graph<real>, n: nat, len: nat, r: V<real>, xs: seq<real>)
    requires Reduced(h, k, PLUS, None, n, len, Atom(0.0), r) && Holds(h, n, xs)
    ensures Obs(k, r, []) == Leaf(Sum(xs))
  {
    ReducedIs(h, k, PLUS, None, n, len, 0.0, r, xs);
    if xs != [] { AddingUp(xs[0], xs[1..]); }
  }

  // ---------- pointwise operators ----------

  function Later<A>(f: (A, A) -> A, linked: bool, xs: seq<A>, ys: seq<A>): seq<A> {
    var n := Min(|xs|, |ys|);
    seq(n, i requires 0 <= i < n => f(xs[i], ys[i])) + if linked then xs[n..] + ys[n..] else []
  }

  /** Two flat lists: element by element up to the end of the shorter one; a linked operator goes on with the rest. */
  lemma BinaryHolds<A(!new)>(h: Graph<A>, k: Graph<A>, op: Op<A>, m: nat, n: nat, r: nat, xs: seq<A>, ys: seq<A>)
    requires WF(h) && WF(k) && m < |h.cells| && n < |h.cells| && r < |k.cells| && Holds(h, m, xs) && Holds(h, n, ys)
    requires forall p :: Obs(k, Ref(r), p) == OpLabel(h, op, Ref(m), Ref(n), p)
    ensures Holds(k, r, Later(op.f, op.linked, xs, ys))
  {
    var zs := Later(op.f, op.linked, xs, ys);
    forall i: nat ensures At(k, r, i, []) == if i < |zs| then Leaf(zs[i]) else Absent {
      FlatLabel(h, op, m, n, xs, ys, i);
      assert [i][1..] == [];
      assert Obs(k, Ref(r), [i]) == At(k, r, i, []);
    }
  }

  lemma FlatLabel<A(!new)>(h: Graph<A>, op: Op<A>, m: nat, n: nat, xs: seq<A>, ys: seq<A>, i: nat)
    requires WF(h) && m < |h.cells| && n < |h.cells| && Holds(h, m, xs) && Holds(h, n, ys)
    ensures var zs := Later(op.f, op.linked, xs, ys);
      OpLabel(h, op, Ref(m), Ref(n), [i]) == if i < |zs| then Leaf(zs[i]) else Absent
  {
    assert [i][1..] == [] && [i][..0] == [] && [i][..1] == [i];
    var s, t := Trail(h, Ref(m), [i]), Trail(h, Ref(n), [i]);
    assert s == [Nest, At(h, m, i, [])] && t == [Nest, At(h, n, i, [])];
    assert s[1..] == [At(h, m, i, [])] && t[1..] == [At(h, n, i, [])];
    if op.linked {
      assert LinkLabel(op, true, true, s, t) == LinkLabel(op, false, false, s[1..], t[1..]);
    }
  }

  lemma UnaryHolds<A(!new)>(h: Graph<A>, k: Graph<A>, f: A -> A, n: nat, r: nat, xs: seq<A>)
    requires WF(h) && WF(k) && n < |h.cells| && r < |k.cells| && Holds(h, n, xs)
    requires forall p :: Obs(k, Ref(r), p) == Apply1(f, Obs(h, Ref(n), p))
    ensures Holds(k, r, seq(|xs|, i requires 0 <= i < |xs| => f(xs[i])))
  {
    forall i: nat ensures At(k, r, i, []) == if i < |xs| then Leaf(f(xs[i])) else Absent {
      assert [i][1..] == [];
      assert Obs(k, Ref(r), [i]) == At(k, r, i, []) && Obs(h, Ref(n), [i]) == At(h, n, i, []);
    }
  }

  // ---------- series ----------

  function Power(x: real, n: nat): real { if n == 0 then 1.0 else x * Power(x, n - 1) }

  lemma SeriesStep<A(!new)>(h: Graph<A>, op: Op<A>, z: V<A>, step: A, i: nat, x: A)
    requires WF(h) && Valid(h, z) && i > 0 && SeriesAt(h, op, z, Atom(step), i - 1, []) == Leaf(x)
    ensures SeriesAt(h, op, z, Atom(step), i, []) == Leaf(op.f(x, step))
  {}

  function ByElement(start: real, step: real, i: nat): real { start + i as real * step }
  function GrowElement(start: real, step: real, i: nat): real { start * Power(step, i) }

  lemma ByNext(start: real, step: real, i: nat)
    ensures ByElement(start, step, 0) == start && ByElement(start, step, i + 1) == Add(ByElement(start, step, i), step)
  {
    assert (i + 1) as real * step == i as real * step + step;
  }
  lemma GrowNext(start: real, step: real, i: nat)
    ensures GrowElement(start, step, 0) == start
    ensures GrowElement(start, step, i + 1) == Multiply(GrowElement(start, step, i), step)
  {
    TimesOnce(start, step, Power(step, i));
  }
  lemma TimesOnce(a: real, x: real, p: real)
    ensures (a * p) * x == a * (x * p)
  {}

  /** `by`: element i is the start and i steps. */
  lemma {:induction false} BySeries(h: Graph<real>, start: real, step: real, i: nat)
    requires WF(h)
    ensures SeriesAt(h, PLUS, Atom(start), Atom(step), i, []) == Leaf(ByElement(start, step, i))
  {
    if i == 0 {
      ByNext(start, step, 0);
    } else {
      BySeries(h, start, step, i - 1);
      SeriesStep(h, PLUS, Atom(start), step, i, ByElement(start, step, i - 1));
      ByNext(start, step, i - 1);
    }
  }

  /** `grow`: element i is the start times the i-th power of the step. */
  lemma {:induction false} GrowSeries(h: Graph<real>, start: real, step: real, i: nat)
    requires WF(h)
    ensures SeriesAt(h, MUL, Atom(start), Atom(step), i, []) == Leaf(GrowElement(start, step, i))
  {
    if i == 0 {
      GrowNext(start, step, 0);
    } else {
      GrowSeries(h, start, step, i - 1);
      SeriesStep(h, MUL, Atom(start), step, i, GrowElement(start, step, i - 1));
      GrowNext(start, step, i - 1);
    }
  }
}
