/**
  What calls and mappings give, on trees: the meaning of a function by recursion on it, and two flat
  lists under an each-operator, as the table of all pairs or as the pairs side by side.
 */
module LazyCalls {
  import opened Basics
  import opened Masks
  import opened LazyLists
  import opened LazyStore
  import opened LazyTurns
  import opened LazyEach
  import opened LazyRun
  import opened LazySpec
  import opened LazyLeaves
  import opened EachMapping

  // ---------- calls ----------

  /** The meaning of a function on trees: its arguments, primitives applied at the leaves, lists of results. */
  ghost function Meaning<A(!new)>(f: Fun<A>, ts: seq<Tree<A>>): Tree<A>
    requires FunOk(f, |ts|)
  {
    match f
    case Arg(j) => ts[j]
    case Lit(x) => One(x)
    case Prim(g, args) => LiftAll(g, seq(|args|, k requires 0 <= k < |args| => Meaning(args[k], ts)))
    case Listing(items) => Many(seq(|items|, k requires 0 <= k < |items| => Meaning(items[k], ts)))
  }

  lemma {:induction false} MeaningShows<A(!new)>(h: Graph<A>, f: Fun<A>, row: seq<V<A>>, ts: seq<Tree<A>>, p: Path)
    requires WF(h) && AllValid(h, row) && |ts| == |row| && FunOk(f, |row|) && ViewOk(h, RowView(row))
    requires forall j :: 0 <= j < |row| ==> Shows(h, row[j], ts[j])
    ensures FunAt(h, f, RowView(row), p) == TreeLabel(Meaning(f, ts), p)
    decreases f
  {
    match f
    case Arg(j) => RowSeen(h, row, j, p);
    case Lit(_) =>
    case Prim(g, args) =>
      var values := seq(|args|, k requires 0 <= k < |args| => Meaning(args[k], ts));
      var labels := seq(|args|, k requires 0 <= k < |args| => FunAt(h, args[k], RowView(row), p));
      forall k | 0 <= k < |args| ensures labels[k] == TreeLabel(values[k], p) {
        MeaningShows(h, args[k], row, ts, p);
      }
      assert labels == LabelsAll(values, p);
      LiftAllIsPointwise(g, values, p);
    case Listing(items) =>
      if p != [] && p[0] < |items| { MeaningShows(h, items[p[0]], row, ts, p[1..]); }
  }

  /** What a call leaves shows the meaning of the function on what its arguments show. */
  lemma CallShows<A(!new)>(h: Graph<A>, k: Graph<A>, f: Fun<A>, row: seq<V<A>>, r: V<A>, ts: seq<Tree<A>>)
    requires WF(h) && WF(k) && AllValid(h, row) && Valid(k, r) && |ts| == |row| && FunOk(f, |row|)
    requires forall j :: 0 <= j < |row| ==> Shows(h, row[j], ts[j])
    requires forall p :: Obs(k, r, p) == CallAt(h, f, row, p)
    ensures Shows(k, r, Meaning(f, ts))
  {
    RowViewOk(h, row);
    forall p ensures Obs(k, r, p) == TreeLabel(Meaning(f, ts), p) { MeaningShows(h, f, row, ts, p); }
  }

  // ---------- mappings over two flat lists ----------

  /** A call of a primitive on both arguments. */
  function Both<A>(g: seq<A> -> A): Fun<A> { Prim(g, [Arg(0), Arg(1)]) }

  lemma SelectTwo(i: nat, j: nat)
    ensures Select(1, 0, [i]) == [i] && Select(2, 0, [i]) == []
    ensures Select(1, 0, [i, j]) == [i] && Select(2, 0, [i, j]) == [j]
  {
    assert [i][1..] == [] && [i, j][1..] == [j] && [j][1..] == [];
    assert Bit(1, 0) && !Bit(1, 1) && !Bit(2, 0) && Bit(2, 1);
    assert Select(1, 1, [j]) == [] && Select(2, 1, [j]) == [j];
  }

  lemma TwoLevels()
    ensures Levels(Combined([1, 2])) == 2 && Levels(Combined([1, 1])) == 1
  {
    assert [1, 2][1..] == [2] && [1, 1][1..] == [1] && [2][1..] == [] && [1][1..] == [];
    assert Or(2, 0) == 2 && Or(1, 0) == 1 && Or(1, 2) == 3 && Or(1, 1) == 1;
  }

  /** What the call shows where both arguments are scalars, or one of them has nothing. */
  lemma CallOnBoth<A(!new)>(h: Graph<A>, g: seq<A> -> A, v: View<A>, x: A, y: A)
    requires ViewOk(h, v) && |v.ins| == 2 && Seen(h, v, 0, []) == Leaf(x) && Seen(h, v, 1, []) == Leaf(y)
    ensures FunAt(h, Both(g), v, []) == Leaf(g([x, y]))
  {
    var args := [Arg(0), Arg(1)];
    var ls := seq(|args|, k requires 0 <= k < |args| => FunAt(h, args[k], v, []));
    assert FunAt(h, args[0], v, []) == Leaf(x) && FunAt(h, args[1], v, []) == Leaf(y);
    assert ls == [Leaf(x), Leaf(y)];
    assert seq(|ls|, j requires 0 <= j < |ls| => if ls[j].Leaf? then ls[j].x else g([])) == [x, y];
  }

  lemma SeenInRow<A(!new)>(h: Graph<A>, row: seq<V<A>>, j: nat, n: nat, i: nat)
    requires WF(h) && AllValid(h, row) && j < |row| && row[j] == Ref(n)
    ensures ViewOk(h, RowView(row)) && Seen(h, RowView(row), j, []) == Nest
    ensures Seen(h, RowView(row), j, [i]) == At(h, n, i, [])
  {
    RowSeen(h, row, j, []);
    RowSeen(h, row, j, [i]);
    assert [i][1..] == [];
  }

  /** What the comprehension over two flat lists has at final indices. */
  lemma PairAt<A(!new)>(h: Graph<A>, g: seq<A> -> A, v: View<A>, masks: seq<nat>, levels: nat, idx: Path, l: Label<A>,
                        a: Label<A>, b: Label<A>)
    requires ViewOk(h, v) && |v.ins| == |masks| == 2 && |idx| == levels
    requires Comprehends(h, Both(g), v, masks, 0, levels, idx, [], l)
    requires a == Seen(h, v, 0, Select(masks[0], 0, idx)) && b == Seen(h, v, 1, Select(masks[1], 0, idx))
    requires !a.Nest? && !b.Nest?
    ensures l == if a.Leaf? && b.Leaf? then Leaf(g([a.x, b.x])) else Absent
  {
    if a.Leaf? && b.Leaf? {
      assert Reaches(h, v, masks, 0, idx);
      SelectedSeen(h, v, masks, 0, idx, 0, []);
      SelectedSeen(h, v, masks, 0, idx, 1, []);
      assert Select(masks[0], 0, idx) + [] == Select(masks[0], 0, idx);
      assert Select(masks[1], 0, idx) + [] == Select(masks[1], 0, idx);
      CallOnBoth(h, g, Selected(v, masks, 0, idx), a.x, b.x);
    } else if a.Absent? {
      assert Seen(h, v, 0, Select(masks[0], 0, idx)).Absent? && !Reaches(h, v, masks, 0, idx);
    } else {
      assert Seen(h, v, 1, Select(masks[1], 0, idx)).Absent? && !Reaches(h, v, masks, 0, idx);
    }
  }

  /** Inside the elements of the first list the second one is iterated. */
  lemma SecondOpens<A(!new)>(h: Graph<A>, row: seq<V<A>>, n: nat, i: nat)
    requires WF(h) && AllValid(h, row) && |row| == 2 && row[1] == Ref(n) && ViewOk(h, RowView(row))
    ensures Opens(h, RowView(row), [1, 2], 0, [i])
  {
    SelectTwo(i, 0);
    RowSeen(h, row, 1, []);
    assert Bit([1, 2][1], 1) && Seen(h, RowView(row), 1, Select([1, 2][1], 0, [i])).Nest?;
  }

  lemma TableComprehends<A(!new)>(h: Graph<A>, g: seq<A> -> A, row: seq<V<A>>, n: nat, block: Size, i: nat, j: nat)
    requires WF(h) && AllValid(h, row) && |row| == 2 && row[1] == Ref(n) && ViewOk(h, RowView(row))
    ensures var k := NewGen(h, TopMapper(h, Both(g), row, [1, 2], block));
      WF(k) && Comprehends(h, Both(g), RowView(row), [1, 2], 0, 2, [i, j], [], At(k, |h.cells|, i, [j]))
  {
    TwoLevels();
    SecondOpens(h, row, n, i);
    assert [i, j][..1] == [i] && [i, j][1..] + [] == [j];
    EachOpsComprehend(h, Both(g), row, [1, 2], block, [i, j], []);
  }

  /**
    The first list iterated outside, the second inside: element j of element i is the call on element i
    of the first list and element j of the second.
   */
  lemma TableOfPairs<A(!new)>(h: Graph<A>, g: seq<A> -> A, m: nat, n: nat, block: Size, xs: seq<A>, ys: seq<A>, i: nat,
                              j: nat)
    requires WF(h) && m < |h.cells| && n < |h.cells| && Holds(h, m, xs) && Holds(h, n, ys)
    ensures var k := NewGen(h, TopMapper(h, Both(g), [Ref(m), Ref(n)], [1, 2], block));
      WF(k) && At(k, |h.cells|, i, [j]) == if i < |xs| && j < |ys| then Leaf(g([xs[i], ys[j]])) else Absent
  {
    var row := [Ref(m), Ref(n)];
    SeenInRow(h, row, 0, m, i);
    SeenInRow(h, row, 1, n, j);
    TableComprehends(h, g, row, n, block, i, j);
    SelectTwo(i, j);
    PairAt(h, g, RowView(row), [1, 2], 2, [i, j],
      At(NewGen(h, TopMapper(h, Both(g), row, [1, 2], block)), |h.cells|, i, [j]),
      At(h, m, i, []), At(h, n, j, []));
  }

  /** As many rows as the first list has elements. */
  lemma RowsOfTable<A(!new)>(h: Graph<A>, g: seq<A> -> A, m: nat, n: nat, block: Size, xs: seq<A>, i: nat)
    requires WF(h) && m < |h.cells| && n < |h.cells| && Holds(h, m, xs)
    ensures var k := NewGen(h, TopMapper(h, Both(g), [Ref(m), Ref(n)], [1, 2], block));
      WF(k) && At(k, |h.cells|, i, []) == if i < |xs| then Nest else Absent
  {
    var row, masks := [Ref(m), Ref(n)], [1, 2];
    TwoLevels();
    SelectTwo(i, 0);
    SeenInRow(h, row, 0, m, i);
    SeenInRow(h, row, 1, n, 0);
    var v := RowView(row);
    EachOpsComprehend(h, Both(g), row, masks, block, [i], []);
    assert [i][1..] + [] == [];
    SecondOpens(h, row, n, i);
    if i < |xs| {
      assert Reaches(h, v, masks, 0, [i]);
    } else {
      assert Seen(h, v, 0, Select(masks[0], 0, [i])).Absent?;
    }
  }

  /** Both iterated at the same level: element i is the call on element i of either list, up to the shorter one. */
  lemma PairsSideBySide<A(!new)>(h: Graph<A>, g: seq<A> -> A, m: nat, n: nat, block: Size, xs: seq<A>, ys: seq<A>,
                                 i: nat)
    requires WF(h) && m < |h.cells| && n < |h.cells| && Holds(h, m, xs) && Holds(h, n, ys)
    ensures var k := NewGen(h, TopMapper(h, Both(g), [Ref(m), Ref(n)], [1, 1], block));
      WF(k) && At(k, |h.cells|, i, []) == if i < |xs| && i < |ys| then Leaf(g([xs[i], ys[i]])) else Absent
  {
    var row, masks := [Ref(m), Ref(n)], [1, 1];
    TwoLevels();
    SelectTwo(i, 0);
    SeenInRow(h, row, 0, m, i);
    SeenInRow(h, row, 1, n, i);
    EachOpsComprehend(h, Both(g), row, masks, block, [i], []);
    assert [i][1..] + [] == [];
    PairAt(h, g, RowView(row), masks, 1, [i], At(NewGen(h, TopMapper(h, Both(g), row, masks, block)), |h.cells|, i, []),
      At(h, m, i, []), At(h, n, i, []));
  }
}
