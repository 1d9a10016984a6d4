/** Consumers of whole lists: length, packing and reduction. */
module LazyUse {
  import opened Basics
  import opened LazyLists
  import opened LazyStore
  import opened LazyTurns
  import opened LazyRun

  /** The list has exactly len elements. */
  ghost predicate HasLength<A(!new)>(h: Graph<A>, n: nat, len: nat)
    requires WF(h) && n < |h.cells|
  {
    forall i: nat :: At(h, n, i, []).Absent? <==> i >= len
  }

  /** Every list that is used as finite must be: what the flag is for. */
  ghost predicate FlagTrue<A(!new)>(h: Graph<A>, n: nat)
    requires WF(h) && n < |h.cells|
  {
    h.cells[n].finite ==> Ends(h, n)
  }

  /** From the node list on, the list that began at n goes on with its element number at. */
  ghost predicate Reached<A(!new)>(h: Graph<A>, n: nat, list: Next, at: nat) {
    WF(h) && n < |h.cells| && (forall i: nat :: i < at ==> !At(h, n, i, []).Absent?) &&
    match list
    case End => forall i, p :: i >= at ==> At(h, n, i, p).Absent?
    case To(m) => m < |h.cells| && forall i, p :: At(h, m, i, p) == At(h, n, at + i, p)
  }

  lemma ReachedKept<A(!new)>(h: Graph<A>, k: Graph<A>, n: nat, list: Next, at: nat)
    requires Keeps(h, k) && Reached(h, n, list, at)
    ensures Reached(k, n, list, at)
  {
    if list.To? {
      forall i, p ensures At(k, list.id, i, p) == At(k, n, at + i, p) {
        assert At(h, list.id, i, p) == At(h, n, at + i, p);
      }
    }
  }

  /** Over h, the values read as the elements that list n of h0 has from number at on. */
  ghost predicate Carries<A(!new)>(h: Graph<A>, items: seq<V<A>>, h0: Graph<A>, n: nat, at: nat) {
    WF(h) && WF(h0) && n < |h0.cells| && AllValid(h, items) &&
    forall j, p :: 0 <= j < |items| ==> Obs(h, items[j], p) == At(h0, n, at + j, p)
  }

  lemma ReachedOn<A(!new)>(h: Graph<A>, n: nat, m: nat, at: nat)
    requires Reached(h, n, To(m), at) && h.cells[m].body.Filled?
    ensures Reached(h, n, h.cells[m].body.next, at + |h.cells[m].body.items|)
    ensures Carries(h, h.cells[m].body.items, h, n, at)
  {
    assert CellOk(h, m);
    var items, next := h.cells[m].body.items, h.cells[m].body.next;
    var more := at + |items|;
    forall j, p | 0 <= j < |items| ensures Valid(h, items[j]) && Obs(h, items[j], p) == At(h, n, at + j, p) {
      assert At(h, m, j, p) == At(h, n, at + j, p);
    }
    forall i: nat | i < more ensures !At(h, n, i, []).Absent? {
      if i >= at { assert Obs(h, items[i - at], []) == At(h, n, at + (i - at), []); }
    }
    match next
    case End =>
      forall i, p | i >= more ensures At(h, n, i, p).Absent? {
        assert At(h, m, i - at, p) == At(h, n, at + (i - at), p);
      }
    case To(c) =>
      forall i, p ensures At(h, c, i, p) == At(h, n, more + i, p) {
        assert At(h, m, |items| + i, p) == At(h, n, at + (|items| + i), p);
      }
  }

  /** The next node is nearer to the end: more elements passed, or a lower level, or the last node. */
  ghost function Stage<A(!new)>(h: Graph<A>, list: Next): nat
    requires list.To? ==> list.id < |h.cells|
  {
    if list == End then 0 else 2 * h.cells[list.id].level + (if AtEnd(h, list.id) then 1 else 2)
  }

  lemma StageFalls<A(!new)>(h: Graph<A>, k: Graph<A>, m: nat)
    requires Keeps(h, k) && m < |h.cells| && k.cells[m].body.Filled? && k.cells[m].body.items == []
    ensures CellOk(k, m) && Stage(k, k.cells[m].body.next) < Stage(h, To(m))
  {
    assert CellOk(k, m);
  }

  // force one node of the list that began at n
  method Visit<A(!new)>(s: Store<A>, n: nat, m: nat, at: nat) returns (items: seq<V<A>>, next: Next)
    requires Reached(s.graph, n, To(m), at)
    modifies s
    ensures Keeps(old(s.graph), s.graph) && MarksStay(old(s.graph), s.graph) &&
      Reached(s.graph, n, next, at + |items|)
    ensures m < |s.graph.cells| && s.graph.cells[m].body == Filled(items, next) &&
      Carries(s.graph, items, old(s.graph), n, at)
    ensures items == [] ==> Stage(s.graph, next) < Stage(old(s.graph), To(m))
  {
    ghost var h := s.graph;
    s.Force(m);
    ReachedKept(h, s.graph, n, To(m), at);
    ReachedOn(s.graph, n, m, at);
    assert forall i, p :: At(s.graph, n, i, p) == At(h, n, i, p);
    items, next := s.graph.cells[m].body.items, s.graph.cells[m].body.next;
    if items == [] { StageFalls(h, s.graph, m); }
  }

  // List::length
  method Length<A(!new)>(s: Store<A>, n: nat) returns (r: Option<nat>)
    requires WF(s.graph) && n < |s.graph.cells| && FlagTrue(s.graph, n)
    modifies s
    ensures Keeps(old(s.graph), s.graph) && MarksStay(old(s.graph), s.graph)
    ensures if old(s.graph).cells[n].finite then r.Some? && HasLength(old(s.graph), n, r.value) else r.None?
    ensures Exact(old(s.graph)) ==> (r.Some? <==> Ends(old(s.graph), n))
  {
    KeepsAll(s.graph);
    if !s.graph.cells[n].finite { return None; }
    ghost var end: nat :| At(s.graph, n, end, []) == Absent;
    var sum, list := 0, To(n);
    while list.To?
      invariant Keeps(old(s.graph), s.graph) && MarksStay(old(s.graph), s.graph) && Reached(s.graph, n, list, sum) &&
        At(s.graph, n, end, []) == Absent && 0 <= sum <= end
      decreases end - sum, Stage(s.graph, list)
    {
      ghost var h := s.graph;
      var items, next := Visit(s, n, list.id, sum);
      KeepsOn(old(s.graph), h, s.graph);
      sum, list := sum + |items|, next;
    }
    assert forall i: nat :: At(s.graph, n, i, []) == At(old(s.graph), n, i, []);
    r := Some(sum);
  }

  /** One filled node with nothing after it, reading as the list at n did. */
  ghost predicate Packed<A(!new)>(h: Graph<A>, n: nat, k: Graph<A>, m: nat)
    requires WF(h) && WF(k) && n < |h.cells|
  {
    m < |k.cells| && k.cells[m].body.Filled? && k.cells[m].body.next == End &&
      (forall i, p :: At(k, m, i, p) == At(h, n, i, p))
  }

  // List::pack
  method Pack<A(!new)>(s: Store<A>, n: nat) returns (m: nat)
    requires WF(s.graph) && n < |s.graph.cells| && Ends(s.graph, n)
    modifies s
    ensures Keeps(old(s.graph), s.graph) && MarksStay(old(s.graph), s.graph) && Packed(old(s.graph), n, s.graph, m)
    ensures HasLength(old(s.graph), n, |s.graph.cells[m].body.items|)
  {
    var all, list := Visit(s, n, n, 0);
    if list == End {
      Alone(old(s.graph), s.graph, n, all);
      return n;
    }
    all := Gather(s, n, all, list, old(s.graph));
    PackedHere(old(s.graph), s.graph, n, all);
    m := |s.graph.cells|;
    ghost var h := s.graph;
    s.graph := NewNode(s.graph, 0, true, all, End);
    KeepsOn(old(s.graph), h, s.graph);
  }

  /** All elements before the node at list have been taken. */
  ghost predicate Taken<A(!new)>(h0: Graph<A>, h: Graph<A>, n: nat, list: Next, taken: seq<V<A>>) {
    Keeps(h0, h) && n < |h0.cells| && Reached(h, n, list, |taken|) && Carries(h, taken, h0, n, 0)
  }

  // one node's elements more
  method TakeNode<A(!new)>(s: Store<A>, n: nat, m: nat, taken: seq<V<A>>, ghost h0: Graph<A>)
    returns (all: seq<V<A>>, next: Next)
    requires Taken(h0, s.graph, n, To(m), taken)
    modifies s
    ensures Taken(h0, s.graph, n, next, all) && MarksStay(old(s.graph), s.graph)
    ensures |taken| <= |all| && (|all| == |taken| ==> Stage(s.graph, next) < Stage(old(s.graph), To(m)))
  {
    ghost var h := s.graph;
    var items;
    items, next := Visit(s, n, m, |taken|);
    KeepsOn(h0, h, s.graph);
    GatherOn(h0, h, s.graph, n, taken, items);
    all := taken + items;
  }

  lemma TakenWithin<A(!new)>(h0: Graph<A>, h: Graph<A>, n: nat, list: Next, taken: seq<V<A>>, end: nat)
    requires Taken(h0, h, n, list, taken) && At(h0, n, end, []) == Absent
    ensures |taken| <= end
  {
    assert At(h, n, end, []) == At(h0, n, end, []);
  }

  // the elements of the list from the node at on, after those already taken
  method Gather<A(!new)>(s: Store<A>, n: nat, taken: seq<V<A>>, at: Next, ghost h0: Graph<A>) returns (all: seq<V<A>>)
    requires Taken(h0, s.graph, n, at, taken) && Ends(h0, n)
    modifies s
    ensures Taken(h0, s.graph, n, End, all) && MarksStay(old(s.graph), s.graph)
  {
    ghost var end: nat :| At(h0, n, end, []) == Absent;
    var list := at;
    all := taken;
    TakenWithin(h0, s.graph, n, list, all, end);
    while list.To?
      invariant Taken(h0, s.graph, n, list, all) && |all| <= end && MarksStay(old(s.graph), s.graph)
      decreases end - |all|, Stage(s.graph, list)
    {
      all, list := TakeNode(s, n, list.id, all, h0);
      TakenWithin(h0, s.graph, n, list, all, end);
    }
  }

  lemma Alone<A(!new)>(h0: Graph<A>, h: Graph<A>, n: nat, items: seq<V<A>>)
    requires Keeps(h0, h) && n < |h0.cells| && h.cells[n].body == Filled(items, End) && Reached(h, n, End, |items|)
    ensures Packed(h0, n, h, n) && HasLength(h0, n, |items|)
  {
    forall i: nat ensures At(h0, n, i, []).Absent? <==> i >= |items| { assert At(h, n, i, []) == At(h0, n, i, []); }
  }

  lemma GatherOn<A(!new)>(h0: Graph<A>, h: Graph<A>, k: Graph<A>, n: nat, all: seq<V<A>>, items: seq<V<A>>)
    requires Keeps(h0, h) && Keeps(h, k) && n < |h0.cells|
    requires Carries(h, all, h0, n, 0) && Carries(k, items, h, n, |all|)
    ensures Carries(k, all + items, h0, n, 0)
  {
    forall j, p | 0 <= j < |all + items|
      ensures Valid(k, (all + items)[j]) && Obs(k, (all + items)[j], p) == At(h0, n, j, p) {
      if j < |all| { ObsKept(h, k, all[j], p); }
      else { assert Obs(k, items[j - |all|], p) == At(h, n, |all| + (j - |all|), p); }
    }
  }

  lemma PackedHere<A(!new)>(h0: Graph<A>, h: Graph<A>, n: nat, all: seq<V<A>>)
    requires Keeps(h0, h) && n < |h0.cells| && Reached(h, n, End, |all|)
    requires Carries(h, all, h0, n, 0)
    ensures var k := NewNode(h, 0, true, all, End); Keeps(h, k) && MarksStay(h, k) && Packed(h0, n, k, |h.cells|)
    ensures HasLength(h0, n, |all|)
  {
    var k := NewNode(h, 0, true, all, End);
    NewNodeKeeps(h, 0, true, all, End);
    assert CellOk(k, |h.cells|);
    forall i: nat, p: Path ensures At(k, |h.cells|, i, p) == At(h0, n, i, p) {
      if i < |all| {
        ObsKept(h, k, all[i], p);
        assert Obs(h, all[i], p) == At(h0, n, 0 + i, p);
      } else {
        assert At(h, n, i, p).Absent?;
      }
    }
    assert At(k, |h.cells|, |all|, []) == Absent;
    HonestIf(h, k);
    forall i: nat ensures At(h0, n, i, []).Absent? <==> i >= |all| { assert At(h, n, i, []) == At(h0, n, i, []); }
  }

  // ---------- reduction ----------

  // BinaryOp::reduce: the scan of the block, of which only the last value is kept
  method ReduceLoop<A(!new)>(s: Store<A>, op: Op<A>, z: V<A>, chunk: seq<V<A>>) returns (x: V<A>, ghost vs: seq<V<A>>)
    requires WF(s.graph) && Valid(s.graph, z) && AllValid(s.graph, chunk) && Faithful(op) && !op.linked
    modifies s
    ensures Keeps(old(s.graph), s.graph) && MarksStay(old(s.graph), s.graph)
    ensures Valid(s.graph, z) && AllValid(s.graph, chunk) && Scanned(s.graph, op, Some(z), chunk, vs) &&
      Valid(s.graph, x)
    ensures x == if vs == [] then z else vs[|vs| - 1]
  {
    x, vs := z, [];
    KeepsAll(s.graph);
    for i := 0 to |chunk|
      invariant Keeps(old(s.graph), s.graph) && MarksStay(old(s.graph), s.graph)
      invariant Valid(s.graph, z) && AllValid(s.graph, chunk) && Scanned(s.graph, op, Some(z), chunk[..i], vs) &&
        Valid(s.graph, x)
      invariant x == if vs == [] then z else vs[|vs| - 1]
    {
      ghost var before := s.graph;
      x := s.BinaryOp(op, x, chunk[i]);
      KeepsOn(old(s.graph), before, s.graph);
      ScanMore(before, s.graph, op, z, chunk[..i], vs, chunk[i], x);
      assert chunk[..i + 1] == chunk[..i] + [chunk[i]];
      vs := vs + [x];
    }
    assert chunk[..|chunk|] == chunk;
  }

  /** z is the fold of the first c elements of the input, and a stands just after them. */
  ghost predicate Folded<A(!new)>(h: Graph<A>, op: Op<A>, acc: Option<V<A>>, ins: In<A>, level: nat, c: nat, a: In<A>,
          z: V<A>) {
    WF(h) && OptValid(h, acc) && Moved(h, ins, c, a, level) && Normal(h, a) && Valid(h, z) &&
    (forall i: nat :: i < c ==> !InAt(h, ins, i, [], level).Absent?) &&
    if c == 0 then acc == Some(z) else forall p :: Obs(h, z, p) == ScanAt(h, op, acc, ins, c - 1, p, level)
  }

  lemma FoldedKept<A(!new)>(h: Graph<A>, k: Graph<A>, op: Op<A>, acc: Option<V<A>>, ins: In<A>, level: nat, c: nat,
          a: In<A>, z: V<A>)
    requires Keeps(h, k) && Folded(h, op, acc, ins, level, c, a, z)
    ensures Folded(k, op, acc, ins, level, c, a, z)
  {
    MovedKept(h, k, ins, c, a, level);
    forall i: nat | i < c ensures !InAt(k, ins, i, [], level).Absent? { InKept(h, k, ins, i, [], level); }
    if c > 0 {
      forall p ensures Obs(k, z, p) == ScanAt(k, op, acc, ins, c - 1, p, level) {
        ObsKept(h, k, z, p);
        ScanAgrees(h, k, level, op, acc, ins, c - 1, p);
      }
    }
  }

  lemma FoldedOn<A(!new)>(h: Graph<A>, op: Op<A>, acc: Option<V<A>>, ins: In<A>, level: nat, c: nat, a: In<A>, z: V<A>,
          b: In<A>, chunk: seq<V<A>>, vs: seq<V<A>>, x: V<A>)
    requires Folded(h, op, acc, ins, level, c, a, z) && Fetched(h, a, b, chunk, level) && chunk != []
    requires Scanned(h, op, Some(z), chunk, vs) && x == vs[|vs| - 1]
    ensures Folded(h, op, acc, ins, level, c + |chunk|, Advance(h, b, |chunk|), x)
  {
    Past(h, a, b, chunk, level, |chunk|);
    MovedOn(h, ins, c, a, |chunk|, Advance(h, b, |chunk|), level);
    FoldedPresent(h, op, acc, ins, level, c, a, z, chunk);
    forall p ensures Obs(h, x, p) == ScanAt(h, op, acc, ins, c + |chunk| - 1, p, level) {
      ScannedAt(h, op, Some(z), a, level, chunk, vs, |vs| - 1, p);
      FoldMoved(h, op, acc, ins, level, c, a, z, |vs| - 1, p);
    }
  }

  lemma FoldedPresent<A(!new)>(h: Graph<A>, op: Op<A>, acc: Option<V<A>>, ins: In<A>, level: nat, c: nat, a: In<A>,
          z: V<A>, chunk: seq<V<A>>)
    requires Folded(h, op, acc, ins, level, c, a, z) && Chunk(h, a, level, chunk)
    ensures forall i: nat :: i < c + |chunk| ==> !InAt(h, ins, i, [], level).Absent?
  {
    forall i: nat | i < c + |chunk| ensures !InAt(h, ins, i, [], level).Absent? {
      if i >= c {
        assert Obs(h, chunk[i - c], []) == InAt(h, a, i - c, [], level) && Shifted(h, ins, c, a, level, i - c, []);
      }
    }
  }

  lemma {:induction false} FoldMoved<A(!new)>(h: Graph<A>, op: Op<A>, acc: Option<V<A>>, ins: In<A>, level: nat, c: nat,
          a: In<A>, z: V<A>, i: nat, p: Path)
    requires Folded(h, op, acc, ins, level, c, a, z)
    ensures ScanAt(h, op, Some(z), a, i, p, level) == ScanAt(h, op, acc, ins, c + i, p, level)
    decreases i
  {
    assert Shifted(h, ins, c, a, level, i, p);
    if i > 0 { FoldMoved(h, op, acc, ins, level, c, a, z, i - 1, p); }
  }

  /** What a reduction returns: the last element of the scan, or a given value if the list is empty. */
  ghost predicate Reduced<A(!new)>(h: Graph<A>, k: Graph<A>, op: Op<A>, acc: Option<V<A>>, n: nat, len: nat,
          empty: V<A>, r: V<A>) {
    WF(h) && WF(k) && n < |h.cells| && OptValid(h, acc) && Valid(k, r) && HasLength(h, n, len) &&
    if len == 0 then r == empty
    else forall p :: Obs(k, r, p) == ScanAt(h, op, acc, Cursor(n, 0), len - 1, p, h.cells[n].level + 1)
  }

  lemma FoldEnds<A(!new)>(h0: Graph<A>, h: Graph<A>, op: Op<A>, acc: Option<V<A>>, n: nat, c: nat, a: In<A>, z: V<A>,
          b: In<A>)
    requires Keeps(h0, h) && n < |h0.cells| && OptValid(h0, acc)
    requires Folded(h, op, acc, Cursor(n, 0), h0.cells[n].level + 1, c, a, z)
    requires Moved(h, a, 0, b, h0.cells[n].level + 1) && Ended(h, b, h0.cells[n].level + 1)
    ensures Reduced(h0, h, op, acc, n, c, z, z)
  {
    var level := h0.cells[n].level + 1;
    forall i: nat ensures At(h0, n, i, []).Absent? <==> i >= c {
      assert At(h, n, i, []) == At(h0, n, i, []) && InAt(h, Cursor(n, 0), i, [], level) == At(h, n, i, []);
      if i >= c {
        assert Shifted(h, a, 0, b, level, i - c, []) && Shifted(h, Cursor(n, 0), c, a, level, i - c, []);
      }
    }
    if c > 0 {
      forall p ensures Obs(h, z, p) == ScanAt(h0, op, acc, Cursor(n, 0), c - 1, p, level) {
        ScanAgrees(h0, h, level, op, acc, Cursor(n, 0), c - 1, p);
      }
    }
  }

  lemma FoldBounded<A(!new)>(h0: Graph<A>, h: Graph<A>, op: Op<A>, acc: Option<V<A>>, n: nat, c: nat, a: In<A>, z: V<A>,
          end: nat)
    requires Keeps(h0, h) && n < |h0.cells| && Folded(h, op, acc, Cursor(n, 0), h0.cells[n].level + 1, c, a, z) &&
      At(h0, n, end, []) == Absent
    ensures c <= end
  {
    assert InAt(h, Cursor(n, 0), end, [], h0.cells[n].level + 1) == At(h0, n, end, []);
  }

  // read one block of one element and fold it in
  method FoldRound<A(!new)>(s: Store<A>, op: Op<A>, acc: Option<V<A>>, ins: In<A>, level: nat, ghost c: nat, a: In<A>,
          z: V<A>)
    returns (b: In<A>, x: V<A>, more: bool)
    requires Folded(s.graph, op, acc, ins, level, c, a, z) && Faithful(op) && !op.linked
    modifies s
    ensures Keeps(old(s.graph), s.graph) && MarksStay(old(s.graph), s.graph)
    ensures more ==> Folded(s.graph, op, acc, ins, level, c + 1, b, x)
    ensures !more ==> Folded(s.graph, op, acc, ins, level, c, a, z) && x == z
    ensures !more ==> Moved(s.graph, a, 0, b, level) && Ended(s.graph, b, level)
  {
    ghost var h := s.graph;
    var chunk;
    b, chunk := s.Read(a, 1, level);
    FoldedKept(h, s.graph, op, acc, ins, level, c, a, z);
    x, more := z, chunk != [];
    if more {
      h := s.graph;
      ghost var vs;
      x, vs := ReduceLoop(s, op, z, chunk);
      KeepsOn(old(s.graph), h, s.graph);
      FoldedKept(h, s.graph, op, acc, ins, level, c, a, z);
      FetchedKept(h, s.graph, a, b, chunk, level);
      FoldedOn(s.graph, op, acc, ins, level, c, a, z, b, chunk, vs, x);
      b := Advance(s.graph, b, 1);
    }
  }

  // the reading loop of DoReduce and DoIReduce
  method FoldOn<A(!new)>(s: Store<A>, op: Op<A>, acc: Option<V<A>>, n: nat, start: nat, from: In<A>, z0: V<A>,
          ghost h0: Graph<A>)
    returns (z: V<A>, ghost len: nat)
    requires Keeps(h0, s.graph) && n < |h0.cells| && OptValid(h0, acc) && Ends(h0, n) && Faithful(op) && !op.linked
    requires Folded(s.graph, op, acc, Cursor(n, 0), h0.cells[n].level + 1, start, from, z0)
    modifies s
    ensures Keeps(h0, s.graph) && MarksStay(old(s.graph), s.graph)
    ensures len >= start && Reduced(h0, s.graph, op, acc, n, len, z0, z)
  {
    ghost var end: nat :| At(h0, n, end, []) == Absent;
    var level, a, more := s.graph.cells[n].level + 1, from, true;
    z, len := z0, start;
    KeepsAll(s.graph);
    FoldBounded(h0, s.graph, op, acc, n, len, a, z, end);
    while more
      invariant Keeps(h0, s.graph) && MarksStay(old(s.graph), s.graph) && level == h0.cells[n].level + 1
      invariant start <= len <= end && (len == 0 ==> z == z0)
      invariant if more then Folded(s.graph, op, acc, Cursor(n, 0), level, len, a, z)
        else Reduced(h0, s.graph, op, acc, n, len, z, z)
      decreases end - len, more
    {
      ghost var h, was := s.graph, z;
      var b;
      b, z, more := FoldRound(s, op, acc, Cursor(n, 0), level, len, a, z);
      KeepsOn(h0, h, s.graph);
      if more {
        len, a := len + 1, b;
        FoldBounded(h0, s.graph, op, acc, n, len, a, z, end);
      } else {
        FoldEnds(h0, s.graph, op, acc, n, len, a, was, b);
      }
    }
  }

  // DoReduce on a list
  method Reduce<A(!new)>(s: Store<A>, op: Op<A>, n: nat, empty: A) returns (r: Option<V<A>>, ghost len: nat)
    requires WF(s.graph) && n < |s.graph.cells| && FlagTrue(s.graph, n) && Faithful(op) && !op.linked
    modifies s
    ensures Keeps(old(s.graph), s.graph) && MarksStay(old(s.graph), s.graph)
    ensures r.Some? == old(s.graph).cells[n].finite && (Exact(old(s.graph)) ==> (r.Some? <==> Ends(old(s.graph), n)))
    ensures r.Some? ==> Reduced(old(s.graph), s.graph, op, None, n, len, Atom(empty), r.value)
  {
    KeepsAll(s.graph);
    r, len := None, 0;
    if s.graph.cells[n].finite {
      var level := s.graph.cells[n].level + 1;
      ghost var h := s.graph;
      var a, first := s.Read(Cursor(n, 0), 1, level);
      if first == [] {
        NoElements(h, s.graph, n, a);
        r := Some(Atom(empty));
      } else {
        FirstFolded(s.graph, op, Cursor(n, 0), level, a, first);
        var z;
        z, len := FoldOn(s, op, None, n, 1, Advance(s.graph, a, 1), first[0], old(s.graph));
        r := Some(z);
      }
    }
  }

  lemma NoElements<A(!new)>(h: Graph<A>, k: Graph<A>, n: nat, a: In<A>)
    requires Keeps(h, k) && n < |h.cells| && Moved(k, Cursor(n, 0), 0, a, h.cells[n].level + 1) &&
      Ended(k, a, h.cells[n].level + 1)
    ensures HasLength(h, n, 0)
  {
    var level := h.cells[n].level + 1;
    forall i: nat ensures At(h, n, i, []).Absent? {
      assert Shifted(k, Cursor(n, 0), 0, a, level, i, []);
      assert At(k, n, i, []) == At(h, n, i, []);
    }
  }

  lemma FirstFolded<A(!new)>(h: Graph<A>, op: Op<A>, ins: In<A>, level: nat, a: In<A>, first: seq<V<A>>)
    requires Fetched(h, ins, a, first, level) && |first| == 1
    ensures Folded(h, op, None, ins, level, 1, Advance(h, a, 1), first[0])
  {
    Past(h, ins, a, first, level, 1);
    forall p ensures Obs(h, first[0], p) == ScanAt(h, op, None, ins, 0, p, level) {
      assert Obs(h, first[0], p) == InAt(h, ins, 0, p, level);
    }
  }

  // DoIReduce on a list
  method IReduce<A(!new)>(s: Store<A>, op: Op<A>, n: nat, z: V<A>) returns (r: Option<V<A>>, ghost len: nat)
    requires WF(s.graph) && n < |s.graph.cells| && Valid(s.graph, z) && FlagTrue(s.graph, n) && Faithful(op) &&
      !op.linked
    modifies s
    ensures Keeps(old(s.graph), s.graph) && MarksStay(old(s.graph), s.graph)
    ensures r.Some? == old(s.graph).cells[n].finite && (Exact(old(s.graph)) ==> (r.Some? <==> Ends(old(s.graph), n)))
    ensures r.Some? ==> Reduced(old(s.graph), s.graph, op, Some(z), n, len, z, r.value)
  {
    KeepsAll(s.graph);
    r, len := None, 0;
    if s.graph.cells[n].finite {
      var y;
      y, len := FoldOn(s, op, Some(z), n, 0, Cursor(n, 0), z, old(s.graph));
      r := Some(y);
    }
  }
}
