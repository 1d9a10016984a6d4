/**
  Versions of workspace tables.  `putPure` shares the subtrees off the search path between the
  old and the new version, and `putImpure` on either version later hangs new nodes into shared
  subtrees.  All versions stay search trees all the same, no binding is ever lost or changed, and
  the only thing that can leak from one version into another is the binding being added.
 */
module Versions {
  import opened Basics
  import opened Workspace

  /** Where a node sits, in every version that shares it: the open key interval of its place, and its depth. */
  datatype Place = Place(lo: Option<int>, hi: Option<int>, depth: nat)

  ghost predicate Inside(k: int, lo: Option<int>, hi: Option<int>) {
    (lo.Some? ==> lo.value < k) && (hi.Some? ==> k < hi.value)
  }

  /** Pointer `p` is null or leads to a node whose place is `at`. */
  ghost predicate Leads<V>(nodes: seq<Node<V>>, sh: seq<Place>, p: Ptr, at: Place)
    requires |sh| == |nodes|
  {
    p.At? ==> p.id < |nodes| && sh[p.id] == at
  }

  ghost predicate NodeOk<V>(nodes: seq<Node<V>>, sh: seq<Place>, i: nat)
    requires |sh| == |nodes| && i < |nodes|
  {
    var n, s := nodes[i], sh[i];
    && Inside(n.key, s.lo, s.hi) && s.depth < |nodes|
    && Leads(nodes, sh, n.left, Place(s.lo, Some(n.key), s.depth + 1))
    && Leads(nodes, sh, n.right, Place(Some(n.key), s.hi, s.depth + 1))
  }

  const RootPlace := Place(None, None, 0)

  ghost predicate NodesOk<V>(nodes: seq<Node<V>>, sh: seq<Place>) {
    |sh| == |nodes| && forall i :: 0 <= i < |nodes| ==> NodeOk(nodes, sh, i)
  }

  ghost predicate Placed<V>(h: Heap<V>, sh: seq<Place>) {
    NodesOk(h.nodes, sh) && forall t :: 0 <= t < |h.roots| ==> Leads(h.nodes, sh, h.roots[t], RootPlace)
  }

  /** Every version is a search tree: left of a node only smaller keys, right of it only greater ones. */
  ghost predicate SearchTrees<V(!new)>(h: Heap<V>) {
    exists sh :: Placed(h, sh)
  }

  // ---------- what the places imply ----------

  function Follow<V>(nodes: seq<Node<V>>, p: Ptr, path: seq<bool>): Ptr
    decreases |path|
  {
    if path == [] || p.Null? || p.id >= |nodes| then p
    else Follow(nodes, if path[0] then nodes[p.id].right else nodes[p.id].left, path[1..])
  }

  /** In a search tree the lookup finds every node that any path reaches. */
  lemma {:induction false} ReachedIsFound<V>(nodes: seq<Node<V>>, sh: seq<Place>, p: Ptr, path: seq<bool>, fuel: nat)
    requires NodesOk(nodes, sh) && p.At? && p.id < |nodes|
    requires Follow(nodes, p, path).At? && Follow(nodes, p, path).id < |nodes|
    requires fuel >= |nodes| - sh[p.id].depth
    ensures var n := nodes[Follow(nodes, p, path).id];
      Inside(n.key, sh[p.id].lo, sh[p.id].hi) && Find(nodes, p, n.key, fuel) == Some(n.value)
    decreases |path|
  {
    assert NodeOk(nodes, sh, p.id);
    if path != [] {
      var q := if path[0] then nodes[p.id].right else nodes[p.id].left;
      ReachedIsFound(nodes, sh, q, path[1..], fuel - 1);
    }
  }

  /** Enough fuel is enough. */
  lemma {:induction false} FindStable<V>(nodes: seq<Node<V>>, sh: seq<Place>, p: Ptr, key: int, f1: nat, f2: nat)
    requires NodesOk(nodes, sh) &&
      (p.At? ==> p.id < |nodes| && f1 >= |nodes| - sh[p.id].depth && f2 >= |nodes| - sh[p.id].depth)
    ensures Find(nodes, p, key, f1) == Find(nodes, p, key, f2)
    decreases f1
  {
    if p.At? {
      assert NodeOk(nodes, sh, p.id);
      var n := nodes[p.id];
      if key < n.key { FindStable(nodes, sh, n.left, key, f1 - 1, f2 - 1); }
      else if key > n.key { FindStable(nodes, sh, n.right, key, f1 - 1, f2 - 1); }
    }
  }

  // ---------- putImpure ----------

  ghost function SlotPlace<V>(h: Heap<V>, sh: seq<Place>, s: Slot): Place
    requires ValidSlot(h, s) && |sh| == |h.nodes|
  {
    match s
    case RootOf(_) => RootPlace
    case LeftOf(n) => Place(sh[n].lo, Some(h.nodes[n].key), sh[n].depth + 1)
    case RightOf(n) => Place(Some(h.nodes[n].key), sh[n].hi, sh[n].depth + 1)
  }

  /** The walk stops at the key's node, or at the one empty slot of its interval. */
  lemma {:induction false} WalkFinds<V>(h: Heap<V>, sh: seq<Place>, s: Slot, key: int, fuel: nat)
    requires Placed(h, sh) && ValidSlot(h, s)
    requires fuel >= |h.nodes| - SlotPlace(h, sh, s).depth
    requires Inside(key, SlotPlace(h, sh, s).lo, SlotPlace(h, sh, s).hi)
    ensures var r := Walk(h, s, key, fuel);
      match r
      case Bound => Find(h.nodes, Load(h, s), key, fuel).Some?
      case Empty(e) =>
        && Find(h.nodes, Load(h, s), key, fuel).None?
        && Load(h, e).Null? && Inside(key, SlotPlace(h, sh, e).lo, SlotPlace(h, sh, e).hi)
    decreases fuel
  {
    var p := Load(h, s);
    if s.LeftOf? || s.RightOf? { assert NodeOk(h.nodes, sh, if s.LeftOf? then s.node else s.node); }
    if p.At? {
      assert NodeOk(h.nodes, sh, p.id);
      var n := h.nodes[p.id];
      if key < n.key { WalkFinds(h, sh, LeftOf(p.id), key, fuel - 1); }
      else if key > n.key { WalkFinds(h, sh, RightOf(p.id), key, fuel - 1); }
    }
  }

  lemma HangPlaced<V>(h: Heap<V>, sh: seq<Place>, s: Slot, key: int, value: V)
    requires Placed(h, sh) && ValidSlot(h, s) && Inside(key, SlotPlace(h, sh, s).lo, SlotPlace(h, sh, s).hi)
    ensures Placed(Hang(h, s, key, value), sh + [SlotPlace(h, sh, s)])
  {
    var h', sh' := Hang(h, s, key, value), sh + [SlotPlace(h, sh, s)];
    if s.LeftOf? || s.RightOf? { assert NodeOk(h.nodes, sh, if s.LeftOf? then s.node else s.node); }
    forall i | 0 <= i < |h'.nodes| ensures NodeOk(h'.nodes, sh', i) {
      if i < |h.nodes| { assert NodeOk(h.nodes, sh, i); }
    }
    forall t | 0 <= t < |h'.roots| ensures Leads(h'.nodes, sh', h'.roots[t], RootPlace) {
      assert Leads(h.nodes, sh, h.roots[t], RootPlace);
    }
  }

  /** Seen from an old pointer: nothing found is lost or changed, and nothing but the new binding appears. */
  lemma {:induction false} FindAfterHang<V>(h: Heap<V>, sh: seq<Place>, s: Slot, key: int, value: V, p: Ptr, k: int,
          fuel: nat)
    requires Placed(h, sh) && ValidSlot(h, s) && Load(h, s).Null?
    requires p.At? ==> p.id < |h.nodes| && fuel >= |h.nodes| - sh[p.id].depth
    ensures var before := Find(h.nodes, p, k, fuel);
      var after := Find(Hang(h, s, key, value).nodes, p, k, fuel + 1);
      && (before.Some? ==> after == before)
      && (before.None? && after.Some? ==> k == key && after == Some(value))
    decreases fuel
  {
    if p.At? {
      assert NodeOk(h.nodes, sh, p.id);
      var h' := Hang(h, s, key, value);
      var n := h.nodes[p.id];
      if k < n.key {
        if s == LeftOf(p.id) { LeafFind(h'.nodes, |h.nodes|, k, fuel); }
        else { FindAfterHang(h, sh, s, key, value, n.left, k, fuel - 1); }
      } else if k > n.key {
        if s == RightOf(p.id) { LeafFind(h'.nodes, |h.nodes|, k, fuel); }
        else { FindAfterHang(h, sh, s, key, value, n.right, k, fuel - 1); }
      }
    }
  }

  lemma LeafFind<V>(nodes: seq<Node<V>>, i: nat, k: int, fuel: nat)
    requires i < |nodes| && nodes[i].left.Null? && nodes[i].right.Null? && fuel > 0
    ensures Find(nodes, At(i), k, fuel) == if k == nodes[i].key then Some(nodes[i].value) else None
  {
    if fuel > 1 { assert Find(nodes, Null, k, fuel - 1).None?; }
  }

  /** Seen from the start of the walk: the new binding is found. */
  lemma {:induction false} WalkThenFind<V>(h: Heap<V>, sh: seq<Place>, s0: Slot, key: int, value: V, fuel: nat)
    requires Placed(h, sh) && ValidSlot(h, s0) && fuel >= |h.nodes| - SlotPlace(h, sh, s0).depth
    requires Walk(h, s0, key, fuel).Empty?
    ensures var h' := Hang(h, Walk(h, s0, key, fuel).slot, key, value);
      ValidSlot(h', s0) && Find(h'.nodes, Load(h', s0), key, fuel + 1) == Some(value)
    decreases fuel
  {
    var s := Walk(h, s0, key, fuel).slot;
    var h' := Hang(h, s, key, value);
    var p := Load(h, s0);
    if s0.LeftOf? || s0.RightOf? { assert NodeOk(h.nodes, sh, s0.node); }
    if p.Null? {
      LeafFind(h'.nodes, |h.nodes|, key, fuel + 1);
    } else {
      assert NodeOk(h.nodes, sh, p.id);
      assert h'.nodes[p.id].key == h.nodes[p.id].key;
      var next := if key < h.nodes[p.id].key then LeftOf(p.id) else RightOf(p.id);
      WalkThenFind(h, sh, next, key, value, fuel - 1);
      if Load(h', s0) != p {
        SlotRevisited(h, sh, s0, key, fuel);
      }
    }
  }

  /** A walk that starts at a filled slot does not come back to it. */
  lemma {:induction false} SlotRevisited<V>(h: Heap<V>, sh: seq<Place>, s0: Slot, key: int, fuel: nat)
    requires Placed(h, sh) && ValidSlot(h, s0) && fuel >= |h.nodes| - SlotPlace(h, sh, s0).depth
    requires Walk(h, s0, key, fuel).Empty?
    ensures Load(h, Walk(h, s0, key, fuel).slot).Null?
    decreases fuel
  {
    var p := Load(h, s0);
    if s0.LeftOf? || s0.RightOf? { assert NodeOk(h.nodes, sh, s0.node); }
    if p.At? {
      assert NodeOk(h.nodes, sh, p.id);
      SlotRevisited(h, sh, if key < h.nodes[p.id].key then LeftOf(p.id) else RightOf(p.id), key, fuel - 1);
    }
  }

  // ---------- putPure ----------

  /** More nodes at the end do not change what is found from old pointers. */
  lemma {:induction false} FindInLonger<V>(nodes: seq<Node<V>>, nodes': seq<Node<V>>, sh: seq<Place>, p: Ptr, k: int,
          fuel: nat)
    requires NodesOk(nodes, sh) && |nodes| <= |nodes'| && nodes'[..|nodes|] == nodes && (p.At? ==> p.id < |nodes|)
    ensures Find(nodes', p, k, fuel) == Find(nodes, p, k, fuel)
    decreases fuel
  {
    if p.At? && fuel > 0 {
      assert nodes'[p.id] == nodes[p.id];
      assert NodeOk(nodes, sh, p.id);
      var n := nodes[p.id];
      if k < n.key { FindInLonger(nodes, nodes', sh, n.left, k, fuel - 1); }
      else if k > n.key { FindInLonger(nodes, nodes', sh, n.right, k, fuel - 1); }
    }
  }

  lemma NodesOkLonger<V>(nodes: seq<Node<V>>, sh: seq<Place>, n: Node<V>, at: Place)
    requires NodesOk(nodes, sh) && Inside(n.key, at.lo, at.hi) && at.depth <= |nodes|
    requires Leads(nodes, sh, n.left, Place(at.lo, Some(n.key), at.depth + 1))
    requires Leads(nodes, sh, n.right, Place(Some(n.key), at.hi, at.depth + 1))
    ensures NodesOk(nodes + [n], sh + [at])
  {
    forall i | 0 <= i < |nodes| + 1 ensures NodeOk(nodes + [n], sh + [at], i) {
      if i < |nodes| { assert NodeOk(nodes, sh, i); }
    }
  }

  /** The copied path: places of the new nodes, what the copy finds, and that old nodes stay as they are. */
  lemma {:induction false} PutPureOk<V>(nodes: seq<Node<V>>, sh: seq<Place>, p: Ptr, at: Place, key: int, value: V,
          fuel: nat)
      returns (sh': seq<Place>)
    requires NodesOk(nodes, sh) && Leads(nodes, sh, p, at) && Inside(key, at.lo, at.hi)
    requires at.depth <= |nodes| && fuel >= |nodes| - at.depth
    ensures var (nodes', q) := NodePutPure(nodes, p, key, value, fuel);
      && NodesOk(nodes', sh') && |sh| <= |sh'| && sh'[..|sh|] == sh
      && q.At? && q.id == |nodes'| - 1 && sh'[q.id] == at && |nodes'| > |nodes|
      && forall k, f :: f >= |nodes'| - at.depth ==>
           Find(nodes', q, k, f) == if k == key then Some(value) else Find(nodes, p, k, f)
    decreases fuel
  {
    var (nodes', q) := NodePutPure(nodes, p, key, value, fuel);
    if p.Null? {
      sh' := sh + [at];
      NodesOkLonger(nodes, sh, Node(key, value, Null, Null), at);
      forall k, f | f >= |nodes'| - at.depth
        ensures Find(nodes', q, k, f) == if k == key then Some(value) else Find(nodes, p, k, f)
      { LeafFind(nodes', |nodes|, k, f); }
    } else {
      assert NodeOk(nodes, sh, p.id);
      var n := nodes[p.id];
      if n.key == key {
        sh' := sh + [at];
        NodesOkLonger(nodes, sh, n.(value := value), at);
        forall k, f | f >= |nodes'| - at.depth
          ensures Find(nodes', q, k, f) == if k == key then Some(value) else Find(nodes, p, k, f)
        { CopyFinds(nodes, nodes', sh, p, n.(value := value), k, f); }
      } else {
        var left := key < n.key;
        var below := if left then Place(at.lo, Some(n.key), at.depth + 1) else Place(Some(n.key), at.hi, at.depth + 1);
        var child := if left then n.left else n.right;
        var sh1 := PutPureOk(nodes, sh, child, below, key, value, fuel - 1);
        var (nodes1, q1) := NodePutPure(nodes, child, key, value, fuel - 1);
        var copy := if left then n.(left := q1) else n.(right := q1);
        assert nodes' == nodes1 + [copy];
        sh' := sh1 + [at];
        NodesOkLonger(nodes1, sh1, copy, at);
        forall k, f | f >= |nodes'| - at.depth
          ensures Find(nodes', q, k, f) == if k == key then Some(value) else Find(nodes, p, k, f)
        { DescentFinds(nodes, sh, nodes1, sh1, p, key, value, q1, k, f); }
      }
    }
  }

  /** A copied node above a copied subtree. */
  lemma DescentFinds<V>(nodes: seq<Node<V>>, sh: seq<Place>, nodes1: seq<Node<V>>, sh1: seq<Place>, p: Ptr, key: int,
          value: V, q1: Ptr, k: int, f: nat)
    requires NodesOk(nodes, sh) && NodesOk(nodes1, sh1) && |nodes| <= |nodes1| && nodes1[..|nodes|] == nodes
    requires p.At? && p.id < |nodes| && nodes[p.id].key != key && q1.At? && q1.id < |nodes1| && f > 0
    requires var n := nodes[p.id]; var child := if key < n.key then n.left else n.right;
      Find(nodes1, q1, k, f - 1) == if k == key then Some(value) else Find(nodes, child, k, f - 1)
    ensures var n := nodes[p.id]; var copy := if key < n.key then n.(left := q1) else n.(right := q1);
      Find(nodes1 + [copy], At(|nodes1|), k, f) == if k == key then Some(value) else Find(nodes, p, k, f)
  {
    var n := nodes[p.id];
    var copy := if key < n.key then n.(left := q1) else n.(right := q1);
    assert NodeOk(nodes, sh, p.id);
    FindInLonger(nodes1, nodes1 + [copy], sh1, q1, k, f - 1);
    FindInLonger(nodes, nodes1 + [copy], sh, if key < n.key then n.right else n.left, k, f - 1);
  }

  lemma CopyFinds<V>(nodes: seq<Node<V>>, nodes': seq<Node<V>>, sh: seq<Place>, p: Ptr, copy: Node<V>, k: int, f: nat)
    requires NodesOk(nodes, sh) && p.At? && p.id < |nodes| && f > 0
    requires nodes' == nodes + [copy] && copy == nodes[p.id].(value := copy.value)
    ensures Find(nodes', At(|nodes|), k, f) == if k == copy.key then Some(copy.value) else Find(nodes, p, k, f)
  {
    assert NodeOk(nodes, sh, p.id);
    FindInLonger(nodes, nodes', sh, copy.left, k, f - 1);
    FindInLonger(nodes, nodes', sh, copy.right, k, f - 1);
  }

  // ---------- operations on any version ----------

  datatype TableOp<+V> = PutImpure(table: nat, key: int, value: V) | PutPure(table: nat, key: int, value: V)

  function Do<V>(h: Heap<V>, op: TableOp<V>): Heap<V> {
    if op.table >= |h.roots| then h
    else if op.PutImpure? then TablePutImpure(h, op.table, op.key, op.value).0
    else TablePutPure(h, op.table, op.key, op.value)
  }

  /** From `h` to `h'` every version keeps all its bindings, and gains at most this one. */
  ghost predicate KeepsBut<V(!new)>(h: Heap<V>, h': Heap<V>, key: int, value: V) {
    && |h.roots| <= |h'.roots|
    && forall t, k :: 0 <= t < |h.roots| ==>
         && (Get(h, t, k).Some? ==> Get(h', t, k) == Get(h, t, k))
         && (Get(h, t, k).None? && Get(h', t, k).Some? ==> k == key && Get(h', t, k) == Some(value))
  }

  /** `putImpure` on one table: the answer, the new binding, and the effect on all versions. */
  lemma ImpureEffect<V(!new)>(h: Heap<V>, sh: seq<Place>, t: nat, key: int, value: V) returns (sh': seq<Place>)
    requires Placed(h, sh) && t < |h.roots|
    ensures var (h', added) := TablePutImpure(h, t, key, value);
      && Placed(h', sh') && KeepsBut(h, h', key, value) && |h'.roots| == |h.roots|
      && added == Get(h, t, key).None?
      && (added ==> Get(h', t, key) == Some(value)) && (!added ==> h' == h)
  {
    var (h', added) := TablePutImpure(h, t, key, value);
    WalkFinds(h, sh, RootOf(t), key, |h.nodes|);
    sh' := sh;
    if added {
      var s := Walk(h, RootOf(t), key, |h.nodes|).slot;
      HangPlaced(h, sh, s, key, value);
      sh' := sh + [SlotPlace(h, sh, s)];
      WalkThenFind(h, sh, RootOf(t), key, value, |h.nodes|);
      forall u: nat, k | u < |h.roots|
        ensures Get(h, u, k).Some? ==> Get(h', u, k) == Get(h, u, k)
        ensures Get(h, u, k).None? && Get(h', u, k).Some? ==> k == key && Get(h', u, k) == Some(value)
      {
        if s == RootOf(u) {
          LeafFind(h'.nodes, |h.nodes|, k, |h.nodes| + 1);
        } else {
          FindAfterHang(h, sh, s, key, value, h.roots[u], k, |h.nodes|);
        }
      }
    }
  }

  /** `putPure`: a new version that differs from its origin in one binding; all other versions are as before. */
  lemma PureEffect<V(!new)>(h: Heap<V>, sh: seq<Place>, t: nat, key: int, value: V) returns (sh': seq<Place>)
    requires Placed(h, sh) && t < |h.roots|
    ensures var h' := TablePutPure(h, t, key, value);
      && Placed(h', sh') && |h'.roots| == |h.roots| + 1
      && (forall u, k :: 0 <= u < |h.roots| ==> Get(h', u, k) == Get(h, u, k))
      && (forall k :: Get(h', |h.roots|, k) == if k == key then Some(value) else Get(h, t, k))
  {
    var h' := TablePutPure(h, t, key, value);
    var p := h.roots[t];
    assert p.At? ==> NodeOk(h.nodes, sh, p.id);
    sh' := PutPureOk(h.nodes, sh, p, RootPlace, key, value, |h.nodes|);
    forall u | 0 <= u < |h'.roots| ensures Leads(h'.nodes, sh', h'.roots[u], RootPlace) {
      if u < |h.roots| { assert Leads(h.nodes, sh, h.roots[u], RootPlace); }
    }
    forall u: nat, k | u < |h.roots| ensures Get(h', u, k) == Get(h, u, k) {
      FindInLonger(h.nodes, h'.nodes, sh, h.roots[u], k, |h'.nodes|);
      FindStable(h.nodes, sh, h.roots[u], k, |h'.nodes|, |h.nodes|);
    }
    forall k ensures Get(h', |h.roots|, k) == if k == key then Some(value) else Get(h, t, k) {
      FindStable(h.nodes, sh, p, k, |h'.nodes|, |h.nodes|);
    }
  }

  lemma DoEffect<V(!new)>(h: Heap<V>, sh: seq<Place>, op: TableOp<V>) returns (sh': seq<Place>)
    requires Placed(h, sh)
    ensures Placed(Do(h, op), sh') && KeepsBut(h, Do(h, op), op.key, op.value)
  {
    sh' := sh;
    if op.table < |h.roots| {
      if op.PutImpure? { sh' := ImpureEffect(h, sh, op.table, op.key, op.value); }
      else { sh' := PureEffect(h, sh, op.table, op.key, op.value); }
    }
  }

  // ---------- whole runs ----------

  function RunAll<V>(h: Heap<V>, ops: seq<TableOp<V>>): Heap<V>
    decreases ops
  {
    if ops == [] then h else RunAll(Do(h, ops[0]), ops[1..])
  }

  /** Over any run on any versions: all versions stay search trees, and every binding of every version stays. */
  lemma {:induction false} RunsKeepVersions<V(!new)>(h: Heap<V>, ops: seq<TableOp<V>>)
    requires SearchTrees(h)
    ensures SearchTrees(RunAll(h, ops)) && |h.roots| <= |RunAll(h, ops).roots|
    ensures forall t, k :: 0 <= t < |h.roots| && Get(h, t, k).Some? ==> Get(RunAll(h, ops), t, k) == Get(h, t, k)
    decreases ops
  {
    if ops != [] {
      var sh :| Placed(h, sh);
      var sh' := DoEffect(h, sh, ops[0]);
      RunsKeepVersions(Do(h, ops[0]), ops[1..]);
    }
  }

  /** `GForm::putImpure`: the returned form maps the key to the value, and agrees with the old form elsewhere. */
  lemma FormPutEffect<V(!new)>(h: Heap<V>, form: Form, key: int, value: V)
    requires SearchTrees(h) && form != [] && forall i :: 0 <= i < |form| ==> form[i] < |h.roots|
    ensures var (h', form') := FormPutImpure(h, form, key, value);
      && SearchTrees(h') && KeepsBut(h, h', key, value)
      && FormGet(h', form', key) == Some(value)
      && (forall k :: k != key ==> FormGet(h', form', k) == FormGet(h, form, k))
      && form'[1..] == form[1..]
      && (Get(h, form[0], key).None? ==> form' == form)
      && (Get(h, form[0], key).Some? ==> Get(h', form[0], key) == Get(h, form[0], key))
  {
    var sh :| Placed(h, sh);
    var (h', form') := FormPutImpure(h, form, key, value);
    var sh1 := ImpureEffect(h, sh, form[0], key, value);
    if Get(h, form[0], key).Some? {
      var sh2 := PureEffect(h, sh, form[0], key, value);
    }
    forall k | k != key ensures FormGet(h', form', k) == FormGet(h, form, k) {
      FormGetKept(h, h', form[1..], key, value, k);
    }
  }

  lemma {:induction false} FormGetKept<V(!new)>(h: Heap<V>, h': Heap<V>, form: Form, key: int, value: V, k: int)
    requires KeepsBut(h, h', key, value) && k != key && forall i :: 0 <= i < |form| ==> form[i] < |h.roots|
    ensures FormGet(h', form, k) == FormGet(h, form, k)
  {
    if form != [] {
      assert Get(h', form[0], k) == Get(h, form[0], k);
      FormGetKept(h, h', form[1..], key, value, k);
    }
  }

  /** Seen from any slot: a key hung into an empty slot is found exactly if its walk leads to that slot. */
  lemma {:induction false} WalkSees<V>(h: Heap<V>, sh: seq<Place>, s: Slot, key: int, value: V, s0: Slot, fuel: nat)
    requires Placed(h, sh) && ValidSlot(h, s) && ValidSlot(h, s0) && Load(h, s).Null?
    requires fuel >= |h.nodes| - SlotPlace(h, sh, s0).depth && Walk(h, s0, key, fuel).Empty?
    ensures var h' := Hang(h, s, key, value);
      ValidSlot(h', s0) && (Find(h'.nodes, Load(h', s0), key, fuel + 1).Some? <==> Walk(h, s0, key, fuel) == Empty(s))
    decreases fuel
  {
    var h', p := Hang(h, s, key, value), Load(h, s0);
    if s0.LeftOf? || s0.RightOf? { assert NodeOk(h.nodes, sh, s0.node); }
    if p.Null? {
      if s0 == s { LeafFind(h'.nodes, |h.nodes|, key, fuel + 1); }
    } else {
      assert NodeOk(h.nodes, sh, p.id) && h'.nodes[p.id].key == h.nodes[p.id].key && Load(h', s0) == p;
      WalkSees(h, sh, s, key, value, if key < h.nodes[p.id].key then LeftOf(p.id) else RightOf(p.id), fuel - 1);
    }
  }

  /**
    When a binding becomes visible in another version: the put on table t binds a key that is free in
    table u as well, and then u finds it exactly if, before, the walks from both roots ended in the
    same empty slot.
   */
  lemma LeaksIff<V(!new)>(h: Heap<V>, t: nat, u: nat, key: int, value: V)
    requires SearchTrees(h) && t < |h.roots| && u < |h.roots| && Get(h, t, key).None? && Get(h, u, key).None?
    ensures var h' := TablePutImpure(h, t, key, value).0;
      |h'.roots| == |h.roots| &&
      (Get(h', u, key).Some? <==> Walk(h, RootOf(u), key, |h.nodes|) == Walk(h, RootOf(t), key, |h.nodes|))
  {
    var sh :| Placed(h, sh);
    WalkFinds(h, sh, RootOf(t), key, |h.nodes|);
    WalkFinds(h, sh, RootOf(u), key, |h.nodes|);
    WalkSees(h, sh, Walk(h, RootOf(t), key, |h.nodes|).slot, key, value, RootOf(u), |h.nodes|);
  }

  /** It does happen: after a pure put, a binding made in the new version is found in the old one. */
  lemma BindingsLeak()
    ensures var h0: Heap<int> := Heap([Node(5, 50, At(1), Null), Node(3, 30, Null, Null)], [At(0)]);
      var h1 := Do(h0, PutPure(0, 5, 51));
      var h2 := Do(h1, PutImpure(1, 2, 20));
      SearchTrees(h0) && Get(h1, 0, 2).None? && Get(h2, 0, 2) == Some(20)
  {
    var h0: Heap<int> := Heap([Node(5, 50, At(1), Null), Node(3, 30, Null, Null)], [At(0)]);
    assert Placed(h0, [RootPlace, Place(None, Some(5), 1)]);
    var h1 := Do(h0, PutPure(0, 5, 51));
    assert h1.nodes == h0.nodes + [Node(5, 51, At(1), Null)] && h1.roots == [At(0), At(2)];
    assert Walk(h1, LeftOf(1), 2, 1) == Empty(LeftOf(1));
    assert Walk(h1, LeftOf(2), 2, 2) == Empty(LeftOf(1));
    assert Walk(h1, RootOf(1), 2, 3) == Empty(LeftOf(1));
    var h2 := Do(h1, PutImpure(1, 2, 20));
    assert h2.roots[0] == At(0) && h2.nodes[0] == h0.nodes[0] && h2.nodes[1].left == At(3) &&
      h2.nodes[3] == Node(2, 20, Null, Null);
    assert Find(h2.nodes, At(3), 2, 2) == Some(20);
    assert Find(h2.nodes, At(1), 2, 3) == Some(20);
  }
}
