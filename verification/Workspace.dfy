/**
  The workspace: binary search trees of bindings (GTable, TreeNode) and the prototype chains
  that start in them (GForm).

  A tree pointer is an index into the heap's node sequence.  Two tables may share nodes,
  because `PutPure` copies only the nodes on the search path, and `PutImpure` later updates the
  shared nodes in place.  Keys are the 32-bit hashes of interned symbols, taken collision free.
 */
module Workspace {
  import opened Basics

  datatype Ptr = Null | At(id: nat)

  datatype Node<+V> = Node(key: int, value: V, left: Ptr, right: Ptr)

  /** `roots[t]` is the `mTree` pointer of table `t`. */
  datatype Heap<+V> = Heap(nodes: seq<Node<V>>, roots: seq<Ptr>)

  /** A GForm is the chain of its tables, innermost scope first. */
  type Form = seq<nat>

  /** The search loop of `GTable::get`, entered at pointer `p`. */
  function Find<V>(nodes: seq<Node<V>>, p: Ptr, key: int, fuel: nat): Option<V>
    decreases fuel
  {
    if p.Null? || p.id >= |nodes| || fuel == 0 then None
    else
      var n := nodes[p.id];
      if key == n.key then Some(n.value)
      else if key < n.key then Find(nodes, n.left, key, fuel - 1)
      else Find(nodes, n.right, key, fuel - 1)
  }

  /** `GTable::get`. */
  function Get<V>(h: Heap<V>, table: nat, key: int): Option<V> {
    if table < |h.roots| then Find(h.nodes, h.roots[table], key, |h.nodes|) else None
  }

  /** `GForm::get`: the first table of the chain that binds the key. */
  function FormGet<V>(h: Heap<V>, form: Form, key: int): Option<V> {
    if form == [] then None
    else
      var r := Get(h, form[0], key);
      if r.Some? then r else FormGet(h, form[1..], key)
  }

  /** A place that holds a tree pointer: what `treeNodePtr` points to in `GTable::putImpure`. */
  datatype Slot = RootOf(table: nat) | LeftOf(node: nat) | RightOf(node: nat)

  predicate ValidSlot<V>(h: Heap<V>, s: Slot) {
    match s
    case RootOf(t) => t < |h.roots|
    case LeftOf(n) => n < |h.nodes|
    case RightOf(n) => n < |h.nodes|
  }

  function Load<V>(h: Heap<V>, s: Slot): Ptr
    requires ValidSlot(h, s)
  {
    match s
    case RootOf(t) => h.roots[t]
    case LeftOf(n) => h.nodes[n].left
    case RightOf(n) => h.nodes[n].right
  }

  function Store<V>(h: Heap<V>, s: Slot, p: Ptr): (h': Heap<V>)
    requires ValidSlot(h, s)
  {
    match s
    case RootOf(t) => h.(roots := h.roots[t := p])
    case LeftOf(n) => h.(nodes := h.nodes[n := h.nodes[n].(left := p)])
    case RightOf(n) => h.(nodes := h.nodes[n := h.nodes[n].(right := p)])
  }

  /** Where the walk of `putImpure` stops: at the node that binds the key, or at an empty slot. */
  datatype Stop = Bound | Empty(slot: Slot)

  function Walk<V>(h: Heap<V>, s: Slot, key: int, fuel: nat): (r: Stop)
    requires ValidSlot(h, s)
    ensures r.Empty? ==> ValidSlot(h, r.slot)
    decreases fuel
  {
    var p := Load(h, s);
    if p.Null? || p.id >= |h.nodes| || fuel == 0 then Empty(s)
    else
      var n := h.nodes[p.id];
      if n.key == key then Bound
      else if key < n.key then Walk(h, LeftOf(p.id), key, fuel - 1)
      else Walk(h, RightOf(p.id), key, fuel - 1)
  }

  /** A new leaf at the end of the node sequence, hung into slot `s`. */
  function Hang<V>(h: Heap<V>, s: Slot, key: int, value: V): (h': Heap<V>)
    requires ValidSlot(h, s)
  {
    var h1 := Store(h, s, At(|h.nodes|));
    h1.(nodes := h1.nodes + [Node(key, value, Null, Null)])
  }

  /** `GTable::putImpure`: false when the key is already bound. */
  function TablePutImpure<V>(h: Heap<V>, table: nat, key: int, value: V): (r: (Heap<V>, bool))
  {
    if table >= |h.roots| then (h, false)
    else match Walk(h, RootOf(table), key, |h.nodes|)
      case Bound => (h, false)
      case Empty(s) => (Hang(h, s, key, value), true)
  }

  /** `TreeNode::putPure` entered at `p`: copies the search path; returns the new nodes and the copy's pointer. */
  function NodePutPure<V>(nodes: seq<Node<V>>, p: Ptr, key: int, value: V, fuel: nat): (r: (seq<Node<V>>, Ptr))
    ensures |nodes| <= |r.0| && nodes == r.0[..|nodes|]
    decreases fuel
  {
    if p.Null? || p.id >= |nodes| || fuel == 0 then
      (nodes + [Node(key, value, Null, Null)], At(|nodes|))
    else
      var n := nodes[p.id];
      if n.key == key then
        (nodes + [n.(value := value)], At(|nodes|))
      else if key < n.key then
        var (nodes1, q) := NodePutPure(nodes, n.left, key, value, fuel - 1);
        (nodes1 + [n.(left := q)], At(|nodes1|))
      else
        var (nodes1, q) := NodePutPure(nodes, n.right, key, value, fuel - 1);
        (nodes1 + [n.(right := q)], At(|nodes1|))
  }

  /** `GTable::putPure`: a new table, which is given the next table number. */
  function TablePutPure<V>(h: Heap<V>, table: nat, key: int, value: V): (h': Heap<V>)
    requires table < |h.roots|
  {
    var (nodes, p) := NodePutPure(h.nodes, h.roots[table], key, value, |h.nodes|);
    Heap(nodes, h.roots + [p])
  }

  /** `GForm::putImpure`: binds in place, or, when the key is bound, in a new version of the head table. */
  function FormPutImpure<V>(h: Heap<V>, form: Form, key: int, value: V): (r: (Heap<V>, Form))
  {
    if form == [] || form[0] >= |h.roots| then (h, form)
    else
      var (h1, added) := TablePutImpure(h, form[0], key, value);
      if added then (h1, form)
      else (TablePutPure(h, form[0], key, value), [|h.roots|] + form[1..])
  }
}
