/**
  GTable and TreeNode as they run: loops that follow tree pointers, updates in place, and the
  recursive path copy.  The store holds all nodes; a table is a cell with a root pointer.
 */
module TableStores {
  import opened Basics
  import opened Workspace
  import opened Versions

  class TableStore<V(!new)> {
    var nodes: seq<Node<V>>
    var roots: seq<Ptr>

    ghost function Contents(): Heap<V>
      reads this
    {
      Heap(nodes, roots)
    }

    ghost predicate Valid()
      reads this
    {
      SearchTrees(Contents())
    }

    constructor ()
      ensures Valid() && nodes == [] && roots == []
    {
      nodes, roots := [], [];
      new;
      assert Placed(Contents(), []);
    }

    method NewTable() returns (table: nat)
      requires Valid()
      modifies this
      ensures Valid() && nodes == old(nodes) && roots == old(roots) + [Null] && table == |old(roots)|
    {
      ghost var sh: seq<Place> :| Placed(Contents(), sh);
      table := |roots|;
      roots := roots + [Null];
      assert Placed(Contents(), sh) by {
        forall t | 0 <= t < |roots| ensures Leads(nodes, sh, roots[t], RootPlace) {
          if t < table { assert Leads(nodes, sh, old(roots)[t], RootPlace); }
        }
      }
    }

    method LoadSlot(s: Slot) returns (p: Ptr)
      requires ValidSlot(Contents(), s)
      ensures p == Load(Contents(), s)
    {
      match s {
        case RootOf(t) => p := roots[t];
        case LeftOf(n) => p := nodes[n].left;
        case RightOf(n) => p := nodes[n].right;
      }
    }

    method StoreSlot(s: Slot, p: Ptr)
      requires ValidSlot(Contents(), s)
      modifies this
      ensures Contents() == Store(old(Contents()), s, p)
    {
      match s {
        case RootOf(t) => roots := roots[t := p];
        case LeftOf(n) => nodes := nodes[n := nodes[n].(left := p)];
        case RightOf(n) => nodes := nodes[n := nodes[n].(right := p)];
      }
    }

    /** `GTable::get`. */
    method Get(table: nat, key: int) returns (r: Option<V>)
      requires Valid() && table < |roots|
      ensures r == Workspace.Get(Contents(), table, key)
    {
      ghost var sh: seq<Place> :| Placed(Contents(), sh);
      var tree := roots[table];
      ghost var fuel := |nodes|;
      assert Leads(nodes, sh, tree, RootPlace);
      while tree != Null
        invariant tree.At? ==> tree.id < |nodes| && fuel >= |nodes| - sh[tree.id].depth
        invariant fuel >= 0 && Find(nodes, tree, key, fuel) == Workspace.Get(Contents(), table, key)
        decreases fuel
      {
        assert NodeOk(nodes, sh, tree.id);
        var n := nodes[tree.id];
        if key == n.key { return Some(n.value); }
        tree := if key < n.key then n.left else n.right;
        fuel := fuel - 1;
      }
      r := None;
    }

    /** `GTable::putImpure`, when no other thread interferes: binds the key if it is free. */
    method PutImpure(table: nat, key: int, value: V) returns (added: bool)
      requires Valid() && table < |roots|
      modifies this
      ensures Valid() && (Contents(), added) == TablePutImpure(old(Contents()), table, key, value)
      ensures added == Workspace.Get(old(Contents()), table, key).None?
      ensures KeepsBut(old(Contents()), Contents(), key, value)
      ensures added ==> Workspace.Get(Contents(), table, key) == Some(value)
    {
      ghost var h := Contents();
      ghost var sh: seq<Place> :| Placed(h, sh);
      ghost var sh' := ImpureEffect(h, sh, table, key, value);
      var slot := RootOf(table);
      ghost var fuel := |nodes|;
      while true
        invariant Contents() == h && ValidSlot(h, slot)
        invariant fuel >= |nodes| - SlotPlace(h, sh, slot).depth && fuel >= 0
        invariant Walk(h, slot, key, fuel) == Walk(h, RootOf(table), key, |nodes|)
        decreases fuel
      {
        var tree := LoadSlot(slot);
        if slot.LeftOf? || slot.RightOf? { assert NodeOk(nodes, sh, slot.node); }
        if tree == Null {
          StoreSlot(slot, At(|nodes|));
          nodes := nodes + [Node(key, value, Null, Null)];
          return true;
        }
        assert Leads(nodes, sh, tree, SlotPlace(h, sh, slot));
        assert NodeOk(nodes, sh, tree.id);
        var treeKey := nodes[tree.id].key;
        if treeKey == key { return false; }
        slot := if key < treeKey then LeftOf(tree.id) else RightOf(tree.id);
        fuel := fuel - 1;
      }
    }

    /** `TreeNode::putPure`: copies the nodes on the way to the key. */
    method CopyPath(p: Ptr, key: int, value: V, ghost fuel: nat, ghost sh: seq<Place>, ghost at: Place) returns (q: Ptr)
      requires NodesOk(nodes, sh) && Leads(nodes, sh, p, at) && fuel >= |nodes| - at.depth
      modifies `nodes
      ensures (nodes, q) == NodePutPure(old(nodes), p, key, value, fuel)
      decreases fuel
    {
      if p == Null {
        nodes := nodes + [Node(key, value, Null, Null)];
        return At(|nodes| - 1);
      }
      assert NodeOk(nodes, sh, p.id);
      var n := nodes[p.id];
      if n.key == key {
        nodes := nodes + [n.(value := value)];
      } else if key < n.key {
        var left := CopyPath(n.left, key, value, fuel - 1, sh, Place(at.lo, Some(n.key), at.depth + 1));
        nodes := nodes + [n.(left := left)];
      } else {
        var right := CopyPath(n.right, key, value, fuel - 1, sh, Place(Some(n.key), at.hi, at.depth + 1));
        nodes := nodes + [n.(right := right)];
      }
      return At(|nodes| - 1);
    }

    /** `GTable::putPure`: a new version of the table. */
    method PutPure(table: nat, key: int, value: V) returns (version: nat)
      requires Valid() && table < |roots|
      modifies this
      ensures Valid() && Contents() == TablePutPure(old(Contents()), table, key, value) && version == |old(roots)|
      ensures forall u, k ::
        0 <= u < |old(roots)| ==> Workspace.Get(Contents(), u, k) == Workspace.Get(old(Contents()), u, k)
      ensures forall k :: Workspace.Get(Contents(), version, k) ==
                          if k == key then Some(value) else Workspace.Get(old(Contents()), table, k)
    {
      ghost var sh: seq<Place> :| Placed(Contents(), sh);
      ghost var sh' := PureEffect(Contents(), sh, table, key, value);
      var tree := CopyPath(roots[table], key, value, |nodes|, sh, RootPlace);
      version := |roots|;
      roots := roots + [tree];
    }

    /** `GForm::putImpure`: binds in place if possible, else in a new version of the head table. */
    method FormPut(form: Form, key: int, value: V) returns (form': Form)
      requires Valid() && form != [] && forall i :: 0 <= i < |form| ==> form[i] < |roots|
      modifies this
      ensures Valid() && (Contents(), form') == FormPutImpure(old(Contents()), form, key, value)
      ensures KeepsBut(old(Contents()), Contents(), key, value)
      ensures FormGet(Contents(), form', key) == Some(value)
      ensures forall k :: k != key ==> FormGet(Contents(), form', k) == FormGet(old(Contents()), form, k)
    {
      FormPutEffect(Contents(), form, key, value);
      var added := PutImpure(form[0], key, value);
      if added { return form; }
      var version := PutPure(form[0], key, value);
      return [version] + form[1..];
    }
  }
}
