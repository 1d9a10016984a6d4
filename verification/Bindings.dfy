/**
  What the words of a workspace mean.  A binding stores a position in the tree and the value at that
  position; read back through the forms that a binding returns, the workspace is a map from names to
  values, and every other form keeps all it had.
 */
module Bindings {
  import opened Basics
  import opened Workspace
  import opened Versions
  import opened Syntax

  /** Every node of the tree holds the position of a value. */
  ghost predicate Positions(nodes: seq<Node<nat>>, size: nat) {
    forall i :: 0 <= i < |nodes| ==> nodes[i].value < size
  }

  ghost predicate FormOk<V>(h: Heap<V>, form: Form) {
    form != [] && forall i :: 0 <= i < |form| ==> form[i] < |h.roots|
  }

  /** The workspace trees are search trees, and what they hold are positions of values. */
  ghost predicate WorldOk<T>(w: World<T>) {
    SearchTrees(w.tree) && Positions(w.tree.nodes, |w.vals|) && FormOk(w.tree, w.threadWs)
  }

  // ---------- positions ----------

  lemma {:induction false} FindPosition(nodes: seq<Node<nat>>, p: Ptr, key: int, fuel: nat, size: nat)
    requires Positions(nodes, size) && Find<nat>(nodes, p, key, fuel).Some?
    ensures Find<nat>(nodes, p, key, fuel).value < size
    decreases fuel
  {
    var n := nodes[p.id];
    if key < n.key { FindPosition(nodes, n.left, key, fuel - 1, size); }
    else if key > n.key { FindPosition(nodes, n.right, key, fuel - 1, size); }
  }

  lemma {:induction false} FormPosition(h: Heap<nat>, form: Form, key: int, size: nat)
    requires Positions(h.nodes, size) && FormGet<nat>(h, form, key).Some?
    ensures FormGet<nat>(h, form, key).value < size
  {
    if Get<nat>(h, form[0], key).Some? { FindPosition(h.nodes, h.roots[form[0]], key, |h.nodes|, size); }
    else { FormPosition(h, form[1..], key, size); }
  }

  lemma {:induction false} CopyPositions(nodes: seq<Node<nat>>, p: Ptr, key: int, value: nat, fuel: nat, size: nat)
    requires Positions(nodes, size) && value < size
    ensures Positions(NodePutPure(nodes, p, key, value, fuel).0, size)
    decreases fuel
  {
    if p.At? && p.id < |nodes| && fuel > 0 {
      var n := nodes[p.id];
      if key < n.key { CopyPositions(nodes, n.left, key, value, fuel - 1, size); }
      else if key > n.key { CopyPositions(nodes, n.right, key, value, fuel - 1, size); }
    }
  }

  lemma PutPositions(h: Heap<nat>, form: Form, key: int, value: nat, size: nat)
    requires Positions(h.nodes, size) && value < size && FormOk(h, form)
    ensures var (h', form') := FormPutImpure(h, form, key, value);
      Positions(h'.nodes, size) && FormOk(h', form') && |h.roots| <= |h'.roots|
  {
    var r := TablePutImpure(h, form[0], key, value);
    if !r.1 { CopyPositions(h.nodes, h.roots[form[0]], key, value, |h.nodes|, size); }
  }

  // ---------- one binding ----------

  lemma {:induction false} FormKept(h: Heap<nat>, h': Heap<nat>, form: Form, key: int, value: nat, k: int)
    requires KeepsBut<nat>(h, h', key, value) && forall i :: 0 <= i < |form| ==> form[i] < |h.roots|
    ensures FormGet<nat>(h', form, k) == FormGet<nat>(h, form, k) ||
      (k == key && FormGet<nat>(h', form, k) == Some(value))
    ensures |form| == 1 && FormGet<nat>(h, form, k).Some? ==> FormGet<nat>(h', form, k) == FormGet<nat>(h, form, k)
  {
    if form != [] {
      var before, after := Get<nat>(h, form[0], k), Get<nat>(h', form[0], k);
      assert before.Some? ==> after == before;
      assert before.None? && after.Some? ==> k == key && after == Some(value);
      FormKept(h, h', form[1..], key, value, k);
    }
  }

  /** One of the two puts, seen from any form. */
  lemma PutSeen(h: Heap<nat>, form: Form, key: int, value: nat, other: Form, k: int)
    requires SearchTrees(h) && FormOk(h, form) && forall i :: 0 <= i < |other| ==> other[i] < |h.roots|
    ensures var (h', form') := FormPutImpure<nat>(h, form, key, value);
      && SearchTrees(h') && FormGet<nat>(h', form', key) == Some(value)
      && (k != key ==> FormGet<nat>(h', form', k) == FormGet<nat>(h, form, k))
      && (FormGet<nat>(h', other, k) == FormGet<nat>(h, other, k) ||
        (k == key && FormGet<nat>(h', other, k) == Some(value)))
      && (|other| == 1 && FormGet<nat>(h, other, k).Some? ==> FormGet<nat>(h', other, k) == FormGet<nat>(h, other, k))
  {
    FormPutEffect<nat>(h, form, key, value);
    FormKept(h, FormPutImpure<nat>(h, form, key, value).0, other, key, value, k);
  }

  /** Binding keeps the workspace in order. */
  lemma BindKeepsWorld<T>(w: World<T>, ws: Form, n: Name, v: T)
    requires WorldOk(w) && FormOk(w.tree, ws)
    ensures var (w', ws') := WorldBind(w, ws, n, v);
      WorldOk(w') && FormOk(w'.tree, ws') && |w.tree.roots| <= |w'.tree.roots| && w'.vals == w.vals + [v]
  {
    var p := |w.vals|;
    var (tree1, ws1) := FormPutImpure<nat>(w.tree, ws, n, p);
    PutSeen(w.tree, ws, n, p, [], n);
    PutPositions(w.tree, ws, n, p, p + 1);
    PutSeen(tree1, w.threadWs, n, p, [], n);
    PutPositions(tree1, w.threadWs, n, p, p + 1);
  }

  /**
    What binding means: through both forms that it returns, the name stands for the value and every
    other name for what it stood for before.
   */
  lemma BindingIsFound<T>(w: World<T>, ws: Form, n: Name, v: T, m: Name)
    requires WorldOk(w) && FormOk(w.tree, ws)
    ensures var (w', ws') := WorldBind(w, ws, n, v);
      && WorldGet(w', ws', m) == (if m == n then Some(v) else WorldGet(w, ws, m))
      && WorldGet(w', w'.threadWs, m) == (if m == n then Some(v) else WorldGet(w, w.threadWs, m))
  {
    var p := |w.vals|;
    var (tree1, ws1) := FormPutImpure<nat>(w.tree, ws, n, p);
    PutSeen(w.tree, ws, n, p, w.threadWs, m);
    PutPositions(w.tree, ws, n, p, p + 1);
    PutSeen(tree1, w.threadWs, n, p, ws1, m);
    var (w', ws') := WorldBind(w, ws, n, v);
    if m != n {
      SamePosition(w, w', ws, ws', m);
      SamePosition(w, w', w.threadWs, w'.threadWs, m);
    }
  }

  /** At the same position both worlds have the same value. */
  lemma SamePosition<T>(w: World<T>, w': World<T>, form: Form, form': Form, m: Name)
    requires Positions(w.tree.nodes, |w.vals|) && w.vals <= w'.vals
    requires FormGet<nat>(w'.tree, form', m) == FormGet<nat>(w.tree, form, m)
    ensures WorldGet(w', form', m) == WorldGet(w, form, m)
  {
    if FormGet<nat>(w.tree, form, m).Some? { FormPosition(w.tree, form, m, |w.vals|); }
  }

  /**
    What binding does to every other form, such as that of a function compiled earlier: it keeps what it
    has, and at most the new binding appears in it; in a form of one table a bound name keeps its value.
   */
  lemma OtherFormsKeep<T>(w: World<T>, ws: Form, n: Name, v: T, other: Form, m: Name)
    requires WorldOk(w) && FormOk(w.tree, ws) && FormOk(w.tree, other)
    ensures var w' := WorldBind(w, ws, n, v).0;
      && (WorldGet(w', other, m) == WorldGet(w, other, m) || (m == n && WorldGet(w', other, m) == Some(v)))
      && (|other| == 1 && WorldGet(w, other, m).Some? ==> WorldGet(w', other, m) == WorldGet(w, other, m))
  {
    var p := |w.vals|;
    var (tree1, ws1) := FormPutImpure<nat>(w.tree, ws, n, p);
    PutSeen(w.tree, ws, n, p, other, m);
    PutPositions(w.tree, ws, n, p, p + 1);
    PutSeen(tree1, w.threadWs, n, p, other, m);
    var w' := WorldBind(w, ws, n, v).0;
    if FormGet<nat>(w'.tree, other, m) == FormGet<nat>(w.tree, other, m) { SamePosition(w, w', other, other, m); }
    else if FormGet<nat>(w.tree, other, m).Some? { FormPosition(w.tree, other, m, p); }
  }
}
