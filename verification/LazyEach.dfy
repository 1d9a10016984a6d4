/**
  Each-mappers among the lazy lists: what one element of a mapped list must show, and the mapper of
  a list one level down.
 */
module LazyEach {
  import opened Basics
  import opened Masks
  import opened LazyLists
  import opened LazyPaths
  import opened LazyStore
  import opened LazyTurns

  // ---------- views that show the same ----------

  ghost predicate Alike<A(!new)>(h: Graph<A>, v: View<A>, w: View<A>) {
    ViewOk(h, v) && ViewOk(h, w) && |v.ins| == |w.ins| &&
    forall j, p :: 0 <= j < |v.ins| ==> Seen(h, v, j, p) == Seen(h, w, j, p)
  }

  lemma {:induction false} FunAlike<A(!new)>(h: Graph<A>, f: Fun<A>, v: View<A>, w: View<A>, p: Path)
    requires Alike(h, v, w) && FunOk(f, |v.ins|)
    ensures FunAt(h, f, v, p) == FunAt(h, f, w, p)
    decreases f
  {
    match f
    case Arg(j) =>
    case Lit(_) =>
    case Prim(_, args) =>
      forall c | 0 <= c < |args| ensures FunAt(h, args[c], v, p) == FunAt(h, args[c], w, p) {
        FunAlike(h, args[c], v, w, p);
      }
      assert seq(|args|, c requires 0 <= c < |args| => FunAt(h, args[c], v, p))
          == seq(|args|, c requires 0 <= c < |args| => FunAt(h, args[c], w, p));
    case Listing(items) => if p != [] && p[0] < |items| { FunAlike(h, items[p[0]], v, w, p[1..]); }
  }

  /** One level down, an iterated argument is seen below the index. */
  lemma DeeperSeen<A(!new)>(h: Graph<A>, v: View<A>, masks: seq<nat>, bit: nat, k: nat, j: nat, p: Path)
    requires ViewOk(h, v) && |masks| == |v.ins| && j < |v.ins|
    ensures Seen(h, Deeper(h, v, masks, bit, k), j, p) ==
      Seen(h, v, j, if Iterated(h, v, masks, bit, j) then [k] + p else p)
  {
    assert (v.before[j] + [k]) + p == v.before[j] + ([k] + p);
  }

  lemma DeeperAlike<A(!new)>(h: Graph<A>, v: View<A>, w: View<A>, masks: seq<nat>, bit: nat, k: nat)
    requires Alike(h, v, w) && |masks| == |v.ins|
    ensures Alike(h, Deeper(h, v, masks, bit, k), Deeper(h, w, masks, bit, k))
  {
    forall j, p | 0 <= j < |v.ins|
      ensures Seen(h, Deeper(h, v, masks, bit, k), j, p) == Seen(h, Deeper(h, w, masks, bit, k), j, p) {
      DeeperSeen(h, v, masks, bit, k, j, p);
      DeeperSeen(h, w, masks, bit, k, j, p);
    }
  }

  lemma {:induction false} EachAlike<A(!new)>(h: Graph<A>, f: Fun<A>, v: View<A>, w: View<A>, masks: seq<nat>, bit: nat,
          below: nat, p: Path)
    requires Alike(h, v, w) && |masks| == |v.ins| && FunOk(f, |v.ins|)
    ensures EachAt(h, f, v, masks, bit, below, p) == EachAt(h, f, w, masks, bit, below, p)
    decreases below
  {
    assert Missing(h, v) == Missing(h, w);
    assert forall j :: 0 <= j < |v.ins| ==> Iterated(h, v, masks, bit, j) == Iterated(h, w, masks, bit, j);
    assert Settled(h, v, masks, bit, below) == Settled(h, w, masks, bit, below);
    if Missing(h, v) {
    } else if Settled(h, v, masks, bit, below) {
      FunAlike(h, f, v, w, p);
    } else if p != [] {
      DeeperAlike(h, v, w, masks, bit, p[0]);
      EachAlike(h, f, Deeper(h, v, masks, bit, p[0]), Deeper(h, w, masks, bit, p[0]), masks, bit + 1, below - 1,
        p[1..]);
    }
  }

  // ---------- rows of values ----------

  /** The values themselves as arguments. */
  function RowView<A>(row: seq<V<A>>): (v: View<A>)
    ensures |v.ins| == |v.before| == |row| &&
      forall j :: 0 <= j < |row| ==> v.ins[j] == Const(row[j]) && v.before[j] == []
  {
    View(seq(|row|, j requires 0 <= j < |row| => Const(row[j])), 0, NoPaths(|row|), 0)
  }

  lemma RowSeen<A(!new)>(h: Graph<A>, row: seq<V<A>>, j: nat, p: Path)
    requires WF(h) && AllValid(h, row) && j < |row|
    ensures ViewOk(h, RowView(row)) && Seen(h, RowView(row), j, p) == Obs(h, row[j], p)
  {
    assert [] + p == p;
  }

  lemma RowViewOk<A(!new)>(h: Graph<A>, row: seq<V<A>>)
    requires WF(h) && AllValid(h, row)
    ensures ViewOk(h, RowView(row))
  {}

  /** What a call on the values shows. */
  ghost function CallAt<A(!new)>(h: Graph<A>, f: Fun<A>, row: seq<V<A>>, p: Path): Label<A>
    requires WF(h) && AllValid(h, row) && FunOk(f, |row|)
  {
    RowViewOk(h, row);
    FunAt(h, f, RowView(row), p)
  }

  /** What mapping over the values shows, from the level of the bit on. */
  ghost function MapAt<A(!new)>(h: Graph<A>, f: Fun<A>, row: seq<V<A>>, masks: seq<nat>, bit: nat, below: nat,
          p: Path): Label<A>
    requires WF(h) && AllValid(h, row) && FunOk(f, |row|) && |masks| == |row|
  {
    RowViewOk(h, row);
    EachAt(h, f, RowView(row), masks, bit, below, p)
  }

  lemma RowViewsKept<A(!new)>(h: Graph<A>, k: Graph<A>, row: seq<V<A>>, len: nat)
    requires Keeps(h, k) && AllValid(h, row)
    ensures AllValid(k, row) && SameViews(h, k, RowView(row), len)
  {
    var v := RowView(row);
    RowViewOk(h, row);
    RowViewOk(k, row);
    forall j | 0 <= j < |row| ensures SameView(h, k, v.ins[j], v.i, v.level, len) {
      forall q: Path | |q| <= len ensures InAt(k, v.ins[j], v.i, q, v.level) == InAt(h, v.ins[j], v.i, q, v.level) {
        ObsKept(h, k, row[j], q);
      }
    }
  }

  lemma CallKept<A(!new)>(h: Graph<A>, k: Graph<A>, f: Fun<A>, row: seq<V<A>>, p: Path)
    requires Keeps(h, k) && AllValid(h, row) && FunOk(f, |row|)
    ensures AllValid(k, row) && CallAt(k, f, row, p) == CallAt(h, f, row, p)
  {
    RowViewsKept(h, k, row, |p|);
    FunAgrees(h, k, f, RowView(row), p, |p|);
  }

  lemma MapKept<A(!new)>(h: Graph<A>, k: Graph<A>, f: Fun<A>, row: seq<V<A>>, masks: seq<nat>, bit: nat, below: nat,
          p: Path)
    requires Keeps(h, k) && AllValid(h, row) && FunOk(f, |row|) && |masks| == |row|
    ensures AllValid(k, row) && MapAt(k, f, row, masks, bit, below, p) == MapAt(h, f, row, masks, bit, below, p)
  {
    RowViewsKept(h, k, row, |p|);
    EachAgrees(h, k, f, RowView(row), masks, bit, below, p, |p|);
  }

  predicate IsIterated<A>(v: V<A>, mask: nat, bit: nat) { Bit(mask, bit) && v.Ref? }

  /** No argument is iterated at the level: the source's `allConstant`. */
  predicate AllConstant<A>(row: seq<V<A>>, masks: seq<nat>, bit: nat)
    requires |masks| == |row|
  {
    forall j :: 0 <= j < |row| ==> !IsIterated(row[j], masks[j], bit)
  }

  /** A row of values misses nothing, and is settled exactly if there is nothing to iterate. */
  lemma RowSettled<A(!new)>(h: Graph<A>, row: seq<V<A>>, masks: seq<nat>, bit: nat, below: nat)
    requires WF(h) && AllValid(h, row) && |masks| == |row|
    ensures ViewOk(h, RowView(row)) && !Missing(h, RowView(row))
    ensures forall j :: 0 <= j < |row| ==> Iterated(h, RowView(row), masks, bit, j) == IsIterated(row[j], masks[j], bit)
    ensures Settled(h, RowView(row), masks, bit, below) <==> below == 0 || AllConstant(row, masks, bit)
  {
    var v := RowView(row);
    RowViewOk(h, row);
    forall j | 0 <= j < |row|
      ensures !Seen(h, v, j, []).Absent? && Iterated(h, v, masks, bit, j) == IsIterated(row[j], masks[j], bit) {
      RowSeen(h, row, j, []);
    }
    if !AllConstant(row, masks, bit) {
      var j :| 0 <= j < |row| && IsIterated(row[j], masks[j], bit);
      assert Iterated(h, v, masks, bit, j);
    }
  }

  /** With nothing to iterate, or no level left, mapping is a call. */
  lemma MapIsCall<A(!new)>(h: Graph<A>, f: Fun<A>, row: seq<V<A>>, masks: seq<nat>, bit: nat, below: nat, p: Path)
    requires WF(h) && AllValid(h, row) && FunOk(f, |row|) && |masks| == |row|
    requires below == 0 || AllConstant(row, masks, bit)
    ensures MapAt(h, f, row, masks, bit, below, p) == CallAt(h, f, row, p)
  {
    RowSettled(h, row, masks, bit, below);
  }

  // ---------- the mapper one level down ----------

  function SubIns<A>(row: seq<V<A>>, masks: seq<nat>, bit: nat): (ins: seq<In<A>>)
    requires |masks| == |row|
    ensures |ins| == |row|
  {
    seq(|row|, j requires 0 <= j < |row| => if IsIterated(row[j], masks[j], bit) then Input(row[j]) else Const(row[j]))
  }

  lemma SubSeen<A(!new)>(h: Graph<A>, row: seq<V<A>>, masks: seq<nat>, bit: nat, level: nat, c: nat, j: nat, p: Path)
    requires WF(h) && AllValid(h, row) && |masks| == |row| && j < |row|
    requires forall i :: 0 <= i < |row| ==> InOk(h, SubIns(row, masks, bit)[i], level)
    ensures ViewOk(h, View(SubIns(row, masks, bit), c, NoPaths(|row|), level))
    ensures Seen(h, View(SubIns(row, masks, bit), c, NoPaths(|row|), level), j, p)
         == Obs(h, row[j], if IsIterated(row[j], masks[j], bit) then [c] + p else p)
  {
    var v := View(SubIns(row, masks, bit), c, NoPaths(|row|), level);
    assert v.before[j] + p == p;
    if IsIterated(row[j], masks[j], bit) { assert ([c] + p)[1..] == p; }
  }

  /** Below index c, the mapper one level down maps over the arguments indexed by c. */
  lemma SubMapperAt<A(!new)>(h: Graph<A>, f: Fun<A>, row: seq<V<A>>, masks: seq<nat>, bit: nat, below: nat, g: Gen<A>,
          c: nat, p: Path)
    requires WF(h) && AllValid(h, row) && FunOk(f, |row|) && |masks| == |row| && below > 0
    requires GenOk(h, g) && g.kind == Each(f, masks, bit + 1, below - 1) && g.ins == SubIns(row, masks, bit)
    ensures ViewOk(h, RowView(row))
    ensures GenAt(h, g, c, p) == EachAt(h, f, Deeper(h, RowView(row), masks, bit, c), masks, bit + 1, below - 1, p)
  {
    var v, w := RowView(row), View(g.ins, c, NoPaths(|row|), g.level);
    RowSettled(h, row, masks, bit, below);
    var deeper := Deeper(h, v, masks, bit, c);
    forall j, q | 0 <= j < |row| ensures ViewOk(h, w) && Seen(h, w, j, q) == Seen(h, deeper, j, q) {
      SubSeen(h, row, masks, bit, g.level, c, j, q);
      DeeperSeen(h, v, masks, bit, c, j, q);
      RowSeen(h, row, j, if IsIterated(row[j], masks[j], bit) then [c] + q else q);
    }
    EachAlike(h, f, w, deeper, masks, bit + 1, below - 1, p);
  }

  /** The elements of the sub-mapper's list are what mapping over the row shows below each index. */
  lemma SubMapper<A(!new)>(h: Graph<A>, f: Fun<A>, row: seq<V<A>>, masks: seq<nat>, bit: nat, below: nat, g: Gen<A>,
          c: nat, p: Path)
    requires WF(h) && AllValid(h, row) && FunOk(f, |row|) && |masks| == |row| && below > 0 &&
      !AllConstant(row, masks, bit)
    requires GenOk(h, g) && g.kind == Each(f, masks, bit + 1, below - 1) && g.ins == SubIns(row, masks, bit)
    ensures GenAt(h, g, c, p) == MapAt(h, f, row, masks, bit, below, [c] + p)
  {
    RowSettled(h, row, masks, bit, below);
    SubMapperAt(h, f, row, masks, bit, below, g, c, p);
    assert ([c] + p)[1..] == p;
  }

  lemma MapHere<A(!new)>(h: Graph<A>, f: Fun<A>, row: seq<V<A>>, masks: seq<nat>, bit: nat, below: nat)
    requires WF(h) && AllValid(h, row) && FunOk(f, |row|) && |masks| == |row| && below > 0 &&
      !AllConstant(row, masks, bit)
    ensures MapAt(h, f, row, masks, bit, below, []) == Nest
  {
    RowSettled(h, row, masks, bit, below);
  }

  // ---------- one turn of the loop ----------

  lemma EachTurn<A(!new)>(h: Graph<A>, g: Gen<A>, row: seq<V<A>>, v: V<A>, next: seq<In<A>>)
    requires Running(h, g) && g.kind.Each? && RowRead(h, g.ins, g.level, row, next) && |row| == |g.ins| && Valid(h, v)
    requires forall p :: Obs(h, v, p) == MapAt(h, g.kind.fun, row, g.kind.masks, g.kind.bit, g.kind.below, p)
    ensures Progress(h, g, [v], g.(ins := next))
  {
    var g1 := g.(ins := next);
    var masks, bit, below := g.kind.masks, g.kind.bit, g.kind.below;
    forall p ensures Obs(h, v, p) == GenAt(h, g, 0, p) {
      FirstAlike(h, g.ins, g.level, row, next);
      EachAlike(h, g.kind.fun, RowView(row), View(g.ins, 0, NoPaths(|row|), g.level), masks, bit, below, p);
    }
    forall i: nat, p: Path ensures GenAt(h, g1, i, p) == GenAt(h, g, 1 + i, p) {
      NextAlike(h, g.ins, g.level, row, next, i);
      EachAlike(h, g.kind.fun, View(next, i, NoPaths(|row|), g.level), View(g.ins, 1 + i, NoPaths(|row|), g.level),
        masks, bit, below, p);
    }
  }

  lemma FirstAlike<A(!new)>(h: Graph<A>, ins: seq<In<A>>, level: nat, row: seq<V<A>>, next: seq<In<A>>)
    requires RowRead(h, ins, level, row, next) && |row| == |ins|
    ensures Alike(h, RowView(row), View(ins, 0, NoPaths(|row|), level))
  {
    var w := View(ins, 0, NoPaths(|row|), level);
    forall j, p | 0 <= j < |row| ensures ViewOk(h, w) && Seen(h, RowView(row), j, p) == Seen(h, w, j, p) {
      RowSeen(h, row, j, p);
      assert w.before[j] + p == p && Chunk(h, ins[j], level, [row[j]]);
      assert Obs(h, [row[j]][0], p) == InAt(h, ins[j], 0, p, level);
    }
  }

  lemma NextAlike<A(!new)>(h: Graph<A>, ins: seq<In<A>>, level: nat, row: seq<V<A>>, next: seq<In<A>>, i: nat)
    requires RowRead(h, ins, level, row, next) && |row| == |ins|
    ensures Alike(h, View(next, i, NoPaths(|row|), level), View(ins, 1 + i, NoPaths(|row|), level))
  {
    var v, w := View(next, i, NoPaths(|row|), level), View(ins, 1 + i, NoPaths(|row|), level);
    forall j, p | 0 <= j < |row| ensures ViewOk(h, v) && ViewOk(h, w) && Seen(h, v, j, p) == Seen(h, w, j, p) {
      assert [] + p == p && Moved(h, ins[j], 1, next[j], level) && Shifted(h, ins[j], 1, next[j], level, i, p);
    }
  }

  lemma EachRound<A(!new)>(h: Graph<A>, k: Graph<A>, g: nat, out: seq<V<A>>, st: Gen<A>, row: seq<V<A>>,
          next: seq<In<A>>, v: V<A>)
    requires Pulling(h, k, g, out, st) && st.kind.Each? && RowRead(k, st.ins, st.level, row, next) &&
      |row| == |st.ins| && Valid(k, v)
    requires forall p :: Obs(k, v, p) == MapAt(k, st.kind.fun, row, st.kind.masks, st.kind.bit, st.kind.below, p)
    ensures Pulling(h, k, g, out + [v], st.(ins := next))
  {
    EachTurn(k, st, row, v, next);
    PullOn(h, k, g, out, st, [v], st.(ins := next));
  }
}
