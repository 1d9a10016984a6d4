/**
  The recursive reading of pervasive application: operators apply at the leaves, scalars are
  broadcast, lists are cut to the shortest; and the arithmetic operators whose shortcuts must agree
  with it.
 */
module LazySpec {
  import opened LazyLists
  import opened LazyStore
  import opened LazyTurns

  datatype Tree<A> = One(x: A) | Many(ts: seq<Tree<A>>)

  function Min(m: nat, n: nat): nat { if m < n then m else n }

  function Lift<A>(op: Op<A>, s: Tree<A>, t: Tree<A>): Tree<A>
    decreases s, t
  {
    match (s, t)
    case (One(x), One(y)) => One(op.f(x, y))
    case (One(_), Many(ts)) => Many(seq(|ts|, i requires 0 <= i < |ts| => Lift(op, s, ts[i])))
    case (Many(ss), One(_)) => Many(seq(|ss|, i requires 0 <= i < |ss| => Lift(op, ss[i], t)))
    case (Many(ss), Many(ts)) =>
      Many(seq(Min(|ss|, |ts|), i requires 0 <= i < Min(|ss|, |ts|) => Lift(op, ss[i], ts[i])))
  }

  /** The linked form: the longer list's remaining elements follow. */
  function Linked<A>(op: Op<A>, s: Tree<A>, t: Tree<A>): Tree<A>
    decreases s, t
  {
    match (s, t)
    case (Many(ss), Many(ts)) =>
      var n := Min(|ss|, |ts|);
      Many(seq(n, i requires 0 <= i < n => Linked(op, ss[i], ts[i])) + ss[n..] + ts[n..])
    case (One(x), One(y)) => One(op.f(x, y))
    case (One(_), Many(ts)) => Many(seq(|ts|, i requires 0 <= i < |ts| => Linked(op, s, ts[i])))
    case (Many(ss), One(_)) => Many(seq(|ss|, i requires 0 <= i < |ss| => Linked(op, ss[i], t)))
  }

  function TreeLabel<A>(t: Tree<A>, p: Path): (l: Label<A>)
    ensures p == [] ==> !l.Absent?
    decreases t
  {
    match t
    case One(x) => Leaf(x)
    case Many(ts) => if p == [] then Nest else if p[0] < |ts| then TreeLabel(ts[p[0]], p[1..]) else Absent
  }

  ghost function TreeTrail<A>(t: Tree<A>, p: Path): (r: seq<Label<A>>)
    ensures |r| == |p| + 1
  {
    seq(|p| + 1, c requires 0 <= c <= |p| => TreeLabel(t, p[..c]))
  }

  lemma {:induction false} LiftIsPointwise<A>(op: Op<A>, s: Tree<A>, t: Tree<A>, p: Path)
    ensures TreeLabel(Lift(op, s, t), p) == Combine(op, TreeLabel(s, p), TreeLabel(t, p))
    decreases p
  {
    if p != [] {
      match (s, t)
      case (One(_), One(_)) =>
      case (One(_), Many(ts)) => if p[0] < |ts| { LiftIsPointwise(op, s, ts[p[0]], p[1..]); }
      case (Many(ss), One(_)) => if p[0] < |ss| { LiftIsPointwise(op, ss[p[0]], t, p[1..]); }
      case (Many(ss), Many(ts)) => if p[0] < Min(|ss|, |ts|) { LiftIsPointwise(op, ss[p[0]], ts[p[0]], p[1..]); }
    }
  }

  lemma OneRunsOut<A>(op: Op<A>, s: Tree<A>, t: Tree<A>, p: Path)
    requires p != [] && ((s.Many? && p[0] >= |s.ts|) || (t.Many? && p[0] >= |t.ts|))
    ensures TreeLabel(Linked(op, s, t), p) == LinkLabel(op, true, true, TreeTrail(s, p), TreeTrail(t, p))
  {
    var a, b := TreeTrail(s, p), TreeTrail(t, p);
    assert p[..|p|] == p && p[..1] == [p[0]];
    assert a[1] == TreeLabel(s, [p[0]]) && b[1] == TreeLabel(t, [p[0]]);
    assert a[|p|] == TreeLabel(s, p) && b[|p|] == TreeLabel(t, p);
    assert LinkLabel(op, true, true, a, b) == LinkLabel(op, s.One?, t.One?, a[1..], b[1..]);
    assert a[1..][|p| - 1] == a[|p|] && b[1..][|p| - 1] == b[|p|];
    assert [p[0]][1..] == [];
    assert s.Many? ==> (a[1].Absent? <==> p[0] >= |s.ts|);
    assert t.Many? ==> (b[1].Absent? <==> p[0] >= |t.ts|);
    if s.Many? && t.Many? {
      var n, r := Min(|s.ts|, |t.ts|), Linked(op, s, t).ts;
      assert |r| == n + |s.ts[n..]| + |t.ts[n..]|;
      assert p[0] < |s.ts| ==> r[p[0]] == s.ts[n..][p[0] - n] == s.ts[p[0]];
      assert p[0] < |t.ts| ==> r[p[0]] == t.ts[n..][p[0] - n] == t.ts[p[0]];
    }
  }

  lemma {:induction false} LinkedIsPathwise<A>(op: Op<A>, s: Tree<A>, t: Tree<A>, p: Path)
    ensures TreeLabel(Linked(op, s, t), p) == LinkLabel(op, true, true, TreeTrail(s, p), TreeTrail(t, p))
    decreases p
  {
    var a, b := TreeTrail(s, p), TreeTrail(t, p);
    assert p[..|p|] == p;
    if p != [] {
      var i, q := p[0], p[1..];
      forall c | 0 <= c <= |q| ensures p[..c + 1] == [i] + q[..c] && p[..c + 1][1..] == q[..c] {}
      var x := if s.One? then s else if i < |s.ts| then s.ts[i] else s;
      var y := if t.One? then t else if i < |t.ts| then t.ts[i] else t;
      if (s.Many? ==> i < |s.ts|) && (t.Many? ==> i < |t.ts|) {
        assert a[1..] == TreeTrail(x, q) && b[1..] == TreeTrail(y, q);
        LinkedIsPathwise(op, x, y, q);
        LinkHead(op, s.One?, t.One?, a[1..], b[1..]);
      } else {
        OneRunsOut(op, s, t, p);
      }
    }
  }

  /** What precedes a path matters only while nothing is missing. */
  lemma LinkHead<A>(op: Op<A>, aScalar: bool, bScalar: bool, a: seq<Label<A>>, b: seq<Label<A>>)
    requires |a| == |b| > 0 && !a[0].Absent? && !b[0].Absent?
    ensures LinkLabel(op, aScalar, bScalar, a, b) == LinkLabel(op, true, true, a, b)
  {}

  /** A tree is determined by its labels. */
  lemma {:induction false} LabelsDetermine<A>(s: Tree<A>, t: Tree<A>)
    requires forall p :: TreeLabel(s, p) == TreeLabel(t, p)
    ensures s == t
  {
    assert TreeLabel(s, []) == TreeLabel(t, []);
    if s.Many? {
      assert TreeLabel(s, [|t.ts|]) == TreeLabel(t, [|t.ts|]);
      assert TreeLabel(s, [|s.ts|]) == TreeLabel(t, [|s.ts|]);
      forall i | 0 <= i < |s.ts| ensures s.ts[i] == t.ts[i] {
        forall p ensures TreeLabel(s.ts[i], p) == TreeLabel(t.ts[i], p) {
          assert ([i] + p)[1..] == p;
          assert TreeLabel(s, [i] + p) == TreeLabel(t, [i] + p);
        }
        LabelsDetermine(s.ts[i], t.ts[i]);
      }
    }
  }

  /** The value, fully forced, would be the tree. */
  ghost predicate Shows<A(!new)>(h: Graph<A>, v: V<A>, t: Tree<A>)
    requires WF(h) && Valid(h, v)
  {
    forall p :: Obs(h, v, p) == TreeLabel(t, p)
  }

  /** What a value shows is one tree, so the trees named below are the values' whole contents. */
  lemma ShowsOneTree<A(!new)>(h: Graph<A>, v: V<A>, s: Tree<A>, t: Tree<A>)
    requires WF(h) && Valid(h, v) && Shows(h, v, s) && Shows(h, v, t)
    ensures s == t
  {
    forall p ensures TreeLabel(s, p) == TreeLabel(t, p) { assert Obs(h, v, p) == TreeLabel(s, p); }
    LabelsDetermine(s, t);
  }

  /** The result of the operator dispatch shows the recursive application to what the operands show. */
  lemma DispatchShows<A(!new)>(h: Graph<A>, k: Graph<A>, op: Op<A>, a: V<A>, b: V<A>, r: V<A>, s: Tree<A>, t: Tree<A>)
    requires WF(h) && WF(k) && Valid(h, a) && Valid(h, b) && Valid(k, r) && Shows(h, a, s) && Shows(h, b, t)
    requires forall p :: Obs(k, r, p) == OpLabel(h, op, a, b, p)
    ensures Shows(k, r, if op.linked then Linked(op, s, t) else Lift(op, s, t))
  {
    forall p ensures Obs(k, r, p) == TreeLabel(if op.linked then Linked(op, s, t) else Lift(op, s, t), p) {
      if op.linked {
        assert Trail(h, a, p) == TreeTrail(s, p) && Trail(h, b, p) == TreeTrail(t, p);
        LinkedIsPathwise(op, s, t, p);
      } else {
        LiftIsPointwise(op, s, t, p);
      }
    }
  }

  // ---------- functions of several arguments ----------

  function Height<A>(t: Tree<A>): nat { match t case One(_) => 0 case Many(ts) => 1 + MaxHeight(ts) }
  function MaxHeight<A>(ts: seq<Tree<A>>): (m: nat)
    ensures forall t :: t in ts ==> Height(t) <= m
  {
    if ts == [] then 0
    else
      var h, m := Height(ts[0]), MaxHeight(ts[1..]);
      assert ts == [ts[0]] + ts[1..];
      if h < m then m else h
  }

  lemma {:induction false} HeightBound<A>(ts: seq<Tree<A>>, m: nat)
    requires forall t :: t in ts ==> Height(t) <= m
    ensures MaxHeight(ts) <= m
  {
    if ts != [] { HeightBound(ts[1..], m); }
  }

  ghost predicate Scalars<A>(row: seq<Tree<A>>) { forall t :: t in row ==> t.One? }

  /** The length of the shortest list among the arguments. */
  ghost function Shortest<A>(row: seq<Tree<A>>): (n: nat)
    requires !Scalars(row)
    ensures forall t :: t in row && t.Many? ==> n <= |t.ts|
    ensures exists t :: t in row && t.Many? && n == |t.ts|
  {
    assert row == [row[0]] + row[1..];
    if Scalars(row[1..]) then |row[0].ts|
    else if row[0].Many? then Min(|row[0].ts|, Shortest(row[1..])) else Shortest(row[1..])
  }

  /** The arguments of element i: scalars stay, lists are indexed. */
  ghost function Row<A>(row: seq<Tree<A>>, i: nat): (r: seq<Tree<A>>)
    requires forall t :: t in row && t.Many? ==> i < |t.ts|
    ensures |r| == |row|
  {
    seq(|row|, j requires 0 <= j < |row| => if row[j].One? then row[j] else row[j].ts[i])
  }

  lemma RowIsLower<A>(row: seq<Tree<A>>, i: nat)
    requires !Scalars(row) && forall t :: t in row && t.Many? ==> i < |t.ts|
    ensures MaxHeight(Row(row, i)) < MaxHeight(row)
  {
    var t :| t in row && t.Many?;
    forall u | u in Row(row, i) ensures Height(u) <= MaxHeight(row) - 1 {
      var j :| 0 <= j < |row| && u == Row(row, i)[j];
      assert row[j] in row && Height(row[j]) <= MaxHeight(row);
      if row[j].Many? { assert u in row[j].ts && Height(row[j]) == 1 + MaxHeight(row[j].ts); }
      else { assert t in row && Height(t) == 1 + MaxHeight(t.ts) <= MaxHeight(row) && Height(u) == 0; }
    }
    HeightBound(Row(row, i), MaxHeight(row) - 1);
  }

  ghost function LiftAll<A(!new)>(f: seq<A> -> A, row: seq<Tree<A>>): Tree<A>
    decreases MaxHeight(row)
  {
    if Scalars(row) then One(f(seq(|row|, j requires 0 <= j < |row| => row[j].x)))
    else
      var n := Shortest(row);
      Many(seq(n, i requires 0 <= i < n => RowIsLower(row, i); LiftAll(f, Row(row, i))))
  }

  ghost function LabelsAll<A>(row: seq<Tree<A>>, p: Path): (ls: seq<Label<A>>)
    ensures |ls| == |row|
  {
    seq(|row|, j requires 0 <= j < |row| => TreeLabel(row[j], p))
  }

  lemma {:induction false} LiftAllIsPointwise<A(!new)>(f: seq<A> -> A, row: seq<Tree<A>>, p: Path)
    ensures TreeLabel(LiftAll(f, row), p) == CombineAll(f, LabelsAll(row, p))
    decreases |p|
  {
    var ls := LabelsAll(row, p);
    if Scalars(row) {
      assert seq(|ls|, j requires 0 <= j < |ls| => if ls[j].Leaf? then ls[j].x else f([])) ==
        seq(|row|, j requires 0 <= j < |row| => row[j].x);
    } else {
      var n := Shortest(row);
      var t :| t in row && t.Many? && n == |t.ts|;
      var j :| 0 <= j < |row| && row[j] == t;
      if p == [] {
        assert ls[j].Nest?;
      } else if p[0] < n {
        LiftAllIsPointwise(f, Row(row, p[0]), p[1..]);
        assert LabelsAll(Row(row, p[0]), p[1..]) == ls;
      } else {
        assert ls[j].Absent?;
      }
    }
  }

  /** What a multichannel application shows is the recursive application at the leaves. */
  lemma MultichannelShows<A(!new)>(h: Graph<A>, k: Graph<A>, f: seq<A> -> A, row: seq<V<A>>, r: V<A>, ts: seq<Tree<A>>)
    requires WF(h) && WF(k) && AllValid(h, row) && Valid(k, r) && |ts| == |row| &&
      forall j :: 0 <= j < |row| ==> Shows(h, row[j], ts[j])
    requires forall p :: Obs(k, r, p) == CombineAll(f, ObsAll(h, row, p))
    ensures Shows(k, r, LiftAll(f, ts))
  {
    forall p ensures Obs(k, r, p) == TreeLabel(LiftAll(f, ts), p) {
      assert ObsAll(h, row, p) == LabelsAll(ts, p);
      LiftAllIsPointwise(f, ts, p);
    }
  }

  // ---------- arithmetic and its shortcuts ----------

  function Neg(x: real): real { -x }
  function ToZero(x: real): real { 0.0 }
  function Add(x: real, y: real): real { x + y }
  function Subtract(x: real, y: real): real { x - y }
  function Multiply(x: real, y: real): real { x * y }
  function SameIfZero(x: real): Short<real> { if x == 0.0 then Same else General }
  function NegIfZero(x: real): Short<real> { if x == 0.0 then Map(Neg) else General }
  function MulShort(x: real): Short<real> {
    if x == 1.0 then Same else if x == 0.0 then Map(ToZero) else if x == -1.0 then Map(Neg) else General
  }

  const PLUS := Op(Add, SameIfZero, SameIfZero, false)
  const PLUSLINK := Op(Add, SameIfZero, SameIfZero, true)
  const MINUS := Op(Subtract, NegIfZero, SameIfZero, false)
  const MUL := Op(Multiply, MulShort, MulShort, false)

  lemma ArithmeticIsFaithful()
    ensures Faithful(PLUS) && Faithful(PLUSLINK) && Faithful(MINUS) && Faithful(MUL)
  {}
}
