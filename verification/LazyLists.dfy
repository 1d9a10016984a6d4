/**
  Lazy lists as a store of nodes and generators.  A node is either a thunk, waiting for its
  generator, or a filled block of values with a link to the next node; forcing a thunk replaces it
  in place.  What a list denotes is read off by paths of indices: the label at a path says whether
  an element is absent, a leaf or a list, and a leaf answers at every deeper path, which is how
  pervasive operators broadcast it.
 */
module LazyLists {
  import opened Basics
  import opened Masks

  datatype Next = End | To(id: nat)
  datatype V<A> = Atom(x: A) | Ref(id: nat)

  /** A cursor: a constant, a position in a list, or a list that has run out. */
  datatype In<A> = Const(v: V<A>) | Cursor(id: nat, off: nat) | Spent

  /** What an operator makes of a particular scalar beside a list. */
  datatype Short<!A> = General | Same | Map(g: A -> A)
  datatype Op<!A> = Op(f: (A, A) -> A, left: A -> Short<A>, right: A -> Short<A>, linked: bool)

  /** A function as the interpreter applies it: its arguments, multichannel primitives and list literals. */
  datatype Fun<!A> =
    | Arg(j: nat)
    | Lit(x: A)
    | Prim(f: seq<A> -> A, args: seq<Fun<A>>)
    | Listing(items: seq<Fun<A>>)

  datatype Kind<!A> =
    | Unary(g: A -> A)
    | Binary(op: Op<A>)
    | Linked(op: Op<A>)
    | Scan(op: Op<A>, acc: Option<V<A>>)
    | IScan(op: Op<A>, z: V<A>, once: bool)
    | Pairs(op: Op<A>, acc: Option<V<A>>)
    | IPairs(op: Op<A>, z: V<A>, once: bool)
    | Mapper(f: seq<A> -> A)
    | Series(op: Op<A>, z: V<A>, step: V<A>)
    | Each(fun: Fun<A>, masks: seq<nat>, bit: nat, below: nat)

  datatype Gen<!A> = Gen(kind: Kind<A>, ins: seq<In<A>>, level: nat, finite: bool, block: nat, done: bool, out: nat)
  datatype Body<A> = Thunk(gen: nat) | Filled(items: seq<V<A>>, next: Next)

  /** The level of a node counts the generators that may lie between it and plain arrays. */
  datatype Cell<A> = Cell(level: nat, finite: bool, body: Body<A>)
  datatype Graph<!A> = Graph(cells: seq<Cell<A>>, gens: seq<Gen<A>>, flagged: A -> bool)

  // ---------- well-formed heaps ----------

  predicate Valid<A>(h: Graph<A>, v: V<A>) { v.Ref? ==> v.id < |h.cells| }

  predicate AllValid<A>(h: Graph<A>, vs: seq<V<A>>) { forall j :: 0 <= j < |vs| ==> Valid(h, vs[j]) }

  predicate InOk<A>(h: Graph<A>, a: In<A>, level: nat) {
    match a
    case Const(v) => Valid(h, v)
    case Cursor(n, _) => n < |h.cells| && h.cells[n].level < level
    case Spent => true
  }

  /** A cursor stands at the start of a node or inside its block, never at its end. */
  predicate Normal<A>(h: Graph<A>, a: In<A>) {
    a.Cursor? && a.id < |h.cells| && a.off > 0 ==> h.cells[a.id].body.Filled? && a.off < |h.cells[a.id].body.items|
  }

  /** The shortcut gives the result from the other operand. */
  predicate Agrees<A(==)>(s: Short<A>, other: A, result: A) {
    match s
    case General => true
    case Same => result == other
    case Map(g) => result == g(other)
  }

  /** The shortcuts agree with the operator. */
  ghost predicate Faithful<A(!new)>(op: Op<A>) {
    forall x, y :: Agrees(op.left(x), y, op.f(x, y)) && Agrees(op.right(y), x, op.f(x, y))
  }

  predicate OptValid<A>(h: Graph<A>, v: Option<V<A>>) { v.Some? ==> Valid(h, v.value) }

  predicate FunOk<A>(f: Fun<A>, inputs: nat) {
    match f
    case Arg(j) => j < inputs
    case Lit(_) => true
    case Prim(_, args) => forall k :: 0 <= k < |args| ==> FunOk(args[k], inputs)
    case Listing(items) => forall k :: 0 <= k < |items| ==> FunOk(items[k], inputs)
  }

  ghost predicate KindOk<A(!new)>(h: Graph<A>, kind: Kind<A>, inputs: nat) {
    match kind
    case Unary(_) => inputs == 1
    case Binary(op) => inputs == 2 && Faithful(op) && !op.linked
    case Linked(op) => inputs == 2 && Faithful(op) && op.linked
    case Scan(op, acc) => inputs == 1 && Faithful(op) && !op.linked && OptValid(h, acc)
    case IScan(op, z, _) => inputs == 1 && Faithful(op) && !op.linked && Valid(h, z)
    case Pairs(op, acc) => inputs == 1 && Faithful(op) && !op.linked && OptValid(h, acc)
    case IPairs(op, z, _) => inputs == 1 && Faithful(op) && !op.linked && Valid(h, z)
    case Mapper(_) => true
    case Each(f, masks, _, _) => |masks| == inputs && FunOk(f, inputs)
    case Series(op, z, step) => inputs == 0 && Faithful(op) && !op.linked && Valid(h, z) && Valid(h, step)
  }

  ghost predicate GenOk<A(!new)>(h: Graph<A>, g: Gen<A>) {
    KindOk(h, g.kind, |g.ins|) && g.block > 0 &&
    forall j :: 0 <= j < |g.ins| ==> InOk(h, g.ins[j], g.level)
  }

  predicate Follows<A>(h: Graph<A>, n: nat, next: Next)
    requires n < |h.cells|
  {
    match next
    case End => true
    case To(m) =>
      m < |h.cells| &&
      (h.cells[m].level < h.cells[n].level || (h.cells[m].level == h.cells[n].level && n < m))
  }

  /** A node after which its own generator produces nothing more. */
  predicate AtEnd<A>(h: Graph<A>, n: nat)
    requires n < |h.cells|
  {
    match h.cells[n].body
    case Thunk(g) => g < |h.gens| && h.gens[g].done
    case Filled(_, next) => next.To? ==> next.id < |h.cells| && h.cells[next.id].level < h.cells[n].level
  }

  ghost predicate CellOk<A(!new)>(h: Graph<A>, n: nat)
    requires n < |h.cells|
  {
    match h.cells[n].body
    case Thunk(g) =>
      g < |h.gens| && h.gens[g].out == n && h.gens[g].level == h.cells[n].level && h.gens[g].finite == h.cells[n].finite
    case Filled(items, next) =>
      Follows(h, n, next) &&
      (items == [] && next.To? && h.cells[next.id].level == h.cells[n].level ==> AtEnd(h, next.id)) &&
      forall k :: 0 <= k < |items| ==> Valid(h, items[k])
  }

  ghost predicate GenWaits<A(!new)>(h: Graph<A>, g: nat)
    requires g < |h.gens|
  {
    var G := h.gens[g];
    G.done ||
    (GenOk(h, G) && G.out < |h.cells| && h.cells[G.out].body == Thunk(g) &&
     forall j :: 0 <= j < |G.ins| ==> Normal(h, G.ins[j]))
  }

  /** Every unfinished generator has one pending node, its output; no other node waits for it. */
  ghost predicate WF<A(!new)>(h: Graph<A>) {
    (forall n :: 0 <= n < |h.cells| ==> CellOk(h, n)) && (forall g :: 0 <= g < |h.gens| ==> GenWaits(h, g))
  }

  // ---------- what a list denotes ----------

  datatype Label<A> = Absent | Leaf(x: A) | Nest

  function Apply1<A>(g: A -> A, l: Label<A>): Label<A> {
    match l case Absent => Absent case Leaf(x) => Leaf(g(x)) case Nest => Nest
  }
  function Combine<A>(op: Op<A>, l: Label<A>, m: Label<A>): Label<A> {
    if l.Absent? || m.Absent? then Absent
    else if l.Leaf? && m.Leaf? then Leaf(op.f(l.x, m.x)) else Nest
  }
  ghost function CombineAll<A>(f: seq<A> -> A, ls: seq<Label<A>>): Label<A> {
    if exists j :: 0 <= j < |ls| && ls[j].Absent? then Absent
    else if exists j :: 0 <= j < |ls| && ls[j].Nest? then Nest
    else Leaf(f(seq(|ls|, j requires 0 <= j < |ls| => if ls[j].Leaf? then ls[j].x else f([]))))
  }

  /**
    Linked combination, read along a path: where one list has run out the other one goes on, unless
    it is only a scalar being broadcast.
   */
  function LinkLabel<A>(op: Op<A>, aScalar: bool, bScalar: bool, a: seq<Label<A>>, b: seq<Label<A>>): Label<A>
    requires |a| == |b| > 0
    decreases |a|
  {
    if a[0].Absent? then (if bScalar then Absent else b[|b| - 1])
    else if b[0].Absent? then (if aScalar then Absent else a[|a| - 1])
    else if |a| == 1 then Combine(op, a[0], b[0])
    else LinkLabel(op, a[0].Leaf?, b[0].Leaf?, a[1..], b[1..])
  }

  type Path = seq<nat>

  ghost function Obs<A(!new)>(h: Graph<A>, v: V<A>, p: Path): Label<A>
    requires WF(h) && Valid(h, v)
    decreases 2 * |p|, 0, 0, 0
  {
    match v
    case Atom(x) => Leaf(x)
    case Ref(n) => if p == [] then Nest else At(h, n, p[0], p[1..])
  }

  /** The label of element i of the list that starts at node n, seen through the path p inside it. */
  ghost function At<A(!new)>(h: Graph<A>, n: nat, i: nat, p: Path): Label<A>
    requires WF(h) && n < |h.cells|
    decreases 2 * |p| + 1, h.cells[n].level, |h.cells| - n + 4, 0
  {
    assert CellOk(h, n);
    match h.cells[n].body
    case Thunk(g) =>
      assert GenWaits(h, g);
      if h.gens[g].done then Absent else GenAt(h, h.gens[g], i, p)
    case Filled(items, next) =>
      if i < |items| then Obs(h, items[i], p)
      else match next case End => Absent case To(m) => At(h, m, i - |items|, p)
  }

  ghost function InAt<A(!new)>(h: Graph<A>, a: In<A>, i: nat, p: Path, level: nat): Label<A>
    requires WF(h) && InOk(h, a, level)
    decreases 2 * |p| + 1, if a.Cursor? then h.cells[a.id].level else 0, if a.Cursor? then |h.cells| + 6 else 0, 0
  {
    match a
    case Const(v) => Obs(h, v, p)
    case Cursor(n, off) => At(h, n, off + i, p)
    case Spent => Absent
  }

  ghost function InTrail<A(!new)>(h: Graph<A>, a: In<A>, i: nat, p: Path, level: nat): (t: seq<Label<A>>)
    requires WF(h) && InOk(h, a, level)
    ensures |t| == |p| + 1
    decreases 2 * |p| + 1, level, 0, 1
  {
    seq(|p| + 1, c requires 0 <= c <= |p| => InAt(h, a, i, p[..c], level))
  }

  ghost function InRow<A(!new)>(h: Graph<A>, ins: seq<In<A>>, i: nat, p: Path, level: nat): (t: seq<Label<A>>)
    requires WF(h) && forall j :: 0 <= j < |ins| ==> InOk(h, ins[j], level)
    ensures |t| == |ins|
    decreases 2 * |p| + 1, level, 0, 1
  {
    seq(|ins|, j requires 0 <= j < |ins| => InAt(h, ins[j], i, p, level))
  }

  ghost function Trail<A(!new)>(h: Graph<A>, v: V<A>, p: Path): (t: seq<Label<A>>)
    requires WF(h) && Valid(h, v)
    ensures |t| == |p| + 1
  {
    seq(|p| + 1, c requires 0 <= c <= |p| => Obs(h, v, p[..c]))
  }

  ghost function GenAt<A(!new)>(h: Graph<A>, g: Gen<A>, i: nat, p: Path): Label<A>
    requires WF(h) && GenOk(h, g)
    decreases 2 * |p| + 1, g.level, 3, 0
  {
    match g.kind
    case Unary(f) => Apply1(f, InAt(h, g.ins[0], i, p, g.level))
    case Binary(op) => Combine(op, InAt(h, g.ins[0], i, p, g.level), InAt(h, g.ins[1], i, p, g.level))
    case Linked(op) =>
      LinkLabel(op, g.ins[0].Const?, g.ins[1].Const?, InTrail(h, g.ins[0], i, p, g.level),
        InTrail(h, g.ins[1], i, p, g.level))
    case Scan(op, acc) => ScanAt(h, op, acc, g.ins[0], i, p, g.level)
    case IScan(op, z, once) =>
      if !once then ScanAt(h, op, Some(z), g.ins[0], i, p, g.level)
      else if i > 0 then ScanAt(h, op, Some(z), g.ins[0], i - 1, p, g.level)
      else if InAt(h, g.ins[0], 0, [], g.level).Absent? then Absent else Obs(h, z, p)
    case Pairs(op, acc) =>
      if i > 0 then Combine(op, InAt(h, g.ins[0], i, p, g.level), InAt(h, g.ins[0], i - 1, p, g.level))
      else if acc.None? then InAt(h, g.ins[0], 0, p, g.level)
      else Combine(op, InAt(h, g.ins[0], 0, p, g.level), Obs(h, acc.value, p))
    case IPairs(op, z, once) =>
      if i > 0 then Combine(op, InAt(h, g.ins[0], i, p, g.level), InAt(h, g.ins[0], i - 1, p, g.level))
      else if !once then Combine(op, InAt(h, g.ins[0], 0, p, g.level), Obs(h, z, p))
      else if InAt(h, g.ins[0], 0, [], g.level).Absent? then Absent else Obs(h, z, p)
    case Mapper(f) => CombineAll(f, InRow(h, g.ins, i, p, g.level))
    case Series(op, z, step) => SeriesAt(h, op, z, step, i, p)
    case Each(f, masks, bit, below) =>
      EachAt(h, f, View(g.ins, i, NoPaths(|g.ins|), g.level), masks, bit, below, p)
  }

  /** Where a mapped call stands: argument j is seen along the path before[j] inside element i of its input. */
  datatype View<A> = View(ins: seq<In<A>>, i: nat, before: seq<Path>, level: nat)

  ghost predicate ViewOk<A(!new)>(h: Graph<A>, v: View<A>) {
    WF(h) && |v.before| == |v.ins| && forall j :: 0 <= j < |v.ins| ==> InOk(h, v.ins[j], v.level)
  }

  function NoPaths(n: nat): (r: seq<Path>)
    ensures |r| == n && forall j :: 0 <= j < n ==> r[j] == []
  {
    seq(n, _ => [])
  }

  function Longest(paths: seq<Path>): (n: nat)
    ensures forall j :: 0 <= j < |paths| ==> |paths[j]| <= n
    ensures n > 0 ==> exists j :: 0 <= j < |paths| && |paths[j]| == n
  {
    if paths == [] then 0
    else
      var rest := Longest(paths[1..]);
      assert forall j :: 0 < j < |paths| ==> paths[j] == paths[1..][j - 1];
      if |paths[0]| < rest then rest else |paths[0]|
  }

  lemma LongestGrows(before: seq<Path>, after: seq<Path>)
    requires |after| == |before| && forall j :: 0 <= j < |before| ==> |after[j]| <= |before[j]| + 1
    ensures Longest(after) <= Longest(before) + 1
  {}

  /** The label of argument j at the path. */
  ghost function Seen<A(!new)>(h: Graph<A>, v: View<A>, j: nat, p: Path): Label<A>
    requires ViewOk(h, v) && j < |v.ins|
    decreases 2 * (Longest(v.before) + |p|) + 1, v.level, 0, 1
  {
    InAt(h, v.ins[j], v.i, v.before[j] + p, v.level)
  }

  /** The label of a call's result. */
  ghost function FunAt<A(!new)>(h: Graph<A>, f: Fun<A>, v: View<A>, p: Path): Label<A>
    requires ViewOk(h, v) && FunOk(f, |v.ins|)
    decreases 2 * (Longest(v.before) + |p|) + 1, v.level, 1, f
  {
    match f
    case Arg(j) => Seen(h, v, j, p)
    case Lit(x) => Leaf(x)
    case Prim(g, args) => CombineAll(g, seq(|args|, k requires 0 <= k < |args| => FunAt(h, args[k], v, p)))
    case Listing(items) =>
      if p == [] then Nest
      else if p[0] < |items| then FunAt(h, items[p[0]], v, p[1..]) else Absent
  }

  /** Some argument has nothing there. */
  ghost predicate Missing<A(!new)>(h: Graph<A>, v: View<A>)
    requires ViewOk(h, v)
    decreases 2 * Longest(v.before) + 1, v.level, 1, 1
  {
    exists j :: 0 <= j < |v.ins| && Seen(h, v, j, []).Absent?
  }

  /** Argument j is iterated at the level of the bit: it is marked there, and is a list. */
  ghost predicate Iterated<A(!new)>(h: Graph<A>, v: View<A>, masks: seq<nat>, bit: nat, j: nat)
    requires ViewOk(h, v) && |masks| == |v.ins| && j < |v.ins|
    decreases 2 * Longest(v.before) + 1, v.level, 1, 0
  {
    Bit(masks[j], bit) && Seen(h, v, j, []).Nest?
  }

  /** There is no level left, or no argument to iterate at the next one. */
  ghost predicate Settled<A(!new)>(h: Graph<A>, v: View<A>, masks: seq<nat>, bit: nat, below: nat)
    requires ViewOk(h, v) && |masks| == |v.ins|
    decreases 2 * Longest(v.before) + 1, v.level, 1, 1
  {
    below == 0 || forall j :: 0 <= j < |v.ins| ==> !Iterated(h, v, masks, bit, j)
  }

  /** One level down, at index k: the arguments iterated there are indexed, the others stay. */
  ghost function Deeper<A(!new)>(h: Graph<A>, v: View<A>, masks: seq<nat>, bit: nat, k: nat): (r: View<A>)
    requires ViewOk(h, v) && |masks| == |v.ins|
    ensures ViewOk(h, r) && r.ins == v.ins && r.level == v.level && r.i == v.i
    ensures forall j :: 0 <= j < |v.ins| ==> |r.before[j]| <= |v.before[j]| + 1
    decreases 2 * Longest(v.before) + 1, v.level, 1, 1
  {
    v.(before := seq(|v.ins|, j requires 0 <= j < |v.ins| =>
      if Iterated(h, v, masks, bit, j) then v.before[j] + [k] else v.before[j]))
  }

  /**
    The label of a mapped element: with no level left, or no argument to iterate at the next one, a
    call; otherwise a list, whose elements lie one level down.
   */
  ghost function EachAt<A(!new)>(h: Graph<A>, f: Fun<A>, v: View<A>, masks: seq<nat>, bit: nat, below: nat,
          p: Path): Label<A>
    requires ViewOk(h, v) && |masks| == |v.ins| && FunOk(f, |v.ins|)
    decreases 2 * (Longest(v.before) + |p|) + 1, v.level, 2, below
  {
    if Missing(h, v) then Absent
    else if Settled(h, v, masks, bit, below) then FunAt(h, f, v, p)
    else if p == [] then Nest
    else
      var deeper := Deeper(h, v, masks, bit, p[0]);
      LongestGrows(v.before, deeper.before);
      EachAt(h, f, deeper, masks, bit + 1, below - 1, p[1..])
  }

  ghost function ScanAt<A(!new)>(h: Graph<A>, op: Op<A>, acc: Option<V<A>>, a: In<A>, i: nat, p: Path,
          level: nat): Label<A>
    requires WF(h) && InOk(h, a, level) && OptValid(h, acc)
    decreases 2 * |p| + 1, level, 0, i + 1
  {
    var l := InAt(h, a, i, p, level);
    if i > 0 then Combine(op, ScanAt(h, op, acc, a, i - 1, p, level), l)
    else if acc.None? then l else Combine(op, Obs(h, acc.value, p), l)
  }

  ghost function SeriesAt<A(!new)>(h: Graph<A>, op: Op<A>, z: V<A>, step: V<A>, i: nat, p: Path): Label<A>
    requires WF(h) && Valid(h, z) && Valid(h, step)
    decreases 2 * |p| + 1, 0, 0, i + 1
  {
    if i == 0 then Obs(h, z, p) else Combine(op, SeriesAt(h, op, z, step, i - 1, p), Obs(h, step, p))
  }

  // ---------- changing the heap without changing what lists denote ----------

  /** Everything but node n, and the generator it waits for, is as it was; new nodes may have come. */
  ghost predicate Framed<A(!new)>(h: Graph<A>, k: Graph<A>, n: nat) {
    |h.cells| <= |k.cells| && |h.gens| <= |k.gens| && k.flagged == h.flagged &&
    (forall m :: 0 <= m < |h.cells| ==>
      k.cells[m].level == h.cells[m].level && k.cells[m].finite == h.cells[m].finite) &&
    (forall m :: 0 <= m < |h.cells| && m != n ==> k.cells[m] == h.cells[m]) &&
    (forall g :: 0 <= g < |h.gens| && !(n < |h.cells| && h.cells[n].body == Thunk(g)) ==> k.gens[g] == h.gens[g])
  }

  /** From index c on, the list at n reads as k's node m, which may be a new thunk. */
  ghost predicate Continues<A(!new)>(h: Graph<A>, k: Graph<A>, n: nat, c: nat, m: nat)
    requires WF(h) && WF(k) && n < |h.cells| && m < |k.cells|
  {
    if m < |h.cells| then forall i, p :: At(h, m, i, p) == At(h, n, c + i, p)
    else k.cells[m].body.Thunk? && CellOk(k, m) && Resumes(h, n, c, k.gens[k.cells[m].body.gen])
  }
  ghost predicate Resumes<A(!new)>(h: Graph<A>, n: nat, c: nat, g: Gen<A>)
    requires WF(h) && n < |h.cells|
  {
    if g.done then forall i, p :: i >= c ==> At(h, n, i, p) == Absent
    else GenOk(h, g) && forall i, p :: GenAt(h, g, i, p) == At(h, n, c + i, p)
  }

  /** What node n holds in k is what it stood for in h. */
  ghost predicate Refilled<A(!new)>(h: Graph<A>, k: Graph<A>, n: nat)
    requires WF(h) && WF(k) && Framed(h, k, n) && n < |h.cells|
  {
    k.cells[n].body.Filled? && CellOk(k, n) &&
    var items, next := k.cells[n].body.items, k.cells[n].body.next;
    (forall j :: 0 <= j < |items| ==> Valid(h, items[j]) && forall p :: Obs(h, items[j], p) == At(h, n, j, p)) &&
    match next
    case End => forall i, p :: i >= |items| ==> At(h, n, i, p) == Absent
    case To(m) => Continues(h, k, n, |items|, m)
  }

  ghost predicate Step<A(!new)>(h: Graph<A>, k: Graph<A>, n: nat) {
    WF(h) && WF(k) && Framed(h, k, n) && (n < |h.cells| ==> Refilled(h, k, n))
  }

  /** The two heaps read alike along paths shorter than len, and along paths of that length below the level. */
  ghost predicate Agree<A(!new)>(h: Graph<A>, k: Graph<A>, level: nat, len: nat) {
    WF(h) && WF(k) && |h.cells| <= |k.cells| &&
    (forall m :: 0 <= m < |h.cells| ==> k.cells[m].level == h.cells[m].level) &&
    forall m: nat, i, p: Path ::
      m < |h.cells| && (|p| < len || (|p| == len && h.cells[m].level < level)) ==> At(k, m, i, p) == At(h, m, i, p)
  }

  lemma ObsAgrees<A(!new)>(h: Graph<A>, k: Graph<A>, level: nat, len: nat, v: V<A>, p: Path)
    requires Agree(h, k, level, len) && Valid(h, v) && |p| <= len
    ensures Valid(k, v) && Obs(k, v, p) == Obs(h, v, p)
  {}

  lemma InAgrees<A(!new)>(h: Graph<A>, k: Graph<A>, level: nat, len: nat, a: In<A>, i: nat, p: Path)
    requires Agree(h, k, level, len) && InOk(h, a, level) && |p| <= len
    ensures InOk(k, a, level) && InAt(k, a, i, p, level) == InAt(h, a, i, p, level)
  {
    if a.Const? { ObsAgrees(h, k, level, len, a.v, p); }
  }

  lemma {:induction false} ScanAgrees<A(!new)>(h: Graph<A>, k: Graph<A>, level: nat, op: Op<A>, acc: Option<V<A>>,
          a: In<A>, i: nat, p: Path)
    requires Agree(h, k, level, |p|) && InOk(h, a, level) && OptValid(h, acc)
    ensures InOk(k, a, level) && OptValid(k, acc) &&
      ScanAt(k, op, acc, a, i, p, level) == ScanAt(h, op, acc, a, i, p, level)
    decreases i
  {
    InAgrees(h, k, level, |p|, a, i, p);
    if acc.Some? { ObsAgrees(h, k, level, |p|, acc.value, p); }
    if i > 0 { ScanAgrees(h, k, level, op, acc, a, i - 1, p); }
  }

  lemma {:induction false} SeriesAgrees<A(!new)>(h: Graph<A>, k: Graph<A>, level: nat, op: Op<A>, z: V<A>, step: V<A>,
          i: nat, p: Path)
    requires Agree(h, k, level, |p|) && Valid(h, z) && Valid(h, step)
    ensures SeriesAt(k, op, z, step, i, p) == SeriesAt(h, op, z, step, i, p)
    decreases i
  {
    ObsAgrees(h, k, level, |p|, z, p);
    ObsAgrees(h, k, level, |p|, step, p);
    if i > 0 { SeriesAgrees(h, k, level, op, z, step, i - 1, p); }
  }

  /** Both heaps see the arguments alike, along paths up to the given length. */
  ghost predicate SameViews<A(!new)>(h: Graph<A>, k: Graph<A>, v: View<A>, len: nat) {
    ViewOk(h, v) && ViewOk(k, v) && forall j :: 0 <= j < |v.ins| ==> SameView(h, k, v.ins[j], v.i, v.level, len)
  }
  ghost predicate SameView<A(!new)>(h: Graph<A>, k: Graph<A>, a: In<A>, i: nat, level: nat, len: nat)
    requires WF(h) && WF(k) && InOk(h, a, level) && InOk(k, a, level)
  {
    forall q: Path :: |q| <= len ==> InAt(k, a, i, q, level) == InAt(h, a, i, q, level)
  }
  predicate Within<A>(v: View<A>, len: int) { forall j :: 0 <= j < |v.before| ==> |v.before[j]| <= len }

  lemma SeenAgrees<A(!new)>(h: Graph<A>, k: Graph<A>, v: View<A>, j: nat, p: Path, len: nat)
    requires SameViews(h, k, v, len) && j < |v.ins| && Within(v, len - |p|)
    ensures Seen(k, v, j, p) == Seen(h, v, j, p)
  {
    assert SameView(h, k, v.ins[j], v.i, v.level, len) && |v.before[j] + p| <= len;
  }

  lemma {:induction false} FunAgrees<A(!new)>(h: Graph<A>, k: Graph<A>, f: Fun<A>, v: View<A>, p: Path, len: nat)
    requires SameViews(h, k, v, len) && FunOk(f, |v.ins|) && Within(v, len - |p|)
    ensures FunAt(k, f, v, p) == FunAt(h, f, v, p)
    decreases f
  {
    match f
    case Arg(j) => SeenAgrees(h, k, v, j, p, len);
    case Lit(_) =>
    case Prim(_, args) =>
      forall c | 0 <= c < |args| ensures FunAt(k, args[c], v, p) == FunAt(h, args[c], v, p) {
        FunAgrees(h, k, args[c], v, p, len);
      }
      assert seq(|args|, c requires 0 <= c < |args| => FunAt(k, args[c], v, p))
          == seq(|args|, c requires 0 <= c < |args| => FunAt(h, args[c], v, p));
    case Listing(items) => if p != [] && p[0] < |items| { FunAgrees(h, k, items[p[0]], v, p[1..], len); }
  }

  lemma PlaceAgrees<A(!new)>(h: Graph<A>, k: Graph<A>, v: View<A>, masks: seq<nat>, bit: nat, below: nat, len: nat)
    requires SameViews(h, k, v, len) && |masks| == |v.ins| && Within(v, len)
    ensures Missing(k, v) == Missing(h, v) && Settled(k, v, masks, bit, below) == Settled(h, v, masks, bit, below)
    ensures forall c :: Deeper(k, v, masks, bit, c) == Deeper(h, v, masks, bit, c)
  {
    forall j | 0 <= j < |v.ins| ensures Seen(k, v, j, []) == Seen(h, v, j, []) { SeenAgrees(h, k, v, j, [], len); }
    forall j | 0 <= j < |v.ins| ensures Iterated(k, v, masks, bit, j) == Iterated(h, v, masks, bit, j) {}
    forall c ensures Deeper(k, v, masks, bit, c) == Deeper(h, v, masks, bit, c) {
      assert Deeper(k, v, masks, bit, c).before == Deeper(h, v, masks, bit, c).before;
    }
  }

  lemma {:induction false} EachAgrees<A(!new)>(h: Graph<A>, k: Graph<A>, f: Fun<A>, v: View<A>, masks: seq<nat>,
          bit: nat, below: nat, p: Path, len: nat)
    requires SameViews(h, k, v, len) && |masks| == |v.ins| && FunOk(f, |v.ins|) && Within(v, len - |p|)
    ensures EachAt(k, f, v, masks, bit, below, p) == EachAt(h, f, v, masks, bit, below, p)
    decreases below
  {
    PlaceAgrees(h, k, v, masks, bit, below, len);
    if Missing(h, v) {
    } else if Settled(h, v, masks, bit, below) {
      FunAgrees(h, k, f, v, p, len);
    } else if p != [] {
      EachAgrees(h, k, f, Deeper(h, v, masks, bit, p[0]), masks, bit + 1, below - 1, p[1..], len);
    }
  }

  lemma GenAgrees<A(!new)>(h: Graph<A>, k: Graph<A>, g: Gen<A>, i: nat, p: Path)
    requires Agree(h, k, g.level, |p|) && GenOk(h, g)
    ensures GenOk(k, g) && GenAt(k, g, i, p) == GenAt(h, g, i, p)
  {
    forall j, c: nat, q: Path | 0 <= j < |g.ins| && |q| <= |p|
      ensures InOk(k, g.ins[j], g.level) && InAt(k, g.ins[j], c, q, g.level) == InAt(h, g.ins[j], c, q, g.level) {
      InAgrees(h, k, g.level, |p|, g.ins[j], c, q);
    }
    match g.kind
    case Unary(_) =>
    case Binary(_) =>
    case Linked(_) =>
      assert InTrail(k, g.ins[0], i, p, g.level) == InTrail(h, g.ins[0], i, p, g.level);
      assert InTrail(k, g.ins[1], i, p, g.level) == InTrail(h, g.ins[1], i, p, g.level);
    case Scan(op, acc) => ScanAgrees(h, k, g.level, op, acc, g.ins[0], i, p);
    case IScan(op, z, once) =>
      ObsAgrees(h, k, g.level, |p|, z, p);
      if !once || i > 0 { ScanAgrees(h, k, g.level, op, Some(z), g.ins[0], if once then i - 1 else i, p); }
    case Pairs(op, acc) => if acc.Some? { ObsAgrees(h, k, g.level, |p|, acc.value, p); }
    case IPairs(op, z, once) => ObsAgrees(h, k, g.level, |p|, z, p);
    case Mapper(f) =>
      assert InRow(k, g.ins, i, p, g.level) == InRow(h, g.ins, i, p, g.level);
    case Series(op, z, step) => SeriesAgrees(h, k, g.level, op, z, step, i, p);
    case Each(f, masks, bit, below) =>
      EachAgrees(h, k, f, View(g.ins, i, NoPaths(|g.ins|), g.level), masks, bit, below, p, |p|);
  }

  /** A step leaves every label of every old list as it was. */
  lemma {:induction false} StepKeepsLabels<A(!new)>(h: Graph<A>, k: Graph<A>, n: nat, m: nat, i: nat, p: Path)
    requires Step(h, k, n) && m < |h.cells|
    ensures At(k, m, i, p) == At(h, m, i, p)
    decreases |p|, h.cells[m].level, |h.cells| - m
  {
    forall c: nat, j, q: Path | c < |h.cells| && (|q| < |p| || (|q| == |p| && h.cells[c].level < h.cells[m].level))
      ensures At(k, c, j, q) == At(h, c, j, q) {
      StepKeepsLabels(h, k, n, c, j, q);
    }
    var level := h.cells[m].level;
    assert Agree(h, k, level, |p|);
    assert CellOk(h, m) && CellOk(k, m);
    if m == n {
      var items, next := k.cells[n].body.items, k.cells[n].body.next;
      if i < |items| { ObsAgrees(h, k, level, |p|, items[i], p); }
      else if next.To? && next.id < |h.cells| { StepKeepsLabels(h, k, n, next.id, i - |items|, p); }
      else if next.To? { NewThunk(h, k, n, next.id, i - |items|, p); }
    } else {
      assert k.cells[m] == h.cells[m];
      match h.cells[m].body
      case Thunk(g) =>
        assert GenWaits(h, g);
        assert n < |h.cells| ==> CellOk(h, n);
        assert k.gens[g] == h.gens[g];
        if !h.gens[g].done { GenAgrees(h, k, h.gens[g], i, p); }
      case Filled(items, next) =>
        if i < |items| { ObsAgrees(h, k, level, |p|, items[i], p); }
        else if next.To? { StepKeepsLabels(h, k, n, next.id, i - |items|, p); }
    }
  }

  lemma NewThunk<A(!new)>(h: Graph<A>, k: Graph<A>, n: nat, m: nat, i: nat, p: Path)
    requires WF(h) && WF(k) && n < |h.cells| <= |k.cells| && m < |k.cells| && k.cells[m].body.Thunk? &&
      k.cells[n].body.Filled?
    requires k.cells[m].level <= h.cells[n].level && Agree(h, k, h.cells[n].level, |p|)
    requires CellOk(k, m) && Resumes(h, n, |k.cells[n].body.items|, k.gens[k.cells[m].body.gen])
    ensures At(k, m, i, p) == At(h, n, |k.cells[n].body.items| + i, p)
  {
    var g := k.cells[m].body.gen;
    assert GenWaits(k, g);
    if !k.gens[g].done { GenAgrees(h, k, k.gens[g], i, p); }
  }
}
