/**
  Whole runs of the lazy store: any sequence of operators, forced nodes and reads, with any number of
  readers taking blocks or single elements in turn.
 */
module LazySessions {
  import opened Basics
  import opened Masks
  import opened LazyLists
  import opened LazyStore
  import opened LazyTurns
  import opened LazyEach
  import opened LazyRun
  import opened EachMapping

  // ---------- acts ----------

  /** The operations that make values. */
  datatype Operation<!A> =
    | ApplyOne(g: A -> A, a: V<A>)
    | ApplyTwo(op: Op<A>, a: V<A>, b: V<A>)
    | ApplyAll(f: seq<A> -> A, row: seq<V<A>>)
    | FoldList(kind: Kind<A>, n: nat)
    | Grow(op: Op<A>, start: V<A>, step: V<A>)
    | Apply(fun: Fun<A>, row: seq<V<A>>)
    | MapEach(fun: Fun<A>, args: seq<Operand<A>>)

  /** What may happen next: an operation, a node forced, a reader opened on a value, or one that reads on. */
  datatype Act<!A> =
    | Operate(o: Operation<A>)
    | ForceNode(n: nat)
    | Open(v: V<A>)
    | ReadBlock(r: nat, want: Size)
    | ReadOne(r: nat)

  predicate KindValid<A>(h: Graph<A>, kind: Kind<A>) {
    match kind
    case IScan(_, z, _) => Valid(h, z)
    case IPairs(_, z, _) => Valid(h, z)
    case _ => true
  }

  /** The operands exist. */
  predicate CanRun<A>(h: Graph<A>, o: Operation<A>) {
    match o
    case ApplyOne(_, a) => Valid(h, a)
    case ApplyTwo(_, a, b) => Valid(h, a) && Valid(h, b)
    case ApplyAll(_, row) => AllValid(h, row)
    case FoldList(kind, n) => n < |h.cells| && IsFold(kind) && KindValid(h, kind)
    case Grow(_, start, step) => Valid(h, start) && Valid(h, step)
    case Apply(f, row) => AllValid(h, row) && FunOk(f, |row|)
    case MapEach(f, args) => AllValid(h, Values(args)) && FunOk(f, |args|)
  }

  /** The shortcuts of its operator agree with it; scans and series are not made of linked operators. */
  ghost predicate Lawful<A(!new)>(o: Operation<A>) {
    match o
    case ApplyTwo(op, _, _) => Faithful(op)
    case FoldList(kind, _) => IsFold(kind) ==> Faithful(kind.op) && !kind.op.linked
    case Grow(op, _, _) => Faithful(op) && !op.linked
    case _ => true
  }

  /** An operation whose finite mark is right when those of its operands are. */
  ghost predicate MarksRight<A(!new)>(o: Operation<A>) {
    (o.ApplyTwo? ==> !o.op.linked) && (o.MapEach? ==> Used(MaskList(o.args), 0))
  }

  /** An operation whose list is marked exactly if it ends, when its operands' are. */
  ghost predicate MarksExact<A(!new)>(o: Operation<A>) { (o.ApplyTwo? ==> !o.op.linked) && !o.MapEach? }

  // ---------- results ----------

  /** The value shows what the operation is to make of its operands. */
  ghost predicate Right<A(!new)>(h: Graph<A>, o: Operation<A>, v: V<A>, block: Size) {
    WF(h) && CanRun(h, o) && Lawful(o) && Valid(h, v) &&
    match o
    case ApplyOne(g, a) => forall p :: Obs(h, v, p) == Apply1(g, Obs(h, a, p))
    case ApplyTwo(op, a, b) => forall p :: Obs(h, v, p) == OpLabel(h, op, a, b, p)
    case ApplyAll(f, row) => forall p :: Obs(h, v, p) == CombineAll(f, ObsAll(h, row, p))
    case FoldList(kind, n) => Made(h, ListGen(h, kind, n, block), v)
    case Grow(op, start, step) => v.Ref? && forall i, p :: At(h, v.id, i, p) == SeriesAt(h, op, start, step, i, p)
    case Apply(f, row) => forall p :: Obs(h, v, p) == CallAt(h, f, row, p)
    case MapEach(f, args) => Made(h, TopMapper(h, f, Values(args), MaskList(args), block), v)
  }

  /** The value is a list that reads as the generator. */
  ghost predicate Made<A(!new)>(h: Graph<A>, g: Gen<A>, v: V<A>)
    requires WF(h)
  {
    v.Ref? && v.id < |h.cells| && GenOk(h, g) && forall i, p :: At(h, v.id, i, p) == GenAt(h, g, i, p)
  }

  lemma MadeKept<A(!new)>(h: Graph<A>, k: Graph<A>, g: Gen<A>, v: V<A>)
    requires Keeps(h, k) && Made(h, g, v)
    ensures Made(k, g, v)
  {
    GenKept(h, k, g, 0, []);
    forall i, p ensures At(k, v.id, i, p) == GenAt(k, g, i, p) {
      GenKept(h, k, g, i, p);
      assert At(k, v.id, i, p) == At(h, v.id, i, p);
    }
  }

  lemma NewMade<A(!new)>(h: Graph<A>, k: Graph<A>, g: Gen<A>, v: V<A>)
    requires Keeps(h, k) && GenOk(h, g) && v.Ref? && Valid(k, v) &&
      forall i, p :: At(k, v.id, i, p) == GenAt(h, g, i, p)
    ensures Made(k, g, v)
  {
    GenKept(h, k, g, 0, []);
    forall i, p ensures At(k, v.id, i, p) == GenAt(k, g, i, p) { GenKept(h, k, g, i, p); }
  }

  lemma EachMade<A(!new)>(h: Graph<A>, f: Fun<A>, row: seq<V<A>>, masks: seq<nat>, block: Size)
    requires WF(h) && AllValid(h, row) && FunOk(f, |row|) && |masks| == |row|
    ensures var k := NewGen(h, TopMapper(h, f, row, masks, block));
      WF(k) && AllValid(k, row) && Made(k, TopMapper(k, f, row, masks, block), Ref(|h.cells|))
  {
    var g := TopMapper(h, f, row, masks, block);
    var k := NewGen(h, g);
    TopMapperKeeps(h, f, row, masks, block);
    NewGenKeeps(h, g);
    NewMade(h, k, g, Ref(|h.cells|));
    TopMapperKept(h, k, f, row, masks, block);
  }

  lemma ObsAllKept<A(!new)>(h: Graph<A>, k: Graph<A>, row: seq<V<A>>, p: Path)
    requires Keeps(h, k) && AllValid(h, row)
    ensures AllValid(k, row) && ObsAll(k, row, p) == ObsAll(h, row, p)
  {
    forall j | 0 <= j < |row| ensures Valid(k, row[j]) && Obs(k, row[j], p) == Obs(h, row[j], p) {
      ObsKept(h, k, row[j], p);
    }
  }

  lemma {:induction false} AboveKept<A(!new)>(h: Graph<A>, k: Graph<A>, ins: seq<In<A>>)
    requires Keeps(h, k) && forall j :: 0 <= j < |ins| ==> Exists(h, ins[j])
    ensures forall j :: 0 <= j < |ins| ==> Exists(k, ins[j])
    ensures Above(k, ins) == Above(h, ins)
  {
    if ins != [] {
      assert Exists(h, ins[0]) && forall j :: 0 <= j < |ins| - 1 ==> ins[1..][j] == ins[j + 1];
      AboveKept(h, k, ins[1..]);
    }
  }

  lemma TopMapperKept<A(!new)>(h: Graph<A>, k: Graph<A>, f: Fun<A>, row: seq<V<A>>, masks: seq<nat>, block: Size)
    requires Keeps(h, k) && AllValid(h, row) && |masks| == |row|
    ensures AllValid(k, row) && TopMapper(k, f, row, masks, block) == TopMapper(h, f, row, masks, block)
  {
    var ins := SubIns(row, masks, 0);
    forall j | 0 <= j < |ins| ensures Exists(h, ins[j]) { assert Valid(h, row[j]); }
    AboveKept(h, k, ins);
    forall j | 0 <= j < |row| ensures Marked(k, row[j]) == Marked(h, row[j]) { assert Valid(h, row[j]); }
  }

  lemma SeriesKept<A(!new)>(h: Graph<A>, k: Graph<A>, op: Op<A>, start: V<A>, step: V<A>, v: V<A>)
    requires Keeps(h, k) && Valid(h, start) && Valid(h, step) && v.Ref? && Valid(h, v)
    requires forall i, p :: At(h, v.id, i, p) == SeriesAt(h, op, start, step, i, p)
    ensures forall i, p :: At(k, v.id, i, p) == SeriesAt(k, op, start, step, i, p)
  {
    forall i, p ensures At(k, v.id, i, p) == SeriesAt(k, op, start, step, i, p) {
      SeriesAgrees(h, k, 0, op, start, step, i, p);
      assert At(k, v.id, i, p) == At(h, v.id, i, p);
    }
  }

  lemma RightKept<A(!new)>(h: Graph<A>, k: Graph<A>, o: Operation<A>, v: V<A>, block: Size)
    requires Keeps(h, k) && Right(h, o, v, block)
    ensures Right(k, o, v, block)
  {
    ObsKept(h, k, v, []);
    match o
    case ApplyOne(g, a) =>
      forall p ensures Obs(k, v, p) == Apply1(g, Obs(k, a, p)) { ObsKept(h, k, v, p); ObsKept(h, k, a, p); }
    case ApplyTwo(op, a, b) =>
      forall p ensures Obs(k, v, p) == OpLabel(k, op, a, b, p) { ObsKept(h, k, v, p); OpLabelKept(h, k, op, a, b, p); }
    case ApplyAll(f, row) =>
      forall p ensures Obs(k, v, p) == CombineAll(f, ObsAll(k, row, p)) {
        ObsKept(h, k, v, p);
        ObsAllKept(h, k, row, p);
      }
    case FoldList(kind, n) => MadeKept(h, k, ListGen(h, kind, n, block), v);
    case Grow(op, start, step) => SeriesKept(h, k, op, start, step, v);
    case Apply(f, row) =>
      forall p ensures AllValid(k, row) && Obs(k, v, p) == CallAt(k, f, row, p) {
        ObsKept(h, k, v, p);
        CallKept(h, k, f, row, p);
      }
    case MapEach(f, args) =>
      TopMapperKept(h, k, f, Values(args), MaskList(args), block);
      MadeKept(h, k, TopMapper(h, f, Values(args), MaskList(args), block), v);
  }

  // ---------- operations ----------

  method Pointwise<A(!new)>(s: Store<A>, o: Operation<A>) returns (v: V<A>)
    requires WF(s.graph) && CanRun(s.graph, o) && Lawful(o) && (o.ApplyOne? || o.ApplyTwo? || o.ApplyAll?)
    modifies s
    ensures Keeps(old(s.graph), s.graph) && (MarksRight(o) ==> StaysHonest(old(s.graph), s.graph))
    ensures MarksExact(o) ==> StaysExact(old(s.graph), s.graph)
    ensures Right(s.graph, o, v, s.block)
  {
    ghost var h := s.graph;
    match o
    case ApplyOne(g, a) =>
      v := s.UnaryOp(g, a);
      forall p ensures Obs(s.graph, v, p) == Apply1(g, Obs(s.graph, a, p)) { ObsKept(h, s.graph, a, p); }
    case ApplyTwo(op, a, b) =>
      v := s.BinaryOp(op, a, b);
      forall p ensures Obs(s.graph, v, p) == OpLabel(s.graph, op, a, b, p) { OpLabelKept(h, s.graph, op, a, b, p); }
    case ApplyAll(f, row) =>
      v := s.Multichannel(f, row);
      forall p ensures Obs(s.graph, v, p) == CombineAll(f, ObsAll(s.graph, row, p)) { ObsAllKept(h, s.graph, row, p); }
  }

  method Perform<A(!new)>(s: Store<A>, o: Operation<A>) returns (r: Option<V<A>>)
    requires WF(s.graph) && CanRun(s.graph, o) && Lawful(o)
    modifies s
    ensures Keeps(old(s.graph), s.graph) && (MarksRight(o) ==> StaysHonest(old(s.graph), s.graph))
    ensures MarksExact(o) ==> StaysExact(old(s.graph), s.graph)
    ensures r.Some? ==> Right(s.graph, o, r.value, s.block)
    ensures r.None? <==> o.MapEach? && !Accepts(Combined(MaskList(o.args)))
  {
    ghost var h := s.graph;
    match o
    case FoldList(kind, n) =>
      var v := s.Fold(kind, n);
      NewMade(h, s.graph, ListGen(h, kind, n, s.block), v);
      r := Some(v);
    case Grow(op, start, step) =>
      var v := s.NewSeries(op, start, step);
      forall i, p ensures At(s.graph, v.id, i, p) == SeriesAt(s.graph, op, start, step, i, p) {
        SeriesAgrees(h, s.graph, 0, op, start, step, i, p);
      }
      r := Some(v);
    case Apply(f, row) =>
      var v := s.Call(f, row);
      forall p ensures AllValid(s.graph, row) && Obs(s.graph, v, p) == CallAt(s.graph, f, row, p) {
        CallKept(h, s.graph, f, row, p);
      }
      r := Some(v);
    case MapEach(f, args) =>
      EachMade(s.graph, f, Values(args), MaskList(args), s.block);
      r := HandleEachOps(s, f, args);
    case _ =>
      var v := Pointwise(s, o);
      r := Some(v);
  }

  // ---------- readers ----------

  /** A reader keeps its cursor, and what it has read so far; done once it has been told there is no more. */
  datatype Reader<A> = Reader(start: V<A>, cursor: In<A>, level: nat, got: seq<V<A>>, done: bool)

  /** A reader has read the first elements of its list, and its cursor stands just after them. */
  ghost predicate Reads<A(!new)>(h: Graph<A>, r: Reader<A>) {
    WF(h) && Valid(h, r.start) && Normal(h, r.cursor) && Moved(h, Input(r.start), |r.got|, r.cursor, r.level) &&
    Chunk(h, Input(r.start), r.level, r.got) && (r.done ==> Ended(h, r.cursor, r.level))
  }

  lemma ReadsKept<A(!new)>(h: Graph<A>, k: Graph<A>, r: Reader<A>)
    requires Keeps(h, k) && Reads(h, r)
    ensures Reads(k, r)
  {
    MovedKept(h, k, Input(r.start), |r.got|, r.cursor, r.level);
    ChunkKept(h, k, Input(r.start), r.level, r.got);
    if r.done {
      forall i, p ensures InAt(k, r.cursor, i, p, r.level) == Absent { InKept(h, k, r.cursor, i, p, r.level); }
    }
  }

  lemma ChunkKept<A(!new)>(h: Graph<A>, k: Graph<A>, a: In<A>, level: nat, chunk: seq<V<A>>)
    requires Keeps(h, k) && Chunk(h, a, level, chunk)
    ensures Chunk(k, a, level, chunk)
  {
    InKept(h, k, a, 0, [], level);
    forall j | 0 <= j < |chunk|
      ensures Valid(k, chunk[j]) && forall p :: Obs(k, chunk[j], p) == InAt(k, a, j, p, level) {
      forall p ensures Obs(k, chunk[j], p) == InAt(k, a, j, p, level) {
        ObsKept(h, k, chunk[j], p);
        InKept(h, k, a, j, p, level);
      }
    }
  }

  /** What is read next goes after what has been read. */
  lemma ReadsOn<A(!new)>(h: Graph<A>, r: Reader<A>, chunk: seq<V<A>>, b: In<A>)
    requires Reads(h, r) && !r.done && Chunk(h, r.cursor, r.level, chunk) && Moved(h, r.cursor, |chunk|, b, r.level) &&
      Normal(h, b)
    ensures Reads(h, r.(got := r.got + chunk, cursor := b))
  {
    var a := Input(r.start);
    MovedOn(h, a, |r.got|, r.cursor, |chunk|, b, r.level);
    var all := r.got + chunk;
    forall j | 0 <= j < |all| ensures Valid(h, all[j]) && forall p :: Obs(h, all[j], p) == InAt(h, a, j, p, r.level) {
      if j >= |r.got| {
        var c := j - |r.got|;
        forall p ensures Obs(h, all[j], p) == InAt(h, a, j, p, r.level) {
          assert Obs(h, chunk[c], p) == InAt(h, r.cursor, c, p, r.level) &&
            Shifted(h, a, |r.got|, r.cursor, r.level, c, p);
        }
      }
    }
  }

  lemma Opened<A(!new)>(h: Graph<A>, v: V<A>)
    requires WF(h) && Valid(h, v)
    ensures Reads(h, Reader(v, Input(v), Above(h, [Input(v)]), [], false))
  {
    var a, level := Input(v), Above(h, [Input(v)]);
    assert InOk(h, [a][0], level);
    forall i: nat, p: Path ensures Shifted(h, a, 0, a, level, i, p) {}
  }

  // ---------- sessions ----------

  /** An operation that has run, and its result. */
  datatype Ran<!A> = Ran(o: Operation<A>, v: V<A>)

  ghost predicate AllRight<A(!new)>(h: Graph<A>, log: seq<Ran<A>>, block: Size) {
    forall c :: 0 <= c < |log| ==> Right(h, log[c].o, log[c].v, block)
  }
  ghost predicate AllRead<A(!new)>(h: Graph<A>, readers: seq<Reader<A>>) {
    forall c :: 0 <= c < |readers| ==> Reads(h, readers[c])
  }

  /** A state of a run. */
  datatype Moment<!A> = Moment(graph: Graph<A>, readers: seq<Reader<A>>, log: seq<Ran<A>>)

  ghost predicate Sound<A(!new)>(m: Moment<A>, block: Size) {
    WF(m.graph) && AllRead(m.graph, m.readers) && AllRight(m.graph, m.log, block)
  }

  /** A reader that reads on gets some more elements, or learns that there are none. */
  predicate ReadOn<A(==)>(r: Reader<A>, q: Reader<A>, want: Size) {
    q.start == r.start &&
    if q.done then q.got == r.got else r.got < q.got && |q.got| <= |r.got| + want
  }

  predicate ReaderMoves<A(==)>(before: seq<Reader<A>>, after: seq<Reader<A>>, c: nat, want: Size) {
    if c < |before| && !before[c].done then
      |after| == |before| && ReadOn(before[c], after[c], want) && after == before[c := after[c]]
    else
      after == before
  }

  /** An act takes effect, unless what it names does not exist. */
  ghost predicate Effect<A(!new)>(m: Moment<A>, act: Act<A>, n: Moment<A>) {
    Keeps(m.graph, n.graph) && (act.Operate? || n.log == m.log) &&
    match act
    case Operate(o) =>
      n.readers == m.readers &&
      if CanRun(m.graph, o) && (o.MapEach? ==> Accepts(Combined(MaskList(o.args)))) then
        m.log < n.log && |n.log| == |m.log| + 1 && n.log[|m.log|].o == o
      else
        n.log == m.log
    case ForceNode(i) => n.readers == m.readers && (i < |m.graph.cells| ==> n.graph.cells[i].body.Filled?)
    case Open(v) =>
      if Valid(m.graph, v) then
        m.readers < n.readers && |n.readers| == |m.readers| + 1 && n.readers[|m.readers|].start == v
      else
        n.readers == m.readers
    case ReadBlock(c, want) => ReaderMoves(m.readers, n.readers, c, want)
    case ReadOne(c) => ReaderMoves(m.readers, n.readers, c, 1)
  }

  method Step<A(!new)>(s: Store<A>, act: Act<A>, readers: seq<Reader<A>>, log: seq<Ran<A>>)
    returns (after: seq<Reader<A>>, more: seq<Ran<A>>)
    requires Sound(Moment(s.graph, readers, log), s.block) && (act.Operate? ==> Lawful(act.o))
    modifies s
    ensures Effect(Moment(old(s.graph), readers, log), act, Moment(s.graph, after, more))
    ensures Sound(Moment(s.graph, after, more), s.block)
    ensures !act.Operate? || MarksRight(act.o) ==> StaysHonest(old(s.graph), s.graph)
    ensures !act.Operate? || MarksExact(act.o) ==> StaysExact(old(s.graph), s.graph)
  {
    ghost var h := s.graph;
    after, more := readers, log;
    KeepsAll(h);
    match act
    case Operate(o) =>
      if CanRun(s.graph, o) {
        var v := Perform(s, o);
        RunKeeps(h, s.graph, readers, log, s.block);
        if v.Some? { more := log + [Ran(o, v.value)]; }
      }
    case ForceNode(n) =>
      if n < |s.graph.cells| {
        s.Force(n);
        RunKeeps(h, s.graph, readers, log, s.block);
      }
    case Open(v) =>
      if Valid(s.graph, v) {
        Opened(s.graph, v);
        after := readers + [Reader(v, Input(v), Above(s.graph, [Input(v)]), [], false)];
      }
    case ReadBlock(c, want) =>
      if c < |readers| && !readers[c].done {
        var r := readers[c];
        var b, chunk := s.Read(r.cursor, want, r.level);
        RunKeeps(h, s.graph, readers, log, s.block);
        BlockRead(s.graph, r, b, chunk);
        var next := r.(got := r.got + chunk, cursor := Advance(s.graph, b, |chunk|));
        after := readers[c := if chunk == [] then r.(cursor := b, done := true) else next];
      }
    case ReadOne(c) =>
      if c < |readers| && !readers[c].done {
        var r := readers[c];
        var b, got := s.One(r.cursor, r.level);
        RunKeeps(h, s.graph, readers, log, s.block);
        if got == [] {
          after := readers[c := r.(done := true)];
        } else {
          ReadsOn(s.graph, r, got, b);
          after := readers[c := r.(got := r.got + got, cursor := b)];
        }
      }
  }

  lemma BlockRead<A(!new)>(h: Graph<A>, r: Reader<A>, b: In<A>, chunk: seq<V<A>>)
    requires Reads(h, r) && !r.done && Fetched(h, r.cursor, b, chunk, r.level) && (chunk == [] ==> Ended(h, b, r.level))
    ensures chunk == [] ==> Reads(h, r.(cursor := b, done := true))
    ensures chunk != [] ==> Reads(h, r.(got := r.got + chunk, cursor := Advance(h, b, |chunk|)))
  {
    if chunk == [] {
      MovedOn(h, Input(r.start), |r.got|, r.cursor, 0, b, r.level);
    } else {
      Past(h, r.cursor, b, chunk, r.level, |chunk|);
      ReadsOn(h, r, chunk, Advance(h, b, |chunk|));
    }
  }

  lemma RunKeeps<A(!new)>(h: Graph<A>, k: Graph<A>, readers: seq<Reader<A>>, log: seq<Ran<A>>, block: Size)
    requires Keeps(h, k) && AllRead(h, readers) && AllRight(h, log, block)
    ensures AllRead(k, readers) && AllRight(k, log, block)
  {
    forall c | 0 <= c < |readers| ensures Reads(k, readers[c]) { ReadsKept(h, k, readers[c]); }
    forall c | 0 <= c < |log| ensures Right(k, log[c].o, log[c].v, block) {
      RightKept(h, k, log[c].o, log[c].v, block);
    }
  }

  /**
    Any run, in any order: in the end every result still shows what its operation makes of its
    operands, every reader has read the first elements of its list, and marks are still right.
   */
  method Run<A(!new)>(s: Store<A>, acts: seq<Act<A>>)
    returns (readers: seq<Reader<A>>, log: seq<Ran<A>>, ghost trace: seq<Moment<A>>)
    requires WF(s.graph) && forall t :: 0 <= t < |acts| && acts[t].Operate? ==> Lawful(acts[t].o)
    modifies s
    ensures |trace| == |acts| + 1 && trace[0] == Moment(old(s.graph), [], []) &&
      trace[|acts|] == Moment(s.graph, readers, log)
    ensures forall t :: 0 <= t < |acts| ==> Effect(trace[t], acts[t], trace[t + 1])
    ensures Keeps(old(s.graph), s.graph) && AllRead(s.graph, readers) && AllRight(s.graph, log, s.block)
    ensures (forall t :: 0 <= t < |acts| && acts[t].Operate? ==> MarksRight(acts[t].o)) ==>
      StaysHonest(old(s.graph), s.graph)
    ensures (forall t :: 0 <= t < |acts| && acts[t].Operate? ==> MarksExact(acts[t].o)) ==>
      StaysExact(old(s.graph), s.graph)
  {
    readers, log := [], [];
    trace := [Moment(s.graph, readers, log)];
    KeepsAll(s.graph);
    for t := 0 to |acts|
      invariant |trace| == t + 1 && trace[0] == Moment(old(s.graph), [], []) &&
        trace[t] == Moment(s.graph, readers, log)
      invariant forall u :: 0 <= u < t ==> Effect(trace[u], acts[u], trace[u + 1])
      invariant Keeps(old(s.graph), s.graph) && AllRead(s.graph, readers) && AllRight(s.graph, log, s.block)
      invariant (forall u :: 0 <= u < t && acts[u].Operate? ==> MarksRight(acts[u].o)) ==>
        StaysHonest(old(s.graph), s.graph)
      invariant (forall u :: 0 <= u < t && acts[u].Operate? ==> MarksExact(acts[u].o)) ==>
        StaysExact(old(s.graph), s.graph)
    {
      ghost var h := s.graph;
      readers, log := Step(s, acts[t], readers, log);
      KeepsOn(old(s.graph), h, s.graph);
      trace := trace + [Moment(s.graph, readers, log)];
    }
  }

  /** Readers of the same list in two runs agree, whatever else happened in either. */
  lemma ReadersAgree<A(!new)>(h: Graph<A>, k: Graph<A>, l: Graph<A>, r: Reader<A>, q: Reader<A>, i: nat, p: Path)
    requires Keeps(h, k) && Keeps(h, l) && Reads(k, r) && Reads(l, q) && r.start == q.start && Valid(h, r.start)
    requires i < |r.got| && i < |q.got|
    ensures Obs(k, r.got[i], p) == Obs(l, q.got[i], p)
  {
    ReaderSees(h, k, r, i, p);
    ReaderSees(h, l, q, i, p);
  }

  /** What a reader has got is what its list held at the start of the run. */
  lemma ReaderSees<A(!new)>(h: Graph<A>, k: Graph<A>, r: Reader<A>, i: nat, p: Path)
    requires Keeps(h, k) && Reads(k, r) && Valid(h, r.start) && i < |r.got|
    ensures Obs(k, r.got[i], p) == if r.start.Atom? then Leaf(r.start.x) else At(h, r.start.id, i, p)
  {
    assert Obs(k, r.got[i], p) == InAt(k, Input(r.start), i, p, r.level);
  }

  /** Readers that were told there is no more have read the same number of elements, all there are. */
  lemma DoneReadersGotAll<A(!new)>(h: Graph<A>, k: Graph<A>, r: Reader<A>, i: nat)
    requires Keeps(h, k) && Reads(k, r) && r.done && Valid(h, r.start)
    ensures r.start.Ref? && (At(h, r.start.id, i, []).Absent? <==> i >= |r.got|)
  {
    assert InAt(k, r.cursor, 0, [], r.level) == Absent;
    assert Shifted(k, Input(r.start), |r.got|, r.cursor, r.level, 0, []);
    NotConstant(k, Input(r.start), |r.got|, r.level);
    if i < |r.got| { assert Obs(k, r.got[i], []) == InAt(k, Input(r.start), i, [], r.level); }
    else { assert Shifted(k, Input(r.start), |r.got|, r.cursor, r.level, i - |r.got|, []); }
  }
}
