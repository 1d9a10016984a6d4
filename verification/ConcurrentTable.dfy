/**
  Any number of threads bind and look up keys in one table at the same time.  A step of a thread
  is one atomic load of a tree pointer (with the comparison of the immutable key behind it), or
  one compare-and-swap, which may also fail spuriously.

  Each operation takes effect at one of its own steps: that step appends to a log, and the log is a
  run of the sequential map.  So the table is linearizable.
 */
module ConcurrentTables {
  import opened Basics
  import opened Workspace
  import opened Versions

  datatype Job<+V> = Put(key: int, value: V) | Look(key: int)

  /** `Loading`: about to load the slot; `Swapping`: saw it empty, about to compare-and-swap. */
  datatype Pc<+V> = Loading(slot: Slot) | Swapping(slot: Slot) | PutDone(won: bool) | LookDone(r: Option<V>)

  datatype Thread<+V> = Thread(job: Job<V>, pc: Pc<V>)

  datatype Event<+V> =
    | PutEvent(thread: nat, key: int, value: V, won: bool)
    | LookEvent(thread: nat, key: int, r: Option<V>)

  datatype System<+V> = System(h: Heap<V>, threads: seq<Thread<V>>, log: seq<Event<V>>)

  /** The event of thread `i` when it finishes with `pc`. */
  function EventOf<V>(i: nat, job: Job<V>, pc: Pc<V>): seq<Event<V>> {
    match (job, pc)
    case (Put(k, v), PutDone(won)) => [PutEvent(i, k, v, won)]
    case (Look(k), LookDone(r)) => [LookEvent(i, k, r)]
    case _ => []
  }

  function Finish<V>(s: System<V>, i: nat, pc: Pc<V>): System<V>
    requires i < |s.threads|
  {
    var job := s.threads[i].job;
    s.(threads := s.threads[i := Thread(job, pc)], log := s.log + EventOf(i, job, pc))
  }

  /** One step of thread `i`: an iteration of `GTable::get`, or half an iteration of `GTable::putImpure`. */
  function Step<V>(s: System<V>, i: nat, spurious: bool): System<V>
    requires i < |s.threads|
  {
    var job := s.threads[i].job;
    match s.threads[i].pc
    case Loading(slot) =>
      if !ValidSlot(s.h, slot) then s
      else
        var p := Load(s.h, slot);
        if p.Null? then
          if job.Put? then Finish(s, i, Swapping(slot)) else Finish(s, i, LookDone(None))
        else if p.id >= |s.h.nodes| then s
        else
          var n := s.h.nodes[p.id];
          if n.key == job.key then Finish(s, i, if job.Put? then PutDone(false) else LookDone(Some(n.value)))
          else Finish(s, i, Loading(if job.key < n.key then LeftOf(p.id) else RightOf(p.id)))
    case Swapping(slot) =>
      if !ValidSlot(s.h, slot) || !job.Put? then s
      else if spurious || Load(s.h, slot) != Null then Finish(s, i, Loading(slot))
      else Finish(s.(h := Hang(s.h, slot, job.key, job.value)), i, PutDone(true))
    case PutDone(_) => s
    case LookDone(_) => s
  }

  // ---------- the sequential map ----------

  datatype Replayed<V> = Replayed(legal: bool, m: map<int, V>)

  function Apply<V(==)>(e: Event<V>, r: Replayed<V>): Replayed<V> {
    match e
    case PutEvent(_, k, v, won) =>
      if won then Replayed(r.legal && k !in r.m, r.m[k := v]) else Replayed(r.legal && k in r.m, r.m)
    case LookEvent(_, k, found) =>
      Replayed(r.legal && found == (if k in r.m then Some(r.m[k]) else None), r.m)
  }

  /** The log as a run of a map that starts as `m0`; legal if every answer is the map's answer. */
  function Replay<V(==)>(log: seq<Event<V>>, m0: map<int, V>): Replayed<V> {
    if log == [] then Replayed(true, m0) else Apply(log[|log| - 1], Replay(log[..|log| - 1], m0))
  }

  function EventsOf<V>(log: seq<Event<V>>, i: nat): seq<Event<V>> {
    if log == [] then []
    else EventsOf(log[..|log| - 1], i) + if log[|log| - 1].thread == i then [log[|log| - 1]] else []
  }

  // ---------- invariant ----------

  ghost predicate Gap<V>(h: Heap<V>, s: Slot) {
    ValidSlot(h, s) && Load(h, s).Null?
  }

  ghost predicate Covers<V>(h: Heap<V>, sh: seq<Place>, s: Slot, k: int)
    requires |sh| == |h.nodes| && ValidSlot(h, s)
  {
    Inside(k, SlotPlace(h, sh, s).lo, SlotPlace(h, sh, s).hi)
  }

  /** Every key is bound by at most one node, or lies in the interval of at most one empty slot, never both. */
  ghost predicate Partition<V(!new)>(h: Heap<V>, sh: seq<Place>) {
    && |sh| == |h.nodes| && |h.roots| == 1
    && (forall i, j :: 0 <= i < j < |h.nodes| ==> h.nodes[i].key != h.nodes[j].key)
    && (forall s, j :: Gap(h, s) && 0 <= j < |h.nodes| ==> !Covers(h, sh, s, h.nodes[j].key))
    && (forall s, t, k :: Gap(h, s) && Gap(h, t) && s != t ==> !(Covers(h, sh, s, k) && Covers(h, sh, t, k)))
  }

  /** The nodes of the tree are the bindings of the map. */
  ghost predicate Agrees<V>(h: Heap<V>, m: map<int, V>) {
    && (forall i :: 0 <= i < |h.nodes| ==> h.nodes[i].key in m && m[h.nodes[i].key] == h.nodes[i].value)
    && (forall k :: k in m ==> exists i :: 0 <= i < |h.nodes| && h.nodes[i].key == k)
  }

  /** A running thread stands at a slot whose interval holds its key. */
  ghost predicate ThreadOk<V>(h: Heap<V>, sh: seq<Place>, t: Thread<V>)
    requires |sh| == |h.nodes|
  {
    match t.pc
    case Loading(slot) => ValidSlot(h, slot) && Covers(h, sh, slot, t.job.key)
    case Swapping(slot) => t.job.Put? && ValidSlot(h, slot) && Covers(h, sh, slot, t.job.key)
    case PutDone(_) => t.job.Put?
    case LookDone(_) => t.job.Look?
  }

  ghost predicate Inv<V(!new)>(s: System<V>, sh: seq<Place>, m0: map<int, V>) {
    && Placed(s.h, sh) && Partition(s.h, sh)
    && (forall i :: 0 <= i < |s.threads| ==> ThreadOk(s.h, sh, s.threads[i]))
    && Replay(s.log, m0).legal && Agrees(s.h, Replay(s.log, m0).m)
    && (forall i :: 0 <= i < |s.threads| ==> EventsOf(s.log, i) == EventOf(i, s.threads[i].job, s.threads[i].pc))
  }

  lemma HangKeepsSlots<V>(h: Heap<V>, sh: seq<Place>, s: Slot, key: int, value: V, t: Slot)
    requires Placed(h, sh) && ValidSlot(h, s) && ValidSlot(h, t)
    ensures var h', sh' := Hang(h, s, key, value), sh + [SlotPlace(h, sh, s)];
      ValidSlot(h', t) && SlotPlace(h', sh', t) == SlotPlace(h, sh, t)
      && (t != s ==> Load(h', t) == Load(h, t)) && (t == s ==> Load(h', t) == At(|h.nodes|))
  {}

  /** The gaps of the new tree: the two below the new leaf, and the old ones except the filled one. */
  lemma GapAfterHang<V(!new)>(h: Heap<V>, sh: seq<Place>, s: Slot, key: int, value: V, g: Slot, k: int)
    requires Placed(h, sh) && Partition(h, sh) && Gap(h, s) && Covers(h, sh, s, key)
    requires var h', sh' := Hang(h, s, key, value), sh + [SlotPlace(h, sh, s)];
      Gap(h', g) && Covers(h', sh', g, k)
    ensures k != key
    ensures if g == LeftOf(|h.nodes|) then Covers(h, sh, s, k) && k < key
            else if g == RightOf(|h.nodes|) then Covers(h, sh, s, k) && k > key
            else Gap(h, g) && g != s && Covers(h, sh, g, k) && !Covers(h, sh, s, k)
  {
    if ValidSlot(h, g) {
      HangKeepsSlots(h, sh, s, key, value, g);
      assert g != s && Gap(h, g);
      assert !(Covers(h, sh, g, k) && Covers(h, sh, s, k));
    }
  }

  /** Hanging a new leaf splits the gap it fills. */
  lemma HangPartition<V(!new)>(h: Heap<V>, sh: seq<Place>, s: Slot, key: int, value: V)
    requires Placed(h, sh) && Partition(h, sh) && Gap(h, s) && Covers(h, sh, s, key)
    ensures Partition(Hang(h, s, key, value), sh + [SlotPlace(h, sh, s)])
  {
    var h', sh' := Hang(h, s, key, value), sh + [SlotPlace(h, sh, s)];
    assert forall i :: 0 <= i < |h.nodes| ==> h'.nodes[i].key == h.nodes[i].key != key;
    forall g, j | Gap(h', g) && 0 <= j < |h'.nodes| ensures !Covers(h', sh', g, h'.nodes[j].key) {
      var k := h'.nodes[j].key;
      if Covers(h', sh', g, k) {
        GapAfterHang(h, sh, s, key, value, g, k);
      }
    }
    forall g, t, k | Gap(h', g) && Gap(h', t) && g != t ensures !(Covers(h', sh', g, k) && Covers(h', sh', t, k)) {
      if Covers(h', sh', g, k) && Covers(h', sh', t, k) {
        GapAfterHang(h, sh, s, key, value, g, k);
        GapAfterHang(h, sh, s, key, value, t, k);
      }
    }
  }

  lemma HangAgrees<V>(h: Heap<V>, m: map<int, V>, s: Slot, key: int, value: V)
    requires ValidSlot(h, s) && Agrees(h, m) && key !in m
    ensures Agrees(Hang(h, s, key, value), m[key := value])
  {
    var h', m' := Hang(h, s, key, value), m[key := value];
    forall i | 0 <= i < |h'.nodes| ensures h'.nodes[i].key in m' && m'[h'.nodes[i].key] == h'.nodes[i].value {
      if i < |h.nodes| { assert h'.nodes[i].key == h.nodes[i].key; }
    }
    forall k | k in m' ensures exists i :: 0 <= i < |h'.nodes| && h'.nodes[i].key == k {
      if k == key {
        assert h'.nodes[|h.nodes|].key == k;
      } else {
        var i :| 0 <= i < |h.nodes| && h.nodes[i].key == k;
        assert h'.nodes[i].key == k;
      }
    }
  }

  /** A thread that finds its slot empty knows that its key is free. */
  lemma GapIsFree<V(!new)>(h: Heap<V>, sh: seq<Place>, m: map<int, V>, s: Slot, key: int)
    requires Placed(h, sh) && Partition(h, sh) && Agrees(h, m) && Gap(h, s) && Covers(h, sh, s, key)
    ensures key !in m
  {
    assert forall i :: 0 <= i < |h.nodes| ==> !Covers(h, sh, s, h.nodes[i].key);
  }

  lemma ReplayMore<V>(log: seq<Event<V>>, e: seq<Event<V>>, m0: map<int, V>)
    requires |e| <= 1
    ensures Replay(log + e, m0) == if e == [] then Replay(log, m0) else Apply(e[0], Replay(log, m0))
  {
    if e == [] { assert log + e == log; } else { assert (log + e)[..|log + e| - 1] == log; }
  }

  lemma EventsMore<V>(log: seq<Event<V>>, e: seq<Event<V>>, i: nat)
    requires |e| <= 1
    ensures EventsOf(log + e, i) == EventsOf(log, i) + if e != [] && e[0].thread == i then e else []
  {
    if e == [] {
      assert log + e == log && EventsOf(log, i) + [] == EventsOf(log, i);
    } else {
      assert (log + e)[..|log + e| - 1] == log;
    }
  }

  /** Threads are not disturbed when another one hangs a leaf. */
  lemma ThreadsUndisturbed<V>(h: Heap<V>, sh: seq<Place>, s: Slot, key: int, value: V, t: Thread<V>)
    requires Placed(h, sh) && ValidSlot(h, s) && ThreadOk(h, sh, t)
    ensures ThreadOk(Hang(h, s, key, value), sh + [SlotPlace(h, sh, s)], t)
  {
    if t.pc.Loading? || t.pc.Swapping? { HangKeepsSlots(h, sh, s, key, value, t.pc.slot); }
  }

  /** The parts of the invariant that concern threads and log, after thread `i` moved to `pc`. */
  lemma FinishKeeps<V(!new)>(s: System<V>, sh: seq<Place>, h': Heap<V>, sh': seq<Place>, m0: map<int, V>, i: nat,
          pc: Pc<V>)
    requires Inv(s, sh, m0) && i < |s.threads| && !s.threads[i].pc.PutDone? && !s.threads[i].pc.LookDone?
    requires Placed(h', sh') && Partition(h', sh')
    requires forall j :: 0 <= j < |s.threads| && j != i ==> ThreadOk(h', sh', s.threads[j])
    requires ThreadOk(h', sh', Thread(s.threads[i].job, pc))
    requires var e := EventOf(i, s.threads[i].job, pc);
      var r := if e == [] then Replay(s.log, m0) else Apply(e[0], Replay(s.log, m0));
      r.legal && Agrees(h', r.m)
    ensures Inv(Finish(s.(h := h'), i, pc), sh', m0)
  {
    var e := EventOf(i, s.threads[i].job, pc);
    var s' := Finish(s.(h := h'), i, pc);
    ReplayMore(s.log, e, m0);
    forall j | 0 <= j < |s'.threads|
      ensures ThreadOk(h', sh', s'.threads[j]) && EventsOf(s'.log, j) == EventOf(j, s'.threads[j].job, s'.threads[j].pc)
    {
      EventsMore(s.log, e, j);
      assert EventsOf(s.log, j) == EventOf(j, s.threads[j].job, s.threads[j].pc);
    }
  }

  /** Every step of every thread keeps the invariant. */
  lemma StepKeepsInv<V(!new)>(s: System<V>, sh: seq<Place>, m0: map<int, V>, i: nat, spurious: bool)
    returns (sh': seq<Place>)
    requires Inv(s, sh, m0) && i < |s.threads|
    ensures Inv(Step(s, i, spurious), sh', m0)
    ensures Step(s, i, spurious).h == s.h ==> sh' == sh
  {
    var t := s.threads[i];
    assert ThreadOk(s.h, sh, t);
    sh' := sh;
    match t.pc
    case Loading(slot) =>
      var p := Load(s.h, slot);
      if slot.LeftOf? || slot.RightOf? { assert NodeOk(s.h.nodes, sh, slot.node); }
      if p.Null? {
        GapIsFree(s.h, sh, Replay(s.log, m0).m, slot, t.job.key);
        FinishKeeps(s, sh, s.h, sh, m0, i, if t.job.Put? then Swapping(slot) else LookDone(None));
      } else {
        assert NodeOk(s.h.nodes, sh, p.id);
        var n := s.h.nodes[p.id];
        FinishKeeps(s, sh, s.h, sh, m0, i,
          if n.key == t.job.key then (if t.job.Put? then PutDone(false) else LookDone(Some(n.value)))
          else Loading(if t.job.key < n.key then LeftOf(p.id) else RightOf(p.id)));
      }
    case Swapping(slot) =>
      if spurious || Load(s.h, slot) != Null {
        FinishKeeps(s, sh, s.h, sh, m0, i, Loading(slot));
      } else {
        var key, value, m := t.job.key, t.job.value, Replay(s.log, m0).m;
        var h' := Hang(s.h, slot, key, value);
        sh' := sh + [SlotPlace(s.h, sh, slot)];
        GapIsFree(s.h, sh, m, slot, key);
        HangPlaced(s.h, sh, slot, key, value);
        HangPartition(s.h, sh, slot, key, value);
        HangAgrees(s.h, m, slot, key, value);
        forall j | 0 <= j < |s.threads| && j != i ensures ThreadOk(h', sh', s.threads[j]) {
          ThreadsUndisturbed(s.h, sh, slot, key, value, s.threads[j]);
        }
        FinishKeeps(s, sh, h', sh', m0, i, PutDone(true));
      }
    case _ =>
  }

  // ---------- whole runs ----------

  datatype Turn = Turn(thread: nat, spurious: bool)

  function Run<V>(s: System<V>, turns: seq<Turn>): System<V>
    decreases turns
  {
    if turns == [] then s
    else if turns[0].thread < |s.threads| then Run(Step(s, turns[0].thread, turns[0].spurious), turns[1..])
    else Run(s, turns[1..])
  }

  /** All threads at the root of an empty table. */
  function Start<V>(jobs: seq<Job<V>>): System<V> {
    System(Heap([], [Null]), seq(|jobs|, i requires 0 <= i < |jobs| => Thread(jobs[i], Loading(RootOf(0)))), [])
  }

  lemma {:induction false} RunKeepsInv<V(!new)>(s: System<V>, sh: seq<Place>, m0: map<int, V>, turns: seq<Turn>)
    returns (sh': seq<Place>)
    requires Inv(s, sh, m0)
    ensures Inv(Run(s, turns), sh', m0)
    decreases turns
  {
    if turns == [] {
      sh' := sh;
    } else if turns[0].thread < |s.threads| {
      var sh1 := StepKeepsInv(s, sh, m0, turns[0].thread, turns[0].spurious);
      sh' := RunKeepsInv(Step(s, turns[0].thread, turns[0].spurious), sh1, m0, turns[1..]);
    } else {
      sh' := RunKeepsInv(s, sh, m0, turns[1..]);
    }
  }

  /** No thread is dropped, and none changes what it is to do. */
  lemma {:induction false} RunKeepsJobs<V>(s: System<V>, turns: seq<Turn>)
    ensures var s' := Run(s, turns);
      |s'.threads| == |s.threads| && forall i :: 0 <= i < |s.threads| ==> s'.threads[i].job == s.threads[i].job
    decreases turns
  {
    if turns != [] {
      var i := turns[0].thread;
      RunKeepsJobs(if i < |s.threads| then Step(s, i, turns[0].spurious) else s, turns[1..]);
    }
  }

  lemma StartOk<V(!new)>(jobs: seq<Job<V>>)
    ensures Inv(Start(jobs), [], map[])
  {
    assert Gap(Start(jobs).h, RootOf(0));
  }

  /**
    Whatever the interleaving: the tree is a search tree, the operations that took effect are a
    legal run of a map, each thread's answer is its one event in that run, and the tree holds
    exactly that map's bindings.
   */
  lemma BindingIsLinearizable<V(!new)>(jobs: seq<Job<V>>, turns: seq<Turn>)
    ensures var s := Run(Start(jobs), turns);
      && SearchTrees(s.h)
      && |s.threads| == |jobs| && (forall i :: 0 <= i < |jobs| ==> s.threads[i].job == jobs[i])
      && Replay(s.log, map[]).legal && Agrees(s.h, Replay(s.log, map[]).m)
      && (forall i :: 0 <= i < |s.threads| ==> EventsOf(s.log, i) == EventOf(i, s.threads[i].job, s.threads[i].pc))
  {
    var s0 := Start(jobs);
    StartOk(jobs);
    var sh := RunKeepsInv(s0, [], map[], turns);
    RunKeepsJobs(s0, turns);
  }

  // ---------- a thread left alone ----------

  predicate IsDone<V>(t: Thread<V>) { t.pc.PutDone? || t.pc.LookDone? }

  /** How many steps a thread needs at most while the others rest. */
  ghost function Work<V>(h: Heap<V>, sh: seq<Place>, t: Thread<V>): (n: int)
    requires Placed(h, sh) && ThreadOk(h, sh, t)
    ensures n <= |h.nodes| + 3
  {
    match t.pc
    case Loading(slot) => |h.nodes| - SlotPlace(h, sh, slot).depth + 2
    case Swapping(slot) => if Load(h, slot).Null? then 1 else |h.nodes| - SlotPlace(h, sh, slot).depth + 3
    case _ => 0
  }

  lemma WorkLeft<V>(h: Heap<V>, sh: seq<Place>, t: Thread<V>)
    requires Placed(h, sh) && ThreadOk(h, sh, t)
    ensures if IsDone(t) then Work(h, sh, t) == 0 else Work(h, sh, t) > 0
  {
    if !IsDone(t) && !t.pc.slot.RootOf? { assert NodeOk(h.nodes, sh, t.pc.slot.node); }
  }

  /** A step that does not fail spuriously brings the end nearer. */
  lemma StepGetsNearer<V(!new)>(s: System<V>, sh: seq<Place>, m0: map<int, V>, i: nat) returns (sh': seq<Place>)
    requires Inv(s, sh, m0) && i < |s.threads| && !IsDone(s.threads[i])
    ensures var s' := Step(s, i, false);
      Inv(s', sh', m0) && |s'.threads| == |s.threads| && Placed(s.h, sh) && Placed(s'.h, sh')
      && Work(s'.h, sh', s'.threads[i]) < Work(s.h, sh, s.threads[i])
  {
    var t, slot := s.threads[i], s.threads[i].pc.slot;
    WorkLeft(s.h, sh, t);
    sh' := StepKeepsInv(s, sh, m0, i, false);
    if !slot.RootOf? { assert NodeOk(s.h.nodes, sh, slot.node); }
    var p := Load(s.h, slot);
    if p.At? { assert NodeOk(s.h.nodes, sh, p.id); }
  }

  lemma AloneSteps<V>(s: System<V>, i: nat, n: nat)
    requires 0 < n && i < |s.threads|
    ensures Run(s, Alone(i, n)) == Run(Step(s, i, false), Alone(i, n - 1))
  {
    assert Alone(i, n)[0] == Turn(i, false) && Alone(i, n)[1..] == Alone(i, n - 1);
  }

  /**
    Wherever the others stopped, a thread that goes on alone finishes: in at most as many steps as the
    tree has nodes, and three.
   */
  lemma {:induction false} AloneFinishes<V(!new)>(s: System<V>, sh: seq<Place>, m0: map<int, V>, i: nat, n: nat)
    requires Inv(s, sh, m0) && i < |s.threads| && n >= Work(s.h, sh, s.threads[i])
    ensures var s' := Run(s, Alone(i, n)); |s'.threads| == |s.threads| && IsDone(s'.threads[i])
    decreases n
  {
    WorkLeft(s.h, sh, s.threads[i]);
    if n > 0 {
      AloneSteps(s, i, n);
      if IsDone(s.threads[i]) {
        AloneFinishes(s, sh, m0, i, n - 1);
      } else {
        var sh' := StepGetsNearer(s, sh, m0, i);
        AloneFinishes(Step(s, i, false), sh', m0, i, n - 1);
      }
    }
  }

  function Alone(i: nat, n: nat): seq<Turn> { seq(n, _ => Turn(i, false)) }

  /** No interleaving leaves a thread behind that could not finish. */
  lemma NoThreadIsStuck<V(!new)>(jobs: seq<Job<V>>, turns: seq<Turn>, i: nat)
    requires i < |jobs|
    ensures var s := Run(Start(jobs), turns);
      var s' := Run(s, Alone(i, |s.h.nodes| + 3));
      |s'.threads| == |jobs| && IsDone(s'.threads[i])
  {
    var s0, s := Start(jobs), Run(Start(jobs), turns);
    StartOk(jobs);
    RunKeepsJobs(s0, turns);
    var sh := RunKeepsInv(s0, [], map[], turns);
    assert ThreadOk(s.h, sh, s.threads[i]);
    AloneFinishes(s, sh, map[], i, |s.h.nodes| + 3);
  }

  // ---------- what legality means for racing binds ----------

  function WinsOf<V>(log: seq<Event<V>>, key: int): nat {
    if log == [] then 0
    else
      var e := log[|log| - 1];
      WinsOf(log[..|log| - 1], key) + if e.PutEvent? && e.key == key && e.won then 1 else 0
  }

  /** Among any number of racing binds of one key at most one returns true, and one has as soon as any has returned. */
  lemma {:induction false} OneBindWins<V>(log: seq<Event<V>>, key: int)
    requires Replay(log, map[]).legal
    ensures WinsOf(log, key) == if key in Replay(log, map[]).m then 1 else 0
    ensures (exists e :: e in log && e.PutEvent? && e.key == key) ==> WinsOf(log, key) == 1
  {
    if log != [] {
      OneBindWins(log[..|log| - 1], key);
      if e :| e in log && e.PutEvent? && e.key == key {
        assert e == log[|log| - 1] || e in log[..|log| - 1];
      }
    }
  }

  /** A key that has been bound keeps its value. */
  lemma {:induction false} BoundStays<V>(log: seq<Event<V>>, k: nat, key: int)
    requires k <= |log| && Replay(log, map[]).legal && key in Replay(log[..k], map[]).m
    ensures key in Replay(log, map[]).m && Replay(log, map[]).m[key] == Replay(log[..k], map[]).m[key]
  {
    if k < |log| {
      assert log[..|log| - 1][..k] == log[..k];
      BoundStays(log[..|log| - 1], k, key);
    } else {
      assert log[..k] == log;
    }
  }
}
