/**
  Lock-free interning of names.  The symbol table is an array of singly linked lists; `getsym`
  searches the list it read, and prepends a new node with a compare-and-swap, starting over when
  that fails.  Nodes are immutable and never removed.

  Two calls return the same node exactly when their names are equal; the compile scopes, which
  compare symbols by address, rely on this.
 */
module Symbols {
  import opened Basics
  import opened Workspace

  datatype SymNode = SymNode(name: string, hash: int, next: Ptr)

  const TABLE_SIZE := 4096

  /** `Walking`: searching the list that started at `head`, now at `at`; `Swapping`: about to prepend to `head`. */
  datatype Pc = Start | Walking(head: Ptr, at: Ptr) | Swapping(head: Ptr) | Done(id: nat)

  datatype Call = Call(name: string, pc: Pc)

  datatype System = System(nodes: seq<SymNode>, bins: seq<Ptr>, calls: seq<Call>)

  type HashFun = string -> int

  function Bin(hash: HashFun, name: string): (b: nat)
    ensures b < TABLE_SIZE
  {
    hash(name) % TABLE_SIZE
  }

  function Goto(s: System, i: nat, pc: Pc): System
    requires i < |s.calls|
  {
    s.(calls := s.calls[i := s.calls[i].(pc := pc)])
  }

  /** One step of call `i`: load the head of the list, look at one node, or compare-and-swap. */
  function Step(s: System, hash: HashFun, i: nat, spurious: bool): System
    requires i < |s.calls| && |s.bins| == TABLE_SIZE
  {
    var name := s.calls[i].name;
    var b := Bin(hash, name);
    match s.calls[i].pc
    case Start => Goto(s, i, Walking(s.bins[b], s.bins[b]))
    case Walking(head, at) =>
      if at.Null? || at.id >= |s.nodes| then Goto(s, i, Swapping(head))
      else
        var n := s.nodes[at.id];
        if n.hash == hash(name) && n.name == name then Goto(s, i, Done(at.id))
        else Goto(s, i, Walking(head, n.next))
    case Swapping(head) =>
      if spurious || s.bins[b] != head then Goto(s, i, Start)
      else
        var id := |s.nodes|;
        Goto(s.(nodes := s.nodes + [SymNode(name, hash(name), head)], bins := s.bins[b := At(id)]), i, Done(id))
    case Done(_) => s
  }

  // ---------- invariant ----------

  /** The nodes of a list, from the head on. */
  ghost function ListAt(nodes: seq<SymNode>, p: Ptr): seq<nat>
    decreases if p.Null? then 0 else p.id + 1
  {
    if p.Null? || p.id >= |nodes| then []
    else [p.id] + if nodes[p.id].next.At? && nodes[p.id].next.id < p.id then ListAt(nodes, nodes[p.id].next) else []
  }

  ghost predicate IsTail(t: seq<nat>, s: seq<nat>) {
    |t| <= |s| && s[|s| - |t|..] == t
  }

  ghost predicate NodesOk(nodes: seq<SymNode>, hash: HashFun) {
    forall i :: 0 <= i < |nodes| ==>
      nodes[i].hash == hash(nodes[i].name) && (nodes[i].next.At? ==> nodes[i].next.id < i)
  }

  ghost predicate InRange(nodes: seq<SymNode>, ids: seq<nat>) {
    forall k :: 0 <= k < |ids| ==> ids[k] < |nodes|
  }

  ghost predicate Lacks(nodes: seq<SymNode>, ids: seq<nat>, name: string) {
    InRange(nodes, ids) && forall k :: 0 <= k < |ids| ==> nodes[ids[k]].name != name
  }

  /** One list: valid pointers, names of this bin only, no name twice. */
  ghost predicate BinOk(nodes: seq<SymNode>, hash: HashFun, p: Ptr, b: nat) {
    && (p.At? ==> p.id < |nodes|)
    && var ids := ListAt(nodes, p);
    && InRange(nodes, ids)
    && (forall k :: 0 <= k < |ids| ==> Bin(hash, nodes[ids[k]].name) == b)
    && (forall j, k :: 0 <= j < k < |ids| ==> nodes[ids[j]].name != nodes[ids[k]].name)
  }

  /** The search began at a tail of the list and has passed only other names on its way to rest. */
  ghost predicate Searched(nodes: seq<SymNode>, list: seq<nat>, searched: seq<nat>, rest: seq<nat>, name: string) {
    && IsTail(searched, list) && IsTail(rest, searched)
    && Lacks(nodes, searched[..|searched| - |rest|], name)
  }

  ghost predicate CallOk(nodes: seq<SymNode>, hash: HashFun, bins: seq<Ptr>, c: Call)
    requires |bins| == TABLE_SIZE
  {
    var list := ListAt(nodes, bins[Bin(hash, c.name)]);
    match c.pc
    case Start => true
    case Walking(head, at) =>
      && (head.At? ==> head.id < |nodes|) && (at.At? ==> at.id < |nodes|)
      && Searched(nodes, list, ListAt(nodes, head), ListAt(nodes, at), c.name)
    case Swapping(head) =>
      && (head.At? ==> head.id < |nodes|)
      && IsTail(ListAt(nodes, head), list) && Lacks(nodes, ListAt(nodes, head), c.name)
    case Done(id) => id in list && id < |nodes| && nodes[id].name == c.name
  }

  ghost predicate Inv(s: System, hash: HashFun) {
    && |s.bins| == TABLE_SIZE && NodesOk(s.nodes, hash)
    && (forall b :: 0 <= b < TABLE_SIZE ==> BinOk(s.nodes, hash, s.bins[b], b))
    && (forall i :: 0 <= i < |s.calls| ==> CallOk(s.nodes, hash, s.bins, s.calls[i]))
  }

  lemma {:induction false} ListInLonger(nodes: seq<SymNode>, n: SymNode, p: Ptr)
    requires p.At? ==> p.id < |nodes|
    ensures ListAt(nodes + [n], p) == ListAt(nodes, p)
    decreases if p.Null? then 0 else p.id + 1
  {
    if p.At? && nodes[p.id].next.At? && nodes[p.id].next.id < p.id {
      ListInLonger(nodes, n, nodes[p.id].next);
    }
  }

  lemma TailOfTail(a: seq<nat>, b: seq<nat>, c: seq<nat>)
    requires IsTail(a, b) && IsTail(b, c)
    ensures IsTail(a, c)
  {
    assert c[|c| - |a|..] == c[|c| - |b|..][|b| - |a|..];
  }

  lemma LacksInLonger(nodes: seq<SymNode>, n: SymNode, ids: seq<nat>, name: string)
    requires Lacks(nodes, ids, name)
    ensures Lacks(nodes + [n], ids, name)
  {}

  /** Prepending to list `b` makes the old content of every list a tail of the new one. */
  lemma ListsAfterPrepend(s: System, hash: HashFun, n: SymNode, b: nat, c: nat)
    requires Inv(s, hash) && b < TABLE_SIZE && c < TABLE_SIZE && n.next == s.bins[b]
    ensures var ids, ids' := ListAt(s.nodes, s.bins[c]), ListAt(s.nodes + [n], s.bins[b := At(|s.nodes|)][c]);
      ids' == (if c == b then [|s.nodes|] + ids else ids) && IsTail(ids, ids')
  {
    assert BinOk(s.nodes, hash, s.bins[c], c) && BinOk(s.nodes, hash, s.bins[b], b);
    ListInLonger(s.nodes, n, s.bins[c]);
  }

  /** Prepending to some list leaves every other call where it was. */
  lemma CallUndisturbed(nodes: seq<SymNode>, n: SymNode, hash: HashFun, bins: seq<Ptr>, bins': seq<Ptr>, c: Call)
    requires |bins| == |bins'| == TABLE_SIZE && CallOk(nodes, hash, bins, c)
    requires var b := Bin(hash, c.name); IsTail(ListAt(nodes, bins[b]), ListAt(nodes + [n], bins'[b]))
    ensures CallOk(nodes + [n], hash, bins', c)
  {
    match c.pc
    case Start =>
    case Walking(_, _) => WalkUndisturbed(nodes, n, hash, bins, bins', c);
    case Swapping(_) => SwapUndisturbed(nodes, n, hash, bins, bins', c);
    case Done(id) =>
      var b := Bin(hash, c.name);
      InTail(ListAt(nodes, bins[b]), ListAt(nodes + [n], bins'[b]), id);
  }

  lemma WalkUndisturbed(nodes: seq<SymNode>, n: SymNode, hash: HashFun, bins: seq<Ptr>, bins': seq<Ptr>, c: Call)
    requires |bins| == |bins'| == TABLE_SIZE && CallOk(nodes, hash, bins, c) && c.pc.Walking?
    requires var b := Bin(hash, c.name); IsTail(ListAt(nodes, bins[b]), ListAt(nodes + [n], bins'[b]))
    ensures CallOk(nodes + [n], hash, bins', c)
  {
    var b := Bin(hash, c.name);
    ListInLonger(nodes, n, c.pc.head);
    ListInLonger(nodes, n, c.pc.at);
    SearchUndisturbed(nodes, n, ListAt(nodes, bins[b]), ListAt(nodes + [n], bins'[b]), ListAt(nodes, c.pc.head),
      ListAt(nodes, c.pc.at), c.name);
  }

  lemma SearchUndisturbed(nodes: seq<SymNode>, n: SymNode, list: seq<nat>, list': seq<nat>, searched: seq<nat>,
          rest: seq<nat>, name: string)
    requires Searched(nodes, list, searched, rest, name) && IsTail(list, list')
    ensures Searched(nodes + [n], list', searched, rest, name)
  {
    TailOfTail(searched, list, list');
    LacksInLonger(nodes, n, searched[..|searched| - |rest|], name);
  }

  lemma SwapUndisturbed(nodes: seq<SymNode>, n: SymNode, hash: HashFun, bins: seq<Ptr>, bins': seq<Ptr>, c: Call)
    requires |bins| == |bins'| == TABLE_SIZE && CallOk(nodes, hash, bins, c) && c.pc.Swapping?
    requires var b := Bin(hash, c.name); IsTail(ListAt(nodes, bins[b]), ListAt(nodes + [n], bins'[b]))
    ensures CallOk(nodes + [n], hash, bins', c)
  {
    var b := Bin(hash, c.name);
    ListInLonger(nodes, n, c.pc.head);
    TailOfTail(ListAt(nodes, c.pc.head), ListAt(nodes, bins[b]), ListAt(nodes + [n], bins'[b]));
    LacksInLonger(nodes, n, ListAt(nodes, c.pc.head), c.name);
  }

  lemma InTail(t: seq<nat>, s: seq<nat>, id: nat)
    requires IsTail(t, s) && id in t
    ensures id in s
  {
    assert id in s[|s| - |t|..];
  }

  lemma PrependKeepsBins(s: System, hash: HashFun, n: SymNode, b: nat)
    requires Inv(s, hash) && n.hash == hash(n.name) && b == Bin(hash, n.name) && n.next == s.bins[b]
    requires Lacks(s.nodes, ListAt(s.nodes, s.bins[b]), n.name)
    ensures var nodes', bins' := s.nodes + [n], s.bins[b := At(|s.nodes|)];
      NodesOk(nodes', hash) && forall c :: 0 <= c < TABLE_SIZE ==> BinOk(nodes', hash, bins'[c], c)
  {
    var nodes', bins' := s.nodes + [n], s.bins[b := At(|s.nodes|)];
    assert BinOk(s.nodes, hash, s.bins[b], b);
    forall c | 0 <= c < TABLE_SIZE ensures BinOk(nodes', hash, bins'[c], c) {
      assert BinOk(s.nodes, hash, s.bins[c], c);
      ListInLonger(s.nodes, n, s.bins[c]);
      if c == b { assert ListAt(nodes', bins'[b]) == [|s.nodes|] + ListAt(s.nodes, s.bins[b]); }
    }
  }

  /** One step of the search. */
  lemma WalkOn(nodes: seq<SymNode>, hash: HashFun, bins: seq<Ptr>, c: Call)
    requires NodesOk(nodes, hash) && |bins| == TABLE_SIZE && CallOk(nodes, hash, bins, c) && c.pc.Walking?
    ensures var head, at := c.pc.head, c.pc.at;
      if at.Null? then CallOk(nodes, hash, bins, c.(pc := Swapping(head)))
      else
        var n := nodes[at.id];
        CallOk(nodes, hash, bins,
          c.(pc := if n.hash == hash(c.name) && n.name == c.name then Done(at.id) else Walking(head, n.next)))
  {
    var head, at := c.pc.head, c.pc.at;
    var list, searched := ListAt(nodes, bins[Bin(hash, c.name)]), ListAt(nodes, head);
    if at.Null? {
      SearchEnds(nodes, list, searched, c.name);
    } else {
      var n := nodes[at.id];
      assert ListAt(nodes, at) == [at.id] + ListAt(nodes, n.next);
      if n.name == c.name { SearchFinds(nodes, list, searched, at.id, ListAt(nodes, n.next), c.name); }
      else { SearchPasses(nodes, list, searched, at.id, ListAt(nodes, n.next), c.name); }
    }
  }

  lemma SearchEnds(nodes: seq<SymNode>, list: seq<nat>, searched: seq<nat>, name: string)
    requires Searched(nodes, list, searched, [], name)
    ensures IsTail(searched, list) && Lacks(nodes, searched, name)
  {
    assert searched[..|searched|] == searched;
  }

  lemma SearchFinds(nodes: seq<SymNode>, list: seq<nat>, searched: seq<nat>, id: nat, rest: seq<nat>, name: string)
    requires Searched(nodes, list, searched, [id] + rest, name)
    ensures id in list
  {
    TailOfTail([id] + rest, searched, list);
    InTail([id] + rest, list, id);
  }

  lemma SearchPasses(nodes: seq<SymNode>, list: seq<nat>, searched: seq<nat>, id: nat, rest: seq<nat>, name: string)
    requires Searched(nodes, list, searched, [id] + rest, name) && id < |nodes| && nodes[id].name != name
    ensures Searched(nodes, list, searched, rest, name)
  {
    NextTail(nodes, searched, id, rest, name);
  }

  /** One more node searched. */
  lemma NextTail(nodes: seq<SymNode>, searched: seq<nat>, id: nat, rest: seq<nat>, name: string)
    requires id < |nodes| && nodes[id].name != name && IsTail([id] + rest, searched)
    requires Lacks(nodes, searched[..|searched| - |rest| - 1], name)
    ensures IsTail(rest, searched) && Lacks(nodes, searched[..|searched| - |rest|], name)
  {
    assert searched[|searched| - |rest| - 1] == id;
    assert searched[|searched| - |rest|..] == ([id] + rest)[1..];
    assert searched[..|searched| - |rest|] == searched[..|searched| - |rest| - 1] + [id];
  }

  lemma StepKeepsInv(s: System, hash: HashFun, i: nat, spurious: bool)
    requires Inv(s, hash) && i < |s.calls|
    ensures Inv(Step(s, hash, i, spurious), hash)
  {
    var c := s.calls[i];
    var b := Bin(hash, c.name);
    assert CallOk(s.nodes, hash, s.bins, c) && BinOk(s.nodes, hash, s.bins[b], b);
    match c.pc
    case Start => assert s.calls[i].pc.Start?;
    case Walking(_, _) => WalkOn(s.nodes, hash, s.bins, c);
    case Swapping(head) =>
      if !spurious && s.bins[b] == head {
        var n := SymNode(c.name, hash(c.name), head);
        var s' := Step(s, hash, i, spurious);
        PrependKeepsBins(s, hash, n, b);
        forall j | 0 <= j < |s.calls| ensures CallOk(s'.nodes, hash, s'.bins, s'.calls[j]) {
          if j != i {
            ListsAfterPrepend(s, hash, n, b, Bin(hash, s.calls[j].name));
            CallUndisturbed(s.nodes, n, hash, s.bins, s'.bins, s.calls[j]);
          }
        }
      }
    case Done(_) =>
  }

  // ---------- whole runs ----------

  datatype Turn = Turn(call: nat, spurious: bool)

  function Run(s: System, hash: HashFun, turns: seq<Turn>): System
    requires |s.bins| == TABLE_SIZE
    decreases turns
  {
    if turns == [] then s
    else if turns[0].call < |s.calls| then Run(Step(s, hash, turns[0].call, turns[0].spurious), hash, turns[1..])
    else Run(s, hash, turns[1..])
  }

  lemma {:induction false} RunKeepsInv(s: System, hash: HashFun, turns: seq<Turn>)
    requires Inv(s, hash)
    ensures Inv(Run(s, hash, turns), hash)
    decreases turns
  {
    if turns != [] {
      var s1 := s;
      if turns[0].call < |s.calls| {
        StepKeepsInv(s, hash, turns[0].call, turns[0].spurious);
        s1 := Step(s, hash, turns[0].call, turns[0].spurious);
      }
      RunKeepsInv(s1, hash, turns[1..]);
      assert Run(s, hash, turns) == Run(s1, hash, turns[1..]);
    }
  }

  /** No call is dropped, and none changes the name it looks for. */
  lemma {:induction false} RunKeepsNames(s: System, hash: HashFun, turns: seq<Turn>)
    requires |s.bins| == TABLE_SIZE
    ensures |Run(s, hash, turns).calls| == |s.calls|
    ensures forall i :: 0 <= i < |s.calls| ==> Run(s, hash, turns).calls[i].name == s.calls[i].name
    decreases turns
  {
    if turns != [] {
      if turns[0].call < |s.calls| {
        RunKeepsNames(Step(s, hash, turns[0].call, turns[0].spurious), hash, turns[1..]);
      } else {
        RunKeepsNames(s, hash, turns[1..]);
      }
    }
  }

  lemma StepGrowsAtFront(s: System, hash: HashFun, i: nat, spurious: bool, b: nat)
    requires Inv(s, hash) && i < |s.calls| && b < TABLE_SIZE
    ensures var s' := Step(s, hash, i, spurious);
      |s'.bins| == TABLE_SIZE && s.nodes <= s'.nodes && IsTail(ListAt(s.nodes, s.bins[b]), ListAt(s'.nodes, s'.bins[b]))
  {
    var s', c := Step(s, hash, i, spurious), s.calls[i];
    var own := Bin(hash, c.name);
    if c.pc.Swapping? && !spurious && s.bins[own] == c.pc.head {
      ListsAfterPrepend(s, hash, SymNode(c.name, hash(c.name), c.pc.head), own, b);
    } else {
      assert s'.bins == s.bins && s'.nodes == s.nodes;
    }
  }

  /** Lists only grow at the front. */
  lemma {:induction false} ListsGrowAtFront(s: System, hash: HashFun, turns: seq<Turn>, b: nat)
    requires Inv(s, hash) && b < TABLE_SIZE
    ensures var s' := Run(s, hash, turns);
      |s'.bins| == TABLE_SIZE && s.nodes <= s'.nodes && IsTail(ListAt(s.nodes, s.bins[b]), ListAt(s'.nodes, s'.bins[b]))
    decreases turns
  {
    if turns != [] {
      var i := turns[0].call;
      if i < |s.calls| {
        var s1 := Step(s, hash, i, turns[0].spurious);
        StepKeepsInv(s, hash, i, turns[0].spurious);
        StepGrowsAtFront(s, hash, i, turns[0].spurious, b);
        ListsGrowAtFront(s1, hash, turns[1..], b);
        var s' := Run(s1, hash, turns[1..]);
        TailOfTail(ListAt(s.nodes, s.bins[b]), ListAt(s1.nodes, s1.bins[b]), ListAt(s'.nodes, s'.bins[b]));
      } else {
        ListsGrowAtFront(s, hash, turns[1..], b);
      }
    }
  }

  // ---------- a call left alone ----------

  /** How many steps a call needs at most while the others rest. */
  ghost function Work(s: System, hash: HashFun, i: nat): nat
    requires |s.bins| == TABLE_SIZE && i < |s.calls|
  {
    var bin := s.bins[Bin(hash, s.calls[i].name)];
    var again := |ListAt(s.nodes, bin)| + 3;
    match s.calls[i].pc
    case Start => again
    case Walking(head, at) => |ListAt(s.nodes, at)| + 2 + if head == bin then 0 else again
    case Swapping(head) => 1 + if head == bin then 0 else again
    case Done(_) => 0
  }

  lemma WorkIsBounded(s: System, hash: HashFun, i: nat)
    requires Inv(s, hash) && i < |s.calls|
    ensures Work(s, hash, i) <= 2 * |ListAt(s.nodes, s.bins[Bin(hash, s.calls[i].name)])| + 5
  {
    assert CallOk(s.nodes, hash, s.bins, s.calls[i]);
  }

  // a call that is searching is inside a list
  predicate AtNode(s: System, pc: Pc) {
    pc.Walking? && pc.at.At? ==>
      pc.at.id < |s.nodes| && (s.nodes[pc.at.id].next.At? ==> s.nodes[pc.at.id].next.id < pc.at.id)
  }

  lemma IsAtNode(s: System, hash: HashFun, i: nat)
    requires Inv(s, hash) && i < |s.calls|
    ensures AtNode(s, s.calls[i].pc)
  {
    assert CallOk(s.nodes, hash, s.bins, s.calls[i]);
  }

  /** A step that does not fail spuriously brings the end nearer. */
  lemma StepGetsNearer(s: System, hash: HashFun, i: nat)
    requires |s.bins| == TABLE_SIZE && i < |s.calls| && !s.calls[i].pc.Done? && AtNode(s, s.calls[i].pc)
    ensures var s' := Step(s, hash, i, false);
      |s'.bins| == TABLE_SIZE && |s'.calls| == |s.calls| && Work(s', hash, i) < Work(s, hash, i)
  {
    match s.calls[i].pc
    case Start =>
    case Walking(_, at) =>
      if at.At? { assert ListAt(s.nodes, at) == [at.id] + ListAt(s.nodes, s.nodes[at.id].next); }
    case Swapping(_) =>
  }

  function Alone(i: nat, n: nat): seq<Turn> { seq(n, _ => Turn(i, false)) }

  lemma AloneSteps(s: System, hash: HashFun, i: nat, n: nat)
    requires 0 < n && |s.bins| == TABLE_SIZE && i < |s.calls|
    ensures Run(s, hash, Alone(i, n)) == Run(Step(s, hash, i, false), hash, Alone(i, n - 1))
  {
    assert Alone(i, n)[0] == Turn(i, false) && Alone(i, n)[1..] == Alone(i, n - 1);
  }

  lemma {:induction false} AloneFinishes(s: System, hash: HashFun, i: nat, n: nat)
    requires Inv(s, hash) && i < |s.calls| && n >= Work(s, hash, i)
    ensures var s' := Run(s, hash, Alone(i, n)); |s'.calls| == |s.calls| && s'.calls[i].pc.Done?
    decreases n
  {
    if n > 0 {
      AloneSteps(s, hash, i, n);
      StepKeepsInv(s, hash, i, false);
      IsAtNode(s, hash, i);
      if !s.calls[i].pc.Done? { StepGetsNearer(s, hash, i); }
      AloneFinishes(Step(s, hash, i, false), hash, i, n - 1);
    }
  }

  function Begin(names: seq<string>): System {
    System([], seq(TABLE_SIZE, _ => Null), seq(|names|, i requires 0 <= i < |names| => Call(names[i], Start)))
  }

  lemma BeginOk(names: seq<string>, hash: HashFun)
    ensures Inv(Begin(names), hash)
  {}

  lemma Reached(names: seq<string>, hash: HashFun, turns: seq<Turn>)
    ensures var s := Run(Begin(names), hash, turns);
      Inv(s, hash) && |s.calls| == |names| && forall i :: 0 <= i < |names| ==> s.calls[i].name == names[i]
  {
    var s0 := Begin(names);
    BeginOk(names, hash);
    RunKeepsInv(s0, hash, turns);
    RunKeepsNames(s0, hash, turns);
    assert forall i :: 0 <= i < |names| ==> s0.calls[i].name == names[i];
  }

  /** Under every interleaving, two finished calls got the same symbol exactly when they asked for the same name. */
  lemma SameSymbolIffSameName(names: seq<string>, hash: HashFun, turns: seq<Turn>, i: nat, j: nat)
    requires i < |names| && j < |names|
    ensures var s := Run(Begin(names), hash, turns);
      |s.calls| == |names| && (s.calls[i].pc.Done? && s.calls[j].pc.Done? ==>
        (s.calls[i].pc.id == s.calls[j].pc.id <==> names[i] == names[j]))
  {
    Reached(names, hash, turns);
    DoneCallsAgree(Run(Begin(names), hash, turns), hash, i, j);
  }

  /** Going on alone the call finishes, and searches its list at most twice. */
  ghost predicate CanFinish(s: System, hash: HashFun, i: nat)
    requires |s.bins| == TABLE_SIZE && i < |s.calls|
  {
    var list := ListAt(s.nodes, s.bins[Bin(hash, s.calls[i].name)]);
    var s' := Run(s, hash, Alone(i, 2 * |list| + 5));
    |s'.calls| == |s.calls| && s'.calls[i].pc.Done?
  }

  /** No interleaving leaves a call behind that could not finish. */
  lemma NoCallIsStuck(names: seq<string>, hash: HashFun, turns: seq<Turn>, i: nat)
    requires i < |names|
    ensures var s := Run(Begin(names), hash, turns);
      |s.bins| == TABLE_SIZE && |s.calls| == |names| && CanFinish(s, hash, i)
  {
    Reached(names, hash, turns);
    IsNotStuck(Run(Begin(names), hash, turns), hash, i);
  }

  lemma IsNotStuck(s: System, hash: HashFun, i: nat)
    requires Inv(s, hash) && i < |s.calls|
    ensures CanFinish(s, hash, i)
  {
    WorkIsBounded(s, hash, i);
    AloneFinishes(s, hash, i, 2 * |ListAt(s.nodes, s.bins[Bin(hash, s.calls[i].name)])| + 5);
  }

  lemma DoneCallsAgree(s: System, hash: HashFun, i: nat, j: nat)
    requires Inv(s, hash) && i < |s.calls| && j < |s.calls|
    ensures s.calls[i].pc.Done? && s.calls[j].pc.Done? ==>
      (s.calls[i].pc.id == s.calls[j].pc.id <==> s.calls[i].name == s.calls[j].name)
  {
    assert CallOk(s.nodes, hash, s.bins, s.calls[i]) && CallOk(s.nodes, hash, s.bins, s.calls[j]);
    var b := Bin(hash, s.calls[i].name);
    assert BinOk(s.nodes, hash, s.bins[b], b);
  }
}
