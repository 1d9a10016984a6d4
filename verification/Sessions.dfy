/**
  Whole sessions: texts typed one after the other, each compiled against the workspace that the
  earlier ones left behind.  A text that does not compile changes nothing; a text that throws
  keeps what it did up to that point, also what it left on the stack.
 */
module Sessions {
  import opened Basics
  import opened Workspace
  import opened Syntax
  import opened Compiler
  import opened Scoping
  import opened Simulation
  import Acceptance
  import M = Machine
  import R = Reference

  datatype State<+T> = State(stack: seq<T>, world: World<T>)

  /** What the user learns of one text: it was rejected, or how its run ended. */
  datatype Report = Rejected | Ran(status: Status)

  /** The words that the thread's workspace binds. */
  function Words<T>(w: World<T>): set<Name> {
    set i | 0 <= i < |w.tree.nodes| &&
      FormGet<nat>(w.tree, w.threadWs, w.tree.nodes[i].key).Some? :: w.tree.nodes[i].key
  }

  lemma {:induction false} FoundAtNode<V>(nodes: seq<Node<V>>, p: Ptr, key: int, fuel: nat)
    requires Find(nodes, p, key, fuel).Some?
    ensures exists i :: 0 <= i < |nodes| && nodes[i].key == key
    decreases fuel
  {
    var n := nodes[p.id];
    if key < n.key { FoundAtNode(nodes, n.left, key, fuel - 1); }
    else if key > n.key { FoundAtNode(nodes, n.right, key, fuel - 1); }
  }

  lemma {:induction false} FormFoundAtNode<V>(h: Heap<V>, form: Form, key: int)
    requires FormGet(h, form, key).Some?
    ensures exists i :: 0 <= i < |h.nodes| && h.nodes[i].key == key
  {
    if Get(h, form[0], key).Some? { FoundAtNode(h.nodes, h.roots[form[0]], key, |h.nodes|); }
    else { FormFoundAtNode(h, form[1..], key); }
  }

  /** `Words` is the lookup of `TopCompileScope::directLookup` in the thread's workspace. */
  lemma WordsAreBound<T>(w: World<T>, n: Name)
    ensures n in Words(w) <==> FormGet<nat>(w.tree, w.threadWs, n).Some?
  {
    if FormGet<nat>(w.tree, w.threadWs, n).Some? { FormFoundAtNode<nat>(w.tree, w.threadWs, n); }
  }

  function RunText(items: seq<Item>, s: State<Val>, b: R.BuiltIns, fuel: nat): (Report, State<Val>) {
    var unit := s.world.threadWs;
    var def := CompileUnit(items, Globals(Words(s.world), b), unit);
    if def.Failure? then (Rejected, s)
    else
      var o := M.RunOps(def.value.code, [], M.Frame(s.stack, [], def.value.ws, s.world), fuel);
      (Ran(o.status), State(o.f.stack, o.f.world))
  }

  function MeanText(items: seq<Item>, s: State<RVal>, b: R.BuiltIns, fuel: nat): (Report, State<RVal>) {
    var unit := s.world.threadWs;
    if !Acceptance.Accepts(items, Words(s.world), b) then (Rejected, s)
    else
      var scope := R.Scope(map[], map[], Words(s.world), true);
      var o := R.Items(items, R.Frame(s.stack, scope, unit, s.world), unit, b, fuel);
      (Ran(o.status), State(o.f.stack, o.f.world))
  }

  function RunTexts(texts: seq<seq<Item>>, s: State<Val>, b: R.BuiltIns, fuel: nat): (seq<Report>, State<Val>) {
    if texts == [] then ([], s)
    else
      var (report, s1) := RunText(texts[0], s, b, fuel);
      var (reports, s2) := RunTexts(texts[1..], s1, b, fuel);
      ([report] + reports, s2)
  }

  function MeanTexts(texts: seq<seq<Item>>, s: State<RVal>, b: R.BuiltIns, fuel: nat): (seq<Report>, State<RVal>) {
    if texts == [] then ([], s)
    else
      var (report, s1) := MeanText(texts[0], s, b, fuel);
      var (reports, s2) := MeanTexts(texts[1..], s1, b, fuel);
      ([report] + reports, s2)
  }

  // ---------- what can be seen of a value ----------

  datatype Seen = SeenAtom(a: Atom) | SeenList(items: seq<Seen>) | SeenFun(numArgs: nat) | SeenRec(f: Seen)

  function See(v: Val): Seen {
    match v
    case Atomic(a) => SeenAtom(a)
    case List(items) => SeenList(seq(|items|, i requires 0 <= i < |items| => See(items[i])))
    case Fun(def, _) => SeenFun(def.numArgs)
    case Rec(f) => SeenRec(See(f))
  }

  function SeeR(v: RVal): Seen {
    match v
    case RAtomic(a) => SeenAtom(a)
    case RList(items) => SeenList(seq(|items|, i requires 0 <= i < |items| => SeeR(items[i])))
    case RFun(args, _, _, _, _) => SeenFun(|args|)
    case RRec(f) => SeenRec(SeeR(f))
  }

  function SeeAll(s: seq<Val>): seq<Seen> { seq(|s|, i requires 0 <= i < |s| => See(s[i])) }
  function SeeAllR(s: seq<RVal>): seq<Seen> { seq(|s|, i requires 0 <= i < |s| => SeeR(s[i])) }

  lemma {:induction false} RelatedLookAlike(v: Val, u: RVal, b: R.BuiltIns)
    requires RelVal(v, u, b)
    ensures See(v) == SeeR(u)
    decreases v
  {
    match v
    case List(items) =>
      forall i | 0 <= i < |items| ensures See(items[i]) == SeeR(u.items[i]) {
        RelatedLookAlike(items[i], u.items[i], b);
      }
    case Rec(f) => RelatedLookAlike(f, u.f, b);
    case _ =>
  }

  lemma {:induction false} SimText(items: seq<Item>, s: State<Val>, r: State<RVal>, b: R.BuiltIns, fuel: nat)
    requires RelSeq(s.stack, r.stack, b) && RelWorld(s.world, r.world, b)
    ensures var (report, s') := RunText(items, s, b, fuel);
      var (report', r') := MeanText(items, r, b, fuel);
      report == report' && report != Ran(Stuck) && report != Ran(Unbound)
      && RelSeq(s'.stack, r'.stack, b) && RelWorld(s'.world, r'.world, b)
  {
    var unit, g := s.world.threadWs, Globals(Words(s.world), b);
    assert Words(s.world) == Words(r.world);
    Acceptance.CompilesIffAccepted(items, g, unit);
    var c := CompileItems(items, [Top([])], g, unit);
    if c.Success? {
      var f := M.Frame(s.stack, [], unit, s.world);
      var p := R.Frame(r.stack, R.Scope(map[], map[], Words(s.world), true), unit, r.world);
      CompileItemsOk(items, [Top([])], g, unit);
      ItemsNoReturn(items, [Top([])], g, unit);
      RunBlock(c.value.0, [], f, fuel);
      SimItems(items, [Top([])], g, unit, f, [], p, Layout([], 0), fuel);
    }
  }

  lemma {:induction false} SimTexts(texts: seq<seq<Item>>, s: State<Val>, r: State<RVal>, b: R.BuiltIns, fuel: nat)
    requires RelSeq(s.stack, r.stack, b) && RelWorld(s.world, r.world, b)
    ensures var (reports, s') := RunTexts(texts, s, b, fuel);
      var (reports', r') := MeanTexts(texts, r, b, fuel);
      reports == reports' && Ran(Stuck) !in reports && Ran(Unbound) !in reports
      && RelSeq(s'.stack, r'.stack, b) && RelWorld(s'.world, r'.world, b)
  {
    if texts != [] {
      SimText(texts[0], s, r, b, fuel);
      SimTexts(texts[1..], RunText(texts[0], s, b, fuel).1, MeanText(texts[0], r, b, fuel).1, b, fuel);
    }
  }

  /** One empty workspace table. */
  const EmptyTree: Heap<nat> := Heap([], [Null])

  /**
    Every session behaves as the reference semantics says: the same texts are rejected, each run
    ends in the same way, no run ever leaves its frame or meets an undefined word, and the
    final stack shows the same values.
   */
  lemma CompilationPreservesMeaning(texts: seq<seq<Item>>, b: R.BuiltIns, fuel: nat)
    ensures var (reports, s) := RunTexts(texts, State([], World(EmptyTree, [], [0])), b, fuel);
      var (reports', r) := MeanTexts(texts, State([], World(EmptyTree, [], [0])), b, fuel);
      && reports == reports' && Ran(Stuck) !in reports && Ran(Unbound) !in reports
      && SeeAll(s.stack) == SeeAllR(r.stack)
  {
    var s0: State<Val> := State([], World(EmptyTree, [], [0]));
    var r0: State<RVal> := State([], World(EmptyTree, [], [0]));
    SimTexts(texts, s0, r0, b, fuel);
    var s, r := RunTexts(texts, s0, b, fuel).1, MeanTexts(texts, r0, b, fuel).1;
    forall i | 0 <= i < |s.stack| ensures See(s.stack[i]) == SeeR(r.stack[i]) {
      RelatedLookAlike(s.stack[i], r.stack[i], b);
    }
  }
}
