/**
  The workspace over whole sessions.  Functions never bind words, so only the top level of a text
  changes the workspace, and there a word means what was bound to it last.
 */
module TopLevel {
  import opened Basics
  import opened Workspace
  import opened Versions
  import opened Syntax
  import opened Compiler
  import opened Bindings
  import opened Sessions
  import opened Simulation
  import M = Machine
  import R = Reference

  // ---------- functions leave the workspace alone ----------

  lemma {:induction false} ApplyKeepsWorld(v: RVal, stack: seq<RVal>, world: World<RVal>, b: R.BuiltIns, fuel: nat)
    ensures R.ApplyVal(v, stack, world, b, fuel).world == world
    decreases fuel, 1
  {
    match v
    case RAtomic(Prim(op)) => if |stack| >= M.PrimTakes(op) { PrimKeepsWorld(op, stack, world, b, fuel); }
    case RRec(f) => if |stack| >= R.Takes(v) && fuel > 0 { ApplyKeepsWorld(f, stack + [v], world, b, fuel - 1); }
    case RFun(args, body, env, known, ws) =>
      if |stack| >= |args| && fuel > 0 {
        var scope := R.Scope(env, R.BindArgs(args, stack[|stack| - |args|..]), known, false);
        InnerKeepsWorld(body, R.Frame([], scope, ws, world), ws, b, fuel - 1);
      }
    case _ =>
  }

  lemma {:induction false} PrimKeepsWorld(op: PrimOp, stack: seq<RVal>, world: World<RVal>, b: R.BuiltIns, fuel: nat)
    requires |stack| >= M.PrimTakes(op)
    ensures R.ApplyPrim(op, stack, world, b, fuel).world == world
    decreases fuel, 0, 1
  {
    var n := |stack|;
    if fuel > 0 {
      match op
      case Apply => ApplyKeepsWorld(stack[n-1], stack[..n-1], world, b, fuel - 1);
      case If => ApplyKeepsWorld(if R.IsTrue(stack[n-3]) then stack[n-2]
        else stack[n-1], stack[..n-3], world, b, fuel - 1);
      case Try => TryKeepsWorld(stack, world, b, fuel);
      case _ =>
    }
  }

  lemma {:induction false} TryKeepsWorld(stack: seq<RVal>, world: World<RVal>, b: R.BuiltIns, fuel: nat)
    requires |stack| >= M.PrimTakes(Try) && fuel > 0
    ensures R.ApplyPrim(Try, stack, world, b, fuel).world == world
    decreases fuel, 0, 0
  {
    var n := |stack|;
    var r := R.ApplyVal(stack[n-2], stack[..n-2], world, b, fuel - 1);
    ApplyKeepsWorld(stack[n-2], stack[..n-2], world, b, fuel - 1);
    if r.status.Err? { ApplyKeepsWorld(stack[n-1], r.stack, r.world, b, fuel - 1); }
  }

  lemma {:induction false} InnerBindsKeepWorld(names: seq<Name>, f: R.Frame)
    requires !f.scope.top
    ensures R.BindNames(names, f).f.world == f.world && !R.BindNames(names, f).f.scope.top
    decreases |names|
  {
    if names != [] {
      var o := R.BindName(names[|names| - 1], f);
      if o.status.Ok? { InnerBindsKeepWorld(names[..|names| - 1], o.f); }
    }
  }

  lemma {:induction false} InnerItemKeepsWorld(item: Item, f: R.Frame, unit: Form, b: R.BuiltIns, fuel: nat)
    requires !f.scope.top
    ensures R.Eval(item, f, unit, b, fuel).f.world == f.world && !R.Eval(item, f, unit, b, fuel).f.scope.top
    decreases fuel, 3, item
  {
    match item
    case Word(n) =>
      var meaning := R.Resolve(n, f, b);
      if meaning.Means? { ApplyKeepsWorld(meaning.v, f.stack, f.world, b, fuel); }
    case BindMany(names) => InnerBindsKeepWorld(names, f);
    case Parens(items) => InnerKeepsWorld(items, f.(stack := []), unit, b, fuel);
    case ArrayLit(items) => InnerKeepsWorld(items, f.(stack := []), unit, b, fuel);
    case _ =>
  }

  lemma {:induction false} InnerKeepsWorld(items: seq<Item>, f: R.Frame, unit: Form, b: R.BuiltIns, fuel: nat)
    requires !f.scope.top
    ensures R.Items(items, f, unit, b, fuel).f.world == f.world && !R.Items(items, f, unit, b, fuel).f.scope.top
    decreases fuel, 3, items
  {
    if items != [] {
      InnerItemKeepsWorld(items[0], f, unit, b, fuel);
      var o := R.Eval(items[0], f, unit, b, fuel);
      if o.status.Ok? { InnerKeepsWorld(items[1..], o.f, unit, b, fuel); }
    }
  }

  // ---------- the top level of a text ----------

  function Position<T>(w: World<T>, ws: Form, n: Name): Option<nat> { FormGet<nat>(w.tree, ws, n) }

  /** At the top level, the running form and the thread's workspace show the same words, which are the known ones. */
  ghost predicate TopOk(f: R.Frame) {
    && f.scope.top && f.scope.loc == map[] && f.scope.env == map[]
    && WorldOk(f.world) && FormOk(f.world.tree, f.ws)
    && forall n :: Position(f.world, f.ws, n) == Position(f.world, f.world.threadWs, n)
                && (n in f.scope.known <==> Position(f.world, f.ws, n).Some?)
  }

  /** The text binds the name at its top level. */
  ghost predicate Rebinds(item: Item, n: Name)
    decreases item
  {
    match item
    case Bind(m) => m == n
    case BindMany(names) => n in names
    case Parens(items) => exists i :: 0 <= i < |items| && Rebinds(items[i], n)
    case ArrayLit(items) => exists i :: 0 <= i < |items| && Rebinds(items[i], n)
    case _ => false
  }
  ghost predicate AnyRebinds(items: seq<Item>, n: Name) { exists i :: 0 <= i < |items| && Rebinds(items[i], n) }

  /** From f to f' the workspace stays in order, values are only added, and the name keeps its position. */
  ghost predicate KeepsWord(f: R.Frame, f': R.Frame, n: Name) {
    TopOk(f') && f.world.vals <= f'.world.vals &&
      Position(f'.world, f'.world.threadWs, n) == Position(f.world, f.world.threadWs, n)
  }

  /** A word that a form of one table binds, such as the workspace of a compiled function, keeps its position there. */
  ghost predicate StaysIn<T>(w: World<T>, w': World<T>, form: Form, n: Name) {
    FormOk(w.tree, form) ==>
      FormOk(w'.tree, form) &&
        (|form| == 1 && Position(w, form, n).Some? ==> Position(w', form, n) == Position(w, form, n))
  }

  lemma BindAtTop(m: Name, f: R.Frame, n: Name, form: Form)
    requires TopOk(f)
    ensures StaysIn(f.world, R.BindName(m, f).f.world, form, n)
    ensures TopOk(R.BindName(m, f).f) && f.world.vals <= R.BindName(m, f).f.world.vals
    ensures n != m ==> KeepsWord(f, R.BindName(m, f).f, n)
  {
    var k, p := |f.stack|, |f.world.vals|;
    if k > 0 {
      var v := f.stack[k-1];
      BindKeepsWorld(f.world, f.ws, m, v);
      var w', ws' := WorldBind(f.world, f.ws, m, v).0, WorldBind(f.world, f.ws, m, v).1;
      forall i
        ensures Position(w', ws', i) == (if i == m then Some(p) else Position(f.world, f.ws, i))
        ensures Position(w', w'.threadWs, i) == (if i == m then Some(p) else Position(f.world, f.world.threadWs, i)) {
        PositionAfter(f.world, f.ws, m, v, i);
      }
      if FormOk(f.world.tree, form) { PositionElsewhere(f.world, f.ws, m, v, form, n); }
    }
  }

  lemma PositionAfter<T>(w: World<T>, ws: Form, m: Name, v: T, n: Name)
    requires WorldOk(w) && FormOk(w.tree, ws)
    ensures var (w', ws') := WorldBind(w, ws, m, v);
      && Position(w', ws', n) == (if n == m then Some(|w.vals|) else Position(w, ws, n))
      && Position(w', w'.threadWs, n) == (if n == m then Some(|w.vals|) else Position(w, w.threadWs, n))
  {
    var p := |w.vals|;
    var (tree1, ws1) := FormPutImpure<nat>(w.tree, ws, m, p);
    PutSeen(w.tree, ws, m, p, w.threadWs, n);
    PutPositions(w.tree, ws, m, p, p + 1);
    PutSeen(tree1, w.threadWs, m, p, ws1, n);
  }

  lemma PositionElsewhere<T>(w: World<T>, ws: Form, m: Name, v: T, form: Form, n: Name)
    requires WorldOk(w) && FormOk(w.tree, ws) && FormOk(w.tree, form)
    ensures StaysIn(w, WorldBind(w, ws, m, v).0, form, n)
  {
    var p := |w.vals|;
    var (tree1, ws1) := FormPutImpure<nat>(w.tree, ws, m, p);
    PutSeen(w.tree, ws, m, p, form, n);
    PutPositions(w.tree, ws, m, p, p + 1);
    PutSeen(tree1, w.threadWs, m, p, form, n);
    PutPositions(tree1, w.threadWs, m, p, p + 1);
  }

  lemma {:induction false} BindsAtTop(names: seq<Name>, f: R.Frame, n: Name, form: Form)
    requires TopOk(f)
    ensures StaysIn(f.world, R.BindNames(names, f).f.world, form, n)
    ensures TopOk(R.BindNames(names, f).f) && f.world.vals <= R.BindNames(names, f).f.world.vals
    ensures n !in names ==> KeepsWord(f, R.BindNames(names, f).f, n)
    decreases |names|
  {
    if names != [] {
      var m := names[|names| - 1];
      BindAtTop(m, f, n, form);
      var o := R.BindName(m, f);
      if o.status.Ok? { BindsAtTop(names[..|names| - 1], o.f, n, form); }
    }
  }

  lemma {:induction false} ItemAtTop(item: Item, f: R.Frame, unit: Form, b: R.BuiltIns, fuel: nat, n: Name, form: Form)
    requires TopOk(f)
    ensures StaysIn(f.world, R.Eval(item, f, unit, b, fuel).f.world, form, n)
    ensures TopOk(R.Eval(item, f, unit, b, fuel).f) && f.world.vals <= R.Eval(item, f, unit, b, fuel).f.world.vals
    ensures !Rebinds(item, n) ==> KeepsWord(f, R.Eval(item, f, unit, b, fuel).f, n)
    decreases fuel, 3, item
  {
    match item
    case Word(m) =>
      var meaning := R.Resolve(m, f, b);
      if meaning.Means? { ApplyKeepsWorld(meaning.v, f.stack, f.world, b, fuel); }
    case Bind(m) => BindAtTop(m, f, n, form);
    case BindMany(names) => BindsAtTop(names, f, n, form);
    case Parens(items) => ItemsAtTop(items, f.(stack := []), unit, b, fuel, n, form);
    case ArrayLit(items) => ItemsAtTop(items, f.(stack := []), unit, b, fuel, n, form);
    case _ =>
  }

  /** A text, or a part of it, keeps the workspace in order, and every word that it does not bind. */
  lemma {:induction false} ItemsAtTop(items: seq<Item>, f: R.Frame, unit: Form, b: R.BuiltIns, fuel: nat, n: Name,
          form: Form)
    requires TopOk(f)
    ensures StaysIn(f.world, R.Items(items, f, unit, b, fuel).f.world, form, n)
    ensures TopOk(R.Items(items, f, unit, b, fuel).f) && f.world.vals <= R.Items(items, f, unit, b, fuel).f.world.vals
    ensures !AnyRebinds(items, n) ==> KeepsWord(f, R.Items(items, f, unit, b, fuel).f, n)
    decreases fuel, 3, items
  {
    if items != [] {
      ItemAtTop(items[0], f, unit, b, fuel, n, form);
      var o := R.Eval(items[0], f, unit, b, fuel);
      if o.status.Ok? {
        ItemsAtTop(items[1..], o.f, unit, b, fuel, n, form);
        if AnyRebinds(items[1..], n) {
          var i :| 0 <= i < |items[1..]| && Rebinds(items[1..][i], n);
          assert Rebinds(items[i + 1], n);
        }
      }
    }
  }

  // ---------- sessions ----------

  lemma TextKeepsWords(items: seq<Item>, r: State<RVal>, b: R.BuiltIns, fuel: nat, n: Name, form: Form)
    requires WorldOk(r.world)
    ensures var r' := MeanText(items, r, b, fuel).1;
      && WorldOk(r'.world) && StaysIn(r.world, r'.world, form, n)
      && (!AnyRebinds(items, n) ==> Position(r'.world, r'.world.threadWs, n) == Position(r.world, r.world.threadWs, n))
  {
    var scope := R.Scope(map[], map[], Words(r.world), true);
    forall m ensures m in Words(r.world) <==> Position(r.world, r.world.threadWs, m).Some? {
      WordsAreBound(r.world, m);
    }
    var f := R.Frame(r.stack, scope, r.world.threadWs, r.world);
    assert TopOk(f);
    ItemsAtTop(items, f, r.world.threadWs, b, fuel, n, form);
  }

  ghost predicate TextsRebind(texts: seq<seq<Item>>, n: Name) {
    exists i :: 0 <= i < |texts| && AnyRebinds(texts[i], n)
  }

  lemma {:induction false} TextsKeepWords(texts: seq<seq<Item>>, r: State<RVal>, b: R.BuiltIns, fuel: nat, n: Name,
          form: Form)
    requires WorldOk(r.world)
    ensures var r' := MeanTexts(texts, r, b, fuel).1;
      && WorldOk(r'.world) && StaysIn(r.world, r'.world, form, n)
      && (!TextsRebind(texts, n) ==> Position(r'.world, r'.world.threadWs, n) == Position(r.world, r.world.threadWs, n))
  {
    if texts != [] {
      var r1 := MeanText(texts[0], r, b, fuel).1;
      TextKeepsWords(texts[0], r, b, fuel, n, form);
      TextsKeepWords(texts[1..], r1, b, fuel, n, form);
      if i :| 0 <= i < |texts[1..]| && AnyRebinds(texts[1..][i], n) { assert AnyRebinds(texts[i + 1], n); }
    }
  }

  // ---------- the machine only adds values ----------

  lemma {:induction false} ApplyAddsValues(v: Val, stack: seq<Val>, world: World<Val>, fuel: nat)
    ensures world.vals <= M.ApplyVal(v, stack, world, fuel).world.vals
    decreases fuel, 1
  {
    match v
    case Atomic(Prim(op)) => if |stack| >= M.PrimTakes(op) { PrimAddsValues(op, stack, world, fuel); }
    case Rec(f) => if |stack| >= M.Takes(v) && fuel > 0 { ApplyAddsValues(f, stack + [v], world, fuel - 1); }
    case Fun(def, vars) =>
      if |stack| >= def.numArgs && def.numArgs <= def.numLocals && fuel > 0 {
        RunAddsValues(def.code, vars, M.Enter(def, stack, world), fuel - 1);
      }
    case _ =>
  }

  lemma {:induction false} PrimAddsValues(op: PrimOp, stack: seq<Val>, world: World<Val>, fuel: nat)
    requires |stack| >= M.PrimTakes(op)
    ensures world.vals <= M.ApplyPrim(op, stack, world, fuel).world.vals
    decreases fuel, 0, 1
  {
    var n := |stack|;
    if fuel > 0 {
      match op
      case Apply => ApplyAddsValues(stack[n-1], stack[..n-1], world, fuel - 1);
      case If => ApplyAddsValues(if M.IsTrue(stack[n-3]) then stack[n-2]
        else stack[n-1], stack[..n-3], world, fuel - 1);
      case Try => TryAddsValues(stack, world, fuel);
      case _ =>
    }
  }

  lemma {:induction false} TryAddsValues(stack: seq<Val>, world: World<Val>, fuel: nat)
    requires |stack| >= M.PrimTakes(Try) && fuel > 0
    ensures world.vals <= M.ApplyPrim(Try, stack, world, fuel).world.vals
    decreases fuel, 0, 0
  {
    var n := |stack|;
    var r := M.ApplyVal(stack[n-2], stack[..n-2], world, fuel - 1);
    ApplyAddsValues(stack[n-2], stack[..n-2], world, fuel - 1);
    if r.status.Err? { ApplyAddsValues(stack[n-1], r.stack, r.world, fuel - 1); }
  }

  lemma {:induction false} StepAddsValues(op: Op, vars: seq<Val>, f: M.Frame, fuel: nat)
    ensures f.world.vals <= M.Step(op, vars, f, fuel).f.world.vals
    decreases fuel, 3, op
  {
    match op
    case CallImmediate(v) => ApplyAddsValues(Atomic(v), f.stack, f.world, fuel);
    case CallLocalVar(i) => if i < |f.locals| { ApplyAddsValues(f.locals[i], f.stack, f.world, fuel); }
    case CallFunVar(i) => if i < |vars| { ApplyAddsValues(vars[i], f.stack, f.world, fuel); }
    case CallWorkspaceVar(name) =>
      var v := WorldGet(f.world, f.ws, name);
      if v.Some? { ApplyAddsValues(v.value, f.stack, f.world, fuel); }
    case ParensOp(code) => RunAddsValues(code, vars, f.(stack := []), fuel);
    case NewVList(code) => RunAddsValues(code, vars, f.(stack := []), fuel);
    case _ =>
  }

  lemma {:induction false} RunAddsValues(ops: seq<Op>, vars: seq<Val>, f: M.Frame, fuel: nat)
    ensures f.world.vals <= M.RunOps(ops, vars, f, fuel).f.world.vals
    decreases fuel, 3, ops
  {
    if ops != [] && ops[0] != Return {
      StepAddsValues(ops[0], vars, f, fuel);
      var o := M.Step(ops[0], vars, f, fuel);
      if o.status.Ok? { RunAddsValues(ops[1..], vars, o.f, fuel); }
    }
  }

  lemma {:induction false} TextsAddValues(texts: seq<seq<Item>>, s: State<Val>, b: R.BuiltIns, fuel: nat)
    ensures s.world.vals <= RunTexts(texts, s, b, fuel).1.world.vals
  {
    if texts != [] {
      var def := CompileUnit(texts[0], Globals(Words(s.world), b), s.world.threadWs);
      if def.Success? { RunAddsValues(def.value.code, [], M.Frame(s.stack, [], def.value.ws, s.world), fuel); }
      TextsAddValues(texts[1..], RunText(texts[0], s, b, fuel).1, b, fuel);
    }
  }

  // ---------- what a session's words mean ----------

  /** States of the machine and of the reference interpreter that a session can reach together. */
  ghost predicate Reached(s: State<Val>, r: State<RVal>, b: R.BuiltIns) {
    RelSeq(s.stack, r.stack, b) && RelWorld(s.world, r.world, b) && WorldOk(s.world)
  }

  lemma SameShape(w: World<Val>, x: World<RVal>, b: R.BuiltIns)
    requires RelWorld(w, x, b)
    ensures WorldOk(w) <==> WorldOk(x)
    ensures forall form, n :: Position(w, form, n) == Position(x, form, n)
  {}

  /** Any texts, run from a reachable state, keep the words that they do not bind, with their very values. */
  lemma RunsKeepWords(texts: seq<seq<Item>>, s: State<Val>, r: State<RVal>, b: R.BuiltIns, fuel: nat, n: Name,
          form: Form)
    requires Reached(s, r, b)
    ensures var s', r' := RunTexts(texts, s, b, fuel).1, MeanTexts(texts, r, b, fuel).1;
      && Reached(s', r', b) && s.world.vals <= s'.world.vals && StaysIn(s.world, s'.world, form, n)
      && (!TextsRebind(texts, n) ==> WorldGet(s'.world, s'.world.threadWs, n) == WorldGet(s.world, s.world.threadWs, n))
  {
    var s', r' := RunTexts(texts, s, b, fuel).1, MeanTexts(texts, r, b, fuel).1;
    SimTexts(texts, s, r, b, fuel);
    SameShape(s.world, r.world, b);
    TextsKeepWords(texts, r, b, fuel, n, form);
    SameShape(s'.world, r'.world, b);
    TextsAddValues(texts, s, b, fuel);
    if !TextsRebind(texts, n) { SamePosition(s.world, s'.world, s.world.threadWs, s'.world.threadWs, n); }
  }

  /** Binding a word takes the value from the stack; afterwards the word stands for that value. */
  lemma BindText(s: State<Val>, b: R.BuiltIns, fuel: nat, n: Name)
    requires WorldOk(s.world) && s.stack != []
    ensures var (report, s') := RunText([Bind(n)], s, b, fuel);
      && report == Ran(Ok) && s'.stack == s.stack[..|s.stack| - 1] && WorldOk(s'.world)
      && WorldGet(s'.world, s'.world.threadWs, n) == Some(s.stack[|s.stack| - 1])
  {
    var g, unit := Globals(Words(s.world), b), s.world.threadWs;
    var op := BindWorkspaceVar(n);
    assert CompileItems([Bind(n)], [Top([])], g, unit).value.0 == [op];
    var f := M.Frame(s.stack, [], unit, s.world);
    RunOpThenReturn(op, f, fuel);
    BindKeepsWorld(s.world, unit, n, s.stack[|s.stack| - 1]);
    BindingIsFound(s.world, unit, n, s.stack[|s.stack| - 1], n);
  }

  /** A backquoted word pushes the value that it stands for. */
  lemma LookText(s: State<Val>, b: R.BuiltIns, fuel: nat, n: Name)
    requires WorldOk(s.world) && WorldGet(s.world, s.world.threadWs, n).Some?
    ensures var (report, s') := RunText([Backquote(n)], s, b, fuel);
      report == Ran(Ok) && s'.world == s.world && s'.stack == s.stack + [WorldGet(s.world, s.world.threadWs, n).value]
  {
    var g, unit := Globals(Words(s.world), b), s.world.threadWs;
    WordsAreBound(s.world, n);
    var op := PushWorkspaceVar(n);
    assert CompileItems([Backquote(n)], [Top([])], g, unit).value.0 == [op];
    RunOpThenReturn(op, M.Frame(s.stack, [], unit, s.world), fuel);
  }

  lemma RunOpThenReturn(op: Op, f: M.Frame, fuel: nat)
    requires op != Return
    ensures M.RunOps([op] + [Return], [], f, fuel) == M.Step(op, [], f, fuel)
  {
    var ops := [op] + [Return];
    assert ops[1..] == [Return];
    var o := M.Step(op, [], f, fuel);
    if o.status.Ok? { assert M.RunOps([Return], [], o.f, fuel) == M.Out(Ok, o.f); }
  }

  /**
    In any session: `= x` takes the value from the stack, and after any further texts that do not bind
    x at their top level, whatever other words they bind, x still pushes that value.
   */
  lemma WordsKeepTheirValues(before: seq<seq<Item>>, after: seq<seq<Item>>, b: R.BuiltIns, fuel: nat, n: Name)
    requires !TextsRebind(after, n)
    ensures var s := RunTexts(before, State([], World(EmptyTree, [], [0])), b, fuel).1;
      s.stack != [] ==>
        var v, (report1, s1) := s.stack[|s.stack| - 1], RunText([Bind(n)], s, b, fuel);
        var s2 := RunTexts(after, s1, b, fuel).1;
        var (report2, s3) := RunText([Backquote(n)], s2, b, fuel);
        && report1 == Ran(Ok) && s1.stack == s.stack[..|s.stack| - 1]
        && report2 == Ran(Ok) && s3.stack == s2.stack + [v]
  {
    var s0: State<Val> := State([], World(EmptyTree, [], [0]));
    var r0: State<RVal> := State([], World(EmptyTree, [], [0]));
    assert Placed(EmptyTree, []);
    RunsKeepWords(before, s0, r0, b, fuel, n, [0]);
    var s, r := RunTexts(before, s0, b, fuel).1, MeanTexts(before, r0, b, fuel).1;
    if s.stack != [] {
      BindText(s, b, fuel, n);
      SimText([Bind(n)], s, r, b, fuel);
      var s1, r1 := RunText([Bind(n)], s, b, fuel).1, MeanText([Bind(n)], r, b, fuel).1;
      RunsKeepWords(after, s1, r1, b, fuel, n, [0]);
      LookText(RunTexts(after, s1, b, fuel).1, b, fuel, n);
    }
  }

  /** A word that was bound when a function was compiled keeps its value inside the function for good. */
  lemma FunctionWordsStay(texts: seq<seq<Item>>, s: State<Val>, r: State<RVal>, b: R.BuiltIns, fuel: nat, n: Name,
          form: Form)
    requires Reached(s, r, b) && FormOk(s.world.tree, form) && |form| == 1 && WorldGet(s.world, form, n).Some?
    ensures var s' := RunTexts(texts, s, b, fuel).1; WorldGet(s'.world, form, n) == WorldGet(s.world, form, n)
  {
    RunsKeepWords(texts, s, r, b, fuel, n, form);
    SamePosition(s.world, RunTexts(texts, s, b, fuel).1.world, form, form, n);
  }
}
