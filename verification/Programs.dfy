/**
  What small programs do when they are typed at the prompt, for all values: arguments and captured
  variables reach the places where they are named, `if` takes its branch, `try` its handler, a failure
  ends the text, and names in a list are bound to the values in order.
 */
module Programs {
  import opened Basics
  import opened Workspace
  import opened Syntax
  import opened Compiler
  import opened Bindings
  import opened Sessions
  import opened Simulation
  import opened TopLevel
  import M = Machine
  import R = Reference

  /** The word stands for the built-in primitive. */
  predicate IsBuiltInWord(s: State<Val>, b: R.BuiltIns, n: Name, op: PrimOp) {
    n !in Words(s.world) && n in b && b[n] == Prim(op)
  }

  /** Values that push themselves when they are applied. */
  predicate Constant(v: Val) {
    match v
    case Atomic(Prim(_)) => false
    case Atomic(_) => true
    case List(_) => true
    case _ => false
  }

  /** A text that compiles to the code does what the code does. */
  lemma RunsCode(items: seq<Item>, code: seq<Op>, s: State<Val>, b: R.BuiltIns, fuel: nat)
    requires CompileItems(items, [Top([])], Globals(Words(s.world), b), s.world.threadWs).Success?
    requires CompileItems(items, [Top([])], Globals(Words(s.world), b), s.world.threadWs).value.0 == code &&
      NoReturn(code)
    ensures var o := M.RunOps(code, [], M.Frame(s.stack, [], s.world.threadWs, s.world), fuel);
      RunText(items, s, b, fuel) == (Ran(o.status), State(o.f.stack, o.f.world))
  {
    RunBlock(code, [], M.Frame(s.stack, [], s.world.threadWs, s.world), fuel);
  }

  lemma {:induction false} RunsOne(item: Item, op: Op, s: State<Val>, b: R.BuiltIns, fuel: nat)
    requires CompileItem(item, [Top([])], Globals(Words(s.world), b), s.world.threadWs).Success?
    requires CompileItem(item, [Top([])], Globals(Words(s.world), b), s.world.threadWs).value.0 == [op] && op != Return
    ensures var o := M.Step(op, [], M.Frame(s.stack, [], s.world.threadWs, s.world), fuel);
      RunText([item], s, b, fuel) == (Ran(o.status), State(o.f.stack, o.f.world))
  {
    var g, unit := Globals(Words(s.world), b), s.world.threadWs;
    var (ops, c1) := CompileItem(item, [Top([])], g, unit).value;
    assert [item][1..] == [] && CompileItems([], c1, g, unit) == Success(([], c1));
    assert [op] + [] == [op];
    RunsCode([item], [op], s, b, fuel);
    RunOne(op, [], M.Frame(s.stack, [], unit, s.world), fuel);
  }

  lemma PushesItself(v: Val, stack: seq<Val>, world: World<Val>, fuel: nat)
    requires Constant(v)
    ensures M.ApplyVal(v, stack, world, fuel) == M.AOut(Ok, stack + [v], world)
  {}

  lemma BuiltInText(s: State<Val>, b: R.BuiltIns, n: Name, op: PrimOp, fuel: nat)
    requires IsBuiltInWord(s, b, n, op)
    ensures var o := M.ApplyVal(Atomic(Prim(op)), s.stack, s.world, fuel);
      RunText([Word(n)], s, b, fuel) == (Ran(o.status), State(o.stack, o.world))
  {
    RunsOne(Word(n), CallImmediate(Prim(op)), s, b, fuel);
  }

  /** `if` runs the first of its branches unless the condition is zero; branches that are constants are pushed. */
  lemma IfText(s: State<Val>, rest: seq<Val>, c: Val, t: Val, e: Val, b: R.BuiltIns, n: Name, fuel: nat)
    requires s.stack == rest + [c, t, e] && Constant(t) && Constant(e) && IsBuiltInWord(s, b, n, If) && fuel > 0
    ensures RunText([Word(n)], s, b, fuel) ==
      (Ran(Ok), State(rest + [if c == Atomic(Real(0.0)) then e else t], s.world))
  {
    BuiltInText(s, b, n, If, fuel);
    var k := |s.stack|;
    assert s.stack[..k-3] == rest && s.stack[k-3] == c && s.stack[k-2] == t && s.stack[k-1] == e;
    var branch := if c == Atomic(Real(0.0)) then e else t;
    PushesItself(branch, rest, s.world, fuel - 1);
    assert M.ApplyPrim(If, s.stack, s.world, fuel) == M.ApplyVal(branch, rest, s.world, fuel - 1);
  }

  /** When the code under `try` throws, the handler runs on what is left, and the exception goes on. */
  lemma TryText(s: State<Val>, rest: seq<Val>, h: Val, b: R.BuiltIns, n: Name, fuel: nat)
    requires s.stack == rest + [Atomic(Prim(Throw)), h] && Constant(h) && IsBuiltInWord(s, b, n, Try) && fuel > 0
    ensures RunText([Word(n)], s, b, fuel) == (Ran(Err(Thrown)), State(rest + [h], s.world))
  {
    BuiltInText(s, b, n, Try, fuel);
    var k := |s.stack|;
    assert s.stack[..k-2] == rest && s.stack[k-2] == Atomic(Prim(Throw)) && s.stack[k-1] == h;
    assert M.ApplyVal(Atomic(Prim(Throw)), rest, s.world, fuel - 1) == M.AOut(Err(Thrown), rest, s.world) by {
      assert M.ApplyPrim(Throw, rest, s.world, fuel - 1) == M.AOut(Err(Thrown), rest, s.world);
    }
    PushesItself(h, rest, s.world, fuel - 1);
    assert M.ApplyPrim(Try, s.stack, s.world, fuel) == M.AOut(Err(Thrown), rest + [h], s.world);
  }

  /** When it does not, the handler is dropped. */
  lemma TryPassesText(s: State<Val>, rest: seq<Val>, v: Val, h: Val, b: R.BuiltIns, n: Name, fuel: nat)
    requires s.stack == rest + [v, h] && Constant(v) && IsBuiltInWord(s, b, n, Try) && fuel > 0
    ensures RunText([Word(n)], s, b, fuel) == (Ran(Ok), State(rest + [v], s.world))
  {
    BuiltInText(s, b, n, Try, fuel);
    var k := |s.stack|;
    assert s.stack[..k-2] == rest && s.stack[k-2] == v && s.stack[k-1] == h;
    PushesItself(v, rest, s.world, fuel - 1);
    assert M.ApplyPrim(Try, s.stack, s.world, fuel) == M.AOut(Ok, rest + [v], s.world);
  }

  /** `not` is one exactly on zero. */
  lemma NotText(s: State<Val>, rest: seq<Val>, v: Val, b: R.BuiltIns, n: Name, fuel: nat)
    requires s.stack == rest + [v] && IsBuiltInWord(s, b, n, Not)
    ensures RunText([Word(n)], s, b, fuel) ==
      (Ran(Ok), State(rest + [Atomic(Real(if v == Atomic(Real(0.0)) then 1.0 else 0.0))], s.world))
  {
    BuiltInText(s, b, n, Not, fuel);
    var k := |s.stack|;
    assert s.stack[..k-1] == rest && s.stack[k-1] == v;
  }

  /** A shuffle leaves, in order, the arguments that it picks. */
  lemma ShuffleText(s: State<Val>, rest: seq<Val>, args: seq<Val>, picks: seq<nat>, b: R.BuiltIns, n: Name, fuel: nat)
    requires s.stack == rest + args && IsBuiltInWord(s, b, n, Shuffle(|args|, picks))
    requires forall i :: 0 <= i < |picks| ==> picks[i] < |args|
    ensures var (report, s') := RunText([Word(n)], s, b, fuel);
      && report == Ran(Ok) && s'.world == s.world && |s'.stack| == |rest| + |picks| && s'.stack[..|rest|] == rest
      && forall i :: 0 <= i < |picks| ==> s'.stack[|rest| + i] == args[picks[i]]
  {
    BuiltInText(s, b, n, Shuffle(|args|, picks), fuel);
    assert s.stack[..|s.stack| - |args|] == rest && s.stack[|s.stack| - |args|..] == args;
  }

  /** `clear` leaves nothing, `cleard` the top. */
  lemma ClearText(s: State<Val>, b: R.BuiltIns, n: Name, op: PrimOp, fuel: nat)
    requires (op.Clear? || (op.Cleard? && s.stack != [])) && IsBuiltInWord(s, b, n, op)
    ensures RunText([Word(n)], s, b, fuel) ==
      (Ran(Ok), State(if op.Clear? then [] else [s.stack[|s.stack| - 1]], s.world))
  {
    BuiltInText(s, b, n, op, fuel);
    assert M.ApplyVal(Atomic(Prim(op)), s.stack, s.world, fuel) == M.ApplyPrim(op, s.stack, s.world, fuel);
  }

  lemma LiteralText(s: State<Val>, b: R.BuiltIns, r: real, n: Name, fuel: nat)
    ensures RunText([Num(r)], s, b, fuel) == (Ran(Ok), State(s.stack + [Atomic(Real(r))], s.world))
    ensures RunText([Quote(n)], s, b, fuel) == (Ran(Ok), State(s.stack + [Atomic(Sym(n))], s.world))
  {
    RunsOne(Num(r), PushImmediate(Real(r)), s, b, fuel);
    RunsOne(Quote(n), PushImmediate(Sym(n)), s, b, fuel);
  }

  // ---------- failures ----------

  /** A primitive that lacks arguments fails and takes none. */
  lemma UnderflowText(s: State<Val>, b: R.BuiltIns, n: Name, op: PrimOp, fuel: nat)
    requires IsBuiltInWord(s, b, n, op)
    requires (s.stack == [] && (op.Apply? || op.Not? || op.Y? || op.Cleard?)) || (|s.stack| < 2 && op.Try?)
      || (|s.stack| < 3 && op.If?) || (op.Shuffle? && |s.stack| < op.takes)
    ensures RunText([Word(n)], s, b, fuel) == (Ran(Err(StackUnderflow)), s)
  {
    BuiltInText(s, b, n, op, fuel);
    if op.Cleard? {
      assert M.ApplyPrim(op, s.stack, s.world, fuel) == M.AOut(Err(StackUnderflow), s.stack, s.world);
    }
  }

  /** So does a function. */
  lemma TooFewArgumentsText(s: State<Val>, rest: seq<Val>, def: FunDef, vars: seq<Val>, b: R.BuiltIns, n: Name,
                            fuel: nat)
    requires s.stack == rest + [Fun(def, vars)] && |rest| < def.numArgs && IsBuiltInWord(s, b, n, Apply) && fuel > 0
    ensures RunText([Word(n)], s, b, fuel) == (Ran(Err(StackUnderflow)), State(rest, s.world))
  {
    BuiltInText(s, b, n, Apply, fuel);
    AppliesTop(rest, Fun(def, vars), s.world, fuel);
  }

  /** A failure ends the text: what stands after it is not run. */
  lemma ThrowStopsText(s: State<Val>, b: R.BuiltIns, n: Name, r: real, fuel: nat)
    requires IsBuiltInWord(s, b, n, Throw)
    ensures RunText([Word(n), Num(r)], s, b, fuel) == (Ran(Err(Thrown)), s)
  {
    var throw, number := CallImmediate(Prim(Throw)), PushImmediate(Real(r));
    var g, unit := Globals(Words(s.world), b), s.world.threadWs;
    CompileTwo(Word(n), Num(r), throw, number, g, unit);
    RunsCode([Word(n), Num(r)], [throw, number], s, b, fuel);
    var f := M.Frame(s.stack, [], unit, s.world);
    assert M.Step(throw, [], f, fuel) == M.Out(Err(Thrown), f) by {
      assert M.ApplyVal(Atomic(Prim(Throw)), s.stack, s.world, fuel) == M.ApplyPrim(Throw, s.stack, s.world, fuel);
    }
  }

  // ---------- recursion ----------

  /** `Y` makes a recursive function of one that takes arguments, and fails on anything else. */
  lemma YText(s: State<Val>, rest: seq<Val>, f: Val, b: R.BuiltIns, n: Name, fuel: nat)
    requires s.stack == rest + [f] && IsBuiltInWord(s, b, n, Y)
    ensures RunText([Word(n)], s, b, fuel) ==
      if M.Takes(f) >= 1 then (Ran(Ok), State(rest + [Rec(f)], s.world)) else (Ran(Err(Failed)), State(rest, s.world))
  {
    BuiltInText(s, b, n, Y, fuel);
    assert s.stack[..|s.stack| - 1] == rest && s.stack[|s.stack| - 1] == f;
    assert M.ApplyVal(Atomic(Prim(Y)), s.stack, s.world, fuel) == M.ApplyPrim(Y, s.stack, s.world, fuel);
  }

  /** Applying it is applying the function to its arguments and to the recursive function itself. */
  lemma RecursionText(s: State<Val>, rest: seq<Val>, f: Val, b: R.BuiltIns, n: Name, fuel: nat)
    requires s.stack == rest + [Rec(f)] && |rest| >= M.Takes(f) - 1 && IsBuiltInWord(s, b, n, Apply) && fuel > 1
    ensures RunText([Word(n)], s, b, fuel) == RunText([Word(n)], State(rest + [Rec(f), f], s.world), b, fuel - 1)
  {
    var once := State(rest + [Rec(f), f], s.world);
    BuiltInText(s, b, n, Apply, fuel);
    BuiltInText(once, b, n, Apply, fuel - 1);
    AppliesTop(rest, Rec(f), s.world, fuel);
    AppliesTop(rest + [Rec(f)], f, s.world, fuel - 1);
    assert rest + [Rec(f)] + [f] == once.stack;
  }

  // ---------- functions ----------

  /** A function of distinct arguments finds each of them under its own name. */
  lemma ArgumentText(s: State<Val>, rest: seq<Val>, vals: seq<Val>, args: seq<Name>, i: nat, b: R.BuiltIns, n: Name,
          fuel: nat)
    requires s.stack == rest + vals && |vals| == |args| <= USHRT_MAX && Distinct(args) && i < |args|
    requires IsBuiltInWord(s, b, n, Apply) && fuel > 1
    ensures RunText([Lambda(args, [Backquote(args[i])]), Word(n)], s, b, fuel) ==
      (Ran(Ok), State(rest + [vals[i]], s.world))
  {
    var g, unit := Globals(Words(s.world), b), s.world.threadWs;
    var body := [Backquote(args[i])];
    var def := FunDef([PushLocalVar(i), Return], |args|, |args|, 0, unit);
    var code := [PushFun(def), CallImmediate(Prim(Apply))];
    ArgumentCode(args, i, g, unit);
    CompileTwo(Lambda(args, body), Word(n), PushFun(def), CallImmediate(Prim(Apply)), g, unit);
    RunsCode([Lambda(args, body), Word(n)], code, s, b, fuel);
    var f := M.Frame(s.stack, [], unit, s.world);
    ArgumentRuns(def, i, f, rest, vals, fuel);
  }

  /** Pushes the function and calls it. */
  lemma ArgumentRuns(def: FunDef, i: nat, f: M.Frame, rest: seq<Val>, vals: seq<Val>, fuel: nat)
    requires def.code == [PushLocalVar(i), Return] && def.numVars == 0 && i < |vals| == def.numArgs == def.numLocals
    requires f.stack == rest + vals && fuel > 1
    ensures M.RunOps([PushFun(def), CallImmediate(Prim(Apply))], [], f, fuel) ==
      M.Out(Ok, f.(stack := rest + [vals[i]]))
  {
    var f1 := f.(stack := f.stack + [Fun(def, [])]);
    assert f.stack[..|f.stack|] == f.stack && f.stack[|f.stack|..] == [];
    RunTwo(PushFun(def), CallImmediate(Prim(Apply)), f, f1, fuel);
    assert M.Step(CallImmediate(Prim(Apply)), [], f1, fuel) == M.Out(Ok, f.(stack := rest + [vals[i]])) by {
      CallsConstant(def, [], f.stack, rest, vals, f.world, PushLocalVar(i), vals[i], fuel - 1);
      AppliesTop(f.stack, Fun(def, []), f.world, fuel);
    }
  }

  lemma ArgumentCode(args: seq<Name>, i: nat, g: Globals, unit: Form)
    requires Distinct(args) && i < |args| <= USHRT_MAX
    ensures CompileItem(Lambda(args, [Backquote(args[i])]), [Top([])], g, unit) ==
      Success(([PushFun(FunDef([PushLocalVar(i), Return], |args|, |args|, 0, unit))], [Top([])]))
  {
    assert FirstIndex(args, args[i]) == i;
    var inner := [Inner(args, []), Top([])];
    assert IndirectLookup(inner, args[i], g) == (IsLocal(i), inner);
    OneItem(Backquote(args[i]), [PushLocalVar(i)], inner, inner, g, unit);
    LambdaCode(args, [Backquote(args[i])], [PushLocalVar(i)], g, unit);
    assert [PushLocalVar(i)] + [Return] == [PushLocalVar(i), Return];
  }

  lemma AppliesTop(stack: seq<Val>, v: Val, world: World<Val>, fuel: nat)
    requires fuel > 0
    ensures M.ApplyVal(Atomic(Prim(Apply)), stack + [v], world, fuel) == M.ApplyVal(v, stack, world, fuel - 1)
  {
    var all := stack + [v];
    assert all[..|all| - 1] == stack && all[|all| - 1] == v;
    assert M.ApplyPrim(Apply, all, world, fuel) == M.ApplyVal(v, stack, world, fuel - 1);
  }

  /** The code of a lambda that captures nothing. */
  lemma LambdaCode(args: seq<Name>, body: seq<Item>, code: seq<Op>, g: Globals, unit: Form)
    requires |args| <= USHRT_MAX
    requires CompileItems(body, [Inner(args, []), Top([])], g, unit) == Success((code, [Inner(args, []), Top([])]))
    ensures CompileItem(Lambda(args, body), [Top([])], g, unit) ==
      Success(([PushFun(FunDef(code + [Return], |args|, |args|, 0, unit))], [Top([])]))
  {
    assert [Inner(args, [])] + [Top([])] == [Inner(args, []), Top([])];
    var def := FunDef(code + [Return], |args|, |args|, 0, unit);
    assert CapturePushes([]) + [PushFun(def)] == [PushFun(def)];
    assert [Inner(args, []), Top([])][1..] == [Top([])];
  }

  lemma CompileTwo(x: Item, y: Item, op1: Op, op2: Op, g: Globals, unit: Form)
    requires CompileItem(x, [Top([])], g, unit) == Success(([op1], [Top([])]))
    requires CompileItem(y, [Top([])], g, unit) == Success(([op2], [Top([])]))
    ensures CompileItems([x, y], [Top([])], g, unit) == Success(([op1, op2], [Top([])]))
  {
    assert [x, y][1..] == [y] && [y][1..] == [];
    assert CompileItems([], [Top([])], g, unit) == Success(([], [Top([])]));
    assert [op2] + [] == [op2] && [op1] + [op2] == [op1, op2];
    assert CompileItems([y], [Top([])], g, unit) == Success(([op2], [Top([])]));
  }

  lemma RunTwo(op1: Op, op2: Op, f: M.Frame, f1: M.Frame, fuel: nat)
    requires op1 != Return && op2 != Return && M.Step(op1, [], f, fuel) == M.Out(Ok, f1)
    ensures M.RunOps([op1, op2], [], f, fuel) == M.Step(op2, [], f1, fuel)
  {
    assert [op1, op2][1..] == [op2];
    RunOne(op2, [], f1, fuel);
  }

  /** Calling a function whose code is one push. */
  lemma CallsConstant(def: FunDef, vars: seq<Val>, stack: seq<Val>, rest: seq<Val>, vals: seq<Val>, world: World<Val>,
                      op: Op, v: Val, fuel: nat)
    requires def.code == [op, Return] && op != Return && stack == rest + vals && |vals| == def.numArgs == def.numLocals
    requires fuel > 0 && M.Step(op, vars, M.Frame([], vals, def.ws, world), fuel - 1) ==
      M.Out(Ok, M.Frame([v], vals, def.ws, world))
    ensures M.ApplyVal(Fun(def, vars), stack, world, fuel) == M.AOut(Ok, rest + [v], world)
  {
    assert stack[..|stack| - def.numArgs] == rest && stack[|stack| - def.numArgs..] == vals;
    assert vals + M.Zeros(0) == vals;
    assert [op, Return][1..] == [Return];
    assert M.RunOps([Return], vars, M.Frame([v], vals, def.ws, world), fuel - 1).status.Ok?;
  }

  /** A function made inside another one keeps the argument that it names, after the outer function has returned. */
  lemma ClosureText(s: State<Val>, rest: seq<Val>, vals: seq<Val>, args: seq<Name>, i: nat, b: R.BuiltIns, n: Name,
          fuel: nat)
    requires s.stack == rest + vals && |vals| == |args| <= USHRT_MAX && Distinct(args) && i < |args|
    requires IsBuiltInWord(s, b, n, Apply) && fuel > 1
    ensures RunText([Lambda(args, [Lambda([], [Backquote(args[i])])]), Word(n), Word(n)], s, b, fuel) ==
      (Ran(Ok), State(rest + [vals[i]], s.world))
  {
    var g, unit := Globals(Words(s.world), b), s.world.threadWs;
    var inner := FunDef([PushFunVar(0), Return], 0, 0, 1, unit);
    var outer := FunDef([PushLocalVar(i), PushFun(inner), Return], |args|, |args|, 0, unit);
    var items := [Lambda(args, [Lambda([], [Backquote(args[i])])]), Word(n), Word(n)];
    var call := CallImmediate(Prim(Apply));
    ClosureCode(args, i, g, unit);
    CompileThree(items[0], Word(n), Word(n), PushFun(outer), call, call, g, unit);
    RunsCode(items, [PushFun(outer), call, call], s, b, fuel);
    var f := M.Frame(s.stack, [], unit, s.world);
    CallsTwice(outer, inner, i, f, rest, vals, fuel);
  }

  /** Pushes the outer function, calls it, and calls what it leaves. */
  lemma CallsTwice(outer: FunDef, inner: FunDef, i: nat, f: M.Frame, rest: seq<Val>, vals: seq<Val>, fuel: nat)
    requires outer.code == [PushLocalVar(i), PushFun(inner), Return] && inner.code == [PushFunVar(0), Return]
    requires inner.numArgs == inner.numLocals == 0 && inner.numVars == 1 && outer.numVars == 0
    requires f.stack == rest + vals && |vals| == outer.numArgs == outer.numLocals && i < |vals| && fuel > 1
    ensures var call := CallImmediate(Prim(Apply));
      M.RunOps([PushFun(outer), call, call], [], f, fuel) == M.Out(Ok, f.(stack := rest + [vals[i]]))
  {
    var call := CallImmediate(Prim(Apply));
    var f1, f2 := f.(stack := f.stack + [Fun(outer, [])]), f.(stack := rest + [Fun(inner, [vals[i]])]);
    assert M.Step(PushFun(outer), [], f, fuel) == M.Out(Ok, f1) by {
      assert f.stack[..|f.stack|] == f.stack && f.stack[|f.stack|..] == [];
    }
    assert M.Step(call, [], f1, fuel) == M.Out(Ok, f2) by {
      MakesClosure(outer, inner, i, f.stack, rest, vals, f.world, fuel - 1);
      AppliesTop(f.stack, Fun(outer, []), f.world, fuel);
    }
    assert M.Step(call, [], f2, fuel) == M.Out(Ok, f.(stack := rest + [vals[i]])) by {
      assert rest + [] == rest;
      CallsConstant(inner, [vals[i]], rest, rest, [], f.world, PushFunVar(0), vals[i], fuel - 1);
      AppliesTop(rest, Fun(inner, [vals[i]]), f.world, fuel);
    }
    RunThree(PushFun(outer), call, call, f, f1, f2, fuel);
  }

  lemma ClosureCode(args: seq<Name>, i: nat, g: Globals, unit: Form)
    requires Distinct(args) && i < |args| <= USHRT_MAX
    ensures var inner := FunDef([PushFunVar(0), Return], 0, 0, 1, unit);
      var outer := FunDef([PushLocalVar(i), PushFun(inner), Return], |args|, |args|, 0, unit);
      CompileItem(Lambda(args, [Lambda([], [Backquote(args[i])])]), [Top([])], g, unit) ==
        Success(([PushFun(outer)], [Top([])]))
  {
    var inner := FunDef([PushFunVar(0), Return], 0, 0, 1, unit);
    var one, two := [Inner(args, []), Top([])], [Inner([], []), Inner(args, []), Top([])];
    var v := VarDef(args[i], true, i);
    var two' := [Inner([], [v]), Inner(args, []), Top([])];
    assert FirstIndex(args, args[i]) == i && two[1..] == one && [] + [v] == [v] && [Inner([], [v])] + one == two' &&
      two'[1..] == one;
    assert IndirectLookup(one, args[i], g) == (IsLocal(i), one);
    assert IndirectLookup(two, args[i], g) == (IsFunVar(0), two');
    assert CompileItem(Backquote(args[i]), two, g, unit) == Success(([PushFunVar(0)], two'));
    OneItem(Backquote(args[i]), [PushFunVar(0)], two, two', g, unit);
    assert [Inner([], [])] + one == two && [PushFunVar(0)] + [Return] == inner.code;
    assert CapturePushes([v]) + [PushFun(inner)] == [PushLocalVar(i), PushFun(inner)];
    assert CompileItem(Lambda([], [Backquote(args[i])]), one, g, unit) ==
      Success(([PushLocalVar(i), PushFun(inner)], one));
    OneItem(Lambda([], [Backquote(args[i])]), [PushLocalVar(i), PushFun(inner)], one, one, g, unit);
    LambdaCode(args, [Lambda([], [Backquote(args[i])])], [PushLocalVar(i), PushFun(inner)], g, unit);
    assert [PushLocalVar(i), PushFun(inner)] + [Return] == [PushLocalVar(i), PushFun(inner), Return];
  }

  lemma OneItem(item: Item, ops: seq<Op>, chain: Chain, chain': Chain, g: Globals, unit: Form)
    requires CompileItem(item, chain, g, unit) == Success((ops, chain'))
    ensures CompileItems([item], chain, g, unit) == Success((ops, chain'))
  {
    assert [item][1..] == [] && CompileItems([], chain', g, unit) == Success(([], chain')) && ops + [] == ops;
  }

  lemma CompileThree(x: Item, y: Item, z: Item, op1: Op, op2: Op, op3: Op, g: Globals, unit: Form)
    requires CompileItem(x, [Top([])], g, unit) == Success(([op1], [Top([])]))
    requires CompileItem(y, [Top([])], g, unit) == Success(([op2], [Top([])]))
    requires CompileItem(z, [Top([])], g, unit) == Success(([op3], [Top([])]))
    ensures CompileItems([x, y, z], [Top([])], g, unit) == Success(([op1, op2, op3], [Top([])]))
  {
    CompileTwo(y, z, op2, op3, g, unit);
    assert [x, y, z][1..] == [y, z] && [op1] + [op2, op3] == [op1, op2, op3];
  }

  lemma RunThree(op1: Op, op2: Op, op3: Op, f: M.Frame, f1: M.Frame, f2: M.Frame, fuel: nat)
    requires op1 != Return && op2 != Return && op3 != Return
    requires M.Step(op1, [], f, fuel) == M.Out(Ok, f1) && M.Step(op2, [], f1, fuel) == M.Out(Ok, f2)
    ensures M.RunOps([op1, op2, op3], [], f, fuel) == M.Step(op3, [], f2, fuel)
  {
    assert [op1, op2, op3][1..] == [op2, op3];
    RunTwo(op2, op3, f1, f2, fuel);
  }

  lemma MakesClosure(outer: FunDef, inner: FunDef, i: nat, stack: seq<Val>, rest: seq<Val>, vals: seq<Val>,
                     world: World<Val>, fuel: nat)
    requires outer.code == [PushLocalVar(i), PushFun(inner), Return] && stack == rest + vals
    requires |vals| == outer.numArgs == outer.numLocals && i < |vals| && inner.numVars == 1 && fuel > 0
    ensures M.ApplyVal(Fun(outer, []), stack, world, fuel) == M.AOut(Ok, rest + [Fun(inner, [vals[i]])], world)
  {
    var f := M.Frame([], vals, outer.ws, world);
    assert M.Enter(outer, stack, world) == f && stack[..|stack| - outer.numArgs] == rest by {
      assert vals + M.Zeros(0) == vals;
    }
    assert M.RunOps(outer.code, [], f, fuel - 1) == M.Out(Ok, f.(stack := [Fun(inner, [vals[i]])])) by {
      ClosureRuns(outer, inner, i, f, fuel - 1);
    }
  }

  lemma ClosureRuns(outer: FunDef, inner: FunDef, i: nat, f: M.Frame, fuel: nat)
    requires outer.code == [PushLocalVar(i), PushFun(inner), Return] && f.stack == [] && i < |f.locals| &&
      inner.numVars == 1
    ensures M.RunOps(outer.code, [], f, fuel) == M.Out(Ok, f.(stack := [Fun(inner, [f.locals[i]])]))
  {
    var v := f.locals[i];
    var f1 := f.(stack := [v]);
    assert [v][..0] == [] && [v][0..] == [v] && [] + [v] == [v];
    assert M.Step(PushLocalVar(i), [], f, fuel) == M.Out(Ok, f1);
    RunTwo(PushLocalVar(i), PushFun(inner), f, f1, fuel);
    RunBlock([PushLocalVar(i), PushFun(inner)], [], f, fuel);
    assert [PushLocalVar(i), PushFun(inner)] + [Return] == outer.code;
  }

  // ---------- binding several names ----------

  lemma BindManyCode(names: seq<Name>, s: State<Val>, b: R.BuiltIns, fuel: nat)
    requires names != []
    ensures var g, f := Globals(Words(s.world), b), M.Frame(s.stack, [], s.world.threadWs, s.world);
      var r := BindAll([Top([])], names, g);
      r.Success? ==> var o := M.RunOps(r.value.0, [], f, fuel);
        RunText([BindMany(names)], s, b, fuel) == (Ran(o.status), State(o.f.stack, o.f.world))
  {
    var g, unit := Globals(Words(s.world), b), s.world.threadWs;
    var r := BindAll([Top([])], names, g);
    if r.Success? {
      BindAllNoReturn(names, [Top([])], g);
      OneItem(BindMany(names), r.value.0, [Top([])], r.value.1, g, unit);
      RunsCode([BindMany(names)], r.value.0, s, b, fuel);
    }
  }

  /** `= (x y z)` binds each name to the value at its place, and no other word changes. */
  lemma BindManyText(s: State<Val>, rest: seq<Val>, vals: seq<Val>, names: seq<Name>, b: R.BuiltIns, fuel: nat)
    requires WorldOk(s.world) && s.stack == rest + vals && |vals| == |names| > 0 && Distinct(names)
    ensures var (report, s') := RunText([BindMany(names)], s, b, fuel);
      && report == Ran(Ok) && s'.stack == rest && WorldOk(s'.world)
      && (forall i :: 0 <= i < |names| ==> WorldGet(s'.world, s'.world.threadWs, names[i]) == Some(vals[i]))
      && forall m :: m !in names ==> WorldGet(s'.world, s'.world.threadWs, m) == WorldGet(s.world, s.world.threadWs, m)
  {
    var g, unit := Globals(Words(s.world), b), s.world.threadWs;
    var f := M.Frame(s.stack, [], unit, s.world);
    BindAllNames(names, [Top([])], g, f, rest, vals, fuel, 0);
    BindManyCode(names, s, b, fuel);
    var s' := RunText([BindMany(names)], s, b, fuel).1;
    forall i | 0 <= i < |names| ensures WorldGet(s'.world, s'.world.threadWs, names[i]) == Some(vals[i]) {
      BindAllNames(names, [Top([])], g, f, rest, vals, fuel, names[i]);
    }
    forall m | m !in names ensures WorldGet(s'.world, s'.world.threadWs, m) == WorldGet(s.world, s.world.threadWs, m) {
      BindAllNames(names, [Top([])], g, f, rest, vals, fuel, m);
    }
  }

  lemma IndexFromEnd(names: seq<Name>, m: Name)
    requires names != [] && Distinct(names)
    ensures var k := |names| - 1;
      (m in names <==> m == names[k] || m in names[..k])
      && (m in names ==> FirstIndex(names, m) == if m == names[k] then k else FirstIndex(names[..k], m))
  {
    var k := |names| - 1;
    var n, fewer := names[k], names[..k];
    assert fewer + [n] == names;
    if m in fewer { FirstIndexPrefix(fewer, [n], m); }
    else if m == n { FreshIndex(fewer, n); }
  }

  lemma {:induction false} BindAllNames(names: seq<Name>, chain: Chain, g: Globals, f: M.Frame, rest: seq<Val>,
                                        vals: seq<Val>, fuel: nat, m: Name)
    requires |chain| == 1 && chain[0].Top? && WorldOk(f.world) && FormOk(f.world.tree, f.ws)
    requires f.stack == rest + vals && |vals| == |names| && Distinct(names)
    ensures BindAll(chain, names, g).Success?
    ensures var o := M.RunOps(BindAll(chain, names, g).value.0, [], f, fuel);
      && o.status == Ok && o.f.stack == rest && WorldOk(o.f.world)
      && WorldGet(o.f.world, o.f.world.threadWs, m) ==
           if m in names then Some(vals[FirstIndex(names, m)]) else WorldGet(f.world, f.world.threadWs, m)
    decreases |names|
  {
    if names == [] {
      RunOne(OpNone, [], f, fuel);
    } else {
      var k := |names| - 1;
      var n, v, fewer := names[k], vals[k], names[..k];
      var c1 := BindVar(chain, n, g).value.1;
      var f1 := M.Step(BindWorkspaceVar(n), [], f, fuel).f;
      assert (rest + vals[..k]) + [v] == f.stack;
      BindStep(f, n, v, rest + vals[..k], fuel, m);
      BindAllNames(fewer, c1, g, f1, rest, vals[..k], fuel, m);
      BindAllStep(names, chain, g, f, fuel);
      IndexFromEnd(names, m);
    }
  }

  /** One opBindWorkspaceVar. */
  lemma BindStep(f: M.Frame, n: Name, v: Val, rest: seq<Val>, fuel: nat, m: Name)
    requires f.stack == rest + [v] && WorldOk(f.world) && FormOk(f.world.tree, f.ws)
    ensures var o := M.Step(BindWorkspaceVar(n), [], f, fuel);
      && o.status == Ok && o.f.stack == rest && WorldOk(o.f.world) && FormOk(o.f.world.tree, o.f.ws)
      && WorldGet(o.f.world, o.f.world.threadWs, m) ==
        if m == n then Some(v) else WorldGet(f.world, f.world.threadWs, m)
  {
    BindKeepsWorld(f.world, f.ws, n, v);
    BindingIsFound(f.world, f.ws, n, v, m);
  }

  lemma BindAllStep(names: seq<Name>, chain: Chain, g: Globals, f: M.Frame, fuel: nat)
    requires |chain| == 1 && chain[0].Top? && names != []
    requires M.Step(BindWorkspaceVar(names[|names| - 1]), [], f, fuel).status == Ok
    ensures var k := |names| - 1; var r := BindVar(chain, names[k], g);
      && r.Success? && |r.value.1| == 1 && r.value.1[0].Top?
      && (BindAll(r.value.1, names[..k], g).Success? ==>
            && BindAll(chain, names, g).Success?
            && M.RunOps(BindAll(chain, names, g).value.0, [], f, fuel) ==
               M.RunOps(BindAll(r.value.1, names[..k], g).value.0, [],
                 M.Step(BindWorkspaceVar(names[k]), [], f, fuel).f, fuel))
  {
    var k := |names| - 1;
    var c1 := BindVar(chain, names[k], g).value.1;
    var ops := [BindWorkspaceVar(names[k])];
    if BindAll(c1, names[..k], g).Success? {
      RunOne(BindWorkspaceVar(names[k]), [], f, fuel);
      RunAppend(ops, BindAll(c1, names[..k], g).value.0, [], f, fuel);
    }
  }

  // ---------- parens and list literals ----------

  function Numbers(rs: seq<real>): seq<Item> { seq(|rs|, i requires 0 <= i < |rs| => Num(rs[i])) }
  function Pushes(rs: seq<real>): seq<Op> { seq(|rs|, i requires 0 <= i < |rs| => PushImmediate(Real(rs[i]))) }
  function Reals(rs: seq<real>): seq<Val> { seq(|rs|, i requires 0 <= i < |rs| => Atomic(Real(rs[i]))) }

  lemma {:induction false} NumbersCode(rs: seq<real>, chain: Chain, g: Globals, unit: Form)
    ensures CompileItems(Numbers(rs), chain, g, unit) == Success((Pushes(rs), chain))
  {
    if rs == [] {
      assert Numbers(rs) == [] && Pushes(rs) == [];
    } else {
      NumbersCode(rs[1..], chain, g, unit);
      assert Numbers(rs)[1..] == Numbers(rs[1..]) && Numbers(rs)[0] == Num(rs[0]);
      assert [PushImmediate(Real(rs[0]))] + Pushes(rs[1..]) == Pushes(rs);
    }
  }

  lemma {:induction false} PushesRun(rs: seq<real>, f: M.Frame, fuel: nat)
    ensures M.RunOps(Pushes(rs), [], f, fuel) == M.Out(Ok, f.(stack := f.stack + Reals(rs)))
  {
    if rs == [] {
      assert f.stack + Reals(rs) == f.stack;
    } else {
      var f1 := f.(stack := f.stack + [Atomic(Real(rs[0]))]);
      assert Pushes(rs)[1..] == Pushes(rs[1..]) && Pushes(rs)[0] == PushImmediate(Real(rs[0]));
      PushesRun(rs[1..], f1, fuel);
      assert f1.stack + Reals(rs[1..]) == f.stack + Reals(rs);
    }
  }

  /** A list literal leaves one list of its items, in order. */
  lemma ListText(s: State<Val>, rs: seq<real>, b: R.BuiltIns, fuel: nat)
    ensures RunText([ArrayLit(Numbers(rs))], s, b, fuel) == (Ran(Ok), State(s.stack + [List(Reals(rs))], s.world))
  {
    var g, unit := Globals(Words(s.world), b), s.world.threadWs;
    NumbersCode(rs, [Top([])], g, unit);
    var f := M.Frame([], [], unit, s.world);
    if rs == [] {
      assert Reals(rs) == [];
      RunsOne(ArrayLit(Numbers(rs)), PushNil, s, b, fuel);
    } else {
      RunsOne(ArrayLit(Numbers(rs)), NewVList(Pushes(rs) + [Return]), s, b, fuel);
      RunBlock(Pushes(rs), [], f, fuel);
      PushesRun(rs, f, fuel);
      assert [] + Reals(rs) == Reals(rs);
    }
  }

  /** The number of values on the stack. */
  lemma DepthText(s: State<Val>, b: R.BuiltIns, n: Name, fuel: nat)
    requires IsBuiltInWord(s, b, n, StackDepth)
    ensures RunText([Word(n)], s, b, fuel) == (Ran(Ok), State(s.stack + [Atomic(Real(|s.stack| as real))], s.world))
  {
    BuiltInText(s, b, n, StackDepth, fuel);
    DepthOf(s.stack, s.world, fuel);
  }

  lemma DepthOf(stack: seq<Val>, world: World<Val>, fuel: nat)
    ensures M.ApplyVal(Atomic(Prim(StackDepth)), stack, world, fuel) ==
      M.AOut(Ok, stack + [Atomic(Real(|stack| as real))], world)
  {
    assert M.ApplyPrim(StackDepth, stack, world, fuel) == M.AOut(Ok, stack + [Atomic(Real(|stack| as real))], world);
  }

  /** What stands in parens cannot see the stack outside; what it leaves is added to it. */
  lemma ParensText(s: State<Val>, b: R.BuiltIns, n: Name, fuel: nat)
    requires IsBuiltInWord(s, b, n, StackDepth)
    ensures RunText([Parens([Word(n)])], s, b, fuel) == (Ran(Ok), State(s.stack + [Atomic(Real(0.0))], s.world))
  {
    var g, unit := Globals(Words(s.world), b), s.world.threadWs;
    var op, f := CallImmediate(Prim(StackDepth)), M.Frame([], [], unit, s.world);
    OneItem(Word(n), [op], [Top([])], [Top([])], g, unit);
    RunsOne(Parens([Word(n)]), ParensOp([op] + [Return]), s, b, fuel);
    assert M.RunOps([op] + [Return], [], f, fuel) == M.Out(Ok, f.(stack := [Atomic(Real(0.0))])) by {
      RunOne(op, [], f, fuel);
      RunBlock([op], [], f, fuel);
      DepthOf([], s.world, fuel);
      assert [] + [Atomic(Real(0.0))] == [Atomic(Real(0.0))];
    }
  }
}
