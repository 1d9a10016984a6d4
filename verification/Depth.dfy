/**
  The bound on the call depth only cuts runs off: a run that ends within some bound ends in the
  same way within every larger one.
 */
module Depth {
  import opened Syntax
  import M = Machine

  lemma {:induction false} MoreApply(v: Val, stack: seq<Val>, world: World<Val>, fuel: nat)
    requires M.ApplyVal(v, stack, world, fuel).status != OutOfFuel
    ensures M.ApplyVal(v, stack, world, fuel + 1) == M.ApplyVal(v, stack, world, fuel)
    decreases fuel, 1
  {
    match v
    case Atomic(Prim(op)) => if |stack| >= M.PrimTakes(op) { MorePrim(op, stack, world, fuel); }
    case Rec(f) => if |stack| >= M.Takes(v) { MoreApply(f, stack + [v], world, fuel - 1); }
    case Fun(def, vars) =>
      if |stack| >= def.numArgs && def.numArgs <= def.numLocals {
        MoreRun(def.code, vars, M.Enter(def, stack, world), fuel - 1);
      }
    case _ =>
  }

  lemma {:induction false} MorePrim(op: PrimOp, stack: seq<Val>, world: World<Val>, fuel: nat)
    requires |stack| >= M.PrimTakes(op) && M.ApplyPrim(op, stack, world, fuel).status != OutOfFuel
    ensures M.ApplyPrim(op, stack, world, fuel + 1) == M.ApplyPrim(op, stack, world, fuel)
    decreases fuel, 0, 1
  {
    var n := |stack|;
    match op
    case Apply => MoreApply(stack[n-1], stack[..n-1], world, fuel - 1);
    case If => MoreApply(if M.IsTrue(stack[n-3]) then stack[n-2] else stack[n-1], stack[..n-3], world, fuel - 1);
    case Try => MoreTry(stack, world, fuel);
    case _ =>
  }

  lemma {:induction false} MoreTry(stack: seq<Val>, world: World<Val>, fuel: nat)
    requires |stack| >= M.PrimTakes(Try) && M.ApplyPrim(Try, stack, world, fuel).status != OutOfFuel
    ensures M.ApplyPrim(Try, stack, world, fuel + 1) == M.ApplyPrim(Try, stack, world, fuel)
    decreases fuel, 0, 0
  {
    var n := |stack|;
    MoreApply(stack[n-2], stack[..n-2], world, fuel - 1);
    var r := M.ApplyVal(stack[n-2], stack[..n-2], world, fuel - 1);
    if r.status.Err? { MoreApply(stack[n-1], r.stack, r.world, fuel - 1); }
  }

  lemma {:induction false} MoreStep(op: Op, vars: seq<Val>, f: M.Frame, fuel: nat)
    requires M.Step(op, vars, f, fuel).status != OutOfFuel
    ensures M.Step(op, vars, f, fuel + 1) == M.Step(op, vars, f, fuel)
    decreases fuel, 3, op
  {
    match op
    case CallImmediate(v) => MoreApply(Atomic(v), f.stack, f.world, fuel);
    case CallLocalVar(i) => if i < |f.locals| { MoreApply(f.locals[i], f.stack, f.world, fuel); }
    case CallFunVar(i) => if i < |vars| { MoreApply(vars[i], f.stack, f.world, fuel); }
    case CallWorkspaceVar(name) =>
      var v := WorldGet(f.world, f.ws, name);
      if v.Some? { MoreApply(v.value, f.stack, f.world, fuel); }
    case ParensOp(code) => MoreRun(code, vars, f.(stack := []), fuel);
    case NewVList(code) => MoreRun(code, vars, f.(stack := []), fuel);
    case _ =>
  }

  lemma {:induction false} MoreRun(ops: seq<Op>, vars: seq<Val>, f: M.Frame, fuel: nat)
    requires M.RunOps(ops, vars, f, fuel).status != OutOfFuel
    ensures M.RunOps(ops, vars, f, fuel + 1) == M.RunOps(ops, vars, f, fuel)
    decreases fuel, 3, ops
  {
    if ops != [] && ops[0] != Return {
      MoreStep(ops[0], vars, f, fuel);
      var o := M.Step(ops[0], vars, f, fuel);
      if o.status.Ok? { MoreRun(ops[1..], vars, o.f, fuel); }
    }
  }

  /** The result of a run that ends does not depend on the bound. */
  lemma {:induction false} BoundIsImmaterial(ops: seq<Op>, vars: seq<Val>, f: M.Frame, fuel: nat, fuel': nat)
    requires M.RunOps(ops, vars, f, fuel).status != OutOfFuel && fuel <= fuel'
    ensures M.RunOps(ops, vars, f, fuel') == M.RunOps(ops, vars, f, fuel)
  {
    if fuel < fuel' {
      BoundIsImmaterial(ops, vars, f, fuel, fuel' - 1);
      MoreRun(ops, vars, f, fuel' - 1);
    }
  }
}
