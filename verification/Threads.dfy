/**
  The interpreter as it runs: one value stack and one stack of locals per thread, shared by all
  running functions, with base indices that mark where the running function's part begins.

  Each method is proved against the frame-at-a-time machine: the running function sees exactly
  its own part, and nothing below the bases is read or changed, whether the code ends normally or
  throws.  A thrown exception is a returned status; what the destructors of the guards
  (PushFunContext, ParenStack, SaveStack) do is done on both ways out.
 */
module Threads {
  import opened Basics
  import opened Workspace
  import opened Syntax
  import M = Machine

  predicate IsWord(op: Op) {
    op.PushImmediate? || op.PushNil? || op.PushLocalVar? || op.PushFunVar? || op.PushWorkspaceVar?
    || op.CallImmediate? || op.CallLocalVar? || op.CallFunVar? || op.CallWorkspaceVar?
  }

  class Thread {
    var stack: seq<Val>
    var stackBase: nat
    var local: seq<Val>
    var localBase: nat
    var world: World<Val>
    // the running function: its definition, its captured values, its workspace
    var def: FunDef
    var vars: seq<Val>
    var ws: Form

    ghost predicate Valid()
      reads this
    {
      stackBase <= |stack| && localBase <= |local| && |local| == localBase + def.numLocals
    }

    /** What the running function sees. */
    ghost function Visible(): M.Frame
      reads this
      requires Valid()
    {
      M.Frame(stack[stackBase..], local[localBase..], ws, world)
    }

    /** Everything that belongs to the callers. */
    twostate predicate CallersKept()
      reads this
      requires old(Valid()) && Valid()
    {
      && stackBase == old(stackBase) && localBase == old(localBase) && def == old(def) && vars == old(vars)
      && stack[..stackBase] == old(stack[..stackBase]) && local[..localBase] == old(local[..localBase])
    }

    /** The part of the running function that applying a value leaves alone. */
    twostate predicate FrameKept()
      reads this
      requires old(Valid()) && Valid()
    {
      CallersKept() && local == old(local) && ws == old(ws)
    }

    method Push(v: Val)
      requires Valid()
      modifies this`stack
      ensures Valid() && FrameKept() && world == old(world) && stack == old(stack) + [v]
      ensures stack[stackBase..] == old(stack[stackBase..]) + [v]
    {
      stack := stack + [v];
    }

    /** `pop`: fails when the visible part is empty. */
    method Pop() returns (ok: bool, v: Val)
      requires Valid()
      modifies this`stack
      ensures Valid() && FrameKept() && world == old(world)
      ensures ok == (|old(stack)| > old(stackBase))
      ensures ok ==> stack == old(stack)[..|old(stack)| - 1] && v == old(stack)[|old(stack)| - 1]
      ensures !ok ==> stack == old(stack)
      ensures ok ==> stack[stackBase..] == old(stack[stackBase..])[..|old(stack[stackBase..])| - 1]
    {
      ok, v := |stack| > stackBase, M.Zero;
      if ok {
        v := stack[|stack| - 1];
        stack := stack[..|stack| - 1];
      }
    }

    /** `popn`, for a count that the visible part holds. */
    method Drop(n: nat)
      requires Valid() && n <= |stack| - stackBase
      modifies this`stack
      ensures Valid() && FrameKept() && world == old(world) && stack == old(stack)[..|old(stack)| - n]
      ensures stack[stackBase..] == old(stack[stackBase..])[..|old(stack[stackBase..])| - n]
    {
      stack := stack[..|stack| - n];
    }

    /** `apply_`: pop a value and apply it. */
    method ApplyTop(fuel: nat) returns (status: Status)
      requires Valid() && |stack| - stackBase >= 1
      modifies this
      ensures Valid() && FrameKept()
      ensures var r := M.ApplyPrim(Apply, old(stack[stackBase..]), old(world), fuel);
        status == r.status && stack[stackBase..] == r.stack && world == r.world
      decreases fuel, 0
    {
      if fuel == 0 { return OutOfFuel; }
      var v := stack[|stack| - 1];
      Drop(1);
      status := ApplyVal(v, fuel - 1);
    }

    /** `if_`: pop two branches and the test, and apply the branch it chooses. */
    method ApplyIf(fuel: nat) returns (status: Status)
      requires Valid() && |stack| - stackBase >= 3
      modifies this
      ensures Valid() && FrameKept()
      ensures var r := M.ApplyPrim(If, old(stack[stackBase..]), old(world), fuel);
        status == r.status && stack[stackBase..] == r.stack && world == r.world
      decreases fuel, 0
    {
      if fuel == 0 { return OutOfFuel; }
      var n := |stack|;
      var test, thenCode, elseCode := stack[n - 3], stack[n - 2], stack[n - 1];
      Drop(3);
      status := ApplyVal(if M.IsTrue(test) then thenCode else elseCode, fuel - 1);
    }

    /** `try_`: applies the handler to what the failed code left behind, then throws again. */
    method ApplyTry(fuel: nat) returns (status: Status)
      requires Valid() && |stack| - stackBase >= 2
      modifies this
      ensures Valid() && FrameKept()
      ensures var r := M.ApplyPrim(Try, old(stack[stackBase..]), old(world), fuel);
        status == r.status && stack[stackBase..] == r.stack && world == r.world
      decreases fuel, 0
    {
      if fuel == 0 { return OutOfFuel; }
      var tryCode, catchCode := stack[|stack| - 2], stack[|stack| - 1];
      Drop(2);
      status := ApplyVal(tryCode, fuel - 1);
      if status.Err? {
        var caught := ApplyVal(catchCode, fuel - 1);
        if !caught.Ok? { status := caught; }
      }
    }

    method ShuffleTop(takes: nat, picks: seq<nat>)
      requires Valid() && |stack| - stackBase >= takes
      modifies this`stack
      ensures Valid() && FrameKept() && world == old(world)
      ensures var seen := old(stack[stackBase..]);
        stack[stackBase..] == seen[..|seen| - takes] + M.Picks(seen[|seen| - takes..], picks)
    {
      var args := stack[|stack| - takes..];
      assert args == stack[stackBase..][|stack| - stackBase - takes..];
      Drop(takes);
      stack := stack + M.Picks(args, picks);
    }

    /** The other built-in functions. */
    method ApplyPrim(op: PrimOp, fuel: nat) returns (status: Status)
      requires Valid() && |stack| - stackBase >= M.PrimTakes(op)
      modifies this
      ensures Valid() && FrameKept()
      ensures var r := M.ApplyPrim(op, old(stack[stackBase..]), old(world), fuel);
        status == r.status && stack[stackBase..] == r.stack && world == r.world
      decreases fuel, 1
    {
      status := Ok;
      match op {
        case Apply => status := ApplyTop(fuel);
        case If => status := ApplyIf(fuel);
        case Try => status := ApplyTry(fuel);
        case Not =>
          var _, v := Pop();
          Push(Atomic(Real(if M.IsTrue(v) then 0.0 else 1.0)));
        case Y =>
          var _, v := Pop();
          if M.Takes(v) < 1 { return Err(Failed); }
          Push(Rec(v));
        case Throw => status := Err(Thrown);
        case Clear => Drop(|stack| - stackBase);
        case Cleard =>
          var ok, v := Pop();
          if !ok { return Err(StackUnderflow); }
          Drop(|stack| - stackBase);
          Push(v);
        case StackDepth => Push(Atomic(Real((|stack| - stackBase) as real)));
        case Shuffle(takes, picks) => ShuffleTop(takes, picks);
      }
    }

    /** `V::apply`. */
    method ApplyVal(v: Val, fuel: nat) returns (status: Status)
      requires Valid()
      modifies this
      ensures Valid() && FrameKept()
      ensures var r := M.ApplyVal(v, old(stack[stackBase..]), old(world), fuel);
        status == r.status && stack[stackBase..] == r.stack && world == r.world
      decreases fuel, 2
    {
      match v {
        case Atomic(Prim(op)) =>
          if |stack| - stackBase < M.PrimTakes(op) { return Err(StackUnderflow); }
          status := ApplyPrim(op, fuel);
        case Atomic(_) => Push(v); status := Ok;
        case List(_) => Push(v); status := Ok;
        case Rec(f) =>
          if |stack| - stackBase < M.Takes(v) { return Err(StackUnderflow); }
          if fuel == 0 { return OutOfFuel; }
          Push(v);
          status := ApplyVal(f, fuel - 1);
        case Fun(callee, captured) =>
          status := RunFun(callee, captured, fuel);
      }
    }

    /** The entry of `Fun::run`: moves the arguments to new locals and hides the caller's stack. */
    method Enter(callee: FunDef, captured: seq<Val>)
      requires Valid() && |stack| - stackBase >= callee.numArgs && callee.numArgs <= callee.numLocals
      modifies this
      ensures Valid() && Visible() == M.Enter(callee, old(stack[stackBase..]), old(world))
      ensures def == callee && vars == captured
      ensures stackBase == |old(stack)| - callee.numArgs && stack[..stackBase] == old(stack)[..stackBase]
      ensures localBase == |old(local)| && local[..localBase] == old(local)
    {
      var args := stack[|stack| - callee.numArgs..];
      assert args == stack[stackBase..][|stack| - stackBase - callee.numArgs..];
      localBase := |local|;
      local := local + args;
      stack := stack[..|stack| - callee.numArgs];
      local := local + M.Zeros(callee.numLocals - callee.numArgs);
      assert local[localBase..] == args + M.Zeros(callee.numLocals - callee.numArgs);
      stackBase := |stack|;
      def, vars, ws := callee, captured, callee.ws;
    }

    /** `Fun::run`: the guard PushFunContext undoes the entry, whether the code ends or throws. */
    method RunFun(callee: FunDef, captured: seq<Val>, fuel: nat) returns (status: Status)
      requires Valid()
      modifies this
      ensures Valid() && FrameKept()
      ensures var r := M.ApplyVal(Fun(callee, captured), old(stack[stackBase..]), old(world), fuel);
        status == r.status && stack[stackBase..] == r.stack && world == r.world
      decreases fuel, 0
    {
      if |stack| - stackBase < callee.numArgs { return Err(StackUnderflow); }
      if callee.numArgs > callee.numLocals { return Stuck; }
      if fuel == 0 { return OutOfFuel; }
      var saveDef, saveVars, saveWs, saveStackBase, saveLocalBase := def, vars, ws, stackBase, localBase;
      ghost var seen, below := stack[stackBase..], stack[..stackBase];
      Enter(callee, captured);
      assert stack[..stackBase] == below + seen[..|seen| - callee.numArgs];
      status := Run(callee.code, fuel - 1);
      local := local[..|local| - def.numLocals];
      assert stack == below + (seen[..|seen| - callee.numArgs] + stack[stackBase..]);
      def, vars, ws, stackBase, localBase := saveDef, saveVars, saveWs, saveStackBase, saveLocalBase;
    }

    /** The opcodes that push or apply a local, a captured value, a workspace word or an immediate. */
    method StepWord(op: Op, fuel: nat) returns (status: Status)
      requires Valid() && IsWord(op)
      modifies this
      ensures Valid() && CallersKept()
      ensures var o := M.Step(op, old(vars), old(Visible()), fuel);
        status == o.status && Visible() == o.f
      decreases fuel, 3, op, 0
    {
      status := Ok;
      match op {
        case PushImmediate(v) => Push(Atomic(v));
        case PushNil => Push(List([]));
        case PushLocalVar(i) =>
          if i >= |local| - localBase { return Stuck; }
          Push(local[localBase + i]);
        case PushFunVar(i) =>
          if i >= |vars| { return Stuck; }
          Push(vars[i]);
        case PushWorkspaceVar(name) =>
          var v := WorldGet(world, ws, name);
          if v.None? { return Err(NotFound); }
          Push(v.value);
        case CallImmediate(v) => status := ApplyVal(Atomic(v), fuel);
        case CallLocalVar(i) =>
          if i >= |local| - localBase { return Stuck; }
          status := ApplyVal(local[localBase + i], fuel);
        case CallFunVar(i) =>
          if i >= |vars| { return Stuck; }
          status := ApplyVal(vars[i], fuel);
        case CallWorkspaceVar(name) =>
          var v := WorldGet(world, ws, name);
          if v.None? { return Err(NotFound); }
          status := ApplyVal(v.value, fuel);
      }
    }

    /** One opcode of the running function. */
    method Step(op: Op, fuel: nat) returns (status: Status)
      requires Valid()
      modifies this
      ensures Valid() && CallersKept()
      ensures var o := M.Step(op, old(vars), old(Visible()), fuel);
        status == o.status && Visible() == o.f
      decreases fuel, 3, op, 1
    {
      status := Ok;
      match op {
        case OpNone =>
        case Return =>
        case PushFun(d) =>
          if |stack| - stackBase < d.numVars { return Stuck; }
          var captured := stack[|stack| - d.numVars..];
          assert captured == stack[stackBase..][|stack| - stackBase - d.numVars..];
          Drop(d.numVars);
          Push(Fun(d, captured));
        case BindLocal(i) =>
          if |stack| == stackBase { return Err(StackUnderflow); }
          if i >= |local| - localBase { return Stuck; }
          var _, v := Pop();
          local := local[localBase + i := v];
        case BindWorkspaceVar(name) =>
          var ok, v := Pop();
          if !ok { return Err(StackUnderflow); }
          var (world', ws') := WorldBind(world, ws, name, v);
          world, ws := world', ws';
        case ParensOp(code) => status := RunParens(code, fuel);
        case NewVList(code) => status := RunArray(code, fuel);
        case _ => status := StepWord(op, fuel);
      }
    }

    /** opParens: the inner code starts on an empty visible stack; what it leaves stays. */
    method RunParens(code: seq<Op>, fuel: nat) returns (status: Status)
      requires Valid()
      modifies this
      ensures Valid() && CallersKept()
      ensures var o := M.Step(ParensOp(code), old(vars), old(Visible()), fuel);
        status == o.status && Visible() == o.f
      decreases fuel, 3, code, 1
    {
      var saveBase := stackBase;
      ghost var below, seen := stack[..stackBase], stack[stackBase..];
      stackBase := |stack|;
      status := Run(code, fuel);
      assert stack == below + seen + stack[stackBase..];
      stackBase := saveBase;
    }

    /** opNewVList: the inner code starts on an empty visible stack; what it leaves becomes one list. */
    method RunArray(code: seq<Op>, fuel: nat) returns (status: Status)
      requires Valid()
      modifies this
      ensures Valid() && CallersKept()
      ensures var o := M.Step(NewVList(code), old(vars), old(Visible()), fuel);
        status == o.status && Visible() == o.f
      decreases fuel, 3, code, 1
    {
      var saveBase := stackBase;
      ghost var below, seen := stack[..stackBase], stack[stackBase..];
      stackBase := |stack|;
      status := Run(code, fuel);
      assert stack[..stackBase] == below + seen;
      var x := List(stack[stackBase..]);
      Drop(|stack| - stackBase);   // newVList_ takes all; ~SaveStack clears all
      stackBase := saveBase;
      if status.Ok? { Push(x); }
    }

    /** `Thread::run`. */
    method Run(ops: seq<Op>, fuel: nat) returns (status: Status)
      requires Valid()
      modifies this
      ensures Valid() && CallersKept()
      ensures var o := M.RunOps(ops, old(vars), old(Visible()), fuel);
        status == o.status && Visible() == o.f
      decreases fuel, 3, ops, 0
    {
      var pc := 0;
      ghost var f0 := Visible();
      assert ops[0..] == ops;
      while pc < |ops| && ops[pc] != Return
        invariant 0 <= pc <= |ops| && Valid() && CallersKept()
        invariant M.RunOps(ops, vars, f0, fuel) == M.RunOps(ops[pc..], vars, Visible(), fuel)
      {
        ghost var f := Visible();
        assert ops[pc..][0] == ops[pc] && ops[pc..][1..] == ops[pc + 1..];
        status := Step(ops[pc], fuel);
        if !status.Ok? { return; }
        pc := pc + 1;
      }
      status := Ok;
    }
  }
}
