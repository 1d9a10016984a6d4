/**
  The bytecode interpreter with every function in a frame of its own: `stack` is the part of the
  thread's stack above the frame's base, `locals` are the frame's locals.  Module Threads shows
  that the thread's one shared stack behaves like this.
 */
module Machine {
  import opened Basics
  import opened Workspace
  import opened Syntax

  datatype Frame = Frame(stack: seq<Val>, locals: seq<Val>, ws: Form, world: World<Val>)
  datatype Out = Out(status: Status, f: Frame)

  /** Effect of applying a value: the visible stack and the world. */
  datatype AOut = AOut(status: Status, stack: seq<Val>, world: World<Val>)

  const Zero := Atomic(Real(0.0))

  function PrimTakes(op: PrimOp): nat {
    match op
    case Apply => 1
    case If => 3
    case Not => 1
    case Y => 1
    case Try => 2
    case Throw => 0
    case Clear => 0
    case Cleard => 0
    case StackDepth => 0
    case Shuffle(takes, _) => takes
  }

  function Takes(v: Val): int {
    match v
    case Atomic(Prim(op)) => PrimTakes(op)
    case Atomic(_) => 0
    case List(_) => 0
    case Fun(def, _) => def.numArgs
    case Rec(f) => Takes(f) - 1
  }

  predicate IsTrue(v: Val) { v != Zero }

  function Picks(args: seq<Val>, picks: seq<nat>): seq<Val> {
    seq(|picks|, i requires 0 <= i < |picks| => if picks[i] < |args| then args[picks[i]] else Zero)
  }

  function Fail(e: Error, stack: seq<Val>, world: World<Val>): AOut { AOut(Err(e), stack, world) }

  function ApplyPrim(op: PrimOp, stack: seq<Val>, world: World<Val>, fuel: nat): AOut
    requires |stack| >= PrimTakes(op)
    decreases fuel, 0
  {
    var n := |stack|;
    match op
    case Apply =>
      if fuel == 0 then AOut(OutOfFuel, stack, world)
      else ApplyVal(stack[n-1], stack[..n-1], world, fuel - 1)
    case If =>
      if fuel == 0 then AOut(OutOfFuel, stack, world)
      else ApplyVal(if IsTrue(stack[n-3]) then stack[n-2] else stack[n-1], stack[..n-3], world, fuel - 1)
    case Not => AOut(Ok, stack[..n-1] + [Atomic(Real(if IsTrue(stack[n-1]) then 0.0 else 1.0))], world)
    case Y =>
      if Takes(stack[n-1]) < 1 then Fail(Failed, stack[..n-1], world)
      else AOut(Ok, stack[..n-1] + [Rec(stack[n-1])], world)
    case Try =>
      if fuel == 0 then AOut(OutOfFuel, stack, world)
      else
        var r := ApplyVal(stack[n-2], stack[..n-2], world, fuel - 1);
        if !r.status.Err? then r
        else
          var c := ApplyVal(stack[n-1], r.stack, r.world, fuel - 1);
          if c.status.Ok? then c.(status := r.status) else c
    case Throw => Fail(Thrown, stack, world)
    case Clear => AOut(Ok, [], world)
    case Cleard => if n == 0 then Fail(StackUnderflow, stack, world) else AOut(Ok, [stack[n-1]], world)
    case StackDepth => AOut(Ok, stack + [Atomic(Real(n as real))], world)
    case Shuffle(takes, picks) => AOut(Ok, stack[..n-takes] + Picks(stack[n-takes..], picks), world)
  }

  /** `V::apply`: functions and primitives run, everything else pushes itself. */
  function ApplyVal(v: Val, stack: seq<Val>, world: World<Val>, fuel: nat): AOut
    decreases fuel, 1
  {
    match v
    case Atomic(Prim(op)) =>
      if |stack| < PrimTakes(op) then Fail(StackUnderflow, stack, world) else ApplyPrim(op, stack, world, fuel)
    case Atomic(_) => AOut(Ok, stack + [v], world)
    case List(_) => AOut(Ok, stack + [v], world)
    case Rec(f) =>
      if |stack| < Takes(v) then Fail(StackUnderflow, stack, world)
      else if fuel == 0 then AOut(OutOfFuel, stack, world)
      else ApplyVal(f, stack + [v], world, fuel - 1)
    case Fun(def, vars) =>
      if |stack| < def.numArgs then Fail(StackUnderflow, stack, world)
      else if def.numArgs > def.numLocals then AOut(Stuck, stack, world)
      else if fuel == 0 then AOut(OutOfFuel, stack, world)
      else
        var rest := stack[..|stack| - def.numArgs];
        var o := RunOps(def.code, vars, Enter(def, stack, world), fuel - 1);
        AOut(o.status, rest + o.f.stack, o.f.world)
  }

  /** The callee's frame: an empty stack, and locals that start with the arguments. */
  function Enter(def: FunDef, stack: seq<Val>, world: World<Val>): Frame
    requires |stack| >= def.numArgs && def.numArgs <= def.numLocals
  {
    Frame([], stack[|stack| - def.numArgs..] + Zeros(def.numLocals - def.numArgs), def.ws, world)
  }

  function Zeros(n: nat): seq<Val> { seq(n, i => Zero) }

  function Call(v: Val, f: Frame, fuel: nat): Out
    decreases fuel, 2
  {
    var r := ApplyVal(v, f.stack, f.world, fuel);
    Out(r.status, f.(stack := r.stack, world := r.world))
  }

  function Push(f: Frame, v: Val): Out { Out(Ok, f.(stack := f.stack + [v])) }

  function Step(op: Op, vars: seq<Val>, f: Frame, fuel: nat): Out
    decreases fuel, 3, op
  {
    var n := |f.stack|;
    match op
    case OpNone => Out(Ok, f)
    case Return => Out(Ok, f)
    case PushImmediate(v) => Push(f, Atomic(v))
    case PushNil => Push(f, List([]))
    case PushLocalVar(i) => if i < |f.locals| then Push(f, f.locals[i]) else Out(Stuck, f)
    case PushFunVar(i) => if i < |vars| then Push(f, vars[i]) else Out(Stuck, f)
    case PushWorkspaceVar(name) =>
      var v := WorldGet(f.world, f.ws, name);
      if v.Some? then Push(f, v.value) else Out(Err(NotFound), f)
    case PushFun(def) =>
      if n < def.numVars then Out(Stuck, f)
      else Push(f.(stack := f.stack[..n - def.numVars]), Fun(def, f.stack[n - def.numVars..]))
    case CallImmediate(v) => Call(Atomic(v), f, fuel)
    case CallLocalVar(i) => if i < |f.locals| then Call(f.locals[i], f, fuel) else Out(Stuck, f)
    case CallFunVar(i) => if i < |vars| then Call(vars[i], f, fuel) else Out(Stuck, f)
    case CallWorkspaceVar(name) =>
      var v := WorldGet(f.world, f.ws, name);
      if v.Some? then Call(v.value, f, fuel) else Out(Err(NotFound), f)
    case BindLocal(i) =>
      if n == 0 then Out(Err(StackUnderflow), f)
      else if i >= |f.locals| then Out(Stuck, f)
      else Out(Ok, f.(stack := f.stack[..n-1], locals := f.locals[i := f.stack[n-1]]))
    case BindWorkspaceVar(name) =>
      if n == 0 then Out(Err(StackUnderflow), f)
      else
        var (world', ws') := WorldBind(f.world, f.ws, name, f.stack[n-1]);
        Out(Ok, f.(stack := f.stack[..n-1], ws := ws', world := world'))
    case ParensOp(code) =>
      var o := RunOps(code, vars, f.(stack := []), fuel);
      o.(f := o.f.(stack := f.stack + o.f.stack))
    case NewVList(code) =>
      var o := RunOps(code, vars, f.(stack := []), fuel);
      if o.status.Ok? then o.(f := o.f.(stack := f.stack + [List(o.f.stack)]))
      else o.(f := o.f.(stack := f.stack))
  }

  /** `Thread::run`: the opcodes in order, up to opReturn or an exception. */
  function RunOps(ops: seq<Op>, vars: seq<Val>, f: Frame, fuel: nat): Out
    decreases fuel, 3, ops
  {
    if ops == [] || ops[0] == Return then Out(Ok, f)
    else
      var o := Step(ops[0], vars, f, fuel);
      if o.status.Ok? then RunOps(ops[1..], vars, o.f, fuel) else o
  }
}
