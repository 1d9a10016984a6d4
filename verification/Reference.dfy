/**
  The reference meaning of programs: a direct interpreter over environments, without slots,
  opcodes or captured copies.  A lambda closes over every variable bound earlier in the text, and
  over the workspace words known at that point.
 */
module Reference {
  import opened Basics
  import opened Workspace
  import opened Syntax
  import Machine

  /** `env`: the variables of the enclosing functions; `loc`: those bound in this one. */
  datatype Scope = Scope(env: map<Name, RVal>, loc: map<Name, RVal>, known: set<Name>, top: bool)

  datatype Frame = Frame(stack: seq<RVal>, scope: Scope, ws: Form, world: World<RVal>)
  datatype Out = Out(status: Status, f: Frame)
  datatype AOut = AOut(status: Status, stack: seq<RVal>, world: World<RVal>)

  type BuiltIns = map<Name, Atom>

  const Zero := RAtomic(Real(0.0))

  function Takes(v: RVal): int {
    match v
    case RAtomic(Prim(op)) => Machine.PrimTakes(op)
    case RAtomic(_) => 0
    case RList(_) => 0
    case RFun(args, _, _, _, _) => |args|
    case RRec(f) => Takes(f) - 1
  }

  predicate IsTrue(v: RVal) { v != Zero }

  function Picks(args: seq<RVal>, picks: seq<nat>): seq<RVal> {
    seq(|picks|, i requires 0 <= i < |picks| => if picks[i] < |args| then args[picks[i]] else Zero)
  }

  function Fail(e: Error, stack: seq<RVal>, world: World<RVal>): AOut { AOut(Err(e), stack, world) }

  function ApplyPrim(op: PrimOp, stack: seq<RVal>, world: World<RVal>, b: BuiltIns, fuel: nat): AOut
    requires |stack| >= Machine.PrimTakes(op)
    decreases fuel, 0
  {
    var n := |stack|;
    match op
    case Apply =>
      if fuel == 0 then AOut(OutOfFuel, stack, world)
      else ApplyVal(stack[n-1], stack[..n-1], world, b, fuel - 1)
    case If =>
      if fuel == 0 then AOut(OutOfFuel, stack, world)
      else ApplyVal(if IsTrue(stack[n-3]) then stack[n-2] else stack[n-1], stack[..n-3], world, b, fuel - 1)
    case Not => AOut(Ok, stack[..n-1] + [RAtomic(Real(if IsTrue(stack[n-1]) then 0.0 else 1.0))], world)
    case Y =>
      if Takes(stack[n-1]) < 1 then Fail(Failed, stack[..n-1], world)
      else AOut(Ok, stack[..n-1] + [RRec(stack[n-1])], world)
    case Try =>
      if fuel == 0 then AOut(OutOfFuel, stack, world)
      else
        var r := ApplyVal(stack[n-2], stack[..n-2], world, b, fuel - 1);
        if !r.status.Err? then r
        else
          var c := ApplyVal(stack[n-1], r.stack, r.world, b, fuel - 1);
          if c.status.Ok? then c.(status := r.status) else c
    case Throw => Fail(Thrown, stack, world)
    case Clear => AOut(Ok, [], world)
    case Cleard => if n == 0 then Fail(StackUnderflow, stack, world) else AOut(Ok, [stack[n-1]], world)
    case StackDepth => AOut(Ok, stack + [RAtomic(Real(n as real))], world)
    case Shuffle(takes, picks) => AOut(Ok, stack[..n-takes] + Picks(stack[n-takes..], picks), world)
  }

  /** The arguments by name; of two equal names the first one is visible. */
  function BindArgs(args: seq<Name>, vals: seq<RVal>): (m: map<Name, RVal>)
    requires |args| == |vals|
  {
    if args == [] then map[] else BindArgs(args[1..], vals[1..])[args[0] := vals[0]]
  }

  function ApplyVal(v: RVal, stack: seq<RVal>, world: World<RVal>, b: BuiltIns, fuel: nat): AOut
    decreases fuel, 1
  {
    match v
    case RAtomic(Prim(op)) =>
      if |stack| < Machine.PrimTakes(op) then Fail(StackUnderflow, stack, world)
      else ApplyPrim(op, stack, world, b, fuel)
    case RAtomic(_) => AOut(Ok, stack + [v], world)
    case RList(_) => AOut(Ok, stack + [v], world)
    case RRec(f) =>
      if |stack| < Takes(v) then Fail(StackUnderflow, stack, world)
      else if fuel == 0 then AOut(OutOfFuel, stack, world)
      else ApplyVal(f, stack + [v], world, b, fuel - 1)
    case RFun(args, body, env, known, ws) =>
      if |stack| < |args| then Fail(StackUnderflow, stack, world)
      else if fuel == 0 then AOut(OutOfFuel, stack, world)
      else
        var m := |stack| - |args|;
        var scope := Scope(env, BindArgs(args, stack[m..]), known, false);
        var o := Items(body, Frame([], scope, ws, world), ws, b, fuel - 1);
        AOut(o.status, stack[..m] + o.f.stack, o.f.world)
  }

  function Call(v: RVal, f: Frame, b: BuiltIns, fuel: nat): Out
    decreases fuel, 2
  {
    var r := ApplyVal(v, f.stack, f.world, b, fuel);
    Out(r.status, f.(stack := r.stack, world := r.world))
  }

  function Push(f: Frame, v: RVal): Out { Out(Ok, f.(stack := f.stack + [v])) }

  /** The value of a name: a local, then an enclosing function's variable, then a workspace word, then a built-in. */
  datatype Meaning = Means(v: RVal) | Missing | Unknown

  function Resolve(n: Name, f: Frame, b: BuiltIns): Meaning {
    if n in f.scope.loc then Means(f.scope.loc[n])
    else if n in f.scope.env then Means(f.scope.env[n])
    else if n in f.scope.known then
      var v := WorldGet(f.world, f.ws, n);
      if v.Some? then Means(v.value) else Missing
    else if n in b then Means(RAtomic(b[n]))
    else Unknown
  }

  function BindName(n: Name, f: Frame): Out {
    var k := |f.stack|;
    if k == 0 then Out(Err(StackUnderflow), f)
    else if f.scope.top then
      var (world', ws') := WorldBind(f.world, f.ws, n, f.stack[k-1]);
      Out(Ok, Frame(f.stack[..k-1], f.scope.(known := f.scope.known + {n}), ws', world'))
    else
      Out(Ok, f.(stack := f.stack[..k-1], scope := f.scope.(loc := f.scope.loc[n := f.stack[k-1]])))
  }

  function BindNames(names: seq<Name>, f: Frame): Out
    decreases |names|
  {
    if names == [] then Out(Ok, f)
    else
      var o := BindName(names[|names| - 1], f);
      if o.status.Ok? then BindNames(names[..|names| - 1], o.f) else o
  }

  /** `unit` is the workspace that functions written here run in. */
  function Eval(item: Item, f: Frame, unit: Form, b: BuiltIns, fuel: nat): Out
    decreases fuel, 3, item
  {
    match item
    case Num(r) => Push(f, RAtomic(Real(r)))
    case Quote(n) => Push(f, RAtomic(Sym(n)))
    case Word(n) =>
      (match Resolve(n, f, b)
       case Means(v) => Call(v, f, b, fuel)
       case Missing => Out(Err(NotFound), f)
       case Unknown => Out(Unbound, f))
    case Backquote(n) =>
      (match Resolve(n, f, b)
       case Means(v) => Push(f, v)
       case Missing => Out(Err(NotFound), f)
       case Unknown => Out(Unbound, f))
    case Bind(n) => BindName(n, f)
    case BindMany(names) => BindNames(names, f)
    case Lambda(args, body) => Push(f, RFun(args, body, f.scope.env + f.scope.loc, f.scope.known, unit))
    case Parens(items) =>
      var o := Items(items, f.(stack := []), unit, b, fuel);
      o.(f := o.f.(stack := f.stack + o.f.stack))
    case ArrayLit(items) =>
      var o := Items(items, f.(stack := []), unit, b, fuel);
      if o.status.Ok? then o.(f := o.f.(stack := f.stack + [RList(o.f.stack)]))
      else o.(f := o.f.(stack := f.stack))
  }

  function Items(items: seq<Item>, f: Frame, unit: Form, b: BuiltIns, fuel: nat): Out
    decreases fuel, 3, items
  {
    if items == [] then Out(Ok, f)
    else
      var o := Eval(items[0], f, unit, b, fuel);
      if o.status.Ok? then Items(items[1..], o.f, unit, b, fuel) else o
  }
}
