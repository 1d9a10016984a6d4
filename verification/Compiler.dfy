/**
  Code generation (Parser.cpp) over compile scopes (VM.cpp), as functions on values.

  A chain holds the compile scopes from the innermost function to the top level.  Looking a
  name up through an inner scope records captured variables in every scope on the way.
 */
module Compiler {
  import opened Basics
  import opened Workspace
  import opened Syntax

  datatype CompileError = UndefinedWord | NameInUse | ExpectedName | TooManyVariables

  datatype Result<+T> = Success(value: T) | Failure(error: CompileError) {
    predicate IsFailure() { Failure? }
    function PropagateFailure<U>(): Result<U> requires Failure? { Failure(error) }
    function Extract(): T requires Success? { value }
  }

  /** How a closure finds captured variable `name` in the function that creates it. */
  datatype VarDef = VarDef(name: Name, fromLocal: bool, fromIndex: nat)

  datatype Scope =
    | Inner(locals: seq<Name>, vars: seq<VarDef>)
    | Top(wsVars: seq<Name>)

  type Chain = seq<Scope>

  /** What compilation sees of the global state: the words of the thread's workspace, and the built-ins. */
  datatype Globals = Globals(ws: set<Name>, builtins: map<Name, Atom>)

  datatype Lookup =
    | IsLocal(i: nat)
    | IsFunVar(i: nat)
    | IsWorkspace
    | IsBuiltIn(v: Atom)
    | IsUndefined

  function Names(vars: seq<VarDef>): (r: seq<Name>)
    ensures |r| == |vars|
  {
    seq(|vars|, i requires 0 <= i < |vars| => vars[i].name)
  }

  function TopLookup(wsVars: seq<Name>, n: Name, g: Globals): Lookup {
    if n in wsVars || n in g.ws then IsWorkspace
    else if n in g.builtins then IsBuiltIn(g.builtins[n])
    else IsUndefined
  }

  /** `CompileScope::directLookup`: locals before captured variables. */
  function DirectLookup(scope: Scope, n: Name, g: Globals): Lookup {
    match scope
    case Inner(locals, vars) =>
      if n in locals then IsLocal(FirstIndex(locals, n))
      else if n in Names(vars) then IsFunVar(FirstIndex(Names(vars), n))
      else IsUndefined
    case Top(wsVars) => TopLookup(wsVars, n, g)
  }

  /** `indirectLookup`: a name found in an enclosing function is captured here. */
  function IndirectLookup(chain: Chain, n: Name, g: Globals): (r: (Lookup, Chain))
    ensures |r.1| == |chain|
  {
    if chain == [] then (IsUndefined, chain)
    else
      var scope := chain[0];
      var here := DirectLookup(scope, n, g);
      if scope.Top? || !here.IsUndefined? then (here, chain)
      else
        var (outer, rest) := IndirectLookup(chain[1..], n, g);
        if outer.IsLocal? || outer.IsFunVar? then
          var scope' := scope.(vars := scope.vars + [VarDef(n, outer.IsLocal?, outer.i)]);
          (IsFunVar(|scope.vars|), [scope'] + rest)
        else (outer, [scope] + rest)
  }

  function LookupWord(chain: Chain, n: Name, g: Globals, call: bool): (r: Result<(seq<Op>, Chain)>) {
    var (found, chain') := IndirectLookup(chain, n, g);
    match found
    case IsLocal(i) => Success(([if call then CallLocalVar(i) else PushLocalVar(i)], chain'))
    case IsFunVar(i) => Success(([if call then CallFunVar(i) else PushFunVar(i)], chain'))
    case IsBuiltIn(v) => Success(([if call then CallImmediate(v) else PushImmediate(v)], chain'))
    case IsWorkspace => Success(([if call then CallWorkspaceVar(n) else PushWorkspaceVar(n)], chain'))
    case IsUndefined => Failure(UndefinedWord)
  }

  /** `bindVar`: a new local of the innermost function, or a workspace word at the top level. */
  function BindVar(chain: Chain, n: Name, g: Globals): (r: Result<(seq<Op>, Chain)>) {
    if chain == [] then Failure(UndefinedWord)
    else
      var here := DirectLookup(chain[0], n, g);
      match chain[0]
      case Top(wsVars) =>
        Success(([BindWorkspaceVar(n)],
                 if here.IsWorkspace? then chain else [Top(wsVars + [n])] + chain[1..]))
      case Inner(locals, vars) =>
        if here.IsFunVar? then Failure(NameInUse)
        else if here.IsLocal? then Success(([BindLocal(here.i)], chain))
        else Success(([BindLocal(|locals|)], [Inner(locals + [n], vars)] + chain[1..]))
  }

  /** `= (x y z)` binds from the last name to the first. */
  function BindAll(chain: Chain, names: seq<Name>, g: Globals): (r: Result<(seq<Op>, Chain)>)
    decreases |names|
  {
    if names == [] then Success(([OpNone], chain))
    else
      var (ops, chain1) :- BindVar(chain, names[|names| - 1], g);
      var (ops', chain2) :- BindAll(chain1, names[..|names| - 1], g);
      Success((ops + ops', chain2))
  }

  /** The pushes of captured values, emitted before opPushFun. */
  function CapturePushes(vars: seq<VarDef>): (r: seq<Op>)
    ensures |r| == |vars|
  {
    seq(|vars|, i requires 0 <= i < |vars| =>
      if vars[i].fromLocal then PushLocalVar(vars[i].fromIndex) else PushFunVar(vars[i].fromIndex))
  }

  const USHRT_MAX := 65535

  /**
    The end of `parseLambda`: pushes the captured values, then makes the closure; `chain` starts with
    the lambda's scope.
   */
  function FinishLambda(args: seq<Name>, code: seq<Op>, chain: Chain, unit: Form): Result<(seq<Op>, Chain)> {
    if chain == [] || chain[0].Top? then Failure(UndefinedWord)
    else
      var scope := chain[0];
      if |args| > USHRT_MAX || |scope.locals| > USHRT_MAX || |scope.vars| > USHRT_MAX then Failure(TooManyVariables)
      else
        var def := FunDef(code + [Return], |args|, |scope.locals|, |scope.vars|, unit);
        Success((CapturePushes(scope.vars) + [PushFun(def)], chain[1..]))
  }

  /** One element of the program; `unit` is the thread's workspace when the text is compiled. */
  function CompileItem(item: Item, chain: Chain, g: Globals, unit: Form): Result<(seq<Op>, Chain)>
    decreases item
  {
    match item
    case Num(r) => Success(([PushImmediate(Real(r))], chain))
    case Quote(n) => Success(([PushImmediate(Sym(n))], chain))
    case Word(n) => LookupWord(chain, n, g, true)
    case Backquote(n) => LookupWord(chain, n, g, false)
    case Bind(n) => BindVar(chain, n, g)
    case BindMany(names) => if names == [] then Failure(ExpectedName) else BindAll(chain, names, g)
    case Parens(items) =>
      var (code, chain1) :- CompileItems(items, chain, g, unit);
      Success(([ParensOp(code + [Return])], chain1))
    case ArrayLit(items) =>
      var (code, chain1) :- CompileItems(items, chain, g, unit);
      Success(([if code != [] then NewVList(code + [Return]) else PushNil], chain1))
    case Lambda(args, body) =>
      var (code, chain1) :- CompileItems(body, [Inner(args, [])] + chain, g, unit);
      FinishLambda(args, code, chain1, unit)
  }

  function CompileItems(items: seq<Item>, chain: Chain, g: Globals, unit: Form): Result<(seq<Op>, Chain)>
    decreases items
  {
    if items == [] then Success(([], chain))
    else
      var (ops, chain1) :- CompileItem(items[0], chain, g, unit);
      var (ops', chain2) :- CompileItems(items[1..], chain1, g, unit);
      Success((ops + ops', chain2))
  }

  /** `Thread::compile` at the top level: no locals, no captured variables. */
  function CompileUnit(items: seq<Item>, g: Globals, unit: Form): Result<FunDef> {
    var (code, _) :- CompileItems(items, [Top([])], g, unit);
    Success(FunDef(code + [Return], 0, 0, 0, unit))
  }
}
