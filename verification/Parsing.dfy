/**
  The parser's code generation as it runs: compile scopes are linked objects whose lists grow
  during lookups, opcodes are appended to a code buffer, and the current scope is a field that a
  lambda replaces and restores.  Every method is proved against the functions of module Compiler.
 */
module Parsing {
  import opened Basics
  import opened Workspace
  import opened Syntax
  import opened Compiler

  class CompileScope {
    const next: CompileScope?
    var locals: seq<Name>
    var vars: seq<VarDef>
    var wsVars: seq<Name>
    ghost const depth: nat
    ghost const repr: set<CompileScope>

    constructor Top()
      ensures Valid() && fresh(repr) && next == null && Chain() == [Scope.Top([])]
    {
      next, locals, vars, wsVars, depth, repr := null, [], [], [], 0, {this};
    }

    constructor Inner(outer: CompileScope)
      requires outer.Valid()
      ensures Valid() && fresh(this) && next == outer && repr == {this} + outer.repr
      ensures locals == [] && vars == [] && Chain() == [Scope.Inner([], [])] + outer.Chain()
    {
      next, locals, vars, wsVars, depth, repr := outer, [], [], [], outer.depth + 1, {this} + outer.repr;
    }

    ghost predicate Valid()
      decreases depth
    {
      && this in repr
      && (next == null ==> repr == {this})
      && (next != null ==> next.depth < depth && next.Valid() && repr == {this} + next.repr && this !in next.repr)
    }

    ghost function Here(): Scope
      reads this
    {
      if next == null then Scope.Top(wsVars) else Scope.Inner(locals, vars)
    }

    /** The scopes from this one outwards, as a value. */
    ghost function Chain(): (r: Chain)
      requires Valid()
      reads repr
      ensures r != []
      decreases depth
    {
      [Here()] + if next == null then [] else next.Chain()
    }

    /**
      The searches of `directLookup`: locals, then captured variables; at the top level, workspace words
      and built-ins.
     */
    method DirectLookup(n: Name, g: Globals) returns (r: Lookup)
      ensures r == Compiler.DirectLookup(Here(), n, g)
    {
      if next == null {
        for i := 0 to |wsVars|
          invariant n !in wsVars[..i]
        {
          if wsVars[i] == n { return IsWorkspace; }
        }
        if n in g.ws { return IsWorkspace; }
        if n in g.builtins { return IsBuiltIn(g.builtins[n]); }
        return IsUndefined;
      }
      for i := 0 to |locals|
        invariant n !in locals[..i]
      {
        if locals[i] == n {
          FirstIndexIs(locals, n, i);
          return IsLocal(i);
        }
      }
      for i := 0 to |vars|
        invariant n !in Names(vars)[..i]
      {
        if vars[i].name == n {
          assert Names(vars)[i] == n;
          FirstIndexIs(Names(vars), n, i);
          return IsFunVar(i);
        }
      }
      assert n !in Names(vars);
      return IsUndefined;
    }

    /** `indirectLookup`: asks the enclosing scopes, and captures what they have. */
    method IndirectLookup(n: Name, g: Globals) returns (r: Lookup)
      requires Valid()
      modifies repr
      ensures (r, Chain()) == Compiler.IndirectLookup(old(Chain()), n, g)
      decreases depth
    {
      r := DirectLookup(n, g);
      if next != null && r.IsUndefined? {
        r := next.IndirectLookup(n, g);
        if r.IsLocal? || r.IsFunVar? {
          var index := |vars|;
          vars := vars + [VarDef(n, r.IsLocal?, r.i)];
          r := IsFunVar(index);
        }
      }
    }

    /** `bindVar`: the opcode that stores into the name, or the error. */
    method BindVar(n: Name, g: Globals) returns (r: Result<Op>)
      requires Valid()
      modifies this
      ensures var c := Compiler.BindVar(old(Chain()), n, g);
        if r.Success? then c == Success(([r.value], Chain())) else c == Failure(r.error)
    {
      var here := DirectLookup(n, g);
      if next == null {
        if !here.IsWorkspace? { wsVars := wsVars + [n]; }
        return Success(BindWorkspaceVar(n));
      }
      if here.IsFunVar? { return Failure(NameInUse); }
      if here.IsLocal? { return Success(BindLocal(here.i)); }
      locals := locals + [n];
      return Success(BindLocal(|locals| - 1));
    }
  }

  lemma {:induction false} FirstIndexIs(names: seq<Name>, n: Name, i: nat)
    requires i < |names| && names[i] == n && n !in names[..i]
    ensures FirstIndex(names, n) == i
  {
    if i > 0 {
      assert names[..i][0] == names[0];
      assert names[1..][..i - 1] == names[..i][1..];
      FirstIndexIs(names[1..], n, i - 1);
    }
  }

  class Code {
    var ops: seq<Op>

    constructor ()
      ensures ops == []
    {
      ops := [];
    }

    method Add(op: Op)
      modifies this
      ensures ops == old(ops) + [op]
    {
      ops := ops + [op];
    }
  }

  /** What one step of code generation did (to the code buffer and the chain) is what the function says. */
  ghost predicate Emitted(c: Result<(seq<Op>, Chain)>, failed: Option<CompileError>, before: seq<Op>, after: seq<Op>,
          chain: Chain) {
    && (failed.None? ==> c.Success? && after == before + c.value.0 && chain == c.value.1)
    && (failed.Some? ==> c == Failure(failed.value))
  }

  /** With code `now` emitted so far, what the function still has to say is `rest`. */
  ghost predicate Remains(all: Result<(seq<Op>, Chain)>, before: seq<Op>, now: seq<Op>,
          rest: Result<(seq<Op>, Chain)>) {
    if rest.Failure? then all == rest
    else all.Success? && before + all.value.0 == now + rest.value.0 && all.value.1 == rest.value.1
  }

  lemma RemainsAfter(all: Result<(seq<Op>, Chain)>, before: seq<Op>, now: seq<Op>, more: seq<Op>,
                     rest: Result<(seq<Op>, Chain)>, rest': Result<(seq<Op>, Chain)>)
    requires Remains(all, before, now, rest)
    requires if rest'.Failure? then rest == rest' else rest == Success((more + rest'.value.0, rest'.value.1))
    ensures Remains(all, before, now + more, rest')
  {
    if rest'.Success? { assert now + (more + rest'.value.0) == now + more + rest'.value.0; }
  }

  /** The binding of name i is what comes next once the later names are bound. */
  lemma BindNext(all: Result<(seq<Op>, Chain)>, before: seq<Op>, now: seq<Op>, chain: Chain, names: seq<Name>, i: nat,
          g: Globals)
    requires i < |names| && Remains(all, before, now, BindAll(chain, names[..i + 1], g))
    ensures var first := Compiler.BindVar(chain, names[i], g);
      if first.Failure? then all == Failure(first.error)
      else Remains(all, before, now + first.value.0, BindAll(first.value.1, names[..i], g))
  {
    assert names[..i + 1][..i] == names[..i];
    var first := Compiler.BindVar(chain, names[i], g);
    if first.Success? {
      RemainsAfter(all, before, now, first.value.0, BindAll(chain, names[..i + 1], g),
        BindAll(first.value.1, names[..i], g));
    }
  }

  class Parser {
    const g: Globals
    const unit: Form
    var scope: CompileScope      // th.mCompileScope

    constructor (g: Globals, unit: Form)
      ensures scope.Valid() && fresh(scope.repr) && scope.Chain() == [Scope.Top([])] && this.g == g && this.unit == unit
    {
      this.g, this.unit := g, unit;
      scope := new CompileScope.Top();
    }

    method ParseWord(n: Name, call: bool, code: Code) returns (failed: Option<CompileError>)
      requires scope.Valid()
      modifies scope.repr, code
      ensures scope == old(scope) && scope.Valid()
      ensures Emitted(LookupWord(old(scope.Chain()), n, g, call), failed, old(code.ops), code.ops, scope.Chain())
    {
      var r := scope.IndirectLookup(n, g);
      match r {
        case IsLocal(i) => code.Add(if call then CallLocalVar(i) else PushLocalVar(i));
        case IsFunVar(i) => code.Add(if call then CallFunVar(i) else PushFunVar(i));
        case IsBuiltIn(v) => code.Add(if call then CallImmediate(v) else PushImmediate(v));
        case IsWorkspace => code.Add(if call then CallWorkspaceVar(n) else PushWorkspaceVar(n));
        case IsUndefined => return Some(UndefinedWord);
      }
      failed := None;
    }

    method ParseBind(n: Name, code: Code) returns (failed: Option<CompileError>)
      requires scope.Valid()
      modifies scope.repr, code
      ensures scope == old(scope) && scope.Valid()
      ensures Emitted(Compiler.BindVar(old(scope.Chain()), n, g), failed, old(code.ops), code.ops, scope.Chain())
    {
      var r := scope.BindVar(n, g);
      if r.Failure? { return Some(r.error); }
      code.Add(r.value);
      failed := None;
    }

    /** The names are bound from the last to the first. */
    method ParseBindMany(names: seq<Name>, code: Code) returns (failed: Option<CompileError>)
      requires scope.Valid()
      modifies scope.repr, code
      ensures scope == old(scope) && scope.Valid()
      ensures Emitted(BindAll(old(scope.Chain()), names, g), failed, old(code.ops), code.ops, scope.Chain())
    {
      var i := |names|;
      ghost var all := BindAll(scope.Chain(), names, g);
      assert names[..i] == names;
      while i > 0
        invariant 0 <= i <= |names| && scope.Valid() && scope == old(scope)
        invariant Remains(all, old(code.ops), code.ops, BindAll(scope.Chain(), names[..i], g))
      {
        i := i - 1;
        BindNext(all, old(code.ops), code.ops, scope.Chain(), names, i, g);
        failed := ParseBind(names[i], code);
        if failed.Some? { return; }
      }
      assert names[..0] == [];
      code.Add(OpNone);
      failed := None;
    }

    /** Parentheses and list literals: the items are compiled into code of their own, in the same scope. */
    method ParseBlock(items: seq<Item>) returns (failed: Option<CompileError>, ops: seq<Op>)
      requires scope.Valid()
      modifies `scope, scope.repr
      ensures scope == old(scope) && scope.Valid()
      ensures var c := CompileItems(items, old(scope.Chain()), g, unit);
        if failed.None? then c == Success((ops, scope.Chain())) else c == Failure(failed.value)
      decreases items, 1
    {
      var code2 := new Code();
      ghost var c := CompileItems(items, scope.Chain(), g, unit);
      failed := ParseItems(items, code2);
      ops := code2.ops;
      assert failed.None? ==> [] + c.value.0 == c.value.0;
    }

    /** Code to push all captured values, then opPushFun. */
    method EmitClosure(args: seq<Name>, ops: seq<Op>, cs: CompileScope, code: Code)
      returns (failed: Option<CompileError>)
      requires cs.Valid() && cs.next != null
      modifies code
      ensures Emitted(FinishLambda(args, ops, cs.Chain(), unit), failed, old(code.ops), code.ops, cs.next.Chain())
    {
      for i := 0 to |cs.vars|
        invariant code.ops == old(code.ops) + CapturePushes(cs.vars)[..i]
      {
        var d := cs.vars[i];
        code.Add(if d.fromLocal then PushLocalVar(d.fromIndex) else PushFunVar(d.fromIndex));
      }
      assert cs.Chain()[1..] == cs.next.Chain();
      if |args| > USHRT_MAX || |cs.locals| > USHRT_MAX || |cs.vars| > USHRT_MAX { return Some(TooManyVariables); }
      code.Add(PushFun(FunDef(ops + [Return], |args|, |cs.locals|, |cs.vars|, unit)));
      failed := None;
    }

    /** A scope for a lambda, whose first locals are its arguments. */
    method OpenScope(args: seq<Name>) returns (cs: CompileScope)
      requires scope.Valid()
      ensures fresh(cs) && cs.Valid() && cs.next == scope && cs.Chain() == [Scope.Inner(args, [])] + scope.Chain()
    {
      cs := new CompileScope.Inner(scope);
      for i := 0 to |args|
        invariant cs.Valid() && cs.next == scope && cs.locals == args[..i] && cs.vars == []
      {
        cs.locals := cs.locals + [args[i]];
      }
      assert args[..|args|] == args;
    }

    method ParseLambda(args: seq<Name>, body: seq<Item>, code: Code) returns (failed: Option<CompileError>)
      requires scope.Valid()
      modifies `scope, scope.repr, code
      ensures scope == old(scope) && scope.Valid()
      ensures Emitted(CompileItem(Lambda(args, body), old(scope.Chain()), g, unit), failed, old(code.ops), code.ops,
        scope.Chain())
      decreases body, 3
    {
      var cs := OpenScope(args);
      var bodyFailed, ops := ParseInside(cs, body);
      if bodyFailed.Some? { return bodyFailed; }
      failed := EmitClosure(args, ops, cs, code);
    }

    /** Parses a block in a scope nested in the current one, and comes back. */
    method ParseInside(cs: CompileScope, body: seq<Item>) returns (failed: Option<CompileError>, ops: seq<Op>)
      requires scope.Valid() && cs.Valid() && cs.next == scope
      modifies `scope, cs.repr
      ensures scope == old(scope) && cs.Valid() && cs.next == scope
      ensures var c := CompileItems(body, old(cs.Chain()), g, unit);
        if failed.None? then c == Success((ops, cs.Chain())) else c == Failure(failed.value)
      decreases body, 2
    {
      var save := scope;
      scope := cs;
      failed, ops := ParseBlock(body);
      scope := save;
    }

    method ParseElem(item: Item, code: Code) returns (failed: Option<CompileError>)
      requires scope.Valid()
      modifies `scope, scope.repr, code
      ensures scope == old(scope) && scope.Valid()
      ensures Emitted(CompileItem(item, old(scope.Chain()), g, unit), failed, old(code.ops), code.ops, scope.Chain())
      decreases item, 3
    {
      failed := None;
      match item {
        case Num(r) => code.Add(PushImmediate(Real(r)));
        case Quote(n) => code.Add(PushImmediate(Sym(n)));
        case Word(n) => failed := ParseWord(n, true, code);
        case Backquote(n) => failed := ParseWord(n, false, code);
        case Bind(n) => failed := ParseBind(n, code);
        case BindMany(names) =>
          if names == [] { return Some(ExpectedName); }
          failed := ParseBindMany(names, code);
        case Parens(items) =>
          var ops;
          failed, ops := ParseBlock(items);
          if failed.None? { code.Add(ParensOp(ops + [Return])); }
        case ArrayLit(items) =>
          var ops;
          failed, ops := ParseBlock(items);
          if failed.None? { code.Add(if |ops| != 0 then NewVList(ops + [Return]) else PushNil); }
        case Lambda(args, body) => failed := ParseLambda(args, body, code);
      }
    }

    /** `parseItemList`. */
    method ParseItems(items: seq<Item>, code: Code) returns (failed: Option<CompileError>)
      requires scope.Valid()
      modifies `scope, scope.repr, code
      ensures scope == old(scope) && scope.Valid()
      ensures Emitted(CompileItems(items, old(scope.Chain()), g, unit), failed, old(code.ops), code.ops, scope.Chain())
      decreases items, 0
    {
      ghost var all := CompileItems(items, scope.Chain(), g, unit);
      assert items[0..] == items;
      for i := 0 to |items|
        invariant scope == old(scope) && scope.Valid()
        invariant Remains(all, old(code.ops), code.ops, CompileItems(items[i..], scope.Chain(), g, unit))
      {
        assert items[i..][0] == items[i] && items[i..][1..] == items[i + 1..];
        ghost var now, rest, first := code.ops, CompileItems(items[i..], scope.Chain(), g, unit),
          CompileItem(items[i], scope.Chain(), g, unit);
        failed := ParseElem(items[i], code);
        if failed.Some? { return; }
        RemainsAfter(all, old(code.ops), now, first.value.0, rest,
          CompileItems(items[i + 1..], scope.Chain(), g, unit));
      }
      assert items[|items|..] == [];
      failed := None;
    }
  }

  /** `Thread::compile` at the top level. */
  method Compile(items: seq<Item>, g: Globals, unit: Form) returns (r: Result<FunDef>)
    ensures r == CompileUnit(items, g, unit)
  {
    var p := new Parser(g, unit);
    var failed, ops := p.ParseBlock(items);
    if failed.Some? { return Failure(failed.value); }
    return Success(FunDef(ops + [Return], 0, 0, 0, unit));
  }
}
