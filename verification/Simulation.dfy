/**
  Closure conversion preserves meaning: compiled code run by the machine, with local slots and
  captured copies, does what the reference interpreter does with environments.
 */
module Simulation {
  import opened Basics
  import opened Workspace
  import opened Syntax
  import opened Compiler
  import opened Scoping
  import M = Machine
  import R = Reference

  // ---------- related values ----------

  /** `def` is the compiled text of the function, compiled where exactly the names `keys` were visible variables. */
  ghost predicate Closes(def: FunDef, args: seq<Name>, body: seq<Item>, keys: set<Name>, known: set<Name>,
                         ws: Form, b: R.BuiltIns, outer: Chain, g: Globals, names: seq<Name>)
  {
    && g.builtins == b && WellFormed(outer) && Visible(outer) == keys && Known(outer, g) == known
    && var r := CompileItems(body, [Inner(args, [])] + outer, g, ws);
    && r.Success? && |r.value.1| > 0 && r.value.1[0].Inner?
    && var scope := r.value.1[0];
    && def == FunDef(r.value.0 + [Return], |args|, |scope.locals|, |scope.vars|, ws)
    && names == Names(scope.vars)
  }

  /** A machine value stands for a reference value: a closure holds related copies of what it captures. */
  ghost predicate RelVal(v: Val, r: RVal, b: R.BuiltIns)
    decreases v
  {
    match v
    case Atomic(a) => r == RAtomic(a)
    case List(items) => r.RList? && |items| == |r.items| &&
      forall i :: 0 <= i < |items| ==> RelVal(items[i], r.items[i], b)
    case Rec(f) => r.RRec? && RelVal(f, r.f, b)
    case Fun(def, vars) =>
      && r.RFun? && |vars| == def.numVars
      && exists outer, g, names :: Closes(def, r.args, r.body, r.env.Keys, r.known, r.ws, b, outer, g, names)
           && |names| == |vars|
           && forall i :: 0 <= i < |vars| ==> names[i] in r.env && RelVal(vars[i], r.env[names[i]], b)
  }

  ghost predicate RelSeq(s: seq<Val>, t: seq<RVal>, b: R.BuiltIns) {
    |s| == |t| && forall i :: 0 <= i < |s| ==> RelVal(s[i], t[i], b)
  }

  ghost predicate RelWorld(w: World<Val>, x: World<RVal>, b: R.BuiltIns) {
    w.tree == x.tree && w.threadWs == x.threadWs && RelSeq(w.vals, x.vals, b)
  }

  ghost predicate RelApplied(o: M.AOut, p: R.AOut, b: R.BuiltIns) {
    && o.status == p.status && o.status != Stuck && o.status != Unbound
    && RelSeq(o.stack, p.stack, b) && RelWorld(o.world, p.world, b)
  }

  // ---------- related frames ----------

  /** The static side of a running function: the names of all its captured variables and its number of locals. */
  datatype Layout = Layout(names: seq<Name>, numLocals: nat)

  ghost predicate Fits(chain: Chain, l: Layout) {
    |chain| > 0 && (chain[0].Inner? ==> |chain[0].locals| <= l.numLocals && Names(chain[0].vars) <= l.names)
  }

  ghost predicate RelScope(locals: seq<Val>, vars: seq<Val>, s: R.Scope, chain: Chain, g: Globals, l: Layout) {
    && |chain| > 0
    && s.top == chain[0].Top? && s.known == Known(chain, g) && s.env.Keys == Visible(chain[1..])
    && (chain[0].Top? ==> s.loc == map[])
    && (chain[0].Inner? ==>
          && |locals| >= l.numLocals >= |chain[0].locals| && s.loc.Keys == Elements(chain[0].locals)
          && (forall n :: n in chain[0].locals ==> RelVal(locals[FirstIndex(chain[0].locals, n)], s.loc[n], g.builtins))
          && |vars| == |l.names|
          && forall i :: 0 <= i < |vars| ==> l.names[i] in s.env && RelVal(vars[i], s.env[l.names[i]], g.builtins))
  }

  ghost predicate RelFrame(f: M.Frame, vars: seq<Val>, r: R.Frame, chain: Chain, g: Globals, l: Layout) {
    && RelSeq(f.stack, r.stack, g.builtins) && RelWorld(f.world, r.world, g.builtins) && f.ws == r.ws
    && RelScope(f.locals, vars, r.scope, chain, g, l)
  }

  ghost predicate RelOut(o: M.Out, vars: seq<Val>, p: R.Out, chain: Chain, g: Globals, l: Layout) {
    && o.status == p.status && o.status != Stuck && o.status != Unbound
    && RelSeq(o.f.stack, p.f.stack, g.builtins) && RelWorld(o.f.world, p.f.world, g.builtins)
    && (o.status.Ok? ==> RelFrame(o.f, vars, p.f, chain, g, l))
  }

  lemma FitsBefore(c: Chain, c': Chain, l: Layout)
    requires Grows(c, c') && Fits(c', l)
    ensures Fits(c, l)
  {}

  /** More captured variables in the chain do not disturb a frame that already has them. */
  lemma CaptureKeepsScope(locals: seq<Val>, vars: seq<Val>, s: R.Scope, c: Chain, c': Chain, g: Globals, l: Layout)
    requires RelScope(locals, vars, s, c, g, l) && AllCapture(c, c')
    ensures RelScope(locals, vars, s, c', g, l)
  {
    assert Captures(c[0], c'[0]);
    CaptureKeepsNames(c, c', g);
    assert AllCapture(c[1..], c'[1..]);
    CaptureKeepsNames(c[1..], c'[1..], g);
  }

  // ---------- names ----------

  ghost predicate RelMeaning(found: Lookup, n: Name, f: M.Frame, vars: seq<Val>, m: R.Meaning, b: R.BuiltIns) {
    match found
    case IsLocal(i) => i < |f.locals| && m.Means? && RelVal(f.locals[i], m.v, b)
    case IsFunVar(i) => i < |vars| && m.Means? && RelVal(vars[i], m.v, b)
    case IsBuiltIn(v) => m == R.Means(RAtomic(v))
    case IsWorkspace =>
      var v := WorldGet(f.world, f.ws, n);
      if v.Some? then m.Means? && RelVal(v.value, m.v, b) else m.Missing?
    case IsUndefined => m.Unknown?
  }

  /** The slot or word that a lookup chooses holds what the name means in the environment. */
  lemma SlotHoldsMeaning(n: Name, f: M.Frame, vars: seq<Val>, r: R.Frame, chain: Chain, g: Globals, l: Layout)
    requires WellFormed(chain) && RelFrame(f, vars, r, chain, g, l)
    requires Fits(IndirectLookup(chain, n, g).1, l)
    ensures RelMeaning(IndirectLookup(chain, n, g).0, n, f, vars, R.Resolve(n, r, g.builtins), g.builtins)
  {
    LookupOk(chain, n, g);
    var (found, c') := IndirectLookup(chain, n, g);
    assert Captures(chain[0], c'[0]);
    match found
    case IsFunVar(i) => assert Names(c'[0].vars)[i] == n;
    case _ =>
  }

  // ---------- binding ----------

  lemma RelWorldBind(w: World<Val>, x: World<RVal>, ws: Form, n: Name, v: Val, u: RVal, b: R.BuiltIns)
    requires RelWorld(w, x, b) && RelVal(v, u, b)
    ensures RelWorld(WorldBind(w, ws, n, v).0, WorldBind(x, ws, n, u).0, b)
    ensures WorldBind(w, ws, n, v).1 == WorldBind(x, ws, n, u).1
  {}

  lemma RunOne(op: Op, vars: seq<Val>, f: M.Frame, fuel: nat)
    requires op != Return
    ensures M.RunOps([op], vars, f, fuel) == M.Step(op, vars, f, fuel)
  {
    var o := M.Step(op, vars, f, fuel);
    assert [op][1..] == [];
    assert M.RunOps([], vars, o.f, fuel) == M.Out(Ok, o.f);
  }

  ghost predicate NoReturn(ops: seq<Op>) { Return !in ops }

  lemma {:induction false} RunAppend(a: seq<Op>, c: seq<Op>, vars: seq<Val>, f: M.Frame, fuel: nat)
    requires NoReturn(a)
    ensures var o := M.RunOps(a, vars, f, fuel);
      M.RunOps(a + c, vars, f, fuel) == if o.status.Ok? then M.RunOps(c, vars, o.f, fuel) else o
    decreases a
  {
    if a == [] {
      assert a + c == c;
    } else {
      assert (a + c)[0] == a[0] && (a + c)[1..] == a[1..] + c;
      assert a[0] in a && NoReturn(a[1..]);
      RunAppend(a[1..], c, vars, M.Step(a[0], vars, f, fuel).f, fuel);
    }
  }

  lemma RunBlock(a: seq<Op>, vars: seq<Val>, f: M.Frame, fuel: nat)
    requires NoReturn(a)
    ensures M.RunOps(a + [Return], vars, f, fuel) == M.RunOps(a, vars, f, fuel)
  {
    RunAppend(a, [Return], vars, f, fuel);
  }

  lemma {:induction false} BindAllNoReturn(names: seq<Name>, chain: Chain, g: Globals)
    requires BindAll(chain, names, g).Success?
    ensures NoReturn(BindAll(chain, names, g).value.0)
    decreases |names|
  {
    if names != [] {
      BindAllNoReturn(names[..|names| - 1], BindVar(chain, names[|names| - 1], g).value.1, g);
    }
  }

  lemma {:induction false} ItemNoReturn(item: Item, chain: Chain, g: Globals, unit: Form)
    requires CompileItem(item, chain, g, unit).Success?
    ensures NoReturn(CompileItem(item, chain, g, unit).value.0)
  {
    if item.BindMany? { BindAllNoReturn(item.names, chain, g); }
  }

  lemma {:induction false} ItemsNoReturn(items: seq<Item>, chain: Chain, g: Globals, unit: Form)
    requires CompileItems(items, chain, g, unit).Success?
    ensures NoReturn(CompileItems(items, chain, g, unit).value.0)
  {
    if items != [] {
      ItemNoReturn(items[0], chain, g, unit);
      ItemsNoReturn(items[1..], CompileItem(items[0], chain, g, unit).value.1, g, unit);
    }
  }

  /** Writing slot `i` is binding name `n`, when `i` is the slot of `n` in the grown list of locals. */
  lemma BindSlot(names: seq<Name>, names': seq<Name>, n: Name, locals: seq<Val>, loc: map<Name, RVal>, v: Val, u: RVal,
          b: R.BuiltIns)
    requires names' == names || (n !in names && names' == names + [n])
    requires n in names' && |locals| >= |names'| && loc.Keys == Elements(names) && RelVal(v, u, b)
    requires forall m :: m in names ==> RelVal(locals[FirstIndex(names, m)], loc[m], b)
    ensures loc[n := u].Keys == Elements(names')
    ensures forall m ::
      m in names' ==> RelVal(locals[FirstIndex(names', n) := v][FirstIndex(names', m)], loc[n := u][m], b)
  {
    forall m | m in names'
      ensures RelVal(locals[FirstIndex(names', n) := v][FirstIndex(names', m)], loc[n := u][m], b) {
      if m != n { OtherSlot(names, names', n, m); }
    }
  }

  /** Another name keeps its index, which is not the one of the name that is bound. */
  lemma OtherSlot(names: seq<Name>, names': seq<Name>, n: Name, m: Name)
    requires names' == names || (n !in names && names' == names + [n])
    requires n in names' && m in names' && m != n
    ensures m in names && FirstIndex(names', m) == FirstIndex(names, m) &&
      FirstIndex(names', m) != FirstIndex(names', n)
  {
    if names' != names { OtherIndex(names, n, m); }
    assert names'[FirstIndex(names', m)] == m && names'[FirstIndex(names', n)] == n;
  }

  /** Names other than the new one stay at their index. */
  lemma OtherIndex(names: seq<Name>, n: Name, m: Name)
    requires m != n && m in names + [n]
    ensures m in names && FirstIndex(names + [n], m) == FirstIndex(names, m)
  {
    FirstIndexPrefix(names, [n], m);
  }

  lemma SimBindLocal(n: Name, chain: Chain, g: Globals, f: M.Frame, vars: seq<Val>, r: R.Frame, l: Layout, fuel: nat)
    requires WellFormed(chain) && BindVar(chain, n, g).Success? && chain[0].Inner?
    requires Fits(BindVar(chain, n, g).value.1, l) && RelFrame(f, vars, r, chain, g, l)
    ensures var (ops, c') := BindVar(chain, n, g).value;
      |ops| == 1 && RelOut(M.Step(ops[0], vars, f, fuel), vars, R.BindName(n, r), c', g, l)
  {
    var (ops, c') := BindVar(chain, n, g).value;
    BindOk(chain, n, g);
    var k := |f.stack|;
    var names, names' := chain[0].locals, c'[0].locals;
    if n !in names { FreshIndex(names, n); }
    assert ops[0] == BindLocal(FirstIndex(names', n));
    if k > 0 {
      var v, u := f.stack[k-1], r.stack[k-1];
      RelTake(f.stack, r.stack, k - 1, g.builtins);
      BindSlot(names, names', n, f.locals, r.scope.loc, v, u, g.builtins);
      GrownScope(n, chain, c', f.locals, vars, r.scope, g, l, v, u);
    }
  }

  lemma GrownScope(n: Name, chain: Chain, c': Chain, locals: seq<Val>, vars: seq<Val>, s: R.Scope, g: Globals,
          l: Layout, v: Val, u: RVal)
    requires RelScope(locals, vars, s, chain, g, l) && Fits(c', l)
    requires chain[0].Inner? && c'[0].Inner? && c'[1..] == chain[1..] && |c'| > 1 && n in c'[0].locals
    requires s.loc[n := u].Keys == Elements(c'[0].locals)
    requires forall m :: m in c'[0].locals ==>
               RelVal(locals[FirstIndex(c'[0].locals, n) := v][FirstIndex(c'[0].locals, m)], s.loc[n := u][m],
                 g.builtins)
    ensures RelScope(locals[FirstIndex(c'[0].locals, n) := v], vars, s.(loc := s.loc[n := u]), c', g, l)
  {
    assert Known(c', g) == Known(chain, g);
  }

  lemma SimBindTop(n: Name, chain: Chain, g: Globals, f: M.Frame, vars: seq<Val>, r: R.Frame, l: Layout, fuel: nat)
    requires WellFormed(chain) && BindVar(chain, n, g).Success? && chain[0].Top?
    requires RelFrame(f, vars, r, chain, g, l)
    ensures var (ops, c') := BindVar(chain, n, g).value;
      |ops| == 1 && RelOut(M.Step(ops[0], vars, f, fuel), vars, R.BindName(n, r), c', g, l)
  {
    var (ops, c') := BindVar(chain, n, g).value;
    var k := |f.stack|;
    if k > 0 {
      RelWorldBind(f.world, r.world, f.ws, n, f.stack[k-1], r.stack[k-1], g.builtins);
      assert Known(c', g) == Known(chain, g) + {n};
    }
  }

  lemma SimBind(n: Name, chain: Chain, g: Globals, f: M.Frame, vars: seq<Val>, r: R.Frame, l: Layout, fuel: nat)
    requires WellFormed(chain) && BindVar(chain, n, g).Success?
    requires Fits(BindVar(chain, n, g).value.1, l) && RelFrame(f, vars, r, chain, g, l)
    ensures var (ops, c') := BindVar(chain, n, g).value;
      RelOut(M.RunOps(ops, vars, f, fuel), vars, R.BindName(n, r), c', g, l)
  {
    var (ops, _) := BindVar(chain, n, g).value;
    RunOne(ops[0], vars, f, fuel);
    assert ops == [ops[0]];
    if chain[0].Top? {
      SimBindTop(n, chain, g, f, vars, r, l, fuel);
    } else {
      SimBindLocal(n, chain, g, f, vars, r, l, fuel);
    }
  }

  lemma FreshIndex(names: seq<Name>, n: Name)
    requires n !in names
    ensures n in names + [n] && FirstIndex(names + [n], n) == |names|
  {
    if names != [] {
      assert (names + [n])[1..] == names[1..] + [n];
      FreshIndex(names[1..], n);
    }
  }

  lemma {:induction false} SimBindAll(names: seq<Name>, chain: Chain, g: Globals, f: M.Frame, vars: seq<Val>,
          r: R.Frame, l: Layout, fuel: nat)
    requires WellFormed(chain) && BindAll(chain, names, g).Success?
    requires Fits(BindAll(chain, names, g).value.1, l) && RelFrame(f, vars, r, chain, g, l)
    ensures var (ops, c') := BindAll(chain, names, g).value;
      RelOut(M.RunOps(ops, vars, f, fuel), vars, R.BindNames(names, r), c', g, l)
    decreases |names|
  {
    if names == [] {
      RunOne(OpNone, vars, f, fuel);
    } else {
      var n, rest := names[|names| - 1], names[..|names| - 1];
      var (ops, c1) := BindVar(chain, n, g).value;
      var (ops', c2) := BindAll(c1, rest, g).value;
      BindOk(chain, n, g);
      BindAllOk(c1, rest, g);
      FitsBefore(c1, c2, l);
      SimBind(n, chain, g, f, vars, r, l, fuel);
      RunAppend(ops, ops', vars, f, fuel);
      var o, p := M.RunOps(ops, vars, f, fuel), R.BindName(n, r);
      if o.status.Ok? { SimBindAll(rest, c1, g, o.f, vars, p.f, l, fuel); }
    }
  }

  // ---------- closures ----------

  /** The captured values, in the order in which the lambda first used them. */
  ghost function CapturedValues(defs: seq<VarDef>, f: M.Frame, vars: seq<Val>): (r: seq<Val>)
    requires forall i :: 0 <= i < |defs| ==> defs[i].fromIndex < if defs[i].fromLocal then |f.locals| else |vars|
    ensures |r| == |defs|
  {
    seq(|defs|, i requires 0 <= i < |defs| =>
      if defs[i].fromLocal then f.locals[defs[i].fromIndex] else vars[defs[i].fromIndex])
  }

  lemma {:induction false} RunPushes(defs: seq<VarDef>, vars: seq<Val>, f: M.Frame, fuel: nat)
    requires forall i :: 0 <= i < |defs| ==> defs[i].fromIndex < if defs[i].fromLocal then |f.locals| else |vars|
    ensures M.RunOps(CapturePushes(defs), vars, f, fuel) ==
      M.Out(Ok, f.(stack := f.stack + CapturedValues(defs, f, vars)))
    decreases |defs|
  {
    var ops := CapturePushes(defs);
    if defs != [] {
      var f1 := M.Step(ops[0], vars, f, fuel).f;
      assert ops[1..] == CapturePushes(defs[1..]);
      RunPushes(defs[1..], vars, f1, fuel);
      assert f1.stack + CapturedValues(defs[1..], f1, vars) == f.stack + CapturedValues(defs, f, vars);
    } else {
      assert f.stack + CapturedValues(defs, f, vars) == f.stack;
    }
  }

  /** The capture pushes and the function push together push one closure. */
  lemma LambdaRuns(defs: seq<VarDef>, def: FunDef, vars: seq<Val>, f: M.Frame, fuel: nat)
    requires forall i :: 0 <= i < |defs| ==> defs[i].fromIndex < if defs[i].fromLocal then |f.locals| else |vars|
    requires def.numVars == |defs|
    ensures M.RunOps(CapturePushes(defs) + [PushFun(def)], vars, f, fuel)
         == M.Out(Ok, f.(stack := f.stack + [Fun(def, CapturedValues(defs, f, vars))]))
  {
    var captured := CapturedValues(defs, f, vars);
    RunPushes(defs, vars, f, fuel);
    RunAppend(CapturePushes(defs), [PushFun(def)], vars, f, fuel);
    var f1 := f.(stack := f.stack + captured);
    RunOne(PushFun(def), vars, f1, fuel);
    assert f1.stack[..|f1.stack| - |defs|] == f.stack && f1.stack[|f1.stack| - |defs|..] == captured;
  }

  /** The captured copies agree with the environment that the reference closure keeps. */
  lemma CaptureAgrees(args: seq<Name>, chain: Chain, c1: Chain, g: Globals, f: M.Frame, vars: seq<Val>, r: R.Frame,
          l: Layout)
    requires WellFormed(chain) && WellFormed(c1) && Grows([Inner(args, [])] + chain, c1) && Fits(c1[1..], l)
    requires RelFrame(f, vars, r, chain, g, l)
    ensures var defs, env := c1[0].vars, r.scope.env + r.scope.loc;
      forall i :: 0 <= i < |defs| ==>
        && defs[i].fromIndex < (if defs[i].fromLocal then |f.locals| else |vars|)
        && defs[i].name in env
        && RelVal(if defs[i].fromLocal then f.locals[defs[i].fromIndex]
          else vars[defs[i].fromIndex], env[defs[i].name], g.builtins)
  {
    PopLambda(args, chain, c1);
    var defs, cur := c1[0].vars, c1[1];
    assert Captures(chain[0], c1[1..][0]);
    forall i | 0 <= i < |defs|
      ensures && defs[i].fromIndex < (if defs[i].fromLocal then |f.locals| else |vars|)
              && defs[i].name in r.scope.env + r.scope.loc
              && RelVal(if defs[i].fromLocal then f.locals[defs[i].fromIndex] else vars[defs[i].fromIndex],
                        (r.scope.env + r.scope.loc)[defs[i].name], g.builtins)
    {
      var d := defs[i];
      if !d.fromLocal {
        assert Names(cur.vars)[d.fromIndex] == d.name == l.names[d.fromIndex];
      }
    }
  }

  /** A closure whose captured copies agree with an environment stands for the function over that environment. */
  lemma ClosureRelates(args: seq<Name>, body: seq<Item>, chain: Chain, g: Globals, unit: Form,
                       captured: seq<Val>, env: map<Name, RVal>, known: set<Name>)
    requires WellFormed(chain) && env.Keys == Visible(chain) && known == Known(chain, g)
    requires var r := CompileItems(body, [Inner(args, [])] + chain, g, unit);
      r.Success? && |r.value.1| > 0 && r.value.1[0].Inner? && |captured| == |r.value.1[0].vars|
    requires var defs := CompileItems(body, [Inner(args, [])] + chain, g, unit).value.1[0].vars;
      forall i :: 0 <= i < |defs| ==> defs[i].name in env && RelVal(captured[i], env[defs[i].name], g.builtins)
    ensures var (code, c1) := CompileItems(body, [Inner(args, [])] + chain, g, unit).value;
      RelVal(Fun(FunDef(code + [Return], |args|, |c1[0].locals|, |c1[0].vars|, unit), captured),
             RFun(args, body, env, known, unit), g.builtins)
  {
    var (code, c1) := CompileItems(body, [Inner(args, [])] + chain, g, unit).value;
    var def := FunDef(code + [Return], |args|, |c1[0].locals|, |c1[0].vars|, unit);
    assert Closes(def, args, body, env.Keys, known, unit, g.builtins, chain, g, Names(c1[0].vars));
  }

  lemma SimLambda(args: seq<Name>, body: seq<Item>, chain: Chain, g: Globals, unit: Form,
                  f: M.Frame, vars: seq<Val>, r: R.Frame, l: Layout, fuel: nat)
    requires WellFormed(chain) && CompileItem(Lambda(args, body), chain, g, unit).Success?
    requires Fits(CompileItem(Lambda(args, body), chain, g, unit).value.1, l) && RelFrame(f, vars, r, chain, g, l)
    ensures var (ops, c') := CompileItem(Lambda(args, body), chain, g, unit).value;
      RelOut(M.RunOps(ops, vars, f, fuel), vars, R.Eval(Lambda(args, body), r, unit, g.builtins, fuel), c', g, l)
  {
    var inner := [Inner(args, [])] + chain;
    assert inner[1..] == chain;
    CompileItemsOk(body, inner, g, unit);
    var (code, c1) := CompileItems(body, inner, g, unit).value;
    PopLambda(args, chain, c1);
    CaptureAgrees(args, chain, c1, g, f, vars, r, l);
    var defs := c1[0].vars;
    var def := FunDef(code + [Return], |args|, |c1[0].locals|, |defs|, unit);
    var captured := CapturedValues(defs, f, vars);
    var ops := CapturePushes(defs) + [PushFun(def)];
    assert M.RunOps(ops, vars, f, fuel) == M.Out(Ok, f.(stack := f.stack + [Fun(def, captured)])) by {
      LambdaRuns(defs, def, vars, f, fuel);
    }
    var env := r.scope.env + r.scope.loc;
    assert RelVal(Fun(def, captured), RFun(args, body, env, r.scope.known, unit), g.builtins) by {
      ClosureRelates(args, body, chain, g, unit, captured, env, r.scope.known);
    }
    CaptureKeepsScope(f.locals, vars, r.scope, chain, c1[1..], g, l);
  }

  // ---------- application ----------

  lemma {:induction false} BindArgsHolds(args: seq<Name>, vals: seq<RVal>)
    requires |args| == |vals|
    ensures var m := R.BindArgs(args, vals);
      m.Keys == Elements(args) && forall n :: n in args ==> m[n] == vals[FirstIndex(args, n)]
  {
    if args != [] {
      BindArgsHolds(args[1..], vals[1..]);
      assert Elements(args) == {args[0]} + Elements(args[1..]);
      var m := R.BindArgs(args, vals);
      forall n | n in args ensures m[n] == vals[FirstIndex(args, n)] {}
    }
  }

  lemma RelIsTrue(v: Val, u: RVal, b: R.BuiltIns)
    requires RelVal(v, u, b)
    ensures M.IsTrue(v) == R.IsTrue(u)
  {}

  lemma {:induction false} RelTakes(v: Val, u: RVal, b: R.BuiltIns)
    requires RelVal(v, u, b)
    ensures M.Takes(v) == R.Takes(u)
  {
    if v.Rec? { RelTakes(v.f, u.f, b); }
  }

  lemma RelPush(s: seq<Val>, t: seq<RVal>, v: Val, u: RVal, b: R.BuiltIns)
    requires RelSeq(s, t, b) && RelVal(v, u, b)
    ensures RelSeq(s + [v], t + [u], b)
  {}

  lemma RelConcat(s: seq<Val>, t: seq<RVal>, s': seq<Val>, t': seq<RVal>, b: R.BuiltIns)
    requires RelSeq(s, t, b) && RelSeq(s', t', b)
    ensures RelSeq(s + s', t + t', b)
  {}

  lemma RelPicks(s: seq<Val>, t: seq<RVal>, picks: seq<nat>, b: R.BuiltIns)
    requires RelSeq(s, t, b)
    ensures RelSeq(M.Picks(s, picks), R.Picks(t, picks), b)
  {}

  /** Related functions enter related frames. */
  lemma RelEnter(def: FunDef, vars: seq<Val>, u: RVal, stack: seq<Val>, rstack: seq<RVal>,
                 world: World<Val>, rworld: World<RVal>, b: R.BuiltIns, outer: Chain, g: Globals, names: seq<Name>)
    requires u.RFun? && |stack| >= def.numArgs && def.numArgs <= def.numLocals
    requires Closes(def, u.args, u.body, u.env.Keys, u.known, u.ws, b, outer, g, names)
    requires |names| == |vars| &&
      forall i :: 0 <= i < |vars| ==> names[i] in u.env && RelVal(vars[i], u.env[names[i]], b)
    requires RelSeq(stack, rstack, b) && RelWorld(world, rworld, b)
    ensures var m := |stack| - def.numArgs;
      RelFrame(M.Enter(def, stack, world), vars,
               R.Frame([], R.Scope(u.env, R.BindArgs(u.args, rstack[m..]), u.known, false), u.ws, rworld),
               [Inner(u.args, [])] + outer, g, Layout(names, def.numLocals))
  {
    var chain := [Inner(u.args, [])] + outer;
    assert chain[1..] == outer;
    CompileItemsOk(u.body, chain, g, u.ws);
    BindArgsHolds(u.args, rstack[|stack| - def.numArgs..]);
  }

  lemma {:induction false} SimApply(v: Val, u: RVal, stack: seq<Val>, rstack: seq<RVal>,
                                    world: World<Val>, rworld: World<RVal>, b: R.BuiltIns, fuel: nat)
    requires RelVal(v, u, b) && RelSeq(stack, rstack, b) && RelWorld(world, rworld, b)
    ensures RelApplied(M.ApplyVal(v, stack, world, fuel), R.ApplyVal(u, rstack, rworld, b, fuel), b)
    decreases fuel, 1
  {
    match v
    case Atomic(Prim(op)) =>
      if |stack| >= M.PrimTakes(op) { SimPrim(op, stack, rstack, world, rworld, b, fuel); }
    case Atomic(_) => RelPush(stack, rstack, v, u, b);
    case List(_) => RelPush(stack, rstack, v, u, b);
    case Rec(f) =>
      RelTakes(v, u, b);
      RelPush(stack, rstack, v, u, b);
      if |stack| >= M.Takes(v) && fuel > 0 {
        SimApply(f, u.f, stack + [v], rstack + [u], world, rworld, b, fuel - 1);
      }
    case Fun(def, vars) =>
      var outer, g, names :| Closes(def, u.args, u.body, u.env.Keys, u.known, u.ws, b, outer, g, names)
           && |names| == |vars|
           && forall i :: 0 <= i < |vars| ==> names[i] in u.env && RelVal(vars[i], u.env[names[i]], b);
      if |stack| >= def.numArgs {
        SimCall(def, vars, u, stack, rstack, world, rworld, b, outer, g, names, fuel);
      }
  }

  /** A call runs the body and puts its results in place of the arguments. */
  lemma CallRuns(def: FunDef, code: seq<Op>, vars: seq<Val>, stack: seq<Val>, world: World<Val>, fuel: nat)
    requires |stack| >= def.numArgs && def.numArgs <= def.numLocals && fuel > 0
    requires NoReturn(code) && def.code == code + [Return]
    ensures var o := M.RunOps(code, vars, M.Enter(def, stack, world), fuel - 1);
      M.ApplyVal(Fun(def, vars), stack, world, fuel) ==
        M.AOut(o.status, stack[..|stack| - def.numArgs] + o.f.stack, o.f.world)
  {
    RunBlock(code, vars, M.Enter(def, stack, world), fuel - 1);
  }

  lemma CallMeans(u: RVal, rstack: seq<RVal>, rworld: World<RVal>, b: R.BuiltIns, fuel: nat)
    requires u.RFun? && |rstack| >= |u.args| && fuel > 0
    ensures var m := |rstack| - |u.args|;
      var p := R.Items(u.body,
        R.Frame([], R.Scope(u.env, R.BindArgs(u.args, rstack[m..]), u.known, false), u.ws, rworld),
                       u.ws, b, fuel - 1);
      R.ApplyVal(u, rstack, rworld, b, fuel) == R.AOut(p.status, rstack[..m] + p.f.stack, p.f.world)
  {}

  lemma {:induction false} SimCall(def: FunDef, vars: seq<Val>, u: RVal, stack: seq<Val>, rstack: seq<RVal>,
                                   world: World<Val>, rworld: World<RVal>, b: R.BuiltIns, outer: Chain, g: Globals,
                                   names: seq<Name>, fuel: nat)
    requires u.RFun? && |stack| >= def.numArgs
    requires Closes(def, u.args, u.body, u.env.Keys, u.known, u.ws, b, outer, g, names)
    requires |names| == |vars| &&
      forall i :: 0 <= i < |vars| ==> names[i] in u.env && RelVal(vars[i], u.env[names[i]], b)
    requires RelSeq(stack, rstack, b) && RelWorld(world, rworld, b)
    ensures RelApplied(M.ApplyVal(Fun(def, vars), stack, world, fuel), R.ApplyVal(u, rstack, rworld, b, fuel), b)
    decreases fuel, 0
  {
    var chain := [Inner(u.args, [])] + outer;
    var (code, c') := CompileItems(u.body, chain, g, u.ws).value;
    assert |u.args| <= |c'[0].locals| && WellFormed(chain) by {
      assert chain[1..] == outer;
      CompileItemsOk(u.body, chain, g, u.ws);
    }
    if fuel > 0 {
      var m := |stack| - def.numArgs;
      var f := M.Enter(def, stack, world);
      var r := R.Frame([], R.Scope(u.env, R.BindArgs(u.args, rstack[m..]), u.known, false), u.ws, rworld);
      var o, p := M.RunOps(code, vars, f, fuel - 1), R.Items(u.body, r, u.ws, b, fuel - 1);
      assert M.ApplyVal(Fun(def, vars), stack, world, fuel) == M.AOut(o.status, stack[..m] + o.f.stack, o.f.world) by {
        ItemsNoReturn(u.body, chain, g, u.ws);
        CallRuns(def, code, vars, stack, world, fuel);
      }
      assert R.ApplyVal(u, rstack, rworld, b, fuel) == R.AOut(p.status, rstack[..m] + p.f.stack, p.f.world) by {
        CallMeans(u, rstack, rworld, b, fuel);
      }
      RelEnter(def, vars, u, stack, rstack, world, rworld, b, outer, g, names);
      SimItems(u.body, chain, g, u.ws, f, vars, r, Layout(names, def.numLocals), fuel - 1);
      RelConcat(stack[..m], rstack[..m], o.f.stack, p.f.stack, b);
    }
  }

  lemma RelTake(s: seq<Val>, t: seq<RVal>, k: nat, b: R.BuiltIns)
    requires RelSeq(s, t, b) && k <= |s|
    ensures RelSeq(s[..k], t[..k], b)
  {}

  /** The primitives that apply what they find on the stack. */
  lemma {:induction false} SimCaller(op: PrimOp, stack: seq<Val>, rstack: seq<RVal>,
                                     world: World<Val>, rworld: World<RVal>, b: R.BuiltIns, fuel: nat)
    requires op.Apply? || op.If?
    requires |stack| >= M.PrimTakes(op) && RelSeq(stack, rstack, b) && RelWorld(world, rworld, b)
    ensures RelApplied(M.ApplyPrim(op, stack, world, fuel), R.ApplyPrim(op, rstack, rworld, b, fuel), b)
    decreases fuel, 0, 0
  {
    if fuel > 0 {
      var n := |stack|;
      var m := n - M.PrimTakes(op);
      RelTake(stack, rstack, m, b);
      if op.If? { RelIsTrue(stack[n-3], rstack[n-3], b); }
      var k := if op.If? && M.IsTrue(stack[n-3]) then n - 2 else n - 1;
      SimApply(stack[k], rstack[k], stack[..m], rstack[..m], world, rworld, b, fuel - 1);
    }
  }

  lemma {:induction false} SimTry(stack: seq<Val>, rstack: seq<RVal>,
                                  world: World<Val>, rworld: World<RVal>, b: R.BuiltIns, fuel: nat)
    requires |stack| >= 2 && RelSeq(stack, rstack, b) && RelWorld(world, rworld, b)
    ensures RelApplied(M.ApplyPrim(Try, stack, world, fuel), R.ApplyPrim(Try, rstack, rworld, b, fuel), b)
    decreases fuel, 0, 0
  {
    if fuel > 0 {
      var n := |stack|;
      RelTake(stack, rstack, n - 2, b);
      SimApply(stack[n-2], rstack[n-2], stack[..n-2], rstack[..n-2], world, rworld, b, fuel - 1);
      var o := M.ApplyVal(stack[n-2], stack[..n-2], world, fuel - 1);
      var p := R.ApplyVal(rstack[n-2], rstack[..n-2], rworld, b, fuel - 1);
      SimApply(stack[n-1], rstack[n-1], o.stack, p.stack, o.world, p.world, b, fuel - 1);
    }
  }

  lemma SimShuffle(takes: nat, picks: seq<nat>, stack: seq<Val>, rstack: seq<RVal>,
                   world: World<Val>, rworld: World<RVal>, b: R.BuiltIns, fuel: nat)
    requires |stack| >= takes && RelSeq(stack, rstack, b) && RelWorld(world, rworld, b)
    ensures RelApplied(M.ApplyPrim(Shuffle(takes, picks), stack, world, fuel),
                       R.ApplyPrim(Shuffle(takes, picks), rstack, rworld, b, fuel), b)
  {
    var m := |stack| - takes;
    RelTake(stack, rstack, m, b);
    assert RelSeq(stack[m..], rstack[m..], b);
    RelPicks(stack[m..], rstack[m..], picks, b);
    RelConcat(stack[..m], rstack[..m], M.Picks(stack[m..], picks), R.Picks(rstack[m..], picks), b);
  }

  lemma {:induction false} SimPrim(op: PrimOp, stack: seq<Val>, rstack: seq<RVal>,
                                   world: World<Val>, rworld: World<RVal>, b: R.BuiltIns, fuel: nat)
    requires |stack| >= M.PrimTakes(op) && RelSeq(stack, rstack, b) && RelWorld(world, rworld, b)
    ensures RelApplied(M.ApplyPrim(op, stack, world, fuel), R.ApplyPrim(op, rstack, rworld, b, fuel), b)
    decreases fuel, 0, 1
  {
    var n := |stack|;
    match op
    case Apply => SimCaller(op, stack, rstack, world, rworld, b, fuel);
    case If => SimCaller(op, stack, rstack, world, rworld, b, fuel);
    case Try => SimTry(stack, rstack, world, rworld, b, fuel);
    case Shuffle(takes, picks) => SimShuffle(takes, picks, stack, rstack, world, rworld, b, fuel);
    case Not => RelTake(stack, rstack, n - 1, b); RelIsTrue(stack[n-1], rstack[n-1], b);
    case Y => RelTake(stack, rstack, n - 1, b); RelTakes(stack[n-1], rstack[n-1], b);
    case _ =>
  }

  // ---------- programs ----------

  ghost function Found(found: Lookup, n: Name, f: M.Frame, vars: seq<Val>): Val {
    match found
    case IsLocal(i) => if i < |f.locals| then f.locals[i] else M.Zero
    case IsFunVar(i) => if i < |vars| then vars[i] else M.Zero
    case IsBuiltIn(a) => Atomic(a)
    case IsWorkspace =>
      var v := WorldGet(f.world, f.ws, n);
      if v.Some? then v.value else M.Zero
    case IsUndefined => M.Zero
  }


  /** One word is one opcode, which pushes or applies what the slot or word holds. */
  lemma StepWord(n: Name, call: bool, chain: Chain, g: Globals, f: M.Frame, vars: seq<Val>, m: R.Meaning, fuel: nat)
    requires LookupWord(chain, n, g, call).Success?
    requires RelMeaning(IndirectLookup(chain, n, g).0, n, f, vars, m, g.builtins)
    ensures var v := Found(IndirectLookup(chain, n, g).0, n, f, vars);
      M.RunOps(LookupWord(chain, n, g, call).value.0, vars, f, fuel) ==
        if m.Missing? then M.Out(Err(NotFound), f) else if call then M.Call(v, f, fuel) else M.Push(f, v)
    ensures m.Means? ==> RelVal(Found(IndirectLookup(chain, n, g).0, n, f, vars), m.v, g.builtins)
    ensures !m.Unknown?
  {
    var (ops, _) := LookupWord(chain, n, g, call).value;
    assert ops == [ops[0]];
    RunOne(ops[0], vars, f, fuel);
  }

  lemma {:induction false} SimWord(n: Name, call: bool, chain: Chain, g: Globals, unit: Form,
                f: M.Frame, vars: seq<Val>, r: R.Frame, l: Layout, fuel: nat)
    requires WellFormed(chain) && LookupWord(chain, n, g, call).Success?
    requires Fits(LookupWord(chain, n, g, call).value.1, l) && RelFrame(f, vars, r, chain, g, l)
    ensures var (ops, c') := LookupWord(chain, n, g, call).value;
      RelOut(M.RunOps(ops, vars, f, fuel), vars,
             R.Eval(if call then Word(n) else Backquote(n), r, unit, g.builtins, fuel), c', g, l)
    decreases fuel, 2
  {
    LookupOk(chain, n, g);
    var (found, c') := IndirectLookup(chain, n, g);
    var m := R.Resolve(n, r, g.builtins);
    SlotHoldsMeaning(n, f, vars, r, chain, g, l);
    StepWord(n, call, chain, g, f, vars, m, fuel);
    CaptureKeepsScope(f.locals, vars, r.scope, chain, c', g, l);
    if m.Means? {
      var v := Found(found, n, f, vars);
      if call {
        SimApply(v, m.v, f.stack, r.stack, f.world, r.world, g.builtins, fuel);
      } else {
        RelPush(f.stack, r.stack, v, m.v, g.builtins);
      }
    }
  }

  lemma {:induction false} SimItem(item: Item, chain: Chain, g: Globals, unit: Form,
                                   f: M.Frame, vars: seq<Val>, r: R.Frame, l: Layout, fuel: nat)
    requires WellFormed(chain) && CompileItem(item, chain, g, unit).Success?
    requires Fits(CompileItem(item, chain, g, unit).value.1, l) && RelFrame(f, vars, r, chain, g, l)
    ensures var (ops, c') := CompileItem(item, chain, g, unit).value;
      RelOut(M.RunOps(ops, vars, f, fuel), vars, R.Eval(item, r, unit, g.builtins, fuel), c', g, l)
    decreases fuel, 3, item
  {
    var (ops, c') := CompileItem(item, chain, g, unit).value;
    match item
    case Num(x) => RunOne(PushImmediate(Real(x)), vars, f, fuel);
    case Quote(n) => RunOne(PushImmediate(Sym(n)), vars, f, fuel);
    case Word(n) => SimWord(n, true, chain, g, unit, f, vars, r, l, fuel);
    case Backquote(n) => SimWord(n, false, chain, g, unit, f, vars, r, l, fuel);
    case Bind(n) => SimBind(n, chain, g, f, vars, r, l, fuel);
    case BindMany(names) => SimBindAll(names, chain, g, f, vars, r, l, fuel);
    case Lambda(args, body) => SimLambda(args, body, chain, g, unit, f, vars, r, l, fuel);
    case Parens(items) => SimParens(items, chain, g, unit, f, vars, r, l, fuel);
    case ArrayLit(items) => SimArray(items, chain, g, unit, f, vars, r, l, fuel);
  }

  lemma {:induction false} SimParens(items: seq<Item>, chain: Chain, g: Globals, unit: Form,
                                     f: M.Frame, vars: seq<Val>, r: R.Frame, l: Layout, fuel: nat)
    requires WellFormed(chain) && CompileItem(Parens(items), chain, g, unit).Success?
    requires Fits(CompileItem(Parens(items), chain, g, unit).value.1, l) && RelFrame(f, vars, r, chain, g, l)
    ensures var (ops, c') := CompileItem(Parens(items), chain, g, unit).value;
      RelOut(M.RunOps(ops, vars, f, fuel), vars, R.Eval(Parens(items), r, unit, g.builtins, fuel), c', g, l)
    decreases fuel, 3, items, 1
  {
    var (code, _) := CompileItems(items, chain, g, unit).value;
    ItemsNoReturn(items, chain, g, unit);
    RunOne(ParensOp(code + [Return]), vars, f, fuel);
    RunBlock(code, vars, f.(stack := []), fuel);
    SimItems(items, chain, g, unit, f.(stack := []), vars, r.(stack := []), l, fuel);
    var o, p := M.RunOps(code, vars, f.(stack := []), fuel), R.Items(items, r.(stack := []), unit, g.builtins, fuel);
    RelConcat(f.stack, r.stack, o.f.stack, p.f.stack, g.builtins);
  }

  lemma {:induction false} SimArray(items: seq<Item>, chain: Chain, g: Globals, unit: Form,
                                    f: M.Frame, vars: seq<Val>, r: R.Frame, l: Layout, fuel: nat)
    requires WellFormed(chain) && CompileItem(ArrayLit(items), chain, g, unit).Success?
    requires Fits(CompileItem(ArrayLit(items), chain, g, unit).value.1, l) && RelFrame(f, vars, r, chain, g, l)
    ensures var (ops, c') := CompileItem(ArrayLit(items), chain, g, unit).value;
      RelOut(M.RunOps(ops, vars, f, fuel), vars, R.Eval(ArrayLit(items), r, unit, g.builtins, fuel), c', g, l)
    decreases fuel, 3, items, 1
  {
    var (code, _) := CompileItems(items, chain, g, unit).value;
    ItemsNoReturn(items, chain, g, unit);
    SimItems(items, chain, g, unit, f.(stack := []), vars, r.(stack := []), l, fuel);
    var o, p := M.RunOps(code, vars, f.(stack := []), fuel), R.Items(items, r.(stack := []), unit, g.builtins, fuel);
    if code != [] {
      RunOne(NewVList(code + [Return]), vars, f, fuel);
      RunBlock(code, vars, f.(stack := []), fuel);
    } else {
      RunOne(PushNil, vars, f, fuel);
    }
    RelPush(f.stack, r.stack, List(o.f.stack), RList(p.f.stack), g.builtins);
  }

  /** Compiled text does what the text means, from every related frame, for every bound on the call depth. */
  lemma {:induction false} SimItems(items: seq<Item>, chain: Chain, g: Globals, unit: Form,
                                    f: M.Frame, vars: seq<Val>, r: R.Frame, l: Layout, fuel: nat)
    requires WellFormed(chain) && CompileItems(items, chain, g, unit).Success?
    requires Fits(CompileItems(items, chain, g, unit).value.1, l) && RelFrame(f, vars, r, chain, g, l)
    ensures var (ops, c') := CompileItems(items, chain, g, unit).value;
      RelOut(M.RunOps(ops, vars, f, fuel), vars, R.Items(items, r, unit, g.builtins, fuel), c', g, l)
    decreases fuel, 3, items, 0
  {
    if items != [] {
      var (ops, c1) := CompileItem(items[0], chain, g, unit).value;
      var (ops', c2) := CompileItems(items[1..], c1, g, unit).value;
      CompileItemOk(items[0], chain, g, unit);
      CompileItemsOk(items[1..], c1, g, unit);
      FitsBefore(c1, c2, l);
      ItemNoReturn(items[0], chain, g, unit);
      SimItem(items[0], chain, g, unit, f, vars, r, l, fuel);
      RunAppend(ops, ops', vars, f, fuel);
      var o, p := M.RunOps(ops, vars, f, fuel), R.Eval(items[0], r, unit, g.builtins, fuel);
      if o.status.Ok? { SimItems(items[1..], c1, g, unit, o.f, vars, p.f, l, fuel); }
    }
  }
}
