/**
  What compilation keeps true of a chain of compile scopes, and what a lookup means in terms of
  the names visible at that point of the text.
 */
module Scoping {
  import opened Basics
  import opened Workspace
  import opened Syntax
  import opened Compiler

  /** The variables of all the functions of the chain. */
  ghost function Visible(chain: Chain): set<Name> {
    if chain == [] || chain[0].Top? then {} else Elements(chain[0].locals) + Visible(chain[1..])
  }

  /** The workspace words that the text may use at this point. */
  ghost function Known(chain: Chain, g: Globals): set<Name> {
    if chain == [] then {}
    else if chain[0].Top? then Elements(chain[0].wsVars) + g.ws
    else Known(chain[1..], g)
  }

  /** Every captured variable names the slot of the enclosing function that holds it. */
  ghost predicate VarsOk(vars: seq<VarDef>, outer: Scope) {
    forall i :: 0 <= i < |vars| ==>
      && outer.Inner?
      && (vars[i].fromLocal ==>
        vars[i].name in outer.locals && vars[i].fromIndex == FirstIndex(outer.locals, vars[i].name))
      && (!vars[i].fromLocal ==>
            && vars[i].fromIndex < |outer.vars| && outer.vars[vars[i].fromIndex].name == vars[i].name
            && vars[i].name !in outer.locals)
  }

  ghost predicate WellFormed(chain: Chain) {
    && |chain| > 0
    && (chain[0].Top? ==> |chain| == 1)
    && (chain[0].Inner? ==> |chain| > 1 && WellFormed(chain[1..]) && VarsOk(chain[0].vars, chain[1]))
  }

  /** `s'` is `s` with more captured variables. */
  ghost predicate Captures(s: Scope, s': Scope) {
    match s
    case Top(_) => s' == s
    case Inner(locals, vars) => s'.Inner? && s'.locals == locals && vars <= s'.vars
  }

  ghost predicate AllCapture(c: Chain, c': Chain) {
    |c| == |c'| && forall k :: 0 <= k < |c| ==> Captures(c[k], c'[k])
  }

  /** What compiling some text does to the chain: the innermost scope grows, the others only capture more. */
  ghost predicate Grows(c: Chain, c': Chain) {
    && |c| == |c'| > 0
    && AllCapture(c[1..], c'[1..])
    && (match c[0]
        case Top(wsVars) => c'[0].Top? && wsVars <= c'[0].wsVars
        case Inner(locals, vars) => c'[0].Inner? && locals <= c'[0].locals && vars <= c'[0].vars)
  }

  lemma CaptureKeepsNames(c: Chain, c': Chain, g: Globals)
    requires AllCapture(c, c')
    ensures Visible(c') == Visible(c) && Known(c', g) == Known(c, g)
  {
    if c != [] {
      assert Captures(c[0], c'[0]);
      assert AllCapture(c[1..], c'[1..]);
      CaptureKeepsNames(c[1..], c'[1..], g);
    }
  }

  lemma CaptureIsTransitive(a: Chain, b: Chain, c: Chain)
    requires AllCapture(a, b) && AllCapture(b, c)
    ensures AllCapture(a, c)
  {
    forall k | 0 <= k < |a| ensures Captures(a[k], c[k]) {
      assert Captures(a[k], b[k]) && Captures(b[k], c[k]);
    }
  }

  lemma GrowsIsTransitive(a: Chain, b: Chain, c: Chain)
    requires Grows(a, b) && Grows(b, c)
    ensures Grows(a, c)
  {
    CaptureIsTransitive(a[1..], b[1..], c[1..]);
  }

  lemma GrowsFromCapture(a: Chain, b: Chain)
    requires AllCapture(a, b) && |a| > 0
    ensures Grows(a, b)
  {
    assert Captures(a[0], b[0]);
    forall k | 0 <= k < |a[1..]| ensures Captures(a[1..][k], b[1..][k]) {
      assert Captures(a[k + 1], b[k + 1]);
    }
  }

  lemma VarsOkInGrown(vars: seq<VarDef>, outer: Scope, outer': Scope)
    requires VarsOk(vars, outer) && Captures(outer, outer')
    ensures VarsOk(vars, outer')
  {}

  lemma VarsAreVisible(chain: Chain, i: nat)
    requires WellFormed(chain) && chain[0].Inner? && i < |chain[0].vars|
    ensures chain[0].vars[i].name in Visible(chain[1..])
  {
    var d := chain[0].vars[i];
    if !d.fromLocal {
      VarsAreVisible(chain[1..], d.fromIndex);
    }
  }

  /** What the answer of a lookup says about the name; `c'` is the chain after the lookup. */
  ghost predicate LookupMeans(r: Lookup, chain: Chain, c': Chain, n: Name, g: Globals)
    requires |c'| == |chain| > 0
  {
    match r
    case IsLocal(i) => chain[0].Inner? && n in chain[0].locals && i == FirstIndex(chain[0].locals, n)
    case IsFunVar(i) =>
      && chain[0].Inner? && c'[0].Inner? && i < |c'[0].vars| && c'[0].vars[i].name == n
      && n !in chain[0].locals && n in Visible(chain[1..])
    case IsWorkspace => n !in Visible(chain) && n in Known(chain, g)
    case IsBuiltIn(v) => n !in Visible(chain) && n !in Known(chain, g) && n in g.builtins && v == g.builtins[n]
    case IsUndefined => n !in Visible(chain) && n !in Known(chain, g) && n !in g.builtins
  }

  /** A lookup resolves the innermost visible variable, then workspace words, then built-ins, and only captures. */
  lemma {:induction false} LookupOk(chain: Chain, n: Name, g: Globals)
    requires WellFormed(chain)
    ensures var (r, c') := IndirectLookup(chain, n, g);
      WellFormed(c') && AllCapture(chain, c') && LookupMeans(r, chain, c', n, g)
  {
    var scope := chain[0];
    if scope.Inner? {
      if n in Names(scope.vars) && n !in scope.locals {
        VarsAreVisible(chain, FirstIndex(Names(scope.vars), n));
      } else if n !in scope.locals {
        var rest := chain[1..];
        var (outer, rest') := IndirectLookup(rest, n, g);
        LookupOk(rest, n, g);
        var c' := IndirectLookup(chain, n, g).1;
        assert Captures(rest[0], rest'[0]);
        VarsOkInGrown(scope.vars, chain[1], rest'[0]);
        assert c'[1..] == rest';
        assert forall k :: 1 <= k < |chain| ==> chain[k] == rest[k - 1] && c'[k] == rest'[k - 1];
      }
    }
  }

  /** Binding only adds to the innermost scope. */
  lemma BindOk(chain: Chain, n: Name, g: Globals)
    requires WellFormed(chain) && BindVar(chain, n, g).Success?
    ensures var c' := BindVar(chain, n, g).value.1;
      WellFormed(c') && Grows(chain, c') && c'[1..] == chain[1..]
  {
    var c' := BindVar(chain, n, g).value.1;
    assert c'[1..] == chain[1..];
  }

  lemma BindAllOk(chain: Chain, names: seq<Name>, g: Globals)
    requires WellFormed(chain) && BindAll(chain, names, g).Success?
    ensures var c' := BindAll(chain, names, g).value.1;
      WellFormed(c') && Grows(chain, c')
    decreases |names|
  {
    if names != [] {
      var (_, c1) := BindVar(chain, names[|names| - 1], g).value;
      BindOk(chain, names[|names| - 1], g);
      BindAllOk(c1, names[..|names| - 1], g);
      GrowsIsTransitive(chain, c1, BindAll(chain, names, g).value.1);
    }
  }

  /** A lambda leaves the chain of its creator with at most more captured variables. */
  lemma PopLambda(args: seq<Name>, chain: Chain, c1: Chain)
    requires WellFormed(chain) && WellFormed(c1) && Grows([Inner(args, [])] + chain, c1)
    ensures WellFormed(c1[1..]) && AllCapture(chain, c1[1..]) && Grows(chain, c1[1..])
    ensures VarsOk(c1[0].vars, c1[1])
  {
    assert ([Inner(args, [])] + chain)[1..] == chain;
    GrowsFromCapture(chain, c1[1..]);
  }

  lemma {:induction false} CompileItemOk(item: Item, chain: Chain, g: Globals, unit: Form)
    requires WellFormed(chain) && CompileItem(item, chain, g, unit).Success?
    ensures var c' := CompileItem(item, chain, g, unit).value.1; WellFormed(c') && Grows(chain, c')
    decreases item
  {
    match item
    case Num(_) =>
    case Quote(_) =>
    case Word(n) => LookupOk(chain, n, g); GrowsFromCapture(chain, IndirectLookup(chain, n, g).1);
    case Backquote(n) => LookupOk(chain, n, g); GrowsFromCapture(chain, IndirectLookup(chain, n, g).1);
    case Bind(n) => BindOk(chain, n, g);
    case BindMany(names) => BindAllOk(chain, names, g);
    case Parens(items) => CompileItemsOk(items, chain, g, unit);
    case ArrayLit(items) => CompileItemsOk(items, chain, g, unit);
    case Lambda(args, body) =>
      var inner := [Inner(args, [])] + chain;
      assert inner[1..] == chain;
      CompileItemsOk(body, inner, g, unit);
      PopLambda(args, chain, CompileItems(body, inner, g, unit).value.1);
  }

  lemma {:induction false} CompileItemsOk(items: seq<Item>, chain: Chain, g: Globals, unit: Form)
    requires WellFormed(chain) && CompileItems(items, chain, g, unit).Success?
    ensures var c' := CompileItems(items, chain, g, unit).value.1; WellFormed(c') && Grows(chain, c')
    decreases items
  {
    if items != [] {
      var (_, c1) := CompileItem(items[0], chain, g, unit).value;
      CompileItemOk(items[0], chain, g, unit);
      CompileItemsOk(items[1..], c1, g, unit);
      GrowsIsTransitive(chain, c1, CompileItems(items, chain, g, unit).value.1);
    }
  }

  /** Slot indices of code that runs in a frame of `locals` locals and `vars` captured variables. */
  ghost predicate SlotsOk(ops: seq<Op>, locals: nat, vars: nat)
    decreases ops
  {
    forall i :: 0 <= i < |ops| ==> OpOk(ops[i], locals, vars)
  }

  ghost predicate OpOk(op: Op, locals: nat, vars: nat)
    decreases op
  {
    match op
    case PushLocalVar(i) => i < locals
    case CallLocalVar(i) => i < locals
    case BindLocal(i) => i < locals
    case PushFunVar(i) => i < vars
    case CallFunVar(i) => i < vars
    case PushFun(def) => def.numArgs <= def.numLocals && SlotsOk(def.code, def.numLocals, def.numVars)
    case ParensOp(code) => SlotsOk(code, locals, vars)
    case NewVList(code) => SlotsOk(code, locals, vars)
    case _ => true
  }

  ghost function NumLocals(s: Scope): nat { if s.Inner? then |s.locals| else 0 }
  ghost function NumVars(s: Scope): nat { if s.Inner? then |s.vars| else 0 }

  lemma {:induction false} MoreSlots(op: Op, l: nat, v: nat, l': nat, v': nat)
    requires OpOk(op, l, v) && l <= l' && v <= v'
    ensures OpOk(op, l', v')
    decreases op
  {
    match op
    case ParensOp(code) =>
      forall i | 0 <= i < |code| ensures OpOk(code[i], l', v') { MoreSlots(code[i], l, v, l', v'); }
    case NewVList(code) =>
      forall i | 0 <= i < |code| ensures OpOk(code[i], l', v') { MoreSlots(code[i], l, v, l', v'); }
    case _ =>
  }

  lemma ConcatSlots(a: seq<Op>, b: seq<Op>, l: nat, v: nat, l': nat, v': nat)
    requires SlotsOk(a, l, v) && l <= l' && v <= v' && SlotsOk(b, l', v')
    ensures SlotsOk(a + b, l', v')
  {
    forall i | 0 <= i < |a + b| ensures OpOk((a + b)[i], l', v') {
      if i < |a| { MoreSlots(a[i], l, v, l', v'); }
    }
  }

  lemma BindAllSlots(names: seq<Name>, chain: Chain, g: Globals)
    requires WellFormed(chain) && BindAll(chain, names, g).Success?
    ensures var (ops, c') := BindAll(chain, names, g).value; |c'| > 0 && SlotsOk(ops, NumLocals(c'[0]), NumVars(c'[0]))
    decreases |names|
  {
    if names != [] {
      var (ops, c1) := BindVar(chain, names[|names| - 1], g).value;
      BindOk(chain, names[|names| - 1], g);
      BindAllSlots(names[..|names| - 1], c1, g);
      BindAllOk(c1, names[..|names| - 1], g);
      var (ops', c2) := BindAll(c1, names[..|names| - 1], g).value;
      ConcatSlots(ops, ops', NumLocals(c1[0]), NumVars(c1[0]), NumLocals(c2[0]), NumVars(c2[0]));
    }
  }

  lemma LambdaSlots(args: seq<Name>, code: seq<Op>, chain: Chain, c1: Chain, unit: Form)
    requires WellFormed(chain) && WellFormed(c1) && Grows([Inner(args, [])] + chain, c1)
    requires FinishLambda(args, code, c1, unit).Success?
    requires SlotsOk(code, NumLocals(c1[0]), NumVars(c1[0]))
    ensures var (ops, c') := FinishLambda(args, code, c1, unit).value;
      |c'| > 0 && SlotsOk(ops, NumLocals(c'[0]), NumVars(c'[0]))
  {
    PopLambda(args, chain, c1);
    ConcatSlots(code, [Return], NumLocals(c1[0]), NumVars(c1[0]), NumLocals(c1[0]), NumVars(c1[0]));
    var vars := c1[0].vars;
    var (ops, c') := FinishLambda(args, code, c1, unit).value;
    forall i | 0 <= i < |ops| ensures OpOk(ops[i], NumLocals(c'[0]), NumVars(c'[0])) {
      if i < |vars| {
        assert ops[i] == CapturePushes(vars)[i];
      }
    }
  }

  lemma {:induction false} ItemSlots(item: Item, chain: Chain, g: Globals, unit: Form)
    requires WellFormed(chain) && CompileItem(item, chain, g, unit).Success?
    ensures var (ops, c') := CompileItem(item, chain, g, unit).value;
      |c'| > 0 && SlotsOk(ops, NumLocals(c'[0]), NumVars(c'[0]))
    decreases item
  {
    match item
    case Num(_) =>
    case Quote(_) =>
    case Word(n) => LookupOk(chain, n, g); assert Captures(chain[0], IndirectLookup(chain, n, g).1[0]);
    case Backquote(n) => LookupOk(chain, n, g); assert Captures(chain[0], IndirectLookup(chain, n, g).1[0]);
    case Bind(n) => BindOk(chain, n, g);
    case BindMany(names) => BindAllSlots(names, chain, g);
    case Parens(items) => BlockSlots(items, chain, g, unit);
    case ArrayLit(items) => BlockSlots(items, chain, g, unit);
    case Lambda(args, body) =>
      var inner := [Inner(args, [])] + chain;
      assert inner[1..] == chain;
      AllSlots(body, inner, g, unit);
      CompileItemsOk(body, inner, g, unit);
      var (code, c1) := CompileItems(body, inner, g, unit).value;
      PopLambda(args, chain, c1);
      LambdaSlots(args, code, chain, c1, unit);
  }

  lemma {:induction false} BlockSlots(items: seq<Item>, chain: Chain, g: Globals, unit: Form)
    requires WellFormed(chain) && CompileItems(items, chain, g, unit).Success?
    ensures var (ops, c') := CompileItems(items, chain, g, unit).value;
      |c'| > 0 && SlotsOk(ops + [Return], NumLocals(c'[0]), NumVars(c'[0]))
    decreases items, 1
  {
    AllSlots(items, chain, g, unit);
    var (ops, c') := CompileItems(items, chain, g, unit).value;
    ConcatSlots(ops, [Return], NumLocals(c'[0]), NumVars(c'[0]), NumLocals(c'[0]), NumVars(c'[0]));
  }

  /** Every slot index in compiled code lies within the locals or the captured variables of its function. */
  lemma {:induction false} AllSlots(items: seq<Item>, chain: Chain, g: Globals, unit: Form)
    requires WellFormed(chain) && CompileItems(items, chain, g, unit).Success?
    ensures var (ops, c') := CompileItems(items, chain, g, unit).value;
      |c'| > 0 && SlotsOk(ops, NumLocals(c'[0]), NumVars(c'[0]))
    decreases items, 0
  {
    if items != [] {
      var (ops, c1) := CompileItem(items[0], chain, g, unit).value;
      ItemSlots(items[0], chain, g, unit);
      CompileItemOk(items[0], chain, g, unit);
      AllSlots(items[1..], c1, g, unit);
      CompileItemsOk(items[1..], c1, g, unit);
      var (ops', c2) := CompileItems(items[1..], c1, g, unit).value;
      ConcatSlots(ops, ops', NumLocals(c1[0]), NumVars(c1[0]), NumLocals(c2[0]), NumVars(c2[0]));
    }
  }

  lemma UnitSlots(items: seq<Item>, g: Globals, unit: Form)
    requires CompileUnit(items, g, unit).Success?
    ensures SlotsOk(CompileUnit(items, g, unit).value.code, 0, 0)
  {
    AllSlots(items, [Top([])], g, unit);
    CompileItemsOk(items, [Top([])], g, unit);
    var (ops, _) := CompileItems(items, [Top([])], g, unit).value;
    ConcatSlots(ops, [Return], 0, 0, 0, 0);
  }
}
