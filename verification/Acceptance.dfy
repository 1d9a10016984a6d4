/**
  Which programs compile.  `Check` is a direct static check of the text: it keeps sets of names,
  knows nothing of slots or of enclosing functions, and looks at one function at a time.
 */
module Acceptance {
  import opened Basics
  import opened Workspace
  import opened Syntax
  import opened Compiler
  import opened Scoping

  /** `used`: names of enclosing functions used so far in this one (also inside its lambdas). */
  datatype Static = Static(loc: set<Name>, numLocals: nat, used: set<Name>, env: set<Name>, known: set<Name>, top: bool)

  function CheckBind(n: Name, s: Static): Option<Static> {
    if s.top then Some(s.(known := s.known + {n}))
    else if n in s.loc then Some(s)
    else if n in s.used then None   // already in use here as a free variable
    else Some(s.(loc := s.loc + {n}, numLocals := s.numLocals + 1))
  }

  function CheckBinds(names: seq<Name>, s: Static): Option<Static>
    decreases |names|
  {
    if names == [] then Some(s)
    else
      var r := CheckBind(names[|names| - 1], s);
      if r.None? then None else CheckBinds(names[..|names| - 1], r.value)
  }

  function CheckWord(n: Name, s: Static, b: map<Name, Atom>): Option<Static> {
    if n in s.loc then Some(s)
    else if n in s.env then Some(s.(used := s.used + {n}))
    else if n in s.known || n in b then Some(s)
    else None
  }

  function Check(item: Item, s: Static, b: map<Name, Atom>): Option<Static>
    decreases item
  {
    match item
    case Num(_) => Some(s)
    case Quote(_) => Some(s)
    case Word(n) => CheckWord(n, s, b)
    case Backquote(n) => CheckWord(n, s, b)
    case Bind(n) => CheckBind(n, s)
    case BindMany(names) => if names == [] then None else CheckBinds(names, s)
    case Parens(items) => CheckAll(items, s, b)
    case ArrayLit(items) => CheckAll(items, s, b)
    case Lambda(args, body) =>
      var r := CheckAll(body, Static(Elements(args), |args|, {}, s.env + s.loc, s.known, false), b);
      if r.None? then None
      else if |args| > 65535 || r.value.numLocals > 65535 || |r.value.used| > 65535 then None
      else Some(s.(used := s.used + (r.value.used - s.loc)))
  }

  function CheckAll(items: seq<Item>, s: Static, b: map<Name, Atom>): Option<Static>
    decreases items
  {
    if items == [] then Some(s)
    else
      var r := Check(items[0], s, b);
      if r.None? then None else CheckAll(items[1..], r.value, b)
  }

  /** The text may be run in a workspace that binds the words `known`. */
  predicate Accepts(items: seq<Item>, known: set<Name>, b: map<Name, Atom>) {
    CheckAll(items, Static({}, 0, {}, {}, known, true), b).Some?
  }

  // ---------- the chain of scopes computes these sets ----------

  ghost function Used(s: Scope): set<Name> { if s.Inner? then Elements(Names(s.vars)) else {} }

  lemma {:induction false} DistinctSize(names: seq<Name>)
    requires Distinct(names)
    ensures |Elements(names)| == |names|
  {
    if names != [] {
      DistinctSize(names[1..]);
      assert Elements(names) == {names[0]} + Elements(names[1..]);
      assert names[0] !in names[1..];
    }
  }

  ghost predicate Summarizes(s: Static, chain: Chain, g: Globals) {
    && WellFormed(chain)
    && s.top == chain[0].Top? && s.env == Visible(chain[1..]) && s.known == Known(chain, g) && s.used == Used(chain[0])
    && s.loc == (if chain[0].Inner? then Elements(chain[0].locals) else {})
    && s.numLocals == NumLocals(chain[0])
    && (chain[0].Inner? ==> Distinct(Names(chain[0].vars)))
  }

  ghost predicate PassedOn(s: Scope, inner': Scope, s': Scope) {
    && (s.Inner? && s'.Inner? ==> Used(s') == Used(s) + (Used(inner') - Elements(s.locals)))
    && (s.Inner? && s'.Inner? && Distinct(Names(s.vars)) ==> Distinct(Names(s'.vars)))
  }

  /** Each enclosing scope captures exactly what the next inner one captures and it does not bind itself. */
  ghost predicate Tracks(c: Chain, c': Chain) {
    && |c| == |c'| > 0
    && (c[0].Inner? && c'[0].Inner? && Distinct(Names(c[0].vars)) ==> Distinct(Names(c'[0].vars)))
    && forall k :: 1 <= k < |c| ==> PassedOn(c[k], c'[k-1], c'[k])
  }

  lemma TracksIsTransitive(a: Chain, b: Chain, c: Chain)
    requires Grows(a, b) && Grows(b, c) && Tracks(a, b) && Tracks(b, c)
    ensures Tracks(a, c)
  {
    forall k | 1 <= k < |a| ensures PassedOn(a[k], c[k-1], c[k]) {
      assert Captures(a[1..][k-1], b[1..][k-1]) && Captures(b[1..][k-1], c[1..][k-1]);
      assert PassedOn(a[k], b[k-1], b[k]) && PassedOn(b[k], c[k-1], c[k]);
      assert Used(b[k-1]) <= Used(c[k-1]) by { UsedGrows(b, c, k - 1); }
    }
  }

  lemma UsedGrows(a: Chain, b: Chain, k: nat)
    requires Grows(a, b) && k < |a|
    ensures Used(a[k]) <= Used(b[k])
  {
    if k > 0 { assert Captures(a[1..][k-1], b[1..][k-1]); }
    if a[k].Inner? {
      assert forall i :: 0 <= i < |a[k].vars| ==> Names(a[k].vars)[i] == Names(b[k].vars)[i];
    }
  }

  lemma VarsPassOn(chain: Chain)
    requires WellFormed(chain)
    ensures Tracks(chain, chain)
  {
    forall k | 1 <= k < |chain| ensures PassedOn(chain[k], chain[k-1], chain[k]) {
      VarsPassOnAt(chain, k);
    }
  }

  lemma VarsPassOnAt(chain: Chain, k: nat)
    requires WellFormed(chain) && 1 <= k < |chain|
    ensures PassedOn(chain[k], chain[k-1], chain[k])
  {
    if k > 1 {
      VarsPassOnAt(chain[1..], k - 1);
    } else {
      var vars, outer := chain[0].vars, chain[1];
      if outer.Inner? {
        forall n | n in Used(chain[0]) && n !in outer.locals ensures n in Used(outer) {
          var i :| 0 <= i < |vars| && Names(vars)[i] == n;
          assert Names(outer.vars)[vars[i].fromIndex] == n;
        }
      }
    }
  }

  lemma AppendVar(vars: seq<VarDef>, d: VarDef)
    ensures Names(vars + [d]) == Names(vars) + [d.name]
  {}

  lemma {:induction false} LookupTracks(chain: Chain, n: Name, g: Globals)
    requires WellFormed(chain)
    ensures var (found, c') := IndirectLookup(chain, n, g);
      Tracks(chain, c')
      && Used(c'[0]) == Used(chain[0]) + (if found.IsFunVar? then {n} else {})
      && (found.IsLocal? ==> c' == chain)
  {
    VarsPassOn(chain);
    if chain[0].Inner? && n !in chain[0].locals && n !in Names(chain[0].vars) {
      LookupTracks(chain[1..], n, g);
      CaptureTracks(chain, n, g);
    }
  }

  /** A name that the innermost scope must get from the enclosing ones. */
  lemma CaptureTracks(chain: Chain, n: Name, g: Globals)
    requires WellFormed(chain) && chain[0].Inner? && n !in chain[0].locals && n !in Names(chain[0].vars) &&
      Tracks(chain, chain)
    requires var rest := chain[1..]; var (outer, rest') := IndirectLookup(rest, n, g);
      Tracks(rest, rest') && Used(rest'[0]) == Used(rest[0]) + (if outer.IsFunVar? then {n} else {}) &&
        (outer.IsLocal? ==> rest' == rest)
    ensures var (found, c') := IndirectLookup(chain, n, g);
      Tracks(chain, c')
      && Used(c'[0]) == Used(chain[0]) + (if found.IsFunVar? then {n} else {})
      && (found.IsLocal? ==> c' == chain)
  {
    var c' := IndirectLookup(chain, n, g).1;
    var rest := chain[1..];
    var (outer, rest') := IndirectLookup(rest, n, g);
    assert |rest'| == |rest| && AllCapture(rest, rest') by { LookupOk(rest, n, g); }
    assert c'[1..] == rest';
    if outer.IsLocal? || outer.IsFunVar? { AppendVar(chain[0].vars, VarDef(n, outer.IsLocal?, outer.i)); }
    assert Captures(rest[0], rest'[0]);
    assert PassedOn(chain[1], chain[0], chain[1]);
    if chain[1].Inner? && outer.IsFunVar? { assert n !in chain[1].locals; }
    TracksFrom(chain, c');
  }

  lemma TracksFrom(chain: Chain, c': Chain)
    requires |chain| == |c'| > 1 && PassedOn(chain[1], c'[0], c'[1]) && Tracks(chain[1..], c'[1..])
    requires chain[0].Inner? && c'[0].Inner? && Distinct(Names(chain[0].vars)) ==> Distinct(Names(c'[0].vars))
    ensures Tracks(chain, c')
  {
    forall k | 1 < k < |chain| ensures PassedOn(chain[k], c'[k-1], c'[k]) {
      assert PassedOn(chain[1..][k-1], c'[1..][k-2], c'[1..][k-1]);
    }
  }

  lemma CheckWordOk(n: Name, call: bool, s: Static, chain: Chain, g: Globals)
    requires Summarizes(s, chain, g)
    ensures var r, c := CheckWord(n, s, g.builtins), LookupWord(chain, n, g, call);
      (r.Some? <==> c.Success?) && (r.Some? ==> Summarizes(r.value, c.value.1, g) && Tracks(chain, c.value.1))
  {
    LookupOk(chain, n, g);
    LookupTracks(chain, n, g);
    var c' := IndirectLookup(chain, n, g).1;
    assert Captures(chain[0], c'[0]);
    CaptureKeepsNames(chain, c', g);
    assert AllCapture(chain[1..], c'[1..]);
    CaptureKeepsNames(chain[1..], c'[1..], g);
  }

  lemma CheckBindOk(n: Name, s: Static, chain: Chain, g: Globals)
    requires Summarizes(s, chain, g)
    ensures var r, c := CheckBind(n, s), BindVar(chain, n, g);
      (r.Some? <==> c.Success?) && (r.Some? ==> Summarizes(r.value, c.value.1, g) && Tracks(chain, c.value.1))
  {
    var r, c := CheckBind(n, s), BindVar(chain, n, g);
    if c.Success? {
      BindOk(chain, n, g);
      var c' := c.value.1;
      VarsPassOn(c');
      assert c'[1..] == chain[1..];
      forall k | 1 <= k < |chain| ensures PassedOn(chain[k], c'[k-1], c'[k]) {
        assert chain[1..][k-1] == c'[1..][k-1];
        assert PassedOn(c'[k], c'[k-1], c'[k]);
      }
      if chain[0].Top? { assert Known(c', g) == Known(chain, g) + {n}; }
    }
  }

  lemma {:induction false} CheckBindsOk(names: seq<Name>, s: Static, chain: Chain, g: Globals)
    requires Summarizes(s, chain, g)
    ensures var r, c := CheckBinds(names, s), BindAll(chain, names, g);
      (r.Some? <==> c.Success?) && (r.Some? ==> Summarizes(r.value, c.value.1, g) && Tracks(chain, c.value.1))
    decreases |names|
  {
    if names == [] {
      VarsPassOn(chain);
    } else {
      var n, rest := names[|names| - 1], names[..|names| - 1];
      CheckBindOk(n, s, chain, g);
      var r, c := CheckBind(n, s), BindVar(chain, n, g);
      if r.Some? {
        var c1 := c.value.1;
        CheckBindsOk(rest, r.value, c1, g);
        BindOk(chain, n, g);
        if BindAll(c1, rest, g).Success? {
          BindAllOk(c1, rest, g);
          TracksIsTransitive(chain, c1, BindAll(c1, rest, g).value.1);
        }
      }
    }
  }

  lemma CheckLambdaOk(args: seq<Name>, code: seq<Op>, t: Static, s: Static, chain: Chain, c1: Chain, g: Globals,
          unit: Form)
    requires Summarizes(s, chain, g) && Summarizes(t, c1, g)
    requires var inner := [Inner(args, [])] + chain; Grows(inner, c1) && Tracks(inner, c1)
    ensures var c := FinishLambda(args, code, c1, unit);
      (c.Success? <==> |args| <= 65535 && t.numLocals <= 65535 && |t.used| <= 65535)
      && (c.Success? ==> Summarizes(s.(used := s.used + (t.used - s.loc)), c.value.1, g) && Tracks(chain, c.value.1))
  {
    var inner := [Inner(args, [])] + chain;
    PopLambda(args, chain, c1);
    DistinctSize(Names(c1[0].vars));
    var c' := c1[1..];
    assert Captures(chain[0], c'[0]);
    CaptureKeepsNames(chain, c', g);
    assert AllCapture(chain[1..], c'[1..]);
    CaptureKeepsNames(chain[1..], c'[1..], g);
    assert PassedOn(inner[1], c1[0], c1[1]);
    forall k | 1 <= k < |chain| ensures PassedOn(chain[k], c'[k-1], c'[k]) {
      assert PassedOn(inner[k+1], c1[k], c1[k+1]);
    }
  }

  lemma {:induction false} CheckItemOk(item: Item, s: Static, chain: Chain, g: Globals, unit: Form)
    requires Summarizes(s, chain, g)
    ensures var r, c := Check(item, s, g.builtins), CompileItem(item, chain, g, unit);
      (r.Some? <==> c.Success?) && (r.Some? ==> Summarizes(r.value, c.value.1, g) && Tracks(chain, c.value.1))
    decreases item
  {
    match item
    case Num(_) => VarsPassOn(chain);
    case Quote(_) => VarsPassOn(chain);
    case Word(n) => CheckWordOk(n, true, s, chain, g);
    case Backquote(n) => CheckWordOk(n, false, s, chain, g);
    case Bind(n) => CheckBindOk(n, s, chain, g);
    case BindMany(names) => CheckBindsOk(names, s, chain, g);
    case Parens(items) => CheckAllOk(items, s, chain, g, unit);
    case ArrayLit(items) => CheckAllOk(items, s, chain, g, unit);
    case Lambda(args, body) =>
      var inner := [Inner(args, [])] + chain;
      assert inner[1..] == chain;
      var t := Static(Elements(args), |args|, {}, s.env + s.loc, s.known, false);
      assert Visible(chain) == s.env + s.loc;
      CheckAllOk(body, t, inner, g, unit);
      var r, c := CheckAll(body, t, g.builtins), CompileItems(body, inner, g, unit);
      if r.Some? {
        CompileItemsOk(body, inner, g, unit);
        CheckLambdaOk(args, c.value.0, r.value, s, chain, c.value.1, g, unit);
      }
  }

  lemma {:induction false} CheckAllOk(items: seq<Item>, s: Static, chain: Chain, g: Globals, unit: Form)
    requires Summarizes(s, chain, g)
    ensures var r, c := CheckAll(items, s, g.builtins), CompileItems(items, chain, g, unit);
      (r.Some? <==> c.Success?) && (r.Some? ==> Summarizes(r.value, c.value.1, g) && Tracks(chain, c.value.1))
    decreases items
  {
    if items == [] {
      VarsPassOn(chain);
    } else {
      CheckItemOk(items[0], s, chain, g, unit);
      var r, c := Check(items[0], s, g.builtins), CompileItem(items[0], chain, g, unit);
      if r.Some? {
        var c1 := c.value.1;
        CheckAllOk(items[1..], r.value, c1, g, unit);
        if CompileItems(items[1..], c1, g, unit).Success? {
          CompileItemOk(items[0], chain, g, unit);
          CompileItemsOk(items[1..], c1, g, unit);
          TracksIsTransitive(chain, c1, CompileItems(items[1..], c1, g, unit).value.1);
        }
      }
    }
  }

  /** A text compiles exactly when the static check accepts it. */
  lemma CompilesIffAccepted(items: seq<Item>, g: Globals, unit: Form)
    ensures CompileUnit(items, g, unit).Success? <==> Accepts(items, g.ws, g.builtins)
  {
    CheckAllOk(items, Static({}, 0, {}, {}, g.ws, true), [Top([])], g, unit);
  }
}
