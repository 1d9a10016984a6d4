/**
  The language subset (programs as the parser sees them), the opcodes, and the values of the
  virtual machine and of the reference interpreter.
 */
module Syntax {
  import opened Basics
  import opened Workspace

  /** An interned symbol, identified by its hash. */
  type Name = int

  datatype Item =
    | Num(r: real)
    | Quote(name: Name)
    | Word(name: Name)
    | Backquote(name: Name)
    | Bind(name: Name)                 // = x
    | BindMany(names: seq<Name>)       // = (x y z)
    | Lambda(args: seq<Name>, body: seq<Item>)
    | Parens(items: seq<Item>)
    | ArrayLit(items: seq<Item>)

  /** Built-in functions that act on the stack, apply values or throw. */
  datatype PrimOp =
    | Apply                            // !
    | If
    | Not
    | Y
    | Try
    | Throw
    | Clear
    | Cleard
    | StackDepth
    | Shuffle(takes: nat, picks: seq<nat>)   // aa, ba, bac, aba, nip, pop, ...

  /** What a literal or a built-in word stands for. */
  datatype Atom = Real(r: real) | Sym(name: Name) | Prim(op: PrimOp)

  datatype Op =
    | OpNone
    | PushImmediate(v: Atom)
    | PushNil                          // opPushImmediate of the empty list
    | PushLocalVar(i: nat)
    | PushFunVar(i: nat)
    | PushWorkspaceVar(name: Name)
    | PushFun(def: FunDef)
    | CallImmediate(v: Atom)
    | CallLocalVar(i: nat)
    | CallFunVar(i: nat)
    | CallWorkspaceVar(name: Name)
    | BindLocal(i: nat)
    | BindWorkspaceVar(name: Name)
    | ParensOp(code: seq<Op>)
    | NewVList(code: seq<Op>)
    | Return

  datatype FunDef = FunDef(code: seq<Op>, numArgs: nat, numLocals: nat, numVars: nat, ws: Form)

  /** Machine values.  `Rec(f)` is the primitive that the Y combinator returns for `f`. */
  datatype Val =
    | Atomic(a: Atom)
    | List(items: seq<Val>)
    | Fun(def: FunDef, vars: seq<Val>)
    | Rec(f: Val)

  /** Reference values: a function is its text, the variables it can see, and the workspace words it knows. */
  datatype RVal =
    | RAtomic(a: Atom)
    | RList(items: seq<RVal>)
    | RFun(args: seq<Name>, body: seq<Item>, env: map<Name, RVal>, known: set<Name>, ws: Form)
    | RRec(f: RVal)

  datatype Error = StackUnderflow | NotFound | Failed | Thrown

  /** `OutOfFuel` marks a cut-off run, `Stuck` an access outside the frame, `Unbound` an undefined word. */
  datatype Status = Ok | Err(e: Error) | OutOfFuel | Stuck | Unbound

  /** Binding trees hold positions in `vals`, the values bound so far; `threadWs` is the thread's workspace. */
  datatype World<+T> = World(tree: Heap<nat>, vals: seq<T>, threadWs: Form)

  function WorldGet<T>(w: World<T>, ws: Form, name: Name): Option<T> {
    var r := FormGet<nat>(w.tree, ws, name);
    if r.Some? && r.value < |w.vals| then Some(w.vals[r.value]) else None
  }

  /** opBindWorkspaceVar: binds in the running function's workspace, then in the thread's. */
  function WorldBind<T>(w: World<T>, ws: Form, name: Name, v: T): (World<T>, Form) {
    var (tree1, ws1) := FormPutImpure<nat>(w.tree, ws, name, |w.vals|);
    var (tree2, threadWs1) := FormPutImpure<nat>(tree1, w.threadWs, name, |w.vals|);
    (World(tree2, w.vals + [v], threadWs1), ws1)
  }

  function FirstIndex(names: seq<Name>, n: Name): (i: nat)
    requires n in names
    ensures i < |names| && names[i] == n && n !in names[..i]
  {
    if names[0] == n then 0 else 1 + FirstIndex(names[1..], n)
  }

  lemma FirstIndexPrefix(names: seq<Name>, more: seq<Name>, n: Name)
    requires n in names
    ensures n in names + more && FirstIndex(names + more, n) == FirstIndex(names, n)
  {
    if names[0] != n {
      assert (names + more)[1..] == names[1..] + more;
      FirstIndexPrefix(names[1..], more, n);
    }
  }
}
