/** Compiling a text and running it on the thread: one round of the read-eval loop. */
module Repl {
  import opened Basics
  import opened Workspace
  import opened Syntax
  import opened Compiler
  import opened Sessions
  import M = Machine
  import R = Reference
  import Parsing
  import opened Threads

  /** `Fun::runREPL`: like `Fun::run` for a function without arguments, but the stack stays visible. */
  method RunVisible(th: Thread, def: FunDef, fuel: nat) returns (status: Status)
    requires th.Valid() && def.numArgs == def.numLocals == 0
    modifies th
    ensures th.Valid() && th.stackBase == old(th.stackBase) && th.localBase == old(th.localBase)
    ensures th.stack[..th.stackBase] == old(th.stack[..th.stackBase]) && th.local == old(th.local)
    ensures th.def == old(th.def) && th.vars == old(th.vars) && th.ws == old(th.ws)
    ensures var o := M.RunOps(def.code, [], M.Frame(old(th.stack[th.stackBase..]), [], def.ws, old(th.world)), fuel);
      status == o.status && th.stack[th.stackBase..] == o.f.stack && th.world == o.f.world
  {
    var saveDef, saveVars, saveWs, saveStackBase, saveLocalBase := th.def, th.vars, th.ws, th.stackBase, th.localBase;
    th.localBase := |th.local|;
    th.def, th.vars, th.ws := def, [], def.ws;
    assert th.local[th.localBase..] == [];
    status := th.Run(def.code, fuel);
    th.local := th.local[..|th.local| - th.def.numLocals];
    th.def, th.vars, th.ws, th.stackBase, th.localBase := saveDef, saveVars, saveWs, saveStackBase, saveLocalBase;
  }

  /** Parser, compile scopes and shared stacks together do to the thread what `Sessions.RunText` says. */
  method Interpret(th: Thread, items: seq<Item>, b: R.BuiltIns, fuel: nat) returns (report: Report)
    requires th.Valid()
    modifies th
    ensures th.Valid() && th.stackBase == old(th.stackBase) && th.localBase == old(th.localBase)
    ensures th.stack[..th.stackBase] == old(th.stack[..th.stackBase]) && th.local == old(th.local)
    ensures (report, State(th.stack[th.stackBase..], th.world)) ==
            RunText(items, old(State(th.stack[th.stackBase..], th.world)), b, fuel)
  {
    var compiled := Parsing.Compile(items, Globals(Words(th.world), b), th.world.threadWs);
    if compiled.Failure? { return Rejected; }
    var status := RunVisible(th, compiled.value, fuel);
    report := Ran(status);
  }
}
