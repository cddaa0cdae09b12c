/**
 A line of input, compiled and run (rc/code.c, rc/exec.c).
 */
module RcShell {
  import opened Wrappers
  import opened RcTree
  import opened RcCode
  import opened RcStore
  import opened RcMachine
  import opened RcSemantics
  import opened RcCorrect
  import opened RcProgram
  import opened RcCompiler
  import opened RcInterp

  /**
   The compiler's own output, run for n turns by the interpreter's own loop over its linked
   lists: it never panics, and if it has stopped, it has done what the line means.
   */
  method RunLine(host: Host, c: Cmd, e: bool, last: bool, globals: map<string, Strings>, world: World, n: nat)
    returns (ok: bool, it: Interp)
    ensures ok == (Check(c, last).errors == 0)
    ensures it.Valid() && (ok ==> it.Image() != Panicked)
    ensures ok && !it.Image().Running? ==>
              Agrees(Exec(host, c, e, State(Store(globals, [], [], false, world), map[]), n + 1), it.Image())
  {
    hide Check;
    hide Exec;
    hide Steps;
    hide CodeVector;
    hide Interp.Valid;
    hide Interp.Top;
    hide Interp.Rest;
    hide Interp.Sto;
    var compiler := new Compiler(last);
    ok := compiler.Compile(c, e);
    it := new Interp(host, compiler.codebuf, 1, globals, world);
    if ok {
      ghost var s := State(Store(globals, [], [], false, world), map[]);
      assert it.Image() == Started(c, e, s, [], map[]);
      it.Turns(n);
      NoFunctions();
      NoPanic(host, c, e, s, map[], n);
      if !it.Image().Running? {
        MachineMeansExec(host, c, e, s, map[], n);
      }
    }
  }

  lemma NoFunctions()
    ensures FnsRel(map[], map[])
  {}
}
