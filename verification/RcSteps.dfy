/**
 Single turns of the machine, one lemma per routine: if n steps lead to a thread
 that stands on the routine's cell, n + 1 steps lead to the state given.
 */
module RcSteps {
  import opened RcTree
  import opened RcGlob
  import opened RcCode
  import opened RcStore
  import opened RcMachine

  ghost predicate Stands(host: Host, r: Run, n: nat, t: Thread, rest: seq<Thread>, s: Store,
      fns: map<string, Entry>, op: Op)
  {
    Steps(host, r, n) == Go(t, rest, s, fns) && t.pc < |t.code| && t.code[t.pc] == Op(op)
  }

  lemma Then(host: Host, r: Run, n: nat, r1: Run, n1: nat)
    requires Steps(host, r, n) == r1
    ensures Steps(host, r, n + n1) == Steps(host, r1, n1)
  {
    hide Steps;
    StepsAdd(host, r, n, n1);
  }

  lemma Start(host: Host, r: Run)
    ensures Steps(host, r, 0) == r
  {}

  lemma Turn(host: Host, t: Thread, rest: seq<Thread>, s: Store, fns: map<string, Entry>)
    requires t.pc < |t.code| && t.code[t.pc].Op?
    ensures Steps(host, Go(t, rest, s, fns), 1) ==
            Exec1(host, t.code[t.pc].op, t.(pc := t.pc + 1), rest, s, fns)
  {
    hide Exec1;
    assert ([t] + rest)[1..] == rest;
    var r := Go(t, rest, s, fns);
    Start(host, Step(host, r));
  }

  /** One more turn of the machine. */
  lemma Next(host: Host, r: Run, n: nat, t: Thread, rest: seq<Thread>, s: Store, fns: map<string, Entry>, op: Op)
    requires Stands(host, r, n, t, rest, s, fns, op)
    ensures Steps(host, r, n + 1) == Exec1(host, op, t.(pc := t.pc + 1), rest, s, fns)
  {
    hide Steps;
    hide Exec1;
    Turn(host, t, rest, s, fns);
    Then(host, r, n, Go(t, rest, s, fns), 1);
  }

  lemma OnMark(host: Host, r: Run, n: nat, t: Thread, rest: seq<Thread>, s: Store, fns: map<string, Entry>)
    requires Stands(host, r, n, t, rest, s, fns, XMark)
    ensures Steps(host, r, n + 1) == Go(t.(pc := t.pc + 1, argv := [[]] + t.argv), rest, s, fns)
  {
    hide Steps;
    Next(host, r, n, t, rest, s, fns, XMark);
  }

  lemma OnPopm(host: Host, r: Run, n: nat, t: Thread, rest: seq<Thread>, s: Store, fns: map<string, Entry>)
    requires Stands(host, r, n, t, rest, s, fns, XPopm)
    requires t.argv != []
    ensures Steps(host, r, n + 1) == Go(t.(pc := t.pc + 1, argv := t.argv[1..]), rest, s, fns)
  {
    hide Steps;
    Next(host, r, n, t, rest, s, fns, XPopm);
  }

  lemma OnWord(host: Host, r: Run, n: nat, t: Thread, rest: seq<Thread>, s: Store, fns: map<string, Entry>)
    requires Stands(host, r, n, t, rest, s, fns, XWord)
    requires t.argv != [] && t.pc + 1 < |t.code| && t.code[t.pc + 1].Str?
    ensures Steps(host, r, n + 1) == Go(t.(pc := t.pc + 2,
        argv := [[t.code[t.pc + 1].s] + t.argv[0]] + t.argv[1..]), rest, s, fns)
  {
    hide Steps;
    Next(host, r, n, t, rest, s, fns, XWord);
  }

  lemma OnGlob(host: Host, r: Run, n: nat, t: Thread, rest: seq<Thread>, s: Store, fns: map<string, Entry>)
    requires Stands(host, r, n, t, rest, s, fns, XGlob)
    requires t.argv != []
    ensures Steps(host, r, n + 1) == Go(t.(pc := t.pc + 1,
        argv := [GlobWords(host, s.world, t.argv[0])] + t.argv[1..]), rest, s, fns)
  {
    hide Steps;
    Next(host, r, n, t, rest, s, fns, XGlob);
  }

  lemma OnSimple(host: Host, r: Run, n: nat, t: Thread, rest: seq<Thread>, s: Store, fns: map<string, Entry>)
    requires Stands(host, r, n, t, rest, s, fns, XSimple)
    ensures Steps(host, r, n + 1) == XSimpleOp(host, t.(pc := t.pc + 1), rest, s, fns)
  {
    hide Steps;
    Next(host, r, n, t, rest, s, fns, XSimple);
  }

  lemma OnEflag(host: Host, r: Run, n: nat, t: Thread, rest: seq<Thread>, s: Store, fns: map<string, Entry>)
    requires Stands(host, r, n, t, rest, s, fns, XEflag)
    ensures Steps(host, r, n + 1) == if host.eflagok && !TrueStatus(s) then Exited(s)
        else Go(t.(pc := t.pc + 1), rest, s, fns)
  {
    hide Steps;
    Next(host, r, n, t, rest, s, fns, XEflag);
  }

  lemma OnTrue(host: Host, r: Run, n: nat, t: Thread, rest: seq<Thread>, s: Store, fns: map<string, Entry>)
    requires Stands(host, r, n, t, rest, s, fns, XTrue)
    ensures Steps(host, r, n + 1) == Branch(!TrueStatus(s), t.(pc := t.pc + 1), rest, s, fns)
  {
    hide Steps;
    Next(host, r, n, t, rest, s, fns, XTrue);
  }

  lemma OnFalse(host: Host, r: Run, n: nat, t: Thread, rest: seq<Thread>, s: Store, fns: map<string, Entry>)
    requires Stands(host, r, n, t, rest, s, fns, XFalse)
    ensures Steps(host, r, n + 1) == Branch(TrueStatus(s), t.(pc := t.pc + 1), rest, s, fns)
  {
    hide Steps;
    Next(host, r, n, t, rest, s, fns, XFalse);
  }

  lemma OnJump(host: Host, r: Run, n: nat, t: Thread, rest: seq<Thread>, s: Store, fns: map<string, Entry>)
    requires Stands(host, r, n, t, rest, s, fns, XJump)
    ensures Steps(host, r, n + 1) == Branch(true, t.(pc := t.pc + 1), rest, s, fns)
  {
    hide Steps;
    Next(host, r, n, t, rest, s, fns, XJump);
  }

  lemma OnBang(host: Host, r: Run, n: nat, t: Thread, rest: seq<Thread>, s: Store, fns: map<string, Entry>)
    requires Stands(host, r, n, t, rest, s, fns, XBang)
    ensures Steps(host, r, n + 1) == Go(t.(pc := t.pc + 1), rest, SetStatus(s, if TrueStatus(s) then "false"
        else ""), fns)
  {
    hide Steps;
    Next(host, r, n, t, rest, s, fns, XBang);
  }

  lemma OnSettrue(host: Host, r: Run, n: nat, t: Thread, rest: seq<Thread>, s: Store, fns: map<string, Entry>)
    requires Stands(host, r, n, t, rest, s, fns, XSettrue)
    ensures Steps(host, r, n + 1) == Go(t.(pc := t.pc + 1), rest, SetStatus(s, ""), fns)
  {
    hide Steps;
    Next(host, r, n, t, rest, s, fns, XSettrue);
  }

  lemma OnIf(host: Host, r: Run, n: nat, t: Thread, rest: seq<Thread>, s: Store, fns: map<string, Entry>)
    requires Stands(host, r, n, t, rest, s, fns, XIf)
    ensures Steps(host, r, n + 1) == Branch(!TrueStatus(s), t.(pc := t.pc + 1), rest, s.(ifnot := true), fns)
  {
    hide Steps;
    Next(host, r, n, t, rest, s, fns, XIf);
  }

  lemma OnWastrue(host: Host, r: Run, n: nat, t: Thread, rest: seq<Thread>, s: Store, fns: map<string, Entry>)
    requires Stands(host, r, n, t, rest, s, fns, XWastrue)
    ensures Steps(host, r, n + 1) == Go(t.(pc := t.pc + 1), rest, s.(ifnot := false), fns)
  {
    hide Steps;
    Next(host, r, n, t, rest, s, fns, XWastrue);
  }

  lemma OnIfnot(host: Host, r: Run, n: nat, t: Thread, rest: seq<Thread>, s: Store, fns: map<string, Entry>)
    requires Stands(host, r, n, t, rest, s, fns, XIfnot)
    ensures Steps(host, r, n + 1) == Branch(!s.ifnot, t.(pc := t.pc + 1), rest, s, fns)
  {
    hide Steps;
    Next(host, r, n, t, rest, s, fns, XIfnot);
  }

  lemma OnMatch(host: Host, r: Run, n: nat, t: Thread, rest: seq<Thread>, s: Store, fns: map<string, Entry>)
    requires Stands(host, r, n, t, rest, s, fns, XMatch)
    ensures Steps(host, r, n + 1) == XMatchOp(t.(pc := t.pc + 1), rest, s, fns)
  {
    hide Steps;
    Next(host, r, n, t, rest, s, fns, XMatch);
  }

  lemma OnCase(host: Host, r: Run, n: nat, t: Thread, rest: seq<Thread>, s: Store, fns: map<string, Entry>)
    requires Stands(host, r, n, t, rest, s, fns, XCase)
    ensures Steps(host, r, n + 1) == XCaseOp(t.(pc := t.pc + 1), rest, s, fns)
  {
    hide Steps;
    Next(host, r, n, t, rest, s, fns, XCase);
  }

  lemma OnFor(host: Host, r: Run, n: nat, t: Thread, rest: seq<Thread>, s: Store, fns: map<string, Entry>)
    requires Stands(host, r, n, t, rest, s, fns, XFor)
    ensures Steps(host, r, n + 1) == XForOp(t.(pc := t.pc + 1), rest, s, fns)
  {
    hide Steps;
    Next(host, r, n, t, rest, s, fns, XFor);
  }

  lemma OnLocal(host: Host, r: Run, n: nat, t: Thread, rest: seq<Thread>, s: Store, fns: map<string, Entry>)
    requires Stands(host, r, n, t, rest, s, fns, XLocal)
    ensures Steps(host, r, n + 1) == XBindOp(host, true, t.(pc := t.pc + 1), rest, s, fns)
  {
    hide Steps;
    Next(host, r, n, t, rest, s, fns, XLocal);
  }

  lemma OnAssign(host: Host, r: Run, n: nat, t: Thread, rest: seq<Thread>, s: Store, fns: map<string, Entry>)
    requires Stands(host, r, n, t, rest, s, fns, XAssign)
    ensures Steps(host, r, n + 1) == XBindOp(host, false, t.(pc := t.pc + 1), rest, s, fns)
  {
    hide Steps;
    Next(host, r, n, t, rest, s, fns, XAssign);
  }

  lemma OnUnlocal(host: Host, r: Run, n: nat, t: Thread, rest: seq<Thread>, s: Store, fns: map<string, Entry>)
    requires Stands(host, r, n, t, rest, s, fns, XUnlocal)
    requires |s.locals| > t.below
    ensures Steps(host, r, n + 1) == Go(t.(pc := t.pc + 1), rest, PopLocal(s), fns)
  {
    hide Steps;
    Next(host, r, n, t, rest, s, fns, XUnlocal);
  }

  lemma OnDup(host: Host, r: Run, n: nat, t: Thread, rest: seq<Thread>, s: Store, fns: map<string, Entry>)
    requires Stands(host, r, n, t, rest, s, fns, XDup)
    ensures Steps(host, r, n + 1) == XDupOp(t.(pc := t.pc + 1), rest, s, fns)
  {
    hide Steps;
    Next(host, r, n, t, rest, s, fns, XDup);
  }

  lemma OnClose(host: Host, r: Run, n: nat, t: Thread, rest: seq<Thread>, s: Store, fns: map<string, Entry>)
    requires Stands(host, r, n, t, rest, s, fns, XClose)
    requires HasOperand(t.(pc := t.pc + 1))
    ensures Steps(host, r, n + 1) == Go(t.(pc := t.pc + 2), rest, PushRedir(s, RClose(t.code[t.pc + 1].i)), fns)
  {
    hide Steps;
    Next(host, r, n, t, rest, s, fns, XClose);
  }

  lemma OnPopredir(host: Host, r: Run, n: nat, t: Thread, rest: seq<Thread>, s: Store, fns: map<string, Entry>)
    requires Stands(host, r, n, t, rest, s, fns, XPopredir)
    requires |s.redirs| > t.startredir
    ensures Steps(host, r, n + 1) == Go(t.(pc := t.pc + 1), rest, PopRedir(host, s), fns)
  {
    hide Steps;
    Next(host, r, n, t, rest, s, fns, XPopredir);
  }

  lemma OnSub(host: Host, r: Run, n: nat, t: Thread, rest: seq<Thread>, s: Store, fns: map<string, Entry>)
    requires Stands(host, r, n, t, rest, s, fns, XSub)
    ensures Steps(host, r, n + 1) == XSubOp(t.(pc := t.pc + 1), rest, s, fns)
  {
    hide Steps;
    Next(host, r, n, t, rest, s, fns, XSub);
  }

  lemma OnConc(host: Host, r: Run, n: nat, t: Thread, rest: seq<Thread>, s: Store, fns: map<string, Entry>)
    requires Stands(host, r, n, t, rest, s, fns, XConc)
    requires |t.argv| >= 3
    ensures Steps(host, r, n + 1) == Reduce(2, Concat(t.argv[0], t.argv[1]), t.(pc := t.pc + 1), rest, s, fns)
  {
    hide Steps;
    Next(host, r, n, t, rest, s, fns, XConc);
  }

  lemma OnFn(host: Host, r: Run, n: nat, t: Thread, rest: seq<Thread>, s: Store, fns: map<string, Entry>)
    requires Stands(host, r, n, t, rest, s, fns, XFn)
    ensures Steps(host, r, n + 1) == XFnOp(host, t.(pc := t.pc + 1), rest, s, fns)
  {
    hide Steps;
    Next(host, r, n, t, rest, s, fns, XFn);
  }

  lemma OnDelfn(host: Host, r: Run, n: nat, t: Thread, rest: seq<Thread>, s: Store, fns: map<string, Entry>)
    requires Stands(host, r, n, t, rest, s, fns, XDelfn)
    requires t.argv != []
    ensures Steps(host, r, n + 1) == Go(t.(pc := t.pc + 1, argv := t.argv[1..]), rest, s, Undefine(t.argv[0], fns))
  {
    hide Steps;
    Next(host, r, n, t, rest, s, fns, XDelfn);
  }

  lemma OnReturn(host: Host, r: Run, n: nat, t: Thread, rest: seq<Thread>, s: Store, fns: map<string, Entry>)
    requires Stands(host, r, n, t, rest, s, fns, XReturn)
    ensures Steps(host, r, n + 1) == XReturnOp(host, t.(pc := t.pc + 1), rest, s, fns)
  {
    hide Steps;
    Next(host, r, n, t, rest, s, fns, XReturn);
  }

  lemma OnNamed(host: Host, r: Run, n: nat, t: Thread, rest: seq<Thread>, s: Store, fns: map<string, Entry>, op: Op)
    requires Stands(host, r, n, t, rest, s, fns, op)
    requires op.XDol? || op.XCount? || op.XQdol?
    ensures Steps(host, r, n + 1) == XNamedOp(op, t.(pc := t.pc + 1), rest, s, fns)
  {
    hide Steps;
    Next(host, r, n, t, rest, s, fns, op);
  }

  lemma OnOpen(host: Host, r: Run, n: nat, t: Thread, rest: seq<Thread>, s: Store, fns: map<string, Entry>,
      kind: RedirKind)
    requires Stands(host, r, n, t, rest, s, fns, RedirOp(kind))
    ensures Steps(host, r, n + 1) == XOpenOp(host, kind, t.(pc := t.pc + 1), rest, s, fns)
  {
    hide Steps;
    Next(host, r, n, t, rest, s, fns, RedirOp(kind));
  }

  /** The routines that make a second process. */
  lemma OnFork(host: Host, r: Run, n: nat, t: Thread, rest: seq<Thread>, s: Store, fns: map<string, Entry>, op: Op)
    requires op in {XPipe, XAsync, XSubshell} && Stands(host, r, n, t, rest, s, fns, op)
    ensures Steps(host, r, n + 1) == Forked(s)
  {
    hide Steps;
    Next(host, r, n, t, rest, s, fns, op);
  }
}
