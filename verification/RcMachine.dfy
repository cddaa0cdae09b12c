/**
 The stack machine that runs a code vector (rc/exec.c, rc/executils.c,
 rc/simple.c and the interpreter loop of rc/main.c).

 A thread has a vector, a program counter and an argument stack.  The threads below
 it wait for it to return.  `Panicked` stands for each call of `panic` and for each
 use of a nil list, a bad operand or a counter outside the vector, and for taking away
 a local or a redirection that belongs to a waiting thread.
 */
module RcMachine {
  import opened Wrappers
  import opened RcTree
  import opened RcGlob
  import opened RcCode
  import opened RcStore

  /** Where a function's code lies. */
  datatype Entry = Entry(code: seq<Cell>, pc: nat)

  /** `below` and `startredir`: how many locals and redirections the waiting thread has. */
  datatype Thread = Thread(code: seq<Cell>, pc: nat, argv: seq<Strings>, below: nat, startredir: nat)

  datatype Mach = Mach(threads: seq<Thread>, store: Store, fns: map<string, Entry>)

  /** `Forked`: the run is followed up to the point where it becomes two. */
  datatype Run = Running(m: Mach) | Exited(store: Store) | Aborted(store: Store) | Forked(store: Store) | Panicked

  /** The machine with its running thread and its store replaced. */
  function Go(t: Thread, rest: seq<Thread>, s: Store, fns: map<string, Entry>): Run {
    Running(Mach([t] + rest, s, fns))
  }

  predicate HasOperand(t: Thread) {
    t.pc < |t.code| && t.code[t.pc].Int? && t.code[t.pc].i >= 0
  }

  function Jumped(t: Thread): Thread
    requires HasOperand(t)
  {
    t.(pc := t.code[t.pc].i)
  }

  function Skipped(t: Thread): Thread {
    t.(pc := t.pc + 1)
  }

  /** A jump that is taken or passed over. */
  function Branch(taken: bool, t: Thread, rest: seq<Thread>, s: Store, fns: map<string, Entry>): Run {
    if !HasOperand(t) then Panicked
    else Go(if taken then Jumped(t) else Skipped(t), rest, s, fns)
  }

  /** Start a thread for a function, with the arguments as its `*`. */
  function Call(f: Entry, args: Strings, t: Thread, rest: seq<Thread>, s: Store, fns: map<string, Entry>): Run {
    Go(Thread(f.code, f.pc, [], |s.locals|, |s.redirs|), [t] + rest, PushLocal(s, "*", args), fns)
  }

  /** A command that is not a shell function. */
  function RunHost(host: Host, ws: Strings, t: Thread, rest: seq<Thread>, s: Store, fns: map<string, Entry>): Run {
    match host.run(ws, s)
    case Runs(sets, world) => Go(t, rest, SetVars(s.(world := world), sets), fns)
    case Exits(sets, world) => Exited(SetVars(s.(world := world), sets))
    case Fails(world) => Aborted(Failed(s.(world := world)))
  }

  function XSimpleOp(host: Host, t: Thread, rest: seq<Thread>, s: Store, fns: map<string, Entry>): Run {
    if t.argv == [] then Panicked
    else
      var ws := GlobWords(host, s.world, t.argv[0]);
      var popped := t.(argv := t.argv[1..]);
      if ws == [] then Aborted(Failed(s))
      else if ws[0] in fns then Call(fns[ws[0]], ws[1..], popped, rest, s, fns)
      else RunHost(host, ws, popped, rest, s, fns)
  }

  /** Pop this thread, its redirections and its locals, and go on with the one below. */
  function XReturnOp(host: Host, t: Thread, rest: seq<Thread>, s: Store, fns: map<string, Entry>): Run {
    if |s.redirs| < t.startredir then Panicked
    else
      var closed := PopRedirs(host, s, t.startredir);
      if rest == [] then Exited(closed)
      else if |closed.locals| < t.below then Panicked
      else Running(Mach(rest, closed.(locals := closed.locals[|closed.locals| - t.below..]), fns))
  }

  function XOpenOp(host: Host, kind: RedirKind, t: Thread, rest: seq<Thread>, s: Store, fns: map<string, Entry>): Run {
    if t.argv == [] || !HasOperand(t) then Panicked
    else match OpenRedir(host, kind, t.code[t.pc].i, t.argv[0], s)
      case None => Aborted(Failed(s))
      case Some(s') => Go(Skipped(t).(argv := t.argv[1..]), rest, s', fns)
  }

  /** The two routines that bind a name to the list below it. */
  function XBindOp(host: Host, isLocal: bool, t: Thread, rest: seq<Thread>, s: Store, fns: map<string, Entry>): Run {
    if |t.argv| < 2 then Panicked
    else match OneName(t.argv[0])
      case None => Aborted(Failed(s))
      case Some(name) =>
        var val := GlobWords(host, s.world, t.argv[1]);
        Go(t.(argv := t.argv[2..]), rest,
           if isLocal then PushLocal(s, name, val) else SetVar(s, name, val), fns)
  }

  function XForOp(t: Thread, rest: seq<Thread>, s: Store, fns: map<string, Entry>): Run {
    if t.argv == [] then Panicked
    else if t.argv[0] == [] then Branch(true, t.(argv := t.argv[1..]), rest, s, fns)
    else if s.locals == [] then Panicked
    else Go(Skipped(t).(argv := [t.argv[0][1..]] + t.argv[1..]), rest, SetTop(s, [t.argv[0][0]]), fns)
  }

  function XCaseOp(t: Thread, rest: seq<Thread>, s: Store, fns: map<string, Entry>): Run {
    if |t.argv| < 2 then Panicked
    else Branch(!AnyMatch(Spaced(t.argv[1]), t.argv[0]), t.(argv := t.argv[1..]), rest, s, fns)
  }

  function XMatchOp(t: Thread, rest: seq<Thread>, s: Store, fns: map<string, Entry>): Run {
    if |t.argv| < 2 then Panicked
    else Go(t.(argv := t.argv[2..]), rest,
            SetStatus(s, if AnyMatch(Spaced(t.argv[0]), t.argv[1]) then "" else "no match"), fns)
  }

  /** Replace the top n lists by words in front of the list below them. */
  function Reduce(n: nat, words: Option<Strings>, t: Thread, rest: seq<Thread>, s: Store, fns: map<string, Entry>): Run
    requires n < |t.argv|
  {
    match words
    case None => Aborted(Failed(s))
    case Some(ws) => Go(t.(argv := [ws + t.argv[n]] + t.argv[n + 1..]), rest, s, fns)
  }

  function NamedValue(op: Op, name: Option<string>, s: Store): Option<Strings> {
    if name.None? then None
    else if op.XDol? then Some(DollarValue(s, name.value))
    else if op.XCount? then Some([CountValue(s, name.value)])
    else Some([Spaced(Lookup(s, name.value))])
  }

  /** $name, $#name and $"name. */
  function XNamedOp(op: Op, t: Thread, rest: seq<Thread>, s: Store, fns: map<string, Entry>): Run {
    if |t.argv| < 2 then Panicked
    else Reduce(1, NamedValue(op, OneName(t.argv[0]), s), t, rest, s, fns)
  }

  function XSubOp(t: Thread, rest: seq<Thread>, s: Store, fns: map<string, Entry>): Run {
    if |t.argv| < 3 then Panicked
    else match OneName(t.argv[1])
      case None => Aborted(Failed(s))
      case Some(name) => Reduce(2, Some(SubWords(Lookup(s, name), t.argv[0])), t, rest, s, fns)
  }

  function XFnOp(host: Host, t: Thread, rest: seq<Thread>, s: Store, fns: map<string, Entry>): Run {
    if t.argv == [] || !HasOperand(t) then Panicked
    else
      var names := GlobWords(host, s.world, t.argv[0]);
      Go(Jumped(t).(argv := t.argv[1..]), rest, s, Define(names, Entry(t.code, t.pc + 2), fns))
  }

  function XDelfnOp(t: Thread, rest: seq<Thread>, s: Store, fns: map<string, Entry>): Run {
    if t.argv == [] then Panicked else Go(t.(argv := t.argv[1..]), rest, s, Undefine(t.argv[0], fns))
  }

  function XWordOp(t: Thread, rest: seq<Thread>, s: Store, fns: map<string, Entry>): Run {
    if t.argv == [] || t.pc >= |t.code| || !t.code[t.pc].Str? then Panicked
    else Go(Skipped(t).(argv := [[t.code[t.pc].s] + t.argv[0]] + t.argv[1..]), rest, s, fns)
  }

  function XDupOp(t: Thread, rest: seq<Thread>, s: Store, fns: map<string, Entry>): Run {
    if !HasOperand(t) || !HasOperand(Skipped(t)) then Panicked
    else Go(t.(pc := t.pc + 2), rest, PushRedir(s, RDup(t.code[t.pc].i, t.code[t.pc + 1].i)), fns)
  }

  /** One routine.  The program counter of t is already past the routine's cell. */
  function Exec1(host: Host, op: Op, t: Thread, rest: seq<Thread>, s: Store, fns: map<string, Entry>): Run {
    match op
    case XMark => Go(t.(argv := [[]] + t.argv), rest, s, fns)
    case XPopm => if t.argv == [] then Panicked else Go(t.(argv := t.argv[1..]), rest, s, fns)
    case XWord => XWordOp(t, rest, s, fns)
    case XGlob =>
      if t.argv == [] then Panicked
      else Go(t.(argv := [GlobWords(host, s.world, t.argv[0])] + t.argv[1..]), rest, s, fns)
    case XSimple => XSimpleOp(host, t, rest, s, fns)
    case XEflag => if host.eflagok && !TrueStatus(s) then Exited(s) else Go(t, rest, s, fns)
    case XTrue => Branch(!TrueStatus(s), t, rest, s, fns)
    case XFalse => Branch(TrueStatus(s), t, rest, s, fns)
    case XJump => Branch(true, t, rest, s, fns)
    case XBang => Go(t, rest, SetStatus(s, if TrueStatus(s) then "false" else ""), fns)
    case XSettrue => Go(t, rest, SetStatus(s, ""), fns)
    case XIf => Branch(!TrueStatus(s), t, rest, s.(ifnot := true), fns)
    case XWastrue => Go(t, rest, s.(ifnot := false), fns)
    case XIfnot => Branch(!s.ifnot, t, rest, s, fns)
    case XMatch => XMatchOp(t, rest, s, fns)
    case XCase => XCaseOp(t, rest, s, fns)
    case XFor => XForOp(t, rest, s, fns)
    case XLocal => XBindOp(host, true, t, rest, s, fns)
    case XAssign => XBindOp(host, false, t, rest, s, fns)
    case XUnlocal => if |s.locals| <= t.below then Panicked else Go(t, rest, PopLocal(s), fns)
    case XWrite => XOpenOp(host, Write, t, rest, s, fns)
    case XRead => XOpenOp(host, Read, t, rest, s, fns)
    case XAppend => XOpenOp(host, Append, t, rest, s, fns)
    case XRdwr => XOpenOp(host, ReadWrite, t, rest, s, fns)
    case XDup => XDupOp(t, rest, s, fns)
    case XClose =>
      if !HasOperand(t) then Panicked
      else Go(Skipped(t), rest, PushRedir(s, RClose(t.code[t.pc].i)), fns)
    case XPopredir => if |s.redirs| <= t.startredir then Panicked else Go(t, rest, PopRedir(host, s), fns)
    case XDol => XNamedOp(op, t, rest, s, fns)
    case XCount => XNamedOp(op, t, rest, s, fns)
    case XQdol => XNamedOp(op, t, rest, s, fns)
    case XSub => XSubOp(t, rest, s, fns)
    case XConc =>
      if |t.argv| < 3 then Panicked else Reduce(2, Concat(t.argv[0], t.argv[1]), t, rest, s, fns)
    case XFn => XFnOp(host, t, rest, s, fns)
    case XDelfn => XDelfnOp(t, rest, s, fns)
    case XReturn => XReturnOp(host, t, rest, s, fns)
    case XExit => Exited(s)
    case XPipe => Forked(s)
    case XAsync => Forked(s)
    case XSubshell => Forked(s)
    case XPipewait => Forked(s)
  }

  /** One turn of the interpreter loop. */
  function Step(host: Host, r: Run): Run {
    if !r.Running? then r
    else if r.m.threads == [] then Panicked
    else
      var t := r.m.threads[0];
      if t.pc >= |t.code| || !t.code[t.pc].Op? then Panicked
      else Exec1(host, t.code[t.pc].op, t.(pc := t.pc + 1), r.m.threads[1..], r.m.store, r.m.fns)
  }

  function Steps(host: Host, r: Run, n: nat): Run
    decreases n
  {
    if n == 0 then r else Steps(host, Step(host, r), n - 1)
  }

  lemma {:induction false} StepsAdd(host: Host, r: Run, a: nat, b: nat)
    ensures Steps(host, r, a + b) == Steps(host, Steps(host, r, a), b)
    decreases a
  {
    if a > 0 {
      StepsAdd(host, Step(host, r), a - 1, b);
    }
  }

  lemma {:induction false} StepsHalted(host: Host, r: Run, n: nat)
    requires !r.Running?
    ensures Steps(host, r, n) == r
    decreases n
  {
    if n > 0 {
      StepsHalted(host, r, n - 1);
    }
  }
}
