/**
 The vectors of a session (rc/exec.c and rc/executils.c with rc/code.c): the counts are kept
 while the interpreter runs, and a vector goes when no thread and no function is left on it.
 */
module RcCustody {
  import opened Wrappers
  import opened RcTree
  import opened RcGlob
  import opened RcCode
  import opened RcStore
  import opened RcMachine
  import opened RcFlat
  import opened RcInterp
  import opened RcOwnership
  import opened RcCompiler

  /** What one routine does to the threads and functions that hold vectors. */
  datatype Effect = Same | Calls(name: string) | Returns | Defines(names: Strings) | Deletes(names: Strings)

  function EffectOf(host: Host, op: Op, argv: seq<Strings>, world: World, fns: map<string, Entry>): Effect {
    match op
    case XReturn => Returns
    case XSimple =>
      if argv == [] then Same
      else
        var ws := GlobWords(host, world, argv[0]);
        if ws != [] && ws[0] in fns then Calls(ws[0]) else Same
    case XFn => if argv == [] then Same else Defines(GlobWords(host, world, argv[0]))
    case XDelfn => if argv == [] then Same else Deletes(argv[0])
    case _ => Same
  }

  function CodesOf(threads: seq<Thread>): seq<seq<Cell>> {
    seq(|threads|, i requires 0 <= i < |threads| => threads[i].code)
  }

  /** The functions whose code is the vector. */
  ghost predicate FunctionsAre(fns: map<string, Entry>, fns': map<string, Entry>, names: Strings, code: seq<Cell>) {
    && (forall n :: n in fns' <==> n in fns || n in names)
    && (forall n :: n in fns' ==> fns'[n].code == if n in names then code else fns[n].code)
  }

  /** What a routine that goes on leaves of the threads and functions. */
  ghost predicate Effected(e: Effect, t: Thread, rest: seq<Thread>, fns: map<string, Entry>, r: Run) {
    r.Running? ==>
      match e
      case Same => CodesOf(r.m.threads) == [t.code] + CodesOf(rest) && r.m.fns == fns
      case Calls(n) => n in fns && CodesOf(r.m.threads) == [fns[n].code, t.code] + CodesOf(rest) && r.m.fns == fns
      case Returns => CodesOf(r.m.threads) == CodesOf(rest) && r.m.fns == fns
      case Defines(ns) => CodesOf(r.m.threads) == [t.code] + CodesOf(rest) && FunctionsAre(fns, r.m.fns, ns, t.code)
      case Deletes(ns) =>
        CodesOf(r.m.threads) == [t.code] + CodesOf(rest) && r.m.fns == Undefine(ns, fns)
  }

  lemma {:induction false} DefineIs(names: Strings, f: Entry, fns: map<string, Entry>)
    ensures FunctionsAre(fns, Define(names, f, fns), names, f.code)
    decreases |names|
  {
    if names != [] {
      DefineIs(names[1..], f, fns[names[0] := f]);
      assert forall n :: n in names <==> n == names[0] || n in names[1..];
    }
  }

  lemma CodesCons(t: Thread, rest: seq<Thread>)
    ensures CodesOf([t] + rest) == [t.code] + CodesOf(rest)
  {}

  /** If the run goes on, the running thread is on the same vector, and the other threads and the
      functions are as they were. */
  ghost predicate Stays(r: Run, t: Thread, rest: seq<Thread>, fns: map<string, Entry>) {
    r.Running? ==>
      && |r.m.threads| == 1 + |rest| && r.m.threads[0].code == t.code && r.m.threads[1..] == rest
      && r.m.fns == fns
  }

  lemma JumpsStay(taken: bool, t: Thread, rest: seq<Thread>, s: Store, fns: map<string, Entry>)
    ensures Stays(Branch(taken, t, rest, s, fns), t, rest, fns)
    ensures Stays(XMatchOp(t, rest, s, fns), t, rest, fns) && Stays(XCaseOp(t, rest, s, fns), t, rest, fns)
    ensures Stays(XForOp(t, rest, s, fns), t, rest, fns)
  {
    hide AnyMatch;
    hide SetStatus;
    hide Spaced;
    hide SetTop;
  }

  lemma WordsStay(
      n: nat, words: Option<Strings>, t: Thread, rest: seq<Thread>, s: Store, fns: map<string, Entry>)
    requires n < |t.argv|
    ensures Stays(Reduce(n, words, t, rest, s, fns), t, rest, fns)
  {}

  lemma NamesStay(
      host: Host, op: Op, isLocal: bool, t: Thread, rest: seq<Thread>, s: Store, fns: map<string, Entry>)
    ensures Stays(XNamedOp(op, t, rest, s, fns), t, rest, fns) && Stays(XSubOp(t, rest, s, fns), t, rest, fns)
    ensures Stays(XBindOp(host, isLocal, t, rest, s, fns), t, rest, fns)
    ensures Stays(XWordOp(t, rest, s, fns), t, rest, fns)
  {
    hide Lookup;
    hide GlobWords;
    hide SetVar;
    hide SubWords;
    hide NamedValue;
    hide OneName;
  }

  lemma FilesStay(
      host: Host, kind: RedirKind, t: Thread, rest: seq<Thread>, s: Store, fns: map<string, Entry>)
    ensures Stays(XOpenOp(host, kind, t, rest, s, fns), t, rest, fns) && Stays(XDupOp(t, rest, s, fns), t, rest, fns)
  {
    hide OpenRedir;
  }

  predicate TouchesHolders(op: Op) {
    op.XReturn? || op.XSimple? || op.XFn? || op.XDelfn?
  }

  predicate Controls(op: Op) {
    || op.XMark? || op.XPopm? || op.XGlob? || op.XEflag? || op.XTrue? || op.XFalse? || op.XJump? || op.XBang?
    || op.XSettrue? || op.XIf? || op.XWastrue? || op.XIfnot? || op.XMatch? || op.XCase? || op.XFor?
  }

  /** The routines that touch neither threads nor functions. */
  lemma ControlStays(host: Host, op: Op, t: Thread, rest: seq<Thread>, s: Store, fns: map<string, Entry>)
    requires Controls(op)
    ensures Stays(Exec1(host, op, t, rest, s, fns), t, rest, fns)
  {
    hide Branch;
    hide XMatchOp;
    hide XCaseOp;
    hide XForOp;
    hide GlobWords;
    hide SetStatus;
    forall taken, s ensures Stays(Branch(taken, t, rest, s, fns), t, rest, fns) {
      JumpsStay(taken, t, rest, s, fns);
    }
    JumpsStay(true, t, rest, s, fns);
  }

  lemma OtherStays(host: Host, op: Op, t: Thread, rest: seq<Thread>, s: Store, fns: map<string, Entry>)
    requires !Controls(op) && !TouchesHolders(op)
    ensures Stays(Exec1(host, op, t, rest, s, fns), t, rest, fns)
  {
    hide Reduce;
    hide XNamedOp;
    hide XSubOp;
    hide XBindOp;
    hide XWordOp;
    hide XOpenOp;
    hide XDupOp;
    NamesStay(host, op, true, t, rest, s, fns);
    NamesStay(host, op, false, t, rest, s, fns);
    forall kind ensures Stays(XOpenOp(host, kind, t, rest, s, fns), t, rest, fns) {
      FilesStay(host, kind, t, rest, s, fns);
    }
    FilesStay(host, Write, t, rest, s, fns);
    if |t.argv| >= 3 {
      WordsStay(2, Concat(t.argv[0], t.argv[1]), t, rest, s, fns);
    }
  }

  lemma PlainEffect(host: Host, op: Op, t: Thread, rest: seq<Thread>, s: Store, fns: map<string, Entry>)
    requires !TouchesHolders(op)
    ensures EffectOf(host, op, t.argv, s.world, fns) == Same
    ensures Effected(Same, t, rest, fns, Exec1(host, op, t, rest, s, fns))
  {
    hide Exec1;
    hide CodesOf;
    hide GlobWords;
    if Controls(op) {
      ControlStays(host, op, t, rest, s, fns);
    } else {
      OtherStays(host, op, t, rest, s, fns);
    }
    var r := Exec1(host, op, t, rest, s, fns);
    if r.Running? {
      assert r.m.threads == [r.m.threads[0]] + rest;
      CodesCons(r.m.threads[0], rest);
    }
  }

  lemma SimpleEffect(host: Host, t: Thread, rest: seq<Thread>, s: Store, fns: map<string, Entry>)
    ensures Effected(EffectOf(host, XSimple, t.argv, s.world, fns), t, rest, fns, XSimpleOp(host, t, rest, s, fns))
  {
    hide GlobWords;
    hide CodesOf;
    hide SetVars;
    if t.argv != [] {
      var ws := GlobWords(host, s.world, t.argv[0]);
      var popped := t.(argv := t.argv[1..]);
      CodesCons(popped, rest);
      if ws != [] && ws[0] in fns {
        CodesCons(Thread(fns[ws[0]].code, fns[ws[0]].pc, [], |s.locals|, |s.redirs|), [popped] + rest);
        assert [fns[ws[0]].code] + ([t.code] + CodesOf(rest)) == [fns[ws[0]].code, t.code] + CodesOf(rest);
      }
    }
  }

  lemma FnEffect(host: Host, t: Thread, rest: seq<Thread>, s: Store, fns: map<string, Entry>)
    ensures Effected(EffectOf(host, XFn, t.argv, s.world, fns), t, rest, fns, XFnOp(host, t, rest, s, fns))
  {
    hide GlobWords;
    hide CodesOf;
    hide Define;
    hide FunctionsAre;
    if t.argv != [] && HasOperand(t) {
      CodesCons(Jumped(t).(argv := t.argv[1..]), rest);
      DefineIs(GlobWords(host, s.world, t.argv[0]), Entry(t.code, t.pc + 2), fns);
    }
  }

  lemma ReturnEffect(host: Host, t: Thread, rest: seq<Thread>, s: Store, fns: map<string, Entry>)
    ensures Effected(Returns, t, rest, fns, XReturnOp(host, t, rest, s, fns))
  {
    hide PopRedirs;
    hide CodesOf;
  }

  /** What each routine does to threads and functions. */
  lemma ExecEffect(host: Host, op: Op, t: Thread, rest: seq<Thread>, s: Store, fns: map<string, Entry>)
    ensures Effected(EffectOf(host, op, t.argv, s.world, fns), t, rest, fns, Exec1(host, op, t, rest, s, fns))
  {
    hide Exec1;
    hide EffectOf;
    hide Effected;
    hide TouchesHolders;
    if TouchesHolders(op) {
      HolderEffect(host, op, t, rest, s, fns);
    } else {
      PlainEffect(host, op, t, rest, s, fns);
    }
  }

  lemma HolderEffect(host: Host, op: Op, t: Thread, rest: seq<Thread>, s: Store, fns: map<string, Entry>)
    requires TouchesHolders(op)
    ensures Effected(EffectOf(host, op, t.argv, s.world, fns), t, rest, fns, Exec1(host, op, t, rest, s, fns))
  {
    HolderOps(host, t, rest, s, fns);
    hide Exec1;
    hide XSimpleOp;
    hide XFnOp;
    hide XReturnOp;
    hide XDelfnOp;
    hide Effected;
    hide GlobWords;
    ReturnEffect(host, t, rest, s, fns);
    SimpleEffect(host, t, rest, s, fns);
    FnEffect(host, t, rest, s, fns);
    DelfnEffect(host, t, rest, s, fns);
  }

  lemma HolderOps(host: Host, t: Thread, rest: seq<Thread>, s: Store, fns: map<string, Entry>)
    ensures Exec1(host, XSimple, t, rest, s, fns) == XSimpleOp(host, t, rest, s, fns)
    ensures Exec1(host, XFn, t, rest, s, fns) == XFnOp(host, t, rest, s, fns)
    ensures Exec1(host, XReturn, t, rest, s, fns) == XReturnOp(host, t, rest, s, fns)
    ensures Exec1(host, XDelfn, t, rest, s, fns) == XDelfnOp(t, rest, s, fns)
  {
    hide XSimpleOp;
    hide XFnOp;
    hide XReturnOp;
    hide XDelfnOp;
  }

  lemma DelfnEffect(host: Host, t: Thread, rest: seq<Thread>, s: Store, fns: map<string, Entry>)
    ensures Effected(EffectOf(host, XDelfn, t.argv, s.world, fns), t, rest, fns, XDelfnOp(t, rest, s, fns))
  {
    hide Undefine;
    hide CodesOf;
    if t.argv != [] {
      CodesCons(t.(argv := t.argv[1..]), rest);
    }
  }

  /** Each thread and each function has its vector, with its cells. */
  ghost predicate TiedTo(
    texts: map<nat, seq<Cell>>, threads: seq<nat>, vfns: map<string, nat>, codes: seq<seq<Cell>>,
    fns: map<string, Entry>)
  {
    && |threads| == |codes|
    && (forall i :: 0 <= i < |codes| ==> threads[i] in texts && texts[threads[i]] == codes[i])
    && vfns.Keys == fns.Keys
    && (forall n :: n in fns ==> vfns[n] in texts && texts[vfns[n]] == fns[n].code)
  }

  /** The vectors of what is left keep their cells. */
  lemma TiedLess(
      texts: map<nat, seq<Cell>>, texts': map<nat, seq<Cell>>, threads: seq<nat>, vfns: map<string, nat>,
      codes: seq<seq<Cell>>, fns: map<string, Entry>)
    requires TiedTo(texts, threads, vfns, codes, fns)
    requires forall id :: id in texts' ==> id in texts && texts'[id] == texts[id]
    requires (forall id :: id in threads ==> id in texts') && forall n :: n in vfns ==> vfns[n] in texts'
    ensures TiedTo(texts', threads, vfns, codes, fns)
  {}

  lemma TiedMore(
      texts: map<nat, seq<Cell>>, threads: seq<nat>, vfns: map<string, nat>, codes: seq<seq<Cell>>,
      fns: map<string, Entry>, id: nat)
    requires TiedTo(texts, threads, vfns, codes, fns) && id in texts
    ensures TiedTo(texts, [id] + threads, vfns, [texts[id]] + codes, fns)
  {}

  lemma TiedTail(
      texts: map<nat, seq<Cell>>, threads: seq<nat>, vfns: map<string, nat>, codes: seq<seq<Cell>>,
      fns: map<string, Entry>)
    requires TiedTo(texts, threads, vfns, codes, fns) && codes != []
    ensures TiedTo(texts, threads[1..], vfns, codes[1..], fns)
  {}

  lemma TiedDefine(
      texts: map<nat, seq<Cell>>, threads: seq<nat>, vfns: map<string, nat>, vfns': map<string, nat>,
      codes: seq<seq<Cell>>, fns: map<string, Entry>, fns': map<string, Entry>, names: Strings)
    requires TiedTo(texts, threads, vfns, codes, fns) && codes != [] && FunctionsAre(fns, fns', names, codes[0])
    requires forall n :: n in vfns' <==> n in vfns || n in names
    requires forall n :: n in vfns' ==> vfns'[n] == if n in names then threads[0] else vfns[n]
    ensures TiedTo(texts, threads, vfns', codes, fns')
  {
    assert threads[0] in texts && texts[threads[0]] == codes[0];
  }

  lemma TiedDelete(
      texts: map<nat, seq<Cell>>, threads: seq<nat>, vfns: map<string, nat>, vfns': map<string, nat>,
      codes: seq<seq<Cell>>, fns: map<string, Entry>, names: Strings)
    requires TiedTo(texts, threads, vfns, codes, fns)
    requires forall n :: n in vfns' <==> n in vfns && n !in names
    requires forall n :: n in vfns' ==> vfns'[n] == vfns[n]
    ensures TiedTo(texts, threads, vfns', codes, Undefine(names, fns))
  {}

  function Codes(q: seq<CThread>): seq<seq<Cell>> {
    seq(|q|, i requires 0 <= i < |q| => q[i].code)
  }

  /** The machine's threads are on the same vectors. */
  lemma FlatCodes(q: seq<CThread>, c: seq<nat>, d: seq<nat>)
    ensures CodesOf(Flat(q, c, d)) == Codes(q)
  {}

  /** The interpreter and its vectors. */
  class Custody {
    const it: Interp
    const v: Vectors

    ghost predicate Tied()
      reads this, it, v
    {
      TiedTo(v.texts, v.threads, v.fns, Codes(it.runq), it.fns)
    }

    /** The vectors of all threads and functions are live, unless the run has ended. */
    ghost predicate Valid()
      reads this, it, v
    {
      it.Valid() && v.Valid() && (it.ended.None? ==> Tied())
    }

    /** A session that starts with one thread. */
    constructor (host: Host, code: seq<Cell>, globals: map<string, Strings>, world: World)
      requires Walkable(code, 1)
      ensures Valid() && it.Live() && fresh(it) && fresh(v)
    {
      hide Walkable;
      it := new Interp(host, code, 1, globals, world);
      v := new Vectors();
      new;
      it.TopIs();
      it.RestLength();
      hide Interp.Valid;
      var _ := v.Load(code);
    }

    /** The threads of the machine are those of the interpreter. */
    lemma TopCodes()
      requires it.Valid()
      ensures Codes(it.runq) == CodesOf([it.Top()] + it.Rest()) == [it.Top().code] + CodesOf(it.Rest())
    {
      FlatCodes(it.runq, it.locals, it.redirections);
      assert [it.Top()] + it.Rest() == Flat(it.runq, it.locals, it.redirections);
      CodesCons(it.Top(), it.Rest());
    }

    lemma StillValid()
      requires Valid()
      ensures it.Valid()
    {}

    /** A line has been compiled: a thread is started on its vector. */
    method Line(code: seq<Cell>)
      requires Valid() && it.Live() && Walkable(code, 1)
      modifies it, v
      ensures Valid() && it.Live()
    {
      hide Walkable;
      hide Interp.Valid;
      hide Interp.Top;
      hide Interp.Rest;
      hide Interp.Sto;
      hide CodesOf;
      hide Codes;
      hide Counted;
      hide Kept;
      TopCodes();
      it.Start(Entry(code, 1));
      TopCodes();
      CodesCons(old(it.Top()), old(it.Rest()));
      ghost var texts := v.texts;
      var id := v.Load(code);
      ghost var codes := old(Codes(it.runq));
      assert TiedTo(v.texts, old(v.threads), v.fns, codes, it.fns);
      hide TiedTo;
      TiedMore(v.texts, old(v.threads), v.fns, codes, it.fns, id);
    }

    /** The effect of the next turn. */
    ghost predicate NextEffect(e: Effect)
      reads it
      requires it.runq != []
    {
      var t := it.runq[0];
      if t.pc < |t.code| && t.code[t.pc].Op? then
        e == EffectOf(it.host, t.code[t.pc].op, t.argv, it.world, it.fns)
      else e == Same
    }

    lemma TurnEffect(e: Effect)
      requires it.Live() && it.runq != [] && NextEffect(e)
      ensures Effected(e, it.Top(), it.Rest(), it.fns, Step(it.host, it.Image()))
    {
      hide Exec1;
      it.TopIs();
      var t, rest, s := it.Top(), it.Rest(), it.Sto();
      hide Interp.Valid;
      hide Interp.Top;
      hide Interp.Rest;
      assert s.world == it.world;
      hide Interp.Sto;
      Stepped(it.host, t, rest, s, it.fns);
      hide Step;
      if t.pc < |t.code| && t.code[t.pc].Op? {
        ExecEffect(it.host, t.code[t.pc].op, t.(pc := t.pc + 1), rest, s, it.fns);
      }
    }

    /** A function is called. */
    method Call(name: string, ghost codes: seq<seq<Cell>>, ghost fns: map<string, Entry>)
      requires v.Valid() && TiedTo(v.texts, v.threads, v.fns, codes, fns) && name in fns
      modifies v
      ensures v.Valid() && TiedTo(v.texts, v.threads, v.fns, [fns[name].code] + codes, fns)
    {
      hide Vectors.Valid;
      v.Live();
      var id := v.fns[name];
      TiedMore(v.texts, v.threads, v.fns, codes, fns, id);
      v.Start(id);
    }

    /** The running thread ends. */
    method Return(ghost codes: seq<seq<Cell>>, ghost fns: map<string, Entry>)
      requires v.Valid() && TiedTo(v.texts, v.threads, v.fns, codes, fns) && codes != []
      modifies v
      ensures v.Valid() && TiedTo(v.texts, v.threads, v.fns, codes[1..], fns)
    {
      hide Vectors.Valid;
      ghost var texts := v.texts;
      TiedTail(texts, v.threads, v.fns, codes, fns);
      v.Return();
      v.Live();
      TiedLess(texts, v.texts, v.threads, v.fns, codes[1..], fns);
    }

    /** Functions are defined on the running vector. */
    method Define(
        names: Strings, ghost codes: seq<seq<Cell>>, ghost fns: map<string, Entry>, ghost fns': map<string, Entry>)
      requires v.Valid() && TiedTo(v.texts, v.threads, v.fns, codes, fns) && codes != []
      requires FunctionsAre(fns, fns', names, codes[0])
      modifies v
      ensures v.Valid() && TiedTo(v.texts, v.threads, v.fns, codes, fns')
    {
      hide Vectors.Valid;
      hide FunctionsAre;
      ghost var texts, vfns := v.texts, v.fns;
      assert v.threads != [];
      hide TiedTo;
      v.Define(names);
      v.Live();
      TiedDefine(texts, v.threads, vfns, v.fns, codes, fns, fns', names);
      TiedLess(texts, v.texts, v.threads, v.fns, codes, fns');
    }

    method Delete(names: Strings, ghost codes: seq<seq<Cell>>, ghost fns: map<string, Entry>)
      requires v.Valid() && TiedTo(v.texts, v.threads, v.fns, codes, fns)
      modifies v
      ensures v.Valid() && TiedTo(v.texts, v.threads, v.fns, codes, Undefine(names, fns))
    {
      hide Vectors.Valid;
      hide Undefine;
      hide TiedTo;
      ghost var texts, vfns := v.texts, v.fns;
      v.Delete(names);
      v.Live();
      TiedDelete(texts, v.threads, vfns, v.fns, codes, fns, names);
      TiedLess(texts, v.texts, v.threads, v.fns, codes, Undefine(names, fns));
    }

    /** The counts after a turn. */
    method Follow(e: Effect, ghost t: Thread, ghost rest: seq<Thread>, ghost fns: map<string, Entry>)
      requires it.Live() && v.Valid() && Effected(e, t, rest, fns, it.Image())
      requires TiedTo(v.texts, v.threads, v.fns, [t.code] + CodesOf(rest), fns)
      modifies v
      ensures v.Valid() && Tied()
    {
      hide Interp.Valid;
      hide Interp.Top;
      hide Interp.Rest;
      hide Interp.Sto;
      hide Vectors.Valid;
      hide TiedTo;
      hide CodesOf;
      hide Codes;
      hide FunctionsAre;
      hide Undefine;
      TopCodes();
      ghost var codes := [t.code] + CodesOf(rest);
      match e {
        case Same =>
        case Calls(name) =>
          Call(name, codes, fns);
          assert [fns[name].code] + codes == [fns[name].code, t.code] + CodesOf(rest);
        case Returns =>
          Return(codes, fns);
          assert codes[1..] == CodesOf(rest);
        case Defines(names) => Define(names, codes, fns, it.fns);
        case Deletes(names) => Delete(names, codes, fns);
      }
    }

    /** One turn of the interpreter, and what it does to the counts. */
    method Turn()
      requires Valid()
      modifies it, v
      ensures Valid() && it.Image() == Step(it.host, old(it.Image()))
    {
      hide Interp.Valid;
      hide Interp.Top;
      hide Interp.Rest;
      hide Interp.Sto;
      hide Vectors.Valid;
      hide TiedTo;
      hide CodesOf;
      hide Codes;
      hide Step;
      hide EffectOf;
      hide Effected;
      it.TopIs();
      var e := Same;
      var t := it.runq[0];
      if t.pc < |t.code| && t.code[t.pc].Op? {
        e := EffectOf(it.host, t.code[t.pc].op, t.argv, it.world, it.fns);
      }
      TopCodes();
      if it.ended.None? {
        TurnEffect(e);
      } else {
        Stopped(it.host, it.Image());
      }
      it.Turn();
      if it.ended.None? {
        Follow(e, old(it.Top()), old(it.Rest()), old(it.fns));
      }
    }

    /** Any number of turns. */
    method Turns(n: nat)
      requires Valid()
      modifies it, v
      ensures Valid() && it.Image() == Steps(it.host, old(it.Image()), n)
    {
      hide Step;
      hide Interp.Valid;
      hide Interp.Image;
      hide Vectors.Valid;
      hide TiedTo;
      for i := 0 to n
        invariant Valid() && Steps(it.host, it.Image(), n - i) == Steps(it.host, old(it.Image()), n)
      {
        Turn();
      }
    }
  }

  /**
   A session: each line that the compiler accepts gets a thread on its own vector, and the
   interpreter runs for some turns.  At its end, as at all times in between, the vector of each
   thread and of each function is live and has its cells, and every other one was released once.
   */
  method Session(
      host: Host, boot: Cmd, lines: seq<Cmd>, e: bool, turns: nat, globals: map<string, Strings>, world: World)
    returns (c: Custody)
    requires Check(boot, false).errors == 0
    ensures c.Valid()
  {
    hide Custody.Valid;
    hide Interp.Valid;
    hide Walkable;
    hide Check;
    hide CodeVector;
    var compiler := new Compiler(false);
    var ok := compiler.Compile(boot, e);
    VectorWalkable(boot, e);
    c := new Custody(host, compiler.codebuf, globals, world);
    for i := 0 to |lines|
      invariant c.Valid() && fresh(c) && fresh(c.it) && fresh(c.v)
    {
      var next := new Compiler(false);
      ok := next.Compile(lines[i], e);
      if ok && c.it.ended.None? {
        VectorWalkable(lines[i], e);
        c.StillValid();
        c.Line(next.codebuf);
      }
      c.Turns(turns);
    }
  }
}
