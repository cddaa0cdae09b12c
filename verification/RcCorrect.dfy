/**
 The compiled code does what the command means.

 Every lemma below runs the machine from the first cell of some code to the cell
 after it and says in which state it gets there.
 */
module RcCorrect {
  import opened Wrappers
  import opened RcTree
  import opened RcGlob
  import opened RcCode
  import opened RcStore
  import opened RcMachine
  import opened RcSteps
  import opened RcSemantics

  /** The cells lie in the vector from address pc on. */
  ghost predicate At(code: seq<Cell>, pc: nat, cells: seq<Cell>) {
    pc + |cells| <= |code| && code[pc..pc + |cells|] == cells
  }

  lemma AtSplit(code: seq<Cell>, pc: nat, a: seq<Cell>, b: seq<Cell>)
    requires At(code, pc, a + b)
    ensures At(code, pc, a) && At(code, pc + |a|, b)
  {
    assert (a + b)[..|a|] == a && (a + b)[|a|..] == b;
    assert code[pc..pc + |a|] == code[pc..pc + |a + b|][..|a|];
    assert code[pc + |a|..pc + |a| + |b|] == code[pc..pc + |a + b|][|a|..];
  }

  lemma AtCell(code: seq<Cell>, pc: nat, cells: seq<Cell>, i: nat)
    requires At(code, pc, cells) && i < |cells|
    ensures pc + i < |code| && code[pc + i] == cells[i]
  {
    assert code[pc..pc + |cells|][i] == code[pc + i];
  }

  /** A function's code is its body's, then the end of its `*` and the return. */
  ghost predicate FnRel(f: Closure, entry: Entry) {
    At(entry.code, entry.pc, CodeFn(f.body, f.e, entry.pc))
  }

  /** The two tables of functions agree. */
  ghost predicate FnsRel(fs: map<string, Closure>, fns: map<string, Entry>) {
    && fs.Keys == fns.Keys
    && forall n :: n in fs ==> FnRel(fs[n], fns[n])
  }

  /** The locals and redirections of the waiting threads are all there. */
  predicate Owns(t: Thread, s: Store) {
    t.below <= |s.locals| && t.startredir <= |s.redirs|
  }

  lemma OwnsFrame(t: Thread, a: Store, b: Store)
    requires Owns(t, a) && SameFrame(a, b)
    ensures Owns(t, b)
  {}

  lemma OwnsSetVar(t: Thread, s: Store, name: string, val: Strings)
    requires Owns(t, s)
    ensures Owns(t, SetVar(s, name, val))
  {}

  /**
   From step n0 of the run r to step n the machine has followed the outcome o: it
   stands at t with the new store, has ended the same way, or has been running for
   at least `fuel` steps.
   */
  ghost predicate Follows(host: Host, r: Run, n0: nat, n: nat, o: Outcome, fuel: nat,
                          t: Thread, rest: seq<Thread>, fns: map<string, Entry>)
  {
    && n0 <= n
    && match o
       case Done(s) => FnsRel(s.fns, fns) && Owns(t, s.store) && Steps(host, r, n) == Go(t, rest, s.store, fns)
       case Exit(store) => Steps(host, r, n) == Exited(store)
       case Abort(store) => Steps(host, r, n) == Aborted(store)
       case Fork(store) => Steps(host, r, n) == Forked(store)
       case Timeout => n >= n0 + fuel && Steps(host, r, n).Running?
  }

  /** What follows from a later step follows from an earlier one. */
  lemma FollowsLater(
      host: Host, r: Run, n0: nat, n1: nat, n: nat, o: Outcome, fuel: nat, t: Thread, rest: seq<Thread>,
      fns: map<string, Entry>)
    requires n0 <= n1 && Follows(host, r, n1, n, o, fuel, t, rest, fns)
    ensures Follows(host, r, n0, n, o, fuel, t, rest, fns)
  {
    hide Steps;
    hide FnsRel;
  }

  /** The run stands at the next command. */
  lemma FollowsReady(
      host: Host, r: Run, n0: nat, n: nat, o: Outcome, fuel: nat, code: seq<Cell>, t: Thread, rest: seq<Thread>,
      fns: map<string, Entry>)
    requires Follows(host, r, n0, n, o, fuel, t, rest, fns) && o.Done? && At(t.code, t.pc, code)
    ensures Ready(host, r, n, o.s, code, t, rest, fns) && n0 <= n
  {
    hide Steps;
    hide FnsRel;
    hide At;
  }

  /** An error in a word ends the run. */
  lemma FollowsAbort(
      host: Host, r: Run, n0: nat, n: nat, s: Store, fuel: nat, t: Thread, rest: seq<Thread>, fns: map<string, Entry>)
    requires n0 <= n && Steps(host, r, n) == Aborted(Failed(s))
    ensures Follows(host, r, n0, n, Abort(Failed(s)), fuel, t, rest, fns)
  {
    hide Steps;
  }

  /** A command that is done. */
  lemma FollowsHere(
      host: Host, r: Run, n0: nat, n: nat, s: State, fuel: nat, t: Thread, rest: seq<Thread>, fns: map<string, Entry>)
    requires n0 <= n && Steps(host, r, n) == Go(t, rest, s.store, fns) && FnsRel(s.fns, fns) && Owns(t, s.store)
    ensures Follows(host, r, n0, n, Done(s), fuel, t, rest, fns)
  {
    hide Steps;
    hide FnsRel;
  }

  /** The run r stands, after n steps, at the code of a command. */
  ghost predicate Ready(host: Host, r: Run, n: nat, s: State, code: seq<Cell>,
                        t: Thread, rest: seq<Thread>, fns: map<string, Entry>)
  {
    && Steps(host, r, n) == Go(t, rest, s.store, fns)
    && FnsRel(s.fns, fns) && Owns(t, s.store)
    && At(t.code, t.pc, code)
  }

  /** The thread t moved forward over len cells. */
  function After(t: Thread, len: nat): Thread {
    t.(pc := t.pc + len)
  }

  /******* Words *******/

  /** The state after code that pushed words on the top list of t. */
  function WordRun(words: Option<Strings>, len: nat, t: Thread, rest: seq<Thread>, s: Store,
      fns: map<string, Entry>): Run
    requires t.argv != []
  {
    match words
    case None => Aborted(Failed(s))
    case Some(ws) => Go(t.(pc := t.pc + len, argv := [ws + t.argv[0]] + t.argv[1..]), rest, s, fns)
  }

  /** The state after code that pushed a new list. */
  function ListRun(words: Option<Strings>, len: nat, t: Thread, rest: seq<Thread>, s: Store,
      fns: map<string, Entry>): Run
  {
    match words
    case None => Aborted(Failed(s))
    case Some(ws) => Go(t.(pc := t.pc + len, argv := [ws] + t.argv), rest, s, fns)
  }

  /** A mark, then code for a word: a new list holding the word's value. */
  lemma {:induction false} MarkedWord(host: Host, w: Word, r: Run, n0: nat, t: Thread, rest: seq<Thread>,
      s: Store, fns: map<string, Entry>)
    returns (n: nat)
    requires Steps(host, r, n0) == Go(t, rest, s, fns)
    requires At(t.code, t.pc, [Op(XMark)] + CodeW(w))
    ensures n > n0
    ensures Steps(host, r, n) == ListRun(Eval(w, s), 1 + |CodeW(w)|, t, rest, s, fns)
    decreases w, 3
  {
    hide Steps;
    hide CodeW;
    hide Eval;
    AtSplit(t.code, t.pc, [Op(XMark)], CodeW(w));
    AtCell(t.code, t.pc, [Op(XMark)], 0);
    OnMark(host, r, n0, t, rest, s, fns);
    var t1 := t.(pc := t.pc + 1, argv := [[]] + t.argv);
    n := WordCorrect(host, w, r, n0 + 1, t1, rest, s, fns);
    assert t1.argv[1..] == t.argv;
    if Eval(w, s).Some? {
      assert Eval(w, s).value + [] == Eval(w, s).value;
    }
  }

  lemma {:induction false} PairCorrect(host: Host, w: Word, a: Word, b: Word, r: Run, n0: nat, t: Thread,
      rest: seq<Thread>, s: Store, fns: map<string, Entry>)
    returns (n: nat)
    requires a < w && b < w
    requires Steps(host, r, n0) == Go(t, rest, s, fns)
    requires t.argv != [] && At(t.code, t.pc, CodeW(b) + CodeW(a))
    ensures n >= n0
    ensures Steps(host, r, n) == WordRun(Both(Eval(a, s), Eval(b, s)), |CodeW(b) + CodeW(a)|, t, rest, s, fns)
    decreases w, 0
  {
    hide Steps;
    hide CodeW;
    hide Eval;
    AtSplit(t.code, t.pc, CodeW(b), CodeW(a));
    n := WordCorrect(host, b, r, n0, t, rest, s, fns);
    if Eval(b, s).Some? {
      var t1 := t.(pc := t.pc + |CodeW(b)|, argv := [Eval(b, s).value + t.argv[0]] + t.argv[1..]);
      n := WordCorrect(host, a, r, n, t1, rest, s, fns);
      if Eval(a, s).Some? {
        var left, right := Eval(a, s).value, Eval(b, s).value;
        assert left + (right + t.argv[0]) == (left + right) + t.argv[0];
      }
    }
  }

  /** $name and its two variants. */
  lemma {:induction false} NamedCorrect(host: Host, w: Word, name: Word, op: Op, r: Run, n0: nat, t: Thread,
      rest: seq<Thread>, s: Store, fns: map<string, Entry>)
    returns (n: nat)
    requires name < w
    requires Steps(host, r, n0) == Go(t, rest, s, fns)
    requires op.XDol? || op.XCount? || op.XQdol?
    requires t.argv != [] && At(t.code, t.pc, [Op(XMark)] + CodeW(name) + [Op(op)])
    ensures n >= n0
    ensures Steps(host, r, n) == WordRun(NamedValue(op, NameOf(Eval(name, s)), s), |CodeW(name)| + 2, t, rest, s, fns)
    decreases w, 0
  {
    hide Steps;
    hide CodeW;
    hide Eval;
    hide NamedValue;
    AtSplit(t.code, t.pc, [Op(XMark)] + CodeW(name), [Op(op)]);
    AtCell(t.code, t.pc + 1 + |CodeW(name)|, [Op(op)], 0);
    n := MarkedWord(host, name, r, n0, t, rest, s, fns);
    if Eval(name, s).Some? {
      var t1 := t.(pc := t.pc + 1 + |CodeW(name)|, argv := [Eval(name, s).value] + t.argv);
      OnNamed(host, r, n, t1, rest, s, fns, op);
      assert t1.argv[1] == t.argv[0] && t1.argv[2..] == t.argv[1..];
      n := n + 1;
    } else {
      NoName(op, s);
    }
  }

  lemma NoName(op: Op, s: Store)
    ensures NamedValue(op, None, s) == None
  {}

  /** Two marked words, the second on top. */
  lemma {:induction false} TwoWords(host: Host, w: Word, under: Word, top: Word, r: Run, n0: nat, t: Thread,
      rest: seq<Thread>, s: Store, fns: map<string, Entry>)
    returns (n: nat)
    requires under < w && top < w
    requires Steps(host, r, n0) == Go(t, rest, s, fns)
    requires At(t.code, t.pc, [Op(XMark)] + CodeW(under) + [Op(XMark)] + CodeW(top))
    ensures n > n0
    ensures Steps(host, r, n) ==
      if Eval(under, s).None? || Eval(top, s).None? then Aborted(Failed(s))
      else Go(t.(pc := t.pc + 2 + |CodeW(under)| + |CodeW(top)|,
                 argv := [Eval(top, s).value, Eval(under, s).value] + t.argv), rest, s, fns)
    decreases w, 0
  {
    hide Steps;
    hide CodeW;
    hide Eval;
    var a, b := [Op(XMark)] + CodeW(under), [Op(XMark)] + CodeW(top);
    assert [Op(XMark)] + CodeW(under) + [Op(XMark)] + CodeW(top) == a + b;
    AtSplit(t.code, t.pc, a, b);
    n := MarkedWord(host, under, r, n0, t, rest, s, fns);
    if Eval(under, s).Some? {
      var t1 := t.(pc := t.pc + |a|, argv := [Eval(under, s).value] + t.argv);
      n := MarkedWord(host, top, r, n, t1, rest, s, fns);
      if Eval(top, s).Some? {
        assert [Eval(top, s).value] + t1.argv == [Eval(top, s).value, Eval(under, s).value] + t.argv;
      }
    }
  }

  /** The code of two marked words and the routine that combines them. */
  lemma CombinedShape(w: Word, under: Word, top: Word, s: Store)
    requires w == Sub(under, top) || w == Caret(top, under)
    ensures CodeW(w) ==
            [Op(XMark)] + CodeW(under) + [Op(XMark)] + CodeW(top) + [Op(if w.Sub? then XSub else XConc)]
    ensures Eval(w, s) ==
            if Eval(under, s).None? || Eval(top, s).None? then None
            else if w.Caret? then Concat(Eval(top, s).value, Eval(under, s).value)
            else
              var name := OneName(Eval(under, s).value);
              if name.None? then None else Some(SubWords(Lookup(s, name.value), Eval(top, s).value))
  {
    CombinedCode(w, under, top);
    hide CodeW;
    hide SubWords;
    hide Concat;
    hide Lookup;
    hide Deglob;
  }

  lemma CombinedCode(w: Word, under: Word, top: Word)
    requires w == Sub(under, top) || w == Caret(top, under)
    ensures CodeW(w) ==
            [Op(XMark)] + CodeW(under) + [Op(XMark)] + CodeW(top) + [Op(if w.Sub? then XSub else XConc)]
  {}

  lemma {:induction false} CombinedCorrect(host: Host, w: Word, under: Word, top: Word, r: Run, n0: nat,
      t: Thread, rest: seq<Thread>, s: Store, fns: map<string, Entry>)
    returns (n: nat)
    requires w == Sub(under, top) || w == Caret(top, under)
    requires Steps(host, r, n0) == Go(t, rest, s, fns)
    requires t.argv != [] && At(t.code, t.pc, CodeW(w))
    ensures n >= n0
    ensures Steps(host, r, n) == WordRun(Eval(w, s), |CodeW(w)|, t, rest, s, fns)
    decreases w, 1
  {
    hide Steps;
    hide At;
    hide SubWords;
    hide Concat;
    hide Lookup;
    hide Failed;
    hide CodeW;
    hide Eval;
    var op := if w.Sub? then XSub else XConc;
    var a := [Op(XMark)] + CodeW(under) + [Op(XMark)] + CodeW(top);
    CombinedShape(w, under, top, s);
    AtSplit(t.code, t.pc, a, [Op(op)]);
    AtCell(t.code, t.pc + |a|, [Op(op)], 0);
    n := TwoWords(host, w, under, top, r, n0, t, rest, s, fns);
    if Eval(under, s).Some? && Eval(top, s).Some? {
      var t1 := t.(pc := t.pc + |a|, argv := [Eval(top, s).value, Eval(under, s).value] + t.argv);
      assert t1.argv[2] == t.argv[0] && t1.argv[3..] == t.argv[1..];
      if w.Sub? {
        OnSub(host, r, n, t1, rest, s, fns);
      } else {
        OnConc(host, r, n, t1, rest, s, fns);
      }
      n := n + 1;
    }
  }

  lemma LiteralCorrect(host: Host, w: Word, r: Run, n0: nat, t: Thread, rest: seq<Thread>, s: Store,
      fns: map<string, Entry>)
    requires w.Lit?
    requires Steps(host, r, n0) == Go(t, rest, s, fns)
    requires t.argv != [] && At(t.code, t.pc, CodeW(w))
    ensures Steps(host, r, n0 + 1) == WordRun(Eval(w, s), |CodeW(w)|, t, rest, s, fns)
  {
    hide Steps;
    AtCell(t.code, t.pc, CodeW(w), 0);
    AtCell(t.code, t.pc, CodeW(w), 1);
    OnWord(host, r, n0, t, rest, s, fns);
  }

  /** The code of a word puts the word's value in front of the top list. */
  lemma {:induction false} WordCorrect(host: Host, w: Word, r: Run, n0: nat, t: Thread, rest: seq<Thread>,
      s: Store, fns: map<string, Entry>)
    returns (n: nat)
    requires Steps(host, r, n0) == Go(t, rest, s, fns)
    requires t.argv != [] && At(t.code, t.pc, CodeW(w))
    ensures n >= n0
    ensures Steps(host, r, n) == WordRun(Eval(w, s), |CodeW(w)|, t, rest, s, fns)
    decreases w, 2
  {
    hide Steps;
    match w
    case NoWord =>
      n := n0;
      assert [] + t.argv[0] == t.argv[0];
      assert [t.argv[0]] + t.argv[1..] == t.argv;
    case Lit(_, _) =>
      LiteralCorrect(host, w, r, n0, t, rest, s, fns);
      n := n0 + 1;
    case ArgList(a, b) => n := PairCorrect(host, w, a, b, r, n0, t, rest, s, fns);
    case Words(a, b) => n := PairCorrect(host, w, a, b, r, n0, t, rest, s, fns);
    case Paren(a) => n := WordCorrect(host, a, r, n0, t, rest, s, fns);
    case Dollar(name) => n := NamedCorrect(host, w, name, XDol, r, n0, t, rest, s, fns);
    case Count(name) => n := NamedCorrect(host, w, name, XCount, r, n0, t, rest, s, fns);
    case Join(name) => n := NamedCorrect(host, w, name, XQdol, r, n0, t, rest, s, fns);
    case Sub(name, subs) => n := CombinedCorrect(host, w, name, subs, r, n0, t, rest, s, fns);
    case Caret(left, right) => n := CombinedCorrect(host, w, right, left, r, n0, t, rest, s, fns);
  }

  /******* One level of each construct, in the code and in the meaning *******/

  lemma SeqShape(host: Host, c: Cmd, e: bool, s: State, fuel: nat, at: nat)
    requires c.Seq?
    ensures CodeC(c, e, at) ==
            CodeC(c.first, e, at) + CodeC(c.second, e, at + |CodeC(c.first, e, at)|)
    ensures Exec(host, c, e, s, fuel) ==
            var o := Exec(host, c.first, e, s, fuel);
            if o.Done? then Exec(host, c.second, e, o.s, fuel) else o
  {}

  lemma TestMeans(host: Host, c: Cmd, e: bool, s: State, fuel: nat)
    requires c.AndAnd? || c.OrOr?
    ensures Exec(host, c, e, s, fuel) ==
            var o := Exec(host, c.left, false, s, fuel);
            if o.Done? && TrueStatus(o.s.store) == c.AndAnd? then Exec(host, c.right, e, o.s, fuel) else o
  {
    hide TrueStatus;
  }

  lemma BangShape(host: Host, c: Cmd, e: bool, s: State, fuel: nat, at: nat)
    requires c.Bang?
    ensures CodeC(c, e, at) == CodeC(c.cmd, e, at) + [Op(XBang)]
    ensures Exec(host, c, e, s, fuel) ==
            var o := Exec(host, c.cmd, e, s, fuel);
            if o.Done? then
              Done(o.s.(store := SetStatus(o.s.store, if TrueStatus(o.s.store) then "false" else "")))
            else o
  {
    hide TrueStatus;
    hide SetStatus;
  }

  lemma IfMeans(host: Host, c: Cmd, e: bool, s: State, fuel: nat)
    requires c.If?
    ensures Exec(host, c, e, s, fuel) ==
            var o := Exec(host, c.cond, false, s, fuel);
            if !o.Done? then o
            else
              var tested := o.s.(store := o.s.store.(ifnot := true));
              if !TrueStatus(tested.store) then Done(tested)
              else
                var o' := Exec(host, c.body, e, tested, fuel);
                if o'.Done? then Done(o'.s.(store := o'.s.store.(ifnot := false))) else o'
  {
    hide TrueStatus;
  }

  lemma RedirectShape(host: Host, c: Cmd, e: bool, s: State, fuel: nat, at: nat)
    requires c.Redirect?
    ensures CodeC(c, e, at) ==
            var file, open := [Op(XMark)] + CodeW(c.file), [Op(XGlob), Op(RedirOp(c.kind)), Int(c.fd)];
            file + open + CodeScoped(c.body, e, at + |file| + 3)
    ensures Exec(host, c, e, s, fuel) ==
            match Eval(c.file, s.store)
            case None => Abort(Failed(s.store))
            case Some(ws) =>
              (match OpenRedir(host, c.kind, c.fd, GlobWords(host, s.store.world, ws), s.store)
               case None => Abort(Failed(s.store))
               case Some(s1) => Unredirect(host, Exec(host, c.body, e, s.(store := s1), fuel)))
  {
    hide CodeW;
    hide Eval;
    hide GlobWords;
    hide OpenRedir;
    hide CodeScoped;
  }

  lemma FdShape(host: Host, c: Cmd, e: bool, s: State, fuel: nat, at: nat)
    requires c.DupFd? || c.CloseFd?
    ensures CodeC(c, e, at) ==
            var head := FdHead(c);
            head + CodeScoped(c.body, e, at + |head|)
    ensures Exec(host, c, e, s, fuel) ==
            var redir := if c.DupFd? then RDup(c.fd0, c.fd1) else RClose(c.fd);
            Unredirect(host, Exec(host, c.body, e, s.(store := PushRedir(s.store, redir)), fuel))
  {
    hide CodeScoped;
  }

  lemma ForShape(host: Host, c: Cmd, e: bool, s: State, fuel: nat, at: nat)
    requires c.For?
    ensures CodeC(c, e, at) ==
            var words, variable := [Op(XMark)] + ForList(c.list), CodeVariable(c.name);
            words + variable + CodeLoop(c.body, e, at + |words| + |variable|) + [Op(XUnlocal)]
    ensures Exec(host, c, e, s, fuel) ==
            var ws, n := LoopWords(host, c.list, s.store), NameOf(Eval(c.name, s.store));
            if ws.None? || n.None? then Abort(Failed(s.store))
            else
              Unlocal(ExecFor(host, ws.value, c.body, e, s.(store := PushLocal(s.store, n.value, [])), fuel))
  {
    hide ForList;
    hide CodeVariable;
    hide CodeLoop;
    hide LoopWords;
    hide Eval;
    hide ExecFor;
  }

  lemma SwitchShape(host: Host, c: Cmd, e: bool, s: State, fuel: nat, at: nat)
    requires c.Switch?
    ensures !HasCase(c.block) ==> CodeC(c, e, at) == []
    ensures Exec(host, c, e, s, fuel) ==
            if !HasCase(c.block) then Done(s) else
            match Eval(c.value, s.store)
            case None => Abort(Failed(s.store))
            case Some(ws) => ExecCases(host, Clauses(c.block), Spaced(ws), e, s, fuel)
  {
    hide CodeW;
    hide CodeCases;
    hide Eval;
    hide ExecCases;
    hide HasCase;
  }

  lemma ClausesSmaller(c: Cmd)
    requires c.Switch? && HasCase(c.block)
    ensures Clauses(c.block) < c
  {}

  predicate IsClause(t: Cmd) {
    t.Seq? && IsCase(t.first)
  }

  lemma CasesShape(host: Host, t: Cmd, subject: string, e: bool, s: State, fuel: nat)
    ensures !IsClause(t) ==> forall at: nat, out: nat :: CodeCases(t, e, at, out) == []
    ensures ExecCases(host, t, subject, e, s, fuel) ==
            if !IsClause(t) then Done(s) else
            match EvalArgs(t.first.args, s.store)
            case None => Abort(Failed(s.store))
            case Some(ps) =>
              if AnyMatch(subject, ps) then ExecClause(host, t.second, e, s, fuel)
              else ExecCases(host, NextClause(t.second), subject, e, s, fuel)
  {
    hide CodeArgs;
    hide CodeClause;
    hide EvalArgs;
    hide AnyMatch;
    hide ExecClause;
    hide NextClause;
  }

  lemma FnShape(host: Host, c: Cmd, e: bool, s: State, fuel: nat, at: nat)
    requires c.Fn?
    ensures CodeC(c, e, at) ==
            var head := [Op(XMark)] + CodeW(c.names);
            if c.body.Skip? then head + [Op(XDelfn)] else
            var code := CodeFn(c.body, e, at + |head| + 3);
            head + [Op(XFn), Int(at + |head| + 3 + |code|), Text(c.body)] + code
    ensures Exec(host, c, e, s, fuel) ==
            match Eval(c.names, s.store)
            case None => Abort(Failed(s.store))
            case Some(ws) =>
              Done(s.(fns :=
                if c.body.Skip? then Undefine(ws, s.fns)
                else Define(GlobWords(host, s.store.world, ws), Closure(c.body, e), s.fns)))
  {
    hide CodeW;
    hide CodeFn;
    hide Eval;
    hide GlobWords;
    hide Define;
    hide Undefine;
  }

  /******* Commands *******/

  lemma AtSplit3(code: seq<Cell>, pc: nat, a: seq<Cell>, b: seq<Cell>, c: seq<Cell>)
    requires At(code, pc, a + b + c)
    ensures At(code, pc, a) && At(code, pc + |a|, b) && At(code, pc + |a| + |b|, c)
  {
    AtSplit(code, pc, a + b, c);
    AtSplit(code, pc, a, b);
  }

  lemma AtSplit4(code: seq<Cell>, pc: nat, a: seq<Cell>, b: seq<Cell>, c: seq<Cell>, d: seq<Cell>)
    requires At(code, pc, a + b + c + d)
    ensures At(code, pc, a) && At(code, pc + |a|, b) && At(code, pc + |a| + |b|, c)
    ensures At(code, pc + |a| + |b| + |c|, d)
  {
    AtSplit(code, pc, a + b + c, d);
    AtSplit3(code, pc, a, b, c);
  }

  lemma AtPair(code: seq<Cell>, pc: nat, a: Cell, b: Cell)
    requires At(code, pc, [a, b])
    ensures pc + 1 < |code| && code[pc] == a && code[pc + 1] == b
  {
    AtCell(code, pc, [a, b], 0);
    AtCell(code, pc, [a, b], 1);
  }

  lemma OwnsStatus(t: Thread, s: Store, status: string)
    requires Owns(t, s)
    ensures Owns(t, SetStatus(s, status))
  {}

  /** The exit test after a command, present only under -e. */
  lemma EflagCorrect(host: Host, e: bool, s: State, fuel: nat, r: Run, n0: nat, t: Thread, rest: seq<Thread>,
      fns: map<string, Entry>)
    returns (n: nat)
    requires Ready(host, r, n0, s, EflagTest(e), t, rest, fns)
    ensures Follows(host, r, n0, n, Eflag(host, e, s), fuel, After(t, |EflagTest(e)|), rest, fns)
  {
    hide Steps;
    hide TrueStatus;
    n := n0;
    if e {
      AtCell(t.code, t.pc, EflagTest(e), 0);
      OnEflag(host, r, n0, t, rest, s.store, fns);
      n := n0 + 1;
    }
  }

  lemma {:induction false} SeqCorrect(host: Host, c: Cmd, e: bool, s: State, fuel: nat, r: Run, n0: nat,
      t: Thread, rest: seq<Thread>, fns: map<string, Entry>)
    returns (n: nat, fns': map<string, Entry>)
    requires c.Seq?
    requires Ready(host, r, n0, s, CodeC(c, e, t.pc), t, rest, fns)
    ensures Follows(host, r, n0, n, Exec(host, c, e, s, fuel), fuel, After(t, |CodeC(c, e, t.pc)|), rest, fns')
    decreases fuel, c, 0, 0
  {
    hide Steps;
    hide At;
    hide FnsRel;
    hide CodeC;
    hide Exec;
    SeqShape(host, c, e, s, fuel, t.pc);
    var a, b := c.first, c.second;
    var first := CodeC(a, e, t.pc);
    AtSplit(t.code, t.pc, first, CodeC(b, e, t.pc + |first|));
    n, fns' := CmdCorrect(host, a, e, s, fuel, r, n0, t, rest, fns);
    var o := Exec(host, a, e, s, fuel);
    if o.Done? {
      var n1 := n;
      n, fns' := CmdCorrect(host, b, e, o.s, fuel, r, n1, After(t, |first|), rest, fns');
    }
  }

  lemma TestLayout(code: seq<Cell>, pc: nat, c: Cmd, e: bool)
    requires (c.AndAnd? || c.OrOr?) && At(code, pc, CodeC(c, e, pc))
    ensures var first := CodeC(c.left, false, pc);
            var next := pc + |first| + 2;
            var second := CodeC(c.right, e, next);
            && |CodeC(c, e, pc)| == |first| + 2 + |second| && next + |second| <= |code|
            && At(code, pc, first) && At(code, pc + |first|, [])
            && code[next - 2] == Op(if c.AndAnd? then XTrue else XFalse) && code[next - 1] == Int(next + |second|)
            && At(code, next, second)
  {
    hide CodeC;
    TestCode(c, e, pc);
    var first := CodeC(c.left, false, pc);
    var second := CodeC(c.right, e, pc + |first| + 2);
    var jump := [Op(if c.AndAnd? then XTrue else XFalse), Int(pc + |first| + 2 + |second|)];
    AtSplit3(code, pc, first, jump, second);
    AtPair(code, pc + |first|, jump[0], jump[1]);
  }

  /** a && b and a || b: a jump over b that depends on the status. */
  lemma {:induction false} TestCorrect(host: Host, c: Cmd, e: bool, s: State, fuel: nat, r: Run, n0: nat,
      t: Thread, rest: seq<Thread>, fns: map<string, Entry>)
    returns (n: nat, fns': map<string, Entry>)
    requires c.AndAnd? || c.OrOr?
    requires Ready(host, r, n0, s, CodeC(c, e, t.pc), t, rest, fns)
    ensures Follows(host, r, n0, n, Exec(host, c, e, s, fuel), fuel, After(t, |CodeC(c, e, t.pc)|), rest, fns')
    decreases fuel, c, 0, 0
  {
    hide Steps;
    hide At;
    hide FnsRel;
    hide TrueStatus;
    hide CodeC;
    hide Exec;
    TestLayout(t.code, t.pc, c, e);
    TestMeans(host, c, e, s, fuel);
    var a, b := c.left, c.right;
    var first := CodeC(a, false, t.pc);
    var second := CodeC(b, e, t.pc + |first| + 2);
    var t1, end := After(t, |first|), After(t, |first| + 2 + |second|);
    hide Follows;
    n, fns' := CmdCorrect(host, a, false, s, fuel, r, n0, t, rest, fns);
    var o := Exec(host, a, false, s, fuel);
    if !o.Done? {
      FollowsElsewhere(host, r, n0, n0, n, o, fuel, t1, end, rest, fns');
      return;
    }
    FollowsReady(host, r, n0, n, o, fuel, [], t1, rest, fns');
    if c.AndAnd? {
      OnTrue(host, r, n, t1, rest, o.s.store, fns');
    } else {
      OnFalse(host, r, n, t1, rest, o.s.store, fns');
    }
    n := n + 1;
    if TrueStatus(o.s.store) == c.AndAnd? {
      var n1 := n;
      n, fns' := CmdCorrect(host, b, e, o.s, fuel, r, n1, After(t1, 2), rest, fns');
      FollowsLater(host, r, n0, n1, n, Exec(host, b, e, o.s, fuel), fuel, end, rest, fns');
    } else {
      FollowsHere(host, r, n0, n, o.s, fuel, end, rest, fns');
    }
  }

  lemma {:induction false} BangCorrect(host: Host, c: Cmd, e: bool, s: State, fuel: nat, r: Run, n0: nat,
      t: Thread, rest: seq<Thread>, fns: map<string, Entry>)
    returns (n: nat, fns': map<string, Entry>)
    requires c.Bang?
    requires Ready(host, r, n0, s, CodeC(c, e, t.pc), t, rest, fns)
    ensures Follows(host, r, n0, n, Exec(host, c, e, s, fuel), fuel, After(t, |CodeC(c, e, t.pc)|), rest, fns')
    decreases fuel, c, 0, 0
  {
    hide Steps;
    hide At;
    hide FnsRel;
    hide TrueStatus;
    hide CodeC;
    hide Exec;
    BangShape(host, c, e, s, fuel, t.pc);
    var first := CodeC(c.cmd, e, t.pc);
    AtSplit(t.code, t.pc, first, [Op(XBang)]);
    AtCell(t.code, t.pc + |first|, [Op(XBang)], 0);
    n, fns' := CmdCorrect(host, c.cmd, e, s, fuel, r, n0, t, rest, fns);
    var o := Exec(host, c.cmd, e, s, fuel);
    if o.Done? {
      OnBang(host, r, n, After(t, |first|), rest, o.s.store, fns');
      n := n + 1;
    }
  }

  lemma TwiddleShape(host: Host, c: Cmd, e: bool, s: State, fuel: nat, at: nat)
    requires c.Twiddle?
    ensures CodeC(c, e, at) ==
            [Op(XMark)] + CodeW(c.patterns) + [Op(XMark)] + CodeW(c.subject) + [Op(XMatch)] + EflagTest(e)
    ensures Exec(host, c, e, s, fuel) ==
            var ws, ps := Eval(c.subject, s.store), Eval(c.patterns, s.store);
            if ws.None? || ps.None? then Abort(Failed(s.store))
            else
              var status := if AnyMatch(Spaced(ws.value), ps.value) then "" else "no match";
              Eflag(host, e, s.(store := SetStatus(s.store, status)))
  {
    hide CodeW;
    hide Eval;
    hide Eflag;
    hide EflagTest;
    hide AnyMatch;
    hide Spaced;
    hide SetStatus;
  }

  lemma {:induction false} TwiddleCorrect(
      host: Host, c: Cmd, e: bool, s: State, fuel: nat, r: Run, n0: nat, t: Thread, rest: seq<Thread>,
      fns: map<string, Entry>)
    returns (n: nat, fns': map<string, Entry>)
    requires c.Twiddle?
    requires Ready(host, r, n0, s, CodeC(c, e, t.pc), t, rest, fns)
    ensures Follows(host, r, n0, n, Exec(host, c, e, s, fuel), fuel, After(t, |CodeC(c, e, t.pc)|), rest, fns')
    decreases fuel, c, 0, 0
  {
    hide Steps;
    hide At;
    hide FnsRel;
    hide Follows;
    hide TrueStatus;
    hide CodeC;
    hide Exec;
    hide CodeW;
    hide Eval;
    hide Eflag;
    hide EflagTest;
    hide AnyMatch;
    hide Spaced;
    hide SetStatus;
    var words := [Op(XMark)] + CodeW(c.patterns) + [Op(XMark)] + CodeW(c.subject);
    TwiddleShape(host, c, e, s, fuel, t.pc);
    AtSplit3(t.code, t.pc, words, [Op(XMatch)], EflagTest(e));
    AtCell(t.code, t.pc + |words|, [Op(XMatch)], 0);
    n := TwoWords(host, Caret(c.subject, c.patterns), c.patterns, c.subject, r, n0, t, rest, s.store, fns);
    fns' := fns;
    var end := After(t, |words| + 1 + |EflagTest(e)|);
    var ws, ps := Eval(c.subject, s.store), Eval(c.patterns, s.store);
    if ws.Some? && ps.Some? {
      var t1 := After(t, |words|).(argv := [ws.value, ps.value] + t.argv);
      OnMatch(host, r, n, t1, rest, s.store, fns);
      assert t1.argv[2..] == t.argv;
      var status := if AnyMatch(Spaced(ws.value), ps.value) then "" else "no match";
      var s1 := s.(store := SetStatus(s.store, status));
      OwnsStatus(t, s.store, status);
      var n1 := n + 1;
      n := EflagCorrect(host, e, s1, fuel, r, n1, After(t, |words| + 1), rest, fns);
      FollowsLater(host, r, n0, n1, n, Eflag(host, e, s1), fuel, end, rest, fns);
    } else {
      FollowsAbort(host, r, n0, n, s.store, fuel, end, rest, fns);
    }
  }

  lemma IfLayout(code: seq<Cell>, pc: nat, c: Cmd, e: bool)
    requires c.If? && At(code, pc, CodeC(c, e, pc))
    ensures var cond := CodeC(c.cond, false, pc);
            var next := pc + |cond| + 2;
            var body := CodeC(c.body, e, next);
            && |CodeC(c, e, pc)| == |cond| + 2 + |body| + 1 && next + |body| < |code|
            && At(code, pc, cond) && At(code, pc + |cond|, [])
            && code[next - 2] == Op(XIf) && code[next - 1] == Int(next + |body| + 1)
            && At(code, next, body) && code[next + |body|] == Op(XWastrue)
  {
    hide CodeC;
    IfCode(c, e, pc);
    var cond := CodeC(c.cond, false, pc);
    var body := CodeC(c.body, e, pc + |cond| + 2);
    var jump := [Op(XIf), Int(pc + |cond| + 2 + |body| + 1)];
    AtSplit4(code, pc, cond, jump, body, [Op(XWastrue)]);
    AtPair(code, pc + |cond|, jump[0], jump[1]);
    AtCell(code, pc + |cond| + 2 + |body|, [Op(XWastrue)], 0);
  }

  lemma {:induction false} IfCorrect(host: Host, c: Cmd, e: bool, s: State, fuel: nat, r: Run, n0: nat,
      t: Thread, rest: seq<Thread>, fns: map<string, Entry>)
    returns (n: nat, fns': map<string, Entry>)
    requires c.If?
    requires Ready(host, r, n0, s, CodeC(c, e, t.pc), t, rest, fns)
    ensures Follows(host, r, n0, n, Exec(host, c, e, s, fuel), fuel, After(t, |CodeC(c, e, t.pc)|), rest, fns')
    decreases fuel, c, 0, 0
  {
    hide Steps;
    hide At;
    hide FnsRel;
    hide TrueStatus;
    hide CodeC;
    hide Exec;
    IfLayout(t.code, t.pc, c, e);
    IfMeans(host, c, e, s, fuel);
    var cond := CodeC(c.cond, false, t.pc);
    var body := CodeC(c.body, e, t.pc + |cond| + 2);
    var t1, end := After(t, |cond|), After(t, |CodeC(c, e, t.pc)|);
    hide Follows;
    n, fns' := CmdCorrect(host, c.cond, false, s, fuel, r, n0, t, rest, fns);
    var o := Exec(host, c.cond, false, s, fuel);
    if !o.Done? {
      FollowsElsewhere(host, r, n0, n0, n, o, fuel, t1, end, rest, fns');
      return;
    }
    FollowsReady(host, r, n0, n, o, fuel, [], t1, rest, fns');
    OnIf(host, r, n, t1, rest, o.s.store, fns');
    n := n + 1;
    var tested := o.s.(store := o.s.store.(ifnot := true));
    StatusIgnoresIfnot(o.s.store, true);
    if TrueStatus(tested.store) {
      var n1 := n;
      n, fns' := CmdCorrect(host, c.body, e, tested, fuel, r, n1, After(t1, 2), rest, fns');
      var o' := Exec(host, c.body, e, tested, fuel);
      n := FollowsWastrue(host, r, n0, n1, n, o', fuel, After(t1, 2 + |body|), rest, fns');
    } else {
      FollowsHere(host, r, n0, n, tested, fuel, end, rest, fns');
    }
  }

  /** What follows, followed by the end of an `if` that was taken. */
  lemma FollowsWastrue(
      host: Host, r: Run, n0: nat, n1: nat, n: nat, o: Outcome, fuel: nat, t: Thread, rest: seq<Thread>,
      fns: map<string, Entry>)
    returns (n': nat)
    requires n0 <= n1 && Follows(host, r, n1, n, o, fuel, t, rest, fns)
    requires t.pc < |t.code| && t.code[t.pc] == Op(XWastrue)
    ensures Follows(host, r, n0, n', if o.Done? then Done(o.s.(store := o.s.store.(ifnot := false))) else o, fuel,
                    After(t, 1), rest, fns)
  {
    hide Steps;
    hide FnsRel;
    n' := n;
    if o.Done? {
      OnWastrue(host, r, n, t, rest, o.s.store, fns);
      n' := n + 1;
    }
  }

  lemma StatusIgnoresIfnot(s: Store, b: bool)
    ensures TrueStatus(s.(ifnot := b)) == TrueStatus(s)
  {
    assert Status(s.(ifnot := b)) == Status(s);
  }

  lemma IfNotMeans(host: Host, c: Cmd, e: bool, s: State, fuel: nat)
    requires c.IfNot?
    ensures Exec(host, c, e, s, fuel) == if s.store.ifnot then Exec(host, c.body, e, s, fuel) else Done(s)
  {}

  lemma {:induction false} IfNotCorrect(host: Host, c: Cmd, e: bool, s: State, fuel: nat, r: Run, n0: nat,
      t: Thread, rest: seq<Thread>, fns: map<string, Entry>)
    returns (n: nat, fns': map<string, Entry>)
    requires c.IfNot?
    requires Ready(host, r, n0, s, CodeC(c, e, t.pc), t, rest, fns)
    ensures Follows(host, r, n0, n, Exec(host, c, e, s, fuel), fuel, After(t, |CodeC(c, e, t.pc)|), rest, fns')
    decreases fuel, c, 0, 0
  {
    hide Steps;
    hide At;
    hide FnsRel;
    hide CodeC;
    hide Exec;
    IfNotCode(c, e, t.pc);
    IfNotMeans(host, c, e, s, fuel);
    var body := CodeC(c.body, e, t.pc + 2);
    var jump := [Op(XIfnot), Int(t.pc + 2 + |body|)];
    AtSplit(t.code, t.pc, jump, body);
    AtPair(t.code, t.pc, jump[0], jump[1]);
    OnIfnot(host, r, n0, t, rest, s.store, fns);
    n, fns' := n0 + 1, fns;
    if s.store.ifnot {
      n, fns' := CmdCorrect(host, c.body, e, s, fuel, r, n, After(t, 2), rest, fns);
    }
  }

  /** Exactly the silent commands emit nothing, wherever they are emitted. */
  lemma {:induction false} SilentCode(c: Cmd, e: bool, at: nat)
    ensures CodeC(c, e, at) == [] <==> Silent(c)
    decreases c, 1
  {
    hide CodeC;
    hide Silent;
    if c.Seq? || c.Brace? {
      SilentPair(c, e, at);
    } else {
      SilentAlone(c, e, at);
    }
  }

  lemma {:induction false} SilentPair(c: Cmd, e: bool, at: nat)
    requires c.Seq? || c.Brace?
    ensures CodeC(c, e, at) == [] <==> Silent(c)
    decreases c, 0
  {
    if c.Seq? {
      SilentCode(c.first, e, at);
      SilentCode(c.second, e, at + |CodeC(c.first, e, at)|);
    } else {
      SilentCode(c.cmd, e, at);
    }
  }

  lemma SilentAlone(c: Cmd, e: bool, at: nat)
    requires !c.Seq? && !c.Brace?
    ensures CodeC(c, e, at) == [] <==> Silent(c)
  {
    hide CodeW;
    hide CodeScoped;
    hide CodeLoop;
    hide CodeVariable;
    hide ForList;
    hide CodeCases;
    hide CodeFn;
    hide CodeCond;
    hide HasCase;
    hide CodeBinding;
  }

  /** The condition of a loop; an empty one counts as true. */
  lemma {:induction false} CondCorrect(host: Host, c: Cmd, e: bool, s: State, fuel: nat, r: Run, n0: nat,
      t: Thread, rest: seq<Thread>, fns: map<string, Entry>)
    returns (n: nat, fns': map<string, Entry>)
    requires c.While?
    requires Ready(host, r, n0, s, CodeCond(c.cond, t.pc), t, rest, fns)
    ensures Follows(host, r, n0, n, ExecCond(host, c.cond, s, fuel), fuel, After(t, |CodeCond(c.cond, t.pc)|),
        rest, fns')
    decreases fuel, c, 0, 0
  {
    hide Steps;
    hide At;
    hide FnsRel;
    hide Exec;
    hide CodeC;
    hide Silent;
    SilentCode(c.cond, false, t.pc);
    if Silent(c.cond) {
      AtCell(t.code, t.pc, [Op(XSettrue)], 0);
      OnSettrue(host, r, n0, t, rest, s.store, fns);
      n, fns' := n0 + 1, fns;
    } else {
      n, fns' := CmdCorrect(host, c.cond, false, s, fuel, r, n0, t, rest, fns);
    }
  }

  lemma {:induction false} WhileCorrect(
      host: Host, c: Cmd, e: bool, s: State, fuel: nat, r: Run, n0: nat, t: Thread, rest: seq<Thread>,
      fns: map<string, Entry>)
    returns (n: nat, fns': map<string, Entry>)
    requires c.While?
    requires Ready(host, r, n0, s, CodeC(c, e, t.pc), t, rest, fns)
    ensures Follows(host, r, n0, n, Exec(host, c, e, s, fuel), fuel, After(t, |CodeC(c, e, t.pc)|), rest, fns')
    decreases fuel, c, 0, 1
  {
    hide Steps;
    hide At;
    hide FnsRel;
    hide TrueStatus;
    hide ExecCond;
    hide CodeCond;
    hide CodeC;
    hide Exec;
    var cond := CodeCond(c.cond, t.pc);
    var body := CodeC(c.body, e, t.pc + |cond| + 2);
    var jump, back := [Op(XTrue), Int(t.pc + |cond| + 2 + |body| + 2)], [Op(XJump), Int(t.pc)];
    WhileCode(c, e, t.pc);
    WhileMeans(host, c, e, s, fuel);
    AtSplit4(t.code, t.pc, cond, jump, body, back);
    AtPair(t.code, t.pc + |cond|, jump[0], jump[1]);
    var t1, end := After(t, |cond|), After(t, |CodeC(c, e, t.pc)|);
    hide Follows;
    n, fns' := CondCorrect(host, c, e, s, fuel, r, n0, t, rest, fns);
    var o := ExecCond(host, c.cond, s, fuel);
    if !o.Done? {
      FollowsElsewhere(host, r, n0, n0, n, o, fuel, t1, end, rest, fns');
      return;
    }
    FollowsReady(host, r, n0, n, o, fuel, jump, t1, rest, fns');
    OnTrue(host, r, n, t1, rest, o.s.store, fns');
    n := n + 1;
    if TrueStatus(o.s.store) {
      var n1 := n;
      n, fns' := TurnCorrect(host, c, e, o.s, fuel, r, n1, t, After(t1, 2), rest, fns');
      FollowsLater(host, r, n0, n1, n, Exec(host, c, e, s, fuel), fuel, end, rest, fns');
    } else {
      FollowsHere(host, r, n0, n, o.s, fuel, end, rest, fns');
    }
  }

  /** The body of a while loop, the jump back, and the turns that are left. */
  lemma {:induction false} TurnCorrect(
      host: Host, c: Cmd, e: bool, s: State, fuel: nat, r: Run, n0: nat, t: Thread, t1: Thread, rest: seq<Thread>,
      fns: map<string, Entry>)
    returns (n: nat, fns': map<string, Entry>)
    requires c.While? && t1 == t.(pc := t1.pc) && At(t.code, t.pc, CodeC(c, e, t.pc))
    requires At(t.code, t1.pc + |CodeC(c.body, e, t1.pc)|, [Op(XJump), Int(t.pc)])
    requires Ready(host, r, n0, s, CodeC(c.body, e, t1.pc), t1, rest, fns)
    ensures var o := Exec(host, c.body, e, s, fuel);
            var o' := if !o.Done? then o else if fuel == 0 then Timeout else Exec(host, c, e, o.s, fuel - 1);
            Follows(host, r, n0, n, o', fuel, After(t, |CodeC(c, e, t.pc)|), rest, fns')
    decreases fuel, c, 0, 0
  {
    hide Steps;
    hide At;
    hide FnsRel;
    hide CodeC;
    hide Exec;
    var body := CodeC(c.body, e, t1.pc);
    n, fns' := CmdCorrect(host, c.body, e, s, fuel, r, n0, t1, rest, fns);
    var o := Exec(host, c.body, e, s, fuel);
    if o.Done? {
      AtPair(t.code, t1.pc + |body|, Op(XJump), Int(t.pc));
      OnJump(host, r, n, After(t1, |body|), rest, o.s.store, fns');
      n := n + 1;
      if fuel > 0 {
        n, fns' := CmdCorrect(host, c, e, o.s, fuel - 1, r, n, t, rest, fns');
      }
    }
  }

  lemma WhileMeans(host: Host, c: Cmd, e: bool, s: State, fuel: nat)
    requires c.While?
    ensures Exec(host, c, e, s, fuel) ==
            var o := ExecCond(host, c.cond, s, fuel);
            if !o.Done? || !TrueStatus(o.s.store) then o
            else
              var o' := Exec(host, c.body, e, o.s, fuel);
              if !o'.Done? then o'
              else if fuel == 0 then Timeout
              else Exec(host, c, e, o'.s, fuel - 1)
  {
    hide TrueStatus;
  }

  /** A mark, code for a word, and the expansion of file names. */
  lemma GlobbedWord(
      host: Host, w: Word, r: Run, n0: nat, t: Thread, rest: seq<Thread>, s: Store, fns: map<string, Entry>)
    returns (n: nat)
    requires Steps(host, r, n0) == Go(t, rest, s, fns)
    requires At(t.code, t.pc, [Op(XMark)] + CodeW(w) + [Op(XGlob)])
    ensures n > n0
    ensures var ws := Eval(w, s);
            Steps(host, r, n) == ListRun(if ws.None? then None else Some(GlobWords(host, s.world, ws.value)),
                                         2 + |CodeW(w)|, t, rest, s, fns)
  {
    hide Steps;
    hide At;
    hide CodeW;
    hide Eval;
    hide GlobWords;
    var head := [Op(XMark)] + CodeW(w);
    AtSplit(t.code, t.pc, head, [Op(XGlob)]);
    AtCell(t.code, t.pc + |head|, [Op(XGlob)], 0);
    n := MarkedWord(host, w, r, n0, t, rest, s, fns);
    if Eval(w, s).Some? {
      var t1 := After(t, |head|).(argv := [Eval(w, s).value] + t.argv);
      assert t1.argv[1..] == t.argv;
      OnGlob(host, r, n, t1, rest, s, fns);
      n := n + 1;
    }
  }

  /** The file of a redirection, and the routine that opens it. */
  lemma OpenCorrect(
      host: Host, kind: RedirKind, fd: nat, file: Word, s: Store, r: Run, n0: nat, t: Thread, rest: seq<Thread>,
      fns: map<string, Entry>)
    returns (n: nat)
    requires Steps(host, r, n0) == Go(t, rest, s, fns)
    requires At(t.code, t.pc, [Op(XMark)] + CodeW(file) + [Op(XGlob), Op(RedirOp(kind)), Int(fd)])
    ensures n > n0
    ensures Steps(host, r, n) ==
      match Eval(file, s)
      case None => Aborted(Failed(s))
      case Some(ws) =>
        match OpenRedir(host, kind, fd, GlobWords(host, s.world, ws), s)
        case None => Aborted(Failed(s))
        case Some(s1) => Go(After(t, |CodeW(file)| + 4), rest, s1, fns)
  {
    hide Steps;
    hide At;
    hide CodeW;
    hide Eval;
    hide GlobWords;
    hide OpenRedir;
    var words, open := [Op(XMark)] + CodeW(file) + [Op(XGlob)], [Op(RedirOp(kind)), Int(fd)];
    assert [Op(XMark)] + CodeW(file) + [Op(XGlob), Op(RedirOp(kind)), Int(fd)] == words + open;
    AtSplit(t.code, t.pc, words, open);
    AtPair(t.code, t.pc + |words|, open[0], open[1]);
    n := GlobbedWord(host, file, r, n0, t, rest, s, fns);
    if Eval(file, s).Some? {
      var ws := GlobWords(host, s.world, Eval(file, s).value);
      var t1 := After(t, |words|).(argv := [ws] + t.argv);
      assert t1.argv[1..] == t.argv;
      OnOpen(host, r, n, t1, rest, s, fns, kind);
      n := n + 1;
    }
  }

  lemma {:induction false} RedirectCorrect(
      host: Host, c: Cmd, e: bool, s: State, fuel: nat, r: Run, n0: nat, t: Thread, rest: seq<Thread>,
      fns: map<string, Entry>)
    returns (n: nat, fns': map<string, Entry>)
    requires c.Redirect?
    requires Ready(host, r, n0, s, CodeC(c, e, t.pc), t, rest, fns)
    ensures Follows(host, r, n0, n, Exec(host, c, e, s, fuel), fuel, After(t, |CodeC(c, e, t.pc)|), rest, fns')
    decreases fuel, c, 0, 0
  {
    hide Steps;
    hide At;
    hide FnsRel;
    hide CodeW;
    hide Eval;
    hide GlobWords;
    hide CodeC;
    hide Exec;
    hide CodeScoped;
    hide OpenRedir;
    hide Follows;
    RedirectShape(host, c, e, s, fuel, t.pc);
    var end := After(t, |CodeC(c, e, t.pc)|);
    var open := [Op(XMark)] + CodeW(c.file) + [Op(XGlob), Op(RedirOp(c.kind)), Int(c.fd)];
    AtSplit(t.code, t.pc, open, CodeScoped(c.body, e, t.pc + |open|));
    n := OpenCorrect(host, c.kind, c.fd, c.file, s.store, r, n0, t, rest, fns);
    fns' := fns;
    var ws := Eval(c.file, s.store);
    var store := if ws.None? then None else OpenRedir(host, c.kind, c.fd,
        GlobWords(host, s.store.world, ws.value), s.store);
    if store.None? {
      FollowsAbort(host, r, n0, n, s.store, fuel, end, rest, fns);
    } else {
      OpenPushes(host, c.kind, c.fd, GlobWords(host, s.store.world, ws.value), s.store);
      var n1, s2 := n, s.(store := store.value);
      n, fns' := ScopedCorrect(host, c.body, e, s2, fuel, r, n1, After(t, |open|), rest, fns);
      FollowsLater(host, r, n0, n1, n, Unredirect(host, Exec(host, c.body, e, s2, fuel)), fuel, end, rest, fns');
    }
  }

  lemma OpenPushes(host: Host, kind: RedirKind, fd: int, files: Strings, s: Store)
    ensures var o := OpenRedir(host, kind, fd, files, s);
            o.Some? ==> |o.value.redirs| == |s.redirs| + 1 && o.value.locals == s.locals
  {}

  /** A command under a redirection, and the end of the redirection. */
  lemma {:induction false} ScopedCorrect(host: Host, body: Cmd, e: bool, s: State, fuel: nat, r: Run, n0: nat,
      t: Thread, rest: seq<Thread>, fns: map<string, Entry>)
    returns (n: nat, fns': map<string, Entry>)
    requires |s.store.redirs| > t.startredir
    requires Ready(host, r, n0, s, CodeScoped(body, e, t.pc), t, rest, fns)
    ensures Follows(host, r, n0, n, Unredirect(host, Exec(host, body, e, s, fuel)), fuel,
        After(t, |CodeScoped(body, e, t.pc)|), rest, fns')
    decreases fuel, body, 2, 0
  {
    hide Steps;
    hide At;
    hide FnsRel;
    hide Exec;
    hide CodeC;
    var code := CodeC(body, e, t.pc);
    AtSplit(t.code, t.pc, code, [Op(XPopredir)]);
    AtCell(t.code, t.pc + |code|, [Op(XPopredir)], 0);
    n, fns' := CmdCorrect(host, body, e, s, fuel, r, n0, t, rest, fns);
    var o := Exec(host, body, e, s, fuel);
    if o.Done? {
      ExecFrame(host, body, e, s, fuel);
      OnPopredir(host, r, n, After(t, |code|), rest, o.s.store, fns');
      n := n + 1;
    }
  }

  function FdHead(c: Cmd): seq<Cell>
    requires c.DupFd? || c.CloseFd?
  {
    if c.DupFd? then [Op(XDup), Int(c.fd0), Int(c.fd1)] else [Op(XClose), Int(c.fd)]
  }

  /** A redirection without a file is pushed. */
  lemma FdOpens(
      host: Host, c: Cmd, r: Run, n: nat, t: Thread, rest: seq<Thread>, s: Store, fns: map<string, Entry>)
    requires c.DupFd? || c.CloseFd?
    requires Steps(host, r, n) == Go(t, rest, s, fns) && At(t.code, t.pc, FdHead(c))
    ensures Steps(host, r, n + 1) ==
            Go(After(t, |FdHead(c)|), rest,
               PushRedir(s, if c.DupFd? then RDup(c.fd0, c.fd1) else RClose(c.fd)), fns)
  {
    hide Steps;
    hide At;
    var head := FdHead(c);
    AtCell(t.code, t.pc, head, 0);
    AtCell(t.code, t.pc, head, 1);
    AtCell(t.code, t.pc, head, |head| - 1);
    if c.DupFd? {
      OnDup(host, r, n, t, rest, s, fns);
    } else {
      OnClose(host, r, n, t, rest, s, fns);
    }
  }

  lemma {:induction false} FdCorrect(host: Host, c: Cmd, e: bool, s: State, fuel: nat, r: Run, n0: nat,
      t: Thread, rest: seq<Thread>, fns: map<string, Entry>)
    returns (n: nat, fns': map<string, Entry>)
    requires c.DupFd? || c.CloseFd?
    requires Ready(host, r, n0, s, CodeC(c, e, t.pc), t, rest, fns)
    ensures Follows(host, r, n0, n, Exec(host, c, e, s, fuel), fuel, After(t, |CodeC(c, e, t.pc)|), rest, fns')
    decreases fuel, c, 0, 0
  {
    hide Steps;
    hide At;
    hide FnsRel;
    hide CodeC;
    hide Exec;
    hide CodeScoped;
    hide FdHead;
    hide Follows;
    hide Unredirect;
    var head := FdHead(c);
    var s1 := s.(store := PushRedir(s.store, if c.DupFd? then RDup(c.fd0, c.fd1) else RClose(c.fd)));
    FdShape(host, c, e, s, fuel, t.pc);
    AtSplit(t.code, t.pc, head, CodeScoped(c.body, e, t.pc + |head|));
    FdOpens(host, c, r, n0, t, rest, s.store, fns);
    n, fns' := ScopedCorrect(host, c.body, e, s1, fuel, r, n0 + 1, After(t, |head|), rest, fns);
    FollowsLater(host, r, n0, n0 + 1, n, Unredirect(host, Exec(host, c.body, e, s1, fuel)), fuel,
                 After(t, |CodeC(c, e, t.pc)|), rest, fns');
  }

  /** The value and the name of a binding, and the routine that makes it. */
  lemma {:induction false} BindingCorrect(host: Host, name: Word, value: Word, isLocal: bool, s: Store,
      r: Run, n0: nat, t: Thread, rest: seq<Thread>, fns: map<string, Entry>)
    returns (n: nat)
    requires Steps(host, r, n0) == Go(t, rest, s, fns)
    requires At(t.code, t.pc, CodeBinding(name, value) + [Op(if isLocal then XLocal else XAssign)])
    ensures n > n0
    ensures Steps(host, r, n) ==
      match Binding(host, name, value, s)
      case None => Aborted(Failed(s))
      case Some(b) =>
        Go(After(t, |CodeBinding(name, value)| + 1), rest,
           if isLocal then PushLocal(s, b.name, b.val) else SetVar(s, b.name, b.val), fns)
  {
    hide Steps;
    hide CodeW;
    hide Eval;
    hide GlobWords;
    hide SetVar;
    var op := if isLocal then XLocal else XAssign;
    var words := CodeBinding(name, value);
    AtSplit(t.code, t.pc, words, [Op(op)]);
    AtCell(t.code, t.pc + |words|, [Op(op)], 0);
    n := TwoWords(host, Caret(name, value), value, name, r, n0, t, rest, s, fns);
    if Eval(value, s).Some? && Eval(name, s).Some? {
      var t1 := After(t, |words|).(argv := [Eval(name, s).value, Eval(value, s).value] + t.argv);
      assert t1.argv[2..] == t.argv;
      if isLocal {
        OnLocal(host, r, n, t1, rest, s, fns);
      } else {
        OnAssign(host, r, n, t1, rest, s, fns);
      }
      n := n + 1;
    }
  }

  lemma {:induction false} GlobalsCorrect(host: Host, c: Cmd, e: bool, s: State, fuel: nat, r: Run, n0: nat,
      t: Thread, rest: seq<Thread>, fns: map<string, Entry>)
    returns (n: nat, fns': map<string, Entry>)
    requires Ready(host, r, n0, s, CodeGlobals(c), t, rest, fns)
    ensures Follows(host, r, n0, n, ExecGlobals(host, c, s), fuel, After(t, |CodeGlobals(c)|), rest, fns')
    decreases c
  {
    hide Steps;
    hide At;
    hide FnsRel;
    hide Binding;
    hide CodeBinding;
    hide SetVar;
    n, fns' := n0, fns;
    if c.Assign? {
      var head := CodeBinding(c.name, c.value) + [Op(XAssign)];
      AtSplit(t.code, t.pc, head, CodeGlobals(c.rest));
      n := BindingCorrect(host, c.name, c.value, false, s.store, r, n0, t, rest, fns);
      match Binding(host, c.name, c.value, s.store) {
        case None =>
        case Some(b) =>
          OwnsSetVar(t, s.store, b.name, b.val);
          n, fns' := GlobalsCorrect(host, c.rest, e, s.(store := SetVar(s.store, b.name, b.val)), fuel,
                                    r, n, After(t, |head|), rest, fns);
      }
    }
  }

  lemma LocalsShape(host: Host, c: Cmd, e: bool, s: State, fuel: nat, at: nat)
    ensures !c.Assign? ==> CodeLocals(c, e, at) == CodeC(c, e, at)
    ensures !c.Assign? ==> ExecLocals(host, c, e, s, fuel) == Exec(host, c, e, s, fuel)
    ensures c.Assign? ==> (
              var head := CodeBinding(c.name, c.value) + [Op(XLocal)];
              CodeLocals(c, e, at) == head + CodeLocals(c.rest, e, at + |head|) + [Op(XUnlocal)])
    ensures c.Assign? ==> (ExecLocals(host, c, e, s, fuel) ==
                           match Binding(host, c.name, c.value, s.store)
                           case None => Abort(Failed(s.store))
                           case Some(b) =>
                             Unlocal(ExecLocals(host, c.rest, e, s.(store := PushLocal(s.store, b.name, b.val)), fuel)))
  {
    hide CodeC;
    hide Exec;
    hide Binding;
    hide CodeBinding;
  }

  lemma {:induction false} LocalsCorrect(host: Host, c: Cmd, e: bool, s: State, fuel: nat, r: Run, n0: nat,
      t: Thread, rest: seq<Thread>, fns: map<string, Entry>)
    returns (n: nat, fns': map<string, Entry>)
    requires Ready(host, r, n0, s, CodeLocals(c, e, t.pc), t, rest, fns)
    ensures Follows(host, r, n0, n, ExecLocals(host, c, e, s, fuel), fuel, After(t, |CodeLocals(c, e, t.pc)|),
        rest, fns')
    decreases fuel, c, if c.Assign? then 0 else 2, 0
  {
    hide Steps;
    hide At;
    hide FnsRel;
    hide Binding;
    hide CodeBinding;
    hide CodeLocals;
    hide ExecLocals;
    hide CodeC;
    hide Exec;
    LocalsShape(host, c, e, s, fuel, t.pc);
    if !c.Assign? {
      n, fns' := CmdCorrect(host, c, e, s, fuel, r, n0, t, rest, fns);
    } else {
      var head := CodeBinding(c.name, c.value) + [Op(XLocal)];
      var inner := CodeLocals(c.rest, e, t.pc + |head|);
      AtSplit3(t.code, t.pc, head, inner, [Op(XUnlocal)]);
      AtCell(t.code, t.pc + |head| + |inner|, [Op(XUnlocal)], 0);
      n := BindingCorrect(host, c.name, c.value, true, s.store, r, n0, t, rest, fns);
      fns' := fns;
      match Binding(host, c.name, c.value, s.store) {
        case None =>
        case Some(b) =>
          var s1 := s.(store := PushLocal(s.store, b.name, b.val));
          var n1 := n;
          hide Follows;
          n, fns' := LocalsCorrect(host, c.rest, e, s1, fuel, r, n1, After(t, |head|), rest, fns);
          var o := ExecLocals(host, c.rest, e, s1, fuel);
          LocalsFrame(host, c.rest, e, s1, fuel);
          n := FollowsUnlocal(host, r, n0, n1, n, s1.store, o, fuel, After(t, |head| + |inner|), rest, fns');
      }
    }
  }

  /** The list of a for loop, pushed as a list of its own. */
  lemma {:induction false} ForListCorrect(host: Host, list: Word, s: Store, r: Run, n0: nat, t: Thread,
      rest: seq<Thread>, fns: map<string, Entry>)
    returns (n: nat)
    requires Steps(host, r, n0) == Go(t, rest, s, fns)
    requires At(t.code, t.pc, [Op(XMark)] + ForList(list))
    ensures n > n0
    ensures Steps(host, r, n) == ListRun(LoopWords(host, list, s), 1 + |ForList(list)|, t, rest, s, fns)
  {
    hide Steps;
    hide At;
    hide GlobWords;
    if list.NoWord? {
      hide DollarValue;
      hide CodeW;
      hide Eval;
      StarWord(s);
      n := MarkedWord(host, Dollar(Lit("*", false)), r, n0, t, rest, s, fns);
    } else {
      hide CodeW;
      hide Eval;
      assert [Op(XMark)] + ForList(list) == [Op(XMark)] + CodeW(list) + [Op(XGlob)];
      n := GlobbedWord(host, list, r, n0, t, rest, s, fns);
    }
  }

  /** Without a list a for loop runs over $*. */
  lemma StarWord(s: Store)
    ensures CodeW(Dollar(Lit("*", false))) == [Op(XMark), Op(XWord), Str("*"), Op(XDol)]
    ensures Eval(Dollar(Lit("*", false)), s) == Some(DollarValue(s, "*"))
  {
    hide DollarValue;
    assert "*"[1..] == [];
    assert Deglob("*") == ['*'] + Deglob([]) == "*";
    assert Eval(Lit("*", false), s) == Some(["*"]);
  }

  lemma LoopLayout(code: seq<Cell>, pc: nat, body: Cmd, e: bool)
    requires At(code, pc, CodeLoop(body, e, pc))
    ensures var len := |CodeC(body, e, pc + 2)|;
            && |CodeLoop(body, e, pc)| == len + 4 && pc + len + 4 <= |code|
            && code[pc] == Op(XFor) && code[pc + 1] == Int(pc + 2 + len + 2)
            && At(code, pc + 2, CodeC(body, e, pc + 2))
            && code[pc + 2 + len] == Op(XJump) && code[pc + 2 + len + 1] == Int(pc)
  {
    hide CodeC;
    hide At;
    var cells := CodeC(body, e, pc + 2);
    var head, back := [Op(XFor), Int(pc + 2 + |cells| + 2)], [Op(XJump), Int(pc)];
    AtSplit3(code, pc, head, cells, back);
    AtPair(code, pc, head[0], head[1]);
    AtPair(code, pc + 2 + |cells|, back[0], back[1]);
  }

  lemma LoopShape(host: Host, ws: Strings, body: Cmd, e: bool, s: State, fuel: nat)
    ensures ExecFor(host, ws, body, e, s, fuel) ==
            if ws == [] then Done(s)
            else
              var o := Exec(host, body, e, s.(store := SetTop(s.store, [ws[0]])), fuel);
              if o.Done? then ExecFor(host, ws[1..], body, e, o.s, fuel) else o
  {
    hide Exec;
    hide SetTop;
  }

  /** The loop itself: its list is on top of the stack, its variable on top of the locals. */
  lemma {:induction false} ForLoopCorrect(
      host: Host, body: Cmd, ws: Strings, e: bool, s: State, fuel: nat, r: Run, n0: nat, t: Thread, rest: seq<Thread>,
      fns: map<string, Entry>)
    returns (n: nat, fns': map<string, Entry>)
    requires t.argv != [] && t.argv[0] == ws && s.store.locals != []
    requires Ready(host, r, n0, s, CodeLoop(body, e, t.pc), t, rest, fns)
    ensures Follows(host, r, n0, n, ExecFor(host, ws, body, e, s, fuel), fuel,
                    After(t, |CodeLoop(body, e, t.pc)|).(argv := t.argv[1..]), rest, fns')
    decreases fuel, body, 2, |ws|
  {
    hide Steps;
    hide At;
    hide FnsRel;
    hide Exec;
    hide CodeC;
    hide CodeLoop;
    hide SameFrame;
    hide ExecFor;
    LoopLayout(t.code, t.pc, body, e);
    LoopShape(host, ws, body, e, s, fuel);
    OnFor(host, r, n0, t, rest, s.store, fns);
    n, fns' := n0 + 1, fns;
    if ws != [] {
      var s1 := s.(store := SetTop(s.store, [ws[0]]));
      var t1 := t.(argv := [ws[1..]] + t.argv[1..]);
      assert Ready(host, r, n, s1, CodeC(body, e, t.pc + 2), After(t1, 2), rest, fns);
      hide Follows;
      n, fns' := LoopTurnCorrect(host, body, e, s1, fuel, r, n, t1, rest, fns);
      var o := Exec(host, body, e, s1, fuel);
      var n1 := n;
      if o.Done? {
        ExecFrame(host, body, e, s1, fuel);
        FrameSize(s1.store, o.s.store);
        FollowsReady(host, r, n0 + 1, n, o, fuel, CodeLoop(body, e, t.pc), t1, rest, fns');
        n, fns' := ForLoopCorrect(host, body, ws[1..], e, o.s, fuel, r, n, t1, rest, fns');
        FollowsLater(host, r, n0, n1, n, ExecFor(host, ws[1..], body, e, o.s, fuel), fuel,
                     After(t, |CodeLoop(body, e, t.pc)|).(argv := t.argv[1..]), rest, fns');
      } else {
        FollowsElsewhere(host, r, n0, n0 + 1, n, o, fuel, t1,
                         After(t, |CodeLoop(body, e, t.pc)|).(argv := t.argv[1..]), rest, fns');
      }
    }
  }

  /** The body of a for loop, and the jump back to its start. */
  lemma {:induction false} LoopTurnCorrect(
      host: Host, body: Cmd, e: bool, s: State, fuel: nat, r: Run, n0: nat, t: Thread, rest: seq<Thread>,
      fns: map<string, Entry>)
    returns (n: nat, fns': map<string, Entry>)
    requires Ready(host, r, n0, s, CodeC(body, e, t.pc + 2), After(t, 2), rest, fns)
    requires At(t.code, t.pc, CodeLoop(body, e, t.pc))
    ensures Follows(host, r, n0, n, Exec(host, body, e, s, fuel), fuel, t, rest, fns')
    decreases fuel, body, 2, 0
  {
    hide Steps;
    hide At;
    hide FnsRel;
    hide Exec;
    hide CodeC;
    hide Follows;
    hide CodeLoop;
    LoopLayout(t.code, t.pc, body, e);
    var code := CodeC(body, e, t.pc + 2);
    n, fns' := CmdCorrect(host, body, e, s, fuel, r, n0, After(t, 2), rest, fns);
    n := FollowsJump(host, r, n0, n, Exec(host, body, e, s, fuel), fuel, After(t, 2 + |code|), t.pc, rest, fns');
  }

  /** An end of the run does not depend on where it would have gone on. */
  lemma FollowsElsewhere(
      host: Host, r: Run, n0: nat, n1: nat, n: nat, o: Outcome, fuel: nat, t: Thread, t': Thread, rest: seq<Thread>,
      fns: map<string, Entry>)
    requires n0 <= n1 && Follows(host, r, n1, n, o, fuel, t, rest, fns) && !o.Done?
    ensures Follows(host, r, n0, n, o, fuel, t', rest, fns)
  {
    hide Steps;
    hide FnsRel;
  }

  lemma FrameSize(a: Store, b: Store)
    requires SameFrame(a, b)
    ensures |a.locals| == |b.locals| && a.redirs == b.redirs
  {}

  /** What follows, followed by the end of a local. */
  lemma FollowsUnlocal(
      host: Host, r: Run, n0: nat, n1: nat, n: nat, s: Store, o: Outcome, fuel: nat, t: Thread, rest: seq<Thread>,
      fns: map<string, Entry>)
    returns (n': nat)
    requires n0 <= n1 && Follows(host, r, n1, n, o, fuel, t, rest, fns)
    requires |s.locals| > t.below && (o.Done? ==> SameFrame(s, o.s.store))
    requires t.pc < |t.code| && t.code[t.pc] == Op(XUnlocal)
    ensures Follows(host, r, n0, n', Unlocal(o), fuel, After(t, 1), rest, fns)
  {
    hide Steps;
    hide FnsRel;
    n' := n;
    if o.Done? {
      OnUnlocal(host, r, n, t, rest, o.s.store, fns);
      n' := n + 1;
    }
  }

  /** An empty list and a name, bound as a local. */
  lemma {:induction false} LoopVariable(host: Host, name: Word, s: Store, r: Run, n0: nat, t: Thread,
      rest: seq<Thread>, fns: map<string, Entry>)
    returns (n: nat)
    requires Steps(host, r, n0) == Go(t, rest, s, fns)
    requires At(t.code, t.pc, CodeVariable(name))
    ensures n > n0
    ensures Steps(host, r, n) ==
      match NameOf(Eval(name, s))
      case None => Aborted(Failed(s))
      case Some(v) => Go(After(t, |CodeVariable(name)|), rest, PushLocal(s, v, []), fns)
  {
    hide CodeW;
    NoValue(name);
    assert CodeBinding(name, NoWord) + [Op(XLocal)] == CodeVariable(name);
    n := BindingCorrect(host, name, NoWord, true, s, r, n0, t, rest, fns);
    assert Eval(NoWord, s) == Some([]);
    assert GlobWords(host, s.world, []) == [];
  }

  lemma NoValue(name: Word)
    ensures CodeBinding(name, NoWord) == [Op(XMark), Op(XMark)] + CodeW(name)
  {}

  lemma {:induction false} ForCorrect(host: Host, c: Cmd, e: bool, s: State, fuel: nat, r: Run, n0: nat,
      t: Thread, rest: seq<Thread>, fns: map<string, Entry>)
    returns (n: nat, fns': map<string, Entry>)
    requires c.For?
    requires Ready(host, r, n0, s, CodeC(c, e, t.pc), t, rest, fns)
    ensures Follows(host, r, n0, n, Exec(host, c, e, s, fuel), fuel, After(t, |CodeC(c, e, t.pc)|), rest, fns')
    decreases fuel, c, 0, 0
  {
    hide Steps;
    hide At;
    hide FnsRel;
    hide CodeC;
    hide Exec;
    hide ExecFor;
    hide CodeVariable;
    hide Eval;
    hide LoopWords;
    hide CodeLoop;
    hide ForList;
    var list, name := [Op(XMark)] + ForList(c.list), CodeVariable(c.name);
    var loop := CodeLoop(c.body, e, t.pc + |list| + |name|);
    ForShape(host, c, e, s, fuel, t.pc);
    AtSplit4(t.code, t.pc, list, name, loop, [Op(XUnlocal)]);
    AtCell(t.code, t.pc + |list| + |name| + |loop|, [Op(XUnlocal)], 0);
    n := ForListCorrect(host, c.list, s.store, r, n0, t, rest, fns);
    fns' := fns;
    var ws, v := LoopWords(host, c.list, s.store), NameOf(Eval(c.name, s.store));
    if ws.Some? {
      var t1 := After(t, |list|).(argv := [ws.value] + t.argv);
      n := LoopVariable(host, c.name, s.store, r, n, t1, rest, fns);
      if v.Some? {
        var bound := s.(store := PushLocal(s.store, v.value, []));
        var n1 := n;
        hide Follows;
        n, fns' := ForLoopCorrect(host, c.body, ws.value, e, bound, fuel, r, n1, After(t1, |name|), rest, fns);
        var o := ExecFor(host, ws.value, c.body, e, bound, fuel);
        ForFrame(host, ws.value, c.body, e, bound, fuel);
        assert t1.argv[1..] == t.argv;
        n := FollowsUnlocal(host, r, n0, n1, n, bound.store, o, fuel, After(t, |list| + |name| + |loop|), rest, fns');
      }
    }
  }

  /** The patterns of a case, pushed in front of the top list. */
  lemma {:induction false} ArgsCorrect(host: Host, w: Word, r: Run, n0: nat, t: Thread, rest: seq<Thread>,
      s: Store, fns: map<string, Entry>)
    returns (n: nat)
    requires Steps(host, r, n0) == Go(t, rest, s, fns)
    requires t.argv != [] && At(t.code, t.pc, CodeArgs(w))
    ensures n >= n0
    ensures Steps(host, r, n) == WordRun(EvalArgs(w, s), |CodeArgs(w)|, t, rest, s, fns)
    decreases w
  {
    hide Steps;
    hide CodeW;
    hide Eval;
    n := n0;
    if w.ArgList? {
      AtSplit(t.code, t.pc, CodeW(w.last), CodeArgs(w.init));
      n := WordCorrect(host, w.last, r, n0, t, rest, s, fns);
      if Eval(w.last, s).Some? {
        var right := Eval(w.last, s).value;
        var t1 := t.(pc := t.pc + |CodeW(w.last)|, argv := [right + t.argv[0]] + t.argv[1..]);
        n := ArgsCorrect(host, w.init, r, n, t1, rest, s, fns);
        if EvalArgs(w.init, s).Some? {
          var left := EvalArgs(w.init, s).value;
          assert left + (right + t.argv[0]) == (left + right) + t.argv[0];
        }
      }
    } else {
      assert [] + t.argv[0] == t.argv[0];
      assert [t.argv[0]] + t.argv[1..] == t.argv;
    }
  }

  /** A mark, then code for a list of arguments. */
  lemma MarkedArgs(
      host: Host, args: Word, r: Run, n0: nat, t: Thread, rest: seq<Thread>, s: Store, fns: map<string, Entry>)
    returns (n: nat)
    requires Steps(host, r, n0) == Go(t, rest, s, fns)
    requires At(t.code, t.pc, [Op(XMark)] + CodeArgs(args))
    ensures n > n0
    ensures Steps(host, r, n) == ListRun(EvalArgs(args, s), 1 + |CodeArgs(args)|, t, rest, s, fns)
  {
    hide Steps;
    hide At;
    hide CodeArgs;
    hide EvalArgs;
    AtSplit(t.code, t.pc, [Op(XMark)], CodeArgs(args));
    AtCell(t.code, t.pc, [Op(XMark)], 0);
    OnMark(host, r, n0, t, rest, s, fns);
    var t1 := After(t, 1).(argv := [[]] + t.argv);
    n := ArgsCorrect(host, args, r, n0 + 1, t1, rest, s, fns);
    assert t1.argv[1..] == t.argv;
    if EvalArgs(args, s).Some? {
      assert EvalArgs(args, s).value + [] == EvalArgs(args, s).value;
    }
  }

  /** The head of a clause: on a match fall through, otherwise go to the next one. */
  lemma {:induction false} CaseHeadCorrect(host: Host, args: Word, next: nat, r: Run, n0: nat, t: Thread,
      rest: seq<Thread>, s: Store, fns: map<string, Entry>)
    returns (n: nat)
    requires Steps(host, r, n0) == Go(t, rest, s, fns)
    requires t.argv != [] && At(t.code, t.pc, [Op(XMark)] + CodeArgs(args) + [Op(XCase), Int(next)])
    ensures n > n0
    ensures Steps(host, r, n) ==
      match EvalArgs(args, s)
      case None => Aborted(Failed(s))
      case Some(ps) =>
        Go(t.(pc := if AnyMatch(Spaced(t.argv[0]), ps) then t.pc + |CodeArgs(args)| + 3 else next), rest, s, fns)
  {
    hide Steps;
    hide At;
    hide CodeArgs;
    hide EvalArgs;
    hide AnyMatch;
    hide Spaced;
    var head, jump := [Op(XMark)] + CodeArgs(args), [Op(XCase), Int(next)];
    AtSplit(t.code, t.pc, head, jump);
    AtPair(t.code, t.pc + |head|, jump[0], jump[1]);
    n := MarkedArgs(host, args, r, n0, t, rest, s, fns);
    if EvalArgs(args, s).Some? {
      var ps := EvalArgs(args, s).value;
      CaseTest(host, next, ps, r, n, After(t, |head|).(argv := [ps] + t.argv), rest, s, fns, t.argv);
      n := n + 1;
    }
  }

  /** The test of a clause, with its patterns over the subject. */
  lemma CaseTest(host: Host, next: nat, ps: Strings, r: Run, n: nat, t: Thread, rest: seq<Thread>, s: Store,
      fns: map<string, Entry>, argv: seq<Strings>)
    requires Stands(host, r, n, t, rest, s, fns, XCase) && t.argv == [ps] + argv && argv != []
    requires t.pc + 1 < |t.code| && t.code[t.pc + 1] == Int(next)
    ensures Steps(host, r, n + 1) ==
            Go(t.(pc := if AnyMatch(Spaced(argv[0]), ps) then t.pc + 2 else next, argv := argv), rest, s, fns)
  {
    hide Steps;
    hide AnyMatch;
    hide Spaced;
    OnCase(host, r, n, t, rest, s, fns);
    assert t.argv[1..] == argv;
  }

  /** The commands of one clause. */
  lemma {:induction false} ClauseCorrect(host: Host, c: Cmd, e: bool, s: State, fuel: nat, r: Run, n0: nat,
      t: Thread, rest: seq<Thread>, fns: map<string, Entry>)
    returns (n: nat, fns': map<string, Entry>)
    requires Ready(host, r, n0, s, CodeClause(c, e, t.pc), t, rest, fns)
    ensures Follows(host, r, n0, n, ExecClause(host, c, e, s, fuel), fuel, After(t, |CodeClause(c, e, t.pc)|),
        rest, fns')
    decreases fuel, c, 2, 0
  {
    hide Steps;
    hide At;
    hide FnsRel;
    hide Exec;
    hide CodeC;
    hide IsCase;
    n, fns' := n0, fns;
    if c.Seq? {
      if !IsCase(c.first) {
        var first := CodeC(c.first, e, t.pc);
        AtSplit(t.code, t.pc, first, CodeClause(c.second, e, t.pc + |first|));
        n, fns' := CmdCorrect(host, c.first, e, s, fuel, r, n0, t, rest, fns);
        var o := Exec(host, c.first, e, s, fuel);
        if o.Done? {
          n, fns' := ClauseCorrect(host, c.second, e, o.s, fuel, r, n, After(t, |first|), rest, fns');
        }
      }
    } else if !IsCase(c) {
      n, fns' := CmdCorrect(host, c, e, s, fuel, r, n0, t, rest, fns);
    }
  }

  /** One clause in a vector: its head, len cells long, its commands, the jump, the rest. */
  lemma CasesLayout(code: seq<Cell>, pc: nat, t: Cmd, out: nat, e: bool) returns (len: nat, next: nat)
    requires IsClause(t) && At(code, pc, CodeCases(t, e, pc, out))
    ensures len == |CodeArgs(t.first.args)| + 3
    ensures At(code, pc, [Op(XMark)] + CodeArgs(t.first.args) + [Op(XCase), Int(next)])
    ensures At(code, pc + len, CodeClause(t.second, e, pc + len) + [Op(XJump), Int(out)])
    ensures At(code, next, CodeCases(NextClause(t.second), e, next, out))
    ensures pc + |CodeCases(t, e, pc, out)| == next + |CodeCases(NextClause(t.second), e, next, out)|
  {
    hide CodeArgs;
    hide CodeClause;
    hide Head;
    hide At;
    var words := [Op(XMark)] + CodeArgs(t.first.args);
    len := |words| + 2;
    var body := CodeClause(t.second, e, pc + len);
    next := pc + len + |body| + 2;
    var head, jump := words + [Op(XCase), Int(next)], [Op(XJump), Int(out)];
    var others := CodeCases(NextClause(t.second), e, next, out);
    assert head + body + jump + others == head + (body + jump) + others;
    AtSplit3(code, pc, head, body + jump, others);
  }

  /** The clause that matched: its commands, the jump to `out` and the one to `leave`. */
  lemma {:induction false} ChosenCorrect(host: Host, c: Cmd, out: nat, leave: nat, e: bool, s: State,
      fuel: nat, r: Run, n0: nat, t: Thread, t0: Thread, rest: seq<Thread>, fns: map<string, Entry>)
    returns (n: nat, fns': map<string, Entry>)
    requires t0 == t.(pc := t0.pc)
    requires At(t.code, out, [Op(XJump), Int(leave)])
    requires Ready(host, r, n0, s, CodeClause(c, e, t.pc) + [Op(XJump), Int(out)], t, rest, fns)
    ensures Follows(host, r, n0, n, ExecClause(host, c, e, s, fuel), fuel, t0.(pc := leave), rest, fns')
    decreases fuel, c, 2, 1
  {
    hide Steps;
    hide At;
    hide FnsRel;
    hide CodeClause;
    hide ExecClause;
    hide Follows;
    var body := CodeClause(c, e, t.pc);
    AtSplit(t.code, t.pc, body, [Op(XJump), Int(out)]);
    AtPair(t.code, t.pc + |body|, Op(XJump), Int(out));
    AtPair(t.code, out, Op(XJump), Int(leave));
    n, fns' := ClauseCorrect(host, c, e, s, fuel, r, n0, t, rest, fns);
    var o := ExecClause(host, c, e, s, fuel);
    n := FollowsJump(host, r, n0, n, o, fuel, After(t, |body|), out, rest, fns');
    n := FollowsJump(host, r, n0, n, o, fuel, t.(pc := out), leave, rest, fns');
  }

  /** What follows, followed by a jump. */
  lemma FollowsJump(host: Host, r: Run, n0: nat, n: nat, o: Outcome, fuel: nat, t: Thread, to: nat,
      rest: seq<Thread>, fns: map<string, Entry>)
    returns (n': nat)
    requires Follows(host, r, n0, n, o, fuel, t, rest, fns)
    requires t.pc + 1 < |t.code| && t.code[t.pc] == Op(XJump) && t.code[t.pc + 1] == Int(to)
    ensures Follows(host, r, n0, n', o, fuel, t.(pc := to), rest, fns)
  {
    hide Steps;
    hide FnsRel;
    n' := n;
    if o.Done? {
      OnJump(host, r, n, t, rest, o.s.store, fns);
      n' := n + 1;
    }
  }

  /** The clauses.  Wherever they end, the machine gets to `leave`: a clause that ran
      jumps to `out`, where a jump to `leave` stands, and after the last clause comes `leave`. */
  lemma {:induction false} CasesCorrect(host: Host, c: Cmd, out: nat, leave: nat, e: bool, s: State,
      fuel: nat, r: Run, n0: nat, t: Thread, rest: seq<Thread>, fns: map<string, Entry>)
    returns (n: nat, fns': map<string, Entry>)
    requires t.argv != []
    requires At(t.code, out, [Op(XJump), Int(leave)])
    requires leave == t.pc + |CodeCases(c, e, t.pc, out)|
    requires Ready(host, r, n0, s, CodeCases(c, e, t.pc, out), t, rest, fns)
    ensures Follows(host, r, n0, n, ExecCases(host, c, Spaced(t.argv[0]), e, s, fuel), fuel,
        After(t, |CodeCases(c, e, t.pc, out)|), rest, fns')
    decreases fuel, c, 3, 0
  {
    hide Steps;
    hide At;
    hide FnsRel;
    hide CodeClause;
    hide ExecClause;
    hide EvalArgs;
    hide AnyMatch;
    hide CodeArgs;
    hide Spaced;
    hide CodeCases;
    hide ExecCases;
    hide Head;
    hide NextClause;
    CasesShape(host, c, Spaced(t.argv[0]), e, s, fuel);
    n, fns' := n0, fns;
    if IsClause(c) {
      var args := c.first.args;
      var len, next := CasesLayout(t.code, t.pc, c, out, e);
      n := CaseHeadCorrect(host, args, next, r, n0, t, rest, s.store, fns);
      if EvalArgs(args, s.store).Some? {
        if AnyMatch(Spaced(t.argv[0]), EvalArgs(args, s.store).value) {
          n, fns' := ChosenCorrect(host, c.second, out, leave, e, s, fuel, r, n, After(t, len), t, rest, fns);
        } else {
          n, fns' := CasesCorrect(host, NextClause(c.second), out, leave, e, s, fuel, r, n, t.(pc := next), rest, fns);
        }
      }
    }
  }

  lemma SwitchLayout(code: seq<Cell>, pc: nat, c: Cmd, e: bool)
    requires c.Switch? && HasCase(c.block) && At(code, pc, CodeC(c, e, pc))
    ensures var head := [Op(XMark)] + CodeW(c.value);
            var out := pc + |head| + 2;
            var cases := CodeCases(Clauses(c.block), e, out + 2, out);
            && |CodeC(c, e, pc)| == |head| + 4 + |cases| + 1
            && pc + |CodeC(c, e, pc)| <= |code|
            && At(code, pc, head)
            && code[pc + |head|] == Op(XJump) && code[pc + |head| + 1] == Int(out + 2)
            && At(code, out, [Op(XJump), Int(out + 2 + |cases|)])
            && At(code, out + 2, cases)
            && code[out + 2 + |cases|] == Op(XPopm)
  {
    hide CodeW;
    hide CodeCases;
    hide HasCase;
    hide Clauses;
    hide At;
    var head := [Op(XMark)] + CodeW(c.value);
    var out := pc + |head| + 2;
    var cases := CodeCases(Clauses(c.block), e, out + 2, out);
    var skip, leave := [Op(XJump), Int(out + 2)], [Op(XJump), Int(out + 2 + |cases|)];
    AtSplit(code, pc, head + skip + leave + cases, [Op(XPopm)]);
    AtSplit4(code, pc, head, skip, leave, cases);
    AtPair(code, pc + |head|, skip[0], skip[1]);
    AtCell(code, pc + |head| + 4 + |cases|, [Op(XPopm)], 0);
  }

  /** The value of a switch, and the jump to its clauses. */
  lemma SwitchOpens(
      host: Host, value: Word, first: nat, r: Run, n0: nat, t: Thread, rest: seq<Thread>, s: Store,
      fns: map<string, Entry>)
    returns (n: nat)
    requires Steps(host, r, n0) == Go(t, rest, s, fns)
    requires At(t.code, t.pc, [Op(XMark)] + CodeW(value))
    requires var jump := t.pc + 1 + |CodeW(value)|;
             jump + 1 < |t.code| && t.code[jump] == Op(XJump) && t.code[jump + 1] == Int(first)
    ensures n > n0
    ensures Steps(host, r, n) ==
      match Eval(value, s)
      case None => Aborted(Failed(s))
      case Some(ws) => Go(t.(pc := first, argv := [ws] + t.argv), rest, s, fns)
  {
    hide Steps;
    hide At;
    hide CodeW;
    hide Eval;
    n := MarkedWord(host, value, r, n0, t, rest, s, fns);
    if Eval(value, s).Some? {
      var t1 := After(t, 1 + |CodeW(value)|).(argv := [Eval(value, s).value] + t.argv);
      OnJump(host, r, n, t1, rest, s, fns);
      n := n + 1;
    }
  }

  lemma {:induction false} SwitchCorrect(host: Host, c: Cmd, e: bool, s: State, fuel: nat, r: Run, n0: nat,
      t: Thread, rest: seq<Thread>, fns: map<string, Entry>)
    returns (n: nat, fns': map<string, Entry>)
    requires c.Switch?
    requires Ready(host, r, n0, s, CodeC(c, e, t.pc), t, rest, fns)
    ensures Follows(host, r, n0, n, Exec(host, c, e, s, fuel), fuel, After(t, |CodeC(c, e, t.pc)|), rest, fns')
    decreases fuel, c, 0, 0
  {
    hide Steps;
    hide At;
    hide FnsRel;
    hide CodeW;
    hide Eval;
    hide CodeCases;
    hide ExecCases;
    hide HasCase;
    hide CodeC;
    hide Exec;
    hide Spaced;
    hide Clauses;
    SwitchShape(host, c, e, s, fuel, t.pc);
    n, fns' := n0, fns;
    hide Follows;
    var end := After(t, |CodeC(c, e, t.pc)|);
    if !HasCase(c.block) {
      FollowsHere(host, r, n0, n, s, fuel, end, rest, fns);
    } else {
      var head := [Op(XMark)] + CodeW(c.value);
      var out := t.pc + |head| + 2;
      var cases := CodeCases(Clauses(c.block), e, out + 2, out);
      SwitchLayout(t.code, t.pc, c, e);
      n := SwitchOpens(host, c.value, out + 2, r, n0, t, rest, s.store, fns);
      if Eval(c.value, s.store).None? {
        FollowsAbort(host, r, n0, n, s.store, fuel, end, rest, fns);
        return;
      }
      var ws := Eval(c.value, s.store).value;
      var t1 := t.(pc := out + 2, argv := [ws] + t.argv);
      ClausesSmaller(c);
      var n1 := n;
      n, fns' := CasesCorrect(host, Clauses(c.block), out, out + 2 + |cases|, e, s, fuel, r, n1, t1, rest, fns);
      var o := ExecCases(host, Clauses(c.block), Spaced(ws), e, s, fuel);
      n := FollowsPopm(host, r, n0, n1, n, o, fuel, After(t1, |cases|), t.argv, rest, fns');
    }
  }

  /** What follows, followed by the end of the value of a switch. */
  lemma FollowsPopm(
      host: Host, r: Run, n0: nat, n1: nat, n: nat, o: Outcome, fuel: nat, t: Thread, argv: seq<Strings>,
      rest: seq<Thread>, fns: map<string, Entry>)
    returns (n': nat)
    requires n0 <= n1 && Follows(host, r, n1, n, o, fuel, t, rest, fns)
    requires t.pc < |t.code| && t.code[t.pc] == Op(XPopm) && t.argv != [] && t.argv[1..] == argv
    ensures Follows(host, r, n0, n', o, fuel, t.(pc := t.pc + 1, argv := argv), rest, fns)
  {
    hide Steps;
    hide FnsRel;
    n' := n;
    if o.Done? {
      OnPopm(host, r, n, t, rest, o.s.store, fns);
      n' := n + 1;
    }
  }

  lemma FnRelAt(f: Closure, entry: Entry)
    requires At(entry.code, entry.pc, CodeFn(f.body, f.e, entry.pc))
    ensures FnRel(f, entry)
  {}

  /** Defining the same names in both tables keeps the tables in step. */
  lemma {:induction false} DefineRel(names: Strings, f: Closure, entry: Entry, fs: map<string, Closure>,
      fns: map<string, Entry>)
    requires FnsRel(fs, fns) && FnRel(f, entry)
    ensures FnsRel(Define(names, f, fs), Define(names, entry, fns))
    decreases |names|
  {
    hide FnRel;
    if names != [] {
      DefineRel(names[1..], f, entry, fs[names[0] := f], fns[names[0] := entry]);
    }
  }

  lemma UndefineRel(names: Strings, fs: map<string, Closure>, fns: map<string, Entry>)
    requires FnsRel(fs, fns)
    ensures FnsRel(Undefine(names, fs), Undefine(names, fns))
  {
    hide FnRel;
  }

  lemma {:induction false} FnCorrect(host: Host, c: Cmd, e: bool, s: State, fuel: nat, r: Run, n0: nat,
      t: Thread, rest: seq<Thread>, fns: map<string, Entry>)
    returns (n: nat, fns': map<string, Entry>)
    requires c.Fn?
    requires Ready(host, r, n0, s, CodeC(c, e, t.pc), t, rest, fns)
    ensures Follows(host, r, n0, n, Exec(host, c, e, s, fuel), fuel, After(t, |CodeC(c, e, t.pc)|), rest, fns')
  {
    hide Steps;
    hide At;
    hide CodeW;
    hide Eval;
    hide CodeC;
    hide Exec;
    hide CodeFn;
    hide FnsRel;
    hide Define;
    hide Undefine;
    FnShape(host, c, e, s, fuel, t.pc);
    FnLayout(t.code, t.pc, c, e);
    var head := [Op(XMark)] + CodeW(c.names);
    n := MarkedWord(host, c.names, r, n0, t, rest, s.store, fns);
    fns' := fns;
    if Eval(c.names, s.store).Some? {
      var ws := Eval(c.names, s.store).value;
      fns' := DefineCorrect(host, c, ws, e, s, r, n, After(t, |head|), t, rest, fns);
      n := n + 1;
    }
  }

  lemma FnLayout(code: seq<Cell>, pc: nat, c: Cmd, e: bool)
    requires c.Fn? && At(code, pc, CodeC(c, e, pc))
    ensures var head := [Op(XMark)] + CodeW(c.names);
            var len := |CodeFn(c.body, e, pc + |head| + 3)|;
            && At(code, pc, head)
            && pc + |CodeC(c, e, pc)| <= |code|
            && (c.body.Skip? ==> code[pc + |head|] == Op(XDelfn) && |CodeC(c, e, pc)| == |head| + 1)
            && (!c.body.Skip? ==>
                  && |CodeC(c, e, pc)| == |head| + 3 + len
                  && code[pc + |head|] == Op(XFn)
                  && code[pc + |head| + 1] == Int(pc + |CodeC(c, e, pc)|)
                  && At(code, pc + |head| + 3, CodeFn(c.body, e, pc + |head| + 3)))
  {
    hide CodeW;
    hide CodeFn;
    hide At;
    var head := [Op(XMark)] + CodeW(c.names);
    if c.body.Skip? {
      AtSplit(code, pc, head, [Op(XDelfn)]);
      AtCell(code, pc + |head|, [Op(XDelfn)], 0);
    } else {
      var body := CodeFn(c.body, e, pc + |head| + 3);
      var def := [Op(XFn), Int(pc + |head| + 3 + |body|), Text(c.body)];
      AtSplit3(code, pc, head, def, body);
      AtCell(code, pc + |head|, def, 0);
      AtCell(code, pc + |head|, def, 1);
      AtLength(code, pc + |head| + 3, body);
    }
  }

  lemma AtLength(code: seq<Cell>, pc: nat, cells: seq<Cell>)
    requires At(code, pc, cells)
    ensures pc + |cells| <= |code|
  {}

  /** The names are on the stack and the routine that defines or deletes them is next. */
  lemma DefineCorrect(host: Host, c: Cmd, ws: Strings, e: bool, s: State, r: Run, n: nat, t: Thread,
      t0: Thread, rest: seq<Thread>, fns: map<string, Entry>)
    returns (fns': map<string, Entry>)
    requires c.Fn? && FnsRel(s.fns, fns) && t == t0.(pc := t.pc)
    requires Steps(host, r, n) == Go(t.(argv := [ws] + t.argv), rest, s.store, fns)
    requires t.pc + 1 <= |t.code| && t.code[t.pc] == Op(if c.body.Skip? then XDelfn else XFn)
    requires !c.body.Skip? ==> t.pc + 1 < |t.code| && t.code[t.pc + 1].Int? && t.code[t.pc + 1].i >= 0
    requires !c.body.Skip? ==> At(t.code, t.pc + 3, CodeFn(c.body, e, t.pc + 3))
    ensures Steps(host, r, n + 1) ==
            Go(t0.(pc := if c.body.Skip? then t.pc + 1 else t.code[t.pc + 1].i), rest, s.store, fns')
    ensures FnsRel(if c.body.Skip? then Undefine(ws, s.fns)
                   else Define(GlobWords(host, s.store.world, ws), Closure(c.body, e), s.fns), fns')
  {
    hide Steps;
    hide At;
    hide GlobWords;
    hide CodeFn;
    hide FnsRel;
    hide Define;
    hide Undefine;
    var t1 := t.(argv := [ws] + t.argv);
    assert t1.argv[1..] == t.argv;
    if c.body.Skip? {
      OnDelfn(host, r, n, t1, rest, s.store, fns);
      UndefineRel(ws, s.fns, fns);
      fns' := Undefine(ws, fns);
    } else {
      OnFn(host, r, n, t1, rest, s.store, fns);
      var names, entry := GlobWords(host, s.store.world, ws), Entry(t.code, t.pc + 3);
      FnRelAt(Closure(c.body, e), entry);
      DefineRel(names, Closure(c.body, e), entry, s.fns, fns);
      fns' := Define(names, entry, fns);
    }
  }

  /** A thread that has given up all that was its own returns with the store as it is. */
  lemma ReturnsTo(host: Host, t: Thread, t': Thread, rest: seq<Thread>, s: Store, fns: map<string, Entry>)
    requires |s.locals| == t.below && |s.redirs| == t.startredir
    ensures XReturnOp(host, t, [t'] + rest, s, fns) == Go(t', rest, s, fns)
  {
    assert s.locals[0..] == s.locals;
  }

  /** A function body in its own thread: it pops its `*`, returns, and the caller goes on
      with the locals and redirections it had. */
  lemma {:induction false} CalleeCorrect(host: Host, f: Closure, s: State, fuel: nat, r: Run, n0: nat,
      callee: Thread, t: Thread, rest: seq<Thread>, fns: map<string, Entry>)
    returns (n: nat, fns': map<string, Entry>)
    requires |s.store.locals| == callee.below + 1 && |s.store.redirs| == callee.startredir
    requires t.below <= callee.below && t.startredir <= callee.startredir
    requires FnRel(f, Entry(callee.code, callee.pc))
    requires Steps(host, r, n0) == Go(callee, [t] + rest, s.store, fns) && FnsRel(s.fns, fns)
    ensures Follows(host, r, n0, n, Unlocal(Exec(host, f.body, f.e, s, fuel)), fuel, t, rest, fns')
    decreases fuel, f.body, 4, 0
  {
    hide Steps;
    hide At;
    hide FnsRel;
    hide Exec;
    hide CodeC;
    hide SameFrame;
    hide XReturnOp;
    var code, end := CodeC(f.body, f.e, callee.pc), [Op(XUnlocal), Op(XReturn)];
    AtSplit(callee.code, callee.pc, code, end);
    AtPair(callee.code, callee.pc + |code|, end[0], end[1]);
    n, fns' := CmdCorrect(host, f.body, f.e, s, fuel, r, n0, callee, [t] + rest, fns);
    var o := Exec(host, f.body, f.e, s, fuel);
    if o.Done? {
      ExecFrame(host, f.body, f.e, s, fuel);
      FrameSize(s.store, o.s.store);
      OnUnlocal(host, r, n, After(callee, |code|), [t] + rest, o.s.store, fns');
      var s1 := PopLocal(o.s.store);
      OnReturn(host, r, n + 1, After(callee, |code| + 1), [t] + rest, s1, fns');
      ReturnsTo(host, After(callee, |code| + 2), t, rest, s1, fns');
      n := n + 2;
    }
  }

  lemma {:induction false} CallCorrect(host: Host, args: Word, e: bool, s: State, fuel: nat, r: Run, n0: nat,
      t: Thread, rest: seq<Thread>, fns: map<string, Entry>)
    returns (n: nat, fns': map<string, Entry>)
    requires Ready(host, r, n0, s, CodeC(Simple(args), e, t.pc), t, rest, fns)
    ensures Follows(host, r, n0, n, ExecCall(host, args, e, s, fuel), fuel,
        After(t, |CodeC(Simple(args), e, t.pc)|), rest, fns')
    decreases fuel, Simple(args), 0, 1
  {
    hide Steps;
    hide At;
    hide FnsRel;
    hide CodeW;
    hide Eval;
    hide GlobWords;
    hide Eflag;
    hide EflagTest;
    hide Follows;
    hide CodeC;
    hide ExecCommand;
    SimpleCode(args, e, t.pc);
    var head := [Op(XMark)] + CodeW(args);
    var end := After(t, |head| + 1 + |EflagTest(e)|);
    AtSplit3(t.code, t.pc, head, [Op(XSimple)], EflagTest(e));
    AtCell(t.code, t.pc + |head|, [Op(XSimple)], 0);
    n := MarkedWord(host, args, r, n0, t, rest, s.store, fns);
    fns' := fns;
    if Eval(args, s.store).None? {
      FollowsAbort(host, r, n0, n, s.store, fuel, end, rest, fns);
      return;
    }
    var raw := Eval(args, s.store).value;
    var ws := GlobWords(host, s.store.world, raw);
    var t1 := After(t, |head|).(argv := [raw] + t.argv);
    assert t1.argv[1..] == t.argv;
    OnSimple(host, r, n, t1, rest, s.store, fns);
    n := n + 1;
    if ws == [] {
      FollowsAbort(host, r, n0, n, s.store, fuel, end, rest, fns);
      return;
    }
    var o: Outcome;
    var n1, t2 := n - 1, After(t, |head| + 1);
    n, fns', o := CommandCorrect(host, args, ws, s, fuel, r, n, t2, rest, fns);
    if o.Done? {
      FollowsReady(host, r, n1, n, o, fuel, EflagTest(e), t2, rest, fns');
      var n2 := n;
      n := EflagCorrect(host, e, o.s, fuel, r, n2, t2, rest, fns');
      FollowsLater(host, r, n0, n2, n, Eflag(host, e, o.s), fuel, end, rest, fns');
    } else {
      FollowsElsewhere(host, r, n0, n1, n, o, fuel, t2, end, rest, fns');
    }
  }

  lemma SimpleCode(args: Word, e: bool, at: nat)
    ensures CodeC(Simple(args), e, at) == [Op(XMark)] + CodeW(args) + [Op(XSimple)] + EflagTest(e)
  {
    hide CodeW;
  }

  /** A command of the host gives back the locals and redirections. */
  lemma HostFrame(host: Host, ws: Strings, s: State)
    ensures var o := ExecSimple(host, ws, s); o.Done? ==> SameFrame(s.store, o.s.store)
  {
    match host.run(ws, s.store)
    case Runs(sets, world) => SetVarsFrame(s.store.(world := world), sets);
    case _ =>
  }

  /** The routine for simple commands has just run, for a function or for the host. */
  lemma {:induction false} CommandCorrect(host: Host, args: Word, ws: Strings, s: State, fuel: nat, r: Run,
      n0: nat, t: Thread, rest: seq<Thread>, fns: map<string, Entry>)
    returns (n: nat, fns': map<string, Entry>, o: Outcome)
    requires ws != [] && n0 > 0 && FnsRel(s.fns, fns) && Owns(t, s.store)
    requires Steps(host, r, n0) ==
      if ws[0] in fns then Call(fns[ws[0]], ws[1..], t, rest, s.store, fns)
      else RunHost(host, ws, t, rest, s.store, fns)
    ensures o == ExecCommand(host, args, ws, s, fuel)
    ensures Follows(host, r, n0 - 1, n, o, fuel, t, rest, fns') && n0 <= n
    decreases fuel, Simple(args), 0, 0
  {
    hide Steps;
    hide Exec;
    hide CodeC;
    hide SetVars;
    o := ExecCommand(host, args, ws, s, fuel);
    n, fns' := n0, fns;
    if ws[0] in fns && fuel > 0 {
      var entry, f := fns[ws[0]], s.fns[ws[0]];
      var callee := Thread(entry.code, entry.pc, [], |s.store.locals|, |s.store.redirs|);
      var s1 := s.(store := PushLocal(s.store, "*", ws[1..]));
      n, fns' := CalleeCorrect(host, f, s1, fuel - 1, r, n0, callee, t, rest, fns);
    } else if ws[0] !in fns && o.Done? {
      HostFrame(host, ws, s);
      OwnsFrame(t, s.store, o.s.store);
    }
  }

  /** The first cell of a command that makes a second process. */
  lemma ForkShape(c: Cmd, e: bool, at: nat)
    requires c.Pipe? || c.Async? || c.Subshell?
    ensures var op := if c.Pipe? then XPipe else if c.Async? then XAsync else XSubshell;
            CodeC(c, e, at) != [] && CodeC(c, e, at)[0] == Op(op)
  {}

  /** The run ends, as the meaning does, where a second process is made. */
  lemma ForkCorrect(
      host: Host, c: Cmd, e: bool, s: State, fuel: nat, r: Run, n0: nat, t: Thread, rest: seq<Thread>,
      fns: map<string, Entry>)
    returns (n: nat, fns': map<string, Entry>)
    requires c.Pipe? || c.Async? || c.Subshell?
    requires Ready(host, r, n0, s, CodeC(c, e, t.pc), t, rest, fns)
    ensures Follows(host, r, n0, n, Exec(host, c, e, s, fuel), fuel, After(t, |CodeC(c, e, t.pc)|), rest, fns')
  {
    hide Steps;
    hide At;
    hide FnsRel;
    hide CodeC;
    hide Exec;
    ForkShape(c, e, t.pc);
    ForkEnds(host, c, e, s, fuel);
    AtCell(t.code, t.pc, CodeC(c, e, t.pc), 0);
    OnFork(host, r, n0, t, rest, s.store, fns, if c.Pipe? then XPipe else if c.Async? then XAsync else XSubshell);
    n, fns' := n0 + 1, fns;
  }

  /**
   The compiler is correct: if the machine stands at the first cell of a command's
   code, it gets to the cell after it in the state the command's meaning gives, with
   its argument stack as before; it exits or fails exactly as the meaning does; and
   if the meaning runs past its bound, so does the machine.
   */
  lemma {:induction false} CmdCorrect(host: Host, c: Cmd, e: bool, s: State, fuel: nat, r: Run, n0: nat,
      t: Thread, rest: seq<Thread>, fns: map<string, Entry>)
    returns (n: nat, fns': map<string, Entry>)
    requires Ready(host, r, n0, s, CodeC(c, e, t.pc), t, rest, fns)
    ensures Follows(host, r, n0, n, Exec(host, c, e, s, fuel), fuel, After(t, |CodeC(c, e, t.pc)|), rest, fns')
    decreases fuel, c, 1, 0
  {
    hide Steps;
    hide At;
    hide FnsRel;
    match c
    case Skip => n, fns' := n0, fns;
    case Simple(args) => n, fns' := CallCorrect(host, args, e, s, fuel, r, n0, t, rest, fns);
    case Seq(_, _) => n, fns' := SeqCorrect(host, c, e, s, fuel, r, n0, t, rest, fns);
    case AndAnd(_, _) => n, fns' := TestCorrect(host, c, e, s, fuel, r, n0, t, rest, fns);
    case OrOr(_, _) => n, fns' := TestCorrect(host, c, e, s, fuel, r, n0, t, rest, fns);
    case Bang(_) => n, fns' := BangCorrect(host, c, e, s, fuel, r, n0, t, rest, fns);
    case Twiddle(_, _) => n, fns' := TwiddleCorrect(host, c, e, s, fuel, r, n0, t, rest, fns);
    case Redirect(_, _, _, _) => n, fns' := RedirectCorrect(host, c, e, s, fuel, r, n0, t, rest, fns);
    case DupFd(_, _, _) => n, fns' := FdCorrect(host, c, e, s, fuel, r, n0, t, rest, fns);
    case CloseFd(_, _) => n, fns' := FdCorrect(host, c, e, s, fuel, r, n0, t, rest, fns);
    case If(_, _) => n, fns' := IfCorrect(host, c, e, s, fuel, r, n0, t, rest, fns);
    case IfNot(_) => n, fns' := IfNotCorrect(host, c, e, s, fuel, r, n0, t, rest, fns);
    case While(_, _) => n, fns' := WhileCorrect(host, c, e, s, fuel, r, n0, t, rest, fns);
    case For(_, _, _) => n, fns' := ForCorrect(host, c, e, s, fuel, r, n0, t, rest, fns);
    case Switch(_, _) => n, fns' := SwitchCorrect(host, c, e, s, fuel, r, n0, t, rest, fns);
    case Brace(a) => n, fns' := CmdCorrect(host, a, e, s, fuel, r, n0, t, rest, fns);
    case Fn(_, _) => n, fns' := FnCorrect(host, c, e, s, fuel, r, n0, t, rest, fns);
    case Pipe(_, _, _, _) => n, fns' := ForkCorrect(host, c, e, s, fuel, r, n0, t, rest, fns);
    case Async(_) => n, fns' := ForkCorrect(host, c, e, s, fuel, r, n0, t, rest, fns);
    case Subshell(_) => n, fns' := ForkCorrect(host, c, e, s, fuel, r, n0, t, rest, fns);
    case Assign(_, _, _) =>
      if ChainEnd(c).Skip? {
        n, fns' := GlobalsCorrect(host, c, e, s, fuel, r, n0, t, rest, fns);
      } else {
        n, fns' := LocalsCorrect(host, c, e, s, fuel, r, n0, t, rest, fns);
      }
  }
}
