/**
 What each command means, with no code vector, no jump and no argument stack.

 A pipeline, `&` and `@` make a second process; the meaning of a command ends where
 it does so.  A command may loop for ever, so its meaning is given for every bound on the number
 of loop iterations and function calls; `Timeout` says that the bound was reached.
 */
module RcSemantics {
  import opened Wrappers
  import opened RcTree
  import opened RcGlob
  import opened RcStore

  /** A function is its body and the exit-on-error flag it was defined under. */
  datatype Closure = Closure(body: Cmd, e: bool)

  datatype State = State(store: Store, fns: map<string, Closure>)

  datatype Outcome = Done(s: State) | Exit(store: Store) | Abort(store: Store) | Fork(store: Store) | Timeout

  /** Leave the shell if it is running under -e and the last status is false. */
  function Eflag(host: Host, e: bool, s: State): Outcome {
    if e && host.eflagok && !TrueStatus(s.store) then Exit(s.store) else Done(s)
  }

  /** Commands that emit no code: they leave everything, the status too, alone. */
  predicate Silent(c: Cmd) {
    match c
    case Skip => true
    case Brace(a) => Silent(a)
    case Seq(a, b) => Silent(a) && Silent(b)
    case Switch(_, block) => !HasCase(block)
    case _ => false
  }

  function ExecSimple(host: Host, ws: Strings, s: State): Outcome {
    match host.run(ws, s.store)
    case Runs(sets, world) => Done(s.(store := SetVars(s.store.(world := world), sets)))
    case Exits(sets, world) => Exit(SetVars(s.store.(world := world), sets))
    case Fails(world) => Abort(Failed(s.store.(world := world)))
  }

  /** The words a for loop runs over: the listed ones, or those of $*. */
  function LoopWords(host: Host, list: Word, s: Store): Option<Strings> {
    if list.NoWord? then Some(DollarValue(s, "*"))
    else match Eval(list, s)
      case None => None
      case Some(ws) => Some(GlobWords(host, s.world, ws))
  }

  /** A name and the value to bind it to.  None is an error. */
  function Binding(host: Host, name: Word, value: Word, s: Store): Option<Var> {
    var ws, n := Eval(value, s), NameOf(Eval(name, s));
    if ws.None? || n.None? then None else Some(Var(n.value, GlobWords(host, s.world, ws.value)))
  }

  /** Undo what was set up around a command that ended normally. */
  function Unlocal(o: Outcome): Outcome {
    if o.Done? then Done(o.s.(store := PopLocal(o.s.store))) else o
  }

  function Unredirect(host: Host, o: Outcome): Outcome {
    if o.Done? then Done(o.s.(store := PopRedir(host, o.s.store))) else o
  }

  function Exec(host: Host, c: Cmd, e: bool, s: State, fuel: nat): Outcome
    decreases fuel, c, 1, 0
  {
    match c
    case Skip => Done(s)
    case Simple(args) => ExecCall(host, args, e, s, fuel)
    case Seq(a, b) =>
      var o := Exec(host, a, e, s, fuel);
      if o.Done? then Exec(host, b, e, o.s, fuel) else o
    case AndAnd(a, b) =>
      var o := Exec(host, a, false, s, fuel);
      if o.Done? && TrueStatus(o.s.store) then Exec(host, b, e, o.s, fuel) else o
    case OrOr(a, b) =>
      var o := Exec(host, a, false, s, fuel);
      if o.Done? && !TrueStatus(o.s.store) then Exec(host, b, e, o.s, fuel) else o
    case Bang(a) =>
      var o := Exec(host, a, e, s, fuel);
      if o.Done? then
        Done(o.s.(store := SetStatus(o.s.store, if TrueStatus(o.s.store) then "false" else "")))
      else o
    case Twiddle(subject, patterns) =>
      var ws, ps := Eval(subject, s.store), Eval(patterns, s.store);
      if ws.None? || ps.None? then Abort(Failed(s.store))
      else
        var status := if AnyMatch(Spaced(ws.value), ps.value) then "" else "no match";
        Eflag(host, e, s.(store := SetStatus(s.store, status)))
    case Redirect(kind, fd, file, body) =>
      var ws := Eval(file, s.store);
      if ws.None? then Abort(Failed(s.store))
      else (match OpenRedir(host, kind, fd, GlobWords(host, s.store.world, ws.value), s.store)
        case None => Abort(Failed(s.store))
        case Some(s1) => Unredirect(host, Exec(host, body, e, s.(store := s1), fuel)))
    case DupFd(fd0, fd1, body) =>
      Unredirect(host, Exec(host, body, e, s.(store := PushRedir(s.store, RDup(fd0, fd1))), fuel))
    case CloseFd(fd, body) =>
      Unredirect(host, Exec(host, body, e, s.(store := PushRedir(s.store, RClose(fd))), fuel))
    case If(a, b) =>
      var o := Exec(host, a, false, s, fuel);
      if !o.Done? then o
      else
        var tested := o.s.(store := o.s.store.(ifnot := true));
        if !TrueStatus(tested.store) then Done(tested)
        else
          var o' := Exec(host, b, e, tested, fuel);
          if o'.Done? then Done(o'.s.(store := o'.s.store.(ifnot := false))) else o'
    case IfNot(b) => if s.store.ifnot then Exec(host, b, e, s, fuel) else Done(s)
    case While(a, b) =>
      var o := ExecCond(host, a, s, fuel);
      if !o.Done? || !TrueStatus(o.s.store) then o
      else
        var o' := Exec(host, b, e, o.s, fuel);
        if !o'.Done? then o'
        else if fuel == 0 then Timeout
        else Exec(host, c, e, o'.s, fuel - 1)
    case For(name, list, body) =>
      var ws, n := LoopWords(host, list, s.store), NameOf(Eval(name, s.store));
      if ws.None? || n.None? then Abort(Failed(s.store))
      else
        var bound := s.(store := PushLocal(s.store, n.value, []));
        Unlocal(ExecFor(host, ws.value, body, e, bound, fuel))
    case Switch(value, block) =>
      if !HasCase(block) then Done(s)
      else (match Eval(value, s.store)
        case None => Abort(Failed(s.store))
        case Some(ws) => ExecCases(host, Clauses(block), Spaced(ws), e, s, fuel))
    case Brace(a) => Exec(host, a, e, s, fuel)
    case Fn(names, body) =>
      (match Eval(names, s.store)
       case None => Abort(Failed(s.store))
       case Some(ws) =>
         Done(s.(fns :=
           if body.Skip? then Undefine(ws, s.fns)
           else Define(GlobWords(host, s.store.world, ws), Closure(body, e), s.fns))))
    case Assign(_, _, _) =>
      if ChainEnd(c).Skip? then ExecGlobals(host, c, s) else ExecLocals(host, c, e, s, fuel)
    case Pipe(_, _, _, _) => Fork(s.store)
    case Async(_) => Fork(s.store)
    case Subshell(_) => Fork(s.store)
  }

  /** The condition of a while loop; an empty one sets the status to true. */
  function ExecCond(host: Host, a: Cmd, s: State, fuel: nat): Outcome
    decreases fuel, a, 2, 0
  {
    if Silent(a) then Done(s.(store := SetStatus(s.store, ""))) else Exec(host, a, false, s, fuel)
  }

  /** A simple command: its words, what it does, and the exit test. */
  function ExecCall(host: Host, args: Word, e: bool, s: State, fuel: nat): Outcome
    decreases fuel, Simple(args), 0, 1
  {
    match Eval(args, s.store)
    case None => Abort(Failed(s.store))
    case Some(raw) =>
      var ws := GlobWords(host, s.store.world, raw);
      if ws == [] then Abort(Failed(s.store))
      else
        var o := ExecCommand(host, args, ws, s, fuel);
        if o.Done? then Eflag(host, e, o.s) else o
  }

  /** A shell function, or something the host runs. */
  function ExecCommand(host: Host, args: Word, ws: Strings, s: State, fuel: nat): Outcome
    requires ws != []
    decreases fuel, Simple(args), 0, 0
  {
    if ws[0] !in s.fns then ExecSimple(host, ws, s)
    else if fuel == 0 then Timeout
    else
      var f := s.fns[ws[0]];
      Unlocal(Exec(host, f.body, f.e, s.(store := PushLocal(s.store, "*", ws[1..])), fuel - 1))
  }

  /** The body once for each word, with the loop variable set to the word. */
  function ExecFor(host: Host, ws: Strings, body: Cmd, e: bool, s: State, fuel: nat): Outcome
    decreases fuel, body, 2, |ws|
  {
    if ws == [] then Done(s)
    else
      var o := Exec(host, body, e, s.(store := SetTop(s.store, [ws[0]])), fuel);
      if o.Done? then ExecFor(host, ws[1..], body, e, o.s, fuel) else o
  }

  /** The commands of the first clause with a pattern that matches the subject. */
  function ExecCases(host: Host, t: Cmd, subject: string, e: bool, s: State, fuel: nat): Outcome
    decreases fuel, t, 3, 0
  {
    if !(t.Seq? && IsCase(t.first)) then Done(s)
    else match EvalArgs(t.first.args, s.store)
      case None => Abort(Failed(s.store))
      case Some(ps) =>
        if AnyMatch(subject, ps) then ExecClause(host, t.second, e, s, fuel)
        else ExecCases(host, NextClause(t.second), subject, e, s, fuel)
  }

  function ExecClause(host: Host, t: Cmd, e: bool, s: State, fuel: nat): Outcome
    decreases fuel, t, 2, 0
  {
    if t.Seq? then
      if IsCase(t.first) then Done(s)
      else
        var o := Exec(host, t.first, e, s, fuel);
        if o.Done? then ExecClause(host, t.second, e, o.s, fuel) else o
    else if IsCase(t) then Done(s)
    else Exec(host, t, e, s, fuel)
  }

  function ExecGlobals(host: Host, c: Cmd, s: State): Outcome {
    if !c.Assign? then Done(s)
    else match Binding(host, c.name, c.value, s.store)
      case None => Abort(Failed(s.store))
      case Some(b) => ExecGlobals(host, c.rest, s.(store := SetVar(s.store, b.name, b.val)))
  }

  function ExecLocals(host: Host, c: Cmd, e: bool, s: State, fuel: nat): Outcome
    decreases fuel, c, if c.Assign? then 0 else 2, 0
  {
    if !c.Assign? then Exec(host, c, e, s, fuel)
    else match Binding(host, c.name, c.value, s.store)
      case None => Abort(Failed(s.store))
      case Some(b) =>
        Unlocal(ExecLocals(host, c.rest, e, s.(store := PushLocal(s.store, b.name, b.val)), fuel))
  }

  /******* What every command gives back *******/

  lemma {:induction false} ForFrame(host: Host, ws: Strings, body: Cmd, e: bool, s: State, fuel: nat)
    ensures var o := ExecFor(host, ws, body, e, s, fuel); o.Done? ==> SameFrame(s.store, o.s.store)
    decreases fuel, body, 2, |ws|
  {
    hide Exec;
    if ws != [] {
      var s1 := s.(store := SetTop(s.store, [ws[0]]));
      ExecFrame(host, body, e, s1, fuel);
      var o := Exec(host, body, e, s1, fuel);
      if o.Done? {
        ForFrame(host, ws[1..], body, e, o.s, fuel);
      }
    }
  }

  lemma {:induction false} ClauseFrame(host: Host, t: Cmd, e: bool, s: State, fuel: nat)
    ensures var o := ExecClause(host, t, e, s, fuel); o.Done? ==> SameFrame(s.store, o.s.store)
    decreases fuel, t, 2, 0
  {
    if t.Seq? {
      if !IsCase(t.first) {
        ExecFrame(host, t.first, e, s, fuel);
        var o := Exec(host, t.first, e, s, fuel);
        if o.Done? {
          ClauseFrame(host, t.second, e, o.s, fuel);
        }
      }
    } else if !IsCase(t) {
      ExecFrame(host, t, e, s, fuel);
    }
  }

  lemma {:induction false} CasesFrame(host: Host, t: Cmd, subject: string, e: bool, s: State, fuel: nat)
    ensures var o := ExecCases(host, t, subject, e, s, fuel); o.Done? ==> SameFrame(s.store, o.s.store)
    decreases fuel, t, 3, 0
  {
    if t.Seq? && IsCase(t.first) {
      ClauseFrame(host, t.second, e, s, fuel);
      CasesFrame(host, NextClause(t.second), subject, e, s, fuel);
    }
  }

  lemma {:induction false} GlobalsFrame(host: Host, c: Cmd, s: State)
    ensures var o := ExecGlobals(host, c, s); o.Done? ==> SameFrame(s.store, o.s.store)
  {
    if c.Assign? {
      match Binding(host, c.name, c.value, s.store) {
        case None =>
        case Some(b) => GlobalsFrame(host, c.rest, s.(store := SetVar(s.store, b.name, b.val)));
      }
    }
  }

  lemma {:induction false} LocalsFrame(host: Host, c: Cmd, e: bool, s: State, fuel: nat)
    ensures var o := ExecLocals(host, c, e, s, fuel); o.Done? ==> SameFrame(s.store, o.s.store)
    decreases fuel, c, if c.Assign? then 0 else 2, 0
  {
    if !c.Assign? {
      ExecFrame(host, c, e, s, fuel);
    } else {
      match Binding(host, c.name, c.value, s.store) {
        case None =>
        case Some(b) =>
          var s1 := s.(store := PushLocal(s.store, b.name, b.val));
          LocalsFrame(host, c.rest, e, s1, fuel);
          UnlocalFrame(s.store, b.name, b.val, ExecLocals(host, c.rest, e, s1, fuel));
      }
    }
  }

  /** Popping undoes the push, whatever happened in between to the values. */
  lemma UnlocalFrame(s: Store, name: string, val: Strings, o: Outcome)
    requires o.Done? ==> SameFrame(PushLocal(s, name, val), o.s.store)
    ensures o.Done? ==> SameFrame(s, Unlocal(o).s.store)
  {
    if o.Done? {
      var before, after := PushLocal(s, name, val).locals, o.s.store.locals;
      forall i | 0 <= i < |s.locals| ensures after[1..][i].name == s.locals[i].name {
        assert before[i + 1] == s.locals[i];
      }
    }
  }

  lemma {:induction false} CallFrame(host: Host, args: Word, e: bool, s: State, fuel: nat)
    ensures var o := ExecCall(host, args, e, s, fuel); o.Done? ==> SameFrame(s.store, o.s.store)
    decreases fuel, Simple(args), 0, 1
  {
    match Eval(args, s.store) {
      case None =>
      case Some(raw) =>
        var ws := GlobWords(host, s.store.world, raw);
        if ws == [] {
        } else if ws[0] !in s.fns {
          match host.run(ws, s.store) {
            case Runs(sets, world) => SetVarsFrame(s.store.(world := world), sets);
            case Exits(_, _) =>
            case Fails(_) =>
          }
        } else if fuel > 0 {
          var f := s.fns[ws[0]];
          var s1 := s.(store := PushLocal(s.store, "*", ws[1..]));
          ExecFrame(host, f.body, f.e, s1, fuel - 1);
          UnlocalFrame(s.store, "*", ws[1..], Exec(host, f.body, f.e, s1, fuel - 1));
        }
    }
  }

  /** The loop constructs and the redirections of `ExecFrame`. */
  lemma {:induction false} ScopeFrame(host: Host, c: Cmd, e: bool, s: State, fuel: nat)
    requires c.Redirect? || c.DupFd? || c.CloseFd?
    ensures var o := Exec(host, c, e, s, fuel); o.Done? ==> SameFrame(s.store, o.s.store)
    decreases fuel, c, 0, 0
  {
    match c
    case Redirect(kind, fd, file, body) =>
      var ws := Eval(file, s.store);
      if ws.Some? {
        match OpenRedir(host, kind, fd, GlobWords(host, s.store.world, ws.value), s.store) {
          case None =>
          case Some(s1) => ExecFrame(host, body, e, s.(store := s1), fuel);
        }
      }
    case DupFd(fd0, fd1, body) =>
      ExecFrame(host, body, e, s.(store := PushRedir(s.store, RDup(fd0, fd1))), fuel);
    case CloseFd(fd, body) =>
      ExecFrame(host, body, e, s.(store := PushRedir(s.store, RClose(fd))), fuel);
  }

  lemma {:induction false} WhileFrame(host: Host, c: Cmd, e: bool, s: State, fuel: nat)
    requires c.While?
    ensures var o := Exec(host, c, e, s, fuel); o.Done? ==> SameFrame(s.store, o.s.store)
    decreases fuel, c, 0, 0
  {
    hide TrueStatus;
    ExecFrame(host, c.cond, false, s, fuel);
    var o := ExecCond(host, c.cond, s, fuel);
    if o.Done? && TrueStatus(o.s.store) {
      ExecFrame(host, c.body, e, o.s, fuel);
      var o' := Exec(host, c.body, e, o.s, fuel);
      if o'.Done? && fuel > 0 {
        ExecFrame(host, c, e, o'.s, fuel - 1);
      }
    }
  }

  lemma {:induction false} ForAllFrame(host: Host, c: Cmd, e: bool, s: State, fuel: nat)
    requires c.For?
    ensures var o := Exec(host, c, e, s, fuel); o.Done? ==> SameFrame(s.store, o.s.store)
    decreases fuel, c, 0, 0
  {
    hide LoopWords;
    hide Eval;
    var ws, n := LoopWords(host, c.list, s.store), NameOf(Eval(c.name, s.store));
    if ws.Some? && n.Some? {
      var bound := s.(store := PushLocal(s.store, n.value, []));
      ForFrame(host, ws.value, c.body, e, bound, fuel);
      UnlocalFrame(s.store, n.value, [], ExecFor(host, ws.value, c.body, e, bound, fuel));
    }
  }

  lemma {:induction false} PairFrame(host: Host, c: Cmd, e: bool, s: State, fuel: nat)
    requires c.Seq? || c.AndAnd? || c.OrOr?
    ensures var o := Exec(host, c, e, s, fuel); o.Done? ==> SameFrame(s.store, o.s.store)
    decreases fuel, c, 0, 0
  {
    hide TrueStatus;
    var a, b := if c.Seq? then c.first else c.left, if c.Seq? then c.second else c.right;
    ExecFrame(host, a, c.Seq? && e, s, fuel);
    var o := Exec(host, a, c.Seq? && e, s, fuel);
    if o.Done? {
      ExecFrame(host, b, e, o.s, fuel);
    }
  }

  lemma {:induction false} IfFrame(host: Host, c: Cmd, e: bool, s: State, fuel: nat)
    requires c.If? || c.IfNot?
    ensures var o := Exec(host, c, e, s, fuel); o.Done? ==> SameFrame(s.store, o.s.store)
    decreases fuel, c, 0, 0
  {
    hide TrueStatus;
    if c.IfNot? {
      ExecFrame(host, c.body, e, s, fuel);
    } else {
      ExecFrame(host, c.cond, false, s, fuel);
      var o := Exec(host, c.cond, false, s, fuel);
      if o.Done? {
        ExecFrame(host, c.body, e, o.s.(store := o.s.store.(ifnot := true)), fuel);
      }
    }
  }

  /** The commands that run at most one other. */
  lemma {:induction false} SingleFrame(host: Host, c: Cmd, e: bool, s: State, fuel: nat)
    requires c.Skip? || c.Simple? || c.Twiddle? || c.Bang? || c.Brace? || c.Switch? || c.Fn? || c.Assign?
    ensures var o := Exec(host, c, e, s, fuel); o.Done? ==> SameFrame(s.store, o.s.store)
    decreases fuel, c, 0, 2
  {
    hide TrueStatus;
    hide AnyMatch;
    match c
    case Simple(args) => CallFrame(host, args, e, s, fuel);
    case Bang(a) => ExecFrame(host, a, e, s, fuel);
    case Brace(a) => ExecFrame(host, a, e, s, fuel);
    case Switch(value, block) =>
      if HasCase(block) && Eval(value, s.store).Some? {
        CasesFrame(host, Clauses(block), Spaced(Eval(value, s.store).value), e, s, fuel);
      }
    case Assign(_, _, _) =>
      if ChainEnd(c).Skip? {
        GlobalsFrame(host, c, s);
      } else {
        LocalsFrame(host, c, e, s, fuel);
      }
    case Skip =>
    case Twiddle(_, _) =>
    case Fn(_, _) =>
  }

  lemma ForkEnds(host: Host, c: Cmd, e: bool, s: State, fuel: nat)
    requires c.Pipe? || c.Async? || c.Subshell?
    ensures Exec(host, c, e, s, fuel) == Fork(s.store)
  {}

  /**
   A command that ends normally leaves the redirection list as it was and the same
   locals on the list, though their values may have changed.
   */
  lemma {:induction false} ExecFrame(host: Host, c: Cmd, e: bool, s: State, fuel: nat)
    ensures var o := Exec(host, c, e, s, fuel); o.Done? ==> SameFrame(s.store, o.s.store)
    decreases fuel, c, 1, 0
  {
    hide Exec;
    hide SameFrame;
    if c.Seq? || c.AndAnd? || c.OrOr? {
      PairFrame(host, c, e, s, fuel);
    } else if c.If? || c.IfNot? {
      IfFrame(host, c, e, s, fuel);
    } else if c.Redirect? || c.DupFd? || c.CloseFd? {
      ScopeFrame(host, c, e, s, fuel);
    } else if c.While? {
      WhileFrame(host, c, e, s, fuel);
    } else if c.For? {
      ForAllFrame(host, c, e, s, fuel);
    } else if c.Pipe? || c.Async? || c.Subshell? {
      ForkEnds(host, c, e, s, fuel);
    } else {
      SingleFrame(host, c, e, s, fuel);
    }
  }
}
