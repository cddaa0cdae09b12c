/**
 Laws of the shell's commands: what short scripts do, told with variables and the outside
 world alone, and that the machine does the same.
 */
module RcCommands {
  import opened Wrappers
  import opened RcTree
  import opened RcGlob
  import opened RcCode
  import opened RcStore
  import opened RcMachine
  import opened RcSemantics
  import opened RcCorrect
  import opened RcProgram
  import opened RcLaws

  /******* Words *******/

  /** The tree of a simple command of written words, as the parser builds it. */
  function Args(ws: Strings): Word
    requires ws != []
    decreases |ws|
  {
    if |ws| == 1 then Lit(ws[0], false) else ArgList(Args(ws[..|ws| - 1]), Lit(ws[|ws| - 1], false))
  }

  /** The tree of a list of written words. */
  function List(ws: Strings): Word
    decreases |ws|
  {
    if ws == [] then NoWord else Words(List(ws[..|ws| - 1]), Lit(ws[|ws| - 1], false))
  }

  /** Written words stand for themselves, in their order. */
  lemma {:induction false} ArgsAre(ws: Strings, s: Store)
    requires ws != []
    ensures Eval(Args(ws), s) == Some(ws)
    decreases |ws|
  {
    if |ws| > 1 {
      ArgsAre(ws[..|ws| - 1], s);
      assert ws[..|ws| - 1] + [ws[|ws| - 1]] == ws;
    } else {
      assert [ws[0]] == ws;
    }
  }

  lemma {:induction false} ListIs(ws: Strings, s: Store)
    ensures Eval(List(ws), s) == Some(ws)
    ensures Eval(Paren(List(ws)), s) == Some(ws)
    decreases |ws|
  {
    if ws != [] {
      ListIs(ws[..|ws| - 1], s);
      assert ws[..|ws| - 1] + [ws[|ws| - 1]] == ws;
    }
  }

  /** A name that is no number and holds no mark. */
  predicate IsVariable(x: string) {
    GLOB !in x && exists i :: 0 <= i < |x| && !('0' <= x[i] <= '9')
  }

  /** $x, $#x and $"x for a variable. */
  lemma VariableIs(s: Store, x: string, q: bool)
    requires IsVariable(x)
    ensures NameOf(Eval(Lit(x, q), s)) == Some(x)
    ensures Eval(Dollar(Lit(x, q)), s) == Some(Lookup(s, x))
    ensures Eval(Count(Lit(x, q)), s) == Some([Decimal(|Lookup(s, x)|)])
    ensures Eval(RcTree.Join(Lit(x, q)), s) == Some([Spaced(Lookup(s, x))])
  {
    DeglobPlain(x);
    DollarIs(s, 0, x);
    hide Lookup;
    hide DollarValue;
    hide CountValue;
    hide Decimal;
    hide Spaced;
    hide Deglob;
    assert Eval(Lit(x, q), s) == Some([x]);
  }

  /** $x(n) and $x^$y. */
  lemma TwoVariables(s: Store, x: string, y: string, q: bool, n: nat)
    requires IsVariable(x) && IsVariable(y)
    ensures Eval(RcTree.Sub(Lit(x, q), List([Decimal(n)])), s) ==
            Some(if 1 <= n <= |Lookup(s, x)| then [Lookup(s, x)[n - 1]] else [])
    ensures Eval(Caret(Dollar(Lit(x, q)), Dollar(Lit(y, q))), s) == Concat(Lookup(s, x), Lookup(s, y))
  {
    VariableIs(s, x, q);
    VariableIs(s, y, q);
    ListIs([Decimal(n)], s);
    OneSubscript(Lookup(s, x), n);
    CombinedShape(RcTree.Sub(Lit(x, q), List([Decimal(n)])), Lit(x, q), List([Decimal(n)]), s);
    CombinedShape(Caret(Dollar(Lit(x, q)), Dollar(Lit(y, q))), Dollar(Lit(y, q)), Dollar(Lit(x, q)), s);
    hide Lookup;
    hide SubWords;
    hide Decimal;
    hide Concat;
    hide Deglob;
    hide List;
    hide CodeW;
    hide Eval;
  }

  /******* Simple commands *******/

  /** What the outside world makes of a command with these words. */
  function HostRuns(host: Host, ws: Strings, s: State): Outcome {
    match host.run(ws, s.store)
    case Runs(sets, world) => Done(s.(store := SetVars(s.store.(world := world), sets)))
    case Exits(sets, world) => Exit(SetVars(s.store.(world := world), sets))
    case Fails(world) => Abort(SetVar(s.store.(world := world), "status", ["error"]))
  }

  /** A command of written words, the first of which is no function: the outside world gets
      exactly these words, in their order. */
  lemma PlainCommand(host: Host, ws: Strings, s: State, fuel: nat)
    requires ws != [] && AllPlain(ws) && ws[0] !in s.fns
    ensures Exec(host, Simple(Args(ws)), false, s, fuel) == HostRuns(host, ws, s)
  {
    ArgsAre(ws, s.store);
    GlobPlain(host, s.store.world, ws);
    hide GlobWords;
    hide Args;
    hide Eval;
    hide SetVars;
    hide SetVar;
    CallMeans(host, Args(ws), false, s, fuel);
    hide Exec;
    assert ExecCommand(host, Args(ws), ws, s, fuel) == ExecSimple(host, ws, s);
  }

  lemma CallMeans(host: Host, args: Word, e: bool, s: State, fuel: nat)
    ensures Exec(host, Simple(args), e, s, fuel) == ExecCall(host, args, e, s, fuel)
  {
    hide ExecCall;
  }

  /** Two commands: the second gets its words in the store that the first leaves. */
  lemma TwoCommands(host: Host, a: Strings, b: Strings, s: State, fuel: nat)
    requires a != [] && b != [] && AllPlain(a) && AllPlain(b) && a[0] !in s.fns && b[0] !in s.fns
    ensures var o := HostRuns(host, a, s);
            Exec(host, Seq(Simple(Args(a)), Simple(Args(b))), false, s, fuel) ==
            if o.Done? then HostRuns(host, b, o.s) else o
  {
    PlainCommand(host, a, s, fuel);
    var o := HostRuns(host, a, s);
    if o.Done? {
      PlainCommand(host, b, o.s, fuel);
    }
    hide Args;
    hide SetVars;
  }

  /** The machine, started on the compiled line, hands the words over in the same way. */
  lemma PlainCommandRuns(host: Host, ws: Strings, s: State, fns: map<string, Entry>) returns (n: nat)
    requires ws != [] && AllPlain(ws) && ws[0] !in s.fns && FnsRel(s.fns, fns)
    ensures Steps(host, Started(Simple(Args(ws)), false, s, [], fns), n) ==
            match host.run(ws, s.store)
            case Runs(sets, world) => Exited(SetVars(s.store.(world := world), sets))
            case Exits(sets, world) => Exited(SetVars(s.store.(world := world), sets))
            case Fails(world) => Aborted(SetVar(s.store.(world := world), "status", ["error"]))
  {
    hide Steps;
    hide Started;
    hide Exec;
    hide FnsRel;
    hide Args;
    hide SetVars;
    hide SetVar;
    PlainCommand(host, ws, s, 0);
    var fns';
    n, fns' := VectorCorrect(host, Simple(Args(ws)), false, s, 0, [], fns);
  }

  /******* Tests *******/

  /** The state with a status. */
  function WithStatus(s: State, status: string): State {
    s.(store := SetVar(s.store, "status", [status]))
  }

  function WithIfnot(s: State, b: bool): State {
    s.(store := s.store.(ifnot := b))
  }

  function Test(a: string, b: string): Cmd {
    Twiddle(Lit(a, false), List([b]))
  }

  /** ~ a b sets the status to nothing or to "no match". */
  lemma TestIs(host: Host, a: string, b: string, s: State, fuel: nat)
    requires GLOB !in a && GLOB !in b && '\0' !in b
    ensures Exec(host, Test(a, b), false, s, fuel) == Done(WithStatus(s, if a == b then "" else "no match"))
    ensures a == b ==> TrueStatus(WithStatus(s, "").store)
    ensures a != b ==> !TrueStatus(WithStatus(s, "no match").store)
  {
    ListIs([b], s.store);
    SpacedInOrder([], [], a);
    MarksAreActive(b);
    InertMatchesItself(a, b);
    StatusSet(s.store, "", "");
    StatusSet(s.store, "no match", "");
    assert "no match"[0] == 'n';
    hide List;
    hide Match;
    hide Spaced;
    hide SetVar;
    hide TrueStatus;
    assert AnyMatch(a, [b]) <==> Match(a, [b][0], '\0');
  }

  /** Under -e a test that fails ends the shell. */
  lemma TestUnderE(host: Host, a: string, b: string, s: State, fuel: nat)
    requires GLOB !in a && GLOB !in b && '\0' !in b && host.eflagok
    ensures Exec(host, Test(a, b), true, s, fuel) ==
            if a == b then Done(WithStatus(s, "")) else Exit(WithStatus(s, "no match").store)
  {
    TestIs(host, a, b, s, fuel);
    hide Eval;
    hide List;
    hide AnyMatch;
    hide Spaced;
    hide SetVar;
    hide TrueStatus;
  }

  function EndIf(o: Outcome): Outcome {
    if o.Done? then Done(WithIfnot(o.s, false)) else o
  }

  /** if(~ a b) c: runs c with equal words, and does not with others. */
  lemma IfTest(host: Host, a: string, b: string, c: Cmd, e: bool, s: State, fuel: nat)
    requires GLOB !in a && GLOB !in b && '\0' !in b
    ensures var tested := WithIfnot(WithStatus(s, if a == b then "" else "no match"), true);
            Exec(host, If(Test(a, b), c), e, s, fuel) ==
            if a == b then EndIf(Exec(host, c, e, tested, fuel)) else Done(tested)
  {
    TestIs(host, a, b, s, fuel);
    var s1 := WithStatus(s, if a == b then "" else "no match");
    StatusIgnoresIfnot(s1.store, true);
    var t := Test(a, b);
    hide Test;
    hide WithStatus;
    hide TrueStatus;
    IfMeans(host, If(t, c), e, s, fuel);
    hide Exec;
  }

  /** if(~ a b) c; if not d: runs d when it did not run c. */
  lemma IfNotTest(host: Host, a: string, b: string, c: Cmd, d: Cmd, e: bool, s: State, fuel: nat)
    requires GLOB !in a && GLOB !in b && '\0' !in b
    ensures var tested := WithIfnot(WithStatus(s, if a == b then "" else "no match"), true);
            Exec(host, Seq(If(Test(a, b), c), IfNot(d)), e, s, fuel) ==
            if a == b then EndIf(Exec(host, c, e, tested, fuel)) else Exec(host, d, e, tested, fuel)
  {
    IfTest(host, a, b, c, e, s, fuel);
    var i := If(Test(a, b), c);
    hide Test;
    hide WithStatus;
    var o := Exec(host, i, e, s, fuel);
    SeqShape(host, Seq(i, IfNot(d)), e, s, fuel, 0);
    if o.Done? {
      IfNotMeans(host, IfNot(d), e, o.s, fuel);
    }
    hide Exec;
    hide CodeC;
  }

  /** ~ a b && c and ~ a b || c. */
  lemma AndOrTest(host: Host, a: string, b: string, c: Cmd, e: bool, s: State, fuel: nat)
    requires GLOB !in a && GLOB !in b && '\0' !in b
    ensures var tested := WithStatus(s, if a == b then "" else "no match");
            && Exec(host, AndAnd(Test(a, b), c), e, s, fuel) ==
               (if a == b then Exec(host, c, e, tested, fuel) else Done(tested))
            && Exec(host, OrOr(Test(a, b), c), e, s, fuel) ==
               (if a == b then Done(tested) else Exec(host, c, e, tested, fuel))
  {
    TestIs(host, a, b, s, fuel);
    var t := Test(a, b);
    hide Test;
    hide WithStatus;
    hide TrueStatus;
    TestMeans(host, AndAnd(t, c), e, s, fuel);
    TestMeans(host, OrOr(t, c), e, s, fuel);
    hide Exec;
  }

  /** ! ~ a b turns the status around. */
  lemma BangTest(host: Host, a: string, b: string, s: State, fuel: nat)
    requires GLOB !in a && GLOB !in b && '\0' !in b
    ensures Exec(host, Bang(Test(a, b)), false, s, fuel) == Done(WithStatus(s, if a == b then "false" else ""))
  {
    TestIs(host, a, b, s, fuel);
    SetTwice(s.store, "status", ["no match"], [""]);
    SetTwice(s.store, "status", [""], ["false"]);
    var t := Test(a, b);
    hide Test;
    hide TrueStatus;
    hide SetVar;
    BangShape(host, Bang(t), false, s, fuel, 0);
    hide Exec;
    hide CodeC;
  }

  lemma {:induction false} SetTwice(s: Store, name: string, v: Strings, w: Strings)
    ensures SetVar(SetVar(s, name, v), name, w) == SetVar(s, name, w)
    decreases |s.locals|
  {
    if s.locals != [] && s.locals[0].name != name {
      var rest := s.(locals := s.locals[1..]);
      SetTwice(rest, name, v, w);
      AssignScope(rest, name, v, s.locals[0].name, s.locals[0].val);
      AssignScope(SetVar(rest, name, v), name, w, s.locals[0].name, s.locals[0].val);
      AssignScope(rest, name, w, s.locals[0].name, s.locals[0].val);
      assert PushLocal(rest, s.locals[0].name, s.locals[0].val) == s;
    } else if s.locals != [] {
      assert ([Var(name, v)] + s.locals[1..])[1..] == s.locals[1..];
    }
  }

  /** while(~ a b) c: with other words c is not run; with equal words c and the loop again. */
  lemma WhileTest(host: Host, a: string, b: string, c: Cmd, e: bool, s: State, fuel: nat)
    requires GLOB !in a && GLOB !in b && '\0' !in b
    ensures var tested := WithStatus(s, if a == b then "" else "no match");
            Exec(host, While(Test(a, b), c), e, s, fuel) ==
            if a != b then Done(tested)
            else
              var o := Exec(host, c, e, tested, fuel);
              if !o.Done? then o
              else if fuel == 0 then Timeout
              else Exec(host, While(Test(a, b), c), e, o.s, fuel - 1)
  {
    TestIs(host, a, b, s, fuel);
    var t := Test(a, b);
    assert !Silent(t);
    hide Test;
    hide WithStatus;
    hide TrueStatus;
    WhileMeans(host, While(t, c), e, s, fuel);
    hide Exec;
  }

  /** The machine: with other words the line if(~ a b) c ends without a step of c. */
  lemma IfTestRuns(host: Host, a: string, b: string, c: Cmd, e: bool, s: State, fns: map<string, Entry>)
    returns (n: nat)
    requires GLOB !in a && GLOB !in b && '\0' !in b && a != b && FnsRel(s.fns, fns)
    ensures Steps(host, Started(If(Test(a, b), c), e, s, [], fns), n) ==
            Exited(SetVar(s.store, "status", ["no match"]).(ifnot := true))
  {
    hide Steps;
    hide Started;
    hide Exec;
    hide FnsRel;
    hide Test;
    hide SetVar;
    IfTest(host, a, b, c, e, s, 0);
    var fns';
    n, fns' := VectorCorrect(host, If(Test(a, b), c), e, s, 0, [], fns);
  }

  /******* Lists, variables, functions *******/

  function EndLocal(o: Outcome): Outcome {
    if o.Done? then Done(o.s.(store := PopLocal(o.s.store))) else o
  }

  function Bound(s: State, name: string, val: Strings): State {
    s.(store := PushLocal(s.store, name, val))
  }

  /** The name of a variable and a list of written words bind the variable to the words. */
  lemma BindingIs(host: Host, x: string, vs: Strings, s: Store)
    requires GLOB !in x && AllPlain(vs)
    ensures Binding(host, Lit(x, false), Paren(List(vs)), s) == Some(Var(x, vs))
  {
    DeglobPlain(x);
    ListIs(vs, s);
    GlobPlain(host, s.world, vs);
    hide GlobWords;
    hide List;
    assert Eval(Lit(x, false), s) == Some([x]);
  }

  /** x=(v ...) */
  lemma GlobalAssignment(host: Host, x: string, vs: Strings, e: bool, s: State, fuel: nat)
    requires GLOB !in x && AllPlain(vs)
    ensures Exec(host, Assign(Lit(x, false), Paren(List(vs)), Skip), e, s, fuel) ==
            Done(s.(store := SetVar(s.store, x, vs)))
  {
    BindingIs(host, x, vs, s.store);
    hide Binding;
    hide List;
    hide SetVar;
    var a := Assign(Lit(x, false), Paren(List(vs)), Skip);
    assert ChainEnd(a).Skip?;
    var after := s.(store := SetVar(s.store, x, vs));
    assert ExecGlobals(host, Skip, after) == Done(after);
    assert ExecGlobals(host, a, s) == Done(after);
  }

  /** x=(v ...) c: the command sees the variable, and afterwards it is as it was. */
  lemma LocalAssignment(host: Host, x: string, vs: Strings, c: Cmd, e: bool, s: State, fuel: nat)
    requires GLOB !in x && AllPlain(vs) && !c.Skip? && !c.Assign?
    ensures Exec(host, Assign(Lit(x, false), Paren(List(vs)), c), e, s, fuel) ==
            EndLocal(Exec(host, c, e, Bound(s, x, vs), fuel))
  {
    BindingIs(host, x, vs, s.store);
    var a := Assign(Lit(x, false), Paren(List(vs)), c);
    assert ChainEnd(a) == c;
    assert Exec(host, a, e, s, fuel) == ExecLocals(host, a, e, s, fuel);
    LocalsShape(host, a, e, s, fuel, 0);
    LocalsShape(host, c, e, Bound(s, x, vs), fuel, 0);
    hide Binding;
    hide List;
    hide Exec;
    hide ExecLocals;
    hide CodeLocals;
    hide CodeC;
  }

  /** for(x in v w) c: once for each word, in their order, with the variable set to the word. */
  lemma ForWords(host: Host, x: string, v: string, w: string, c: Cmd, e: bool, s: State, fuel: nat)
    requires GLOB !in x && GLOB !in v && GLOB !in w
    ensures Exec(host, For(Lit(x, false), Paren(List([])), c), e, s, fuel) == Done(s)
    ensures Exec(host, For(Lit(x, false), Paren(List([w])), c), e, s, fuel) ==
            EndLocal(Exec(host, c, e, Bound(s, x, [w]), fuel))
    ensures Exec(host, For(Lit(x, false), Paren(List([v, w])), c), e, s, fuel) ==
            var o := Exec(host, c, e, Bound(s, x, [v]), fuel);
            if !o.Done? then o
            else EndLocal(Exec(host, c, e, o.s.(store := SetTop(o.s.store, [w])), fuel))
  {
    ForList(host, x, [], c, e, s, fuel);
    ForList(host, x, [w], c, e, s, fuel);
    ForList(host, x, [v, w], c, e, s, fuel);
    AssignScope(s.store, x, [w], x, []);
    AssignScope(s.store, x, [v], x, []);
    LocalHides(s.store, x, [], x);
    var s1 := Bound(s, x, []);
    LoopShape(host, [], c, e, s1, fuel);
    LoopShape(host, [w], c, e, s1, fuel);
    LoopShape(host, [v, w], c, e, s1, fuel);
    assert [w][1..] == [] && [v, w][1..] == [w];
    var o := Exec(host, c, e, Bound(s, x, [v]), fuel);
    LastTurn(host, w, c, e, s1, fuel);
    if o.Done? {
      LastTurn(host, w, c, e, o.s, fuel);
    }
    hide Exec;
    hide ExecFor;
    hide List;
    hide SetTop;
    hide PushLocal;
    hide PopLocal;
    hide SetVar;
    hide Lookup;
  }

  lemma LastTurn(host: Host, w: string, c: Cmd, e: bool, s: State, fuel: nat)
    ensures ExecFor(host, [w], c, e, s, fuel) == Exec(host, c, e, s.(store := SetTop(s.store, [w])), fuel)
  {
    hide Exec;
    LoopShape(host, [w], c, e, s, fuel);
    var o := Exec(host, c, e, s.(store := SetTop(s.store, [w])), fuel);
    if o.Done? {
      LoopShape(host, [w][1..], c, e, o.s, fuel);
    }
    hide ExecFor;
  }

  lemma ForList(host: Host, x: string, ws: Strings, c: Cmd, e: bool, s: State, fuel: nat)
    requires GLOB !in x && AllPlain(ws)
    ensures Exec(host, For(Lit(x, false), Paren(List(ws)), c), e, s, fuel) ==
            EndLocal(ExecFor(host, ws, c, e, Bound(s, x, []), fuel))
  {
    DeglobPlain(x);
    ListIs(ws, s.store);
    GlobPlain(host, s.store.world, ws);
    ForShape(host, For(Lit(x, false), Paren(List(ws)), c), e, s, fuel, 0);
    hide GlobWords;
    hide List;
    hide ExecFor;
    hide Exec;
    hide CodeC;
    hide CodeLoop;
    hide CodeVariable;
    hide RcCode.ForList;
    assert Eval(Lit(x, false), s.store) == Some([x]);
  }

  /** for(x) c runs over the words of $*. */
  lemma StarLoop(host: Host, x: string, c: Cmd, e: bool, s: State, fuel: nat)
    requires GLOB !in x
    ensures Exec(host, For(Lit(x, false), NoWord, c), e, s, fuel) ==
            EndLocal(ExecFor(host, Lookup(s.store, "*"), c, e, Bound(s, x, []), fuel))
  {
    DeglobPlain(x);
    DollarIs(s.store, 0, "*");
    assert "*"[0] < '0';
    ForShape(host, For(Lit(x, false), NoWord, c), e, s, fuel, 0);
    assert Eval(Lit(x, false), s.store) == Some([x]);
    hide Lookup;
    hide DollarValue;
    hide ExecFor;
    hide Exec;
    hide CodeC;
    hide CodeLoop;
    hide CodeVariable;
    hide RcCode.ForList;
  }

  /** switch(v){ case p; c; case q; d } runs the commands of the first pattern that is v. */
  lemma SwitchWords(host: Host, v: string, p: string, q: string, c: Cmd, d: Cmd, e: bool, s: State, fuel: nat)
    requires GLOB !in v && GLOB !in p && GLOB !in q && '\0' !in p && '\0' !in q
    requires !IsCase(c) && !IsCase(d) && !d.Seq?
    ensures var block := Brace(Seq(Simple(Args(["case", p])), Seq(c, Seq(Simple(Args(["case", q])), d))));
            Exec(host, Switch(Lit(v, false), block), e, s, fuel) ==
            if v == p then Exec(host, c, e, s, fuel)
            else if v == q then Exec(host, d, e, s, fuel) else Done(s)
  {
    var second := Seq(Simple(Args(["case", q])), d);
    var t := Seq(Simple(Args(["case", p])), Seq(c, second));
    CaseArgs(p, s.store);
    CaseArgs(q, s.store);
    OnePattern(v, p);
    OnePattern(v, q);
    SpacedInOrder([], [], v);
    SwitchShape(host, Switch(Lit(v, false), Brace(t)), e, s, fuel, 0);
    CasesShape(host, t, v, e, s, fuel);
    CasesShape(host, second, v, e, s, fuel);
    FirstClause(host, c, second, e, s, fuel);
    LastClause(host, d, v, e, s, fuel);
    assert NextClause(Seq(c, second)) == second;
    assert NextClause(d) == d;
    CasesShape(host, d, v, e, s, fuel);
    assert Eval(Lit(v, false), s.store) == Some([v]);
    hide Exec;
    hide ExecCases;
    hide ExecClause;
    hide Args;
    hide CodeCases;
    hide CodeC;
    hide Eval;
    hide EvalArgs;
    hide Spaced;
    hide AnyMatch;
  }

  lemma CaseArgs(p: string, s: Store)
    ensures var w := Args(["case", p]); EvalArgs(w, s) == Some([p]) && IsCase(Simple(w))
  {
    assert ["case", p][..1] == ["case"];
    assert Args(["case", p]) == ArgList(Lit("case", false), Lit(p, false));
    assert EvalArgs(Lit("case", false), s) == Some([]);
    assert [] + [p] == [p];
  }

  lemma OnePattern(v: string, p: string)
    requires GLOB !in p && '\0' !in p
    ensures AnyMatch(v, [p]) <==> v == p
  {
    MarksAreActive(p);
    InertMatchesItself(v, p);
    hide Match;
    assert AnyMatch(v, [p]) <==> Match(v, [p][0], '\0');
  }

  lemma FirstClause(host: Host, c: Cmd, second: Cmd, e: bool, s: State, fuel: nat)
    requires !IsCase(c) && second.Seq? && IsCase(second.first)
    ensures ExecClause(host, Seq(c, second), e, s, fuel) == Exec(host, c, e, s, fuel)
  {
    hide Exec;
    hide IsCase;
  }

  lemma LastClause(host: Host, d: Cmd, v: string, e: bool, s: State, fuel: nat)
    requires !IsCase(d) && !d.Seq?
    ensures ExecClause(host, d, e, s, fuel) == Exec(host, d, e, s, fuel)
  {
    hide Exec;
    hide IsCase;
  }

  /** fn f {c}; f v ... runs the body with the words as $*, which is as it was afterwards. */
  lemma FunctionCall(host: Host, f: string, vs: Strings, c: Cmd, s: State, fuel: nat)
    requires GLOB !in f && AllPlain(vs) && !c.Skip? && fuel > 0
    ensures var defined := s.(fns := s.fns[f := Closure(c, false)]);
            Exec(host, Seq(Fn(Lit(f, false), c), Simple(Args([f] + vs))), false, s, fuel) ==
            EndLocal(Exec(host, c, false, Bound(defined, "*", vs), fuel - 1))
  {
    var defined := s.(fns := s.fns[f := Closure(c, false)]);
    var args := Args([f] + vs);
    FunctionDefined(host, f, c, false, s, fuel);
    SeqShape(host, Seq(Fn(Lit(f, false), c), Simple(args)), false, s, fuel, 0);
    CallMeans(host, args, false, defined, fuel);
    ArgsAre([f] + vs, s.store);
    GlobPlain(host, s.store.world, [f] + vs);
    assert ([f] + vs)[1..] == vs;
    hide Args;
    hide Eval;
    hide GlobWords;
    hide CodeC;
    hide Exec;
    assert ExecCommand(host, args, [f] + vs, defined, fuel) ==
           EndLocal(Exec(host, c, false, Bound(defined, "*", vs), fuel - 1));
  }

  lemma FunctionDefined(host: Host, f: string, c: Cmd, e: bool, s: State, fuel: nat)
    requires GLOB !in f
    ensures !c.Skip? ==> Exec(host, Fn(Lit(f, false), c), e, s, fuel) == Done(s.(fns := s.fns[f := Closure(c, e)]))
    ensures c.Skip? ==> Exec(host, Fn(Lit(f, false), c), e, s, fuel) == Done(s.(fns := s.fns - {f}))
  {
    FnShape(host, Fn(Lit(f, false), c), e, s, fuel, 0);
    GlobPlain(host, s.store.world, [f]);
    assert Eval(Lit(f, false), s.store) == Some([f]);
    assert [f][1..] == [];
    assert Undefine([f], s.fns) == s.fns - {f};
    hide GlobWords;
    hide Exec;
    hide CodeC;
    hide CodeFn;
    hide Undefine;
  }

  /******* Redirections *******/

  /** >file c and its like: the file is opened for the command, and closed after it. */
  lemma FileRedirection(host: Host, kind: RedirKind, fd: nat, file: string, c: Cmd, e: bool, s: State, fuel: nat)
    requires GLOB !in file
    ensures var f := host.open(s.store.world, kind, file);
            Exec(host, Redirect(kind, fd, Lit(file, false), c), e, s, fuel) ==
            if f.fd < 0 then Abort(SetVar(s.store, "status", ["error"]))
            else
              var inside := s.store.(world := f.world, redirs := [ROpen(f.fd, fd)] + s.store.redirs);
              var o := Exec(host, c, e, s.(store := inside), fuel);
              if !o.Done? then o
              else
                Done(o.s.(store := o.s.store.(redirs := s.store.redirs, world := host.close(o.s.store.world, f.fd))))
  {
    var r := Redirect(kind, fd, Lit(file, false), c);
    RedirectShape(host, r, e, s, fuel, 0);
    GlobPlain(host, s.store.world, [file]);
    assert Eval(Lit(file, false), s.store) == Some([file]);
    var f := host.open(s.store.world, kind, file);
    if f.fd >= 0 {
      var inside := s.store.(world := f.world, redirs := [ROpen(f.fd, fd)] + s.store.redirs);
      ExecFrame(host, c, e, s.(store := inside), fuel);
      assert inside.redirs[1..] == s.store.redirs;
    }
    hide Exec;
    hide GlobWords;
    hide SetVar;
    hide CodeC;
    hide CodeW;
    hide CodeScoped;
  }
}
