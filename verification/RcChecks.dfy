/**
 Laws of the compiler's static checks: which lines it refuses, told by where an `if not`
 stands and whether a switch has a case.
 */
module RcChecks {
  import opened RcTree
  import opened RcCompiler

  /******* Where an `if not` may stand *******/

  /** One command of a list, other than `if not`. */
  predicate Statement(c: Cmd) {
    !c.Skip? && !c.Seq? && !c.IfNot?
  }

  /** What `if not` is written before, or the command itself. */
  function Core(c: Cmd): Cmd {
    if c.IfNot? then c.body else c
  }

  /** The tree of commands one after the other. */
  function Line(ts: seq<Cmd>): Cmd
    decreases |ts|
  {
    if ts == [] then Skip else if |ts| == 1 then ts[0] else Seq(ts[0], Line(ts[1..]))
  }

  /** Does the command at i come right after an `if`?  What the list follows is before its first. */
  predicate AfterIf(ts: seq<Cmd>, i: nat, after: bool)
    requires i < |ts|
  {
    if i == 0 then after else Core(ts[i - 1]).If?
  }

  predicate IfNotsFollow(ts: seq<Cmd>, after: bool) {
    forall i :: 0 <= i < |ts| && ts[i].IfNot? ==> AfterIf(ts, i, after)
  }

  /** A command other than `if not` does not depend on what it follows, and is followed by an
      `if not` only if it is an `if`. */
  lemma StatementFlow(c: Cmd, after: bool)
    requires Statement(c)
    ensures Check(c, after) == Check(c, false)
    ensures Check(c, after).last <==> c.If?
  {
    hide CheckBoth;
    hide CheckCases;
  }

  lemma IfNotFlow(c: Cmd, after: bool)
    requires Statement(Core(c))
    ensures Check(c, after).errors == Check(Core(c), false).errors + if c.IfNot? && !after then 1 else 0
    ensures Check(c, after).last <==> Core(c).If?
  {
    StatementFlow(Core(c), after);
    hide CheckBoth;
    hide CheckCases;
  }

  /** A list is accepted exactly if all its commands are, and each `if not` follows an `if`. */
  lemma {:induction false} LineAccepted(ts: seq<Cmd>, after: bool)
    requires forall i :: 0 <= i < |ts| ==> Statement(Core(ts[i]))
    ensures Check(Line(ts), after).errors == 0 <==>
            (forall i :: 0 <= i < |ts| ==> Check(Core(ts[i]), false).errors == 0) && IfNotsFollow(ts, after)
    decreases |ts|
  {
    hide Statement;
    if ts != [] {
      IfNotFlow(ts[0], after);
      var rest := ts[1..];
      LineAccepted(rest, Core(ts[0]).If?);
      Shifted(ts, after);
      if rest != [] {
        SeqErrors(ts[0], Line(rest), after);
      }
      assert (forall i :: 0 <= i < |ts| ==> Check(Core(ts[i]), false).errors == 0) <==>
             Check(Core(ts[0]), false).errors == 0 &&
             forall i :: 0 <= i < |rest| ==> Check(Core(rest[i]), false).errors == 0;
    }
    hide Check;
  }

  lemma SeqErrors(a: Cmd, b: Cmd, after: bool)
    ensures Check(Seq(a, b), after).errors == Check(a, after).errors + Check(b, Check(a, after).last).errors
  {}

  lemma Shifted(ts: seq<Cmd>, after: bool)
    requires ts != []
    ensures IfNotsFollow(ts, after) <==>
            (ts[0].IfNot? ==> after) && IfNotsFollow(ts[1..], Core(ts[0]).If?)
  {
    var rest, next := ts[1..], Core(ts[0]).If?;
    forall i | 0 < i < |ts|
      ensures ts[i] == rest[i - 1] && AfterIf(ts, i, after) == AfterIf(rest, i - 1, next)
    {}
    assert AfterIf(ts, 0, after) == after;
    hide AfterIf;
    if IfNotsFollow(ts, after) {
      forall j | 0 <= j < |rest| && rest[j].IfNot? ensures AfterIf(rest, j, next) {
        assert ts[j + 1].IfNot?;
      }
    }
    if (ts[0].IfNot? ==> after) && IfNotsFollow(rest, next) {
      forall i | 0 <= i < |ts| && ts[i].IfNot? ensures AfterIf(ts, i, after) {
        if i > 0 {
          assert rest[i - 1].IfNot?;
        }
      }
    }
  }

  /** Nothing but an `if` itself lets an `if not` follow: not one in braces or behind a redirection. */
  lemma Wrapped(c: Cmd, after: bool)
    ensures Check(Brace(c), after).errors == Check(c, false).errors
    ensures Check(Seq(Brace(c), IfNot(Simple(NoWord))), after).errors == Check(c, false).errors + 1
    ensures Check(Seq(If(c, Simple(NoWord)), IfNot(Simple(NoWord))), after).errors == Check(c, false).errors
  {
    IfNotFlow(IfNot(Simple(NoWord)), true);
    IfNotFlow(IfNot(Simple(NoWord)), false);
    SeqErrors(Brace(c), IfNot(Simple(NoWord)), after);
    SeqErrors(If(c, Simple(NoWord)), IfNot(Simple(NoWord)), after);
    StatementFlow(If(c, Simple(NoWord)), after);
    StatementFlow(Brace(c), after);
    StatementFlow(Simple(NoWord), Check(c, false).last);
  }

  /******* What else is refused *******/

  /** Neither `if not` nor a switch without a case, anywhere in the tree. */
  predicate Harmless(c: Cmd) {
    match c
    case IfNot(_) => false
    case Switch(_, block) => HasCase(block) && Harmless(block)
    case Seq(a, b) => Harmless(a) && Harmless(b)
    case AndAnd(a, b) => Harmless(a) && Harmless(b)
    case OrOr(a, b) => Harmless(a) && Harmless(b)
    case While(a, b) => Harmless(a) && Harmless(b)
    case If(a, b) => Harmless(a) && Harmless(b)
    case Pipe(_, _, a, b) => Harmless(a) && Harmless(b)
    case Bang(a) => Harmless(a)
    case Brace(a) => Harmless(a)
    case Redirect(_, _, _, a) => Harmless(a)
    case DupFd(_, _, a) => Harmless(a)
    case CloseFd(_, a) => Harmless(a)
    case For(_, _, a) => Harmless(a)
    case Fn(_, a) => Harmless(a)
    case Assign(_, _, a) => Harmless(a)
    case Async(a) => Harmless(a)
    case Subshell(a) => Harmless(a)
    case _ => true
  }

  /** Such a tree is accepted, wherever it stands. */
  lemma {:induction false} HarmlessPasses(c: Cmd, after: bool)
    requires Harmless(c)
    ensures Check(c, after).errors == 0
    decreases c, 1
  {
    hide IsCase;
    match c
    case Seq(a, b) => HarmlessBoth(c, a, b, after);
    case AndAnd(a, b) => HarmlessBoth(c, a, b, false);
    case OrOr(a, b) => HarmlessBoth(c, a, b, false);
    case While(a, b) => HarmlessBoth(c, a, b, false);
    case If(a, b) => HarmlessBoth(c, a, b, false);
    case Pipe(_, _, a, b) => HarmlessBoth(c, a, b, false);
    case Bang(a) => HarmlessPasses(a, false);
    case Brace(a) => HarmlessPasses(a, false);
    case Redirect(_, _, _, a) => HarmlessPasses(a, false);
    case DupFd(_, _, a) => HarmlessPasses(a, false);
    case CloseFd(_, a) => HarmlessPasses(a, false);
    case For(_, _, a) => HarmlessPasses(a, false);
    case Fn(_, a) => HarmlessPasses(a, false);
    case Async(a) => HarmlessPasses(a, false);
    case Subshell(a) => HarmlessPasses(a, false);
    case Assign(_, _, a) =>
      HarmlessEnd(a);
      HarmlessPasses(ChainEnd(a), false);
    case Switch(_, block) =>
      assert block.Brace?;
      HarmlessCases(Clauses(block), false);
    case _ =>
  }

  lemma {:induction false} HarmlessBoth(c: Cmd, a: Cmd, b: Cmd, after: bool)
    requires a < c && b < c && Harmless(a) && Harmless(b)
    ensures CheckBoth(c, a, b, after).errors == 0
    decreases c, 0
  {
    hide Check;
    HarmlessPasses(a, after);
    HarmlessPasses(b, Check(a, after).last);
  }

  lemma {:induction false} HarmlessEnd(c: Cmd)
    requires Harmless(c)
    ensures Harmless(ChainEnd(c))
  {
    if c.Assign? {
      HarmlessEnd(c.rest);
    }
  }

  lemma {:induction false} HarmlessNext(t: Cmd)
    requires Harmless(t)
    ensures Harmless(NextClause(t))
  {
    if t.Seq? && !IsCase(t.first) {
      HarmlessNext(t.second);
    }
  }

  lemma {:induction false} HarmlessCases(t: Cmd, after: bool)
    requires Harmless(t)
    ensures CheckCases(t, after).errors == 0
    decreases t, 3
  {
    hide Check;
    if t.Seq? && IsCase(t.first) {
      HarmlessNext(t.second);
      var last := after && !HasPattern(t.first.args);
      HarmlessClause(t.second, last);
      HarmlessCases(NextClause(t.second), CheckClause(t.second, last).last);
    }
  }

  lemma {:induction false} HarmlessClause(t: Cmd, after: bool)
    requires Harmless(t)
    ensures CheckClause(t, after).errors == 0
    decreases t, 2
  {
    hide Check;
    hide IsCase;
    if t.Seq? {
      HarmlessPasses(t.first, after);
      HarmlessClause(t.second, Check(t.first, after).last);
    } else {
      HarmlessPasses(t, after);
    }
  }

  /** A switch whose braces do not start with a case is one error. */
  lemma SwitchWithoutCase(value: Word, block: Cmd, after: bool)
    requires !(block.Brace? && block.cmd.Seq? && IsCase(block.cmd.first))
    ensures Check(Switch(value, block), after).errors == 1
  {}
}
