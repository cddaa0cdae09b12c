/**
 The compiler as it works: it emits cells at the end of one growing buffer and
 patches forward jumps in place once it knows where they lead (rc/code.c).
 */
module RcCompiler {
  import opened RcTree
  import opened RcCode

  /******* Static checks *******/

  /** Errors found in a command, and whether an `if not` may follow it. */
  datatype Flow = Flow(errors: nat, last: bool)

  /** Does the case have a word after `case`? */
  predicate HasPattern(w: Word) {
    w.ArgList? && (!w.last.NoWord? || HasPattern(w.init))
  }

  function Check(c: Cmd, last: bool): Flow
    decreases c, 1
  {
    match c
    case Skip => Flow(0, last)
    case Seq(a, b) =>
      var f := CheckBoth(c, a, b, last);
      Flow(f.errors, if a.Skip? then f.last else a.If?)
    case IfNot(b) =>
      var f := Check(b, last);
      Flow((if last then 0 else 1) + f.errors, if b.Skip? then f.last else b.If?)
    case AndAnd(a, b) => Flow(CheckBoth(c, a, b, false).errors, false)
    case OrOr(a, b) => Flow(CheckBoth(c, a, b, false).errors, false)
    case While(a, b) => Flow(CheckBoth(c, a, b, false).errors, false)
    case If(a, b) => Flow(CheckBoth(c, a, b, false).errors, true)
    case Bang(a) => Flow(Check(a, false).errors, false)
    case Brace(a) => Flow(Check(a, false).errors, false)
    case Redirect(_, _, _, body) => Flow(Check(body, false).errors, false)
    case DupFd(_, _, body) => Flow(Check(body, false).errors, false)
    case CloseFd(_, body) => Flow(Check(body, false).errors, false)
    case For(_, _, body) => Flow(Check(body, false).errors, false)
    case Fn(_, body) => Flow(Check(body, false).errors, false)
    case Switch(_, block) =>
      Flow(if HasCase(block) then CheckCases(Clauses(block), false).errors else 1, false)
    case Assign(_, _, rest) => Flow(Check(ChainEnd(rest), false).errors, false)
    case Simple(_) => Flow(0, false)
    case Twiddle(_, _) => Flow(0, false)
    case Pipe(_, _, a, b) => Flow(CheckBoth(c, a, b, false).errors, false)
    case Async(a) => Flow(Check(a, false).errors, false)
    case Subshell(a) => Flow(Check(a, false).errors, false)
  }

  function CheckBoth(c: Cmd, a: Cmd, b: Cmd, last: bool): Flow
    requires a < c && b < c
    decreases c, 0
  {
    var f := Check(a, last);
    var g := Check(b, f.last);
    Flow(f.errors + g.errors, g.last)
  }

  function CheckCases(t: Cmd, last: bool): Flow
    decreases t, 3
  {
    if t.Seq? && IsCase(t.first) then
      var f := CheckClause(t.second, last && !HasPattern(t.first.args));
      var g := CheckCases(NextClause(t.second), f.last);
      Flow(f.errors + g.errors, g.last)
    else Flow(0, last)
  }

  function CheckClause(t: Cmd, last: bool): Flow
    decreases t, 2
  {
    if t.Seq? then
      if IsCase(t.first) then Flow(0, last)
      else
        var f := Check(t.first, last);
        var g := CheckClause(t.second, f.last);
        Flow(f.errors + g.errors, g.last)
    else if IsCase(t) then Flow(0, last)
    else Check(t, last)
  }

  /******* Assignments, flattened *******/

  /** All the bindings of a chain, then the command, then as many ends of locals. */
  function Bindings(c: Cmd): seq<Cell> {
    if c.Assign? then CodeBinding(c.name, c.value) + [Op(XLocal)] + Bindings(c.rest) else []
  }

  function Unbindings(c: Cmd): seq<Cell> {
    if c.Assign? then [Op(XUnlocal)] + Unbindings(c.rest) else []
  }

  lemma {:induction false} UnbindingsShift(c: Cmd)
    ensures [Op(XUnlocal)] + Unbindings(c) == Unbindings(c) + [Op(XUnlocal)]
  {
    if c.Assign? {
      UnbindingsShift(c.rest);
    }
  }

  lemma {:induction false} LocalsFlat(c: Cmd, e: bool, at: nat)
    ensures CodeLocals(c, e, at) == Bindings(c) + CodeC(ChainEnd(c), e, at + |Bindings(c)|) + Unbindings(c)
  {
    hide CodeC;
    hide CodeBinding;
    if c.Assign? {
      var head := CodeBinding(c.name, c.value) + [Op(XLocal)];
      LocalsFlat(c.rest, e, at + |head|);
      UnbindingsShift(c.rest);
      var inner := CodeC(ChainEnd(c), e, at + |Bindings(c)|);
      assert head + (Bindings(c.rest) + inner + Unbindings(c.rest)) + [Op(XUnlocal)]
          == head + Bindings(c.rest) + inner + (Unbindings(c.rest) + [Op(XUnlocal)]);
    }
  }

  /** Patching the operand of a jump between two pieces of code. */
  lemma Patched(pre: seq<Cell>, first: seq<Cell>, op: Op, second: seq<Cell>, target: int)
    ensures (((pre + first) + [Op(op), Int(0)]) + second)[|pre| + |first| + 1 := Int(target)] ==
            pre + (first + [Op(op), Int(target)] + second)
  {}

  class Compiler {
    var codebuf: seq<Cell>
    var iflast: bool
    var nerror: nat
    var panicked: bool
    /** Operands that have been emitted as 0 and not been patched yet. */
    ghost var holes: set<nat>

    constructor (last: bool)
      ensures codebuf == [] && iflast == last && nerror == 0 && !panicked && holes == {}
    {
      codebuf, iflast, nerror, panicked, holes := [], last, 0, false, {};
    }

    /** The buffer has grown by the cells; no patch is pending that was not before. */
    twostate predicate Emitted(cells: seq<Cell>)
      reads this
    {
      && codebuf == old(codebuf) + cells
      && holes == old(holes)
      && panicked == old(panicked)
    }

    twostate predicate Checked(f: Flow)
      reads this
    {
      nerror == old(nerror) + f.errors && iflast == f.last
    }

    method Emit(cell: Cell)
      modifies this`codebuf
      ensures codebuf == old(codebuf) + [cell]
    {
      codebuf := codebuf + [cell];
    }

    /** Emit a jump whose target is not known yet; the result is the address to patch. */
    method EmitJump(op: Op) returns (p: nat)
      modifies this`codebuf, this`holes
      ensures codebuf == old(codebuf) + [Op(op), Int(0)]
      ensures p == |old(codebuf)| + 1 && holes == old(holes) + {p}
    {
      Emit(Op(op));
      p := |codebuf|;
      Emit(Int(0));
      holes := holes + {p};
    }

    /**
     Make the operand at a lead to the end of the buffer.  It has to be an operand
     that waits for this, so none is patched twice.
     */
    method StuffDot(a: int)
      requires a in holes
      modifies this`codebuf, this`holes, this`panicked
      ensures panicked == (old(panicked) || a < 0 || |old(codebuf)| <= a)
      ensures 0 <= a < |old(codebuf)| ==> codebuf == old(codebuf)[a := Int(|old(codebuf)|)]
      ensures holes == old(holes) - {a}
    {
      if a < 0 || |codebuf| <= a {
        panicked := true;
      } else {
        codebuf := codebuf[a := Int(|codebuf|)];
      }
      holes := holes - {a};
    }

    method OutWord(w: Word)
      modifies this
      ensures Emitted(CodeW(w)) && nerror == old(nerror)
      ensures iflast == (if w.NoWord? then old(iflast) else false)
      decreases w, 1
    {
      if w.NoWord? {
        return;
      }
      iflast := false;
      match w
      case NoWord =>
      case Lit(s, _) => Emit(Op(XWord)); Emit(Str(s));
      case ArgList(a, b) => OutPair(w, a, b);
      case Words(a, b) => OutPair(w, a, b);
      case Paren(a) => OutWord(a);
      case Dollar(n) => OutMarked(n, XDol);
      case Count(n) => OutMarked(n, XCount);
      case Join(n) => OutMarked(n, XQdol);
      case Sub(n, s) => OutTwo(w, n, s, XSub);
      case Caret(l, r) => OutTwo(w, r, l, XConc);
    }

    method OutPair(ghost w: Word, a: Word, b: Word)
      requires a < w && b < w && !iflast
      modifies this
      ensures Emitted(CodeW(b) + CodeW(a)) && nerror == old(nerror) && !iflast
      decreases w, 0
    {
      hide CodeW;
      OutWord(b);
      OutWord(a);
    }

    /** A mark, a word, and the routine that takes the list. */
    method OutMarked(w: Word, op: Op)
      requires !iflast
      modifies this
      ensures Emitted([Op(XMark)] + CodeW(w) + [Op(op)]) && nerror == old(nerror) && !iflast
      decreases w, 2
    {
      hide CodeW;
      Emit(Op(XMark));
      OutWord(w);
      Emit(Op(op));
      assert codebuf == old(codebuf) + ([Op(XMark)] + CodeW(w) + [Op(op)]);
    }

    /** Two marked words, and the routine that takes both lists. */
    method OutTwo(ghost w: Word, a: Word, b: Word, op: Op)
      requires a < w && b < w && !iflast
      modifies this
      ensures Emitted([Op(XMark)] + CodeW(a) + [Op(XMark)] + CodeW(b) + [Op(op)])
      ensures nerror == old(nerror) && !iflast
      decreases w, 0
    {
      hide CodeW;
      OutMarked(a, XMark);
      OutWord(b);
      Emit(Op(op));
      assert codebuf == old(codebuf) + ([Op(XMark)] + CodeW(a) + [Op(XMark)] + CodeW(b) + [Op(op)]);
    }

    /** The exit test, under -e. */
    method OutEflag(e: bool)
      modifies this`codebuf
      ensures codebuf == old(codebuf) + EflagTest(e)
    {
      if e {
        Emit(Op(XEflag));
      }
    }

    method OutCode(t: Cmd, e: bool)
      requires forall h :: h in holes ==> h < |codebuf|
      modifies this
      ensures Emitted(CodeC(t, e, |old(codebuf)|)) && Checked(Check(t, old(iflast)))
      decreases t, 1
    {
      hide CodeC;
      hide Check;
      CheckStarts(t, e, |codebuf|, iflast);
      if t.Skip? {
        return;
      }
      if !t.IfNot? && !t.Seq? {
        iflast := false;
      }
      match t
      case Skip =>
      case Simple(args) => OutSimple(t, e);
      case Twiddle(_, _) => OutSimple(t, e);
      case Seq(_, _) => OutPlain(t, e);
      case AndAnd(_, _) => OutTest(t, e);
      case OrOr(_, _) => OutTest(t, e);
      case Bang(_) => OutPlain(t, e);
      case Brace(_) => OutPlain(t, e);
      case Redirect(_, _, _, _) => OutRedirect(t, e);
      case DupFd(_, _, _) => OutRedirect(t, e);
      case CloseFd(_, _) => OutRedirect(t, e);
      case If(_, _) => OutIf(t, e);
      case IfNot(_) => OutIfNot(t, e);
      case While(_, _) => OutWhile(t, e);
      case For(_, _, _) => OutFor(t, e);
      case Switch(_, _) => CodeSwitch(t, e);
      case Fn(_, _) => OutFn(t, e);
      case Assign(_, _, _) => OutAssign(t, e);
      case Pipe(_, _, _, _) => OutPipe(t, e);
      case Async(_) => OutFork(t, e);
      case Subshell(_) => OutFork(t, e);
    }

    /** Commands in sequence, in braces and under `!`. */
    method OutPlain(t: Cmd, e: bool)
      requires t.Seq? || (!iflast && (t.Bang? || t.Brace?))
      requires forall h :: h in holes ==> h < |codebuf|
      modifies this
      ensures Emitted(CodeC(t, e, |old(codebuf)|)) && Checked(Check(t, old(iflast)))
      decreases t, 0
    {
      hide CodeC;
      hide Check;
      PlainParts(t, e, |codebuf|, iflast);
      if t.Seq? {
        OutCode(t.first, e);
        OutCode(t.second, e);
        if !t.first.Skip? {
          iflast := t.first.If?;
        }
      } else {
        OutCode(t.cmd, e);
        if t.Bang? {
          Emit(Op(XBang));
        }
        iflast := false;
      }
    }

    method OutSimple(t: Cmd, e: bool)
      requires (t.Simple? || t.Twiddle?) && !iflast
      modifies this
      ensures Emitted(CodeC(t, e, |old(codebuf)|)) && nerror == old(nerror) && !iflast
    {
      hide CodeW;
      hide EflagTest;
      if t.Simple? {
        OutMarked(t.args, XSimple);
      } else {
        OutTwo(Caret(t.patterns, t.subject), t.patterns, t.subject, XMatch);
      }
      OutEflag(e);
    }

    /** a && b and a || b. */
    method OutTest(t: Cmd, e: bool)
      requires (t.AndAnd? || t.OrOr?) && !iflast
      requires forall h :: h in holes ==> h < |codebuf|
      modifies this
      ensures Emitted(CodeC(t, e, |old(codebuf)|)) && Checked(Check(t, false))
      decreases t, 0
    {
      ghost var at := |codebuf|;
      hide CodeC;
      hide Check;
      TestCode(t, e, at);
      PairCheck(t);
      var op := if t.AndAnd? then XTrue else XFalse;
      OutCode(t.left, false);
      var p := EmitJump(op);
      OutCode(t.right, e);
      StuffDot(p);
      iflast := false;
      ghost var first := CodeC(t.left, false, at);
      Patched(old(codebuf), first, op, CodeC(t.right, e, at + |first| + 2), |codebuf|);
    }

    method OutIf(t: Cmd, e: bool)
      requires t.If? && !iflast
      requires forall h :: h in holes ==> h < |codebuf|
      modifies this
      ensures Emitted(CodeC(t, e, |old(codebuf)|)) && Checked(Check(t, false))
      decreases t, 0
    {
      ghost var at := |codebuf|;
      hide CodeC;
      hide Check;
      IfCode(t, e, at);
      PairCheck(t);
      OutCode(t.cond, false);
      var p := EmitJump(XIf);
      OutCode(t.body, e);
      Emit(Op(XWastrue));
      ghost var cond := CodeC(t.cond, false, at);
      ghost var body := CodeC(t.body, e, at + |cond| + 2);
      assert codebuf == old(codebuf) + cond + [Op(XIf), Int(0)] + (body + [Op(XWastrue)]);
      StuffDot(p);
      iflast := true;
      Patched(old(codebuf), cond, XIf, body + [Op(XWastrue)], |codebuf|);
      Regroup(cond, [Op(XIf), Int(|codebuf|)], body, [Op(XWastrue)]);
    }

    method OutIfNot(t: Cmd, e: bool)
      requires t.IfNot?
      requires forall h :: h in holes ==> h < |codebuf|
      modifies this
      ensures Emitted(CodeC(t, e, |old(codebuf)|)) && Checked(Check(t, old(iflast)))
      decreases t, 0
    {
      ghost var at := |codebuf|;
      hide CodeC;
      hide Check;
      IfNotCode(t, e, at);
      IfNotCheck(t, iflast);
      if !iflast {
        nerror := nerror + 1;
      }
      var p := EmitJump(XIfnot);
      OutCode(t.body, e);
      ghost var body := CodeC(t.body, e, at + 2);
      assert codebuf == old(codebuf) + [] + [Op(XIfnot), Int(0)] + body;
      StuffDot(p);
      if !t.body.Skip? {
        iflast := t.body.If?;
      }
      Patched(old(codebuf), [], XIfnot, body, |codebuf|);
      assert [] + [Op(XIfnot), Int(|codebuf|)] == [Op(XIfnot), Int(|codebuf|)];
    }

    method OutWhile(t: Cmd, e: bool)
      requires t.While? && !iflast
      requires forall h :: h in holes ==> h < |codebuf|
      modifies this
      ensures Emitted(CodeC(t, e, |old(codebuf)|)) && Checked(Check(t, false))
      decreases t, 0
    {
      ghost var at := |codebuf|;
      hide CodeC;
      hide Check;
      hide CodeCond;
      WhileCode(t, e, at);
      PairCheck(t);
      var q := |codebuf|;
      OutCond(t.cond);
      ghost var cond := CodeCond(t.cond, at);
      var p := EmitJump(XTrue);
      OutCode(t.body, e);
      Emit(Op(XJump));
      Emit(Int(q));
      ghost var body := CodeC(t.body, e, at + |cond| + 2);
      assert codebuf == old(codebuf) + cond + [Op(XTrue), Int(0)] + (body + [Op(XJump), Int(q)]);
      StuffDot(p);
      iflast := false;
      Patched(old(codebuf), cond, XTrue, body + [Op(XJump), Int(q)], |codebuf|);
      Regroup(cond, [Op(XTrue), Int(|codebuf|)], body, [Op(XJump), Int(q)]);
    }

    /** A condition; one that emits nothing is true. */
    method OutCond(a: Cmd)
      requires forall h :: h in holes ==> h < |codebuf|
      modifies this
      ensures Emitted(CodeCond(a, |old(codebuf)|)) && Checked(Check(a, old(iflast)))
      decreases a, 2
    {
      hide CodeC;
      hide Check;
      var q := |codebuf|;
      OutCode(a, false);
      if q == |codebuf| {
        Emit(Op(XSettrue));
      }
    }

    method OutFor(t: Cmd, e: bool)
      requires t.For? && !iflast
      requires forall h :: h in holes ==> h < |codebuf|
      modifies this
      ensures Emitted(CodeC(t, e, |old(codebuf)|)) && Checked(Check(t, false))
      decreases t, 0
    {
      ghost var at := |codebuf|;
      hide CodeC;
      hide Check;
      hide CodeLoop;
      hide ForList;
      hide CodeVariable;
      ForParts(t, e, at);
      OutForHead(t.name, t.list);
      OutLoop(t.body, e);
      Emit(Op(XUnlocal));
      iflast := false;
    }

    /** The list of a for loop and its variable. */
    method OutForHead(name: Word, list: Word)
      requires !iflast
      modifies this
      ensures Emitted([Op(XMark)] + ForList(list) + CodeVariable(name)) && nerror == old(nerror) && !iflast
    {
      hide CodeW;
      hide ForList;
      Emit(Op(XMark));
      OutForList(list);
      ghost var head := [Op(XMark)] + ForList(list);
      assert codebuf == old(codebuf) + head;
      Emit(Op(XMark));
      OutMarked(name, XLocal);
      ghost var variable := [Op(XMark)] + ([Op(XMark)] + CodeW(name) + [Op(XLocal)]);
      assert CodeVariable(name) == variable;
      assert codebuf == old(codebuf) + (head + variable);
    }

    method OutForList(list: Word)
      requires !iflast
      modifies this
      ensures Emitted(ForList(list)) && nerror == old(nerror) && !iflast
    {
      hide CodeW;
      if !list.NoWord? {
        OutWord(list);
        Emit(Op(XGlob));
      } else {
        Emit(Op(XMark));
        Emit(Op(XWord));
        Emit(Str("*"));
        Emit(Op(XDol));
      }
    }

    method OutLoop(body: Cmd, e: bool)
      requires !iflast
      requires forall h :: h in holes ==> h < |codebuf|
      modifies this
      ensures Emitted(CodeLoop(body, e, |old(codebuf)|)) && nerror == old(nerror) + Check(body, false).errors
      decreases body, 2
    {
      ghost var at := |codebuf|;
      hide CodeC;
      hide Check;
      var p := |codebuf|;
      var q := EmitJump(XFor);
      OutCode(body, e);
      Emit(Op(XJump));
      Emit(Int(p));
      ghost var code := CodeC(body, e, at + 2);
      assert codebuf == old(codebuf) + [] + [Op(XFor), Int(0)] + (code + [Op(XJump), Int(p)]);
      StuffDot(q);
      Patched(old(codebuf), [], XFor, code + [Op(XJump), Int(p)], |codebuf|);
      assert CodeLoop(body, e, at) == [] + [Op(XFor), Int(|codebuf|)] + (code + [Op(XJump), Int(p)]);
    }

    /** The three forms of redirection. */
    method OutRedirect(t: Cmd, e: bool)
      requires (t.Redirect? || t.DupFd? || t.CloseFd?) && !iflast
      requires forall h :: h in holes ==> h < |codebuf|
      modifies this
      ensures Emitted(CodeC(t, e, |old(codebuf)|)) && Checked(Check(t, false))
      decreases t, 0
    {
      ghost var at := |codebuf|;
      hide CodeC;
      hide Check;
      hide CodeW;
      hide RedirectHead;
      RedirectParts(t, e, at);
      OutRedirectHead(t);
      OutCode(t.body, e);
      Emit(Op(XPopredir));
      iflast := false;
    }

    method OutRedirectHead(t: Cmd)
      requires (t.Redirect? || t.DupFd? || t.CloseFd?) && !iflast
      modifies this
      ensures Emitted(RedirectHead(t)) && nerror == old(nerror) && !iflast
    {
      hide CodeW;
      if t.Redirect? {
        OutMarked(t.file, XGlob);
        Emit(Op(RedirOp(t.kind)));
        Emit(Int(t.fd));
      } else if t.DupFd? {
        Emit(Op(XDup));
        Emit(Int(t.fd0));
        Emit(Int(t.fd1));
      } else {
        Emit(Op(XClose));
        Emit(Int(t.fd));
      }
    }

    /** The code of a function, with the end of its arguments. */
    method OutFnBody(body: Cmd, e: bool)
      requires forall h :: h in holes ==> h < |codebuf|
      modifies this
      ensures Emitted(CodeFn(body, e, |old(codebuf)|)) && Checked(Check(body, old(iflast)))
      decreases body, 2
    {
      hide CodeC;
      hide Check;
      OutCode(body, e);
      Emit(Op(XUnlocal));
      Emit(Op(XReturn));
    }

    method OutFn(t: Cmd, e: bool)
      requires t.Fn? && !iflast
      requires forall h :: h in holes ==> h < |codebuf|
      modifies this
      ensures Emitted(CodeC(t, e, |old(codebuf)|)) && Checked(Check(t, false))
      decreases t, 0
    {
      ghost var at := |codebuf|;
      hide CodeC;
      hide Check;
      hide CodeW;
      hide CodeFn;
      FnParts(t, e, at);
      Emit(Op(XMark));
      OutWord(t.names);
      ghost var head := [Op(XMark)] + CodeW(t.names);
      assert codebuf == old(codebuf) + head;
      if !t.body.Skip? {
        var p := EmitJump(XFn);
        Emit(Text(t.body));
        OutFnBody(t.body, e);
        ghost var code := CodeFn(t.body, e, at + |head| + 3);
        assert codebuf == old(codebuf) + head + [Op(XFn), Int(0)] + ([Text(t.body)] + code);
        StuffDot(p);
        Patched(old(codebuf), head, XFn, [Text(t.body)] + code, |codebuf|);
      } else {
        Emit(Op(XDelfn));
      }
      iflast := false;
    }

    /** name=value ..., with a command or without. */
    method OutAssign(tt: Cmd, e: bool)
      requires tt.Assign? && !iflast
      requires forall h :: h in holes ==> h < |codebuf|
      modifies this
      ensures Emitted(CodeC(tt, e, |old(codebuf)|)) && Checked(Check(tt, false))
      decreases tt, 0
    {
      ghost var at := |codebuf|;
      hide CodeC;
      hide Check;
      hide Bindings;
      hide Unbindings;
      hide CodeGlobals;
      AssignParts(tt, e, at);
      var t := tt;
      while t.Assign?
        invariant ChainEnd(t) == ChainEnd(tt)
        decreases t
      {
        t := t.rest;
      }
      if !t.Skip? {
        OutBindings(tt);
        OutCode(t, e);
        OutUnbindings(tt);
        iflast := false;
      } else {
        OutGlobals(tt);
      }
    }

    method OutBindings(tt: Cmd)
      requires !iflast
      modifies this
      ensures Emitted(Bindings(tt)) && nerror == old(nerror) && !iflast
    {
      hide CodeW;
      var t := tt;
      while t.Assign?
        invariant codebuf + Bindings(t) == old(codebuf) + Bindings(tt)
        invariant holes == old(holes) && panicked == old(panicked) && nerror == old(nerror) && !iflast
        decreases t
      {
        OutTwo(Caret(t.name, t.value), t.value, t.name, XLocal);
        t := t.rest;
      }
    }

    method OutUnbindings(tt: Cmd)
      modifies this`codebuf
      ensures codebuf == old(codebuf) + Unbindings(tt)
    {
      var t := tt;
      while t.Assign?
        invariant codebuf + Unbindings(t) == old(codebuf) + Unbindings(tt)
        decreases t
      {
        Emit(Op(XUnlocal));
        t := t.rest;
      }
    }

    method OutGlobals(tt: Cmd)
      requires !iflast
      modifies this
      ensures Emitted(CodeGlobals(tt)) && nerror == old(nerror) && !iflast
    {
      hide CodeW;
      var t := tt;
      while t.Assign?
        invariant codebuf + CodeGlobals(t) == old(codebuf) + CodeGlobals(tt)
        invariant holes == old(holes) && panicked == old(panicked) && nerror == old(nerror) && !iflast
        decreases t
      {
        OutTwo(Caret(t.name, t.value), t.value, t.name, XAssign);
        t := t.rest;
      }
    }

    /** A command for one of two processes, and its end. */
    method OutSide(a: Cmd, op: Op, e: bool)
      requires forall h :: h in holes ==> h < |codebuf|
      modifies this
      ensures Emitted(CodeC(a, e, |old(codebuf)|) + [Op(op)]) && Checked(Check(a, old(iflast)))
      decreases a, 2
    {
      hide CodeC;
      hide Check;
      OutCode(a, e);
      Emit(Op(op));
    }

    /** A command for a new process, behind the address where the old one goes on. */
    method OutChild(op: Op, a: Cmd, e: bool)
      requires forall h :: h in holes ==> h < |codebuf|
      modifies this
      ensures Emitted(CodeFork(op, a, e, |old(codebuf)|)) && Checked(Check(a, old(iflast)))
      decreases a, 3
    {
      ghost var at := |codebuf|;
      hide CodeC;
      hide Check;
      var p := EmitJump(op);
      OutSide(a, XExit, e);
      ghost var body := CodeC(a, e, at + 2) + [Op(XExit)];
      assert codebuf == old(codebuf) + [] + [Op(op), Int(0)] + body;
      StuffDot(p);
      Patched(old(codebuf), [], op, body, |codebuf|);
      assert [] + [Op(op), Int(|codebuf|)] == [Op(op), Int(|codebuf|)];
    }

    /** & and @. */
    method OutFork(t: Cmd, e: bool)
      requires (t.Async? || t.Subshell?) && !iflast
      requires forall h :: h in holes ==> h < |codebuf|
      modifies this
      ensures Emitted(CodeC(t, e, |old(codebuf)|)) && Checked(Check(t, false))
      decreases t, 0
    {
      hide CodeC;
      hide CodeFork;
      hide Check;
      ForkCode(t, e, |codebuf|);
      ForkCheck(t);
      OutChild(if t.Async? then XAsync else XSubshell, t.cmd, e);
      if t.Subshell? {
        OutEflag(e);
      }
      iflast := false;
    }

    /** Emit an operand that is not known yet. */
    method EmitHole() returns (p: nat)
      modifies this`codebuf, this`holes
      ensures codebuf == old(codebuf) + [Int(0)] && p == |old(codebuf)| && holes == old(holes) + {p}
    {
      p := |codebuf|;
      Emit(Int(0));
      holes := holes + {p};
    }

    /** The start of a pipeline, with both its addresses open. */
    method OutPipeHead(fd0: nat, fd1: nat) returns (p: nat, q: nat)
      modifies this`codebuf, this`holes
      ensures codebuf == old(codebuf) + PipeHead(fd0, fd1, 0, 0)
      ensures p == |old(codebuf)| + 3 && q == |old(codebuf)| + 4 && holes == old(holes) + {p, q}
    {
      Emit(Op(XPipe));
      Emit(Int(fd0));
      Emit(Int(fd1));
      p := EmitHole();
      q := EmitHole();
    }

    /** A pipeline: two operands are open at once while the left side is emitted. */
    method OutPipe(t: Cmd, e: bool)
      requires t.Pipe? && !iflast
      requires forall h :: h in holes ==> h < |codebuf|
      modifies this
      ensures Emitted(CodeC(t, e, |old(codebuf)|)) && Checked(Check(t, false))
      decreases t, 0
    {
      ghost var at := |codebuf|;
      hide CodeC;
      hide Check;
      hide PipeHead;
      PipeCode(t, e, at);
      PairCheck(t);
      var p, q := OutPipeHead(t.fd0, t.fd1);
      ghost var b0 := old(codebuf);
      OutSide(t.left, XExit, e);
      ghost var left := CodeC(t.left, e, at + 5) + [Op(XExit)];
      ghost var mid := |codebuf|;
      assert codebuf == b0 + PipeHead(t.fd0, t.fd1, 0, 0) + left;
      StuffDot(p);
      PatchMid(b0, t.fd0, t.fd1, mid, left);
      OutSide(t.right, XReturn, e);
      ghost var right := CodeC(t.right, e, mid) + [Op(XReturn)];
      assert codebuf == b0 + PipeHead(t.fd0, t.fd1, mid, 0) + left + right;
      ghost var end := |codebuf|;
      StuffDot(q);
      PatchEnd(b0, t.fd0, t.fd1, mid, end, left, right);
      Emit(Op(XPipewait));
      iflast := false;
    }

    method CodeSwitch(t: Cmd, e: bool)
      requires t.Switch? && !iflast
      requires forall h :: h in holes ==> h < |codebuf|
      modifies this
      ensures Emitted(CodeC(t, e, |old(codebuf)|)) && Checked(Check(t, false))
      decreases t, 0
    {
      ghost var at := |codebuf|;
      hide CodeC;
      hide Check;
      hide CodeW;
      hide CodeCases;
      hide CheckCases;
      hide SwitchHead;
      SwitchParts(t, e, at);
      if !HasCase(t.block) {
        nerror := nerror + 1;
        return;
      }
      var out, leave := OutSwitchHead(t.value);
      ghost var front := SwitchHead(t.value, at);
      OutCases(Clauses(t.block), out, e);
      ghost var cases := CodeCases(Clauses(t.block), e, out + 2, out);
      assert codebuf == old(codebuf) + front + [Op(XJump), Int(0)] + cases;
      StuffDot(leave);
      Patched(old(codebuf), front, XJump, cases, |codebuf|);
      Emit(Op(XPopm));
      iflast := false;
    }

    /** The value of a switch, the jump to the first clause, and the jump that leaves. */
    method OutSwitchHead(value: Word) returns (out: nat, leave: nat)
      requires !iflast && forall h :: h in holes ==> h < |codebuf|
      modifies this
      ensures out == |old(codebuf)| + |SwitchHead(value, |old(codebuf)|)| && leave == out + 1
      ensures codebuf == old(codebuf) + SwitchHead(value, |old(codebuf)|) + [Op(XJump), Int(0)]
      ensures holes == old(holes) + {leave} && panicked == old(panicked) && nerror == old(nerror) && !iflast
      ensures out + 2 == |codebuf|
    {
      hide CodeW;
      ghost var at := |codebuf|;
      ghost var head := [Op(XMark)] + CodeW(value);
      Emit(Op(XMark));
      OutWord(value);
      assert codebuf == old(codebuf) + head;
      var nextcase := EmitJump(XJump);
      out := |codebuf|;
      leave := EmitJump(XJump);
      assert codebuf == old(codebuf) + head + [Op(XJump), Int(0)] + [Op(XJump), Int(0)];
      StuffDot(nextcase);
      Patched(old(codebuf), head, XJump, [Op(XJump), Int(0)], |codebuf|);
      ghost var jump := [Op(XJump), Int(|codebuf|)];
      assert old(codebuf) + (head + jump + [Op(XJump), Int(0)]) == old(codebuf) + (head + jump) + [Op(XJump), Int(0)];
    }

    /** The clauses of a switch. */
    method OutCases(tt: Cmd, out: nat, e: bool)
      requires tt.Seq? ==> IsCase(tt.first)
      requires forall h :: h in holes ==> h < |codebuf|
      modifies this
      ensures Emitted(CodeCases(tt, e, |old(codebuf)|, out)) && Checked(CheckCases(tt, old(iflast)))
      decreases tt, 4
    {
      hide IsCase;
      hide CodeCases;
      hide CheckCases;
      hide CheckClause;
      hide CaseCode;
      hide HasPattern;
      var t := tt;
      while t.Seq?
        invariant t == tt || t < tt
        invariant t.Seq? ==> IsCase(t.first)
        invariant |old(codebuf)| <= |codebuf|
        invariant codebuf + CodeCases(t, e, |codebuf|, out) == old(codebuf) + CodeCases(tt, e, |old(codebuf)|, out)
        invariant holes == old(holes) && panicked == old(panicked)
        invariant var f, g := CheckCases(tt, old(iflast)), CheckCases(t, iflast);
                  nerror + g.errors == old(nerror) + f.errors && g.last == f.last
        decreases t
      {
        CasesParts(t, e, |codebuf|, out, iflast);
        OutOneCase(t, out, e);
        t := NextClause(t.second);
      }
      CasesEnd(t, e, |codebuf|, out, iflast);
    }

    /** One clause with the jump that ends it. */
    method OutOneCase(t: Cmd, out: nat, e: bool)
      requires t.Seq? && IsCase(t.first)
      requires forall h :: h in holes ==> h < |codebuf|
      modifies this
      ensures Emitted(CaseCode(t, e, |old(codebuf)|, out))
      ensures Checked(CheckClause(t.second, old(iflast) && !HasPattern(t.first.args)))
      decreases t, 3
    {
      hide CodeClause;
      hide CheckClause;
      hide CodeArgs;
      hide HasPattern;
      hide Head;
      ghost var at := |codebuf|;
      Emit(Op(XMark));
      OutArgs(t.first.args);
      ghost var head := [Op(XMark)] + CodeArgs(t.first.args);
      assert codebuf == old(codebuf) + head;
      var nextcase := EmitJump(XCase);
      OutClause(t.second, e);
      ghost var body := CodeClause(t.second, e, at + |head| + 2);
      Emit(Op(XJump));
      Emit(Int(out));
      assert codebuf == old(codebuf) + head + [Op(XCase), Int(0)] + (body + [Op(XJump), Int(out)]);
      StuffDot(nextcase);
      Patched(old(codebuf), head, XCase, body + [Op(XJump), Int(out)], |codebuf|);
    }

    /** The words of a case after the word `case`. */
    method OutArgs(w: Word)
      modifies this
      ensures Emitted(CodeArgs(w)) && nerror == old(nerror)
      ensures iflast == (old(iflast) && !HasPattern(w))
    {
      hide CodeW;
      var t := w;
      while t.ArgList?
        invariant codebuf + CodeArgs(t) == old(codebuf) + CodeArgs(w)
        invariant holes == old(holes) && panicked == old(panicked) && nerror == old(nerror)
        invariant (iflast && !HasPattern(t)) == (old(iflast) && !HasPattern(w))
        decreases t
      {
        OutWord(t.last);
        t := t.init;
      }
    }

    /** The commands of one clause. */
    method OutClause(tt: Cmd, e: bool)
      requires forall h :: h in holes ==> h < |codebuf|
      modifies this
      ensures Emitted(CodeClause(tt, e, |old(codebuf)|)) && Checked(CheckClause(tt, old(iflast)))
      decreases tt, 2
    {
      hide CodeC;
      hide Check;
      hide CodeClause;
      hide CheckClause;
      hide IsCase;
      var t := tt;
      while t.Seq? && !IsCase(t.first)
        invariant t == tt || t < tt
        invariant |old(codebuf)| <= |codebuf|
        invariant codebuf + CodeClause(t, e, |codebuf|) == old(codebuf) + CodeClause(tt, e, |old(codebuf)|)
        invariant holes == old(holes) && panicked == old(panicked)
        invariant var f, g := CheckClause(tt, old(iflast)), CheckClause(t, iflast);
                  nerror + g.errors == old(nerror) + f.errors && g.last == f.last
        decreases t
      {
        ClauseParts(t, e, |codebuf|, iflast);
        OutCode(t.first, e);
        t := t.second;
      }
      ClauseParts(t, e, |codebuf|, iflast);
      if !t.Seq? && !IsCase(t) {
        OutCode(t, e);
      }
    }

    /**
     A whole line: the vector is its code if the static checks find no error, and is
     thrown away if they do.
     */
    method Compile(t: Cmd, e: bool) returns (ok: bool)
      requires nerror == 0 && !panicked && holes == {}
      modifies this
      ensures ok == (Check(t, old(iflast)).errors == 0) && iflast == Check(t, old(iflast)).last
      ensures ok ==> codebuf == CodeVector(t, e)
      ensures !panicked && holes == {}
    {
      hide CodeC;
      hide Check;
      codebuf := [];
      Emit(Int(0));
      OutCode(t, e);
      ok := nerror == 0;
      if !ok {
        codebuf := [];
        return;
      }
      Emit(Op(XReturn));
      Emit(Nil);
    }
  }

  /******* One level of the code and of the checks *******/

  /** The constructs that `OutCode` emits itself; for the others, which flag they start from. */
  lemma PlainParts(t: Cmd, e: bool, at: nat, last: bool)
    ensures t.Seq? ==>
              && CodeC(t, e, at) == CodeC(t.first, e, at) + CodeC(t.second, e, at + |CodeC(t.first, e, at)|)
              && Check(t, last) ==
                 Flow(Check(t.first, last).errors + Check(t.second, Check(t.first, last).last).errors,
                      if t.first.Skip? then Check(t.second, Check(t.first, last).last).last else t.first.If?)
    ensures t.Bang? ==> CodeC(t, e, at) == CodeC(t.cmd, e, at) + [Op(XBang)]
    ensures t.Brace? ==> CodeC(t, e, at) == CodeC(t.cmd, e, at)
    ensures t.Bang? || t.Brace? ==> Check(t, last) == Flow(Check(t.cmd, false).errors, false)
  {
    PlainCode(t, e, at);
    hide CodeC;
  }

  lemma CheckStarts(t: Cmd, e: bool, at: nat, last: bool)
    ensures t.Skip? ==> CodeC(t, e, at) == [] && Check(t, last) == Flow(0, last)
    ensures t.Simple? || t.Twiddle? ==> Check(t, last) == Flow(0, false)
    ensures !t.Skip? && !t.Seq? && !t.IfNot? ==> Check(t, last) == Check(t, false)
  {
    PlainCode(t, e, at);
    hide CodeC;
  }

  lemma PlainCode(t: Cmd, e: bool, at: nat)
    ensures t.Skip? ==> CodeC(t, e, at) == []
    ensures t.Seq? ==> CodeC(t, e, at) == CodeC(t.first, e, at) + CodeC(t.second, e, at + |CodeC(t.first, e, at)|)
    ensures t.Bang? ==> CodeC(t, e, at) == CodeC(t.cmd, e, at) + [Op(XBang)]
    ensures t.Brace? ==> CodeC(t, e, at) == CodeC(t.cmd, e, at)
  {}

  lemma PatchMid(pre: seq<Cell>, fd0: nat, fd1: nat, mid: nat, left: seq<Cell>)
    ensures (pre + PipeHead(fd0, fd1, 0, 0) + left)[|pre| + 3 := Int(mid)] == pre + PipeHead(fd0, fd1, mid, 0) + left
  {}

  lemma PatchEnd(pre: seq<Cell>, fd0: nat, fd1: nat, mid: nat, end: nat, left: seq<Cell>, right: seq<Cell>)
    ensures (pre + PipeHead(fd0, fd1, mid, 0) + left + right)[|pre| + 4 := Int(end)] ==
            pre + (PipeHead(fd0, fd1, mid, end) + left + right)
  {}

  lemma ForkCheck(t: Cmd)
    requires t.Async? || t.Subshell?
    ensures Check(t, false) == Flow(Check(t.cmd, false).errors, false)
  {}

  /** The commands that are made of two others. */
  lemma PairCheck(t: Cmd)
    requires t.AndAnd? || t.OrOr? || t.If? || t.While? || t.Pipe?
    ensures var a := if t.If? || t.While? then t.cond else t.left;
            var b := if t.If? || t.While? then t.body else t.right;
            Check(t, false) == Flow(Check(a, false).errors + Check(b, Check(a, false).last).errors, t.If?)
  {}

  lemma IfNotCheck(t: Cmd, last: bool)
    requires t.IfNot?
    ensures var f := Check(t.body, last);
            Check(t, last) == Flow((if last then 0 else 1) + f.errors, if t.body.Skip? then f.last else t.body.If?)
  {}

  lemma Regroup(a: seq<Cell>, b: seq<Cell>, c: seq<Cell>, d: seq<Cell>)
    ensures a + b + c + d == a + b + (c + d)
  {}

  lemma ForParts(t: Cmd, e: bool, at: nat)
    requires t.For?
    ensures CodeC(t, e, at) ==
            var head := [Op(XMark)] + ForList(t.list) + CodeVariable(t.name);
            head + CodeLoop(t.body, e, at + |head|) + [Op(XUnlocal)]
    ensures Check(t, false) == Flow(Check(t.body, false).errors, false)
  {
    hide ForList;
    hide CodeVariable;
    hide CodeLoop;
  }

  function RedirectHead(t: Cmd): seq<Cell>
    requires t.Redirect? || t.DupFd? || t.CloseFd?
  {
    if t.Redirect? then [Op(XMark)] + CodeW(t.file) + [Op(XGlob), Op(RedirOp(t.kind)), Int(t.fd)]
    else if t.DupFd? then [Op(XDup), Int(t.fd0), Int(t.fd1)]
    else [Op(XClose), Int(t.fd)]
  }

  lemma RedirectParts(t: Cmd, e: bool, at: nat)
    requires t.Redirect? || t.DupFd? || t.CloseFd?
    ensures CodeC(t, e, at) ==
            var head := RedirectHead(t);
            head + (CodeC(t.body, e, at + |head|) + [Op(XPopredir)])
    ensures Check(t, false) == Flow(Check(t.body, false).errors, false)
  {
    hide CodeW;
  }

  lemma FnParts(t: Cmd, e: bool, at: nat)
    requires t.Fn?
    ensures CodeC(t, e, at) ==
            var head := [Op(XMark)] + CodeW(t.names);
            if t.body.Skip? then head + [Op(XDelfn)] else
            var code := CodeFn(t.body, e, at + |head| + 3);
            head + [Op(XFn), Int(at + |head| + 3 + |code|)] + ([Text(t.body)] + code)
    ensures Check(t, false) == Flow(Check(t.body, false).errors, false)
    ensures t.body.Skip? ==> Check(t, false).errors == 0
  {
    hide CodeW;
    hide CodeFn;
    var head := [Op(XMark)] + CodeW(t.names);
    var code := CodeFn(t.body, e, at + |head| + 3);
    var end := at + |head| + 3 + |code|;
    assert head + [Op(XFn), Int(end), Text(t.body)] + code
        == head + [Op(XFn), Int(end)] + ([Text(t.body)] + code);
  }

  lemma AssignParts(t: Cmd, e: bool, at: nat)
    requires t.Assign?
    ensures CodeC(t, e, at) ==
            if ChainEnd(t).Skip? then CodeGlobals(t)
            else Bindings(t) + CodeC(ChainEnd(t), e, at + |Bindings(t)|) + Unbindings(t)
    ensures Check(t, false) == Flow(Check(ChainEnd(t), false).errors, false)
    ensures ChainEnd(t).Skip? ==> Check(t, false).errors == 0
  {
    LocalsFlat(t, e, at);
  }

  /** The front of a switch, up to the jump that leaves it. */
  function SwitchHead(value: Word, at: nat): seq<Cell> {
    var head := [Op(XMark)] + CodeW(value);
    head + [Op(XJump), Int(at + |head| + 4)]
  }

  lemma SwitchParts(t: Cmd, e: bool, at: nat)
    requires t.Switch?
    ensures CodeC(t, e, at) ==
            if !HasCase(t.block) then [] else
            var head := SwitchHead(t.value, at);
            var out := at + |head|;
            var cases := CodeCases(Clauses(t.block), e, out + 2, out);
            head + [Op(XJump), Int(out + 2 + |cases|)] + cases + [Op(XPopm)]
    ensures Check(t, false) ==
            Flow(if HasCase(t.block) then CheckCases(Clauses(t.block), false).errors else 1, false)
  {
    hide CodeW;
    hide CodeCases;
    hide CheckCases;
  }

  function CaseCode(t: Cmd, e: bool, at: nat, out: nat): seq<Cell>
    requires t.Seq? && IsCase(t.first)
  {
    var head := [Op(XMark)] + CodeArgs(t.first.args);
    var body := CodeClause(t.second, e, at + |head| + 2);
    head + [Op(XCase), Int(at + |head| + 2 + |body| + 2)] + (body + [Op(XJump), Int(out)])
  }

  lemma ClauseParts(t: Cmd, e: bool, at: nat, last: bool)
    ensures t.Seq? && !IsCase(t.first) ==>
              (var f := Check(t.first, last);
               var g := CheckClause(t.second, f.last);
               && CodeClause(t, e, at) ==
                  CodeC(t.first, e, at) + CodeClause(t.second, e, at + |CodeC(t.first, e, at)|)
               && CheckClause(t, last) == Flow(f.errors + g.errors, g.last))
    ensures !t.Seq? && !IsCase(t) ==> CodeClause(t, e, at) == CodeC(t, e, at) && CheckClause(t, last) == Check(t, last)
    ensures (if t.Seq? then IsCase(t.first) else IsCase(t)) ==>
              CodeClause(t, e, at) == [] && CheckClause(t, last) == Flow(0, last)
  {
    hide CodeC;
    hide Check;
    hide IsCase;
  }

  lemma CasesEnd(t: Cmd, e: bool, at: nat, out: nat, last: bool)
    requires !t.Seq?
    ensures CodeCases(t, e, at, out) == [] && CheckCases(t, last) == Flow(0, last)
  {}

  lemma CasesParts(t: Cmd, e: bool, at: nat, out: nat, last: bool)
    requires t.Seq? && IsCase(t.first)
    ensures CodeCases(t, e, at, out) ==
            var code := CaseCode(t, e, at, out);
            code + CodeCases(NextClause(t.second), e, at + |code|, out)
    ensures CheckCases(t, last) ==
            var f := CheckClause(t.second, last && !HasPattern(t.first.args));
            var g := CheckCases(NextClause(t.second), f.last);
            Flow(f.errors + g.errors, g.last)
  {
    hide CodeArgs;
    hide CodeClause;
    hide CheckClause;
    hide HasPattern;
    hide Head;
    CasesCode(t, e, at, out);
    hide CodeCases;
    var head := [Op(XMark)] + CodeArgs(t.first.args);
    var body := CodeClause(t.second, e, at + |head| + 2);
    var next := at + |head| + 2 + |body| + 2;
    var test, jump := [Op(XCase), Int(next)], [Op(XJump), Int(out)];
    assert head + test + body + jump == head + test + (body + jump);
  }
}
