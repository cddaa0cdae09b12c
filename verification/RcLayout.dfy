/**
 The layout of emitted code: it is a sequence of whole instructions, its jumps lead
 to instructions of the same code, and the exit tests are where they should be
 (rc/code.c).
 */
module RcLayout {
  import opened RcTree
  import opened RcCode

  /** How many cells follow the routine's own cell. */
  function Operands(op: Op): nat {
    match op
    case XWord | XTrue | XFalse | XJump | XIf | XIfnot | XFor | XCase
       | XWrite | XRead | XAppend | XRdwr | XClose | XAsync | XSubshell => 1
    case XDup | XFn => 2
    case XPipe => 4
    case _ => 0
  }

  /** Routines whose first operand is an address. */
  predicate IsJump(op: Op) {
    || op.XTrue? || op.XFalse? || op.XJump? || op.XIf? || op.XIfnot? || op.XFor? || op.XCase? || op.XFn?
    || op.XAsync? || op.XSubshell?
  }

  /** The cells after the routine's are of the kinds the routine reads. */
  predicate GoodOperands(op: Op, operands: seq<Cell>) {
    && |operands| == Operands(op)
    && (op.XWord? ==> operands[0].Str?)
    && (op.XFn? ==> operands[0].Int? && operands[1].Text?)
    && (!op.XWord? && !op.XFn? ==> forall i :: 0 <= i < |operands| ==> operands[i].Int?)
  }

  /** The first instruction of some cells is whole; under !e it is no exit test. */
  predicate Whole(cells: seq<Cell>, e: bool) {
    && cells != [] && cells[0].Op?
    && Operands(cells[0].op) < |cells|
    && GoodOperands(cells[0].op, cells[1..1 + Operands(cells[0].op)])
    && (cells[0].op.XEflag? ==> e)
  }

  function Width(cells: seq<Cell>): nat
    requires cells != [] && cells[0].Op?
  {
    1 + Operands(cells[0].op)
  }

  /** The cells are a sequence of whole instructions. */
  predicate Complete(cells: seq<Cell>, e: bool) {
    cells == [] || (Whole(cells, e) && Complete(cells[Width(cells)..], e))
  }

  /** Where the instructions of complete cells start, and where the last one ends. */
  function Starts(cells: seq<Cell>, at: int): set<int>
    requires Complete(cells, true)
  {
    if cells == [] then {at} else {at} + Starts(cells[Width(cells)..], at + Width(cells))
  }

  /** Where the first instruction may lead; a pipe has two addresses. */
  function Leads(cells: seq<Cell>): set<int>
    requires Whole(cells, true)
  {
    if IsJump(cells[0].op) then assert cells[1..1 + Operands(cells[0].op)][0] == cells[1]; {cells[1].i}
    else if cells[0].op.XPipe? then
      assert cells[1..5][2] == cells[3] && cells[1..5][3] == cells[4]; {cells[3].i, cells[4].i}
    else {}
  }

  /** Where the jumps of complete cells lead. */
  function Targets(cells: seq<Cell>): set<int>
    requires Complete(cells, true)
  {
    if cells == [] then {}
    else Leads(cells) + Targets(cells[Width(cells)..])
  }

  lemma {:induction false} CompleteWeaken(cells: seq<Cell>, e: bool)
    requires Complete(cells, e)
    ensures Complete(cells, true)
  {
    if cells != [] {
      CompleteWeaken(cells[Width(cells)..], e);
    }
  }

  lemma {:induction false} CompleteConcat(a: seq<Cell>, b: seq<Cell>, e: bool)
    requires Complete(a, e) && Complete(b, e)
    ensures Complete(a + b, e)
    decreases |a|
  {
    hide Complete;
    CompleteStep(a, e);
    if a == [] {
      assert a + b == b;
    } else {
      hide Whole;
      WholeConcat(a, b, e);
      CompleteConcat(a[Width(a)..], b, e);
      CompleteStep(a + b, e);
    }
  }

  lemma CompleteStep(cells: seq<Cell>, e: bool)
    ensures Complete(cells, e) <==> cells == [] || (Whole(cells, e) && Complete(cells[Width(cells)..], e))
  {}

  lemma WholeConcat(a: seq<Cell>, b: seq<Cell>, e: bool)
    requires Whole(a, e)
    ensures a[0].Op? && Width(a) <= |a| && Whole(a + b, e) && (a + b)[0] == a[0]
    ensures (a + b)[Width(a)..] == a[Width(a)..] + b
    ensures e ==> Leads(a + b) == Leads(a)
  {
    var w := Width(a);
    assert (a + b)[1..w] == a[1..w];
    assert (a + b)[w..] == a[w..] + b;
  }

  /** The first instruction of a concatenation is the first of its first part. */
  lemma ConcatStep(a: seq<Cell>, b: seq<Cell>)
    requires a != [] && Complete(a, true) && Complete(b, true)
    ensures a[0].Op? && Width(a) <= |a| && Complete(a[Width(a)..], true)
    ensures Complete(a + b, true) && Complete(a[Width(a)..] + b, true)
    ensures (a + b)[0] == a[0] && (a + b)[Width(a)..] == a[Width(a)..] + b
    ensures Whole(a, true) && Whole(a + b, true) && Leads(a + b) == Leads(a)
  {
    hide Complete;
    CompleteHead(a);
    WholeConcat(a, b, true);
    hide Whole;
    CompleteConcat(a, b, true);
    CompleteConcat(a[Width(a)..], b, true);
  }

  lemma CompleteHead(a: seq<Cell>)
    requires a != [] && Complete(a, true)
    ensures Whole(a, true) && Width(a) <= |a| && Complete(a[Width(a)..], true)
  {}

  lemma StartsStep(cells: seq<Cell>, at: int)
    requires Complete(cells, true)
    ensures cells == [] ==> Starts(cells, at) == {at}
    ensures cells != [] ==> Starts(cells, at) == {at} + Starts(cells[Width(cells)..], at + Width(cells))
  {}

  lemma {:induction false} StartsConcat(a: seq<Cell>, b: seq<Cell>, at: int)
    requires Complete(a, true) && Complete(b, true) && Complete(a + b, true)
    ensures Starts(a + b, at) == Starts(a, at) + Starts(b, at + |a|)
    decreases |a|
  {
    hide Complete;
    hide Whole;
    hide Starts;
    StartsStep(a, at);
    if a == [] {
      assert a + b == b;
      StartsAt(b, at);
    } else {
      ConcatStep(a, b);
      StartsStep(a + b, at);
      StartsConcat(a[Width(a)..], b, at + Width(a));
    }
  }

  lemma {:induction false} TargetsConcat(a: seq<Cell>, b: seq<Cell>)
    requires Complete(a, true) && Complete(b, true) && Complete(a + b, true)
    ensures Targets(a + b) == Targets(a) + Targets(b)
    decreases |a|
  {
    hide Complete;
    hide Whole;
    hide Targets;
    if a == [] {
      assert a + b == b;
      TargetsNone();
    } else {
      ConcatStep(a, b);
      var rest := a[Width(a)..];
      TargetsConcat(rest, b);
      TargetsStep(a);
      TargetsStep(a + b);
      assert Targets(a + b) == Leads(a) + Targets(rest + b);
      hide Width;
      hide Leads;
      assert Leads(a) + (Targets(rest) + Targets(b)) == Leads(a) + Targets(rest) + Targets(b);
    }
  }

  lemma TargetsNone()
    ensures Targets([]) == {}
  {}

  lemma TargetsStep(cells: seq<Cell>)
    requires cells != [] && Complete(cells, true)
    ensures Whole(cells, true) && Complete(cells[Width(cells)..], true)
    ensures Targets(cells) == Leads(cells) + Targets(cells[Width(cells)..])
  {}

  lemma {:induction false} StartsAt(cells: seq<Cell>, at: int)
    requires Complete(cells, true)
    ensures at in Starts(cells, at) && at + |cells| in Starts(cells, at)
  {
    if cells != [] {
      StartsAt(cells[Width(cells)..], at + Width(cells));
    }
  }

  /**
   The cells, placed at address at, are whole instructions; each of their jumps leads
   to an instruction among them, to their end or to one of the outer addresses.
   */
  ghost predicate Laid(cells: seq<Cell>, at: int, e: bool, outer: set<int>) {
    && Complete(cells, e)
    && (CompleteWeaken(cells, e); Targets(cells) <= Starts(cells, at) + outer)
  }

  /** Code after code. */
  lemma LaidConcat(a: seq<Cell>, b: seq<Cell>, at: int, e: bool, outer: set<int>)
    requires Laid(a, at, e, outer) && Laid(b, at + |a|, e, outer)
    ensures Laid(a + b, at, e, outer)
  {
    hide Starts;
    hide Targets;
    CompleteConcat(a, b, e);
    CompleteWeaken(a, e);
    CompleteWeaken(b, e);
    CompleteWeaken(a + b, e);
    StartsConcat(a, b, at);
    TargetsConcat(a, b);
  }

  lemma LaidWeaken(cells: seq<Cell>, at: int, e: bool, outer: set<int>)
    requires Laid(cells, at, e, {})
    ensures Laid(cells, at, e, outer)
  {}

  /** Outer addresses that turn out to be starts of the code itself. */
  lemma LaidClose(cells: seq<Cell>, at: int, e: bool, outer: set<int>, points: set<int>)
    requires Laid(cells, at, e, outer + points)
    requires forall p :: p in points ==> IsStart(cells, at, p)
    ensures Laid(cells, at, e, outer)
  {
    hide Starts;
    hide Targets;
    CompleteWeaken(cells, e);
    forall p | p in Targets(cells) ensures p in Starts(cells, at) + outer {
      assert p in points ==> IsStart(cells, at, p);
    }
  }

  ghost predicate IsStart(cells: seq<Cell>, at: int, p: int) {
    Complete(cells, true) && p in Starts(cells, at)
  }

  /** The ends of a piece of code are starts of the whole. */
  lemma StartIn(a: seq<Cell>, b: seq<Cell>, at: int, e: bool, outer: set<int>)
    requires Laid(a, at, e, outer) && Laid(b, at + |a|, e, outer)
    ensures IsStart(a + b, at, at) && IsStart(a + b, at, at + |a|) && IsStart(a + b, at, at + |a| + |b|)
    ensures forall p :: IsStart(a, at, p) ==> IsStart(a + b, at, p)
  {
    hide Starts;
    hide Targets;
    CompleteWeaken(a, e);
    CompleteWeaken(b, e);
    CompleteConcat(a, b, true);
    StartsConcat(a, b, at);
    StartsAt(a, at);
    StartsAt(b, at + |a|);
  }

  lemma EndsAreStarts(cells: seq<Cell>, at: int, e: bool, outer: set<int>)
    requires Laid(cells, at, e, outer)
    ensures IsStart(cells, at, at) && IsStart(cells, at, at + |cells|)
  {
    CompleteWeaken(cells, e);
    StartsAt(cells, at);
  }

  lemma LaidNone(at: int, e: bool, outer: set<int>)
    ensures Laid([], at, e, outer)
  {}

  /** One instruction that is no jump. */
  lemma LaidPlain(cells: seq<Cell>, at: int, e: bool, outer: set<int>)
    requires Whole(cells, e) && |cells| == Width(cells) && !IsJump(cells[0].op) && !cells[0].op.XPipe?
    ensures Laid(cells, at, e, outer)
  {
    assert cells[Width(cells)..] == [];
    CompleteWeaken(cells, e);
  }

  /** One routine without operands. */
  lemma LaidOne(op: Op, at: int, e: bool, outer: set<int>)
    requires Operands(op) == 0 && (op.XEflag? ==> e)
    ensures Laid([Op(op)], at, e, outer)
  {
    assert [Op(op)][1..1] == [];
    LaidPlain([Op(op)], at, e, outer);
  }

  /** One jump. */
  lemma LaidJump(op: Op, target: int, at: int, e: bool, outer: set<int>)
    requires IsJump(op) && !op.XFn? && target in outer
    ensures Laid([Op(op), Int(target)], at, e, outer)
  {
    var cells := [Op(op), Int(target)];
    assert cells[1..2] == [Int(target)] && cells[2..] == [];
    CompleteWeaken(cells, e);
  }

  /******* Words *******/

  lemma LaidMarked(cells: seq<Cell>, op: Op, at: int, e: bool, outer: set<int>)
    requires Laid(cells, at + 1, e, outer) && Operands(op) == 0 && !op.XEflag?
    ensures Laid([Op(XMark)] + cells + [Op(op)], at, e, outer)
  {
    hide Laid;
    LaidOne(XMark, at, e, outer);
    LaidConcat([Op(XMark)], cells, at, e, outer);
    LaidOne(op, at + 1 + |cells|, e, outer);
    LaidConcat([Op(XMark)] + cells, [Op(op)], at, e, outer);
  }

  lemma LaidTwoWords(a: seq<Cell>, b: seq<Cell>, at: int, e: bool, outer: set<int>)
    requires Laid(a, at + 1, e, outer) && Laid(b, at + 2 + |a|, e, outer)
    ensures Laid([Op(XMark)] + a + [Op(XMark)] + b, at, e, outer)
  {
    hide Laid;
    LaidMarked(a, XMark, at, e, outer);
    LaidConcat([Op(XMark)] + a + [Op(XMark)], b, at, e, outer);
  }

  lemma {:induction false} WordLaid(w: Word, at: int, e: bool, outer: set<int>)
    ensures Laid(CodeW(w), at, e, outer)
    decreases w, 1
  {
    hide Laid;
    match w
    case NoWord => LaidNone(at, e, outer);
    case Lit(s, _) =>
      assert CodeW(w)[1..2] == [Str(s)];
      LaidPlain(CodeW(w), at, e, outer);
    case ArgList(a, b) => PairLaid(w, a, b, at, e, outer);
    case Words(a, b) => PairLaid(w, a, b, at, e, outer);
    case Paren(a) => WordLaid(a, at, e, outer);
    case Dollar(n) => WordLaid(n, at + 1, e, outer); LaidMarked(CodeW(n), XDol, at, e, outer);
    case Count(n) => WordLaid(n, at + 1, e, outer); LaidMarked(CodeW(n), XCount, at, e, outer);
    case Join(n) => WordLaid(n, at + 1, e, outer); LaidMarked(CodeW(n), XQdol, at, e, outer);
    case Sub(n, s) => CombinedLaid(w, n, s, XSub, at, e, outer);
    case Caret(l, r) => CombinedLaid(w, r, l, XConc, at, e, outer);
  }

  lemma {:induction false} PairLaid(w: Word, a: Word, b: Word, at: int, e: bool, outer: set<int>)
    requires a < w && b < w
    ensures Laid(CodeW(b) + CodeW(a), at, e, outer)
    decreases w, 0
  {
    hide Laid;
    hide CodeW;
    WordLaid(b, at, e, outer);
    WordLaid(a, at + |CodeW(b)|, e, outer);
    LaidConcat(CodeW(b), CodeW(a), at, e, outer);
  }

  lemma {:induction false} CombinedLaid(w: Word, a: Word, b: Word, op: Op, at: int, e: bool, outer: set<int>)
    requires a < w && b < w && Operands(op) == 0 && !op.XEflag?
    ensures Laid([Op(XMark)] + CodeW(a) + [Op(XMark)] + CodeW(b) + [Op(op)], at, e, outer)
    decreases w, 0
  {
    hide Laid;
    hide CodeW;
    WordLaid(a, at + 1, e, outer);
    WordLaid(b, at + 2 + |CodeW(a)|, e, outer);
    LaidTwoWords(CodeW(a), CodeW(b), at, e, outer);
    var words := [Op(XMark)] + CodeW(a) + [Op(XMark)] + CodeW(b);
    LaidOne(op, at + |words|, e, outer);
    LaidConcat(words, [Op(op)], at, e, outer);
  }

  lemma {:induction false} ArgsLaid(w: Word, at: int, e: bool, outer: set<int>)
    ensures Laid(CodeArgs(w), at, e, outer)
  {
    hide Laid;
    hide CodeW;
    if w.ArgList? {
      WordLaid(w.last, at, e, outer);
      ArgsLaid(w.init, at + |CodeW(w.last)|, e, outer);
      LaidConcat(CodeW(w.last), CodeArgs(w.init), at, e, outer);
    } else {
      LaidNone(at, e, outer);
    }
  }

  lemma MarkedLaid(w: Word, at: int, e: bool, outer: set<int>)
    ensures Laid([Op(XMark)] + CodeW(w), at, e, outer)
  {
    hide Laid;
    hide CodeW;
    LaidOne(XMark, at, e, outer);
    WordLaid(w, at + 1, e, outer);
    LaidConcat([Op(XMark)], CodeW(w), at, e, outer);
  }

  lemma EflagLaid(at: int, e: bool, outer: set<int>)
    ensures Laid(EflagTest(e), at, e, outer)
  {
    hide Laid;
    if e {
      LaidOne(XEflag, at, e, outer);
    } else {
      LaidNone(at, e, outer);
    }
  }

  lemma BindingLaid(name: Word, value: Word, op: Op, at: int, e: bool, outer: set<int>)
    requires Operands(op) == 0 && !op.XEflag?
    ensures Laid(CodeBinding(name, value) + [Op(op)], at, e, outer)
  {
    hide Laid;
    hide CodeW;
    CombinedLaid(Caret(name, value), value, name, op, at, e, outer);
  }

  /******* Commands *******/

  /** A jump between two pieces of code; outer holds the jump's target. */
  lemma LaidAround(a: seq<Cell>, op: Op, target: int, b: seq<Cell>, at: int, e: bool, outer: set<int>)
    requires IsJump(op) && !op.XFn? && target in outer
    requires Laid(a, at, e, outer) && Laid(b, at + |a| + 2, e, outer)
    ensures Laid(a + [Op(op), Int(target)] + b, at, e, outer)
  {
    hide Laid;
    LaidJump(op, target, at + |a|, e, outer);
    LaidConcat(a, [Op(op), Int(target)], at, e, outer);
    LaidConcat(a + [Op(op), Int(target)], b, at, e, outer);
  }

  /** Code that jumps to its own start or end only. */
  lemma LaidSelf(cells: seq<Cell>, at: int, e: bool)
    requires Laid(cells, at, e, {at, at + |cells|})
    ensures Laid(cells, at, e, {})
  {
    hide Laid;
    hide IsStart;
    EndsAreStarts(cells, at, e, {at, at + |cells|});
    assert {} + {at, at + |cells|} == {at, at + |cells|};
    LaidClose(cells, at, e, {}, {at, at + |cells|});
  }

  /** Code compiled without the exit flag can stand where the flag is set. */
  lemma LaidAny(cells: seq<Cell>, at: int, e: bool, outer: set<int>)
    requires Laid(cells, at, false, {})
    ensures Laid(cells, at, e, outer)
  {
    CompleteAny(cells, e);
    CompleteWeaken(cells, e);
  }

  lemma {:induction false} CompleteAny(cells: seq<Cell>, e: bool)
    requires Complete(cells, false)
    ensures Complete(cells, e)
  {
    if cells != [] {
      CompleteAny(cells[Width(cells)..], e);
    }
  }

  lemma {:induction false} SeqLaid(c: Cmd, e: bool, at: nat)
    requires c.Seq?
    ensures Laid(CodeC(c, e, at), at, e, {})
    decreases c, 0
  {
    hide Laid;
    CodeLaid(c.first, e, at);
    CodeLaid(c.second, e, at + |CodeC(c.first, e, at)|);
    LaidConcat(CodeC(c.first, e, at), CodeC(c.second, e, at + |CodeC(c.first, e, at)|), at, e, {});
  }

  lemma {:induction false} TestLaid(c: Cmd, e: bool, at: nat)
    requires c.AndAnd? || c.OrOr?
    ensures Laid(CodeC(c, e, at), at, e, {})
    decreases c, 0
  {
    hide Laid;
    TestCode(c, e, at);
    hide CodeC;
    var first := CodeC(c.left, false, at);
    var second := CodeC(c.right, e, at + |first| + 2);
    var end := at + |first| + 2 + |second|;
    var op := if c.AndAnd? then XTrue else XFalse;
    CodeLaid(c.left, false, at);
    CodeLaid(c.right, e, at + |first| + 2);
    LaidAny(first, at, e, {at, end});
    LaidWeaken(second, at + |first| + 2, e, {at, end});
    LaidAround(first, op, end, second, at, e, {at, end});
    LaidSelf(CodeC(c, e, at), at, e);
  }

  lemma {:induction false} IfLaid(c: Cmd, e: bool, at: nat)
    requires c.If?
    ensures Laid(CodeC(c, e, at), at, e, {})
    decreases c, 0
  {
    hide Laid;
    IfCode(c, e, at);
    hide CodeC;
    var cond := CodeC(c.cond, false, at);
    var body := CodeC(c.body, e, at + |cond| + 2);
    var end := at + |cond| + 2 + |body| + 1;
    CodeLaid(c.cond, false, at);
    CodeLaid(c.body, e, at + |cond| + 2);
    LaidAny(cond, at, e, {at, end});
    LaidWeaken(body, at + |cond| + 2, e, {at, end});
    LaidAround(cond, XIf, end, body, at, e, {at, end});
    LaidOne(XWastrue, end - 1, e, {at, end});
    LaidConcat(cond + [Op(XIf), Int(end)] + body, [Op(XWastrue)], at, e, {at, end});
    LaidSelf(CodeC(c, e, at), at, e);
  }

  lemma {:induction false} IfNotLaid(c: Cmd, e: bool, at: nat)
    requires c.IfNot?
    ensures Laid(CodeC(c, e, at), at, e, {})
    decreases c, 0
  {
    hide Laid;
    IfNotCode(c, e, at);
    hide CodeC;
    var body := CodeC(c.body, e, at + 2);
    var end := at + 2 + |body|;
    CodeLaid(c.body, e, at + 2);
    LaidWeaken(body, at + 2, e, {at, end});
    LaidNone(at, e, {at, end});
    LaidAround([], XIfnot, end, body, at, e, {at, end});
    var jump := [Op(XIfnot), Int(end)];
    assert [] + jump == jump;
    LaidSelf(CodeC(c, e, at), at, e);
  }

  lemma {:induction false} CondLaid(a: Cmd, e: bool, at: nat, outer: set<int>)
    ensures Laid(CodeCond(a, at), at, e, outer)
    decreases a, 3
  {
    hide Laid;
    hide CodeC;
    CodeLaid(a, false, at);
    LaidAny(CodeC(a, false, at), at, e, outer);
    LaidOne(XSettrue, at, e, outer);
  }

  lemma {:induction false} WhileLaid(c: Cmd, e: bool, at: nat)
    requires c.While?
    ensures Laid(CodeC(c, e, at), at, e, {})
    decreases c, 0
  {
    hide Laid;
    hide CodeCond;
    var cond := CodeCond(c.cond, at);
    var body := CodeC(c.body, e, at + |cond| + 2);
    var end := at + |cond| + 2 + |body| + 2;
    CondLaid(c.cond, e, at, {at, end});
    CodeLaid(c.body, e, at + |cond| + 2);
    LaidWeaken(body, at + |cond| + 2, e, {at, end});
    LaidAround(cond, XTrue, end, body, at, e, {at, end});
    LaidJump(XJump, at, end - 2, e, {at, end});
    LaidConcat(cond + [Op(XTrue), Int(end)] + body, [Op(XJump), Int(at)], at, e, {at, end});
    LaidSelf(CodeC(c, e, at), at, e);
  }

  lemma {:induction false} LoopLaid(body: Cmd, e: bool, at: nat)
    ensures Laid(CodeLoop(body, e, at), at, e, {})
    decreases body, 3
  {
    hide Laid;
    hide CodeC;
    var code := CodeC(body, e, at + 2);
    var end := at + 2 + |code| + 2;
    CodeLaid(body, e, at + 2);
    LaidWeaken(code, at + 2, e, {at, end});
    LaidNone(at, e, {at, end});
    LaidAround([], XFor, end, code, at, e, {at, end});
    LaidJump(XJump, at, end - 2, e, {at, end});
    assert CodeLoop(body, e, at) == [] + [Op(XFor), Int(end)] + code + [Op(XJump), Int(at)];
    LaidConcat([] + [Op(XFor), Int(end)] + code, [Op(XJump), Int(at)], at, e, {at, end});
    LaidSelf(CodeLoop(body, e, at), at, e);
  }

  lemma ForListLaid(list: Word, at: int, e: bool)
    ensures Laid([Op(XMark)] + ForList(list), at, e, {})
  {
    hide Laid;
    if list.NoWord? {
      MarkedLaid(Dollar(Lit("*", false)), at, e, {});
      assert CodeW(Dollar(Lit("*", false))) == ForList(list);
    } else {
      hide CodeW;
      WordLaid(list, at + 1, e, {});
      LaidMarked(CodeW(list), XGlob, at, e, {});
      assert [Op(XMark)] + ForList(list) == [Op(XMark)] + CodeW(list) + [Op(XGlob)];
    }
  }

  lemma VariableLaid(name: Word, at: int, e: bool)
    ensures Laid(CodeVariable(name), at, e, {})
  {
    hide Laid;
    hide CodeW;
    LaidOne(XMark, at, e, {});
    WordLaid(name, at + 2, e, {});
    LaidMarked(CodeW(name), XLocal, at + 1, e, {});
    LaidConcat([Op(XMark)], [Op(XMark)] + CodeW(name) + [Op(XLocal)], at, e, {});
    assert CodeVariable(name) == [Op(XMark)] + ([Op(XMark)] + CodeW(name) + [Op(XLocal)]);
  }

  lemma {:induction false} ForLaid(c: Cmd, e: bool, at: nat)
    requires c.For?
    ensures Laid(CodeC(c, e, at), at, e, {})
    decreases c, 0
  {
    hide Laid;
    hide ForList;
    hide CodeVariable;
    hide CodeLoop;
    var words, variable := [Op(XMark)] + ForList(c.list), CodeVariable(c.name);
    var top := at + |words| + |variable|;
    var loop := CodeLoop(c.body, e, top);
    ForListLaid(c.list, at, e);
    VariableLaid(c.name, at + |words|, e);
    LoopLaid(c.body, e, top);
    LaidOne(XUnlocal, top + |loop|, e, {});
    LaidConcat(words, variable, at, e, {});
    LaidConcat(words + variable, loop, at, e, {});
    LaidConcat(words + variable + loop, [Op(XUnlocal)], at, e, {});
  }

  lemma {:induction false} ScopedLaid(body: Cmd, e: bool, at: nat)
    ensures Laid(CodeScoped(body, e, at), at, e, {})
    decreases body, 3
  {
    hide Laid;
    hide CodeC;
    CodeLaid(body, e, at);
    LaidOne(XPopredir, at + |CodeC(body, e, at)|, e, {});
    LaidConcat(CodeC(body, e, at), [Op(XPopredir)], at, e, {});
  }

  /** The instruction that pushes the redirection. */
  lemma OpenLaid(op: Op, operands: seq<Cell>, at: int, e: bool)
    requires Operands(op) > 0 && !IsJump(op) && !op.XPipe? && GoodOperands(op, operands)
    ensures Laid([Op(op)] + operands, at, e, {})
  {
    hide Laid;
    assert ([Op(op)] + operands)[1..1 + |operands|] == operands;
    LaidPlain([Op(op)] + operands, at, e, {});
  }

  lemma {:induction false} RedirectLaid(c: Cmd, e: bool, at: nat)
    requires c.Redirect? || c.DupFd? || c.CloseFd?
    ensures Laid(CodeC(c, e, at), at, e, {})
    decreases c, 0
  {
    hide Laid;
    hide CodeScoped;
    hide CodeW;
    var head :=
      if c.Redirect? then [Op(XMark)] + CodeW(c.file) + [Op(XGlob), Op(RedirOp(c.kind)), Int(c.fd)]
      else if c.DupFd? then [Op(XDup), Int(c.fd0), Int(c.fd1)]
      else [Op(XClose), Int(c.fd)];
    if c.Redirect? {
      var name := [Op(XMark)] + CodeW(c.file) + [Op(XGlob)];
      WordLaid(c.file, at + 1, e, {});
      LaidMarked(CodeW(c.file), XGlob, at, e, {});
      OpenLaid(RedirOp(c.kind), [Int(c.fd)], at + |name|, e);
      LaidConcat(name, [Op(RedirOp(c.kind))] + [Int(c.fd)], at, e, {});
      assert head == name + ([Op(RedirOp(c.kind))] + [Int(c.fd)]);
    } else if c.DupFd? {
      OpenLaid(XDup, [Int(c.fd0), Int(c.fd1)], at, e);
      assert head == [Op(XDup)] + [Int(c.fd0), Int(c.fd1)];
    } else {
      OpenLaid(XClose, [Int(c.fd)], at, e);
      assert head == [Op(XClose)] + [Int(c.fd)];
    }
    ScopedLaid(c.body, e, at + |head|);
    LaidConcat(head, CodeScoped(c.body, e, at + |head|), at, e, {});
  }

  lemma {:induction false} GlobalsLaid(c: Cmd, e: bool, at: int)
    ensures Laid(CodeGlobals(c), at, e, {})
    decreases c
  {
    hide Laid;
    hide CodeBinding;
    if c.Assign? {
      var head := CodeBinding(c.name, c.value) + [Op(XAssign)];
      BindingLaid(c.name, c.value, XAssign, at, e, {});
      GlobalsLaid(c.rest, e, at + |head|);
      LaidConcat(head, CodeGlobals(c.rest), at, e, {});
    } else {
      LaidNone(at, e, {});
    }
  }

  lemma {:induction false} LocalsLaid(c: Cmd, e: bool, at: nat)
    ensures Laid(CodeLocals(c, e, at), at, e, {})
    decreases c, if c.Assign? then 0 else 3
  {
    hide Laid;
    hide CodeBinding;
    hide CodeC;
    if c.Assign? {
      var head := CodeBinding(c.name, c.value) + [Op(XLocal)];
      var inner := CodeLocals(c.rest, e, at + |head|);
      BindingLaid(c.name, c.value, XLocal, at, e, {});
      LocalsLaid(c.rest, e, at + |head|);
      LaidConcat(head, inner, at, e, {});
      LaidOne(XUnlocal, at + |head| + |inner|, e, {});
      LaidConcat(head + inner, [Op(XUnlocal)], at, e, {});
    } else {
      CodeLaid(c, e, at);
    }
  }

  lemma {:induction false} ClauseLaid(t: Cmd, e: bool, at: nat)
    ensures Laid(CodeClause(t, e, at), at, e, {})
    decreases t, 3
  {
    hide Laid;
    hide CodeC;
    hide IsCase;
    LaidNone(at, e, {});
    if t.Seq? {
      if !IsCase(t.first) {
        var first := CodeC(t.first, e, at);
        CodeLaid(t.first, e, at);
        ClauseLaid(t.second, e, at + |first|);
        LaidConcat(first, CodeClause(t.second, e, at + |first|), at, e, {});
      }
    } else if !IsCase(t) {
      CodeLaid(t, e, at);
    }
  }

  /** The clauses of a switch: the only jump out of them goes to `out`. */
  lemma {:induction false} CasesLaid(t: Cmd, e: bool, at: nat, out: nat)
    ensures Laid(CodeCases(t, e, at, out), at, e, {out})
    decreases t, 4
  {
    hide Laid;
    hide CodeArgs;
    hide CodeClause;
    hide Head;
    LaidNone(at, e, {out});
    if t.Seq? && IsCase(t.first) {
      var head := [Op(XMark)] + CodeArgs(t.first.args);
      var body := CodeClause(t.second, e, at + |head| + 2);
      var next := at + |head| + 2 + |body| + 2;
      var jump := [Op(XJump), Int(out)];
      var clause := head + [Op(XCase), Int(next)] + body + jump;
      LaidOne(XMark, at, e, {out, next});
      ArgsLaid(t.first.args, at + 1, e, {out, next});
      LaidConcat([Op(XMark)], CodeArgs(t.first.args), at, e, {out, next});
      ClauseLaid(t.second, e, at + |head| + 2);
      LaidWeaken(body, at + |head| + 2, e, {out, next});
      LaidAround(head, XCase, next, body, at, e, {out, next});
      LaidJump(XJump, out, next - 2, e, {out, next});
      LaidConcat(head + [Op(XCase), Int(next)] + body, jump, at, e, {out, next});
      EndsAreStarts(clause, at, e, {out, next});
      assert {out} + {next} == {out, next};
      LaidClose(clause, at, e, {out}, {next});
      CasesLaid(NextClause(t.second), e, next, out);
      LaidConcat(clause, CodeCases(NextClause(t.second), e, next, out), at, e, {out});
    }
  }

  lemma {:induction false} SwitchLaid(c: Cmd, e: bool, at: nat)
    requires c.Switch?
    ensures Laid(CodeC(c, e, at), at, e, {})
    decreases c, 0
  {
    hide Laid;
    hide IsStart;
    hide CodeW;
    hide CodeCases;
    LaidNone(at, e, {});
    if HasCase(c.block) {
      var head := [Op(XMark)] + CodeW(c.value);
      var out := at + |head| + 2;
      var cases := CodeCases(Clauses(c.block), e, out + 2, out);
      var leave := out + 2 + |cases|;
      var points := {out, out + 2, leave};
      var skip, exit := [Op(XJump), Int(out + 2)], [Op(XJump), Int(leave)];
      MarkedLaid(c.value, at, e, points);
      LaidJump(XJump, out + 2, at + |head|, e, points);
      LaidJump(XJump, leave, out, e, points);
      CasesLaid(Clauses(c.block), e, out + 2, out);
      LaidMore(cases, out + 2, e, {out}, points);
      LaidOne(XPopm, leave, e, points);
      LaidConcat(head, skip, at, e, points);
      LaidConcat(head + skip, exit, at, e, points);
      LaidConcat(head + skip + exit, cases, at, e, points);
      LaidConcat(head + skip + exit + cases, [Op(XPopm)], at, e, points);
      StartIn(head + skip, exit, at, e, points);
      StartIn(head + skip + exit, cases, at, e, points);
      StartIn(head + skip + exit + cases, [Op(XPopm)], at, e, points);
      assert {} + points == points;
      LaidClose(CodeC(c, e, at), at, e, {}, points);
    }
  }

  lemma LaidMore(cells: seq<Cell>, at: int, e: bool, outer: set<int>, more: set<int>)
    requires Laid(cells, at, e, outer) && outer <= more
    ensures Laid(cells, at, e, more)
  {}

  /** A function definition: its jump leads over the body. */
  lemma {:induction false} FnLaid(c: Cmd, e: bool, at: nat)
    requires c.Fn?
    ensures Laid(CodeC(c, e, at), at, e, {})
    decreases c, 0
  {
    hide Laid;
    hide CodeW;
    var head := [Op(XMark)] + CodeW(c.names);
    if c.body.Skip? {
      MarkedLaid(c.names, at, e, {});
      LaidOne(XDelfn, at + |head|, e, {});
      LaidConcat(head, [Op(XDelfn)], at, e, {});
    } else {
      var start := at + |head| + 3;
      var body := CodeC(c.body, e, start);
      var end := start + |body| + 2;
      MarkedLaid(c.names, at, e, {at, end});
      DefinitionLaid(end, c.body, at + |head|, e, {at, end});
      LaidConcat(head, [Op(XFn), Int(end), Text(c.body)], at, e, {at, end});
      CodeLaid(c.body, e, start);
      LaidOne(XUnlocal, start + |body|, e, {});
      LaidOne(XReturn, start + |body| + 1, e, {});
      LaidConcat([Op(XUnlocal)], [Op(XReturn)], start + |body|, e, {});
      assert [Op(XUnlocal)] + [Op(XReturn)] == [Op(XUnlocal), Op(XReturn)];
      LaidConcat(body, [Op(XUnlocal), Op(XReturn)], start, e, {});
      LaidWeaken(CodeFn(c.body, e, start), start, e, {at, end});
      LaidConcat(head + [Op(XFn), Int(end), Text(c.body)], CodeFn(c.body, e, start), at, e, {at, end});
      LaidSelf(CodeC(c, e, at), at, e);
    }
  }

  lemma DefinitionLaid(target: int, body: Cmd, at: int, e: bool, outer: set<int>)
    requires target in outer
    ensures Laid([Op(XFn), Int(target), Text(body)], at, e, outer)
  {
    var cells := [Op(XFn), Int(target), Text(body)];
    assert cells[1..3] == [Int(target), Text(body)] && cells[3..] == [];
    CompleteWeaken(cells, e);
  }

  lemma {:induction false} SimpleLaid(c: Cmd, e: bool, at: nat)
    requires c.Simple? || c.Twiddle?
    ensures Laid(CodeC(c, e, at), at, e, {})
  {
    hide Laid;
    hide CodeW;
    hide EflagTest;
    var head :=
      if c.Simple? then [Op(XMark)] + CodeW(c.args) + [Op(XSimple)]
      else [Op(XMark)] + CodeW(c.patterns) + [Op(XMark)] + CodeW(c.subject) + [Op(XMatch)];
    if c.Simple? {
      WordLaid(c.args, at + 1, e, {});
      LaidMarked(CodeW(c.args), XSimple, at, e, {});
    } else {
      CombinedLaid(Caret(c.subject, c.patterns), c.patterns, c.subject, XMatch, at, e, {});
    }
    EflagLaid(at + |head|, e, {});
    LaidConcat(head, EflagTest(e), at, e, {});
  }

  lemma {:induction false} ForkLaid(op: Op, a: Cmd, e: bool, at: nat)
    requires op.XAsync? || op.XSubshell?
    ensures Laid(CodeFork(op, a, e, at), at, e, {})
    decreases a, 3
  {
    hide Laid;
    hide CodeC;
    var code := CodeC(a, e, at + 2);
    var body := code + [Op(XExit)];
    var end := at + 2 + |body|;
    CodeLaid(a, e, at + 2);
    LaidOne(XExit, at + 2 + |code|, e, {});
    LaidConcat(code, [Op(XExit)], at + 2, e, {});
    LaidWeaken(body, at + 2, e, {at, end});
    LaidNone(at, e, {at, end});
    LaidAround([], op, end, body, at, e, {at, end});
    var jump := [Op(op), Int(end)];
    assert [] + jump == jump;
    LaidSelf(CodeFork(op, a, e, at), at, e);
  }

  /** The instruction that starts a pipeline. */
  lemma LaidPipe(fd0: nat, fd1: nat, mid: nat, end: nat, at: int, e: bool)
    ensures Laid(PipeHead(fd0, fd1, mid, end), at, e, {mid, end})
  {
    var cells := PipeHead(fd0, fd1, mid, end);
    assert cells[1..5] == [Int(fd0), Int(fd1), Int(mid), Int(end)] && cells[5..] == [];
    CompleteWeaken(cells, e);
  }

  lemma {:induction false} SideLaid(a: Cmd, op: Op, e: bool, at: nat, outer: set<int>)
    requires op.XExit? || op.XReturn?
    ensures Laid(CodeC(a, e, at) + [Op(op)], at, e, outer)
    decreases a, 3
  {
    hide Laid;
    hide CodeC;
    CodeLaid(a, e, at);
    LaidOne(op, at + |CodeC(a, e, at)|, e, {});
    LaidConcat(CodeC(a, e, at), [Op(op)], at, e, {});
    LaidWeaken(CodeC(a, e, at) + [Op(op)], at, e, outer);
  }

  /** A pipeline leads to its right side and to its wait. */
  lemma {:induction false} PipeLaid(c: Cmd, e: bool, at: nat)
    requires c.Pipe?
    ensures Laid(CodeC(c, e, at), at, e, {})
    decreases c, 0
  {
    hide Laid;
    hide CodeC;
    hide PipeHead;
    PipeCode(c, e, at);
    var left := CodeC(c.left, e, at + 5) + [Op(XExit)];
    var mid := at + 5 + |left|;
    var right := CodeC(c.right, e, mid) + [Op(XReturn)];
    var end := mid + |right|;
    var outer := {mid, end};
    LaidPipe(c.fd0, c.fd1, mid, end, at, e);
    SideLaid(c.left, XExit, e, at + 5, outer);
    SideLaid(c.right, XReturn, e, mid, outer);
    LaidOne(XPipewait, end, e, outer);
    PartsLaid(PipeHead(c.fd0, c.fd1, mid, end), left, right, [Op(XPipewait)], at, e);
  }

  /** Four parts that lead to each other's starts. */
  lemma PartsLaid(head: seq<Cell>, left: seq<Cell>, right: seq<Cell>, wait: seq<Cell>, at: int, e: bool)
    requires var mid := at + |head| + |left|;
             var end := mid + |right|;
             && Laid(head, at, e, {mid, end}) && Laid(left, at + |head|, e, {mid, end})
             && Laid(right, mid, e, {mid, end}) && Laid(wait, end, e, {mid, end})
    ensures Laid(head + left + right + wait, at, e, {})
  {
    hide Laid;
    hide IsStart;
    var mid := at + |head| + |left|;
    var end := mid + |right|;
    var outer := {mid, end};
    LaidConcat(head, left, at, e, outer);
    LaidConcat(head + left, right, at, e, outer);
    LaidConcat(head + left + right, wait, at, e, outer);
    StartIn(head + left, right, at, e, outer);
    StartIn(head + left + right, wait, at, e, outer);
    assert {} + outer == outer;
    LaidClose(head + left + right + wait, at, e, {}, outer);
  }

  /** Where the two addresses of a pipeline lead: to the right side, behind the end of the left
      one, and to the wait, behind the return of the right one. */
  lemma PipeLeads(c: Cmd, e: bool, at: nat)
    requires c.Pipe?
    ensures var code, left := CodeC(c, e, at), CodeC(c.left, e, at + 5);
            var mid := at + 5 + |left| + 1;
            var right := CodeC(c.right, e, mid);
            var end := mid + |right| + 1;
            && |code| == end - at + 1 && code[0] == Op(XPipe) && code[3] == Int(mid) && code[4] == Int(end)
            && code[5..5 + |left|] == left && code[mid - at - 1] == Op(XExit)
            && code[mid - at..end - at - 1] == right && code[end - at - 1] == Op(XReturn)
            && code[end - at] == Op(XPipewait)
  {
    hide CodeC;
    PipeCode(c, e, at);
    var left := CodeC(c.left, e, at + 5);
    var mid := at + 5 + |left| + 1;
    var right := CodeC(c.right, e, mid);
    var end := mid + |right| + 1;
    PartsAt(PipeHead(c.fd0, c.fd1, mid, end), left, XExit, right, XReturn, XPipewait);
  }

  lemma PartsAt(head: seq<Cell>, left: seq<Cell>, op1: Op, right: seq<Cell>, op2: Op, op3: Op)
    ensures var code := head + (left + [Op(op1)]) + (right + [Op(op2)]) + [Op(op3)];
            var h, m := |head|, |head| + |left| + 1;
            && |code| == m + |right| + 2 && code[..h] == head
            && code[h..h + |left|] == left && code[m - 1] == Op(op1)
            && code[m..m + |right|] == right && code[m + |right|] == Op(op2) && code[m + |right| + 1] == Op(op3)
  {}

  /** The address behind `&` and `@` leads past the end of the child. */
  lemma ForkLeads(op: Op, a: Cmd, e: bool, at: nat)
    ensures var code, body := CodeFork(op, a, e, at), CodeC(a, e, at + 2);
            && |code| == |body| + 3 && code[0] == Op(op) && code[1] == Int(at + |code|)
            && code[2..|code| - 1] == body && code[|code| - 1] == Op(XExit)
  {
    hide CodeC;
  }

  /** The commands whose code is little more than that of another. */
  lemma {:induction false} LittleLaid(c: Cmd, e: bool, at: nat)
    requires c.Skip? || c.Bang? || c.Brace? || c.Assign? || c.Async? || c.Subshell?
    ensures Laid(CodeC(c, e, at), at, e, {})
    decreases c, 1
  {
    hide Laid;
    hide CodeFork;
    match c
    case Skip => LaidNone(at, e, {});
    case Bang(a) =>
      CodeLaid(a, e, at);
      LaidOne(XBang, at + |CodeC(a, e, at)|, e, {});
      LaidConcat(CodeC(a, e, at), [Op(XBang)], at, e, {});
    case Brace(a) => CodeLaid(a, e, at);
    case Async(a) => ForkLaid(XAsync, a, e, at);
    case Subshell(a) =>
      ForkLaid(XSubshell, a, e, at);
      EflagLaid(at + |CodeFork(XSubshell, a, e, at)|, e, {});
      LaidConcat(CodeFork(XSubshell, a, e, at), EflagTest(e), at, e, {});
    case Assign(_, _, _) =>
      if ChainEnd(c).Skip? {
        GlobalsLaid(c, e, at);
      } else {
        LocalsLaid(c, e, at);
      }
  }

  /**
   The code of every command is a sequence of whole instructions; every jump in it
   leads to the start of one of these instructions or to the end of the code; and if
   the command is compiled without the exit flag, as every condition is, none of the
   instructions is an exit test.
   */
  lemma {:induction false} CodeLaid(c: Cmd, e: bool, at: nat)
    ensures Laid(CodeC(c, e, at), at, e, {})
    decreases c, 2
  {
    hide Laid;
    hide CodeC;
    match c
    case Simple(_) => SimpleLaid(c, e, at);
    case Twiddle(_, _) => SimpleLaid(c, e, at);
    case Seq(_, _) => SeqLaid(c, e, at);
    case AndAnd(_, _) => TestLaid(c, e, at);
    case OrOr(_, _) => TestLaid(c, e, at);
    case Redirect(_, _, _, _) => RedirectLaid(c, e, at);
    case DupFd(_, _, _) => RedirectLaid(c, e, at);
    case CloseFd(_, _) => RedirectLaid(c, e, at);
    case If(_, _) => IfLaid(c, e, at);
    case IfNot(_) => IfNotLaid(c, e, at);
    case While(_, _) => WhileLaid(c, e, at);
    case For(_, _, _) => ForLaid(c, e, at);
    case Switch(_, _) => SwitchLaid(c, e, at);
    case Fn(_, _) => FnLaid(c, e, at);
    case Pipe(_, _, _, _) => PipeLaid(c, e, at);
    case _ => LittleLaid(c, e, at);
  }
}
