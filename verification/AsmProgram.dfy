/**
 Whole programs: the records written for any sequence of instructions, read back
 (assemblers/5a/obj.c, assemblers/5ak/lex.c, assemblers/7a/lex.c).
 */
module AsmProgram {
  import opened Wrappers
  import opened AsmRing
  import opened AsmThree

  /** The middle operand of three is written only if it is there. */
  datatype Insn = Two(from: Operand, to: Operand)
                | Three(from: Operand, mid: Operand, to: Operand, extra: bool)

  function Operands(i: Insn): seq<Operand> {
    match i
    case Two(from, to) => [from, to]
    case Three(from, mid, to, extra) => if extra then [from, mid, to] else [from, to]
  }

  function AllOperands(prog: seq<Insn>): seq<seq<Operand>> {
    seq(|prog|, i requires 0 <= i < |prog| => Operands(prog[i]))
  }

  /** The ring has room for the instruction. */
  predicate Fits(n: nat, i: Insn) {
    if i.Two? then n >= 3 else n >= 4 && CanSettle(i.from, i.mid, i.to)
  }

  /** What one instruction writes. */
  datatype Wrote = Wrote(t: Table, said: seq<Record>, idx: seq<nat>)

  function WriteOne(t: Table, i: Insn): (w: Wrote)
    requires Valid(t)
    ensures Valid(w.t) && |w.t.h| == |t.h|
  {
    match i
    case Two(from, to) => var r := Settle(t, from, to); Wrote(r.t, r.said, [r.sf, r.st])
    case Three(from, mid, to, extra) =>
      var r := Settle3(t, from, mid, to);
      Wrote(r.t, r.said, if extra then [r.s1, r.s2, r.s3] else [r.s1, r.s3])
  }

  function WriteAll(t: Table, prog: seq<Insn>): Wrote
    requires Valid(t)
    decreases prog
  {
    if prog == [] then Wrote(t, [], [])
    else
      var w := WriteOne(t, prog[0]);
      var rest := WriteAll(w.t, prog[1..]);
      Wrote(rest.t, w.said + [Instr(w.idx)] + rest.said, [])
  }

  /** Each index of an instruction stands for its operand when the instruction is written. */
  predicate AllHold(t: Table, idx: seq<nat>, gs: seq<Operand>) {
    |idx| == |gs| && forall k :: 0 <= k < |idx| ==> Holds(t, idx[k], gs[k])
  }

  lemma WriteOneHolds(t: Table, i: Insn)
    requires Valid(t) && Fits(|t.h|, i)
    ensures AllHold(WriteOne(t, i).t, WriteOne(t, i).idx, Operands(i))
  {
    hide Settle;
    hide Settle3;
    hide Holds;
    match i
    case Two(from, to) => SettleHolds(t, from, to);
    case Three(from, mid, to, extra) => Settle3Holds(t, from, mid, to);
  }

  lemma WriteOneAgrees(seen: Heard, t: Table, i: Insn)
    requires Valid(t) && Agrees(seen, t)
    ensures Agrees(Hear(seen, WriteOne(t, i).said), WriteOne(t, i).t) && OnlyNames(WriteOne(t, i).said)
  {
    hide Settle;
    hide Settle3;
    hide Agrees;
    hide Hear;
    hide OnlyNames;
    match i
    case Two(from, to) =>
      SettleAgrees(seen, t, from, to);
      SettleOnlyNames(t, from, to);
    case Three(from, mid, to, extra) => Settle3Agrees(seen, t, from, mid, to);
  }

  lemma InstrReplays(seen: Heard, t: Table, gs: seq<Operand>, records: seq<Record>)
    requires records != [] && records[0].Instr? && Agrees(seen, t) && AllHold(t, records[0].operands, gs)
    ensures Replay(seen, records) == [gs] + Replay(seen, records[1..])
  {
    hide Agrees;
    hide Holds;
    hide Resolve;
    var idx := records[0].operands;
    forall k | 0 <= k < |idx| ensures Resolve(seen, idx[k]) == gs[k] {
      HoldsResolves(seen, t, idx[k], gs[k]);
    }
    assert seq(|idx|, i requires 0 <= i < |idx| => Resolve(seen, idx[i])) == gs;
  }

  lemma AllOperandsStep(prog: seq<Insn>)
    requires prog != []
    ensures AllOperands(prog) == [Operands(prog[0])] + AllOperands(prog[1..])
  {}

  /**
   The reader of the records of any program finds, at each instruction, exactly the
   names of its operands, however often indices have been reused.
   */
  lemma {:induction false} ReplayIsProgram(seen: Heard, t: Table, prog: seq<Insn>)
    requires Valid(t) && Agrees(seen, t) && forall k :: 0 <= k < |prog| ==> Fits(|t.h|, prog[k])
    ensures Replay(seen, WriteAll(t, prog).said) == AllOperands(prog)
    decreases prog
  {
    hide WriteOne;
    hide Agrees;
    hide AllHold;
    hide Hear;
    hide OnlyNames;
    hide Fits;
    hide Operands;
    if prog != [] {
      var w := WriteOne(t, prog[0]);
      var rest := WriteAll(w.t, prog[1..]).said;
      var seen' := Hear(seen, w.said);
      var last := [Instr(w.idx)] + rest;
      WriteOneAgrees(seen, t, prog[0]);
      WriteOneHolds(t, prog[0]);
      ReplayNames(seen, w.said, last);
      assert WriteAll(t, prog).said == w.said + last;
      ReplayIsProgram(seen', w.t, prog[1..]);
      assert last[1..] == rest;
      InstrReplays(seen', w.t, Operands(prog[0]), last);
      AllOperandsStep(prog);
    }
  }

  /** Writing one more instruction. */
  lemma {:induction false} WriteAllSnoc(t: Table, prog: seq<Insn>, i: Insn)
    requires Valid(t)
    ensures var before := WriteAll(t, prog);
            Valid(before.t) && |before.t.h| == |t.h| &&
            var w := WriteOne(before.t, i);
            WriteAll(t, prog + [i]) == Wrote(w.t, before.said + w.said + [Instr(w.idx)], [])
    decreases prog
  {
    hide WriteOne;
    if prog == [] {
      assert prog + [i] == [i];
      assert [i][1..] == [];
    } else {
      assert (prog + [i])[1..] == prog[1..] + [i];
      WriteAllSnoc(WriteOne(t, prog[0]).t, prog[1..], i);
    }
  }

  /** The exit test of 5a, in the first round and in a second one. */
  lemma Retry5a(t: Table, a: Operand, b: Operand)
    requires Valid(t) && |t.h| >= 3
    ensures var r := Round(t, a, b);
            && (Clash(r) && r.t.next == t.next ==> a == b)
            && (Clash(r) ==>
              var r2 := Round(r.t, a, b);
              && (Clash(r2) ==> r2.t.next == r.t.next)
              && (a == b ==> r2 == Pair(r.t, r.sf, r.st, [])))
  {
    hide Look;
    hide IndexOf;
    var r := Round(t, a, b);
    if Clash(r) {
      if a == b {
        SameAgain(t, a);
      } else {
        ClashEvicts(t, a, b);
        SecondRoundSettles(t, a, b);
      }
    }
  }

  /** The exit test of 5ak. */
  lemma Retry5ak(t: Table, a: Operand, b: Operand)
    requires Valid(t) && |t.h| >= 3
    ensures var r := Round(t, a, b);
            && (Clash(r) && a != b <==> Clash(r) && IsNew(Look(t, a), b))
            && (IsNew(Look(t, a), b) ==> r.st != 0)
            && (Clash(r) && a != b ==> !Clash(Round(r.t, a, b)))
  {
    if Clash(Round(t, a, b)) {
      if a != b {
        SecondRoundSettles(t, a, b);
        ClashEvicts(t, a, b);
      } else {
        LookHolds(t, a);
      }
    }
  }

  /** The globals of an assembler that the writing of instructions uses. */
  class Writer {
    const h: array<Option<Name>>
    var symcounter: nat
    var symidx: map<Sym, int>
    var obuf: seq<Record>

    constructor (nsym: nat)
      requires nsym >= 2
      ensures fresh(h) && Valid(Tab()) && h.Length == nsym && obuf == []
      ensures forall i :: 0 <= i < nsym ==> h[i] == None
    {
      h := new Option<Name>[nsym](_ => None);
      symcounter, symidx, obuf := 1, map[], [];
    }

    ghost function Tab(): Table
      reads this, h
    {
      Table(h[..], symcounter, symidx)
    }

    /** `symidx_of_symopt` in 5a, `outsim` in 7a. */
    method SymIdx(g: Operand) returns (idx: nat)
      requires Valid(Tab())
      modifies h, this`symcounter, this`symidx, this`obuf
      ensures Tab() == Look(old(Tab()), g) && idx == IndexOf(old(Tab()), g)
      ensures obuf == old(obuf) + Said(old(Tab()), g)
    {
      ghost var t := Tab();
      idx := 0;
      if g.Some? {
        var sym := g.value.sym;
        if sym in symidx && 0 <= symidx[sym] < h.Length {
          idx := symidx[sym];
        }
        if h[idx] != g {
          symidx := symidx[sym := symcounter];
          h[symcounter] := g;
          idx := symcounter;
          obuf := obuf + [Aname(symcounter, g.value)];
          symcounter := symcounter + 1;
          if symcounter >= h.Length {
            symcounter := 1;
          }
          assert h[..] == t.h[t.next := g];
        }
      }
    }

    /** `outcode` of 5a: again if the indices are equal and something was announced. */
    method OutCode5a(a: Operand, b: Operand)
      requires Valid(Tab()) && h.Length >= 3
      modifies h, this`symcounter, this`symidx, this`obuf
      ensures Tab() == WriteOne(old(Tab()), Two(a, b)).t
      ensures var w := WriteOne(old(Tab()), Two(a, b)); obuf == old(obuf) + w.said + [Instr(w.idx)]
    {
      hide Look;
      hide Said;
      hide IndexOf;
      hide Round;
      ghost var t := Tab();
      ghost var r1 := Round(t, a, b);
      ghost var again := false;
      var sf, st: nat;
      while true
        invariant Valid(Tab()) && h.Length == |t.h|
        invariant Tab() == if again then r1.t else t
        invariant obuf == old(obuf) + if again then r1.said else []
        invariant again ==> Clash(r1)
        decreases !again
      {
        var oldsymcounter := symcounter;
        ghost var here := Tab();
        sf := SymIdx(a);
        st := SymIdx(b);
        Told2(old(obuf), here, a, b, if again then r1.said else []);
        Retry5a(t, a, b);
        if !(sf == st && sf != 0 && symcounter != oldsymcounter) {
          break;
        }
        again := true;
      }
      obuf := obuf + [Instr([sf, st])];
    }

    /** The first lookup of 5ak. */
    method First5ak(a: Operand) returns (sf: nat)
      requires Valid(Tab())
      modifies h, this`symcounter, this`symidx, this`obuf
      ensures Tab() == Look(old(Tab()), a) && sf == IndexOf(old(Tab()), a)
      ensures obuf == old(obuf) + Said(old(Tab()), a)
    {
      ghost var t := Tab();
      sf := 0;
      if a.Some? {
        var sym := a.value.sym;
        if sym in symidx && 0 <= symidx[sym] < h.Length {
          sf := symidx[sym];
        }
        if h[sf] != a {
          obuf := obuf + [Aname(symcounter, a.value)];
          symidx := symidx[sym := symcounter];
          h[symcounter] := a;
          sf := symcounter;
          symcounter := symcounter + 1;
          if symcounter >= h.Length {
            symcounter := 1;
          }
          assert h[..] == t.h[t.next := a];
        }
      }
    }

    /** The second lookup of 5ak, which also sees whether the name was announced. */
    method Second5ak(b: Operand) returns (st: nat, new2: bool)
      requires Valid(Tab())
      modifies h, this`symcounter, this`symidx, this`obuf
      ensures Tab() == Look(old(Tab()), b) && st == IndexOf(old(Tab()), b)
      ensures obuf == old(obuf) + Said(old(Tab()), b) && new2 == IsNew(old(Tab()), b)
    {
      ghost var t := Tab();
      st := 0;
      new2 := false;
      if b.Some? {
        var sym := b.value.sym;
        if sym in symidx && 0 <= symidx[sym] < h.Length {
          st := symidx[sym];
        }
        if h[st] != b {
          obuf := obuf + [Aname(symcounter, b.value)];
          symidx := symidx[sym := symcounter];
          h[symcounter] := b;
          st := symcounter;
          symcounter := symcounter + 1;
          if symcounter >= h.Length {
            symcounter := 1;
          }
          new2 := true;
          assert h[..] == t.h[t.next := b];
        }
      }
    }

    /** `outcode` of 5ak: again if the second operand is announced
        under the index of the first. */
    method OutCode5ak(a: Operand, b: Operand)
      requires Valid(Tab()) && h.Length >= 3
      modifies h, this`symcounter, this`symidx, this`obuf
      ensures Tab() == WriteOne(old(Tab()), Two(a, b)).t
      ensures var w := WriteOne(old(Tab()), Two(a, b)); obuf == old(obuf) + w.said + [Instr(w.idx)]
    {
      hide Look;
      hide IsNew;
      hide Said;
      hide IndexOf;
      ghost var t := Tab();
      ghost var r1 := Round(t, a, b);
      ghost var again := false;
      var sf, st: nat;
      while true
        invariant Valid(Tab()) && h.Length == |t.h|
        invariant Tab() == if again then r1.t else t
        invariant obuf == old(obuf) + if again then r1.said else []
        invariant again ==> Clash(r1) && a != b
        decreases !again
      {
        ghost var here := Tab();
        Retry5ak(t, a, b);
        Retry5ak(here, a, b);
        var new2: bool;
        sf := First5ak(a);
        st, new2 := Second5ak(b);
        Told2(old(obuf), here, a, b, if again then r1.said else []);
        if !(new2 && st == sf) {
          break;
        }
        again := true;
      }
      obuf := obuf + [Instr([sf, st])];
    }

    /** `outcode` of 7a: again if the indices are equal and not 0. */
    method OutCode7a(a: Operand, b: Operand)
      requires Valid(Tab()) && h.Length >= 3 && (a.None? || a != b)
      modifies h, this`symcounter, this`symidx, this`obuf
      ensures Tab() == WriteOne(old(Tab()), Two(a, b)).t
      ensures var w := WriteOne(old(Tab()), Two(a, b)); obuf == old(obuf) + w.said + [Instr(w.idx)]
    {
      hide Look;
      hide Said;
      hide IndexOf;
      hide Round;
      ghost var t := Tab();
      ghost var r1 := Round(t, a, b);
      ghost var again := false;
      var sf, st: nat;
      while true
        invariant Valid(Tab()) && h.Length == |t.h|
        invariant Tab() == if again then r1.t else t
        invariant obuf == old(obuf) + if again then r1.said else []
        invariant again ==> Clash(r1) && a != b
        decreases !again
      {
        ghost var here := Tab();
        Retry7a(t, a, b);
        sf := SymIdx(a);
        st := SymIdx(b);
        Told2(old(obuf), here, a, b, if again then r1.said else []);
        if !(sf != 0 && st == sf) {
          break;
        }
        again := true;
      }
      obuf := obuf + [Instr([sf, st])];
    }

    /** `outcode4` of 7a: again if any two of the indices are equal and not 0. */
    method OutCode4(a: Operand, b: Operand, c: Operand, extra: bool)
      requires Valid(Tab()) && h.Length >= 4 && CanSettle(a, b, c)
      modifies h, this`symcounter, this`symidx, this`obuf
      ensures Tab() == WriteOne(old(Tab()), Three(a, b, c, extra)).t
      ensures var w := WriteOne(old(Tab()), Three(a, b, c, extra)); obuf == old(obuf) + w.said + [Instr(w.idx)]
    {
      hide Look;
      hide Said;
      hide IndexOf;
      hide CanSettle;
      ghost var t := Tab();
      ghost var round := 0;
      var s1, s2, s3: nat;
      ThreeRounds(t, a, b, c);
      ghost var r1 := Round3(t, a, b, c);
      ghost var r2 := Round3(r1.t, a, b, c);
      while true
        invariant 0 <= round <= 2 && Valid(Tab()) && h.Length == |t.h|
        invariant Tab() == if round == 0 then t else if round == 1 then r1.t else r2.t
        invariant obuf == old(obuf) + if round == 0 then [] else if round == 1 then r1.said else r1.said + r2.said
        invariant (round >= 1 ==> Clash3(r1)) && (round == 2 ==> Clash3(r2))
        decreases 3 - round
      {
        ghost var here := Tab();
        s1 := SymIdx(a);
        s2 := SymIdx(b);
        s3 := SymIdx(c);
        Told(old(obuf), here, a, b, c, if round == 0 then [] else if round == 1 then r1.said else r1.said + r2.said);
        if !((s1 != 0 && ((s2 != 0 && s1 == s2) || (s3 != 0 && s1 == s3))) || (s2 != 0 && s3 != 0 && s2 == s3)) {
          break;
        }
        round := round + 1;
      }
      obuf := obuf + [Instr(if extra then [s1, s2, s3] else [s1, s3])];
    }
  }

  /** What two lookups in a row come to. */
  lemma Told2(out: seq<Record>, t: Table, a: Operand, b: Operand, before: seq<Record>)
    requires Valid(t)
    ensures var t1 := Look(t, a);
            && Round(t, a, b) == Pair(Look(t1, b), IndexOf(t, a), IndexOf(t1, b), Said(t, a) + Said(t1, b))
            && out + before + Said(t, a) + Said(t1, b) == out + (before + Round(t, a, b).said)
  {
    hide Look;
    hide Said;
    hide IndexOf;
  }

  lemma Told(out: seq<Record>, t: Table, a: Operand, b: Operand, c: Operand, before: seq<Record>)
    requires Valid(t)
    ensures var t1 := Look(t, a);
            out + before + Said(t, a) + Said(t1, b) + Said(Look(t1, b), c) == out + (before + Round3(t, a, b, c).said)
  {}

  /** The exit test of 7a. */
  lemma Retry7a(t: Table, a: Operand, b: Operand)
    requires Valid(t) && |t.h| >= 3 && (a.None? || a != b)
    ensures var r := Round(t, a, b); Clash(r) ==> a != b && !Clash(Round(r.t, a, b))
  {
    if Clash(Round(t, a, b)) {
      SecondRoundSettles(t, a, b);
    }
  }

  /******* Assemblers *******/

  /** An empty table has nothing that a reader would have to know. */
  lemma EmptyAgrees(seen: Heard, t: Table)
    requires forall i :: 0 <= i < |t.h| ==> t.h[i] == None
    ensures Agrees(seen, t)
  {}

  /** 5a on a whole program: any reader understands the records as that program. */
  method Assemble5a(nsym: nat, prog: seq<Insn>) returns (out: seq<Record>)
    requires nsym >= 3 && forall k :: 0 <= k < |prog| ==> prog[k].Two?
    ensures forall seen :: Replay(seen, out) == AllOperands(prog)
  {
    hide WriteOne;
    hide Replay;
    hide AllOperands;
    var w := new Writer(nsym);
    ghost var t := w.Tab();
    for k := 0 to |prog|
      invariant Valid(t) && |t.h| == nsym == w.h.Length && Valid(w.Tab())
      invariant w.Tab() == WriteAll(t, prog[..k]).t && w.obuf == WriteAll(t, prog[..k]).said
      invariant forall i :: 0 <= i < |t.h| ==> t.h[i] == None
    {
      w.OutCode5a(prog[k].from, prog[k].to);
      WriteAllSnoc(t, prog[..k], prog[k]);
      assert prog[..k + 1] == prog[..k] + [prog[k]];
    }
    assert prog[..|prog|] == prog;
    forall seen ensures Replay(seen, w.obuf) == AllOperands(prog) {
      EmptyAgrees(seen, t);
      ReplayIsProgram(seen, t, prog);
    }
    out := w.obuf;
  }

  /** The instructions for which the loops of 7a end. */
  predicate Fits7a(n: nat, i: Insn) {
    Fits(n, i) && (i.Two? ==> i.from.None? || i.from != i.to)
  }

  /** 7a on a whole program. */
  method Assemble7a(nsym: nat, prog: seq<Insn>) returns (out: seq<Record>)
    requires nsym >= 4 && forall k :: 0 <= k < |prog| ==> Fits7a(nsym, prog[k])
    ensures forall seen :: Replay(seen, out) == AllOperands(prog)
  {
    hide WriteOne;
    hide Replay;
    hide AllOperands;
    hide CanSettle;
    var w := new Writer(nsym);
    ghost var t := w.Tab();
    for k := 0 to |prog|
      invariant Valid(t) && |t.h| == nsym == w.h.Length && Valid(w.Tab())
      invariant w.Tab() == WriteAll(t, prog[..k]).t && w.obuf == WriteAll(t, prog[..k]).said
      invariant forall i :: 0 <= i < |t.h| ==> t.h[i] == None
    {
      match prog[k] {
        case Two(from, to) => w.OutCode7a(from, to);
        case Three(from, mid, to, extra) => w.OutCode4(from, mid, to, extra);
      }
      WriteAllSnoc(t, prog[..k], prog[k]);
      assert prog[..k + 1] == prog[..k] + [prog[k]];
    }
    assert prog[..|prog|] == prog;
    forall seen ensures Replay(seen, w.obuf) == AllOperands(prog) {
      EmptyAgrees(seen, t);
      ReplayIsProgram(seen, t, prog);
    }
    out := w.obuf;
  }

  /** From equal tables 5a and 5ak write the same records and leave equal tables. */
  method TwinsAgree(w: Writer, twin: Writer, a: Operand, b: Operand)
    requires w != twin && w.h != twin.h && w.Tab() == twin.Tab() && w.obuf == twin.obuf
    requires Valid(w.Tab()) && w.h.Length >= 3
    modifies w, twin, w.h, twin.h
    ensures w.Tab() == twin.Tab() && w.obuf == twin.obuf
  {
    hide WriteOne;
    assert |w.Tab().h| == |twin.Tab().h|;
    w.OutCode5a(a, b);
    twin.OutCode5ak(a, b);
  }
}
