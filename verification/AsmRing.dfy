/**
 The symbol ring of the assemblers: each name is announced under a small index, indices
 are reused in a circle, and instructions refer to names by index (assemblers/5a/obj.c,
 assemblers/5ak/lex.c, assemblers/7a/lex.c).

 The state and its steps as functions; AsmProgram has the code that runs on the state.
 */
module AsmRing {
  import opened Wrappers

  type Sym = string

  /** A symbol together with its kind: external, static, automatic, parameter. */
  datatype Name = Name(sym: Sym, kind: int)

  /** What an operand names, if anything. */
  type Operand = Option<Name>

  datatype Record = Aname(idx: nat, name: Name) | Instr(operands: seq<nat>)

  /** `h`, the index announced next, and the index stored in each symbol. */
  datatype Table = Table(h: seq<Option<Name>>, next: nat, symidx: map<Sym, int>)

  predicate Valid(t: Table) {
    1 <= t.next < |t.h| && t.h[0] == None
  }

  /******* Looking a name up *******/

  /** The index stored in the symbol, 0 if it is out of range. */
  function StoredIdx(t: Table, s: Sym): nat
    requires Valid(t)
  {
    if s in t.symidx && 0 <= t.symidx[s] < |t.h| then t.symidx[s] else 0
  }

  predicate Found(t: Table, g: Name)
    requires Valid(t)
  {
    t.h[StoredIdx(t, g.sym)] == Some(g)
  }

  function After(n: nat, i: nat): nat {
    if i + 1 >= n then 1 else i + 1
  }

  function Announce(t: Table, g: Name): Table
    requires Valid(t)
  {
    Table(t.h[t.next := Some(g)], After(|t.h|, t.next), t.symidx[g.sym := t.next])
  }

  predicate IsNew(t: Table, g: Operand)
    requires Valid(t)
  {
    g.Some? && !Found(t, g.value)
  }

  function Look(t: Table, g: Operand): (t': Table)
    requires Valid(t)
    ensures Valid(t') && |t'.h| == |t.h|
  {
    if IsNew(t, g) then Announce(t, g.value) else t
  }

  function IndexOf(t: Table, g: Operand): nat
    requires Valid(t)
  {
    if g.None? then 0 else if IsNew(t, g) then t.next else StoredIdx(t, g.value.sym)
  }

  function Said(t: Table, g: Operand): seq<Record>
    requires Valid(t)
  {
    if IsNew(t, g) then [Aname(t.next, g.value)] else []
  }

  /** The index stands for the operand: 0 exactly for an operand that names nothing. */
  predicate Holds(t: Table, i: nat, g: Operand) {
    if g.None? then i == 0 else 0 < i < |t.h| && t.h[i] == g
  }

  lemma LookHolds(t: Table, g: Operand)
    requires Valid(t)
    ensures Holds(Look(t, g), IndexOf(t, g), g)
  {}

  /** A lookup leaves every entry alone except the one it announces. */
  lemma LookOther(t: Table, g: Operand, i: nat, o: Operand)
    requires Valid(t) && Holds(t, i, o) && (IsNew(t, g) ==> i != t.next)
    ensures Holds(Look(t, g), i, o)
  {}

  /******* Two operands *******/

  datatype Pair = Pair(t: Table, sf: nat, st: nat, said: seq<Record>)

  function Round(t: Table, a: Operand, b: Operand): (r: Pair)
    requires Valid(t)
    ensures Valid(r.t) && |r.t.h| == |t.h|
  {
    var t1 := Look(t, a);
    Pair(Look(t1, b), IndexOf(t, a), IndexOf(t1, b), Said(t, a) + Said(t1, b))
  }

  predicate Clash(r: Pair) {
    r.sf != 0 && r.sf == r.st
  }

  /** One round, and a second if the second operand has taken the index of the first. */
  function Settle(t: Table, a: Operand, b: Operand): (r: Pair)
    requires Valid(t)
    ensures Valid(r.t) && |r.t.h| == |t.h|
  {
    var r := Round(t, a, b);
    if Clash(r) && a != b then
      var again := Round(r.t, a, b);
      again.(said := r.said + again.said)
    else r
  }

  /** Without a clash, or if both operands are the same name, both indices are good. */
  lemma RoundHolds(t: Table, a: Operand, b: Operand)
    requires Valid(t) && (!Clash(Round(t, a, b)) || a == b)
    ensures var r := Round(t, a, b); Holds(r.t, r.sf, a) && Holds(r.t, r.st, b)
  {
    var t1 := Look(t, a);
    LookHolds(t, a);
    LookHolds(t1, b);
    if a != b && !(IsNew(t1, b) && IndexOf(t, a) == t1.next) {
      LookOther(t1, b, IndexOf(t, a), a);
    }
  }

  /** A clash of different names: the second was announced over the first, which was known. */
  lemma ClashEvicts(t: Table, a: Operand, b: Operand)
    requires Valid(t) && |t.h| >= 3 && a != b && Clash(Round(t, a, b))
    ensures var r := Round(t, a, b);
            !IsNew(t, a) && r.t == Announce(t, b.value) && r.sf == t.next && IsNew(r.t, a)
  {}

  lemma SecondRoundSettles(t: Table, a: Operand, b: Operand)
    requires Valid(t) && |t.h| >= 3 && a != b && Clash(Round(t, a, b))
    ensures !Clash(Round(Round(t, a, b).t, a, b))
  {
    ClashEvicts(t, a, b);
  }

  /** Both operands of an instruction end up with indices that are good at the same time. */
  lemma SettleHolds(t: Table, a: Operand, b: Operand)
    requires Valid(t) && |t.h| >= 3
    ensures var r := Settle(t, a, b); Holds(r.t, r.sf, a) && Holds(r.t, r.st, b)
  {
    if Clash(Round(t, a, b)) && a != b {
      SecondRoundSettles(t, a, b);
      RoundHolds(Round(t, a, b).t, a, b);
    } else {
      RoundHolds(t, a, b);
    }
  }

  /** A round that announces the only name of both operands is followed by a silent one. */
  lemma SameAgain(t: Table, a: Operand)
    requires Valid(t)
    ensures var r := Round(t, a, a); Round(r.t, a, a) == Pair(r.t, r.sf, r.st, [])
  {}

  /******* The reader *******/

  /** What a reader has heard last for each index. */
  type Heard = map<nat, Name>

  function Hear(seen: Heard, said: seq<Record>): Heard
    decreases said
  {
    if said == [] then seen
    else
      var first := said[0];
      Hear(if first.Aname? then seen[first.idx := first.name] else seen, said[1..])
  }

  function Resolve(seen: Heard, i: nat): Operand {
    if i != 0 && i in seen then Some(seen[i]) else None
  }

  /** The operands of each instruction, as a reader of the records understands them. */
  function Replay(seen: Heard, records: seq<Record>): seq<seq<Operand>>
    decreases records
  {
    if records == [] then []
    else
      match records[0]
      case Aname(idx, name) => Replay(seen[idx := name], records[1..])
      case Instr(operands) =>
        [seq(|operands|, i requires 0 <= i < |operands| => Resolve(seen, operands[i]))] + Replay(seen, records[1..])
  }

  /** The reader knows every name in the table. */
  predicate Agrees(seen: Heard, t: Table) {
    forall i: nat :: 0 < i < |t.h| && t.h[i].Some? ==> Resolve(seen, i) == t.h[i]
  }

  lemma {:induction false} HearConcat(seen: Heard, p: seq<Record>, q: seq<Record>)
    ensures Hear(seen, p + q) == Hear(Hear(seen, p), q)
    decreases p
  {
    if p == [] {
      assert p + q == q;
    } else {
      assert (p + q)[1..] == p[1..] + q;
      HearConcat(if p[0].Aname? then seen[p[0].idx := p[0].name] else seen, p[1..], q);
    }
  }

  lemma LookAgrees(seen: Heard, t: Table, g: Operand)
    requires Valid(t) && Agrees(seen, t)
    ensures Agrees(Hear(seen, Said(t, g)), Look(t, g))
  {
    if IsNew(t, g) {
      var said := Said(t, g);
      assert said[1..] == [];
      assert Hear(seen, said) == Hear(seen[t.next := g.value], said[1..]);
      var seen' := seen[t.next := g.value];
      forall i: nat | 0 < i < |t.h| && Look(t, g).h[i].Some? ensures Resolve(seen', i) == Look(t, g).h[i] {
        assert i != t.next ==> Resolve(seen', i) == Resolve(seen, i);
      }
    }
  }

  lemma RoundAgrees(seen: Heard, t: Table, a: Operand, b: Operand)
    requires Valid(t) && Agrees(seen, t)
    ensures Agrees(Hear(seen, Round(t, a, b).said), Round(t, a, b).t)
  {
    var t1 := Look(t, a);
    LookAgrees(seen, t, a);
    LookAgrees(Hear(seen, Said(t, a)), t1, b);
    HearConcat(seen, Said(t, a), Said(t1, b));
  }

  lemma SettleAgrees(seen: Heard, t: Table, a: Operand, b: Operand)
    requires Valid(t) && Agrees(seen, t)
    ensures Agrees(Hear(seen, Settle(t, a, b).said), Settle(t, a, b).t)
  {
    hide Look;
    hide Agrees;
    hide Hear;
    var r := Round(t, a, b);
    RoundAgrees(seen, t, a, b);
    RoundAgrees(Hear(seen, r.said), r.t, a, b);
    HearConcat(seen, r.said, Round(r.t, a, b).said);
  }

  predicate OnlyNames(said: seq<Record>) {
    forall i :: 0 <= i < |said| ==> said[i].Aname?
  }

  /** Announcements change what the reader knows and are not instructions. */
  lemma {:induction false} ReplayNames(seen: Heard, said: seq<Record>, rest: seq<Record>)
    requires OnlyNames(said)
    ensures Replay(seen, said + rest) == Replay(Hear(seen, said), rest)
    decreases said
  {
    if said == [] {
      assert said + rest == rest;
    } else {
      assert (said + rest)[1..] == said[1..] + rest;
      ReplayNames(seen[said[0].idx := said[0].name], said[1..], rest);
    }
  }

  lemma HoldsResolves(seen: Heard, t: Table, i: nat, g: Operand)
    requires Agrees(seen, t) && Holds(t, i, g)
    ensures Resolve(seen, i) == g
  {}

  lemma SettleOnlyNames(t: Table, a: Operand, b: Operand)
    requires Valid(t)
    ensures OnlyNames(Settle(t, a, b).said)
  {
    hide Look;
    hide Found;
    hide IndexOf;
  }

  /******* Limits *******/

  /** The rounds of one instruction, without an exit test. */
  function Rounds(t: Table, a: Operand, b: Operand, k: nat): (r: Pair)
    requires Valid(t)
    ensures Valid(r.t)
  {
    if k == 0 then Round(t, a, b) else Round(Rounds(t, a, b, k - 1).t, a, b)
  }

  /**
   The loop of 7a, which runs until the two indices differ or the first is 0, ends if
   and only if the operands do not both name the same thing.
   */
  lemma {:induction false} LoopEnds(t: Table, a: Operand, b: Operand)
    requires Valid(t) && |t.h| >= 3
    ensures (exists k: nat :: !Clash(Rounds(t, a, b, k))) <==> a.None? || a != b
  {
    if a.Some? && a == b {
      forall k: nat ensures Clash(Rounds(t, a, b, k)) {
        SameClashes(if k == 0 then t else Rounds(t, a, b, k - 1).t, a);
      }
    } else {
      if Clash(Rounds(t, a, b, 0)) {
        SecondRoundSettles(t, a, b);
        assert !Clash(Rounds(t, a, b, 1));
      } else {
        var k: nat := 0;
        assert !Clash(Rounds(t, a, b, k));
      }
    }
  }

  lemma SameClashes(t: Table, a: Operand)
    requires Valid(t) && a.Some?
    ensures Clash(Round(t, a, a))
  {
    LookHolds(t, a);
  }

  /**
   A ring with one usable index is too small for 5a: its exit test sees no announcement,
   and the instruction is written with both operands under the index of the second.
   */
  lemma OneIndexIsTooFew(a: Name, b: Name)
    requires a != b
    ensures var t := Table([None, None], 1, map[]);
            var r := Round(t, Some(a), Some(b));
            Clash(r) && r.t.next == t.next && !Holds(r.t, r.sf, Some(a))
  {}
}
