/**
 Instructions with three operands (assemblers/7a/lex.c, `outcode4`).

 The age of a name is the number of announcements that its index will still survive.
 A lookup moves ages in a way that does not depend on the names, so the rounds of an
 instruction can be followed on ages alone.
 */
module AsmThree {
  import opened Wrappers
  import opened AsmRing

  datatype Triple = Triple(t: Table, s1: nat, s2: nat, s3: nat, said: seq<Record>)

  function Round3(t: Table, a: Operand, b: Operand, c: Operand): (r: Triple)
    requires Valid(t)
    ensures Valid(r.t) && |r.t.h| == |t.h|
  {
    var t1 := Look(t, a);
    var t2 := Look(t1, b);
    Triple(Look(t2, c), IndexOf(t, a), IndexOf(t1, b), IndexOf(t2, c), Said(t, a) + Said(t1, b) + Said(t2, c))
  }

  /** The test that sends the loop round again. */
  predicate Clash3(r: Triple) {
    || (r.s1 != 0 && ((r.s2 != 0 && r.s1 == r.s2) || (r.s3 != 0 && r.s1 == r.s3)))
    || (r.s2 != 0 && r.s3 != 0 && r.s2 == r.s3)
  }

  /** Operands that name something name different things. */
  predicate Different(a: Operand, b: Operand) {
    a.Some? ==> a != b
  }

  /** At the exit of the loop all three indices are good at the same time. */
  lemma NoClashHolds(t: Table, a: Operand, b: Operand, c: Operand)
    requires Valid(t) && !Clash3(Round3(t, a, b, c))
    ensures var r := Round3(t, a, b, c); Holds(r.t, r.s1, a) && Holds(r.t, r.s2, b) && Holds(r.t, r.s3, c)
  {
    hide StoredIdx;
    var t1 := Look(t, a);
    var t2 := Look(t1, b);
    LookHolds(t, a);
    LookHolds(t1, b);
    LookHolds(t2, c);
    var r := Round3(t, a, b, c);
    LookOther(t1, b, r.s1, a);
    LookOther(t2, c, r.s1, a);
    LookOther(t2, c, r.s2, b);
  }

  /******* Ages *******/

  /** How many announcements entry i survives. */
  function Spot(t: Table, i: nat): int
    requires Valid(t)
  {
    if i >= t.next then i - t.next else i - t.next + |t.h| - 1
  }

  /** The age of a name that can be looked up; -1 for one that cannot. */
  function Age(t: Table, g: Operand): int
    requires Valid(t)
  {
    if g.Some? && Found(t, g.value) then Spot(t, StoredIdx(t, g.value.sym)) else -1
  }

  predicate SameSym(a: Operand, b: Operand) {
    a.Some? && b.Some? && a.value.sym == b.value.sym
  }

  /** The age of a name after another has been announced. */
  function Older(age: int, same: bool): int {
    if same || age < 1 then -1 else age - 1
  }

  /** The spot of an index after an announcement. */
  function Moved(n: int, spot: int): int {
    if spot == 0 then n - 2 else spot - 1
  }

  /** What a lookup does to the name itself, to another name and to any index. */
  lemma LookAges(t: Table, g: Operand, o: Operand, i: nat)
    requires Valid(t) && Different(g, o)
    ensures Age(Look(t, g), o) == if IsNew(t, g) then Older(Age(t, o), SameSym(g, o)) else Age(t, o)
    ensures IsNew(t, g) <==> g.Some? && Age(t, g) < 0
    ensures Age(Look(t, g), g) == if IsNew(t, g) then |t.h| - 2 else Age(t, g)
    ensures 0 < i < |t.h| ==> Spot(Look(t, g), i) == if IsNew(t, g) then Moved(|t.h|, Spot(t, i)) else Spot(t, i)
    ensures g.None? ==> IndexOf(t, g) == 0
    ensures g.Some? ==> 0 < IndexOf(t, g) < |t.h| && Spot(Look(t, g), IndexOf(t, g)) == Age(Look(t, g), g)
  {}

  /** A number for each of the three operands. */
  datatype Ages = Ages(a: int, b: int, c: int)

  /** Ages, and the spots of the indices found so far in a round. */
  datatype Clock = Clock(ages: Ages, spots: Ages)

  /** Which operands are present, and which share a symbol. */
  datatype Marks = Marks(a: bool, b: bool, c: bool, ab: bool, ac: bool, bc: bool)

  function First(n: int, m: Marks, s: Ages): Clock {
    if m.a && s.a < 0 then Clock(Ages(n - 2, Older(s.b, m.ab), Older(s.c, m.ac)), Ages(n - 2, 0, 0))
    else Clock(s, Ages(s.a, 0, 0))
  }

  function Second(n: int, m: Marks, k: Clock): Clock {
    if m.b && k.ages.b < 0 then
      Clock(Ages(Older(k.ages.a, m.ab), n - 2, Older(k.ages.c, m.bc)), Ages(Moved(n, k.spots.a), n - 2, 0))
    else Clock(k.ages, Ages(k.spots.a, k.ages.b, 0))
  }

  function Third(n: int, m: Marks, k: Clock): Clock {
    if m.c && k.ages.c < 0 then
      Clock(Ages(Older(k.ages.a, m.ac), Older(k.ages.b, m.bc), n - 2),
            Ages(Moved(n, k.spots.a), Moved(n, k.spots.b), n - 2))
    else Clock(k.ages, Ages(k.spots.a, k.spots.b, k.ages.c))
  }

  function Turn(n: int, m: Marks, s: Ages): Clock {
    Third(n, m, Second(n, m, First(n, m, s)))
  }

  predicate Meet(m: Marks, k: Clock) {
    || (m.a && m.b && k.spots.a == k.spots.b)
    || (m.a && m.c && k.spots.a == k.spots.c)
    || (m.b && m.c && k.spots.b == k.spots.c)
  }

  /** Ages that three different operands can have in a ring of n entries. */
  predicate Possible(n: int, m: Marks, s: Ages) {
    && -1 <= s.a <= n - 2 && -1 <= s.b <= n - 2 && -1 <= s.c <= n - 2
    && (s.a == s.b ==> s.a < 0) && (s.a == s.c ==> s.a < 0) && (s.b == s.c ==> s.b < 0)
    && (m.ab ==> s.a < 0 || s.b < 0) && (m.ac ==> s.a < 0 || s.c < 0) && (m.bc ==> s.b < 0 || s.c < 0)
    && (!m.a ==> s.a < 0) && (!m.b ==> s.b < 0) && (!m.c ==> s.c < 0)
    && (m.ab && m.ac ==> m.bc) && (m.ab && m.bc ==> m.ac) && (m.ac && m.bc ==> m.ab)
    && (m.ab ==> m.a && m.b) && (m.ac ==> m.a && m.c) && (m.bc ==> m.b && m.c)
  }

  /** What a clash leaves: one operand just announced, an earlier one driven out. */
  predicate AfterOne(n: int, m: Marks, s: Ages) {
    || (s.c == n - 2 && ((m.a && s.a < 0) || (m.b && s.b < 0)))
    || (s.b == n - 2 && m.a && s.a < 0)
  }

  predicate AfterTwo(n: int, s: Ages) {
    s == Ages(-1, -1, n - 2) || s == Ages(-1, n - 2, n - 3)
  }

  lemma TurnPossible(n: int, m: Marks, s: Ages)
    requires n >= 4 && Possible(n, m, s)
    ensures Possible(n, m, Turn(n, m, s).ages)
  {}

  lemma FirstClash(n: int, m: Marks, s: Ages)
    requires n >= 4 && Possible(n, m, s) && Meet(m, Turn(n, m, s))
    ensures AfterOne(n, m, Turn(n, m, s).ages)
  {}

  lemma SecondClash(n: int, m: Marks, s: Ages)
    requires n >= 4 && Possible(n, m, s) && AfterOne(n, m, s) && Meet(m, Turn(n, m, s))
    ensures AfterTwo(n, Turn(n, m, s).ages)
  {}

  lemma NoThirdClash(n: int, m: Marks, s: Ages)
    requires n >= 4 && Possible(n, m, s) && AfterTwo(n, s)
    ensures !Meet(m, Turn(n, m, s))
  {}

  /** Of any three rounds in a row, one is free of clashes. */
  lemma ThreeTurns(n: int, m: Marks, s: Ages)
    requires n >= 4 && Possible(n, m, s)
    ensures var k1 := Turn(n, m, s);
            var k2 := Turn(n, m, k1.ages);
            var k3 := Turn(n, m, k2.ages);
            !Meet(m, k1) || !Meet(m, k2) || !Meet(m, k3)
  {
    hide Turn;
    hide Possible;
    hide Meet;
    hide AfterOne;
    hide AfterTwo;
    var s1 := Turn(n, m, s).ages;
    var s2 := Turn(n, m, s1).ages;
    TurnPossible(n, m, s);
    TurnPossible(n, m, s1);
    if Meet(m, Turn(n, m, s)) && Meet(m, Turn(n, m, s1)) {
      FirstClash(n, m, s);
      SecondClash(n, m, s1);
      NoThirdClash(n, m, s2);
    }
  }

  /******* The rounds of an instruction *******/

  function MarksOf(a: Operand, b: Operand, c: Operand): Marks {
    Marks(a.Some?, b.Some?, c.Some?, SameSym(a, b), SameSym(a, c), SameSym(b, c))
  }

  function AgesOf(t: Table, a: Operand, b: Operand, c: Operand): Ages
    requires Valid(t)
  {
    Ages(Age(t, a), Age(t, b), Age(t, c))
  }

  predicate AllDifferent(a: Operand, b: Operand, c: Operand) {
    Different(a, b) && Different(a, c) && Different(b, c)
  }

  lemma AgesPossible(t: Table, a: Operand, b: Operand, c: Operand)
    requires Valid(t) && AllDifferent(a, b, c)
    ensures Possible(|t.h|, MarksOf(a, b, c), AgesOf(t, a, b, c))
  {}

  /** Different entries have different spots. */
  lemma SpotsDiffer(t: Table, i: nat, j: nat)
    requires Valid(t) && 0 < i < |t.h| && 0 < j < |t.h|
    ensures Spot(t, i) == Spot(t, j) <==> i == j
  {}

  /** A round does to the ages what Turn does, and the indices clash where the spots meet. */
  lemma RoundAges(t: Table, a: Operand, b: Operand, c: Operand)
    requires Valid(t) && AllDifferent(a, b, c)
    ensures var r := Round3(t, a, b, c);
            var k := Turn(|t.h|, MarksOf(a, b, c), AgesOf(t, a, b, c));
            AgesOf(r.t, a, b, c) == k.ages && (Clash3(r) <==> Meet(MarksOf(a, b, c), k))
  {
    hide Look;
    hide IsNew;
    hide Age;
    hide Spot;
    hide IndexOf;
    hide Older;
    hide Moved;
    hide Valid;
    var r := Round3(t, a, b, c);
    var t1 := Look(t, a);
    var t2 := Look(t1, b);
    LookAges(t, a, b, 0);
    LookAges(t, a, c, 0);
    LookAges(t1, b, a, r.s1);
    LookAges(t1, b, c, r.s1);
    LookAges(t2, c, a, r.s1);
    LookAges(t2, c, b, r.s2);
    if a.Some? && b.Some? {
      SpotsDiffer(r.t, r.s1, r.s2);
    }
    if a.Some? && c.Some? {
      SpotsDiffer(r.t, r.s1, r.s3);
    }
    if b.Some? && c.Some? {
      SpotsDiffer(r.t, r.s2, r.s3);
    }
  }

  /**
   The first and the last operand may name the same thing if the one between them is
   the same symbol under another kind, for then the symbol is announced anew each time.
   */
  predicate CanSettle(a: Operand, b: Operand, c: Operand) {
    Different(a, b) && Different(b, c) && (Different(a, c) || SameSym(a, b))
  }

  lemma BetweenSettles(t: Table, a: Operand, b: Operand)
    requires Valid(t) && |t.h| >= 4 && a != b && SameSym(a, b)
    ensures !Clash3(Round3(Round3(t, a, b, a).t, a, b, a))
  {
    var t1 := Look(t, a);
    var t2 := Announce(t1, b.value);
    var t3 := Announce(t2, a.value);
    assert Found(t1, a.value);
    assert IsNew(t1, b) && IsNew(t2, a);
    assert Round3(t, a, b, a).t == t3;
    assert Found(t3, a.value);
    var t4 := Announce(t3, b.value);
    assert IsNew(t3, b) && IsNew(t4, a);
  }

  /** Three rounds are enough for every instruction that can be settled. */
  lemma ThreeRounds(t: Table, a: Operand, b: Operand, c: Operand)
    requires Valid(t) && |t.h| >= 4 && CanSettle(a, b, c)
    ensures var r1 := Round3(t, a, b, c);
            var r2 := Round3(r1.t, a, b, c);
            var r3 := Round3(r2.t, a, b, c);
            !Clash3(r1) || !Clash3(r2) || !Clash3(r3)
  {
    hide Round3;
    hide Turn;
    hide Meet;
    hide Clash3;
    hide AgesOf;
    hide Found;
    var t1 := Round3(t, a, b, c).t;
    var t2 := Round3(t1, a, b, c).t;
    if AllDifferent(a, b, c) {
      RoundAges(t, a, b, c);
      RoundAges(t1, a, b, c);
      RoundAges(t2, a, b, c);
      AgesPossible(t, a, b, c);
      ThreeTurns(|t.h|, MarksOf(a, b, c), AgesOf(t, a, b, c));
    } else {
      BetweenSettles(t, a, b);
    }
  }

  /** Rounds until there is no clash. */
  function Settle3(t: Table, a: Operand, b: Operand, c: Operand): (r: Triple)
    requires Valid(t)
    ensures Valid(r.t) && |r.t.h| == |t.h|
  {
    var r1 := Round3(t, a, b, c);
    if !Clash3(r1) then r1
    else
      var r2 := Round3(r1.t, a, b, c);
      if !Clash3(r2) then r2.(said := r1.said + r2.said)
      else
        var r3 := Round3(r2.t, a, b, c);
        r3.(said := r1.said + r2.said + r3.said)
  }

  lemma Settle3Holds(t: Table, a: Operand, b: Operand, c: Operand)
    requires Valid(t) && |t.h| >= 4 && CanSettle(a, b, c)
    ensures var r := Settle3(t, a, b, c);
            !Clash3(r) && Holds(r.t, r.s1, a) && Holds(r.t, r.s2, b) && Holds(r.t, r.s3, c)
  {
    hide Round3;
    hide Clash3;
    hide Holds;
    ThreeRounds(t, a, b, c);
    var r1 := Round3(t, a, b, c);
    var r2 := Round3(r1.t, a, b, c);
    if !Clash3(r1) {
      NoClashHolds(t, a, b, c);
    } else if !Clash3(r2) {
      NoClashHolds(r1.t, a, b, c);
      ClashIndices(r2, Settle3(t, a, b, c));
    } else {
      NoClashHolds(r2.t, a, b, c);
      ClashIndices(Round3(r2.t, a, b, c), Settle3(t, a, b, c));
    }
  }

  lemma ClashIndices(r: Triple, r': Triple)
    requires r'.s1 == r.s1 && r'.s2 == r.s2 && r'.s3 == r.s3
    ensures Clash3(r') == Clash3(r)
  {}

  lemma Round3Agrees(seen: Heard, t: Table, a: Operand, b: Operand, c: Operand)
    requires Valid(t) && Agrees(seen, t)
    ensures Agrees(Hear(seen, Round3(t, a, b, c).said), Round3(t, a, b, c).t)
    ensures OnlyNames(Round3(t, a, b, c).said)
  {
    hide Look;
    hide IsNew;
    hide Agrees;
    hide Hear;
    hide IndexOf;
    var t1 := Look(t, a);
    var t2 := Look(t1, b);
    LookAgrees(seen, t, a);
    LookAgrees(Hear(seen, Said(t, a)), t1, b);
    HearConcat(seen, Said(t, a), Said(t1, b));
    LookAgrees(Hear(seen, Said(t, a) + Said(t1, b)), t2, c);
    HearConcat(seen, Said(t, a) + Said(t1, b), Said(t2, c));
  }

  lemma Settle3Agrees(seen: Heard, t: Table, a: Operand, b: Operand, c: Operand)
    requires Valid(t) && Agrees(seen, t)
    ensures Agrees(Hear(seen, Settle3(t, a, b, c).said), Settle3(t, a, b, c).t)
    ensures OnlyNames(Settle3(t, a, b, c).said)
  {
    hide Round3;
    hide Clash3;
    hide Agrees;
    hide Hear;
    var r1 := Round3(t, a, b, c);
    var r2 := Round3(r1.t, a, b, c);
    var seen1 := Hear(seen, r1.said);
    Round3Agrees(seen, t, a, b, c);
    Round3Agrees(seen1, r1.t, a, b, c);
    Round3Agrees(Hear(seen1, r2.said), r2.t, a, b, c);
    HearConcat(seen, r1.said, r2.said);
    HearConcat(seen, r1.said + r2.said, Round3(r2.t, a, b, c).said);
  }

  /******* Limits *******/

  function Rounds3(t: Table, a: Operand, b: Operand, c: Operand, k: nat): (r: Triple)
    requires Valid(t)
    ensures Valid(r.t) && |r.t.h| == |t.h|
  {
    if k == 0 then Round3(t, a, b, c) else Round3(Rounds3(t, a, b, c, k - 1).t, a, b, c)
  }

  lemma SameClashes3(t: Table, a: Operand, b: Operand, c: Operand)
    requires Valid(t) && !CanSettle(a, b, c)
    ensures Clash3(Round3(t, a, b, c))
  {
    LookHolds(t, a);
    var t1 := Look(t, a);
    LookHolds(t1, b);
    LookHolds(Look(t1, b), c);
  }

  /** The loop of `outcode4` ends if and only if the operands can be settled. */
  lemma LoopEnds3(t: Table, a: Operand, b: Operand, c: Operand)
    requires Valid(t) && |t.h| >= 4
    ensures (exists k: nat :: !Clash3(Rounds3(t, a, b, c, k))) <==> CanSettle(a, b, c)
  {
    hide Round3;
    hide Clash3;
    if CanSettle(a, b, c) {
      ThreeRounds(t, a, b, c);
      assert Rounds3(t, a, b, c, 1) == Round3(Rounds3(t, a, b, c, 0).t, a, b, c);
      assert Rounds3(t, a, b, c, 2) == Round3(Rounds3(t, a, b, c, 1).t, a, b, c);
    } else {
      forall k: nat ensures Clash3(Rounds3(t, a, b, c, k)) {
        SameClashes3(if k == 0 then t else Rounds3(t, a, b, c, k - 1).t, a, b, c);
      }
    }
  }

  /** Two usable indices are too few for three names: the loop never ends. */
  lemma TwoIndicesAreTooFew(t: Table, a: Operand, b: Operand, c: Operand)
    requires Valid(t) && |t.h| == 3 && a.Some? && b.Some? && c.Some?
    ensures Clash3(Round3(t, a, b, c))
  {
    LookHolds(t, a);
    var t1 := Look(t, a);
    LookHolds(t1, b);
    LookHolds(Look(t1, b), c);
  }
}
