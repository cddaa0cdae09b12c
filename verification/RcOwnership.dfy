/**
 Who owns a code vector, and what is released with it (rc/code.c, `codecopy` and
 `codefree`; rc/executils.c, `start` and `Xreturn`; rc/exec.c, `Xfn` and `Xdelfn`).
 */
module RcOwnership {
  import opened RcTree
  import opened RcCode
  import opened RcLayout

  /******* The walk over a vector that is released *******/

  predicate IsOwned(c: Cell) {
    c.Str? || c.Text?
  }

  /** The addresses of the owned strings from lo up to hi, in order. */
  function OwnedIn(v: seq<Cell>, lo: nat, hi: nat): seq<nat>
    requires lo <= hi <= |v|
    decreases hi - lo
  {
    if lo == hi then []
    else OwnedIn(v, lo, hi - 1) + (if IsOwned(v[hi - 1]) then [hi - 1] else [])
  }

  /** The addresses are exactly the owned ones, and none is there twice. */
  lemma {:induction false} OwnedInExactly(v: seq<Cell>, lo: nat, hi: nat)
    requires lo <= hi <= |v|
    ensures forall i :: i in OwnedIn(v, lo, hi) <==> lo <= i < hi && IsOwned(v[i])
    ensures forall i, j :: 0 <= i < j < |OwnedIn(v, lo, hi)| ==> OwnedIn(v, lo, hi)[i] < OwnedIn(v, lo, hi)[j]
    decreases hi - lo
  {
    if lo < hi {
      OwnedInExactly(v, lo, hi - 1);
      var before := OwnedIn(v, lo, hi - 1);
      assert forall i :: 0 <= i < |before| ==> before[i] in before;
    }
  }

  lemma OwnedOver(v: seq<Cell>, lo: nat, p: nat, n: nat)
    requires lo <= p && p + n <= |v| && n <= 5
    requires forall i :: p <= i < p + n ==> !IsOwned(v[i])
    ensures OwnedIn(v, lo, p + n) == OwnedIn(v, lo, p)
  {
    if n > 0 {
      OwnedOver(v, lo, p, n - 1);
    }
  }

  /** Routines whose operand the walk steps over; those of `if` and `if not` are not among them. */
  predicate SkipsOne(op: Op) {
    op.XFalse? || op.XTrue? || op.XRead? || op.XWrite? || op.XRdwr? || op.XAppend? || op.XClose?
      || op.XAsync? || op.XCase? || op.XFor? || op.XJump? || op.XSubshell?
  }

  /** A cell that the walk takes for the end: the nil routine, or a zero. */
  predicate LooksNull(c: Cell) {
    c.Nil? || (c.Int? && c.i == 0)
  }

  predicate AllPositive(addresses: set<int>) {
    forall t :: t in addresses ==> t > 0
  }

  /** What holds of a vector from address p on while it is being walked. */
  ghost predicate Walkable(v: seq<Cell>, p: nat) {
    && 1 <= p < |v| && v[|v| - 1] == Nil
    && Complete(v[p..|v| - 1], true)
    && AllPositive(Targets(v[p..|v| - 1]))
  }

  /** One instruction further. */
  lemma WalkStep(v: seq<Cell>, p: nat)
    requires Walkable(v, p) && p < |v| - 1
    ensures v[p].Op? && p + 1 + Operands(v[p].op) < |v|
    ensures GoodOperands(v[p].op, v[p + 1..p + 1 + Operands(v[p].op)])
    ensures Walkable(v, p + 1 + Operands(v[p].op))
    ensures IsJump(v[p].op) ==> v[p + 1].Int? && v[p + 1].i > 0
  {
    hide Complete;
    hide Targets;
    hide Operands;
    hide GoodOperands;
    var body := v[p..|v| - 1];
    CompleteHead(body);
    TargetsStep(body);
    var w := Width(body);
    SliceOfSlice(v, p, |v| - 1, w, |body|);
    SliceOfSlice(v, p, |v| - 1, 1, w);
    if IsJump(v[p].op) {
      JumpOperand(body);
    }
  }

  lemma SliceOfSlice(v: seq<Cell>, lo: nat, hi: nat, a: nat, b: nat)
    requires lo <= hi <= |v| && a <= b <= hi - lo
    ensures v[lo..hi][a..b] == v[lo + a..lo + b]
    ensures b == hi - lo ==> v[lo..hi][a..] == v[lo + a..hi]
  {
    var w := v[lo..hi];
    assert forall i :: a <= i < b ==> w[a..b][i - a] == w[i] == v[lo + i];
    assert |w| == hi - lo;
    assert b == |w| ==> w[a..] == w[a..b];
  }

  lemma JumpOperand(cells: seq<Cell>)
    requires Whole(cells, true) && IsJump(cells[0].op)
    ensures |cells| > 1 && cells[1].Int? && Leads(cells) == {cells[1].i}
  {
    assert cells[1..1 + Operands(cells[0].op)][0] == cells[1];
  }

  /** How far one round of the walk moves. */
  function Stride(c: Cell): nat {
    if !c.Op? then 1
    else if c.op.XWord? || SkipsOne(c.op) then 2
    else if c.op.XPipe? then 5
    else if c.op.XFn? || c.op.XDup? then 3
    else 1
  }

  /** What one round of the walk releases. */
  function Released(v: seq<Cell>, p: nat): seq<nat>
    requires p < |v|
  {
    if v[p] == Op(XWord) then [p + 1] else if v[p] == Op(XFn) then [p + 2] else []
  }

  /** The walk stands on an instruction or, after an `if`, on the address it jumps to. */
  ghost predicate Walking(v: seq<Cell>, p: nat) {
    Walkable(v, p) || (p + 1 < |v| && v[p].Int? && v[p].i > 0 && Walkable(v, p + 1))
  }

  /** One round releases just the owned strings it passes. */
  lemma WalkRound(v: seq<Cell>, p: nat)
    requires 1 <= p < |v| && Walking(v, p) && !LooksNull(v[p])
    ensures p + Stride(v[p]) < |v| && Walking(v, p + Stride(v[p]))
    ensures OwnedIn(v, 1, p + Stride(v[p])) == OwnedIn(v, 1, p) + Released(v, p)
  {
    hide Walkable;
    if v[p].Int? {
      NotOnInt(v, p);
      OwnedOver(v, 1, p, 1);
    } else {
      NotAtEnd(v, p);
      WalkStep(v, p);
      WalkOwned(v, p);
      hide OwnedIn;
      hide GoodOperands;
    }
  }

  /** The owned strings of one instruction. */
  lemma WalkOwned(v: seq<Cell>, p: nat)
    requires 1 <= p < |v| && v[p].Op? && p + 1 + Operands(v[p].op) < |v|
    requires GoodOperands(v[p].op, v[p + 1..p + 1 + Operands(v[p].op)])
    ensures p + Stride(v[p]) < |v| && OwnedIn(v, 1, p + Stride(v[p])) == OwnedIn(v, 1, p) + Released(v, p)
  {
    StrideFits(v[p].op);
    hide Operands;
    hide Stride;
    var n := Operands(v[p].op);
    var operands := v[p + 1..p + 1 + n];
    assert forall i :: 0 <= i < n ==> operands[i] == v[p + 1 + i];
    if v[p].op.XWord? {
      OwnedOver(v, 1, p, 1);
    } else if v[p].op.XFn? {
      OwnedOver(v, 1, p, 2);
    } else {
      assert forall i :: p + 1 <= i < p + 1 + n ==> v[i] == operands[i - p - 1];
      OwnedOver(v, 1, p, Stride(v[p]));
    }
  }

  /** The walk steps over no more than an instruction. */
  lemma StrideFits(op: Op)
    ensures 1 <= Stride(Op(op)) <= 1 + Operands(op) && Stride(Op(op)) <= 5
    ensures op.XWord? ==> Operands(op) == 1 && Stride(Op(op)) == 2
    ensures op.XFn? ==> Operands(op) == 2 && Stride(Op(op)) == 3
  {}

  lemma NotOnInt(v: seq<Cell>, p: nat)
    requires p < |v| && v[p].Int?
    ensures !Walkable(v, p)
  {
    if Walkable(v, p) {
      WalkStep(v, p);
    }
  }

  lemma NotAtEnd(v: seq<Cell>, p: nat)
    requires p < |v| && Walkable(v, p) && !LooksNull(v[p])
    ensures p < |v| - 1
  {}

  /** A cell that looks like the end is the end. */
  lemma NullIsEnd(v: seq<Cell>, p: nat)
    requires 1 <= p < |v| && Walking(v, p) && LooksNull(v[p])
    ensures p == |v| - 1
  {
    if Walkable(v, p) && p < |v| - 1 {
      WalkStep(v, p);
    }
  }

  /**
   The loop of `codefree`.  It stops at the end mark of the vector, never earlier, and
   releases every owned string of the vector once.
   */
  method CodeFree(v: seq<Cell>) returns (freed: seq<nat>, end: nat)
    requires Walkable(v, 1)
    ensures end == |v| - 1
    ensures freed == OwnedIn(v, 1, |v|)
  {
    hide Walkable;
    hide OwnedIn;
    WalkableLength(v, 1);
    NoneOwned(v);
    var p := 1;
    freed := [];
    while !LooksNull(v[p])
      invariant 1 <= p < |v|
      invariant Walking(v, p)
      invariant freed == OwnedIn(v, 1, p)
      decreases |v| - p
    {
      WalkRound(v, p);
      freed := freed + Released(v, p);
      p := p + Stride(v[p]);
    }
    NullIsEnd(v, p);
    OwnedOver(v, 1, p, 0);
    LastOwned(v, p);
    end := p;
  }

  lemma NoneOwned(v: seq<Cell>)
    requires |v| >= 1
    ensures OwnedIn(v, 1, 1) == []
  {}

  lemma WalkableLength(v: seq<Cell>, p: nat)
    requires Walkable(v, p)
    ensures 1 <= p < |v|
  {}

  lemma LastOwned(v: seq<Cell>, p: nat)
    requires 1 <= p == |v| - 1 && LooksNull(v[p])
    ensures OwnedIn(v, 1, |v|) == OwnedIn(v, 1, p)
  {}

  /** Every vector the compiler makes can be walked. */
  lemma VectorWalkable(c: Cmd, e: bool)
    ensures Walkable(CodeVector(c, e), 1)
  {
    hide CodeC;
    hide Laid;
    var code, v := CodeC(c, e, 1), CodeVector(c, e);
    CodeLaid(c, e, 1);
    LaidOne(XReturn, 1 + |code|, e, {});
    LaidConcat(code, [Op(XReturn)], 1, e, {});
    assert v[1..|v| - 1] == code + [Op(XReturn)];
    LaidPositive(code + [Op(XReturn)], 1, e);
  }

  lemma LaidPositive(cells: seq<Cell>, at: nat, e: bool)
    requires Laid(cells, at, e, {}) && at > 0
    ensures Complete(cells, true) && AllPositive(Targets(cells))
  {
    CompleteWeaken(cells, e);
    StartsPositive(cells, at);
  }

  lemma {:induction false} StartsPositive(cells: seq<Cell>, at: nat)
    requires Complete(cells, true)
    ensures forall t :: t in Starts(cells, at) ==> t >= at
  {
    if cells != [] {
      StartsPositive(cells[Width(cells)..], at + Width(cells));
    }
  }

  /** Releasing a compiled vector releases each string in it exactly once. */
  lemma ReleasedOnce(c: Cmd, e: bool)
    ensures var v := CodeVector(c, e);
            && Walkable(v, 1)
            && (forall i :: i in OwnedIn(v, 1, |v|) <==> 0 <= i < |v| && IsOwned(v[i]))
            && (forall i, j :: 0 <= i < j < |OwnedIn(v, 1, |v|)| ==> OwnedIn(v, 1, |v|)[i] < OwnedIn(v, 1, |v|)[j])
  {
    hide CodeC;
    hide Walkable;
    hide OwnedIn;
    var v := CodeVector(c, e);
    VectorWalkable(c, e);
    OwnedInExactly(v, 1, |v|);
    assert v[0] == Int(0);
  }

  /******* Reference counts *******/

  /** How many of the threads run vector id. */
  function Running(threads: seq<nat>, id: nat): nat {
    if threads == [] then 0 else (if threads[0] == id then 1 else 0) + Running(threads[1..], id)
  }

  /** The functions whose code lies in vector id. */
  function Defined(fns: map<string, nat>, id: nat): set<string> {
    set n | n in fns && fns[n] == id
  }

  lemma DefinedAdd(fns: map<string, nat>, name: string, id: nat, other: nat)
    requires name !in fns
    ensures |Defined(fns[name := id], other)| == |Defined(fns, other)| + (if other == id then 1 else 0)
  {
    var before, after := Defined(fns, other), Defined(fns[name := id], other);
    if other == id {
      assert after == before + {name};
    } else {
      assert after == before;
    }
  }

  lemma DefinedRemove(fns: map<string, nat>, name: string, other: nat)
    requires name in fns
    ensures |Defined(fns - {name}, other)| == |Defined(fns, other)| - (if fns[name] == other then 1 else 0)
  {
    var before, after := Defined(fns, other), Defined(fns - {name}, other);
    assert after == before - {name};
    if fns[name] == other {
      assert name in before;
    } else {
      assert after == before;
    }
  }

  /** A vector that a function lies in is counted for it. */
  lemma DefinedPositive(fns: map<string, nat>, name: string)
    requires name in fns
    ensures |Defined(fns, fns[name])| > 0
  {
    assert name in Defined(fns, fns[name]);
  }

  lemma {:induction false} RunningPositive(threads: seq<nat>, id: nat)
    ensures Running(threads, id) > 0 <==> id in threads
  {
    if threads != [] {
      RunningPositive(threads[1..], id);
    }
  }

  /** Every count is the number of threads and functions that hold the vector. */
  ghost predicate Counted(counts: map<nat, nat>, threads: seq<nat>, fns: map<string, nat>) {
    && (forall id :: id in counts ==> counts[id] == Running(threads, id) + |Defined(fns, id)|)
    && (forall id :: id in threads ==> id in counts)
    && (forall n :: n in fns ==> fns[n] in counts)
    && (forall id :: id in counts ==> counts[id] > 0)
  }

  /** Every vector that was loaded is live or has been released once. */
  ghost predicate Kept(counts: map<nat, nat>, texts: map<nat, seq<Cell>>, next: nat, released: seq<nat>) {
    && texts.Keys == counts.Keys && (forall id :: id in texts ==> Walkable(texts[id], 1))
    && (forall id :: id in counts || id in released ==> id < next)
    && (forall id :: 0 <= id < next ==> (id in counts <==> id !in released))
    && (forall i, j :: 0 <= i < j < |released| ==> released[i] != released[j])
  }

  lemma KeptLoad(
      counts: map<nat, nat>, texts: map<nat, seq<Cell>>, next: nat, released: seq<nat>, code: seq<Cell>)
    requires Kept(counts, texts, next, released) && Walkable(code, 1)
    ensures next !in counts && next !in texts
    ensures Kept(counts[next := 1], texts[next := code], next + 1, released)
  {
    hide Walkable;
  }

  /** One reference less. */
  function Dropped(counts: map<nat, nat>, id: nat): map<nat, nat>
    requires id in counts && counts[id] > 0
  {
    if counts[id] == 1 then counts - {id} else counts[id := counts[id] - 1]
  }

  function Added(counts: map<nat, nat>, id: nat): map<nat, nat> {
    counts[id := (if id in counts then counts[id] else 0) + 1]
  }

  lemma CountedStart(counts: map<nat, nat>, threads: seq<nat>, fns: map<string, nat>, id: nat)
    requires Counted(counts, threads, fns)
    ensures Counted(Added(counts, id), [id] + threads, fns)
  {
    hide Defined;
    if id !in counts {
      RunningPositive(threads, id);
      assert Defined(fns, id) == {} by {
        DefinedNone(fns, id);
      }
    }
    assert ([id] + threads)[1..] == threads;
  }

  lemma DefinedNone(fns: map<string, nat>, id: nat)
    requires forall n :: n in fns ==> fns[n] != id
    ensures Defined(fns, id) == {}
  {}

  lemma CountedReturn(counts: map<nat, nat>, threads: seq<nat>, fns: map<string, nat>)
    requires Counted(counts, threads, fns) && threads != []
    ensures counts[threads[0]] > 0 && Counted(Dropped(counts, threads[0]), threads[1..], fns)
  {
    hide Defined;
    RunningPositive(threads[1..], threads[0]);
    forall n | n in fns ensures |Defined(fns, fns[n])| > 0 {
      DefinedPositive(fns, n);
    }
  }

  lemma CountedDelete(counts: map<nat, nat>, threads: seq<nat>, fns: map<string, nat>, name: string)
    requires Counted(counts, threads, fns) && name in fns
    ensures counts[fns[name]] > 0 && Counted(Dropped(counts, fns[name]), threads, fns - {name})
  {
    hide Defined;
    hide Running;
    var id, fns' := fns[name], fns - {name};
    forall other | other in counts
      ensures |Defined(fns', other)| == |Defined(fns, other)| - (if other == id then 1 else 0)
    {
      DefinedRemove(fns, name, other);
    }
    forall n | n in fns' ensures |Defined(fns', fns'[n])| > 0 {
      DefinedPositive(fns', n);
    }
    RunningPositive(threads, id);
  }

  lemma CountedDefine(counts: map<nat, nat>, threads: seq<nat>, fns: map<string, nat>, name: string, id: nat)
    requires Counted(counts, threads, fns) && name !in fns && id in counts
    ensures Counted(Added(counts, id), threads, fns[name := id])
  {
    hide Defined;
    hide Running;
    forall other | other in counts
      ensures |Defined(fns[name := id], other)| == |Defined(fns, other)| + (if other == id then 1 else 0)
    {
      DefinedAdd(fns, name, id, other);
    }
  }

  /**
   Vectors are numbered.  A live vector is one that has not been released; its first
   cell is the count.
   */
  class Vectors {
    var counts: map<nat, nat>        // the live vectors
    var texts: map<nat, seq<Cell>>   // their cells
    var threads: seq<nat>            // the vector of each thread, the running one first
    var fns: map<string, nat>        // the vector of each function
    var next: nat                    // the number of the next vector
    var released: seq<nat>           // the vectors that have been released, in that order

    ghost predicate Valid()
      reads this
    {
      Counted(counts, threads, fns) && Kept(counts, texts, next, released)
    }

    constructor ()
      ensures Valid() && threads == [] && fns == map[] && texts == map[]
    {
      counts, texts, threads, fns, next, released := map[], map[], [], map[], 0, [];
    }

    /** Drop one reference; with the last one the vector is walked and goes. */
    method Free(id: nat)
      requires Kept(counts, texts, next, released) && id in counts && counts[id] > 0
      modifies this`counts, this`texts, this`released
      ensures Kept(counts, texts, next, released)
      ensures counts == Dropped(old(counts), id) && SameTexts()
      ensures released == if old(counts)[id] == 1 then old(released) + [id] else old(released)
    {
      hide Walkable;
      if counts[id] == 1 {
        var _, _ := CodeFree(texts[id]);
        counts, texts := counts - {id}, texts - {id};
        released := released + [id];
      } else {
        counts := counts[id := counts[id] - 1];
      }
    }

    /** One reference more. */
    method Copy(id: nat)
      requires Kept(counts, texts, next, released) && id in counts
      modifies this`counts
      ensures Kept(counts, texts, next, released) && counts == Added(old(counts), id)
    {
      hide Walkable;
      counts := counts[id := counts[id] + 1];
    }

    /** A new thread on a vector fresh from the compiler. */
    method Load(code: seq<Cell>) returns (id: nat)
      requires Valid() && Walkable(code, 1)
      modifies this`counts, this`texts, this`threads, this`next
      ensures Valid() && threads == [id] + old(threads)
      ensures id !in old(texts) && texts == old(texts)[id := code]
    {
      hide Counted;
      hide Kept;
      CountedStart(counts, threads, fns, next);
      KeptLoad(counts, texts, next, released, code);
      id := next;
      counts, texts, next := counts[id := 1], texts[id := code], next + 1;
      threads := [id] + threads;
      assert counts == Added(old(counts), id);
    }

    /** A new thread on a vector that is live. */
    method Start(id: nat)
      requires Valid() && id in counts
      modifies this`counts, this`threads
      ensures Valid() && threads == [id] + old(threads)
      ensures counts == old(counts)[id := old(counts)[id] + 1]
    {
      hide Kept;
      CountedStart(counts, threads, fns, id);
      hide Counted;
      Copy(id);
      threads := [id] + threads;
    }

    /** The running thread ends. */
    method Return()
      requires Valid() && threads != []
      modifies this`counts, this`texts, this`released, this`threads
      ensures Valid() && threads == old(threads)[1..] && SameTexts()
      ensures forall id :: id in threads ==> id in counts
      ensures released == old(released) || released == old(released) + [old(threads)[0]]
    {
      hide Kept;
      CountedReturn(counts, threads, fns);
      var id := threads[0];
      threads := threads[1..];
      Free(id);
    }

    /** One name of a function definition: the old code goes, the running vector comes. */
    method DefineOne(name: string)
      requires Valid() && threads != []
      modifies this`counts, this`texts, this`released, this`fns
      ensures Valid() && fns == old(fns)[name := threads[0]] && SameTexts()
    {
      hide Kept;
      DeleteOne(name);
      RunningHeld();
      var id := threads[0];
      CountedDefine(counts, threads, fns, name, id);
      hide Counted;
      Copy(id);
      assert fns[name := id] == old(fns)[name := id];
      fns := fns[name := id];
    }

    /** One name of a function deletion. */
    method DeleteOne(name: string)
      requires Valid()
      modifies this`counts, this`texts, this`released, this`fns
      ensures Valid() && fns == old(fns) - {name} && SameTexts()
    {
      hide Kept;
      if name in fns {
        CountedDelete(counts, threads, fns, name);
        hide Counted;
        var id := fns[name];
        fns := fns - {name};
        Free(id);
      }
    }

    /** A function definition: all its names get the running vector. */
    method Define(names: seq<string>)
      requires Valid() && threads != []
      modifies this`counts, this`texts, this`released, this`fns
      ensures Valid() && threads[0] in counts && SameTexts()
      ensures forall n :: n in fns <==> n in old(fns) || n in names
      ensures forall n :: n in fns ==> fns[n] == if n in names then threads[0] else old(fns)[n]
    {
      hide Valid;
      for i := 0 to |names|
        invariant Valid() && SameTexts()
        invariant forall n :: n in fns <==> n in old(fns) || n in names[..i]
        invariant forall n :: n in fns ==> fns[n] == if n in names[..i] then threads[0] else old(fns)[n]
      {
        DefineOne(names[i]);
        assert names[..i + 1] == names[..i] + [names[i]];
      }
      assert names[..|names|] == names;
      RunningHeld();
    }

    /** A function deletion. */
    method Delete(names: seq<string>)
      requires Valid()
      modifies this`counts, this`texts, this`released, this`fns
      ensures Valid() && SameTexts() && forall n :: n in fns <==> n in old(fns) && n !in names
      ensures forall n :: n in fns ==> fns[n] == old(fns)[n]
    {
      hide Valid;
      for i := 0 to |names|
        invariant Valid() && SameTexts()
        invariant forall n :: n in fns <==> n in old(fns) && n !in names[..i]
        invariant forall n :: n in fns ==> fns[n] == old(fns)[n]
      {
        DeleteOne(names[i]);
        assert names[..i + 1] == names[..i] + [names[i]];
      }
      assert names[..|names|] == names;
    }

    /** The vectors that are left have their cells. */
    twostate predicate SameTexts()
      reads this
    {
      forall id :: id in texts ==> id in old(texts) && texts[id] == old(texts)[id]
    }

    /** Threads and functions are on live vectors, which have cells. */
    lemma Live()
      requires Valid()
      ensures forall id :: id in threads ==> id in texts
      ensures forall n :: n in fns ==> fns[n] in texts
      ensures counts.Keys == texts.Keys
    {
      hide Walkable;
    }

    /** The vector of a thread is live. */
    lemma RunningHeld()
      requires Valid()
      ensures forall id :: id in threads ==> id in counts
    {}
  }
}
