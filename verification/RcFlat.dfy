/**
 The threads of the interpreter as the source has them, each with a pointer to its own
 locals and redirections in shared linked lists (rc/executils.c, `start`), and the
 same threads as the machine has them, with one list and lengths.
 */
module RcFlat {
  import opened RcTree
  import opened RcCode
  import opened RcStore
  import opened RcMachine
  import opened RcChain

  datatype CThread = CThread(code: seq<Cell>, pc: nat, argv: seq<Strings>, local: nat, redir: nat, startredir: nat)

  /** The lists c and d of the running thread contain those of every waiting thread, and a
      thread started with the redirections of the one below it. */
  predicate Nested(q: seq<CThread>, c: seq<nat>, d: seq<nat>) {
    forall i :: 0 <= i < |q| ==> NestedAt(q, c, d, i)
  }

  predicate NestedAt(q: seq<CThread>, c: seq<nat>, d: seq<nat>, i: nat)
    requires i < |q|
  {
    && PointsInto(c, q[i].local) && PointsInto(d, q[i].redir) && PointsInto(d, q[i].startredir)
    && |From(d, q[i].startredir)| <= |From(d, q[i].redir)|
    && (i + 1 < |q| ==>
      q[i].startredir == q[i + 1].redir && |From(c, q[i + 1].local)| <= |From(c, q[i].local)|)
  }

  /** A thread with lengths in place of pointers. */
  function FlatAt(q: seq<CThread>, c: seq<nat>, d: seq<nat>, i: nat): Thread
    requires i < |q|
  {
    Thread(q[i].code, q[i].pc, q[i].argv, if i + 1 < |q| then |From(c, q[i + 1].local)| else 0,
           |From(d, q[i].startredir)|)
  }

  function Flat(q: seq<CThread>, c: seq<nat>, d: seq<nat>): (r: seq<Thread>)
    ensures |r| == |q|
  {
    seq(|q|, i requires 0 <= i < |q| => FlatAt(q, c, d, i))
  }

  /** Lists get no longer further down. */
  lemma {:induction false} Shorter(q: seq<CThread>, c: seq<nat>, d: seq<nat>, i: nat, j: nat)
    requires Nested(q, c, d) && i <= j < |q|
    ensures |From(c, q[j].local)| <= |From(c, q[i].local)| && |From(d, q[j].redir)| <= |From(d, q[i].redir)|
    ensures i < j ==> |From(d, q[j].redir)| <= |From(d, q[i].startredir)|
    decreases j
  {
    if i < j {
      Shorter(q, c, d, i, j - 1);
      assert NestedAt(q, c, d, j - 1);
    }
  }

  /** p means the same in c' as in c. */
  predicate Keeps(c: seq<nat>, c': seq<nat>, p: nat) {
    PointsInto(c', p) && From(c', p) == From(c, p)
  }

  /** The locals of the waiting threads stay. */
  predicate KeepsLocals(q: seq<CThread>, c: seq<nat>, c': seq<nat>) {
    forall i :: 1 <= i < |q| ==> Keeps(c, c', q[i].local)
  }

  /** The redirections of the waiting threads, and those a thread started with, stay. */
  predicate KeepsRedirs(q: seq<CThread>, d: seq<nat>, d': seq<nat>) {
    forall i :: 0 <= i < |q| ==> Keeps(d, d', q[i].startredir) && (i > 0 ==> Keeps(d, d', q[i].redir))
  }

  lemma KeepsAll(q: seq<CThread>, c: seq<nat>, d: seq<nat>)
    requires Nested(q, c, d)
    ensures KeepsLocals(q, c, c) && KeepsRedirs(q, d, d)
    ensures q != [] ==> Keeps(c, c, q[0].local) && Keeps(d, d, q[0].redir)
    ensures q != [] ==> |From(d, q[0].startredir)| <= |From(d, q[0].redir)|
    ensures |q| > 1 ==> |From(c, q[1].local)| <= |From(c, q[0].local)|
  {
    hide From;
    forall i | 0 <= i < |q|
      ensures Keeps(c, c, q[i].local) && Keeps(d, d, q[i].redir) && Keeps(d, d, q[i].startredir)
    {
      assert NestedAt(q, c, d, i);
    }
    if q != [] {
      assert NestedAt(q, c, d, 0);
    }
  }

  /** The running thread gets other fields, and the lists other cells in front of those that
      have to stay. */
  lemma Moved(q: seq<CThread>, t: CThread, c: seq<nat>, c': seq<nat>, d: seq<nat>, d': seq<nat>)
    requires Nested(q, c, d) && q != [] && t.startredir == q[0].startredir
    requires KeepsLocals(q, c, c') && KeepsRedirs(q, d, d')
    requires PointsInto(c', t.local) && PointsInto(d', t.redir)
    requires |q| > 1 ==> |From(c', q[1].local)| <= |From(c', t.local)|
    requires |From(d', t.startredir)| <= |From(d', t.redir)|
    ensures var q' := [t] + q[1..];
            && Nested(q', c', d')
            && Flat(q', c', d') == [Flat(q, c, d)[0].(code := t.code, pc := t.pc, argv := t.argv)] + Flat(q, c, d)[1..]
  {
    hide From;
    var q' := [t] + q[1..];
    forall i | 0 <= i < |q'| ensures NestedAt(q', c', d', i) {
      assert NestedAt(q, c, d, i);
      assert i > 0 ==> q'[i] == q[i];
      assert i + 1 < |q'| ==> q'[i + 1] == q[i + 1] && Keeps(c, c', q[i + 1].local);
    }
    forall i | 1 <= i < |q'| ensures FlatAt(q', c', d', i) == FlatAt(q, c, d, i) {
      assert i + 1 < |q'| ==> q'[i + 1] == q[i + 1] && Keeps(c, c', q[i + 1].local);
    }
    assert 1 < |q'| ==> q'[1] == q[1] && Keeps(c, c', q[1].local);
  }

  /** Only the counter and the stack of the running thread change. */
  lemma TopMoved(q: seq<CThread>, c: seq<nat>, d: seq<nat>, pc: nat, argv: seq<Strings>)
    requires Nested(q, c, d) && q != []
    ensures var q' := [q[0].(pc := pc, argv := argv)] + q[1..];
            && Nested(q', c, d)
            && Flat(q', c, d) == [Flat(q, c, d)[0].(pc := pc, argv := argv)] + Flat(q, c, d)[1..]
  {
    hide From;
    KeepsAll(q, c, d);
    Moved(q, q[0].(pc := pc, argv := argv), c, c, d, d);
  }

  lemma LocalPushed(q: seq<CThread>, c: seq<nat>, d: seq<nat>, p: nat)
    requires Nested(q, c, d) && q != [] && p != 0 && p !in c
    ensures var q' := [q[0].(local := p)] + q[1..];
            Nested(q', [p] + c, d) && Flat(q', [p] + c, d) == Flat(q, c, d)
  {
    var c' := [p] + c;
    assert From(c', p) == c';
    hide From;
    forall i | 1 <= i < |q| ensures Keeps(c, c', q[i].local) {
      assert NestedAt(q, c, d, i);
      PushFrom(c, p, q[i].local);
    }
    if |q| > 1 {
      assert Keeps(c, c', q[1].local);
      FromShort(c, q[1].local);
    }
    KeepsAll(q, c, d);
    Moved(q, q[0].(local := p), c, c', d, d);
  }

  lemma {:induction false} FromShort(c: seq<nat>, p: nat)
    ensures |From(c, p)| <= |c|
  {
    if c != [] && c[0] != p {
      FromShort(c[1..], p);
    }
  }

  /** A pointer that is not to the first cell means the same without that cell. */
  lemma KeepsTail<T>(h: Heap<T>, c: seq<nat>, p: nat)
    requires IsChain(h, c) && c != [] && PointsInto(c, p) && |From(c, p)| < |c|
    ensures Keeps(c, c[1..], p)
  {
    hide From;
    var n := |c| - 1;
    assert c[|c| - n..] == c[1..];
    ChainHasNoNil(h, c);
    PointsIntoEnd(h, c, n, p);
    FromEnd(c, n, p);
  }

  lemma FromFirst<T>(h: Heap<T>, c: seq<nat>, p: nat)
    requires IsChain(h, c) && c != [] && PointsInto(c, p)
    ensures p != c[0] <==> |From(c, p)| < |c|
  {
    FromShort(c, p);
    SameLength(h, c, p, c[0]);
  }

  /** The running thread gives up a local that no waiting thread has. */
  lemma LocalPopped<T>(h: Heap<T>, q: seq<CThread>, c: seq<nat>, d: seq<nat>)
    requires Nested(q, c, d) && IsChain(h, c) && q != [] && c != [] && q[0].local == c[0]
    requires |q| > 1 ==> q[1].local != c[0]
    ensures var q' := [q[0].(local := HeadOf(c[1..]))] + q[1..];
            Nested(q', c[1..], d) && Flat(q', c[1..], d) == Flat(q, c, d)
  {
    var c' := c[1..];
    assert From(c', HeadOf(c')) == c';
    hide From;
    hide IsChain;
    forall i | 1 <= i < |q| ensures Keeps(c, c', q[i].local) {
      assert NestedAt(q, c, d, i) && NestedAt(q, c, d, 1);
      Shorter(q, c, d, 1, i);
      FromFirst(h, c, q[1].local);
      KeepsTail(h, c, q[i].local);
    }
    if |q| > 1 {
      FromShort(c', q[1].local);
    }
    KeepsAll(q, c, d);
    Moved(q, q[0].(local := HeadOf(c')), c, c', d, d);
  }

  lemma RedirPushed(q: seq<CThread>, c: seq<nat>, d: seq<nat>, p: nat)
    requires Nested(q, c, d) && q != [] && p != 0 && p !in d
    ensures var q' := [q[0].(redir := p)] + q[1..];
            Nested(q', c, [p] + d) && Flat(q', c, [p] + d) == Flat(q, c, d)
  {
    var d' := [p] + d;
    assert From(d', p) == d';
    hide From;
    forall i | 0 <= i < |q| ensures Keeps(d, d', q[i].redir) && Keeps(d, d', q[i].startredir) {
      assert NestedAt(q, c, d, i);
      PushFrom(d, p, q[i].redir);
      PushFrom(d, p, q[i].startredir);
    }
    assert Keeps(d, d', q[0].startredir);
    FromShort(d, q[0].startredir);
    KeepsAll(q, c, d);
    Moved(q, q[0].(redir := p), c, c, d, d');
  }

  /** The running thread gives up a redirection it did not start with. */
  lemma RedirPopped<T>(h: Heap<T>, q: seq<CThread>, c: seq<nat>, d: seq<nat>)
    requires Nested(q, c, d) && IsChain(h, d) && q != [] && d != [] && q[0].redir == d[0] != q[0].startredir
    ensures var q' := [q[0].(redir := HeadOf(d[1..]))] + q[1..];
            Nested(q', c, d[1..]) && Flat(q', c, d[1..]) == Flat(q, c, d)
  {
    var d' := d[1..];
    assert From(d', HeadOf(d')) == d';
    hide From;
    hide IsChain;
    assert NestedAt(q, c, d, 0);
    FromFirst(h, d, q[0].startredir);
    forall i | 0 <= i < |q| ensures Keeps(d, d', q[i].startredir) && (i > 0 ==> Keeps(d, d', q[i].redir)) {
      assert NestedAt(q, c, d, i);
      Shorter(q, c, d, 0, i);
      KeepsTail(h, d, q[i].startredir);
      if i > 0 {
        KeepsTail(h, d, q[i].redir);
      }
    }
    FromShort(d', q[0].startredir);
    KeepsAll(q, c, d);
    Moved(q, q[0].(redir := HeadOf(d')), c, c, d, d');
  }

  /** A new thread starts with the locals and redirections of the one below it. */
  lemma ThreadStarted(q: seq<CThread>, c: seq<nat>, d: seq<nat>, code: seq<Cell>, pc: nat)
    requires Nested(q, c, d) && q != [] && q[0].local == HeadOf(c) && q[0].redir == HeadOf(d)
    ensures var q' := [CThread(code, pc, [], q[0].local, q[0].redir, q[0].redir)] + q;
            && Nested(q', c, d)
            && Flat(q', c, d) == [Thread(code, pc, [], |c|, |d|)] + Flat(q, c, d)
  {
    var q' := [CThread(code, pc, [], q[0].local, q[0].redir, q[0].redir)] + q;
    assert From(c, HeadOf(c)) == c && From(d, HeadOf(d)) == d;
    hide From;
    forall i | 0 <= i < |q'| ensures NestedAt(q', c, d, i) {
      assert i > 0 ==> NestedAt(q, c, d, i - 1);
      assert NestedAt(q, c, d, 0);
      assert i > 0 ==> q'[i] == q[i - 1];
      assert i + 1 < |q'| ==> q'[i + 1] == q[i];
    }
    forall i | 1 <= i < |q'| ensures FlatAt(q', c, d, i) == FlatAt(q, c, d, i - 1) {
      assert i + 1 < |q'| ==> q'[i + 1] == q[i];
    }
    assert q'[1] == q[0];
  }

  /** A pointer into what p points to means the same there. */
  lemma KeepsEnd<T>(h: Heap<T>, c: seq<nat>, p: nat, r: nat)
    requires IsChain(h, c) && PointsInto(c, p) && PointsInto(c, r) && |From(c, r)| <= |From(c, p)|
    ensures Keeps(c, From(c, p), r)
  {
    ChainHasNoNil(h, c);
    FromIsEnd(c, p);
    hide From;
    var n := |From(c, p)|;
    PointsIntoEnd(h, c, n, r);
    FromEnd(c, n, r);
  }

  /** The thread below goes on, with its own ends of the lists. */
  lemma ThreadReturned<T, U>(h: Heap<T>, k: Heap<U>, q: seq<CThread>, c: seq<nat>, d: seq<nat>)
    requires Nested(q, c, d) && |q| > 1 && IsChain(h, c) && IsChain(k, d)
    ensures PointsInto(c, q[1].local) && PointsInto(d, q[1].redir)
    ensures var c', d' := From(c, q[1].local), From(d, q[1].redir);
            Nested(q[1..], c', d') && Flat(q[1..], c', d') == Flat(q, c, d)[1..]
  {
    hide From;
    hide IsChain;
    var c', d', p := From(c, q[1].local), From(d, q[1].redir), q[1..];
    assert NestedAt(q, c, d, 1);
    forall i | 1 <= i < |q|
      ensures Keeps(c, c', q[i].local) && Keeps(d, d', q[i].redir) && Keeps(d, d', q[i].startredir)
    {
      assert NestedAt(q, c, d, i);
      Shorter(q, c, d, 1, i);
      KeepsEnd(h, c, q[1].local, q[i].local);
      KeepsEnd(k, d, q[1].redir, q[i].redir);
      KeepsEnd(k, d, q[1].redir, q[i].startredir);
    }
    forall i | 0 <= i < |p| ensures NestedAt(p, c', d', i) && FlatAt(p, c', d', i) == FlatAt(q, c, d, i + 1) {
      assert NestedAt(q, c, d, i + 1) && p[i] == q[i + 1] && Keeps(c, c', q[i + 1].local);
      assert i + 1 < |p| ==> p[i + 1] == q[i + 2] && Keeps(c, c', q[i + 2].local);
    }
  }
}
