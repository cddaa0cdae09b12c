/**
 Linked lists in a heap: cells with an address and a pointer to the next cell.  Two lists
 may share their ends, as the lists of two threads of the shell do.
 */
module RcChain {
  datatype Link<T> = Link(val: T, next: nat)

  /** Address 0 is nil. */
  type Heap<T> = map<nat, Link<T>>

  function HeadOf(c: seq<nat>): nat {
    if c == [] then 0 else c[0]
  }

  function After(c: seq<nat>, k: nat): nat {
    if k + 1 < |c| then c[k + 1] else 0
  }

  /** The cells at these addresses, in this order, are a list that ends in nil. */
  predicate IsChain<T>(h: Heap<T>, c: seq<nat>) {
    && (forall k :: 0 <= k < |c| ==> c[k] != 0 && c[k] in h && h[c[k]].next == After(c, k))
    && (forall i, j :: 0 <= i < j < |c| ==> c[i] != c[j])
  }

  ghost function Vals<T>(h: Heap<T>, c: seq<nat>): seq<T>
    requires IsChain(h, c)
  {
    seq(|c|, k requires 0 <= k < |c| => h[c[k]].val)
  }

  /** The part of a list that starts at p. */
  function From(c: seq<nat>, p: nat): seq<nat> {
    if c == [] || c[0] == p then c else From(c[1..], p)
  }

  /** p is nil or points into the list. */
  predicate PointsInto(c: seq<nat>, p: nat) {
    p == 0 || p in c
  }

  /** It is the end of the list of its length, and p points to it. */
  lemma {:induction false} FromIsEnd(c: seq<nat>, p: nat)
    requires PointsInto(c, p) && 0 !in c
    ensures |From(c, p)| <= |c| && From(c, p) == c[|c| - |From(c, p)|..] && HeadOf(From(c, p)) == p
    ensures p == 0 <==> From(c, p) == []
  {
    if c != [] && c[0] != p {
      FromIsEnd(c[1..], p);
    }
  }

  lemma ChainHasNoNil<T>(h: Heap<T>, c: seq<nat>)
    requires IsChain(h, c)
    ensures 0 !in c
  {}

  /** Pointers into a list are equal exactly if what they point to has the same length. */
  lemma SameLength<T>(h: Heap<T>, c: seq<nat>, p: nat, q: nat)
    requires IsChain(h, c) && PointsInto(c, p) && PointsInto(c, q)
    ensures p == q <==> |From(c, p)| == |From(c, q)|
  {
    ChainHasNoNil(h, c);
    FromIsEnd(c, p);
    FromIsEnd(c, q);
  }

  /** A part of a list is a list, with the last of the values. */
  lemma EndIsChain<T>(h: Heap<T>, c: seq<nat>, n: nat)
    requires IsChain(h, c) && n <= |c|
    ensures IsChain(h, c[|c| - n..]) && Vals(h, c[|c| - n..]) == Vals(h, c)[|c| - n..]
  {
    var m := |c| - n;
    var d := c[m..];
    forall k | 0 <= k < |d| ensures d[k] != 0 && d[k] in h && h[d[k]].next == After(d, k) {
      assert d[k] == c[m + k] && After(d, k) == After(c, m + k);
    }
  }

  /** A pointer into the end of a list means the same there. */
  lemma {:induction false} FromEnd(c: seq<nat>, n: nat, p: nat)
    requires n <= |c| && PointsInto(c[|c| - n..], p) && 0 !in c
    requires forall i, j :: 0 <= i < j < |c| ==> c[i] != c[j]
    ensures PointsInto(c, p) && From(c, p) == From(c[|c| - n..], p)
    decreases |c|
  {
    if n < |c| {
      var d := c[1..];
      assert c[|c| - n..] == d[|d| - n..];
      assert forall i, j :: 0 <= i < j < |d| ==> d[i] == c[i + 1] && d[j] == c[j + 1];
      FromEnd(d, n, p);
      assert p != 0 ==> p in c[|c| - n..];
      assert c[0] != p;
    } else {
      assert c[0..] == c;
    }
  }

  /** A longer end contains the shorter one. */
  lemma PointsIntoEnd<T>(h: Heap<T>, c: seq<nat>, n: nat, p: nat)
    requires IsChain(h, c) && PointsInto(c, p) && |From(c, p)| <= n <= |c|
    ensures PointsInto(c[|c| - n..], p)
  {
    ChainHasNoNil(h, c);
    FromIsEnd(c, p);
    if p != 0 {
      var k := |c| - |From(c, p)|;
      assert c[k] == p;
      assert c[|c| - n..][k - (|c| - n)] == p;
    }
  }

  /** A new cell in front. */
  lemma PushChain<T>(h: Heap<T>, c: seq<nat>, q: nat, v: T)
    requires IsChain(h, c) && q != 0 && q !in h
    ensures var h' := h[q := Link(v, HeadOf(c))];
            IsChain(h', [q] + c) && Vals(h', [q] + c) == [v] + Vals(h, c)
  {
    var h', c' := h[q := Link(v, HeadOf(c))], [q] + c;
    assert q !in c;
    forall k | 0 <= k < |c'| ensures c'[k] != 0 && c'[k] in h' && h'[c'[k]].next == After(c', k) {
      assert k > 0 ==> c'[k] == c[k - 1] && After(c', k) == After(c, k - 1);
    }
    assert IsChain(h', c');
    forall k | 0 <= k < |c'| ensures Vals(h', c')[k] == ([v] + Vals(h, c))[k] {
      assert k > 0 ==> c'[k] == c[k - 1];
    }
  }

  lemma PushFrom(c: seq<nat>, q: nat, p: nat)
    requires q != 0 && q !in c && PointsInto(c, p)
    ensures PointsInto([q] + c, p) && From([q] + c, p) == From(c, p)
  {
    assert ([q] + c)[1..] == c && p != q;
  }

  /** A new value in a cell of the list. */
  lemma SetChain<T>(h: Heap<T>, c: seq<nat>, k: nat, v: T)
    requires IsChain(h, c) && k < |c|
    ensures var h' := h[c[k] := h[c[k]].(val := v)]; IsChain(h', c) && Vals(h', c) == Vals(h, c)[k := v]
  {}

  /** An address that is not in use. */
  lemma {:induction false} Unused(used: set<nat>) returns (p: nat)
    ensures p != 0 && forall q :: q in used ==> q < p
  {
    if used == {} {
      p := 1;
    } else {
      var q :| q in used;
      p := Unused(used - {q});
      if p <= q {
        p := q + 1;
      }
      assert forall r :: r in used ==> r == q || r in used - {q};
    }
  }
}
