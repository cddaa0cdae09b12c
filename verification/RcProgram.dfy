/**
 Whole vectors: what a compiled line does from its first step to its last, in both
 directions, and that no run of it reaches a panic.
 */
module RcProgram {
  import opened RcTree
  import opened RcGlob
  import opened RcCode
  import opened RcStore
  import opened RcMachine
  import opened RcSteps
  import opened RcSemantics
  import opened RcCorrect

  /** A thread started on the vector of a line, on top of the threads that wait; without
      one below it, all locals are its own. */
  function LineThread(c: Cmd, e: bool, s: State, rest: seq<Thread>): Thread {
    Thread(CodeVector(c, e), 1, [], if rest == [] then 0 else |s.store.locals|, |s.store.redirs|)
  }

  function Started(c: Cmd, e: bool, s: State, rest: seq<Thread>, fns: map<string, Entry>): Run {
    Go(LineThread(c, e, s, rest), rest, s.store, fns)
  }

  /** The thread below goes on; with none below, the shell ends. */
  function Resumed(rest: seq<Thread>, store: Store, fns: map<string, Entry>): Run {
    if rest == [] then Exited(store) else Running(Mach(rest, store, fns))
  }

  lemma VectorLayout(c: Cmd, e: bool)
    ensures var code := CodeC(c, e, 1);
            var v := CodeVector(c, e);
            At(v, 1, code) && |v| == |code| + 3 && v[1 + |code|] == Op(XReturn)
  {
    hide CodeC;
    var code, v := CodeC(c, e, 1), CodeVector(c, e);
    assert v[1..1 + |code|] == code;
  }

  /**
   The vector of a line, run by a thread of its own, follows the meaning of the line
   and then hands the new store, with the locals and redirections of the thread below,
   back to that thread.
   */
  lemma VectorCorrect(host: Host, c: Cmd, e: bool, s: State, fuel: nat, rest: seq<Thread>, fns: map<string, Entry>)
    returns (n: nat, fns': map<string, Entry>)
    requires FnsRel(s.fns, fns)
    ensures var run := Steps(host, Started(c, e, s, rest, fns), n);
            match Exec(host, c, e, s, fuel)
            case Done(s') => run == Resumed(rest, s'.store, fns') && FnsRel(s'.fns, fns')
            case Exit(store) => run == Exited(store)
            case Abort(store) => run == Aborted(store)
            case Fork(store) => run == Forked(store)
            case Timeout => n >= fuel && run.Running?
  {
    hide Steps;
    hide CodeC;
    hide Exec;
    hide CodeVector;
    hide SameFrame;
    hide FnsRel;
    hide At;
    var r := Started(c, e, s, rest, fns);
    var t := LineThread(c, e, s, rest);
    VectorLayout(c, e);
    Start(host, r);
    n, fns' := CmdCorrect(host, c, e, s, fuel, r, 0, t, rest, fns);
    var o := Exec(host, c, e, s, fuel);
    if o.Done? {
      ExecFrame(host, c, e, s, fuel);
      FrameSize(s.store, o.s.store);
      OnReturn(host, r, n, After(t, |CodeC(c, e, 1)|), rest, o.s.store, fns');
      assert o.s.store.locals[0..] == o.s.store.locals;
      n := n + 1;
    }
  }

  /** How a run that ended looks next to the meaning. */
  predicate Agrees(o: Outcome, run: Run) {
    match o
    case Done(s) => run == Exited(s.store)
    case Exit(store) => run == Exited(store)
    case Abort(store) => run == Aborted(store)
    case Fork(store) => run == Forked(store)
    case Timeout => false
  }

  /** Two points of one run: a run that has ended stays as it is. */
  lemma SameEnd(host: Host, r: Run, n: nat, k: nat)
    requires n <= k && !Steps(host, r, n).Running?
    ensures Steps(host, r, k) == Steps(host, r, n)
  {
    hide Steps;
    StepsAdd(host, r, n, k - n);
    StepsHalted(host, Steps(host, r, n), k - n);
  }

  /**
   The other direction: whenever the machine stops, the meaning of the line, with as
   much fuel as the machine took steps, stops too and says the same.
   */
  lemma MachineMeansExec(host: Host, c: Cmd, e: bool, s: State, fns: map<string, Entry>, n: nat)
    requires FnsRel(s.fns, fns)
    requires !Steps(host, Started(c, e, s, [], fns), n).Running?
    ensures Agrees(Exec(host, c, e, s, n + 1), Steps(host, Started(c, e, s, [], fns), n))
  {
    hide Steps;
    hide Exec;
    hide Started;
    var r := Started(c, e, s, [], fns);
    var k, _ := VectorCorrect(host, c, e, s, n + 1, [], fns);
    if n <= k {
      SameEnd(host, r, n, k);
    } else {
      SameEnd(host, r, k, n);
    }
  }

  ghost predicate LoopsForever(host: Host, r: Run) {
    forall n: nat :: Steps(host, r, n).Running?
  }

  ghost predicate ExceedsEveryBound(host: Host, c: Cmd, e: bool, s: State) {
    forall fuel: nat :: Exec(host, c, e, s, fuel) == Timeout
  }

  /** A line loops for ever in the machine exactly when its meaning exceeds every bound. */
  lemma SameDivergence(host: Host, c: Cmd, e: bool, s: State, fns: map<string, Entry>)
    requires FnsRel(s.fns, fns)
    ensures LoopsForever(host, Started(c, e, s, [], fns)) <==> ExceedsEveryBound(host, c, e, s)
  {
    hide Steps;
    hide Exec;
    hide Started;
    var r := Started(c, e, s, [], fns);
    if LoopsForever(host, r) {
      forall fuel: nat ensures Exec(host, c, e, s, fuel) == Timeout {
        var k, _ := VectorCorrect(host, c, e, s, fuel, [], fns);
        assert Steps(host, r, k).Running?;
      }
    }
    if ExceedsEveryBound(host, c, e, s) {
      forall n: nat ensures Steps(host, r, n).Running? {
        assert Exec(host, c, e, s, n + 1) == Timeout;
        if !Steps(host, r, n).Running? {
          MachineMeansExec(host, c, e, s, fns, n);
        }
      }
    }
  }

  /** No run of compiled code reaches a panic, whatever the line, the store and the host. */
  lemma NoPanic(host: Host, c: Cmd, e: bool, s: State, fns: map<string, Entry>, n: nat)
    requires FnsRel(s.fns, fns)
    ensures Steps(host, Started(c, e, s, [], fns), n) != Panicked
  {
    hide Steps;
    hide Exec;
    hide Started;
    if Steps(host, Started(c, e, s, [], fns), n) == Panicked {
      MachineMeansExec(host, c, e, s, fns, n);
    }
  }
}
