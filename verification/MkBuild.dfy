/**
 mk itself: the walk over the graph, the recipes, the scheduler and the main loop
 (mk/mk.c, mk/recipe.c, mk/run.c).
 */
module MkBuild {
  import opened Wrappers
  import opened MkGraph
  import opened MkAim
  import opened MkState

  /** How a call of the program's own exit is reached; the last two are the assertions of the
      main loop and of the end of a build. */
  datatype Exit =
    | Alive | NoFile(node: nat) | NoRecipe(node: nat) | JobFailed(node: nat) | NoChild
    | Stalled | NotDone

  /******* Times *******/

  /** The arc makes its node out of date (`outofdate`, and the test of an arc to nothing). */
  predicate StaleArc(g: Graph, time: seq<nat>, n: nat, i: nat)
    requires n < |g| == |time| && i < |g[n]| && WellFormed(g)
  {
    if g[n][i].to.Some? then time[n] <= time[g[n][i].to.value] else time[n] == 0
  }

  predicate Stale(g: Graph, time: seq<nat>, n: nat)
    requires n < |g| == |time| && WellFormed(g)
  {
    exists i :: 0 <= i < |g[n]| && StaleArc(g, time, n, i)
  }

  /** The node needs nothing: it exists, and is later than all its prerequisites. */
  predicate Fresh(g: Graph, time: seq<nat>, n: nat)
    requires n < |g| == |time| && WellFormed(g)
  {
    (g[n] == [] ==> time[n] != 0) && !Stale(g, time, n)
  }

  /** t is later than the times of all prerequisites of n. */
  predicate Later(g: Graph, time: seq<nat>, n: nat, t: nat)
    requires n < |g| == |time| && WellFormed(g)
  {
    t != 0 && forall i :: 0 <= i < |g[n]| && g[n][i].to.Some? ==> time[g[n][i].to.value] < t
  }

  lemma {:induction false} LaterExists(g: Graph, time: seq<nat>, n: nat, k: nat) returns (t: nat)
    requires n < |g| == |time| && WellFormed(g) && k <= |g[n]|
    ensures t > 0 && forall i :: 0 <= i < k && g[n][i].to.Some? ==> time[g[n][i].to.value] < t
    decreases k
  {
    if k == 0 {
      t := 1;
    } else {
      t := LaterExists(g, time, n, k - 1);
      if g[n][k - 1].to.Some? && t <= time[g[n][k - 1].to.value] {
        t := time[g[n][k - 1].to.value] + 1;
      }
    }
  }

  predicate IsVirtual(g: Graph, n: nat)
    requires n < |g|
  {
    exists i :: 0 <= i < |g[n]| && g[n][i].rule.vir
  }

  predicate IsNoRecipe(g: Graph, n: nat)
    requires n < |g|
  {
    exists i :: 0 <= i < |g[n]| && g[n][i].rule.norec
  }

  /** The latest time among the first k prerequisites other than n, at least 1. */
  function Latest(g: Graph, time: seq<nat>, n: nat, k: nat): nat
    requires n < |g| == |time| && WellFormed(g) && k <= |g[n]|
  {
    if k == 0 then 1
    else
      var t := Latest(g, time, n, k - 1);
      var to := g[n][k - 1].to;
      if to.Some? && to.value != n && t <= time[to.value] then time[to.value] else t
  }

  /** t is the latest of the times of the prerequisites of n, and at least 1. */
  predicate IsLatest(g: Graph, time: seq<nat>, n: nat, t: nat)
    requires n < |g| == |time| && WellFormed(g)
  {
    && t >= 1
    && (forall i :: 0 <= i < |g[n]| && g[n][i].to.Some? && g[n][i].to.value != n ==> time[g[n][i].to.value] <= t)
    && (t == 1 || exists i :: 0 <= i < |g[n]| && g[n][i].to.Some? && time[g[n][i].to.value] == t)
  }

  lemma {:induction false} LatestIs(g: Graph, time: seq<nat>, n: nat, k: nat)
    requires n < |g| == |time| && WellFormed(g) && k <= |g[n]|
    ensures var t := Latest(g, time, n, k);
            && t >= 1
            && (forall i :: 0 <= i < k && g[n][i].to.Some? && g[n][i].to.value != n ==> time[g[n][i].to.value] <= t)
            && (t == 1 || exists i :: 0 <= i < k && g[n][i].to.Some? && time[g[n][i].to.value] == t)
    decreases k
  {
    if k > 0 {
      LatestIs(g, time, n, k - 1);
      var to := g[n][k - 1].to;
      assert to.Some? ==> g[n][k - 1].to.Some?;
    }
  }

  /** A target of time t is no later than some prerequisite, or is missing and needs none. */
  predicate Behind(g: Graph, time: seq<nat>, n: nat, t: nat)
    requires n < |g| == |time| && WellFormed(g)
  {
    exists i :: 0 <= i < |g[n]| && if g[n][i].to.Some? then t <= time[g[n][i].to.value] else t == 0
  }

  /** The recipe of n has to run: `-a` was given, or n was behind from the beginning. */
  predicate Due(x: Setup, time: seq<nat>, n: nat)
    requires n < |x.g| == |time| == |x.first| && WellFormed(x.g)
  {
    x.aflag || Behind(x.g, time, n, x.first[n])
  }

  /**
   The times of a node tell what has been done: unless it is made it has its first time; if it is
   queued it was due; if it was made without its recipe it was not due, and has its first time; and
   a virtual target without a recipe has the latest time of its prerequisites.
   */
  predicate TimedNode(x: Setup, s: State, n: nat)
    requires Shape(x, s) && n < |x.g|
  {
    && (s.flags[n].notmade ==> s.time[n] == x.first[n])
    && (n in s.enqueued ==> Due(x, s.time, n))
    && (s.flags[n] == MADE && n !in s.enqueued && !HasNoRecipe(x.g, n) ==>
          !Due(x, s.time, n) && s.time[n] == x.first[n])
    && (s.flags[n] == MADE && HasNoRecipe(x.g, n) && IsVirtual(x.g, n) ==> IsLatest(x.g, s.time, n, s.time[n]))
  }

  ghost predicate Timed(x: Setup, s: State)
    requires Shape(x, s)
  {
    forall n: nat :: Here(x, n) ==> TimedNode(x, s, n)
  }

  /** The time that `update` gives a node: that of its file, or of its prerequisites if it is
      virtual or the file is not there. */
  function Stamp(g: Graph, time: seq<nat>, files: seq<nat>, n: nat): nat
    requires n < |g| == |time| == |files| && WellFormed(g)
  {
    if IsVirtual(g, n) || files[n] == 0 then Latest(g, time, n, |g[n]|) else files[n]
  }

  /**
   How an honest build leaves a node: fresh, if it is a file without rules or a file with a
   recipe or was found up to date; a virtual target, or a stale file whose rules say that
   it needs no recipe, has the time that `update` gives it.
   */
  predicate Resting(g: Graph, time: seq<nat>, files: seq<nat>, n: nat)
    requires n < |g| == |time| == |files| && WellFormed(g)
  {
    if IsVirtual(g, n) then time[n] == Stamp(g, time, files, n)
    else Fresh(g, time, n) || (HasNoRecipe(g, n) && IsNoRecipe(g, n) && time[n] == Stamp(g, time, files, n))
  }

  /** Every node made so far is at rest. */
  ghost predicate MadeRest(x: Setup, s: State)
    requires Shape(x, s)
  {
    forall n: nat :: Here(x, n) && s.flags[n] == MADE ==> Resting(x.g, s.time, s.files, n)
  }

  /** A virtual target has time 0 until it is made, and if it has a recipe only a job makes it. */
  ghost predicate VirtualOk(x: Setup, s: State)
    requires Shape(x, s)
  {
    forall n: nat :: Here(x, n) && IsVirtual(x.g, n) ==>
      && (s.flags[n].notmade ==> s.time[n] == 0)
      && (!s.flags[n].notmade && !HasNoRecipe(x.g, n) ==> n in s.enqueued)
  }

  /** Nothing of this build needs to be done: all nodes are at rest with the given times,
      and no virtual target has a recipe. */
  ghost predicate Settled(x: Setup, s: State, rest: seq<nat>)
    requires Shape(x, s)
  {
    && |rest| == |x.g|
    && forall n: nat :: Here(x, n) ==>
         && !s.flags[n].beingmade && Resting(x.g, rest, s.files, n)
         && (IsVirtual(x.g, n) ==> HasNoRecipe(x.g, n))
         && s.time[n] == if IsVirtual(x.g, n) && s.flags[n].notmade then 0 else rest[n]
  }

  /******* Progress *******/

  /** Some node below n is being made, or was given up. */
  ghost predicate Blocked(x: Setup, s: State, n: nat) {
    exists b: nat :: Reaches(x.g, n, b) && b < |s.flags| && s.flags[b].beingmade
  }

  /**
   What one node may go through while the graph is walked.  Unless the walk is calm, the job of
   another node may be for it; while it is still, nothing is queued.
   */
  ghost predicate NodeAdvances(s: State, s': State, m: nat, below: bool, calm: bool, still: bool)
    requires m < |s.flags| == |s.time| && m < |s'.flags| == |s'.time|
  {
    && (s.flags[m] == MADE || s.flags[m].beingmade || !below ==>
          && s'.time[m] == s.time[m]
          && (s'.flags[m] == s.flags[m] || (!calm && s'.flags[m] == BEINGMADE)))
    && (s'.flags[m].notmade ==> s.flags[m].notmade && s'.time[m] == s.time[m])
    && (still && s'.flags[m] == BEINGMADE ==> s.flags[m] == BEINGMADE)
  }

  /** From s to s', every job that was queued is for its own node. */
  ghost predicate Calm(x: Setup, s: State, s': State) {
    s.enqueued <= s'.enqueued && AllRight(x.g, x.names, s'.enqueued[|s.enqueued|..])
  }

  lemma CalmTrans(x: Setup, s1: State, s2: State, s3: State)
    requires s1.enqueued <= s2.enqueued <= s3.enqueued
    ensures Calm(x, s1, s3) <==> Calm(x, s1, s2) && Calm(x, s2, s3)
  {
    var a, b := s2.enqueued[|s1.enqueued|..], s3.enqueued[|s2.enqueued|..];
    assert s3.enqueued[|s1.enqueued|..] == a + b;
    AllRightConcat(x.g, x.names, a, b);
  }

  lemma StillCalm(x: Setup, s: State, s': State)
    requires s'.enqueued == s.enqueued
    ensures Calm(x, s, s')
  {
    assert s'.enqueued[|s.enqueued|..] == [];
  }

  /**
   From s to s' the walk has gone on: if it was calm, only nodes of at most the given rank have
   changed; no node has been unmade, and each new job is for a node that was not made.
   */
  ghost predicate Advances(x: Setup, rank: seq<nat>, bound: int, s: State, s': State) {
    && |rank| == |x.g| == |s.flags| == |s.time| == |s'.flags| == |s'.time|
    && s'.files == s.files
    && (forall m :: 0 <= m < |s.flags| ==>
          NodeAdvances(s, s', m, rank[m] <= bound, Calm(x, s, s'), s'.enqueued == s.enqueued))
    && s.enqueued <= s'.enqueued
    && (forall k :: |s.enqueued| <= k < |s'.enqueued| ==>
          s'.enqueued[k] < |s.flags| && s.flags[s'.enqueued[k]].notmade)
    && s.runerrs <= s'.runerrs
    && (s'.enqueued == s.enqueued ==> SameQueue(s, s'))
    && s.failed <= s'.failed
    && (Calm(x, s, s') ==>
          forall m :: m in s'.failed ==> m in s.failed || (m < |s'.flags| && s'.flags[m] == MISSING))
  }

  predicate SameQueue(s: State, s': State) {
    s'.jobs == s.jobs && s'.events == s.events && s'.nrunning == s.nrunning && s'.started == s.started
  }

  lemma AdvancesRefl(x: Setup, rank: seq<nat>, bound: int, s: State)
    requires |rank| == |x.g| == |s.flags| == |s.time|
    ensures Advances(x, rank, bound, s, s)
  {
    hide Calm;
  }

  lemma AdvancesWider(x: Setup, rank: seq<nat>, b1: int, b2: int, s: State, s': State)
    requires Advances(x, rank, b1, s, s') && b1 <= b2
    ensures Advances(x, rank, b2, s, s')
  {
    hide Calm;
    var calm, still := Calm(x, s, s'), s'.enqueued == s.enqueued;
    forall m | 0 <= m < |s.flags| ensures NodeAdvances(s, s', m, rank[m] <= b2, calm, still) {
      assert NodeAdvances(s, s', m, rank[m] <= b1, calm, still);
    }
  }

  /** One node in two walks. */
  lemma NodeAdvancesTrans(
      x: Setup, rank: seq<nat>, b: int, s1: State, s2: State, s3: State, m: nat)
    requires Advances(x, rank, b, s1, s2) && Advances(x, rank, b, s2, s3) && m < |s1.flags|
    ensures NodeAdvances(s1, s3, m, rank[m] <= b, Calm(x, s1, s3), s3.enqueued == s1.enqueued)
  {
    CalmTrans(x, s1, s2, s3);
    hide Calm;
    assert NodeAdvances(s1, s2, m, rank[m] <= b, Calm(x, s1, s2), s2.enqueued == s1.enqueued);
    assert NodeAdvances(s2, s3, m, rank[m] <= b, Calm(x, s2, s3), s3.enqueued == s2.enqueued);
  }

  lemma AdvancesTrans(x: Setup, rank: seq<nat>, b: int, s1: State, s2: State, s3: State)
    requires Advances(x, rank, b, s1, s2) && Advances(x, rank, b, s2, s3)
    ensures Advances(x, rank, b, s1, s3)
  {
    CalmTrans(x, s1, s2, s3);
    hide Calm;
    forall m | 0 <= m < |s1.flags|
      ensures NodeAdvances(s1, s3, m, rank[m] <= b, Calm(x, s1, s3), s3.enqueued == s1.enqueued)
    {
      NodeAdvancesTrans(x, rank, b, s1, s2, s3, m);
    }
    forall k | |s1.enqueued| <= k < |s3.enqueued|
      ensures s3.enqueued[k] < |s1.flags| && s1.flags[s3.enqueued[k]].notmade
    {
      if k < |s2.enqueued| {
        assert s3.enqueued[k] == s2.enqueued[k];
      } else {
        var m := s3.enqueued[k];
        assert s2.flags[m].notmade;
        assert NodeAdvances(s1, s2, m, rank[m] <= b, Calm(x, s1, s2), s2.enqueued == s1.enqueued);
      }
    }
    if Calm(x, s1, s3) {
      forall m | m in s3.failed ensures m in s1.failed || (m < |s3.flags| && s3.flags[m] == MISSING) {
        if m in s2.failed && m !in s1.failed {
          assert NodeAdvances(s2, s3, m, rank[m] <= b, Calm(x, s2, s3), s3.enqueued == s2.enqueued);
        }
      }
    }
  }

  /** The first k prerequisites of n are made. */
  predicate MadeUpTo(g: Graph, s: State, n: nat, k: nat)
    requires n < |g| && k <= |g[n]|
  {
    forall i :: 0 <= i < k && g[n][i].to.Some? ==>
                  g[n][i].to.value < |s.flags| && s.flags[g[n][i].to.value] == MADE
  }

  /** One of the first k arcs makes n out of date. */
  predicate StaleUpTo(g: Graph, time: seq<nat>, n: nat, k: nat)
    requires n < |g| == |time| && k <= |g[n]| && WellFormed(g)
  {
    exists i :: 0 <= i < k && StaleArc(g, time, n, i)
  }

  /** What the loop of `work` knows after k arcs of n. */
  ghost predicate Seen(x: Setup, aflag: bool, s: State, n: nat, k: nat, ready: bool, weoutofdate: bool)
    requires Shape(x, s) && n < |x.g| && k <= |x.g[n]|
  {
    && (ready ==> MadeUpTo(x.g, s, n, k) && (weoutofdate <==> aflag || StaleUpTo(x.g, s.time, n, k)))
    && (!ready ==> Blocked(x, s, n))
  }

  /** Nothing was queued, no file and no error count has changed, nothing needs to be done. */
  ghost predicate Quiet(x: Setup, s: State, s': State, rest: seq<nat>) {
    && s'.enqueued == s.enqueued && s'.files == s.files && s'.runerrs == s.runerrs
    && Shape(x, s') && Settled(x, s', rest)
  }

  /** What was seen of made prerequisites stays true while the walk goes on calmly below n. */
  lemma ArcsStay(x: Setup, rank: seq<nat>, bound: int, s: State, s': State, n: nat, k: nat)
    requires WellFormed(x.g) && Advances(x, rank, bound, s, s') && n < |x.g| && bound < rank[n] && k <= |x.g[n]|
    requires MadeUpTo(x.g, s, n, k) && Calm(x, s, s')
    ensures MadeUpTo(x.g, s', n, k)
    ensures StaleUpTo(x.g, s'.time, n, k) <==> StaleUpTo(x.g, s.time, n, k)
  {
    hide Calm;
    var still := s'.enqueued == s.enqueued;
    assert NodeAdvances(s, s', n, rank[n] <= bound, true, still);
    forall i | 0 <= i < k
      ensures x.g[n][i].to.Some? ==> s'.flags[x.g[n][i].to.value] == MADE
      ensures StaleArc(x.g, s'.time, n, i) == StaleArc(x.g, s.time, n, i)
    {
      if x.g[n][i].to.Some? {
        var c := x.g[n][i].to.value;
        assert NodeAdvances(s, s', c, rank[c] <= bound, true, still);
      }
    }
  }

  lemma BlockedStays(x: Setup, rank: seq<nat>, bound: int, s: State, s': State, n: nat)
    requires Blocked(x, s, n) && Advances(x, rank, bound, s, s')
    ensures Blocked(x, s', n)
  {
    hide Reaches;
    hide Calm;
    var b: nat :| Reaches(x.g, n, b) && b < |s.flags| && s.flags[b].beingmade;
    assert NodeAdvances(s, s', b, rank[b] <= bound, Calm(x, s, s'), s'.enqueued == s.enqueued);
  }

  lemma BlockedAbove(x: Setup, s: State, n: nat, child: nat)
    requires Blocked(x, s, child) && Edge(x.g, n, child)
    ensures Blocked(x, s, n)
  {
    var b: nat :| Reaches(x.g, child, b) && b < |s.flags| && s.flags[b].beingmade;
    ReachesStep(x.g, n, child, b);
  }

  /** The prerequisites of a node of the build belong to it too, and rank lower. */
  lemma ChildHere(x: Setup, rank: seq<nat>, n: nat, i: nat)
    requires WellFormed(x.g) && Ranked(x.g, x.root, rank) && Here(x, n) && i < |x.g[n]| && x.g[n][i].to.Some?
    ensures Here(x, x.g[n][i].to.value) && Edge(x.g, n, x.g[n][i].to.value)
    ensures rank[x.g[n][i].to.value] < rank[n]
  {
    hide IsPath;
    var c := x.g[n][i].to.value;
    assert Edge(x.g, n, c);
    ReachesEdge(x.g, x.root, n, c);
  }

  lemma AllBuilt(x: Setup, s: State, n: nat)
    requires Core(x, s) && s.flags[x.root] == MADE && Here(x, n)
    ensures s.flags[n] == MADE
  {
    var p :| IsPathFrom(x.g, x.root, p) && p[|p| - 1] == n;
    ReachesSelf(x.g, x.root);
    MadeBelow(x, s, x.root, p);
  }

  /** A pid that no running child has. */
  lemma {:induction false} FreshPid(events: seq<Slot>) returns (pid: int)
    ensures pid > 0 && forall i :: 0 <= i < |events| ==> events[i].pid < pid
  {
    if events == [] {
      pid := 1;
    } else {
      pid := FreshPid(events[1..]);
      assert forall i :: 0 < i < |events| ==> events[i] == events[1..][i - 1];
      if pid <= events[0].pid {
        pid := events[0].pid + 1;
      }
    }
  }

  /** The system gives a new child a positive pid that no other child has. */
  predicate IsNewPid(events: seq<Slot>, pid: int) {
    pid > 0 && forall i :: 0 <= i < |events| && events[i].pid > 0 ==> events[i].pid != pid
  }

  /** One node becomes made: the walk has gone on. */
  lemma MadeAdvances(x: Setup, rank: seq<nat>, s: State, n: nat, t: nat)
    requires Shape(x, s) && |rank| == |x.g| && n < |x.g| && s.flags[n] == NOTMADE
    ensures Advances(x, rank, rank[n], s, MakeMade(s, n, t))
  {}

  lemma MissingAdvances(x: Setup, rank: seq<nat>, s: State, n: nat)
    requires Shape(x, s) && |rank| == |x.g| && n < |x.g| && s.flags[n] == NOTMADE
    ensures Advances(x, rank, rank[n], s, MakeMissing(s, n))
  {}

  lemma EnqueueAdvances(x: Setup, rank: seq<nat>, s: State, s': State, n: nat, target: Option<nat>)
    requires Shape(x, s) && |rank| == |x.g| && n < |x.g| && s.flags[n] == NOTMADE
    requires target.Some? ==> target.value < |s.flags| && Aim(x.g, x.names, n) == target
    requires s'.flags == Mark(s.flags[n := BEINGMADE], target) && s'.time == s.time
    requires s'.enqueued == s.enqueued + [n]
    requires s'.files == s.files
    requires s'.runerrs == s.runerrs && s'.failed == s.failed
    ensures Advances(x, rank, rank[n], s, s') && Blocked(x, s', n)
  {
    hide Aim;
    ReachesSelf(x.g, n);
    assert s'.enqueued[|s.enqueued|..] == [n];
    assert Calm(x, s, s') ==> Right(x.g, x.names, n) by {
      assert n in [n];
    }
  }

  /** Times of the prerequisites decide the latest of them. */
  lemma {:induction false} SameLatest(g: Graph, time: seq<nat>, time': seq<nat>, n: nat, k: nat)
    requires n < |g| == |time| == |time'| && WellFormed(g) && k <= |g[n]|
    requires forall i :: 0 <= i < |g[n]| && g[n][i].to.Some? && g[n][i].to.value != n ==>
               time'[g[n][i].to.value] == time[g[n][i].to.value]
    ensures Latest(g, time', n, k) == Latest(g, time, n, k)
    decreases k
  {
    if k > 0 {
      SameLatest(g, time, time', n, k - 1);
    }
  }

  /** A node is at rest if its time, its file and the times of its prerequisites say so. */
  lemma SameResting(g: Graph, time: seq<nat>, time': seq<nat>, files: seq<nat>, files': seq<nat>, n: nat)
    requires n < |g| == |time| == |time'| == |files| == |files'| && WellFormed(g)
    requires forall i :: 0 <= i < |g[n]| && g[n][i].to.Some? ==> time'[g[n][i].to.value] == time[g[n][i].to.value]
    requires time'[n] == time[n] && (files'[n] == files[n] || !HasNoRecipe(g, n))
    ensures Resting(g, time', files', n) <==> Resting(g, time, files, n)
  {
    SameLatest(g, time, time', n, |g[n]|);
    assert forall i :: 0 <= i < |g[n]| ==> (StaleArc(g, time', n, i) <==> StaleArc(g, time, n, i));
  }

  /** Only the times of prerequisites decide whether a node is due, and what the latest is. */
  lemma SameDue(x: Setup, s: State, s': State, m: nat, n: nat)
    requires Shape(x, s) && Shape(x, s') && m < |x.g| && AllMade(x.g, s, m) && n < |x.g| && s.flags[n] != MADE
    requires s'.time == s.time[n := s'.time[n]]
    ensures Due(x, s'.time, m) <==> Due(x, s.time, m)
    ensures forall t :: IsLatest(x.g, s'.time, m, t) <==> IsLatest(x.g, s.time, m, t)
  {
    assert forall i :: 0 <= i < |x.g[m]| && x.g[m][i].to.Some? ==>
                         s'.time[x.g[m][i].to.value] == s.time[x.g[m][i].to.value];
  }

  /** One node that is not made changes: what the times of the others tell stays true. */
  lemma TimedStays(x: Setup, s: State, s': State, n: nat)
    requires Core(x, s) && Timed(x, s) && Shape(x, s') && Here(x, n) && s.flags[n] != MADE
    requires s'.flags == s.flags[n := s'.flags[n]] && s'.time == s.time[n := s'.time[n]]
    requires s'.enqueued == s.enqueued || s'.enqueued == s.enqueued + [n]
    requires TimedNode(x, s', n)
    ensures Timed(x, s')
  {
    hide Reaches;
    hide Busy;
    hide Due;
    hide IsLatest;
    hide IsVirtual;
    forall m: nat | Here(x, m) ensures TimedNode(x, s', m) {
      assert TimedNode(x, s, m);
      if m != n && (m in s.enqueued || s.flags[m] == MADE) {
        assert AllMade(x.g, s, m);
        SameDue(x, s, s', m, n);
      }
    }
  }

  /** A node that is made and at rest disturbs no node made before. */
  lemma MadeAtRest(x: Setup, s: State, s': State, n: nat)
    requires Core(x, s) && MadeRest(x, s) && Shape(x, s') && Here(x, n) && s.flags[n] != MADE
    requires s'.flags == s.flags[n := s'.flags[n]] && s'.time == s.time[n := s'.time[n]]
    requires s'.files == s.files || (s'.files == s.files[n := s'.files[n]] && !HasNoRecipe(x.g, n))
    requires s'.flags[n] == MADE ==> Resting(x.g, s'.time, s'.files, n)
    ensures MadeRest(x, s')
  {
    hide Reaches;
    hide Busy;
    hide Resting;
    forall m: nat | Here(x, m) && s'.flags[m] == MADE ensures Resting(x.g, s'.time, s'.files, m) {
      if m != n {
        assert Resting(x.g, s.time, s.files, m) && AllMade(x.g, s, m);
        SameResting(x.g, s.time, s'.time, s.files, s'.files, m);
      }
    }
  }

  /** One node changes in a way that suits a virtual target. */
  lemma VirtualStays(x: Setup, s: State, s': State, n: nat)
    requires Shape(x, s) && Shape(x, s') && VirtualOk(x, s) && n < |x.g|
    requires s'.flags == s.flags[n := s'.flags[n]] && s'.time == s.time[n := s'.time[n]]
    requires s'.enqueued == s.enqueued || s'.enqueued == s.enqueued + [n]
    requires !IsVirtual(x.g, n) || (!s'.flags[n].notmade && (HasNoRecipe(x.g, n) || n in s'.enqueued))
    ensures VirtualOk(x, s')
  {
    hide Reaches;
  }

  /******* How a build ends *******/

  /** No job started before everything below its node was done: each has ended well before, or
      never has a job. */
  ghost predicate InTurn(g: Graph, log: seq<Event>) {
    forall i: nat :: i < |log| && log[i].Start? ==> TurnOf(g, log, i)
  }

  ghost predicate TurnOf(g: Graph, log: seq<Event>, i: nat)
    requires i < |log|
  {
    && log[i].node < |g|
    && forall m: nat :: m < |g| && m != log[i].node && Reaches(g, log[i].node, m) ==>
         End(m, true) in log[..i] || m !in Starts(log)
  }

  /** Each job was started with the recipe of its node. */
  predicate WithRecipe(g: Graph, log: seq<Event>) {
    forall i :: 0 <= i < |log| && log[i].Start? ==>
      log[i].node < |g| && log[i].recipe == LastRecipe(g[log[i].node])
  }

  /** What can be said of the history at any time. */
  ghost predicate Traced(x: Setup, s: State) {
    && NoDup(s.started) && Starts(s.log) == s.started && WithRecipe(x.g, s.log)
    && s.started <= s.enqueued && (forall n :: n in s.enqueued ==> Here(x, n) && !HasNoRecipe(x.g, n))
    && (Straight(x, s.enqueued) ==> InTurn(x.g, s.log))
  }

  /** The reason of each error exit. */
  ghost predicate Reasoned(g: Graph, root: nat, time: seq<nat>, log: seq<Event>, exit: Exit) {
    match exit
    case Alive => true
    case NoChild => true
    case NoFile(n) => n < |g| && n < |time| && Reaches(g, root, n) && g[n] == [] && time[n] == 0
    case NoRecipe(n) =>
      && n < |g| && Reaches(g, root, n) && g[n] != []
      && HasNoRecipe(g, n) && !IsVirtual(g, n) && !IsNoRecipe(g, n)
    case JobFailed(n) => n in Starts(log) && End(n, false) in log
    case Stalled => true
    case NotDone => true
  }

  ghost predicate Ended(x: Setup, s: State, exit: Exit) {
    Shape(x, s) && Traced(x, s) && Reasoned(x.g, x.root, s.time, s.log, exit)
  }

  /** What is known of the times in a run that has kept straight. */
  ghost predicate AtRest(x: Setup, s: State, honest: bool)
    requires Shape(x, s)
  {
    VirtualOk(x, s) && Timed(x, s) && (honest ==> MadeRest(x, s))
  }

  /** The target has an arc that makes it out of date. */
  predicate Outdated(g: Graph, time: seq<nat>, m: nat)
    requires m < |g| == |time| && WellFormed(g)
  {
    exists i :: 0 <= i < |g[m]| && g[m][i].to.Some? && StaleArc(g, time, m, i)
  }

  /** The target of the job of n: the node of its name, if that is out of date. */
  function TargetOf(g: Graph, names: seq<string>, aflag: bool, time: seq<nat>, n: nat): (r: Option<nat>)
    requires n < |g| == |time| == |names| && WellFormed(g)
    ensures r.Some? ==> r.value < |g|
  {
    match Aim(g, names, n)
    case None => None
    case Some(m) => if aflag || time[m] == 0 || Outdated(g, time, m) then Some(m) else None
  }

  /** A job that is for its own node finds it out of date. */
  lemma RightTarget(g: Graph, names: seq<string>, aflag: bool, time: seq<nat>, n: nat)
    requires Right(g, names, n) && |g| == |time| == |names| && WellFormed(g) && (aflag || Stale(g, time, n))
    ensures TargetOf(g, names, aflag, time, n) == Some(n)
  {
    hide Aim;
    if !aflag {
      var i :| 0 <= i < |g[n]| && StaleArc(g, time, n, i);
    }
  }

  /** The times a build starts with: virtual targets have none. */
  ghost function FirstTimes(g: Graph, root: nat, time: seq<nat>): (r: seq<nat>)
    requires |g| == |time|
    ensures |r| == |g|
    ensures forall n: nat :: n < |g| && Reaches(g, root, n) ==> r[n] == if IsVirtual(g, n) then 0 else time[n]
  {
    seq(|g|, n requires 0 <= n < |g| => if Reaches(g, root, n) && IsVirtual(g, n) then 0 else time[n])
  }

  /**
   What a build has remade, for the times before and after it: the recipe of a node was run if and
   only if `-a` was given or the target, of which a virtual one has no time, was no later than some
   prerequisite is now; and a virtual target without a recipe has the latest time of its prerequisites.
   */
  ghost predicate Remade(g: Graph, root: nat, aflag: bool, before: seq<nat>, time: seq<nat>, started: seq<nat>) {
    && |before| == |time| == |g| && WellFormed(g)
    && forall n: nat :: n < |g| && Reaches(g, root, n) ==>
         && (!HasNoRecipe(g, n) ==>
               (n in started <==> aflag || Behind(g, time, n, if IsVirtual(g, n) then 0 else before[n])))
         && (HasNoRecipe(g, n) && IsVirtual(g, n) ==> IsLatest(g, time, n, time[n]))
  }

  class Mk {
    const g: Graph
    /** The names of the nodes. */
    const names: seq<string>
    const nproclimit: nat
    const kflag: bool
    const aflag: bool
    /** The assumption that a recipe that succeeds leaves its target later than all prerequisites. */
    const honest: bool

    var flags: seq<Flags>
    var time: seq<nat>
    var jobs: seq<Job>
    var events: seq<Slot>
    var nrunning: int
    var runerrs: nat
    /** The files, which belong to the system: only the end of a child changes one, its target. */
    var files: seq<nat>
    ghost var enqueued: seq<nat>
    ghost var started: seq<nat>
    ghost var failed: set<nat>
    ghost var log: seq<Event>

    constructor (
        g: Graph, names: seq<string>, time: seq<nat>, files: seq<nat>, nproclimit: nat, kflag: bool, aflag: bool,
        honest: bool)
      requires WellFormed(g) && |names| == |time| == |files| == |g| && nproclimit > 0
      ensures this.g == g && this.names == names && this.nproclimit == nproclimit
      ensures this.time == time && this.files == files
      ensures this.kflag == kflag && this.aflag == aflag && this.honest == honest
      ensures Idle() && |flags| == |g|
    {
      this.names := names;
      this.g, this.nproclimit, this.kflag, this.aflag, this.honest := g, nproclimit, kflag, aflag, honest;
      this.time, this.files := time, files;
      flags := seq(|g|, _ => Flags(false, false, false));
      jobs, nrunning, runerrs := [], 0, 0;
      events := seq(nproclimit, _ => Slot(0, Job(0, None, Recipe(0, ""))));
      enqueued, started, failed, log := [], [], {}, [];
      new;
      BusyNone(events);
    }

    ghost function St(): State
      reads this
    {
      State(flags, time, files, jobs, events, nrunning, runerrs, enqueued, started, failed, log)
    }

    /** No job waits and no child runs. */
    ghost predicate Idle()
      reads this
    {
      && jobs == [] && nrunning == 0 && nproclimit > 0 && nproclimit <= |events|
      && forall i :: 0 <= i < |events| ==> events[i].pid <= 0
    }

    /** The setup of a build by this program. */
    ghost predicate Ours(x: Setup, rank: seq<nat>) {
      x.g == g && x.names == names && x.limit == nproclimit && x.aflag == aflag && Ranked(g, x.root, rank)
    }

    /******* The scheduler *******/

    /** `nextslot`: the assertion that a slot is free cannot fail. */
    method NextSlot(ghost x: Setup) returns (slot: nat)
      requires Shape(x, St()) && SlotsOk(x, St()) && x.limit == nproclimit && nrunning < nproclimit
      ensures slot < nproclimit && events[slot].pid <= 0
      ensures forall i :: 0 <= i < slot ==> events[i].pid > 0
    {
      slot := 0;
      while slot < nproclimit && events[slot].pid > 0
        invariant slot <= nproclimit
        invariant forall i :: 0 <= i < slot ==> events[i].pid > 0
      {
        slot := slot + 1;
      }
      if slot == nproclimit {
        BusyAtLeast(events, nproclimit);
      }
      assert slot < nproclimit;
    }

    /** The system starts a child for a recipe. */
    method ExecSh() returns (pid: int)
      ensures IsNewPid(events, pid)
    {
      ghost var unused := FreshPid(events);
      assert IsNewPid(events, unused);
      pid :| IsNewPid(events, pid);
    }

    method Sched(ghost x: Setup)
      requires Sound(x, St()) && x.limit == nproclimit && nrunning < nproclimit
      modifies this`jobs, this`events, this`nrunning, this`started, this`log
      ensures Sound(x, St())
      ensures old(jobs) == [] ==> St() == old(St())
      ensures old(jobs) != [] ==>
                exists i: nat, pid: int ::
                  i < nproclimit && old(events)[i].pid <= 0 && pid > 0 && St() == Fire(old(St()), i, pid)
    {
      hide Core;
      hide Straight;
      hide FlagsOk;
      hide QueueOk;
      hide JobsLoose;
      hide MissedOk;
      hide LogLoose;
      hide Busy;
      if jobs == [] {
        return;
      }
      var j := jobs[0];
      var slot := NextSlot(x);
      var pid := ExecSh();
      FireLoose(x, St(), slot, pid);
      if Straight(x, enqueued) {
        FireKeeps(x, St(), slot, pid);
      }
      jobs := jobs[1..];
      events := events[slot := Slot(pid, j)];
      nrunning := nrunning + 1;
      started := started + [j.node];
      log := log + [Start(j.node, j.recipe)];
      assert St() == Fire(old(St()), slot, pid);
    }

    /** Queue a job; start the first waiting one if a slot is free. */
    method Run(ghost x: Setup, ghost s0: State, n: nat, j: Job)
      requires Full(x, s0) && x.limit == nproclimit && n < |s0.flags| && n < |x.g|
      requires j == Job(n, j.target, LastRecipe(x.g[n])) && (j.target.Some? ==> j.target.value < |s0.flags|)
      requires Sound(x, Enqueue(x, s0, n, j.target))
      requires St() == s0.(flags := Mark(s0.flags[n := BEINGMADE], j.target))
      modifies this`jobs, this`events, this`nrunning, this`started, this`enqueued, this`log
      ensures Shape(x, St()) && Sound(x, St()) && Full(x, St())
      ensures enqueued == old(enqueued) + [n]
    {
      hide Core;
      hide Straight;
      hide FlagsOk;
      hide Busy;
      hide QueueOk;
      hide JobsLoose;
      hide MissedOk;
      hide LogLoose;
      jobs := jobs + [j];
      enqueued := enqueued + [n];
      assert St() == Enqueue(x, s0, n, j.target);
      if nrunning < nproclimit {
        assert |jobs| == 1;
        Sched(x);
      }
    }

    /******* Recipes *******/

    /** `update`: the node is made, or has failed, and gets its new time. */
    method Update(n: nat, fake: bool)
      requires n < |g| == |time| == |flags| == |files| && WellFormed(g)
      modifies this`flags, this`time
      ensures flags == old(flags)[n := if fake then BEINGMADE else MADE]
      ensures time == old(time)[n := Stamp(g, old(time), files, n)]
      ensures if IsVirtual(g, n) || files[n] == 0 then IsLatest(g, old(time), n, time[n]) else time[n] == files[n]
    {
      LatestIs(g, time, n, |g[n]|);
      flags := flags[n := if fake then BEINGMADE else MADE];
      if IsVirtual(g, n) || files[n] == 0 {
        time := time[n := 1];
        for i := 0 to |g[n]|
          invariant time == old(time)[n := Latest(g, old(time), n, i)]
          invariant flags == old(flags)[n := if fake then BEINGMADE else MADE]
        {
          if g[n][i].to.Some? && time[n] <= time[g[n][i].to.value] {
            time := time[n := time[g[n][i].to.value]];
          }
        }
      } else {
        time := time[n := files[n]];
      }
    }

    /** The target of the job: the stem is put into the target of the rule, and a node is looked
        for; it may be up to date. */
    method OldTarget(n: nat, a: Arc) returns (target: Option<nat>)
      requires n < |g| == |time| == |names| && WellFormed(g) && Master(g[n]) == Some(a)
      ensures target == TargetOf(g, names, aflag, time, n)
    {
      hide AimName;
      var found := FindName(names, AimName(a.rule, a.stem));
      if found.None? {
        return None;
      }
      var m := found.value;
      var stale := aflag || time[m] == 0;
      if !stale {
        for i := 0 to |g[m]|
          invariant stale <==> exists k :: 0 <= k < i && g[m][k].to.Some? && StaleArc(g, time, m, k)
        {
          if g[m][i].to.Some? && time[m] <= time[g[m][i].to.value] {
            assert StaleArc(g, time, m, i);
            stale := true;
          }
        }
      }
      target := if stale then Some(m) else None;
    }

    /** The last arc with a recipe; -1 if there is none. */
    method MasterArc(n: nat) returns (master: int)
      requires n < |g|
      ensures master < |g[n]| && (master < 0 <==> HasNoRecipe(g, n))
      ensures master >= 0 ==> Master(g[n]) == Some(g[n][master])
    {
      master := -1;
      for i := 0 to |g[n]|
        invariant master < i && (master < 0 <==> Master(g[n][..i]).None?)
        invariant master >= 0 ==> Master(g[n][..i]) == Some(g[n][master])
      {
        assert g[n][..i + 1][..i] == g[n][..i];
        if HasRecipe(g[n][i].rule) {
          master := i;
        }
      }
      assert g[n][..|g[n]|] == g[n];
    }

    method DoRecipe(ghost x: Setup, ghost rank: seq<nat>, n: nat) returns (exit: Exit, did: bool)
      requires Good(x, rank) && Here(x, n) && flags[n] == NOTMADE && AllMade(g, St(), n)
      requires g[n] != [] && (aflag || Stale(g, time, n))
      modifies this`flags, this`time, this`jobs, this`events, this`nrunning, this`started, this`enqueued, this`log
      ensures exit.Alive? ==> Walked(x, rank, rank[n], old(St())) && (flags[n] == MADE || Blocked(x, St(), n))
      ensures !exit.Alive? ==> exit == NoRecipe(n) && Ended(x, St(), exit)
      ensures did == (|enqueued| > |old(enqueued)|) && (did ==> flags[n] == BEINGMADE)
      ensures HasNoRecipe(g, n) && (IsVirtual(g, n) || IsNoRecipe(g, n)) ==>
                exit.Alive? && !did && St() == MakeMade(old(St()), n, Stamp(g, old(time), files, n))
    {
      hide Reaches;
      hide Ranked;
      hide AtRest;
      hide Advances;
      hide Blocked;
      hide Loose;
      hide Core;
      hide Straight;
      hide Traced;
      hide Stamp;
      hide TargetOf;
      var master := MasterArc(n);
      did := false;
      exit := Alive;
      ghost var s0 := St();
      if master < 0 {
        if IsVirtual(g, n) || IsNoRecipe(g, n) {
          Update(n, false);
          assert St() == MakeMade(s0, n, time[n]);
          MadeAdvances(x, rank, s0, n, time[n]);
          BareMadeSound(x, s0, n, honest);
        } else {
          exit := NoRecipe(n);
          SoundTraced(x, St());
        }
        return;
      }
      QueueJob(x, rank, n, g[n][master]);
      did := true;
    }

    /** Find the target of a job, mark it and the node, and queue the job. */
    method QueueJob(ghost x: Setup, ghost rank: seq<nat>, n: nat, a: Arc)
      requires Good(x, rank) && Here(x, n) && flags[n] == NOTMADE && AllMade(g, St(), n)
      requires Master(g[n]) == Some(a) && (aflag || Stale(g, time, n))
      modifies this`flags, this`jobs, this`events, this`nrunning, this`started, this`enqueued, this`log
      ensures Walked(x, rank, rank[n], old(St())) && Blocked(x, St(), n)
      ensures enqueued == old(enqueued) + [n] && flags[n] == BEINGMADE
    {
      hide Reaches;
      hide Ranked;
      hide AtRest;
      hide Advances;
      hide Blocked;
      hide Loose;
      hide Core;
      hide Straight;
      hide TargetOf;
      hide Stale;
      ghost var s0 := St();
      var target := OldTarget(n, a);
      QueueSound(x, s0, n, aflag, honest);
      flags := flags[n := BEINGMADE];
      if target.Some? {
        flags := flags[target.value := BEINGMADE];
      }
      Run(x, s0, n, Job(n, target, a.rule.recipe));
      TargetAims(g, names, aflag, time, n);
      EnqueueAdvances(x, rank, s0, St(), n, target);
      QueuedRest(x, s0, St(), n, target, honest);
    }

    /******* The walk *******/

    /** What every call of the walk starts from and leaves behind. */
    ghost predicate Good(x: Setup, rank: seq<nat>)
      reads this
    {
      && Shape(x, St()) && |rank| == |x.g| && Ours(x, rank) && Sound(x, St()) && Full(x, St())
      && (Straight(x, enqueued) ==> AtRest(x, St(), honest))
    }

    /** The walk has gone on from s0, among nodes of at most the given rank. */
    ghost predicate Walked(x: Setup, rank: seq<nat>, bound: int, s0: State)
      reads this
    {
      Good(x, rank) && Advances(x, rank, bound, s0, St())
    }

    /** Look at each prerequisite of n; can n be made now, and does it need to be? */
    method WorkArcs(ghost x: Setup, ghost rank: seq<nat>, ghost rest: seq<nat>, n: nat)
      returns (exit: Exit, did: bool, ready: bool, weoutofdate: bool)
      requires Good(x, rank) && Here(x, n) && flags[n] == NOTMADE
      modifies this`flags, this`time, this`jobs, this`events, this`nrunning, this`runerrs
      modifies this`started, this`enqueued, this`failed, this`log
      ensures exit.Alive? ==> Walked(x, rank, rank[n] as int - 1, old(St()))
      ensures exit.Alive? ==> Seen(x, aflag, St(), n, |g[n]|, ready, weoutofdate)
      ensures exit.Alive? ==> did == (|enqueued| > |old(enqueued)|)
      ensures exit.Alive? && ready ==> enqueued == old(enqueued)
      ensures !exit.Alive? ==> Ended(x, St(), exit) && (exit.NoRecipe? || (exit.NoFile? && !kflag))
      ensures !aflag && Settled(x, old(St()), rest) ==> exit.Alive? && ready && Quiet(x, old(St()), St(), rest)
      decreases rank[n], 0
    {
      hide Reaches;
      hide Sound;
      hide Straight;
      hide AtRest;
      hide Advances;
      hide Seen;
      hide Settled;
      hide Ended;
      exit, did, ready, weoutofdate := Alive, false, true, aflag;
      ghost var s0 := St();
      ghost var bound := rank[n] as int - 1;
      ghost var quiet := !aflag && Settled(x, s0, rest);
      AdvancesRefl(x, rank, bound, s0);
      SeenNone(x, aflag, s0, n);
      for i := 0 to |g[n]|
        invariant exit.Alive?
        invariant Walked(x, rank, bound, s0)
        invariant Seen(x, aflag, St(), n, i, ready, weoutofdate)
        invariant did == (|enqueued| > |s0.enqueued|)
        invariant ready ==> enqueued == s0.enqueued
        invariant quiet ==> ready && Quiet(x, s0, St(), rest)
      {
        ghost var s1 := St();
        if g[n][i].to.Some? {
          var child := g[n][i].to.value;
          ChildHere(x, rank, n, i);
          var d: bool;
          exit, d := Work(x, rank, rest, child);
          if !exit.Alive? {
            return;
          }
          ghost var s2 := St();
          AdvancesWider(x, rank, rank[child], bound, s1, s2);
          AdvancesTrans(x, rank, bound, s0, s1, s2);
          AdvancesQueue(x, rank, bound, s1, s2);
          AdvancesQueue(x, rank, bound, s0, s1);
          did := did || d;
          FourFlags(x, s2, child);
          SeenChild(x, aflag, rank, bound, s1, s2, n, i, ready, weoutofdate);
          if flags[child].notmade || flags[child].beingmade {
            ready := false;
          }
          if time[n] <= time[child] {
            weoutofdate := true;
          }
        } else {
          SeenNothing(x, aflag, s1, n, i, ready, weoutofdate);
          if time[n] == 0 {
            weoutofdate := true;
          }
        }
      }
    }

    /** A node without arcs is made if it exists; if not, it is an error, or is given up. */
    method WorkLeaf(ghost x: Setup, ghost rank: seq<nat>, ghost rest: seq<nat>, n: nat) returns (exit: Exit)
      requires Good(x, rank) && Here(x, n) && flags[n] == NOTMADE && g[n] == []
      modifies this`flags, this`runerrs, this`failed
      ensures exit.Alive? ==> Walked(x, rank, rank[n], old(St()))
      ensures exit.Alive? ==> flags[n] == MADE || Blocked(x, St(), n)
      ensures !exit.Alive? ==> Ended(x, St(), exit)
      ensures Settled(x, old(St()), rest) ==> exit.Alive? && flags[n] == MADE && Quiet(x, old(St()), St(), rest)
      ensures if time[n] != 0 then exit.Alive? && flags[n] == MADE
              else if kflag then exit.Alive? && flags[n] == MISSING
              else exit == NoFile(n)
    {
      hide Ranked;
      hide AtRest;
      hide Straight;
      hide Advances;
      hide Settled;
      hide Core;
      hide Loose;
      hide Traced;
      exit := Alive;
      ghost var s0 := St();
      if Settled(x, s0, rest) {
        SettledLeaf(x, s0, rest, n);
      }
      if time[n] == 0 {
        if kflag {
          MissingSound(x, s0, n, honest);
          MissingAdvances(x, rank, s0, n);
          flags := flags[n := flags[n].(beingmade := true)];
          runerrs := runerrs + 1;
          failed := failed + {n};
          assert St() == MakeMissing(s0, n);
          BlockedSelf(x, St(), n);
        } else {
          exit := NoFile(n);
          SoundTraced(x, St());
        }
      } else {
        LeafNotVirtual(g, n);
        MadeSetMade(x, rank, rest, n);
      }
    }

    /**
     `work`: afterwards n is made, or something below it is being made or was given up.
     */
    method Work(ghost x: Setup, ghost rank: seq<nat>, ghost rest: seq<nat>, n: nat) returns (exit: Exit, did: bool)
      requires Good(x, rank) && Here(x, n)
      modifies this`flags, this`time, this`jobs, this`events, this`nrunning, this`runerrs
      modifies this`started, this`enqueued, this`failed, this`log
      ensures exit.Alive? ==> Walked(x, rank, rank[n], old(St()))
      ensures exit.Alive? ==> flags[n] == MADE || Blocked(x, St(), n)
      ensures exit.Alive? ==> did == (|enqueued| > |old(enqueued)|) && (did ==> flags[n] != MADE)
      ensures !exit.Alive? ==> Ended(x, St(), exit) && (exit.NoRecipe? || (exit.NoFile? && !kflag))
      ensures !aflag && Settled(x, old(St()), rest) ==>
                exit.Alive? && flags[n] == MADE && Quiet(x, old(St()), St(), rest)
      ensures g[n] == [] && old(flags[n]) == NOTMADE ==>
                if old(time[n]) != 0 then exit.Alive? && flags[n] == MADE
                else if kflag then exit.Alive? && flags[n] == MISSING
                else exit == NoFile(n)
      ensures g[n] == [] ==> !did
      decreases rank[n], 1
    {
      hide Ranked;
      hide AtRest;
      hide Straight;
      hide Advances;
      hide Seen;
      hide Settled;
      hide Sound;
      hide Ended;
      hide Resting;
      hide Stamp;
      hide Calm;
      exit, did := Alive, false;
      ghost var s0 := St();
      ghost var quiet := !aflag && Settled(x, s0, rest);
      AdvancesRefl(x, rank, rank[n], s0);
      FourFlags(x, s0, n);
      if quiet {
        SettledFlags(x, s0, rest, n);
      }
      if flags[n].beingmade {
        BlockedSelf(x, s0, n);
        return;
      }
      if flags[n].made {
        return;
      }
      if g[n] == [] {
        exit := WorkLeaf(x, rank, rest, n);
        return;
      }
      var ready, weoutofdate: bool;
      exit, did, ready, weoutofdate := WorkArcs(x, rank, rest, n);
      if !exit.Alive? {
        return;
      }
      ghost var s1 := St();
      UnchangedAbove(x, rank, s0, s1, n);
      AdvancesWider(x, rank, rank[n] as int - 1, rank[n], s0, s1);
      SeenAll(x, aflag, s1, n, ready, weoutofdate);
      if !ready {
        return;
      }
      StillCalm(x, s0, s1);
      if quiet {
        ChildrenHere(x, rank, n);
        SettledStep(x, s1, rest, n);
      }
      if !weoutofdate {
        VirtualNotFresh(x, s1, rest, n, honest);
        MadeSetMade(x, rank, rest, n);
        AdvancesTrans(x, rank, rank[n], s0, s1, St());
        return;
      }
      var d: bool;
      exit, d := DoRecipe(x, rank, n);
      if exit.Alive? {
        AdvancesTrans(x, rank, rank[n], s0, s1, St());
        AdvancesQueue(x, rank, rank[n], s0, s1);
        AdvancesQueue(x, rank, rank[n], s1, St());
      }
      did := did || d;
    }

    /** n, whose prerequisites are made and which is not out of date, is made as it is. */
    method MadeSetMade(ghost x: Setup, ghost rank: seq<nat>, ghost rest: seq<nat>, n: nat)
      requires Good(x, rank) && Here(x, n) && flags[n] == NOTMADE && AllMade(g, St(), n) && Fresh(g, time, n)
      requires Straight(x, enqueued) || Settled(x, St(), rest) ==> !IsVirtual(g, n)
      requires aflag ==> HasNoRecipe(g, n)
      modifies this`flags
      ensures flags == old(flags)[n := MADE]
      ensures Walked(x, rank, rank[n], old(St()))
      ensures Settled(x, old(St()), rest) ==> Settled(x, St(), rest)
    {
      hide Reaches;
      hide Ranked;
      hide Straight;
      hide AtRest;
      hide Loose;
      hide Core;
      ghost var s0 := St();
      FreshSound(x, s0, n, honest);
      MadeAdvances(x, rank, s0, n, time[n]);
      hide Resting;
      flags := flags[n := MADE];
      assert time[n := time[n]] == time;
      assert St() == MakeMade(s0, n, time[n]);
      SettledMade(x, s0, rest, n);
    }

    /******* Children *******/

    /** Some child ends, any of them; -1 if there is none. */
    method XWaitFor() returns (pid: int)
      ensures pid == -1 <==> forall i :: 0 <= i < |events| ==> events[i].pid <= 0
      ensures pid != -1 ==> pid > 0 && exists i :: 0 <= i < |events| && events[i].pid == pid
    {
      if i :| 0 <= i < |events| && events[i].pid > 0 {
        pid := events[i].pid;
      } else {
        pid := -1;
      }
    }

    method PidSlot(pid: int) returns (slot: int)
      ensures slot >= 0 ==> slot < |events| && events[slot].pid == pid
      ensures slot < 0 ==> forall i :: 0 <= i < |events| ==> events[i].pid != pid
    {
      for i := 0 to |events|
        invariant forall k :: 0 <= k < i ==> events[k].pid != pid
      {
        if events[i].pid == pid {
          return i;
        }
      }
      slot := -1;
    }

    /** What a recipe has done to its target by the time it ends, and its status. */
    method RecipeEnds(n: nat, target: Option<nat>) returns (ok: bool)
      requires |g| == |time| == |files| && WellFormed(g) && (target.Some? ==> target.value < |g|)
      modifies this`files, this`log
      ensures log == old(log) + [End(n, ok)]
      ensures target.None? ==> files == old(files)
      ensures |files| == |g|
      ensures target.Some? ==> files == old(files)[target.value := files[target.value]]
      ensures target.Some? && honest && ok ==> Later(g, time, target.value, files[target.value])
    {
      ok := *;
      log := log + [End(n, ok)];
      if target.Some? {
        var m := target.value;
        ghost var later := LaterExists(g, time, m, |g[m]|);
        assert Later(g, time, m, later);
        var t: nat :| honest && ok ==> Later(g, time, m, t);
        files := files[m := t];
      }
    }

    /** A child has ended: free its slot and update its target. */
    method Finish(ghost x: Setup, ghost rank: seq<nat>, slot: nat) returns (exit: Exit)
      requires Good(x, rank) && IsBusy(St(), slot)
      modifies this`flags, this`time, this`files, this`jobs, this`events, this`nrunning, this`runerrs
      modifies this`failed, this`log
      ensures exit.Alive? ==> Sound(x, St()) && (Straight(x, enqueued) ==> AtRest(x, St(), honest))
      ensures exit.Alive? ==> OneReaped(old(St()), St(), old(events)[slot].job)
      ensures exit.Alive? ==> jobs == old(jobs) && nrunning == old(nrunning) - 1
      ensures !exit.Alive? ==> exit.JobFailed? && !kflag && Ended(x, St(), exit)
    {
      hide Reaches;
      hide Loose;
      hide Core;
      hide Straight;
      hide AtRest;
      hide Later;
      hide Stamp;
      hide IsLatest;
      hide IsVirtual;
      hide Ended;
      hide Aim;
      hide Ranked;
      exit := Alive;
      ghost var s0 := St();
      var j := events[slot].job;
      LooseBusy(x, s0, slot);
      nrunning := nrunning - 1;
      events := events[slot := events[slot].(pid := -1)];
      var ok := RecipeEnds(j.node, j.target);
      var fake := false;
      if !ok {
        if kflag {
          runerrs := runerrs + 1;
          fake := true;
        } else {
          jobs := [];
          exit := JobFailed(j.node);
          FailEnds(x, s0, St(), j.node);
          return;
        }
      }
      ghost var f, t := 0, 0;
      if j.target.Some? {
        Update(j.target.value, fake);
        if fake {
          failed := failed + {j.target.value};
        }
        f, t := files[j.target.value], time[j.target.value];
      }
      assert St() == Reap(s0, slot, ok, f, t);
      ReapSound(x, s0, slot, ok, f, t, honest);
    }

    /** Wait for a child, take it off its slot, and start a waiting job. */
    method WaitUp(ghost x: Setup, ghost rank: seq<nat>, emptyIsOk: bool) returns (exit: Exit, empty: bool)
      requires Good(x, rank)
      modifies this`flags, this`time, this`files, this`jobs, this`events, this`nrunning, this`runerrs
      modifies this`started, this`failed, this`log
      ensures empty <==> old(nrunning) == 0
      ensures empty ==> exit == (if emptyIsOk then Alive else NoChild) && St() == old(St())
      ensures exit.Alive? ==> Good(x, rank)
      ensures exit.Alive? && !empty ==> |jobs| + nrunning == |old(jobs)| + old(nrunning) - 1
      ensures exit.Alive? && !empty ==>
                exists i: nat :: IsBusy(old(St()), i) && OneReaped(old(St()), St(), old(events)[i].job)
      ensures !empty && !exit.Alive? ==> exit.JobFailed? && !kflag
      ensures !exit.Alive? ==> Ended(x, St(), exit)
    {
      hide FlagsOk;
      hide QueueOk;
      hide JobsLoose;
      hide MissedOk;
      hide LogLoose;
      hide Core;
      hide Straight;
      hide AtRest;
      hide Busy;
      hide Here;
      hide Ranked;
      hide Traced;
      empty, exit := false, Alive;
      ghost var s0 := St();
      BusyNone(events);
      var pid := XWaitFor();
      if pid == -1 {
        empty := true;
        if !emptyIsOk {
          exit := NoChild;
          SoundTraced(x, s0);
        }
        return;
      }
      var slot := PidSlot(pid);
      assert IsBusy(s0, slot);
      exit := Finish(x, rank, slot);
      if !exit.Alive? {
        return;
      }
      ghost var s1 := St();
      if nrunning < nproclimit {
        Sched(x);
        SameRest(x, s1, St(), honest);
      }
    }

    /******* The main loop *******/

    /** `clrmade`: everything below n, and nothing else, is not made. */
    method ClrMade(ghost x: Setup, ghost rank: seq<nat>, n: nat)
      requires WellFormed(g) && |flags| == |g| && x.g == g && x.root < |g| && Ranked(g, x.root, rank) && Here(x, n)
      modifies this`flags
      ensures |flags| == |g|
      ensures forall m :: 0 <= m < |g| ==> flags[m] == if Reaches(g, n, m) then NOTMADE else old(flags)[m]
      decreases rank[n]
    {
      hide IsPath;
      ghost var f0 := flags;
      flags := flags[n := NOTMADE];
      for i := 0 to |g[n]|
        invariant |flags| == |g|
        invariant forall m :: 0 <= m < |g| ==> flags[m] == if Covered(g, n, i, m) then NOTMADE else f0[m]
      {
        if g[n][i].to.Some? {
          ChildHere(x, rank, n, i);
          ClrMade(x, rank, g[n][i].to.value);
        }
        CoveredStep(g, n, i);
      }
      CoveredAll(g, n);
    }

    /** `attribute`: every virtual target at or below n, and nothing else, has time 0. */
    method Attribute(ghost x: Setup, ghost rank: seq<nat>, n: nat)
      requires WellFormed(g) && |time| == |g| && x.g == g && x.root < |g| && Ranked(g, x.root, rank) && Here(x, n)
      modifies this`time
      ensures |time| == |g|
      ensures forall m :: 0 <= m < |g| ==>
                time[m] == if Reaches(g, n, m) && IsVirtual(g, m) then 0 else old(time)[m]
      decreases rank[n]
    {
      hide IsPath;
      hide IsVirtual;
      ghost var t0 := time;
      var vir := false;
      for i := 0 to |g[n]|
        invariant |time| == |g| && (vir <==> exists k :: 0 <= k < i && g[n][k].rule.vir)
        invariant forall m :: 0 <= m < |g| ==>
                    time[m] == if m != n && Covered(g, n, i, m) && IsVirtual(g, m) then 0 else t0[m]
      {
        if g[n][i].rule.vir {
          vir := true;
        }
        if g[n][i].to.Some? {
          ChildHere(x, rank, n, i);
          NotAbove(x, rank, n, g[n][i].to.value);
          Attribute(x, rank, g[n][i].to.value);
        }
        CoveredStep(g, n, i);
      }
      VirtualIs(g, n);
      if vir {
        time := time[n := 0];
      }
      CoveredAll(g, n);
    }

    /** No node of the build is made, and virtual targets have no time. */
    method Reset(ghost x: Setup, ghost rank: seq<nat>, root: nat)
      requires WellFormed(g) && |flags| == |time| == |g| && x.root == root < |g| && x.g == g && Ranked(g, root, rank)
      modifies this`flags, this`time
      ensures |flags| == |time| == |g|
      ensures forall n: nat :: Here(x, n) ==> flags[n] == NOTMADE
      ensures forall n: nat :: Here(x, n) ==> time[n] == if IsVirtual(g, n) then 0 else old(time)[n]
    {
      ReachesSelf(g, root);
      hide Reaches;
      hide Ranked;
      hide IsVirtual;
      Attribute(x, rank, root);
      ClrMade(x, rank, root);
    }

    /** Set up a build of root, with nothing queued. */
    method Begin(ghost x: Setup, ghost rank: seq<nat>, root: nat)
      requires WellFormed(g) && |flags| == |time| == |files| == |g| == |names| && x.root == root < |g| && Idle()
      requires Ours(x, rank) && |x.first| == |g|
      requires forall n: nat :: Here(x, n) ==> x.first[n] == if IsVirtual(g, n) then 0 else time[n]
      modifies this`flags, this`time, this`runerrs, this`enqueued, this`started, this`failed, this`log
      ensures Good(x, rank) && Idle()
      ensures flags[x.root] == NOTMADE && enqueued == [] && started == [] && runerrs == 0 && failed == {}
      ensures g[root] == [] ==> time[root] == old(time)[root]
      ensures Rested(g, root, old(time), files) ==> Settled(x, St(), old(time))
    {
      hide Reaches;
      hide Ranked;
      hide Sound;
      hide Straight;
      hide AtRest;
      hide IsVirtual;
      hide Rested;
      hide Settled;
      runerrs := 0;
      enqueued, started, failed, log := [], [], {}, [];
      ghost var t0 := time;
      Reset(x, rank, root);
      NothingYet(x, St(), honest);
      RootHere(x, St());
      LeafNotVirtual(g, root);
      RankSize(g, root, rank);
      if Rested(g, root, t0, files) {
        SettledAtFirst(x, St(), t0);
      }
    }

    /** One turn of the main loop.  Its assertion can only fail in a run that did not keep
        straight. */
    method Round(ghost x: Setup, ghost rank: seq<nat>, ghost rest: seq<nat>, root: nat)
      returns (exit: Exit, did: bool, stop: bool)
      requires Good(x, rank) && root == x.root && flags[root] == NOTMADE
      requires g[root] == [] ==> nrunning == 0
      modifies this`flags, this`time, this`files, this`jobs, this`events, this`nrunning, this`runerrs
      modifies this`started, this`enqueued, this`failed, this`log
      ensures exit.Alive? ==> Good(x, rank) && did == (|enqueued| > |old(enqueued)|)
      ensures exit.Alive? ==> |enqueued| >= |old(enqueued)|
      ensures exit.Alive? && stop ==> nrunning == 0 && runerrs > 0 && flags[root].notmade
      ensures exit.Alive? && stop && flags[root] == MISSING ==> kflag && g[root] == [] && old(time[root]) == 0
      ensures exit.Alive? && !stop ==> flags[root] != MISSING
      ensures exit.Alive? && !stop && Straight(x, enqueued) && flags[root] == BEINGMADE ==> root !in failed
      ensures exit.Alive? && g[root] == [] ==> enqueued == old(enqueued)
      ensures exit.Alive? && !stop && g[root] == [] ==> flags[root] == MADE && nrunning == 0
      ensures exit.Alive? && !stop ==>
                NotMade(flags) < NotMade(old(flags)) ||
                (NotMade(flags) == NotMade(old(flags)) && |jobs| + nrunning < |old(jobs)| + old(nrunning))
      ensures exit.Alive? || exit.NoRecipe? || ((exit.NoFile? || exit.JobFailed?) && !kflag) || exit.Stalled?
      ensures !exit.Alive? ==> Ended(x, St(), exit)
      ensures exit.Stalled? ==> !Straight(x, enqueued) && runerrs == 0
      ensures g[root] == [] && old(time[root]) == 0 && kflag ==> exit.Alive? && stop && flags[root] == MISSING
      ensures !aflag && Settled(x, old(St()), rest) && old(nrunning) == 0 ==>
                && exit.Alive? && !stop && !did && flags[root] == MADE && nrunning == 0
                && Quiet(x, old(St()), St(), rest)
    {
      hide Loose;
      hide Core;
      hide Straight;
      hide AtRest;
      hide Here;
      hide Ranked;
      hide IsVirtual;
      hide Reaches;
      hide Settled;
      hide Advances;
      hide NotMade;
      hide OneReaped;
      hide Blocked;
      hide Ended;
      stop := false;
      ghost var s0 := St();
      RootHere(x, s0);
      exit, did := Work(x, rank, rest, root);
      if !exit.Alive? {
        return;
      }
      ghost var s1 := St();
      RoundWork(x, rank, s0, s1);
      RootFlags(x, s1);
      if !did {
        var empty: bool;
        exit, empty := WaitUp(x, rank, true);
        if exit.Alive? {
          if empty {
            if flags[root].notmade || flags[root].beingmade {
              RunsDry(x, s1, root);
              if runerrs == 0 {
                exit := Stalled;
                SoundEnds(x, St(), exit);
              }
              stop := true;
            }
          } else {
            ghost var i: nat :| IsBusy(s1, i) && OneReaped(s1, St(), s1.events[i].job);
            ReapedOther(x, s1, St(), i, root);
          }
        }
      }
    }

    /** Wait for the children of the jobs that are left. */
    method DrainJobs(ghost x: Setup, ghost rank: seq<nat>) returns (exit: Exit)
      requires Good(x, rank)
      modifies this`flags, this`time, this`files, this`jobs, this`events, this`nrunning, this`runerrs
      modifies this`started, this`failed, this`log
      ensures old(jobs) == [] ==> exit.Alive? && St() == old(St())
      ensures exit.Alive? ==> Good(x, rank) && jobs == []
      ensures exit.Alive? || (exit.JobFailed? && !kflag && Ended(x, St(), exit))
    {
      hide Loose;
      hide Core;
      hide Straight;
      hide AtRest;
      hide Here;
      hide Ours;
      hide OneReaped;
      hide Ended;
      exit := Alive;
      while jobs != []
        invariant exit.Alive? && Good(x, rank)
        invariant old(jobs) == [] ==> St() == old(St())
        decreases |jobs| + nrunning
      {
        RunningNat(x, St());
        var empty: bool;
        exit, empty := WaitUp(x, rank, false);
        if !exit.Alive? {
          return;
        }
      }
    }

    /** The target is being made: wait for it.  In a run that has kept straight nothing else can
        be running.  A target that was given up has no child, and that is an error. */
    method WaitForRoot(ghost x: Setup, ghost rank: seq<nat>, root: nat) returns (exit: Exit)
      requires Good(x, rank) && root == x.root && (flags[root] == BEINGMADE || flags[root] == MISSING)
      requires flags[root] == BEINGMADE && Straight(x, enqueued) ==> root !in failed
      requires flags[root] == MISSING ==> nrunning == 0
      modifies this`flags, this`time, this`files, this`jobs, this`events, this`nrunning, this`runerrs
      modifies this`started, this`failed, this`log
      ensures exit.Alive? ==> Good(x, rank)
      ensures exit.Alive? && Straight(x, enqueued) ==>
                jobs == [] && nrunning == 0 && (runerrs > 0 || flags[root] == MADE)
      ensures old(flags[root]) == MISSING ==> exit.NoChild?
      ensures exit.NoChild? && Straight(x, enqueued) ==> old(flags[root]) == MISSING
      ensures exit.Alive? || exit.NoChild? || (exit.JobFailed? && !kflag)
      ensures !exit.Alive? ==> Ended(x, St(), exit)
    {
      hide Loose;
      hide Core;
      hide Straight;
      hide AtRest;
      hide Here;
      hide Ours;
      hide OneReaped;
      hide Ended;
      ghost var s0 := St();
      if flags[root] == BEINGMADE && Straight(x, enqueued) {
        RootRuns(x, s0);
      }
      var empty: bool;
      exit, empty := WaitUp(x, rank, false);
      if exit.Alive? && Straight(x, enqueued) {
        ghost var i: nat :| IsBusy(s0, i) && OneReaped(s0, St(), s0.events[i].job);
        RootReaped(x, s0, St(), i);
      }
    }

    /** The main loop, and the waiting after it. */
    method Build(ghost x: Setup, ghost rank: seq<nat>, ghost rest: seq<nat>, root: nat)
      returns (exit: Exit, everdid: bool)
      requires Good(x, rank) && Idle() && x.root == root && flags[root] == NOTMADE && enqueued == []
      modifies this`flags, this`time, this`files, this`jobs, this`events, this`nrunning, this`runerrs
      modifies this`started, this`enqueued, this`failed, this`log
      ensures exit.Alive? ==> Good(x, rank) && jobs == [] && (runerrs > 0 || flags[root] == MADE)
      ensures exit.Alive? && Straight(x, enqueued) ==> nrunning == 0
      ensures exit.Alive? ==> (everdid <==> enqueued != [])
      ensures !exit.Alive? ==> Ended(x, St(), exit)
      ensures exit.Stalled? || exit.NotDone? ==> !Straight(x, enqueued) && runerrs == 0
      ensures kflag && g[root] == [] && old(time[root]) == 0 ==> exit.NoChild?
      ensures exit.NoChild? && Straight(x, enqueued) ==> kflag && g[root] == [] && old(time[root]) == 0
      ensures exit.NoFile? || exit.JobFailed? ==> !kflag
      ensures !aflag && Settled(x, old(St()), rest) ==>
                exit.Alive? && flags[root] == MADE && Quiet(x, old(St()), St(), rest)
    {
      hide Loose;
      hide Core;
      hide Straight;
      hide AtRest;
      hide Ranked;
      hide IsVirtual;
      hide Reaches;
      hide NotMade;
      hide Settled;
      hide Ended;
      ghost var s0 := St();
      exit, everdid := Alive, false;
      while flags[root].notmade
        invariant exit.Alive? && Good(x, rank)
        invariant flags[root] != MISSING
        invariant Straight(x, enqueued) && flags[root] == BEINGMADE ==> root !in failed
        invariant g[root] == [] ==> nrunning == 0 && enqueued == []
        invariant g[root] == [] ==> flags[root] == MADE || (flags[root] == NOTMADE && time[root] == s0.time[root])
        invariant g[root] == [] && s0.time[root] == 0 && kflag ==> flags[root] == NOTMADE
        invariant everdid <==> enqueued != []
        invariant !aflag && Settled(x, s0, rest) ==>
                    Quiet(x, s0, St(), rest) && flags[root] != BEINGMADE && nrunning == 0
        decreases NotMade(flags), |jobs| + nrunning
      {
        RootFlags(x, St());
        RunningNat(x, St());
        var did, stop: bool;
        exit, did, stop := Round(x, rank, rest, root);
        if !exit.Alive? {
          return;
        }
        everdid := everdid || did;
        if stop {
          break;
        }
      }
      RootFlags(x, St());
      if Straight(x, enqueued) {
        RootMadeIdle(x, St());
      }
      if flags[root].beingmade {
        exit := WaitForRoot(x, rank, root);
        if !exit.Alive? {
          return;
        }
      }
      exit := Close(x, rank, root);
    }

    /** What is left at the end, and the last assertion. */
    method Close(ghost x: Setup, ghost rank: seq<nat>, root: nat) returns (exit: Exit)
      requires Good(x, rank) && root == x.root
      requires Straight(x, enqueued) ==> (runerrs > 0 || flags[root] == MADE) && nrunning == 0
      modifies this`flags, this`time, this`files, this`jobs, this`events, this`nrunning, this`runerrs
      modifies this`started, this`failed, this`log
      ensures exit.Alive? ==> Good(x, rank) && jobs == [] && (runerrs > 0 || flags[root] == MADE)
      ensures exit.Alive? && Straight(x, enqueued) ==> nrunning == 0
      ensures old(jobs) == [] && old(flags[root]) == MADE ==> exit.Alive? && St() == old(St())
      ensures exit.NotDone? ==> !Straight(x, enqueued) && runerrs == 0
      ensures exit.Alive? || exit.NotDone? || (exit.JobFailed? && !kflag)
      ensures !exit.Alive? ==> Ended(x, St(), exit)
    {
      hide Loose;
      hide Core;
      hide Straight;
      hide AtRest;
      hide Here;
      hide Ours;
      hide Ended;
      RunningNat(x, St());
      exit := DrainJobs(x, rank);
      if exit.Alive? && runerrs == 0 && flags[root] != MADE {
        RootFlags(x, St());
        exit := NotDone;
        SoundEnds(x, St(), exit);
      }
    }

    /**
     `mk`: build root, starting from an idle program and a graph that has passed the
     check for cycles.  However it ends, no job was started twice, or without the recipe of its
     node, and an error exit has its reason.  As long as every job is for its own node, none
     was started before everything below it was done, the assertions hold, and a call that
     returns has reaped every child it started.
     */
    method Make(root: nat) returns (exit: Exit, everdid: bool)
      requires WellFormed(g) && |flags| == |time| == |files| == |g| == |names| && root < |g| && Idle()
      requires !Cyclic(g, root, {})
      modifies this
      ensures |flags| == |time| == |files| == |g|
      ensures NoDup(started) && Starts(log) == started && WithRecipe(g, log)
      ensures started <= enqueued
      ensures forall n :: n in enqueued ==> n < |g| && Reaches(g, root, n) && !HasNoRecipe(g, n)
      ensures Reasoned(g, root, time, log, exit)
      ensures exit.Alive? ==> started == enqueued && (everdid <==> started != []) && jobs == []
      ensures exit.Alive? ==> runerrs > 0 || flags[root] == MADE
      ensures exit.Alive? ==> Missed(g, names, flags, started)
      ensures exit.NoFile? || exit.JobFailed? ==> !kflag
      ensures kflag && g[root] == [] && old(time[root]) == 0 ==> exit.NoChild?
      ensures exit.Stalled? || exit.NotDone? ==> !AllRight(g, names, enqueued) && runerrs == 0
      ensures AllRight(g, names, enqueued) ==> InTurn(g, log)
      ensures AllRight(g, names, enqueued) && exit.NoChild? ==> kflag && g[root] == [] && old(time[root]) == 0
      ensures exit.Alive? && nrunning == 0 ==> Idle()
      ensures AllRight(g, names, enqueued) && exit.Alive? ==> nrunning == 0
      ensures AllRight(g, names, enqueued) && exit.Alive? && flags[root] == MADE ==>
                forall n: nat :: n < |g| && Reaches(g, root, n) ==>
                  flags[n] == MADE && (honest ==> Resting(g, time, files, n))
      ensures AllRight(g, names, enqueued) && exit.Alive? && flags[root] == MADE ==>
                Remade(g, root, aflag, old(time), time, started)
      ensures !aflag && Rested(g, root, old(time), old(files)) ==>
                exit.Alive? && flags[root] == MADE && started == [] && runerrs == 0 && files == old(files)
    {
      hide Sound;
      hide Straight;
      hide AtRest;
      hide Reaches;
      hide Resting;
      hide IsVirtual;
      hide IsNoRecipe;
      hide Cyclic;
      hide InTurn;
      hide Rested;
      hide Missed;
      ghost var rank := RankExists(g, root);
      hide Ranked;
      ghost var x := Setup(g, names, root, nproclimit, aflag, FirstTimes(g, root, time));
      ghost var rest := time;
      StraightIs(x, []);
      Begin(x, rank, root);
      exit, everdid := Build(x, rank, rest, root);
      StraightIs(x, enqueued);
      if exit.Alive? {
        SoundTraced(x, St());
        Closed(x, St());
        if Straight(x, enqueued) {
          Finished(x, St(), honest);
        }
      }
    }
  }

  /** A queued node that its own job misses is not made, unless some other job is for it. */
  ghost predicate Missed(g: Graph, names: seq<string>, flags: seq<Flags>, queued: seq<nat>) {
    forall w :: w in queued && w < |flags| && !Right(g, names, w) ==>
      flags[w].beingmade || exists v: nat :: v in queued && v < |g| && Aim(g, names, v) == Some(w)
  }

  /** Every node of the build is at rest, and no virtual target has a recipe. */
  ghost predicate Rested(g: Graph, root: nat, time: seq<nat>, files: seq<nat>) {
    && |time| == |files| == |g| && WellFormed(g)
    && forall n: nat :: n < |g| && Reaches(g, root, n) ==>
         Resting(g, time, files, n) && (IsVirtual(g, n) ==> HasNoRecipe(g, n))
  }

  /**
   Quiescence: if every recipe that succeeds leaves its target later than its prerequisites,
   then after a build without errors in which every job was for its own node a second one
   starts no job, if and only if no virtual target of the build has a recipe.
   */
  method BuildTwice(mk: Mk, root: nat)
    returns (exit: Exit, again: Exit, errors: nat, everdid: bool, ghost queued: seq<nat>)
    requires WellFormed(mk.g) && |mk.flags| == |mk.time| == |mk.files| == |mk.g| == |mk.names| && root < |mk.g|
    requires mk.Idle() && !Cyclic(mk.g, root, {}) && mk.honest && !mk.aflag
    modifies mk
    ensures exit.Alive? && errors == 0 && AllRight(mk.g, mk.names, queued) && !VirtualRecipe(mk.g, root) ==>
              again.Alive? && !everdid && mk.started == [] && mk.runerrs == 0
    ensures exit.Alive? && again.Alive? && errors == 0 && mk.runerrs == 0 &&
            AllRight(mk.g, mk.names, queued) && AllRight(mk.g, mk.names, mk.started) ==>
              (mk.started == [] <==> !VirtualRecipe(mk.g, root))
  {
    hide Reaches;
    hide Cyclic;
    hide Resting;
    hide IsVirtual;
    hide InTurn;
    hide AllRight;
    hide Missed;
    exit, everdid := mk.Make(root);
    again, errors, queued := exit, mk.runerrs, mk.enqueued;
    if exit.Alive? && mk.nrunning == 0 {
      again, everdid := mk.Make(root);
    }
  }

  /** Times are passed on along a path whose inner nodes have the latest times of their prerequisites. */
  lemma {:induction false} PassedOn(g: Graph, time: seq<nat>, p: seq<nat>, k: nat)
    requires WellFormed(g) && |time| == |g| && IsPath(g, p) && 0 < k < |p|
    requires forall i :: 0 < i < |p| - 1 ==> IsLatest(g, time, p[i], time[p[i]])
    ensures time[p[k]] >= time[p[|p| - 1]]
    decreases |p| - k
  {
    if k < |p| - 1 {
      PassedOn(g, time, p, k + 1);
      assert Edge(g, p[k], p[k + 1]) && IsLatest(g, time, p[k], time[p[k]]);
      var i :| 0 <= i < |g[p[k]]| && g[p[k]][i].to == Some(p[k + 1]);
    }
  }

  /**
   What lies behind virtual targets counts: a file no later than some node that is reached from
   it over virtual targets without recipes is remade.
   */
  method BuildThrough(mk: Mk, root: nat, ghost p: seq<nat>) returns (exit: Exit)
    requires WellFormed(mk.g) && |mk.flags| == |mk.time| == |mk.files| == |mk.g| == |mk.names| && root < |mk.g|
    requires mk.Idle() && !Cyclic(mk.g, root, {})
    requires IsPath(mk.g, p) && |p| >= 2 && Reaches(mk.g, root, p[0])
    requires !HasNoRecipe(mk.g, p[0]) && !IsVirtual(mk.g, p[0])
    requires forall i :: 0 < i < |p| - 1 ==> HasNoRecipe(mk.g, p[i]) && IsVirtual(mk.g, p[i])
    modifies mk
    ensures |mk.time| == |mk.flags| == |mk.g|
    ensures exit.Alive? && AllRight(mk.g, mk.names, mk.enqueued) && mk.flags[root] == MADE ==>
              (old(mk.time)[p[0]] <= mk.time[p[|p| - 1]] ==> p[0] in mk.started)
  {
    hide Cyclic;
    hide IsVirtual;
    hide IsLatest;
    hide Behind;
    hide InTurn;
    hide Resting;
    hide Reasoned;
    hide Missed;
    hide AllRight;
    hide Rested;
    ghost var t := mk.time[p[0]];
    var everdid: bool;
    exit, everdid := mk.Make(root);
    if exit.Alive? && AllRight(mk.g, mk.names, mk.enqueued) && mk.flags[root] == MADE && t <= mk.time[p[|p| - 1]] {
      PathBelow(mk.g, root, p);
      PassedOn(mk.g, mk.time, p, 1);
      BehindFirst(mk.g, mk.time, p, t);
    }
  }

  lemma BehindFirst(g: Graph, time: seq<nat>, p: seq<nat>, t: nat)
    requires WellFormed(g) && |time| == |g| && IsPath(g, p) && |p| >= 2 && t <= time[p[1]]
    ensures Behind(g, time, p[0], t)
  {
    assert Edge(g, p[0], p[1]);
    var i :| 0 <= i < |g[p[0]]| && g[p[0]][i].to == Some(p[1]);
    assert if g[p[0]][i].to.Some? then t <= time[g[p[0]][i].to.value] else t == 0;
  }

  /** A path from a node of the build stays in the build. */
  lemma PathBelow(g: Graph, root: nat, p: seq<nat>)
    requires IsPath(g, p) && Reaches(g, root, p[0])
    ensures forall i :: 0 <= i < |p| ==> Reaches(g, root, p[i])
  {
    forall i | 0 <= i < |p| ensures Reaches(g, root, p[i]) {
      var q := p[..i + 1];
      forall j | 0 <= j < |q| - 1 ensures Edge(g, q[j], q[j + 1]) {
        assert Edge(g, p[j], p[j + 1]);
      }
      assert IsPathFrom(g, p[0], q) && q[|q| - 1] == p[i];
      ReachesTrans(g, root, p[0], p[i]);
    }
  }

  /** Some virtual target of the build has a recipe: every build runs it. */
  ghost predicate VirtualRecipe(g: Graph, root: nat) {
    exists n: nat :: n < |g| && Reaches(g, root, n) && IsVirtual(g, n) && !HasNoRecipe(g, n)
  }

  /******* Rest *******/

  lemma StampSelf(g: Graph, time: seq<nat>, files: seq<nat>, n: nat, t: nat)
    requires n < |g| == |time| == |files| && WellFormed(g)
    ensures Stamp(g, time[n := t], files, n) == Stamp(g, time, files, n)
  {
    SameLatest(g, time, time[n := t], n, |g[n]|);
  }

  /** A node that is made without a recipe. */
  lemma BareMade(x: Setup, s: State, n: nat)
    requires Core(x, s) && Here(x, n) && s.flags[n] == NOTMADE && VirtualOk(x, s) && Timed(x, s)
    requires HasNoRecipe(x.g, n) && (IsVirtual(x.g, n) || IsNoRecipe(x.g, n))
    ensures var s' := MakeMade(s, n, Stamp(x.g, s.time, s.files, n));
            Shape(x, s') && VirtualOk(x, s') && Timed(x, s') && (MadeRest(x, s) ==> MadeRest(x, s'))
  {
    hide Reaches;
    hide Busy;
    var t := Stamp(x.g, s.time, s.files, n);
    var s' := MakeMade(s, n, t);
    StampSelf(x.g, s.time, s.files, n, t);
    LatestIs(x.g, s'.time, n, |x.g[n]|);
    assert n !in s.enqueued;
    TimedStays(x, s, s', n);
    hide Stamp;
    hide Timed;
    VirtualStays(x, s, s', n);
    if MadeRest(x, s) {
      MadeAtRest(x, s, s', n);
    }
  }

  lemma BareMadeSound(x: Setup, s: State, n: nat, honest: bool)
    requires Sound(x, s) && Shape(x, s) && Here(x, n) && s.flags[n] == NOTMADE && AllMade(x.g, s, n)
    requires HasNoRecipe(x.g, n) && (IsVirtual(x.g, n) || IsNoRecipe(x.g, n))
    requires Straight(x, s.enqueued) ==> AtRest(x, s, honest)
    ensures var s' := MakeMade(s, n, Stamp(x.g, s.time, s.files, n));
            Shape(x, s') && Sound(x, s') && (Straight(x, s'.enqueued) ==> AtRest(x, s', honest))
  {
    hide Loose;
    hide Core;
    hide Reaches;
    hide VirtualOk;
    hide Timed;
    hide MadeRest;
    hide Stamp;
    var t := Stamp(x.g, s.time, s.files, n);
    MakeMadeLoose(x, s, n, t);
    if Straight(x, s.enqueued) {
      MakeMadeKeeps(x, s, n, t);
      BareMade(x, s, n);
    }
  }

  lemma TargetAims(g: Graph, names: seq<string>, aflag: bool, time: seq<nat>, n: nat)
    requires n < |g| == |time| == |names| && WellFormed(g)
    ensures var t := TargetOf(g, names, aflag, time, n); t.Some? ==> Aim(g, names, n) == t
  {
    hide Aim;
  }

  /** A job is queued: the run stays sound, and straight if the job is for its own node. */
  lemma QueueSound(x: Setup, s: State, n: nat, aflag: bool, honest: bool)
    requires Sound(x, s) && Shape(x, s) && Here(x, n) && s.flags[n] == NOTMADE && AllMade(x.g, s, n)
    requires !HasNoRecipe(x.g, n) && (aflag || Stale(x.g, s.time, n))
    ensures Sound(x, Enqueue(x, s, n, TargetOf(x.g, x.names, aflag, s.time, n)))
  {
    hide Loose;
    hide Core;
    hide Reaches;
    hide Straight;
    hide TargetOf;
    hide Right;
    var target := TargetOf(x.g, x.names, aflag, s.time, n);
    TargetAims(x.g, x.names, aflag, s.time, n);
    EnqueueLoose(x, s, n, target);
    StraightSnoc(x, s.enqueued, n);
    if Straight(x, s.enqueued + [n]) {
      RightTarget(x.g, x.names, aflag, s.time, n);
      EnqueueKeeps(x, s, n);
    }
  }

  lemma QueuedRest(x: Setup, s: State, s': State, n: nat, target: Option<nat>, honest: bool)
    requires Sound(x, s) && Shape(x, s) && Shape(x, s') && Here(x, n) && s.flags[n] == NOTMADE
    requires Straight(x, s.enqueued) ==> AtRest(x, s, honest)
    requires x.aflag || Stale(x.g, s.time, n)
    requires target.Some? ==> target.value < |s.flags| && Aim(x.g, x.names, n) == target
    requires s'.flags == Mark(s.flags[n := BEINGMADE], target) && s'.time == s.time && s'.files == s.files
    requires s'.enqueued == s.enqueued + [n]
    ensures Straight(x, s'.enqueued) ==> AtRest(x, s', honest)
  {
    hide Loose;
    hide Core;
    hide Reaches;
    hide Straight;
    hide Aim;
    hide VirtualOk;
    hide Timed;
    hide MadeRest;
    StraightSnoc(x, s.enqueued, n);
    if Straight(x, s'.enqueued) {
      assert s'.flags == s.flags[n := BEINGMADE];
      EnqueuedRest(x, s, s', n);
    }
  }

  lemma StaleIsDue(x: Setup, s: State, n: nat)
    requires Shape(x, s) && n < |x.g| && s.time[n] == x.first[n] && WellFormed(x.g)
    ensures Due(x, s.time, n) <==> x.aflag || Stale(x.g, s.time, n)
  {
    if Stale(x.g, s.time, n) {
      var i :| 0 <= i < |x.g[n]| && StaleArc(x.g, s.time, n, i);
      assert if x.g[n][i].to.Some? then x.first[n] <= s.time[x.g[n][i].to.value] else x.first[n] == 0;
    }
    if Behind(x.g, s.time, n, x.first[n]) {
      var i :| 0 <= i < |x.g[n]| &&
               if x.g[n][i].to.Some? then x.first[n] <= s.time[x.g[n][i].to.value] else x.first[n] == 0;
      assert StaleArc(x.g, s.time, n, i);
    }
  }

  /** A node that gets a job. */
  lemma EnqueuedRest(x: Setup, s: State, s': State, n: nat)
    requires Core(x, s) && Shape(x, s') && Here(x, n) && s.flags[n] == NOTMADE && VirtualOk(x, s)
    requires s'.flags == s.flags[n := BEINGMADE] && s'.time == s.time && s'.files == s.files
    requires s'.enqueued == s.enqueued + [n] && Timed(x, s) && (x.aflag || Stale(x.g, s.time, n))
    ensures VirtualOk(x, s') && Timed(x, s') && (MadeRest(x, s) ==> MadeRest(x, s'))
  {
    hide Reaches;
    hide Busy;
    assert s.time[n := s.time[n]] == s.time;
    StaleIsDue(x, s, n);
    hide Due;
    TimedStays(x, s, s', n);
    hide Timed;
    VirtualStays(x, s, s', n);
    if MadeRest(x, s) {
      MadeAtRest(x, s, s', n);
    }
  }

  /** A missing file that is given up. */
  lemma MissingRest(x: Setup, s: State, n: nat)
    requires Core(x, s) && Here(x, n) && s.flags[n] == NOTMADE && VirtualOk(x, s) && Timed(x, s) && x.g[n] == []
    ensures var s' := MakeMissing(s, n);
            Shape(x, s') && VirtualOk(x, s') && Timed(x, s') && (MadeRest(x, s) ==> MadeRest(x, s'))
  {
    hide Reaches;
    hide Busy;
    var s' := MakeMissing(s, n);
    assert s.time[n := s.time[n]] == s.time;
    TimedStays(x, s, s', n);
    hide Timed;
    VirtualStays(x, s, s', n);
    if MadeRest(x, s) {
      MadeAtRest(x, s, s', n);
    }
  }

  lemma MissingSound(x: Setup, s: State, n: nat, honest: bool)
    requires Sound(x, s) && Shape(x, s) && Here(x, n) && s.flags[n] == NOTMADE && x.g[n] == []
    requires Straight(x, s.enqueued) ==> AtRest(x, s, honest)
    ensures var s' := MakeMissing(s, n);
            Shape(x, s') && Sound(x, s') && (Straight(x, s'.enqueued) ==> AtRest(x, s', honest))
  {
    hide Loose;
    hide Core;
    hide Reaches;
    hide VirtualOk;
    hide Timed;
    hide MadeRest;
    MakeMissingLoose(x, s, n);
    if Straight(x, s.enqueued) {
      MakeMissingKeeps(x, s, n);
      MissingRest(x, s, n);
    }
  }

  /** A file that is found up to date. */
  lemma FreshRests(x: Setup, s: State, n: nat)
    requires Core(x, s) && Here(x, n) && s.flags[n] == NOTMADE && VirtualOk(x, s) && Timed(x, s)
    requires Fresh(x.g, s.time, n) && !IsVirtual(x.g, n) && (x.aflag ==> HasNoRecipe(x.g, n))
    ensures var s' := MakeMade(s, n, s.time[n]);
            Shape(x, s') && VirtualOk(x, s') && Timed(x, s') && (MadeRest(x, s) ==> MadeRest(x, s'))
  {
    hide Reaches;
    hide Busy;
    var s' := MakeMade(s, n, s.time[n]);
    assert s'.time == s.time;
    assert n !in s.enqueued;
    StaleIsDue(x, s, n);
    hide Due;
    TimedStays(x, s, s', n);
    hide Timed;
    VirtualStays(x, s, s', n);
    if MadeRest(x, s) {
      MadeAtRest(x, s, s', n);
    }
  }

  lemma FreshSound(x: Setup, s: State, n: nat, honest: bool)
    requires Sound(x, s) && Shape(x, s) && Here(x, n) && s.flags[n] == NOTMADE && AllMade(x.g, s, n)
    requires Fresh(x.g, s.time, n) && (Straight(x, s.enqueued) ==> !IsVirtual(x.g, n) && AtRest(x, s, honest))
    requires x.aflag ==> HasNoRecipe(x.g, n)
    ensures var s' := MakeMade(s, n, s.time[n]);
            Shape(x, s') && Sound(x, s') && (Straight(x, s'.enqueued) ==> AtRest(x, s', honest))
  {
    hide Loose;
    hide Core;
    hide Reaches;
    hide VirtualOk;
    hide Timed;
    hide MadeRest;
    MakeMadeLoose(x, s, n, s.time[n]);
    if Straight(x, s.enqueued) {
      MakeMadeKeeps(x, s, n, s.time[n]);
      FreshRests(x, s, n);
    }
  }

  /** A virtual target is not found up to date. */
  lemma VirtualNotFresh(x: Setup, s: State, rest: seq<nat>, n: nat, honest: bool)
    requires Shape(x, s) && Here(x, n) && s.flags[n] == NOTMADE && !Stale(x.g, s.time, n)
    requires Straight(x, s.enqueued) ==> AtRest(x, s, honest)
    ensures Straight(x, s.enqueued) || Settled(x, s, rest) ==> !IsVirtual(x.g, n)
  {
    hide Reaches;
    hide Straight;
    hide MadeRest;
    hide Resting;
    if IsVirtual(x.g, n) {
      var i :| 0 <= i < |x.g[n]| && x.g[n][i].rule.vir;
      assert !StaleArc(x.g, s.time, n, i);
      assert s.time[n] != 0;
    }
  }

  lemma LooseBusy(x: Setup, s: State, i: nat)
    requires Sound(x, s) && IsBusy(s, i)
    ensures LooseJob(x, s, s.events[i].job) && s.events[i].job.node in s.started
  {
    hide Core;
    hide Straight;
    hide Here;
  }

  lemma BusyJob(x: Setup, s: State, i: nat)
    requires JobsOk(x, s) && IsBusy(s, i)
    ensures LiveJob(x, s, s.events[i].job) && s.events[i].job.node in s.started
  {}

  /** The end of a child keeps the run sound. */
  lemma ReapSound(x: Setup, s: State, i: nat, ok: bool, f: nat, t: nat, honest: bool)
    requires Sound(x, s) && Shape(x, s) && IsBusy(s, i) && LooseJob(x, s, s.events[i].job)
    requires Straight(x, s.enqueued) ==> AtRest(x, s, honest)
    requires var m := s.events[i].job.target;
             && (m.Some? && honest && ok ==> Later(x.g, s.time, m.value, f))
             && (m.Some? ==> t == Stamp(x.g, s.time, s.files[m.value := f], m.value))
    ensures var s' := Reap(s, i, ok, f, t);
            && Shape(x, s') && Sound(x, s') && (Straight(x, s'.enqueued) ==> AtRest(x, s', honest))
            && OneReaped(s, s', s.events[i].job) && s'.nrunning == s.nrunning - 1
  {
    hide Loose;
    hide Core;
    hide Here;
    hide Straight;
    hide VirtualOk;
    hide Timed;
    hide MadeRest;
    hide Stamp;
    hide Later;
    hide Aim;
    ReapLoose(x, s, i, ok, f, t);
    if Straight(x, s.enqueued) {
      ReapStraight(x, s, i, ok, f, t, honest);
    }
  }

  lemma ReapStraight(x: Setup, s: State, i: nat, ok: bool, f: nat, t: nat, honest: bool)
    requires Core(x, s) && IsBusy(s, i) && AtRest(x, s, honest)
    requires var m := s.events[i].job.target;
             && (m.Some? ==> m.value < |x.g|)
             && (m.Some? && honest && ok ==> Later(x.g, s.time, m.value, f))
             && (m.Some? ==> t == Stamp(x.g, s.time, s.files[m.value := f], m.value))
    ensures var s' := Reap(s, i, ok, f, t); Core(x, s') && AtRest(x, s', honest)
  {
    hide FlagsOk;
    hide SlotsOk;
    hide QueueOk;
    hide CaredFor;
    hide InOrder;
    hide ErrorsOk;
    hide LogOk;
    hide Here;
    hide VirtualOk;
    hide Timed;
    hide MadeRest;
    hide Stamp;
    hide Later;
    BusyJob(x, s, i);
    hide JobsOk;
    ReapKeeps(x, s, i, ok, f, t);
    ReapRest(x, s, i, ok, f, honest);
  }

  /** The end of a child: an honest one that succeeded leaves its node at rest. */
  lemma ReapRest(x: Setup, s: State, i: nat, ok: bool, f: nat, honest: bool)
    requires Core(x, s) && IsBusy(s, i) && LiveJob(x, s, s.events[i].job) && VirtualOk(x, s) && Timed(x, s)
    requires var n := s.events[i].job.node;
             && (honest && ok ==> Later(x.g, s.time, n, f)) && (honest ==> MadeRest(x, s))
    ensures var n := s.events[i].job.node;
            var s' := Reap(s, i, ok, f, Stamp(x.g, s.time, s.files[n := f], n));
            Shape(x, s') && VirtualOk(x, s') && Timed(x, s') && (honest ==> MadeRest(x, s'))
  {
    hide Reaches;
    hide Busy;
    var n := s.events[i].job.node;
    var files' := s.files[n := f];
    var t := Stamp(x.g, s.time, files', n);
    var s' := Reap(s, i, ok, f, t);
    StampSelf(x.g, s.time, files', n, t);
    QueuedStarted(x, s, n);
    VirtualStays(x, s, s', n);
    ReapTimed(x, s, s', n);
    hide Timed;
    if honest {
      if ok && !IsVirtual(x.g, n) {
        assert t == f;
        assert forall k :: 0 <= k < |x.g[n]| ==> !StaleArc(x.g, s'.time, n, k);
      }
      hide Stamp;
      MadeAtRest(x, s, s', n);
    }
  }

  lemma ReapTimed(x: Setup, s: State, s': State, n: nat)
    requires Core(x, s) && Timed(x, s) && Shape(x, s') && Here(x, n) && s.flags[n] == BEINGMADE && n in s.enqueued
    requires s'.flags == s.flags[n := s'.flags[n]] && !s'.flags[n].notmade && !HasNoRecipe(x.g, n)
    requires s'.time == s.time[n := s'.time[n]] && s'.enqueued == s.enqueued
    ensures Timed(x, s')
  {
    hide Reaches;
    hide Busy;
    hide Due;
    hide IsLatest;
    hide IsVirtual;
    assert TimedNode(x, s, n);
    SameDue(x, s, s', n, n);
    TimedStays(x, s, s', n);
  }

  /** What has been started was queued. */
  lemma QueuedStarted(x: Setup, s: State, n: nat)
    requires Shape(x, s) && QueueOk(x, s) && n in s.started
    ensures n in s.enqueued && Here(x, n)
  {
    hide Reaches;
    var i :| 0 <= i < |s.started| && s.started[i] == n;
    assert s.enqueued[i] == n;
  }

  /** Starting a job changes no node. */
  lemma SameRest(x: Setup, s: State, s': State, honest: bool)
    requires Shape(x, s) && Shape(x, s') && s'.flags == s.flags && s'.time == s.time && s'.files == s.files
    requires s'.enqueued == s.enqueued
    ensures AtRest(x, s, honest) ==> AtRest(x, s', honest)
  {
    hide Resting;
    if AtRest(x, s, honest) {
      forall n: nat | Here(x, n) ensures TimedNode(x, s', n) {
        assert TimedNode(x, s, n);
      }
    }
  }

  /******* Settled builds *******/

  lemma SettledAtFirst(x: Setup, s: State, rest: seq<nat>)
    requires Shape(x, s) && Rested(x.g, x.root, rest, s.files)
    requires forall n: nat :: Here(x, n) ==> s.flags[n] == NOTMADE
    requires forall n: nat :: Here(x, n) ==> s.time[n] == if IsVirtual(x.g, n) then 0 else rest[n]
    ensures Settled(x, s, rest)
  {
    hide Reaches;
    hide Resting;
  }

  lemma SettledFlags(x: Setup, s: State, rest: seq<nat>, n: nat)
    requires Shape(x, s) && Settled(x, s, rest) && Here(x, n)
    ensures !s.flags[n].beingmade
  {
    hide Reaches;
  }

  lemma SettledLeaf(x: Setup, s: State, rest: seq<nat>, n: nat)
    requires Shape(x, s) && Settled(x, s, rest) && Here(x, n) && x.g[n] == []
    ensures s.time[n] != 0
  {
    hide Reaches;
  }

  /** Making a node with its time at rest keeps the build settled. */
  lemma SettledMade(x: Setup, s: State, rest: seq<nat>, n: nat)
    requires Shape(x, s) && Here(x, n)
    ensures var s' := MakeMade(s, n, s.time[n]);
            !IsVirtual(x.g, n) && Settled(x, s, rest) ==> Shape(x, s') && Settled(x, s', rest)
    ensures Settled(x, s, rest) ==> (
              && |rest| == |x.g|
              && var s' := MakeMade(s, n, rest[n]); Shape(x, s') && Settled(x, s', rest))
  {
    hide Reaches;
    hide Resting;
    hide IsVirtual;
  }

  /** In a settled build, a node whose prerequisites are made and which is out of date needs
      no recipe, and `update` gives it the time it has at rest. */
  lemma SettledStep(x: Setup, s: State, rest: seq<nat>, n: nat)
    requires Shape(x, s) && Settled(x, s, rest) && Here(x, n) && s.flags[n] == NOTMADE && AllMade(x.g, s, n)
    requires forall i :: 0 <= i < |x.g[n]| && x.g[n][i].to.Some? ==> Here(x, x.g[n][i].to.value)
    ensures |rest| == |x.g|
    ensures Stale(x.g, s.time, n) ==> HasNoRecipe(x.g, n) && (IsVirtual(x.g, n) || IsNoRecipe(x.g, n))
    ensures Stale(x.g, s.time, n) ==> Stamp(x.g, s.time, s.files, n) == rest[n]
    ensures Settled(x, MakeMade(s, n, rest[n]), rest)
  {
    hide Reaches;
    SameLatest(x.g, rest, s.time, n, |x.g[n]|);
    SettledMade(x, s, rest, n);
    if !IsVirtual(x.g, n) {
      assert forall i :: 0 <= i < |x.g[n]| ==> (StaleArc(x.g, s.time, n, i) <==> StaleArc(x.g, rest, n, i));
    }
  }

  /******* Histories *******/

  lemma SoundTraced(x: Setup, s: State)
    requires Sound(x, s)
    ensures Traced(x, s)
  {
    hide Reaches;
    hide Busy;
    hide Starts;
    hide Core;
    forall i, j | 0 <= i < j < |s.started| ensures s.started[i] != s.started[j] {
      assert s.enqueued[i] == s.started[i] && s.enqueued[j] == s.started[j];
    }
    if Straight(x, s.enqueued) {
      CoreInTurn(x, s);
    }
  }

  /** An exit that needs no reason of its own. */
  lemma SoundEnds(x: Setup, s: State, exit: Exit)
    requires Sound(x, s) && (exit.NoChild? || exit.Stalled? || exit.NotDone?)
    ensures Ended(x, s, exit)
  {
    SoundTraced(x, s);
    hide Core;
    hide Traced;
  }

  lemma CoreInTurn(x: Setup, s: State)
    requires Core(x, s)
    ensures InTurn(x.g, s.log)
  {
    hide Reaches;
    hide Busy;
    hide Starts;
    forall i: nat | i < |s.log| && s.log[i].Start? ensures TurnOf(x.g, s.log, i) {
      assert StartedInTurn(x.g, s, i);
      forall m: nat | m < |x.g| && m != s.log[i].node && Reaches(x.g, s.log[i].node, m)
        ensures End(m, true) in s.log[..i] || m !in s.started
      {
        assert DoneBy(s, m, i);
        if m in s.started {
          QueuedStarted(x, s, m);
        }
      }
    }
  }

  /** The exit after a job has failed. */
  lemma FailEnds(x: Setup, s: State, s': State, n: nat)
    requires Sound(x, s) && Shape(x, s') && n in s.started
    requires s'.started == s.started && s'.log == s.log + [End(n, false)] && s'.enqueued == s.enqueued
    ensures Ended(x, s', JobFailed(n))
  {
    hide Reaches;
    hide Core;
    hide Loose;
    hide Straight;
    SoundTraced(x, s);
    StartsSnoc(s.log, End(n, false));
    hide Starts;
    if Straight(x, s.enqueued) {
      InTurnEnd(x.g, s.log, n);
    }
    hide InTurn;
    assert forall i :: 0 <= i < |s'.log| && s'.log[i].Start? ==> i < |s.log| && s'.log[i] == s.log[i];
    assert s'.log[|s.log|] == End(n, false);
  }

  /** The end of a job starts none. */
  lemma InTurnEnd(g: Graph, log: seq<Event>, n: nat)
    requires InTurn(g, log)
    ensures InTurn(g, log + [End(n, false)])
  {
    hide Reaches;
    StartsSnoc(log, End(n, false));
    hide Starts;
    var log' := log + [End(n, false)];
    forall i: nat | i < |log'| && log'[i].Start? ensures TurnOf(g, log', i) {
      assert TurnOf(g, log, i);
      assert log'[..i] == log[..i];
    }
  }

  /** A node does not lie below its own prerequisites. */
  lemma NotAbove(x: Setup, rank: seq<nat>, n: nat, child: nat)
    requires WellFormed(x.g) && Ranked(x.g, x.root, rank) && Here(x, n) && Here(x, child) && rank[child] < rank[n]
    ensures !Reaches(x.g, child, n)
  {
    if Reaches(x.g, child, n) {
      var p :| IsPathFrom(x.g, child, p) && p[|p| - 1] == n;
      RanksFall(x, rank, p);
    }
  }

  lemma {:induction false} RanksFall(x: Setup, rank: seq<nat>, p: seq<nat>)
    requires WellFormed(x.g) && Ranked(x.g, x.root, rank) && IsPath(x.g, p) && Here(x, p[0])
    ensures rank[p[|p| - 1]] <= rank[p[0]]
    decreases |p|
  {
    if |p| > 1 {
      var q := p[1..];
      forall i | 0 <= i < |q| - 1 ensures Edge(x.g, q[i], q[i + 1]) {
        assert Edge(x.g, p[i + 1], p[i + 2]);
      }
      assert Edge(x.g, p[0], p[1]);
      ReachesEdge(x.g, x.root, p[0], p[1]);
      RanksFall(x, rank, q);
    }
  }

  lemma RankSize(g: Graph, root: nat, rank: seq<nat>)
    requires Ranked(g, root, rank)
    ensures |rank| == |g|
  {}

  lemma LeafNotVirtual(g: Graph, n: nat)
    requires n < |g|
    ensures g[n] == [] ==> !IsVirtual(g, n)
  {}

  lemma VirtualIs(g: Graph, n: nat)
    requires n < |g|
    ensures IsVirtual(g, n) <==> exists k :: 0 <= k < |g[n]| && g[n][k].rule.vir
  {}

  /** The invariant holds when nothing has been done. */
  lemma NothingYet(x: Setup, s: State, honest: bool)
    requires Shape(x, s) && forall n: nat :: Here(x, n) ==> s.flags[n] == NOTMADE
    requires s.jobs == [] && s.nrunning == 0 && s.enqueued == [] && s.started == [] && s.failed == {} && s.log == []
    requires forall i :: 0 <= i < |s.events| ==> s.events[i].pid <= 0
    requires forall n: nat :: Here(x, n) ==> s.time[n] == x.first[n]
    requires forall n: nat :: Here(x, n) && IsVirtual(x.g, n) ==> s.time[n] == 0
    ensures Sound(x, s) && Full(x, s) && AtRest(x, s, honest)
  {
    hide Reaches;
    BusyNone(s.events);
    hide Busy;
    assert Nodes(s.jobs) == [];
  }

  lemma SomeBusy(x: Setup, s: State) returns (i: nat)
    requires SlotsOk(x, s) && s.nrunning != 0
    ensures IsBusy(s, i)
  {
    BusyNone(s.events);
    i :| 0 <= i < |s.events| && s.events[i].pid > 0;
  }

  /** The number of running children is not negative. */
  lemma RunningNat(x: Setup, s: State)
    requires Sound(x, s) && Full(x, s)
    ensures s.nrunning >= 0 && (s.jobs != [] ==> s.nrunning > 0)
  {
    hide Core;
    hide Straight;
  }

  /** A target that is being made and has not failed is being worked on. */
  lemma RootRuns(x: Setup, s: State)
    requires Core(x, s) && Full(x, s) && s.flags[x.root] == BEINGMADE && x.root !in s.failed
    ensures s.nrunning > 0
  {
    hide Reaches;
    RootHere(x, s);
    BusyNone(s.events);
    hide Busy;
    if x.root in Nodes(s.jobs) {
      assert s.jobs != [];
    } else {
      var i: nat :| IsBusy(s, i) && s.events[i].job.node == x.root;
    }
  }

  /** While the target is being made, everything else is made; so the job that ends is its own. */
  lemma RootReaped(x: Setup, s: State, s': State, k: nat)
    requires Core(x, s) && Core(x, s') && Full(x, s') && IsBusy(s, k)
    requires s.flags[x.root] == BEINGMADE && OneReaped(s, s', s.events[k].job)
    ensures s'.jobs == [] && s'.nrunning == 0 && (s'.runerrs > 0 || s'.flags[x.root] == MADE)
  {
    hide Reaches;
    hide Busy;
    var n := s.events[k].job.node;
    assert LiveJob(x, s, s.events[k].job);
    if n != x.root {
      OthersMade(x, s, n);
    }
    if s'.nrunning != 0 {
      var i := SomeBusy(x, s');
      assert LiveJob(x, s', s'.events[i].job);
      if s'.events[i].job.node != x.root {
        OthersMade(x, s, s'.events[i].job.node);
      }
    }
  }

  /** Below a target that is being made everything is made. */
  lemma OthersMade(x: Setup, s: State, n: nat)
    requires Core(x, s) && s.flags[x.root] == BEINGMADE && Here(x, n) && n != x.root
    ensures s.flags[n] == MADE
  {
    hide Busy;
    RootHere(x, s);
    var c := ReachesUnstep(x.g, x.root, n);
    assert AllMade(x.g, s, x.root);
    ReachesEdge(x.g, x.root, x.root, c);
    var p :| IsPathFrom(x.g, c, p) && p[|p| - 1] == n;
    MadeBelow(x, s, c, p);
  }

  lemma StraightIs(x: Setup, enqueued: seq<nat>)
    ensures Straight(x, enqueued) <==> AllRight(x.g, x.names, enqueued)
  {}

  /** A build that has ended, in whatever way. */
  lemma Closed(x: Setup, s: State)
    requires Sound(x, s) && s.jobs == []
    ensures s.started == s.enqueued && Missed(x.g, x.names, s.flags, s.started)
    ensures s.nrunning == 0 ==> forall i :: 0 <= i < |s.events| ==> s.events[i].pid <= 0
  {
    hide Reaches;
    hide Core;
    hide Straight;
    BusyNone(s.events);
    hide Busy;
    assert Nodes(s.jobs) == [];
    forall w | w in s.started && w < |s.flags| && !Right(x.g, x.names, w)
      ensures s.flags[w].beingmade || exists v: nat :: v in s.started && v < |x.g| && Aim(x.g, x.names, v) == Some(w)
    {
      assert s.flags[w].beingmade || Aimed(x, s, w);
    }
  }

  /** A build that has kept straight and has ended. */
  lemma Finished(x: Setup, s: State, honest: bool)
    requires Sound(x, s) && Straight(x, s.enqueued) && Shape(x, s) && AtRest(x, s, honest)
    ensures s.flags[x.root] == MADE ==>
              forall n: nat :: Here(x, n) ==>
                && s.flags[n] == MADE && (honest ==> Resting(x.g, s.time, s.files, n))
                && (!HasNoRecipe(x.g, n) ==> (n in s.enqueued <==> Due(x, s.time, n)))
                && (HasNoRecipe(x.g, n) && IsVirtual(x.g, n) ==> IsLatest(x.g, s.time, n, s.time[n]))
  {
    hide Reaches;
    hide Resting;
    hide Loose;
    hide Core;
    hide Straight;
    hide Due;
    hide IsLatest;
    hide IsVirtual;
    if s.flags[x.root] == MADE {
      forall n: nat | Here(x, n)
        ensures s.flags[n] == MADE && (honest ==> Resting(x.g, s.time, s.files, n)) && TimedNode(x, s, n)
      {
        AllBuilt(x, s, n);
      }
    }
  }

  /** Once the target is made, no job waits and no child runs. */
  lemma RootMadeIdle(x: Setup, s: State)
    requires Core(x, s) && Full(x, s)
    ensures s.flags[x.root] == MADE ==> s.nrunning == 0 && s.jobs == []
  {
    hide Reaches;
    hide Busy;
    if s.flags[x.root] == MADE && s.nrunning != 0 {
      var i := SomeBusy(x, s);
      assert LiveJob(x, s, s.events[i].job);
      AllBuilt(x, s, s.events[i].job.node);
    }
  }

  lemma RootFlags(x: Setup, s: State)
    requires Sound(x, s) && Shape(x, s)
    ensures s.flags[x.root] in {NOTMADE, BEINGMADE, MADE, MISSING}
    ensures s.flags[x.root] == MISSING ==> x.g[x.root] == [] && s.runerrs > 0
  {
    hide Core;
    hide Straight;
    RootHere(x, s);
    hide Reaches;
  }

  /** The end of a job does not touch the nodes that are not made. */
  lemma ReapedOther(x: Setup, s: State, s': State, i: nat, root: nat)
    requires Sound(x, s) && IsBusy(s, i) && OneReaped(s, s', s.events[i].job) && root < |s.flags|
    ensures |s'.flags| == |s.flags| && NotMade(s'.flags) == NotMade(s.flags)
    ensures s'.enqueued == s.enqueued && s.runerrs <= s'.runerrs
    ensures s.flags[root].notmade ==> s'.flags[root] == s.flags[root]
    ensures s'.flags[root] != MISSING || s.flags[root] == MISSING
    ensures Straight(x, s.enqueued) && s.flags[root] != BEINGMADE ==> s'.flags[root] == s.flags[root]
  {
    hide Here;
    hide Straight;
    LooseBusy(x, s, i);
    if Straight(x, s.enqueued) {
      BusyJob(x, s, i);
    }
  }

  lemma ChildrenHere(x: Setup, rank: seq<nat>, n: nat)
    requires WellFormed(x.g) && Ranked(x.g, x.root, rank) && Here(x, n)
    ensures forall i :: 0 <= i < |x.g[n]| && x.g[n][i].to.Some? ==> Here(x, x.g[n][i].to.value)
  {
    forall i | 0 <= i < |x.g[n]| && x.g[n][i].to.Some? ensures Here(x, x.g[n][i].to.value) {
      ChildHere(x, rank, n, i);
    }
  }

  /******* Steps of the walk *******/

  lemma AdvancesQueue(x: Setup, rank: seq<nat>, bound: int, s: State, s': State)
    requires Advances(x, rank, bound, s, s')
    ensures s.enqueued <= s'.enqueued && (|s'.enqueued| == |s.enqueued| ==> s'.enqueued == s.enqueued)
    ensures |s.flags| == |s.time| == |s'.flags| == |s'.time|
  {
    hide Calm;
  }

  lemma UnchangedAbove(x: Setup, rank: seq<nat>, s: State, s': State, n: nat)
    requires n < |rank| && Advances(x, rank, rank[n] as int - 1, s, s')
    ensures s'.time[n] == s.time[n] && (s'.flags[n] == s.flags[n] || s'.flags[n] == BEINGMADE)
    ensures Calm(x, s, s') ==> s'.flags[n] == s.flags[n]
  {
    hide Calm;
    assert NodeAdvances(s, s', n, false, Calm(x, s, s'), s'.enqueued == s.enqueued);
  }

  lemma FourFlags(x: Setup, s: State, n: nat)
    requires Sound(x, s) && Here(x, n)
    ensures s.flags[n] in {NOTMADE, BEINGMADE, MADE, MISSING}
  {
    hide Core;
    hide Straight;
    hide Reaches;
  }

  lemma BlockedSelf(x: Setup, s: State, n: nat)
    requires n < |x.g| && n < |s.flags| && s.flags[n].beingmade
    ensures Blocked(x, s, n)
  {
    ReachesSelf(x.g, n);
  }

  lemma SeenNone(x: Setup, aflag: bool, s: State, n: nat)
    requires Shape(x, s) && n < |x.g|
    ensures Seen(x, aflag, s, n, 0, true, aflag)
  {}

  /** One more arc, to a prerequisite that has just been walked. */
  lemma SeenChild(x: Setup, aflag: bool, rank: seq<nat>, bound: int, s: State, s': State, n: nat, i: nat,
                  ready: bool, weoutofdate: bool)
    requires Shape(x, s) && Shape(x, s') && Advances(x, rank, bound, s, s') && n < |x.g| && bound < rank[n]
    requires i < |x.g[n]| && x.g[n][i].to.Some? && Seen(x, aflag, s, n, i, ready, weoutofdate)
    requires var c := x.g[n][i].to.value;
             && s'.flags[c] in {NOTMADE, BEINGMADE, MADE, MISSING}
             && (if s'.flags[c] == MADE then s'.enqueued == s.enqueued else Blocked(x, s', c))
    ensures var c := x.g[n][i].to.value;
            Seen(x, aflag, s', n, i + 1, ready && s'.flags[c] == MADE, weoutofdate || s'.time[n] <= s'.time[c])
  {
    hide Reaches;
    var c := x.g[n][i].to.value;
    assert Edge(x.g, n, c);
    if !ready {
      BlockedStays(x, rank, bound, s, s', n);
    } else if s'.flags[c] != MADE {
      BlockedAbove(x, s', n, c);
    } else {
      StillCalm(x, s, s');
      ArcsStay(x, rank, bound, s, s', n, i);
      assert StaleUpTo(x.g, s'.time, n, i + 1) <==> StaleUpTo(x.g, s'.time, n, i) || StaleArc(x.g, s'.time, n, i);
    }
  }

  /** One more arc, to nothing. */
  lemma SeenNothing(x: Setup, aflag: bool, s: State, n: nat, i: nat, ready: bool, weoutofdate: bool)
    requires Shape(x, s) && n < |x.g| && i < |x.g[n]| && x.g[n][i].to.None?
    requires Seen(x, aflag, s, n, i, ready, weoutofdate)
    ensures Seen(x, aflag, s, n, i + 1, ready, weoutofdate || s.time[n] == 0)
  {
    hide Reaches;
    assert StaleUpTo(x.g, s.time, n, i + 1) <==> StaleUpTo(x.g, s.time, n, i) || StaleArc(x.g, s.time, n, i);
  }

  lemma SeenAll(x: Setup, aflag: bool, s: State, n: nat, ready: bool, weoutofdate: bool)
    requires Shape(x, s) && n < |x.g| && Seen(x, aflag, s, n, |x.g[n]|, ready, weoutofdate)
    ensures ready ==> AllMade(x.g, s, n) && (weoutofdate <==> aflag || Stale(x.g, s.time, n))
    ensures !ready ==> Blocked(x, s, n)
  {}

  /** The target of a job, if it has one, is made or has failed; no other node is touched. */
  ghost predicate OneReaped(s: State, s': State, j: Job) {
    && |s.flags| == |s.time| == |s'.flags| == |s'.time|
    && s'.enqueued == s.enqueued && s.failed <= s'.failed && s.runerrs <= s'.runerrs
    && match j.target
       case None => s'.flags == s.flags && s'.time == s.time
       case Some(m) =>
         && m < |s.flags|
         && s'.flags == s.flags[m := s'.flags[m]] && s'.time == s.time[m := s'.time[m]]
         && (s'.flags[m] == MADE || (s'.flags[m] == BEINGMADE && m in s'.failed))
  }

  /** m is n or below one of the first k prerequisites of n. */
  ghost predicate Covered(g: Graph, n: nat, k: nat, m: nat)
    requires n < |g| && k <= |g[n]|
  {
    m == n || exists i :: 0 <= i < k && g[n][i].to.Some? && Reaches(g, g[n][i].to.value, m)
  }

  lemma CoveredStep(g: Graph, n: nat, k: nat)
    requires n < |g| && k < |g[n]|
    ensures forall m: nat :: Covered(g, n, k + 1, m) <==>
              Covered(g, n, k, m) || (g[n][k].to.Some? && Reaches(g, g[n][k].to.value, m))
  {
    hide Reaches;
  }

  lemma CoveredAll(g: Graph, n: nat)
    requires n < |g|
    ensures forall m: nat :: m < |g| ==> (Covered(g, n, |g[n]|, m) <==> Reaches(g, n, m))
  {
    hide IsPath;
    forall m: nat | m < |g| ensures Covered(g, n, |g[n]|, m) <==> Reaches(g, n, m) {
      if m == n {
        ReachesSelf(g, n);
      } else if Covered(g, n, |g[n]|, m) {
        var i :| 0 <= i < |g[n]| && g[n][i].to.Some? && Reaches(g, g[n][i].to.value, m);
        assert Edge(g, n, g[n][i].to.value);
        ReachesStep(g, n, g[n][i].to.value, m);
      } else if Reaches(g, n, m) {
        var _ := ReachesUnstep(g, n, m);
      }
    }
  }

  /******* The end of a build *******/

  function NotMade(flags: seq<Flags>): set<nat> {
    set m: nat | m < |flags| && flags[m].notmade
  }

  lemma RootHere(x: Setup, s: State)
    requires Shape(x, s)
    ensures Here(x, x.root)
  {
    ReachesSelf(x.g, x.root);
  }

  /** If nothing runs and the target is held up, something has failed. */
  lemma Stuck(x: Setup, s: State, n: nat)
    requires Core(x, s) && Full(x, s) && Here(x, n) && s.nrunning == 0 && Blocked(x, s, n)
    ensures s.runerrs > 0
  {
    hide Reaches;
    var b: nat :| Reaches(x.g, n, b) && b < |s.flags| && s.flags[b].beingmade;
    ReachesTrans(x.g, x.root, n, b);
    BusyNone(s.events);
    assert Nodes(s.jobs) == [];
  }

  /** If nothing runs and the target is held up without an error, some job missed its node. */
  lemma RunsDry(x: Setup, s: State, n: nat)
    requires Sound(x, s) && Full(x, s) && Here(x, n) && s.nrunning == 0 && Blocked(x, s, n)
    ensures Straight(x, s.enqueued) ==> s.runerrs > 0
  {
    hide Loose;
    hide Core;
    hide Straight;
    hide Here;
    hide Blocked;
    if Straight(x, s.enqueued) {
      Stuck(x, s, n);
    }
  }

  lemma {:induction false} ReachesTrans(g: Graph, a: nat, b: nat, c: nat)
    requires Reaches(g, a, b) && Reaches(g, b, c)
    ensures Reaches(g, a, c)
  {
    var p :| IsPathFrom(g, a, p) && p[|p| - 1] == b;
    PathReaches(g, p, c);
  }

  lemma {:induction false} PathReaches(g: Graph, p: seq<nat>, c: nat)
    requires IsPath(g, p) && Reaches(g, p[|p| - 1], c)
    ensures Reaches(g, p[0], c)
    decreases |p|
  {
    if |p| > 1 {
      var q := p[1..];
      assert forall i :: 0 <= i < |q| - 1 ==> Edge(g, p[i + 1], p[i + 2]) ==> Edge(g, q[i], q[i + 1]);
      PathReaches(g, q, c);
      assert Edge(g, p[0], p[1]);
      ReachesStep(g, p[0], p[1], c);
    }
  }

  /** The root is not among the failed nodes unless it was given up. */
  lemma RootNotFailed(x: Setup, rank: seq<nat>, s0: State, s1: State)
    requires Core(x, s0) && Shape(x, s1) && |rank| == |x.g| && Calm(x, s0, s1)
    requires Advances(x, rank, rank[x.root], s0, s1) && s0.flags[x.root] == NOTMADE
    ensures s1.flags[x.root] == BEINGMADE ==> x.root !in s1.failed
  {
    hide Reaches;
    hide Calm;
  }

  lemma NotMadeShrinks(x: Setup, rank: seq<nat>, s0: State, s1: State)
    requires Shape(x, s0) && Shape(x, s1) && QueueOk(x, s1) && |rank| == |x.g|
    requires Advances(x, rank, rank[x.root], s0, s1) && s0.flags[x.root] == NOTMADE
    ensures NotMade(s1.flags) <= NotMade(s0.flags)
    ensures |s1.enqueued| > |s0.enqueued| ==> NotMade(s1.flags) < NotMade(s0.flags)
    ensures !s1.flags[x.root].notmade ==> NotMade(s1.flags) < NotMade(s0.flags)
  {
    hide Reaches;
    hide Calm;
    forall m | m in NotMade(s1.flags) ensures m in NotMade(s0.flags) {
      assert NodeAdvances(s0, s1, m, rank[m] <= rank[x.root], Calm(x, s0, s1), s1.enqueued == s0.enqueued);
    }
    assert x.root in NotMade(s0.flags);
    if |s1.enqueued| > |s0.enqueued| {
      var m := s1.enqueued[|s0.enqueued|];
      assert m in s1.enqueued;
      assert m in NotMade(s0.flags) && m !in NotMade(s1.flags);
    }
  }

  /** What a walk from the target does to the target and to the set of nodes not made. */
  lemma RoundWork(x: Setup, rank: seq<nat>, s0: State, s1: State)
    requires Sound(x, s0) && Sound(x, s1) && Shape(x, s0) && Shape(x, s1) && |rank| == |x.g|
    requires Advances(x, rank, rank[x.root], s0, s1) && s0.flags[x.root] == NOTMADE
    ensures NotMade(s1.flags) <= NotMade(s0.flags)
    ensures |s1.enqueued| > |s0.enqueued| ==> NotMade(s1.flags) < NotMade(s0.flags)
    ensures !s1.flags[x.root].notmade ==> NotMade(s1.flags) < NotMade(s0.flags)
    ensures Straight(x, s1.enqueued) && s1.flags[x.root] == BEINGMADE ==> x.root !in s1.failed
    ensures |s1.enqueued| >= |s0.enqueued| && s0.runerrs <= s1.runerrs
    ensures |s1.enqueued| == |s0.enqueued| ==>
              s1.jobs == s0.jobs && s1.nrunning == s0.nrunning && s1.enqueued == s0.enqueued
    ensures |s1.enqueued| == |s0.enqueued| ==> s1.flags[x.root] != BEINGMADE
  {
    hide Core;
    hide Straight;
    hide Reaches;
    hide Busy;
    hide NotMade;
    hide FlagsOk;
    hide Calm;
    NotMadeShrinks(x, rank, s0, s1);
    var still := s1.enqueued == s0.enqueued;
    assert NodeAdvances(s0, s1, x.root, true, Calm(x, s0, s1), still);
    if Straight(x, s1.enqueued) {
      StraightPrefix(x, s0.enqueued, s1.enqueued);
      StraightCalm(x, s0, s1);
      RootNotFailed(x, rank, s0, s1);
    }
    if |s1.enqueued| == |s0.enqueued| {
      assert s1.enqueued == s0.enqueued;
    }
  }

  lemma StraightCalm(x: Setup, s: State, s': State)
    requires Straight(x, s'.enqueued) && s.enqueued <= s'.enqueued
    ensures Calm(x, s, s')
  {}
}
