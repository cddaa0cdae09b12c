/**
 The state of a build and what each of its steps keeps (mk/mk.c, mk/recipe.c,
 mk/run.c).

 A job runs the recipe of one node.  Its target is found by a name, and may be that node,
 another one, or none.  `Loose` holds in every run, `Core` as long as every job is for its
 own node.  A child process is a busy slot; it ends at any time, with any status, and leaves
 its target with any time.
 */
module MkState {
  import opened Wrappers
  import opened MkGraph
  import opened MkAim

  datatype Flags = Flags(notmade: bool, beingmade: bool, made: bool)

  const NOTMADE := Flags(true, false, false)
  const BEINGMADE := Flags(false, true, false)
  const MADE := Flags(false, false, true)
  /** A file that is missing and has no rule: BEINGMADE is added to NOTMADE. */
  const MISSING := Flags(true, true, false)

  /** The node whose recipe it runs, and its target, if there is a node of that name and it
      is out of date. */
  datatype Job = Job(node: nat, target: Option<nat>, recipe: Recipe)

  /** A slot is busy if its pid is positive. */
  datatype Slot = Slot(pid: int, job: Job)

  /** What does not change during a build; `first` has the times at its beginning. */
  datatype Setup = Setup(
    g: Graph, names: seq<string>, root: nat, limit: nat, aflag: bool, first: seq<nat>)

  /** What happens to children. */
  datatype Event = Start(node: nat, recipe: Recipe) | End(node: nat, ok: bool)

  /**
   `time` is what mk knows of the files, `files` is what the system would say now: 0 for
   a file that is not there.  The last four are the history: nodes in the order their jobs
   were queued and started, nodes whose making failed, and all that happened to children.
   */
  datatype State = State(
    flags: seq<Flags>, time: seq<nat>, files: seq<nat>, jobs: seq<Job>, events: seq<Slot>, nrunning: int, runerrs: nat,
    enqueued: seq<nat>, started: seq<nat>, failed: set<nat>, log: seq<Event>)

  /** The node belongs to this build. */
  ghost predicate Here(x: Setup, n: nat) {
    n < |x.g| && Reaches(x.g, x.root, n)
  }

  /******* Targets of jobs *******/

  /** The node of that name. */
  function FindName(names: seq<string>, name: string): (r: Option<nat>)
    ensures r.Some? ==> r.value < |names| && names[r.value] == name
    ensures r.None? ==> name !in names
  {
    if names == [] then None
    else if names[0] == name then Some(0)
    else
      var r := FindName(names[1..], name);
      if r.None? then None else Some(r.value + 1)
  }

  /** The node that the job of n is for, if there is one of that name. */
  function Aim(g: Graph, names: seq<string>, n: nat): Option<nat>
    requires n < |g|
  {
    match Master(g[n])
    case None => None
    case Some(a) => FindName(names, AimName(a.rule, a.stem))
  }

  /** The job of n is for n. */
  predicate Right(g: Graph, names: seq<string>, n: nat) {
    n < |g| && Aim(g, names, n) == Some(n)
  }

  predicate AllRight(g: Graph, names: seq<string>, nodes: seq<nat>) {
    forall n :: n in nodes ==> Right(g, names, n)
  }

  lemma AllRightConcat(g: Graph, names: seq<string>, a: seq<nat>, b: seq<nat>)
    ensures AllRight(g, names, a + b) <==> AllRight(g, names, a) && AllRight(g, names, b)
  {
    hide Right;
    if AllRight(g, names, a + b) {
      assert forall n :: n in a || n in b ==> n in a + b;
    }
  }

  function Nodes(jobs: seq<Job>): seq<nat> {
    seq(|jobs|, i requires 0 <= i < |jobs| => jobs[i].node)
  }

  predicate NoDup(s: seq<nat>) {
    forall i, j :: 0 <= i < j < |s| ==> s[i] != s[j]
  }

  predicate IsBusy(s: State, i: nat) {
    i < |s.events| && s.events[i].pid > 0
  }

  function Busy(events: seq<Slot>): nat {
    if events == [] then 0 else (if events[0].pid > 0 then 1 else 0) + Busy(events[1..])
  }

  ghost predicate IsRunning(s: State, n: nat) {
    exists i: nat :: IsBusy(s, i) && s.events[i].job.node == n
  }

  predicate AllMade(g: Graph, s: State, n: nat)
    requires n < |g|
  {
    forall i :: 0 <= i < |g[n]| && g[n][i].to.Some? ==>
                  g[n][i].to.value < |s.flags| && s.flags[g[n][i].to.value] == MADE
  }

  /******* The invariant *******/

  ghost predicate Shape(x: Setup, s: State) {
    && WellFormed(x.g) && x.root < |x.g| == |x.names| == |x.first|
    && |s.flags| == |s.time| == |s.files| == |x.g|
    && 0 < x.limit <= |s.events|
  }

  /** The flags of a node are one of four combinations. */
  ghost predicate FlagsOk(x: Setup, s: State)
    requires Shape(x, s)
  {
    forall n: nat :: Here(x, n) ==>
      && s.flags[n] in {NOTMADE, BEINGMADE, MADE, MISSING}
      && (s.flags[n] == MISSING ==> n in s.failed && x.g[n] == [])
  }

  /** `nrunning` counts the busy slots, which are below the limit and have distinct pids. */
  ghost predicate SlotsOk(x: Setup, s: State) {
    && s.nrunning == Busy(s.events)
    && s.nrunning <= x.limit
    && (forall i: nat :: IsBusy(s, i) ==> i < x.limit)
    && (forall i: nat, j: nat :: IsBusy(s, i) && IsBusy(s, j) && i != j ==>
          s.events[i].pid != s.events[j].pid && s.events[i].job.node != s.events[j].job.node)
  }

  /** Jobs start in the order they were queued, no node is queued twice, and each has a recipe. */
  ghost predicate QueueOk(x: Setup, s: State)
    requires Shape(x, s)
  {
    && s.enqueued == s.started + Nodes(s.jobs)
    && NoDup(s.enqueued)
    && forall n :: n in s.enqueued ==> Here(x, n) && !s.flags[n].notmade && !HasNoRecipe(x.g, n)
  }

  ghost predicate LiveJob(x: Setup, s: State, j: Job) {
    && Here(x, j.node) && j.node < |s.flags|
    && s.flags[j.node] == BEINGMADE && j.node !in s.failed && j.target == Some(j.node)
    && j.recipe == LastRecipe(x.g[j.node]) && !HasNoRecipe(x.g, j.node)
  }

  /** Queued and running jobs make nodes that are being made, with the recipe of the node. */
  ghost predicate JobsOk(x: Setup, s: State) {
    && (forall i :: 0 <= i < |s.jobs| ==> LiveJob(x, s, s.jobs[i]))
    && (forall i: nat :: IsBusy(s, i) ==> LiveJob(x, s, s.events[i].job) && s.events[i].job.node in s.started)
  }

  /** A node that is being made is queued, running or failed. */
  ghost predicate CaredFor(x: Setup, s: State)
    requires Shape(x, s)
  {
    forall n: nat :: Here(x, n) && s.flags[n] == BEINGMADE ==>
      n in Nodes(s.jobs) || IsRunning(s, n) || n in s.failed
  }

  /** A node that is made or being made has all its prerequisites made. */
  ghost predicate InOrder(x: Setup, s: State)
    requires Shape(x, s)
  {
    forall n: nat :: Here(x, n) && (s.flags[n] == MADE || s.flags[n] == BEINGMADE) ==> AllMade(x.g, s, n)
  }

  ghost predicate ErrorsOk(x: Setup, s: State) {
    && (s.failed != {} ==> s.runerrs > 0)
    && forall n :: n in s.failed ==> Here(x, n) && n < |s.flags| && s.flags[n].beingmade
  }

  /** The nodes whose jobs the log starts, in order. */
  function Starts(log: seq<Event>): seq<nat> {
    if log == [] then []
    else Starts(log[..|log| - 1]) + if log[|log| - 1].Start? then [log[|log| - 1].node] else []
  }

  /** The job of c has ended well before event i, or c was made without a job. */
  predicate DoneBy(s: State, c: nat, i: nat)
    requires i <= |s.log|
  {
    End(c, true) in s.log[..i] || (c < |s.flags| && s.flags[c] == MADE && c !in s.enqueued)
  }

  /** When the job of event i started, everything below its node was done. */
  ghost predicate StartedInTurn(g: Graph, s: State, i: nat)
    requires i < |s.log|
  {
    && s.log[i].node < |g|
    && forall m: nat :: m < |g| && m != s.log[i].node && Reaches(g, s.log[i].node, m) ==> DoneBy(s, m, i)
  }

  /** The log: who was started, that what was made by a job has ended well, and that
      every job started in its turn. */
  ghost predicate LogOk(x: Setup, s: State)
    requires Shape(x, s)
  {
    && Starts(s.log) == s.started
    && (forall n :: n in s.enqueued && n < |s.flags| && s.flags[n] == MADE ==> End(n, true) in s.log)
    && forall i: nat :: i < |s.log| && s.log[i].Start? ==> StartedInTurn(x.g, s, i)
  }

  ghost predicate Core(x: Setup, s: State) {
    && Shape(x, s) && FlagsOk(x, s) && SlotsOk(x, s) && QueueOk(x, s) && JobsOk(x, s)
    && CaredFor(x, s) && InOrder(x, s) && ErrorsOk(x, s) && LogOk(x, s)
  }

  /******* What holds of every run *******/

  /** A job has the recipe of its node, and no target but the one of its name, which is
      being made or was. */
  ghost predicate LooseJob(x: Setup, s: State, j: Job) {
    && Here(x, j.node) && j.recipe == LastRecipe(x.g[j.node])
    && (j.target.Some? ==>
          && j.target.value < |s.flags| && !s.flags[j.target.value].notmade
          && Aim(x.g, x.names, j.node) == j.target)
  }

  ghost predicate JobsLoose(x: Setup, s: State) {
    && (forall i :: 0 <= i < |s.jobs| ==> LooseJob(x, s, s.jobs[i]))
    && (forall i: nat :: IsBusy(s, i) ==> LooseJob(x, s, s.events[i].job) && s.events[i].job.node in s.started)
  }

  /** The job of some queued node is for w. */
  ghost predicate Aimed(x: Setup, s: State, w: nat) {
    exists v: nat :: v in s.enqueued && v < |x.g| && Aim(x.g, x.names, v) == Some(w)
  }

  /** A queued node that its own job misses stays as it is, unless another job is for it. */
  ghost predicate MissedOk(x: Setup, s: State)
    requires Shape(x, s)
  {
    forall w :: w in s.enqueued && w < |s.flags| && !Right(x.g, x.names, w) ==>
      s.flags[w].beingmade || Aimed(x, s, w)
  }

  /** The log starts each job with the recipe of its node. */
  ghost predicate LogLoose(x: Setup, s: State) {
    && Starts(s.log) == s.started
    && forall i :: 0 <= i < |s.log| && s.log[i].Start? ==>
         s.log[i].node < |x.g| && s.log[i].recipe == LastRecipe(x.g[s.log[i].node])
  }

  ghost predicate Loose(x: Setup, s: State) {
    && Shape(x, s) && FlagsOk(x, s) && SlotsOk(x, s) && QueueOk(x, s) && JobsLoose(x, s)
    && MissedOk(x, s) && LogLoose(x, s) && (s.failed != {} ==> s.runerrs > 0)
  }

  /** Every job queued so far is for its own node. */
  predicate Straight(x: Setup, enqueued: seq<nat>) {
    AllRight(x.g, x.names, enqueued)
  }

  lemma StraightSnoc(x: Setup, enqueued: seq<nat>, n: nat)
    ensures Straight(x, enqueued + [n]) <==> Straight(x, enqueued) && Right(x.g, x.names, n)
  {
    AllRightConcat(x.g, x.names, enqueued, [n]);
  }

  lemma StraightPrefix(x: Setup, before: seq<nat>, after: seq<nat>)
    requires before <= after && Straight(x, after)
    ensures Straight(x, before)
  {}

  /** Every run keeps the first, and the second until a job is queued that misses its node. */
  ghost predicate Sound(x: Setup, s: State) {
    Loose(x, s) && (Straight(x, s.enqueued) ==> Core(x, s))
  }

  /** Between steps a job waits only if every slot is busy. */
  ghost predicate Full(x: Setup, s: State) {
    s.jobs != [] ==> s.nrunning == x.limit
  }

  /******* Steps *******/

  function MakeMade(s: State, n: nat, t: nat): State
    requires n < |s.flags| == |s.time|
  {
    s.(flags := s.flags[n := MADE], time := s.time[n := t])
  }

  function MakeMissing(s: State, n: nat): State
    requires n < |s.flags|
  {
    s.(flags := s.flags[n := MISSING], runerrs := s.runerrs + 1, failed := s.failed + {n})
  }

  /** The target of a job is marked together with its node. */
  function Mark(flags: seq<Flags>, target: Option<nat>): seq<Flags>
    requires target.Some? ==> target.value < |flags|
  {
    if target.None? then flags else flags[target.value := BEINGMADE]
  }

  function Enqueue(x: Setup, s: State, n: nat, target: Option<nat>): State
    requires n < |s.flags| && n < |x.g| && (target.Some? ==> target.value < |s.flags|)
  {
    s.(flags := Mark(s.flags[n := BEINGMADE], target), jobs := s.jobs + [Job(n, target, LastRecipe(x.g[n]))],
       enqueued := s.enqueued + [n])
  }

  function Fire(s: State, i: nat, pid: int): State
    requires s.jobs != [] && i < |s.events|
  {
    s.(jobs := s.jobs[1..], events := s.events[i := Slot(pid, s.jobs[0])], nrunning := s.nrunning + 1,
       started := s.started + [s.jobs[0].node], log := s.log + [Start(s.jobs[0].node, s.jobs[0].recipe)])
  }

  /** The child in slot i ends; the file of its target has time f, and mk takes note of time t. */
  function Reap(s: State, i: nat, ok: bool, f: nat, t: nat): State
    requires i < |s.events|
    requires s.events[i].job.target.Some? ==> s.events[i].job.target.value < |s.flags| == |s.time| == |s.files|
  {
    var j := s.events[i].job;
    var s1 := s.(log := s.log + [End(j.node, ok)], nrunning := s.nrunning - 1,
                 events := s.events[i := s.events[i].(pid := -1)],
                 runerrs := if ok then s.runerrs else s.runerrs + 1);
    if j.target.None? then s1
    else
      var m := j.target.value;
      s1.(files := s.files[m := f], flags := s.flags[m := if ok then MADE else BEINGMADE], time := s.time[m := t],
          failed := if ok then s.failed else s.failed + {m})
  }

  /******* Counting slots *******/

  lemma {:induction false} BusyUpdate(events: seq<Slot>, i: nat, slot: Slot)
    requires i < |events|
    ensures Busy(events[i := slot]) ==
            Busy(events) - (if events[i].pid > 0 then 1 else 0) + (if slot.pid > 0 then 1 else 0)
    decreases events
  {
    var after := events[i := slot];
    if i == 0 {
      assert after[1..] == events[1..];
    } else {
      assert after[1..] == events[1..][i - 1 := slot];
      BusyUpdate(events[1..], i - 1, slot);
    }
  }

  /** If the first k slots are all busy, k are counted. */
  lemma {:induction false} BusyAtLeast(events: seq<Slot>, k: nat)
    requires k <= |events| && forall i :: 0 <= i < k ==> events[i].pid > 0
    ensures Busy(events) >= k
  {
    if k > 0 {
      assert forall i :: 0 <= i < k - 1 ==> events[1..][i] == events[i + 1];
      BusyAtLeast(events[1..], k - 1);
    }
  }

  lemma {:induction false} BusyNone(events: seq<Slot>)
    ensures Busy(events) == 0 <==> forall i :: 0 <= i < |events| ==> events[i].pid <= 0
  {
    if events != [] {
      BusyNone(events[1..]);
      assert forall i :: 0 < i < |events| ==> events[i] == events[1..][i - 1];
    }
  }

  /******* What each step keeps *******/

  /** n becomes made or missing: the part about flags. */
  lemma FlagsChange(x: Setup, s: State, s': State, n: nat, f: Flags)
    requires Core(x, s) && Here(x, n)
    requires s.flags[n] == NOTMADE && f in {MADE, MISSING, BEINGMADE}
    requires s'.flags == s.flags[n := f] && |s'.time| == |s.time| && s'.files == s.files && s'.events == s.events
    requires f != MISSING ==> AllMade(x.g, s, n)
    requires f == MISSING ==> n in s'.failed && x.g[n] == []
    requires s.failed <= s'.failed
    ensures Shape(x, s') && FlagsOk(x, s') && InOrder(x, s')
  {
    hide Reaches;
    forall m: nat | Here(x, m) && (s'.flags[m] == MADE || s'.flags[m] == BEINGMADE)
      ensures AllMade(x.g, s', m)
    {
      if m != n {
        assert AllMade(x.g, s, m);
      } else {
        assert AllMade(x.g, s, n);
      }
    }
  }

  /** The flags of n, which no job makes, change: the jobs do not notice. */
  lemma JobsUntouched(x: Setup, s: State, s': State, n: nat, f: Flags)
    requires Core(x, s) && Here(x, n) && s.flags[n] == NOTMADE
    requires s'.flags == s.flags[n := f]
    requires s'.jobs == s.jobs && s'.events == s.events && s'.nrunning == s.nrunning
    requires s'.started == s.started && s'.enqueued == s.enqueued
    requires s'.failed == s.failed || s'.failed == s.failed + {n}
    requires |s'.time| == |s.time| && s'.files == s.files
    ensures Shape(x, s') && SlotsOk(x, s') && QueueOk(x, s') && JobsOk(x, s')
    ensures f != BEINGMADE ==> CaredFor(x, s')
  {
    hide Reaches;
    hide Busy;
    assert forall i: nat :: IsBusy(s', i) == IsBusy(s, i);
    forall i | 0 <= i < |s.jobs| ensures LiveJob(x, s', s'.jobs[i]) {
      assert LiveJob(x, s, s.jobs[i]);
    }
    forall i: nat | IsBusy(s', i) ensures LiveJob(x, s', s'.events[i].job) {
      assert LiveJob(x, s, s.events[i].job);
    }
    forall m: nat | IsRunning(s, m) ensures IsRunning(s', m) {
      var i: nat :| IsBusy(s, i) && s.events[i].job.node == m;
      assert IsBusy(s', i);
    }
  }

  /** A node that no job made changes: the log does not notice. */
  lemma LogUntouched(x: Setup, s: State, s': State, n: nat)
    requires Core(x, s) && Shape(x, s') && n < |s.flags| && s.flags[n] == NOTMADE
    requires s'.flags == s.flags[n := s'.flags[n]] && s'.log == s.log && s'.started == s.started
    requires s'.enqueued == s.enqueued || (s'.enqueued == s.enqueued + [n] && s'.flags[n] != MADE)
    ensures LogOk(x, s')
  {
    hide Reaches;
    hide Busy;
    hide Starts;
    assert n !in s.enqueued;
    forall i: nat | i < |s'.log| && s'.log[i].Start? ensures StartedInTurn(x.g, s', i) {
      assert StartedInTurn(x.g, s, i);
      LaterDone(x.g, s, s', i);
    }
  }

  /** What was done stays done. */
  lemma LaterDone(g: Graph, s: State, s': State, i: nat)
    requires i < |s.log| && StartedInTurn(g, s, i) && |s.flags| == |s'.flags| && s.log <= s'.log
    requires forall c :: 0 <= c < |s.flags| && s.flags[c] == MADE ==> s'.flags[c] == MADE
    requires forall c :: c in s'.enqueued && c < |s.flags| && s.flags[c] == MADE ==> c in s.enqueued
    ensures StartedInTurn(g, s', i)
  {
    hide Reaches;
    assert s'.log[..i] == s.log[..i];
    forall m: nat | m < |g| && m != s.log[i].node && Reaches(g, s.log[i].node, m) ensures DoneBy(s', m, i) {
      assert DoneBy(s, m, i);
    }
  }

  lemma MakeMadeKeeps(x: Setup, s: State, n: nat, t: nat)
    requires Core(x, s) && Here(x, n) && s.flags[n] == NOTMADE && AllMade(x.g, s, n)
    ensures Core(x, MakeMade(s, n, t))
  {
    hide Reaches;
    hide Busy;
    var s' := MakeMade(s, n, t);
    FlagsChange(x, s, s', n, MADE);
    JobsUntouched(x, s, s', n, MADE);
    LogUntouched(x, s, s', n);
  }

  lemma MakeMissingKeeps(x: Setup, s: State, n: nat)
    requires Core(x, s) && Here(x, n) && s.flags[n] == NOTMADE && x.g[n] == []
    ensures Core(x, MakeMissing(s, n))
  {
    hide Reaches;
    hide Busy;
    var s' := MakeMissing(s, n);
    FlagsChange(x, s, s', n, MISSING);
    JobsUntouched(x, s, s', n, MISSING);
    LogUntouched(x, s, s', n);
  }

  lemma EnqueueKeeps(x: Setup, s: State, n: nat)
    requires Core(x, s) && Here(x, n) && s.flags[n] == NOTMADE && AllMade(x.g, s, n)
    requires !HasNoRecipe(x.g, n)
    ensures Core(x, Enqueue(x, s, n, Some(n)))
  {
    hide Reaches;
    hide Busy;
    var s' := Enqueue(x, s, n, Some(n));
    assert n !in s.failed;
    FlagsChange(x, s, s', n, BEINGMADE);
    EnqueueJobs(x, s, n);
    EnqueueCares(x, s, n);
    LogUntouched(x, s, s', n);
    EnqueueQueue(x, s, n);
    hide JobsOk;
    hide CaredFor;
    hide LogOk;
    hide FlagsOk;
    hide InOrder;
    hide SlotsOk;
    hide QueueOk;
  }

  lemma EnqueueQueue(x: Setup, s: State, n: nat)
    requires Shape(x, s) && QueueOk(x, s) && SlotsOk(x, s)
    requires Here(x, n) && s.flags[n] == NOTMADE && !HasNoRecipe(x.g, n)
    ensures var s' := Enqueue(x, s, n, Some(n)); Shape(x, s') && QueueOk(x, s') && SlotsOk(x, s')
  {
    hide Reaches;
    hide Busy;
    var s' := Enqueue(x, s, n, Some(n));
    assert Nodes(s'.jobs) == Nodes(s.jobs) + [n];
    assert n !in s.enqueued;
    assert s'.enqueued == s'.started + Nodes(s'.jobs);
    assert forall i: nat :: IsBusy(s', i) == IsBusy(s, i);
  }

  lemma EnqueueJobs(x: Setup, s: State, n: nat)
    requires JobsOk(x, s) && Here(x, n) && n < |s.flags| && s.flags[n] == NOTMADE && !HasNoRecipe(x.g, n)
    requires n !in s.failed
    ensures JobsOk(x, Enqueue(x, s, n, Some(n)))
  {
    hide Reaches;
    var s' := Enqueue(x, s, n, Some(n));
    assert forall i: nat :: IsBusy(s', i) == IsBusy(s, i);
    forall i | 0 <= i < |s'.jobs| ensures LiveJob(x, s', s'.jobs[i]) {
      assert i < |s.jobs| ==> LiveJob(x, s, s.jobs[i]);
    }
    forall i: nat | IsBusy(s', i) ensures LiveJob(x, s', s'.events[i].job) {
      assert LiveJob(x, s, s.events[i].job);
    }
  }

  lemma EnqueueCares(x: Setup, s: State, n: nat)
    requires Shape(x, s) && CaredFor(x, s) && n < |s.flags|
    ensures Shape(x, Enqueue(x, s, n, Some(n))) && CaredFor(x, Enqueue(x, s, n, Some(n)))
  {
    hide Reaches;
    var s' := Enqueue(x, s, n, Some(n));
    assert Nodes(s'.jobs) == Nodes(s.jobs) + [n];
    assert n in Nodes(s'.jobs) by {
      assert Nodes(s'.jobs)[|s.jobs|] == n;
    }
    forall m: nat | IsRunning(s, m) ensures IsRunning(s', m) {
      var i: nat :| IsBusy(s, i) && s.events[i].job.node == m;
      assert IsBusy(s', i);
    }
  }

  /** Starting a job: the queue and its history. */
  lemma FireQueue(x: Setup, s: State, i: nat, pid: int)
    requires Shape(x, s) && QueueOk(x, s) && s.jobs != [] && i < |s.events|
    ensures QueueOk(x, Fire(s, i, pid)) && s.jobs[0].node !in s.started
    ensures Fire(s, i, pid).enqueued == s.enqueued
  {
    hide Reaches;
    hide Busy;
    var s' := Fire(s, i, pid);
    assert Nodes(s.jobs) == [s.jobs[0].node] + Nodes(s'.jobs);
    assert s'.started + Nodes(s'.jobs) == s.started + Nodes(s.jobs);
    var k := |s.started|;
    assert s.enqueued[k] == s.jobs[0].node;
    assert forall j :: 0 <= j < k ==> s.started[j] == s.enqueued[j];
  }

  lemma FireSlots(x: Setup, s: State, i: nat, pid: int)
    requires Shape(x, s) && SlotsOk(x, s) && QueueOk(x, s) && s.jobs != [] && s.nrunning < x.limit
    requires forall j: nat :: IsBusy(s, j) ==> s.events[j].job.node in s.started
    requires i < x.limit && s.events[i].pid <= 0 && pid > 0
    requires forall j: nat :: IsBusy(s, j) ==> s.events[j].pid != pid
    ensures SlotsOk(x, Fire(s, i, pid))
  {
    hide Reaches;
    hide Busy;
    var s' := Fire(s, i, pid);
    BusyUpdate(s.events, i, Slot(pid, s.jobs[0]));
    FireQueue(x, s, i, pid);
    forall j: nat, k: nat | IsBusy(s', j) && IsBusy(s', k) && j != k
      ensures s'.events[j].pid != s'.events[k].pid && s'.events[j].job.node != s'.events[k].job.node
    {
      if j == i {
        assert IsBusy(s, k);
      } else if k == i {
        assert IsBusy(s, j);
      } else {
        assert IsBusy(s, j) && IsBusy(s, k);
      }
    }
    forall j: nat | IsBusy(s', j) ensures j < x.limit {
      assert j == i || IsBusy(s, j);
    }
  }

  /** If a node of the build is made, so is everything below it. */
  lemma {:induction false} MadeBelow(x: Setup, s: State, n: nat, p: seq<nat>)
    requires Core(x, s) && Here(x, n) && s.flags[n] == MADE && IsPathFrom(x.g, n, p)
    ensures Here(x, p[|p| - 1]) && s.flags[p[|p| - 1]] == MADE
    decreases |p|
  {
    hide FlagsOk;
    hide SlotsOk;
    hide QueueOk;
    hide JobsOk;
    hide CaredFor;
    hide ErrorsOk;
    hide Reaches;
    if |p| > 1 {
      var q := p[..|p| - 1];
      assert forall i :: 0 <= i < |q| - 1 ==> Edge(x.g, p[i], p[i + 1]) ==> Edge(x.g, q[i], q[i + 1]);
      MadeBelow(x, s, n, q);
      var m, c := p[|p| - 2], p[|p| - 1];
      assert Edge(x.g, m, c) && AllMade(x.g, s, m);
      ReachesEdge(x.g, x.root, m, c);
    }
  }

  /** Everything below a node that is being made is made. */
  lemma BelowMade(x: Setup, s: State, n: nat, m: nat)
    requires Core(x, s) && Here(x, n) && s.flags[n] == BEINGMADE && Reaches(x.g, n, m) && m != n
    ensures m < |s.flags| && s.flags[m] == MADE
  {
    hide FlagsOk;
    hide SlotsOk;
    hide QueueOk;
    hide JobsOk;
    hide CaredFor;
    hide ErrorsOk;
    hide LogOk;
    var c := ReachesUnstep(x.g, n, m);
    var p :| IsPathFrom(x.g, c, p) && p[|p| - 1] == m;
    ReachesEdge(x.g, x.root, n, c);
    assert AllMade(x.g, s, n);
    MadeBelow(x, s, c, p);
  }

  /** A job that starts has all its prerequisites made: each ended well, or had no job. */
  lemma FireLog(x: Setup, s: State, i: nat, pid: int)
    requires Core(x, s) && s.jobs != [] && i < |s.events|
    ensures LogOk(x, Fire(s, i, pid))
  {
    hide Reaches;
    hide Busy;
    var s', n, last := Fire(s, i, pid), s.jobs[0].node, |s.log|;
    StartsSnoc(s.log, Start(n, s.jobs[0].recipe));
    hide Starts;
    assert LiveJob(x, s, s.jobs[0]) && AllMade(x.g, s, n);
    forall j: nat | j < |s'.log| && s'.log[j].Start? ensures StartedInTurn(x.g, s', j) {
      if j < last {
        assert StartedInTurn(x.g, s, j);
        LaterDone(x.g, s, s', j);
      } else {
        assert s'.log[..last] == s.log;
        forall m: nat | m < |x.g| && m != n && Reaches(x.g, n, m) ensures DoneBy(s', m, last) {
          BelowMade(x, s, n, m);
        }
      }
    }
  }

  lemma StartsSnoc(log: seq<Event>, e: Event)
    ensures Starts(log + [e]) == Starts(log) + if e.Start? then [e.node] else []
  {
    assert (log + [e])[..|log|] == log;
  }

  lemma ReapLog(x: Setup, s: State, i: nat, ok: bool, f: nat, t: nat)
    requires Core(x, s) && IsBusy(s, i) && LiveJob(x, s, s.events[i].job)
    ensures Shape(x, Reap(s, i, ok, f, t)) && LogOk(x, Reap(s, i, ok, f, t))
  {
    hide Reaches;
    hide Busy;
    var s', n := Reap(s, i, ok, f, t), s.events[i].job.node;
    StartsSnoc(s.log, End(n, ok));
    hide Starts;
    forall j: nat | j < |s'.log| && s'.log[j].Start? ensures StartedInTurn(x.g, s', j) {
      assert j < |s.log| && StartedInTurn(x.g, s, j);
      LaterDone(x.g, s, s', j);
    }
    forall m | m in s'.enqueued && m < |s'.flags| && s'.flags[m] == MADE ensures End(m, true) in s'.log {
      if m != n {
        assert End(m, true) in s.log;
      } else {
        assert s'.log[|s.log|] == End(n, ok);
      }
    }
  }

  lemma FireKeeps(x: Setup, s: State, i: nat, pid: int)
    requires Core(x, s) && s.jobs != [] && s.nrunning < x.limit
    requires i < x.limit && s.events[i].pid <= 0 && pid > 0
    requires forall j: nat :: IsBusy(s, j) ==> s.events[j].pid != pid
    ensures Core(x, Fire(s, i, pid))
  {
    hide Here;
    hide Busy;
    FireLog(x, s, i, pid);
    hide LogOk;
    hide FlagsOk;
    hide InOrder;
    hide ErrorsOk;
    hide CaredFor;
    FireJobs(x, s, i, pid);
    hide LiveJob;
    FireQueue(x, s, i, pid);
    FireSlots(x, s, i, pid);
    hide SlotsOk;
    hide QueueOk;
    hide JobsOk;
    FireFlags(x, s, i, pid);
  }

  /** Starting a job changes no node. */
  lemma FireFlags(x: Setup, s: State, i: nat, pid: int)
    requires Shape(x, s) && FlagsOk(x, s) && InOrder(x, s) && ErrorsOk(x, s) && CaredFor(x, s)
    requires s.jobs != [] && i < x.limit && s.events[i].pid <= 0 && pid > 0
    ensures var s' := Fire(s, i, pid);
            Shape(x, s') && FlagsOk(x, s') && InOrder(x, s') && ErrorsOk(x, s') && CaredFor(x, s')
  {
    hide Reaches;
    var s' := Fire(s, i, pid);
    forall n: nat | Here(x, n) && (s'.flags[n] == MADE || s'.flags[n] == BEINGMADE) ensures AllMade(x.g, s', n) {
      assert AllMade(x.g, s, n);
    }
    forall n: nat | Here(x, n) && s'.flags[n] == BEINGMADE
      ensures n in Nodes(s'.jobs) || IsRunning(s', n) || n in s'.failed
    {
      FireCares(x, s, i, pid, n);
    }
  }

  lemma FireJobs(x: Setup, s: State, i: nat, pid: int)
    requires JobsOk(x, s) && s.jobs != [] && i < |s.events| && s.events[i].pid <= 0
    ensures JobsOk(x, Fire(s, i, pid))
  {
    hide Here;
    var s' := Fire(s, i, pid);
    forall j: nat | IsBusy(s', j)
      ensures LiveJob(x, s', s'.events[j].job) && s'.events[j].job.node in s'.started
    {
      if j != i {
        assert IsBusy(s, j) && LiveJob(x, s, s.events[j].job);
      } else {
        assert LiveJob(x, s, s.jobs[0]);
      }
    }
    forall k | 0 <= k < |s'.jobs| ensures LiveJob(x, s', s'.jobs[k]) {
      assert LiveJob(x, s, s.jobs[k + 1]);
    }
  }

  lemma FireCares(x: Setup, s: State, i: nat, pid: int, n: nat)
    requires Shape(x, s) && CaredFor(x, s) && s.jobs != [] && i < x.limit && s.events[i].pid <= 0 && pid > 0
    requires Here(x, n) && s.flags[n] == BEINGMADE
    ensures var s' := Fire(s, i, pid); n in Nodes(s'.jobs) || IsRunning(s', n) || n in s'.failed
  {
    hide Reaches;
    var s' := Fire(s, i, pid);
    assert Nodes(s.jobs) == [s.jobs[0].node] + Nodes(s'.jobs);
    if n == s.jobs[0].node {
      assert IsBusy(s', i);
    } else if IsRunning(s, n) {
      var j: nat :| IsBusy(s, j) && s.events[j].job.node == n;
      assert IsBusy(s', j) && s'.events[j] == s.events[j];
    }
  }

  lemma ReapSlots(x: Setup, s: State, i: nat, ok: bool, f: nat, t: nat)
    requires Core(x, s) && IsBusy(s, i)
    ensures LiveJob(x, s, s.events[i].job)
    ensures SlotsOk(x, Reap(s, i, ok, f, t)) && Reap(s, i, ok, f, t).nrunning == s.nrunning - 1
  {
    hide Reaches;
    hide Busy;
    var s' := Reap(s, i, ok, f, t);
    BusyUpdate(s.events, i, s.events[i].(pid := -1));
    assert forall j: nat :: IsBusy(s', j) ==> j != i && IsBusy(s, j) && s'.events[j] == s.events[j];
  }

  lemma ReapJobs(x: Setup, s: State, i: nat, ok: bool, f: nat, t: nat)
    requires Core(x, s) && IsBusy(s, i) && LiveJob(x, s, s.events[i].job)
    ensures JobsOk(x, Reap(s, i, ok, f, t)) && QueueOk(x, Reap(s, i, ok, f, t))
  {
    hide Reaches;
    hide Busy;
    var s' := Reap(s, i, ok, f, t);
    var n := s.events[i].job.node;
    forall k | 0 <= k < |s.jobs| ensures LiveJob(x, s', s'.jobs[k]) {
      assert LiveJob(x, s, s.jobs[k]);
      StartedNotQueued(s, n, k);
    }
    forall j: nat | IsBusy(s', j)
      ensures LiveJob(x, s', s'.events[j].job) && s'.events[j].job.node in s'.started
    {
      assert j != i && IsBusy(s, j) && s'.events[j] == s.events[j];
      assert LiveJob(x, s, s.events[j].job);
    }
  }

  /** A node whose job has started is not in the queue. */
  lemma StartedNotQueued(s: State, n: nat, k: nat)
    requires s.enqueued == s.started + Nodes(s.jobs) && NoDup(s.enqueued) && n in s.started && k < |s.jobs|
    ensures s.jobs[k].node != n
  {
    var i :| 0 <= i < |s.started| && s.started[i] == n;
    assert s.enqueued[i] == n;
    assert s.enqueued[|s.started| + k] == Nodes(s.jobs)[k] == s.jobs[k].node;
  }

  lemma ReapFlags(x: Setup, s: State, i: nat, ok: bool, f: nat, t: nat)
    requires Core(x, s) && IsBusy(s, i) && LiveJob(x, s, s.events[i].job)
    ensures var s' := Reap(s, i, ok, f, t); Shape(x, s') && FlagsOk(x, s') && InOrder(x, s') && ErrorsOk(x, s')
  {
    hide Reaches;
    hide Busy;
    var s' := Reap(s, i, ok, f, t);
    forall m: nat | Here(x, m) && (s'.flags[m] == MADE || s'.flags[m] == BEINGMADE)
      ensures AllMade(x.g, s', m)
    {
      assert AllMade(x.g, s, m);
    }
  }

  lemma ReapCares(x: Setup, s: State, i: nat, ok: bool, f: nat, t: nat)
    requires Core(x, s) && IsBusy(s, i) && LiveJob(x, s, s.events[i].job)
    ensures CaredFor(x, Reap(s, i, ok, f, t))
  {
    hide Reaches;
    hide Busy;
    var s' := Reap(s, i, ok, f, t);
    var n := s.events[i].job.node;
    forall m: nat | Here(x, m) && s'.flags[m] == BEINGMADE
      ensures m in Nodes(s'.jobs) || IsRunning(s', m) || m in s'.failed
    {
      if m != n && IsRunning(s, m) {
        var j: nat :| IsBusy(s, j) && s.events[j].job.node == m;
        assert IsBusy(s', j) && s'.events[j] == s.events[j];
      }
    }
  }

  lemma ReapKeeps(x: Setup, s: State, i: nat, ok: bool, f: nat, t: nat)
    requires Core(x, s) && IsBusy(s, i)
    ensures s.events[i].job.node < |s.flags| == |s.time|
    ensures Core(x, Reap(s, i, ok, f, t))
  {
    hide FlagsOk;
    hide SlotsOk;
    hide QueueOk;
    hide JobsOk;
    hide CaredFor;
    hide InOrder;
    hide ErrorsOk;
    hide LogOk;
    hide Here;
    ReapSlots(x, s, i, ok, f, t);
    ReapJobs(x, s, i, ok, f, t);
    ReapFlags(x, s, i, ok, f, t);
    ReapCares(x, s, i, ok, f, t);
    ReapLog(x, s, i, ok, f, t);
  }

  /******* What each step keeps of every run *******/

  lemma MakeMadeLoose(x: Setup, s: State, n: nat, t: nat)
    requires Loose(x, s) && Here(x, n) && s.flags[n] == NOTMADE
    ensures Loose(x, MakeMade(s, n, t))
  {
    hide Reaches;
    hide Busy;
    hide Aim;
    var s' := MakeMade(s, n, t);
    assert forall i: nat :: IsBusy(s', i) == IsBusy(s, i);
    JobsStay(x, s, s');
    MissedStays(x, s, s', n);
  }

  lemma MakeMissingLoose(x: Setup, s: State, n: nat)
    requires Loose(x, s) && Here(x, n) && s.flags[n] == NOTMADE && x.g[n] == []
    ensures Loose(x, MakeMissing(s, n))
  {
    hide Reaches;
    hide Busy;
    hide Aim;
    var s' := MakeMissing(s, n);
    assert n !in s.enqueued;
    assert forall i: nat :: IsBusy(s', i) == IsBusy(s, i);
    JobsStay(x, s, s');
    MissedStays(x, s, s', n);
  }

  lemma EnqueueLoose(x: Setup, s: State, n: nat, target: Option<nat>)
    requires Loose(x, s) && Here(x, n) && s.flags[n] == NOTMADE && !HasNoRecipe(x.g, n)
    requires target.Some? ==> target.value < |s.flags| && Aim(x.g, x.names, n) == target
    ensures Loose(x, Enqueue(x, s, n, target))
  {
    hide Reaches;
    hide Busy;
    hide Aim;
    hide Right;
    hide Starts;
    var s' := Enqueue(x, s, n, target);
    assert Nodes(s'.jobs) == Nodes(s.jobs) + [n];
    assert n !in s.enqueued;
    assert s'.enqueued == s'.started + Nodes(s'.jobs);
    assert forall i: nat :: IsBusy(s', i) == IsBusy(s, i);
    JobsStay(x, s, s'.(jobs := s.jobs));
    forall i | 0 <= i < |s'.jobs| ensures LooseJob(x, s', s'.jobs[i]) {
      assert i < |s.jobs| ==> LooseJob(x, s'.(jobs := s.jobs), s.jobs[i]);
    }
    forall i: nat | IsBusy(s', i) ensures LooseJob(x, s', s'.events[i].job) {
      assert LooseJob(x, s'.(jobs := s.jobs), s.events[i].job);
    }
    EnqueueMissed(x, s, n, target);
  }

  lemma EnqueueMissed(x: Setup, s: State, n: nat, target: Option<nat>)
    requires Shape(x, s) && MissedOk(x, s) && n < |s.flags| && (target.Some? ==> target.value < |s.flags|)
    ensures var s' := Enqueue(x, s, n, target); Shape(x, s') && MissedOk(x, s')
  {
    hide Aim;
    hide Right;
    var s' := Enqueue(x, s, n, target);
    forall w | w in s'.enqueued && w < |s'.flags| && !Right(x.g, x.names, w)
      ensures s'.flags[w].beingmade || Aimed(x, s', w)
    {
      if w != n && !s.flags[w].beingmade {
        assert Aimed(x, s, w);
        var v: nat :| v in s.enqueued && v < |x.g| && Aim(x.g, x.names, v) == Some(w);
        assert v in s'.enqueued;
      }
    }
  }

  lemma FireLoose(x: Setup, s: State, i: nat, pid: int)
    requires Loose(x, s) && s.jobs != [] && s.nrunning < x.limit
    requires i < x.limit && s.events[i].pid <= 0 && pid > 0
    requires forall j: nat :: IsBusy(s, j) ==> s.events[j].pid != pid
    ensures Loose(x, Fire(s, i, pid))
  {
    hide Reaches;
    hide Busy;
    hide Aim;
    hide Right;
    var s' := Fire(s, i, pid);
    FireQueue(x, s, i, pid);
    FireSlots(x, s, i, pid);
    StartsSnoc(s.log, Start(s.jobs[0].node, s.jobs[0].recipe));
    hide Starts;
    hide SlotsOk;
    hide QueueOk;
    forall j: nat | IsBusy(s', j)
      ensures LooseJob(x, s', s'.events[j].job) && s'.events[j].job.node in s'.started
    {
      assert j == i || IsBusy(s, j);
      assert LooseJob(x, s, s.jobs[0]);
    }
    forall k | 0 <= k < |s'.jobs| ensures LooseJob(x, s', s'.jobs[k]) {
      assert LooseJob(x, s, s.jobs[k + 1]);
    }
    forall w | w in s'.enqueued && w < |s'.flags| && !Right(x.g, x.names, w)
      ensures s'.flags[w].beingmade || Aimed(x, s', w)
    {
      assert s.flags[w].beingmade || Aimed(x, s, w);
    }
  }

  lemma ReapLoose(x: Setup, s: State, i: nat, ok: bool, f: nat, t: nat)
    requires Loose(x, s) && IsBusy(s, i)
    ensures LooseJob(x, s, s.events[i].job) && Loose(x, Reap(s, i, ok, f, t))
    ensures Reap(s, i, ok, f, t).nrunning == s.nrunning - 1
  {
    hide Here;
    hide FlagsOk;
    hide SlotsOk;
    hide QueueOk;
    hide Aim;
    hide Right;
    assert LooseJob(x, s, s.events[i].job);
    StartsSnoc(s.log, End(s.events[i].job.node, ok));
    hide Starts;
    ReapMissed(x, s, i, ok, f, t);
    ReapLooseJobs(x, s, i, ok, f, t);
    ReapLooseFlags(x, s, i, ok, f, t);
    hide JobsLoose;
    hide MissedOk;
  }

  lemma ReapLooseJobs(x: Setup, s: State, i: nat, ok: bool, f: nat, t: nat)
    requires Loose(x, s) && IsBusy(s, i) && LooseJob(x, s, s.events[i].job)
    ensures var s' := Reap(s, i, ok, f, t); SlotsOk(x, s') && JobsLoose(x, s') && s'.nrunning == s.nrunning - 1
  {
    hide Here;
    hide Busy;
    hide Aim;
    hide FlagsOk;
    hide QueueOk;
    hide MissedOk;
    hide LogLoose;
    var s' := Reap(s, i, ok, f, t);
    BusyUpdate(s.events, i, s.events[i].(pid := -1));
    assert forall k: nat :: IsBusy(s', k) ==> k != i && IsBusy(s, k) && s'.events[k] == s.events[k];
    forall k | 0 <= k < |s.jobs| ensures LooseJob(x, s', s'.jobs[k]) {
      assert LooseJob(x, s, s.jobs[k]);
    }
    forall k: nat | IsBusy(s', k)
      ensures LooseJob(x, s', s'.events[k].job) && s'.events[k].job.node in s'.started
    {
      assert LooseJob(x, s, s.events[k].job);
    }
  }

  lemma ReapLooseFlags(x: Setup, s: State, i: nat, ok: bool, f: nat, t: nat)
    requires Loose(x, s) && IsBusy(s, i) && LooseJob(x, s, s.events[i].job)
    ensures var s' := Reap(s, i, ok, f, t); Shape(x, s') && FlagsOk(x, s') && QueueOk(x, s')
  {
    hide Reaches;
    hide SlotsOk;
    hide JobsLoose;
    hide MissedOk;
    hide LogLoose;
    hide Aim;
  }

  lemma ReapMissed(x: Setup, s: State, i: nat, ok: bool, f: nat, t: nat)
    requires Loose(x, s) && IsBusy(s, i) && LooseJob(x, s, s.events[i].job)
    ensures Shape(x, Reap(s, i, ok, f, t)) && MissedOk(x, Reap(s, i, ok, f, t))
  {
    hide Reaches;
    hide Busy;
    hide Aim;
    hide Right;
    var s', j := Reap(s, i, ok, f, t), s.events[i].job;
    assert j.node in s.enqueued;
    forall w | w in s'.enqueued && w < |s'.flags| && !Right(x.g, x.names, w)
      ensures s'.flags[w].beingmade || Aimed(x, s', w)
    {
      if j.target == Some(w) {
        assert j.node in s'.enqueued && Aim(x.g, x.names, j.node) == Some(w);
      } else {
        assert s.flags[w].beingmade || Aimed(x, s, w);
      }
    }
  }

  /** The jobs do not notice that some node is no longer not made. */
  lemma JobsStay(x: Setup, s: State, s': State)
    requires JobsLoose(x, s) && s'.jobs == s.jobs && s'.events == s.events && s'.started == s.started
    requires |s'.flags| == |s.flags|
    requires forall m :: 0 <= m < |s.flags| && !s.flags[m].notmade ==> !s'.flags[m].notmade
    ensures JobsLoose(x, s')
  {
    hide Reaches;
    hide Aim;
    forall i | 0 <= i < |s.jobs| ensures LooseJob(x, s', s'.jobs[i]) {
      assert LooseJob(x, s, s.jobs[i]);
    }
    forall i: nat | IsBusy(s', i) ensures LooseJob(x, s', s'.events[i].job) {
      assert IsBusy(s, i) && LooseJob(x, s, s.events[i].job);
    }
  }

  /** A node that was never queued changes. */
  lemma MissedStays(x: Setup, s: State, s': State, n: nat)
    requires Shape(x, s) && Shape(x, s') && MissedOk(x, s) && n !in s.enqueued && n < |s.flags|
    requires s'.flags == s.flags[n := s'.flags[n]] && s'.enqueued == s.enqueued
    ensures MissedOk(x, s')
  {
    hide Right;
    hide Aim;
    forall w | w in s'.enqueued && w < |s'.flags| && !Right(x.g, x.names, w)
      ensures s'.flags[w].beingmade || Aimed(x, s', w)
    {
      assert s.flags[w].beingmade || Aimed(x, s, w);
    }
  }
}
