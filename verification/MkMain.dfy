/**
 From rules to a finished build (mk/mk.c, `mk`).
 */
module MkMain {
  import opened Wrappers
  import opened MkGraph
  import opened MkRules
  import opened MkGrapher
  import opened MkAmbiguous
  import opened MkAim
  import opened MkState
  import opened MkFront
  import opened MkBuild

  /******* Names and targets *******/

  /** Each name belongs to one node. */
  predicate Distinct(names: seq<string>) {
    forall i, j :: 0 <= i < j < |names| ==> names[i] != names[j]
  }

  lemma FindUnique(names: seq<string>, n: nat)
    requires Distinct(names) && n < |names|
    ensures FindName(names, names[n]) == Some(n)
  {
    var r := FindName(names, names[n]);
    assert r.Some? ==> r.value == n;
  }

  /** The master arc of a node comes from a rule for its name. */
  lemma MasterComesFrom(
      rules: Rules, nreps: int, names: seq<string>, born: seq<seq<int>>, built: Graph, g: Graph, n: nat)
    requires GoodRules(rules) && IsBuilt(rules, nreps, names, born, built) && Sub(g, built) && n < |g|
    ensures var m := Master(g[n]); m.Some? ==> ComesFrom(names[n], m.value.rule, m.value.stem)
  {
    hide GoodRules;
    hide NodeLabels;
    hide ComesFrom;
    var m := Master(g[n]);
    if m.Some? {
      MasterIn(g[n]);
      assert m.value in built[n];
      var i :| 0 <= i < |built[n]| && built[n][i] == m.value;
      LabelsComeFrom(rules, names[n], born[n], nreps);
      var l := LabelsOf(names, built[n])[i];
      assert l.rule == m.value.rule && l.stem == m.value.stem;
    }
  }

  lemma {:induction false} MasterIn(arcs: seq<Arc>)
    ensures Master(arcs).Some? ==> Master(arcs).value in arcs
    decreases |arcs|
  {
    if arcs != [] {
      MasterIn(arcs[..|arcs| - 1]);
    }
  }

  /** The job of a node is for it exactly if the name of the target is the name of the node. */
  lemma RightIs(g: Graph, names: seq<string>, n: nat)
    requires Distinct(names) && n < |g| == |names| && !HasNoRecipe(g, n)
    ensures var a := Master(g[n]).value; Right(g, names, n) <==> AimName(a.rule, a.stem) == names[n]
  {
    hide AimName;
    FindUnique(names, n);
  }

  /** How far a name is from being one that no target leads to. */
  function Depth(name: string): nat {
    if |name| >= BIGBLOCK then 0 else 1 + Climb(name)
  }

  /**
   If the job of some queued node misses it, some queued node is not made: of those that are
   missed, the one with the lowest name is not the target of any job.  Names that fill the
   buffer exactly are the exception, since cut names can lead to each other.
   */
  lemma {:induction false} SomeNotMade(
      rules: Rules, nreps: int, names: seq<string>, born: seq<seq<int>>, built: Graph, g: Graph,
      flags: seq<Flags>, queued: seq<nat>, w: nat)
    returns (v: nat)
    requires GoodRules(rules) && IsBuilt(rules, nreps, names, born, built) && Sub(g, built)
    requires |flags| == |g| && Missed(g, names, flags, queued)
    requires forall n :: n in queued ==> n < |g| && !HasNoRecipe(g, n)
    requires w in queued && !Right(g, names, w) && |names[w]| != BIGBLOCK - 1
    ensures v in queued && flags[v] != MADE
    decreases Depth(names[w])
  {
    hide GoodRules;
    hide IsBuilt;
    hide Sub;
    hide AimName;
    hide ComesFrom;
    hide Climb;
    BuiltNames(rules, nreps, names, born, built, g);
    if flags[w].beingmade {
      v := w;
    } else {
      v :| v in queued && v < |g| && Aim(g, names, v) == Some(w);
      MasterComesFrom(rules, nreps, names, born, built, g, v);
      MasterComesFrom(rules, nreps, names, born, built, g, w);
      RightIs(g, names, w);
      RightIs(g, names, v);
      var a, b := Master(g[v]).value, Master(g[w]).value;
      AimFits(a.rule, a.stem);
      assert names[v] != names[w];
      AimClimbs(names[v], a.rule, a.stem, names[w], b.rule, b.stem);
      v := SomeNotMade(rules, nreps, names, born, built, g, flags, queued, v);
    }
  }

  lemma BuiltNames(
      rules: Rules, nreps: int, names: seq<string>, born: seq<seq<int>>, built: Graph, g: Graph)
    requires IsBuilt(rules, nreps, names, born, built) && Sub(g, built)
    ensures Distinct(names) && |names| == |g| == |built|
  {
    hide NodeLabels;
  }

  lemma AimFits(rule: Rule, stem: string)
    ensures |AimName(rule, stem)| < BIGBLOCK
  {
    hide Subst;
  }

  /******* Names without patterns *******/

  predicate PlainName(name: string) {
    Patternless(name) && |name| < BIGBLOCK - 1
  }

  predicate PlainPrereqs(d: RuleDef) {
    forall j :: 0 <= j < |d.prereqs| ==> PlainName(d.prereqs[j])
  }

  /** The target and all prerequisites of plain rules are names without pattern characters. */
  predicate PlainNames(rules: Rules, target: string) {
    && PlainName(target)
    && forall t, i :: t in rules.targets && Patternless(t) && 0 <= i < |rules.targets[t]| ==>
                        PlainPrereqs(rules.targets[t][i])
  }

  predicate AllPlain(labels: seq<Label>) {
    forall i :: 0 <= i < |labels| && labels[i].to.Some? ==> PlainName(labels[i].to.value)
  }

  lemma {:induction false} ChainPlain(ds: seq<RuleDef>, cnt: seq<int>, nreps: int, before: seq<Label>)
    requires AllPlain(before)
    requires forall i :: 0 <= i < |ds| ==> PlainPrereqs(ds[i])
    ensures AllPlain(PlainLabels(ds, cnt, nreps, before))
    decreases ds
  {
    hide PlainName;
    if ds != [] {
      var d := ds[0];
      assert AllPlain(before + RuleLabels(d, None));
      ChainPlain(ds[1..], cnt, nreps,
                 if NoEffect(d) || !Allowed(d, cnt, nreps) then before else before + RuleLabels(d, None));
    }
  }

  lemma {:induction false} PatternsPlain(
      name: string, ds: seq<RuleDef>, cnt: seq<int>, nreps: int, before: seq<Label>)
    requires AllPlain(before) && PlainName(name)
    ensures AllPlain(MetaLabels(name, ds, cnt, nreps, before))
    decreases ds
  {
    hide PlainName;
    hide MatchStem;
    hide RuleLabels;
    if ds != [] {
      var d := ds[0];
      var stem := MatchStem(name, d.rule.target);
      if stem.Some? {
        PatternPlain(name, d);
        assert AllPlain(before + RuleLabels(d, stem));
      }
      PatternsPlain(name, ds[1..], cnt, nreps,
                    if NoEffect(d) || NotVirtual(d, before) || stem.None? || !Allowed(d, cnt, nreps) then before
                    else before + RuleLabels(d, stem));
    }
  }

  lemma PatternPlain(name: string, d: RuleDef)
    requires PlainName(name) && MatchStem(name, d.rule.target).Some?
    ensures AllPlain(RuleLabels(d, MatchStem(name, d.rule.target)))
  {
    var prefix := MatchIsStem(name, d.rule.target);
    var stem := MatchStem(name, d.rule.target).value;
    hide MatchStem;
    assert forall i :: 0 <= i < |stem| ==> stem[i] == name[|prefix| + i];
    forall i | 0 <= i < |d.prereqs| ensures PlainName(Cut(Subst(stem, d.prereqs[i]))) {
      SubstPatternless(stem, d.prereqs[i]);
    }
  }

  lemma LabelsPlain(rules: Rules, target: string, name: string, cnt: seq<int>, nreps: int)
    requires PlainNames(rules, target) && PlainName(name)
    ensures AllPlain(NodeLabels(rules, name, cnt, nreps))
  {
    hide PlainLabels;
    hide MetaLabels;
    ChainPlain(Chain(rules, name), cnt, nreps, []);
    PatternsPlain(name, rules.metarules, cnt, nreps, PlainLabels(Chain(rules, name), cnt, nreps, []));
  }

  /** Then all nodes of the graph below the target have such names. */
  lemma {:induction false} BelowPlain(
      rules: Rules, target: string, nreps: int, names: seq<string>, born: seq<seq<int>>, built: Graph, p: seq<nat>)
    requires PlainNames(rules, target) && IsBuilt(rules, nreps, names, born, built)
    requires IsPath(built, p) && names[p[0]] == target
    ensures PlainName(names[p[|p| - 1]])
    decreases |p|
  {
    hide PlainName;
    hide NodeLabels;
    if |p| > 1 {
      var q := p[..|p| - 1];
      assert forall i :: 0 <= i < |q| - 1 ==> Edge(built, p[i], p[i + 1]) ==> Edge(built, q[i], q[i + 1]);
      BelowPlain(rules, target, nreps, names, born, built, q);
      var m, c := p[|p| - 2], p[|p| - 1];
      assert Edge(built, m, c);
      var i :| 0 <= i < |built[m]| && built[m][i].to == Some(c);
      LabelsPlain(rules, target, names[m], born[m], nreps);
      assert LabelsOf(names, built[m])[i].to == Some(names[c]);
    }
  }

  /** Then every job is for its own node. */
  lemma PlainNamesRight(
      rules: Rules, target: string, nreps: int, names: seq<string>, born: seq<seq<int>>, built: Graph, g: Graph,
      root: nat, n: nat)
    requires GoodRules(rules) && PlainNames(rules, target) && IsBuilt(rules, nreps, names, born, built)
    requires Sub(g, built) && root < |names| && names[root] == target
    requires n < |g| && Reaches(g, root, n) && !HasNoRecipe(g, n)
    ensures Right(g, names, n)
  {
    hide AimName;
    hide ComesFrom;
    BuiltNames(rules, nreps, names, born, built, g);
    MasterComesFrom(rules, nreps, names, born, built, g, n);
    SubReaches(g, built, root, n);
    var p :| IsPathFrom(built, root, p) && p[|p| - 1] == n;
    BelowPlain(rules, target, nreps, names, born, built, p);
    var a := Master(g[n]).value;
    PatternlessAim(names[n], a.rule, a.stem);
    RightIs(g, names, n);
  }

  lemma PlainNamesAllRight(
      rules: Rules, target: string, nreps: int, names: seq<string>, born: seq<seq<int>>, built: Graph, g: Graph,
      root: nat, queued: seq<nat>)
    requires GoodRules(rules) && PlainNames(rules, target) && IsBuilt(rules, nreps, names, born, built)
    requires Sub(g, built) && root < |names| && names[root] == target
    requires forall n :: n in queued ==> n < |g| && Reaches(g, root, n) && !HasNoRecipe(g, n)
    ensures AllRight(g, names, queued)
  {
    hide GoodRules;
    hide PlainNames;
    hide IsBuilt;
    hide Sub;
    hide Reaches;
    hide Right;
    forall n | n in queued ensures Right(g, names, n) {
      PlainNamesRight(rules, target, nreps, names, born, built, g, root, n);
    }
  }

  /******* The whole *******/

  /** Everything at or below the target is made. */
  ghost predicate AllDone(g: Graph, root: nat, flags: seq<Flags>) {
    |flags| == |g| && forall n: nat :: n < |g| && Reaches(g, root, n) ==> flags[n] == MADE
  }

  /** A name fills the buffer for the target of a job exactly. */
  predicate SomeFills(names: seq<string>, nodes: seq<nat>) {
    exists n :: n in nodes && n < |names| && |names[n]| == BIGBLOCK - 1
  }

  /** Each job ran the recipe of the first arc of its node that has one. */
  ghost predicate FirstRecipes(g: Graph, log: seq<Event>) {
    forall i :: 0 <= i < |log| && log[i].Start? ==> FirstRecipe(g, log[i].node, log[i].recipe)
  }

  ghost predicate FirstRecipe(g: Graph, n: nat, recipe: Recipe) {
    n < |g| && exists k :: 0 <= k < |g[n]| && IsFirst(RuleList(g[n]), k) && recipe == g[n][k].rule.recipe
  }

  /** The kept arcs of a node share one recipe, so the last is the first. */
  lemma StartsFirst(g: Graph, root: nat, log: seq<Event>)
    requires WithRecipe(g, log) && IsBuildable(g, root)
    requires forall n :: n in Starts(log) ==> n < |g| && Reaches(g, root, n) && !HasNoRecipe(g, n)
    ensures FirstRecipes(g, log)
  {
    hide Reaches;
    hide Cyclic;
    forall i | 0 <= i < |log| && log[i].Start? ensures FirstRecipe(g, log[i].node, log[i].recipe) {
      var n := log[i].node;
      InStarts(log, i);
      MasterIn(g[n]);
      var k := FirstIndex(g[n]);
      LastIsFirst(g[n], k);
    }
  }

  lemma {:induction false} InStarts(log: seq<Event>, i: nat)
    requires i < |log| && log[i].Start?
    ensures log[i].node in Starts(log)
    decreases |log|
  {
    if i < |log| - 1 {
      InStarts(log[..|log| - 1], i);
    }
  }

  lemma {:induction false} FirstIndex(arcs: seq<Arc>) returns (k: nat)
    requires Master(arcs).Some?
    ensures IsFirst(RuleList(arcs), k)
    decreases |arcs|
  {
    var front := arcs[..|arcs| - 1];
    if Master(front).Some? {
      k := FirstIndex(front);
      assert forall i :: 0 <= i < |front| ==> RuleList(arcs)[i] == RuleList(front)[i];
    } else {
      k := |arcs| - 1;
      forall i | 0 <= i < k ensures !HasRecipe(RuleList(arcs)[i]) {
        NoMaster(front, i);
      }
    }
  }

  lemma {:induction false} NoMaster(arcs: seq<Arc>, i: nat)
    requires Master(arcs).None? && i < |arcs|
    ensures !HasRecipe(arcs[i].rule)
    decreases |arcs|
  {
    if i < |arcs| - 1 {
      NoMaster(arcs[..|arcs| - 1], i);
    }
  }

  /**
   Build a target from the rules.  None is an error in the graph, exactly as for `GraphOf`.
   However the build ends, each started node had its one recipe, none was started twice, and an
   error exit has its reason.  A build without errors makes everything if and only if each of
   its jobs is for its own node, which names without pattern characters ensure; then no job is
   started before everything below it is done, no assertion fails, and a recipe is run if and only
   if its target is out of date.
   */
  method MkTarget(rules: Rules, nreps: int, top: int, target: string, nproclimit: nat, kflag: bool, aflag: bool)
    returns (r: Option<Exit>, mk: Mk, root: nat, names: seq<string>,
             ghost born: seq<seq<int>>, ghost built: Graph, ghost pruned: Graph, ghost before: seq<nat>)
    requires GoodRules(rules) && 1 <= nreps && top in {127, 255} && nproclimit > 0
    ensures IsBuilt(rules, nreps, names, born, built) && root < |names| && names[root] == target
    ensures PartOf(pruned, built)
    ensures r.None? <==> Cyclic(built, root, {}) || AmbiguousBelow(pruned, root)
    ensures r.Some? ==> IsBuildable(mk.g, root) && Sub(mk.g, built) && mk.names == names
    ensures r.Some? ==> KeptBelow(mk.g, pruned, root)
    ensures r.Some? ==> NoDup(mk.started) && Starts(mk.log) == mk.started && FirstRecipes(mk.g, mk.log)
    ensures r.Some? ==> Reasoned(mk.g, root, mk.time, mk.log, r.value)
    ensures r == Some(Alive) ==> mk.started == mk.enqueued && mk.jobs == []
    ensures r == Some(Alive) && mk.runerrs == 0 && AllRight(mk.g, names, mk.started) ==>
              AllDone(mk.g, root, mk.flags)
    ensures r == Some(Alive) && mk.runerrs == 0 && AllRight(mk.g, names, mk.started) ==>
              Remade(mk.g, root, aflag, before, mk.time, mk.started)
    ensures r == Some(Alive) && mk.runerrs == 0 && AllDone(mk.g, root, mk.flags) ==>
              AllRight(mk.g, names, mk.started) || SomeFills(names, mk.started)
    ensures r.Some? && AllRight(mk.g, names, mk.enqueued) ==>
              && InTurn(mk.g, mk.log) && !r.value.Stalled? && !r.value.NotDone?
              && (r.value.Alive? ==> mk.Idle())
    ensures r.Some? && PlainNames(rules, target) ==> AllRight(mk.g, names, mk.enqueued)
  {
    hide Reaches;
    hide Cyclic;
    hide OneRecipe;
    hide GoodRules;
    hide IsBuilt;
    hide AmbiguousBelow;
    hide PartOf;
    hide KeptBelow;
    hide InTurn;
    hide Reasoned;
    hide Resting;
    hide IsVirtual;
    hide Rested;
    hide PlainNames;
    hide Missed;
    hide Sub;
    hide FirstRecipes;
    hide WithRecipe;
    hide Right;
    hide Remade;
    var graph: Option<Graph>;
    graph, root, names, born, built, pruned := GraphOf(rules, nreps, top, target);
    r, before := None, [];
    if graph.None? {
      mk := new Mk([], [], [], [], nproclimit, kflag, aflag, false);
      return;
    }
    var g := graph.value;
    BuiltNames(rules, nreps, names, born, built, g);
    assert |seq(|g|, _ => 0)| == |g|;
    var time: seq<nat> :| |time| == |g|;
    var files: seq<nat> :| |files| == |g|;
    mk := new Mk(g, names, time, files, nproclimit, kflag, aflag, false);
    before := time;
    var exit, _ := mk.Make(root);
    r := Some(exit);
    assert forall n :: n in mk.started ==> n in mk.enqueued;
    StartsFirst(g, root, mk.log);
    if PlainNames(rules, target) {
      PlainNamesAllRight(rules, target, nreps, names, born, built, g, root, mk.enqueued);
    }
    if exit.Alive? && !AllRight(g, names, mk.started) {
      ghost var w :| w in mk.started && !Right(g, names, w);
      if |names[w]| != BIGBLOCK - 1 {
        ghost var v := SomeNotMade(rules, nreps, names, born, built, g, mk.flags, mk.started, w);
      }
    }
  }
}
