/**
 The checked graph of a target (mk/graph.c, `graph`): build it, refuse cycles, prune it,
 and leave one recipe per node.  What comes out is what a build starts from.
 */
module MkFront {
  import opened Wrappers
  import opened MkGraph
  import opened MkRules
  import opened MkGrapher
  import opened MkAmbiguous

  /** The graph has some of the arcs of another. */
  predicate Sub(g: Graph, h: Graph) {
    |g| == |h| && forall n, a :: 0 <= n < |g| && a in g[n] ==> a in h[n]
  }

  lemma SubEdge(g: Graph, h: Graph, a: nat, b: nat)
    requires Sub(g, h) && Edge(g, a, b)
    ensures Edge(h, a, b)
  {
    var i :| 0 <= i < |g[a]| && g[a][i].to == Some(b);
    assert g[a][i] in g[a];
  }

  lemma SubPath(g: Graph, h: Graph, a: nat, p: seq<nat>)
    requires Sub(g, h) && IsPathFrom(g, a, p)
    ensures IsPathFrom(h, a, p)
  {
    forall i | 0 <= i < |p| - 1 ensures Edge(h, p[i], p[i + 1]) {
      SubEdge(g, h, p[i], p[i + 1]);
    }
  }

  /** Taking arcs away makes no cycle and no way. */
  lemma SubCyclic(g: Graph, h: Graph, root: nat)
    requires Sub(g, h) && !Cyclic(h, root, {})
    ensures !Cyclic(g, root, {})
  {
    if Cyclic(g, root, {}) {
      var p :| IsPathFrom(g, root, p) && Returns(p, {});
      SubPath(g, h, root, p);
    }
  }

  lemma SubReaches(g: Graph, h: Graph, a: nat, b: nat)
    requires Sub(g, h) && Reaches(g, a, b)
    ensures Reaches(h, a, b)
  {
    var p :| IsPathFrom(g, a, p) && p[|p| - 1] == b;
    SubPath(g, h, a, p);
  }

  lemma SubTrans(g: Graph, h: Graph, k: Graph)
    requires Sub(g, h) && Sub(h, k)
    ensures Sub(g, k)
  {}

  lemma SubWellFormed(g: Graph, h: Graph)
    requires Sub(g, h) && WellFormed(h)
    ensures WellFormed(g)
  {
    forall n, i | 0 <= n < |g| && 0 <= i < |g[n]| && g[n][i].to.Some? ensures g[n][i].to.value < |g| {
      assert g[n][i] in h[n];
    }
  }

  lemma KeepSub(arcs: seq<Arc>, remove: seq<bool>)
    requires |remove| == |arcs|
    ensures forall a :: a in Keep(arcs, remove) ==> a in arcs
  {
    forall a | a in Keep(arcs, remove) ensures a in arcs {
      InKeep(arcs, remove, a);
    }
  }

  predicate PlainFirstAll(g: Graph) {
    forall n :: 0 <= n < |g| ==> PlainFirst(RuleList(g[n]))
  }

  /** Some of the arcs, in their order. */
  ghost predicate IsPart(part: seq<Arc>, arcs: seq<Arc>) {
    exists remove: seq<bool> :: |remove| == |arcs| && part == Keep(arcs, remove)
  }

  ghost predicate PartOf(g: Graph, h: Graph) {
    |g| == |h| && forall n :: 0 <= n < |h| ==> IsPart(g[n], h[n])
  }

  /** Each node of the build has the arcs that `ambiguous` keeps. */
  ghost predicate KeptBelow(g: Graph, pruned: Graph, root: nat) {
    |g| == |pruned| && forall n: nat :: n < |g| && Reaches(pruned, root, n) ==> g[n] == Kept(pruned[n])
  }

  lemma SelfPart(g: Graph)
    ensures PartOf(g, g)
  {
    forall n | 0 <= n < |g| ensures IsPart(g[n], g[n]) {
      var none := seq(|g[n]|, _ => false);
      KeepAll(g[n], none);
      assert |none| == |g[n]| && g[n] == Keep(g[n], none);
    }
  }

  /** Arcs that lead nowhere useful are taken away, in any way that keeps the order
      (`vacuous`). */
  method Prune(h: Graph) returns (g: Graph)
    requires PlainFirstAll(h)
    ensures Sub(g, h) && PlainFirstAll(g) && PartOf(g, h)
  {
    g := [];
    for n := 0 to |h|
      invariant |g| == n
      invariant forall m, a :: 0 <= m < n && a in g[m] ==> a in h[m]
      invariant PlainFirstAll(g) && forall m :: 0 <= m < n ==> IsPart(g[m], h[m])
    {
      assert |seq(|h[n]|, _ => false)| == |h[n]|;
      var remove: seq<bool> :| |remove| == |h[n]|;
      KeepSub(h[n], remove);
      KeepPlainFirst(h[n], remove);
      var arcs := Togo(h[n], remove);
      g := g + [arcs];
    }
  }

  class Resolver {
    var g: Graph
    /** The graph before, and the nodes that have passed. */
    ghost const g0: Graph
    ghost var passed: set<nat>

    constructor (g: Graph)
      requires WellFormed(g) && PlainFirstAll(g)
      ensures Valid() && this.g == g == g0 && passed == {}
    {
      this.g, g0, passed := g, g, {};
    }

    /** A node that has passed was not ambiguous, and everything below it has passed. */
    ghost predicate Passed(m: nat)
      reads this
    {
      && m < |g0| && !IsAmbiguous(g0[m])
      && forall i :: 0 <= i < |g0[m]| && g0[m][i].to.Some? ==> g0[m][i].to.value in passed
    }

    ghost predicate Valid()
      reads this
    {
      && WellFormed(g0) && PlainFirstAll(g0) && |g| == |g0|
      && (forall m :: 0 <= m < |g| ==> g[m] == if m in passed then Kept(g0[m]) else g0[m])
      && forall m :: m in passed ==> Passed(m)
    }

    /** `ambiguous`: a result of false is the error exit, taken exactly when some node
        below n has two recipes of which neither gives way. */
    method Ambiguous(ghost root: nat, ghost rank: seq<nat>, n: nat) returns (ok: bool)
      requires Valid() && Ranked(g0, root, rank) && n < |g0| && Reaches(g0, root, n)
      modifies this
      ensures ok ==> Valid() && n in passed && old(passed) <= passed
      ensures ok ==> forall m :: m in passed && m !in old(passed) ==> m < |rank| && rank[m] <= rank[n]
      ensures !ok ==> exists m: nat :: Reaches(g0, n, m) && m < |g0| && IsAmbiguous(g0[m])
      decreases rank[n]
    {
      hide Ranked;
      hide IsPath;
      hide IsAmbiguous;
      hide Kept;
      hide WellFormed;
      hide PlainFirst;
      hide Judge;
      hide Weigh;
      hide Keep;
      hide RuleList;
      hide Reaches;
      hide Edge;
      hide Passed;
      var arcs := g[n];
      var rules := RuleList(arcs);
      var v := Verdict(None, [], false);
      SameArcs(root, rank, n);
      assert rules[..0] == [];
      JudgeNone();
      for i := 0 to |arcs|
        invariant Valid() && g[n] == arcs && old(passed) <= passed
        invariant n in passed <==> n in old(passed)
        invariant forall m :: m in passed && m !in old(passed) ==> m < |rank| && rank[m] < rank[n]
        invariant forall j :: 0 <= j < i && arcs[j].to.Some? ==> arcs[j].to.value in passed
        invariant v == Judge(rules[..i])
      {
        if arcs[i].to.Some? {
          var child := arcs[i].to.value;
          assert Edge(g0, n, child) && rank[child] < rank[n] && Reaches(g0, root, child);
          ok := Ambiguous(root, rank, child);
          if !ok {
            ghost var m: nat :| Reaches(g0, child, m) && m < |g0| && IsAmbiguous(g0[m]);
            ReachesStep(g0, n, child, m);
            return false;
          }
        }
        JudgeStep(rules, i);
        v := Weigh(rules[..i + 1], v);
      }
      assert rules[..|arcs|] == rules;
      NodeEnd(n);
      if v.error {
        ReachesSelf(g0, n);
        return false;
      }
      var kept := Togo(arcs, v.remove);
      assert kept == Kept(arcs) by {
        KeptIs(arcs);
      }
      Pass(n, kept);
      ok := true;
    }

    /** Store what is left of the arcs of a node. */
    method Pass(n: nat, kept: seq<Arc>)
      requires Valid() && n < |g0| && !IsAmbiguous(g[n]) && kept == Kept(g[n])
      requires forall i :: 0 <= i < |g[n]| && g[n][i].to.Some? ==> g[n][i].to.value in passed
      modifies this
      ensures Valid() && passed == old(passed) + {n}
    {
      hide IsAmbiguous;
      hide Kept;
      hide PlainFirst;
      NodeEnd(n);
      g := g[n := kept];
      passed := passed + {n};
      assert forall m :: m in old(passed) ==> old(Passed(m));
    }

    /** The arcs of a node lead to nodes of lower rank, whether or not it has passed. */
    lemma SameArcs(root: nat, rank: seq<nat>, n: nat)
      requires Valid() && Ranked(g0, root, rank) && n < |g0| && Reaches(g0, root, n)
      ensures |rank| == |g0|
      ensures forall i :: 0 <= i < |g[n]| && g[n][i].to.Some? ==>
                var c := g[n][i].to.value;
                c < |g0| && Edge(g0, n, c) && rank[c] < rank[n] && Reaches(g0, root, c)
    {
      hide IsAmbiguous;
      hide PlainFirst;
      forall i | 0 <= i < |g[n]| && g[n][i].to.Some?
        ensures var c := g[n][i].to.value;
                c < |g0| && Edge(g0, n, c) && rank[c] < rank[n] && Reaches(g0, root, c)
      {
        var c := g[n][i].to.value;
        assert g[n][i] in g[n];
        KeepSub(g0[n], Judge(RuleList(g0[n])).remove);
        assert g[n][i] in g0[n];
        var j :| 0 <= j < |g0[n]| && g0[n][j] == g[n][i];
        assert g0[n][j].to == Some(c);
        ReachesEdge(g0, root, n, c);
      }
    }

    /** Everything that a passed node reaches has passed. */
    lemma {:induction false} PassedBelow(n: nat, p: seq<nat>)
      requires Valid() && n in passed && IsPathFrom(g0, n, p)
      ensures p[|p| - 1] in passed
      decreases |p|
    {
      hide IsAmbiguous;
      hide Kept;
      hide PlainFirstAll;
      hide WellFormed;
      if |p| > 1 {
        var q := p[..|p| - 1];
        assert forall i :: 0 <= i < |q| - 1 ==> Edge(g0, p[i], p[i + 1]) ==> Edge(g0, q[i], q[i + 1]);
        PassedBelow(n, q);
        assert Passed(p[|p| - 2]) && Edge(g0, p[|p| - 2], p[|p| - 1]);
      }
    }

    lemma ReachedPassed(n: nat, m: nat)
      requires Valid() && n in passed && Reaches(g0, n, m)
      ensures m in passed && Passed(m)
    {
      var p :| IsPathFrom(g0, n, p) && p[|p| - 1] == m;
      PassedBelow(n, p);
    }

    /** Below a passed node, each node has one recipe left, and was not ambiguous. */
    lemma OneRecipeBelow(n: nat)
      requires Valid() && n in passed
      ensures Sub(g, g0)
      ensures forall m: nat :: m < |g| && Reaches(g, n, m) ==> OneRecipe(g[m])
      ensures forall m: nat :: m < |g0| && Reaches(g0, n, m) ==> !IsAmbiguous(g0[m]) && g[m] == Kept(g0[m])
    {
      hide Judge;
      hide IsPath;
      forall m, a | 0 <= m < |g| && a in g[m] ensures a in g0[m] {
        KeepSub(g0[m], Judge(RuleList(g0[m])).remove);
      }
      forall m: nat | m < |g0| && Reaches(g0, n, m) ensures !IsAmbiguous(g0[m]) && m in passed {
        ReachedPassed(n, m);
      }
      forall m: nat | m < |g| && Reaches(g, n, m) ensures OneRecipe(g[m]) {
        SubReaches(g, g0, n, m);
        KeptOneRecipe(g0[m]);
      }
    }

    /** What the verdict on a node says of its arcs before. */
    lemma NodeEnd(n: nat)
      requires Valid() && n < |g0|
      ensures IsAmbiguous(g[n]) == Judge(RuleList(g[n])).error
      ensures IsAmbiguous(g[n]) ==> n !in passed
      ensures n in passed ==> Kept(g[n]) == g[n]
    {
      if n in passed {
        assert Passed(n);
        KeptOneRecipe(g0[n]);
        KeptStays(Kept(g0[n]));
      }
    }
  }

  lemma JudgeNone()
    ensures Judge([]) == Verdict(None, [], false)
  {}

  lemma JudgeStep(rules: seq<Rule>, i: nat)
    requires i < |rules|
    ensures Judge(rules[..i + 1]) == Weigh(rules[..i + 1], Judge(rules[..i]))
  {
    assert rules[..i + 1][..i] == rules[..i];
  }

  lemma KeptIs(arcs: seq<Arc>)
    ensures Kept(arcs) == Keep(arcs, Judge(RuleList(arcs)).remove)
  {}

  /** The arcs of a node are in the order of its rules. */
  lemma OrderOfLabels(names: seq<string>, arcs: seq<Arc>)
    ensures RuleList(arcs) == RulesOf(LabelsOf(names, arcs))
  {}

  /** Some node of the build has two recipes of which neither gives way. */
  ghost predicate AmbiguousBelow(g: Graph, root: nat) {
    exists n: nat :: Reaches(g, root, n) && n < |g| && TwoRecipes(g[n])
  }

  lemma AmbiguousBelowIs(g: Graph, root: nat)
    requires PlainFirstAll(g)
    ensures AmbiguousBelow(g, root) <==> exists n: nat :: Reaches(g, root, n) && n < |g| && IsAmbiguous(g[n])
  {
    hide Reaches;
    hide IsAmbiguous;
    hide TwoRecipes;
    forall n: nat | n < |g| ensures IsAmbiguous(g[n]) <==> TwoRecipes(g[n]) {
      AmbiguousIs(g[n]);
    }
  }

  /** The graph that the rules give: one node per name, with the arcs for the name. */
  ghost predicate IsBuilt(rules: Rules, nreps: int, names: seq<string>, born: seq<seq<int>>, g: Graph) {
    && |names| == |born| == |g| && WellFormed(g)
    && (forall i, j :: 0 <= i < j < |names| ==> names[i] != names[j])
    && forall n :: 0 <= n < |g| ==> LabelsOf(names, g[n]) == NodeLabels(rules, names[n], born[n], nreps)
  }

  /** The graph can be built: it has no cycle, and one recipe for each node of the build. */
  ghost predicate IsBuildable(g: Graph, root: nat) {
    && WellFormed(g) && root < |g| && !Cyclic(g, root, {})
    && forall n: nat :: n < |g| && Reaches(g, root, n) ==> OneRecipe(g[n])
  }

  /**
   `graph`: None is one of the two error exits, taken exactly if the graph that the rules
   give has a cycle, or what is left of it after pruning is ambiguous, at or below the
   target.  What is returned can be built.
   */
  method GraphOf(rules: Rules, nreps: int, top: int, target: string)
    returns (r: Option<Graph>, root: nat, names: seq<string>,
             ghost born: seq<seq<int>>, ghost built: Graph, ghost pruned: Graph)
    requires GoodRules(rules) && 1 <= nreps && top in {127, 255}
    ensures IsBuilt(rules, nreps, names, born, built) && root < |names| && names[root] == target
    ensures PartOf(pruned, built)
    ensures r.None? <==> Cyclic(built, root, {}) || AmbiguousBelow(pruned, root)
    ensures r.Some? ==> IsBuildable(r.value, root) && Sub(r.value, built)
    ensures r.Some? ==> KeptBelow(r.value, pruned, root)
  {
    hide Cyclic;
    hide IsPath;
    hide OneRecipe;
    hide PlainFirst;
    hide Kept;
    hide IsAmbiguous;
    hide IsPart;
    hide NodeLabels;
    hide TwoRecipes;
    var grapher := new Grapher(rules, nreps, top);
    root := grapher.Graph(target);
    var h := grapher.g;
    names, born := grapher.names, grapher.born;
    r, built := None, h;
    Built(grapher);
    pruned := h;
    SelfPart(h);
    var check := new CycleCheck(h);
    var ok := check.Check(root);
    if !ok {
      return;
    }
    var g := Prune(h);
    pruned := g;
    SubWellFormed(g, h);
    SubCyclic(g, h, root);
    var resolver := new Resolver(g);
    ghost var rank := RankExists(g, root);
    ReachesSelf(g, root);
    AmbiguousBelowIs(g, root);
    ok := resolver.Ambiguous(root, rank, root);
    if !ok {
      return;
    }
    resolver.OneRecipeBelow(root);
    SubTrans(resolver.g, g, h);
    SubWellFormed(resolver.g, g);
    SubCyclic(resolver.g, g, root);
    r := Some(resolver.g);
  }

  /** What the construction leaves behind. */
  lemma Built(grapher: Grapher)
    requires grapher.Valid() && grapher.pending == {}
    ensures IsBuilt(grapher.rules, grapher.nreps, grapher.names, grapher.born, grapher.g)
    ensures PlainFirstAll(grapher.g)
  {
    hide NodeLabels;
    var g: Graph := grapher.g;
    var names := grapher.names;
    forall n, i | 0 <= n < |g| && 0 <= i < |g[n]| && g[n][i].to.Some? ensures g[n][i].to.value < |g| {
      assert grapher.Finished(n);
    }
    forall n | 0 <= n < |g|
      ensures LabelsOf(names, g[n]) == NodeLabels(grapher.rules, names[n], grapher.born[n], grapher.nreps)
      ensures PlainFirst(RuleList(g[n]))
    {
      assert grapher.Finished(n);
      OrderOfLabels(names, g[n]);
      NodePlainFirst(grapher.rules, names[n], grapher.born[n], grapher.nreps);
    }
  }
}
