/**
 The dependency graph of mk (mk/graph.c) and the check that it has no cycle.

 Nodes are numbered; a node is the list of its arcs.
 */
module MkGraph {
  import opened Wrappers
  /** A recipe is told apart from another by where it is kept: the rules of one
      declaration share it. */
  datatype Recipe = Recipe(at: nat, text: string)

  datatype Rule = Rule(target: string, recipe: Recipe, meta: bool, vir: bool, norec: bool)

  predicate HasRecipe(r: Rule) {
    r.recipe.text != ""
  }

  /** An arc leads to a prerequisite; a rule without prerequisites has an arc to nothing.
      The stem is what a pattern rule has matched. */
  datatype Arc = Arc(to: Option<nat>, rule: Rule, stem: string)

  type Graph = seq<seq<Arc>>

  /** The master arc: the last with a recipe. */
  function Master(arcs: seq<Arc>): (r: Option<Arc>)
    ensures r.Some? ==> HasRecipe(r.value.rule)
  {
    if arcs == [] then None
    else if HasRecipe(arcs[|arcs| - 1].rule) then Some(arcs[|arcs| - 1])
    else Master(arcs[..|arcs| - 1])
  }

  function LastRecipe(arcs: seq<Arc>): Recipe {
    if Master(arcs).Some? then Master(arcs).value.rule.recipe else Recipe(0, "")
  }

  predicate HasNoRecipe(g: Graph, n: nat)
    requires n < |g|
  {
    Master(g[n]).None?
  }

  /** Every arc leads to a node of the graph. */
  predicate WellFormed(g: Graph) {
    forall n, i :: 0 <= n < |g| && 0 <= i < |g[n]| && g[n][i].to.Some? ==> g[n][i].to.value < |g|
  }

  predicate Edge(g: Graph, a: nat, b: nat) {
    a < |g| && exists i :: 0 <= i < |g[a]| && g[a][i].to == Some(b)
  }

  ghost predicate IsPath(g: Graph, p: seq<nat>) {
    && p != []
    && (forall i :: 0 <= i < |p| ==> p[i] < |g|)
    && forall i :: 0 <= i < |p| - 1 ==> Edge(g, p[i], p[i + 1])
  }

  ghost predicate IsPathFrom(g: Graph, a: nat, p: seq<nat>) {
    IsPath(g, p) && p[0] == a
  }

  ghost predicate Reaches(g: Graph, a: nat, b: nat) {
    exists p :: IsPathFrom(g, a, p) && p[|p| - 1] == b
  }

  lemma ReachesSelf(g: Graph, a: nat)
    requires a < |g|
    ensures Reaches(g, a, a)
  {
    assert IsPathFrom(g, a, [a]);
  }

  lemma PathCons(g: Graph, a: nat, b: nat, p: seq<nat>)
    requires Edge(g, a, b) && IsPathFrom(g, b, p)
    ensures IsPathFrom(g, a, [a] + p)
  {
    var q := [a] + p;
    forall i | 0 <= i < |q| - 1 ensures Edge(g, q[i], q[i + 1]) {
      if i > 0 {
        assert Edge(g, p[i - 1], p[i]);
      }
    }
  }

  lemma ReachesStep(g: Graph, a: nat, b: nat, c: nat)
    requires Edge(g, a, b) && Reaches(g, b, c)
    ensures Reaches(g, a, c)
  {
    var p :| IsPathFrom(g, b, p) && p[|p| - 1] == c;
    PathCons(g, a, b, p);
    assert ([a] + p)[|p|] == c;
  }

  lemma ReachesEdge(g: Graph, a: nat, b: nat, c: nat)
    requires Reaches(g, a, b) && Edge(g, b, c) && c < |g|
    ensures Reaches(g, a, c)
  {
    var p :| IsPathFrom(g, a, p) && p[|p| - 1] == b;
    var q := p + [c];
    forall i | 0 <= i < |q| - 1 ensures Edge(g, q[i], q[i + 1]) {
      if i < |p| - 1 {
        assert Edge(g, p[i], p[i + 1]);
      }
    }
    assert IsPathFrom(g, a, q) && q[|q| - 1] == c;
  }

  /** A first arc on the way to a node further on. */
  lemma ReachesUnstep(g: Graph, a: nat, c: nat) returns (b: nat)
    requires Reaches(g, a, c) && a != c
    ensures Edge(g, a, b) && b < |g| && Reaches(g, b, c)
  {
    var p :| IsPathFrom(g, a, p) && p[|p| - 1] == c;
    b := p[1];
    var q := p[1..];
    forall i | 0 <= i < |q| - 1 ensures Edge(g, q[i], q[i + 1]) {
      assert Edge(g, p[i + 1], p[i + 2]);
    }
    assert Edge(g, p[0], p[1]);
    assert IsPathFrom(g, b, q);
  }

  /******* Cycles *******/

  /** The path comes back to one of its own nodes, or ends in a marked one. */
  ghost predicate Returns(p: seq<nat>, marked: set<nat>)
    requires p != []
  {
    p[|p| - 1] in marked || p[|p| - 1] in p[..|p| - 1]
  }

  /** A cycle, or a marked node, can be reached from a. */
  ghost predicate Cyclic(g: Graph, a: nat, marked: set<nat>) {
    exists p :: IsPathFrom(g, a, p) && Returns(p, marked)
  }

  lemma CyclicStep(g: Graph, a: nat, b: nat, marked: set<nat>)
    requires Edge(g, a, b) && Cyclic(g, b, marked + {a})
    ensures Cyclic(g, a, marked)
  {
    var p :| IsPathFrom(g, b, p) && Returns(p, marked + {a});
    var q := [a] + p;
    PathCons(g, a, b, p);
    assert q[|q| - 1] == p[|p| - 1];
    if p[|p| - 1] in p[..|p| - 1] {
      var i :| 0 <= i < |p| - 1 && p[i] == p[|p| - 1];
      assert q[..|q| - 1][i + 1] == p[i];
    } else if p[|p| - 1] == a {
      assert q[..|q| - 1][0] == a;
    }
    assert Returns(q, marked);
  }

  lemma CyclicUnstep(g: Graph, a: nat, marked: set<nat>) returns (b: nat)
    requires Cyclic(g, a, marked) && a !in marked
    ensures Edge(g, a, b) && b < |g| && Cyclic(g, b, marked + {a})
  {
    var p :| IsPathFrom(g, a, p) && Returns(p, marked);
    assert |p| > 1;
    b := p[1];
    var q := p[1..];
    forall i | 0 <= i < |q| - 1 ensures Edge(g, q[i], q[i + 1]) {
      assert Edge(g, p[i + 1], p[i + 2]);
    }
    assert Edge(g, p[0], p[1]);
    assert q[|q| - 1] == p[|p| - 1];
    if p[|p| - 1] in p[..|p| - 1] {
      var i :| 0 <= i < |p| - 1 && p[i] == p[|p| - 1];
      if i > 0 {
        assert q[..|q| - 1][i - 1] == p[i];
      }
    }
    assert IsPathFrom(g, b, q) && Returns(q, marked + {a});
  }

  lemma CyclicMore(g: Graph, a: nat, marked: set<nat>, more: set<nat>)
    requires Cyclic(g, a, marked) && marked <= more
    ensures Cyclic(g, a, more)
  {
    var p :| IsPathFrom(g, a, p) && Returns(p, marked);
    assert Returns(p, more);
  }

  lemma MarkedBound(g: Graph, marked: set<nat>, n: nat)
    requires (forall m :: m in marked ==> m < |g|) && n < |g| && n !in marked
    ensures |marked| < |g|
  {
    var fewer := Below(|g|) - {n};
    assert marked <= fewer;
    SubsetSize(marked, fewer);
  }

  function Below(n: nat): (r: set<nat>)
    ensures |r| == n && forall i: nat :: i in r <==> i < n
  {
    if n == 0 then {} else Below(n - 1) + {n - 1}
  }

  lemma {:induction false} SubsetSize<T>(a: set<T>, b: set<T>)
    requires a <= b
    ensures |a| <= |b|
  {
    if a != {} {
      var x :| x in a;
      SubsetSize(a - {x}, b - {x});
    }
  }

  /** The nodes whose CYCLE flag is set. */
  class CycleCheck {
    const g: Graph
    var marked: set<nat>

    constructor (g: Graph)
      ensures this.g == g && marked == {}
    {
      this.g := g;
      marked := {};
    }

    /**
     `cyclechk`: a result of false is the error exit.  It is taken exactly when a
     cycle, or a node marked on the way here, can be reached; otherwise every mark is
     left as it was.
     */
    method Check(n: nat) returns (ok: bool)
      requires WellFormed(g) && n < |g| && forall m :: m in marked ==> m < |g|
      modifies this`marked
      ensures ok <==> !Cyclic(g, n, old(marked))
      ensures ok ==> marked == old(marked)
      decreases |g| - |marked|
    {
      hide IsPath;
      ghost var m0 := marked;
      if n in marked {
        assert Cyclic(g, n, marked) by {
          MarkedCycle(g, n, marked);
        }
        return false;
      }
      MarkedBound(g, marked, n);
      marked := marked + {n};
      for i := 0 to |g[n]|
        invariant marked == m0 + {n}
        invariant forall j :: 0 <= j < i && g[n][j].to.Some? ==> !Cyclic(g, g[n][j].to.value, m0 + {n})
      {
        if g[n][i].to.Some? {
          var child := g[n][i].to.value;
          assert Edge(g, n, child);
          var good := Check(child);
          if !good {
            CyclicStep(g, n, child, m0);
            return false;
          }
        }
      }
      marked := marked - {n};
      assert marked == m0;
      AllChildrenFree(g, n, m0);
      ok := true;
    }
  }

  lemma AllChildrenFree(g: Graph, n: nat, marked: set<nat>)
    requires n < |g| && n !in marked
    requires forall j :: 0 <= j < |g[n]| && g[n][j].to.Some? ==> !Cyclic(g, g[n][j].to.value, marked + {n})
    ensures !Cyclic(g, n, marked)
  {
    if Cyclic(g, n, marked) {
      var _ := CyclicUnstep(g, n, marked);
    }
  }

  lemma MarkedCycle(g: Graph, n: nat, marked: set<nat>)
    requires n < |g| && n in marked
    ensures Cyclic(g, n, marked)
  {
    assert IsPathFrom(g, n, [n]) && Returns([n], marked);
  }

  /******* Heights *******/

  /** Every arc out of a node that the root reaches leads to a node of smaller rank. */
  ghost predicate Ranked(g: Graph, root: nat, rank: seq<nat>) {
    && |rank| == |g|
    && forall a: nat, b: nat :: Reaches(g, root, a) && Edge(g, a, b) && b < |g| ==> rank[b] < rank[a]
  }

  /** The greatest of the heights of the first k children, plus one. */
  ghost function Heights(g: Graph, n: nat, marked: set<nat>, k: nat): nat
    requires WellFormed(g) && n < |g| && (forall m :: m in marked ==> m < |g|)
    requires !Cyclic(g, n, marked) && k <= |g[n]|
    decreases |g| - |marked|, k
  {
    if k == 0 then 0
    else
      var before := Heights(g, n, marked, k - 1);
      if g[n][k - 1].to.None? then before
      else
        var child := g[n][k - 1].to.value;
        var h := 1 + (ChildFree(g, n, child, marked); Height(g, child, marked + {n}));
        if h > before then h else before
  }

  ghost function Height(g: Graph, n: nat, marked: set<nat>): nat
    requires WellFormed(g) && n < |g| && (forall m :: m in marked ==> m < |g|)
    requires !Cyclic(g, n, marked)
    decreases |g| - |marked|, |g[n]| + 1
  {
    Heights(g, n, marked, |g[n]|)
  }

  lemma ChildFree(g: Graph, n: nat, child: nat, marked: set<nat>)
    requires WellFormed(g) && n < |g| && (forall m :: m in marked ==> m < |g|)
    requires !Cyclic(g, n, marked) && Edge(g, n, child)
    ensures child < |g| && !Cyclic(g, child, marked + {n})
    ensures n !in marked && |marked + {n}| <= |g| && |marked| < |marked + {n}|
  {
    if Cyclic(g, child, marked + {n}) {
      CyclicStep(g, n, child, marked);
    }
    if n in marked {
      MarkedCycle(g, n, marked);
    }
    MarkedBound(g, marked, n);
  }

  /** The height of a node does not depend on the way it was reached. */
  lemma {:induction false} HeightsSame(g: Graph, n: nat, m1: set<nat>, m2: set<nat>, k: nat)
    requires WellFormed(g) && n < |g| && (forall m :: m in m1 ==> m < |g|) && (forall m :: m in m2 ==> m < |g|)
    requires !Cyclic(g, n, m1) && !Cyclic(g, n, m2) && k <= |g[n]|
    ensures Heights(g, n, m1, k) == Heights(g, n, m2, k)
    decreases |g| - |m1|, k
  {
    hide Cyclic;
    hide WellFormed;
    if k > 0 {
      HeightsSame(g, n, m1, m2, k - 1);
      if g[n][k - 1].to.Some? {
        var child := g[n][k - 1].to.value;
        assert Edge(g, n, child);
        ChildFree(g, n, child, m1);
        ChildFree(g, n, child, m2);
        HeightsSame(g, child, m1 + {n}, m2 + {n}, |g[child]|);
      }
    }
  }

  lemma {:induction false} HeightsGrow(g: Graph, n: nat, marked: set<nat>, k: nat, i: nat)
    requires WellFormed(g) && n < |g| && (forall m :: m in marked ==> m < |g|)
    requires !Cyclic(g, n, marked) && i < k <= |g[n]| && g[n][i].to.Some?
    ensures Edge(g, n, g[n][i].to.value)
    ensures (ChildFree(g, n, g[n][i].to.value, marked);
             Heights(g, n, marked, k) > Height(g, g[n][i].to.value, marked + {n}))
    decreases k
  {
    hide Cyclic;
    assert Edge(g, n, g[n][i].to.value);
    ChildFree(g, n, g[n][i].to.value, marked);
    if i < k - 1 {
      HeightsGrow(g, n, marked, k - 1, i);
    }
  }

  lemma {:induction false} ReachableFree(g: Graph, root: nat, p: seq<nat>, n: nat)
    requires WellFormed(g) && !Cyclic(g, root, {})
    requires IsPathFrom(g, root, p) && p[|p| - 1] == n
    ensures !Cyclic(g, n, {})
    decreases |p|
  {
    if |p| > 1 {
      var q := p[..|p| - 1];
      var m := q[|q| - 1];
      assert forall i :: 0 <= i < |q| - 1 ==> Edge(g, p[i], p[i + 1]) ==> Edge(g, q[i], q[i + 1]);
      ReachableFree(g, root, q, m);
      if Cyclic(g, n, {}) {
        CyclicMore(g, n, {}, {} + {m});
        assert Edge(g, p[|p| - 2], p[|p| - 1]);
        CyclicStep(g, m, n, {});
      }
    }
  }

  /** A graph that passes the check has ranks: prerequisites come before their targets. */
  lemma RankExists(g: Graph, root: nat) returns (rank: seq<nat>)
    requires WellFormed(g) && root < |g| && !Cyclic(g, root, {})
    ensures Ranked(g, root, rank)
  {
    rank := seq(|g|, n requires 0 <= n < |g| => if Cyclic(g, n, {}) then 0 else Height(g, n, {}));
    forall a: nat, b: nat | Reaches(g, root, a) && Edge(g, a, b) && b < |g| ensures rank[b] < rank[a] {
      var p :| IsPathFrom(g, root, p) && p[|p| - 1] == a;
      ReachableFree(g, root, p, a);
      ChildFree(g, a, b, {});
      var i :| 0 <= i < |g[a]| && g[a][i].to == Some(b);
      HeightsGrow(g, a, {}, |g[a]|, i);
      if Cyclic(g, b, {}) {
        CyclicMore(g, b, {}, {} + {a});
      }
      HeightsSame(g, b, {} + {a}, {}, |g[b]|);
    }
  }
}
