/**
 A rule that applies to all it gives (mk/graph.c, `applyrules`): how many nodes are made
 before the guard, or the size of a name buffer, puts an end to it.
 */
module MkEndless {
  import opened Wrappers
  import opened MkGraph
  import opened MkRules
  import opened MkGrapher

  /** The rule %: %.x. */
  function EndlessRule(recipe: Recipe): RuleDef {
    RuleDef(0, ["%.x"], false, Rule("%", recipe, true, false, false))
  }

  function Endless(recipe: Recipe): Rules {
    Rules(map["%" := [EndlessRule(recipe)]], [EndlessRule(recipe)], 1)
  }

  /** The prerequisite that the rule gives for a name. */
  function Next(name: string): string {
    Cut(name + ".x")
  }

  function Walk(target: string, k: nat): string {
    if k == 0 then target else Next(Walk(target, k - 1))
  }

  /** How often the name changes: it grows by two characters until the buffer is full. */
  function Changes(target: string): nat {
    if |target| >= NAMEBLOCK then 1 else (NAMEBLOCK - |target|) / 2
  }

  /** A counter after k uses. */
  function Byte(k: nat, top: int): (c: int)
    requires top in {127, 255}
    ensures IsByte(c, top) && c <= k && (k <= top ==> c == k)
  {
    if k == 0 then 0 else Inc(Byte(k - 1, top), top)
  }

  /******* Names *******/

  lemma {:induction false} WalkLength(target: string, k: nat)
    ensures |target| < NAMEBLOCK ==>
              |Walk(target, k)| == if |target| + 2 * k < NAMEBLOCK then |target| + 2 * k else NAMEBLOCK - 1
    ensures |target| >= NAMEBLOCK && k > 0 ==> |Walk(target, k)| == NAMEBLOCK - 1
  {
    if k > 0 {
      WalkLength(target, k - 1);
    }
  }

  /** Up to the last change names are all different, and then the last one stays. */
  lemma WalkChanges(target: string, i: nat, j: nat)
    requires i < j
    ensures j <= Changes(target) ==> Walk(target, i) != Walk(target, j)
    ensures Walk(target, Changes(target) + 1) == Walk(target, Changes(target))
  {
    WalkLength(target, i);
    WalkLength(target, j);
    var last := Changes(target);
    WalkLength(target, last);
    var name := Walk(target, last);
    assert |name| == NAMEBLOCK - 1;
    assert (name + ".x")[..NAMEBLOCK - 1] == name;
  }

  /******* What the rule gives *******/

  lemma MatchAll(name: string)
    ensures MatchStem(name, "%") == Some(name)
  {
    assert "%"[1..] == "" && name[|name|..] == "" && name[..|name|] == name;
  }

  lemma SubstAll(stem: string)
    ensures Subst(stem, "%.x") == stem + ".x"
  {
    assert "%.x"[1..] == ".x" && ".x"[1..] == "x" && "x"[1..] == "";
    assert Subst(stem, "x") == "x" && Subst(stem, ".x") == ".x";
  }

  lemma EndlessPrereqs(recipe: Recipe, name: string)
    ensures Prereqs(EndlessRule(recipe), None) == ["%.x"]
    ensures Prereqs(EndlessRule(recipe), Some(name)) == [Next(name)]
  {
    SubstAll(name);
    hide Subst;
    hide Cut;
  }

  lemma GivesNext(recipe: Recipe, nreps: int, name: string, cnt: seq<int>, d: RuleDef, to: string)
    requires Gives(Endless(recipe), nreps, name, cnt, d, to)
    ensures d == EndlessRule(recipe) && to == Next(name)
  {
    MatchAll(name);
    hide MatchStem;
    EndlessPrereqs(recipe, name);
    hide Prereqs;
  }

  lemma NextIsLabel(recipe: Recipe, nreps: int, name: string, cnt: seq<int>)
    requires |cnt| == 1 && cnt[0] < nreps
    ensures exists l :: l in NodeLabels(Endless(recipe), name, cnt, nreps) && l.to == Some(Next(name))
  {
    var rs, d := Endless(recipe), EndlessRule(recipe);
    MatchAll(name);
    hide MatchStem;
    EndlessPrereqs(recipe, name);
    hide Prereqs;
    hide Cut;
    var plain := PlainLabels(Chain(rs, name), cnt, nreps, []);
    hide PlainLabels;
    var label' := Label(Some(Next(name)), d.rule, name);
    assert RuleLabels(d, Some(name)) == [label'];
    assert rs.metarules[1..] == [];
    assert MetaLabels(name, rs.metarules, cnt, nreps, plain) == plain + [label'];
    assert label' in NodeLabels(rs, name, cnt, nreps);
  }

  /******* The nodes *******/

  /** What is known of the nodes once the target has been followed. */
  ghost predicate Made(
    recipe: Recipe, nreps: int, top: int, target: string, names: seq<string>, born: seq<seq<int>>)
  {
    && top in {127, 255} && |names| == |born| > 0 && names[0] == target && born[0] == [0]
    && AllFollowed(Endless(recipe), nreps, top, names, born, {0})
    && (forall i, j :: 0 <= i < j < |names| ==> names[i] != names[j])
  }

  /** Each node was followed from the one before it. */
  lemma {:induction false} NodeIs(
      recipe: Recipe, nreps: int, top: int, target: string, names: seq<string>, born: seq<seq<int>>, i: nat)
    requires Made(recipe, nreps, top, target, names, born) && i < |names|
    ensures names[i] == Walk(target, i) && born[i] == [Byte(i, top)]
    ensures i > 0 ==> Byte(i - 1, top) < nreps
  {
    hide Gives;
    if i > 0 {
      var rs := Endless(recipe);
      assert Followed(rs, nreps, top, names, born, {0}, i);
      var p: nat, d :| p < i && Follows(rs, nreps, top, names, born, p, d, names[i], born[i]);
      GivesNext(recipe, nreps, names[p], born[p], d, names[i]);
      NodeIs(recipe, nreps, top, target, names, born, p);
      GivesAllowed(rs, nreps, names[p], born[p], d, names[i]);
      assert names[i] == Walk(target, p + 1);
      if p + 1 < i {
        NodeIs(recipe, nreps, top, target, names, born, p + 1);
        assert false;
      }
    }
  }

  lemma GivesAllowed(rs: Rules, nreps: int, name: string, cnt: seq<int>, d: RuleDef, to: string)
    requires Gives(rs, nreps, name, cnt, d, to)
    ensures Allowed(d, cnt, nreps)
  {}

  /** The last node leads to a node, unless the guard stops it. */
  lemma LastLeads(
      recipe: Recipe, nreps: int, top: int, target: string, names: seq<string>, born: seq<seq<int>>, arcs: seq<Arc>)
    requires Made(recipe, nreps, top, target, names, born)
    requires InGraph(arcs, |names|)
    requires var last := |names| - 1;
             LabelsOf(names, arcs) == NodeLabels(Endless(recipe), names[last], born[last], nreps)
    ensures var last := |names| - 1; Byte(last, top) >= nreps || Walk(target, last + 1) in names
  {
    hide NodeLabels;
    var last := |names| - 1;
    NodeIs(recipe, nreps, top, target, names, born, last);
    if Byte(last, top) < nreps {
      NextIsLabel(recipe, nreps, names[last], born[last]);
      var l :| l in LabelsOf(names, arcs) && l.to == Some(Next(names[last]));
      var i :| 0 <= i < |arcs| && LabelOf(names, arcs[i]) == l;
      assert names[arcs[i].to.value] == Walk(target, last + 1);
    }
  }

  /** The nodes after the first: as many as the limit allows, if it fits a counter, but never
      more than the names that a buffer can tell apart. */
  function NodesAfter(nreps: int, top: int, target: string): nat
    requires 1 <= nreps
  {
    if nreps <= top && nreps < Changes(target) then nreps else Changes(target)
  }

  lemma CountIs(
      recipe: Recipe, nreps: int, top: int, target: string, names: seq<string>, born: seq<seq<int>>, arcs: seq<Arc>)
    requires Made(recipe, nreps, top, target, names, born) && 1 <= nreps
    requires InGraph(arcs, |names|)
    requires var last := |names| - 1;
             LabelsOf(names, arcs) == NodeLabels(Endless(recipe), names[last], born[last], nreps)
    ensures |names| == 1 + NodesAfter(nreps, top, target)
  {
    LastLeads(recipe, nreps, top, target, names, born, arcs);
    hide NodeLabels;
    hide LabelsOf;
    hide AllFollowed;
    hide Walk;
    var last, changes := |names| - 1, Changes(target);
    if last > changes {
      NodeIs(recipe, nreps, top, target, names, born, changes);
      NodeIs(recipe, nreps, top, target, names, born, changes + 1);
      WalkChanges(target, 0, 1);
      assert false;
    }
    if last > nreps && nreps <= top {
      NodeIs(recipe, nreps, top, target, names, born, nreps + 1);
      assert false;
    }
    if last < changes && Byte(last, top) < nreps {
      var i :| 0 <= i < |names| && names[i] == Walk(target, last + 1);
      NodeIs(recipe, nreps, top, target, names, born, i);
      WalkChanges(target, i, last + 1);
      assert false;
    }
  }

  /** The construction of the graph, for such a rule. */
  method EndlessGraph(recipe: Recipe, nreps: int, top: int, target: string) returns (g: Graph, names: seq<string>)
    requires 1 <= nreps && top in {127, 255}
    ensures |g| == |names| == 1 + NodesAfter(nreps, top, target)
    ensures forall i :: 0 <= i < |names| ==> names[i] == Walk(target, i)
  {
    hide Gives;
    hide NodeLabels;
    hide AllFollowed;
    assert GoodRules(Endless(recipe)) by {
      assert Percent("%"[0]);
    }
    hide GoodRules;
    var grapher := new Grapher(Endless(recipe), nreps, top);
    assert grapher.cnt[..] == [0];
    var n := grapher.Graph(target);
    g, names := grapher.g, grapher.names;
    assert grapher.roots == {0};
    var last := |names| - 1;
    assert grapher.Finished(last);
    CountIs(recipe, nreps, top, target, names, grapher.born, g[last]);
    forall i | 0 <= i < |names| ensures names[i] == Walk(target, i) {
      NodeIs(recipe, nreps, top, target, names, grapher.born, i);
    }
  }
}
