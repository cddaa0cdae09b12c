/**
 The arcs of a node, told from the rules alone (mk/graph.c, `applyrules`): which rules are used
 for a name, in which order, and an arc for every prerequisite of each.
 */
module MkArcs {
  import opened Wrappers
  import opened MkGraph
  import opened MkRules
  import opened MkGrapher
  import opened MkAmbiguous
  import opened MkFront

  /** The name of the prerequisite: as written, or with the stem in it and cut to fit the buffer. */
  predicate NamedBy(to: Option<string>, text: string, stem: Option<string>) {
    && to.Some?
    && (stem.None? ==> to.value == text)
    && (stem.Some? ==>
          var s := Subst(stem.value, text);
          to.value <= s && |to.value| == if |s| < NAMEBLOCK then |s| else NAMEBLOCK - 1)
  }

  /** The rule says what it does to nothing: it has no recipe and no prerequisite. */
  predicate SaysNothing(d: RuleDef) {
    d.rule.recipe.text == "" && (d.prereqs == [] || d.prereqs[0] == "")
  }

  /** One use of a rule: an arc for each prerequisite, in the order of the rule; or one to nothing. */
  predicate IsUse(arcs: seq<Label>, d: RuleDef, stem: Option<string>) {
    && (forall i :: 0 <= i < |arcs| ==> arcs[i].rule == d.rule && arcs[i].stem == if stem.Some? then stem.value else "")
    && if d.prereqs == [] || d.prereqs[0] == "" then |arcs| == 1 && arcs[0].to == None
       else |arcs| == |d.prereqs| && forall i :: 0 <= i < |arcs| ==> NamedBy(arcs[i].to, d.prereqs[i], stem)
  }

  lemma UseIs(d: RuleDef, stem: Option<string>)
    ensures IsUse(RuleLabels(d, stem), d, stem)
  {
    hide Subst;
  }

  function Flat(parts: seq<seq<Label>>): seq<Label> {
    if parts == [] then [] else parts[0] + Flat(parts[1..])
  }

  /** The arcs that come from a rule with the name as its target. */
  predicate PlainPart(part: seq<Label>, d: RuleDef, cnt: seq<int>, nreps: int) {
    if SaysNothing(d) || !(d.id < |cnt| && cnt[d.id] < nreps) then part == [] else IsUse(part, d, None)
  }

  /** The arcs that come from a pattern rule, after those there are. */
  predicate PatternPart(
    part: seq<Label>, before: seq<Label>, name: string, d: RuleDef, cnt: seq<int>, nreps: int)
  {
    var stem := MatchStem(name, d.rule.target);
    if SaysNothing(d) || stem.None? || !(d.id < |cnt| && cnt[d.id] < nreps)
       || (d.novirt && before != [] && before[|before| - 1].rule.vir)
    then part == []
    else IsUse(part, d, stem)
  }

  lemma {:induction false} PlainParts(ds: seq<RuleDef>, cnt: seq<int>, nreps: int, before: seq<Label>)
    returns (parts: seq<seq<Label>>)
    ensures |parts| == |ds| && forall i :: 0 <= i < |ds| ==> PlainPart(parts[i], ds[i], cnt, nreps)
    ensures PlainLabels(ds, cnt, nreps, before) == before + Flat(parts)
    decreases ds
  {
    hide IsUse;
    hide RuleLabels;
    if ds == [] {
      parts := [];
    } else {
      var d := ds[0];
      UseIs(d, None);
      var part := if NoEffect(d) || !Allowed(d, cnt, nreps) then [] else RuleLabels(d, None);
      var rest := PlainParts(ds[1..], cnt, nreps, before + part);
      parts := [part] + rest;
      assert parts[1..] == rest;
      assert before + part == if NoEffect(d) || !Allowed(d, cnt, nreps) then before else before + RuleLabels(d, None);
      forall i | 0 <= i < |ds| ensures PlainPart(parts[i], ds[i], cnt, nreps) {
        assert i > 0 ==> parts[i] == rest[i - 1] && ds[i] == ds[1..][i - 1];
      }
      assert before + part + Flat(rest) == before + Flat(parts);
    }
  }

  /** What one pattern rule adds. */
  lemma PatternStep(name: string, ds: seq<RuleDef>, cnt: seq<int>, nreps: int, before: seq<Label>)
    returns (part: seq<Label>)
    requires ds != []
    ensures PatternPart(part, before, name, ds[0], cnt, nreps)
    ensures MetaLabels(name, ds, cnt, nreps, before) == MetaLabels(name, ds[1..], cnt, nreps, before + part)
  {
    hide IsUse;
    hide RuleLabels;
    hide MatchStem;
    var d, stem := ds[0], MatchStem(name, ds[0].rule.target);
    UseIs(d, stem);
    var skip := NoEffect(d) || NotVirtual(d, before) || stem.None? || !Allowed(d, cnt, nreps);
    part := if skip then [] else RuleLabels(d, stem);
    assert before + part == if skip then before else before + RuleLabels(d, stem);
  }

  lemma {:induction false} PatternParts(
      name: string, ds: seq<RuleDef>, cnt: seq<int>, nreps: int, before: seq<Label>)
    returns (parts: seq<seq<Label>>)
    ensures |parts| == |ds|
    ensures forall i :: 0 <= i < |ds| ==> PatternPart(parts[i], before + Flat(parts[..i]), name, ds[i], cnt, nreps)
    ensures MetaLabels(name, ds, cnt, nreps, before) == before + Flat(parts)
    decreases ds
  {
    hide PatternPart;
    if ds == [] {
      parts := [];
    } else {
      var part := PatternStep(name, ds, cnt, nreps, before);
      var rest := PatternParts(name, ds[1..], cnt, nreps, before + part);
      parts := [part] + rest;
      assert parts[1..] == rest;
      assert before + Flat(parts[..0]) == before;
      forall i | 0 <= i < |ds| ensures PatternPart(parts[i], before + Flat(parts[..i]), name, ds[i], cnt, nreps) {
        if i > 0 {
          assert parts[..i] == [part] + rest[..i - 1] && parts[..i][1..] == rest[..i - 1];
          assert before + Flat(parts[..i]) == before + part + Flat(rest[..i - 1]);
          assert parts[i] == rest[i - 1] && ds[i] == ds[1..][i - 1];
        }
      }
      assert before + part + Flat(rest) == before + Flat(parts);
    }
  }

  /** The rules with the name as their target, in their order, then the pattern rules in theirs. */
  lemma ArcsOfRules(rs: Rules, name: string, cnt: seq<int>, nreps: int)
    returns (plain: seq<seq<Label>>, patterns: seq<seq<Label>>)
    ensures var chain := if name in rs.targets then rs.targets[name] else [];
            && |plain| == |chain| && forall i :: 0 <= i < |chain| ==> PlainPart(plain[i], chain[i], cnt, nreps)
    ensures |patterns| == |rs.metarules|
    ensures forall i :: 0 <= i < |patterns| ==>
              PatternPart(patterns[i], Flat(plain) + Flat(patterns[..i]), name, rs.metarules[i], cnt, nreps)
    ensures NodeLabels(rs, name, cnt, nreps) == Flat(plain) + Flat(patterns)
  {
    hide PlainPart;
    hide PatternPart;
    plain := PlainParts(Chain(rs, name), cnt, nreps, []);
    var labels := PlainLabels(Chain(rs, name), cnt, nreps, []);
    assert labels == Flat(plain);
    patterns := PatternParts(name, rs.metarules, cnt, nreps, labels);
  }

  /** A node of the built graph leads to nodes with exactly the names that its rules give. */
  lemma ArcsOfNode(
      rules: Rules, nreps: int, names: seq<string>, born: seq<seq<int>>, built: Graph, n: nat, i: nat)
    requires IsBuilt(rules, nreps, names, born, built) && n < |built| && i < |built[n]|
    ensures var labels := NodeLabels(rules, names[n], born[n], nreps);
            && |labels| == |built[n]| && built[n][i].rule == labels[i].rule && built[n][i].stem == labels[i].stem
            && (labels[i].to.None? <==> built[n][i].to.None?)
            && (built[n][i].to.Some? ==>
                  built[n][i].to.value < |names| && labels[i].to == Some(names[built[n][i].to.value]))
  {
    hide NodeLabels;
    var labels := LabelsOf(names, built[n]);
    assert labels[i] == LabelOf(names, built[n][i]);
  }

  /** A target with one plain rule, and no pattern rule that could match, has an arc to each prerequisite. */
  lemma OnePlainRule(
      rules: Rules, nreps: int, names: seq<string>, born: seq<seq<int>>, built: Graph, n: nat, d: RuleDef, i: nat)
    requires IsBuilt(rules, nreps, names, born, built) && n < |built| && rules.metarules == []
    requires names[n] in rules.targets && rules.targets[names[n]] == [d]
    requires d.id < |born[n]| && born[n][d.id] < nreps && d.prereqs != [] && d.prereqs[0] != "" && i < |d.prereqs|
    ensures |built[n]| == |d.prereqs|
    ensures built[n][i].to.Some? && built[n][i].to.value < |names| && names[built[n][i].to.value] == d.prereqs[i]
  {
    hide NodeLabels;
    var plain, patterns := ArcsOfRules(rules, names[n], born[n], nreps);
    assert plain == [plain[0]] && plain[1..] == [] && patterns == [];
    assert Flat(plain) + Flat(patterns) == plain[0];
    assert PlainPart(plain[0], d, born[n], nreps);
    SameSize(rules, nreps, names, born, built, n);
    assert |plain[0]| == |d.prereqs| && NamedBy(plain[0][i].to, d.prereqs[i], None);
    ArcsOfNode(rules, nreps, names, born, built, n, i);
  }

  lemma SameSize(rules: Rules, nreps: int, names: seq<string>, born: seq<seq<int>>, built: Graph, n: nat)
    requires IsBuilt(rules, nreps, names, born, built) && n < |built|
    ensures |built[n]| == |NodeLabels(rules, names[n], born[n], nreps)|
  {
    hide NodeLabels;
    assert |LabelsOf(names, built[n])| == |built[n]|;
  }

  /******* What is kept *******/

  /** What is left of a list is in the order it was in: the last element is kept or not, and
      comes last. */
  lemma KeepLast(arcs: seq<Arc>, remove: seq<bool>, a: Arc, gone: bool)
    requires |remove| == |arcs|
    ensures Keep(arcs + [a], remove + [gone]) == Keep(arcs, remove) + if gone then [] else [a]
    ensures Keep([], []) == []
  {
    assert (arcs + [a])[..|arcs|] == arcs && (remove + [gone])[..|arcs|] == remove;
  }
}
