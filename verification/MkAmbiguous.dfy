/**
 One recipe per node (mk/graph.c, `ambiguous` and `togo`).
 */
module MkAmbiguous {
  import opened Wrappers
  import opened MkGraph
  import opened MkRules

  function RuleList(arcs: seq<Arc>): (rules: seq<Rule>)
    ensures |rules| == |arcs|
  {
    seq(|arcs|, i requires 0 <= i < |arcs| => arcs[i].rule)
  }

  /** The arcs that are not marked. */
  function Keep(arcs: seq<Arc>, remove: seq<bool>): seq<Arc>
    requires |remove| == |arcs|
    decreases arcs
  {
    if arcs == [] then []
    else Keep(arcs[..|arcs| - 1], remove[..|arcs| - 1]) + if remove[|arcs| - 1] then [] else [arcs[|arcs| - 1]]
  }

  /** `togo`: take the marked arcs out of the list. */
  method Togo(arcs0: seq<Arc>, remove0: seq<bool>) returns (arcs: seq<Arc>)
    requires |remove0| == |arcs0|
    ensures arcs == Keep(arcs0, remove0)
  {
    arcs := arcs0;
    var i, n := 0, 0;
    while i < |arcs|
      invariant i <= |arcs| && n <= |arcs0| && |arcs| - i == |arcs0| - n
      invariant arcs[..i] == Keep(arcs0[..n], remove0[..n])
      invariant arcs[i..] == arcs0[n..]
      decreases |arcs| - i
    {
      assert arcs[i] == arcs0[n] && arcs[i + 1..] == arcs0[n + 1..];
      assert arcs0[..n + 1][..n] == arcs0[..n] && remove0[..n + 1][..n] == remove0[..n];
      if remove0[n] {
        arcs := arcs[..i] + arcs[i + 1..];
      } else {
        assert arcs[..i + 1] == arcs[..i] + [arcs[i]];
        i := i + 1;
      }
      n := n + 1;
    }
    assert arcs[..i] == arcs;
    assert arcs0[..n] == arcs0 && remove0[..n] == remove0;
  }

  /******* The arcs of one node *******/

  /** The master arc so far, the marks, and whether an ambiguity was reported. */
  datatype Verdict = Verdict(master: Option<nat>, remove: seq<bool>, error: bool)

  predicate GoodVerdict(v: Verdict, n: nat) {
    |v.remove| == n && (v.master.Some? ==> v.master.value < n)
  }

  /** The next arc is looked at. */
  function Weigh(rules: seq<Rule>, v: Verdict): (v': Verdict)
    requires rules != [] && GoodVerdict(v, |rules| - 1)
    ensures GoodVerdict(v', |rules|)
  {
    var i := |rules| - 1;
    var a := rules[i];
    if !HasRecipe(a) then v.(remove := v.remove + [false])
    else if v.master.None? then v.(master := Some(i), remove := v.remove + [false])
    else
      var k := v.master.value;
      if rules[k].recipe == a.recipe then v.(remove := v.remove + [false])
      else if rules[k].meta && !a.meta then v.(master := Some(i), remove := v.remove[k := true] + [false])
      else if !rules[k].meta && a.meta then v.(remove := v.remove + [true])
      else v.(remove := v.remove + [false], error := true)
  }

  function Judge(rules: seq<Rule>): (v: Verdict)
    ensures GoodVerdict(v, |rules|)
  {
    if rules == [] then Verdict(None, [], false) else Weigh(rules, Judge(rules[..|rules| - 1]))
  }

  /** k is the first arc with a recipe. */
  predicate IsFirst(rules: seq<Rule>, k: nat) {
    k < |rules| && HasRecipe(rules[k]) && forall i :: 0 <= i < k ==> !HasRecipe(rules[i])
  }

  lemma FirstIsFirst(rules: seq<Rule>, k: nat, i: nat)
    requires IsFirst(rules, k) && i < |rules| && HasRecipe(rules[i])
    ensures k <= i
  {}

  /** A meta rule gives way to a plain one with another recipe. */
  predicate GivesWay(rules: seq<Rule>, k: nat, i: nat)
    requires k < |rules| && i < |rules|
  {
    HasRecipe(rules[i]) && rules[i].recipe != rules[k].recipe && !rules[k].meta && rules[i].meta
  }

  /** Another recipe that neither gives way nor may replace the first. */
  predicate Conflicts(rules: seq<Rule>, k: nat, i: nat)
    requires k < |rules| && i < |rules|
  {
    HasRecipe(rules[i]) && rules[i].recipe != rules[k].recipe && rules[i].meta == rules[k].meta
  }

  predicate SomeConflict(rules: seq<Rule>, k: nat)
    requires k < |rules|
  {
    exists i :: 0 <= i < |rules| && Conflicts(rules, k, i)
  }

  /** The master arc is the first with a recipe; the meta rules with other recipes give way
      to it, and nothing else; an error is a conflict with it. */
  predicate Fair(rules: seq<Rule>, v: Verdict) {
    && GoodVerdict(v, |rules|)
    && (v.master.None? ==> !v.error && forall i :: 0 <= i < |rules| ==> !HasRecipe(rules[i]) && !v.remove[i])
    && (v.master.Some? ==>
      var k := v.master.value;
      && IsFirst(rules, k)
      && (forall i :: 0 <= i < |rules| ==> (v.remove[i] <==> GivesWay(rules, k, i)))
      && (v.error <==> SomeConflict(rules, k)))
  }

  lemma WeighFair(rules: seq<Rule>, v: Verdict)
    requires rules != [] && PlainFirst(rules) && Fair(rules[..|rules| - 1], v)
    ensures Fair(rules, Weigh(rules, v))
  {
    var i := |rules| - 1;
    var front, v' := rules[..i], Weigh(rules, v);
    if v.master.Some? {
      var k := v.master.value;
      assert rules[k].meta ==> rules[i].meta;
      assert v'.master == v.master;
      assert forall j :: 0 <= j < i ==> (Conflicts(rules, k, j) <==> Conflicts(front, k, j));
      forall j | 0 <= j <= i ensures v'.remove[j] <==> GivesWay(rules, k, j) {
        assert j < i ==> (GivesWay(rules, k, j) <==> GivesWay(front, k, j));
      }
      assert SomeConflict(rules, k) <==> SomeConflict(front, k) || Conflicts(rules, k, i);
    } else {
      if HasRecipe(rules[i]) {
        assert IsFirst(rules, i);
      }
    }
  }

  /** If plain rules come first, the verdict is the fair one. */
  lemma {:induction false} JudgeFirst(rules: seq<Rule>)
    requires PlainFirst(rules)
    ensures Fair(rules, Judge(rules))
    decreases |rules|
  {
    hide Fair;
    hide Weigh;
    if rules == [] {
      FairNothing();
    } else {
      JudgeFirst(rules[..|rules| - 1]);
      WeighFair(rules, Judge(rules[..|rules| - 1]));
    }
  }

  lemma FairNothing()
    ensures Fair([], Verdict(None, [], false))
  {}

  /**
   If not, the claim fails: of two meta arcs with one recipe only the first gives way to
   a plain arc, so two recipes are left.  Only the chain of a name that is also the text
   of a regular expression rule could have such an order.
   */
  lemma MetaFirstFails(a: Recipe, b: Recipe)
    requires a.text != "" && b.text != "" && a != b
    ensures var m, p := Rule("", a, true, false, false), Rule("", b, false, false, false);
            Judge([m, m, p]) == Verdict(Some(2), [true, false, false], false)
  {
    var m, p := Rule("", a, true, false, false), Rule("", b, false, false, false);
    assert [m, m, p][..2] == [m, m] && [m, m][..1] == [m] && [m][..0] == [];
    assert Judge([m]) == Verdict(Some(0), [false], false);
    assert Judge([m, m]) == Verdict(Some(0), [false, false], false);
  }

  /** All arcs with a recipe share one. */
  predicate OneRecipe(arcs: seq<Arc>) {
    forall i, j :: 0 <= i < j < |arcs| && HasRecipe(arcs[i].rule) && HasRecipe(arcs[j].rule) ==>
                     arcs[i].rule.recipe == arcs[j].rule.recipe
  }

  predicate IsAmbiguous(arcs: seq<Arc>) {
    Judge(RuleList(arcs)).error
  }

  /** The first recipe and some other, of which neither gives way. */
  predicate TwoRecipes(arcs: seq<Arc>) {
    exists k, i :: 0 <= k < |arcs| && 0 <= i < |arcs| && IsFirst(RuleList(arcs), k) && Conflicts(RuleList(arcs), k, i)
  }

  /** The verdict is an error exactly then. */
  lemma AmbiguousIs(arcs: seq<Arc>)
    requires PlainFirst(RuleList(arcs))
    ensures IsAmbiguous(arcs) <==> TwoRecipes(arcs)
  {
    hide Judge;
    var rules := RuleList(arcs);
    JudgeFirst(rules);
    if TwoRecipes(arcs) {
      var k, i :| 0 <= k < |arcs| && 0 <= i < |arcs| && IsFirst(rules, k) && Conflicts(rules, k, i);
      var master := Judge(rules).master.value;
      FirstIsFirst(rules, master, k);
      FirstIsFirst(rules, k, master);
    }
  }

  function Kept(arcs: seq<Arc>): seq<Arc> {
    Keep(arcs, Judge(RuleList(arcs)).remove)
  }

  /** An arc is kept exactly if some position that holds it is not marked. */
  lemma {:induction false} InKeep(arcs: seq<Arc>, remove: seq<bool>, a: Arc)
    requires |remove| == |arcs|
    ensures a in Keep(arcs, remove) <==> exists i :: 0 <= i < |arcs| && arcs[i] == a && !remove[i]
    decreases arcs
  {
    if arcs != [] {
      var n := |arcs| - 1;
      InKeep(arcs[..n], remove[..n], a);
      if i :| 0 <= i < |arcs| && arcs[i] == a && !remove[i] && i < n {
        assert arcs[..n][i] == a && !remove[..n][i];
      }
    }
  }

  /** What is kept of a list in which plain rules come first is such a list. */
  lemma {:induction false} KeepPlainFirst(arcs: seq<Arc>, remove: seq<bool>)
    requires |remove| == |arcs| && PlainFirst(RuleList(arcs))
    ensures PlainFirst(RuleList(Keep(arcs, remove)))
    decreases arcs
  {
    if arcs != [] {
      var n := |arcs| - 1;
      assert RuleList(arcs[..n]) == RuleList(arcs)[..n];
      KeepPlainFirst(arcs[..n], remove[..n]);
      if !remove[n] {
        var front := Keep(arcs[..n], remove[..n]);
        assert RuleList(front + [arcs[n]]) == RuleList(front) + [arcs[n].rule];
        forall i | 0 <= i < |front| && front[i].rule.meta ensures arcs[n].rule.meta {
          assert front[i] in front;
          InKeep(arcs[..n], remove[..n], front[i]);
          var j :| 0 <= j < n && arcs[..n][j] == front[i];
          assert RuleList(arcs)[j] == arcs[j].rule && RuleList(arcs)[n] == arcs[n].rule;
        }
        var after := RuleList(front + [arcs[n]]);
        assert Keep(arcs, remove) == front + [arcs[n]];
        forall i, j | 0 <= i < j < |after| && after[i].meta ensures after[j].meta {
          assert after[i] == front[i].rule == RuleList(front)[i];
          assert j < |front| ==> after[j] == RuleList(front)[j];
        }
        assert PlainFirst(after);
      } else {
        assert Keep(arcs, remove) == Keep(arcs[..n], remove[..n]);
      }
    }
  }

  lemma {:induction false} KeepAll(arcs: seq<Arc>, remove: seq<bool>)
    requires |remove| == |arcs| && forall i :: 0 <= i < |remove| ==> !remove[i]
    ensures Keep(arcs, remove) == arcs
    decreases arcs
  {
    if arcs != [] {
      var n := |arcs| - 1;
      KeepAll(arcs[..n], remove[..n]);
      assert arcs == arcs[..n] + [arcs[n]];
    }
  }

  /** If a node passes, one recipe is left: that of the first arc that has one. */
  lemma KeptOneRecipe(arcs: seq<Arc>)
    requires PlainFirst(RuleList(arcs)) && !IsAmbiguous(arcs)
    ensures OneRecipe(Kept(arcs)) && PlainFirst(RuleList(Kept(arcs)))
    ensures forall i, k: nat :: 0 <= i < |Kept(arcs)| && HasRecipe(Kept(arcs)[i].rule) && IsFirst(RuleList(arcs), k) ==>
              Kept(arcs)[i].rule.recipe == arcs[k].rule.recipe
  {
    var rules := RuleList(arcs);
    var v := Judge(rules);
    JudgeFirst(rules);
    KeepPlainFirst(arcs, v.remove);
    hide Judge;
    hide Keep;
    forall i, k: nat | 0 <= i < |Kept(arcs)| && HasRecipe(Kept(arcs)[i].rule) && IsFirst(rules, k)
      ensures Kept(arcs)[i].rule.recipe == arcs[k].rule.recipe
    {
      KeptRecipe(arcs, Kept(arcs)[i], k);
    }
    forall i, j | 0 <= i < j < |Kept(arcs)| && HasRecipe(Kept(arcs)[i].rule) && HasRecipe(Kept(arcs)[j].rule)
      ensures Kept(arcs)[i].rule.recipe == Kept(arcs)[j].rule.recipe
    {
      var k := KeptMaster(arcs, Kept(arcs)[i]);
      KeptRecipe(arcs, Kept(arcs)[i], k);
      KeptRecipe(arcs, Kept(arcs)[j], k);
    }
  }

  lemma KeptMaster(arcs: seq<Arc>, a: Arc) returns (k: nat)
    requires PlainFirst(RuleList(arcs)) && !IsAmbiguous(arcs) && a in Kept(arcs) && HasRecipe(a.rule)
    ensures IsFirst(RuleList(arcs), k)
  {
    var rules := RuleList(arcs);
    JudgeFirst(rules);
    hide Judge;
    InKeep(arcs, Judge(rules).remove, a);
    var i :| 0 <= i < |arcs| && arcs[i] == a;
    assert rules[i] == a.rule;
    k := Judge(rules).master.value;
  }

  lemma KeptRecipe(arcs: seq<Arc>, a: Arc, k: nat)
    requires PlainFirst(RuleList(arcs)) && !IsAmbiguous(arcs) && a in Kept(arcs) && HasRecipe(a.rule)
    requires IsFirst(RuleList(arcs), k)
    ensures a.rule.recipe == arcs[k].rule.recipe
  {
    hide Judge;
    hide Keep;
    var rules := RuleList(arcs);
    var v := Judge(rules);
    JudgeFirst(rules);
    InKeep(arcs, v.remove, a);
    var i :| 0 <= i < |arcs| && arcs[i] == a && !v.remove[i];
    assert rules[i] == a.rule;
    assert !GivesWay(rules, k, i) && !Conflicts(rules, k, i);
    FirstIsFirst(rules, k, i);
    assert k < i && rules[k].meta ==> rules[i].meta;
  }

  /** A node that has passed passes again, and nothing more is removed. */
  lemma KeptStays(arcs: seq<Arc>)
    requires PlainFirst(RuleList(arcs)) && OneRecipe(arcs)
    ensures !IsAmbiguous(arcs) && Kept(arcs) == arcs
  {
    var rules := RuleList(arcs);
    var v := Judge(rules);
    JudgeFirst(rules);
    hide Judge;
    assert forall i, j :: 0 <= i < |arcs| && 0 <= j < |arcs| && HasRecipe(rules[i]) && HasRecipe(rules[j]) ==>
                            rules[i].recipe == rules[j].recipe;
    if v.master.Some? {
      var k := v.master.value;
      assert forall i :: 0 <= i < |rules| ==> !GivesWay(rules, k, i) && !Conflicts(rules, k, i);
    }
    KeepAll(arcs, v.remove);
  }

  /** `dorecipe` runs the recipe of the last arc that has one: it is that of the first. */
  lemma LastIsFirst(arcs: seq<Arc>, first: nat)
    requires OneRecipe(arcs) && IsFirst(RuleList(arcs), first)
    ensures LastRecipe(arcs) == arcs[first].rule.recipe
  {
    assert RuleList(arcs)[first] == arcs[first].rule;
    var last := LastIndex(arcs, first);
    FirstIsFirst(RuleList(arcs), first, last);
  }

  lemma {:induction false} LastIndex(arcs: seq<Arc>, i: nat) returns (last: nat)
    requires i < |arcs| && HasRecipe(arcs[i].rule)
    ensures last < |arcs| && HasRecipe(arcs[last].rule) && LastRecipe(arcs) == arcs[last].rule.recipe
    decreases |arcs|
  {
    if HasRecipe(arcs[|arcs| - 1].rule) {
      last := |arcs| - 1;
    } else {
      last := LastIndex(arcs[..|arcs| - 1], i);
    }
  }
}
