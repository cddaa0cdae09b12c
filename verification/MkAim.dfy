/**
 The target a job is for (mk/recipe.c, `dorecipe`): the stem of the master arc is put back
 into the target of its rule.  The result is not always the name of the node.
 */
module MkAim {
  import opened Wrappers
  import opened MkGraph
  import opened MkRules

  /** The size of the buffer for the target of a job. */
  const BIGBLOCK: nat := 20000

  /** The name of the target: `subst` fills the buffer, `strecpy` leaves one byte more. */
  function AimName(rule: Rule, stem: string): string {
    if rule.meta then
      var s := Subst(stem, rule.target);
      if |s| < BIGBLOCK then s else s[..BIGBLOCK - 1]
    else if |rule.target| < BIGBLOCK - 1 then rule.target
    else rule.target[..BIGBLOCK - 2]
  }

  /** The arc comes from a rule with the name as its target, or from a pattern rule that
      matches the name. */
  predicate ComesFrom(name: string, rule: Rule, stem: string) {
    && (rule.meta <==> !Patternless(rule.target))
    && ((stem == "" && rule.target == name) || (rule.meta && MatchStem(name, rule.target) == Some(stem)))
  }

  /******* Where arcs come from *******/

  predicate AllComeFrom(name: string, labels: seq<Label>) {
    forall i :: 0 <= i < |labels| ==> ComesFrom(name, labels[i].rule, labels[i].stem)
  }

  lemma {:induction false} PlainComeFrom(
      rs: Rules, name: string, ds: seq<RuleDef>, cnt: seq<int>, nreps: int, before: seq<Label>)
    requires AllComeFrom(name, before)
    requires forall i :: 0 <= i < |ds| ==> GoodRule(rs, ds[i]) && ds[i].rule.target == name
    ensures AllComeFrom(name, PlainLabels(ds, cnt, nreps, before))
    decreases ds
  {
    if ds != [] {
      var d := ds[0];
      PlainComeFrom(rs, name, ds[1..], cnt, nreps,
                    if NoEffect(d) || !Allowed(d, cnt, nreps) then before else before + RuleLabels(d, None));
    }
  }

  lemma {:induction false} MetaComeFrom(
      rs: Rules, name: string, ds: seq<RuleDef>, cnt: seq<int>, nreps: int, before: seq<Label>)
    requires AllComeFrom(name, before)
    requires forall i :: 0 <= i < |ds| ==> GoodRule(rs, ds[i]) && ds[i].rule.meta
    ensures AllComeFrom(name, MetaLabels(name, ds, cnt, nreps, before))
    decreases ds
  {
    if ds != [] {
      var d := ds[0];
      var stem := MatchStem(name, d.rule.target);
      hide MatchStem;
      MetaComeFrom(rs, name, ds[1..], cnt, nreps,
                   if NoEffect(d) || NotVirtual(d, before) || stem.None? || !Allowed(d, cnt, nreps) then before
                   else before + RuleLabels(d, stem));
    }
  }

  lemma LabelsComeFrom(rs: Rules, name: string, cnt: seq<int>, nreps: int)
    requires GoodRules(rs)
    ensures AllComeFrom(name, NodeLabels(rs, name, cnt, nreps))
  {
    PlainComeFrom(rs, name, Chain(rs, name), cnt, nreps, []);
    MetaComeFrom(rs, name, rs.metarules, cnt, nreps, PlainLabels(Chain(rs, name), cnt, nreps, []));
  }

  /******* When the target is the name *******/

  /** Putting the stem into the text changes nothing. */
  predicate SelfSame(stem: string, s: string) {
    Patternless(s) || (|stem| == 1 && forall i :: 0 <= i < |s| && Percent(s[i]) ==> s[i] == stem[0])
  }

  lemma {:induction false} SubstLength(stem: string, s: string)
    ensures |stem| == 0 ==> |Subst(stem, s)| <= |s| && (|Subst(stem, s)| == |s| ==> Patternless(s))
    ensures |stem| >= 1 ==> |Subst(stem, s)| >= |s|
    ensures |stem| >= 2 && |Subst(stem, s)| == |s| ==> Patternless(s)
  {
    if s != "" {
      SubstLength(stem, s[1..]);
      assert Patternless(s) <==> !Percent(s[0]) && Patternless(s[1..]) by {
        assert forall i :: 0 < i < |s| ==> s[i] == s[1..][i - 1];
      }
    }
  }

  lemma {:induction false} SubstOneCharacter(stem: string, s: string)
    requires |stem| == 1
    ensures |Subst(stem, s)| == |s|
    ensures forall i :: 0 <= i < |s| ==> Subst(stem, s)[i] == if Percent(s[i]) then stem[0] else s[i]
  {
    if s != "" {
      SubstOneCharacter(stem, s[1..]);
    }
  }

  lemma SubstFixed(stem: string, s: string)
    ensures Subst(stem, s) == s <==> SelfSame(stem, s)
  {
    hide Subst;
    SubstLength(stem, s);
    if Patternless(s) {
      SubstPlain(stem, s);
    } else if |stem| == 1 {
      SubstOneCharacter(stem, s);
    }
  }

  lemma SubstParts(stem: string, template: string, prefix: string)
    requires Patternless(prefix) && |prefix| < |template| && template[..|prefix|] == prefix
    requires Percent(template[|prefix|])
    ensures Subst(stem, template) == prefix + stem + Subst(stem, template[|prefix| + 1..])
  {
    hide Subst;
    var c, suffix := template[|prefix|], template[|prefix| + 1..];
    assert template == prefix + ([c] + suffix);
    SubstConcat(stem, prefix, [c] + suffix);
    SubstConcat(stem, [c], suffix);
    SubstOne(stem, c);
    SubstPlain(stem, prefix);
  }

  /** A pattern rule that matches aims back at the name exactly if the stem, put into what
      follows the first pattern character, changes nothing. */
  lemma AimOfMatch(name: string, rule: Rule, prefix: string, stem: string)
    requires rule.meta && IsStem(name, rule.target, prefix, stem)
    ensures |name| < BIGBLOCK - 1 ==>
              (AimName(rule, stem) == name <==> SelfSame(stem, rule.target[|prefix| + 1..]))
    ensures |name| >= BIGBLOCK ==> AimName(rule, stem) != name
  {
    hide Subst;
    var suffix := rule.target[|prefix| + 1..];
    SubstParts(stem, rule.target, prefix);
    SubstFixed(stem, suffix);
    var s := Subst(stem, rule.target);
    if |name| < BIGBLOCK - 1 && s == name {
      assert s[|prefix| + |stem|..] == Subst(stem, suffix) && name[|prefix| + |stem|..] == suffix;
    }
  }

  /** A pattern rule found by its own text has an empty stem, and never aims back. */
  lemma AimOfChain(name: string, rule: Rule)
    requires rule.meta && rule.target == name && !Patternless(name)
    ensures AimName(rule, "") != name
  {
    hide Subst;
    SubstLength("", name);
  }

  /** What follows the first pattern character. */
  function AfterPattern(template: string): string {
    if template == "" then "" else if Percent(template[0]) then template[1..] else AfterPattern(template[1..])
  }

  lemma {:induction false} AfterPatternIs(template: string, prefix: string)
    requires Patternless(prefix) && |prefix| < |template| && template[..|prefix|] == prefix
    requires Percent(template[|prefix|])
    ensures AfterPattern(template) == template[|prefix| + 1..]
    decreases |prefix|
  {
    if prefix != "" {
      assert template[0] == prefix[0];
      assert template[1..][..|prefix| - 1] == template[1..|prefix|] == prefix[1..];
      AfterPatternIs(template[1..], prefix[1..]);
      assert template[1..][|prefix|..] == template[|prefix| + 1..];
    }
  }

  /**
   When a job is for its own node, for names that fit the buffer: the rule is plain, or it was
   found by matching and its stem changes nothing behind its first pattern character.
   */
  lemma AimsBack(name: string, rule: Rule, stem: string)
    requires ComesFrom(name, rule, stem) && |name| < BIGBLOCK - 1
    ensures AimName(rule, stem) == name <==>
            !rule.meta || ((stem != "" || rule.target != name) && SelfSame(stem, AfterPattern(rule.target)))
  {
    hide AimName;
    hide MatchStem;
    hide AfterPattern;
    if !rule.meta {
      PlainAim(name, rule);
    } else if stem == "" && rule.target == name {
      AimOfChain(name, rule);
    } else {
      var prefix := MatchIsStem(name, rule.target);
      AimOfMatch(name, rule, prefix, stem);
      AfterPatternIs(rule.target, prefix);
    }
  }

  lemma PlainAim(name: string, rule: Rule)
    requires !rule.meta && rule.target == name && |name| < BIGBLOCK - 1
    ensures AimName(rule, "") == name
  {}

  /** A name without pattern characters that fits the buffer is aimed at by all its arcs. */
  lemma PatternlessAim(name: string, rule: Rule, stem: string)
    requires ComesFrom(name, rule, stem) && Patternless(name) && |name| < BIGBLOCK - 1
    ensures AimName(rule, stem) == name
  {
    hide Subst;
    hide MatchStem;
    if rule.meta {
      var prefix := MatchIsStem(name, rule.target);
      var suffix := rule.target[|prefix| + 1..];
      assert forall i :: 0 <= i < |suffix| ==> suffix[i] == name[|prefix| + |stem| + i];
      SubstOfMatch(name, rule.target, prefix, stem);
    }
  }

  /******* Targets lead to targets *******/

  lemma {:induction false} SubstPatternless(stem: string, s: string)
    requires Patternless(stem)
    ensures Patternless(Subst(stem, s))
  {
    if s != "" {
      SubstPatternless(stem, s[1..]);
    }
  }

  /** All pattern characters in the text are the same. */
  predicate Uniform(s: string) {
    forall i, j :: 0 <= i < |s| && 0 <= j < |s| && Percent(s[i]) && Percent(s[j]) ==> s[i] == s[j]
  }

  /** What grows from the name of a node to the name of the target of its job. */
  function Climb(name: string): nat {
    2 * |name| + if Uniform(name) then 1 else 0
  }

  /** If a job misses its node, and the job of the node it is for misses that one too, then
      names grow; unless the buffer cuts them. */
  lemma AimClimbs(a: string, rule: Rule, stem: string, b: string, rule': Rule, stem': string)
    requires ComesFrom(a, rule, stem) && ComesFrom(b, rule', stem')
    requires AimName(rule, stem) == b != a && AimName(rule', stem') != b && |b| < BIGBLOCK - 1
    ensures |a| >= BIGBLOCK || (|a| < BIGBLOCK - 1 && Climb(a) < Climb(b))
  {
    hide Subst;
    hide MatchStem;
    hide Uniform;
    if Patternless(b) {
      PatternlessAim(b, rule', stem');
      assert false;
    }
    if !rule.meta {
      assert false;
    }
    if Patternless(stem) {
      SubstPatternless(stem, rule.target);
      assert false;
    }
    var prefix := MatchIsStem(a, rule.target);
    var suffix := rule.target[|prefix| + 1..];
    SubstParts(stem, rule.target, prefix);
    SubstLength(stem, suffix);
    SubstFixed(stem, suffix);
    if |a| < BIGBLOCK && |a| == |b| {
      SubstOneCharacter(stem, suffix);
      OneKind(prefix, stem, suffix);
    }
  }

  /** Putting one pattern character for all others leaves one kind. */
  lemma OneKind(prefix: string, stem: string, suffix: string)
    requires Patternless(prefix) && |stem| == 1 && Percent(stem[0]) && !SelfSame(stem, suffix)
    ensures !Uniform(prefix + stem + suffix) && Uniform(prefix + stem + Subst(stem, suffix))
  {
    hide Subst;
    SubstOneCharacter(stem, suffix);
    var a, b, k := prefix + stem + suffix, prefix + stem + Subst(stem, suffix), |prefix|;
    var i :| 0 <= i < |suffix| && Percent(suffix[i]) && suffix[i] != stem[0];
    assert a[k] == stem[0] && a[k + 1 + i] == suffix[i];
    assert forall j :: 0 <= j < k ==> b[j] == prefix[j];
    assert forall j :: k < j < |b| ==> b[j] == Subst(stem, suffix)[j - k - 1];
  }

  /******* Rules that miss *******/

  /** The rules of a makefile with one pattern rule. */
  function OneRule(d: RuleDef): Rules {
    Rules(map[d.rule.target := [d]], [d], 1)
  }

  /** Two pattern characters: `%.o%: y` matches x.o% but its job is for x.ox. */
  lemma TwoPatternsMiss(recipe: Recipe)
    requires recipe.text != ""
    ensures var d := RuleDef(0, ["y"], false, Rule("%.o%", recipe, true, false, false));
            && GoodRules(OneRule(d))
            && NodeLabels(OneRule(d), "x.o%", [0], 1) == [Label(Some("y"), d.rule, "x")]
            && AimName(d.rule, "x") == "x.ox"
  {
    var d := RuleDef(0, ["y"], false, Rule("%.o%", recipe, true, false, false));
    var rs := OneRule(d);
    assert Percent("%.o%"[0]);
    assert MatchStem("x.o%", "%.o%") == Some("x") by {
      assert "x.o%"[1..] == ".o%" == "%.o%"[1..] && "x.o%"[..1] == "x";
    }
    hide MatchStem;
    SubstText("x");
    hide Subst;
    assert Prereqs(d, Some("x")) == ["y"];
    assert Chain(rs, "x.o%") == [] && rs.metarules[1..] == [];
    assert RuleLabels(d, Some("x")) == [Label(Some("y"), d.rule, "x")];
    assert MetaLabels("x.o%", rs.metarules, [0], 1, []) == [] + RuleLabels(d, Some("x"));
  }

  lemma SubstText(stem: string)
    ensures Subst(stem, "y") == "y" && Subst(stem, "%.o") == stem + ".o" && Subst(stem, "%.o%") == stem + ".o" + stem
  {
    assert "y"[1..] == "" && "%"[1..] == "";
    assert "%.o"[1..] == ".o" && ".o"[1..] == "o" && "o"[1..] == "";
    assert "%.o%"[1..] == ".o%" && ".o%"[1..] == "o%" && "o%"[1..] == "%";
    assert Subst(stem, "o") == "o" && Subst(stem, ".o") == ".o";
    assert Subst(stem, "%") == stem && Subst(stem, "o%") == "o" + stem && Subst(stem, ".o%") == ".o" + stem;
  }

  /** A name that is the text of a pattern rule for real targets only, `%.o:nV: y`: the rule is
      used once, by its text, and the job is for .o. */
  lemma RuleTextMisses(recipe: Recipe)
    requires recipe.text != ""
    ensures var d := RuleDef(0, ["y"], true, Rule("%.o", recipe, true, true, false));
            && GoodRules(OneRule(d))
            && NodeLabels(OneRule(d), "%.o", [0], 1) == [Label(Some("y"), d.rule, "")]
            && AimName(d.rule, "") == ".o"
  {
    var d := RuleDef(0, ["y"], true, Rule("%.o", recipe, true, true, false));
    assert Percent("%.o"[0]);
    SubstText("");
    hide Subst;
    UsedByText(d);
    hide NodeLabels;
    assert RuleLabels(d, None) == [Label(Some("y"), d.rule, "")];
  }

  lemma UsedByText(d: RuleDef)
    requires d.id == 0 && d.novirt && d.rule.vir && !NoEffect(d)
    ensures NodeLabels(OneRule(d), d.rule.target, [0], 1) == RuleLabels(d, None)
  {
    hide MatchStem;
    var rs, plain := OneRule(d), [] + RuleLabels(d, None);
    assert Chain(rs, d.rule.target) == [d] && [d][1..] == [] && rs.metarules[1..] == [];
    assert PlainLabels([d], [0], 1, []) == PlainLabels([], [0], 1, plain) == plain;
    assert NotVirtual(d, plain);
    assert MetaLabels(d.rule.target, rs.metarules, [0], 1, plain) == plain;
  }

  /** Names that fill the buffer: two rules whose jobs are each for the node of the other. */
  lemma CutNamesSwap(pad: string, r1: Rule, r2: Rule)
    requires Patternless(pad) && |pad| == BIGBLOCK - 8 && r1.meta && r2.meta
    requires r1.target == pad + "%cu%bc" && r2.target == pad + "%u%bb"
    ensures var a, b := pad + "%bcu%bc", pad + "%bcu%bb";
            && MatchStem(a, r1.target) == Some("%b") && MatchStem(b, r2.target) == Some("%bc")
            && AimName(r1, "%b") == b && AimName(r2, "%bc") == a
  {
    var a, b := pad + "%bcu%bc", pad + "%bcu%bb";
    SwapText();
    hide Subst;
    assert r1.target[..|pad|] == pad && r1.target[|pad| + 1..] == "cu%bc";
    assert r2.target[..|pad|] == pad && r2.target[|pad| + 1..] == "u%bb";
    assert a == pad + "%b" + "cu%bc" && b == pad + "%bc" + "u%bb";
    StemMatches(a, r1.target, pad, "%b");
    StemMatches(b, r2.target, pad, "%bc");
    hide MatchStem;
    SubstParts("%b", r1.target, pad);
    SubstParts("%bc", r2.target, pad);
    assert pad + "%b" + "cu%bbc" == b + "c";
    assert pad + "%bc" + "u%bcbb" == a + "bb";
  }

  lemma SwapText()
    ensures Subst("%b", "cu%bc") == "cu%bbc" && Subst("%bc", "u%bb") == "u%bcbb"
  {
    assert "cu%bc"[1..] == "u%bc" && "u%bc"[1..] == "%bc" && "%bc"[1..] == "bc" && "bc"[1..] == "c" && "c"[1..] == "";
    assert Subst("%b", "c") == "c" && Subst("%b", "bc") == "bc" && Subst("%b", "%bc") == "%bbc";
    assert "u%bb"[1..] == "%bb" && "%bb"[1..] == "bb" && "bb"[1..] == "b" && "b"[1..] == "";
    assert Subst("%bc", "b") == "b" && Subst("%bc", "bb") == "bb" && Subst("%bc", "%bb") == "%bcbb";
  }
}
