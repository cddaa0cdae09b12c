/**
 From rules to the graph (mk/match.c and `applyrules` in mk/graph.c).  No rule is a
 regular expression.  Names are strings of bytes.
 */
module MkRules {
  import opened Wrappers
  import opened MkGraph

  /******* Pattern rules *******/

  predicate Percent(c: char) {
    c == '%' || c == '&'
  }

  predicate Patternless(s: string) {
    forall i :: 0 <= i < |s| ==> !Percent(s[i])
  }

  predicate HasDotOrSlash(s: string) {
    '.' in s || '/' in s
  }

  /** `match`: the stem, if the name matches the template. */
  function MatchStem(name: string, template: string): Option<string> {
    if name != "" && template != "" && !Percent(template[0]) then
      if name[0] != template[0] then None else MatchStem(name[1..], template[1..])
    else if template == "" || !Percent(template[0]) then None
    else
      var suffix := template[1..];
      var n := |name| - |suffix|;
      if n < 0 || name[n..] != suffix then None
      else if template[0] == '&' && HasDotOrSlash(name[..n]) then None
      else Some(name[..n])
  }

  function Subst(stem: string, template: string): string {
    if template == "" then ""
    else (if Percent(template[0]) then stem else [template[0]]) + Subst(stem, template[1..])
  }

  /** The size of a name buffer: `subst` writes one character less at most. */
  const NAMEBLOCK: nat := 1000

  function Cut(s: string): (r: string)
    ensures |r| < NAMEBLOCK
  {
    if |s| < NAMEBLOCK then s else s[..NAMEBLOCK - 1]
  }

  /** The name is the template with its first pattern character replaced by the stem. */
  predicate IsStem(name: string, template: string, prefix: string, stem: string) {
    && Patternless(prefix) && |prefix| < |template| && template[..|prefix|] == prefix
    && Percent(template[|prefix|])
    && name == prefix + stem + template[|prefix| + 1..]
    && (template[|prefix|] == '&' ==> !HasDotOrSlash(stem))
  }

  lemma {:induction false} MatchIsStem(name: string, template: string) returns (prefix: string)
    requires MatchStem(name, template).Some?
    ensures IsStem(name, template, prefix, MatchStem(name, template).value)
    decreases template
  {
    var stem := MatchStem(name, template).value;
    if name != "" && template != "" && !Percent(template[0]) {
      var rest := MatchIsStem(name[1..], template[1..]);
      prefix := [template[0]] + rest;
      StemLonger(name, template, rest, stem);
    } else {
      prefix := "";
      assert name == stem + template[1..];
    }
  }

  /** One more character in front of both. */
  lemma StemLonger(name: string, template: string, rest: string, stem: string)
    requires name != "" && template != "" && name[0] == template[0] && !Percent(template[0])
    requires IsStem(name[1..], template[1..], rest, stem)
    ensures IsStem(name, template, [template[0]] + rest, stem)
  {
    var prefix := [template[0]] + rest;
    assert template == [template[0]] + template[1..] && name == [name[0]] + name[1..];
    assert template[..|prefix|] == [template[0]] + template[1..][..|rest|];
    assert template[1..][|rest| + 1..] == template[|prefix| + 1..];
    assert name == prefix + stem + template[|prefix| + 1..];
  }

  lemma {:induction false} StemMatches(name: string, template: string, prefix: string, stem: string)
    requires IsStem(name, template, prefix, stem)
    ensures MatchStem(name, template) == Some(stem)
    decreases prefix
  {
    if prefix == "" {
      var suffix := template[1..];
      assert name == stem + suffix;
      assert name[|stem|..] == suffix && name[..|stem|] == stem;
    } else {
      var rest := prefix[1..];
      assert template[1..][..|rest|] == template[1..|prefix|] == rest;
      assert template[1..][|rest| + 1..] == template[|prefix| + 1..];
      assert name[1..] == rest + stem + template[|prefix| + 1..];
      assert template[0] == prefix[0] == name[0];
      StemMatches(name[1..], template[1..], rest, stem);
    }
  }

  lemma {:induction false} SubstPlain(stem: string, s: string)
    requires Patternless(s)
    ensures Subst(stem, s) == s
  {
    if s != "" {
      SubstPlain(stem, s[1..]);
    }
  }

  lemma {:induction false} SubstConcat(stem: string, a: string, b: string)
    ensures Subst(stem, a + b) == Subst(stem, a) + Subst(stem, b)
    decreases a
  {
    if a == "" {
      assert a + b == b;
    } else {
      assert (a + b)[1..] == a[1..] + b;
      SubstConcat(stem, a[1..], b);
    }
  }

  /** The stem put into a template with one pattern character gives the name back, if the
      name fits. */
  lemma SubstOfMatch(name: string, template: string, prefix: string, stem: string)
    requires IsStem(name, template, prefix, stem) && Patternless(template[|prefix| + 1..])
    ensures Subst(stem, template) == name
    ensures Cut(Subst(stem, template)) == name <==> |name| < NAMEBLOCK
  {
    hide Subst;
    var c, suffix := template[|prefix|], template[|prefix| + 1..];
    assert template == prefix + ([c] + suffix);
    SubstConcat(stem, prefix, [c] + suffix);
    SubstConcat(stem, [c], suffix);
    SubstOne(stem, c);
    SubstPlain(stem, prefix);
    SubstPlain(stem, suffix);
    assert prefix + (stem + suffix) == prefix + stem + suffix;
  }

  lemma SubstOne(stem: string, c: char)
    ensures Subst(stem, [c]) == if Percent(c) then stem else [c]
  {
    assert [c][1..] == "";
  }

  /******* Rules *******/

  datatype RuleDef = RuleDef(id: nat, prereqs: seq<string>, novirt: bool, rule: Rule)

  predicate EmptyPrereqs(d: RuleDef) {
    d.prereqs == [] || d.prereqs[0] == ""
  }

  /** A rule with neither recipe nor prerequisites has no effect. */
  predicate NoEffect(d: RuleDef) {
    d.rule.recipe.text == "" && EmptyPrereqs(d)
  }

  /** An arc by the name of the prerequisite. */
  datatype Label = Label(to: Option<string>, rule: Rule, stem: string)

  /** The prerequisites of a rule; a meta rule has its pattern characters replaced. */
  function Prereqs(d: RuleDef, stem: Option<string>): seq<string> {
    if EmptyPrereqs(d) then []
    else if stem.None? then d.prereqs
    else seq(|d.prereqs|, i requires 0 <= i < |d.prereqs| => Cut(Subst(stem.value, d.prereqs[i])))
  }

  /** The arcs of one use of a rule.  A rule found by its target has an empty stem. */
  function RuleLabels(d: RuleDef, stem: Option<string>): seq<Label> {
    var prereqs, stem' := Prereqs(d, stem), if stem.Some? then stem.value else "";
    if prereqs == [] then [Label(None, d.rule, stem')]
    else seq(|prereqs|, i requires 0 <= i < |prereqs| => Label(Some(prereqs[i]), d.rule, stem'))
  }

  predicate Allowed(d: RuleDef, cnt: seq<int>, nreps: int) {
    d.id < |cnt| && cnt[d.id] < nreps
  }

  /** The arcs of the plain rules, added to those there are. */
  function PlainLabels(ds: seq<RuleDef>, cnt: seq<int>, nreps: int, before: seq<Label>): seq<Label>
    decreases ds
  {
    if ds == [] then before
    else
      var d := ds[0];
      PlainLabels(ds[1..], cnt, nreps,
                  if NoEffect(d) || !Allowed(d, cnt, nreps) then before
                  else before + RuleLabels(d, None))
  }

  /** A meta rule for real targets only does not apply after a rule for virtual ones. */
  predicate NotVirtual(d: RuleDef, before: seq<Label>) {
    d.novirt && before != [] && before[|before| - 1].rule.vir
  }

  function MetaLabels(name: string, ds: seq<RuleDef>, cnt: seq<int>, nreps: int, before: seq<Label>): seq<Label>
    decreases ds
  {
    if ds == [] then before
    else
      var d := ds[0];
      var stem := MatchStem(name, d.rule.target);
      MetaLabels(name, ds[1..], cnt, nreps,
                 if NoEffect(d) || NotVirtual(d, before) || stem.None? || !Allowed(d, cnt, nreps) then before
                 else before + RuleLabels(d, stem))
  }

  /** The rules of a makefile: those of each target, and the meta rules. */
  datatype Rules = Rules(targets: map<string, seq<RuleDef>>, metarules: seq<RuleDef>, nrules: nat)

  function Chain(rs: Rules, name: string): seq<RuleDef> {
    if name in rs.targets then rs.targets[name] else []
  }

  predicate GoodRule(rs: Rules, d: RuleDef) {
    d.id < rs.nrules && (d.rule.meta <==> !Patternless(d.rule.target))
  }

  predicate GoodRules(rs: Rules) {
    && (forall t, i :: t in rs.targets && 0 <= i < |rs.targets[t]| ==>
          GoodRule(rs, rs.targets[t][i]) && rs.targets[t][i].rule.target == t)
    && (forall i :: 0 <= i < |rs.metarules| ==> GoodRule(rs, rs.metarules[i]) && rs.metarules[i].rule.meta)
  }

  /** All arcs of a node of that name, made when the rules had been used cnt times. */
  function NodeLabels(rs: Rules, name: string, cnt: seq<int>, nreps: int): seq<Label> {
    MetaLabels(name, rs.metarules, cnt, nreps, PlainLabels(Chain(rs, name), cnt, nreps, []))
  }

  /******* Plain rules come first *******/

  predicate PlainFirst(rules: seq<Rule>) {
    forall i, j :: 0 <= i < j < |rules| && rules[i].meta ==> rules[j].meta
  }

  function RulesOf(labels: seq<Label>): seq<Rule> {
    seq(|labels|, i requires 0 <= i < |labels| => labels[i].rule)
  }

  /** All arcs come from meta rules, or none does. */
  predicate Alike(labels: seq<Label>, meta: bool) {
    forall i :: 0 <= i < |labels| ==> labels[i].rule.meta == meta
  }

  lemma {:induction false} ChainAlike(ds: seq<RuleDef>, cnt: seq<int>, nreps: int, before: seq<Label>, meta: bool)
    requires Alike(before, meta) && forall i :: 0 <= i < |ds| ==> ds[i].rule.meta == meta
    ensures Alike(PlainLabels(ds, cnt, nreps, before), meta)
    decreases ds
  {
    if ds != [] {
      var d := ds[0];
      ChainAlike(ds[1..], cnt, nreps,
                 if NoEffect(d) || !Allowed(d, cnt, nreps) then before
                 else before + RuleLabels(d, None), meta);
    }
  }

  lemma {:induction false} MetaLabelsLast(name: string, ds: seq<RuleDef>, cnt: seq<int>, nreps: int, before: seq<Label>)
    requires PlainFirst(RulesOf(before)) && forall i :: 0 <= i < |ds| ==> ds[i].rule.meta
    ensures PlainFirst(RulesOf(MetaLabels(name, ds, cnt, nreps, before)))
    decreases ds
  {
    if ds != [] {
      var d := ds[0];
      var stem := MatchStem(name, d.rule.target);
      var after := before + RuleLabels(d, stem);
      forall i, j | 0 <= i < j < |after| && after[i].rule.meta ensures after[j].rule.meta {
        assert j < |before| ==> RulesOf(before)[i].meta;
        assert j < |before| ==> RulesOf(before)[j].meta;
      }
      MetaLabelsLast(name, ds[1..], cnt, nreps,
                     if NoEffect(d) || NotVirtual(d, before) || stem.None? || !Allowed(d, cnt, nreps) then before
                     else after);
    }
  }

  /**
   The arcs of a node: plain rules, then meta rules.  The rules on the chain of a name
   have that name as their target, so they are all plain or, if the name has a pattern
   character, all meta.
   */
  lemma NodePlainFirst(rs: Rules, name: string, cnt: seq<int>, nreps: int)
    requires GoodRules(rs)
    ensures PlainFirst(RulesOf(NodeLabels(rs, name, cnt, nreps)))
  {
    var plain := PlainLabels(Chain(rs, name), cnt, nreps, []);
    ChainAlike(Chain(rs, name), cnt, nreps, [], !Patternless(name));
    assert PlainFirst(RulesOf(plain));
    MetaLabelsLast(name, rs.metarules, cnt, nreps, plain);
  }
}
