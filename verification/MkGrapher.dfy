/**
 The construction of the graph (mk/graph.c, `applyrules`): a node per name, arcs by the
 rules, and a count of how often each rule is in use to stop rules that apply forever.
 */
module MkGrapher {
  import opened Wrappers
  import opened MkGraph
  import opened MkRules

  /** How many more uses of rules are allowed in all. */
  function Left(cnt: seq<int>, nreps: int): nat {
    if cnt == [] then 0 else (if cnt[0] < nreps then nreps - cnt[0] else 0) + Left(cnt[1..], nreps)
  }

  lemma {:induction false} LeftFalls(cnt: seq<int>, nreps: int, i: nat)
    requires i < |cnt| && cnt[i] < nreps
    ensures Left(cnt[i := cnt[i] + 1], nreps) == Left(cnt, nreps) - 1
    decreases cnt
  {
    var after := cnt[i := cnt[i] + 1];
    if i == 0 {
      assert after[1..] == cnt[1..];
    } else {
      assert after[1..] == cnt[1..][i - 1 := cnt[i] + 1];
      LeftFalls(cnt[1..], nreps, i - 1);
    }
  }

  /******* Counters *******/

  /** A counter of one byte that holds at most top: 127 if `char` is signed, 255 if not. */
  predicate IsByte(c: int, top: int) {
    top - 255 <= c <= top
  }

  function Inc(c: int, top: int): (r: int)
    requires IsByte(c, top)
    ensures IsByte(r, top)
  {
    if c == top then top - 255 else c + 1
  }

  function Dec(c: int, top: int): (r: int)
    requires IsByte(c, top)
    ensures IsByte(r, top)
  {
    if c == top - 255 then top else c - 1
  }

  /** A rule, used for a node of that name at these counts, has the prerequisite. */
  predicate Gives(rs: Rules, nreps: int, name: string, cnt: seq<int>, d: RuleDef, to: string) {
    && Allowed(d, cnt, nreps)
    && ((d in Chain(rs, name) && to in Prereqs(d, None)) ||
        (d in rs.metarules && MatchStem(name, d.rule.target).Some? && to in Prereqs(d, MatchStem(name, d.rule.target))))
  }

  /** The counts while the prerequisites of a rule are followed. */
  function Used(cnt: seq<int>, d: RuleDef, top: int): seq<int> {
    if d.id < |cnt| && IsByte(cnt[d.id], top) then cnt[d.id := Inc(cnt[d.id], top)] else cnt
  }

  /** A rule for node p has that prerequisite, and is in use. */
  ghost predicate Follows(
    rs: Rules, nreps: int, top: int, names: seq<string>, born: seq<seq<int>>, p: nat, d: RuleDef, to: string,
    now: seq<int>)
  {
    && p < |names| && p < |born|
    && Gives(rs, nreps, names[p], born[p], d, to) && now == Used(born[p], d, top)
  }

  /** The node was asked for, or followed from a node before it. */
  ghost predicate Followed(
    rs: Rules, nreps: int, top: int, names: seq<string>, born: seq<seq<int>>, roots: set<nat>, i: nat)
  {
    && i < |names| && i < |born|
    && (i in roots || exists p: nat, d :: p < i && Follows(rs, nreps, top, names, born, p, d, names[i], born[i]))
  }

  ghost predicate AllFollowed(
    rs: Rules, nreps: int, top: int, names: seq<string>, born: seq<seq<int>>, roots: set<nat>)
  {
    forall i: nat :: i < |names| ==> Followed(rs, nreps, top, names, born, roots, i)
  }

  lemma FollowsStay(
      rs: Rules, nreps: int, top: int, names: seq<string>, born: seq<seq<int>>, names': seq<string>,
      born': seq<seq<int>>, p: nat, d: RuleDef, to: string, now: seq<int>)
    requires Follows(rs, nreps, top, names, born, p, d, to, now) && names <= names' && born <= born'
    ensures Follows(rs, nreps, top, names', born', p, d, to, now)
  {
    hide Gives;
  }

  /** More roots do no harm. */
  lemma MoreRoots(
      rs: Rules, nreps: int, top: int, names: seq<string>, born: seq<seq<int>>, roots: set<nat>, more: set<nat>)
    requires AllFollowed(rs, nreps, top, names, born, roots) && roots <= more
    ensures AllFollowed(rs, nreps, top, names, born, more)
  {
    hide Follows;
    forall i: nat | i < |names| ensures Followed(rs, nreps, top, names, born, more, i) {
      assert Followed(rs, nreps, top, names, born, roots, i);
    }
  }

  /** One more node. */
  lemma OneFollowed(
      rs: Rules, nreps: int, top: int, names: seq<string>, born: seq<seq<int>>, roots: set<nat>, to: string,
      now: seq<int>)
    requires AllFollowed(rs, nreps, top, names, born, roots) && |names| == |born|
    requires |names| in roots ||
             exists p: nat, d :: p < |names| && Follows(rs, nreps, top, names, born, p, d, to, now)
    ensures AllFollowed(rs, nreps, top, names + [to], born + [now], roots)
  {
    hide Follows;
    var names', born' := names + [to], born + [now];
    forall i: nat | i < |names'| ensures Followed(rs, nreps, top, names', born', roots, i) {
      if i !in roots && i < |names| {
        assert Followed(rs, nreps, top, names, born, roots, i);
        var p: nat, d :| p < i && Follows(rs, nreps, top, names, born, p, d, names[i], born[i]);
        FollowsStay(rs, nreps, top, names, born, names', born', p, d, names[i], born[i]);
      } else if i !in roots {
        var p: nat, d :| p < |names| && Follows(rs, nreps, top, names, born, p, d, to, now);
        FollowsStay(rs, nreps, top, names, born, names', born', p, d, to, now);
        assert names'[i] == to && born'[i] == now;
      }
    }
  }

  /******* Names *******/

  /** All strings of at most n characters. */
  ghost function AllStrings(n: nat): set<string> {
    if n == 0 then {""}
    else AllStrings(n - 1) + set c: char, s | s in AllStrings(n - 1) :: [c] + s
  }

  lemma {:induction false} InAllStrings(s: string, n: nat)
    requires |s| <= n
    ensures s in AllStrings(n)
  {
    if n > 0 && s != "" {
      InAllStrings(s[1..], n - 1);
      assert s == [s[0]] + s[1..];
    } else if n > 0 {
      InAllStrings(s, n - 1);
    }
  }

  /** The prerequisites that rules write out. */
  ghost function Literals(rs: Rules): set<string> {
    set t, i, j | t in rs.targets && 0 <= i < |rs.targets[t]| && 0 <= j < |rs.targets[t][i].prereqs| ::
      rs.targets[t][i].prereqs[j]
  }

  /** Names that no rule leads out of: those written out, and those that fit a buffer. */
  ghost predicate Closed(names: set<string>, rs: Rules) {
    Literals(rs) <= names && forall s: string :: |s| < NAMEBLOCK ==> s in names
  }

  lemma SomeClosed(rs: Rules, target: string) returns (names: set<string>)
    ensures Closed(names, rs) && target in names
  {
    names := Literals(rs) + AllStrings(NAMEBLOCK - 1) + {target};
    forall s: string | |s| < NAMEBLOCK ensures s in names {
      InAllStrings(s, NAMEBLOCK - 1);
    }
  }

  /**
   What bounds the recursion: the uses that are left, if the limit fits a counter;
   otherwise the names that have no node yet, for a name fits a buffer.
   */
  ghost function RoomFor(all: set<string>, keys: set<string>, cnt: seq<int>, nreps: int, top: int): nat {
    if nreps <= top then Left(cnt, nreps) else |all - keys|
  }

  /** A new name takes a place. */
  lemma RoomTaken(all: set<string>, keys: set<string>, target: string, cnt: seq<int>, nreps: int, top: int)
    requires target in all && target !in keys
    ensures var r, r' := RoomFor(all, keys, cnt, nreps, top), RoomFor(all, keys + {target}, cnt, nreps, top);
            if nreps <= top then r' == r else r' < r
  {
    assert all - (keys + {target}) == (all - keys) - {target};
  }

  /** More names leave no more room. */
  lemma RoomKept(all: set<string>, keys: set<string>, more: set<string>, cnt: seq<int>, nreps: int, top: int)
    requires keys <= more
    ensures RoomFor(all, more, cnt, nreps, top) <= RoomFor(all, keys, cnt, nreps, top)
  {
    SubsetSize(all - more, all - keys);
  }

  /******* Arcs *******/

  /** An arc with the name of the node it leads to. */
  function LabelOf(names: seq<string>, a: Arc): Label {
    Label(if a.to.None? then None else if a.to.value < |names| then Some(names[a.to.value]) else Some(""),
          a.rule, a.stem)
  }

  function LabelsOf(names: seq<string>, arcs: seq<Arc>): seq<Label> {
    seq(|arcs|, i requires 0 <= i < |arcs| => LabelOf(names, arcs[i]))
  }

  predicate InGraph(arcs: seq<Arc>, n: nat) {
    forall i :: 0 <= i < |arcs| && arcs[i].to.Some? ==> arcs[i].to.value < n
  }

  /** Names of later nodes do not change the labels of arcs. */
  lemma LabelsStay(names: seq<string>, more: seq<string>, arcs: seq<Arc>)
    requires names <= more && InGraph(arcs, |names|)
    ensures LabelsOf(more, arcs) == LabelsOf(names, arcs)
  {}

  lemma InGraphSnoc(arcs: seq<Arc>, a: Arc, n: nat, more: nat)
    requires InGraph(arcs, n) && n <= more && (a.to.Some? ==> a.to.value < more)
    ensures InGraph(arcs + [a], more)
  {}

  lemma EmptyLabels(names: seq<string>)
    ensures LabelsOf(names, []) == [] && forall n :: InGraph([], n)
  {}

  lemma LastLabel(names: seq<string>, arcs: seq<Arc>)
    ensures LabelsOf(names, arcs) == [] <==> arcs == []
    ensures arcs != [] ==> LabelsOf(names, arcs)[|arcs| - 1].rule == arcs[|arcs| - 1].rule
    ensures |LabelsOf(names, arcs)| == |arcs|
  {}

  lemma LabelsSnoc(names: seq<string>, arcs: seq<Arc>, a: Arc)
    ensures LabelsOf(names, arcs + [a]) == LabelsOf(names, arcs) + [LabelOf(names, a)]
  {}

  lemma LabelsAre(d: RuleDef, stem: Option<string>)
    requires Prereqs(d, stem) != []
    ensures |RuleLabels(d, stem)| == |Prereqs(d, stem)|
    ensures forall i :: 0 <= i < |Prereqs(d, stem)| ==>
              RuleLabels(d, stem)[i] ==
              Label(Some(Prereqs(d, stem)[i]), d.rule, if stem.Some? then stem.value else "")
  {
    hide Prereqs;
  }

  class Grapher {
    const rules: Rules
    const nreps: int
    /** How often each rule is in use, and the most that a counter holds. */
    const cnt: array<int>
    const top: int
    /** The cache of nodes by name. */
    var nodes: map<string, nat>
    var names: seq<string>
    var g: Graph
    /** The counts when each node was made, and the nodes whose arcs are not yet stored. */
    ghost var born: seq<seq<int>>
    ghost var pending: set<nat>
    /** The nodes that were asked for; every other one was followed from a node before it. */
    ghost var roots: set<nat>

    constructor (rules: Rules, nreps: int, top: int)
      requires GoodRules(rules) && 1 <= nreps && top in {127, 255}
      ensures this.rules == rules && this.nreps == nreps && this.top == top && fresh(cnt)
      ensures Valid() && g == [] && pending == {} && roots == {} && forall i :: 0 <= i < cnt.Length ==> cnt[i] == 0
    {
      this.rules, this.nreps, this.top := rules, nreps, top;
      cnt := new int[rules.nrules](_ => 0);
      nodes, names, g, born, pending, roots := map[], [], [], [], {}, {};
    }

    /** The node and its name belong together: there is one node per name. */
    ghost predicate Cached()
      reads this
    {
      && (forall i :: 0 <= i < |names| ==> names[i] in nodes && nodes[names[i]] == i)
      && (forall t :: t in nodes ==> nodes[t] < |names| && names[nodes[t]] == t)
      && (forall i :: i in pending ==> i < |g|)
    }

    lemma InCache(target: string)
      requires Cached() && target in nodes
      ensures nodes[target] < |names| && names[nodes[target]] == target
    {}

    /** The arcs of a finished node are those that the rules give for its name. */
    ghost predicate Finished(i: nat)
      reads this
    {
      && i < |g| == |names| == |born| && |born[i]| == rules.nrules
      && InGraph(g[i], |g|)
      && (i in pending || LabelsOf(names, g[i]) == NodeLabels(rules, names[i], born[i], nreps))
    }

    /** The next node may have that name. */
    ghost predicate Awaited(target: string)
      reads this, cnt
    {
      |g| in roots || exists p: nat, d :: p < |g| && Follows(rules, nreps, top, names, born, p, d, target, cnt[..])
    }

    /** A limit that fits a counter is never passed. */
    ghost predicate Counts()
      reads this, cnt
    {
      && cnt.Length == rules.nrules && 1 <= nreps && top in {127, 255}
      && (forall i :: 0 <= i < cnt.Length ==> IsByte(cnt[i], top))
      && (nreps <= top ==> forall i :: 0 <= i < cnt.Length ==> 0 <= cnt[i] <= nreps)
    }

    ghost predicate Valid()
      reads this, cnt
    {
      && |names| == |g| == |born|
      && GoodRules(rules) && Counts() && Cached() && (forall i: nat :: i < |g| ==> Finished(i))
      && AllFollowed(rules, nreps, top, names, born, roots)
    }

    /** The nodes there were are as they were. */
    twostate predicate Grown()
      reads this, cnt
    {
      && old(names) <= names && old(g) <= g && old(born) <= born && old(pending) == pending
      && old(nodes).Keys <= nodes.Keys && cnt[..] == old(cnt[..])
    }

    ghost function Room(all: set<string>): nat
      reads this, cnt
    {
      RoomFor(all, nodes.Keys, cnt[..], nreps, top)
    }

    /** The order of the calls below within the same room. */
    ghost function Rank(counted: nat, named: nat): nat {
      if nreps <= top then counted else named
    }

    /** The node of a target, and all nodes below it. */
    method Graph(target: string) returns (n: nat)
      requires Valid()
      modifies this`nodes, this`names, this`g, this`born, this`pending, this`roots, cnt
      ensures Valid() && Grown() && n < |g| && names[n] == target
      ensures target in old(nodes) ==> g == old(g) && names == old(names) && roots == old(roots)
      ensures target !in old(nodes) ==> n == old(|g|) && born[n] == old(cnt[..]) && roots == old(roots) + {n}
    {
      hide GoodRules;
      hide Counts;
      hide Finished;
      hide Cached;
      hide AllFollowed;
      hide Follows;
      if target in nodes {
        InCache(target);
        return nodes[target];
      }
      ghost var all := SomeClosed(rules, target);
      AddRoot();
      n := Apply(all, target);
    }

    /** The next node may have any name. */
    ghost method AddRoot()
      requires Valid()
      modifies this`roots
      ensures Valid() && roots == old(roots) + {|g|}
    {
      hide AllFollowed;
      hide NodeLabels;
      MoreRoots(rules, nreps, top, names, born, roots, roots + {|g|});
      roots := roots + {|g|};
      assert forall i: nat :: i < |g| ==> old(Finished(i)) ==> Finished(i);
    }

    /**
     `applyrules`: the node of that name, made now unless there is one.  A use of a rule
     is counted while its prerequisites are followed, and the counts are restored.
     */
    method Apply(ghost all: set<string>, target: string) returns (n: nat)
      requires Valid() && Closed(all, rules) && target in all && (target in nodes || Awaited(target))
      modifies this`nodes, this`names, this`g, this`born, this`pending, cnt
      ensures Valid() && Grown() && n < |g| && names[n] == target
      ensures target in old(nodes) ==> g == old(g) && names == old(names)
      ensures target !in old(nodes) ==> n == old(|g|) && born[n] == old(cnt[..])
      decreases Room(all), Rank(4, 0)
    {
      hide AllFollowed;
      hide Follows;
      hide Finished;
      hide Cached;
      hide Closed;
      hide LabelsOf;
      hide InGraph;
      hide NodeLabels;
      hide GoodRules;
      hide Counts;
      hide RoomFor;
      if target in nodes {
        InCache(target);
        return nodes[target];
      }
      RoomTaken(all, nodes.Keys, target, cnt[..], nreps, top);
      n := NewNode(target);
      var arcs := ApplyAll(all, n, target);
      Store(n, arcs);
    }

    /** Plain rules, then meta rules. */
    method ApplyAll(ghost all: set<string>, ghost n: nat, target: string) returns (arcs: seq<Arc>)
      requires Valid() && n < |g| && n in pending && names[n] == target && born[n] == cnt[..] && Closed(all, rules)
      modifies this`nodes, this`names, this`g, this`born, this`pending, cnt
      ensures Valid() && Grown() && InGraph(arcs, |g|)
      ensures LabelsOf(names, arcs) == NodeLabels(rules, target, old(cnt[..]), nreps)
      decreases Room(all), Rank(3, 5)
    {
      hide AllFollowed;
      hide Follows;
      hide Finished;
      hide Cached;
      hide Closed;
      hide LabelsOf;
      hide InGraph;
      hide PlainLabels;
      hide MetaLabels;
      hide GoodRules;
      hide Counts;
      hide RoomFor;
      arcs := ApplyPlain(all, n, target);
      arcs := ApplyMeta(all, n, target, arcs);
    }

    /** `newnode`: a node without arcs, put into the cache. */
    method NewNode(target: string) returns (n: nat)
      requires Valid() && target !in nodes && Awaited(target)
      modifies this`nodes, this`names, this`g, this`born, this`pending
      ensures Valid() && n == old(|g|) && names == old(names) + [target] && g == old(g) + [[]]
      ensures born == old(born) + [cnt[..]] && pending == old(pending) + {n} && n !in old(pending)
      ensures nodes.Keys == old(nodes).Keys + {target}
    {
      hide AllFollowed;
      hide Follows;
      hide NodeLabels;
      n := |names|;
      OneFollowed(rules, nreps, top, names, born, roots, target, cnt[..]);
      ghost var names0 := names;
      nodes := nodes[target := n];
      names := names + [target];
      g := g + [[]];
      born := born + [cnt[..]];
      pending := pending + {n};
      forall i: nat | i < n ensures Finished(i) {
        assert old(Finished(i));
        LabelsStay(names0, names, g[i]);
      }
    }

    /** The arcs of a node are complete. */
    method Store(n: nat, arcs: seq<Arc>)
      requires Valid() && n < |g| && InGraph(arcs, |g|)
      requires LabelsOf(names, arcs) == NodeLabels(rules, names[n], born[n], nreps)
      modifies this`g, this`pending
      ensures Valid() && g == old(g)[n := arcs] && pending == old(pending) - {n}
    {
      hide AllFollowed;
      hide Follows;
      hide NodeLabels;
      g := g[n := arcs];
      pending := pending - {n};
      forall i: nat | i < |g| ensures Finished(i) {
        assert old(Finished(i));
      }
    }

    method ApplyPlain(ghost all: set<string>, ghost n: nat, target: string) returns (arcs: seq<Arc>)
      requires Valid() && n < |g| && n in pending && names[n] == target && born[n] == cnt[..] && Closed(all, rules)
      modifies this`nodes, this`names, this`g, this`born, this`pending, cnt
      ensures Valid() && Grown() && InGraph(arcs, |g|)
      ensures LabelsOf(names, arcs) == PlainLabels(Chain(rules, target), old(cnt[..]), nreps, [])
      ensures Room(all) <= old(Room(all))
      decreases Room(all), Rank(2, 4)
    {
      hide AllFollowed;
      hide Follows;
      hide Finished;
      hide Cached;
      hide InGraph;
      hide RuleLabels;
      hide RoomFor;
      EmptyLabels(names);
      arcs := [];
      ghost var c0 := cnt[..];
      var ds := Chain(rules, target);
      ghost var labels := PlainLabels(ds, c0, nreps, []);
      for i := 0 to |ds|
        invariant Valid() && Grown() && InGraph(arcs, |g|)
        invariant PlainLabels(ds[i..], c0, nreps, LabelsOf(names, arcs)) == labels
      {
        var d := ds[i];
        assert ds[i..][1..] == ds[i + 1..];
        if NoEffect(d) || cnt[d.id] >= nreps {
          continue;
        }
        assert forall j :: 0 <= j < |d.prereqs| ==> d.prereqs[j] in Literals(rules);
        RoomKept(all, old(nodes).Keys, nodes.Keys, cnt[..], nreps, top);
        arcs := ApplyRule(all, n, d, None, arcs);
      }
      RoomKept(all, old(nodes).Keys, nodes.Keys, cnt[..], nreps, top);
    }

    method ApplyMeta(ghost all: set<string>, ghost n: nat, target: string, plain: seq<Arc>) returns (arcs: seq<Arc>)
      requires Valid() && n < |g| && n in pending && names[n] == target && born[n] == cnt[..]
      requires InGraph(plain, |g|) && Closed(all, rules)
      modifies this`nodes, this`names, this`g, this`born, this`pending, cnt
      ensures Valid() && Grown() && InGraph(arcs, |g|)
      ensures LabelsOf(names, arcs) ==
              MetaLabels(target, rules.metarules, old(cnt[..]), nreps, old(LabelsOf(names, plain)))
      decreases Room(all), Rank(2, 4)
    {
      hide AllFollowed;
      hide Follows;
      hide Finished;
      hide Cached;
      hide LabelsOf;
      hide InGraph;
      hide MatchStem;
      hide RuleLabels;
      hide Prereqs;
      hide Closed;
      hide RoomFor;
      arcs := plain;
      ghost var c0 := cnt[..];
      var ds := rules.metarules;
      ghost var labels := MetaLabels(target, ds, c0, nreps, LabelsOf(names, plain));
      for i := 0 to |ds|
        invariant Valid() && Grown() && InGraph(arcs, |g|)
        invariant MetaLabels(target, ds[i..], c0, nreps, LabelsOf(names, arcs)) == labels
      {
        var d := ds[i];
        assert ds[i..][1..] == ds[i + 1..];
        LastLabel(names, arcs);
        if NoEffect(d) {
          continue;
        }
        if d.novirt && arcs != [] && arcs[|arcs| - 1].rule.vir {
          continue;
        }
        var stem := MatchStem(target, d.rule.target);
        if stem.Some? {
          if cnt[d.id] >= nreps {
            continue;
          }
          MetaPrereqs(all, rules, d, stem);
          RoomKept(all, old(nodes).Keys, nodes.Keys, cnt[..], nreps, top);
          arcs := ApplyRule(all, n, d, stem, arcs);
        }
      }
    }

    /** Use a rule once: an arc to the node of each prerequisite, or one to nothing. */
    method ApplyRule(ghost all: set<string>, ghost n: nat, d: RuleDef, stem: Option<string>, before: seq<Arc>)
      returns (arcs: seq<Arc>)
      requires Valid() && GoodRule(rules, d) && cnt[d.id] < nreps && InGraph(before, |g|)
      requires Closed(all, rules) && forall i :: 0 <= i < |Prereqs(d, stem)| ==> Prereqs(d, stem)[i] in all
      requires n < |g| && born[n] == cnt[..]
      requires forall i :: 0 <= i < |Prereqs(d, stem)| ==>
                 Gives(rules, nreps, names[n], born[n], d, Prereqs(d, stem)[i])
      modifies this`nodes, this`names, this`g, this`born, this`pending, cnt
      ensures Valid() && Grown() && InGraph(arcs, |g|)
      ensures LabelsOf(names, arcs) == old(LabelsOf(names, before)) + RuleLabels(d, stem)
      decreases Room(all), Rank(1, 3)
    {
      hide AllFollowed;
      hide Finished;
      hide Cached;
      hide LabelsOf;
      hide InGraph;
      hide Closed;
      hide GoodRules;
      hide RoomFor;
      hide Prereqs;
      hide Gives;
      Use(all, d.id);
      if Prereqs(d, stem) == [] {
        var a := Arc(None, d.rule, if stem.Some? then stem.value else "");
        LabelsSnoc(names, before, a);
        InGraphSnoc(before, a, |g|, |g|);
        arcs := before + [a];
      } else {
        arcs := ApplyPrereqs(all, n, d, stem, before);
      }
      Unuse(d.id, old(cnt[..]));
    }

    /** Follow the prerequisites of a rule that is in use. */
    method ApplyPrereqs(ghost all: set<string>, ghost n: nat, d: RuleDef, stem: Option<string>, before: seq<Arc>)
      returns (arcs: seq<Arc>)
      requires Valid() && InGraph(before, |g|) && Prereqs(d, stem) != []
      requires Closed(all, rules) && forall i :: 0 <= i < |Prereqs(d, stem)| ==> Prereqs(d, stem)[i] in all
      requires n < |g| && cnt[..] == Used(born[n], d, top)
      requires forall i :: 0 <= i < |Prereqs(d, stem)| ==>
                 Gives(rules, nreps, names[n], born[n], d, Prereqs(d, stem)[i])
      modifies this`nodes, this`names, this`g, this`born, this`pending, cnt
      ensures Valid() && Grown() && InGraph(arcs, |g|)
      ensures LabelsOf(names, arcs) == old(LabelsOf(names, before)) + RuleLabels(d, stem)
      decreases Room(all), Rank(6, 2)
    {
      hide AllFollowed;
      hide Finished;
      hide Cached;
      hide LabelsOf;
      hide InGraph;
      hide Closed;
      hide GoodRules;
      hide Counts;
      hide Prereqs;
      hide Gives;
      hide Used;
      hide RuleLabels;
      hide RoomFor;
      LabelsAre(d, stem);
      arcs := before;
      var prereqs, text := Prereqs(d, stem), if stem.Some? then stem.value else "";
      ghost var labels := RuleLabels(d, stem);
      for i := 0 to |prereqs|
        invariant Valid() && Grown() && InGraph(arcs, |g|) && Room(all) <= old(Room(all))
        invariant LabelsOf(names, arcs) == old(LabelsOf(names, before)) + labels[..i]
      {
        ghost var names0 := names;
        var m := FollowOne(all, n, d, prereqs[i]);
        LabelsStay(names0, names, arcs);
        LabelsSnoc(names, arcs, Arc(Some(m), d.rule, text));
        InGraphSnoc(arcs, Arc(Some(m), d.rule, text), |names0|, |g|);
        assert labels[..i + 1] == labels[..i] + [labels[i]];
        arcs := arcs + [Arc(Some(m), d.rule, text)];
      }
      assert labels[..|labels|] == labels;
    }

    /** Follow one prerequisite. */
    method FollowOne(ghost all: set<string>, ghost p: nat, ghost d: RuleDef, target: string) returns (n: nat)
      requires Valid() && Closed(all, rules) && target in all
      requires p < |g| && Gives(rules, nreps, names[p], born[p], d, target) && cnt[..] == Used(born[p], d, top)
      modifies this`nodes, this`names, this`g, this`born, this`pending, cnt
      ensures Valid() && Grown() && n < |g| && names[n] == target && Room(all) <= old(Room(all))
      decreases Room(all), Rank(5, 1)
    {
      hide AllFollowed;
      hide Finished;
      hide Cached;
      hide Closed;
      hide Gives;
      hide Counts;
      assert Follows(rules, nreps, top, names, born, p, d, target, cnt[..]);
      n := Apply(all, target);
      RoomKept(all, old(nodes).Keys, nodes.Keys, cnt[..], nreps, top);
    }

    /** Count a use. */
    method Use(ghost all: set<string>, id: nat)
      requires Counts() && id < rules.nrules && cnt[id] < nreps
      modifies cnt
      ensures Counts() && cnt[..] == old(cnt[..])[id := Inc(old(cnt[id]), top)]
      ensures Room(all) <= old(Room(all)) && (nreps <= top ==> Room(all) < old(Room(all)))
    {
      LeftFalls(cnt[..], nreps, id);
      cnt[id] := Inc(cnt[id], top);
    }

    /** A use is over. */
    method Unuse(id: nat, ghost was: seq<int>)
      requires Counts() && id < rules.nrules == |was| && was[id] < nreps
      requires forall i :: 0 <= i < |was| ==> IsByte(was[i], top) && (nreps <= top ==> 0 <= was[i] <= nreps)
      requires cnt[..] == was[id := Inc(was[id], top)]
      modifies cnt
      ensures Counts() && cnt[..] == was
    {
      assert cnt[id] == cnt[..][id];
      cnt[id] := Dec(cnt[id], top);
      assert cnt[..] == was;
      assert forall i :: 0 <= i < cnt.Length ==> cnt[i] == cnt[..][i];
    }
  }

  /** The prerequisites of a meta rule fit a buffer. */
  lemma MetaPrereqs(all: set<string>, rs: Rules, d: RuleDef, stem: Option<string>)
    requires Closed(all, rs) && stem.Some?
    ensures forall i :: 0 <= i < |Prereqs(d, stem)| ==> Prereqs(d, stem)[i] in all
  {}
}
