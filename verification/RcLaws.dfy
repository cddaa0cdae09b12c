/**
 Laws of the shell's variables, words and commands, each told without the function that
 computes it: what `rc` is for, as its manual says it.
 */
module RcLaws {
  import opened Wrappers
  import opened RcTree
  import opened RcGlob
  import opened RcStore
  import opened RcSemantics

  /******* Variables *******/

  /** A local hides what is outside of it, and gives it back; other names are seen through it. */
  lemma LocalHides(s: Store, name: string, val: Strings, other: string)
    ensures Lookup(PushLocal(s, name, val), name) == val
    ensures other != name ==> Lookup(PushLocal(s, name, val), other) == Lookup(s, other)
    ensures PopLocal(PushLocal(s, name, val)) == s
    ensures s.locals == [] ==> Lookup(s, name) == if name in s.globals then s.globals[name] else []
  {
    assert ([Var(name, val)] + s.locals)[1..] == s.locals;
  }

  /** An assignment sets the innermost local of that name, or the global. */
  lemma AssignScope(s: Store, name: string, val: Strings, other: string, w: Strings)
    ensures SetVar(PushLocal(s, name, w), name, val) == PushLocal(s, name, val)
    ensures other != name ==> SetVar(PushLocal(s, other, w), name, val) == PushLocal(SetVar(s, name, val), other, w)
    ensures s.locals == [] ==> SetVar(s, name, val) == s.(globals := s.globals[name := val])
    ensures SetTop(PushLocal(s, name, w), val) == PushLocal(s, name, val)
  {
    assert ([Var(name, w)] + s.locals)[1..] == s.locals && ([Var(other, w)] + s.locals)[1..] == s.locals;
  }

  /** What was assigned is read back, and no other name changes. */
  lemma {:induction false} AssignReads(s: Store, name: string, val: Strings, other: string)
    ensures Lookup(SetVar(s, name, val), name) == val
    ensures other != name ==> Lookup(SetVar(s, name, val), other) == Lookup(s, other)
    ensures var s' := SetVar(s, name, val); s'.redirs == s.redirs && s'.ifnot == s.ifnot && s'.world == s.world
    decreases |s.locals|
  {
    if s.locals != [] && s.locals[0].name != name {
      AssignReads(s.(locals := s.locals[1..]), name, val, other);
    }
  }

  /** Of several assignments to one name the last counts. */
  lemma {:induction false} LastAssignment(s: Store, sets: seq<Var>, name: string, val: Strings, other: string)
    ensures SetVars(s, []) == s
    ensures Lookup(SetVars(s, sets + [Var(name, val)]), name) == val
    ensures other != name ==> Lookup(SetVars(s, sets + [Var(name, val)]), other) == Lookup(SetVars(s, sets), other)
    decreases |sets|
  {
    hide Lookup;
    hide SetVar;
    if sets == [] {
      assert sets + [Var(name, val)] == [Var(name, val)] && [Var(name, val)][1..] == [];
      AssignReads(s, name, val, other);
    } else {
      assert (sets + [Var(name, val)])[1..] == sets[1..] + [Var(name, val)];
      LastAssignment(SetVar(s, sets[0].name, sets[0].val), sets[1..], name, val, other);
    }
  }

  /******* The status *******/

  /** Nothing but zeros and bars. */
  predicate MeansTrue(status: string) {
    forall i :: 0 <= i < |status| ==> status[i] == '0' || status[i] == '|'
  }

  /** The status is a variable; it is true if it is unset or means true. */
  lemma StatusIsVariable(s: Store)
    ensures var v := Lookup(s, "status"); TrueStatus(s) <==> v == [] || MeansTrue(v[0])
  {
    hide Lookup;
    var v := Lookup(s, "status");
    assert Status(s) == if v == [] then "" else v[0];
    if v != [] {
      assert forall i :: 0 <= i < |v[0]| ==> v[0][i] in v[0];
    }
  }

  lemma StatusSet(s: Store, status: string, other: string)
    ensures TrueStatus(SetStatus(s, status)) <==> MeansTrue(status)
    ensures SetStatus(s, status) == SetVar(s, "status", [status])
    ensures other != "status" ==> Lookup(SetStatus(s, status), other) == Lookup(s, other)
    ensures forall i :: 0 <= i < |s.locals| && s.locals[i].name != "status" ==>
              SetStatus(s, status).locals[i] == s.locals[i]
    ensures !TrueStatus(Failed(s)) && Lookup(Failed(s), "status") == ["error"]
  {
    AssignReads(s, "status", [status], other);
    AssignReads(s, "status", ["error"], other);
    StatusIsVariable(SetStatus(s, status));
    StatusIsVariable(Failed(s));
    SetLocalOthers(s.locals, "status", [status]);
    hide Lookup;
    assert "error"[0] == 'e';
  }

  lemma {:induction false} SetLocalOthers(locals: seq<Var>, name: string, val: Strings)
    ensures forall i :: 0 <= i < |locals| && locals[i].name != name ==> SetLocal(locals, name, val)[i] == locals[i]
    decreases |locals|
  {
    if locals != [] {
      SetLocalOthers(locals[1..], name, val);
    }
  }

  /******* Words *******/

  /** A word has an active mark unless each of its marks stands before another mark. */
  lemma {:induction false} MarksAreActive(w: string)
    ensures HasMark(w) <==> !Inert(w)
    ensures GLOB !in w ==> Inert(w) && Deglob(w) == w
    decreases |w|
  {
    if w != [] && w[0] != GLOB {
      MarksAreActive(w[1..]);
    } else if |w| >= 2 && w[1] == GLOB {
      MarksAreActive(w[2..]);
    }
  }

  predicate AllLetters(ts: seq<Token>) {
    forall i :: 0 <= i < |ts| ==> ts[i].Literal?
  }

  lemma OneLetter(ts: seq<Token>, t: Token, rest: seq<Token>)
    requires t.Literal? && ts == [t] + rest
    ensures AllLetters(ts) <==> AllLetters(rest)
  {
    assert forall i :: 0 <= i < |rest| ==> rest[i] == ts[i + 1];
  }

  /** An active mark is one that makes a token that is not a letter. */
  lemma {:induction false} MarksMakeTokens(p: string)
    requires WellMarked(p, '\0') && '\0' !in p
    ensures Inert(p) <==> AllLetters(Tokens(p, '\0'))
    decreases |p|
  {
    var ts := Tokens(p, '\0');
    if p == [] {
      assert ts == [];
    } else if p[0] != GLOB {
      assert p[0] in p && forall c :: c in p[1..] ==> c in p;
      MarksMakeTokens(p[1..]);
      OneLetter(ts, Literal(p[0]), Tokens(p[1..], '\0'));
    } else if p[1] == GLOB {
      assert p[0] in p && forall c :: c in p[2..] ==> c in p;
      MarksMakeTokens(p[2..]);
      assert ts == [Literal(GLOB)] + Tokens(p[2..], '\0');
      OneLetter(ts, Literal(GLOB), Tokens(p[2..], '\0'));
    } else {
      assert p[0] in p;
      assert ts != [] && !ts[0].Literal?;
    }
  }

  /** File names are expanded word by word, in the order of the words. */
  lemma {:induction false} GlobInOrder(host: Host, world: World, a: Strings, b: Strings)
    ensures GlobWords(host, world, a + b) == GlobWords(host, world, a) + GlobWords(host, world, b)
    ensures GlobWords(host, world, []) == []
    decreases |a|
  {
    hide GlobWord;
    if a == [] {
      assert a + b == b;
    } else {
      assert (a + b)[1..] == a[1..] + b;
      GlobInOrder(host, world, a[1..], b);
    }
  }

  /** One word: itself without its marks, unless it is a pattern that some file matches. */
  lemma GlobOne(host: Host, world: World, w: string)
    ensures Inert(w) ==> GlobWords(host, world, [w]) == [Deglob(w)]
    ensures GLOB !in w ==> GlobWords(host, world, [w]) == [w]
    ensures !Inert(w) && host.glob(world, w) != [] ==> GlobWords(host, world, [w]) == host.glob(world, w)
    ensures !Inert(w) && host.glob(world, w) == [] ==> GlobWords(host, world, [w]) == [Deglob(w)]
  {
    MarksAreActive(w);
    assert [w][1..] == [] && GlobWords(host, world, []) == [];
  }

  predicate AllPlain(ws: Strings) {
    forall i :: 0 <= i < |ws| ==> GLOB !in ws[i]
  }

  /** Words without marks are the words that they are. */
  lemma {:induction false} GlobPlain(host: Host, world: World, ws: Strings)
    requires AllPlain(ws)
    ensures GlobWords(host, world, ws) == ws
    decreases |ws|
  {
    if ws != [] {
      GlobPlain(host, world, ws[1..]);
      GlobOne(host, world, ws[0]);
      GlobInOrder(host, world, [ws[0]], ws[1..]);
      assert [ws[0]] + ws[1..] == ws;
    }
  }

  /** A space between two words, and nothing else. */
  lemma {:induction false} SpacedInOrder(a: Strings, b: Strings, w: string)
    ensures Spaced([]) == "" && Spaced([w]) == w
    ensures a != [] && b != [] ==> Spaced(a + b) == Spaced(a) + " " + Spaced(b)
    decreases |a|
  {
    if a != [] && b != [] {
      assert (a + b)[1..] == a[1..] + b;
      if |a| == 1 {
        assert a[1..] + b == b;
      } else {
        SpacedInOrder(a[1..], b, w);
        assert a[0] + " " + (Spaced(a[1..]) + " " + Spaced(b)) == Spaced(a) + " " + Spaced(b);
      }
    }
  }

  /** Several subscripts select one after the other. */
  lemma {:induction false} SubscriptsInOrder(val: Strings, a: Strings, b: Strings)
    ensures SubWords(val, a + b) == SubWords(val, a) + SubWords(val, b)
    ensures SubWords(val, []) == []
    decreases |a|
  {
    hide SubRange;
    if a == [] {
      assert a + b == b;
    } else {
      assert (a + b)[1..] == a[1..] + b;
      SubscriptsInOrder(val, a[1..], b);
    }
  }

  lemma OneSubscript(val: Strings, n: nat)
    ensures SubWords(val, [Decimal(n)]) == if 1 <= n <= |val| then [val[n - 1]] else []
  {
    SubRangeWords(val, n);
    hide SubRange;
    assert [Decimal(n)][1..] == [] && SubWords(val, []) == [];
  }

  predicate AllDigits(s: string) {
    forall i :: 0 <= i < |s| ==> '0' <= s[i] <= '9'
  }

  /** Numbers are decimal: one more digit is worth ten times what is before it, and itself. */
  lemma {:induction false} ReadDigits(s: string, n: nat, d: char)
    requires AllDigits(s)
    ensures '0' <= d <= '9' ==> ReadNat(s + [d], n) == 10 * ReadNat(s, n) + (d as int - '0' as int)
    ensures !('0' <= d <= '9') ==> ReadNat(s + [d], n) == ReadNat(s, n)
    ensures ReadNat("", 0) == 0 && SkipDigits(s) == ""
    decreases |s|
  {
    if s == "" {
      assert s + [d] == [d] && [d][1..] == "";
    } else {
      assert (s + [d])[1..] == s[1..] + [d];
      ReadDigits(s[1..], n * 10 + (s[0] as int - '0' as int), d);
    }
  }

  /** A number is written with digits, the first of which is no zero. */
  lemma {:induction false} WrittenDigits(n: nat)
    ensures AllDigits(Decimal(n)) && Decimal(n) != [] && (n > 0 ==> Decimal(n)[0] != '0') && Decimal(0) == "0"
    decreases n
  {
    if n >= 10 {
      WrittenDigits(n / 10);
    }
  }

  /** $1, $2 and so on are the words of $*; any other name is a variable. */
  lemma DollarIs(s: Store, n: nat, name: string)
    ensures n > 0 ==> DollarValue(s, Decimal(n)) ==
                      if n <= |Lookup(s, "*")| then [Lookup(s, "*")[n - 1]] else []
    ensures n > 0 ==> CountValue(s, Decimal(n)) == if n <= |Lookup(s, "*")| then "1" else "0"
    ensures (exists i :: 0 <= i < |name| && !('0' <= name[i] <= '9')) ==>
              DollarValue(s, name) == Lookup(s, name) && CountValue(s, name) == Decimal(|Lookup(s, name)|)
    ensures name == "0" ==> DollarValue(s, name) == Lookup(s, name)
  {
    hide Lookup;
    DecimalReads(n, []);
    assert Decimal(n) + [] == Decimal(n);
    assert Decimal(1) == "1" && Decimal(0) == "0";
    if i :| 0 <= i < |name| && !('0' <= name[i] <= '9') {
      NotAllDigits(name, i);
    }
    assert name == "0" ==> ReadNat(name, 0) == 0 by {
      assert "0"[1..] == "";
    }
    hide Decimal;
  }

  lemma {:induction false} NotAllDigits(s: string, i: nat)
    requires i < |s| && !('0' <= s[i] <= '9')
    ensures SkipDigits(s) != []
    decreases |s|
  {
    if i > 0 {
      NotAllDigits(s[1..], i - 1);
    }
  }

  /** Two lists cannot be joined if one only is empty, or if both have several words and not as many. */
  lemma ConcatFails(l: Strings, r: Strings)
    ensures Concat(l, r).None? <==>
            (l == []) != (r == []) || (|l| > 1 && |r| > 1 && |l| != |r|)
    ensures Concat([], []) == Some([])
  {}

  /** Every name of a list is defined, and no other name changes. */
  lemma {:induction false} DefineAll<T>(names: Strings, f: T, fns: map<string, T>, n: string)
    ensures n in names ==> n in Define(names, f, fns) && Define(names, f, fns)[n] == f
    ensures n !in names && n in fns ==> n in Define(names, f, fns) && Define(names, f, fns)[n] == fns[n]
    ensures n !in names && n !in fns ==> n !in Define(names, f, fns)
    decreases |names|
  {
    if names != [] {
      DefineAll(names[1..], f, fns[names[0] := f], n);
      assert names == [names[0]] + names[1..];
    }
  }

  /******* Characters between others *******/

  /** A range has its ends and what is between them, in whichever order they are written. */
  lemma BetweenIs(c: char, lo: char, hi: char)
    ensures Between(c, lo, hi) <==> (lo <= c && c <= hi) || (hi <= c && c <= lo)
    ensures Between(c, lo, hi) <==> Between(c, hi, lo)
  {}

  /** `*`, `?`, `[lo-hi]` and `[~lo-hi]`, each as a whole pattern. */
  lemma PatternsMatch(s: string, lo: char, hi: char)
    requires lo != ']' && lo != '~' && lo != '-'
    ensures Match(s, [GLOB, '*'], '\0') && (Match(s, [GLOB, '?'], '\0') <==> |s| == 1)
    ensures Match(s, [GLOB, '[', lo, '-', hi, ']'], '\0') <==>
            |s| == 1 && ((lo <= s[0] && s[0] <= hi) || (hi <= s[0] && s[0] <= lo))
    ensures Match(s, [GLOB, '[', '~', lo, '-', hi, ']'], '\0') <==>
            |s| == 1 && !((lo <= s[0] && s[0] <= hi) || (hi <= s[0] && s[0] <= lo))
  {
    StarMatches(s);
    var p, q := [GLOB, '[', lo, '-', hi, ']'], [GLOB, '[', '~', lo, '-', hi, ']'];
    assert p[2..] == [lo, '-', hi, ']'] && q[3..] == [lo, '-', hi, ']'] && q[2..][0] == '~';
    assert [GLOB, '?'][2..] == [];
    if s != [] {
      OneRange(s[0], lo, hi);
      assert s[1..] == [] <==> |s| == 1;
    }
  }

  lemma OneRange(c: char, lo: char, hi: char)
    requires lo != ']'
    ensures ScanClass([lo, '-', hi, ']'], c, false) == Some(ClassScan(Between(c, lo, hi), []))
  {
    var p := [lo, '-', hi, ']'];
    assert p[3..] == [']'] && [']'][1..] == [];
  }

  lemma {:induction false} StarMatches(s: string)
    ensures Match(s, [GLOB, '*'], '\0')
  {
    assert [GLOB, '*'][2..] == [];
    if s != [] {
      StarMatches(s[1..]);
    }
  }
}
