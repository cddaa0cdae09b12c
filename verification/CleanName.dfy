/**
 Path cleaning in place (BOOT/lib9/cleanname.c).

 A path is a string of elements between slashes.  `Clean` is the reference: it keeps the
 elements on a stack.  `Walk` is what a path means: the directory it leads to.
 */
module CleanName {
  const SLASH: char := '/'
  const NUL: char := '\0'
  const DOT: string := "."
  const DOTDOT: string := ".."

  /******* The reference *******/

  function Split(s: string): (r: seq<string>)
    ensures r != []
  {
    if s == "" then [""]
    else
      var rest := Split(s[1..]);
      if s[0] == SLASH then [""] + rest else [[s[0]] + rest[0]] + rest[1..]
  }

  /** One element: nothing, a step up, or a name. */
  function Put(rooted: bool, stack: seq<string>, e: string): seq<string> {
    if e == "" || e == DOT then stack
    else if e == DOTDOT then
      if stack != [] && stack[|stack| - 1] != DOTDOT then stack[..|stack| - 1]
      else if rooted then stack else stack + [e]
    else stack + [e]
  }

  function PutAll(rooted: bool, stack: seq<string>, es: seq<string>): seq<string>
    decreases es
  {
    if es == [] then stack else PutAll(rooted, Put(rooted, stack, es[0]), es[1..])
  }

  function Join(stack: seq<string>): string {
    if stack == [] then ""
    else if |stack| == 1 then stack[0]
    else Join(stack[..|stack| - 1]) + [SLASH] + stack[|stack| - 1]
  }

  predicate Rooted(s: string) {
    s != "" && s[0] == SLASH
  }

  function Start(s: string): nat {
    if Rooted(s) then 1 else 0
  }

  function Elements(s: string): seq<string> {
    Split(s[Start(s)..])
  }

  function Stack(s: string): seq<string> {
    PutAll(Rooted(s), [], Elements(s))
  }

  function Render(rooted: bool, stack: seq<string>): string {
    (if rooted then [SLASH] else "") + Join(stack)
  }

  function Clean(s: string): string {
    if !Rooted(s) && Stack(s) == [] then DOT else Render(Rooted(s), Stack(s))
  }

  /******* Clean stacks *******/

  /** A proper name: not empty, not a dot, not a double dot, and without a slash. */
  predicate IsName(e: string) {
    e != "" && e != DOT && e != DOTDOT && SLASH !in e
  }

  /** The stack is k times double dot, none if rooted, and then names. */
  predicate Normal(rooted: bool, stack: seq<string>, k: nat) {
    && k <= |stack| && (rooted ==> k == 0)
    && (forall i :: 0 <= i < k ==> stack[i] == DOTDOT)
    && (forall i :: k <= i < |stack| ==> IsName(stack[i]))
  }

  /** The number of steps up after one more element. */
  function Ups(rooted: bool, stack: seq<string>, k: nat, e: string): nat {
    if e == DOTDOT && !rooted && |stack| <= k then k + 1 else k
  }

  lemma PutNormal(rooted: bool, stack: seq<string>, k: nat, e: string)
    requires Normal(rooted, stack, k) && SLASH !in e
    ensures Normal(rooted, Put(rooted, stack, e), Ups(rooted, stack, k, e))
    ensures e == DOTDOT ==> (Put(rooted, stack, e) ==
                             if |stack| > k then stack[..|stack| - 1] else if rooted then stack else stack + [e])
  {}

  lemma {:induction false} PutAllNormal(rooted: bool, stack: seq<string>, k: nat, es: seq<string>) returns (k': nat)
    requires Normal(rooted, stack, k) && forall i :: 0 <= i < |es| ==> SLASH !in es[i]
    ensures Normal(rooted, PutAll(rooted, stack, es), k')
    decreases es
  {
    if es == [] {
      k' := k;
    } else {
      PutNormal(rooted, stack, k, es[0]);
      k' := PutAllNormal(rooted, Put(rooted, stack, es[0]), Ups(rooted, stack, k, es[0]), es[1..]);
    }
  }

  lemma {:induction false} SplitPlain(s: string)
    ensures forall i :: 0 <= i < |Split(s)| ==> SLASH !in Split(s)[i]
  {
    if s != "" {
      SplitPlain(s[1..]);
    }
  }

  /** A cleaned path has no empty element and no dot, and double dots only in front of an
      unrooted one. */
  lemma StackNormal(s: string) returns (k: nat)
    ensures Normal(Rooted(s), Stack(s), k)
  {
    SplitPlain(s[Start(s)..]);
    k := PutAllNormal(Rooted(s), [], 0, Elements(s));
  }

  /******* Reading a path element by element *******/

  lemma {:induction false} SplitFirst(e: string, rest: string)
    requires SLASH !in e && (rest == "" || rest[0] == SLASH)
    ensures Split(e + rest) == [e] + Split(rest)[1..]
    ensures Split(rest)[0] == ""
    decreases e
  {
    if e == "" {
      assert e + rest == rest;
      assert Split(rest) == [Split(rest)[0]] + Split(rest)[1..];
    } else {
      assert (e + rest)[1..] == e[1..] + rest;
      SplitFirst(e[1..], rest);
      assert [e[0]] + e[1..] == e;
    }
  }

  /** Reading the first element of what is left of a path. */
  lemma ReadElement(rooted: bool, stack: seq<string>, e: string, rest: string)
    requires SLASH !in e && (rest == "" || rest[0] == SLASH)
    ensures PutAll(rooted, stack, Split(e + rest)) == PutAll(rooted, Put(rooted, stack, e), Split(rest))
  {
    SplitFirst(e, rest);
    var es := Split(rest);
    assert Split(e + rest)[1..] == es[1..];
    assert Put(rooted, Put(rooted, stack, e), es[0]) == Put(rooted, stack, e);
  }

  lemma ReadSlash(rooted: bool, stack: seq<string>, s: string)
    requires s != "" && s[0] == SLASH
    ensures PutAll(rooted, stack, Split(s)) == PutAll(rooted, stack, Split(s[1..]))
  {
    assert Split(s)[1..] == Split(s[1..]);
  }

  lemma ReadNothing(rooted: bool, stack: seq<string>)
    ensures PutAll(rooted, stack, Split("")) == stack
  {
    assert Split("")[1..] == [];
  }

  /******* Cleaning twice *******/

  lemma SplitStep(c: char, rest: string)
    ensures Split([c] + rest) ==
            if c == SLASH then [""] + Split(rest) else [[c] + Split(rest)[0]] + Split(rest)[1..]
  {
    assert ([c] + rest)[1..] == rest;
  }

  lemma Prefixed(c: char, p: seq<string>, q: seq<string>)
    requires p != []
    ensures [[c] + (p + q)[0]] + (p + q)[1..] == [[c] + p[0]] + p[1..] + q
    ensures [""] + (p + q) == [""] + p + q
  {
    assert (p + q)[1..] == p[1..] + q;
  }

  lemma {:induction false} SplitConcat(a: string, b: string)
    ensures Split(a + [SLASH] + b) == Split(a) + Split(b)
    decreases a
  {
    hide Split;
    if a == "" {
      SplitStep(SLASH, b);
      assert a + [SLASH] + b == [SLASH] + b;
      SplitWord("");
    } else {
      var c, rest := a[0], a[1..];
      assert a == [c] + rest && a + [SLASH] + b == [c] + (rest + [SLASH] + b);
      SplitStep(c, rest);
      SplitStep(c, rest + [SLASH] + b);
      SplitConcat(rest, b);
      Prefixed(c, Split(rest), Split(b));
    }
  }

  lemma SplitWord(e: string)
    requires SLASH !in e
    ensures Split(e) == [e]
  {
    SplitFirst(e, "");
    assert e + "" == e;
  }

  lemma {:induction false} SplitJoin(stack: seq<string>)
    requires stack != [] && forall i :: 0 <= i < |stack| ==> SLASH !in stack[i]
    ensures Split(Join(stack)) == stack
  {
    var e := stack[|stack| - 1];
    SplitWord(e);
    if |stack| > 1 {
      var front := stack[..|stack| - 1];
      SplitJoin(front);
      SplitConcat(Join(front), e);
      assert front + [e] == stack;
    }
  }

  lemma {:induction false} PutAllSnoc(rooted: bool, stack: seq<string>, es: seq<string>, e: string)
    ensures PutAll(rooted, stack, es + [e]) == Put(rooted, PutAll(rooted, stack, es), e)
    decreases es
  {
    if es == [] {
      assert es + [e] == [e];
    } else {
      assert (es + [e])[1..] == es[1..] + [e];
      PutAllSnoc(rooted, Put(rooted, stack, es[0]), es[1..], e);
    }
  }

  /** A normal stack, put element by element, is itself. */
  lemma {:induction false} PutNormalBack(rooted: bool, stack: seq<string>, k: nat)
    requires Normal(rooted, stack, k)
    ensures PutAll(rooted, [], stack) == stack
    decreases |stack|
  {
    if stack != [] {
      var front, e := stack[..|stack| - 1], stack[|stack| - 1];
      PutNormalBack(rooted, front, if k == |stack| then k - 1 else k);
      PutAllSnoc(rooted, [], front, e);
      assert front + [e] == stack;
    }
  }

  lemma {:induction false} JoinNotRooted(stack: seq<string>)
    requires stack != [] && stack[0] != "" && SLASH !in stack[0]
    ensures Join(stack) != "" && Join(stack)[0] != SLASH
  {
    if |stack| > 1 {
      JoinNotRooted(stack[..|stack| - 1]);
    }
  }

  /** A rendered normal stack is read back as itself. */
  lemma StackOfRender(rooted: bool, stack: seq<string>, k: nat)
    requires Normal(rooted, stack, k) && (rooted || stack != [])
    ensures Rooted(Render(rooted, stack)) == rooted && Stack(Render(rooted, stack)) == stack
  {
    var s := Render(rooted, stack);
    if stack == [] {
      assert s[1..] == "";
      ReadNothing(true, []);
    } else {
      JoinNotRooted(stack);
      assert s[Start(s)..] == Join(stack);
      SplitJoin(stack);
      PutNormalBack(rooted, stack, k);
    }
  }

  lemma CleanTwice(s: string)
    ensures Clean(Clean(s)) == Clean(s)
  {
    var k := StackNormal(s);
    if !Rooted(s) && Stack(s) == [] {
      SplitWord(DOT);
      assert DOT[0..] == DOT;
      assert PutAll(false, [], [DOT]) == [];
    } else {
      StackOfRender(Rooted(s), Stack(s), k);
    }
  }

  /******* What a path means *******/

  /** Going from a directory along one element; there is nothing above the root. */
  function Go(dir: seq<string>, e: string): seq<string> {
    if e == "" || e == DOT then dir
    else if e == DOTDOT then if dir == [] then [] else dir[..|dir| - 1]
    else dir + [e]
  }

  function GoAll(dir: seq<string>, es: seq<string>): seq<string>
    decreases es
  {
    if es == [] then dir else GoAll(Go(dir, es[0]), es[1..])
  }

  /** The directory that a path leads to from cwd. */
  function Walk(cwd: seq<string>, s: string): seq<string> {
    GoAll(if Rooted(s) then [] else cwd, Elements(s))
  }

  lemma {:induction false} GoAllSnoc(dir: seq<string>, es: seq<string>, e: string)
    ensures GoAll(dir, es + [e]) == Go(GoAll(dir, es), e)
    decreases es
  {
    if es == [] {
      assert es + [e] == [e];
    } else {
      assert (es + [e])[1..] == es[1..] + [e];
      GoAllSnoc(Go(dir, es[0]), es[1..], e);
    }
  }

  /** Putting an element on the stack is going along it. */
  lemma PutGoes(rooted: bool, dir: seq<string>, stack: seq<string>, k: nat, e: string)
    requires Normal(rooted, stack, k) && SLASH !in e && (rooted ==> dir == [])
    ensures GoAll(dir, Put(rooted, stack, e)) == Go(GoAll(dir, stack), e)
  {
    PutNormal(rooted, stack, k, e);
    if e == DOTDOT && |stack| > k {
      var front, last := stack[..|stack| - 1], stack[|stack| - 1];
      assert stack == front + [last];
      GoAllSnoc(dir, front, last);
      assert (GoAll(dir, front) + [last])[..|GoAll(dir, front)|] == GoAll(dir, front);
    } else if e == DOTDOT && rooted {
      assert stack == [];
    } else if Put(rooted, stack, e) != stack {
      GoAllSnoc(dir, stack, e);
    }
  }

  lemma {:induction false} PutAllGoes(rooted: bool, dir: seq<string>, stack: seq<string>, k: nat, es: seq<string>)
    requires Normal(rooted, stack, k) && (rooted ==> dir == [])
    requires forall i :: 0 <= i < |es| ==> SLASH !in es[i]
    ensures GoAll(dir, PutAll(rooted, stack, es)) == GoAll(GoAll(dir, stack), es)
    decreases es
  {
    if es != [] {
      PutNormal(rooted, stack, k, es[0]);
      PutGoes(rooted, dir, stack, k, es[0]);
      PutAllGoes(rooted, dir, Put(rooted, stack, es[0]), Ups(rooted, stack, k, es[0]), es[1..]);
    }
  }

  lemma WalkStack(cwd: seq<string>, s: string)
    ensures Walk(cwd, s) == GoAll(if Rooted(s) then [] else cwd, Stack(s))
  {
    SplitPlain(s[Start(s)..]);
    PutAllGoes(Rooted(s), if Rooted(s) then [] else cwd, [], 0, Elements(s));
  }

  /** The cleaned path leads to the same directory from everywhere. */
  lemma CleanKeepsMeaning(cwd: seq<string>, s: string)
    ensures Walk(cwd, Clean(s)) == Walk(cwd, s)
  {
    var k := StackNormal(s);
    WalkStack(cwd, s);
    WalkStack(cwd, Clean(s));
    if !Rooted(s) && Stack(s) == [] {
      SplitWord(DOT);
      assert DOT[0..] == DOT;
      assert PutAll(false, [], [DOT]) == [];
    } else {
      StackOfRender(Rooted(s), Stack(s), k);
    }
  }

  /** What a normal stack does to a directory: k steps up, then the names. */
  lemma {:induction false} GoNormal(rooted: bool, dir: seq<string>, stack: seq<string>, k: nat)
    requires Normal(rooted, stack, k) && k <= |dir|
    ensures GoAll(dir, stack) == dir[..|dir| - k] + stack[k..]
    decreases |stack|
  {
    if stack != [] {
      var front, e := stack[..|stack| - 1], stack[|stack| - 1];
      var j := if k == |stack| then k - 1 else k;
      GoNormal(rooted, dir, front, j);
      GoAllSnoc(dir, front, e);
      assert front + [e] == stack;
      assert front[j..] + (if k == |stack| then [] else [e]) == stack[k..];
    }
  }

  /** A string that is none of the given ones. */
  lemma {:induction false} NewString(es: seq<string>) returns (x: string)
    ensures forall i :: 0 <= i < |es| ==> |es[i]| < |x|
  {
    if es == [] {
      x := "x";
    } else {
      x := NewString(es[1..]);
      assert forall i :: 0 < i < |es| ==> es[i] == es[1..][i - 1];
      x := x + es[0];
      if x == es[0] {
        x := x + "x";
      }
    }
  }

  /** Two normal stacks that lead to the same place from a deep directory of strange names
      are the same. */
  lemma SameGoing(a: seq<string>, j: nat, b: seq<string>, k: nat, cwd: seq<string>, x: string)
    requires Normal(false, a, j) && Normal(false, b, k) && |cwd| > |a| + |b| && j <= k
    requires (forall i :: 0 <= i < |cwd| ==> cwd[i] == x) && x !in b
    requires GoAll(cwd, a) == GoAll(cwd, b)
    ensures a == b
  {
    hide GoAll;
    hide Normal;
    NormalParts(a, j);
    NormalParts(b, k);
    GoNormal(false, cwd, a, j);
    GoNormal(false, cwd, b, k);
    var ra, rb := a[j..], b[k..];
    SameEnds(cwd, ra, j, rb, k, x);
    SameParts(a, b, j);
  }

  lemma SameEnds(cwd: seq<string>, a: seq<string>, j: nat, b: seq<string>, k: nat, x: string)
    requires j <= k <= |cwd| && cwd[..|cwd| - j] + a == cwd[..|cwd| - k] + b
    requires (forall i :: 0 <= i < |cwd| ==> cwd[i] == x) && x !in b
    ensures j == k && a == b
  {
    SameTails(cwd[..|cwd| - j], a, cwd[..|cwd| - k], b, x);
  }

  lemma NormalParts(a: seq<string>, k: nat)
    requires Normal(false, a, k)
    ensures k <= |a| && forall i :: 0 <= i < k ==> a[i] == DOTDOT
  {}

  lemma SameParts(a: seq<string>, b: seq<string>, k: nat)
    requires k <= |a| && k <= |b| && a[k..] == b[k..]
    requires forall i :: 0 <= i < k ==> a[i] == b[i]
    ensures a == b
  {
    assert a == a[..k] + a[k..];
    assert b == b[..k] + b[k..];
  }

  /** A strange name ends where the names begin. */
  lemma SameTails(xs: seq<string>, a: seq<string>, ys: seq<string>, b: seq<string>, x: string)
    requires xs + a == ys + b && |ys| <= |xs| && x !in b && forall i :: 0 <= i < |xs| ==> xs[i] == x
    ensures |xs| == |ys| && a == b
  {
    var both := xs + a;
    var c := if |ys| < |both| then both[|ys|] else x;
    assert |ys| < |xs| ==> c == x;
    assert |ys| < |both| ==> c == (ys + b)[|ys|] && c in b;
    assert both[|xs|..] == a;
    assert (ys + b)[|ys|..] == b;
  }

  /**
   The cleaned path is a canonical form: two paths clean to the same one if and only if
   they lead to the same directory from everywhere.
   */
  lemma CleanIsCanonical(s: string, t: string)
    ensures Clean(s) == Clean(t) <==> forall cwd :: Walk(cwd, s) == Walk(cwd, t)
  {
    hide Clean;
    hide Stack;
    hide Walk;
    hide Rooted;
    hide GoAll;
    if Clean(s) == Clean(t) {
      forall cwd ensures Walk(cwd, s) == Walk(cwd, t) {
        CleanKeepsMeaning(cwd, s);
        CleanKeepsMeaning(cwd, t);
      }
    }
    if forall cwd :: Walk(cwd, s) == Walk(cwd, t) {
      SameMeaning(s, t);
      SameClean(s, t);
    }
  }

  lemma SameClean(s: string, t: string)
    requires Rooted(s) == Rooted(t) && Stack(s) == Stack(t)
    ensures Clean(s) == Clean(t)
  {
    hide Stack;
    hide Rooted;
  }

  lemma SameMeaning(s: string, t: string)
    requires forall cwd :: Walk(cwd, s) == Walk(cwd, t)
    ensures Rooted(s) == Rooted(t) && Stack(s) == Stack(t)
  {
    hide Stack;
    hide Walk;
    hide Rooted;
    hide Split;
    hide GoAll;
    var j := StackNormal(s);
    var k := StackNormal(t);
    var a, b := Stack(s), Stack(t);
    var x := NewString(a + b);
    assert forall i :: 0 <= i < |a| ==> a[i] == (a + b)[i];
    assert forall i :: 0 <= i < |b| ==> b[i] == (a + b)[|a| + i];
    var cwd := seq(|a| + |b| + 1, _ => x);
    WalkStack(cwd, s);
    WalkStack(cwd, t);
    assert Walk(cwd, s) == Walk(cwd, t);
    if Rooted(s) {
      GoNormal(true, [], a, j);
      assert [][..0] + a[0..] == a;
    } else {
      GoNormal(false, cwd, a, j);
    }
    if Rooted(t) {
      GoNormal(true, [], b, k);
      assert [][..0] + b[0..] == b;
    } else {
      GoNormal(false, cwd, b, k);
    }
    if !Rooted(s) && !Rooted(t) {
      if j <= k {
        SameGoing(a, j, b, k, cwd, x);
      } else {
        SameGoing(b, k, a, j, cwd, x);
      }
    }
  }

  /******* The shortest path *******/

  function Total(es: seq<string>): nat {
    if es == [] then 0 else |es[0]| + Total(es[1..])
  }

  lemma {:induction false} SplitTotal(s: string)
    ensures |s| == Total(Split(s)) + |Split(s)| - 1
  {
    if s != "" {
      SplitTotal(s[1..]);
      var rest := Split(s[1..]);
      if s[0] != SLASH {
        assert Split(s)[1..] == rest[1..];
      } else {
        assert Split(s)[1..] == rest;
      }
    }
  }

  /** One element makes the rendered stack longer by no more than itself and a slash. */
  lemma PutShort(rooted: bool, stack: seq<string>, e: string)
    ensures |Join(Put(rooted, stack, e))| <= |Join(stack)| + |e| + if stack == [] then 0 else 1
  {
    JoinSnoc(stack, e);
    if stack != [] {
      JoinSnoc(stack[..|stack| - 1], stack[|stack| - 1]);
      assert stack[..|stack| - 1] + [stack[|stack| - 1]] == stack;
    }
  }

  lemma {:induction false} PutAllShort(rooted: bool, stack: seq<string>, es: seq<string>)
    requires es != []
    ensures |Join(PutAll(rooted, stack, es))| <=
            |Join(stack)| + Total(es) + |es| - if stack == [] then 1 else 0
    decreases es
  {
    hide Join;
    hide Put;
    PutShort(rooted, stack, es[0]);
    if |es| > 1 {
      PutAllShort(rooted, Put(rooted, stack, es[0]), es[1..]);
    } else {
      assert es[1..] == [];
    }
    JoinNothing();
  }

  lemma JoinNothing()
    ensures Join([]) == ""
  {}

  lemma CleanShort(s: string)
    requires s != ""
    ensures |Clean(s)| <= |s|
  {
    hide Split;
    hide PutAll;
    hide Join;
    SplitTotal(s[Start(s)..]);
    PutAllShort(Rooted(s), [], Elements(s));
    JoinNothing();
  }

  /** The result is a path: it is never empty. */
  lemma CleanIsPath(s: string)
    ensures Clean(s) != ""
  {
    var k := StackNormal(s);
    JoinEmpty(Rooted(s), Stack(s), k);
    hide Stack;
    hide Join;
  }

  /** No path with the same meaning is shorter, but for the empty one. */
  lemma CleanShortest(s: string, t: string)
    requires t != "" && forall cwd :: Walk(cwd, t) == Walk(cwd, s)
    ensures 0 < |Clean(s)| <= |t|
  {
    CleanIsPath(s);
    CleanIsCanonical(s, t);
    CleanShort(t);
    hide Clean;
  }

  /** The paths that lead from everywhere to where one is are those that become a dot. */
  lemma CleanDot(s: string)
    ensures Clean(s) == DOT <==> forall cwd :: Walk(cwd, s) == cwd
  {
    hide Clean;
    DotStays();
    CleanIsCanonical(s, DOT);
  }

  lemma DotStays()
    ensures Clean(DOT) == DOT && forall cwd :: Walk(cwd, DOT) == cwd
  {
    SplitWord(DOT);
    assert DOT[0..] == DOT;
    assert PutAll(false, [], [DOT]) == [];
    forall cwd ensures Walk(cwd, DOT) == cwd {
      assert GoAll(cwd, [DOT]) == GoAll(Go(cwd, DOT), [DOT][1..]) == cwd;
    }
  }

  /******* In place *******/

  lemma JoinSnoc(stack: seq<string>, e: string)
    ensures Join(stack + [e]) == (if stack == [] then "" else Join(stack) + [SLASH]) + e
  {
    assert (stack + [e])[..|stack|] == stack;
  }

  /** Only the empty stack is rendered as nothing. */
  lemma JoinEmpty(rooted: bool, stack: seq<string>, k: nat)
    requires Normal(rooted, stack, k)
    ensures Join(stack) == "" <==> stack == []
  {}

  /** The double dots take up the first part of the path; names make it longer. */
  lemma {:induction false} JoinLonger(rooted: bool, stack: seq<string>, k: nat)
    requires Normal(rooted, stack, k)
    ensures if |stack| == k then Join(stack[..k]) == Join(stack) else |Join(stack[..k])| < |Join(stack)|
    decreases |stack|
  {
    if |stack| == k {
      assert stack[..k] == stack;
    } else {
      var front, e := stack[..|stack| - 1], stack[|stack| - 1];
      assert front + [e] == stack && front[..k] == stack[..k];
      JoinSnoc(front, e);
      JoinLonger(rooted, front, k);
    }
  }

  /**
   The state of the loop: the path before p has been read and put on the stack, the stack
   has been written before q, and the rest of the path is as it was.  dotdot is where the
   double dots end, and there is room to write a slash before the next element.
   */
  ghost predicate Doing(a: array<char>, s: string, p: nat, q: nat, dotdot: nat, stack: seq<string>, k: nat)
    reads a
  {
    && Start(s) <= q <= p <= |s| < a.Length
    && (forall j :: p <= j < |s| ==> a[j] == s[j]) && a[|s|] == NUL
    && a[..q] == Render(Rooted(s), stack)
    && Normal(Rooted(s), stack, k)
    && dotdot == Start(s) + |Join(stack[..k])|
    && PutAll(Rooted(s), stack, Split(s[p..])) == Stack(s)
    && (q < p || q == Start(s) || p == |s| || s[p] == SLASH)
  }

  predicate Sep(c: char) {
    c == SLASH || c == NUL
  }

  /** Go back over the last name, to the slash before it or to the double dots. */
  method Backtrack(a: array<char>, q0: nat, dotdot: nat, ghost rooted: bool, ghost stack: seq<string>, ghost k: nat)
    returns (q: nat)
    requires q0 <= a.Length && a[..q0] == Render(rooted, stack) && Normal(rooted, stack, k) && |stack| > k
    requires dotdot == (if rooted then 1 else 0) + |Join(stack[..k])|
    ensures q < q0 && a[..q] == Render(rooted, stack[..|stack| - 1])
  {
    hide Render;
    hide Join;
    hide Normal;
    ghost var w := a[..q0];
    ghost var t := |Render(rooted, stack[..|stack| - 1])|;
    ghost var b := LastName(rooted, stack, k);
    q := q0 - 1;
    while q > dotdot && a[q] != SLASH
      invariant t <= q < q0
    {
      assert w[q] == a[q];
      q := q - 1;
    }
    assert w[q] == a[q];
    assert a[..q] == w[..q];
  }

  lemma RenderSnoc(rooted: bool, stack: seq<string>, e: string)
    ensures Render(rooted, stack + [e]) == Render(rooted, stack) + (if stack == [] then "" else [SLASH]) + e
  {
    JoinSnoc(stack, e);
    assert stack == [] ==> Join(stack) == "";
    hide Join;
    var r := if rooted then [SLASH] else "";
    if stack == [] {
      assert r + "" + "" + e == r + e;
    } else {
      assert r + (Join(stack) + [SLASH] + e) == r + Join(stack) + [SLASH] + e;
    }
  }

  /** Where the last name of a rendered path begins, and the path before it ends. */
  lemma LastName(rooted: bool, stack: seq<string>, k: nat) returns (b: nat)
    requires Normal(rooted, stack, k) && |stack| > k
    ensures var w := Render(rooted, stack);
            var front := Render(rooted, stack[..|stack| - 1]);
            var dotdot := (if rooted then 1 else 0) + |Join(stack[..k])|;
            && dotdot <= |front| <= b < |w| && w[..|front|] == front
            && (forall j :: b <= j < |w| ==> w[j] != SLASH)
            && (if b == |front| then dotdot == |front| else b == |front| + 1 && w[|front|] == SLASH)
  {
    hide Join;
    hide Render;
    var front, e := stack[..|stack| - 1], stack[|stack| - 1];
    assert front + [e] == stack && front[..k] == stack[..k];
    assert IsName(e);
    JoinLonger(rooted, front, k);
    RenderSize(rooted, front);
    RenderSnoc(rooted, front, e);
    hide Normal;
    var r, gap := Render(rooted, front), if front == [] then "" else [SLASH];
    b := |r| + |gap|;
    ThreeParts(r, gap, e);
  }

  lemma ThreeParts(r: string, gap: string, e: string)
    ensures var w := r + gap + e;
            && w[..|r|] == r
            && (forall j :: |r| + |gap| <= j < |w| ==> w[j] == e[j - |r| - |gap|])
            && (gap != "" ==> w[|r|] == gap[0])
  {}

  /** Copy a name from p to q, up to and including the slash or NUL after it. */
  method Copy(a: array<char>, p0: nat, q0: nat, ghost s: string) returns (p: nat, q: nat)
    requires q0 <= p0 < |s| < a.Length && NUL !in s && a[|s|] == NUL
    requires forall j :: p0 <= j < |s| ==> a[j] == s[j]
    modifies a
    ensures p0 <= p <= |s| && q == q0 + (p - p0) && (p == |s| || s[p] == SLASH) && SLASH !in s[p0..p]
    ensures a[..q] == old(a[..q0]) + s[p0..p]
    ensures (forall j :: p <= j < |s| ==> a[j] == s[j]) && a[|s|] == NUL
    ensures forall j :: |s| < j < a.Length ==> a[j] == old(a[j])
  {
    p, q := p0, q0;
    ghost var was := a[..q0];
    a[q] := a[p];
    assert a[..q] == was;
    while a[q] != SLASH && a[q] != NUL
      invariant p0 <= p <= |s| && q == q0 + (p - p0)
      invariant a[q] == if p == |s| then NUL else s[p]
      invariant forall j :: p0 <= j < p ==> s[j] != SLASH
      invariant a[..q] == was + s[p0..p]
      invariant (forall j :: p <= j < |s| ==> a[j] == s[j]) && a[|s|] == NUL
      invariant forall j :: |s| < j < a.Length ==> a[j] == old(a[j])
      decreases |s| - p
    {
      ghost var done := a[..q + 1];
      assert done == a[..q] + [s[p]];
      assert s[p0..p + 1] == s[p0..p] + [s[p]];
      p, q := p + 1, q + 1;
      a[q] := a[p];
      assert a[..q] == done;
    }
  }

  /** The stack after one element has been read. */
  lemma Reading(s: string, stack: seq<string>, k: nat, p: nat, e: string)
    requires p + |e| <= |s| && s[p..p + |e|] == e && SLASH !in e
    requires p + |e| == |s| || s[p + |e|] == SLASH
    requires Normal(Rooted(s), stack, k) && PutAll(Rooted(s), stack, Split(s[p..])) == Stack(s)
    ensures PutAll(Rooted(s), Put(Rooted(s), stack, e), Split(s[p + |e|..])) == Stack(s)
    ensures Normal(Rooted(s), Put(Rooted(s), stack, e), Ups(Rooted(s), stack, k, e))
    ensures e == DOTDOT ==> (Put(Rooted(s), stack, e) ==
                             if |stack| > k then stack[..|stack| - 1] else if Rooted(s) then stack else stack + [e])
  {
    hide PutAll;
    hide Split;
    hide Stack;
    assert s[p..] == e + s[p + |e|..];
    ReadElement(Rooted(s), stack, e, s[p + |e|..]);
    PutNormal(Rooted(s), stack, k, e);
  }

  /** A double dot: go back over a name, or write it, or drop it at the root. */
  method StepUp(a: array<char>, p0: nat, q0: nat, dotdot0: nat, rooted: bool,
                ghost s: string, ghost stack: seq<string>, ghost k: nat)
    returns (p: nat, q: nat, dotdot: nat)
    requires Doing(a, s, p0, q0, dotdot0, stack, k) && NUL !in s && rooted == Rooted(s)
    requires p0 + 2 <= |s| && s[p0..p0 + 2] == DOTDOT && (p0 + 2 == |s| || s[p0 + 2] == SLASH)
    modifies a
    ensures p == p0 + 2
    ensures Doing(a, s, p, q, dotdot, Put(rooted, stack, DOTDOT), Ups(rooted, stack, k, DOTDOT))
    ensures forall j :: |s| < j < a.Length ==> a[j] == old(a[j])
  {
    hide PutAll;
    hide Put;
    hide Normal;
    hide Split;
    hide Stack;
    hide Join;
    hide Render;
    Reading(s, stack, k, p0, DOTDOT);
    NormalBounds(rooted, stack, k);
    JoinLonger(rooted, stack, k);
    RenderSize(rooted, stack);
    ghost var w := a[..q0];
    assert |w| == q0;
    p, q, dotdot := p0 + 2, q0, dotdot0;
    if q > dotdot {
      q := Backtrack(a, q, dotdot, rooted, stack, k);
      RenderSize(rooted, stack[..|stack| - 1]);
      assert stack[..|stack| - 1][..k] == stack[..k];
    } else if !rooted {
      assert stack[..k] == stack;
      RenderSize(false, stack + [DOTDOT]);
      q := WriteDotDot(a, q, stack, k);
      dotdot := q;
      assert |a[..q]| == q;
      assert (stack + [DOTDOT])[..k + 1] == stack + [DOTDOT];
    }
  }

  /** Write a double dot at the end of an unrooted path, after a slash if it is not the first. */
  method WriteDotDot(a: array<char>, q0: nat, ghost stack: seq<string>, ghost k: nat) returns (q: nat)
    requires q0 + 2 + (if q0 == 0 then 0 else 1) <= a.Length
    requires a[..q0] == Render(false, stack) && Normal(false, stack, k)
    modifies a
    ensures q == q0 + 2 + (if q0 == 0 then 0 else 1)
    ensures a[..q] == Render(false, stack + [DOTDOT])
    ensures forall j :: q <= j < a.Length ==> a[j] == old(a[j])
  {
    JoinSnoc(stack, DOTDOT);
    JoinEmpty(false, stack, k);
    hide Join;
    hide Normal;
    q := q0;
    ghost var w := a[..q];
    if q != 0 {
      a[q] := SLASH;
      q := q + 1;
    }
    a[q], a[q + 1] := '.', '.';
    q := q + 2;
    assert a[..q] == w + (if w == [] then "" else [SLASH]) + DOTDOT;
  }

  lemma RenderSize(rooted: bool, stack: seq<string>)
    ensures |Render(rooted, stack)| == (if rooted then 1 else 0) + |Join(stack)|
  {
    hide Join;
  }

  lemma NormalBounds(rooted: bool, stack: seq<string>, k: nat)
    requires Normal(rooted, stack, k)
    ensures k <= |stack| && (rooted ==> k == 0)
  {}

  /** A name: write a slash if something has been written, and copy it. */
  method StepName(a: array<char>, p0: nat, q0: nat, ghost dotdot: nat, rooted: bool,
                  ghost s: string, ghost stack: seq<string>, ghost k: nat)
    returns (p: nat, q: nat, ghost stack': seq<string>)
    requires Doing(a, s, p0, q0, dotdot, stack, k) && NUL !in s && rooted == Rooted(s)
    requires p0 < |s| && s[p0] != SLASH
    requires !(s[p0] == '.' && (p0 + 1 == |s| || s[p0 + 1] == SLASH))
    requires !(p0 + 1 < |s| && s[p0..p0 + 2] == DOTDOT && (p0 + 2 == |s| || s[p0 + 2] == SLASH))
    modifies a
    ensures p > p0 && Doing(a, s, p, q, dotdot, stack', k)
    ensures forall j :: |s| < j < a.Length ==> a[j] == old(a[j])
  {
    hide PutAll;
    hide Put;
    hide Normal;
    hide Split;
    hide Stack;
    hide Join;
    hide Render;
    NormalBounds(rooted, stack, k);
    RenderSize(rooted, stack);
    JoinEmpty(rooted, stack, k);
    q := q0;
    ghost var w := a[..q];
    assert |w| == q;
    if q != (if rooted then 1 else 0) {
      a[q] := SLASH;
      q := q + 1;
    }
    assert a[..q] == w + (if stack == [] then "" else [SLASH]);
    p, q := Copy(a, p0, q, s);
    ghost var e := s[p0..p];
    ElementIsName(s, p0, p);
    Reading(s, stack, k, p0, e);
    PutName(rooted, stack, e);
    stack' := stack + [e];
    RenderSnoc(rooted, stack, e);
    assert stack'[..k] == stack[..k];
  }

  lemma ElementIsName(s: string, p0: nat, p: nat)
    requires p0 <= p <= |s| && SLASH !in s[p0..p] && (p == |s| || s[p] == SLASH)
    requires p0 < |s| && s[p0] != SLASH
    requires !(s[p0] == '.' && (p0 + 1 == |s| || s[p0 + 1] == SLASH))
    requires !(p0 + 1 < |s| && s[p0..p0 + 2] == DOTDOT && (p0 + 2 == |s| || s[p0 + 2] == SLASH))
    ensures IsName(s[p0..p]) && p > p0
  {
    assert p0 + 1 < p ==> s[p0..p0 + 2] == [s[p0], s[p0 + 1]];
  }

  lemma PutName(rooted: bool, stack: seq<string>, e: string)
    requires IsName(e)
    ensures Put(rooted, stack, e) == stack + [e] && e != DOTDOT
  {}

  lemma ReadOnSlash(a: array<char>, s: string, p: nat, q: nat, dotdot: nat, stack: seq<string>, k: nat)
    requires Doing(a, s, p, q, dotdot, stack, k) && p < |s| && s[p] == SLASH
    ensures Doing(a, s, p + 1, q, dotdot, stack, k)
  {
    hide PutAll;
    hide Split;
    hide Stack;
    hide Normal;
    hide Render;
    hide Join;
    ReadSlash(Rooted(s), stack, s[p..]);
    assert s[p..][1..] == s[p + 1..];
  }

  lemma ReadOnDot(a: array<char>, s: string, p: nat, q: nat, dotdot: nat, stack: seq<string>, k: nat)
    requires Doing(a, s, p, q, dotdot, stack, k) && p < |s| && s[p] == '.'
    requires p + 1 == |s| || s[p + 1] == SLASH
    ensures Doing(a, s, p + 1, q, dotdot, stack, k)
  {
    hide PutAll;
    hide Split;
    hide Stack;
    hide Normal;
    hide Render;
    hide Join;
    assert s[p..p + 1] == DOT;
    Reading(s, stack, k, p, DOT);
  }

  /**
   `cleanname`: afterwards the array holds the cleaned path, which is never longer than
   the path was, except that the empty path becomes a dot.  Nothing is written behind it.
   */
  method CleanInPlace(a: array<char>, ghost s: string) returns (ghost n: nat)
    requires |s| < a.Length && NUL !in s && a[..|s|] == s && a[|s|] == NUL
    requires s == "" ==> a.Length >= 2
    modifies a
    ensures n < a.Length && a[..n] == Clean(s) && a[n] == NUL
    ensures n <= if s == "" then 1 else |s|
    ensures forall j :: (if s == "" then 1 else |s|) < j < a.Length ==> a[j] == old(a[j])
  {
    hide PutAll;
    hide Put;
    hide Normal;
    hide Split;
    hide Stack;
    hide Join;
    hide Render;
    assert forall j :: 0 <= j < |s| ==> a[j] == a[..|s|][j];
    var rooted := a[0] == SLASH;
    assert rooted == Rooted(s);
    var p: nat := if rooted then 1 else 0;
    var q: nat, dotdot: nat := p, p;
    ghost var stack, k := [], 0;
    Begin(a, s);
    while a[p] != NUL
      invariant Doing(a, s, p, q, dotdot, stack, k)
      invariant forall j :: |s| < j < a.Length ==> a[j] == old(a[j])
      decreases |s| - p
    {
      assert p < |s| && a[p] == s[p];
      assert p + 1 < |s| ==> s[p..p + 2] == [s[p], s[p + 1]];
      if a[p] == SLASH {
        ReadOnSlash(a, s, p, q, dotdot, stack, k);
        p := p + 1;
      } else if a[p] == '.' && Sep(a[p + 1]) {
        ReadOnDot(a, s, p, q, dotdot, stack, k);
        p := p + 1;
      } else if a[p] == '.' && a[p + 1] == '.' && Sep(a[p + 2]) {
        ghost var e := DOTDOT;
        p, q, dotdot := StepUp(a, p, q, dotdot, rooted, s, stack, k);
        stack, k := Put(rooted, stack, e), Ups(rooted, stack, k, e);
      } else {
        p, q, stack := StepName(a, p, q, dotdot, rooted, s, stack, k);
      }
    }
    assert p == |s|;
    assert s[p..] == "";
    ReadNothing(rooted, stack);
    JoinEmpty(rooted, stack, k);
    RenderSize(rooted, stack);
    ghost var w := a[..q];
    if q == 0 {
      a[q] := '.';
      q := q + 1;
    }
    n := q;
    a[q] := NUL;
    assert a[..n] == Clean(s);
  }

  lemma Begin(a: array<char>, s: string)
    requires |s| < a.Length && (forall j :: 0 <= j < |s| ==> a[j] == s[j]) && a[|s|] == NUL
    ensures Doing(a, s, Start(s), Start(s), Start(s), [], 0)
  {
    assert a[..Start(s)] == Render(Rooted(s), []);
  }
}
