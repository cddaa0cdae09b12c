/**
 Pattern matching of the shell (rc/glob.c).

 A string is the sequence of its code points, without the terminating NUL.  A
 pattern is a string in which the lexer has put the mark GLOB before each active
 metacharacter.  `Match` follows the backtracking matcher of the source; the
 second half of the module gives the language of a pattern with no algorithm in
 it and proves that the two agree.
 */
module RcGlob {
  import opened Wrappers

  const GLOB: char := '\U{0001}'

  /******* The matcher *******/

  /** Is c between lo and hi, whichever of the two is larger? */
  predicate Between(c: char, lo: char, hi: char) {
    if hi < lo then hi <= c <= lo else lo <= c <= hi
  }

  datatype ClassScan = ClassScan(hit: bool, rest: string)

  /** Read one character class up to its bracket.  None is a syntax error. */
  function ScanClass(p: string, c: char, hit: bool): (r: Option<ClassScan>)
    ensures r.Some? ==> |r.value.rest| < |p|
  {
    if p == [] then None
    else if p[0] == ']' then Some(ClassScan(hit, p[1..]))
    else if |p| >= 2 && p[1] == '-' then
      if |p| == 2 then None
      else ScanClass(p[3..], c, hit || Between(c, p[0], p[2]))
    else ScanClass(p[1..], c, hit || c == p[0])
  }

  predicate IsComplemented(p: string) {
    p != [] && p[0] == '~'
  }

  /** Does s match p, reading p no further than the first unmarked `stop`? */
  predicate Match(s: string, p: string, stop: char)
    decreases |p|, |s|
  {
    if p == [] || p[0] == stop then s == []
    else if p[0] != GLOB then
      s != [] && s[0] == p[0] && Match(s[1..], p[1..], stop)
    else if |p| == 1 then false
    else match p[1]
      case '*' =>
        Match(s, p[2..], stop) || (s != [] && Match(s[1..], p, stop))
      case '[' =>
        s != [] &&
        var negated := IsComplemented(p[2..]);
        var scan := ScanClass(if negated then p[3..] else p[2..], s[0], false);
        scan.Some? && scan.value.hit != negated && Match(s[1..], scan.value.rest, stop)
      case '?' => s != [] && Match(s[1..], p[2..], stop)
      case GLOB => s != [] && s[0] == GLOB && Match(s[1..], p[2..], stop)
      case _ => s != [] && Match(s[1..], p[2..], stop)
  }

  /******* The language of a pattern *******/

  datatype Range = Range(lo: char, hi: char)

  datatype Token =
    | Literal(c: char)
    | AnyOne
    | AnySequence
    | Class(complemented: bool, ranges: seq<Range>)
    | Malformed

  datatype ClassText = ClassText(ranges: seq<Range>, rest: string)

  function ParseClass(p: string): (r: Option<ClassText>)
    ensures r.Some? ==> |r.value.rest| < |p|
  {
    if p == [] then None
    else if p[0] == ']' then Some(ClassText([], p[1..]))
    else if |p| >= 2 && p[1] == '-' then
      if |p| == 2 then None
      else match ParseClass(p[3..])
        case None => None
        case Some(c) => Some(ClassText([Range(p[0], p[2])] + c.ranges, c.rest))
    else match ParseClass(p[1..])
      case None => None
      case Some(c) => Some(ClassText([Range(p[0], p[0])] + c.ranges, c.rest))
  }

  /** What the lexer guarantees: a mark is followed by one of `*`, `?`, `[`, mark. */
  predicate WellMarked(p: string, stop: char)
    decreases |p|
  {
    if p == [] || p[0] == stop then true
    else if p[0] != GLOB then WellMarked(p[1..], stop)
    else
      && |p| >= 2
      && if p[1] == '[' then
           var c := ParseClass(if IsComplemented(p[2..]) then p[3..] else p[2..]);
           c.Some? ==> WellMarked(c.value.rest, stop)
         else p[1] in {'*', '?', GLOB} && WellMarked(p[2..], stop)
  }

  function Tokens(p: string, stop: char): seq<Token>
    decreases |p|
  {
    if p == [] || p[0] == stop then []
    else if p[0] != GLOB then [Literal(p[0])] + Tokens(p[1..], stop)
    else if |p| == 1 then [Malformed]
    else match p[1]
      case '*' => [AnySequence] + Tokens(p[2..], stop)
      case '?' => [AnyOne] + Tokens(p[2..], stop)
      case '[' =>
        var negated := IsComplemented(p[2..]);
        (match ParseClass(if negated then p[3..] else p[2..])
         case None => [Malformed]
         case Some(c) => [Class(negated, c.ranges)] + Tokens(c.rest, stop))
      case c => [Literal(c)] + Tokens(p[2..], stop)
  }

  ghost predicate InRanges(c: char, ranges: seq<Range>) {
    exists i :: 0 <= i < |ranges| && Between(c, ranges[i].lo, ranges[i].hi)
  }

  ghost predicate InToken(t: Token, s: string) {
    match t
    case Literal(c) => s == [c]
    case AnyOne => |s| == 1
    case AnySequence => true
    case Class(complemented, ranges) => |s| == 1 && InRanges(s[0], ranges) != complemented
    case Malformed => false
  }

  function Flatten(parts: seq<string>): string {
    if parts == [] then [] else parts[0] + Flatten(parts[1..])
  }

  /** s can be cut into one piece per token, each piece in the token's language. */
  ghost predicate Cut(tokens: seq<Token>, s: string, parts: seq<string>) {
    && |parts| == |tokens|
    && Flatten(parts) == s
    && forall i :: 0 <= i < |tokens| ==> InToken(tokens[i], parts[i])
  }

  ghost predicate InLanguage(tokens: seq<Token>, s: string) {
    exists parts :: Cut(tokens, s, parts)
  }

  /******* The two agree *******/

  lemma LanguageOfNone(s: string)
    ensures InLanguage([], s) <==> s == []
  {
    if s == [] {
      assert Cut([], s, []);
    }
  }

  lemma CutCons(t: Token, rest: seq<Token>, s: string, k: nat)
    requires k <= |s| && InToken(t, s[..k]) && InLanguage(rest, s[k..])
    ensures InLanguage([t] + rest, s)
  {
    var parts :| Cut(rest, s[k..], parts);
    var all := [s[..k]] + parts;
    assert all[1..] == parts;
    assert s[..k] + s[k..] == s;
    assert Cut([t] + rest, s, all);
  }

  lemma CutUncons(t: Token, rest: seq<Token>, s: string) returns (k: nat)
    requires InLanguage([t] + rest, s)
    ensures k <= |s| && InToken(t, s[..k]) && InLanguage(rest, s[k..])
  {
    var all :| Cut([t] + rest, s, all);
    k := |all[0]|;
    assert s == all[0] + Flatten(all[1..]);
    assert s[..k] == all[0] && s[k..] == Flatten(all[1..]);
    assert ([t] + rest)[0] == t;
    forall i | 0 <= i < |rest| ensures InToken(rest[i], all[1..][i]) {
      assert ([t] + rest)[i + 1] == rest[i];
    }
    assert Cut(rest, s[k..], all[1..]);
  }

  /** A token that takes exactly one character consumes the head of the string. */
  lemma OneCharacter(t: Token, rest: seq<Token>, s: string)
    requires !t.AnySequence?
    ensures InLanguage([t] + rest, s) <==> s != [] && InToken(t, s[..1]) && InLanguage(rest, s[1..])
  {
    if InLanguage([t] + rest, s) {
      var k := CutUncons(t, rest, s);
      assert k == 1;
    }
    if s != [] && InToken(t, s[..1]) && InLanguage(rest, s[1..]) {
      CutCons(t, rest, s, 1);
    }
  }

  lemma StarCharacter(rest: seq<Token>, s: string)
    ensures InLanguage([AnySequence] + rest, s) <==>
            InLanguage(rest, s) || (s != [] && InLanguage([AnySequence] + rest, s[1..]))
  {
    if InLanguage([AnySequence] + rest, s) {
      var k := CutUncons(AnySequence, rest, s);
      if k == 0 {
        assert s[0..] == s;
      } else {
        assert s[1..][k - 1..] == s[k..];
        CutCons(AnySequence, rest, s[1..], k - 1);
      }
    }
    if InLanguage(rest, s) {
      assert s[0..] == s;
      CutCons(AnySequence, rest, s, 0);
    }
    if s != [] && InLanguage([AnySequence] + rest, s[1..]) {
      var k := CutUncons(AnySequence, rest, s[1..]);
      assert s[1..][k..] == s[k + 1..];
      CutCons(AnySequence, rest, s, k + 1);
    }
  }

  lemma InRangesCons(c: char, r: Range, ranges: seq<Range>)
    ensures InRanges(c, [r] + ranges) <==> Between(c, r.lo, r.hi) || InRanges(c, ranges)
  {
    var all := [r] + ranges;
    if InRanges(c, ranges) {
      var i :| 0 <= i < |ranges| && Between(c, ranges[i].lo, ranges[i].hi);
      assert all[i + 1] == ranges[i];
    }
    if Between(c, r.lo, r.hi) {
      assert all[0] == r;
    }
  }

  /** The one-pass scan finds a hit exactly when some range of the class holds c. */
  lemma {:induction false} ScanAgrees(p: string, c: char, hit: bool)
    ensures ScanClass(p, c, hit).Some? <==> ParseClass(p).Some?
    ensures ParseClass(p).Some? ==>
              && ScanClass(p, c, hit).value.rest == ParseClass(p).value.rest
              && (ScanClass(p, c, hit).value.hit <==> hit || InRanges(c, ParseClass(p).value.ranges))
    decreases |p|
  {
    if p == [] || p[0] == ']' {
    } else if |p| >= 2 && p[1] == '-' {
      if |p| > 2 {
        ScanAgrees(p[3..], c, hit || Between(c, p[0], p[2]));
        if ParseClass(p[3..]).Some? {
          InRangesCons(c, Range(p[0], p[2]), ParseClass(p[3..]).value.ranges);
        }
      }
    } else {
      ScanAgrees(p[1..], c, hit || c == p[0]);
      if ParseClass(p[1..]).Some? {
        InRangesCons(c, Range(p[0], p[0]), ParseClass(p[1..]).value.ranges);
      }
    }
  }

  /** The class case of `MatchIsLanguage`. */
  lemma ClassCase(s: string, p: string, stop: char)
    requires |p| >= 2 && p[0] == GLOB && p[1] == '[' && p[0] != stop
    requires forall q, t | |q| < |p| && WellMarked(q, stop) :: Match(t, q, stop) <==> InLanguage(Tokens(q, stop), t)
    requires WellMarked(p, stop)
    ensures Match(s, p, stop) <==> InLanguage(Tokens(p, stop), s)
  {
    var negated := IsComplemented(p[2..]);
    var q := if negated then p[3..] else p[2..];
    match ParseClass(q) {
      case None =>
        assert Tokens(p, stop) == [Malformed] + [];
        OneCharacter(Malformed, [], s);
        if s != [] {
          ScanAgrees(q, s[0], false);
        }
      case Some(c) =>
        OneCharacter(Class(negated, c.ranges), Tokens(c.rest, stop), s);
        if s != [] {
          ScanAgrees(q, s[0], false);
          assert Match(s[1..], c.rest, stop) <==> InLanguage(Tokens(c.rest, stop), s[1..]);
        }
    }
  }

  /**
   For every well-marked pattern the backtracking matcher accepts exactly the
   language of the pattern's tokens.
   */
  lemma {:induction false} MatchIsLanguage(s: string, p: string, stop: char)
    requires WellMarked(p, stop)
    ensures Match(s, p, stop) <==> InLanguage(Tokens(p, stop), s)
    decreases |p|, |s|
  {
    if p == [] || p[0] == stop {
      LanguageOfNone(s);
    } else if p[0] != GLOB {
      OneCharacter(Literal(p[0]), Tokens(p[1..], stop), s);
      if s != [] {
        MatchIsLanguage(s[1..], p[1..], stop);
      }
    } else if p[1] == '*' {
      StarCharacter(Tokens(p[2..], stop), s);
      MatchIsLanguage(s, p[2..], stop);
      if s != [] {
        MatchIsLanguage(s[1..], p, stop);
      }
    } else if p[1] == '[' {
      forall q, t | |q| < |p| && WellMarked(q, stop)
        ensures Match(t, q, stop) <==> InLanguage(Tokens(q, stop), t)
      {
        MatchIsLanguage(t, q, stop);
      }
      ClassCase(s, p, stop);
    } else {
      var t := if p[1] == '?' then AnyOne else Literal(GLOB);
      assert Tokens(p, stop) == [t] + Tokens(p[2..], stop);
      OneCharacter(t, Tokens(p[2..], stop), s);
      if s != [] {
        MatchIsLanguage(s[1..], p[2..], stop);
      }
    }
  }

  /******* Removing the marks *******/

  /** The text of a word: each mark goes and the character after it stays. */
  function Deglob(s: string): (r: string)
    ensures |r| <= |s|
  {
    if s == [] then []
    else if s[0] != GLOB then [s[0]] + Deglob(s[1..])
    else if |s| == 1 then []
    else [s[1]] + Deglob(s[2..])
  }

  /** No mark of p is before anything but another mark. */
  predicate Inert(p: string) {
    if p == [] then true
    else if p[0] != GLOB then Inert(p[1..])
    else |p| >= 2 && p[1] == GLOB && Inert(p[2..])
  }

  /** A pattern without active metacharacters matches exactly the word it denotes. */
  lemma {:induction false} InertMatchesItself(s: string, p: string)
    requires Inert(p) && '\0' !in p
    ensures Match(s, p, '\0') <==> s == Deglob(p)
    decreases |p|
  {
    if p == [] {
    } else if p[0] != GLOB {
      assert p[0] in p && forall c :: c in p[1..] ==> c in p;
      if s != [] {
        assert s == [s[0]] + s[1..];
        InertMatchesItself(s[1..], p[1..]);
      }
    } else {
      assert p[0] in p && forall c :: c in p[2..] ==> c in p;
      if s != [] {
        assert s == [s[0]] + s[1..];
        InertMatchesItself(s[1..], p[2..]);
      }
    }
  }

  /******* Removing the marks in place *******/

  /** The C string held by the first NUL-terminated part of a buffer. */
  ghost predicate HoldsString(buf: seq<char>, s: string) {
    |s| < |buf| && buf[..|s|] == s && buf[|s|] == '\0' && '\0' !in s
  }

  /** Without its marks a string still holds no NUL. */
  lemma {:induction false} DeglobKeepsCharacters(s: string, c: char)
    requires c !in s
    ensures c !in Deglob(s)
  {
    if s == [] {
    } else if s[0] != GLOB {
      DeglobKeepsCharacters(s[1..], c);
    } else if |s| > 1 {
      DeglobKeepsCharacters(s[2..], c);
    }
  }

  /** One character of the result, and how far the read position moves for it. */
  lemma DeglobStep(text: string, t: nat, k: nat)
    requires t < |text| && k == (if text[t] == GLOB then t + 1 else t)
    ensures k < |text| ==> Deglob(text[t..]) == [text[k]] + Deglob(text[k + 1..])
    ensures k == |text| ==> Deglob(text[t..]) == []
  {
    if text[t] == GLOB && k < |text| {
      assert text[t..][2..] == text[k + 1..] && text[t..][1] == text[k];
    } else {
      assert text[t..][1..] == text[t + 1..];
    }
  }

  /**
   `deglob` of the source: the write position never passes the read position, so
   the string is rewritten where it stands.
   */
  method DeglobInPlace(a: array<char>, ghost text: string)
    requires HoldsString(a[..], text)
    modifies a
    ensures HoldsString(a[..], Deglob(text))
  {
    var s, t := 0, 0;
    ghost var result := Deglob(text);
    assert text[0..] == text;
    while true
      invariant 0 <= s <= t <= |text| < a.Length
      invariant s <= |result| && result[s..] == Deglob(text[t..])
      invariant forall i :: 0 <= i < s ==> a[i] == result[i]
      invariant forall i :: t <= i < |text| ==> a[i] == text[i]
      invariant a[|text|] == '\0'
      decreases |text| - t
    {
      var k := t;
      if a[t] == GLOB {
        k := t + 1;
      }
      if t < |text| {
        DeglobStep(text, t, k);
      }
      var c := a[k];
      a[s] := c;
      if c == '\0' {
        assert k == |text| && result[s..] == [];
        break;
      }
      assert result[s] == result[s..][0];
      assert result[s + 1..] == result[s..][1..] == Deglob(text[k + 1..]);
      s, t := s + 1, k + 1;
    }
    assert a[..|result|] == result;
    DeglobKeepsCharacters(text, '\0');
  }
}
