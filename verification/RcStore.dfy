/**
 What the routines of the shell compute on: variables, words and redirections
 (rc/var.c, rc/words.c, rc/status.c and the value part of rc/exec.c).

 The outside world is a number that stands for the state of the file system.  What
 the world does with it is a `Host`: expanding a pattern to file names, opening and
 closing a file, running a command that is not a shell function.
 */
module RcStore {
  import opened Wrappers
  import opened RcTree
  import opened RcGlob

  type World = int
  type Strings = seq<string>

  datatype Var = Var(name: string, val: Strings)

  datatype Redir = ROpen(from: int, to: int) | RDup(from: int, to: int) | RClose(from: int)

  /** Lists are in stack order: index 0 is the head of the linked list. */
  datatype Store = Store(
    globals: map<string, Strings>, locals: seq<Var>, redirs: seq<Redir>, ifnot: bool, world: World)

  /** What a command may do: assign variables (its status among them), end the shell, fail. */
  datatype Effect =
    | Runs(sets: seq<Var>, world: World)
    | Exits(sets: seq<Var>, world: World)
    | Fails(world: World)

  datatype Opened = Opened(fd: int, world: World)

  datatype Host = Host(
    glob: (World, string) -> Strings,
    open: (World, RedirKind, string) -> Opened,
    close: (World, int) -> World,
    run: (Strings, Store) -> Effect,
    eflagok: bool)

  /******* Variables *******/

  predicate HasLocal(locals: seq<Var>, name: string) {
    locals != [] && (locals[0].name == name || HasLocal(locals[1..], name))
  }

  function GetLocal(locals: seq<Var>, name: string): Strings {
    if locals == [] then []
    else if locals[0].name == name then locals[0].val
    else GetLocal(locals[1..], name)
  }

  function SetLocal(locals: seq<Var>, name: string, val: Strings): (r: seq<Var>)
    ensures |r| == |locals|
    ensures forall i :: 0 <= i < |r| ==> r[i].name == locals[i].name
  {
    if locals == [] then []
    else if locals[0].name == name then [Var(name, val)] + locals[1..]
    else [locals[0]] + SetLocal(locals[1..], name, val)
  }

  /** The innermost local of that name hides the global; an unset variable is empty. */
  function Lookup(s: Store, name: string): Strings {
    if HasLocal(s.locals, name) then GetLocal(s.locals, name)
    else if name in s.globals then s.globals[name]
    else []
  }

  function SetVar(s: Store, name: string, val: Strings): Store {
    if HasLocal(s.locals, name) then s.(locals := SetLocal(s.locals, name, val))
    else s.(globals := s.globals[name := val])
  }

  function SetVars(s: Store, sets: seq<Var>): Store
    decreases |sets|
  {
    if sets == [] then s else SetVars(SetVar(s, sets[0].name, sets[0].val), sets[1..])
  }

  function SetStatus(s: Store, status: string): Store {
    SetVar(s, "status", [status])
  }

  function Status(s: Store): string {
    var v := Lookup(s, "status");
    if v == [] then "" else v[0]
  }

  /** A status is true when it has nothing but zeros and bars in it. */
  predicate TrueStatus(s: Store) {
    forall c :: c in Status(s) ==> c == '|' || c == '0'
  }

  /** The store an error leaves behind. */
  function Failed(s: Store): Store {
    SetStatus(s, "error")
  }

  function PushLocal(s: Store, name: string, val: Strings): Store {
    s.(locals := [Var(name, val)] + s.locals)
  }

  function PopLocal(s: Store): Store {
    if s.locals == [] then s else s.(locals := s.locals[1..])
  }

  function SetTop(s: Store, val: Strings): Store {
    if s.locals == [] then s else s.(locals := [s.locals[0].(val := val)] + s.locals[1..])
  }

  /** The names of the locals and the redirections, which every command gives back. */
  ghost predicate SameFrame(a: Store, b: Store) {
    && |a.locals| == |b.locals|
    && (forall i :: 0 <= i < |a.locals| ==> a.locals[i].name == b.locals[i].name)
    && a.redirs == b.redirs
  }

  lemma {:induction false} SetVarsFrame(s: Store, sets: seq<Var>)
    ensures SameFrame(s, SetVars(s, sets))
    decreases |sets|
  {
    if sets != [] {
      SetVarsFrame(SetVar(s, sets[0].name, sets[0].val), sets[1..]);
    }
  }

  /******* Redirections *******/

  function PushRedir(s: Store, r: Redir): Store {
    s.(redirs := [r] + s.redirs)
  }

  function PopRedir(host: Host, s: Store): Store {
    if s.redirs == [] then s
    else
      var r := s.redirs[0];
      s.(redirs := s.redirs[1..], world := if r.ROpen? then host.close(s.world, r.from) else s.world)
  }

  /** Pop until only the n outermost redirections are left (`turfredir`). */
  function PopRedirs(host: Host, s: Store, n: nat): Store
    decreases |s.redirs|
  {
    if |s.redirs| <= n then s else PopRedirs(host, PopRedir(host, s), n)
  }

  /** Open the one file named by ws and push its redirection.  None is an error. */
  function OpenRedir(host: Host, kind: RedirKind, fd: int, ws: Strings, s: Store): Option<Store> {
    if |ws| != 1 then None
    else
      var o := host.open(s.world, kind, ws[0]);
      if o.fd < 0 then None else Some(PushRedir(s.(world := o.world), ROpen(o.fd, fd)))
  }

  /******* Words *******/

  /** Words separated by single spaces (`list2str`). */
  function Spaced(ws: Strings): string {
    if ws == [] then "" else if |ws| == 1 then ws[0] else ws[0] + " " + Spaced(ws[1..])
  }

  predicate AnyMatch(subject: string, patterns: Strings) {
    exists i :: 0 <= i < |patterns| && Match(subject, patterns[i], '\0')
  }

  predicate HasMark(s: string) {
    if s == [] then false
    else if s[0] != GLOB then HasMark(s[1..])
    else if |s| >= 2 && s[1] == GLOB then HasMark(s[2..])
    else true
  }

  /** The file names a word stands for; a word that matches none stands for itself. */
  function GlobWord(host: Host, world: World, w: string): Strings {
    if !HasMark(w) then [Deglob(w)]
    else
      var found := host.glob(world, w);
      if found == [] then [Deglob(w)] else found
  }

  function GlobWords(host: Host, world: World, ws: Strings): Strings {
    if ws == [] then [] else GlobWord(host, world, ws[0]) + GlobWords(host, world, ws[1..])
  }

  predicate IsDigit(c: char) {
    '0' <= c <= '9'
  }

  /** Value of the digits at the front of s, read onto n. */
  function ReadNat(s: string, n: nat): nat {
    if s == [] || !IsDigit(s[0]) then n
    else ReadNat(s[1..], n * 10 + (s[0] as int - '0' as int))
  }

  function SkipDigits(s: string): string {
    if s == [] || !IsDigit(s[0]) then s else SkipDigits(s[1..])
  }

  function Decimal(n: nat): string {
    var digit := ['0' + (n % 10) as char];
    if n < 10 then digit else Decimal(n / 10) + digit
  }

  /** Is the name a positive number, for a word of $*? */
  predicate IsPosition(name: string) {
    ReadNat(name, 0) != 0 && SkipDigits(name) == []
  }

  /** $name, for a name or the position of a word of $*. */
  function DollarValue(s: Store, name: string): Strings {
    if !IsPosition(name) then Lookup(s, name)
    else
      var star, n := Lookup(s, "*"), ReadNat(name, 0);
      if n <= |star| then [star[n - 1]] else []
  }

  /** $#name. */
  function CountValue(s: Store, name: string): string {
    if !IsPosition(name) then Decimal(|Lookup(s, name)|)
    else Decimal(if ReadNat(name, 0) <= |Lookup(s, "*")| then 1 else 0)
  }

  /** The words one subscript selects: n, n- or n-m. */
  function SubRange(val: Strings, sub: string): Strings {
    var text := Deglob(sub);
    var n := ReadNat(text, 0);
    var rest := SkipDigits(text);
    var m := if rest == [] || rest[0] != '-' then 0
             else if |rest| == 1 then |val| - n
             else ReadNat(rest[1..], 0) - n;
    if n < 1 || n > |val| || m < 0 then []
    else if n + m > |val| then val[n - 1..]
    else val[n - 1..n + m]
  }

  function SubWords(val: Strings, subs: Strings): Strings {
    if subs == [] then [] else SubRange(val, subs[0]) + SubWords(val, subs[1..])
  }

  /** A number that is written out and read again, with anything that is no digit after it. */
  lemma {:induction false} DecimalReads(n: nat, rest: string)
    ensures ReadNat(Decimal(n) + rest, 0) == ReadNat(rest, n)
    ensures SkipDigits(Decimal(n) + rest) == SkipDigits(rest)
    ensures GLOB !in Decimal(n) && Decimal(n) != []
    decreases n
  {
    var digit := ['0' + (n % 10) as char];
    var s := digit + rest;
    assert s[1..] == rest;
    assert IsDigit(s[0]) && s[0] as int - '0' as int == n % 10;
    if n >= 10 {
      DecimalReads(n / 10, s);
      assert Decimal(n) + rest == Decimal(n / 10) + s;
      assert n / 10 * 10 + n % 10 == n;
    }
  }

  lemma {:induction false} DeglobPlain(s: string)
    requires GLOB !in s
    ensures Deglob(s) == s
  {
    if s != [] {
      DeglobPlain(s[1..]);
    }
  }

  /** Subscripts select what they say: one word, or the words from n on. */
  lemma SubRangeWords(val: Strings, n: nat)
    ensures SubRange(val, Decimal(n)) == if 1 <= n <= |val| then [val[n - 1]] else []
    ensures SubRange(val, Decimal(n) + "-") == if 1 <= n <= |val| then val[n - 1..] else []
  {
    hide Decimal;
    var one, from := Decimal(n), Decimal(n) + "-";
    DecimalReads(n, []);
    DecimalReads(n, "-");
    assert one + [] == one;
    DeglobPlain(one);
    DeglobPlain(from);
  }

  /** The words from n to m. */
  lemma SubRangeFromTo(val: Strings, n: nat, m: nat)
    ensures SubRange(val, Decimal(n) + "-" + Decimal(m)) ==
            if 1 <= n <= |val| && n <= m then val[n - 1..if m < |val| then m else |val|] else []
  {
    hide Decimal;
    var text, rest := Decimal(n) + "-" + Decimal(m), "-" + Decimal(m);
    DecimalReads(n, rest);
    DecimalReads(m, []);
    assert text == Decimal(n) + rest && Decimal(m) + [] == Decimal(m);
    DeglobPlain(text);
    assert rest[0] == '-' && rest[1..] == Decimal(m);
  }

  /** Pairwise concatenation; the shorter list's last word is repeated. */
  function ConcList(l: Strings, r: Strings): Strings
    requires l != [] && r != []
    decreases |l| + |r|
  {
    if |l| == 1 && |r| == 1 then [l[0] + r[0]]
    else [l[0] + r[0]] + ConcList(if |l| == 1 then l else l[1..], if |r| == 1 then r else r[1..])
  }

  function Concat(l: Strings, r: Strings): Option<Strings> {
    if l == [] && r == [] then Some([])
    else if l == [] || r == [] then None
    else if |l| != 1 && |r| != 1 && |l| != |r| then None
    else Some(ConcList(l, r))
  }

  /** The length the concatenation has, and each of its words. */
  lemma {:induction false} ConcListWords(l: Strings, r: Strings, i: nat)
    requires l != [] && r != [] && (|l| == 1 || |r| == 1 || |l| == |r|)
    requires i < |l| || i < |r|
    ensures |ConcList(l, r)| == (if |l| < |r| then |r| else |l|)
    ensures ConcList(l, r)[i] == l[if |l| == 1 then 0 else i] + r[if |r| == 1 then 0 else i]
    decreases |l| + |r|
  {
    if |l| == 1 && |r| == 1 {
    } else {
      var l', r' := if |l| == 1 then l else l[1..], if |r| == 1 then r else r[1..];
      ConcListWords(l', r', if i == 0 then 0 else i - 1);
    }
  }

  /******* Functions *******/

  /** Every name of the list stands for f. */
  function Define<T>(names: Strings, f: T, fns: map<string, T>): map<string, T>
    decreases |names|
  {
    if names == [] then fns else Define(names[1..], f, fns[names[0] := f])
  }

  function Undefine<T>(names: Strings, fns: map<string, T>): map<string, T> {
    map n | n in fns && n !in names :: fns[n]
  }

  /******* The value of a word tree *******/

  /** One name out of a list of words, without its marks.  None is an error. */
  function OneName(ws: Strings): Option<string> {
    if |ws| == 1 then Some(Deglob(ws[0])) else None
  }

  function NameOf(ws: Option<Strings>): Option<string> {
    if ws.None? then None else OneName(ws.value)
  }

  function Both(left: Option<Strings>, right: Option<Strings>): Option<Strings> {
    if left.None? || right.None? then None else Some(left.value + right.value)
  }

  function Eval(w: Word, s: Store): Option<Strings> {
    match w
    case NoWord => Some([])
    case Lit(str, _) => Some([str])
    case ArgList(a, b) => Both(Eval(a, s), Eval(b, s))
    case Words(a, b) => Both(Eval(a, s), Eval(b, s))
    case Paren(a) => Eval(a, s)
    case Dollar(n) =>
      var name := NameOf(Eval(n, s));
      if name.None? then None else Some(DollarValue(s, name.value))
    case Count(n) =>
      var name := NameOf(Eval(n, s));
      if name.None? then None else Some([CountValue(s, name.value)])
    case Join(n) =>
      var name := NameOf(Eval(n, s));
      if name.None? then None else Some([Spaced(Lookup(s, name.value))])
    case Sub(n, subs) =>
      var name := NameOf(Eval(n, s));
      var list := Eval(subs, s);
      if name.None? || list.None? then None else Some(SubWords(Lookup(s, name.value), list.value))
    case Caret(l, r) =>
      var left, right := Eval(l, s), Eval(r, s);
      if left.None? || right.None? then None else Concat(left.value, right.value)
  }

  /** The words of a case after the word `case`. */
  function EvalArgs(w: Word, s: Store): Option<Strings> {
    if !w.ArgList? then Some([]) else Both(EvalArgs(w.init, s), Eval(w.last, s))
  }
}
