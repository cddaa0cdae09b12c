/**
 Code vectors of the shell and the code of each tree (rc/code.c).

 `CodeW` and `CodeC` give the cells emitted for a tree when emission starts at a
 given address; every jump operand is an absolute index into the vector.
 */
module RcCode {
  import opened RcTree

  datatype Op =
    | XMark | XWord | XSimple | XEflag
    | XTrue | XFalse | XJump | XBang | XSettrue
    | XMatch | XGlob | XWrite | XRead | XAppend | XRdwr | XDup | XClose | XPopredir
    | XIf | XWastrue | XIfnot
    | XLocal | XUnlocal | XAssign | XFor
    | XCase | XPopm
    | XDol | XCount | XQdol | XSub | XConc
    | XFn | XDelfn | XReturn
    | XPipe | XAsync | XSubshell | XExit | XPipewait

  /** A cell is a routine, an integer or an owned string.  `Text` is the printed
      form of a function body, kept as the tree it prints; `Nil` ends a vector. */
  datatype Cell = Op(op: Op) | Int(i: int) | Str(s: string) | Text(body: Cmd) | Nil

  function CodeW(w: Word): seq<Cell> {
    match w
    case NoWord => []
    case Lit(s, _) => [Op(XWord), Str(s)]
    case ArgList(a, b) => CodeW(b) + CodeW(a)
    case Words(a, b) => CodeW(b) + CodeW(a)
    case Paren(a) => CodeW(a)
    case Dollar(n) => [Op(XMark)] + CodeW(n) + [Op(XDol)]
    case Count(n) => [Op(XMark)] + CodeW(n) + [Op(XCount)]
    case Join(n) => [Op(XMark)] + CodeW(n) + [Op(XQdol)]
    case Sub(n, s) => [Op(XMark)] + CodeW(n) + [Op(XMark)] + CodeW(s) + [Op(XSub)]
    case Caret(l, r) => [Op(XMark)] + CodeW(r) + [Op(XMark)] + CodeW(l) + [Op(XConc)]
  }

  /** The words of a case after the word `case`, last to first. */
  function CodeArgs(w: Word): seq<Cell> {
    if w.ArgList? then CodeW(w.last) + CodeArgs(w.init) else []
  }

  function EflagTest(e: bool): seq<Cell> {
    if e then [Op(XEflag)] else []
  }

  function RedirOp(k: RedirKind): Op {
    match k
    case Write => XWrite
    case Read => XRead
    case Append => XAppend
    case ReadWrite => XRdwr
  }

  /** Value and name of one assignment, before the routine that consumes them. */
  function CodeBinding(name: Word, value: Word): seq<Cell> {
    [Op(XMark)] + CodeW(value) + [Op(XMark)] + CodeW(name)
  }

  function ForList(list: Word): seq<Cell> {
    if list.NoWord? then [Op(XMark), Op(XWord), Str("*"), Op(XDol)]
    else CodeW(list) + [Op(XGlob)]
  }

  function CodeC(c: Cmd, e: bool, at: nat): seq<Cell>
    decreases c, 1
  {
    match c
    case Skip => []
    case Simple(args) => [Op(XMark)] + CodeW(args) + [Op(XSimple)] + EflagTest(e)
    case Seq(a, b) =>
      var first := CodeC(a, e, at);
      first + CodeC(b, e, at + |first|)
    case AndAnd(a, b) =>
      var first := CodeC(a, false, at);
      var second := CodeC(b, e, at + |first| + 2);
      first + [Op(XTrue), Int(at + |first| + 2 + |second|)] + second
    case OrOr(a, b) =>
      var first := CodeC(a, false, at);
      var second := CodeC(b, e, at + |first| + 2);
      first + [Op(XFalse), Int(at + |first| + 2 + |second|)] + second
    case Bang(a) => CodeC(a, e, at) + [Op(XBang)]
    case Twiddle(s, p) =>
      [Op(XMark)] + CodeW(p) + [Op(XMark)] + CodeW(s) + [Op(XMatch)] + EflagTest(e)
    case Redirect(k, fd, file, body) =>
      var open := [Op(XMark)] + CodeW(file) + [Op(XGlob), Op(RedirOp(k)), Int(fd)];
      open + CodeScoped(body, e, at + |open|)
    case DupFd(fd0, fd1, body) => [Op(XDup), Int(fd0), Int(fd1)] + CodeScoped(body, e, at + 3)
    case CloseFd(fd, body) => [Op(XClose), Int(fd)] + CodeScoped(body, e, at + 2)
    case If(a, b) =>
      var cond := CodeC(a, false, at);
      var body := CodeC(b, e, at + |cond| + 2);
      cond + [Op(XIf), Int(at + |cond| + 2 + |body| + 1)] + body + [Op(XWastrue)]
    case IfNot(b) =>
      var body := CodeC(b, e, at + 2);
      [Op(XIfnot), Int(at + 2 + |body|)] + body
    case While(a, b) =>
      var cond := CodeCond(a, at);
      var body := CodeC(b, e, at + |cond| + 2);
      cond + [Op(XTrue), Int(at + |cond| + 2 + |body| + 2)] + body + [Op(XJump), Int(at)]
    case For(name, list, body) =>
      var words, variable := [Op(XMark)] + ForList(list), CodeVariable(name);
      words + variable + CodeLoop(body, e, at + |words| + |variable|) + [Op(XUnlocal)]
    case Switch(value, block) =>
      if !HasCase(block) then [] else
      var head := [Op(XMark)] + CodeW(value);
      var out := at + |head| + 2;
      var cases := CodeCases(Clauses(block), e, out + 2, out);
      head + [Op(XJump), Int(out + 2)] + [Op(XJump), Int(out + 2 + |cases|)] + cases + [Op(XPopm)]
    case Brace(a) => CodeC(a, e, at)
    case Fn(names, body) =>
      var head := [Op(XMark)] + CodeW(names);
      if body.Skip? then head + [Op(XDelfn)] else
      var code := CodeFn(body, e, at + |head| + 3);
      head + [Op(XFn), Int(at + |head| + 3 + |code|), Text(body)] + code
    case Assign(_, _, _) =>
      if ChainEnd(c).Skip? then CodeGlobals(c) else CodeLocals(c, e, at)
    case Pipe(fd0, fd1, a, b) => CodePipe(fd0, fd1, a, b, e, at)
    case Async(a) => CodeFork(XAsync, a, e, at)
    case Subshell(a) => CodeFork(XSubshell, a, e, at) + EflagTest(e)
  }

  /** A pipeline: the left side for a new process, the right side, and the wait. */
  function CodePipe(fd0: nat, fd1: nat, a: Cmd, b: Cmd, e: bool, at: nat): seq<Cell>
    decreases Pipe(fd0, fd1, a, b), 0
  {
    var left := CodeC(a, e, at + 5) + [Op(XExit)];
    var right := CodeC(b, e, at + 5 + |left|) + [Op(XReturn)];
    PipeHead(fd0, fd1, at + 5 + |left|, at + 5 + |left| + |right|) + left + right + [Op(XPipewait)]
  }

  /** The start of a pipeline: the two descriptors, the right side and the wait. */
  function PipeHead(fd0: nat, fd1: nat, right: nat, wait: nat): (r: seq<Cell>)
    ensures |r| == 5
  {
    [Op(XPipe), Int(fd0), Int(fd1), Int(right), Int(wait)]
  }

  /** A command for a new process, and where the old one goes on. */
  function CodeFork(op: Op, a: Cmd, e: bool, at: nat): seq<Cell>
    decreases a, 2
  {
    var body := CodeC(a, e, at + 2) + [Op(XExit)];
    [Op(op), Int(at + 2 + |body|)] + body
  }

  /** A command under a redirection, then the end of the redirection. */
  function CodeScoped(body: Cmd, e: bool, at: nat): seq<Cell>
    decreases body, 2
  {
    CodeC(body, e, at) + [Op(XPopredir)]
  }

  /** The condition of a while loop; one that emits nothing counts as true. */
  function CodeCond(a: Cmd, at: nat): seq<Cell>
    decreases a, 2
  {
    var code := CodeC(a, false, at);
    if code == [] then [Op(XSettrue)] else code
  }

  /** The variable of a for loop, with an empty list as its first value. */
  function CodeVariable(name: Word): seq<Cell> {
    [Op(XMark), Op(XMark)] + CodeW(name) + [Op(XLocal)]
  }

  /** A for loop after its list and its variable are set up. */
  function CodeLoop(body: Cmd, e: bool, at: nat): seq<Cell>
    decreases body, 2
  {
    var code := CodeC(body, e, at + 2);
    [Op(XFor), Int(at + 2 + |code| + 2)] + code + [Op(XJump), Int(at)]
  }

  /** A function body, then the end of its $* and the return. */
  function CodeFn(body: Cmd, e: bool, at: nat): seq<Cell>
    decreases body, 2
  {
    CodeC(body, e, at) + [Op(XUnlocal), Op(XReturn)]
  }

  /** The clauses of a switch, each ending in a jump to `out`. */
  function CodeCases(t: Cmd, e: bool, at: nat, out: nat): seq<Cell>
    decreases t, 3
  {
    if t.Seq? && IsCase(t.first) then
      var head := [Op(XMark)] + CodeArgs(t.first.args);
      var body := CodeClause(t.second, e, at + |head| + 2);
      var next := at + |head| + 2 + |body| + 2;
      head + [Op(XCase), Int(next)] + body + [Op(XJump), Int(out)]
        + CodeCases(NextClause(t.second), e, next, out)
    else []
  }

  /** The commands of one clause. */
  function CodeClause(t: Cmd, e: bool, at: nat): seq<Cell>
    decreases t, 2
  {
    if t.Seq? then
      if IsCase(t.first) then [] else
      var first := CodeC(t.first, e, at);
      first + CodeClause(t.second, e, at + |first|)
    else if IsCase(t) then []
    else CodeC(t, e, at)
  }

  /** name=value ... with no command: each binding is made for good. */
  function CodeGlobals(c: Cmd): seq<Cell> {
    if c.Assign? then CodeBinding(c.name, c.value) + [Op(XAssign)] + CodeGlobals(c.rest) else []
  }

  /** name=value ... command: the bindings are local to the command. */
  function CodeLocals(c: Cmd, e: bool, at: nat): seq<Cell>
    decreases c, if c.Assign? then 0 else 2
  {
    if c.Assign? then
      var head := CodeBinding(c.name, c.value) + [Op(XLocal)];
      head + CodeLocals(c.rest, e, at + |head|) + [Op(XUnlocal)]
    else CodeC(c, e, at)
  }

  /** A whole vector: the reference count, the code, the return and the end mark. */
  function CodeVector(c: Cmd, e: bool): seq<Cell> {
    [Int(0)] + CodeC(c, e, 1) + [Op(XReturn), Nil]
  }

  /******* One level of the code *******/

  lemma TestCode(c: Cmd, e: bool, at: nat)
    requires c.AndAnd? || c.OrOr?
    ensures CodeC(c, e, at) ==
            var first := CodeC(c.left, false, at);
            var second := CodeC(c.right, e, at + |first| + 2);
            first + [Op(if c.AndAnd? then XTrue else XFalse), Int(at + |first| + 2 + |second|)] + second
  {}

  lemma IfCode(t: Cmd, e: bool, at: nat)
    requires t.If?
    ensures CodeC(t, e, at) ==
            var cond := CodeC(t.cond, false, at);
            var body := CodeC(t.body, e, at + |cond| + 2);
            cond + [Op(XIf), Int(at + |cond| + 2 + |body| + 1)] + body + [Op(XWastrue)]
  {}

  lemma IfNotCode(t: Cmd, e: bool, at: nat)
    requires t.IfNot?
    ensures CodeC(t, e, at) ==
            var body := CodeC(t.body, e, at + 2);
            [Op(XIfnot), Int(at + 2 + |body|)] + body
  {}

  lemma WhileCode(t: Cmd, e: bool, at: nat)
    requires t.While?
    ensures CodeC(t, e, at) ==
            var cond := CodeCond(t.cond, at);
            var body := CodeC(t.body, e, at + |cond| + 2);
            cond + [Op(XTrue), Int(at + |cond| + 2 + |body| + 2)] + body + [Op(XJump), Int(at)]
  {
    hide CodeCond;
  }

  lemma PipeCode(c: Cmd, e: bool, at: nat)
    requires c.Pipe?
    ensures CodeC(c, e, at) == CodePipe(c.fd0, c.fd1, c.left, c.right, e, at)
  {}

  lemma ForkCode(c: Cmd, e: bool, at: nat)
    requires c.Async? || c.Subshell?
    ensures CodeC(c, e, at) ==
            var code := CodeFork(if c.Async? then XAsync else XSubshell, c.cmd, e, at);
            if c.Async? then code else code + EflagTest(e)
  {
    hide CodeFork;
    hide EflagTest;
  }

  lemma CasesCode(t: Cmd, e: bool, at: nat, out: nat)
    requires t.Seq? && IsCase(t.first)
    ensures CodeCases(t, e, at, out) ==
            var head := [Op(XMark)] + CodeArgs(t.first.args);
            var body := CodeClause(t.second, e, at + |head| + 2);
            var next := at + |head| + 2 + |body| + 2;
            head + [Op(XCase), Int(next)] + body + [Op(XJump), Int(out)]
              + CodeCases(NextClause(t.second), e, next, out)
  {
    hide CodeArgs;
    hide CodeClause;
    hide IsCase;
  }
}
