/**
 Syntax trees of the shell, as the grammar of rc/syn.y and the constructors of
 rc/tree.c build them.  Trees come in two sorts, words and commands; `NoWord` and
 `Skip` are the nil trees of the two sorts.
 */
module RcTree {

  datatype Word =
    | NoWord
    | Lit(str: string, quoted: bool)
    | ArgList(init: Word, last: Word)
    | Words(init: Word, last: Word)
    | Paren(inner: Word)
    | Dollar(name: Word)                // $name
    | Count(name: Word)                 // $#name
    | Join(name: Word)                  // $"name
    | Sub(name: Word, subs: Word)       // $name(subs)
    | Caret(left: Word, right: Word)    // left^right

  datatype RedirKind = Write | Read | Append | ReadWrite

  datatype Cmd =
    | Skip
    | Simple(args: Word)
    | Seq(first: Cmd, second: Cmd)
    | AndAnd(left: Cmd, right: Cmd)
    | OrOr(left: Cmd, right: Cmd)
    | Bang(cmd: Cmd)
    | Twiddle(subject: Word, patterns: Word)
    | Redirect(kind: RedirKind, fd: nat, file: Word, body: Cmd)
    | DupFd(fd0: nat, fd1: nat, body: Cmd)
    | CloseFd(fd: nat, body: Cmd)
    | If(cond: Cmd, body: Cmd)
    | IfNot(body: Cmd)
    | While(cond: Cmd, body: Cmd)
    | For(name: Word, list: Word, body: Cmd)
    | Switch(value: Word, block: Cmd)
    | Brace(cmd: Cmd)
    | Fn(names: Word, body: Cmd)
    | Assign(name: Word, value: Word, rest: Cmd)
    | Pipe(fd0: nat, fd1: nat, left: Cmd, right: Cmd)
    | Async(cmd: Cmd)
    | Subshell(cmd: Cmd)

  /** The first word of an argument list. */
  function Head(w: Word): Word {
    if w.ArgList? then Head(w.init) else w
  }

  /** A simple command that starts with the unquoted word `case` (`iscase`). */
  predicate IsCase(c: Cmd) {
    && c.Simple?
    && Head(c.args).Lit?
    && !Head(c.args).quoted
    && Head(c.args).str == "case"
  }

  /** The clauses of a switch: the list inside its braces. */
  function Clauses(block: Cmd): Cmd {
    if block.Brace? then block.cmd else Skip
  }

  /** The test of `codeswitch`: the braces hold a list that starts with a case. */
  predicate HasCase(block: Cmd) {
    Clauses(block).Seq? && IsCase(Clauses(block).first)
  }

  /** Skip the commands of one clause, up to the next case or the last command. */
  function NextClause(t: Cmd): (r: Cmd)
    ensures r == t || r < t
    ensures r.Seq? ==> IsCase(r.first)
  {
    if t.Seq? && !IsCase(t.first) then NextClause(t.second) else t
  }

  /** The command at the end of a chain of assignments. */
  function ChainEnd(c: Cmd): (r: Cmd)
    ensures r == c || r < c
    ensures !r.Assign?
  {
    if c.Assign? then ChainEnd(c.rest) else c
  }
}
