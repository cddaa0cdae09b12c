/**
 The interpreter as the source has it: threads that point into shared linked lists of
 locals and redirections, updated in place (rc/executils.c, rc/exec.c, rc/var.c, `Xsimple`
 and `execfunc` of rc/simple.c).  It does what the machine does.
 */
module RcInterp {
  import opened Wrappers
  import opened RcTree
  import opened RcGlob
  import opened RcCode
  import opened RcStore
  import opened RcMachine
  import opened RcChain
  import opened RcFlat

  /** How a run ends. */
  datatype How = Exit | Abort | Fork | Panic

  /** k is the place of the first local of that name; the length of the list if there is none. */
  ghost predicate FirstNamed(ls: seq<Var>, name: string, k: nat) {
    && k <= |ls| && (k < |ls| ==> ls[k].name == name)
    && forall j :: 0 <= j < k ==> ls[j].name != name
  }

  lemma {:induction false} FirstLookup(ls: seq<Var>, name: string, k: nat)
    requires FirstNamed(ls, name, k)
    ensures HasLocal(ls, name) <==> k < |ls|
    ensures k < |ls| ==> GetLocal(ls, name) == ls[k].val
  {
    if k > 0 {
      assert forall j :: 0 <= j < k - 1 ==> ls[1..][j].name == ls[j + 1].name;
      FirstLookup(ls[1..], name, k - 1);
    }
  }

  lemma {:induction false} FirstSet(ls: seq<Var>, name: string, val: Strings, k: nat)
    requires FirstNamed(ls, name, k)
    ensures HasLocal(ls, name) <==> k < |ls|
    ensures k < |ls| ==> SetLocal(ls, name, val) == ls[k := Var(name, val)]
  {
    if k > 0 {
      var rest := ls[1..];
      assert forall j :: 0 <= j < k - 1 ==> rest[j].name == ls[j + 1].name;
      FirstSet(rest, name, val, k - 1);
      if k < |ls| {
        assert [ls[0]] + rest[k - 1 := Var(name, val)] == ls[k := Var(name, val)];
      }
    } else if ls != [] {
      assert [Var(name, val)] + ls[1..] == ls[0 := Var(name, val)];
    }
  }

  lemma Opens(host: Host, kind: RedirKind, fd: int, ws: Strings, s: Store)
    ensures |ws| != 1 ==> OpenRedir(host, kind, fd, ws, s).None?
    ensures |ws| == 1 ==>
              (var f := host.open(s.world, kind, ws[0]);
               OpenRedir(host, kind, fd, ws, s) ==
               if f.fd < 0 then None else Some(PushRedir(s.(world := f.world), ROpen(f.fd, fd))))
  {}

  /** The redirections a thread started with are among its own, and its pointers are equal
      exactly if there are no others. */
  lemma StartLength(q: seq<CThread>, c: seq<nat>, d: seq<nat>, h: Heap<Redir>)
    requires q != [] && Nested(q, c, d) && IsChain(h, d) && q[0].redir == HeadOf(d)
    ensures |From(d, q[0].startredir)| <= |d| == |Vals(h, d)|
    ensures q[0].redir == q[0].startredir <==> |From(d, q[0].startredir)| == |d|
  {
    assert NestedAt(q, c, d, 0);
    assert From(d, HeadOf(d)) == d;
    SameLength(h, d, q[0].redir, q[0].startredir);
    FromShort(d, q[0].startredir);
  }

  /** The same for locals and the thread below. */
  lemma BelowLength(q: seq<CThread>, c: seq<nat>, d: seq<nat>, h: Heap<Var>)
    requires q != [] && Nested(q, c, d) && IsChain(h, c) && q[0].local == HeadOf(c)
    ensures q[0].local == 0 <==> c == []
    ensures |q| > 1 ==> |From(c, q[1].local)| <= |c|
    ensures |q| > 1 ==> (q[0].local == q[1].local <==> |From(c, q[1].local)| == |c|)
  {
    assert From(c, HeadOf(c)) == c;
    assert NestedAt(q, c, d, 0);
    if |q| > 1 {
      assert NestedAt(q, c, d, 1);
      SameLength(h, c, q[0].local, q[1].local);
      FromShort(c, q[1].local);
    }
  }

  /** The lists of the thread below are ends of those of the thread that is left. */
  lemma ListsReturned(h: Heap<Var>, k: Heap<Redir>, q: seq<CThread>, c: seq<nat>, d: seq<nat>)
    requires Nested(q, c, d) && |q| > 1 && IsChain(h, c) && IsChain(k, d)
    requires q[0].redir == HeadOf(d) == q[0].startredir
    ensures var c', d' := From(c, q[1].local), From(d, q[1].redir);
            && IsChain(h, c') && q[1].local == HeadOf(c') && q[1].redir == HeadOf(d') && d' == d
            && Nested(q[1..], c', d') && Flat(q[1..], c', d') == Flat(q, c, d)[1..]
            && |c'| == Flat(q, c, d)[0].below <= |c| == |Vals(h, c)|
            && Vals(h, c') == Vals(h, c)[|c| - |c'|..]
  {
    hide Nested;
    hide IsChain;
    hide From;
    hide Vals;
    ThreadReturned(h, k, q, c, d);
    ChainHasNoNil(h, c);
    ChainHasNoNil(k, d);
    FromIsEnd(c, q[1].local);
    FromIsEnd(d, q[1].redir);
    EndIsChain(h, c, |From(c, q[1].local)|);
    SameRedirs(q, c, d);
    ValsLength(h, c);
    hide Flat;
    BelowIs(q, c, d);
  }

  lemma ValsLength<T>(h: Heap<T>, c: seq<nat>)
    requires IsChain(h, c)
    ensures |Vals(h, c)| == |c|
  {}

  lemma BelowIs(q: seq<CThread>, c: seq<nat>, d: seq<nat>)
    requires |q| > 1
    ensures Flat(q, c, d)[0].below == |From(c, q[1].local)|
  {
    hide From;
  }

  /** A thread that has no redirection of its own shares all with the one below. */
  lemma SameRedirs(q: seq<CThread>, c: seq<nat>, d: seq<nat>)
    requires Nested(q, c, d) && |q| > 1 && HeadOf(d) == q[0].startredir
    ensures From(d, q[1].redir) == d
  {
    assert NestedAt(q, c, d, 0);
  }

  /** The first redirection, which the thread did not start with, is taken off the list. */
  lemma RedirDropped(h: Heap<Redir>, q: seq<CThread>, c: seq<nat>, d: seq<nat>)
    requires q != [] && Nested(q, c, d) && IsChain(h, d) && q[0].redir == HeadOf(d) != q[0].startredir
    ensures d != [] && d[0] in h && |Vals(h, d)| == |d|
    ensures h[d[0]].next == HeadOf(d[1..]) && h[d[0]].val == Vals(h, d)[0]
    ensures IsChain(h, d[1..]) && Vals(h, d[1..]) == Vals(h, d)[1..]
    ensures var q' := [q[0].(redir := HeadOf(d[1..]))] + q[1..];
            Nested(q', c, d[1..]) && Flat(q', c, d[1..]) == Flat(q, c, d)
  {
    StartLength(q, c, d, h);
    EndIsChain(h, d, |d| - 1);
    assert d[|d| - (|d| - 1)..] == d[1..];
    RedirPopped(h, q, c, d);
    hide Nested;
  }

  lemma Stepped(host: Host, t: Thread, rest: seq<Thread>, s: Store, fns: map<string, Entry>)
    ensures Step(host, Go(t, rest, s, fns)) ==
            if t.pc >= |t.code| || !t.code[t.pc].Op? then Panicked
            else Exec1(host, t.code[t.pc].op, t.(pc := t.pc + 1), rest, s, fns)
  {
    hide Exec1;
    assert ([t] + rest)[1..] == rest;
  }

  lemma Stopped(host: Host, r: Run)
    requires !r.Running?
    ensures Step(host, r) == r
  {}

  class Interp {
    const host: Host
    /** The threads, the running one first. */
    var runq: seq<CThread>
    /** The cells of all locals and of all redirections. */
    var vars: Heap<Var>
    var redirs: Heap<Redir>
    var globals: map<string, Strings>
    var ifnot: bool
    var world: World
    var fns: map<string, Entry>
    /** How the run has ended, if it has. */
    var ended: Option<How>
    /** The addresses of the locals and redirections of the running thread. */
    ghost var locals: seq<nat>
    ghost var redirections: seq<nat>

    ghost predicate Valid()
      reads this
    {
      && runq != [] && IsChain(vars, locals) && IsChain(redirs, redirections)
      && runq[0].local == HeadOf(locals) && runq[0].redir == HeadOf(redirections)
      && Nested(runq, locals, redirections)
    }

    /** The running thread, the waiting threads and the store as the machine has them. */
    ghost function Top(): Thread
      requires Valid()
      reads this
    {
      Flat(runq, locals, redirections)[0]
    }

    ghost function Rest(): seq<Thread>
      requires Valid()
      reads this
    {
      Flat(runq, locals, redirections)[1..]
    }

    ghost function Sto(): Store
      requires Valid()
      reads this
    {
      Store(globals, Vals(vars, locals), Vals(redirs, redirections), ifnot, world)
    }

    ghost function Image(): Run
      requires Valid()
      reads this
    {
      match ended
      case None => Go(Top(), Rest(), Sto(), fns)
      case Some(Exit) => Exited(Sto())
      case Some(Abort) => Aborted(Sto())
      case Some(Fork) => Forked(Sto())
      case Some(Panic) => Panicked
    }

    ghost predicate Live()
      reads this
    {
      ended.None? && Valid()
    }

    /** A shell with one thread, and no local or redirection. */
    constructor (host: Host, code: seq<Cell>, pc: nat, globals: map<string, Strings>, world: World)
      ensures this.host == host && Live() && fns == map[]
      ensures Top() == Thread(code, pc, [], 0, 0) && Rest() == []
      ensures Sto() == Store(globals, [], [], false, world)
    {
      this.host, this.globals, this.world := host, globals, world;
      runq, vars, redirs, ifnot, fns, ended := [CThread(code, pc, [], 0, 0, 0)], map[], map[], false, map[], None;
      locals, redirections := [], [];
      new;
      assert NestedAt(runq, locals, redirections, 0);
    }

    method Panics()
      requires Valid()
      modifies this`ended
      ensures Valid() && Image() == Panicked
    {
      ended := Some(Panic);
    }

    /** An error: the status is set and the run is given up. */
    method XError()
      requires Live()
      modifies this
      ensures Valid() && Image() == Aborted(Failed(old(Sto())))
    {
      SetVar("status", ["error"]);
      ended := Some(Abort);
    }

    /******* Threads *******/

    /** The counter and the stack of the running thread. */
    method SetTop(pc: nat, argv: seq<Strings>)
      requires Live()
      modifies this`runq
      ensures Live() && Top() == old(Top()).(pc := pc, argv := argv) && Rest() == old(Rest()) && Sto() == old(Sto())
      ensures runq == [old(runq)[0].(pc := pc, argv := argv)] + old(runq)[1..]
    {
      hide IsChain;
      TopMoved(runq, locals, redirections, pc, argv);
      hide Nested;
      hide Flat;
      runq := [runq[0].(pc := pc, argv := argv)] + runq[1..];
    }

    /** `start`: a thread over the running one, with pointers to the same lists. */
    method Start(f: Entry)
      requires Live()
      modifies this`runq
      ensures Live() && Sto() == old(Sto())
      ensures Top() == Thread(f.code, f.pc, [], |Sto().locals|, |Sto().redirs|)
      ensures Rest() == [old(Top())] + old(Rest())
    {
      hide IsChain;
      ThreadStarted(runq, locals, redirections, f.code, f.pc);
      hide Nested;
      hide Flat;
      runq := [CThread(f.code, f.pc, [], runq[0].local, runq[0].redir, runq[0].redir)] + runq;
    }

    lemma RestLength()
      requires Valid()
      ensures |Rest()| == |runq| - 1
    {}

    /** `Xreturn`: leave the thread with its redirections and lists; the one below still has
        its own pointers. */
    method XReturn()
      requires Live()
      modifies this
      ensures Valid() && Image() == XReturnOp(host, old(Top()), old(Rest()), old(Sto()), old(fns))
    {
      hide PopRedirs;
      hide Valid;
      hide Top;
      hide Rest;
      hide Sto;
      TurfRedir();
      DropLists();
      RestLength();
      if |runq| == 1 {
        End(Exit);
      } else {
        Resume();
      }
    }

    method DropLists()
      requires Live()
      modifies this`runq
      ensures Live() && Top() == old(Top()).(argv := []) && Rest() == old(Rest()) && Sto() == old(Sto())
      ensures |runq| == |old(runq)| && runq[0] == old(runq)[0].(argv := [])
    {
      hide IsChain;
      hide Nested;
      ghost var s0 := Sto();
      hide Vals;
      while runq[0].argv != []
        invariant Live() && Sto() == s0 && Rest() == old(Rest()) && Top() == old(Top()).(argv := runq[0].argv)
        invariant |runq| == |old(runq)| && runq[0] == old(runq)[0].(argv := runq[0].argv)
        decreases |runq[0].argv|
      {
        SetTop(runq[0].pc, runq[0].argv[1..]);
      }
    }

    /** The running thread is gone: the one below has the ends of the lists it points to. */
    method Resume()
      requires Live() && |runq| > 1 && runq[0].redir == runq[0].startredir
      modifies this`runq, this`locals, this`redirections
      ensures Live() && old(Top()).below <= |old(Sto()).locals|
      ensures [Top()] + Rest() == old(Rest())
      ensures Sto() == old(Sto()).(locals := old(Sto()).locals[|old(Sto()).locals| - old(Top()).below..])
    {
      hide IsChain;
      hide Nested;
      hide From;
      hide Flat;
      hide Vals;
      ghost var q, c, d := runq, locals, redirections;
      ListsReturned(vars, redirs, q, c, d);
      runq := runq[1..];
      locals, redirections := From(c, q[1].local), From(d, q[1].redir);
    }

    /******* Redirections *******/

    method PushRedir(r: Redir)
      requires Live()
      modifies this`runq, this`redirs, this`redirections
      ensures Live() && Top() == old(Top()) && Rest() == old(Rest())
      ensures Sto() == RcStore.PushRedir(old(Sto()), r)
    {
      ghost var some := Unused(redirs.Keys);
      assert some !in redirs;
      var p: nat :| p != 0 && p !in redirs;
      assert p !in redirections;
      PushChain(redirs, redirections, p, r);
      RedirPushed(runq, locals, redirections, p);
      hide IsChain;
      hide Nested;
      hide Flat;
      redirs := redirs[p := Link(r, runq[0].redir)];
      runq := [runq[0].(redir := p)] + runq[1..];
      redirections := [p] + redirections;
    }

    /** `Xpopredir`: a panic if there is none, or only those the thread started with. */
    method XPopRedir()
      requires Live()
      modifies this
      ensures Valid() && |old(Sto()).redirs| <= old(Top()).startredir ==> Image() == Panicked
      ensures Valid() && |old(Sto()).redirs| > old(Top()).startredir ==>
                Image() == Go(old(Top()), old(Rest()), PopRedir(host, old(Sto())), old(fns))
      ensures Valid()
    {
      StartLength(runq, locals, redirections, redirs);
      hide IsChain;
      hide Nested;
      if runq[0].redir == runq[0].startredir {
        Panics();
      } else {
        DropRedir();
      }
    }

    /** The first redirection goes, and its file is closed. */
    method DropRedir()
      requires Live() && runq[0].redir != runq[0].startredir
      modifies this`runq, this`redirections, this`world
      ensures Live() && Top() == old(Top()) && Rest() == old(Rest()) && |runq| == |old(runq)|
      ensures old(Sto()).redirs != [] && Sto() == PopRedir(host, old(Sto()))
    {
      hide IsChain;
      hide Nested;
      hide Flat;
      hide Vals;
      ghost var q, d := runq, redirections;
      RedirDropped(redirs, q, locals, d);
      var rp := redirs[runq[0].redir];
      runq := [runq[0].(redir := rp.next)] + runq[1..];
      redirections := redirections[1..];
      if rp.val.ROpen? {
        world := host.close(world, rp.val.from);
      }
    }

    /** `turfredir`: pointers are compared, and that is comparing lengths. */
    method TurfRedir()
      requires Live()
      modifies this
      ensures Live() && Top() == old(Top()) && Rest() == old(Rest()) && fns == old(fns)
      ensures runq[0].redir == runq[0].startredir && |runq| == |old(runq)|
      ensures old(Top()).startredir <= |old(Sto()).redirs|
      ensures Sto() == PopRedirs(host, old(Sto()), old(Top()).startredir)
    {
      ghost var n := Top().startredir;
      StartLength(runq, locals, redirections, redirs);
      while runq[0].redir != runq[0].startredir
        invariant Live() && Top() == old(Top()) && Rest() == old(Rest()) && fns == old(fns)
        invariant |runq| == |old(runq)| && n <= |Sto().redirs|
        invariant PopRedirs(host, Sto(), n) == PopRedirs(host, old(Sto()), n)
        decreases |Sto().redirs|
      {
        StartLength(runq, locals, redirections, redirs);
        hide IsChain;
        hide Nested;
        hide Flat;
        DropRedir();
      }
      StartLength(runq, locals, redirections, redirs);
    }

    /******* Variables *******/

    /** `vlook`: the cell of the innermost local of that name; 0 for a global variable. */
    method Find(name: string) returns (p: nat, ghost k: nat)
      requires Valid()
      ensures k <= |locals| && p == (if k < |locals| then locals[k] else 0)
      ensures p != 0 ==> p in vars && vars[p].val.name == name
      ensures FirstNamed(Sto().locals, name, k)
    {
      hide Nested;
      p, k := runq[0].local, 0;
      while p != 0 && vars[p].val.name != name
        invariant k <= |locals| && p == if k < |locals| then locals[k] else 0
        invariant forall j :: 0 <= j < k ==> vars[locals[j]].val.name != name
        decreases |locals| - k
      {
        p := vars[p].next;
        k := k + 1;
      }
    }

    method Fetch(name: string) returns (val: Strings)
      requires Valid()
      ensures val == Lookup(Sto(), name)
    {
      var p, k := Find(name);
      FirstLookup(Sto().locals, name, k);
      if p != 0 {
        val := vars[p].val.val;
      } else if name in globals {
        val := globals[name];
      } else {
        val := [];
      }
    }

    /** Assign in place: every thread that shares the cell sees it. */
    method SetVar(name: string, val: Strings)
      requires Live()
      modifies this`vars, this`globals
      ensures Live() && Top() == old(Top()) && Rest() == old(Rest())
      ensures Sto() == RcStore.SetVar(old(Sto()), name, val)
    {
      var p, k := Find(name);
      FirstSet(Sto().locals, name, val, k);
      if p != 0 {
        SetChain(vars, locals, k, Var(name, val));
        vars := vars[p := vars[p].(val := Var(name, val))];
      } else {
        globals := globals[name := val];
      }
    }

    method SetVars(sets: seq<Var>)
      requires Live()
      modifies this`vars, this`globals
      ensures Live() && Top() == old(Top()) && Rest() == old(Rest())
      ensures Sto() == RcStore.SetVars(old(Sto()), sets)
    {
      hide IsChain;
      hide Nested;
      hide Flat;
      for i := 0 to |sets|
        invariant Live() && Top() == old(Top()) && Rest() == old(Rest())
        invariant RcStore.SetVars(Sto(), sets[i..]) == RcStore.SetVars(old(Sto()), sets)
      {
        assert sets[i..][1..] == sets[i + 1..];
        SetVar(sets[i].name, sets[i].val);
      }
    }

    /** `newvar` on the locals of the running thread. */
    method PushVar(name: string, val: Strings)
      requires Live()
      modifies this`runq, this`vars, this`locals
      ensures Live() && Top() == old(Top()) && Rest() == old(Rest())
      ensures Sto() == PushLocal(old(Sto()), name, val)
    {
      ghost var some := Unused(vars.Keys);
      assert some !in vars;
      var p: nat :| p != 0 && p !in vars;
      assert p !in locals;
      PushChain(vars, locals, p, Var(name, val));
      LocalPushed(runq, locals, redirections, p);
      hide IsChain;
      hide Nested;
      hide Flat;
      vars := vars[p := Link(Var(name, val), runq[0].local)];
      runq := [runq[0].(local := p)] + runq[1..];
      locals := [p] + locals;
    }

    /** `Xunlocal`: a panic if there is no local, or only those of the thread below. */
    method XUnlocal()
      requires Live()
      modifies this
      ensures Valid() && |old(Sto()).locals| <= old(Top()).below ==> Image() == Panicked
      ensures Valid() && |old(Sto()).locals| > old(Top()).below ==>
                Image() == Go(old(Top()), old(Rest()), PopLocal(old(Sto())), old(fns))
      ensures Valid()
    {
      BelowLength(runq, locals, redirections, vars);
      hide IsChain;
      hide Nested;
      if runq[0].local == 0 || (|runq| > 1 && runq[0].local == runq[1].local) {
        Panics();
      } else {
        DropLocal();
      }
    }

    /** The innermost local goes. */
    method DropLocal()
      requires Live() && runq[0].local != 0 && (|runq| > 1 ==> runq[0].local != runq[1].local)
      modifies this`runq, this`locals
      ensures Live() && Top() == old(Top()) && Rest() == old(Rest()) && Sto() == PopLocal(old(Sto()))
    {
      ghost var q, c := runq, locals;
      BelowLength(q, c, redirections, vars);
      EndIsChain(vars, c, |c| - 1);
      assert c[|c| - (|c| - 1)..] == c[1..];
      LocalPopped(vars, q, c, redirections);
      var v := vars[runq[0].local];
      assert v.next == HeadOf(c[1..]);
      hide IsChain;
      hide Nested;
      hide Flat;
      runq := [runq[0].(local := v.next)] + runq[1..];
      locals := locals[1..];
    }

    /** The value of the innermost local. */
    method SetTopVar(val: Strings)
      requires Live() && runq[0].local != 0
      modifies this`vars
      ensures Live() && Top() == old(Top()) && Rest() == old(Rest()) && Sto() == RcStore.SetTop(old(Sto()), val)
    {
      var p := runq[0].local;
      var v := Var(vars[p].val.name, val);
      SetChain(vars, locals, 0, v);
      ghost var s0 := Sto();
      assert s0.locals[0 := v] == [v] + s0.locals[1..];
      vars := vars[p := vars[p].(val := v)];
    }

    /** Is the status true? */
    method IsTrue() returns (ok: bool)
      requires Valid()
      ensures ok == TrueStatus(Sto())
    {
      hide Valid;
      hide Sto;
      hide Lookup;
      var v := Fetch("status");
      assert Status(Sto()) == if v == [] then "" else v[0];
      ok := ZerosAndBars(if v == [] then "" else v[0]);
    }

    static method ZerosAndBars(s: string) returns (ok: bool)
      ensures ok <==> forall c :: c in s ==> c == '|' || c == '0'
    {
      ok := true;
      for i := 0 to |s|
        invariant ok && forall j :: 0 <= j < i ==> s[j] == '|' || s[j] == '0'
      {
        if s[i] != '|' && s[i] != '0' {
          assert s[i] in s;
          return false;
        }
      }
    }

    /******* Single fields *******/

    lemma TopIs()
      requires Valid()
      ensures runq != []
      ensures Top().code == runq[0].code && Top().pc == runq[0].pc && Top().argv == runq[0].argv
      ensures runq[0].local == 0 <==> Sto().locals == []
    {
      BelowLength(runq, locals, redirections, vars);
    }

    method SetIfnot(b: bool)
      requires Live()
      modifies this`ifnot
      ensures Live() && Top() == old(Top()) && Rest() == old(Rest()) && Sto() == old(Sto()).(ifnot := b)
      ensures ifnot == b
    {
      ifnot := b;
    }

    method SetWorld(w: World)
      requires Live()
      modifies this`world
      ensures Live() && Top() == old(Top()) && Rest() == old(Rest()) && Sto() == old(Sto()).(world := w) && world == w
    {
      world := w;
    }

    method SetFn(name: string, f: Entry)
      requires Live()
      modifies this`fns
      ensures Live() && Top() == old(Top()) && Rest() == old(Rest()) && Sto() == old(Sto())
      ensures fns == old(fns)[name := f] && runq == old(runq)
    {
      fns := fns[name := f];
    }

    method DelFn(name: string)
      requires Live()
      modifies this`fns
      ensures Live() && Top() == old(Top()) && Rest() == old(Rest()) && Sto() == old(Sto())
      ensures fns == old(fns) - {name} && runq == old(runq)
    {
      fns := fns - {name};
    }

    method End(how: How)
      requires Live() && how != Panic
      modifies this`ended
      ensures Valid()
      ensures Image() == if how == Exit then Exited(old(Sto())) else if how == Abort then Aborted(old(Sto()))
                         else Forked(old(Sto()))
    {
      ended := Some(how);
    }

    lemma FieldsAre()
      requires Valid()
      ensures Sto().ifnot == ifnot && Sto().world == world
      ensures ended.None? ==> Image() == Go(Top(), Rest(), Sto(), fns)
    {}

    /******* Control *******/

    /** Jump to the operand, or go past it. */
    method Jump(taken: bool)
      requires Live()
      modifies this`runq, this`ended
      ensures Valid() && Image() == Branch(taken, old(Top()), old(Rest()), old(Sto()), fns)
    {
      hide Valid;
      hide Rest;
      hide Sto;
      hide Top;
      TopIs();
      var t := runq[0];
      if t.pc >= |t.code| || !t.code[t.pc].Int? || t.code[t.pc].i < 0 {
        Panics();
      } else {
        SetTop(if taken then t.code[t.pc].i else t.pc + 1, t.argv);
      }
    }

    method XJumps(op: Op)
      requires Live() && op in {Op.XTrue, Op.XFalse, Op.XJump, Op.XIf, Op.XIfnot}
      modifies this`runq, this`ifnot, this`ended
      ensures Valid() && Image() == Exec1(host, op, old(Top()), old(Rest()), old(Sto()), fns)
    {
      hide Valid;
      hide Top;
      hide Rest;
      hide Sto;
      hide Image;
      hide TrueStatus;
      FieldsAre();
      match op
      case XTrue => var ok := IsTrue(); Jump(!ok);
      case XFalse => var ok := IsTrue(); Jump(ok);
      case XIf =>
        var ok := IsTrue();
        SetIfnot(true);
        Jump(!ok);
      case XIfnot => Jump(!ifnot);
      case XJump => Jump(true);
    }

    /** Does one of the patterns match? */
    static method Matches(subject: string, patterns: Strings) returns (ok: bool)
      ensures ok == AnyMatch(subject, patterns)
    {
      ok := false;
      for i := 0 to |patterns|
        invariant forall j :: 0 <= j < i ==> !Match(subject, patterns[j], '\0')
      {
        if Match(subject, patterns[i], '\0') {
          return true;
        }
      }
    }

    method XCase()
      requires Live()
      modifies this`runq, this`ended
      ensures Valid() && Image() == XCaseOp(old(Top()), old(Rest()), old(Sto()), fns)
    {
      hide Valid;
      hide Rest;
      hide Sto;
      hide AnyMatch;
      hide Top;
      TopIs();
      var t := runq[0];
      if |t.argv| < 2 {
        Panics();
        return;
      }
      var ok := Matches(Spaced(t.argv[1]), t.argv[0]);
      SetTop(t.pc, t.argv[1..]);
      Jump(!ok);
    }

    method XMatch()
      requires Live()
      modifies this
      ensures Valid() && Image() == XMatchOp(old(Top()), old(Rest()), old(Sto()), old(fns))
    {
      hide Valid;
      hide Rest;
      hide Sto;
      hide AnyMatch;
      hide Top;
      TopIs();
      var t := runq[0];
      if |t.argv| < 2 {
        Panics();
        return;
      }
      var ok := Matches(Spaced(t.argv[0]), t.argv[1]);
      SetVar("status", [if ok then "" else "no match"]);
      SetTop(t.pc, t.argv[2..]);
    }

    method XFor()
      requires Live()
      modifies this`runq, this`vars, this`ended
      ensures Valid() && Image() == XForOp(old(Top()), old(Rest()), old(Sto()), fns)
    {
      hide Valid;
      hide Rest;
      hide Sto;
      hide Top;
      TopIs();
      var t := runq[0];
      if t.argv == [] {
        Panics();
      } else if t.argv[0] == [] {
        SetTop(t.pc, t.argv[1..]);
        Jump(true);
      } else if t.local == 0 {
        Panics();
      } else {
        SetTopVar([t.argv[0][0]]);
        SetTop(t.pc + 1, [t.argv[0][1..]] + t.argv[1..]);
      }
    }

    /******* Words and variables *******/

    method XStack(op: Op)
      requires Live() && op in {Op.XMark, Op.XPopm, Op.XWord, Op.XGlob}
      modifies this`runq, this`ended
      ensures Valid() && Image() == Exec1(host, op, old(Top()), old(Rest()), old(Sto()), fns)
    {
      hide Valid;
      hide Rest;
      hide Sto;
      hide Top;
      TopIs();
      FieldsAre();
      var t := runq[0];
      if op.XMark? {
        SetTop(t.pc, [[]] + t.argv);
      } else if t.argv == [] {
        Panics();
      } else if op.XPopm? {
        SetTop(t.pc, t.argv[1..]);
      } else if op.XGlob? {
        SetTop(t.pc, [GlobWords(host, world, t.argv[0])] + t.argv[1..]);
      } else if t.pc >= |t.code| || !t.code[t.pc].Str? {
        Panics();
      } else {
        SetTop(t.pc + 1, [[t.code[t.pc].s] + t.argv[0]] + t.argv[1..]);
      }
    }

    /** `Xconc`: the concatenation goes in front of the list below. */
    method XConc()
      requires Live()
      modifies this
      ensures Valid()
      ensures |old(Top()).argv| < 3 ==> Image() == Panicked
      ensures var t := old(Top());
              |t.argv| >= 3 ==>
                Image() == Reduce(2, Concat(t.argv[0], t.argv[1]), t, old(Rest()), old(Sto()), old(fns))
    {
      hide Valid;
      hide Rest;
      hide Sto;
      hide Top;
      TopIs();
      var t := runq[0];
      if |t.argv| < 3 {
        Panics();
        return;
      }
      var lp, rp, vp := t.argv[0], t.argv[1], t.argv[2];
      if lp != [] || rp != [] {
        if lp == [] || rp == [] || (|lp| != 1 && |rp| != 1 && |lp| != |rp|) {
          XError();
          return;
        }
        vp := ConcList(lp, rp) + vp;
      }
      assert [] + t.argv[2] == t.argv[2];
      hide ConcList;
      SetTop(t.pc, [vp] + t.argv[3..]);
    }

    method XSub()
      requires Live()
      modifies this
      ensures Valid() && Image() == XSubOp(old(Top()), old(Rest()), old(Sto()), old(fns))
    {
      hide Valid;
      hide Rest;
      hide Sto;
      hide Top;
      TopIs();
      var t := runq[0];
      if |t.argv| < 3 {
        Panics();
        return;
      }
      if |t.argv[1]| != 1 {
        XError();
        return;
      }
      var v := Fetch(Deglob(t.argv[1][0]));
      SetTop(t.pc, [SubWords(v, t.argv[0]) + t.argv[2]] + t.argv[3..]);
    }

    /** The value of $name: of the variable, or of one word of $*. */
    method Dollar(name: string) returns (val: Strings)
      requires Valid()
      ensures val == DollarValue(Sto(), name)
    {
      hide Valid;
      hide Sto;
      var n := ReadNat(name, 0);
      if n == 0 || SkipDigits(name) != [] {
        val := Fetch(name);
      } else {
        var star := Fetch("*");
        val := if n <= |star| then [star[n - 1]] else [];
      }
    }

    method CountOf(name: string) returns (val: string)
      requires Valid()
      ensures val == CountValue(Sto(), name)
    {
      hide Valid;
      hide Sto;
      var n := ReadNat(name, 0);
      if n == 0 || SkipDigits(name) != [] {
        var a := Fetch(name);
        val := Decimal(|a|);
      } else {
        var star := Fetch("*");
        val := Decimal(if n <= |star| then 1 else 0);
      }
    }

    /** `Xdol`, `Xcount` and `Xqdol`. */
    method XNamed(op: Op)
      requires Live()
      modifies this
      ensures Valid() && Image() == XNamedOp(op, old(Top()), old(Rest()), old(Sto()), old(fns))
    {
      hide Valid;
      hide Rest;
      hide Sto;
      hide Top;
      TopIs();
      var t := runq[0];
      if |t.argv| < 2 {
        Panics();
        return;
      }
      if |t.argv[0]| != 1 {
        XError();
        return;
      }
      var s := Deglob(t.argv[0][0]);
      var ws: Strings;
      if op.XDol? {
        ws := Dollar(s);
      } else if op.XCount? {
        var n := CountOf(s);
        ws := [n];
      } else {
        var a := Fetch(s);
        ws := [Spaced(a)];
      }
      SetTop(t.pc, [ws + t.argv[1]] + t.argv[2..]);
    }

    /** `Xlocal` and `Xassign`. */
    method XBind(isLocal: bool)
      requires Live()
      modifies this
      ensures Valid() && Image() == XBindOp(host, isLocal, old(Top()), old(Rest()), old(Sto()), old(fns))
    {
      hide Valid;
      hide Rest;
      hide Sto;
      hide Top;
      TopIs();
      FieldsAre();
      var t := runq[0];
      if |t.argv| < 2 {
        Panics();
        return;
      }
      if |t.argv[0]| != 1 {
        XError();
        return;
      }
      var name, val := Deglob(t.argv[0][0]), GlobWords(host, world, t.argv[1]);
      SetTop(t.pc, t.argv[2..]);
      if isLocal {
        PushVar(name, val);
      } else {
        SetVar(name, val);
      }
    }

    method XOpen(kind: RedirKind)
      requires Live()
      modifies this
      ensures Valid() && Image() == XOpenOp(host, kind, old(Top()), old(Rest()), old(Sto()), old(fns))
    {
      hide Valid;
      hide Rest;
      hide Sto;
      hide Top;
      TopIs();
      FieldsAre();
      var t := runq[0];
      if t.argv == [] || t.pc >= |t.code| || !t.code[t.pc].Int? || t.code[t.pc].i < 0 {
        Panics();
        return;
      }
      Opens(host, kind, t.code[t.pc].i, t.argv[0], Sto());
      hide OpenRedir;
      if |t.argv[0]| != 1 {
        XError();
        return;
      }
      var f := host.open(world, kind, t.argv[0][0]);
      if f.fd < 0 {
        XError();
        return;
      }
      hide Image;
      OpenAndPush(f, t.code[t.pc].i);
      FieldsAre();
      SetTop(t.pc + 1, t.argv[1..]);
      FieldsAre();
    }

    method OpenAndPush(f: Opened, to: int)
      requires Live()
      modifies this
      ensures Live() && Top() == old(Top()) && Rest() == old(Rest()) && fns == old(fns)
      ensures Sto() == RcStore.PushRedir(old(Sto()).(world := f.world), ROpen(f.fd, to))
    {
      hide Valid;
      hide Rest;
      hide Sto;
      hide Top;
      SetWorld(f.world);
      PushRedir(ROpen(f.fd, to));
    }

    method XDup()
      requires Live()
      modifies this
      ensures Valid() && Image() == XDupOp(old(Top()), old(Rest()), old(Sto()), old(fns))
    {
      hide Valid;
      hide Rest;
      hide Sto;
      hide Top;
      TopIs();
      var t := runq[0];
      if t.pc + 1 >= |t.code| || !t.code[t.pc].Int? || !t.code[t.pc + 1].Int?
         || t.code[t.pc].i < 0 || t.code[t.pc + 1].i < 0 {
        Panics();
        return;
      }
      SetTop(t.pc + 2, t.argv);
      PushRedir(RDup(t.code[t.pc].i, t.code[t.pc + 1].i));
    }

    method XClose()
      requires Live()
      modifies this
      ensures Valid()
      ensures !HasOperand(old(Top())) ==> Image() == Panicked
      ensures var t := old(Top());
              HasOperand(t) ==>
                Image() == Go(Skipped(t), old(Rest()), RcStore.PushRedir(old(Sto()), RClose(t.code[t.pc].i)), old(fns))
    {
      hide Valid;
      hide Rest;
      hide Sto;
      hide Top;
      TopIs();
      var t := runq[0];
      if t.pc >= |t.code| || !t.code[t.pc].Int? || t.code[t.pc].i < 0 {
        Panics();
        return;
      }
      SetTop(t.pc + 1, t.argv);
      PushRedir(RClose(t.code[t.pc].i));
    }

    /** The routines that set the status or a flag. */
    method XStatus(op: Op)
      requires Live() && op in {Op.XBang, Op.XSettrue, Op.XWastrue}
      modifies this
      ensures Valid() && Image() == Exec1(host, op, old(Top()), old(Rest()), old(Sto()), old(fns))
    {
      hide Valid;
      hide Rest;
      hide Sto;
      hide Top;
      hide TrueStatus;
      hide Image;
      hide RcStore.SetVar;
      if op.XBang? {
        var ok := IsTrue();
        SetVar("status", [if ok then "false" else ""]);
      } else if op.XSettrue? {
        SetVar("status", [""]);
      } else {
        SetIfnot(false);
      }
      FieldsAre();
    }

    /** The exit test. */
    method XEflag()
      requires Live()
      modifies this`ended
      ensures Valid()
      ensures Image() == if host.eflagok && !TrueStatus(old(Sto())) then Exited(old(Sto()))
                         else Go(old(Top()), old(Rest()), old(Sto()), old(fns))
    {
      var ok := IsTrue();
      if host.eflagok && !ok {
        ended := Some(Exit);
      }
    }

    /** The routines that end the run, or that make it two. */
    method XEnds(op: Op)
      requires Live() && op in {Op.XExit, Op.XPipe, Op.XAsync, Op.XSubshell, Op.XPipewait}
      modifies this
      ensures Valid() && Image() == if op.XExit? then Exited(old(Sto())) else Forked(old(Sto()))
    {
      hide Valid;
      hide Rest;
      hide Sto;
      hide Top;
      hide Image;
      if op.XExit? {
        End(Exit);
      } else {
        End(Fork);
      }
    }

    /******* Functions *******/

    method XFn()
      requires Live()
      modifies this
      ensures Valid() && Image() == XFnOp(host, old(Top()), old(Rest()), old(Sto()), old(fns))
    {
      hide Valid;
      hide Rest;
      hide Sto;
      hide Top;
      TopIs();
      FieldsAre();
      var t := runq[0];
      if t.argv == [] || t.pc >= |t.code| || !t.code[t.pc].Int? || t.code[t.pc].i < 0 {
        Panics();
        return;
      }
      var names := GlobWords(host, world, t.argv[0]);
      var f := Entry(t.code, t.pc + 2);
      for i := 0 to |names|
        invariant Live() && Top() == old(Top()) && Rest() == old(Rest()) && Sto() == old(Sto()) && runq == old(runq)
        invariant Define(names[i..], f, fns) == Define(names, f, old(fns))
      {
        assert names[i..][1..] == names[i + 1..];
        SetFn(names[i], f);
      }
      SetTop(t.code[t.pc].i, t.argv[1..]);
    }

    method XDelfn()
      requires Live()
      modifies this
      ensures Valid() && Image() == Exec1(host, Op.XDelfn, old(Top()), old(Rest()), old(Sto()), old(fns))
    {
      hide Valid;
      hide Rest;
      hide Sto;
      hide Top;
      TopIs();
      var t := runq[0];
      if t.argv == [] {
        Panics();
        return;
      }
      var names := t.argv[0];
      for i := 0 to |names|
        invariant Live() && Top() == old(Top()) && Rest() == old(Rest()) && Sto() == old(Sto()) && runq == old(runq)
        invariant fns == Undefine(names[..i], old(fns))
      {
        assert names[..i + 1] == names[..i] + [names[i]];
        DelFn(names[i]);
      }
      assert names[..|names|] == names;
      SetTop(t.pc, t.argv[1..]);
    }

    /** `execfunc`: the words after the function's name become its `*`. */
    method ExecFunc(f: Entry)
      requires Live() && runq[0].argv != [] && runq[0].argv[0] != []
      modifies this
      ensures Valid()
      ensures var t := old(Top());
              t.argv != [] && t.argv[0] != [] &&
              Image() == Call(f, t.argv[0][1..], t.(argv := t.argv[1..]), old(Rest()), old(Sto()), old(fns))
    {
      hide Valid;
      hide Rest;
      hide Sto;
      hide Top;
      TopIs();
      var t := runq[0];
      SetTop(t.pc, t.argv[1..]);
      Start(f);
      PushVar("*", t.argv[0][1..]);
    }

    /** `Xsimple`: a function, or a command of the outside world. */
    method XSimple()
      requires Live()
      modifies this
      ensures Valid() && Image() == XSimpleOp(host, old(Top()), old(Rest()), old(Sto()), old(fns))
    {
      hide Valid;
      hide Rest;
      hide Sto;
      hide Top;
      TopIs();
      FieldsAre();
      var t := runq[0];
      if t.argv == [] {
        Panics();
        return;
      }
      var a := GlobWords(host, world, t.argv[0]);
      if a == [] {
        XError();
      } else if a[0] in fns {
        SetTop(t.pc, [a] + t.argv[1..]);
        ExecFunc(fns[a[0]]);
      } else {
        SetTop(t.pc, t.argv[1..]);
        XHost(a);
      }
    }

    /** Walk a list. */
    static method Walk<T>(h: Heap<T>, p0: nat, ghost c: seq<nat>) returns (vs: seq<T>)
      requires IsChain(h, c) && p0 == HeadOf(c)
      ensures vs == Vals(h, c)
    {
      vs := [];
      var p := p0;
      ghost var k: nat := 0;
      while p != 0
        invariant k <= |c| && p == (if k < |c| then c[k] else 0) && vs == Vals(h, c)[..k]
        decreases |c| - k
      {
        vs := vs + [h[p].val];
        p := h[p].next;
        k := k + 1;
      }
    }

    /** Everything a command can see of the shell. */
    method Snapshot() returns (s: Store)
      requires Valid()
      ensures s == Sto()
    {
      hide Nested;
      var ls := Walk(vars, runq[0].local, locals);
      var rs := Walk(redirs, runq[0].redir, redirections);
      s := Store(globals, ls, rs, ifnot, world);
    }

    /** A builtin or another program. */
    method XHost(ws: Strings)
      requires Live()
      modifies this
      ensures Valid() && Image() == RunHost(host, ws, old(Top()), old(Rest()), old(Sto()), old(fns))
    {
      hide Valid;
      hide Rest;
      hide Sto;
      hide Top;
      var sto := Snapshot();
      match host.run(ws, sto) {
        case Runs(sets, w) =>
          SetWorld(w);
          SetVars(sets);
        case Exits(sets, w) =>
          SetWorld(w);
          SetVars(sets);
          End(Exit);
        case Fails(w) =>
          SetWorld(w);
          XError();
      }
    }

    /******* The interpreter loop *******/

    /** The routine of a cell; the counter is already past it. */
    method Dispatch(op: Op)
      requires Live()
      modifies this
      ensures Valid() && Image() == Exec1(host, op, old(Top()), old(Rest()), old(Sto()), old(fns))
    {
      hide Valid;
      hide Rest;
      hide Sto;
      hide Top;
      hide Image;
      hide XSimpleOp;
      hide XMatchOp;
      hide XCaseOp;
      hide XForOp;
      hide XBindOp;
      hide XOpenOp;
      hide XNamedOp;
      hide XSubOp;
      hide XFnOp;
      hide XDupOp;
      hide XReturnOp;
      hide Reduce;
      hide HasOperand;
      match op {
        case XSimple => XSimple();
        case XMatch => XMatch();
        case XCase => XCase();
        case XFor => XFor();
        case XLocal => XBind(true);
        case XAssign => XBind(false);
        case XUnlocal => XUnlocal();
        case XWrite => XOpen(RedirKind.Write);
        case XRead => XOpen(RedirKind.Read);
        case XAppend => XOpen(RedirKind.Append);
        case XRdwr => XOpen(RedirKind.ReadWrite);
        case XDup => XDup();
        case XClose => XClose();
        case XPopredir => XPopRedir();
        case XDol => XNamed(op);
        case XCount => XNamed(op);
        case XQdol => XNamed(op);
        case XSub => XSub();
        case XConc => XConc();
        case XFn => XFn();
        case XDelfn => XDelfn();
        case XReturn => XReturn();
        case XTrue => XJumps(op);
        case XFalse => XJumps(op);
        case XJump => XJumps(op);
        case XIf => XJumps(op);
        case XIfnot => XJumps(op);
        case XMark => XStack(op);
        case XPopm => XStack(op);
        case XWord => XStack(op);
        case XGlob => XStack(op);
        case XEflag => XEflag();
        case XBang => XStatus(op);
        case XSettrue => XStatus(op);
        case XWastrue => XStatus(op);
        case _ => XEnds(op);
      }
    }

    /** One turn of the loop. */
    method Turn()
      requires Valid()
      modifies this
      ensures Valid() && Image() == Step(host, old(Image()))
    {
      hide Exec1;
      hide Valid;
      hide Rest;
      hide Sto;
      hide Top;
      hide Step;
      TopIs();
      Stepped(host, Top(), Rest(), Sto(), fns);
      if ended.Some? {
        Stopped(host, Image());
        return;
      }
      var t := runq[0];
      if t.pc >= |t.code| || !t.code[t.pc].Op? {
        Panics();
        return;
      }
      SetTop(t.pc + 1, t.argv);
      hide Image;
      Dispatch(t.code[t.pc].op);
    }

    /** Any number of turns is as many steps of the machine. */
    method Turns(n: nat)
      requires Valid()
      modifies this
      ensures Valid() && Image() == Steps(host, old(Image()), n)
    {
      hide Step;
      hide Valid;
      hide Image;
      for i := 0 to n
        invariant Valid() && Steps(host, Image(), n - i) == Steps(host, old(Image()), n)
      {
        Turn();
      }
    }
  }
}
