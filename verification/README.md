# Verified core of the goken tools

This project models four parts of the repository and proves what they are for.

- **rc**, the shell: the compiler that turns a syntax tree into a flat code vector with
  patched jumps, the stack machine that runs the vector, the pattern matcher, and the
  ownership of code vectors.  The main result is that the machine running the compiler's
  output does exactly what the tree means, for every tree, store and outside world, also
  when it loops, exits under `-e`, or fails; and that what a tree means is what the shell is for:
  words in their order, tests on the status, variables with their scopes.
- **mk**, the build program: rules to graph, the checks on the graph, and the parallel
  scheduler with children that end at any time with any status.  The main results hold of
  every run: each recipe at most once and every error exit for its reason; and, exactly as long
  as each job is for its own node, a job only after everything below it is done, no stuck
  build, everything made, a recipe run if and only if its target is out of date (or under
  `-a`), and when a second build starts nothing.
- **The assemblers' symbol ring**: names announced under reused one-byte indices.  A reader
  of the records finds exactly the operands of the program; the retry loops end exactly
  when stated.
- **lib9**: path cleaning in place, and the calendar in both directions.

## How it is laid out

| files | content |
|---|---|
| `RcTree`, `RcCode`, `RcCompiler`, `RcLayout` | trees, the code of each tree, the compiler that emits and patches it, its layout |
| `RcStore`, `RcMachine`, `RcSteps` | variables and words, the machine as a step function, one lemma per routine |
| `RcChain`, `RcFlat`, `RcInterp` | linked lists that threads share, their flattening to one list with lengths, the interpreter on threads with pointers |
| `RcSemantics`, `RcCorrect`, `RcProgram`, `RcShell` | what a tree means, the simulation, whole vectors, compiler and interpreter together |
| `RcLaws`, `RcCommands`, `RcChecks` | laws of variables, status and words; what short commands do, for the meaning and for the machine; which lines the compiler refuses |
| `RcGlob`, `RcOwnership`, `RcCustody` | the matcher and its language, reference counts and the release of vectors, the counts in a session |
| `MkGraph`, `MkRules`, `MkGrapher`, `MkEndless`, `MkAmbiguous`, `MkFront`, `MkArcs` | paths and cycles, pattern rules, `applyrules`, a rule without end, one recipe per node, `graph`, the arcs told from the rules alone |
| `MkAim`, `MkState`, `MkBuild`, `MkMain` | the target of a job, the invariants and what each step keeps, `work`, `dorecipe`, `sched`, `waitup`, `mk`, rules to build |
| `AsmRing`, `AsmThree`, `AsmProgram` | the ring with two operands and its reader, three operands, the writers and whole programs |
| `CleanName`, `Calendar`, `Wrappers` | the lib9 algorithms; an optional value |

Code that only computes is modelled by functions.  Code that changes things in place is
modelled by methods and classes, each proved against such a function.

## Assumptions

- rc: the outside world is a `Host`, an arbitrary function for file name expansion, opening,
  closing and running a command that is not a shell function.  A command is followed
  under an arbitrary bound on loop iterations and calls, and `Timeout` is the reached bound;
  `SameDivergence` removes the bound.  A run is followed up to the first fork of a process
  (`|`, `&`, `@`); code, layout and release of these commands are modelled in full.
- mk: default flags for pretending (off), one target per rule, no `P` programs, no
  archive members, no regular expressions, one process limit per build.  NREP is any number
  from 1 on; `top` is the largest `char`, 127 or 255.  File times are natural numbers,
  and 0 is a missing file.  A child ends at any time, with any status, and leaves
  any time on the file of its own target; no other file changes.  `honest`
  marks the extra assumption, used only for `Resting` and the second build, that a recipe
  that has run and succeeded leaves its target later than its prerequisites.
- Assemblers: `NSYM` is a parameter with the lower bound each result needs.

## Where the code and what one expects of it differ

- A missing file without a rule under `-k` has BEINGMADE added to NOTMADE (mk/mk.c:152-156).  If
  it is the target itself, `mk` ends in the "mk wait" error although no assertion fails
  (mk/mk.c:57-58); `Mk.Make` states that this happens exactly then, as long as jobs are for
  their own nodes.
- If meta rules came before plain ones, `ambiguous` would leave two recipes
  (`MetaFirstFails`).  Only a regular expression, which makes a rule meta on the chain of a
  plain name, could bring such an order about; without them no name has it
  (`NodePlainFirst`).
- The target of an `N` rule without a recipe may stay older than its prerequisites: `update`
  only reads the time of its file (mk/mk.c:273).  `Make` says what time each node rests at,
  and a second build still starts nothing.
- A virtual target with a recipe is made in every build, so a second build starts nothing if
  and only if there is none (`BuildTwice`).
- The loops of 7a never end for two operands with the same symbol and kind (`LoopEnds`,
  `LoopEnds3`); with three operands there is one exception, given by `CanSettle`.
- A ring with a single usable index makes 5a write a wrong operand (`OneIndexIsTooFew`), and
  one with two makes `outcode4` loop (`TwoIndicesAreTooFew`).
- `tm2sec` ignores years before 1970, so the calendar round trip holds exactly from 1970 on.
  The weekday is wrong, and negative, before day -7340036 except on Sundays (`WeekDayRight`).
- `codefree` does not know the operands of `Xif` and `Xifnot`, and passes over their addresses
  as if they were routines without operands; since an address in a vector is never 0 or a
  routine, the walk still ends at the end mark (`VectorWalkable`).
- `applyrules` counts uses in one `char` (mk/rule.c:137-145), which wraps.  For the rule `%: %.x` it
  makes NREP nodes after the first if NREP fits that `char`; above that, only the size of a
  name buffer stops it, and there are as many nodes as names that fit (`EndlessGraph`).
- `dorecipe` finds the target of a job by putting the stem back into the target of the rule
  (mk/recipe.c:125-137).  With `%.o%: y` the job for x.o% is for x.ox (`TwoPatternsMiss`); with `%.o:nV: y`
  the job for %.o is for .o (`RuleTextMisses`).  Such a job updates another node or none, and its
  own stays BEINGMADE: an assertion of `mk` fails (mk/mk.c:49, mk/mk.c:62), or the build ends
  as if it had worked.  `AimsBack` says when a job is for its own node, which names without
  pattern characters ensure.  A build without errors makes everything if and only if all its
  jobs are (`MkTarget`), except among names of exactly BIGBLOCK-1 bytes, which can be
  each other's targets (`CutNamesSwap`).
- `Xunlocal` and `Xpopredir` check for an empty list only; taking one more than its own, a
  thread would free a cell of the thread below.  In the model that is a panic, and
  `NoPanic` shows that it does not happen to compiled code.
- `!` passes its `-e` flag on to its operand (rc/code.c:190-193), and so does the model.

## Model

| member | source | states |
|---|---|---|
| RcCorrect.WordCorrect | rc/code.c:154-168 | code of a word tree pushes exactly its value onto the top list, or aborts exactly when the value is an error |
| RcCorrect.CmdCorrect | rc/code.c:124-482 | from the first cell of a command the machine reaches the cell past it with the new store, the argument stack, the waiting threads and the function table matching the meaning; or ends the same way; or forks in the same state; or is still running after as many steps as the bound |
| RcCorrect.IfCorrect | rc/code.c:266-274 | `if` with its jump and the `ifnot` flag does what the tree means; `IfTest` says what that is for a test |
| RcCorrect.WhileCorrect | rc/code.c:286-298 | forward and backward jump of `while`, also with a condition that emits nothing |
| RcCorrect.ForCorrect | rc/code.c:299-323 | list, loop variable, loop and unbinding of `for` |
| RcCorrect.SwitchCorrect | rc/code.c:505-560 | the multi-way switch runs the commands of the first clause that matches and leaves the stack as it was |
| RcCorrect.CallCorrect | rc/simple.c:161-176 | a function call: new thread, `*` bound, body, return to the caller with the caller's locals and redirections |
| RcCorrect.ForkCorrect | rc/code.c:237-265 | a pipeline, `&` and `@` stop the run followed here at the fork, with the store as it was |
| RcCorrect.SilentCode | rc/code.c:286-291 | exactly the listed trees emit no code, so `Xsettrue` is added exactly for them |
| RcProgram.VectorCorrect | rc/code.c:68-91 | the vector of a whole line, run by its own thread, does what the line means and resumes the thread below |
| RcProgram.MachineMeansExec | rc/executils.c:185-205 | the other direction: whenever the machine stops, the meaning stops with the same result |
| RcProgram.SameDivergence | rc/code.c:286-298 | the machine runs for ever if and only if the meaning exceeds every bound |
| RcProgram.NoPanic | rc/executils.c:49-104 | no run of compiled code reaches a panic or the use of a missing list, local, redirection or operand |
| RcShell.RunLine | rc/code.c:68-91 | the compiler's own buffer, run by the interpreter's own loop for any number of turns, never panics and, once stopped, agrees with the meaning |
| RcSemantics.ExecFrame | rc/exec.c:656-668 | a command that ends normally gives back the same locals, by name, and the same redirections |
| RcCommands.PlainCommand | rc/simple.c:29-62 | a command of written words, the first of which is no function, hands the outside world exactly these words, in their order |
| RcCommands.PlainCommandRuns | rc/simple.c:29-62 | the machine, started on the compiled line, does the same |
| RcCommands.TwoCommands | rc/code.c:169-174 | the second of two commands gets its words in the store the first one left |
| RcCommands.TestIs | rc/exec.c:365-383 | `~ a b` sets the status to nothing if the words are equal, else to "no match"; the first is true and the second is not |
| RcCommands.TestUnderE | rc/exec.c:130-138 | under `-e` a test that fails ends the shell, and one that does not goes on |
| RcCommands.IfTest | rc/exec.c:283-292 | `if(~ a b) c` runs c exactly if the words are equal |
| RcCommands.IfTestRuns | rc/exec.c:283-292 | with other words the machine ends the compiled line without running c |
| RcCommands.IfNotTest | rc/exec.c:181-191 | `if not d` runs d exactly if the words were not equal |
| RcCommands.AndOrTest | rc/code.c:175-189 | after the test `~ a b`, `&&` runs its right side exactly if the words are equal, and the list for "or" exactly if they are not |
| RcCommands.BangTest | rc/exec.c:104-110 | `!` makes "false" of equal words and a true status of others |
| RcCommands.WhileTest | rc/code.c:286-298 | `while(~ a b) c` is c and the loop again with equal words, and nothing with others |
| RcCommands.GlobalAssignment | rc/exec.c:454-474 | `x=(v ...)` sets the variable to the words |
| RcCommands.LocalAssignment | rc/exec.c:635-668 | `x=(v ...) c` runs c with the variable, which goes when c ends |
| RcCommands.ForWords | rc/exec.c:801-818 | `for(x in v w) c` runs c with v, then with w, and then the variable goes |
| RcCommands.StarLoop | rc/code.c:299-323 | `for(x) c` runs over the words of `$*` |
| RcCommands.SwitchWords | rc/code.c:505-560 | of two clauses the first whose word is that of the switch is run, or none |
| RcCommands.FunctionCall | rc/simple.c:161-176 | `fn f {c}; f v ...` runs c with the words as `$*`, which is as it was afterwards |
| RcCommands.FunctionDefined | rc/exec.c:671-710 | `fn` with a body defines the name, and without one takes it away |
| RcCommands.FileRedirection | rc/exec.c:311-339 | the file is opened for the command and closed after it; one that cannot be opened is an error |
| RcCommands.TwoVariables | rc/exec.c:428-452 | `$x(n)` is word n, and `$x^$y` joins the values with x on the left |
| RcLaws.LocalHides | rc/var.c:48-59 | a local hides what is outside of it, gives it back, and lets other names through |
| RcLaws.AssignScope | rc/var.c:62-70 | an assignment sets the innermost local of that name, else what is outside |
| RcLaws.AssignReads | rc/var.c:48-70 | what was assigned is read back, and no other name changes |
| RcLaws.LastAssignment | rc/var.c:62-70 | of several assignments the last to a name counts |
| RcLaws.StatusIsVariable | rc/status.c:18-36 | the status is the first word of the variable `status`, and true if that has nothing but zeros and bars |
| RcLaws.StatusSet | rc/status.c:10-36 | a status that was set is true exactly if it has nothing but zeros and bars; no other variable changes |
| RcLaws.GlobInOrder | rc/glob.c:275-300 | words are expanded one after the other: the names for a list and another are those for the one, then those for the other |
| RcLaws.GlobOne | rc/glob.c:275-300 | a word without an active mark is itself; a pattern is the files it matches, or itself if there are none |
| RcLaws.MarksMakeTokens | rc/glob.c:209-273 | a word has an active mark exactly if it has a token that is no letter |
| RcLaws.SpacedInOrder | rc/exec.c:341-363 | words are joined in their order with one space between two |
| RcLaws.SubscriptsInOrder | rc/exec.c:547-579 | what several subscripts select is one after the other, in the order of the subscripts |
| RcLaws.DollarIs | rc/exec.c:476-509 | `$n` is word n of `$*`, any other name a variable; `$#` is 1 or 0 for the one and the length for the other |
| RcLaws.ReadDigits | rc/exec.c:490-492 | numbers are read as decimals |
| RcLaws.ConcatFails | rc/exec.c:428-452 | exactly the lists that cannot be joined: one only empty, or several words on both sides and not as many |
| RcLaws.PatternsMatch | rc/glob.c:209-273 | `*`, `?`, `[a-b]` and `[~a-b]` match what they should, whichever end of a range comes first |
| RcLaws.DefineAll | rc/exec.c:671-692 | every name of a list is defined and no other changes |
| RcChecks.LineAccepted | rc/code.c:274-279 | a list of commands is accepted exactly if each command is and each `if not` comes right after an `if` |
| RcChecks.Wrapped | rc/code.c:475-481 | an `if` in braces lets no `if not` follow |
| RcChecks.HarmlessPasses | rc/code.c:124-482 | a tree without `if not` in which every switch starts with a case is accepted |
| RcChecks.SwitchWithoutCase | rc/code.c:505-520 | a switch whose braces do not start with a case is one error |
| RcLayout.CodeLaid | rc/code.c:124-482 | code is a sequence of whole instructions, every jump leads to the start of an instruction of the same code or its end, and there is no exit test where the flag is off |
| RcLayout.PipeLaid | rc/code.c:237-257 | the code of a pipeline is whole instructions, and both its addresses lead to the start of one |
| RcLayout.ForkLaid | rc/code.c:258-265 | the same for `&` and `@` |
| RcLayout.PipeLeads | rc/code.c:237-257 | the first address of a pipeline is that of the right side, behind the exit of the left one; the second that of the wait, behind the return of the right one |
| RcLayout.ForkLeads | rc/code.c:439-449 | the address behind `&` and `@` is the one past the exit of the child |
| RcCompiler.Compiler.OutCode | rc/code.c:124-482 | appends exactly the code of the tree and counts exactly the static errors; every operand left open is patched once; no panic |
| RcCompiler.Compiler.CodeSwitch | rc/code.c:505-560 | the same for `switch`, clause by clause |
| RcCompiler.Compiler.OutPipe | rc/code.c:237-257 | the two operands of a pipeline are patched in the order left side, right side, and the code is that of the tree |
| RcCompiler.Compiler.OutFork | rc/code.c:439-449 | the same for `&` and `@`, the latter with an exit test |
| RcCompiler.Compiler.Compile | rc/code.c:68-91 | succeeds exactly if the checks find no error, and then the buffer is the vector of the line with no operand left open |
| RcCompiler.LocalsFlat | rc/code.c:353-380 | the loops over a chain of assignments emit what the nested form of the code is |
| RcInterp.Interp.Start | rc/executils.c:18-45 | pointers to the lists of the running thread become, in the flat machine, the lengths `below` and `startredir` of the shared lists |
| RcInterp.Interp.XPopRedir | rc/executils.c:166-183 | the running thread's top redirection goes and its file is closed; a panic exactly if the thread has none beyond those it started with |
| RcInterp.Interp.TurfRedir | rc/executils.c:156-164 | the loop that compares two pointers goes back to exactly the redirections the thread started with, by length, and leaves the waiting threads' lists whole |
| RcInterp.Interp.XReturn | rc/executils.c:185-205 | redirections, lists and thread go and the thread below runs on its own pointers, as the machine's return by lengths does |
| RcInterp.Interp.Resume | rc/executils.c:185-205 | the locals of the thread below are the end, of length `below`, of those of the thread that ends |
| RcInterp.Interp.Find | rc/var.c:48-59 | the walk along the cells stops at the innermost local of that name, or at nil |
| RcInterp.Interp.SetVar | rc/var.c:62-70 | one cell is changed in place, and all threads that share it see the change |
| RcInterp.Interp.XUnlocal | rc/exec.c:656-668 | the running thread's newest local goes; a panic exactly if the thread below has all there are |
| RcInterp.Interp.XCase | rc/exec.c:385-407 | the loop over the patterns decides the jump as the machine does |
| RcInterp.Interp.XMatch | rc/exec.c:365-383 | the status says whether a pattern matches |
| RcInterp.Interp.XFor | rc/exec.c:801-818 | the next word into the loop variable, or out of the loop |
| RcInterp.Interp.XConc | rc/exec.c:428-452 | the concatenation in front of the list below, or one of the two errors |
| RcInterp.Interp.XBind | rc/exec.c:454-474 | name and value are taken off the stack and the variable is set or pushed |
| RcInterp.Interp.XFn | rc/exec.c:671-692 | every name of the list gets the code behind the operand |
| RcInterp.Interp.XDelfn | rc/exec.c:694-710 | every name of the list loses its code |
| RcInterp.Interp.ExecFunc | rc/simple.c:161-176 | the calling convention of functions |
| RcInterp.Interp.XSimple | rc/simple.c:29-62 | a word that names a function starts its thread, any other command goes to the outside world, and no words are an error; `PlainCommandRuns` says with which words |
| RcInterp.Interp.Turns | rc/main.c:110-123 | any number of turns of the interpreter loop is as many steps of the machine |
| RcChain.SameLength | rc/executils.c:156-164 | two pointers into a list are equal if and only if what they point to has the same length |
| RcFlat.ThreadStarted | rc/executils.c:18-45 | a thread that starts with the pointers of the one below flattens to one with the lengths of both lists |
| RcFlat.ThreadReturned | rc/executils.c:185-205 | with the lists of the thread below, the waiting threads flatten as before |
| RcFlat.LocalPushed | rc/exec.c:454-474 | a cell in front of the locals changes no waiting thread's list and no length |
| RcFlat.LocalPopped | rc/exec.c:656-668 | nor does taking the first cell, if the thread below does not point to it |
| RcFlat.RedirPopped | rc/executils.c:166-183 | the same for a redirection the thread did not start with |
| RcStore.ConcListWords | rc/exec.c:409-452 | length and every word of a pairwise concatenation |
| RcStore.SubRangeWords | rc/exec.c:547-579 | the subscripts n and n- select word n, and the words from n on, or nothing |
| RcStore.SubRangeFromTo | rc/exec.c:547-579 | the subscript n-m selects the words from n to m, cut at the end of the list |
| RcStore.DecimalReads | rc/exec.c:476-509 | a number written by `$#` is read back by `$n` and by subscripts |
| RcGlob.MatchIsLanguage | rc/glob.c:209-273 | the backtracking matcher accepts exactly the language of the pattern's tokens up to the stop character |
| RcGlob.ScanAgrees | rc/glob.c:236-266 | reading a character class decides membership in its ranges, in either order |
| RcGlob.InertMatchesItself | rc/glob.c:209-273 | a pattern without active metacharacters matches exactly the word it stands for |
| RcGlob.DeglobInPlace | rc/glob.c:22-38 | the string is rewritten in place to the word without its marks |
| RcOwnership.CodeFree | rc/code.c:584-621 | the walk, with its strides of 1, 2, 3 and 5, stops at the end mark and nowhere else, and releases every owned string of the vector |
| RcOwnership.VectorWalkable | rc/code.c:584-621 | every compiled vector can be walked so |
| RcOwnership.ReleasedOnce | rc/code.c:584-621 | each owned string is released exactly once |
| RcOwnership.Vectors.Start | rc/executils.c:20-44 | counts stay equal to the threads and functions that hold each vector |
| RcOwnership.Vectors.Free | rc/code.c:584-621 | with the last reference the vector is walked and is never live again; every vector loaded is live or was released once |
| RcOwnership.Vectors.Load | rc/code.c:68-91 | a compiled vector gets its first holder |
| RcOwnership.Vectors.Return | rc/executils.c:185-205 | the same when a thread ends; no vector of a thread left is gone |
| RcOwnership.Vectors.Define | rc/exec.c:671-692 | the same when a function is defined under several names; the running vector stays |
| RcOwnership.Vectors.Delete | rc/exec.c:694-710 | the same when functions are deleted |
| RcCustody.ExecEffect | rc/exec.c:671-710 | what each routine of the machine does to the threads and functions on vectors: a call, a return, definitions and deletions, and nothing else |
| RcCustody.Custody.Turn | rc/main.c:110-123 | one turn of the interpreter with its counts: the vector of every thread and function is live and has the cells that run |
| RcCustody.Custody.Line | rc/executils.c:18-45 | the same when a line is started on its own vector |
| RcCustody.Session | rc/code.c:68-91 | the same at any time in a session of compiled lines |
| MkGraph.CycleCheck.Check | mk/graph.c:365-381 | ends on every graph, refuses exactly those where a cycle or an already marked node is reachable, and leaves the marks as they were |
| MkGraph.RankExists | mk/graph.c:365-381 | a graph that passes has ranks that fall along every arc of the build |
| MkRules.MatchIsStem | mk/match.c:4-43 | a match gives a stem that makes the template the name |
| MkRules.StemMatches | mk/match.c:4-43 | every such stem is found |
| MkRules.SubstOfMatch | mk/match.c:45-70 | substituting the stem of a match gives the name back; cut at NAMEBLOCK it does so if and only if the name is shorter |
| MkRules.NodePlainFirst | mk/graph.c:96-197 | for every name the arcs of plain rules precede those of meta rules |
| MkGrapher.LeftFalls | mk/graph.c:106-111 | each use of a rule lowers the sum that bounds the recursion |
| MkGrapher.SomeClosed | mk/match.c:45-70 | there is a finite set of names with the target that no rule leads out of, since substituted names are cut |
| MkGrapher.Grapher.Graph | mk/graph.c:57-201 | for every rule set, target and NREP the construction ends, with a node of the target's name |
| MkGrapher.Grapher.Apply | mk/graph.c:57-201 | ends for every NREP, restores every count, keeps one node per name and all older nodes, and gives the new node exactly the arcs the rules give for its name at these counts, which `ArcsOfRules` tells from the rules alone |
| MkGrapher.Grapher.ApplyRule | mk/graph.c:106-136 | one use of a rule adds an arc per prerequisite, in order, or one to nothing, as `UseIs` tells from the rule |
| MkArcs.UseIs | mk/graph.c:119-132 | one use of a rule is an arc per prerequisite as the rule lists them, each to that name, or for a pattern to the name with the stem in it, cut to fit the buffer; an empty list is one arc to nothing |
| MkArcs.ArcsOfRules | mk/graph.c:96-197 | the arcs of a name are, rule by rule, one use of each rule with that target, then one of each pattern that matches, and nothing else; a rule without effect or used up is skipped, and an `n` rule behind a virtual one |
| MkArcs.ArcsOfNode | mk/graph.c:57-201 | in the built graph each arc leads to the node of exactly that name |
| MkArcs.OnePlainRule | mk/graph.c:126-132 | a target with one plain rule has an arc to the node of each prerequisite, in order |
| MkEndless.EndlessGraph | mk/graph.c:106-111 | for `%: %.x` the nodes are the target and its successors, NREP of them if that fits a counter and a buffer, else as many as there are names |
| MkAmbiguous.Togo | mk/graph.c:226-245 | the list without exactly the marked arcs, in order |
| MkArcs.KeepLast | mk/graph.c:226-245 | what is kept of a list stays in its order |
| MkAmbiguous.JudgeFirst | mk/graph.c:383-436 | if plain rules come first: the master is the first arc with a recipe, exactly the meta arcs with other recipes go, and an error is exactly a conflict |
| MkAmbiguous.AmbiguousIs | mk/graph.c:383-436 | the error is exactly a first recipe and another one of which neither gives way |
| MkAmbiguous.MetaFirstFails | mk/graph.c:383-436 | in an order that only a regular expression could bring about two recipes are left |
| MkAmbiguous.KeptOneRecipe | mk/graph.c:383-436 | a node that passes has one recipe left, that of its first arc with a recipe |
| MkAmbiguous.KeptStays | mk/graph.c:383-436 | a node that is looked at again stays as it is |
| MkAmbiguous.LastIsFirst | mk/recipe.c:69-73 | the recipe that a job runs, that of the last arc, is the one that was kept, that of the first; `MkTarget` says so of every start |
| MkFront.Resolver.Ambiguous | mk/graph.c:383-436 | over a whole graph with shared nodes: passes with everything below settled, or some node below is ambiguous |
| MkFront.Resolver.OneRecipeBelow | mk/graph.c:383-436 | once passed, no node below was ambiguous and each has one recipe |
| MkFront.GraphOf | mk/graph.c:19-55 | refuses if and only if the built graph has a cycle below the target or a pruned node below it is ambiguous; else the result has exactly the kept arcs of the pruned graph, no cycle, one node per name and one recipe per node of the build |
| MkState.EnqueueKeeps | mk/recipe.c:194-202 | queueing a job that is for its own node keeps the whole invariant: slots counted and below the limit, jobs in queue order and each once, every node being made queued with its recipe, running or failed, prerequisites made, failures counted |
| MkState.FireKeeps | mk/run.c:86-165 | starting a job keeps it |
| MkState.ReapKeeps | mk/run.c:246-301 | the end of any child, with any status and time, keeps it |
| MkState.MakeMadeKeeps | mk/mk.c:199-202 | finding a node up to date keeps it |
| MkState.MakeMissingKeeps | mk/mk.c:152-156 | giving up a missing file keeps it |
| MkState.EnqueueLoose | mk/recipe.c:112-202 | queueing any job, also one that takes another node or none as its target, keeps what holds of every run: slots, queue, recipes, targets by name, and that a node its job misses stays unmade unless another job is for it |
| MkState.FireLoose | mk/run.c:86-165 | starting any job keeps that |
| MkState.ReapLoose | mk/run.c:246-301 | the end of any child keeps that |
| MkBuild.Mk.NextSlot | mk/run.c:340-354 | a free slot is found whenever one is asked for: the assertion cannot fail |
| MkBuild.Mk.Sched | mk/run.c:84-166 | the first waiting job is started in a free slot under a new pid |
| MkBuild.Mk.Run | mk/run.c:59-79 | the job is queued last, and no job waits while a slot is free |
| MkAim.AimsBack | mk/recipe.c:125-137 | the exact condition for the target of a job to be its node: a plain rule, or a matched stem that changes nothing behind the first pattern character |
| MkAim.PatternlessAim | mk/recipe.c:125-137 | names without pattern characters meet it |
| MkAim.AimClimbs | mk/recipe.c:125-137 | from a node that is missed to the target of its job, if that is missed too, names grow |
| MkAim.TwoPatternsMiss | mk/recipe.c:125-137 | `%.o%: y` and x.o%: the job is for x.ox |
| MkAim.RuleTextMisses | mk/graph.c:128-147 | `%.o:nV: y` and %.o: the job is for .o |
| MkAim.CutNamesSwap | mk/recipe.c:125-137 | two names that fill the buffer, each the target of the other's job |
| MkBuild.Mk.OldTarget | mk/recipe.c:125-154 | the target is the node of the substituted name, if there is one and it is out of date |
| MkBuild.Mk.Update | mk/mk.c:246-284 | one node is made or failed; its time is that of its file, or for a virtual or missing one the latest of its prerequisites and at least 1 |
| MkBuild.LatestIs | mk/mk.c:265-270 | the loop over the arcs finds a time of at least 1, no earlier than that of any other node the target depends on, and 1 or one of theirs |
| MkBuild.Mk.RecipeEnds | mk/run.c:246-301 | what a child may have done by its end: any status, any time on its own target, later than the prerequisites if it succeeded and is honest |
| MkBuild.Mk.DoRecipe | mk/recipe.c:32-205 | the node is queued with the recipe of its last arc, and its target marked; or, without a recipe, made with its stamp if it is virtual or NORECIPE, and else the error; prerequisites are made |
| MkBuild.Mk.WorkArcs | mk/mk.c:172-196 | all prerequisites are walked; if all are made, staleness is exactly the comparison of times |
| MkBuild.Mk.Work | mk/mk.c:100-244 | afterwards the node is made, with nothing queued, or something below it is being made or given up; as long as jobs are for their own nodes no made node changes; the result says whether a job was queued |
| MkBuild.Mk.WaitUp | mk/run.c:172-303 | one child is reaped, whichever ends; only its target changes; a waiting job takes its slot |
| MkBuild.Mk.ClrMade | mk/mk.c:70-88 | exactly the nodes below are not made |
| MkBuild.RunsDry | mk/mk.c:46-53 | if nothing runs and the target is held up, there was an error or some job missed its node |
| MkBuild.AllBuilt | mk/mk.c:39-62 | if the target is made, so is every node of the build |
| MkBuild.Mk.Round | mk/mk.c:39-56 | one turn of the main loop makes progress in a well-founded order, or stops with an error counted; the first assertion fails only if some job missed its node |
| MkBuild.Mk.Make | mk/mk.c:11-68 | every build ends; each job was started once, in queue order, with the recipe of its node; each error exit has its reason: no file, no recipe, a started job that failed, an assertion after a job that missed its node; a node that its job misses is not made unless another job is for it.  If all jobs are for their own nodes: each was started when every job below its node had ended well; both assertions hold; without errors a recipe was started if and only if its target was to be remade: with `-a` always, else if it was no later than some prerequisite now is, or missing without one; a virtual target without a recipe has the latest time of its prerequisites; all nodes are made and, with honest recipes, at rest: leaves, nodes made by a recipe and nodes found up to date are fresh, others have the time of their stamp; NoChild exactly as stated; no child is left |
| MkBuild.BuildThrough | mk/mk.c:246-284 | a file no later than some node that it reaches over virtual targets without recipes is remade |
| MkBuild.PassedOn | mk/mk.c:265-270 | times are passed on over any number of virtual targets |
| MkBuild.SoundTraced | mk/run.c:84-166 | in every state of every build, also those left by an error, the log has each start once with the recipe of its node and, if all jobs are for their own nodes, behind the successful ends of all jobs below it |
| MkBuild.Mk.Attribute | mk/graph.c:438-464 | exactly the virtual nodes below the target have time 0 |
| MkBuild.SettledStep | mk/mk.c:199-244 | in a build at rest a node that is out of date needs no recipe and gets the time it had |
| MkBuild.BuildTwice | mk/mk.c:11-68 | after an error-free honest build whose jobs were for their own nodes a second one starts no job if and only if no virtual target of the build has a recipe |
| MkMain.MkTarget | mk/mk.c:11-68 | from rules to the finished build: refused exactly as by `GraphOf`; every start is the only one of its node and runs the recipe of its first kept arc; error exits have their reasons; without errors everything is made if and only if all jobs are for their own nodes, but for names that fill the buffer; then jobs start in turn, no assertion fails, and a recipe runs if and only if its target is out of date or `-a` is set; rules and a target with plain names ensure it |
| MkMain.SomeNotMade | mk/run.c:289-297 | if some job missed its node, some queued node is not made |
| MkMain.PlainNamesAllRight | mk/recipe.c:125-137 | if the target and the prerequisites of plain rules have no pattern characters, all jobs are for their own nodes |
| AsmRing.SettleHolds | assemblers/5a/obj.c:176-185 | after at most two rounds both indices stand for their operands at once |
| AsmRing.SecondRoundSettles | assemblers/5a/obj.c:176-185 | a second round never clashes |
| AsmRing.LookAgrees | assemblers/5a/obj.c:121-150 | a reader that knows the table knows it after each announcement |
| AsmRing.LoopEnds | assemblers/7a/lex.c:909-912 | the loop of 7a ends if and only if the operands do not name the same thing |
| AsmRing.OneIndexIsTooFew | assemblers/5a/obj.c:176-185 | the smallest ring, for which 5a writes a wrong operand |
| AsmThree.ThreeRounds | assemblers/7a/lex.c:924-937 | three operands are settled in at most three rounds, also when one symbol appears under several kinds |
| AsmThree.Settle3Holds | assemblers/7a/lex.c:924-937 | at the exit all three indices stand for their operands at once |
| AsmThree.LoopEnds3 | assemblers/7a/lex.c:933-937 | the exact condition on the operands for the loop to end |
| AsmThree.TwoIndicesAreTooFew | assemblers/7a/lex.c:933-937 | with two usable indices it does not end |
| AsmProgram.ReplayIsProgram | assemblers/5a/obj.c:152-197 | for every program a reader that keeps the last announcement per index finds exactly the operands of each instruction |
| AsmProgram.Writer.SymIdx | assemblers/5a/obj.c:121-150 | one lookup: index, table and announcement |
| AsmProgram.Writer.OutCode5a | assemblers/5a/obj.c:152-197 | the retry loop ends and writes the settled instruction |
| AsmProgram.Writer.OutCode5ak | assemblers/5ak/lex.c:570-644 | the inlined loop ends and writes the same |
| AsmProgram.TwinsAgree | assemblers/5ak/lex.c:583-625 | from equal tables 5a and 5ak write the same records and leave equal tables |
| AsmProgram.Writer.OutCode7a | assemblers/7a/lex.c:891-922 | the same for 7a with two operands |
| AsmProgram.Writer.OutCode4 | assemblers/7a/lex.c:924-952 | the same for three |
| AsmProgram.Assemble5a | assemblers/5a/obj.c:152-197 | 5a on any program: every reader, whatever it heard before, understands the records as that program |
| AsmProgram.Assemble7a | assemblers/7a/lex.c:891-952 | the same for 7a |
| CleanName.StackNormal | BOOT/lib9/cleanname.c:16-45 | the cleaned path has no empty element and no dot, and double dots only in front of an unrooted path |
| CleanName.CleanTwice | BOOT/lib9/cleanname.c:8-52 | cleaning twice changes nothing |
| CleanName.CleanKeepsMeaning | BOOT/lib9/cleanname.c:4-6 | the cleaned path leads to the same directory from everywhere |
| CleanName.CleanIsCanonical | BOOT/lib9/cleanname.c:4-6 | two paths clean to the same if and only if they lead to the same directory from everywhere |
| CleanName.CleanShortest | BOOT/lib9/cleanname.c:4-6 | the cleaned path is not empty, and no other path that is not and means the same is shorter |
| CleanName.CleanDot | BOOT/lib9/cleanname.c:48-49 | exactly the paths that lead from everywhere to where one is clean to a dot |
| CleanName.CleanInPlace | BOOT/lib9/cleanname.c:8-52 | the array holds the cleaned path, no longer than the path was, and nothing behind it is written; it is never empty (`CleanShortest`) |
| CleanName.Backtrack | BOOT/lib9/cleanname.c:31-34 | goes back over exactly the last name |
| Calendar.NextYear | BOOT/lib9/tm2sec.c:26-33 | the closed form of the days before a year grows by exactly the size of the year |
| Calendar.MonthsFormula | BOOT/lib9/tm2sec.c:14-21 | the days before each month follow the formula (153 m + 2) / 5 from March on |
| Calendar.OneDescription | BOOT/lib9/ctime.c:69-128 | at most one set of fields belongs to a time |
| Calendar.WeekDayRight | BOOT/lib9/ctime.c:95-101 | when the weekday is (day + 4) mod 7 and in range: exactly from day -7340036 on and on Sundays before |
| Calendar.SecondsOfDescribed | BOOT/lib9/tm2sec.c:38-75 | the seconds of the fields of a time are that time exactly from 1970 on |
| Calendar.Clock.Gmtime | BOOT/lib9/ctime.c:69-128 | for every time all fields are in bounds for their year and month and describe that time; the month table is restored |
| Calendar.Clock.Tm2sec | BOOT/lib9/tm2sec.c:38-110 | the loops add up to the closed form |
| Calendar.Clock.RoundTrip | BOOT/lib9/tm2sec.c:38-75 | fields and back is the same time if and only if the time is not before 1970 |
| Calendar.Clock.RoundTripBack | BOOT/lib9/ctime.c:69-128 | seconds and back gives the same fields |

## Left out

- rc: what the processes of `|`, `&` and `@` do; a run is followed up to the fork.  Backquote, `<{...}` and here documents, whose words hold commands, are absent with their opcodes.
- rc: traps, the exit trap of `Xexit`, and the unwinding of threads after an error; an error ends the modelled run with the store it leaves.
- rc: the text of a function is kept as its tree, not as printed text; strings are code points, not UTF-8 bytes; numbers in `$n` and subscripts do not overflow.
- rc: the yacc grammar; modelling starts from trees. A tree for `;` with a missing side is one that the tree builder would have dropped (rc/tree.c:67-89).
- rc: built-in commands are part of the outside world, which may set variables, end the shell or fail, but not start threads.
- RcInterp.Interp.XSimple: built-in commands and `exitnext` are folded into the call of the outside world.
- mk: `P` programs, archive members, regular expressions, multi-target rules, pretending, `-n` and `-t`, the `D` attribute for nodes that are not the target of their job, and processes that are not jobs.
- mk: the pruning of vacuous arcs is any removal that keeps the order; the time cache is not modelled.
- mk: stems have no length limit; characters are bytes when a substituted name is cut.
- MkBuild.Mk.Make: a job is its node, its target and its recipe; the environment and the lists of prerequisites handed to the recipe are not part of it.
- Assemblers: opcodes, operand bytes other than the index, history records and the first pass; a reader may have heard anything before, which covers the history records.
- AsmProgram.Writer.OutCode7a: excludes operands for which the source never returns; so does OutCode4.
- Calendar: time zones other than GMT, and years beyond the range of `int`.
- CleanName.CleanInPlace: asks for a second byte if the path is empty, which the source writes without asking.
