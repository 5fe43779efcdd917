# Lua 5.1.4, proved in Dafny

A model of the hard parts of the Lua 5.1.4 core and of its string, table and auxiliary libraries, with proofs of what
they are for. Objects that the C code updates in place are classes, its loops are loops with invariants, and each
method is proved against a specification whose own properties are proved beside it. `dafny verify dfyconfig.toml`
checks everything.

## What is proved

**The incremental collector** (`heap`, `marking`, `places`, `states`, `sweeps`, `writes`, `tricolour`, `cycle`,
`collections`, `collector`, `program`, `exceptions`). `GlobalState` holds the heap, the colours, the lists gray,
grayagain and weak, the lists that link the objects, the two whites, the phase and the sweep cursors. `States.Inv` is
the invariant of every reachable state. Every step of the collector (`SingleStep`), every full collection
(`MarkAndSweep`, `FullGC`) and every operation of the program (`Program.Perform`: allocations, interning of strings,
stack writes, writes to objects with their barriers, closures, closing of upvalues, changes of the roots, both
resurrection points) keeps it, from any phase. Hence `Program.Run`: over every interleaving and at every moment of it,
whatever the roots reach has not been freed and is not about to be. Nor does a step free a userdata whose finalizer
has still to be called. `Cycle.StepTransparent` says that a step changes nothing else that the program could notice.
`FullGC`, from any state, keeps what is strongly reachable and only what marking reaches (along strong references and
to strings) from the roots or from userdata with finalizers, or what is fixed. A set `rs` that many contracts mention
is any set of objects out of which marking does not lead and that contains all that is marked; its choice makes the
same contract serve for safety and for `FullGC`.

Weak tables (section 2.10.2 of the Lua 5.1 reference manual): a weak reference keeps nothing alive but strings. The
atomic step leaves in a table on the weak list exactly the entries whose key and value stay; a userdata that has been
finalized stays as a key and not as a value (`Collections.SteppedWeak`). After `FullGC` every weak table has exactly
the entries whose key is still there and whose value is still there and has not been finalized.

Finalizers (section 2.10.1): just those userdata are flagged that are put on the list, in the order in which they are
linked, the newest first. `FullGC` hands to their finalizers all userdata that the roots do not reach and, unless
userdata of an earlier cycle were waiting, no others, in the order of the list; the others keep theirs.

No black object refers to a white one: in a run from a new state (`Program.RunFromStart`), and in every run that does
not begin in the middle of a mark phase with userdata waiting for their finalizers, this holds at every moment between
two operations. The only way to lose it is inside `luaC_fullgc`, which calls `markroot` while userdata may be waiting.
`MarkRoot` says exactly when it is lost then: if some black waiting userdata refers to an object that is neither
marked nor marked at once by `markroot`. `Exceptions.WaitingUserdata` is a run in which that happens.

No weak table is black when `markroot` is done, no step of the collector makes one black, and the only operation of
the program that does so (`Program.Perform`, `TriColour.WrittenNoBlackWeak`) is a write to a black table that makes it
weak while the value that it stores is not white, so that the backward barrier does not act;
`Exceptions.LateWeakTable` is a run in which that happens.

**The hybrid table** (`powers`, `nodes`, `counting`, `tables`, `slices`, `traversal`, `ltable`, `tableruns`).
`Nodes.ChainInv` is the invariant of the chained scatter table with Brent's variation that the head comment of
`ltable.c` states; insertion keeps it whether a node is overwritten, appended or moved. Any run of assignments refines
a finite map, `rehash` comes only when no node is free, picks the best array size (more than half of the slots in use,
and of no larger power of two; for the keys 1..n the least power of two that holds them) and is never needed twice for
one insertion, "table overflow" comes exactly if there is no place for a new key and the best sizes would need more
than 2^26 nodes, `luaH_next` visits every key that stays non-nil exactly once, `luaH_getn` finds a border in any
table, and references are never handed out twice and are used again once they are given up.

**The code generator** (`machine`, `jumplists`, `gensteps`, `genexps`, `genfacts`, `frames`, `codegen`, `conditions`).
`Machine` gives the instructions their meaning. Beside the code, `FuncState` carries the ghost run of it from
arbitrary initial registers, and every operation says where that run is afterwards. `Conditions.ArithToNextReg` and
`Conditions.IfThen` are the resulting theorems: emitted arithmetic leaves its value in the next register and touches
no register below, and emitted conditions fall through exactly when they are true. Every register that an instruction
names lies inside the frame that `maxstacksize` gives, arguments fit into their fields, and the generator gives up
exactly when the frame, the constants or the jumps exceed their limits.

**The pattern matcher** (`patterns`, `ways`, `matcher`, `pattexts`, `pattmeaning`, `pattsearch`). A way of matching is
a sequence of repetition counts; `Ways.Follow` tells what a pattern matches in a given way and `Ways.Before` which way
has priority. `match`, with its mutable capture stack, returns exactly the first way, or the error to which it leads.
What patterns mean is then told by the pieces that they are written with (section 5.4.1): characters, classes, sets as
lists of elements, repetitions, captures, `%b`, `%f` and back references; `PatternSearches.FindPieces` is the
resulting theorem.

**Upvalues** (`upvalues`). A run of local writes, closures, upvalue reads and writes and block exits gives the same
outputs as the same run with one heap cell for each variable.

**Binary chunks** (`chunks`, `chunkformat`, `chunkerrors`, `dump`, `undump`). What `luaU_dump` writes, `luaU_undump`
reads back to an equal prototype tree, in whatever blocks it is delivered; stripped, to the same tree without debug
data; and refuses it exactly if its prototypes are nested too deep. `ChunkFormat` writes down the bytes themselves.
Another header, another tag and a negative count are refused, and every chunk that is cut short is. A failed dump
reports what the writer answered.

**Quoted strings** (`quoted`, `escapes`). `read_string` reads every literal as the sequence of what its pieces mean:
letters, digits, line breaks and other characters behind a backslash, and plain characters (section 2.1). It undoes
the format `%q` and counts the lines. The manual promises that a quoted string can be read back; the code does so for
all strings, unless the line number would reach `MAX_INT`.

**Expressions** (`expressions`, `grouping`, `primaries`, `lparser`). `subexpr` undoes printing with only the
parentheses that the priorities require: reading gives the same tree back exactly where the expression fits, and no
shorter text is read as that tree. Every chain of operators and operands is grouped as section 2.5.6 says, which ranks
the operators without priorities (`OperatorGroups.Grouped`).

**Sorting** (`quicksort`). `auxsort` sorts under every strict weak order, never reaches its "invalid order function"
errors, and nests at most 1 + log2(n) deep.

Numbers are integers with abstract arithmetic (`Machine.Arithmetic`), and NaN is a value of its own in tables. Main
positions are an arbitrary function of key and vector size. Errors that the C code raises are results. `limits` and
`wrappers` hold what the modules share.

## Model

| member | source | states |
|---|---|---|
| Collector.GlobalState.constructor | lua-5.1.4/src/lstate.c:151-189 | A new state satisfies the invariant of the collector; the main thread is its only object and is fixed |
| Collector.GlobalState.MarkValue | lua-5.1.4/src/lgc.c:52-53 | The value ends up marked; white objects may become marked, but only those that marking the value reaches without the gray list, and nothing else changes colour |
| Collector.GlobalState.ReallyMarkObject | lua-5.1.4/src/lgc.c:69-112 | Marks a white object: strings stay gray, userdata and closed upvalues end up black with everything they refer to marked, open upvalues stay gray, all others go in front of the gray list; the number of white objects pays for the list entries |
| Collector.GlobalState.MarkValues | lua-5.1.4/src/lgc.c:203-238 | Everything a list of values refers to is marked |
| Collector.GlobalState.MarkEntry | lua-5.1.4/src/lgc.c:189-193 | The strong sides of a node are marked |
| Collector.GlobalState.MarkEntries | lua-5.1.4/src/lgc.c:183-194 | The strong sides of all nodes are marked |
| Collector.GlobalState.TraverseTable | lua-5.1.4/src/lgc.c:158-196 | All strong references of the table are marked; it tells whether the table is weak, and a weak one is put on the weak list together with its mode |
| Collector.GlobalState.TraverseOther | lua-5.1.4/src/lgc.c:203-270 | Everything a prototype, a closure or a thread refers to is marked |
| Collector.GlobalState.PropagateMark | lua-5.1.4/src/lgc.c:277-320 | Traversing the first gray object keeps the mark invariant, makes no weak table black, and lowers twice the number of white objects plus the length of the gray list |
| Collector.GlobalState.PropagateAll | lua-5.1.4/src/lgc.c:323-327 | Empties the gray list, with the mark invariant kept; it terminates |
| Collector.GlobalState.MarkRoot1 | lua-5.1.4/src/lgc.c:502-513 | Marking one root keeps the mark invariant |
| Collector.GlobalState.MarkMt | lua-5.1.4/src/lgc.c:494-498 | The metatables of the basic types are marked |
| Collector.GlobalState.RemarkUpval | lua-5.1.4/src/lgc.c:516-523 | A gray open upvalue no longer counts as unvisited once its value is marked |
| Collector.GlobalState.RemarkUpvals | lua-5.1.4/src/lgc.c:516-523 | After the loop none of the open upvalues is left unvisited, dead threads' ones included |
| Collector.GlobalState.SeparateUdata | lua-5.1.4/src/lgc.c:128-155 | Exactly the white userdata with a finalizer that has not been called move, in order, to the end of the list of those to be finalized; the others keep their order; exactly the white ones are flagged |
| Collector.GlobalState.Separate1 | lua-5.1.4/src/lgc.c:133-151 | Whether one userdata is to be finalized, that is unmarked, with a finalizer and not finalized before; every unmarked one is flagged, and no other |
| Collector.GlobalState.SeparateReached | lua-5.1.4/src/lgc.c:529-544 | The userdata are separated after everything else that the roots reach has been marked: just those are flagged that are put on the list, in the order in which they are linked; all that were out of reach are, and, if none waited before, nothing that the roots reach strongly; and only threads are queued again |
| Collector.GlobalState.MarkTmu1 | lua-5.1.4/src/lgc.c:115-124 | A userdata that waits for its finalizer is marked again with all it refers to, even if it was black |
| Collector.GlobalState.MarkTmu | lua-5.1.4/src/lgc.c:115-124 | All waiting userdata are marked with all they refer to |
| Collector.GlobalState.IsCleared | lua-5.1.4/src/lgc.c:337-345 | Whether a weak table drops a key or a value: as a key, exactly an unmarked object other than a string; as a value, exactly that or a userdata that has been finalized. Strings are marked instead |
| Collector.GlobalState.EntryIsCleared | lua-5.1.4/src/lgc.c:363-372 | An entry goes exactly if its key or its value is to be dropped, and otherwise both are marked |
| Collector.GlobalState.ClearValues | lua-5.1.4/src/lgc.c:354-361 | Exactly the values to be dropped become nil |
| Collector.GlobalState.ClearEntries | lua-5.1.4/src/lgc.c:362-372 | Exactly the entries with nothing to be dropped are left, in order |
| Collector.GlobalState.ClearOne | lua-5.1.4/src/lgc.c:351-374 | One weak table loses exactly what is to be dropped, and all it still refers to is marked |
| Collector.GlobalState.ClearTables | lua-5.1.4/src/lgc.c:351-375 | All tables on the weak list lose exactly what is to be dropped, nothing else changes, and no marked object refers to an unmarked one any longer |
| Collector.GlobalState.RemarkAll | lua-5.1.4/src/lgc.c:529-543 | What the incremental phase left unvisited (open upvalues, the weak list, the running thread, the metatables, grayagain) is traversed, so that only waiting userdata remain |
| Collector.GlobalState.FinishMarking | lua-5.1.4/src/lgc.c:529-546 | All marking is done: whatever the roots reach, strongly or through weak tables before clearing, is accounted for |
| Collector.GlobalState.Flip | lua-5.1.4/src/lgc.c:548-552 | Only the white in use, the state and the two sweep cursors change |
| Collector.GlobalState.Atomic | lua-5.1.4/src/lgc.c:526-554 | After the atomic step no marked object refers to an unmarked one, and exactly the marked and the fixed objects are live under the new white. A table on the weak list holds just the entries of which the key stays (an unmarked object other than a string does not) and the value stays (a finalized userdata does not either), and all other contents are the same. Every userdata with a finalizer that was out of reach is on the list, in linking order, and flagged; no other is. If no weak table was black, all marked weak tables are on the weak list. The invariant holds at the start of the sweep |
| Collector.GlobalState.BarrierF | lua-5.1.4/src/lgc.c:663-673 | While propagating, the value is marked; in any other phase only the owner becomes white again |
| Collector.GlobalState.UnlinkFirst | lua-5.1.4/src/lfunc.c:96-112 | The first open upvalue takes the value of its slot, leaves both lists, and is linked in front of the objects |
| Collector.GlobalState.ShadeClosed | lua-5.1.4/src/lgc.c:696-711 | A gray upvalue that was closed becomes black with its value marked while propagating, and white otherwise |
| Collector.GlobalState.CloseFirst | lua-5.1.4/src/lfunc.c:105-110 | Closing one upvalue keeps the invariant in every phase, and all live objects stay live with the same references |
| Collector.GlobalState.FreeUpVal | lua-5.1.4/src/lfunc.c:89-93 | A freed upvalue leaves the list of its thread, the list of all open upvalues and the heap |
| Collector.GlobalState.CloseNext | lua-5.1.4/src/lfunc.c:99-111 | One iteration frees a dead upvalue or closes a live one; the invariant holds and the list gets shorter |
| Collector.GlobalState.LuaFClose | lua-5.1.4/src/lfunc.c:96-112 | Afterwards no upvalue at or above the level heads the list, and nothing live was freed or changed its references, whatever the phase |
| Collector.GlobalState.SweepOpenUpvals | lua-5.1.4/src/lgc.c:412-413 | The open upvalues of a live thread are swept: dead ones freed, live ones whitened |
| Collector.GlobalState.UnlinkObject | lua-5.1.4/src/lgc.c:419-425 | One object leaves the list of all objects and the heap |
| Collector.GlobalState.FreeCurrent | lua-5.1.4/src/lgc.c:378-400 | Freeing the dead object under the cursor, a thread with its open upvalues included, keeps the invariant and brings the end of the sweep nearer |
| Collector.GlobalState.SweepOne | lua-5.1.4/src/lgc.c:411-426 | One iteration keeps the invariant and frees nothing live; what is kept becomes white |
| Collector.GlobalState.SweepList | lua-5.1.4/src/lgc.c:407-428 | At most `count` objects are swept, with the invariant kept and nothing live freed |
| Collector.GlobalState.FreeString | lua-5.1.4/src/lgc.c:393-397 | One string leaves its bucket and the heap |
| Collector.GlobalState.SweepString1 | lua-5.1.4/src/lgc.c:407-428 | One iteration over a bucket: all strings before the position that it returns are swept |
| Collector.GlobalState.SweepStringStep | lua-5.1.4/src/lgc.c:573-580 | One bucket is swept, nothing live is freed, and the phase ends after the last bucket |
| Collector.GlobalState.SweepStep | lua-5.1.4/src/lgc.c:582-591 | At most GCSWEEPMAX objects are swept, nothing live is freed, and either the phase ends or less is left to sweep |
| Collector.GlobalState.MarkRoots | lua-5.1.4/src/lgc.c:506-510 | The main thread, its globals, the registry and the metatables of the basic types are marked, and nothing but what marking them reaches at once; the mark invariant holds |
| Collector.GlobalState.StartMarking | lua-5.1.4/src/lgc.c:502-511 | The lists are emptied and the roots marked: afterwards exactly what was marked, and what the roots reach without the gray list, is marked |
| Collector.GlobalState.MarkRoot | lua-5.1.4/src/lgc.c:502-513 | A cycle starts, from a heap at rest or one that waits for finalizers. Then no table is black, and no black object refers to a white one exactly if every black userdata that waits for its finalizer refers only to what is marked or what the roots mark at once |
| Collector.GlobalState.PropagateStep | lua-5.1.4/src/lgc.c:565-571 | Either one gray object is traversed and the measure falls, or the mark phase ends with the atomic step |
| Collector.GlobalState.TakeUdata | lua-5.1.4/src/lgc.c:446-458 | The first waiting userdata is white again and in front of the others; the invariant holds for the remaining objects |
| Collector.GlobalState.Push | lua-5.1.4/src/lgc.c:465-467 | The userdata is on the stack of the running thread, without a barrier, and the invariant still holds |
| Collector.GlobalState.FinalizeStep | lua-5.1.4/src/lgc.c:593-605 | The first waiting userdata is pushed for its finalizer, or the cycle ends; nothing else in the heap changes |
| Collector.GlobalState.SingleStepIn | lua-5.1.4/src/lgc.c:557-608 | What each of the five cases does to the state, for any set of objects that contains what the step may mark |
| Collector.GlobalState.SingleStep | lua-5.1.4/src/lgc.c:557-608 | From every state that satisfies the invariant, one step keeps it, does what its case calls for, and frees no object that the roots reach and no userdata whose finalizer has still to be called |
| Collector.GlobalState.ResetSweep | lua-5.1.4/src/lgc.c:639-648 | A collection that starts during propagation gives up the marks; nothing live is lost |
| Collector.GlobalState.FinishSweep | lua-5.1.4/src/lgc.c:639-654 | The pending sweep is finished, with the live objects the same, and userdata that wait for their finalizers stay black |
| Collector.GlobalState.MarkAndSweep | lua-5.1.4/src/lgc.c:639-657 | The part of a full collection before the finalizers, from any state of the collector: everything strongly reachable remains, and only what marking reaches, along strong references and to strings, from the roots or userdata with a finalizer, or what is fixed; exactly the userdata with a finalizer that the roots do not reach are on the list; weak tables hold what remains |
| Collector.GlobalState.FullGC | lua-5.1.4/src/lgc.c:637-660 | From any state of the collector and any heap, ends in the pause with no userdata waiting: everything strongly reachable remains, and only what marking reaches from the roots or userdata with a finalizer, or what is fixed; a weak table has exactly the entries whose key remains and whose value remains and is no finalized userdata; the running thread has got, for their finalizers, all userdata with one that the roots do not reach and, if none was waiting, no others, in the order in which userdata are linked. Without finalizers the objects that remain are, apart from strings, exactly the strongly reachable and the fixed ones; without weak tables too, exactly the reachable and the fixed ones |
| Marking.MarkStepKeeps | lua-5.1.4/src/lgc.c:69-112 | Any amount of marking keeps the mark invariant: the three lists hold gray objects once, and what is marked and visited has only marked references |
| Marking.PropagateKeeps | lua-5.1.4/src/lgc.c:277-320 | Taking off a gray object, marking its references and putting it where its kind goes is a safe step that lowers the measure |
| Marking.Remark | lua-5.1.4/src/lgc.c:115-124 | Whitening a userdata and marking it again leaves it with marked references only |
| Marking.ClearedTable | lua-5.1.4/src/lgc.c:351-375 | A table that was cleared has only marked references, all of which it had before |
| Places.PathInside | lua-5.1.4/src/lgc.c:502-513 | A set that contains the roots and is closed under references contains the end of every path |
| Places.AccessibleLive | lua-5.1.4/src/lgc.c:407-428 | Nothing that the roots reach is dead, hence freed, as long as no live object refers to a dead one |
| States.FlipSafe | lua-5.1.4/src/lgc.c:548-552 | Flipping the whites after complete marking makes exactly what is neither marked nor fixed dead, and re-establishes the invariant, which includes that no userdata with a finalizer still to be called is dead |
| Sweeps.KeepInv | lua-5.1.4/src/lgc.c:414-418 | Keeping a live object under the cursor, now white, preserves the invariant and shortens the sweep |
| Sweeps.AllLive | lua-5.1.4/src/lgc.h:69-70 | Outside the two sweep phases nothing is dead |
| Sweeps.FreePoints | lua-5.1.4/src/lgc.c:378-400 | Freeing an object whose stack no open upvalue points into changes the references of no other object |
| Writes.WriteInv | lua-5.1.4/src/lgc.h:86-97 | A write that adds live references keeps the invariant without a barrier if the owner is not black or the references are marked; only an owner that gets a finalizer has to be live itself |
| Writes.ForwardMarked | lua-5.1.4/src/lgc.c:663-673 | A write into a black object followed by the forward barrier keeps the mark invariant |
| Writes.BarrierOnFinalized | lua-5.1.4/src/lgc.c:663-673 | So does one into a black userdata that still waits for its finalizer |
| Writes.WhitenedOwnerInv | lua-5.1.4/src/lgc.c:668-672 | Outside propagation, whitening the owner keeps the invariant and who is live |
| Writes.StackInv | lua-5.1.4/src/lgc.c:224-270 | Writing any live values to a stack keeps the invariant in every phase, though there is no barrier |
| Writes.AllocInv | lua-5.1.4/src/lgc.c:687-693 | A new object with live references, coloured with the current white, keeps the invariant in every phase |
| Writes.ResurrectInv | lua-5.1.4/src/lstring.c:98-102 | Whitening a dead object that the program has found again is safe if what it refers to is live |
| Writes.BlackSettled | lua-5.1.4/src/lgc.c:277-320 | While propagating, a black object that does not wait for its finalizer refers to no white one, is on no list, and will not be visited again |
| TriColour.QuietBlack | lua-5.1.4/src/lgc.c:277-320 | While propagating, no black object refers to a white one, without exception, if no userdata has been waiting since the previous cycle |
| TriColour.BegunColours | lua-5.1.4/src/lgc.c:502-513 | When a mark phase begins, no black object refers to a white one exactly if every black waiting userdata refers only to what is marked or what the roots mark at once; and no table is black |
| TriColour.WrittenNoBlackWeak | lua-5.1.4/src/lgc.h:89-90 | A write to a table makes a black table weak exactly if the table was black, its new mode is weak and the stored value is not white, so that the barrier does not act |
| Cycle.SteppedQuiet | lua-5.1.4/src/lgc.c:593-605 | No step of the collector leaves userdata waiting when a cycle begins |
| Cycle.SteppedNoBlackWeak | lua-5.1.4/src/lgc.c:277-320 | No step of the collector makes a weak table black |
| Marking.DirectMarked | lua-5.1.4/src/lgc.c:69-112 | Marking reaches every object on a path of objects that are not put on the gray list |
| Exceptions.WaitingUserdata | lua-5.1.4/src/lgc.c:637-655 | A run from a new state in which a black object refers to a white one: a userdata with a metatable is dropped, waits for its finalizer, and a full collection starts |
| Exceptions.LateWeakTable | lua-5.1.4/src/lgc.c:158-196 | A run from a new state after which a weak table is black: a metatable of a basic type is traversed and is then made its own weak metatable, which calls for no barrier |
| Writes.ColorsAndLists | lua-5.1.4/src/lgc.c:69-112 | While propagating, no thread, open upvalue or object on a list is black, and each gray table, closure, thread or prototype is exactly once on exactly one of gray, grayagain and weak |
| Writes.GrayIsQueued | lua-5.1.4/src/lgc.c:663-684 | While propagating, every gray object that is no string is queued or will be visited by the atomic step |
| Writes.RootsInv | lua-5.1.4/src/lgc.c:502-513 | Changing the running thread or a metatable of a basic type to something live keeps the invariant without a barrier |
| Writes.RefLive | lua-5.1.4/src/lgc.h:70 | What a live object refers to is live |
| Cycle.RootsOneByOne | lua-5.1.4/src/lgc.c:502-511 | The main thread, its table of globals, the running thread, the registry, the metatables of the basic types and the userdata that wait for their finalizers are never dead, in any state that satisfies the invariant |
| Cycle.SteppedSafe | lua-5.1.4/src/lgc.c:557-608 | A step frees only what was dead before it |
| Cycle.StepTransparent | lua-5.1.4/src/lgc.c:557-608 | What a step leaves in the heap holds what it held, every upvalue its value, except that tables on the weak list have lost just the entries that do not stay, that userdata are flagged, and that one userdata may be on the stack for its finalizer |
| Cycle.SameReached | lua-5.1.4/src/lgc.c:407-428 | A step of a sweep changes nothing about what the roots reach, strongly or through weak tables |
| Cycle.SameKeepable | lua-5.1.4/src/lgc.c:407-428 | What marking reaches from the roots and the userdata with finalizers after a sweep, it reached before it |
| States.AtomicContentsNow | lua-5.1.4/src/lgc.c:526-554 | Over the whole atomic step only tables on the weak list lose entries, and only flags of userdata change |
| Sweeps.ClosedContents | lua-5.1.4/src/lfunc.c:105-110 | Closing an upvalue keeps the value that every upvalue reads, and all other contents |
| Cycle.StepProgress | lua-5.1.4/src/lgc.c:557-608 | Every step brings the end of the cycle nearer, so that a cycle terminates when the program does nothing |
| Cycle.ResetInv | lua-5.1.4/src/lgc.c:639-646 | Dropping the three lists in the middle of a mark phase keeps the invariant, and who is live |
| Cycle.CollectingStep | lua-5.1.4/src/lgc.c:557-608 | Over a whole cycle, everything strongly reachable at its start is live once the marking is over, and only what could be marked and the fixed objects are |
| Cycle.BoundsCoincide | lua-5.1.4/src/lgc.c:158-196 | Without finalizers, what marking reaches is what is strongly reachable, apart from strings; without weak tables too, it is what is reachable |
| States.StrongMarkedNow | lua-5.1.4/src/lgc.c:526-546 | After all marking, whatever the roots reach without the weak sides of weak tables is marked |
| States.FinalizersQueuedNow | lua-5.1.4/src/lgc.c:128-155 | Every userdata that was neither marked nor reached when the atomic step began is flagged, and, with a finalizer not yet called, put on the list of those to be finalized; what the roots reach strongly is not flagged, if none waited before |
| Program.Link | lua-5.1.4/src/lgc.c:687-693 | A new object is white, live and first in the list of all objects; a sweep cursor behind it moves on; all live objects stay live |
| Program.LinkUdata | lua-5.1.4/src/lstring.c:109-123 | A new userdata is linked right after the main thread, in front of all other userdata, with the invariant kept |
| Program.LinkString | lua-5.1.4/src/lstring.c:53-79 | A new string is first in its bucket, with the invariant kept even while buckets are swept |
| Program.Revive | lua-5.1.4/src/lgc.h:72 | A dead object that was found again gets the other white; the invariant holds and all live objects stay live |
| Program.FoundString | lua-5.1.4/src/lstring.c:92-103 | The first resurrection point: a dead string that is found becomes live |
| Program.LinkUpval | lua-5.1.4/src/lfunc.c:67-79 | A new open upvalue is white, in the list of its thread at its position, and in the global list |
| Program.FindUpval | lua-5.1.4/src/lfunc.c:53-79 | The second resurrection point: the upvalue of the slot is found, revived if it is dead, or created in front of the first lower slot and behind all higher ones; nothing else changes |
| Program.WriteOwned | lua-5.1.4/src/lgc.h:86-87 | The object is written as asked, and with the forward barrier the invariant holds in every phase |
| Program.BarrierBack | lua-5.1.4/src/lgc.c:676-684 | The table is gray and on the grayagain list |
| Program.WriteTable | lua-5.1.4/src/lgc.h:89-90 | The table is written as asked, is gray afterwards if it was black and the value white, and the invariant holds in every phase |
| Program.WriteStack | lua-5.1.4/src/lvm.c:444-447 | The stack is written as asked, and the invariant holds without a barrier |
| Program.ReadUpval | lua-5.1.4/src/lvm.c:464-468 | The upvalue of a function on the stack is a live upvalue object |
| Program.SetSlot | lua-5.1.4/src/lvm.c:444-447 | The value is in the slot, or on top of the stack, without a barrier |
| Program.SetUpval | lua-5.1.4/src/lvm.c:488-493 | The cell of the upvalue holds the value; an open upvalue is never black, so that its barrier has nothing to do |
| Program.Store | lua-5.1.4/src/lgc.h:86-97 | Any write that adds one live reference, with the barrier that the kind of its owner calls for, keeps the invariant |
| Program.New | lua-5.1.4/src/lgc.c:687-693 | An object that holds only live values is allocated and pushed, with the invariant kept |
| Program.CaptureUpvals | lua-5.1.4/src/lvm.c:766-773 | Each upvalue is the open one of the slot, or the one of the enclosing closure, that its capture asks for, and all are live when the closure is made |
| Program.NewClosure | lua-5.1.4/src/lvm.c:760-779 | The closure with just the upvalues that its captures ask for is made and put in its slot, unless an address is in use or an upvalue does not exist; nothing but open upvalues is created besides, and the invariant holds |
| Program.Close | lua-5.1.4/src/lfunc.c:96-112 | Closing upvalues keeps the invariant in every phase; live objects stay live and keep their references |
| Program.Leave | lua-5.1.4/src/lvm.c:756-759 | Leaving a block cuts the stack at its level and frees nothing live |
| Program.SetTypeMeta | lua-5.1.4/src/lapi.c:803-842 | A metatable of a basic type is a root that changes without a barrier; the invariant holds |
| Program.SwitchTo | lua-5.1.4/src/ldo.c:435-456 | Running another live thread keeps the invariant |
| Program.FixString | lua-5.1.4/src/lstring.h:25 | A fixed string stays, and the invariant holds |
| Program.PerformRead | lua-5.1.4/src/lvm.c:444-468 | Loads, moves and reads of fields and upvalues write just the value they name |
| Program.PerformNew | lua-5.1.4/src/lgc.c:687-693 | Allocations, interned strings and closures change the heap just as asked |
| Program.PerformRoots | lua-5.1.4/src/lapi.c:833-836 | A basic type gets the metatable, the thread runs unless it is dead, or the string is fixed, and the invariant holds |
| Program.PerformStore | lua-5.1.4/src/lvm.c:488-497 | Stores to objects and upvalues change the heap just as asked; a weak table is black afterwards exactly if the store made a black table weak without a barrier |
| Program.PerformOther | lua-5.1.4/src/lvm.c:444-779 | Operations other than stores make no table black and take away nothing that the roots reached |
| Program.Perform | lua-5.1.4/src/lgc.c:557-660 | A step of the collector, a full collection or an operation of the program, at any moment, keeps the invariant, frees no object that the roots reach strongly (or, but for a full collection, through weak tables), leaves no userdata waiting when a cycle begins, and makes a weak table black exactly if it is a store into a black table that makes it weak and stores a value that is not white |
| Program.Run | lua-5.1.4/src/lgc.c:557-660 | Over every interleaving of collector steps, full collections, allocations, barriered writes, stack writes, closing of upvalues and resurrections, and at every moment of it, everything the roots reach is in the heap and live; no black object refers to a white one, unless userdata were waiting when the run began; and which operation makes a weak table black |
| Program.RunFromStart | lua-5.1.4/src/lstate.c:151-189 | From a new state, no black object ever refers to a white one while the program and the collector take turns |
| Powers.Log2 | lua-5.1.4/src/lobject.c:54-69 | The exponent of the largest power of two that is not above the argument, and -1 for 0 |
| Powers.CeilLog2 | lua-5.1.4/src/lobject.h:442 | The exponent of the least power of two that is not below the argument |
| LuaTables.Table.FindNode | lua-5.1.4/src/ltable.c:500-506 | The chain from the main position finds the node of the key exactly if the key is stored, and ends |
| LuaTables.Table.GetNum | lua-5.1.4/src/ltable.c:472-488 | The place of an integer key: in the array part exactly if it is in its range |
| LuaTables.Table.Get | lua-5.1.4/src/ltable.c:497-539 | The place of any key, or the shared nil if it is not stored |
| LuaTables.Table.RawGet | lua-5.1.4/src/lapi.c:625-632 | The value that the table, as a finite map, gives the key |
| LuaTables.Table.GetFreePos | lua-5.1.4/src/ltable.c:403-409 | The last free node, or nothing if every node has a key; the pointer only moves down |
| LuaTables.Table.FindPrevious | lua-5.1.4/src/ltable.c:443-446 | The walk from the main position of the colliding key comes to its predecessor |
| LuaTables.Table.MoveColliding | lua-5.1.4/src/ltable.c:444-459 | A colliding node out of its main position moves to the free node and the new key takes its place; all other keys keep their values and the chain invariant holds |
| LuaTables.Table.AppendColliding | lua-5.1.4/src/ltable.c:452-459 | The new key goes to the free node behind a colliding node that is at home; the chain invariant holds |
| LuaTables.Table.TakeMainPosition | lua-5.1.4/src/ltable.c:432-434 | A main position with a nil value takes the new key, even one that is linked into another chain |
| LuaTables.Table.Store | lua-5.1.4/src/ltable.c:544-558 | A write through a place changes only what is there |
| LuaTables.Table.InsertKey | lua-5.1.4/src/ltable.c:432-463 | The key gets a node with a nil value and every other key keeps its value; it fails exactly if no node is free and the main position is taken |
| LuaTables.Table.SetArrayVector | lua-5.1.4/src/ltable.c:268-274 | The old values are kept and the rest is nil |
| LuaTables.Table.SetNodeVector | lua-5.1.4/src/ltable.c:277-299 | A vector of the least power of two that is large enough, empty, with all its nodes free; it fails exactly above 2^MAXBITS |
| LuaTables.Table.CountSlice | lua-5.1.4/src/ltable.c:239-244 | The number of keys of the array part in one slice |
| LuaTables.Table.NumUseArray | lua-5.1.4/src/ltable.c:225-249 | nums[i] is the number of array keys in (2^(i-1), 2^i], and the result is their total |
| LuaTables.Table.NumUseHash | lua-5.1.4/src/ltable.c:252-265 | nums[i] and the two totals are raised by exactly the keys of the live nodes that belong there |
| LuaTables.Table.NewKey | lua-5.1.4/src/ltable.c:432-463 | The key gets a place with every value unchanged. While a node is free there is no rehash; when there is no place for the key, the array part gets the best size for all keys, and after one rehash there is room, so that there is never a second. The table overflows exactly if there is no place for the key and, with the best array size, the other keys would need more than 2^MAXBITS nodes |
| LuaTables.Table.Set | lua-5.1.4/src/ltable.c:544-558 | A place to write the value of the key, with every value unchanged; nil and NaN are errors, and so is a new key that makes the table overflow, exactly |
| LuaTables.Table.SetNum | lua-5.1.4/src/ltable.c:561-570 | The same for integer keys; an error exactly if the key is new and makes the table overflow |
| LuaTables.Table.Rehash | lua-5.1.4/src/ltable.c:341-360 | No value changes, the array part gets the largest size of which more than half is used, and there is room for the key; it fails exactly if the remaining keys need more than 2^MAXBITS nodes |
| LuaTables.Table.Resize | lua-5.1.4/src/ltable.c:305-332 | Both parts are rebuilt with the sizes asked for, no value changes, and the re-insertions never run out of nodes; it fails exactly when the node part would be too large |
| LuaTables.Table.ReinsertSlice | lua-5.1.4/src/ltable.c:314-323 | The values of the vanishing slice are all moved into nodes, without a rehash |
| LuaTables.Table.ReinsertNodes | lua-5.1.4/src/ltable.c:325-331 | The values of the old nodes are all moved, without a rehash |
| LuaTables.Table.constructor | lua-5.1.4/src/ltable.c:374-388 | A table of the sizes asked for in which every value is nil |
| LuaTables.Table.RawSet | lua-5.1.4/src/ltable.c:544-558 | The value of the key is replaced and every other value is kept, whatever is moved or rebuilt; both parts keep their sizes while a node is free, and a rehash gives the array part the best size. An error changes no value, and the errors come exactly for nil, for NaN and for a new key that makes the table overflow |
| LuaTables.Table.ResizeArray | lua-5.1.4/src/ltable.c:335-338 | The array part grows to the size and no value changes |
| LuaTables.Table.FindIndex | lua-5.1.4/src/ltable.c:138-160 | The position of a known key in the order of traversal, and an error exactly for an unknown one |
| LuaTables.Table.Next | lua-5.1.4/src/ltable.c:165-182 | The first live entry after the position of the key, or nothing if there is none; an error exactly for an unknown key |
| LuaTables.Table.UnboundSearch | lua-5.1.4/src/ltable.c:585-606 | A border, by doubling and then bisection, or by the linear search |
| LuaTables.Table.LinearSearch | lua-5.1.4/src/ltable.c:592-597 | The linear search finds a border before it leaves the integers |
| LuaTables.Table.GetN | lua-5.1.4/src/ltable.c:613-629 | 0 or a present index, and its successor is absent, for every table |
| Nodes.Overwrite | lua-5.1.4/src/ltable.c:432-434 | Overwriting a dead key in its node, on whatever chain that is, keeps the chain invariant |
| Nodes.MovedInv | lua-5.1.4/src/ltable.c:444-459 | Moving a colliding node keeps the chain invariant: acyclic chains, one predecessor, every key on the chain from its main position, main positions held by keys at home |
| Nodes.AppendedInv | lua-5.1.4/src/ltable.c:452-459 | Appending behind a node that is at home keeps it too |
| Nodes.Homeless | lua-5.1.4/src/ltable.c:15-17 | If the holder of a position is not at home there, no key is |
| Counting.CountInt | lua-5.1.4/src/ltable.c:214-222 | One more key in its slice, if it is a candidate for the array part |
| Counting.ComputeSizes | lua-5.1.4/src/ltable.c:192-211 | The largest power of two n such that more than n/2 of the keys 1..n are present, or 0, and exactly how many these are |
| Counting.BestDone | lua-5.1.4/src/ltable.c:197-207 | Sizes of which the keys cannot fill more than half need not be looked at |
| Counting.BestUnique | lua-5.1.4/src/ltable.c:192-211 | There is one best size only |
| TableValues.StoredUpdates | lua-5.1.4/src/ltable.c:544-558 | Writing through the place of a key changes the value of that key alone |
| TableValues.RehashNeeds | lua-5.1.4/src/ltable.c:355-359 | The nodes asked for by a rehash are exactly those that the keys outside the array part and the new key need |
| TableValues.OverflowKeeps | lua-5.1.4/src/ltable.c:305-332 | If the node part turns out too large after the array part has grown, no value has been lost |
| Traversals.StepForward | lua-5.1.4/src/ltable.c:165-182 | Each step of a traversal goes forward and past no live key |
| Traversals.TraversalVisits | lua-5.1.4/src/ltable.c:165-182 | A traversal visits every key that stays non-nil, and none twice, though fields are overwritten or cleared between the calls |
| Traversals.FewPresent | lua-5.1.4/src/ltable.c:592-597 | A table cannot hold so many integer keys that the linear search overflows |
| TableRuns.RunAssignments | lua-5.1.4/src/ltable.c:432-558 | Any run of assignments refines a finite map; an assignment overflows only if the map would get more than 2^MAXBITS keys |
| TableRuns.Overwrite | lua-5.1.4/src/ltable.c:165-182 | Assignments to existing fields move no key |
| TableRuns.Traverse | lua-5.1.4/src/ltable.c:165-182 | The loop that feeds luaH_next its own results, with writes to existing fields in between, visits each key that stays non-nil exactly once |
| TableRuns.References.constructor | lua-5.1.4/src/lauxlib.c:30 | An empty table is ready for references |
| TableRuns.References.Pick | lua-5.1.4/src/lauxlib.c:490-500 | The reference that was given up last, or, if all are outstanding, the next new one; it is neither outstanding nor free any longer |
| TableRuns.References.Ref | lua-5.1.4/src/lauxlib.c:483-503 | The reference that was given up last, or a new one, now mapped to the value; nil gets LUA_REFNIL; an error only if the table holds 2^MAXBITS keys or more |
| TableRuns.References.Unref | lua-5.1.4/src/lauxlib.c:506-514 | Just this reference is no longer outstanding, and it is the first to be used again; an error only if the table holds 2^MAXBITS keys or more |
| TableRuns.References.Get | lua-5.1.4/src/lapi.c:635-643 | Every outstanding reference maps to its object, after any run |
| Machine.RunFrame | lua-5.1.4/src/lvm.c:423-440 | A run of the machine does not notice changes to code that it has not executed |
| Machine.TestThenJump | lua-5.1.4/src/lvm.c:578-622 | The tests with the jump behind them, as the interpreter does them: the jump is done exactly if the comparison has the outcome A, or the value the truth C, nil and false being false; OP_TESTSET then copies the value |
| Machine.PlainStep | lua-5.1.4/src/lvm.c:444-550 | The other instructions change just the registers that they name, OP_LOADNIL all from A to B, to the values that they name, and go on |
| JumpLists.ListNext | lua-5.1.4/src/lcode.c:100-106 | Following the links of a jump list visits its jumps in order and ends |
| JumpLists.PatchedOne | lua-5.1.4/src/lcode.c:150-160 | Patching one jump more |
| CodeGenerator.FuncState.constructor | lua-5.1.4/src/lparser.c:404-427 | A new function has no code and a run of it is at its start; its frame has two registers, or as many as there are parameters, and the limit is exceeded exactly if these are too many |
| CodeGenerator.FuncState.GetLabel | lua-5.1.4/src/lcode.c:94-97 | The next instruction is marked as a jump target |
| CodeGenerator.FuncState.FixJump | lua-5.1.4/src/lcode.c:80-87 | The jump leads to the destination; the limit on its offset is exceeded exactly if it does not fit |
| CodeGenerator.FuncState.JumpControl | lua-5.1.4/src/lcode.c:109-115 | The test before the jump if there is one, and otherwise the jump |
| CodeGenerator.FuncState.PatchTestReg | lua-5.1.4/src/lcode.c:131-141 | A test that would set a register no longer does; other instructions stay |
| CodeGenerator.FuncState.PatchListAux | lua-5.1.4/src/lcode.c:150-160 | Every jump of the list leads to the destination, the tests that control them set no register, and all other code stays |
| CodeGenerator.FuncState.Code | lua-5.1.4/src/lcode.c:818-830 | The instruction is appended and all pending jumps lead to it; a run that was at the end is at it |
| CodeGenerator.FuncState.Concat | lua-5.1.4/src/lcode.c:185-196 | The first list followed by the second one, acyclic again; nothing else changes |
| CodeGenerator.FuncState.Jump | lua-5.1.4/src/lcode.c:59-66 | A new jump, with the jumps that were pending behind it on its list |
| CodeGenerator.FuncState.CondJump | lua-5.1.4/src/lcode.c:74-77 | A test and its jump are appended; a run that was at the end is at the test |
| CodeGenerator.FuncState.PatchToHere | lua-5.1.4/src/lcode.c:179-182 | The list joins the pending jumps |
| CodeGenerator.FuncState.CheckStack | lua-5.1.4/src/lcode.c:199-206 | The stack size covers the registers; the limit is exceeded exactly if it does not fit |
| CodeGenerator.FuncState.ReserveRegs | lua-5.1.4/src/lcode.c:211-214 | So many more registers are in use, and the frame holds them; the limit is exceeded exactly if it does not fit |
| CodeGenerator.FuncState.FreeReg | lua-5.1.4/src/lcode.c:220-225 | A temporary register, which must be the last, is free again; a local variable's is not |
| CodeGenerator.FuncState.FreeExp | lua-5.1.4/src/lcode.c:228-232 | The same for the register of an expression |
| CodeGenerator.FuncState.AddK | lua-5.1.4/src/lcode.c:235-253 | The index of a constant with this value, which is appended only if it is new |
| CodeGenerator.FuncState.Emit | lua-5.1.4/src/lcode.c:833-845 | A run that was at the end has executed the instruction; other runs are not affected |
| CodeGenerator.FuncState.Nil | lua-5.1.4/src/lcode.c:35-56 | The registers are nil for every run that gets here, also when nothing is emitted at the start of a function or an earlier OP_LOADNIL is extended |
| CodeGenerator.FuncState.Discharge2Reg | lua-5.1.4/src/lcode.c:354-391 | The value of the expression is in the register and no other register has changed |
| CodeGenerator.FuncState.Discharge2AnyReg | lua-5.1.4/src/lcode.c:394-399 | The same for a register of the generator's choice |
| CodeGenerator.FuncState.TestAndJump | lua-5.1.4/src/lcode.c:74-77 | A run that was at the end is at the jump or behind it, as the test says |
| CodeGenerator.FuncState.InvertJump | lua-5.1.4/src/lcode.c:534-539 | The jump is taken exactly when it was not before |
| CodeGenerator.FuncState.JumpOnCond | lua-5.1.4/src/lcode.c:542-554 | A jump that a run takes exactly if the truth of the expression is the one asked for; OP_NOT in front is removed |
| CodeGenerator.FuncState.GoIfTrue | lua-5.1.4/src/lcode.c:557-582 | A run goes on exactly if the expression is true, and is otherwise at a jump of the false list |
| CodeGenerator.FuncState.GoIfFalse | lua-5.1.4/src/lcode.c:585-609 | A run goes on exactly if the expression is false, and is otherwise at a jump of the true list |
| CodeGenerator.FuncState.AlwaysJump | lua-5.1.4/src/lcode.c:565-568 | A constant condition: the jump is taken and the pending jumps go where it goes |
| CodeGenerator.FuncState.TakeJump | lua-5.1.4/src/lcode.c:597-599 | The jump of a comparison is used as it is |
| CodeGenerator.FuncState.RemoveValues | lua-5.1.4/src/lcode.c:144-147 | The tests that control the jumps of the list set no register any longer |
| CodeGenerator.FuncState.CodeReloc | lua-5.1.4/src/lcode.c:833-845 | An instruction whose register is still to be chosen |
| CodeGenerator.FuncState.CodeNot | lua-5.1.4/src/lcode.c:612-644 | The new expression has the opposite truth, with the two lists exchanged |
| CodeGenerator.FuncState.Exp2NextReg | lua-5.1.4/src/lcode.c:429-434 | The value is in the next register, which is the only one more in use and inside the frame |
| CodeGenerator.FuncState.Exp2AnyReg | lua-5.1.4/src/lcode.c:437-448 | The value is in some register; registers below those of the expression stay |
| CodeGenerator.FuncState.Exp2RK | lua-5.1.4/src/lcode.c:459-484 | The operand, a register of the frame or a constant that fits into nine bits, has the value of the expression, also when constants no longer fit |
| CodeGenerator.FuncState.ConstFolding | lua-5.1.4/src/lcode.c:653-676 | Folding happens only for two numerals, gives what the program would compute, and never NaN |
| CodeGenerator.FuncState.CodeArith | lua-5.1.4/src/lcode.c:679-696 | The expression has the value of the operation, folded or not, and the registers of both operands are free again, the later one first |
| CodeGenerator.FuncState.PrefixMinus | lua-5.1.4/src/lcode.c:715-724 | The expression has the negated value |
| CodeGenerator.FuncState.CodeComp | lua-5.1.4/src/lcode.c:699-712 | The jump is taken exactly if the comparison holds, with operands exchanged for > and >= |
| Conditions.LeafExp | lua-5.1.4/src/lparser.c:816-862 | The descriptor of a local variable or a constant stands for its value |
| Conditions.GenExp | lua-5.1.4/src/lparser.c:925-950 | The calls that subexpr makes for an arithmetic expression give a descriptor that has its value in every run, with the registers below unchanged |
| Conditions.ArithToNextReg | lua-5.1.4/src/lcode.c:429-434 | An arithmetic expression closed by luaK_exp2nextreg: its value is in the next register, no register below has changed, and exactly one more is in use. Every register that an instruction names is inside the frame, every argument can be encoded unless the parser has given up, and it has given up exactly if the frame, the constants or the code have exceeded their limits |
| Conditions.FirstOperand | lua-5.1.4/src/lcode.c:736-760 | The first operand keeps its value while the second one is compiled |
| Conditions.GenCond | lua-5.1.4/src/lparser.c:925-950 | The same for conditions: a run has found out whether the condition holds, or can read it off the descriptor |
| Conditions.GenCmp | lua-5.1.4/src/lcode.c:763-807 | The same for the six comparisons |
| Conditions.GenAnd | lua-5.1.4/src/lcode.c:736-771 | The same for `and`: what makes the first operand false skips the second |
| Conditions.GenOr | lua-5.1.4/src/lcode.c:736-778 | The same for `or` |
| Conditions.Condition | lua-5.1.4/src/lparser.c:1062-1069 | The emitted tests and jumps fall through exactly when the condition is true, and otherwise a run is at a jump of the false list; the code stays within the frame and the limits, or the parser has given up because one was exceeded |
| Conditions.IfThen | lua-5.1.4/src/lparser.c:1227-1259 | A run that comes to the statement gets to its body if the condition holds, and behind it otherwise, for every condition and initial registers; the code stays within the frame and the limits, or the parser has given up because one was exceeded |
| Patterns.BalanceEndMeaning | lua-5.1.4/src/lstrlib.c:282-299 | `%bxy` stops at the first place where as many `y` as `x` have been seen, and fails if there is none |
| Ways.FollowOk | lua-5.1.4/src/lstrlib.c:366-441 | Whatever way a pattern matches in, the end and the captures lie in the subject and captures are only added |
| Ways.FirstCount | lua-5.1.4/src/lstrlib.c:302-327 | The ending with the most preferred number of repetitions that leads to one is the first in priority order |
| Ways.AnswerUnique | lua-5.1.4/src/lstrlib.c:366-441 | At most one match, or error, is reached in a way that has priority over all others |
| Ways.AnswerInside | lua-5.1.4/src/lstrlib.c:366-441 | A match ends inside the subject, and so do its captures |
| PatternMatcher.MatchState.constructor | lua-5.1.4/src/lstrlib.c:506-515 | No captures at the start |
| PatternMatcher.MatchState.FindClassEnd | lua-5.1.4/src/lstrlib.c:203-224 | The end of a single-character item, or an error for a pattern that ends with % or lacks a bracket |
| PatternMatcher.MatchState.MatchBracketClass | lua-5.1.4/src/lstrlib.c:246-266 | Whether the set, complemented or not, accepts the character; what sets accept is stated in PatternTexts.SetMeaning |
| PatternMatcher.MatchState.SingleMatch | lua-5.1.4/src/lstrlib.c:269-276 | Whether the item accepts the character; what items accept is stated in PatternTexts.CharsMeaning |
| PatternMatcher.MatchState.MatchBalance | lua-5.1.4/src/lstrlib.c:282-299 | The end of the balanced text, and an error exactly if a delimiter is missing |
| PatternMatcher.MatchState.CaptureToClose | lua-5.1.4/src/lstrlib.c:195-200 | The last capture that is open, or an error if there is none |
| PatternMatcher.MatchState.DoStartCapture | lua-5.1.4/src/lstrlib.c:330-341 | What match must return at `(`; on failure the captures are as they were |
| PatternMatcher.MatchState.DoEndCapture | lua-5.1.4/src/lstrlib.c:344-352 | What match must return at `)`; on failure the capture is open again |
| PatternMatcher.MatchState.MatchBalancedItem | lua-5.1.4/src/lstrlib.c:380-384 | What match must return at `%b` |
| PatternMatcher.MatchState.MatchFrontier | lua-5.1.4/src/lstrlib.c:385-396 | What match must return at `%f` |
| PatternMatcher.MatchState.MatchReference | lua-5.1.4/src/lstrlib.c:397-402 | What match must return at a back reference |
| PatternMatcher.MatchState.MatchItem | lua-5.1.4/src/lstrlib.c:415-439 | What match must return at a single character, perhaps repeated |
| PatternMatcher.MatchState.MatchOptional | lua-5.1.4/src/lstrlib.c:419-424 | What match must return at `?` |
| PatternMatcher.MatchState.LongestRun | lua-5.1.4/src/lstrlib.c:304-306 | The largest number of characters that the item accepts |
| PatternMatcher.MatchState.MaxExpand | lua-5.1.4/src/lstrlib.c:302-314 | What match must return at `*` and `+`: the longest repetition first |
| PatternMatcher.MatchState.MinExpand | lua-5.1.4/src/lstrlib.c:317-327 | What match must return at `-`: the shortest repetition first |
| PatternMatcher.MatchState.Match | lua-5.1.4/src/lstrlib.c:366-441 | A match exactly if the pattern has some way to match before any way that leads to an error, with the end and the captures of the first way in priority order; an error exactly if a way to a malformed item, to too many captures or to a capture that is not there comes first; no match leaves the captures as they were; it terminates |
| PatternMatcher.MatchState.FindFirst | lua-5.1.4/src/lstrlib.c:513-528 | The first start at which the pattern matches or fails with an error, and only `init` for an anchored pattern; none before it matches |
| Upvalues.ReadsCell | lua-5.1.4/src/lvm.c:464-468 | Reading through an upvalue reads the cell of its variable |
| Upvalues.FoundOpen | lua-5.1.4/src/lfunc.c:57-65 | The open upvalue of a slot is the only upvalue of its variable |
| Upvalues.ClosedFirst | lua-5.1.4/src/lfunc.c:99-111 | Closing one upvalue changes no value that is read through any upvalue, and keeps the open list strictly decreasing |
| Upvalues.Shortened | lua-5.1.4/src/lvm.c:756-759 | Once its upvalues are closed, slots can be given up |
| Upvalues.LocalWritten | lua-5.1.4/src/lvm.c:444-447 | Writing a local variable is writing its cell |
| Upvalues.UpvalWritten | lua-5.1.4/src/lvm.c:488-493 | Writing through a closed upvalue is writing the cell of its variable |
| Upvalues.Thread.constructor | lua-5.1.4/src/lstate.c:92-110 | No variables, closures and upvalues |
| Upvalues.Thread.FindUpval | lua-5.1.4/src/lfunc.c:53-79 | The one upvalue of the variable in the slot, found or created; the open list stays strictly decreasing with one upvalue for each slot |
| Upvalues.Thread.Close | lua-5.1.4/src/lfunc.c:96-112 | No value that is read through an upvalue changes, and no open upvalue is left at or above the level |
| Upvalues.Thread.ReadUpval | lua-5.1.4/src/lvm.c:464-468 | The value of the captured variable's cell |
| Upvalues.Thread.WriteUpval | lua-5.1.4/src/lvm.c:488-493 | The captured variable's cell is written, for all who share it |
| Upvalues.Thread.NewClosure | lua-5.1.4/src/lvm.c:760-779 | The new closure shares the cells of the variables that it captures |
| Upvalues.Thread.ExitBlock | lua-5.1.4/src/lvm.c:756-759 | Variables go out of scope; the cells stay for the closures |
| Upvalues.Thread.Perform | lua-5.1.4/src/lvm.c:444-779 | Every operation does what it would do if each local variable were one heap cell |
| Upvalues.Run | lua-5.1.4/src/lvm.c:444-779 | Over any run of local writes, closure creations, upvalue reads and writes and block exits, every read gives what one cell for each variable would give |
| Chunks.FunctionBack | lua-5.1.4/src/lundump.c:196-218 | Loading what DumpFunction wrote rebuilds the prototype with all that are nested in it and leaves what follows, exactly if the nesting is within LUAI_MAXCCALLS; beyond it, the error says so |
| Chunks.RoundTrip | lua-5.1.4/src/lundump.c:238-252 | The whole chunk comes back, with or without strip, exactly if its nesting is within LUAI_MAXCCALLS |
| Chunks.RestoredSame | lua-5.1.4/src/ldump.c:132-144 | Without strip what comes back is equal, source names inherited from the parent included |
| Chunks.RestoredStripped | lua-5.1.4/src/ldump.c:114-144 | With strip what comes back is the same tree without debug data and with the default source name |
| Dumper.DumpState.constructor | lua-5.1.4/src/ldump.c:162-170 | Nothing written yet and no error |
| Dumper.DumpState.DumpBlock | lua-5.1.4/src/ldump.c:29-37 | The block goes to the writer, whose answer is the new status; after an error nothing is written |
| Dumper.DumpState.DumpChar | lua-5.1.4/src/ldump.c:39-43 | One byte |
| Dumper.DumpState.DumpInt | lua-5.1.4/src/ldump.c:45-48 | Four bytes in two's complement |
| Dumper.DumpState.DumpSize | lua-5.1.4/src/ldump.c:61-74 | Eight bytes |
| Dumper.DumpState.DumpVector | lua-5.1.4/src/ldump.c:55-59 | The count and the words |
| Dumper.DumpState.DumpString | lua-5.1.4/src/ldump.c:61-74 | Size 0 for no string, else the size with the final zero and the bytes |
| Dumper.DumpState.DumpConstant | lua-5.1.4/src/ldump.c:84-105 | The type and the value |
| Dumper.DumpState.DumpValues | lua-5.1.4/src/ldump.c:80-105 | The count and all constants |
| Dumper.DumpState.DumpNested | lua-5.1.4/src/ldump.c:106-108 | The count and all nested prototypes |
| Dumper.DumpState.DumpLocVar | lua-5.1.4/src/ldump.c:121-126 | One local variable |
| Dumper.DumpState.DumpLocVars | lua-5.1.4/src/ldump.c:119-126 | The count and all local variables |
| Dumper.DumpState.DumpNames | lua-5.1.4/src/ldump.c:127-129 | The count and all upvalue names |
| Dumper.DumpState.DumpDebug | lua-5.1.4/src/ldump.c:114-130 | The debug data, or three empty lists with strip |
| Dumper.DumpState.DumpHead | lua-5.1.4/src/ldump.c:132-140 | The source name, unless it is inherited or stripped, and the numbers |
| Dumper.DumpState.DumpFunction | lua-5.1.4/src/ldump.c:132-144 | The whole prototype tree |
| Dumper.DumpChunk | lua-5.1.4/src/ldump.c:162-175 | With status 0 the whole chunk was written; any other status is what the writer answered to a block of the chunk, after a prefix of it |
| Undumper.Zio.constructor | lua-5.1.4/src/lzio.c:50-56 | The unread bytes are what the blocks hold, up to the first empty one |
| Undumper.Zio.Fill | lua-5.1.4/src/lzio.c:23-34 | The first byte of the next block, or the end of the stream exactly if nothing is left |
| Undumper.Zio.LookAhead | lua-5.1.4/src/lzio.c:37-47 | The next byte, which stays unread |
| Undumper.Zio.Read | lua-5.1.4/src/lzio.c:60-73 | Exactly the next bytes, across any block borders, or all that were left and exactly how many are missing |
| Undumper.LoadState.constructor | lua-5.1.4/src/lundump.c:238-248 | Loading begins with the whole stream |
| Undumper.LoadState.LoadBlock | lua-5.1.4/src/lundump.c:55-59 | The next bytes, or an error exactly if the stream ends before |
| Undumper.LoadState.LoadByte | lua-5.1.4/src/lundump.c:64-69 | One byte |
| Undumper.LoadState.LoadInt | lua-5.1.4/src/lundump.c:74-80 | An integer, or an error if it is negative |
| Undumper.LoadState.LoadString | lua-5.1.4/src/lundump.c:95-107 | No string for size 0, else the bytes without the final zero |
| Undumper.LoadState.LoadCode | lua-5.1.4/src/lundump.c:112-118 | As many words as the count says |
| Undumper.LoadState.LoadConstant | lua-5.1.4/src/lundump.c:136-155 | A constant of a known type, or an error |
| Undumper.LoadState.LoadLocVar | lua-5.1.4/src/lundump.c:181-183 | One local variable |
| Undumper.LoadState.LoadValues | lua-5.1.4/src/lundump.c:126-156 | All constants |
| Undumper.LoadState.LoadLocVars | lua-5.1.4/src/lundump.c:174-184 | All local variables |
| Undumper.LoadState.LoadNames | lua-5.1.4/src/lundump.c:185-190 | All upvalue names |
| Undumper.LoadState.LoadDebug | lua-5.1.4/src/lundump.c:167-191 | The debug data |
| Undumper.LoadState.LoadHead | lua-5.1.4/src/lundump.c:203-209 | The source name, that of the parent if there is none, and the numbers |
| Undumper.LoadState.LoadNested | lua-5.1.4/src/lundump.c:157-161 | All nested prototypes, with the source name as theirs to inherit |
| Undumper.LoadState.LoadFunction | lua-5.1.4/src/lundump.c:196-218 | The prototype that the bytes describe, or the error that they call for, nesting limit included |
| Undumper.Undump | lua-5.1.4/src/lundump.c:238-252 | The prototype or error that the concatenated blocks stand for, however they are cut |
| Undumper.Reload | lua-5.1.4/src/lundump.c:238-252 | A dumped chunk delivered in non-empty blocks of any sizes is undumped to an equal prototype tree; stripped, to the same tree without debug data; and it is refused exactly if its nesting exceeds LUAI_MAXCCALLS |
| QuotedStrings.AddQuoted | lua-5.1.4/src/lstrlib.c:697-724 | The quoted form of the string is appended to the buffer |
| QuotedStrings.ScanEscapedByte | lua-5.1.4/src/llex.c:337-384 | Each byte, escaped, is read back as itself; only newlines count lines |
| QuotedStrings.QuotedBack | lua-5.1.4/src/llex.c:335-388 | Reading what was quoted gives the string again and advances the line number by its newlines; it fails exactly if the string has newlines and the line number would reach MAX_INT |
| QuotedStrings.LexState.constructor | lua-5.1.4/src/llex.c:173-184 | The first character is current and nothing is saved |
| QuotedStrings.LexState.Next | lua-5.1.4/src/llex.c:29 | The next character of the stream, or its end |
| QuotedStrings.LexState.Save | lua-5.1.4/src/llex.c:57-68 | The character is appended to the buffer |
| QuotedStrings.LexState.SaveAndNext | lua-5.1.4/src/llex.c:51 | Both |
| QuotedStrings.LexState.IncLineNumber | lua-5.1.4/src/llex.c:158-167 | One line break, which may be two different characters, is skipped and counted; an error exactly at MAX_INT lines |
| QuotedStrings.LexState.ReadDecimal | lua-5.1.4/src/llex.c:363-369 | The value of one to three decimal digits, as many as there are |
| QuotedStrings.LexState.ReadEscape | lua-5.1.4/src/llex.c:346-380 | The character that the escape stands for is saved, or the error that it calls for; what escapes stand for is stated in StringLiterals.PieceRead |
| QuotedStrings.LexState.ReadString | lua-5.1.4/src/llex.c:335-388 | For every input and delimiter, the value, the rest of the input and the line number, or the error |
| QuotedStrings.QuoteAndRead | lua-5.1.4/src/lstrlib.c:697-724 | The two together, whatever follows the literal |
| Expressions.ReadBack | lua-5.1.4/src/lparser.c:925-950 | Where an expression fits between the limit and the next operator, subexpr reads back its printed form and stops behind it, exactly if the nesting is within LUAI_MAXCCALLS |
| Expressions.ExprBack | lua-5.1.4/src/lparser.c:953-955 | expr reads back every expression tree |
| Expressions.ReadBackExactly | lua-5.1.4/src/lparser.c:904-950 | The printed form without outer parentheses is read back exactly where left priority, right priority and UNARY_PRIORITY allow it |
| Expressions.OperatorsStop | lua-5.1.4/src/lparser.c:937-947 | The loop stops at the first operator whose left priority is not above the limit |
| Expressions.SubExprStops | lua-5.1.4/src/lparser.c:925-950 | subexpr leaves no operator whose left priority is above the limit |
| Expressions.Shortest | lua-5.1.4/src/lparser.c:904-950 | No shorter text is read as the same tree: the printed form has only the parentheses that the priorities require |
| ExpressionParser.LexState.constructor | lua-5.1.4/src/lparser.c:465-473 | The first token is current |
| ExpressionParser.LexState.Next | lua-5.1.4/src/llex.c:511-520 | The next token is current |
| ExpressionParser.LexState.SubExpr | lua-5.1.4/src/lparser.c:925-950 | The tree that the tokens stand for, the tokens that are left, and the first operator among them; errors as they come, the level restored; how operators group is stated in OperatorGroups.Grouped |
| ExpressionParser.LexState.ReadExpr | lua-5.1.4/src/lparser.c:953-955 | The same for a whole expression |
| ExpressionParser.LexState.ReadOperand | lua-5.1.4/src/lparser.c:929-935 | A unary operator with its operand, or a simple expression |
| ExpressionParser.LexState.ReadPrimary | lua-5.1.4/src/lparser.c:776-809 | A prefix expression with its fields, indices and calls |
| ExpressionParser.LexState.ReadPrefix | lua-5.1.4/src/lparser.c:753-773 | A name, or an expression in parentheses; anything else is an error |
| ExpressionParser.LexState.FuncArgs | lua-5.1.4/src/lparser.c:695-709 | The arguments of a call, perhaps none |
| ExpressionParser.LexState.ExpList1 | lua-5.1.4/src/lparser.c:681-692 | One or more expressions |
| ExpressionParser.PrintAndParse | lua-5.1.4/src/lparser.c:953-955 | Parsing a printed expression gives the same tree, unless it is nested too deeply |
| Quicksort.PermutedFrom | lua-5.1.4/src/ltablib.c:193-254 | Elements permuted among themselves keep every bound that all of them satisfy |
| Quicksort.Swap | lua-5.1.4/src/ltablib.c:173-176 | Two slots are exchanged |
| Quicksort.OrderEnds | lua-5.1.4/src/ltablib.c:196-202 | The first and the last element are in order |
| Quicksort.MedianOfThree | lua-5.1.4/src/ltablib.c:204-216 | The first, the middle and the last element are in order |
| Quicksort.Pivot | lua-5.1.4/src/ltablib.c:204-221 | The median is next to the last slot, between the first and the last element |
| Quicksort.ScanUp | lua-5.1.4/src/ltablib.c:225-229 | The search stops inside the array, so that the error is not raised |
| Quicksort.ScanDown | lua-5.1.4/src/ltablib.c:230-235 | The same downwards |
| Quicksort.Partition | lua-5.1.4/src/ltablib.c:222-244 | The pivot is in its place, nothing before it is greater and nothing behind it is smaller |
| Quicksort.Divide | lua-5.1.4/src/ltablib.c:204-244 | The same together with the choice of the pivot |
| Quicksort.AuxSort | lua-5.1.4/src/ltablib.c:193-254 | A sorted permutation for every strict weak order, with calls nested at most 1 + log2(n) deep |
| Quicksort.Sort | lua-5.1.4/src/ltablib.c:256-264 | The slots 1..n are a sorted permutation of what they were |
| Marking.TableLeftMeaning | lua-5.1.4/src/lgc.c:337-375 | What cleartable leaves of a weak table: nil for each weak array value that does not stay, and just the entries of which key and value stay |
| Places.MarkIsStrong | lua-5.1.4/src/lgc.c:158-196 | Marking goes along strong references, and from a weak table only to strings |
| Sweeps.UdataKeptTrans | lua-5.1.4/src/lgc.c:407-428 | Sweeping adds no userdata and keeps those that are left in their order |
| States.FinalizersOnceNow | lua-5.1.4/src/lgc.c:128-155 | Just those userdata are flagged that are put on the list, in the order in which they are linked; if none waited before, none of them is reached by the roots |
| States.TablesClearedNow | lua-5.1.4/src/lgc.c:351-375 | After the atomic step every table on the weak list holds just what stays |
| States.RootsReached | lua-5.1.4/src/lgc.c:529-539 | When the userdata are separated, everything that the roots reach strongly has been marked, if none waited before |
| Marking.WeakListedNow | lua-5.1.4/src/lgc.c:158-196 | When nothing is left to traverse, the marked weak tables are just those on the weak list, unless one was black |
| Collections.SteppedWeak | lua-5.1.4/src/lgc.c:337-375 | After the step that ends the marking no table on the weak list holds a finalized userdata as a weak array value or as the value of an entry, nor anything unmarked; an entry whose key is marked, finalized or not, and whose value is not collectable stays |
| Collections.TablesSwept | lua-5.1.4/src/lgc.c:351-375 | After the sweep a weak table has exactly the entries whose key is left in the heap and whose value is left and is no finalized userdata; other tables are unchanged |
| Collections.FinalizersSwept | lua-5.1.4/src/lgc.c:128-155 | After the sweep all userdata with a finalizer are still there; those that the roots do not reach are on the list and flagged, and, if none waited before, the others still have their finalizer |
| Collections.CollectsStep | lua-5.1.4/src/lgc.c:557-608 | One step of a complete collection keeps what is known about its marking: before its end only what the roots reach is marked, and no weak table is black |
| Collections.HandingStep | lua-5.1.4/src/lgc.c:446-470 | Each of the last steps calls the finalizer of the next userdata of the list, in order, and changes nothing else |
| Collections.CollectedThenCalled | lua-5.1.4/src/lgc.c:437-470 | At the end the running thread has got exactly the userdata whose finalizers are due, those linked first first |
| Collector.GlobalState.CallFinalizers | lua-5.1.4/src/lgc.c:593-605 | All waiting finalizers are called in the order of the list, each with its userdata on the stack of the running thread, and the cycle ends |
| TableValues.BestSizeMeaning | lua-5.1.4/src/ltable.c:187-211 | More than half of the slots of the array part are for keys that are present, and of no larger power of two would be |
| TableValues.ConsecutiveKeys | lua-5.1.4/src/ltable.c:187-211 | For the keys 1..n, and no other positive integers, the best size is the least power of two that is not less than n |
| TableRuns.References.UseAgain | lua-5.1.4/src/lauxlib.c:483-514 | A reference that was given up is the next one to be handed out |
| CodeGenerator.FuncState.Limits | lua-5.1.4/src/lcode.c:199-206 | No instruction names a register outside the frame; while the parser has not given up, the frame is below MAXSTACK and every argument fits; it gives up only when a limit is exceeded |
| CodeGenerator.FuncState.FalseJump | lua-5.1.4/src/lcode.c:557-582 | The jump that leaves a condition when it is false |
| CodeGenerator.FuncState.TrueJump | lua-5.1.4/src/lcode.c:585-609 | The jump that leaves a condition when it is true |
| CodeGenerator.FuncState.FreeInOrder | lua-5.1.4/src/lcode.c:679-696 | The registers of both operands are free again, the later one first |
| Conditions.Body | lua-5.1.4/src/lparser.c:1227-1259 | The instructions of the body, behind the condition |
| PatternTexts.ClassMeaning | lua-5.1.4/src/lstrlib.c:226-243 | The letters a c d l p s u w x z name classes and their upper-case letters exactly the complements; any other character behind % stands for itself |
| PatternTexts.SetMeaning | lua-5.1.4/src/lstrlib.c:246-266 | A set accepts a character exactly if one of its elements does, single characters, ranges with both ends, or classes; with ^ exactly if none does |
| PatternTexts.CharsMeaning | lua-5.1.4/src/lstrlib.c:203-276 | A dot, a character, a class or a set: its text ends where classend says, and it accepts just the characters that it stands for |
| PatternMeanings.BalanceMeaning | lua-5.1.4/src/lstrlib.c:282-299 | What %bxy matches begins with x and ends at the first place where as many y as x have been seen; it fails exactly if there is none |
| PatternMeanings.BalanceSame | lua-5.1.4/src/lstrlib.c:282-299 | With the same delimiter twice, the next one ends the match |
| PatternMeanings.FollowMeaning | lua-5.1.4/src/lstrlib.c:366-441 | A pattern that is written with pieces matches in a given way exactly what the pieces match: characters and repetitions with their counts, captures, positions, balanced texts, borders and repeated captures |
| PatternMeanings.AnswerMeaning | lua-5.1.4/src/lstrlib.c:366-441 | What match returns for the text of the pieces is their best reading: at the first repetition where two readings differ, the longer one, or the shorter one for a hyphen |
| PatternMeanings.WellFormedMeaning | lua-5.1.4/src/lstrlib.c:330-352 | Such a pattern is well formed exactly if captures are closed after they are opened, referred to after they are closed, and not too many |
| PatternMeanings.RepeatAlone | lua-5.1.4/src/lstrlib.c:302-327 | Behind a single-character item, * takes all n characters that it accepts, + too but at least one, ? at most one, and - none |
| PatternMeanings.LiteralReads | lua-5.1.4/src/lstrlib.c:415-439 | A text without magic characters matches exactly where it occurs |
| PatternMeanings.CaptureReads | lua-5.1.4/src/lstrlib.c:330-352 | Parentheses capture the text that is matched between them |
| PatternSearches.FindPieces | lua-5.1.4/src/lstrlib.c:506-528 | For every pattern written with pieces, anchored or not: the first position at which they match or lead to an error, with the best reading there; no error if the captures are in order |
| PatternSearches.FindText | lua-5.1.4/src/lstrlib.c:506-528 | A pattern without magic characters is found exactly where the text occurs first |
| PatternSearches.UnfinishedFails | lua-5.1.4/src/lstrlib.c:203-224 | A pattern that ends with %, lacks the bracket of a set, the characters of %b or the set of %f is an error wherever the search comes to it |
| ChunkFormat.FourBytes | lua-5.1.4/src/ldump.c:45-59 | Integers and instructions are four bytes, the lowest first |
| ChunkFormat.HeaderBytes | lua-5.1.4/src/lundump.c:260-273 | A chunk begins with the signature, the version 0x51, the format 0, and the sizes 4, 8, 4 and 8 of a little-endian machine whose numbers are not integers |
| ChunkFormat.StringBytes | lua-5.1.4/src/ldump.c:61-74 | A string is its length with the zero, in eight bytes, and its characters with a zero; NULL is the length zero |
| ChunkFormat.ConstantBytes | lua-5.1.4/src/ldump.c:84-105 | The tags of the constants are 0, 1, 3 and 4 |
| ChunkFormat.SmallFunction | lua-5.1.4/src/ldump.c:132-144 | All the bytes of a function with one instruction |
| ChunkFormat.DefaultName | lua-5.1.4/src/lundump.c:238-252 | A chunk without source name gets the name =? |
| ChunkErrors.HeaderChecked | lua-5.1.4/src/lundump.c:223-230 | Any stream that does not begin with this header is refused as having a bad header, or as ending unexpectedly if it is too short |
| ChunkErrors.CountChecked | lua-5.1.4/src/lundump.c:74-80 | A count with its highest bit set is a bad integer |
| ChunkErrors.TagChecked | lua-5.1.4/src/lundump.c:136-155 | Any other tag is a bad constant |
| ChunkErrors.CutShort | lua-5.1.4/src/lundump.c:55-59 | The first bytes of any stream that loads load to the same prototype if they contain the chunk, and otherwise fail because the end is unexpected |
| ChunkErrors.DumpedCutShort | lua-5.1.4/src/lundump.c:55-59 | No dumped chunk can lose its end unnoticed |
| StringLiterals.LetterRead | lua-5.1.4/src/llex.c:346-357 | A backslash and the i-th letter of abtnvfr read as the byte 7 + i |
| StringLiterals.OtherRead | lua-5.1.4/src/llex.c:358-361 | A backslash and any other character that is no digit and no line break read as that character |
| StringLiterals.DigitsRead | lua-5.1.4/src/llex.c:362-374 | A backslash and one to three digits read as the number that they denote, which is an error above 255 |
| StringLiterals.LineBreakRead | lua-5.1.4/src/llex.c:355-356 | A backslash and a line break, of one or two characters, read as a newline and count a line |
| StringLiterals.PieceRead | lua-5.1.4/src/llex.c:335-388 | Each piece of a literal reads as what it means, whatever follows it |
| StringLiterals.LiteralRead | lua-5.1.4/src/llex.c:335-388 | Every literal reads as the sequence of what its pieces mean, or fails at the first one that cannot be read |
| StringLiterals.UnfinishedRead | lua-5.1.4/src/llex.c:338-345 | A literal must not end with the text or the line |
| StringLiterals.ReadWritten | lua-5.1.4/src/llex.c:335-388 | The same for read_string on every literal, with the rest of the text and the line number |
| StringLiterals.QuotedText | lua-5.1.4/src/lstrlib.c:697-724 | How %q writes each character: quotes, backslashes and newlines behind a backslash, \r and \000 for two more, the others as they are |
| OperatorGroups.PrioritiesAgree | lua-5.1.4/src/lparser.c:904-915 | The priority table orders operators as section 2.5.6 of the reference manual does |
| OperatorGroups.Grouped | lua-5.1.4/src/lparser.c:904-950 | subexpr groups every chain of operators and operands as that section says: the operator of the lowest rank is applied last, the last of these, or the first for .. and ^; unary operators bind weaker than ^ and stronger than all others |
| OperatorGroups.TwoOperators | lua-5.1.4/src/lparser.c:904-950 | Of two operators the one of the higher rank is applied first; within a rank the left one, except for .. and ^ |
| OperatorGroups.UnaryAndBinary | lua-5.1.4/src/lparser.c:904-950 | A unary operator is applied after ^ and before all other operators |
| ExpressionParser.ParseChain | lua-5.1.4/src/lparser.c:925-955 | The same for the parser, on every chain |
| Primaries.Suffixed | lua-5.1.4/src/lparser.c:776-809 | A name behind a dot, an index in brackets and arguments in parentheses are applied to the prefix expression in front of them |
| Primaries.Enclosed | lua-5.1.4/src/lparser.c:753-773 | Parentheses around an expression do not change it |
| Primaries.EnclosedPrefix | lua-5.1.4/src/lparser.c:753-809 | What follows the parentheses is applied to the expression in them |
| Primaries.NoExpression | lua-5.1.4/src/lparser.c:753-773 | What begins with no unary operator, literal, name or parenthesis is an unexpected symbol |
| Primaries.Unclosed | lua-5.1.4/src/lparser.c:753-773 | A parenthesis that is not closed is an error that names the token expected |
| Primaries.UnclosedIndex | lua-5.1.4/src/lparser.c:776-809 | So is a bracket |
| Primaries.NoName | lua-5.1.4/src/lparser.c:776-809 | A dot must be followed by a name |

## Left out

- The standard libraries other than the parts named above, the C API, `lua.c`, `luac.c`, hooks, coroutines as such,
  `setjmp`/`longjmp`, memory errors and stack reallocation.
- Collector: dead-key tagging, the resizing of the string table and of stacks (`checkSizes`, `checkstacksizes`), pacing
  (threshold, estimate, debt), `luaC_freeall`, and what finalizers do, which is whatever the program does next.
- Collector: `lua_setupvalue`, whose barrier names the closure and not the upvalue, and `lua_setfenv` on threads. A new
  closure is linked after its upvalues have been found, without a collector step in between.
- Collector: the metamethod-absent flags. A weak mode and a finalizer are fields of the object, not looked up in its
  metatable, so that a write to a metatable which changes the mode of other tables is as many writes in the model.
- Collections.CollectedThenCalled: finalizers are called in the order of the list of userdata. `Program.LinkUdata` puts
  new userdata in front, a sweep keeps the order, and userdata that are put back in front have been finalized; that the
  order is therefore the reverse order of creation is not stated over a run.
- Writes.BlackSettled: excepts waiting userdata; where the exception matters is said by `Collector.GlobalState.MarkRoot`.
- Program.NewClosure: says which upvalues a closure gets; that these stand for the right variables is stated in
  `Upvalues`, whose model has no collector.
- Program.Close: states contents and liveness; that open upvalues are ordered by slot is stated in `Upvalues`.
- Collector.GlobalState.MarkMt: like the other marking methods, says what is marked and what is kept, and leaves open in
  which order the gray list is filled.
- LuaTables.Table.constructor: for sizes up to 2^MAXBITS; larger ones are a memory or overflow error or are never asked
  for.
- LuaTables.Table.ResizeArray: only for growing, which is how it is called.
- Tables: barriers (see the collector), metatables, the flags of absent metamethods, and sizes that do not fit into an int
  before 2^MAXBITS is reached.
- TableRuns.References.Unref: only for outstanding references and negative ones, which is what the manual asks for.
- Code generator: `and` and `or` as values (`exp2reg` with pending jumps, `need_value`, `code_label`, `luaK_patchlist` to
  other targets than the next instruction), since values are not preserved there for constant operands; calls, varargs,
  upvalues, globals, indexed variables and concatenation; line information.
- CodeGenerator.FuncState.FixJump: exceeding a limit sets the flag `failed` instead of leaving the parser; the contracts
  hold whether or not it is set.
- CodeGenerator.FuncState.Exp2NextReg: only for descriptors without pending jumps; see `and` and `or` as values above.
- CodeGenerator.FuncState.Exp2AnyReg: only for descriptors without pending jumps.
- CodeGenerator.FuncState.Exp2RK: only for descriptors without pending jumps.
- CodeGenerator.FuncState.PatchListAux: with the register NO_REG and one destination, which is all that conditions need.
- Expression descriptors are values that the methods return, not structures that they overwrite. Metamethods and errors of
  arithmetic are what the abstract arithmetic returns.
- Matcher: character classes that depend on the locale are a parameter; `goto init` is a recursive call; `gsub`, `gmatch`
  and plain search.
- PatternMatcher.MatchState.FindFirst: without the conversion of `init` and without pushing the captures, which is where
  a capture that was never closed is found.
- Chunks: sizes of int, size_t and numbers are those of a 64-bit little-endian machine, numbers are opaque eight-byte
  values, and `luaG_checkcode` is an arbitrary predicate. `zgetc` after the end of the stream is not used.
- Undumper.Reload: for chunks whose line numbers are not negative, as the format requires.
- Lexer: only string literals; the limit on the length of a token; converting the buffer into a string object.
- Parser: only expressions of constants, names, fields, indices and calls with arguments in parentheses on one line.
  String and table arguments, string literals (which may be such arguments), method calls, table constructors and
  function bodies are left out. Code generation for expressions is the subject of `Conditions`.
- Quicksort.Sort: the order is a pure function, so that it does not change the table while it is being sorted.
