# Robot firmware, vision and Lua core, verified

A Dafny model of the parts of this repository whose correctness rests on more than one function
at a time: the Lua 5.1.4 core it embeds, the image code that finds regions and balls, and the
byte protocol between the controller and its servos. Code that changes things step by step is
modelled as methods on classes or loops over vectors, and each of these is proved against a
specification function; what the code is for is then proved about those functions.

`dafny verify dfyconfig.toml` checks the whole project.

- **Bytecode checker** (`Opcodes`, `CodeChecker`, `CheckerExact`). The symbolic execution that loads
  precompiled code accepts exactly the code whose every instruction is good for the interpreter, and
  no run of the interpreter over accepted code leaves the code, executes a count word or uses an
  operand out of range. The interpreter skips on any nonzero C of LOADBOOL while the checker tests C == 1 only;
  the exact condition under which that is harmless is proved, for one run and for all, with a
  counterexample beside it.
- **Garbage collector** (`GcHeap`, `GcMark`, `GcPropagate`, `GcSweep`, `GcCycle`, `GcFull`,
  `GcMutator`, `GcRuns`, `GcProgram`, `Collector`). A state machine of program and collector actions
  over a heap with two whites. In every interleaving the heap holds all that the program can reach in
  the plain graph it has built, with those references; a full collection ends and frees everything
  else. Every in-place operation of the collector refines a function of the state machine.
- **Code generator** (`Options`, `LuaVm`, `JumpPatch`, `CodeGen*`, `JumpLists`, `FuncState`,
  `GeneratedCode`, `CompiledFunction`). Compiler correctness for `and`, `or`, `not` and comparisons over locals and
  constants: first on code with explicit lists of pending jumps, then for the generator that
  threads the lists through the offsets of the jumps, down to the stored instructions. A literal
  boolean or a negated constant makes the generator emit a bare jump that takes over the jumps
  pending to it. The jumps taken over are followed through the whole expression: its value is right
  when none of them is left with a value where the lists are closed, which is exact for each list;
  conditions go the right way whatever was taken over. An expression that is compiled wrongly is given.
  The bytecode checker accepts what is stored.
- **Tables** (`Powers`, `HashPart`, `TableSizes`, `LuaTable`, `References`). Array part and chained scatter
  table with Brent's variation refine a map of all keys; rehash gives the array part the largest
  size that is more than half used, and the keys put in again never cause another rehash;
  traversal meets each key once; the length is a border; over all runs of calls references form a
  stack of free ones, and giving back is safe exactly for references in use.
- **Regions** (`PixelGraph`, `EquivalenceTable`, `RegionProps`, `ConnectRegions`). Two-pass
  labelling finds exactly the connected components, with areas, boxes and sums. The north-east
  neighbour is bounded by the height where the width is meant; the image sizes for which the result
  is 8-connectivity are characterised exactly.
- **Colour clusters** (`FloodFill`, `ClusterClosure`). The growing queue fills exactly the
  4-connected regions of one label and its corner rule yields tight boxes; the grouping of clusters
  ends with a group whose members belong together and are never apart.
- **Strings and patterns** (`PatternMatch`, `PatternOrder`, `PatternClass`, `MatchState`). The
  backtracking matcher decides the language of a pattern, captures, balanced parts, frontiers and
  references to captures included; of all ways to match it takes the first in the order of the manual,
  and failures put level and captures back.
- **Sorting, priorities, captured variables** (`TableSort`, `SubExpr`, `OpenUpvalues`). Quicksort in
  place for any strict weak order, with its depth of calls; precedence climbing against a printer
  that writes only the parentheses that the manual's ranking of the operators demands; open upvalues, in all runs with collections in
  between, against a store with one cell for each variable.
- **Precompiled chunks** (`BinaryChunk`, `ChunkFormat`, `ChunkReader`, `ChunkWriter`). What is dumped
  loads back as the same tree, exactly if the checker accepts every function and the nesting is
  allowed, however the bytes are cut into pieces; what stands where in the bytes is said of the dump
  and of the load separately.
- **Servo protocol** (`Dynamixel`, `SerialLine`). Frames written byte by byte and read back through
  a circular buffer between an interrupt and the polling loop: at any moment the frames delivered
  are a prefix of the undamaged frames sent, damage to one byte loses one frame, and after a pause
  the parser is in step again whatever it has read, unless it has taken a byte for a length above
  252.

## Model

| member | source | states |
|---|---|---|
| `CodeChecker.CheckCode` | Lib/Lua/src/ldebug.c:484-486 | accepts exactly the prototypes that `Accepts` describes position by position, which `AcceptsIff` says in terms of the interpreter |
| `CodeChecker.SymbExec` | Lib/Lua/src/ldebug.c:317-475 | the linear scan is equivalent to the quantified acceptance condition over all executable positions, and the word it hands back is not zero |
| `CodeChecker.CheckInstruction` | Lib/Lua/src/ldebug.c:323-472 | the checks made at one position are exactly the per-instruction condition |
| `CodeChecker.CheckClosure` | Lib/Lua/src/ldebug.c:450-462 | the loop over the captured variables accepts exactly complete capture lists inside the code |
| `CodeChecker.JumpsToCount` | Lib/Lua/src/ldebug.c:345-361 | the backward walk from a jump target returns an odd number exactly when the target is a count word |
| `CodeChecker.RunParity` | Lib/Lua/src/ldebug.c:350-360 | the parity argument: behind a run of j look-alikes a position is a count word exactly when j is odd |
| `CodeChecker.StepsStayInsideIff` | Lib/Lua/src/ldebug.c:374-381 | in accepted code every interpreter step stays on executable positions if and only if every LOADBOOL with C > 1 skips onto one, which the checker does not test |
| `CodeChecker.OneStep` | Lib/Lua/src/lvm.c:411-760 | one step of the interpreter from an executable position of accepted code lands on one |
| `CodeChecker.AcceptedRunsAreSafe` | Lib/Lua/src/ldebug.c:276-475 | a run of accepted code stays inside the code, executes no count word and uses only registers, constants, upvalues and prototypes in range, if and only if every LOADBOOL with C > 1 on its way skips onto an instruction |
| `CodeChecker.AllRunsSafeIff` | Lib/Lua/src/ldebug.c:374-381 | all runs of accepted code are safe if and only if every such LOADBOOL that some run reaches skips onto an instruction |
| `CodeChecker.OpenResultsAreTaken` | Lib/Lua/src/ldebug.c:287-301 | in every run an instruction that leaves values up to the top is followed by one that takes them |
| `CodeChecker.OperandsOk` | Lib/Lua/src/ldebug.c:323-472 | at every executable position of accepted code the operands the interpreter computes are in range |
| `CodeChecker.LongSkipCounterexample` | Lib/Lua/src/lvm.c:411-415 | accepted code with C == 2 in a LOADBOOL whose run lands on a count word: the checker tests C == 1, the interpreter any nonzero C |
| `CheckerExact.AcceptsIff` | Lib/Lua/src/ldebug.c:276-475 | the checker accepts a prototype if and only if its header fits and at every executable position the operands that the interpreter computes are in range, its steps land on instructions (but for a LOADBOOL with C > 1), open results are taken, and the fields it does not read are tidy: neither more nor less is asked |
| `CheckerExact.GoodPasses` | Lib/Lua/src/ldebug.c:323-472 | an instruction that is good for the interpreter in this sense passes every check of its position, opcode by opcode |
| `CheckerExact.AcceptedGood` | Lib/Lua/src/ldebug.c:323-472 | in accepted code every executable instruction is good in this sense |
| `CheckerExact.LoopAccepted` | Lib/Lua/src/ldebug.c:410-414 | the code of an empty numeric loop is accepted with the four registers it uses, and refused with three |
| `Opcodes.DecodedFields` | Lib/Lua/src/lopcodes.h:42-125 | the fields of a word: the wide operand is all above A, its signed form is in excess 131071, the top bit of B tells constants from registers, and only the word zero reads as MOVE 0 0 |
| `ConnectRegions.Connect` | Lib/Modules/ImageProc/ConnectRegions.cpp:62-161 | the count is the number of components; the statistics are those of the components, in order of falling area, and the areas sum to the number of foreground pixels; in images no wider than high the components are those of 8-connected paths |
| `ConnectRegions.ConnectAll` | Lib/Modules/ImageProc/ConnectRegions.cpp:62-161 | over any calls with images of one size, or of growing widths, from the zeroed static buffers every answer is right for its own image |
| `ConnectRegions.MarginClearIff` | Lib/Modules/ImageProc/ConnectRegions.cpp:90-104 | the scan finds labels of finished pixels only, if and only if the column to the right of an image higher than wide is zero behind each foreground pixel of the last column |
| `ConnectRegions.StaleMargin` | Lib/Modules/ImageProc/ConnectRegions.cpp:90-104 | counterexample: a label that a wider image left there is all the scan finds at a pixel, and gives it the label of a pixel that it is not joined to |
| `ConnectRegions.FirstPass` | Lib/Modules/ImageProc/ConnectRegions.cpp:72-131 | after the scan two labels have one root only for joined pixels, and every link that was seen joins two roots |
| `ConnectRegions.ScanPixel` | Lib/Modules/ImageProc/ConnectRegions.cpp:83-130 | one pixel keeps the scan invariant |
| `ConnectRegions.LabelPixel` | Lib/Modules/ImageProc/ConnectRegions.cpp:89-129 | one foreground pixel gets a label of its own class or a new one |
| `ConnectRegions.MergeNeighbours` | Lib/Modules/ImageProc/ConnectRegions.cpp:107-122 | all labelled neighbours end in the class of the least label |
| `ConnectRegions.CleanUp` | Lib/Modules/ImageProc/ConnectRegions.cpp:133-136 | flattening and renumbering turn the classes into labels 0 to n without gaps |
| `ConnectRegions.TwoPasses` | Lib/Modules/ImageProc/ConnectRegions.cpp:72-151 | the statistics of label k + 1 are those of the pixels with that final label |
| `ConnectRegions.MeasureRegions` | Lib/Modules/ImageProc/ConnectRegions.cpp:138-151 | the second pass adds every pixel to the statistics of its label once |
| `ConnectRegions.SortByArea` | Lib/Modules/ImageProc/ConnectRegions.cpp:153 | the statistics are permuted together with their regions into falling area |
| `ConnectRegions.RegionIsComponent` | Lib/Modules/ImageProc/ConnectRegions.cpp:133-136 | the pixels with the final label of p are exactly the component of p |
| `ConnectRegions.RegionsAreComponents` | Lib/Modules/ImageProc/ConnectRegions.cpp:133-151 | the nonzero final labels list every component exactly once |
| `ConnectRegions.Outcome` | Lib/Modules/ImageProc/ConnectRegions.cpp:153-160 | the test on the first area tells an image without foreground from any other |
| `ConnectRegions.AreasAddUp` | Lib/Modules/ImageProc/ConnectRegions.cpp:143-151 | conservation: the areas add up to the number of foreground pixels |
| `PixelGraph.EightConnectedIff` | Lib/Modules/ImageProc/ConnectRegions.cpp:90-104 | the neighbours looked at give full 8-connectivity in all images of a size if and only if m <= n or n <= 1 |
| `EquivalenceTables.EquivalenceTable.AddEquivalence` | Lib/Modules/ImageProc/ConnectRegions.cpp:8-22 | exactly the classes of the two labels are merged, under the smaller root |
| `EquivalenceTables.EquivalenceTable.TraverseLinks` | Lib/Modules/ImageProc/ConnectRegions.cpp:24-28 | one increasing pass sends every label straight to its root |
| `EquivalenceTables.EquivalenceTable.RemoveGaps` | Lib/Modules/ImageProc/ConnectRegions.cpp:30-39 | the classes are numbered without gaps |
| `EquivalenceTables.EquivalenceTable.EnsureAllocated` | Lib/Modules/ImageProc/ConnectRegions.cpp:46-51 | new labels are roots, old ones keep theirs |
| `EquivalenceTables.RootAfterLink` | Lib/Modules/ImageProc/ConnectRegions.cpp:17-21 | linking the larger of two roots below the smaller merges their classes and no others |
| `EquivalenceTables.RanksNumber` | Lib/Modules/ImageProc/ConnectRegions.cpp:30-39 | ranks of roots number the classes one to one |
| `RegionStatistics.AddDescribes` | Lib/Modules/ImageProc/RegionProps.cpp:21-29 | adding a pixel keeps number, tight box and coordinate sums right |
| `GcRuns.RunsAreSafe` | Lib/Lua/src/lgc.c:407-692 | in every run of program and collector actions no reachable object is ever freed, and all that is reachable is there and not dead; `RunsFollowProgram` says the same of the graph that the program has built |
| `GcRuns.ActionOk` | Lib/Lua/src/lgc.c:556-710 | every action, of the program or the collector, keeps the invariant and frees nothing reachable |
| `GcRuns.InitialInv` | Lib/Lua/src/lstate.c:150-175 | the first state meets the invariant |
| `GcProgram.RunsFollowProgram` | Lib/Lua/src/lgc.c:407-692 | against a plain graph of what the program has done, without colours and collector: in every run what the program can reach is in the heap, of its kind and with exactly its references; fixed strings stay; and right after a full collection there is nothing else |
| `GcProgram.ActionAgrees` | Lib/Lua/src/lgc.h:86-97 | after every action the heap agrees with what the action means for the program: a write sets the references of its holder and of nothing else, a new object has its references and is on the running stack, and the collector means nothing |
| `GcProgram.ReachSame` | Lib/Lua/src/lgc.c:500-520 | program and heap agree about what can be reached |
| `GcProgram.StepCollects` | Lib/Lua/src/lgc.c:556-606 | a step of the collector leaves kinds, references and roots as they are and keeps what is fixed |
| `GcFull.FullGcExact` | Lib/Lua/src/lgc.c:636-659 | a full collection, from whatever phase, leaves exactly the objects that were reachable when it was called, and the fixed ones |
| `GcFull.StepDescends` | Lib/Lua/src/lgc.c:556-607 | every step from another phase than pause lowers a lexicographic measure, which is why a full collection ends |
| `GcFull.AtomicExact` | Lib/Lua/src/lgc.c:525-553 | with precise marks exactly the unreachable objects are dead after atomic |
| `GcFull.NoEarlyPause` | Lib/Lua/src/lgc.c:649-657 | the loops of a full collection do not run past the phase they wait for |
| `GcHeap.ReachableNotDead` | Lib/Lua/src/lgc.h:72-73 | in a closed state nothing reachable is dead |
| `GcMark.Mark` | Lib/Lua/src/lgc.c:69-112 | marking changes colours from white to a mark, extends the gray list, and keeps the tri-colour invariant |
| `GcPropagate.PropagateAll` | Lib/Lua/src/lgc.c:277-327 | traversing all gray objects ends, empties the gray list and keeps the tri-colour invariant |
| `GcPropagate.MarkedClosed` | Lib/Lua/src/lgc.c:277-327 | with nothing gray left to traverse every marked object refers to marked ones only |
| `GcCycle.AtomicOk` | Lib/Lua/src/lgc.c:525-553 | right after atomic the dead objects are exactly those that were left white, and the sweep invariant holds |
| `GcCycle.AtomicRoots` | Lib/Lua/src/lgc.c:525-541 | the roots, those set without barriers included, are marked at the flip |
| `GcCycle.AtomicClosed` | Lib/Lua/src/lgc.c:525-541 | the objects marked at the flip are closed under references |
| `GcCycle.SingleStepOk` | Lib/Lua/src/lgc.c:556-607 | every step of the collector keeps the invariant and erases nothing reachable |
| `GcCycle.SweepEnds` | Lib/Lua/src/lgc.c:581-591 | the last sweep step leaves only current white objects |
| `GcSweep.SweepBucketOk` | Lib/Lua/src/lgc.c:407-428 | sweeping a bucket of the string table erases garbage only |
| `GcSweep.SweepRootOneOk` | Lib/Lua/src/lgc.c:407-428 | one turn of the sweep over all objects, a thread with its open upvalues included, erases garbage only |
| `GcSweep.GarbageClosed` | Lib/Lua/src/lgc.c:407-428 | losing only garbage keeps what is alive closed |
| `GcMutator.StoreInv` | Lib/Lua/src/lgc.h:86-97 | a write behind the barrier macro of its kind keeps the invariant in every phase |
| `GcMutator.StoreRefers` | Lib/Lua/src/lvm.c:134-152 | after a write the holder has exactly the references given, every other object keeps its own, and the barrier changes colours only |
| `GcMutator.BarrierForwardInv` | Lib/Lua/src/lgc.c:662-672 | the forward barrier restores the invariant that the write broke |
| `GcMutator.BarrierBackInv` | Lib/Lua/src/lgc.c:675-683 | the backward barrier restores the invariant that the write broke |
| `GcMutator.CloseHeadInv` | Lib/Lua/src/lfunc.c:96-112 | closing an upvalue keeps the invariant and frees at most a dead one |
| `GcMutator.AddedInv` | Lib/Lua/src/lgc.c:686-692 | an allocation in the current white keeps the invariant |
| `GcMutator.SetRefsInv` | Lib/Lua/src/lgc.h:86-97 | a write that needs no barrier keeps the invariant |
| `GcMutator.AddRootInv` | Lib/Lua/src/lgc.c:686-692 | a new object linked before the sweep pointer, at it or behind it keeps the invariant in every phase |
| `GcMutator.AddStringInv` | Lib/Lua/src/lstring.c:50-72 | a new string in a bucket, swept or not, keeps the invariant in every phase |
| `GcMutator.AddOpenInv` | Lib/Lua/src/lfunc.c:67-78 | a new open upvalue in the middle of the list of its thread keeps the invariant in every phase |
| `GcMutator.ReviveInv` | Lib/Lua/src/lstring.c:84-89 | a dead string or upvalue that is found again is alive from then on, and the invariant is kept |
| `GcMutator.FixInv` | Lib/Lua/src/lstring.h:24 | fixing a string keeps the invariant |
| `CollectorObject.GlobalState.MarkObject` | Lib/Lua/src/lgc.c:69-112 | updates the heap in place exactly as `Mark` says |
| `CollectorObject.GlobalState.ReallyMarkObject` | Lib/Lua/src/lgc.c:69-112 | the same for a white object, by kind |
| `CollectorObject.GlobalState.PropagateOne` | Lib/Lua/src/lgc.c:277-320 | one gray object is traversed as `PropagateMark` says |
| `CollectorObject.GlobalState.PropagateGray` | Lib/Lua/src/lgc.c:323-327 | the loop over the gray list is `PropagateAll` |
| `CollectorObject.GlobalState.MarkRoots` | Lib/Lua/src/lgc.c:501-512 | the start of a cycle is `MarkRoot` |
| `CollectorObject.GlobalState.FinishMarking` | Lib/Lua/src/lgc.c:525-553 | atomic, step by step, is `Atomic` |
| `CollectorObject.GlobalState.SweepList` | Lib/Lua/src/lgc.c:407-428 | the loop over a list without threads is `SweepSeq`; what stays linked is returned |
| `CollectorObject.GlobalState.SweepOneRoot` | Lib/Lua/src/lgc.c:407-428 | one turn of the sweep over all objects is `SweepRootOne` |
| `CollectorObject.GlobalState.SweepRoots` | Lib/Lua/src/lgc.c:407-428 | at most count turns of the sweep are `SweepRoot` |
| `CollectorObject.GlobalState.Step` | Lib/Lua/src/lgc.c:556-607 | one step in place is `SingleStep` |
| `CollectorObject.GlobalState.StepUntil` | Lib/Lua/src/lgc.c:649-657 | the loop of steps ends and is `RunTo` |
| `CollectorObject.GlobalState.FullCollection` | Lib/Lua/src/lgc.c:636-659 | the whole call is `FullGc`, and so exact |
| `CollectorObject.GlobalState.CloseUpval` | Lib/Lua/src/lfunc.c:99-111 | one turn of closing is `CloseHead` |
| `CollectorObject.GlobalState.CloseThread` | Lib/Lua/src/lstate.c:134-140 | all open upvalues of a freed thread are closed as `CloseAll` says |
| `CollectorObject.GlobalState.Perform` | Lib/Lua/src/lgc.c:556-710 | any action in place is `Apply`, keeps the invariant, frees nothing reachable, and leaves the heap in agreement with the program: the holder of a write has the references given, and so on |
| `CodeGenCorrect.CompileMeans` | Lib/Lua/src/lcode.c:343-789 | compiler correctness: every run that enters the code of an expression ends it with the value of the short-circuit semantics of section 2.5 of the Lua 5.1 reference manual, or leaves through the list of its truth value with a jump that brings that value, or that a bare jump has taken over and whose boolean is that value |
| `CodeGenCorrect.CompileBuilds` | Lib/Lua/src/lparser.c:828-853 | compiling keeps the code well-formed and leaves lists of pending jumps that are disjoint and each there once |
| `CodeGenCorrect.ValueInRegister` | Lib/Lua/src/lcode.c:414-419 | the value is in the first free register and no other register has changed |
| `CodeGenCorrect.ValueInLocal` | Lib/Lua/src/lcode.c:472-479 | an assignment puts the value into its local and changes no other register |
| `CodeGenCorrect.CompileYields` | Lib/Lua/src/lcode.c:343-789 | when no jump that was taken over is left with a value in the lists that get closed, an expression is worth its value on every way out |
| `CodeGenCorrect.MeansYields` | Lib/Lua/src/lcode.c:390-411 | jumps that were taken over and have no value of their own stand for the right boolean |
| `CodeGenCorrect.ConditionDecides` | Lib/Lua/src/lcode.c:539-564 | the code of a condition goes on exactly when the value is true and leaves through the list otherwise, whatever jumps its bare jumps have taken over |
| `CodeGenLimits.FirstValue` | Lib/Lua/src/lcode.c:343-626 | from the start of a function the code computes the value into the first register behind the parameters |
| `CodeGenLimits.OrdinaryClean` | Lib/Lua/src/lcode.c:539-591 | in expressions without literal booleans and negated constants no bare jump is emitted |
| `CodeGenLimits.BareJumpExact` | Lib/Lua/src/lcode.c:539-591 | a jump that is always taken decides right exactly on the runs that do not come through a pending jump with the other value |
| `CodeGenLimits.BareJumpRightIff` | Lib/Lua/src/lcode.c:539-591 | a jump that is always taken decides right on all runs if and only if no jump pending to it is controlled by a TESTSET, which the generator could test before it emits the jump |
| `CodeGenLimits.CleanExact` | Lib/Lua/src/lcode.c:539-591 | the generator reports an expression clean if and only if every bare jump it emitted decides right on all runs |
| `CodeGenLimits.CleanSettled` | Lib/Lua/src/lcode.c:539-591 | an expression reported clean has no jump with a value among those taken over, and so is compiled correctly |
| `CodeGenLimits.NoneLeftExact` | Lib/Lua/src/lcode.c:112-118 | the jumps of the lists that were taken over bring their boolean on all runs if and only if none of them is controlled by a TESTSET, which the generator could test before it closes the lists |
| `CodeGenLimits.UncleanWrong` | Lib/Lua/src/lcode.c:59-66 | counterexample: `((1 or false) and true) or false` is true but its code leaves 1 |
| `CodeGenLimits.UncleanSettled` | Lib/Lua/src/lcode.c:131-170 | the same expression in front of `and 2` is compiled correctly: the jump taken over is patched to the second operand and loses its value |
| `JumpPatch.ExecPatched` | Lib/Lua/src/lcode.c:131-160 | a run of the patched code is the run of the old code, going on where its jump was sent |
| `JumpPatch.ExecDropped` | Lib/Lua/src/lcode.c:144-147 | removing values takes them from the exits of the list and changes nothing else |
| `CodeGenLists.ClosedRun` | Lib/Lua/src/lcode.c:390-411 | after both lists are patched every way out has its value in the register |
| `CodeGenLists.LandingRuns` | Lib/Lua/src/lcode.c:394-407 | a jump without a value lands on the load of the boolean it stands for |
| `CodeGenLists.ListsStay` | Lib/Lua/src/lcode.c:185-196 | lists that a step does not consume are pending behind it |
| `CodeGenSteps.JumpRun` | Lib/Lua/src/lcode.c:59-66 | all that arrives, by a pending jump too, leaves through the new list |
| `CodeGenSteps.CondJumpRun` | Lib/Lua/src/lcode.c:74-77 | a test and its jump divide the runs that arrive |
| `CodeGenSteps.EmitRun` | Lib/Lua/src/lcode.c:797-809 | an emitted instruction acts on all that arrives |
| `CodeGenSteps.LoadRun` | Lib/Lua/src/lcode.c:343-379 | the register gets the value whatever path arrives |
| `CodeGenSteps.JoinRun` | Lib/Lua/src/lcode.c:35-56 | joining a register with the LOADNIL before it, or leaving the load out at the start of a function, changes no run |
| `CodeGenExp.Exp2RegRun` | Lib/Lua/src/lcode.c:390-411 | exp2reg puts the value into the register on every way out of the expression |
| `CodeGenExp.Exp2AnyRegRun` | Lib/Lua/src/lcode.c:422-433 | the same for any register |
| `CodeGenExp.Exp2NextRegRun` | Lib/Lua/src/lcode.c:414-419 | the same for the next register |
| `CodeGenExp.Exp2ValRun` | Lib/Lua/src/lcode.c:436-441 | the same for a plain value |
| `CodeGenExp.Exp2RKRun` | Lib/Lua/src/lcode.c:444-469 | the operand, register or constant, is the value |
| `CodeGenCond.JumpOnCondRun` | Lib/Lua/src/lcode.c:524-536 | taking a NOT back and turning the test round changes no decision |
| `CodeGenCond.BranchRun` | Lib/Lua/src/lcode.c:539-591 | the jump is taken when the value is true just as the condition says, and brings the value along or is one that a bare jump has taken over |
| `CodeGenCond.GoIfRun` | Lib/Lua/src/lcode.c:539-591 | the value decides where the run goes, whatever path of the expression produced it and whatever jumps are taken over |
| `CodeGenNot.CodeNotRun` | Lib/Lua/src/lcode.c:594-626 | not turns the value of every path round and exchanges the lists |
| `CodeGenNot.CodeCompRun` | Lib/Lua/src/lcode.c:681-694 | the comparison jumps as the compared values say, > and >= with exchanged operands |
| `JumpLists.ThreadedOnce` | Lib/Lua/src/lcode.c:100-106 | a list threaded through the code has one reading |
| `JumpLists.ThreadedAppend` | Lib/Lua/src/lcode.c:185-196 | linking the last jump of one list to the head of another appends the lists |
| `FuncStateObject.FuncState.Concat` | Lib/Lua/src/lcode.c:185-196 | the lists are appended in place and no other instruction changes |
| `FuncStateObject.FuncState.PatchListAux` | Lib/Lua/src/lcode.c:150-160 | exactly the members of the list are retargeted, those with a value to vtarget, the others to dtarget, and only their tests change |
| `FuncStateObject.FuncState.PatchTestReg` | Lib/Lua/src/lcode.c:131-141 | the controlling TESTSET gets the register or becomes a TEST |
| `FuncStateObject.FuncState.NeedValueIn` | Lib/Lua/src/lcode.c:122-128 | true exactly when some jump of the list brings no value |
| `FuncStateObject.FuncState.RemoveValues` | Lib/Lua/src/lcode.c:144-147 | the tests of the list lose their register, no offset changes |
| `FuncStateObject.FuncState.FixJump` | Lib/Lua/src/lcode.c:80-87 | the jump read back is the one stored, except that a jump to itself reads as the end of a list; no other instruction changes |
| `FuncStateObject.FuncState.DischargeJpc` | Lib/Lua/src/lcode.c:163-166 | the jumps pending to here are fixed to here |
| `FuncStateObject.FuncState.Code` | Lib/Lua/src/lcode.c:797-809 | emitting an instruction is `Emit` |
| `FuncStateObject.FuncState.Jump` | Lib/Lua/src/lcode.c:59-66 | luaK_jump takes the jumps pending to here into the list of the new jump |
| `FuncStateObject.FuncState.CondJump` | Lib/Lua/src/lcode.c:74-77 | a test and its jump are emitted |
| `FuncStateObject.FuncState.PatchToHere` | Lib/Lua/src/lcode.c:179-182 | the list joins the jumps pending to here |
| `FuncStateObject.FuncState.CodeNil` | Lib/Lua/src/lcode.c:35-56 | loading nil is `LoadNilAt` |
| `FuncStateObject.FuncState.AddConstant` | Lib/Lua/src/lcode.c:229-247 | the entry returned holds the value, which is entered once, and older entries stay where they are |
| `FuncStateObject.FuncState.Discharge2Reg` | Lib/Lua/src/lcode.c:343-379 | refines loading a described value |
| `FuncStateObject.FuncState.Exp2Reg` | Lib/Lua/src/lcode.c:390-411 | refines `Exp2Reg` on the code with explicit lists |
| `FuncStateObject.FuncState.Exp2RK` | Lib/Lua/src/lcode.c:444-469 | refines `Exp2RK` |
| `FuncStateObject.FuncState.JumpOnCond` | Lib/Lua/src/lcode.c:524-536 | refines `JumpOnCond`, with the stored NOT removed |
| `FuncStateObject.FuncState.GoIfTrue` | Lib/Lua/src/lcode.c:539-564 | refines `GoIfTrue` |
| `FuncStateObject.FuncState.GoIfFalse` | Lib/Lua/src/lcode.c:567-591 | refines `GoIfFalse` |
| `FuncStateObject.FuncState.CodeNot` | Lib/Lua/src/lcode.c:594-626 | refines `CodeNot` |
| `FuncStateObject.FuncState.CodeComp` | Lib/Lua/src/lcode.c:681-694 | refines `CodeComp` |
| `FuncStateObject.FuncState.CodeExpr` | Lib/Lua/src/lparser.c:828-853 | the code, jump lists and expression description stored are those of `Compile` |
| `GeneratedCode.CompileListed` | Lib/Lua/src/lcode.c:59-66 | every jump that is pending in the code stands in a list of the expression or waits for the next instruction, so none is ever lost |
| `GeneratedCode.FinishedCode` | Lib/Lua/src/lcode.c:390-411 | in the finished code of an expression no jump is pending |
| `GeneratedCode.CodeAccepted` | Lib/Lua/src/ldebug.c:276-475 | what the generator stores for an expression, with a return behind it, is accepted by the bytecode checker when its registers, constants and upvalues are in range |
| `GeneratedCode.CodeFits` | Lib/Lua/src/lopcodes.h:42-125 | and its operands have room in their fields, up to the longest jump |
| `CompiledFunction.WordsRun` | Lib/Lua/src/lvm.c:537-540 | a run of code with all jumps resolved is the run of the stored instructions with their offsets |
| `CompiledFunction.StoredValue` | Lib/Lua/src/lvm.c:373-762 | the stored code of an expression computes its value |
| `CompiledFunction.CompileFirst` | Lib/Lua/src/lcode.c:414-419 | the generator run on an expression leaves stored code that computes its value for all parameters, and that the bytecode checker accepts when registers, constants and upvalues are in range |
| `LuaTableObject.Table.Get` | Lib/Lua/src/ltable.c:435-491 | returns what the table holds as a map of all keys |
| `LuaTableObject.Table.Set` | Lib/Lua/src/ltable.c:494-529 | the table as a map changes at the key and nowhere else; nil and NaN are rejected, and the only other error means too many keys |
| `LuaTableObject.Table.FindNode` | Lib/Lua/src/ltable.c:469-491 | the chain of the main position leads to the key if some node holds it |
| `LuaTableObject.Table.NewKey` | Lib/Lua/src/ltable.c:399-429 | the key is put in by Brent's variation with all values kept; with room for it the table is not rehashed |
| `LuaTableObject.Table.GetFreePos` | Lib/Lua/src/ltable.c:382-388 | finds a free node if there is one |
| `LuaTableObject.Table.PutHere` | Lib/Lua/src/ltable.c:425-428 | a key in its free main position keeps the chains and all values |
| `LuaTableObject.Table.ChainBehind` | Lib/Lua/src/ltable.c:418-428 | a key behind its main position keeps the chains and all values |
| `LuaTableObject.Table.MoveForeign` | Lib/Lua/src/ltable.c:410-428 | moving a foreign key out of the main position keeps the chains and all values |
| `LuaTableObject.Table.FindPrevious` | Lib/Lua/src/ltable.c:412 | the walk from the main position of the foreign key meets the node in front of it |
| `LuaTableObject.Table.Rehash` | Lib/Lua/src/ltable.c:333-349 | keeps the table as a map, leaves room for the new key, and gives the array part the best size |
| `LuaTableObject.Table.Resize` | Lib/Lua/src/ltable.c:297-324 | all keys with a value are put in again, none of them by another rehash |
| `LuaTableObject.Table.NumUseArray` | Lib/Lua/src/ltable.c:222-244 | counts the used array slots slice by slice |
| `LuaTableObject.Table.NumUseHash` | Lib/Lua/src/ltable.c:247-260 | counts the keys with a value in the hash part, and those that may live in an array |
| `LuaTableObject.Table.CountInt` | Lib/Lua/src/ltable.c:211-219 | counts a key exactly when it may live in an array |
| `LuaTableObject.Table.CountKeys` | Lib/Lua/src/ltable.c:333-344 | the counts of rehash are those of the keys in use and the new key |
| `LuaTableObject.Table.SetNodeVector` | Lib/Lua/src/ltable.c:272-294 | fresh nodes, a power of two of them, all free |
| `LuaTableObject.Table.FindIndex` | Lib/Lua/src/ltable.c:137-159 | the place of a key in the traversal, or an error for a key that is not in the table |
| `LuaTableObject.Table.Next` | Lib/Lua/src/ltable.c:162-179 | the first place behind the key that has a value |
| `LuaTableObject.Table.Pairs` | Lib/Lua/src/ltable.c:162-179 | a traversal meets each key with a value exactly once |
| `LuaTableObject.Table.StandsOnce` | Lib/Lua/src/ltable.c:137-159 | a key has one place in the traversal |
| `LuaTableObject.Table.GetN` | Lib/Lua/src/ltable.c:560-576 | returns a border, as section 2.5.5 of the Lua 5.1 reference manual defines it |
| `LuaTableObject.Table.UnboundSearch` | Lib/Lua/src/ltable.c:532-553 | finds a border behind the array part |
| `LuaTableObject.HashShare` | Lib/Lua/src/ltable.c:345-348 | what is left for the hash part is exactly the number of keys outside the new array part |
| `LuaTableObject.RoomLeft` | Lib/Lua/src/ltable.c:404-407 | after the old keys are in again the new one finds a free node |
| `HashPart.PutAtOk` | Lib/Lua/src/ltable.c:425-428 | a key put into its own main position keeps chains reachable, acyclic and joined nowhere |
| `HashPart.InsertAfterOk` | Lib/Lua/src/ltable.c:418-428 | a key chained behind its main position keeps them too |
| `HashPart.MoveAwayOk` | Lib/Lua/src/ltable.c:410-428 | and so does moving a foreign key away |
| `HashPart.SomeFree` | Lib/Lua/src/ltable.c:382-388 | fewer keys than nodes leave a node free |
| `TableSizes.ComputeSizes` | Lib/Lua/src/ltable.c:189-208 | returns the largest power of two n with more than half of the slots 1 to n in use, and the number of keys in them |
| `TableSizes.CountedAdd` | Lib/Lua/src/ltable.c:211-219 | one more key raises the counter of its slice |
| `TableSizes.Log2` | Lib/Lua/src/lobject.c:54-69 | the position of the highest bit |
| `References.Ref` | Lib/Lua/src/lauxlib.c:481-501 | the reference returned is not in use, and no live reference loses its value |
| `References.Unref` | Lib/Lua/src/lauxlib.c:504-512 | a live reference becomes the head of the free list, a negative one is ignored, and all other live ones keep their values |
| `References.TakeFree` | Lib/Lua/src/lauxlib.c:491-494 | taking the head off the list leaves the list of the other free references |
| `References.GiveBack` | Lib/Lua/src/lauxlib.c:504-512 | giving back puts a reference in front of the free ones |
| `References.OnlyBorder` | Lib/Lua/src/lauxlib.c:495-498 | without free references the only border is the highest reference issued |
| `References.GiveBackIff` | Lib/Lua/src/lauxlib.c:504-512 | of the references issued exactly the live ones may be given back: another one turns the list of free references into a ring, and there is no consistent list any more |
| `References.CallAll` | Lib/Lua/src/lauxlib.c:481-512 | after any calls on a new table the references are those of a stack of free ones, and every reference not given back holds its own value |
| `TableSort.AuxSort` | Lib/Lua/src/ltablib.c:193-254 | for every strict weak order the part is sorted and rearranged, the rest unchanged, and calls nest at most log2 of the length deep |
| `TableSort.Partition` | Lib/Lua/src/ltablib.c:222-243 | both scans stay inside the part, so no order function error, and the pivot splits it |
| `TableSort.SortThree` | Lib/Lua/src/ltablib.c:196-217 | first, middle and last value come in order |
| `TableSort.ScanUp` | Lib/Lua/src/ltablib.c:225-229 | stops at the first value not less than the pivot |
| `TableSort.ScanDown` | Lib/Lua/src/ltablib.c:230-234 | stops at the last value that the pivot is not less than |
| `TableSort.BlockSplit` | Lib/Lua/src/ltablib.c:244-251 | a split leaves only pairs within one part out of order |
| `TableSort.BlockSorted` | Lib/Lua/src/ltablib.c:252-253 | sorting one part leaves only pairs within the other out of order |
| `TableSort.OneDeeper` | Lib/Lua/src/ltablib.c:245-252 | a call for the smaller part adds one level within the bound |
| `TableSort.Sort` | Lib/Lua/src/ltablib.c:256-264 | the whole array is sorted, and its depth of calls is at most log2 of its length |
| `SubExpr.LexState.SubExpr` | Lib/Lua/src/lparser.c:828-853 | the parser in place reads what `Parse` reads, and returns the first operator it does not treat |
| `SubExpr.LexState.SimpleExp` | Lib/Lua/src/lparser.c:667-676 | a name or an expression in parentheses |
| `SubExpr.PrintReads` | Lib/Lua/src/lparser.c:840-850 | an expression printed between a sign before it and an operator behind it is read as one operand by the loop with the limit of that sign |
| `SubExpr.RoundTrip` | Lib/Lua/src/lparser.c:810-853 | printing with only the parentheses that the ranking of the manual demands and reading gives the same tree and takes exactly the tokens; it fails exactly beyond 200 nested calls |
| `SubExpr.ParensNeeded` | Lib/Lua/src/lparser.c:810-850 | without its parentheses a printed expression is not what is read |
| `SubExpr.ParseKeepsTokens` | Lib/Lua/src/lparser.c:828-853 | whatever is read, the tree has the tokens of the text in their order, and the rest begins where the text ends |
| `SubExpr.PrioritiesRank` | Lib/Lua/src/lparser.c:813-822 | the two columns of priorities and the one of the unary operators say the same as the ranking of section 2.5.6 of the Lua 5.1 reference manual, written as a list of levels, with .. and ^ to the right |
| `SubExpr.Grouping` | Lib/Lua/src/lparser.c:828-853 | of two binary operators around an operand the one that ranks higher takes it, and of equal ones the first, unless they associate to the right |
| `SubExpr.UnaryGrouping` | Lib/Lua/src/lparser.c:828-853 | a unary operator gives its operand up to ^ and to no other operator |
| `OpenUpvalues.Thread.FindUpval` | Lib/Lua/src/lfunc.c:53-79 | the upvalue stands for the variable of the slot; if one was open there it is that one, so closures share it |
| `OpenUpvalues.Thread.CloseFirst` | Lib/Lua/src/lfunc.c:99-111 | one round of closing keeps the value of every variable |
| `OpenUpvalues.Thread.Close` | Lib/Lua/src/lfunc.c:96-112 | no closure sees another value through an upvalue, only dead upvalues go, and the slots are free for new variables |
| `OpenUpvalues.Thread.Get` | Lib/Lua/src/lvm.c:423-427 | reading through an upvalue gives the value of its variable |
| `OpenUpvalues.Thread.Set` | Lib/Lua/src/lvm.c:447-452 | writing through an upvalue changes its variable and no other |
| `OpenUpvalues.Thread.SetLocal` | Lib/Lua/src/lvm.c:447-452 | assigning to a slot changes its variable and no other |
| `OpenUpvalues.Thread.Collect` | Lib/Lua/src/lfunc.c:62-64 | a collection marks as dead exactly what it did not reach, and the list of open upvalues stays as it is |
| `OpenUpvalues.Run` | Lib/Lua/src/lfunc.c:53-112 | every run that mixes capturing, assigning, closing and collecting is a run of a store with one cell for each variable |
| `OpenUpvalues.HeldVariable` | Lib/Lua/src/lfunc.c:53-112 | in such a run an upvalue that every collection reaches stands for the variable it captured |
| `OpenUpvalues.Inserted` | Lib/Lua/src/lfunc.c:67-78 | a new upvalue keeps the chain strictly descending and the variables told apart |
| `OpenUpvalues.Closed` | Lib/Lua/src/lfunc.c:105-110 | a closed upvalue holds the value of a variable that has left the stack |
| `PatternMatch.MatchDecides` | Lib/Lua/src/lstrlib.c:365-440 | an end that is found, with its captures, divides the characters among the items of the pattern (section 5.4.1 of the Lua 5.1 reference manual), with sets, repetitions, captures, %b, %f and references to captures; a failure means there is no such division |
| `PatternMatch.WellFormedDecides` | Lib/Lua/src/lstrlib.c:365-440 | in a well-formed pattern a match is found if and only if one exists, and the captures lie inside it |
| `PatternOrder.MatchPrefers` | Lib/Lua/src/lstrlib.c:301-430 | of all ways to match, with a number of repetitions for each suffix, the matcher takes the first in the order of the manual: at the first difference more repetitions for *, + and ?, fewer for - |
| `PatternOrder.DerivesIn` | Lib/Lua/src/lstrlib.c:365-440 | every way to match ends in the language of the pattern |
| `PatternOrder.InDerives` | Lib/Lua/src/lstrlib.c:365-440 | and every end in the language is reached by some way |
| `PatternClass.ClassIs` | Lib/Lua/src/lstrlib.c:202-275 | a class ends where its text ends and matches exactly the characters it denotes: any, one, a letter class, or those of a set of characters, ranges and escapes, or all others if the set is negated |
| `PatternMatch.BalanceIs` | Lib/Lua/src/lstrlib.c:281-298 | the loop of matchbalance ends behind the character that first brings the count of opening less closing characters to zero, and fails only if there is none |
| `PatternMatch.EscapeDecides` | Lib/Lua/src/lstrlib.c:377-405 | %b, %f and a reference to a capture go on at the only place where the language of the pattern can go on |
| `PatternMatch.MatchGood` | Lib/Lua/src/lstrlib.c:329-351 | errors only in patterns that are not well-formed; captures are only added, and end inside the match |
| `PatternMatch.StarIsGreedy` | Lib/Lua/src/lstrlib.c:301-313 | a star takes the most repetitions with which the rest of the pattern matches |
| `PatternMatch.MinusIsLazy` | Lib/Lua/src/lstrlib.c:316-326 | a minus takes the fewest |
| `PatternMatch.CloseOne` | Lib/Lua/src/lstrlib.c:194-199 | the capture that is closed is the last open one, and closing it opens or closes no other |
| `MatchStateObject.MatchState.DoMatch` | Lib/Lua/src/lstrlib.c:365-440 | the matcher on its capture array computes `Match`; on failure level and captures are as before |
| `MatchStateObject.MatchState.StartCapture` | Lib/Lua/src/lstrlib.c:329-340 | a capture is opened for the rest and undone on failure |
| `MatchStateObject.MatchState.EndCapture` | Lib/Lua/src/lstrlib.c:343-351 | a capture is closed for the rest and opened again on failure |
| `MatchStateObject.MatchState.CaptureToClose` | Lib/Lua/src/lstrlib.c:194-199 | finds the last open capture |
| `MatchStateObject.MatchState.MatchCapture` | Lib/Lua/src/lstrlib.c:354-362 | the text of the capture stands here once more, or an error for a capture that is not closed |
| `MatchStateObject.MatchBalance` | Lib/Lua/src/lstrlib.c:281-298 | the loop over the subject is `Balance` |
| `MatchStateObject.MatchFrontier` | Lib/Lua/src/lstrlib.c:384-395 | the set has this character but not the one before |
| `MatchStateObject.MatchState.DoMaxExpand` | Lib/Lua/src/lstrlib.c:301-313 | counting up and giving back is `MaxExpand` |
| `MatchStateObject.MatchState.DoMinExpand` | Lib/Lua/src/lstrlib.c:316-326 | one more at a time is `MinExpand` |
| `MatchStateObject.FindClassEnd` | Lib/Lua/src/lstrlib.c:202-223 | the loop over a set ends where `ClassEnd` says, or reports a malformed pattern |
| `MatchStateObject.MatchBracketClass` | Lib/Lua/src/lstrlib.c:245-265 | the loop over a set decides membership |
| `MatchStateObject.SingleMatch` | Lib/Lua/src/lstrlib.c:268-275 | decides whether the class matches a character |
| `MatchStateObject.MatchState.Find` | Lib/Lua/src/lstrlib.c:513-532 | the leftmost place from init on where some text of the pattern begins, only init with an anchor; of the ways to match there it is the first in the order of the manual |
| `BinaryChunk.RoundTrip` | Lib/Lua/src/lundump.c:161-209 | loading a dump gives back the tree with missing sources filled in exactly if every function is accepted and the nesting allowed; otherwise it is an error |
| `BinaryChunk.InheritSame` | Lib/Lua/src/ldump.c:129-131 | the tree comes back the same exactly if every function names its source |
| `BinaryChunk.SameTree` | Lib/Lua/src/lundump.c:195-209 | a tree whose functions name their sources comes back as it was, exactly if it is accepted |
| `BinaryChunk.StrippedBack` | Lib/Lua/src/ldump.c:111-141 | a stripped tree comes back without debug information and with unknown sources |
| `BinaryChunk.FunctionBack` | Lib/Lua/src/lundump.c:161-181 | the same for one function inside another, with its source left out or not |
| `BinaryChunk.DebugBack` | Lib/Lua/src/lundump.c:137-159 | debug information round trip |
| `BinaryChunk.ConstBack` | Lib/Lua/src/lundump.c:109-129 | constants round trip |
| `BinaryChunk.StringBack` | Lib/Lua/src/lundump.c:76-88 | strings round trip, a missing one told from an empty one |
| `ChunkFormat.SampleChunk` | Lib/Lua/src/lundump.c:161-227 | one chunk byte by byte, with something different in every field and a function inside: it is what is written for its tree and loads as that tree |
| `ChunkFormat.SampleStripped` | Lib/Lua/src/lundump.c:208 | the stripped sample comes back with the source `=?` |
| `ChunkFormat.ConstWritten` | Lib/Lua/src/ldump.c:80-103 | a constant begins with the number of its type, 0, 1, 3 or 4, and its value follows |
| `ChunkFormat.ConstRead` | Lib/Lua/src/lundump.c:100-131 | the first byte decides what constant is read, and any other is an error |
| `ChunkFormat.IntWritten` | Lib/Lua/src/ldump.c:45-48 | an int is written in four bytes, the lowest first, a negative one modulo two to the power of 32 |
| `ChunkFormat.IntRead` | Lib/Lua/src/lundump.c:61-67 | four bytes are read the lowest first, and a negative int is an error |
| `ChunkFormat.StringWritten` | Lib/Lua/src/ldump.c:61-74 | a string is its length with the NUL in eight bytes, its characters and a NUL; a missing one is length zero |
| `ChunkFormat.StringRead` | Lib/Lua/src/lundump.c:76-88 | what is read as a string, for any bytes |
| `ChunkFormat.FunctionWritten` | Lib/Lua/src/ldump.c:129-141 | behind the source, left out when it is that of the function around, stand both lines in four bytes each, then upvalues, parameters, the vararg flag and the stack size in a byte each |
| `ChunkFormat.FunctionRead` | Lib/Lua/src/lundump.c:161-181 | a function that is loaded has its source and these fields from the same places |
| `ChunkReader.ZIO.Read` | Lib/Lua/src/lzio.c:58-71 | the next n bytes of the stream however it is cut into pieces, or the number missing |
| `ChunkReader.ZIO.Lookahead` | Lib/Lua/src/lzio.c:21-45 | refilling does not change the stream; false only at its end |
| `ChunkReader.LoadState.DoLoadFunction` | Lib/Lua/src/lundump.c:161-181 | the loader on the stream computes `LoadFunction` of its bytes |
| `ChunkReader.LoadState.DoLoadConsts` | Lib/Lua/src/lundump.c:103-129 | the loop over constants |
| `ChunkReader.LoadState.DoLoadFunctions` | Lib/Lua/src/lundump.c:130-134 | the loop over nested functions |
| `ChunkReader.LoadState.DoLoadDebug` | Lib/Lua/src/lundump.c:137-159 | line numbers, local variables and upvalue names |
| `ChunkReader.LoadState.DoLoadString` | Lib/Lua/src/lundump.c:76-88 | a string, or none |
| `ChunkReader.LoadState.DoLoadVector` | Lib/Lua/src/lundump.c:90-96 | a vector of words |
| `ChunkReader.LoadState.DoUndump` | Lib/Lua/src/lundump.c:195-209 | the result depends on the bytes only, not on the pieces they come in |
| `ChunkWriter.DumpState.DumpBlock` | Lib/Lua/src/ldump.c:29-37 | after a failure nothing is written any more |
| `ChunkWriter.DumpState.DoDumpFunction` | Lib/Lua/src/ldump.c:129-141 | writes what `DumpFunction` says of the function, or of what stripping leaves |
| `ChunkWriter.DumpState.DoDumpConsts` | Lib/Lua/src/ldump.c:80-106 | the loop over constants |
| `ChunkWriter.DumpState.DoDumpFunctions` | Lib/Lua/src/ldump.c:106-108 | the loop over nested functions |
| `ChunkWriter.DumpState.DoDumpDebug` | Lib/Lua/src/ldump.c:111-127 | debug information, empty when stripping |
| `ChunkWriter.DumpState.DoDumpString` | Lib/Lua/src/ldump.c:61-74 | a string with its length and a NUL |
| `ChunkWriter.DumpState.DoDump` | Lib/Lua/src/ldump.c:153-164 | with status zero the writer has got exactly the dump |
| `FloodFill.Clusters` | Lib/Modules/ImageProc/lua_accumulate_ball.cpp:90-222 | the regions found partition the labelled pixels into maximal 4-connected regions of one label; each cluster has its size and tight box |
| `FloodFill.Fill` | Lib/Modules/ImageProc/lua_accumulate_ball.cpp:94-182 | the queue grows to exactly the region of its first point, flagged as a whole |
| `FloodFill.Spread` | Lib/Modules/ImageProc/lua_accumulate_ball.cpp:109-180 | all four directions of a point are settled |
| `FloodFill.Look` | Lib/Modules/ImageProc/lua_accumulate_ball.cpp:112-179 | a neighbour of the region joins the queue, or a corner moves |
| `FloodFill.RegionDone` | Lib/Modules/ImageProc/lua_accumulate_ball.cpp:107-182 | a queue with no direction left to follow is a whole region |
| `FloodFill.BoxDone` | Lib/Modules/ImageProc/lua_accumulate_ball.cpp:132-178 | the corners, moved only where the region ends, are its tight bounding box |
| `ClusterClosure.Grow` | Lib/Modules/ImageProc/lua_accumulate_ball.cpp:321-374 | ends, and leaves a group of linked clusters no two of which are apart, with exactly those taken out that are apart from a member |
| `ClusterClosure.Pass` | Lib/Modules/ImageProc/lua_accumulate_ball.cpp:332-372 | a pass that asks for another leaves strictly fewer undecided clusters |
| `ClusterClosure.Row` | Lib/Modules/ImageProc/lua_accumulate_ball.cpp:337-354 | one row marks what is apart and what comes next |
| `Dynamixel.DynamixelInput` | Lib/Firmware/Common/dynamixel.c:17-37 | the parser on its packet buffer computes `Input` |
| `Dynamixel.Checksum` | Lib/Firmware/Common/dynamixel.c:4-13 | the inverted byte sum of the body |
| `Dynamixel.MakePacket` | Lib/Firmware/Common/dynamixel.c:40-58 | lays out exactly the bytes of the frame |
| `Dynamixel.BytesFramed` | Lib/Firmware/Common/dynamixel.c:40-58 | the bytes of a frame are a well-formed intact frame that unpacks to it |
| `Dynamixel.FrameLayout` | Lib/Firmware/Common/dynamixel.c:40-58 | the bytes of a frame one by one, which behind the header sum to 255 modulo 256 |
| `Dynamixel.PingBytes` | Lib/Firmware/Common/dynamixel.c:40-58 | the six bytes that ask servo 1 for a sign of life |
| `Dynamixel.Wholly` | Lib/Firmware/Common/dynamixel.c:17-37 | a frame fed to a parser that is ready is delivered if intact, and leaves it ready |
| `Dynamixel.StreamDelivered` | Lib/Firmware/Common/dynamixel.c:17-37 | of a stream of frames exactly the intact ones are delivered, in order |
| `Dynamixel.StreamPrefix` | Lib/Firmware/Common/dynamixel.c:17-37 | after any part of the stream the frames delivered are a prefix of those, and the buffer is never overrun |
| `Dynamixel.OneByteNoticed` | Lib/Firmware/Common/dynamixel.c:24-31 | damage to one byte of id, instruction, parameters or checksum is noticed |
| `Dynamixel.OneFrameLost` | Lib/Firmware/Common/dynamixel.c:24-31 | damage to one byte loses exactly that frame |
| `Dynamixel.StaysInside` | Lib/Firmware/Common/dynamixel.c:17-37 | a byte keeps the parser on course inside the packet unless, and only unless, it is taken for a length above 252 |
| `Dynamixel.InsideIff` | Lib/Firmware/Common/dynamixel.c:17-37 | any bytes leave the parser inside the packet if and only if none of them was taken for a length above 252 |
| `Dynamixel.Resynchronised` | Lib/Firmware/Common/dynamixel.c:17-37 | whatever bytes came before, unless one was taken for a length above 252, after a pause of more than one packet of bytes up to 252 all frames are delivered again |
| `SerialLine.CircularBuffer.Push` | Lib/Firmware/Firmware_Arduino/CBUF.h:103 | with room left the byte is appended to the queue, wrapped indices and all |
| `SerialLine.CircularBuffer.Pop` | Lib/Firmware/Firmware_Arduino/CBUF.h:109 | the oldest byte is taken out |
| `SerialLine.CircularBuffer.Len` | Lib/Firmware/Firmware_Arduino/CBUF.h:97 | the wrapped difference of the indices is the number of bytes inside |
| `SerialLine.WrapKeepsSlot` | Lib/Firmware/Firmware_Arduino/CBUF.h:103-109 | a wrapped index still names the right entry |
| `SerialLine.SerialPort.Receive` | Lib/Firmware/Firmware_Arduino/rs485.c:30-35 | the interrupt appends a byte and disturbs neither parser nor older bytes |
| `SerialLine.SerialPort.PollByte` | Lib/Firmware/Firmware_Arduino/main_old.c:195-220 | the frames delivered are a prefix of those sent undamaged, and all of them at the end of the stream |
| `SerialLine.Run` | Lib/Firmware/Firmware_Arduino/main_old.c:195-220 | the same for every interleaving of interrupts and polls in which the buffer has room |

## Left out

- ConnectRegions.Connect: the label buffer is static, and in an image higher than wide the scan reads the column to the right of the image; the contract asks for zeros in the cells it reads there. `MarginClearIff` shows that otherwise it finds a label of no pixel of the image, `StaleMargin` what this does at one image; a stale label can also lie outside the equivalence table. `std::sort` is an insertion sort here, and the statistics are values.
- ConnectRegions.ConnectAll: no image higher than wide after a wider one, for the same reason.
- CodeChecker.OperandsOk: call temporaries of TFORLOOP and operands up to the top are not fixed registers; a run is one activation, and a call comes back behind itself.
- CodeGenCorrect.CompileMeans: asks of the operands of comparisons what `CompileYields` asks of the whole expression.
- CodeGenCorrect.CompileYields: for expressions that leave no jump that was taken over with a value in a list that gets closed; this is exact for each list (`NoneLeftExact`), and other expressions can come out wrong (`UncleanWrong`). Whether a run of one given expression gets to such a jump with a value that is not its boolean is a question of satisfiability about its operands.
- CodeGenCorrect.ConditionDecides: asks the same of the operands of comparisons in the condition.
- CodeGenCorrect.ValueInRegister: under the condition of `CompileYields`.
- CodeGenCorrect.ValueInLocal: under the condition of `CompileYields`.
- CodeGenLimits.FirstValue: under the condition of `CompileYields`.
- CompiledFunction.StoredValue: under the condition of `CompileYields`.
- CompiledFunction.CompileFirst: the value under the condition of `CompileYields`. That the checker accepts the code asks for operands in range, since the limits on stack size, constants and upvalues are not modelled.
- CodeGenLimits.OrdinaryClean: one direction only, a form of expression that can be told from the source text; `CleanExact` and `NoneLeftExact` are the exact conditions on the generator's state.
- References.Unref: only live references and negative numbers; `GiveBackIff` shows what giving back another reference does.
- LuaTableObject.Table.Set: says nothing about the table behind a "table overflow" error.
- TableSort.AuxSort: for strict weak orders; what an inconsistent order function does, and the sum of two positions beyond the range of int, are not part of this model.
- OpenUpvalues.Thread.Close: the ring of all open upvalues is in the collector model as a sequence; here upvalues are records with an index for a link, and the collection says which of them it reached.
- SerialLine.Run: stops when a byte meets a full buffer, because the firmware then overwrites; buffers as large as the range of their indices are excluded.
- Dynamixel.DynamixelInput: for an index inside the packet; what is written behind the packet after a length field above 252 is not part of this model (`StaysInside`).
- Code generator: calls, varargs, indexing, arithmetic, concatenation, constant folding, globals and upvalues as targets, metamethods and errors in comparisons, the limits on stack size and jump offsets, LOADNIL over several registers; expressions come as trees; NO_REG is -1; an instruction whose register is open, and a comparison, are kept in the description of the expression in the specification and stored at once in the methods.
- Collector: weak tables, finalizers, the layout of mark bits, resizing of the string table and of stacks, byte accounting and pacing, memory failure; gray lists are sequences instead of links; the program reaches new objects through the running stack, and the action that writes a captured slot says what its upvalue then refers to, which is something on that stack.
- Tables: dead keys left by the collector, preallocation by `luaH_resizearray`, memory failure; hash values are arbitrary.
- Chunks: numbers are eight opaque bytes, the machine is little endian with four-byte int and eight-byte size_t, characters are bytes; the error message is not modelled.
- Parser: suffixed expressions and literals are single tokens, statements are not modelled.
- Patterns: `gsub`, `gmatch`, plain search and the pushing of captures; character classes are a parameter.
- Clusters: the trigonometric size tests are a parameter, the relation between clusters is given, and the evaluation of candidates is not modelled.
- Firmware: the control table, forwarding between lines, timeouts, hardware registers; masking with a power of two less one is written as a remainder.
- Metamethods, coroutines, hooks, non-local error exits, locale, floating point, the stand-alone tools and the remaining vision and motion code.
