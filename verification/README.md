# q3vm in Dafny

q3vm is a toolchain: lcc compiles C to stack code, q3asm assembles and links
it, and a small virtual machine loads and interprets it. This project models
the parts of it where correctness is not obvious from one function, and proves
what they are for.

- **Switch statements** (`SwitchCases`, `SwitchBuckets`, `SwitchCode`,
  `SwitchProof`): the sorted case list, density buckets, the decision tree with
  its jump tables, and that the emitted code sends every operand where C says.
- **Conditions and value numbering** (`Labels`, `ShortCircuit`, `NodeCache`,
  `ValueNumbering`, `CacheProof`): short-circuit jumps, label forwarding, that
  every node spells its tree, and that no cached node is used where it should
  not be.
- **Tree simplification** (`Comparisons`, `Simplify`, `SimplifyProof`,
  `SimplifyTrees`): overflow guards, that every rewrite keeps value and effects,
  and that a whole tree built through them does.
- **Tree checking** (`Grammar`, `Labelling`, `Labeller`): minimum-cost tree
  matching by a grammar of 119 rules.
- **Expression code** (`Trees`, `Dumptree`, `Branches`, `EndToEnd`): postfix code
  pushes the value of its tree and branches as C compares, all the way to the
  bytes run by the interpreter.
- **The assembler** (`Assembly`, `AssemblyLines`, `Passes`, `AssembledCode`,
  `Symbols`, `Addresses`, `Operands`, `Definitions`, `Assembler`): two passes
  that agree on every address, the word every operand comes to, and the image
  they write.
- **The virtual machine** (`Words`, `Bytecode`, `Loader`, `Machine`, `Lockstep`,
  `Interpreter`): encoding and decoding, load-time translation as a lockstep
  simulation, and the interpreter with a cached top of stack.
- **Calls** (`Frames`, `Procedures`, `Statics`, `StaticLines`, `Entry`,
  `FrameLayout`, `Regions`, `Parameters`, `Results`): the frame protocol over
  every run of an assembled source, the space lcc counts for a frame, that
  parameter k is argument k, and that the value returned is the caller's.
- **The whole way** (`Toolchain`): the lines of a forest, a comparison or a
  call, assembled, loaded and run.
- **The preprocessor** (`Hidesets`, `TokenRows`, `Macros`): interned hidesets,
  rows spliced in place, and terminating, complete macro expansion.
- **Sorting, allocation, layout** (`Qsort`, `Arena`, `Layout`): the library's
  Bentley-McIlroy quicksort, lcc's arenas and its structure layout.

Code that the repository writes as loops over state is a class or a method
proved against a specification function (`Swtch`, `Generator`, `Vm`, `Interp`,
`Asm`, `Lister`, `Dag`, `Counters`, `Table`, `Tokenrow`, `Allocator`,
`DagNode`); what the specification means is then proved as lemmas.

Words of the machine are integers from -2^31 to 2^31 - 1; `Wrap` makes the
wrap-around of every operator explicit. C that the language leaves undefined
ends a run (`Undefined`, `Stuck`, `dead`) or has no value (`None`).

Five places where the code does not do what one would expect, each with its
exact condition:

- An unsigned switch with a jump table from 0 skips the low test although the
  other tests compare signed: `SwitchProof.DispatchCorrect`.
- q3asm emits nothing for unsigned conversions, so a value narrowed and widened
  again is not truncated: `Dumptree.EveryPartExactly`.
- A load of part of a variable stays cached when the whole variable is
  assigned, and every node stays cached across the jump that a constant
  condition lists: `CacheProof.List`, with `CacheProof.StaleLoad` and
  `CacheProof.KeptAcrossJump`. Neither is ever used, as long as each computed
  symbol is loaded by one tree, and where control can come:
  `CacheProof.ListNew`.
- The loader lets a branch to instructionCount through and reads behind its
  table: `Loader.AcceptedExactly`.
- Folding lets 0 - INT_MIN and 1 << 31 through as constants that are no ints:
  `Simplify.SubiExact` and `SimplifyTrees.InRangeExactly`.

## Model

| member | source | states |
|---|---|---|
| `SwitchCases.Swtch.CaseLabel` | lcc/src/stmt.c:362-389 | the case goes before the first value that is not smaller; values and labels stay parallel and nothing else changes; a repeated value is reported exactly when it was there |
| `SwitchCases.Swtch.Grow` | lcc/src/stmt.c:365-376 | doubling the arrays keeps every case |
| `SwitchCases.Swtch.Shift` | lcc/src/stmt.c:377-381 | the shifting loop opens the gap at the rank of the new value in both arrays |
| `SwitchCases.Swtch.Place` | lcc/src/stmt.c:377-385 | the two arrays with the new case inserted, and whether it repeats a value |
| `SwitchCases.Swtch.Insert` | lcc/src/stmt.c:377-386 | the same, with the error counted |
| `SwitchCases.InsertMeaning` | lcc/src/stmt.c:377-386 | adding a case to distinct cases changes what the switch selects for that value only, and keeps the values strictly sorted |
| `SwitchCases.InsertSorted` | lcc/src/stmt.c:377-386 | insertion at the rank keeps the values sorted, strictly if the value is new |
| `SwitchCases.DuplicateAtRank` | lcc/src/stmt.c:382-383 | looking only at the insertion point finds every repeated value |
| `SwitchCases.LookupSlice` | lcc/src/stmt.c:404-472 | a run of consecutive cases selects what the whole switch selects for operands that no other case mentions |
| `SwitchBuckets.Buckets` | lcc/src/stmt.c:394-402 | the merging loop, for any merging test: consecutive buckets that partition the cases, each passing the test if single cases do, no two neighbours still mergeable |
| `SwitchBuckets.MergeBack` | lcc/src/stmt.c:397-400 | the inner loop keeps the partition while the newest bucket swallows its neighbours |
| `SwitchBuckets.MergeTwo` | lcc/src/stmt.c:398-399 | one merge keeps the partition and the density of every bucket, and leaves the buckets before it unmergeable |
| `SwitchBuckets.BucketFits` | lcc/src/stmt.c:6-10 | a bucket of density at least 0.5 has a table of at most two entries per case |
| `SwitchBuckets.TableBound` | lcc/src/stmt.c:390-403 | at density 0.5 or more all jump tables of a switch together have at most twice as many entries as there are cases |
| `SwitchCode.Generator.SwCode` | lcc/src/stmt.c:404-472 | the instructions appended to the code list and the labels drawn are those of the decision tree over the buckets; terminates since ub - lb falls |
| `SwitchCode.Generator.BucketTests` | lcc/src/stmt.c:423-458 | equality tests for up to three cases, otherwise range tests and a table; the low test is left out for an unsigned table from 0 |
| `SwitchCode.Generator.BranchLabels` | lcc/src/stmt.c:408-420 | which labels are generated and which are the default |
| `SwitchCode.Generator.SubTrees` | lcc/src/stmt.c:460-471 | each subtree follows under its own label |
| `SwitchProof.TestsRun` | lcc/src/stmt.c:426-428 | a run of equality tests sends exactly the cases it covers to their labels |
| `SwitchProof.BucketRun` | lcc/src/stmt.c:423-458 | a bucket sends its own cases to their targets and passes every other operand on as its tests say |
| `SwitchProof.EmitDefs` | lcc/src/stmt.c:408-471 | every label a subtree defines was drawn from the counter for it, so no two collide |
| `SwitchProof.EmitRun` | lcc/src/stmt.c:404-472 | away from the trap, the code of any run of buckets sends every operand to its target in whatever code it stands |
| `SwitchProof.TrapRun` | lcc/src/stmt.c:448-450 | with a table from 0 of an unsigned type and no case -1, operand -1 reaches that table and is indexed outside it |
| `SwitchProof.BucketsApart` | lcc/src/stmt.c:397-400 | neighbouring buckets never touch: touching ones would have been merged |
| `SwitchProof.DispatchCorrect` | lcc/src/stmt.c:390-480 | for distinct sorted cases the code reaches the label of the case equal to x, else the default, for every operand x, if and only if no bucket is a table that starts at 0 of an unsigned type |
| `SwitchProof.SwGen` | lcc/src/stmt.c:390-403 | buckets and code of swgen as a whole; every operand dispatched correctly when no table is a trap; at a density from 0.5 to 1 the tables hold at most two entries per case |
| `SwitchProof.SwStmt` | lcc/src/stmt.c:355-357 | swgen followed by the branch to the default label, for switches without cases too |
| `SwitchProof.FillTable` | lcc/src/dag.c:527-538 | the table filled by emitcode holds the label of v[0] + i at entry i, the default in every gap |
| `Qsort.Med3` | example/bg_lib.c:96-101 | the element chosen lies between the two others in the order of the comparator |
| `Qsort.Pivot` | example/bg_lib.c:120-133 | the pivot is an index of the range, whatever its length |
| `Qsort.Swap` | example/bg_lib.c:82-90 | exchanges two elements and is a shuffle of the range |
| `Qsort.VecSwap` | example/bg_lib.c:92-94 | exchanges two blocks element by element and leaves the rest alone |
| `Qsort.InsertionSort` | example/bg_lib.c:113-119 | sorts the range; its result is a permutation of it |
| `Qsort.InsertDown` | example/bg_lib.c:116-117 | one element sinks to its place among the sorted ones before it |
| `Qsort.Scan` | example/bg_lib.c:135-166 | the partition loop ends with the four zones equal, less, greater, equal and pb just above pc |
| `Qsort.ScanUp` | example/bg_lib.c:140-149 | the upward scan keeps the zones and stops at a greater key |
| `Qsort.ScanDown` | example/bg_lib.c:150-159 | the downward scan keeps the zones and stops at a smaller key |
| `Qsort.ZonesUp` | example/bg_lib.c:142-148 | one step up keeps the zones, moving an equal key to the left end |
| `Qsort.ZonesDown` | example/bg_lib.c:152-158 | one step down keeps the zones, moving an equal key to the right end |
| `Qsort.ZonesSwap` | example/bg_lib.c:162-165 | exchanging a greater and a smaller key keeps the zones |
| `Qsort.Gather` | example/bg_lib.c:175-179 | the two vector swaps leave the smaller keys first, then the equal ones, then the greater ones |
| `Qsort.Partition` | example/bg_lib.c:120-179 | one round partitions the range around a pivot, or moves nothing |
| `Qsort.SortLess` | example/bg_lib.c:180-181 | the recursion sorts the smaller keys and leaves only the greater ones to sort |
| `Qsort.Round` | example/bg_lib.c:110-188 | one turn of the goto loop sorts a prefix of the range that is never empty, below all that is left |
| `Qsort.QSort` | example/bg_lib.c:103-190 | for every total preorder and every range: terminates with the range sorted and permuted, nothing outside it touched |
| `Qsort.SortArray` | example/bg_lib.c:103-190 | a sorted permutation of the array |
| `Qsort.ShuffledMeans` | example/bg_lib.c:82-94 | what exchanges inside a range leave behind is a permutation of the range, the rest unchanged |
| `Qsort.PartSorted` | example/bg_lib.c:180-188 | sorting the smaller part of a parted range leaves it sorted up to the greater part |
| `Bytecode.WordRoundTrip` | q3asm/q3asm.c:530-541 | EmitInt followed by LittleEndianToHost gives back every 32-bit value |
| `Bytecode.FetchEncoded` | src/vm/vm.c:717-783 | in the encoding of any instruction list, decoding at the position of instruction k gives that instruction and its length, in spite of lengths 1, 2 and 5 |
| `Bytecode.EncodedAt` | q3asm/q3asm.c:1308-1316 | where instruction k stands in the code segment |
| `Bytecode.PointersIncrease` | src/vm/vm.c:724-739 | instructionPointers strictly increase |
| `Bytecode.ExpandFits` | src/vm/vm.c:703-704 | the expanded code never needs more words than the code segment has bytes |
| `Loader.Vm.ExpandCode` | src/vm/vm.c:717-783 | the first loop leaves the expanded words and the word offset of every instruction |
| `Loader.Vm.ExpandInstr` | src/vm/vm.c:726-782 | one turn of it |
| `Loader.Vm.TranslateInstr` | src/vm/vm.c:792-843 | one turn of the second loop: refuses a branch to no instruction, lets instructionCount through and reads behind the pointers, otherwise translates the operand |
| `Loader.Vm.TranslateJumps` | src/vm/vm.c:784-844 | the first branch to no instruction decides what becomes of the program; without one every operand is translated |
| `Loader.Vm.PrepareInterpreter` | src/vm/vm.c:694-846 | both loops on the bytes of any well-formed program: accepted exactly if every branch names an instruction, and what codeBase and instructionPointers hold then |
| `Loader.AcceptedExactly` | src/vm/vm.c:816-827 | the test lets a program through without a stray read exactly when every branch names an instruction |
| `Loader.RejectedExactly` | src/vm/vm.c:816-827 | and refuses it exactly when the first branch that names no instruction is not one to instructionCount |
| `Loader.TranslatedAt` | src/vm/vm.c:790-844 | the loaded words of instruction k stand at its pointer |
| `Machine.DataSize` | src/vm/vm.c:493-504 | the data size is the least power of two that holds data, lit and bss |
| `Machine.MaskedIsModulo` | src/vm/vm.c:1034-1063 | masking an address with dataMask is reduction modulo that power |
| `Machine.Masked` | src/vm/vm.c:502-504 | every masked access of up to four bytes lies inside dataAlloc |
| `Machine.BranchIgnoresOperand` | src/vm/vm.c:1228-1431 | a branch looks at its operand only to go there |
| `Words.Truncates` | src/vm/vm.c:1446-1456 | division and remainder as C defines them: they make up x, the remainder is smaller than y and has the sign of x |
| `Words.OperatorsBitwise` | src/vm/vm.c:1470-1481 | bit k of &, | and ^ from bit k of both operands |
| `Bytecode.ByteAt` | q3asm/q3asm.c:530-541 | byte i of a word counts 256^i |
| `Machine.CopiedBytes` | src/vm/vm.c:672-687 | byte by byte: a block copy inside the data moves n bytes and changes nothing else, any other changes nothing |
| `Machine.HostCalled` | src/vm/vm.c:1076-1135 | what a system call is: the host sees the return word at programStack and the call number behind it, its result replaces the number on the operand stack, its image is the new one, control comes back by the word it leaves |
| `Machine.Dropped` | src/vm/vm.c:1150-1155 | OP_POP drops what OP_CONST or OP_PUSH put on the operand stack, every older slot where it was |
| `Lockstep.StepSimulated` | src/vm/vm.c:784-846 | one step of the instruction-indexed machine is one step of the loaded words at instructionPointers[i], return words translated in both |
| `Lockstep.GotoSimulated` | src/vm/vm.c:1136-1146 | every way control can go from an instruction leads to matching places |
| `Lockstep.RangeChecked` | src/vm/vm.c:1136-1222 | a jump or call goes to the instruction numbered or fails, a return by -1 ends the run, one to no place in the code fails |
| `Lockstep.Simulation` | src/vm/vm.c:694-846 | for every number of steps that does not get stuck, the loaded program is in the same state at the word offset of the same instruction |
| `Lockstep.RunSimulated` | src/vm/vm.c:967-1431 | step-by-step simulation lifts to runs |
| `Interpreter.Interp.Reload` | src/vm/vm.c:957-960 | DISPATCH makes r0 and r1 the two top slots |
| `Interpreter.Interp.PushWord` | src/vm/vm.c:1020-1033 | pushing shifts the cache instead of reloading it and the cache is right again |
| `Interpreter.Interp.LoadTop` | src/vm/vm.c:1034-1050 | masked loads of 1, 2 or 4 bytes replace top of stack and cache alike |
| `Interpreter.Interp.StoreTop` | src/vm/vm.c:1052-1063 | masked stores of r0 at r1 |
| `Interpreter.Interp.StoreArg` | src/vm/vm.c:1064-1070 | an argument goes to its offset from programStack |
| `Interpreter.Interp.MoveBlock` | src/vm/vm.c:672-687 | VM_BlockCopy: copies non-overlapping ranges, reports and copies nothing out of range |
| `Interpreter.Interp.BlockCopy` | src/vm/vm.c:1071-1075 | the block copy instruction |
| `Interpreter.Interp.Unary` | src/vm/vm.c:1435-1437 | operators on the top of the stack |
| `Interpreter.Interp.Binary` | src/vm/vm.c:1438-1496 | integer operators on the cache, float operators on the slots; none where C is undefined |
| `Interpreter.Interp.Branch` | src/vm/vm.c:1228-1431 | the comparison of the cached operands, both popped |
| `Interpreter.Interp.Call` | src/vm/vm.c:1076-1147 | return word stored, then a system call, a range error or a call by instruction number |
| `Interpreter.Interp.SystemCall` | src/vm/vm.c:1083-1135 | the host is given the call number and programStack, and control comes back by the word at programStack |
| `Interpreter.Interp.Leave` | src/vm/vm.c:1181-1208 | frame removed, -1 ends the run, an offset out of range is an error |
| `Interpreter.Interp.Exec` | src/vm/vm.c:1005-1496 | every instruction of the cached interpreter is one of the plain stack machine, cache valid again, for all dispatch paths |
| `Interpreter.Interp.Dispatch` | src/vm/vm.c:954-960 | fetch and execution at a word offset refine one step of the word machine |
| `Interpreter.Interp.Interpret` | src/vm/vm.c:967-1496 | every run of the cached interpreter refines the run of the plain machine on the loaded words |
| `Dumptree.OperatorCorrect` | src/vm/vm.c:1438-1496 | the interpreter operator on the words of x and y gives the word of C's result, for every operator, signed and unsigned |
| `Dumptree.CvtCorrect` | q3asm/opstrings.h:24-168 | dropped conversions and sign extensions give the converted value, unless an unsigned narrowing is widened again |
| `Dumptree.LoadCorrect` | src/vm/vm.c:1034-1050 | a load pushes the value in memory as far as its type reads it |
| `Dumptree.CodeCorrect` | lcc/src/bytecode.c:87-150 | from any depth that leaves room, the code of a tree pushes exactly its value and leaves slots below, memory and frame alone, if every unsigned narrowing that is widened again loses no bits |
| `Dumptree.EveryPartExactly` | lcc/src/bytecode.c:87-150 | and only then is the code of every part of the tree right: the condition is exact at any depth |
| `Dumptree.AsgnCorrect` | lcc/src/bytecode.c:131-138 | the code of an assignment performs its store |
| `Dumptree.CopyCorrect` | lcc/src/bytecode.c:89-96 | the code of a structure assignment performs its block copy |
| `Dumptree.ArgCorrect` | lcc/src/bytecode.c:117-122 | the code of an argument stores it in its slot |
| `Dumptree.ForestCorrect` | lcc/src/bytecode.c:152-155 | the code of a forest performs its stores in order and leaves the operand stack as it was |
| `Dumptree.RewidenedExactly` | q3asm/opstrings.h:24-168 | narrowing an unsigned word and widening it again, both dropped by q3asm, is right if and only if the word needed no narrowing |
| `Dumptree.DroppedNarrowing` | q3asm/opstrings.h:24-168 | the code of (int)(unsigned char)256u pushes 256 where C has 0 |
| `Dumptree.OnlyNarrowings` | q3asm/opstrings.h:24-168 | nothing but a dropped narrowing leaves a word with bits above its unsigned type |
| `EndToEnd.CodeInProgram` | lcc/src/bytecode.c:87-150 | straight-line code inside a program runs as it does by itself |
| `EndToEnd.CodePerforms` | src/vm/vm.c:694-846 | the loaded words of a program that holds the code of a forest perform its stores |
| `EndToEnd.LoadProgram` | src/vm/vm.c:694-846 | the loader establishes what the simulation starts from |
| `EndToEnd.RunForest` | src/vm/vm.c:871-1496 | from trees to the running interpreter: bytes loaded and run for as many instructions as the forest has end just after it, stores performed in order |
| `Branches.CompareCorrect` | src/vm/vm.c:1228-1347 | for all six comparisons, signed and unsigned, the branch opcode on the words of x and y is taken exactly if the comparison holds of x and y |
| `Branches.ComparisonCorrect` | lcc/src/bytecode.c:87-150 | the code of two trees and a branch goes to its operand exactly if the comparison holds of their values, else on; memory, frame and stack as before |
| `Branches.JumpCorrect` | src/vm/vm.c:1216-1227 | the code of a tree and OP_JUMP goes to the instruction whose number is the value of the tree, the stack as before |
| `Assembler.Asm.EmitInt` | q3asm/q3asm.c:530-541 | four bytes appended, lowest first, or the assembler ends |
| `Assembler.Asm.AssembleData` | q3asm/q3asm.c:1168-1202 | byte: the segment by width, the bytes lowest first |
| `Assembler.AlignMask` | q3asm/q3asm.c:1148-1149 | the mask expression is rounding up, for powers of two |
| `Assembler.Asm.FinishPass` | q3asm/q3asm.c:1568-1572 | the loop rounds every segment up to words |
| `Assembler.Asm.AssembleLines` | q3asm/q3asm.c:1553-1566 | the loop takes every line its step, and stops where Error ends the assembler |
| `Assembler.Asm.Assemble` | q3asm/q3asm.c:1538-1577 | both passes over all lines; when they report no error, the code segment holds the encoding of the program the lines stand for and nothing else up to whole words, instructionCount is its length, the segments lie where the loader puts them, every code label is the number of the next instruction and every data label the address of its datum |
| `Addresses.OutcomeRight` | q3asm/q3asm.c:1538-1577 | that is what both error-free passes leave behind, as a statement about the lines |
| `AssemblyLines.StepEmits` | q3asm/q3asm.c:875-1225 | what bytes an error-free line appends and to which segment, in either pass |
| `AssemblyLines.StepRest` | q3asm/q3asm.c:875-1225 | what an error-free line does to everything but the segments |
| `AssemblyLines.StepErrors` | q3asm/q3asm.c:497-508 | no line takes an error back |
| `AssemblyLines.OutputLength` | q3asm/q3asm.c:875-1202 | the number of bytes a line emits does not depend on the pass |
| `AssemblyLines.StepLayout` | q3asm/q3asm.c:1233-1319 | how a line advances imageUsed, currentSegment and instructionCount depends on the line and the layout only |
| `Passes.LayoutAfter` | q3asm/q3asm.c:1553-1566 | after k lines of an error-free pass the layout is a function of the lines alone |
| `Passes.PassesAgree` | q3asm/q3asm.c:1538-1577 | both passes of an error-free source that opens with a segment directive have the same layout after every line |
| `Passes.TwoCleanPasses` | q3asm/q3asm.c:1538-1577 | an error-free assembly is error-free in each pass |
| `Passes.BasesRight` | q3asm/q3asm.c:1540-1544 | the segment bases of pass 1 are the sizes that pass 1 ends with: data from 0, then lit, then bss |
| `AssembledCode.OutputEncodes` | q3asm/q3asm.c:888-1021 | what a line as lcc prints it emits is the encoding of its instructions |
| `AssembledCode.CodeSegment` | q3asm/q3asm.c:1553-1566 | after k lines the code segment is the encoding of the instructions of those lines, instructionCount their number |
| `AssembledCode.RestUntouched` | q3asm/q3asm.c:515-541 | no line of a pass writes behind the bytes of the code segment in use |
| `Symbols.StepKeepsSymbol` | q3asm/q3asm.c:550-603 | a line changes no symbol but a new one, and the last one when it moves the data |
| `Symbols.OneWidthSettled` | q3asm/q3asm.c:849-862 | data of one width up to the next definition moves no symbol a second time |
| `Symbols.DataLabel` | q3asm/q3asm.c:1208-1225 | a label of data of one width ends pass 0 at the segment and offset of its first datum |
| `Addresses.LookedUp` | q3asm/q3asm.c:612-654 | a symbol of pass 0, looked up at any line of pass 1 |
| `Addresses.LoadedAt` | src/vm/vm.c:510-516 | where the bytes of data and lit lie in dataBase |
| `Addresses.DatumStays` | q3asm/q3asm.c:515-541 | emitted bytes are still in place at the end of the pass |
| `Addresses.DatumInPlace` | q3asm/q3asm.c:612-654 | the address a label stands for at any line of pass 1 is where the bytes of its first datum lie in the loaded image |
| `Addresses.SpaceInPlace` | q3asm/q3asm.c:1155-1166 | a label of reserved space: its address in the loaded image, all of it zero |
| `Addresses.CodeLabelIndex` | q3asm/q3asm.c:1208-1217 | a code label or procedure name stands for the number of instructions before it |
| `Addresses.WrittenProgram` | q3asm/q3asm.c:1445-1490 | the file holds the encoding of the program, then up to whole words what was there before both passes, and its header the number of instructions |
| `Addresses.ZeroPadded` | q3asm/q3asm.c:1568-1572 | from a blank image the padding is zeros |
| `Operands.NamedOperand` | q3asm/q3asm.c:762-830 | in an error-free source, if the name is the address a, a line with operand name + k leaves the opcode and the four bytes of a + k in the code segment |
| `Operands.NumberOperand` | q3asm/q3asm.c:762-830 | and a number n + k those of n + k |
| `Operands.NamedDatum` | q3asm/q3asm.c:1023-1040 | address name + k leaves the bytes of a + k in the data segment |
| `Operands.PlainDatum` | q3asm/q3asm.c:1168-1202 | byte leaves the bytes of its value in data or lit |
| `Operands.CodeLabelAddress` | q3asm/q3asm.c:1208-1217 | a code label is the address counted in instructions |
| `Operands.DataLabelAddress` | q3asm/q3asm.c:1208-1225 | a data label is the address at which the loaded image holds its datum |
| `Definitions.ExpandedApart` | q3asm/q3asm.c:562-567 | expanded names meet exactly if the names are equal, and of one file if they are local |
| `Definitions.DefinedOnce` | q3asm/q3asm.c:571-575 | an error-free source defines no name twice |
| `Definitions.UsedDefined` | q3asm/q3asm.c:639-655 | an error-free source defines every name whose value it uses |
| `Definitions.EquAddress` | q3asm/q3asm.c:1126-1139 | an equate is its value, counted from the base of the segment it stands in |
| `Definitions.Reserved` | q3asm/q3asm.c:1141-1166 | align goes to the least multiple of its operand, skip exactly as far as its operand, in the current segment only; definitions take no space |
| `Definitions.TargetsRight` | q3asm/q3asm.c:1023-1040 | the jump target segment holds the addresses that address lines give local names, in order, and nothing else |
| `Frames.CallStep` | src/vm/vm.c:1076-1147 | in a program whose functions begin with OP_ENTER and leave by OP_LEAVE of that frame only: a call pushes an activation that lies below its caller's frame and returns to the instruction after the call |
| `Frames.SystemStep` | src/vm/vm.c:1083-1135 | a polite system call comes back to the next instruction with the same programStack |
| `Frames.LeaveStep` | src/vm/vm.c:1181-1208 | a return pops the activation: programStack is the caller's and control just after the call; the outermost one ends the run |
| `Frames.StepKeeps` | src/vm/vm.c:1005-1496 | every step that does not overwrite saved words or jump out of its function keeps the protocol |
| `Frames.RunKeeps` | src/vm/vm.c:967-1496 | so does every run of such steps |
| `Frames.CallReturns` | src/vm/vm.c:1076-1208 | whatever a called function does, calls included: when its activation is popped the caller goes on just after the call with the programStack it called with |
| `Frames.NestedBelow` | src/vm/vm.c:1093-1098 | the frames of a run all lie below the frame that made the system call, if the run entered there |
| `Frames.EntryInv` | src/vm/vm.c:892-912 | a state as entry leaves it starts the frame protocol with the function at instruction 0 |
| `Procedures.FrameHeld` | q3asm/q3asm.c:972-999 | between proc and endproc q3asm holds the rounded sizes of that proc line |
| `Procedures.BranchOperand` | q3asm/q3asm.c:1299-1317 | a branch to a label becomes a branch to the number of the instruction behind the label |
| `Procedures.LineInside` | q3asm/q3asm.c:875-1021 | no line of a procedure but its first and last makes an ENTER, a LEAVE of another frame or a branch out of it |
| `Procedures.ProcedureIsFn` | q3asm/q3asm.c:972-1021 | the lines from proc to endproc of an error-free source become a function as the frame protocol needs it: ENTER first, LEAVE last, every LEAVE of the same frame, branches inside |
| `Procedures.LinkedOk` | q3asm/q3asm.c:1445-1490 | the file written for an error-free source of procedures is a program the loader accepts |
| `Procedures.FunctionsOk` | q3asm/q3asm.c:1538-1577 | all its procedures are such functions |
| `Statics.StepPolite` | src/vm/vm.c:1136-1147 | a jump or call whose operand is the constant just before it stays in its function or enters one, if that constant is well chosen |
| `Statics.StepReady` | src/vm/vm.c:1005-1496 | whatever a step does, control comes to such a jump or call only past its constant |
| `Statics.TameIsPolite` | src/vm/vm.c:967-1496 | so of a run only the computed jumps and calls need be asked to behave |
| `StaticLines.LabelNotStatic` | q3asm/q3asm.c:1208-1217 | a label does not stand between the constant and the jump or call |
| `StaticLines.InstrStatic` | q3asm/q3asm.c:1299-1317 | every jump or call by name in a procedure goes to a label of it or to the function named, in the assembled program |
| `StaticLines.NamedStatics` | q3asm/q3asm.c:1538-1577 | and so in the whole program of an error-free source |
| `StaticLines.TameRunKeeps` | src/vm/vm.c:967-1496 | every run of an assembled source keeps the frame protocol, if it stores over no saved word, computes no jump or call that leads astray, and the host keeps the return word |
| `StaticLines.TameCallReturns` | src/vm/vm.c:1076-1208 | a call in such a run comes back to the instruction after it with its programStack, whatever happens in between |
| `Entry.Enter` | src/vm/vm.c:892-919 | VM_CallInterpreted writes its frame, the arguments, 0 and -1, and nothing else, and leaves what starts the frame protocol |
| `Entry.NestedRun` | src/vm/vm.c:1093-1098 | a run entered from a system call at its programStack has all its frames below that of the caller, and can only end with the programStack it began with |
| `Entry.FirstIsFunction` | src/vm/vm.c:871-919 | the first procedure of a source is the function at instruction 0 |
| `Entry.AssembledRun` | src/vm/vm.c:871-1496 | every such run of an assembled source from its entry keeps the frame protocol to the end |
| `FrameLayout.Counters.Gen02` | lcc/src/bytecode.c:180-189 | arguments add up in words at least, a call takes the maximum and starts over |
| `FrameLayout.Counters.Gen01` | lcc/src/bytecode.c:191-197 | the counters after a tree are those of its arguments and calls in postfix order |
| `FrameLayout.Counters.GenCode` | lcc/src/dag.c:418-474 | the counters and the places of all locals after a code list with nested blocks |
| `FrameLayout.Counters.Function` | lcc/src/bytecode.c:161-179 | the two numbers of a proc line, from counters that start at 0 |
| `FrameLayout.PlaceParams` | lcc/src/bytecode.c:165-171 | the loop over the parameters: the offset of each |
| `FrameLayout.WordParams` | lcc/src/bytecode.c:165-171 | parameter k of words is at offset 4 * k |
| `FrameLayout.PlacesAbove` | lcc/src/bytecode.c:217-222 | locals are aligned and lie above everything in scope |
| `FrameLayout.LocalsFit` | lcc/src/gen.c:104-113 | every local of a function ends below the first number of its proc line, though blocks share space; one of them ends there |
| `FrameLayout.PlacesSnug` | lcc/src/bytecode.c:217-222 | a local lies behind all locals in scope, at the first place its alignment allows behind one of them |
| `FrameLayout.CountedExactly` | lcc/src/bytecode.c:180-189 | argoffset is what is pending since the last call, maxargoffset the greatest of what the arguments of a call take |
| `FrameLayout.ArgsFit` | lcc/src/bytecode.c:161-179 | so is the second number of a proc line |
| `FrameLayout.ParamsSnug` | lcc/src/bytecode.c:165-171 | the first parameter is at 0, each other at the first place behind the one before it |
| `Regions.OffsetInPass1` | q3asm/q3asm.c:875-906 | currentArgOffset before any line of pass 1, from the ARG and CALL lines before it |
| `Regions.SlotCounted` | lcc/src/bytecode.c:180-189 | the offset q3asm gives an ARG is counted in maxargoffset from its CALL on |
| `Regions.ArgSlot` | q3asm/q3asm.c:889-906 | an ARG before its CALL stores at the next slot 8, 12, 16 and so on, and the slot lies in the space for arguments |
| `Regions.LocalSlot` | q3asm/q3asm.c:954-970 | ADDRL of a local that lcc placed stays in the space for locals |
| `Regions.ParamSlot` | q3asm/q3asm.c:937-952 | ADDRF of parameter offset v is 8 + v above the caller's programStack |
| `Regions.FrameRegions` | q3asm/q3asm.c:937-999 | in an assembled function the header, the slots of ARGs, the locals that ADDRL names and the parameters that ADDRF names lie apart |
| `Parameters.ArgumentsStored` | src/vm/vm.c:1064-1070 | the arguments of a call, performed in order with other roots between them, each end in their slot and stay there |
| `Parameters.CallArrives` | src/vm/vm.c:1076-1180 | the code of a call, run in a program, arrives behind the OP_ENTER of the function with its frame taken and only the return word written besides |
| `Parameters.ValueArrives` | src/vm/vm.c:1076-1180 | there the word 8 + 4 * k above the caller's programStack is the value of argument k |
| `Toolchain.TreeMade` | lcc/src/bytecode.c:87-150 | what q3asm assembles from the lines that dumptree prints for a tree is the code of the tree |
| `Toolchain.ForestMade` | lcc/src/bytecode.c:152-155 | and so for a forest, with line directives between its roots |
| `Toolchain.ForestPasses` | q3asm/q3asm.c:889-906 | the arguments of a printed forest go to the slots 8, 12, 16 and so on |
| `Toolchain.CallHeld` | lcc/src/bytecode.c:117-155 | the lines that dumptree prints for a call, assembled, are the code of the call in the program |
| `Toolchain.ParameterArrives` | q3asm/q3asm.c:937-952 | from printed lines to printed lines: run from the first line of a call, through the arguments, OP_CALL and OP_ENTER, ADDRF of parameter j in the callee addresses the value that the caller evaluated for argument j |
| `Toolchain.ComparisonHeld` | lcc/src/bytecode.c:87-150 | the lines that dumptree prints for a comparison, assembled, are its code, the label turned into the number of the instruction behind it |
| `Toolchain.ComparisonRuns` | src/vm/vm.c:1228-1347 | from printed lines to a run: a comparison takes an assembled program to the line of its label if it holds of the values of its operands, else to the next line |
| `Results.ReturnRuns` | q3asm/q3asm.c:909-922 | from printed lines to a run: ret takes the program back to where the return word says, in the frame of the caller, the value of the returned tree on top of its operand stack |
| `Results.EndRuns` | q3asm/q3asm.c:1001-1021 | a procedure that runs to its end comes back with some word pushed |
| `Results.PopRuns` | q3asm/q3asm.c:924-935 | pop drops the word that a call leaves, and goes on |
| `Toolchain.BuildAndLoad` | q3asm/q3asm.c:1538-1577 | assembling an error-free source gives the bytes and the count of the program it stands for |
| `Toolchain.RunSource` | src/vm/vm.c:871-1496 | a source assembled, loaded and run from the first line of a forest: the interpreter ends at the line behind it with the forest's stores performed |
| `Labels.LabelTable.EquateLab` | lcc/src/stmt.c:597-601 | linking a label to one whose chain does not come back keeps the chains acyclic |
| `Labels.LabelTable.Equal` | lcc/src/stmt.c:602-608 | whether a label is on the chain of another; terminates on acyclic chains |
| `Labels.LabelTable.Equated` | lcc/src/dag.c:489-494 | the last label of the chain |
| `Labels.LinkKeepsAcyclic` | lcc/src/stmt.c:597-601 | a link keeps the chains acyclic if its target's chain does not contain the label |
| `Labels.CycleUnranked` | lcc/src/stmt.c:597-601 | and if it does, the label never resolves |
| `Labels.AcyclicResolves` | lcc/src/dag.c:489-494 | acyclic links resolve every label |
| `ShortCircuit.ListCorrect` | lcc/src/dag.c:112-135 | the list made for a condition jumps to tlab exactly when it holds (to flab exactly when it does not) and else falls through, evaluating what C evaluates in C's order |
| `ShortCircuit.ListExtends` | lcc/src/dag.c:386-393 | listing a condition places each generated label once and links none twice |
| `ShortCircuit.ListAcyclic` | lcc/src/dag.c:386-393 | forwarding a label to the label in front of it never closes a cycle |
| `ShortCircuit.WalkCorrect` | lcc/src/dag.c:38-50 | a condition walked on its own: forest, links and runs from the start of the forest |
| `ShortCircuit.NegatedHolds` | lcc/src/dag.c:254-263 | the relation listed for a false jump is the negation, on integers |
| `ShortCircuit.Lister.Walk` | lcc/src/dag.c:101-267 | the recursive procedure on forest, label counter and links makes that list |
| `ShortCircuit.Lister.PlaceLabel` | lcc/src/dag.c:386-393 | labelnode: forwards to a label in front, otherwise places the label |
| `NodeCache.KillKeeps` | lcc/src/dag.c:82-95 | after an assignment to a program symbol, killed for, what the cache reads, what of that a jump has passed and what has been written are exactly told by the symbol |
| `NodeCache.SkipKeeps` | lcc/src/dag.c:162-168 | a jump listed without a reset passes by every entry |
| `NodeCache.FoundKeeps` | lcc/src/dag.c:57-60 | a node found in the cache was unwritten unless what it reads was among the written |
| `ValueNumbering.Dag.constructor` | lcc/src/dag.c:38-50 | an empty cache, as every walk starts from |
| `ValueNumbering.Dag.NewNode` | lcc/src/dag.c:67-81 | a node no later tree finds |
| `ValueNumbering.Dag.MakeNode` | lcc/src/dag.c:52-66 | the cached node of that shape, or a new one in its bucket |
| `ValueNumbering.Dag.Kill` | lcc/src/dag.c:82-95 | removes exactly the loads of the symbol and those through pointers |
| `ValueNumbering.Dag.KillChain` | lcc/src/dag.c:87-94 | unlinks exactly the entries to be killed from one chain |
| `ValueNumbering.Dag.Reset` | lcc/src/dag.c:96-100 | no entry is left |
| `ValueNumbering.Dag.ListBarrier` | lcc/src/dag.c:386-393 | a label, a call or a JUMP tree is listed and no entry is left |
| `ValueNumbering.Dag.ListJump` | lcc/src/dag.c:162-168 | a jump that is listed for a constant condition forgets nothing |
| `ValueNumbering.Dag.ListAssign` | lcc/src/dag.c:304-311 | kill for a program symbol, reset for anything else |
| `ValueNumbering.Dag.ListConst` | lcc/src/dag.c:160-173 | a constant with a label: a jump if it decides the condition that way; without one, a node |
| `ValueNumbering.DecidedMeans` | lcc/src/dag.c:160-173 | a constant as a condition lists a jump exactly if its truth is what the label is for |
| `ValueNumbering.Dag.ListPure` | lcc/src/dag.c:313-318 | an operator: its node has that operator, its left kid the node that spells the left tree, its right kid the node that spells the right one |
| `ValueNumbering.Dag.ListLoad` | lcc/src/dag.c:341-350 | a load: its kid spells the address; a volatile one has a node of its own that is not cached |
| `ValueNumbering.Dag.ListCall` | lcc/src/dag.c:202-229 | a call: the root over the nodes of both trees, and a reset |
| `ValueNumbering.Dag.ListArg` | lcc/src/dag.c:230-242 | an argument: those before it first, then a root over the node of its tree |
| `ValueNumbering.Dag.ListCompare` | lcc/src/dag.c:244-267 | a comparison: a root over the nodes of both trees, on the relation or its negation |
| `ValueNumbering.BranchMeans` | lcc/src/dag.c:250-264 | that root is taken exactly if the comparison is as the label asks, for all operands |
| `ValueNumbering.Dag.ListRoot` | lcc/src/dag.c:376-385 | a new node over kids that spell trees is listed as the root of those trees |
| `ValueNumbering.SpellsLater` | lcc/src/dag.c:52-81 | nodes made later leave what a node spells |
| `ValueNumbering.ListedOnce` | lcc/src/dag.c:105-109 | a shared tree listed again adds nothing and gives the same node |
| `ValueNumbering.JoinsForget` | lcc/src/dag.c:112-159 | behind &&, ||, calls, jumps and ?: no entry is left and the last root is the label, call or jump; an outermost condition does not see what was cached before |
| `ValueNumbering.Dag.ListStore` | lcc/src/dag.c:268-312 | an assignment: both sides, the root over their nodes, kill or reset, and the value listed a second time |
| `ValueNumbering.Dag.ListLogic` | lcc/src/dag.c:112-135 | && and ||, with the reset at the outermost and the label behind |
| `ValueNumbering.Dag.ListNodes` | lcc/src/dag.c:101-385 | over every tree, shared subtrees remembering their node: the node returned spells the tree, every tree that remembers a node is spelt by it, every root with operands is over the nodes that spell its trees; and what is cached, written or passed by a jump is what Listed reads off the tree |
| `ValueNumbering.Dag.Walk` | lcc/src/dag.c:38-50 | the same for a walk, which ends with an empty cache |
| `CacheProof.Reaches` | lcc/src/dag.c:101-385 | listing a tree, shared or not, takes no other steps than those its own nodes account for |
| `CacheProof.NoneMarkedExactly` | lcc/src/dag.c:82-95 | no entry is written, or passed by a jump, exactly when nothing that is read is told to be |
| `CacheProof.List` | lcc/src/dag.c:101-385 | after listnodes on any tree nothing has survived a label, a call or a JUMP tree; some entry has been passed by a jump, and some entry has been written, exactly if Listed, a function of the tree and of what was cached before, says so |
| `CacheProof.SafeTree` | lcc/src/dag.c:304-311 | nothing is written under the cache if the tree assigns to no symbol of which a part is loaded in it or cached before |
| `CacheProof.NoneSkipped` | lcc/src/dag.c:162-168 | no jump passes by an entry if no constant decides a condition of the tree |
| `CacheProof.NeverHit` | lcc/src/simp.c:84-119 | if each computed symbol that is loaded is loaded by one tree, however often that is shared, no written load is looked up |
| `CacheProof.FoundSound` | lcc/src/dag.c:52-66 | a node found where control can come has seen, since it was made, no label, jump or call and no assignment to what it reads |
| `CacheProof.ListNew` | lcc/src/simp.c:84-119 | so for every walk over such a tree, and for the walks after it |
| `CacheProof.CompoundOneLoad` | lcc/src/expr.c:76-78 | part op= v, with one address tree on both sides, is such a tree |
| `CacheProof.IncrementOneLoad` | lcc/src/expr.c:265-276 | and so is part++ |
| `CacheProof.StaleLoad` | lcc/src/simp.c:84-119 | listnodes on (load of part of a symbol, assignment to the whole) leaves that load cached and written |
| `CacheProof.KeptAcrossJump` | lcc/src/dag.c:162-168 | listnodes on the condition (x == 1 && 0) && y leaves the load of x cached across the jump that the 0 lists |
| `Simplify.AddiExact` | lcc/src/simp.c:54-67 | addi accepts exactly the sums in range |
| `Simplify.SubiExact` | lcc/src/simp.c:178-180 | subi accepts exactly the differences in range and 0 - INT_MIN |
| `Simplify.MuliExact` | lcc/src/simp.c:148-161 | muli accepts exactly the products in range |
| `Simplify.DiviExact` | lcc/src/simp.c:122-131 | divi accepts exactly the quotients in range |
| `Simplify.IsPow2` | lcc/src/simp.c:578-586 | the exponent of a power of two above 1, else 0 |
| `Simplify.LowestBitCleared` | lcc/src/simp.c:581 | u & (u - 1) is 0 exactly for powers of two |
| `SimplifyProof.RootEffects` | lcc/src/tree.c:34-111 | root keeps the effects of a tree |
| `SimplifyProof.SimplifyBinRefines` | lcc/src/simp.c:205-561 | for every arithmetic, bitwise and shift operator on INT and UNSIGNED, the simplified tree has the same effects in the same order and the same value modulo 2^32 wherever C defines one |
| `SimplifyProof.SimplifyCmpRefines` | lcc/src/simp.c:291-464 | the same for comparisons |
| `SimplifyProof.DistributeRefines` | lcc/src/simp.c:488-495 | c1*(x + c2) is c1*x + c1*c2, and so for a difference |
| `SimplifyProof.PowerRefines` | lcc/src/simp.c:285-287 | a product with a power of two is a shift |
| `SimplifyProof.PowerDivides` | lcc/src/simp.c:398-399 | an unsigned quotient by a power of two is a shift |
| `SimplifyProof.PowerMasks` | lcc/src/simp.c:474-476 | an unsigned remainder by a power of two is a mask |
| `SimplifyProof.UnsignedRefines` | lcc/src/simp.c:413-434 | unsigned comparisons with 0 |
| `SimplifyProof.NegRefines` | lcc/src/simp.c:514-522 | negation |
| `SimplifyProof.BcomRefines` | lcc/src/simp.c:355-362 | complement |
| `SimplifyProof.AndRefines` | lcc/src/simp.c:346-349 | && with a constant on the left |
| `SimplifyProof.OrRefines` | lcc/src/simp.c:350-354 | || with a constant on the left |
| `SimplifyProof.NotRefines` | lcc/src/simp.c:523-526 | ! |
| `SimplifyProof.ConditionTruth` | lcc/src/expr.c:521-530 | cond makes a tree of the truth value of its operand |
| `SimplifyProof.CvtRefines` | lcc/src/simp.c:221-247 | conversions between the two readings of a word |
| `SimplifyProof.SimplifyBinInRange` | lcc/src/simp.c:205-561 | folding makes constants in range of their type if and only if the operation is not one of the overflows simplify lets through: 0 - INT_MIN, 1 << 31, and such a difference of distributed products |
| `SimplifyProof.MulIIs` | lcc/src/simp.c:465-513 | when a product distributed over a sum becomes a constant, which, and when it keeps one that is no int |
| `SimplifyTrees.NoProductOverflows` | lcc/src/simp.c:488-495 | over trees that simplify has built, distribution never makes or keeps a constant that is no int |
| `SimplifyTrees.SimplifiedBuilt` | lcc/src/simp.c:205-561 | what simplify makes of a tree, node by node, is well typed, of the type of the tree, and has no sum left to fold |
| `SimplifyTrees.InRangeExactly` | lcc/src/simp.c:205-561 | all constants made on the way up a whole tree are in range if and only if it nowhere meets 0 - INT_MIN or 1 << 31 |
| `SimplifyTrees.SimplifiedRefines` | lcc/src/simp.c:205-561 | and then the whole tree built through simplify has the effects of the original in the same order and its 32-bit value wherever C defines one |
| `Hidesets.Table.CheckHideset` | lcc/cpp/hideset.c:22-34 | membership in the set with the index |
| `Hidesets.Table.Canonical` | lcc/cpp/hideset.c:36-64 | two indices with equal sets are equal |
| `Hidesets.Table.InsertHs` | lcc/cpp/hideset.c:66-79 | the sorted set with one macro more and its length |
| `Hidesets.Table.NewHideset` | lcc/cpp/hideset.c:39-64 | the index of the set with np added if that has at most 30 macros, otherwise hs; old indices keep their meaning |
| `Hidesets.Table.UnionHideset` | lcc/cpp/hideset.c:84-92 | the union exactly if it has at most 30 macros, otherwise 30 of its macros, those of the first set among them |
| `TokenRows.Tokenrow.Grow` | lcc/cpp/tokens.c:88-101 | a longer row with the same contents |
| `TokenRows.Tokenrow.AdjustRow` | lcc/cpp/tokens.c:194-209 | what follows tp moves by nt either way, the rest stays |
| `TokenRows.Tokenrow.MoveTokenRow` | lcc/cpp/tokens.c:178-186 | a row copied over this one at tp |
| `TokenRows.Tokenrow.InsertRow` | lcc/cpp/tokens.c:130-142 | ntok tokens replaced by a row, tp just beyond it |
| `Macros.ReplacementLighter` | lcc/cpp/macro.c:177-221 | a replacement weighs less than the name it replaces, weights being powers of the number of macros not hidden |
| `Macros.ScanLighter` | lcc/cpp/macro.c:131-170 | so every step of the scan lowers the measure of what is left |
| `Macros.ExpansionComplete` | lcc/cpp/macro.c:131-170 | in an expansion no word is a macro name that is not hidden from it |
| `Macros.ExpansionIs` | lcc/cpp/macro.c:131-170 | the expansion as a relation: a word that is no name, no macro or hidden stands; any other gives way to its replacement, with the name added to what is hidden, expanded in turn |
| `Macros.ExpansionBoth` | lcc/cpp/macro.c:131-170 | object-like macros expand token by token, whatever follows |
| `Macros.IsLive` | lcc/cpp/macro.c:140-144 | the loop goes into a macro exactly if the token is a name, is defined and is not in the set that its hideset stands for |
| `Macros.Distribute` | lcc/cpp/macro.c:208-216 | the new hideset on the names of the replacement |
| `Macros.Expand` | lcc/cpp/macro.c:177-221 | the name replaced in the row, the measure lowered, the words still to become the same expansion |
| `Macros.ExpandRow` | lcc/cpp/macro.c:131-170 | terminates; the row becomes the expansion of its words from tp on, with hidesets the sets of the algorithm |
| `Grammar.ArmFollowsGrammar` | lcc/src/dagcheck.c:801-1904 | every attempt in _label is a rule of the grammar for that terminal, and the index it stores fits its bit-field and decodes to that rule |
| `Grammar.GrammarFollowsArms` | lcc/src/dagcheck.md:48-166 | every rule for a terminal is tried in its arm |
| `Grammar.ArmArity` | lcc/src/dagcheck.c:801-1904 | all attempts of an arm have as many kids as the arm labels |
| `Grammar.ChainShape` | lcc/src/dagcheck.md:56-69 | the chain rules and their costs |
| `Labelling.NoCheaperDerivation` | lcc/src/dagcheck.c:801-1904 | no derivation of a tree from a nonterminal costs less than the cost _label computes |
| `Labelling.DerivableLabelable` | lcc/src/dagcheck.c:801-1904 | a tree that _label refuses has no derivation at all |
| `Labelling.CostsClosed` | lcc/src/dagcheck.c:728-799 | no chain rule can lower a computed cost |
| `Labelling.RelaxCloses` | lcc/src/dagcheck.c:728-799 | lowering one cost and all that its chain rules then allow leaves the costs closed |
| `Labelling.TriesBound` | lcc/src/dagcheck.c:801-1904 | every attempt bounds the cost of its left side by the cost of its kids |
| `Labelling.BogusCosts` | lcc/src/dagcheck.md:56-69 | a derivation is free exactly when it takes no step through bogus |
| `Labeller.ValueRelaxes` | lcc/src/dagcheck.c:729-799 | on closed costs a closure lowers every cost to what the chain rules allow |
| `Labeller.VRelaxes` | lcc/src/dagcheck.c:737-748 | and so does the closure of V, which also reaches stmt |
| `Labeller.DagNode.ClosureValue` | lcc/src/dagcheck.c:729-735 | _closure_P, I, U, F and B: costs and rule fields after it, every change accounted for by its rule; terminates since each call lowers a cost |
| `Labeller.DagNode.ClosureV` | lcc/src/dagcheck.c:737-748 | _closure_V |
| `Labeller.DagNode.ClosureBogus` | lcc/src/dagcheck.c:750-783 | _closure_bogus |
| `Labeller.DagNode.TryArm` | lcc/src/dagcheck.c:813-1904 | an arm leaves the costs of all its attempts, each accounted for by its rule field |
| `Labeller.DagNode.Label` | lcc/src/dagcheck.c:801-1904 | false exactly for a null tree or a bad terminal in reach; otherwise every node visited, shared ones too, has the costs of its tree and rules that account for them |
| `Labeller.CheapestDerivation` | lcc/src/dagcheck.c:801-1904 | every cost below 0x7fff is that of some derivation, so the costs are least |
| `Labeller.FreeStatement` | lcc/src/dagcheck.c:2081-2090 | the cost of stmt is 0 if and only if some derivation of a statement avoids bogus |
| `Labeller.RuleKept` | lcc/src/dagcheck.c:654-674 | the rule a node keeps for a goal it can reach explains the cost exactly |
| `Labeller.DagNode.Reduce` | lcc/src/dagcheck.c:2045-2079 | the walk terminates, never meets rule 0, and is a derivation that costs what was computed |
| `Labeller.DagNode.Check` | lcc/src/dagcheck.c:2081-2090 | accepts a tree exactly when it has a derivation from stmt without bogus, and then walks one |
| `Arena.Allocator.constructor` | lcc/src/alloc.c:48-51 | three arenas with empty first blocks, no free block |
| `Arena.Allocator.TakeFree` | lcc/src/alloc.c:61-63 | a free block becomes the last of its arena; nothing else moves |
| `Arena.Allocator.TakeNew` | lcc/src/alloc.c:64-74 | a block from malloc becomes the last of its arena, and has room |
| `Arena.Allocator.Search` | lcc/src/alloc.c:60-79 | the loop ends: nothing changes if there is room, otherwise it uses up free blocks one by one, then asks malloc once, and the block it ends with is unused |
| `Arena.Allocator.Allocate` | lcc/src/alloc.c:53-82 | an aligned region of the rounded size is added to the arena's live allocations, right behind the last one if there is room, at the start of an unused block if not; the heap stays well formed |
| `Arena.Allocator.Deallocate` | lcc/src/alloc.c:87-93 | the arena's blocks go in front of the free list, its allocations end, all others stay |
| `Arena.LiveApart` | lcc/src/alloc.c:53-82 | live allocations never overlap, in one arena or two, and stay inside their block |
| `Arena.OnceEach` | lcc/src/alloc.c:48-93 | every block stands in exactly one of the three chains and the free list, exactly once |
| `Arena.CutHeap` | lcc/src/alloc.c:80-81 | cutting a region off the last block keeps all live regions apart |
| `Arena.ListsReleased` | lcc/src/alloc.c:89-92 | splicing an arena's chain in front of the free list keeps every block in one list |
| `Layout.Advance` | lcc/src/decl.c:613-624 | where a field begins: if it starts afresh, at the least multiple of its alignment not below what is taken; otherwise where the open unit stands; in a union at 0 |
| `Layout.Put` | lcc/src/decl.c:627-639 | offset and lsb of the field, and exactly how far it takes the frontier |
| `Layout.Fields` | lcc/src/decl.c:609-650 | the layout is least: the first member at 0, each other less than its alignment behind the end of the one before, a bit-field that fits right there, the size the least multiple of the alignment that holds all ends; aligned, in order and without overlap |
| `Layout.UnitsDisjoint` | lcc/src/decl.c:629-637 | bit-fields of one unit read back through lsb share no bits, on machines of either bit order |

## Left out

- Floating point: float operators of the machine are functions that the host
  supplies; lcc's float constants, folding and comparisons are not modelled.
- Unbounded counts: lengths, counters and labels are unbounded integers, as are
  host longs; the words of the machine and of lcc's constants are 32 bits wide.
- Pointers: nodes, symbols, labels, macros and blocks are identified by numbers
  or names; images of the assembler are sequences held in a field.
- Qsort.SortArray: elements are opaque, so the choice of word or byte copying
  by element size (swaptype) and unaligned arrays are not modelled.
- SwitchProof.DispatchCorrect: operands are 32-bit values read as signed; the
  warnings and the cast of the table index to a wider unsigned type are not
  modelled, nor is the optimisation of branches to branches.
- Lockstep.Simulation: for programs that the loader accepts; one with a branch
  operand equal to instructionCount, which passes the loader's test, has no
  defined loaded form.
- Loader.Vm.PrepareInterpreter: code that is no encoding of instructions, and
  its error returns, are not modelled; the header is taken as well formed.
- Interpreter.Interp.Interpret: without the checks of DEBUG_VM; a store of a
  return word outside the image is undefined, as in the source.
- Frames.RunKeeps: a run is polite if it does not store over saved words, jump
  out of its function, or call what is no function; what remains of that for an
  assembled source is StaticLines.TameRunKeeps.
- StaticLines.TameRunKeeps: jumps and calls that are computed, as of a switch
  or through a pointer, must go where control belongs; no label stands behind a
  constant that is still on the stack.
- Procedures.ProcedureIsFn: for procedures whose branches go to labels inside
  them, as lcc prints them.
- Regions.FrameRegions: for one kind of slot each at a time; the lines must be
  those that lcc counted the space for, every ARG followed by its CALL.
- Toolchain.ParameterArrives: arguments are words, as lcc passes them after
  promotion; the roots between them must leave the slots alone.
- Trees: integer types of 1, 2 and 4 bytes; undag, temporaries and calls inside
  expressions are not modelled.
- Assembler.Asm.AssembleLine: lines come as tokens already read; lexing,
  parsing of numbers and hashing are not modelled, nor are the option file,
  map and symbol files, and the symbols _stackStart and _stackEnd.
- Addresses.DatumInPlace: for labels followed by data of one width; a label
  whose data changes width is moved again by HackToSegment.
- ShortCircuit.ListCorrect: the operands of a comparison are leaves with
  effects; conditional expressions and comma expressions are not listed.
- ValueNumbering.Dag.ListNodes: labels, jumps to labels and a load that is
  listed so as to keep its value (whether it is depends on its node having been
  listed before) are roots without an entry among the roots with operands;
  bit-fields, structures passed through a temporary, constants that live in
  memory and a label dropped in front of another are not modelled.
- SimplifyProof.SimplifyBinRefines: for INT and UNSIGNED of 4 bytes and
  needconst 0; pointers, bit-fields and narrow types are not modelled.
- SimplifyTrees.SimplifiedRefines: for trees in which nothing wraps; after
  0 - INT_MIN or 1 << 31 a constant outside int is compared unreduced.
- SimplifyProof.RootEffects: without conditional expressions, the structure
  temporary and the increment forms that root1 treats specially.
- Hidesets.Table.NewHideset: the index of a set is unbounded, a short in tokens
  of the source.
- Macros.ExpandRow: object-like macros without # and ##, at most 30 of them;
  function-like and built-in macros and the white space of makespace are not
  modelled.
- Labeller.DagNode.Label: each arm of the switch is the list of its attempts in
  order; the nine short costs and the bit-fields of a state are sequences.
- Labeller.DagNode.Reduce: the final comparison of operator sizes with type
  sizes is not modelled.
- Arena.Allocator.Allocate: malloc returns memory that no block has and never
  fails; the size is not truncated to unsigned.
- Layout.Fields: sizes do not overflow; removal of unnamed fields from the list
  is not modelled.
- Register allocation, statement parsing, declarations, debugging output, file
  reading and writing, and command lines are not modelled.
