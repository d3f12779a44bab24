# npsystem in Dafny

npsystem is a control system: an engineer draws function block diagrams, and the program compiles them
to AVR code, allocates the controller's RAM and flash for them, links them with library objects, and
edits them on an indexed canvas. This project models those parts and proves what they promise.

The parts and how they fit together:

- **Scheduling** (`Diagram`, `Numbering`, `Schedule`, `Dataflow`): `FbdUnit.Translate` splits a diagram
  into its connected components, numbers the blocks with two recursions that may number a block again,
  and lists them. The list is proved to hold every block once, producers first, for every acyclic
  diagram; running it once computes the one solution of the diagram's dataflow equations.
- **Code generation** (`Avr`, `Programs`, `Blocks`, `Gates`, `Latches`, `Timers`, `Pulses`, `Timetable`,
  `Encoders`, `Codegen`, `Fragments`): a small AVR machine with registers, the flags T, C and Z and a program
  counter; the generators as methods that append instructions; and for every generator what its code
  computes, for every placement of the variables that the allocator permits. Operand registers stand
  for the RAM cells they are loaded from and stored to, so two bits of one cell are two bits of one
  register. Code that jumps only forward is also run in one pass, and the pass and the machine are
  proved to agree; the code of the schedule block has a loop and is run on the machine itself.
- **Traces** (`Traces`): what the stateful blocks output over any sequence of scans.
- **Whole programs** (`Scans`, `Units`, `Placement`, `Compiler`, `Orders`, `Runs`): the concatenated code of
  a diagram runs to its end on the machine, and then every block's equation holds. `Units` says of each kind
  of block on the diagram, without the code and the equations, what its output and its state are after a
  scan (`Means`), and that is what the compiled code does. Input blocks, and blocks without the inputs they
  need, have no code and keep all their bits; what the C compiler makes of blocks that are generated as
  statements in C is a parameter of the block. There is one solution of the equations, so the order that was
  chosen for the blocks does not show (`Orders`). Run scan after scan, the program's blocks show what `Traces`
  says of the inputs they have seen (`Runs`). The placement the code needs follows from the allocator's
  invariant.
- **RAM** (`Ram`, `Memory`) and **flash** (`Flash`): allocation, roll-back, reconstruction, page runs.
- **Canvas** (`Quadtree`, `Editing`, `Histories`, `Groups`, `Iterators`): the spatial index against a plain
  set, undo and redo of commands, of any sequence of them and of groups, and the tree iterators.
- **Tables** (`RemoteTable`, `Linking`, `Operands`): the remote request table and its decoder, the
  dependency closure of library objects, the numbering of assembler operands.
- `Division` holds the few facts about division and remainder that the others need, `Options` the
  optional value.

Source paths below are relative to the repository's root.

What the diagrams and tables must satisfy because the code relies on it stands in preconditions:
diagrams are acyclic and have at most 500 blocks and lines, dependency tables are acyclic, elements of a
full quadtree cell part within finitely many splits, a remote table has at most 64 links whose fields fit.

Facts about the code that the proofs brought up; the model keeps the code as it is:

- A bit at a requested odd position breaks the bit pairs of its cell: `Ram.OddBitBreaksPairs` says exactly
  when, `Ram.OddBitOverlaps` shows two live variables that overlap. The only caller never asks for one:
  references to variables without quality are not loaded, and the bit of a live variable of a sound
  controller is even (`Memory.AskedBitIsEven`, `Memory.MemoryManager.AllocateReference`).
- `Rollback` clears one cell more than a byte variable without quality took. `Ram.RollbackRestores`
  gives the exact condition under which the occupancy is restored, and `Ram.LooseRollbackOverlaps` a run
  in which a live variable loses a cell to the next one.
- A gate whose connected inputs are all bytes stores whatever the flag T held: `Gates.ImplementsKleeneIff`.
- The quadtree misses elements that are hit outside of their bounds, as lines are beside their stroke, and
  points on an element's lower edge when the edge lies on the middle line of a node on the way down:
  `Quadtree.QuadrantNode.FindElement` says exactly which elements are lost, `LosesLowerEdge` when a point
  within the bounds is; `Quadtree.LostLine` and `Quadtree.LostHit` build trees in which the only element at
  a point is not found.
- Undoing the insertion of a block or a paste pops the last elements of the list, which are others after
  a deletion was undone: `Editing.UndoPopIff`, `Editing.UndoStepsIff` and, for any sequence of commands,
  undos and redos, `Histories.RunIff`; `Editing.WrongPop` is an example.
- A binary encoder takes over the inputs before the first bad one although its output is then bad
  (`Encoders.EncodeIs`), and with more than 32 inputs the later ones share bits with earlier ones
  (`Encoders.OwnPlacesIff`).
- The insertion of a line sets its executed flag the wrong way round, so a group skips it when it is
  redone: `Groups.RedoRuns`, `Groups.RedoGroup`, and `Groups.LineIsLost` for an example. The repository
  puts none into a group.
- `SetRange` records one page too many exactly when the size is a multiple of the page size:
  `Flash.RangeCount`. Bit cells may use the last user byte, byte runs end before it.
- A name that begins another one is replaced inside it: `Operands.OwnNumberIff` says when a name gets its
  own number. Gates with ten or more connected inputs have such names (`Operands.FewInputsIff`), and
  `Operands.TenthInputIff` says when the tenth input becomes the first one with a zero behind it.
- The name of a quality byte is resolved exactly when its operand is the first of its cell:
  `Operands.QualityResolvedIff`.

## Model

| member | source | states |
|---|---|---|
| Diagrams.Diagram.AcyclicIffRanked | npsystem/fbd_control_unit.cpp:247-297 | a diagram is acyclic exactly when its blocks can be ranked with every producer below its consumers; the rank is what the recursions of the numbering decrease |
| Diagrams.Diagram.ExploredIsComponent | npsystem/fbd_control_unit.cpp:228-245 | what a traversal in both directions marks from a block, closed under neighbours, is exactly the block's connected component |
| Schedule.FbdUnit.Separate | npsystem/fbd_control_unit.cpp:228-245 | appends to the chain exactly the blocks it marks, each once; it marks the block it starts with and only what is connected to it by lines, until every line of a marked block is followed |
| Schedule.FbdUnit.FindChains | npsystem/fbd_control_unit.cpp:313-320 | the chains are the connected components: every block is in exactly one, and each chain is the component of each of its blocks |
| Schedule.FbdUnit.CheckProducers | npsystem/fbd_control_unit.cpp:276-288 | a block may be numbered exactly when all its producers are; the collected blocks are its consumers, and all of them when it may |
| Schedule.FbdUnit.TryExecuteNext | npsystem/fbd_control_unit.cpp:275-297 | terminates although it may number again what is numbered; all numbers stay distinct and below the returned one, and the lines out of order become fewer by those into the block it numbers |
| Schedule.FbdUnit.CalcOrder | npsystem/fbd_control_unit.cpp:247-274 | numbers the block and what is upstream of it and not numbered yet; lines out of order are at most those into the blocks whose calculation is still open, and blocks outside the chain keep their numbers |
| Schedule.FbdUnit.NumberChain | npsystem/fbd_control_unit.cpp:324-330 | after the loop over one chain all its blocks have distinct numbers, and no line of the chain is out of order |
| Schedule.FbdUnit.SortChain | npsystem/fbd_control_unit.cpp:331-332 | the blocks of a chain in the order of their numbers, each once |
| Schedule.FbdUnit.Translate | npsystem/fbd_control_unit.cpp:298-339 | for every acyclic diagram: every block is listed once and behind its producers, along every line the producer's number is below the consumer's, and within a component all numbers differ |
| Dataflow.SolutionUnique | npsystem/fbd_control_unit.cpp:298-339 | the dataflow equations of a diagram with such a list have at most one solution |
| Dataflow.RunSolves | npsystem/fbd_control_unit.cpp:334-338 | running the blocks once in the listed order solves every equation, whatever the values before |
| Dataflow.ScanSolves | npsystem/fbd_control_unit.cpp:334-338 | one scan computes the unique solution, whatever order of producers the traversal chose |
| Avr.MachineRunsTo | npsystem/codegenerator_avr.cpp:333-476 | for code whose jumps and skips go forward, the machine with a program counter reaches the place and the state that one pass computes, from every state |
| Avr.MachineRunsPass | npsystem/codegenerator_avr.cpp:333-476 | code that jumps only within itself and forward is left at its end, in the state of one pass |
| Programs.JumpsAppend | npsystem/codegenerator_avr.h:37-52 | pieces of code whose open jumps meet the labels of the next piece compose to code whose jumps all go forward |
| Programs.LeadsWithin | npsystem/fbd_control_unit.cpp:334-338 | within a larger program the machine runs the code of a block, jumps back included, exactly as it runs that code alone |
| Programs.LeadsAppend | npsystem/fbd_control_unit.cpp:334-338 | codes with labels of their own, emitted one behind the other, run one after the other |
| Blocks.NotYields | npsystem/codegenerator_avr.cpp:441-476 | NOT: a good input gives its negation with good quality, a bad one keeps the value and clears the quality; no other RAM bit changes, for every sharing of cells |
| Gates.KleeneAllIs | npsystem/codegenerator_avr.cpp:333-439 | the fold of three-valued OR or AND over any inputs: a known dominating input decides, otherwise known inputs give the neutral value and an unknown one gives unknown |
| Gates.InputsRun | npsystem/codegenerator_avr.cpp:350-384 | the code of any number of inputs stops at the first good dominating one, and otherwise has collected whether all were good |
| Gates.GateYields | npsystem/codegenerator_avr.cpp:333-439 | the code of OR and AND stores what `GateResult` says for any number of connected inputs with and without quality, and changes no bit but the output's pair, for every sharing of cells |
| Gates.GateIsKleene | npsystem/codegenerator_avr.cpp:333-439 | with at least one bit input what is stored is the three-valued (strong Kleene) OR or AND of the inputs |
| Gates.ImplementsKleeneIff | npsystem/codegenerator_avr.cpp:333-439 | from every state the code stores the three-valued OR or AND of its inputs exactly when it has a bit input |
| Latches.RsYields | npsystem/codegenerator_avr.cpp:478-551 | the RS trigger for every choice of connected inputs: a bad input holds the value and clears the quality, reset dominates set, otherwise the value holds with good quality |
| Latches.EdgeYields | npsystem/codegenerator_avr.cpp:553-701 | the edge blocks compare the sampled value of the last good scan with the input; a bad input changes only the quality; own bits only |
| Latches.OutYields | npsystem/codegenerator_avr.cpp:272-315 | a bit output follows its input, inverted or not; a bad input holds an output with quality and switches off one without |
| Timers.ElapsedRuns | npsystem/codegenerator_avr.cpp:882-888 | the three-byte subtraction and comparison leave carry set exactly when the elapsed time mod 2^24 is less than the delay |
| Timers.CounterYields | npsystem/codegenerator_avr.cpp:910-979 | one scan of the counter does what `CounterStep` says: mod 2^16, reset first, bad inputs change nothing, and only its own cells change |
| Timers.DelayYields | npsystem/codegenerator_avr.cpp:856-906 | one scan of the delay does what `DelayStep` says with the clock's low 24 bits; a bad input changes only the quality |
| Pulses.PulseYields | npsystem/codegenerator_avr.cpp:981-1082 | one scan of the pulse does what `PulseStep` says with the clock's low 16 bits, on the rising or the falling edge |
| Timetable.LoopRuns | npsystem/codegenerator_avr.cpp:1530-1556 | the loop over the table ends on the machine with T telling whether one of the entries left is the present hour and minute, for every length |
| Timetable.ScheduleRuns | npsystem/codegenerator_avr.cpp:1472-1557 | the schedule block on the machine: it ends behind its code, the output is on exactly when an entry is due, a bad clock or enable input holds it with bad quality |
| Timetable.ScheduleWhole | npsystem/codegenerator_avr.cpp:1472-1557 | its code, which jumps back, goes only to its own labels, so it can stand among the codes of other blocks |
| Traces.LastInputIs | npsystem/codegenerator_avr.cpp:961-964 | the sampled bit holds the input of the last good scan, or the first value when there was none |
| Traces.DelayOutput | npsystem/codegenerator_avr.cpp:856-902 | over any sequence of scans a delay is 1 exactly when the input has been 1 in all good scans since its last rise, and at one of the later ones the elapsed time mod 2^24 had reached the delay |
| Traces.DelayCodeOutput | npsystem/codegenerator_avr.cpp:856-906 | the emitted delay code, run scan after scan, outputs that |
| Traces.PulseOutput | npsystem/codegenerator_avr.cpp:981-1082 | over any sequence of scans a pulse is 1 exactly when there was an edge, and at no good scan since the last one the width had passed mod 2^16 |
| Traces.PulseCodeOutput | npsystem/codegenerator_avr.cpp:981-1082 | the emitted pulse code outputs that |
| Traces.EdgeOutput | npsystem/codegenerator_avr.cpp:553-701 | the edge blocks output the change of the input against the last good scan before |
| Traces.EdgeCodeOutput | npsystem/codegenerator_avr.cpp:553-701 | the emitted edge code, run scan after scan, outputs that |
| Traces.RsOutput | npsystem/codegenerator_avr.cpp:478-551 | the RS output is what the last good event set it to, reset before set, or the first value when there was no event |
| Traces.RsCodeOutput | npsystem/codegenerator_avr.cpp:478-551 | the emitted RS code, run scan after scan, outputs that |
| Traces.CounterOutput | npsystem/codegenerator_avr.cpp:940-975 | the count is the number of rises between sampled scans since the last reset, added to the first count when there was none, mod 2^16 |
| Traces.CounterCodeOutput | npsystem/codegenerator_avr.cpp:940-975 | the emitted counter code counts that |
| Codegen.CodeGenerator.GenerateOr | npsystem/codegenerator_avr.cpp:333-384 | the loop emits the code that `GateYields` is about for any number of inputs, and nothing when none is connected |
| Codegen.CodeGenerator.GenerateAnd | npsystem/codegenerator_avr.cpp:387-439 | the same for AND |
| Codegen.CodeGenerator.GenerateNot | npsystem/codegenerator_avr.cpp:441-476 | emits the code `NotYields` is about; nothing for an open or a byte input |
| Codegen.CodeGenerator.GenerateRsTrigger | npsystem/codegenerator_avr.cpp:478-551 | emits the code `RsYields` is about, without the quality parts exactly when both inputs are connected and none has quality |
| Codegen.CodeGenerator.GeneratePositiveEdge | npsystem/codegenerator_avr.cpp:553-604 | emits the code `EdgeYields` is about, for rising edges |
| Codegen.CodeGenerator.GenerateNegativeEdge | npsystem/codegenerator_avr.cpp:606-656 | the same for falling edges |
| Codegen.CodeGenerator.GenerateAnyEdge | npsystem/codegenerator_avr.cpp:658-701 | the same for both |
| Codegen.CodeGenerator.GenerateOutput | npsystem/codegenerator_avr.cpp:252-315 | for a bit output, emits the code `OutYields` is about, and nothing without an input |
| Codegen.CodeGenerator.GenerateCounter | npsystem/codegenerator_avr.cpp:910-979 | emits the code `CounterYields` is about, with and without a reset input |
| Codegen.CodeGenerator.GenerateDelay | npsystem/codegenerator_avr.cpp:814-908 | emits the code `DelayYields` is about, with the low three bytes of the delay in ticks |
| Codegen.CodeGenerator.GeneratePulse | npsystem/codegenerator_avr.cpp:981-1082 | emits the code `PulseYields` is about, for both edge settings |
| Codegen.CodeGenerator.GenerateBlockSchedule | npsystem/codegenerator_avr.cpp:1472-1557 | emits the code `ScheduleRuns` is about; nothing for an empty table |
| Encoders.EncoderYields | npsystem/codegenerator_avr.cpp:703-766 | the encoder's code takes over its inputs up to the first bad one and sets the quality byte, for any inputs and every size of the output; no other RAM bit changes |
| Encoders.EncodeIs | npsystem/codegenerator_avr.cpp:703-766 | with at most as many inputs as bits every connected input before the first bad one has its own bit, the other bits stay, and the output is good exactly when no input is bad |
| Encoders.OwnPlacesIff | npsystem/codegenerator_avr.cpp:736-752 | with the size the output gets from the number of inputs (npsystem/typedeterminant.cpp:21-31), every input has a bit of its own exactly when there are at most 32 |
| Encoders.DecoderYields | npsystem/codegenerator_avr.cpp:768-812 | every output that the input has a bit for takes over this bit and the quality of the input; the other outputs and all other RAM bits stay |
| Codegen.CodeGenerator.GenerateBinaryEncoder | npsystem/codegenerator_avr.cpp:703-766 | emits the code `EncoderYields` is about, and nothing when no input is connected |
| Codegen.CodeGenerator.GenerateBinaryDecoder | npsystem/codegenerator_avr.cpp:768-812 | emits the code `DecoderYields` is about, for as many outputs as the input has bits, and nothing without an input |
| Fragments.GateFragment | npsystem/codegenerator_avr.cpp:333-439 | every jump and skip of the gate code stays within the block's own labels, for any inputs |
| Fragments.PulseFragment | npsystem/codegenerator_avr.cpp:981-1082 | the same for the pulse code |
| Scans.Ticks24 | npsystem/codegenerator_avr.cpp:834-838 | the three delay bytes are the delay in ticks mod 2^24 |
| Scans.BlockRuns | npsystem/codegenerator_avr.cpp:247-1082 | the code of every block but the schedule establishes the block's equation and changes only its own bits, when its inputs are apart from them; statements in C are assumed to do so |
| Scans.BlockRunsAlone | npsystem/codegenerator_avr.cpp:247-1557 | on the machine the code of each of these blocks and of the schedule block ends behind itself with the equation established |
| Scans.ScanStep | npsystem/fbd_control_unit.cpp:334-338 | one more block: its equation holds, those of the blocks before it still do, and its inputs are the values the scan ends with |
| Scans.MachineScans | npsystem/fbd_control_unit.cpp:298-339 | the whole program runs to its end on the machine from every state; then every block holds what its equation says for the values the scan ends with, and no foreign RAM bit has changed |
| Units.SilentUntouched | npsystem/codegenerator_avr.cpp:247-1557 | a block without what it needs keeps its output and its whole state |
| Units.GateMeans | npsystem/codegenerator_avr.cpp:333-439 | a stored gate result in terms of its slots: a good 1 decides OR and a good 0 decides AND, otherwise all inputs must be good for the other value to be known |
| Units.HoldsMeans | npsystem/codegenerator_avr.cpp:247-1557 | for every kind of block the equation of its code says what the block means: OR, AND and NOT with unknown values, reset before set, edges by their kind, counting rises, 24-bit delays, 16-bit pulses, due entries of a table, places of encoder bits, decoder outputs; and without what it needs it keeps everything |
| Compiler.Generate | npsystem/codegenerator_avr.cpp:247-1557 | each block is generated by its own generator, which emits the code of what is connected, and nothing for an input block or without the inputs the block needs |
| Compiler.Compile | npsystem/fbd_control_unit.cpp:298-339 | the generated program is the code of all blocks, each once, producers first; with the variables placed as the code needs it, the machine runs it to its end from every state, and every block has done what it means |
| Compiler.CompiledCodeScans | npsystem/fbd_control_unit.cpp:298-339 | that program runs to its end from every state, every block of the diagram shows what its kind means for the values the scan ends with, and no other RAM bit changes |
| Orders.OneSolution | npsystem/fbd_control_unit.cpp:334-338 | two memories that solve the equations of all blocks for the same scan hold the same outputs and the same states |
| Orders.EndsInSolution | npsystem/fbd_control_unit.cpp:298-339 | the code of any order with producers first ends in the one solution |
| Orders.OrderIsIrrelevant | npsystem/fbd_control_unit.cpp:298-339 | the codes of two such orders leave the same outputs and states, whatever the memory held before |
| Runs.ProgramScans | npsystem/fbd_control_unit.cpp:298-339 | every scan of the program comes to its end, whatever the memory holds |
| Runs.ProgramMeans | npsystem/fbd_control_unit.cpp:298-339 | when the program runs scan after scan, every block does in each of them what its kind means |
| Runs.ProgramDelay | npsystem/codegenerator_avr.cpp:814-906 | in the running program a delay block that was off at the start is 1 exactly when its input, read in memory, has been 1 in all good scans since its last rise and one of them reached the delay mod 2^24 |
| Runs.ProgramPulse | npsystem/codegenerator_avr.cpp:981-1082 | in the running program a pulse block that was off at the start is on exactly when there was an edge of its kind and at no good scan since the last one its width had passed mod 2^16 |
| Runs.ProgramCounter | npsystem/codegenerator_avr.cpp:910-979 | in the running program a counter holds the number of rises since the last reset, added to the first count when there was none, mod 2^16 |
| Runs.ProgramRs | npsystem/codegenerator_avr.cpp:478-551 | in the running program an RS trigger holds its last event, reset before set |
| Runs.ProgramEdge | npsystem/codegenerator_avr.cpp:553-701 | in the running program an edge block shows the change between the last good scan and the good one before |
| Placement.OperandIsPlaced | npsystem/memorymanager.cpp:134-164 | a live bit variable is a valid operand; with quality its footprint is exactly the bit pair of the variable |
| Placement.AllocationPlaces | npsystem/memorymanager.cpp:129-178 | when RAM is sound, blocks whose variables are live ones of their own have disjoint bits: the placement the generated code needs |
| Ram.MarkSound | npsystem/memorymanager.cpp:129-178 | adding a variable where it fits keeps all live variables pairwise disjoint and inside user RAM, the map covering them, and a bit cell to one algorithm |
| Ram.ChosenFits | npsystem/memorymanager.cpp:134-164 | the bit the two searches choose fits: it is free with its quality bit, in a cell of the same algorithm or an empty one |
| Ram.ChosenGranted | npsystem/memorymanager.cpp:134-164 | on a map in order it is the lowest free pair of the lowest cell of the algorithm that has one, at the position asked for if there is any, or else a pair in the lowest empty cell |
| Ram.NoneGrantedIff | npsystem/memorymanager.cpp:134-174 | when any bit will do, none is granted exactly when the variable fits nowhere |
| Ram.MarkExactly | npsystem/memorymanager.cpp:129-178 | putting a variable in takes exactly its bits |
| Ram.OddBitBreaksPairs | npsystem/memorymanager.cpp:140-143 | with a requested position the cells stay unions of aligned pairs exactly when the position is even |
| Ram.OddBitOverlaps | npsystem/memorymanager.cpp:140-143 | a request with position 1 followed by an ordinary one gives two live variables that share a bit |
| Ram.RollbackRestores | npsystem/memorymanager.cpp:241-272 | rolling back restores the occupancy exactly when, behind every byte variable without quality in the transaction, the cell was free before |
| Ram.LooseRollbackOverlaps | npsystem/memorymanager.cpp:251-272 | a concrete roll-back of a byte without quality frees a cell of a live variable, and the lowest free run for the next one overlaps it |
| Ram.TransactionSound | npsystem/memorymanager.cpp:129-178 | any sequence of fitting allocations keeps RAM sound |
| Ram.LayTakesRun | npsystem/memorymanager.cpp:185-199 | the variables of a container, laid one behind the other from the start of a free run of their total size, fill that run and fit one after another |
| Memory.FilledExactly | npsystem/memorymanager.cpp:105-120 | after the reconstruction a bit of the map is taken exactly when it was before or a listed variable fills it: a pair for a bit, size+1 cells for bytes |
| Memory.MemoryManager.SetRam | npsystem/memorymanager.cpp:97-127 | a manager rebuilt from sound lists takes exactly what the listed variables fill, covers every one of them, and knows nothing to roll back |
| Memory.MemoryManager.FindFreeSpace | npsystem/memorymanager.cpp:201-225 | takes the lowest free run of the size and marks exactly it; fails only when there is none |
| Memory.MemoryManager.AllocateBit | npsystem/memorymanager.cpp:134-163 | the lowest free pair of the lowest cell of the algorithm that has one, or else the first pair of the lowest empty cell; fails only when neither exists |
| Memory.MemoryManager.AllocateMemory | npsystem/memorymanager.cpp:129-178 | adds one variable at the lowest place there is for it and takes exactly its bits; a bit for which any position will do fails exactly when it fits nowhere, bytes exactly when there is no free run; a failure changes nothing; the state stays a sound one, with aligned bit pairs, exactly when the granted position was not asked to be odd |
| Memory.AskedBitIsEven | npsystem/avrconfigurator.cpp:744 | the bit of a live variable of a sound controller, which a reference asks for, is even |
| Memory.MemoryManager.AllocateReference | npsystem/avrconfigurator.cpp:601-744 | references to variables without quality are not loaded; the others get a variable with quality at the same bit position and the lowest place there is for it, and fail only when there is none; the live variables stay disjoint |
| Memory.MemoryManager.AllocateContainer | npsystem/memorymanager.cpp:185-199 | consecutive prefix-sum addresses from the lowest free run of the total size; a failure changes nothing |
| Memory.MemoryManager.SaveState | npsystem/memorymanager.cpp:238-240 | starts a transaction at the present occupancy |
| Memory.MemoryManager.Rollback | npsystem/memorymanager.cpp:251-272 | takes out exactly the last n variables, in reverse order |
| Memory.MemoryManager.RollbackState | npsystem/memorymanager.cpp:241-244 | takes out exactly what was put in since the state was saved; the occupancy is the saved one exactly when the cells behind byte variables without quality were free |
| Memory.Serve | npsystem/memorymanager.cpp:97-272 | in every run of allocations, containers, saved states, roll-backs and rebuilt managers, with and without quality, each request does to the map and the loaded variables what it should and fails only without room, and all live variables stay pairwise disjoint, inside user RAM and covered by the map; only when the state is rolled back no bytes without quality may have been put in since it was saved |
| Flash.PagesAreCounted | npsystem/memorymanager.cpp:50-52 | an object written at the start of a page occupies exactly the counted pages |
| Flash.RangeCovers | npsystem/avrassigned.cpp:16-20 | the recorded range covers every page with a byte of the object, wherever it starts |
| Flash.RangeCount | npsystem/avrassigned.cpp:16-20 | the range has one page more than were counted exactly when the size is a multiple of the page size |
| Flash.FlashObject.SetRange | npsystem/avrassigned.cpp:16-20 | records the pages of the first byte and of the one behind the last, the size, and covers all pages in use |
| Flash.FlashObject.SetUnloaded | npsystem/avrassigned.h:35-39 | an unloaded object is not loaded and uses nothing |
| Flash.FlashMap.constructor | npsystem/memorymanager.cpp:23-44 | a page is taken exactly when it is in the recorded range of a loaded object |
| Flash.FlashMap.AllocatePageMemory | npsystem/memorymanager.cpp:47-68 | the lowest free run of the counted pages, of which exactly these are taken; fails only when there is none, and always for size 0 |
| Flash.PartsStay | npsystem/avrconfigurator.cpp:1041-1162 | the parts of a region stay recorded where they were written when the algorithm goes elsewhere |
| Flash.Controller.UploadObjects | npsystem/avrconfigurator.cpp:1041-1162 | new library objects get the lowest free run of pages that takes them all, in use by nothing that is loaded; every one is loaded and recorded exactly where it was written, with this upload, and nothing else is; without such a run nothing changes |
| Flash.Controller.Upload | npsystem/avrconfigurator.cpp:824-916 | the missing library objects and then the algorithm get the lowest free runs and are recorded where they were written; it fails only when there is no such run; the pages are in use by nothing that is loaded, not even by the running copy of the algorithm, which stays intact and whose range changes only when the code was replaced |
| Flash.Controller.Run | npsystem/avrconfigurator.cpp:824-1241 | in any run of uploads, repeated uploads and removals each action does to the recorded ranges what it should; at its end the pages of everything loaded hold what its own upload wrote, what was loaded at the start and not itself replaced or removed is untouched, and what an action uploaded and no later one replaced or removed is loaded, with all library objects it needs |
| Flash.Controller.Unload | npsystem/avrconfigurator.cpp:1240-1241 | frees the algorithm and changes no other object |
| Quadtree.QuadrantNode.Locate | npsystem/quadrant.h:66-94 | the nested tests reach exactly the quarters the element goes into |
| Quadtree.QuadrantNode.LosesLowerEdge | npsystem/quadrant.h:163-171 | a point within the bounds of an element is lost exactly when it is on the lower edge and the middle line of a node on the way down goes through it |
| Quadtree.QuadrantNode.FindElement | npsystem/quadrant.h:163-180 | for any elements: null exactly when every stored element that is hit is lost, which means that the search goes down into a quarter it is not stored in; otherwise the one of the greatest z-order among those not lost, and of several the last one in its cell, which is painted last |
| Quadtree.LostHit | npsystem/quadrant.h:117-180 | a tree built by additions in which the only element at a point on its lower edge is not found |
| Quadtree.LostLine | npsystem/line.cpp:57-62 | a tree in which a line that is hit beside its bounds is not found |
| Quadtree.QuadrantNode.AddElement | npsystem/quadrant.h:117-155 | stores the element in addition, with every split it causes: a cell is divided exactly when it is full, and otherwise the element goes behind the items that are not above it and all others keep their order; the elements of each node are those of the node above that go into its quarter |
| Quadtree.QuadrantNode.Split | npsystem/quadrant.h:136-154 | a full leaf becomes a node that stores the same elements and the new one |
| Quadtree.QuadrantNode.DeleteElement | npsystem/quadrant.h:182-194 | removes the element from every leaf and no other element; the others keep their order |
| Quadtree.InsertSortAsc | nplib/include/nplib/utils/helper.h:32-50 | inserts behind the elements that are not above the new one, and keeps the order of all others |
| Quadtree.QuadrantNode.Draw | npsystem/quadrant.h:197-223 | draws and marks only elements that meet the visible area and are not marked yet, each once: those of a cell in the order of its items, from the lowest to the topmost, and those of a divided node in four parts, north-west, north-east, south-west and south-east, each in this order again |
| Quadtree.Replay | npsystem/quadrant.h:117-194 | after any history of additions and deletions the tree stores what the plain set holds |
| Quadtree.Render | npsystem/quadrant.h:197-223 | with a fresh frame number exactly the elements that meet the visible area are drawn, each once, in that order; in an undivided tree what is below is painted first |
| Editing.DoIs | npsystem/command_impl.h:10-72 | what executing each command does to the elements, the connected lines and the positions; a move adds its two distances to the two coordinates of its element |
| Editing.UndoDo | npsystem/line.cpp:115-127 | every command that does not pop undoes what it did, also when the elements have changed their order since |
| Editing.UndoPopIff | npsystem/view_algorithm.cpp:1253-1310 | popping undoes an insertion or a paste exactly when what was inserted is still at the end of the list |
| Editing.WrongPop | npsystem/view_algorithm.cpp:1253-1259 | inserting a block, deleting another one and undoing both keeps the block and loses the other |
| Editing.UndoStepsIff | npsystem/command_impl.h:95-98 | undoing command by command goes back through all the documents of the history exactly when whatever is popped is at the end of the list then |
| Editing.UndoDoAll | npsystem/command_impl.h:88-98 | undoing an undoable sequence, insertions and pastes included, in reverse restores the document |
| Editing.RestDone | npsystem/command_impl.h:88-93 | executing the rest of a group of deletions after some members were executed early leads where executing all in order leads |
| Editing.BlockComposition.Execute | npsystem/command_impl.h:88-93 | the document is what the commands that are not marked as executed make of it, in order; the marks are those the members leave |
| Editing.BlockComposition.UnExecute | npsystem/command_impl.h:95-98 | all members are undone, the last first, whatever their marks |
| Editing.BlockComposition.AddCommand | npsystem/blockcomposition.cpp:103-112 | for any command: forgets what was undone, adds the command and executes what of it is not executed; if the command fits, the document is again what the commands make of the start |
| Editing.BlockComposition.Undo | npsystem/blockcomposition.cpp:114-119 | in any state one command less is in effect and the document is what undoing makes of it; it agrees with what the others make of the start when what is popped is at the end of the list, and for a single command only then |
| Editing.BlockComposition.Redo | npsystem/blockcomposition.cpp:121-126 | in any state one command more is in effect and the document is what executing it again makes of it; a consistent state stays so |
| Editing.BlockComposition.UndoEverything | npsystem/blockcomposition.cpp:114-119 | undoing all commands, insertions and pastes included, restores the document of the start when the history is undoable; in any case the document is what undoing them one by one makes of it |
| Histories.PlanHolds | npsystem/blockcomposition.cpp:103-126 | whatever is added, undone and redone, the commands in effect and those that can be redone are the ones an undo and a redo stack would hold |
| Histories.RunIff | npsystem/blockcomposition.cpp:103-126 | over any sequence of additions, undos and redos every undo goes back through the documents of the replay exactly when every undo pops what was inserted, and then the document is what the commands in effect make of the start |
| Histories.Work | npsystem/blockcomposition.cpp:103-126 | the editor, told any sequence of additions, undos and redos, ends in that document |
| Groups.RedoRuns | npsystem/line.h:199-206 | a group that is executed, undone and executed again skips exactly the insertions of lines, in all its subgroups |
| Groups.KeptIff | npsystem/line.h:199-206 | without its insertions of lines a sequence makes the same document exactly when it deletes every line again that it inserts |
| Groups.RedoGroup | npsystem/command_impl.h:88-98 | executing a group again makes the same document as the first time exactly when it leaves no line that it inserted |
| Groups.LineIsLost | npsystem/line.h:199-206 | a group with only the insertion of a line does nothing when it is executed again |
| Editing.BlockComposition.PermanentExecuteCommands | npsystem/blockcomposition.cpp:137-145 | the document stays, and nothing can be undone |
| Editing.BlockComposition.DeleteSelectedElements | npsystem/blockcomposition.cpp:153-166 | deletes exactly the selected lines, the selected blocks and the lines connected to these, as one command that undoes to the state before although parts of it were executed early |
| Iterators.PreorderIterator.Next | npsystem/iter.h:241-251 | goes to the next element of the recursive preorder, or is done |
| Iterators.PreorderIterator.NextSkipBranch | npsystem/iter.h:254-264 | what is left is the preorder without the subtree of the current element |
| Iterators.TraversePreorder | npsystem/iter.h:220-269 | visits exactly the recursive preorder of the root's descendants, and ends |
| Iterators.PostorderIterator.Next | npsystem/iter.h:334-352 | goes to the next element of the recursive postorder, or is done |
| Iterators.TraversePostorder | npsystem/iter.h:308-356 | visits exactly the recursive postorder of the root's descendants, and ends |
| RemoteTable.UnpackPack | avr_firmware/include/avr_firmware/net.h:247-262 | the packed word gives back its fields truncated to their widths, exactly the fields when they fit, and is never 0 |
| RemoteTable.RequestsAreMaximalRuns | npsystem/avrcontroller.cpp:602-636 | cutting where the next item does not follow gives maximal runs: each run is contiguous, and no two neighbours could be joined |
| RemoteTable.RequestsKeepItems | npsystem/avrcontroller.cpp:582-639 | the requests hold the items of all lists, each once and in order |
| RemoteTable.EntriesMarkRequests | npsystem/avrcontroller.cpp:602-636 | marking by looking at the next item marks exactly the last item of every run |
| RemoteTable.CutFinish | npsystem/avrcontroller.cpp:297-302 | a decoder that follows the markers recovers the requests and stops at the end, whatever is behind it |
| RemoteTable.OneEnd | npsystem/avrcontroller.cpp:643-645 | exactly the last entry is marked as the end |
| RemoteTable.ReadRequests | npsystem/avrcontroller.cpp:279-305 | the decoding loop stops and reads the requests; a table that starts with 0 has none |
| RemoteTable.UploadRemoteData | npsystem/avrcontroller.cpp:573-655 | the table holds every link of all devices once, sorted within its device's list: each word carries the remote and the local address, the device and the size or bit of its link, and is marked as the end, as continued when the next link of the list can be read in one go with it, or as the last one of a request; these are the requests the decoder reads back; without links it starts with 0 |
| Linking.ParseIff | npsystem/avrconfigurator.cpp:165-181 | an entry names an object of the same library by its name, and one of another library exactly by the library in angle brackets before it |
| Linking.AcyclicIffRanked | npsystem/avrconfigurator.cpp:153-183 | dependency tables are acyclic exactly when their objects can be ranked with every dependency below |
| Linking.ReachIsLeastClosed | npsystem/avrconfigurator.cpp:153-183 | what is reachable from an object is closed under dependencies, and in every closed set with the object |
| Linking.ReachIsNeeded | npsystem/avrconfigurator.cpp:153-183 | what is reachable is the object and what it needs along any path of dependencies |
| Linking.Collector.CollectNeeded | npsystem/avrconfigurator.cpp:153-183 | on all acyclic tables adds exactly the object and all it needs, or fails because a needed library does not exist |
| Linking.Collector.Collect | npsystem/avrconfigurator.cpp:153-183 | terminates on acyclic tables; from a closed set it ends with exactly that set and all that is reachable, although entries that are there are skipped; it fails only when a needed library does not exist |
| Linking.Collector.CollectEntry | npsystem/avrconfigurator.cpp:165-181 | one entry adds what is reachable from the object it names, in its own library or another one |
| Operands.ReplaceRenders | npsystem/codegenerator_avr.cpp:119-125 | replacing names in the pieces of the text is replacing all occurrences in the text itself, from left to right |
| Operands.OperandList.AddOperand | npsystem/codegenerator_avr.cpp:54-60 | outputs stay before inputs |
| Operands.OperandList.Normalize | npsystem/codegenerator_avr.cpp:62-147 | for any operands and any text: the C expressions with their constraints are those of the first operands of the cells, among the outputs exactly when the operand is written, the quality expression with its variable, and the text has all names replaced in the order of `Steps`, then the byte letters exchanged |
| Operands.StepsAre | npsystem/codegenerator_avr.cpp:84-139 | the replacements are exactly those of all operands and of the quality bytes of the first operands of cells, ordered by cell, the quality byte first |
| Operands.NameBecomes | npsystem/codegenerator_avr.cpp:84-139 | a name becomes the number of the first replacement whose name it begins with, followed by the rest of the name |
| Operands.OwnNumberIff | npsystem/codegenerator_avr.cpp:84-139 | a name becomes its own number as a whole exactly when it does not begin with a name that is replaced before |
| Operands.PrefixFreeResolves | npsystem/codegenerator_avr.cpp:84-139 | with prefix-free names every operand gets the number of its cell, and the quality name of a merged operand the number of the value with the ending left behind it |
| Operands.QualityResolvedIff | npsystem/codegenerator_avr.cpp:119-136 | the name of a quality byte becomes the number of the quality expression exactly when its operand is the first of its cell |
| Operands.NormalizedText | npsystem/codegenerator_avr.cpp:62-147 | piece by piece, the text that comes out: names resolved, and exactly the letters before operand numbers exchanged |
| Operands.NumberedIs | npsystem/codegenerator_avr.cpp:84-139 | the number of a replacement is the place of the C expression of the first operand of the cell, and for a quality byte the place of its quality expression; the constraint tells whether it is changed, overwritten or only read |
| Operands.SameCellSameNumber | npsystem/codegenerator_avr.cpp:127-136 | operands of one cell get one number |
| Operands.GatePrefixFreeIff | npsystem/codegenerator_avr.cpp:350-356 | the names of a gate's operands are prefix-free exactly when the digits of no connected input begin those of another one |
| Operands.FewInputsIff | npsystem/block.cpp:1749-1763 | with all inputs connected, exactly the gates with fewer than ten inputs have prefix-free names |
| Operands.TenthInputIff | npsystem/codegenerator_avr.cpp:355-356 | with ten or more inputs the name of the tenth becomes the number of the first with a zero behind it exactly when the first is replaced before it |
| Operands.SwapLetters | npsystem/codegenerator_avr.cpp:141-147 | the loop computes the left-to-right exchange of byte letters and percent signs |
| Operands.SwapOperand | npsystem/codegenerator_avr.cpp:141-147 | the exchange moves the letter before an operand number behind the percent sign and changes nothing else |

## Left out

- Windows, drawing, dialogs, remote calls, starting the compiler and the linker, files, the database and serialization: input and output, or foreign tools. The sizes and addresses the linker reports are parameters.
- The loop over external references before an upload: it depends on saved states and reference counts that the repository does not show.
- What the C compiler makes of the blocks generated as C text (Add, Comparator, Function, Alarm, the byte case of Output) is a parameter; the statements themselves, and the generators with an empty body, are not modelled.
- The text of the assembler instructions: instructions are data; strings appear where operand names are replaced, and the lists of C expressions are not joined into one string.
- Loading operand cells into registers before a block and storing them behind it, which the C compiler does: a register is identified with its cell.
- Interrupts between the two instructions that protect reading the clock: the clock does not change within a scan.
- Timetable.ScheduleRuns: tables have fewer than 256 entries, because the assembler takes only one byte for the loop counter, and lie in the 16-bit address space; so for `Timetable.LoopRuns`.
- Codegen.CodeGenerator.GenerateOutput: the byte case, which is C text.
- Scans.BlockRuns: a gate whose connected inputs are all bytes has no equation, because it stores what T happens to hold (`Gates.ImplementsKleeneIff`); statements in C compute some bits from others, and nothing else.
- Compiler.Compile: no input of a binary encoder is a byte variable, for which the original fails an assertion.
- Runs.ProgramMeans: between two scans nothing changes the output and the state of a block; what else writes the controller's memory is not part of this model.
- Orders.OrderIsIrrelevant: what a block reads of another one is its output; that the input variable of a block is the output variable of the connected one is a precondition.
- Memory.MemoryManager.AllocateMemory: the early return for variables that are allocated already is left to the caller; the statuses of variables and `Commit` are not modelled.
- Flash.Controller.Upload: what is written is a ghost record of which upload wrote each page; the bytes, the protocol with the controller and the hash that decides whether the code changed are left out (`changed` is a parameter).
- Quadtree.QuadrantNode.AddElement: pool allocation and `HasElement` are not modelled, nor is floating-point rounding: coordinates are real.
- Editing.BlockComposition.AddCommand: that the document agrees with the replay is stated for groups without insertions of lines whose members executed early are deletions, as the repository builds them. The second kind of group and the updating of line geometry are not modelled.
- Editing.BlockComposition.DeleteSelectedElements: of what can be selected, lines and blocks.
- Editing.UndoDo: `Move` adds and subtracts reals where the original adds and subtracts floats, so undoing a move is exact here.
- Iterators.PreorderIterator.Next: every element gives its children as a list of its own; the iterators that elements share, and `ExitBranch`, are not modelled.
- RemoteTable.UploadRemoteData: requires addresses and sizes that fit the packed fields, and at most 64 links, the size of the array.
- Operands.NormalizedText: the text is given as pieces, names apart from what stands between them; `Normalize` itself takes any text.
- Groups.RedoGroup: a line is an element of the document once, while it is connected, and no other command of the group is about it.
- Commands, variables, links and operands are values here where the original has objects with one owner; sharing between them is not modelled.
