# Beremiz, modelled and proved in Dafny

This project models the parts of Beremiz whose correctness is hardest to see from the code, and proves what
they are for. `dafny verify dfyconfig.toml` checks it.

**The graphical-language compiler** (`PLCGenerator.py`)

- `StText`, `Paths`, `Factorization`: the tree of paths behind a connection. Printing a tree and reading the
  text back, with AND binding tighter than OR, gives the tree's truth value; factorizing keeps it, adds no
  leaf and leaves no two paths with a common end, or fails because paths cannot be compared.
- `PathOrder`, `ComparisonSorts`: how Python compares paths, and why every sort that compares elements raises on
  the same lists of paths, those with two that cannot be compared, and gives the same result for all others.
- `Networks`, `PathTexts`, `Emission`, `Scans`, `PouGenerator`, `Rungs`: ladder and function block bodies as graphs.
  The text printed for a connection is true exactly when power is conducted to it, every block is called once
  after the blocks that feed it, and running the generated statements gives every output and every sink the value
  that the graph denotes; where variables are read and written in one body, it is a scan of the graph, element by
  element. A feedback loop does not keep the generator from ending.
- `TemporaryNames`: when two outputs of functions are given the same name.
- `Sfc`, `SfcWiring`, `SfcGenerator`, `SfcEmission`, `SfcJumps`: sequential function charts. The two mutually
  recursive walks record every link of the chart once, whatever the order of the instances, and fail exactly when
  an element is at fault; what they take for predecessors is what is wired in front. The destructive walk that
  writes the chart writes exactly the steps to which the chart leads from an initial step. A jump leads somewhere
  only if it is spelled as its step.
- `Declarations`, `ProgramGenerator`: data types and POUs, each written once and after everything its declaration
  names that does not depend on it in turn.

**The runtime's transfer protocol** (`C_runtime`)

- `Md5Block`, `Md5`, `Md5Values`: the sixty-four unrolled steps against a description of one step by its number,
  and the incremental digest over arrays, with its 32-bit counters, against the digest of the whole message; the
  mixing functions bit by bit, and the digest of the empty message as RFC 1321 gives it.
- `BlobStore`, `PlcBlobs`: the store in which every blob is re-keyed by its digest after every chunk. The blobs
  own digests of `Md5`, so what is proved of the store for any digest holds of the one that is computed.
- `TraceQueue`: the trace thread and the debugger's calls as a state machine over atomic steps.

**Stateful indexes**

- `UndoHistory`, `UndoBuffers`: the ring of twenty slots as a bounded history with a cursor, which shows the end
  of a log that forgets nothing, and the controller that adds pending edits to it. Every state is followed as a
  version, so that it can be said which one was saved. The node of a code file (CodeFileTreeNode.py:229-266) is
  that controller with its buffer always enabled.
- `ChunkInfos`: from positions in the program text back to model elements.
- `FreeNames`, `ConfigTree`, `ConfigLocations`: the configuration tree, whose sibling names and channels stay
  distinct, and in which a location finds its node again.

`Results`, `Sequences`, `FiniteSets`, `Texts` and `Seals` are small helpers; the last one explains how some class
invariants are kept from slowing down proofs that do not need them.

Where the model keeps state in a class, each method is specified by a function of the old state (or by the
property itself), and the properties over whole runs are lemmas about that function.

## Where the code does less than one might expect

Each of these is kept as in the code, with the exact condition under which the expected property holds.

- The paths of a connection are sorted after factorizing, and Python 3 does not compare a string with a list, a list
  with a tuple, or a rail with anything (PLCGenerator.py:1080). A wired OR of which two paths cannot be compared, at
  the end or within a group, stops the generator with a TypeError (`Factorization.FactorizePaths`,
  `PouGenerator.PouProgramGenerator.ComputeProgram`). So does every connection to which sources with paths of
  different kinds are wired, or a rail together with anything else (`Rungs.KindsDiffer`, `Rungs.RailInWiredOr`);
  `Rungs.RungFails` has the rung X := A OR C AND B.
- The expression of an input variable is printed as it is (PLCGenerator.py:1301). Alone, negated or between ORs that is
  right; where it is the only source behind a contact, it stands behind AND, and is read right exactly if it is
  one term, or what stands behind its first term is true only when the contact is closed (`StText.SplicedBehindAnd`).
- A function with a pin and no output leaves the name that its result is assigned to unset, which stops the generator
  (PLCGenerator.py:1184). The model has it as a fault (`PouGenerator.PouProgramGenerator.ComputeProgram`).
- Two temporaries are given the same name when the type, id and parameter of one run into those of the other, as for
  block 12 of type ADD and block 2 of type ADD1 (`TemporaryNames.SameName`, `TemporaryNames.NamesClash`,
  PLCGenerator.py:1167-1170); types without a digit at the end or before an underscore are safe
  (`TemporaryNames.TameInjective`).
- The connections of a coil that passes power on are a wired OR but are printed as AND; the two agree
  exactly for one connection (`PathTexts.PassThroughCoil`, PLCGenerator.py:1361). A coil without a connection is
  printed as nothing at all, or makes a contact behind it stand at the rail (`PathTexts.UnconnectedCoil`).
- A jump of a chart is accepted if letter case apart there is a step of its name (plcopen/plcopen.py:163-164,
  1459-1464), but is written as it is spelled, and the walk that writes the chart looks steps up by their exact
  name (PLCGenerator.py:1646-1647). A step is written because of such a jump exactly when the jump is spelled as
  the step is (`SfcJumps.JumpLands`, `SfcJumps.AllMeantReached`); `SfcJumps.MisspelledJump` shows a chart from
  which a step is left out without an error.
- An input of a convergence is taken for a transition, or for a step, whatever it is; anything else makes the
  generator stop, and so does a transition without a connection point. The model has these as faults
  (`SfcGenerator.PouSfcGenerator.GenerateTables`, PLCGenerator.py:1441-1451, 1568-1571).
- A function call by position hands every input its value exactly when no unconnected input precedes a
  connected one: `getconnections` always returns a list (plcopen/plcopen.py:2728), so an unconnected pin
  counts as connected and is then left out of the arguments (`PathTexts.PositionalArgsFaithful`,
  `PathTexts.GapHappens`, PLCGenerator.py:1136-1162).
- A data type that is a subrange of a derived type stops the generation: the name is asked of a string
  (PLCGenerator.py:157). The model has it as a fault (`ProgramGenerator.ProjectGenerated`).
- The loop guard of the digest wraps around for lengths close to 2^32; it is right exactly for the lengths of
  `Md5.LengthSafe` (`Md5.GuardExact`, `Md5.GuardWraps`, C_runtime/md5.cpp:271).
- An edit made while the saved state is among those undone leaves the mark of the saved state in place, and
  after enough further edits another state is reported as saved; this is exactly when an answer can be wrong
  (`UndoHistory.DiscardExact`, PLCControler.py:85-98). To edit, save, undo and edit again is enough
  (`UndoHistory.WrongAnswer`).
- A sample fetched before a new list of trace variables was set can be delivered after it exactly when the
  trace thread holds one at the moment of the purge, which happens (`TraceQueue.StaleSampleExact`,
  `TraceQueue.StaleSampleHappens`, C_runtime/PLCObject.cpp:508-517).
- The digest of a blob does not tell where its seed ends. A blob that was appended to is lost, although the call
  succeeds, exactly when the store has a blob whose seed and content make up the same bytes split differently
  (`BlobStore.AppendedIsKept`, C_runtime/PLCObject.cpp:72); `BlobStore.SecondTransferLost` shows two transfers
  of which the second ends in the file of the first. Seeding replaces a blob under the same condition
  (`BlobStore.SeededKeeps`, C_runtime/PLCObject.cpp:496).
- A new child of the configuration tree gets a used channel only when a negative channel in use is asked for
  and channel 0 is in use as well, as for the third of three children that are to have the channels 0, -1 and -1
  (`ConfigTree.PlaceableExact`, `ConfigTree.ChannelGivenTwice`, ConfigTreeNode.py:464-475).

## Model

| member | source | states |
|---|---|---|
| Paths.PrintReadRoundTrip | PLCGenerator.py:1364-1380 | the text printed for any tree of non-empty lists reads back completely and has the tree's value in every store; operands in a list are single factors, others any expression |
| Paths.ReadPath | PLCGenerator.py:1364-1380 | inside a longer text, what is printed for a tree is read as one factor or as terms that extend what was read before, with the tree's meaning |
| Paths.ReadSummand | PLCGenerator.py:1364-1380 | between ORs, what is printed for a tree is read as a summand with the tree's meaning, also where it is an expression of several terms |
| StText.SplicedBehindAnd | PLCGenerator.py:1356-1357 | an expression printed behind a contact and AND keeps its value in all stores if and only if what stands behind its first term is never true without the contact |
| PathOrder.LessTransitive | PLCGenerator.py:1080 | the order of paths is transitive, and so is being comparable along it |
| PathOrder.AllComparableWhen | PLCGenerator.py:1080 | all pairs can be compared if and only if different paths can and there is at most one rail |
| ComparisonSorts.EverySort | PLCGenerator.py:1080 | every sort by comparisons, whatever it asks, raises on a list of paths if and only if two of them cannot be compared, and gives the one ascending order otherwise |
| ComparisonSorts.InsertionSorts | PLCGenerator.py:1080 | there are such sorts, for every length |
| Factorization.FactorizePaths | PLCGenerator.py:1056-1081 | ends; raises if and only if, at the end or within a group of paths with a common end, two paths to be sorted cannot be compared; otherwise the result is the sorted one, which keeps the OR of the paths in every store, adds no leaf, has pairwise distinct last elements, and is only another order of paths that already have them |
| Factorization.UnmergedSortable | PLCGenerator.py:1056-1081 | paths with pairwise distinct last elements are factorized without an exception if and only if all of them can be compared |
| Rungs.KindsDiffer | PLCGenerator.py:1056-1081 | paths two of which are of different kinds (list, tuple, string, rail) cannot be factorized, whatever is merged |
| Rungs.RailInWiredOr | PLCGenerator.py:1298-1299 | a connection to which a rail and anything else are wired cannot be generated |
| Rungs.RungFails | PLCGenerator.py:1080 | the generator raises an exception for the rung X := A OR C AND B, a network without any other fault |
| Factorization.MergeGroup | PLCGenerator.py:1069-1077 | replacing the members of a group by one path with their common end keeps meaning, leaves and shape |
| Factorization.Collect | PLCGenerator.py:1057-1068 | every path of at least two elements is in the group of its last element, once, in order |
| Factorization.RemoveMembers | PLCGenerator.py:1076-1077 | exactly the members of the group leave the paths still to be copied |
| Factorization.MergedPath | PLCGenerator.py:1071-1075 | the merged path is true when some member is, with no more leaves, and ends in the common element |
| Factorization.FinalTails | PLCGenerator.py:1069-1079 | after all groups, no two paths have the same last element |
| Networks.FlowIsConduction | PLCGenerator.py:1293-1362 | what reaches a connection is true exactly when a chain of closed contacts leads back to a rail or to a true source |
| PathTexts.PathsTruth | PLCGenerator.py:1293-1362 | the OR of the paths generated for the sources of a connection has the truth of what reaches it |
| PathTexts.ContactContribution | PLCGenerator.py:1341-1359 | the path generated for a contact is the contact in series with what leads to it |
| PathTexts.CoilContribution | PLCGenerator.py:1360-1361 | the path of a coil with any number of connections is true when all of them conduct, and with one connection has the value that reaches the coil |
| PathTexts.PassThroughCoil | PLCGenerator.py:1360-1361 | the list of a connected coil's paths means their OR, for all paths and stores, if and only if there is exactly one |
| PathTexts.UnconnectedCoil | PLCGenerator.py:1360-1376 | the path of an unconnected coil is printed as a text that cannot be read; a contact behind it is printed as one at the rail |
| PathTexts.ConnectionText | PLCGenerator.py:1382-1394 | the text printed for a connection, factorized or not, reads completely and has the value that reaches the connection |
| PathTexts.TextConducts | PLCGenerator.py:1382-1394 | the printed condition is true exactly when power is conducted to the connection |
| PathTexts.FormalArgsFaithful | PLCGenerator.py:1136-1162 | a call by formal parameter gives every connected input the value that reaches it, and nothing to others |
| PathTexts.PositionalArgsFaithful | PLCGenerator.py:1136-1162 | a call by position does so if and only if no unconnected input precedes a connected one |
| PathTexts.GapHappens | PLCGenerator.py:1136-1162 | a function whose first input is not connected is called by position, with its first input given what reaches the second |
| Emission.RunExecutes | PLCGenerator.py:1003-1054 | running faithful statements, each block called once and after its feeders, leaves every output and sink as the graph asks in the final store |
| Emission.SolutionUnique | PLCGenerator.py:1003-1054 | without feedback the names read determine every block output |
| Emission.RunSolves | PLCGenerator.py:1003-1054 | once every block was called, the store after the run solves the graph for the names read, and every assigned sink has its value in it |
| Emission.DenotationUnique | PLCGenerator.py:1003-1054 | all stores that solve the graph for the same names agree on every output and every sink |
| Emission.RunDenotes | PLCGenerator.py:1003-1054 | the graph has exactly one solution for the names read, and running such a program gives every output and every sink its value in it |
| PouGenerator.PouProgramGenerator.GeneratePaths | PLCGenerator.py:1293-1362 | exactly the path of each source of the connections, in order, with the meaning of what it contributes; all blocks behind them have been generated; fails only for a fault that is there |
| PouGenerator.PouProgramGenerator.GeneratePath | PLCGenerator.py:1295-1361 | the same for one connection |
| PouGenerator.PouProgramGenerator.GenerateContact | PLCGenerator.py:1341-1359 | the contact in series with what leads to it; fails for a contact nothing leads to, or sources whose paths cannot be sorted |
| PouGenerator.PouProgramGenerator.Join | PLCGenerator.py:1348-1353 | several paths are factorized; fails if and only if they cannot be sorted |
| PouGenerator.PouProgramGenerator.ComputeExpression | PLCGenerator.py:1382-1394 | the text of a connection, absent exactly when nothing is connected, true exactly when power is conducted to it; if it fails, a fault is on the way back from the connection or behind a block |
| PouGenerator.PouProgramGenerator.GenerateBlock | PLCGenerator.py:1083-1292 | a block is visited once, also in a feedback loop; the blocks feeding it are called before; an output that does not exist, and a function with a pin and without outputs, is an error |
| PouGenerator.PouProgramGenerator.GenerateInputs | PLCGenerator.py:1136-1158 | the texts of the connected inputs, each with the value that reaches it |
| PouGenerator.PouProgramGenerator.EmitCall | PLCGenerator.py:1159-1219 | one call is added, and none for a function none of whose inputs has a pin, which is only warned about; the call of a function block, of a function with several outputs or of one with an input without a pin names all arguments, that of any other function names none |
| PouGenerator.PouProgramGenerator.CallsHandOver | PLCGenerator.py:1136-1219 | every call in the program hands its block exactly what reaches the inputs if and only if the block is no function with one output and a pin for every input, or no unwired input precedes a wired one |
| PouGenerator.PouProgramGenerator.GenerateSink | PLCGenerator.py:1004-1054 | an output variable or a coil is assigned exactly when something is connected to it, behind all sinks assigned before |
| PouGenerator.PouProgramGenerator.ComputeProgram | PLCGenerator.py:1003-1054 | for any order of the instances: fails exactly when an unconnected contact, a missing output, paths that cannot be sorted or a function without outputs can be reached from a sink or a block; otherwise all blocks are generated and exactly the connected sinks are assigned, in the order of the instances |
| PouGenerator.PouProgramGenerator.GeneratedProgramDenotes | PLCGenerator.py:1003-1054 | for every library and every initial store the graph has exactly one solution, and running the generated program gives every output and every connected sink its value in it |
| Scans.RunIsScan | PLCGenerator.py:1003-1054 | running faithful statements evaluates the elements of the graph one after the other, each in the store as it is then, whatever names are read and written |
| PouGenerator.PouProgramGenerator.GeneratedProgramScans | PLCGenerator.py:1003-1054 | also with feedback, and where names that are read are written: running the generated program is such a scan, with every block once and, without feedback, after its feeders |
| PouGenerator.PouProgramGenerator.CalledOnce | PLCGenerator.py:1113-1115 | in a finished program every block is called exactly once, feedback or not |
| TemporaryNames.SameName | PLCGenerator.py:1167-1170 | two temporaries have the same name if and only if the type of one goes on with digits of the other's id, or with the beginning of its parameter, or is itself made like a temporary's name |
| TemporaryNames.TameInjective | PLCGenerator.py:1167-1170 | for types without a digit at the end or before an underscore, and not made like a temporary's name, names are different |
| TemporaryNames.NamesClash | PLCGenerator.py:1167-1170 | block 12 of type ADD and block 2 of type ADD1 have the same temporary; so have output A2_Q of an F with id 1 and output Q of an F1_A with id 2 |
| Sfc.VisitStepOk | PLCGenerator.py:1453-1487 | generating a step leaves it and everything visited on the way with exactly their predecessors recorded, and disturbs nothing under way |
| Sfc.VisitTransitionOk | PLCGenerator.py:1568-1644 | the same for a transition |
| Sfc.VisitStepSound | PLCGenerator.py:1453-1487 | the transitions of the steps and the "from" side of the transitions stay mirror images, and initial steps are listed once |
| Sfc.VisitTransitionSound | PLCGenerator.py:1568-1644 | the same for a transition |
| SfcWiring.BeforeStep | PLCGenerator.py:1463-1482 | what is taken for a transition in front of a step or a jump is one, as often as it is wired: directly, at an input of a selection convergence with that single connection, or one of both above a simultaneous divergence |
| SfcWiring.BeforeTransition | PLCGenerator.py:1570-1591 | the same for the steps in front of a transition, with simultaneous convergences and selection divergences |
| SfcWiring.ElementsInOrder | PLCGenerator.py:1441-1451 | what is taken from a convergence is in the order of its inputs, none left out that has a single connection |
| SfcWiring.StepFineExact | PLCGenerator.py:1463-1487 | a step stops the generation exactly when something else than a transition is wired in front of it |
| SfcWiring.TransitionFineExact | PLCGenerator.py:1568-1591 | a transition stops it exactly when it has no connection point, or something else than a step is wired in front of it |
| SfcWiring.JumpWired | PLCGenerator.py:1489-1521 | a jump stands for a link from each transition that is wired in front of it, as often as it is |
| SfcWiring.TablesWired | PLCGenerator.py:963-972 | for any order of the instances, each transition comes from exactly the steps and leads to exactly the steps and jump targets to which it is wired, each as often |
| SfcGenerator.JumpsOk | PLCGenerator.py:1489-1521 | a jump adds its target behind each of its transitions, once each |
| SfcGenerator.TablesComplete | PLCGenerator.py:963-972 | whatever the order of the instances, the tables end up with every step, every transition and every link of the chart and of its jumps exactly once |
| SfcGenerator.PouSfcGenerator.GenerateSFCStep | PLCGenerator.py:1453-1487 | the new tables are those of the walk from the step, and nothing entered is at fault; or something in the body is |
| SfcGenerator.PouSfcGenerator.GenerateSFCTransition | PLCGenerator.py:1568-1644 | the same for the walk from a transition, which must have a connection point |
| SfcGenerator.PouSfcGenerator.GenerateSFCJump | PLCGenerator.py:1489-1521 | unless the target matches no step with letter case apart, or something else than a transition is in front, or the body is at fault, the transitions in front are generated and lead to the target as it is spelled |
| SfcGenerator.PouSfcGenerator.GenerateTables | PLCGenerator.py:963-972 | fails exactly when an instance is at fault: a jump that matches no step, a convergence input of the wrong kind, a transition without a connection point; otherwise the tables are those of all instances in their order |
| SfcEmission.ComputeStepOk | PLCGenerator.py:1646-1679 | writing a step takes out everything behind it, each element written once and only if it is reached |
| SfcEmission.ComputeTransitionOk | PLCGenerator.py:1690-1723 | the same for a transition, or an error for one without a step before or behind it |
| SfcEmission.EmissionExact | PLCGenerator.py:1646-1723 | the program holds exactly the reached steps, transitions and actions, each once; an error exactly when a reached transition has no step before or behind it |
| SfcEmission.StepsWritten | PLCGenerator.py:980-981 | with complete tables, the steps written are those to which the chart's own links lead from an initial step |
| Texts.TextMatchedExact | plcopen/plcopen.py:163-164 | texts match exactly when they are not empty and have the same letters one by one, small or capital |
| SfcJumps.JumpLands | PLCGenerator.py:1489-1521 | a jump that is reached and accepted leads to the step it matches if and only if it is spelled as the step, or the step is reached without it |
| SfcJumps.JumpWritten | PLCGenerator.py:1646-1647 | the step it matches is written under the same condition |
| SfcJumps.AllMeantReached | PLCGenerator.py:1489-1521 | the chart leads to all steps to which its jumps are meant to lead if and only if each jump reached is spelled as its step, or that step is reached otherwise |
| SfcJumps.MisspelledJump | plcopen/plcopen.py:1459-1464 | a chart with a jump to RUN and a step Run raises nothing, and the step is not written |
| SfcEmission.SfcEmitter.ComputeSFCStep | PLCGenerator.py:1646-1679 | the new state is that of writing the step and all behind it |
| SfcEmission.SfcEmitter.ComputeSFCTransition | PLCGenerator.py:1690-1723 | the new state is that of writing the transition and all behind it, or the same error |
| SfcEmission.SfcEmitter.ComputeSFCAction | PLCGenerator.py:1681-1688 | an action is written if it is still in the table, and is taken out |
| SfcEmission.SfcEmitter.ComputeChart | PLCGenerator.py:980-981 | the chart is written from each initial step in turn |
| Declarations.UsesExact | PLCGenerator.py:132-270 | what is generated for a declaration is exactly what it names: a type its base, its array's base or those of its elements and their arrays; a POU the types of its variables, its blocks, and the POUs mentioned in its text |
| Declarations.MentionsExact | PLCGenerator.py:266-270 | a text mentions a POU, letter case apart, exactly when the name stands in it with no digit, capital or caret next to it |
| Declarations.TypesUseTypes | PLCGenerator.py:143-216 | generating a data type asks for data types only |
| ProgramGenerator.VisitOk | PLCGenerator.py:132-270 | a visit writes nothing twice, leaves nothing marked and unwritten that was not so before, and fails only for a faulty declaration |
| ProgramGenerator.VisitOrdered | PLCGenerator.py:132-270 | a visit keeps the order between a declaration and those that use it without being used by it |
| ProgramGenerator.ProjectGenerated | PLCGenerator.py:461-488 | ends also for cyclic uses; fails exactly when a data type or POU is faulty; otherwise each is written exactly once, all types before all POUs |
| ProgramGenerator.UsedIsWrittenFirst | PLCGenerator.py:132-270 | each declaration comes after everything that it names, except what depends on it in turn |
| ProgramGenerator.UsedFirstWhenAcyclic | PLCGenerator.py:132-270 | without cycles everything a declaration names comes before it |
| ProgramGenerator.Generator.GenerateDataType | PLCGenerator.py:132-244 | the new state, or the error, is that of the visit of the data type |
| ProgramGenerator.Generator.GeneratePouProgram | PLCGenerator.py:247-263 | the new state, or the error, is that of the visit of the POU |
| ProgramGenerator.Generator.GenerateInterface | PLCGenerator.py:661-672 | the types of the variables are visited in order, blocks as POUs and others as data types |
| ProgramGenerator.Generator.GeneratePouProgramInText | PLCGenerator.py:266-270 | the POUs whose names stand in the text are visited in order |
| ProgramGenerator.Generator.GenerateProgram | PLCGenerator.py:461-482 | the program, or the error, is that of the whole project |
| Md5Block.DecodeInvertsEncode | C_runtime/md5.cpp:133-153 | decoding the encoded words gives the words |
| Md5Block.EncodeInvertsDecode | C_runtime/md5.cpp:133-153 | encoding the decoded bytes gives the bytes |
| Md5Block.DecodeInto | C_runtime/md5.cpp:133-138 | the array holds the decoded words |
| Md5Block.EncodeInto | C_runtime/md5.cpp:144-153 | the array holds the encoded bytes |
| Md5Block.Round1 | C_runtime/md5.cpp:163-179 | the first sixteen unrolled steps are steps 0 to 15 by number |
| Md5Block.Round2 | C_runtime/md5.cpp:181-198 | the next sixteen are steps 16 to 31 |
| Md5Block.Round3 | C_runtime/md5.cpp:199-216 | the next sixteen are steps 32 to 47 |
| Md5Block.Round4 | C_runtime/md5.cpp:217-233 | the last sixteen are steps 48 to 63 |
| Md5Block.Transform | C_runtime/md5.cpp:158-242 | the unrolled transformation is the compression of section 3.4 of RFC 1321 |
| Md5Values.FBit | C_runtime/md5.cpp:60-63 | for every bit: that of y where x has it set, else that of z |
| Md5Values.GBit | C_runtime/md5.cpp:65-68 | for every bit: that of x where z has it set, else that of y |
| Md5Values.HBitSame | C_runtime/md5.cpp:70-73 | where x and y have the same bit, that of z |
| Md5Values.HBitOther | C_runtime/md5.cpp:70-73 | where they do not, the other one |
| Md5Values.IBit | C_runtime/md5.cpp:75-78 | for every bit: that of y, turned over where x has it set or z has it not |
| Md5Values.RotateBitUp | C_runtime/md5.cpp:81-84 | a bit that stays in the word moves up by the amount |
| Md5Values.RotateBitAround | C_runtime/md5.cpp:81-84 | a bit that leaves it above comes in again below |
| Md5Values.EmptyDigest | C_runtime/md5.cpp:286-324 | the digest of the empty message is d41d8cd98f00b204e9800998ecf8427e, the first vector of appendix A.5 of RFC 1321 |
| Md5.CounterExact | C_runtime/md5.cpp:303-305 | the two words are the number of bits modulo 2^64 |
| Md5.CountExact | C_runtime/md5.cpp:253-256 | the update of the two words, with its carry, counts the new bits |
| Md5.IndexExact | C_runtime/md5.cpp:250-251 | the buffer index computed from the low word is the number of bytes modulo 64 |
| Md5.GuardExact | C_runtime/md5.cpp:271 | the 32-bit loop guard is right at every place where it is evaluated if and only if the length is safe |
| Md5.GuardWraps | C_runtime/md5.cpp:271 | for the length 2^32 - 64 with an empty buffer it asks for a block beyond the input |
| Md5.MD5.Update | C_runtime/md5.cpp:248-281 | the stream is extended by the input: state, buffer and counter stand for all bytes fed so far |
| Md5.MD5.TransformBlocks | C_runtime/md5.cpp:270-272 | all whole blocks of the input are folded into the state, and fewer than 64 bytes remain |
| Md5.MD5.FeedPadding | C_runtime/md5.cpp:307-313 | after padding and length the message is the padded one of sections 3.1 and 3.2 of RFC 1321, on a block boundary |
| Md5.MD5.Digest | C_runtime/md5.cpp:286-324 | the digest of all bytes fed so far; buffer, counter, state and stream are as before |
| Md5.Interleaved | C_runtime/md5.cpp:248-324 | for every sequence of updates of safe lengths with digests anywhere in between, each digest is that of all bytes fed before it |
| BlobStore.AlwaysKeyed | C_runtime/PLCObject.cpp:40-80 | over every run, failures included, every key is the digest of its blob's seed and content |
| BlobStore.PurgeEmpties | C_runtime/PLCObject.cpp:402-413 | a purge leaves no blob and all files |
| BlobStore.AppendedIsKept | C_runtime/PLCObject.cpp:40-80 | for a digest that separates the messages in the store, the id returned stands for the longer blob if and only if no blob's seed and content make up the same message split differently |
| BlobStore.SeededKeeps | C_runtime/PLCObject.cpp:476-507 | seeding leaves a blob in the store if and only if its seed and content do not make up the new seed, split differently |
| BlobStore.SecondTransferLost | C_runtime/PLCObject.cpp:40-80 | four successful calls after which the file of the second transfer is that of the first |
| BlobStore.TransferKept | C_runtime/PLCObject.cpp:40-80 | whatever other transfers do, as long as ids do not coincide, the transfer's blob holds its own chunks in order |
| BlobStore.TransferArrives | C_runtime/PLCObject.cpp:249-271 | such a transfer ends in a file of exactly its own chunks |
| PlcBlobs.Blob.AppendChunk | C_runtime/blob.cpp:45-55 | the file is extended by the data and the MD5 object is fed with it, or nothing is written |
| PlcBlobs.Blob.Digest | C_runtime/blob.cpp:41-43 | the MD5 of seed and content, which the MD5 object computes; the blob stays as it is |
| PlcBlobs.PLCObject.SeedBlob | C_runtime/PLCObject.cpp:476-507 | the new store and the reply are those of the seeding, replacing a blob of the same id |
| PlcBlobs.PLCObject.AppendChunkToBlob | C_runtime/PLCObject.cpp:40-80 | the new store and the reply are those of the appending, in every case of failure too; other blobs are untouched |
| PlcBlobs.PLCObject.BlobAsFile | C_runtime/PLCObject.cpp:249-271 | the blob leaves the store in any case, and on success its content is the file |
| PlcBlobs.PLCObject.PurgeBlobs | C_runtime/PLCObject.cpp:402-413 | the store is empty, files are untouched |
| TraceQueue.OneOwner | C_runtime/PLCObject.cpp:624-671 | over all interleavings every allocated buffer is with the thread, in the queue, delivered or freed, in one place only |
| TraceQueue.DeliveredInOrder | C_runtime/PLCObject.cpp:179-212 | over all interleavings the delivered samples are a subsequence of those pushed |
| TraceQueue.NothingLost | C_runtime/PLCObject.cpp:192-206 | over every run without a purge, what is delivered and queued in the end is what was so at the start, followed by exactly what was pushed meanwhile, and nothing is freed |
| TraceQueue.FreedByPurge | C_runtime/PLCObject.cpp:508-517 | exactly a purge, where the thread ends or for a new list, frees samples, namely all that are queued |
| TraceQueue.HeldIsPushed | C_runtime/PLCObject.cpp:660-666 | a sample stays with the thread until it is queued behind the others |
| TraceQueue.CallTakesAll | C_runtime/PLCObject.cpp:182-206 | a call with the current token delivers the whole queue in order, or leaves it when there is no memory or the token is another |
| TraceQueue.StopsSoon | C_runtime/PLCObject.cpp:624-671 | over every run in which the PLC is not started, at most the one sample is pushed that the thread holds or is about to fetch |
| TraceQueue.FailedFetchEnds | C_runtime/PLCObject.cpp:641-657 | after a failed fetch nothing more is pushed until the thread is joined |
| TraceQueue.Restarts | C_runtime/PLCObject.cpp:561-571 | a thread that ended and was joined is started again by the next list, with nothing queued |
| TraceQueue.RefusedListPurgesNothing | C_runtime/PLCObject.cpp:519-559 | over every run after an empty or a refused list, up to the next one, nothing is purged by the call, although the old token is invalid |
| TraceQueue.NeverLeft | C_runtime/PLCObject.cpp:508-517 | over all interleavings, nothing is queued while there is no trace thread |
| TraceQueue.OldTokenExact | C_runtime/PLCObject.cpp:182-185 | a token obtained earlier is accepted if and only if the lists set since then are a multiple of 2^32 |
| TraceQueue.DeliveredAfterCheck | C_runtime/PLCObject.cpp:179-212 | over runs in which no call carries the token that is current then, nothing is delivered |
| TraceQueue.OldClientGetsNothing | C_runtime/PLCObject.cpp:179-212 | after a new list, a client with the token it had gets nothing until 2^32 lists have been set |
| TraceQueue.StaleSampleExact | C_runtime/PLCObject.cpp:561-568 | after the purge for a new list, only samples fetched for it are delivered if and only if the thread held none |
| TraceQueue.StaleSampleHappens | C_runtime/PLCObject.cpp:561-568 | a run from the start after which the thread holds a sample at the purge |
| UndoHistory.EditKeepsLatest | PLCControler.py:85-98 | after an edit the states are the last twenty of those up to the current one and the new one, which is current and newest |
| UndoHistory.UndoneIsRedone | PLCControler.py:107-119 | undo and redo are inverse where they are possible, and undoing an edit returns to the state before it |
| UndoHistory.RunShowsLog | PLCControler.py:85-119 | over every run, the states are those of a log from its floor on, and the current state is the log's; the log drops only what edits drop, and its floor rises only to keep twenty states |
| UndoHistory.SavedExact | PLCControler.py:85-134 | over every run of new states in which no edit drops the state saved last, the mark is at that state or the state has left the history, and the flag is true exactly at it |
| UndoHistory.VersionsForgotten | PLCControler.py:85-134 | a run on any states is the run on numbered versions of them with the numbers forgotten |
| UndoHistory.SavedOverRuns | PLCControler.py:85-134 | over every run in which no edit drops the version saved last, the flag is true exactly at that version, for states that may recur |
| UndoHistory.DiscardExact | PLCControler.py:85-98 | an edit leaves all later answers right, as to which version was saved last, if and only if the mark is not beyond the current state |
| UndoHistory.StaleMarkIsReached | PLCControler.py:85-98 | otherwise as many further edits as lie between the current state and the mark make the flag true at a version that was not saved |
| UndoHistory.WrongAnswer | PLCControler.py:85-98 | from a saved project: edit, save, undo, edit; the second edit is reported as saved, the first was |
| UndoBuffers.UndoBuffer.constructor | PLCControler.py:60-83 | the ring stands for a history of the given state, or of none |
| UndoBuffers.UndoBuffer.Buffering | PLCControler.py:85-98 | the ring stands for the history with redo truncated, the state appended and at most twenty kept, at every position of the ring |
| UndoBuffers.UndoBuffer.Previous | PLCControler.py:107-112 | goes back and returns the state there, or nothing at the oldest |
| UndoBuffers.UndoBuffer.Next | PLCControler.py:114-119 | goes forward and returns the state there, or nothing at the newest |
| UndoBuffers.OfferedIsLoaded | PLCControler.py:2852-2866 | undo and redo are offered exactly when a state is loaded, also with an edit pending, and redo brings the pending edit back |
| UndoBuffers.SessionRuns | PLCControler.py:2833-2859 | what a session does to the history is a run of it, and with nothing pending the model is the current state |
| UndoBuffers.SavedVersionHoldsModel | PLCControler.py:2838-2843 | the version saved last holds the model as it was when it was last marked as saved |
| UndoBuffers.SavedOverSessions | PLCControler.py:2833-2850 | over sessions in which no pending edit drops the version saved last, the project is reported as saved exactly when nothing is pending and the current version is that one; the project is then the one last marked as saved |
| UndoBuffers.PLCControler.EndBuffering | PLCControler.py:2833-2836 | a pending edit is added to the history, and nothing else happens |
| UndoBuffers.PLCControler.MarkProjectAsSaved | PLCControler.py:2838-2843 | a pending edit is added, and the current state is marked |
| UndoBuffers.PLCControler.ProjectIsSaved | PLCControler.py:2846-2850 | the mark is at the current state and nothing is pending |
| UndoBuffers.PLCControler.LoadPrevious | PLCControler.py:2852-2855 | a pending edit is added first; then the previous state is loaded, if there is one |
| UndoBuffers.PLCControler.LoadNext | PLCControler.py:2857-2859 | the next state is loaded, if there is one |
| UndoBuffers.PLCControler.GetBufferState | PLCControler.py:2861-2866 | undo is offered when the history goes back or an edit is pending, redo when it goes forward |
| ChunkInfos.GetChunkInfos | PLCControler.py:477-494 | for every range, the chunks that carry information and meet it, in order, with their positions; a range before the program yields at most the first chunk |
| ChunkInfos.MeetingExact | PLCControler.py:477-494 | what is found is one-to-one with the chunks that meet the range, in order |
| ChunkInfos.LinesCount | PLCControler.py:482-488 | counting line breaks and the length of the last line gives the position reached character by character |
| FreeNames.DecimalInjective | ConfigTreeNode.py:425 | different suffixes are written differently |
| FreeNames.DecimalExact | ConfigTreeNode.py:425 | a suffix is written in digits that have its value, without a leading zero |
| FreeNames.BaseNameExact | ConfigTreeNode.py:419-422 | an ending "_0" is dropped once; other names stay |
| FreeNames.FreeName | ConfigTreeNode.py:417-426 | the search ends and finds the desired name, or the numbered one with the least free suffix |
| FreeNames.FreeChannel | ConfigTreeNode.py:464-474 | the search ends and finds the first free channel in its direction, or none below zero |
| ConfigTree.ConfigTreeNode.FindNewName | ConfigTreeNode.py:405-441 | the node has the first free name, and the tree stays a tree with distinct siblings |
| ConfigTree.ConfigTreeNode.GetAllChannels | ConfigTreeNode.py:444-450 | the channels of the siblings in ascending order, the node's own left out |
| ConfigTree.ConfigTreeNode.FindNewIECChannel | ConfigTreeNode.py:452-476 | the node has the first free channel in its direction or keeps its own, and siblings stay distinct |
| ConfigTree.ConfigTreeNode.CTNAddChild | ConfigTreeNode.py:537-627 | an unknown type is an error, a full type adds nothing; otherwise a new child with a free name and channel joins its type's group, and the tree keeps distinct siblings |
| ConfigTree.CountOfExact | ConfigTreeNode.py:559-561 | the count that limits a type is the number of children of that type |
| ConfigTree.GroupEndExact | ConfigTreeNode.py:559-625 | a new child stands directly behind the last one of its type, or last if it is the first |
| ConfigTree.PlaceableExact | ConfigTreeNode.py:464-475 | the channel found for a new child is free if and only if it is placeable |
| ConfigTree.ChannelGivenTwice | ConfigTreeNode.py:464-475 | asked for the channels 0, -1 and -1, three new children get 0, -1 and 0 |
| ConfigTree.LocationInjective | ConfigTreeNode.py:360-364 | different nodes have different locations |
| ConfigTree.ConfigTreeNode.GetCurrentLocation | ConfigTreeNode.py:360-364 | the channels on the way from the root |
| ConfigTree.FollowedChannels | ConfigTreeNode.py:334-345 | following channels down finds the node with that location, or there is none |
| ConfigTree.LookupInvertsLocation | ConfigTreeNode.py:354-358 | looking up a location finds the one node that has it, if any |
| ConfigLocations.ChildrenSorted | ConfigTreeNode.py:325-332 | the sorted children are all children, once each, by ascending channel |
| ConfigLocations.UnderExact | ConfigTreeNode.py:305-312 | the filter keeps exactly the variables whose location starts with the given one, each as often |
| ConfigLocations.VisitedInOrder | ConfigTreeNode.py:280-318 | nodes are visited in the order of their locations, channel by channel, and no node twice |
| ConfigLocations.UnderUnder | ConfigTreeNode.py:305-312 | filtering at every level is filtering by the whole location |
| ConfigLocations.EachIsGivenItsOwn | ConfigTreeNode.py:280-318 | generation visits all nodes, and each is given exactly the variables under its location |

## Left out

- Md5.MD5.Update: lengths outside `Md5.LengthSafe` are excluded, because there the code reads beyond its input.
- Md5.Interleaved, PlcBlobs: seeds and chunks outside `Md5.LengthSafe` are excluded for the same reason.
- PlcBlobs.Blob.AppendChunk: the file of a failed write is not described.
- PouGenerator.PouProgramGenerator.GeneratedProgramDenotes: for bodies without feedback in which names read are not written, the only source behind a contact is one factor, coils that pass power on have one connection, calls by position have no gap, and every function has an input pin. With feedback or names read and written, `GeneratedProgramScans` takes its place; what happens in the other cases is said above.
- ConfigTree.ConfigTreeNode.CTNAddChild: the children that a stored child loads from disk are left out.
- Sfc: two steps of the same name; letter case of letters other than a to z; a connector, continuation or macro step at a convergence that bears the name of a step.
- ChunkInfos.GetChunkInfos: what a chunk's information means is not modelled.
- Connectors and continuations, EN and ENO, in-out pins, execution order, edges, set and reset storage of contacts and coils.
- Finding a block's output by position; outputs are known by their index.
- Temporaries are known by block and output in programs; when their texts differ is said in `TemporaryNames`. A variable of the user that has the name of a temporary.
- Functions with several outputs none of which is named "" or "OUT".
- Values other than booleans and numbers, and contacts on variables that are not BOOL; input variables whose text is no expression.
- Location tags of chunks beyond the element they belong to.
- Which order the strings of paths have: some total order, the same throughout.
- The comparison of instances by position (PLCGenerator.py:78-84): the results hold for any order.
- Recording of actions with steps, inline action texts, transition conditions, priorities, and the insertion of the action that computes function blocks.
- Types of variables and blocks, and the search for the type of a member of a structured variable (PLCGenerator.py:581-599).
- Configurations, resources and tasks: formatting.
- Why the own text of a POU cannot be generated: the model only knows that it cannot.
- Serialization of projects and code files: a state of the history is the model itself.
- Names and messages of system errors, temporary files, memory leaked by blobs that are dropped.
- Loading, starting, stopping and repairing the PLC; only the status that the trace thread reads changes, at any moment.
- Removal of configuration nodes, file system effects, parameters other than name and channel, lookup by name.
- User interface, connectors, compiler invocation, XML parsing.
