# Verified models of the nixie command line and its benchmark oracles

This project models the parts of the repository whose correctness other results rest on, and
proves what they promise.

* **Distributed cube-and-conquer.** The coordinator, its handler threads and the aggregator share a
  cube table, a worker table, two flags and a channel. `Protocol.dfy` makes every critical section
  one step of a labelled relation and proves invariants of every run; `Coordinator.dfy` is the
  shared state as an object, one method per critical section, whose `Valid()` says that the object's
  history is a run; `ProtocolHistory.dfy` follows a cube and the reports along a run. `Cubes.dfy` proves
  the generated cubes a partition of the assignment space, which is what an `unsat` verdict rests on.
* **DIMACS and QDIMACS.** Bytes to tokens (`Utf8.dfy`, `Text.dfy`, `ParseLit.dfy`), the line reader and
  writer (`Dimacs.dfy`), what each kind of line may say (`LineForms.dfy`), the flat scanner with its
  scalar and its 32-byte-block path (`FlatScan.dfy`), round trips (`DimacsRoundTrip.dfy`, `FlatRoundTrip.dfy`), exactly when the two readers agree on a file
  (`LineScan.dfy`, `WordTokens.dfy`, `ReadersAgree.dfy`, `ReadersDiffer.dfy`) and the meaning of the
  compiled formula as the evaluation game of the quantifier prefix (`Qbf.dfy`).
* **Guarded automata.** The layered Boolean encoding of "this automaton accepts these words and rejects
  those" (`Fsm.dfy`, `FsmEncoding.dfy`, `FsmExact.dfy`).
* **Binary fields.** Three multiplication or reduction algorithms and the Frobenius circuit against one
  residue (`BinaryPoly.dfy`, `BinaryField.dfy`), and the workload generators with their expected answers
  (`FieldWorkload.dfy`).
* **Exact heaps.** The checker (`HeapCase.dfy`), the array encoding and model reconstruction
  (`HeapEncoding.dfy`), instruction programs with scopes (`HeapProgram.dfy`) and the cases they describe
  (`HeapListing.dfy`), the parametric families (`HeapFamilies.dfy`), their models (`HeapModels.dfy`) and
  the oracle's verdicts for every size (`HeapVerdicts.dfy`, `HeapOracle.dfy`).
* **Core minimisation** (`CoreMin.dfy`), **cumulative scheduling** (`Cumulative.dfy`) and **goal-to-CNF
  conversion** (`Sexps.dfy`, `GoalCnf.dfy`, `GoalShapes.dfy`).

Code that changes state in a loop is a method proved against a specification function; properties are
lemmas about those functions. Formulas are datatypes with an evaluator. A solver is a function from the
assertions present to an answer; nothing is assumed of it beyond the soundness each theorem names.

## Where the code and its documentation part

* The comment at `nixie-cli/src/core_min.rs:73-76` says that one deletion pass always yields a
  1-minimal core. An assertion is also kept when its check answers unknown
  (`nixie-cli/src/core_min.rs:89-96`), and then the core need not be minimal:
  `CoreMin.UnknownLosesMinimality` is a concrete case, and `CoreMin.MinimalIffDecided` says exactly when
  the pass that runs to its end guarantees minimality.
* The flat scanner documents the token semantics and the error conditions of the line reader
  (`nixie-cli/src/dimacs.rs:829-843`, `nixie-cli/src/dimacs.rs:871-875`). That holds of a file exactly
  under the conditions of `ReadersAgree.AgreeIff`. Whatever both accept, they read alike. A file the line
  reader accepts is accepted by the scanner iff all white space outside the interior of comment and
  problem lines is ASCII other than the vertical tab, and each literal is within the header in force at
  its line. A file the scanner accepts is accepted by the line reader iff no comment or problem line
  starts midway, every other line that starts with a `p` is a problem line, every sign follows white
  space, and each literal is within the last header. `ReadersDiffer.AdjacentLiterals` (a line `1-2 0`) and
  `ReadersDiffer.VerticalTab` are whole files that part them, one in each direction.
* The goal converter is meant for CNF-shaped goals (`bench/differential/smt2_to_dimacs.py:61-68`). It
  takes the negation of any list for a tautology (`bench/differential/smt2_to_dimacs.py:80-82`). For a
  disjunction under one or more negations what it emits means the goal iff no literal survives in the
  disjunction: one disjunct is constantly true or all are constantly false
  (`GoalShapes.NegatedClauseIff`; `(not (or p))` is an instance where it does not).

## Model

| member | source | states |
|---|---|---|
| Cubes.GenerateCubes | nixie-cli/src/distributed.rs:216-238 | exactly 2^d cubes, d the smaller of ceil(log2 of the requested number) and the number of variables; cube i fixes the first d variables to the bits of i |
| Cubes.CubesPartition | nixie-cli/src/distributed.rs:216-238 | every assignment satisfies exactly one generated cube, also when the list of names has duplicates |
| Cubes.CubesContradict | nixie-cli/src/distributed.rs:216-238 | any two different cubes disagree on the sign of a variable both mention |
| Cubes.CubesCover | nixie-cli/src/distributed.rs:216-238 | a problem is satisfiable iff it is under some generated cube |
| Cubes.SolveCube | nixie-cli/src/distributed.rs:854-898 | when the script runs and all indices exist, the status is the solver's answer on one named literal a cube literal, holding of exactly the cube's assignments, otherwise unknown; a sound solver's status never contradicts the cube, and one that always decides says sat iff the problem is satisfiable under the cube |
| Protocol.OwnedStep | nixie-cli/src/distributed.rs:459-487 | every step keeps: a cube has one holder at most (a registered worker, a handler between its two locks, or the watchdog) and a held cube is marked assigned |
| Protocol.CountedStep | nixie-cli/src/distributed.rs:611-666 | every step keeps: hand-outs = cubes now marked assigned + time-outs that gave a cube back |
| Protocol.RunInvariant | nixie-cli/src/distributed.rs:395-517 | in every state of every run: one holder per cube, the hand-out balance, each cube's result is its newest report, and the flags agree with the reports taken |
| Protocol.VerdictSound | nixie-cli/src/distributed.rs:502-517 | if each report is correct for its cube, in any interleaving a final Sat means satisfiable, Unsat means unsatisfiable, and Unknown means no cube's last report was Sat and some cube's was Unknown |
| Protocol.OwnershipHolds | nixie-cli/src/distributed.rs:627-665 | in every reachable state two registered workers never own the same cube, an owned cube is assigned, and the hand-outs balance |
| Protocol.CompletedNeverPicked | nixie-cli/src/distributed.rs:629-640 | once completed, a cube is never handed out again in the rest of the run |
| Protocol.TakenUntilRequeued | nixie-cli/src/distributed.rs:474-484 | an assigned cube stays assigned until a time-out gives it back |
| Protocol.RepickNeedsRequeue | nixie-cli/src/distributed.rs:474-484 | between two hand-outs of the same cube lies a time-out re-queue of it |
| CoordinatorObject.Coordinator.AcceptConnection | nixie-cli/src/distributed.rs:424-457 | takes the accepting step while the main loop runs |
| CoordinatorObject.Coordinator.RegisterWorker | nixie-cli/src/distributed.rs:557-573 | the worker table is the old one with the worker owning nothing |
| CoordinatorObject.Coordinator.PickCube | nixie-cli/src/distributed.rs:627-640 | hands out nothing, changing nothing, iff every cube is assigned or completed; otherwise a free cube, which alone becomes assigned |
| CoordinatorObject.Coordinator.RecordCubeOwner | nixie-cli/src/distributed.rs:643-652 | a registered worker is mapped to the cube its handler picked; a worker that timed out in between is not registered again, and the table does not change |
| CoordinatorObject.Coordinator.ReceiveWorkerResult | nixie-cli/src/distributed.rs:611-622 | a registered worker owns nothing afterwards, an unregistered one stays so, and the handler carries the report |
| CoordinatorObject.Coordinator.SendToAggregator | nixie-cli/src/distributed.rs:624-626 | the carried report is appended to the channel while the aggregator lives; one sent after it ended is lost |
| CoordinatorObject.Coordinator.AggregateOne | nixie-cli/src/distributed.rs:395-418 | takes the oldest report off the channel, completes its cube with its status and stops iff it was a satisfiable cube's or all cubes are completed |
| CoordinatorObject.Coordinator.AnnounceAllDone | nixie-cli/src/distributed.rs:404-416 | takes the aggregator's last store, after which it ends |
| CoordinatorObject.Coordinator.ReapDeadWorkers | nixie-cli/src/distributed.rs:459-487 | removes exactly the dead workers; a cube is free afterwards that was not before only if a dead worker owned it and it is unfinished; nothing else in the table changes |
| CoordinatorObject.Coordinator.LeaveHandler | nixie-cli/src/distributed.rs:594-597 | a closed connection removes the worker and leaves its cube assigned; an error leaves the worker registered |
| ProtocolHistory.OwnerRemembered | nixie-cli/src/distributed.rs:643-652 | in every run, a cube picked and recorded by a handler whose worker is in the table stays that worker's until its result, disconnection, re-registration, time-out or another recording, and a time-out then puts the cube in the watchdog's hands |
| ProtocolHistory.TimedOutIsFreed | nixie-cli/src/distributed.rs:474-484 | in every run, a cube the watchdog holds is free after its next re-queue unless it is completed by then |
| ProtocolHistory.ReportsConserved | nixie-cli/src/distributed.rs:611-626 | in every run, the reports taken and then those in the channel are, in order, exactly what each handler that sent while the aggregator lived had last received |
| CoordinatorObject.Coordinator.DetermineResult | nixie-cli/src/distributed.rs:502-517 | from any valid state after completion the verdict is justified by the problem and by the reports |
| ParseLit.FinishLit | nixie-cli/src/dimacs.rs:1424-1439 | the signed value of the magnitude iff it fits in 32 bits, the most negative value included |
| ParseLit.ParseShort | nixie-cli/src/dimacs.rs:1400-1410 | the eight-byte masked path gives the value of the digits whatever bytes follow them |
| ParseLit.ParseLong | nixie-cli/src/dimacs.rs:1411-1418 | the accumulating path, frozen at its sentinel, gives the exact value or overflow for a digit run of any length |
| ParseLit.Parse | nixie-cli/src/dimacs.rs:1389-1419 | both paths meet one specification, at the end of the buffer too |
| FlatRoundTrip.LitSpecIsStrParse | nixie-cli/src/dimacs.rs:1380-1387 | that specification is the standard 32-bit integer parse of the token's text |
| FlatScan.SkipWsScalar | nixie-cli/src/dimacs.rs:1062-1067 | stops at the first byte that is not white space |
| FlatScan.SkipWsBlocks | nixie-cli/src/dimacs.rs:1119-1151 | the block walk stops at the same byte |
| FlatScan.ScanDigitsScalar | nixie-cli/src/dimacs.rs:1072-1077 | stops at the first byte that is not a digit |
| FlatScan.ScanDigitsBlocks | nixie-cli/src/dimacs.rs:1346-1363 | the block walk stops at the same byte |
| FlatScan.FrameShift | nixie-cli/src/dimacs.rs:1258-1336 | shifting the masks keeps them the classes of the bytes at the shifted offset |
| FlatScan.Locate | nixie-cli/src/dimacs.rs:1276-1307 | reads off the masks where the next token starts and ends, or that it must be handed back to the driver because it or its sign reaches the block's edge |
| FlatScan.WalkBlock | nixie-cli/src/dimacs.rs:1239-1339 | a block is walked with the same effect and the same error as the byte-wise scan from the same position, whether it ends in a failure, a hand-back or the next block |
| FlatScan.ScanTokensFused | nixie-cli/src/dimacs.rs:1222-1342 | the fused walk from any position equals the byte-wise scan to the position it stops at |
| FlatScan.ScanOne | nixie-cli/src/dimacs.rs:912-1016 | every round of the driver moves the cursor or fails, keeping the scan's result |
| FlatScan.ScanBody | nixie-cli/src/dimacs.rs:900-1037 | with blocks or without, the result is that of the byte-at-a-time reference: the same literals, counts and error |
| FlatScan.BothPathsAgree | nixie-cli/src/dimacs.rs:900-1037 | the scalar and the block scan agree on every buffer |
| Utf8.DecodeEncode | nixie-cli/src/dimacs.rs:57-59 | decoding undoes encoding for every text |
| Utf8.EncodeDecode | nixie-cli/src/dimacs.rs:57-59 | encoding undoes decoding: of accepted bytes no two spell the same text |
| Text.WordsJoin | nixie-cli/src/dimacs.rs:97-102 | splitting at white space undoes joining words with blanks |
| Text.ParseShownInt | nixie-cli/src/dimacs.rs:97-102 | reading a printed 32-bit integer gives it back |
| Text.UsizeExact | nixie-cli/src/dimacs.rs:357-362 | a count reads as n iff it is digits with a plus sign or none, of value n below 2^64 |
| Text.I32Exact | nixie-cli/src/dimacs.rs:97-102 | a word reads as i iff it is digits with a sign or none, of that signed value within 32 bits |
| Dimacs.Parse | nixie-cli/src/dimacs.rs:328-468 | the reading loops compute the reader's specification for both formats, with the first error in order; the lines below and `ReadersAgree` say what that specification accepts |
| Dimacs.Write | nixie-cli/src/dimacs.rs:471-509 | the writing loops emit the comment, header, block and clause lines |
| LineForms.CommentExact | nixie-cli/src/dimacs.rs:344-348 | everything after a line's opening `c` is the comment, less the white space around it |
| LineForms.HeaderExact | nixie-cli/src/dimacs.rs:350-365 | a line starting `p cnf` gives its counts iff it has exactly four words and the last two are counts, and otherwise fails |
| LineForms.QuantifierLineExact | nixie-cli/src/dimacs.rs:372-413 | a quantifier line adds a block iff its words are that block's variables in order, all within 1 and the declared count, then nothing or one zero; it fails iff it says no block |
| LineForms.BadWordFails | nixie-cli/src/dimacs.rs:380-407 | one word that is no number, negative, too large, or a zero before the end makes the read fail |
| LineForms.ZeroOptional | nixie-cli/src/dimacs.rs:387-390 | for either letter and any in-range variables, the printed line reads as its block with a final zero and without |
| LineForms.ParseTerse | nixie-cli/src/dimacs.rs:372-413 | a whole problem written without the zeros of its quantifier lines reads back |
| LineForms.PlainIsBlockFree | nixie-cli/src/dimacs.rs:50-170 | the plain reader accepts exactly the files the quantified reader reads without a block, with the same result; on a file without quantifier lines the two agree, failures included |
| LineForms.SampleText | nixie-cli/src/dimacs.rs:471-509 | one written quantified file, to the letter |
| DimacsRoundTrip.SplitFlatten | nixie-cli/src/dimacs.rs:109-130 | splitting the literal stream at zeros gives the clauses back, empty ones too |
| DimacsRoundTrip.ParseWrite | nixie-cli/src/dimacs.rs:50-170 | reading what was written gives the problem back, plain or quantified, for in-range nonzero literals and trimmed one-line comments |
| FlatRoundTrip.ScanWrite | nixie-cli/src/dimacs.rs:900-1037 | scanning what was written gives the counts and the flattened clauses, and splitting those at zeros gives the clauses |
| LineScan.ScanSplits | nixie-cli/src/dimacs.rs:912-1016 | though the scanner walks bytes, its scan of a file is the scan of the first line and then of the rest, with the same failures |
| WordTokens.WordsScan | nixie-cli/src/dimacs.rs:968-1015 | on words the line reader parses, the scan reads the same literals iff the spaces are ASCII white space and the literals within the header, and fails otherwise |
| WordTokens.ScanWords | nixie-cli/src/dimacs.rs:941-1015 | on a text the scan accepts, the line reader parses all words iff no `c` or `p` occurs and every sign follows a space |
| ReadersAgree.AcceptedAlike | nixie-cli/src/dimacs.rs:829-843 | on every file both readers accept, the scan's counts and literal stream are those of the line reader's clauses |
| ReadersAgree.ScanAcceptsIff | nixie-cli/src/dimacs.rs:871-875 | a file the line reader accepts is accepted by the scanner iff its white space outside comment and problem lines is the scanner's and each literal is within the header in force |
| ReadersAgree.ParseAcceptsIff | nixie-cli/src/dimacs.rs:871-875 | a file the scanner accepts is accepted by the line reader iff comments and problem lines open their lines, `p` lines are problem lines, signs follow white space and literals are within the last header |
| ReadersAgree.AgreeIff | nixie-cli/src/dimacs.rs:829-843 | the documented agreement (both fail, or both accept and read the same problem) holds of exactly the files these conditions describe |
| ReadersDiffer.AdjacentLiterals | nixie-cli/src/dimacs.rs:829-843 | for all in-range literals of opposite signs, a whole file with the two adjacent that the scanner reads and the line reader rejects |
| ReadersDiffer.VerticalTab | nixie-cli/src/dimacs.rs:1058-1060 | a whole file, a line indented with a vertical tab, that the line reader reads and the scanner rejects |
| Qbf.Compile | nixie-cli/src/dimacs.rs:512-598 | the fold over the blocks in reverse builds the quantified matrix |
| Qbf.CompilePlain | nixie-cli/src/dimacs.rs:173-215 | the emitted assertions hold of exactly the assignments that satisfy every clause, empty and unit clauses included |
| Qbf.MatrixMeaning | nixie-cli/src/dimacs.rs:559-598 | the matrix formula holds iff every clause has a true literal |
| Qbf.BinderIsGame | nixie-cli/src/dimacs.rs:535-550 | a quantifier block means the left-to-right choice of its variables one by one, repeated variables included |
| Qbf.CompilationExact | nixie-cli/src/dimacs.rs:512-598 | the compiled formula is satisfiable iff for some values of the free variables the existential player wins the game of the prefix |
| Fsm.CandidateTransitions | bench/fsm_perf/gen.py:24-40 | for every state q below n and symbol s exactly the targets q, q + 1 and qs + 3 modulo n, the even states' epsilon advances, and nothing else; no two transitions have the same guard |
| FsmEncoding.BuildIndex | bench/fsm_perf/gen.py:79-87 | the two dictionaries list exactly the sources and guards into each state under each label |
| FsmEncoding.Emit | bench/fsm_perf/gen.py:112-151 | the nested loops emit the definitions and the verdict of every word |
| FsmEncoding.TermsMeaning | bench/fsm_perf/gen.py:134-145 | a term list is true iff an enabled transition leads here from a state true in the layer |
| FsmExact.Saturated | bench/fsm_perf/gen.py:142-146 | as many rounds as there are states reach the full epsilon closure |
| FsmExact.LastLayer | bench/fsm_perf/gen.py:131-147 | the last layer holds exactly the states some run reaches on the word |
| FsmExact.DefinesIffDescribes | bench/fsm_perf/gen.py:126-146 | a valuation satisfies the definitions iff every layer variable says what the automaton reaches, so the guards determine it |
| FsmExact.OneModelPerGuards | bench/fsm_perf/gen.py:126-146 | for every guard valuation the definitions have a solution, and any other solution agrees with it on the word's layers |
| FsmExact.FinalIsAcceptance | bench/fsm_perf/gen.py:147-147 | under the definitions the final disjunction is true iff the automaton accepts the word |
| FsmExact.EncodingExact | bench/fsm_perf/gen.py:112-151 | the whole formula is satisfiable iff some guard valuation accepts all positive words and rejects all negative ones |
| BinaryPoly.ResidueUnique | bench/ff_extension_perf/z3_reference.py:36-41 | a residue below the degree is unique |
| BinaryField.RemIsResidue | bench/ff_extension_perf/z3_reference.py:36-41 | long division gives a congruent value below the degree |
| BinaryField.Remainder | bench/ff_extension_perf/z3_reference.py:36-41 | the loop computes that residue, for every value and modulus |
| BinaryField.Mul | bench/ff_extension_perf/run.py:22-33 | convolution and long division in the coefficient array give the residue of the product of the operands' low bits, hence of the product when they are reduced |
| BinaryField.StageValue | bench/ff_extension_perf/z3_reference.py:51-61 | a reduction stage clears its bit and stays congruent |
| BinaryField.MultiplyCircuit | bench/ff_extension_perf/z3_reference.py:51-61 | the emitted circuit equals the residue of the product for every modulus and all reduced operands |
| BinaryField.SquareModXor | bench/ff_extension_perf/z3_reference.py:47-50 | squaring is additive over xor modulo every polynomial |
| BinaryField.SquareCircuit | bench/ff_extension_perf/z3_reference.py:47-50 | the linear circuit equals multiplying the argument by itself |
| FieldWorkload.Iterate | bench/ff_extension_perf/run.py:36-39 | the loop computes the chain of squares plus one |
| FieldWorkload.ChainMatchesIterate | bench/ff_extension_perf/run.py:60-66 | the emitted chain over any correct squaring circuit has the oracle's value |
| FieldWorkload.ImageClosed | bench/ff_affine_perf/workload.py:64-65 | the image of x^2 + x is closed under xor |
| FieldWorkload.ImageProper | bench/ff_extension_perf/run.py:74-76 | the image is never the whole field |
| FieldWorkload.MissingTarget | bench/ff_extension_perf/run.py:73-78 | a target is always found, for every seed: the missing element with the seed modulo the number of missing ones below it; no reduced x solves the equation |
| FieldWorkload.InconsistentEquation | bench/ff_affine_perf/workload.py:63-69 | the generator's assertion cannot fail, the sums of two image elements are the image, the target is the missing element the seed picks, and the emitted equation in x and y has no solution |
| FieldWorkload.CoupledNodes | bench/ff_affine_perf/workload.py:46-50 | after any depth the two names denote the coupled recurrences u^2 + 2v and u + v^2 for every x and y |
| FieldWorkload.Evaluate | bench/ff_affine_perf/workload.py:94-100 | evaluates the nodes in order, each name bound to its node's value |
| FieldWorkload.CheckValues | bench/ff_affine_perf/workload.py:103-107 | accepts exactly the in-range values that meet every equation and disequality |
| FieldWorkload.PlantedEquations | bench/ff_affine_perf/workload.py:58-61 | each equation or disequality is met by the planted values |
| FieldWorkload.Generate | bench/ff_affine_perf/workload.py:38-91 | the equations denote the kind's left-hand sides on the whole field; the plants are 3q/4 + (7 seed + 3) mod q/4 and 3q/4 + (11 seed + 1) mod q/4; a satisfiable workload has the plants' values as targets, a disequality's with its last bit flipped, and is solved by them; an inconsistent one has a missing target and is solved by nothing |
| HeapCase.BuildConcrete | bench/heap_perf/next_cases.py:125-133 | the loop builds the heap the cells spell, or fails at a null or repeated address |
| HeapCase.HeapOfIff | bench/heap_perf/next_cases.py:125-133 | the result is h iff the addresses are distinct and non-null and h holds exactly the cells |
| HeapCase.Validate | bench/heap_perf/next_cases.py:136-155 | the checker's loops decide whether values and heap meet the check |
| HeapEncoding.EmitSmt | bench/heap_perf/next_worker.py:17-61 | the loops emit the null axiom and one formula per constraint over the encoded heaplets |
| HeapEncoding.HeapMeaning | bench/heap_perf/next_worker.py:39-46 | a heaplet's formula holds in a model iff its cells spell the model's heap |
| HeapEncoding.ModelsMeaning | bench/heap_perf/next_worker.py:23-61 | a model satisfies the assertions iff null is free and its values and truth values meet the constraints |
| HeapEncoding.RebuiltPhases | bench/heap_perf/next_worker.py:90-99 | the heap rebuilt from the truth values exists, is null-free and gives every heap predicate its truth value, the fallback included |
| HeapEncoding.ModelGivesHeap | bench/heap_perf/next_worker.py:90-100 | from any model the rebuilt heap passes the checker |
| HeapEncoding.HeapGivesModel | bench/heap_perf/next_worker.py:17-61 | values and a heap that pass the checker give a model |
| HeapEncoding.EncodingExact | bench/heap_perf/next_worker.py:17-61 | the assertions have a model iff some values and some finite null-free heap pass the checker |
| HeapEncoding.ReferenceModel | bench/heap_perf/run.py:204-212 | on a model's values and truth values the reconstruction never fails and returns a heap that passes |
| HeapProgram.Parse | bench/heap_perf/next_cases.py:58-112 | the loop with truncation marks computes the parsed case, or reports a failed assertion |
| HeapProgram.StepRepresents | bench/heap_perf/next_cases.py:97-107 | truncating to a mark is popping a frame, step by step, with the same failures |
| HeapProgram.MarksAreFrames | bench/heap_perf/next_cases.py:58-112 | for every program each check sees exactly the constraints live in a stack of frames |
| HeapProgram.ParsedWellFormed | bench/heap_perf/next_cases.py:58-112 | a parsed case has only references to what was declared before, and at least one check |
| HeapListing.ParsedListing | bench/heap_perf/next_cases.py:58-112 | the listing of a case (offsets, formulas and heaplets in order, each check in a scope of its own) parses to that case |
| HeapListing.ImageExact | bench/heap_perf/next_cases.py:58-112 | a case is some program's iff its references point backwards, variables come first, heap predicates and heaplets pair up in order, no heaplet mixes constants and terms, and it has a check |
| HeapFamilies.ParsedIs | bench/heap_perf/next_cases.py:12-55 | every family's program parses, for every size, to its closed-form case |
| HeapFamilies.RunScopeBlock | bench/heap_perf/next_cases.py:41-43 | two nested scopes are checked with one assertion, with its negation too, and with one again, and leave the live constraints as they were |
| HeapVerdicts.HeapOfOrderFree | bench/heap_perf/next_cases.py:125-133 | the order of the cells does not matter, to success or to failure |
| HeapVerdicts.FamilyValidates | bench/heap_perf/next_cases.py:136-155 | a family's check validates iff the heap is null-free and meets each bound, equality and asserted combination |
| HeapModels.FamilyModels | bench/heap_perf/next_cases.py:12-55 | for every family and size, the number of variables and checks, and the exact models of every check in terms of the variables' values and the heap |
| HeapOracle.WitnessValidates | bench/heap_perf/next_cases.py:172-190 | every check called satisfiable is validated by the oracle's own values and heap |
| HeapOracle.AliasFails | bench/heap_perf/run.py:111-122 | two owned cells at equal addresses cannot hold |
| HeapOracle.ValuesFail | bench/heap_perf/run.py:111-122 | two heaplets with the same addresses and one different value cannot both hold |
| HeapOracle.PermutationFails | bench/heap_perf/run.py:111-122 | a heaplet and the negation of its reversal cannot both hold |
| HeapOracle.ViewConflictFails | bench/heap_perf/anchor_cases.py:34-39 | bounds fix a shared address at which the asserted views disagree |
| HeapOracle.BooleanUnsatFails | bench/heap_perf/next_cases.py:165-171 | two disjunctions over disjoint singletons at one address cannot both hold |
| HeapOracle.ConflictShown | bench/heap_perf/anchor_cases.py:34-39 | the assertions beside that verdict hold for every size |
| HeapOracle.VerdictTrue | bench/heap_perf/next_cases.py:158-191 | for every family, every size from 2 and every check the predicted verdict is its true satisfiability |
| HeapOracle.Oracle | bench/heap_perf/next_cases.py:158-191 | none of the oracle's assertions fails and its list of verdicts is right |
| CoreMin.Context.CheckSubset | nixie-cli/src/core_min.rs:34-40 | leaves exactly the subset asserted and returns the solver's answer on it |
| CoreMin.MinimizeCore | nixie-cli/src/core_min.rs:52-122 | reports the empty and the not-reproduced case exactly; otherwise exactly the assertions whose deletion check answered unsat are missing, after 2 checks and one a position tried; the budget is reported spent iff it was at a count the pass reached with a position left, and the pass stops at the first such count; the core is an order-preserving unsatisfiable subsequence, 1-minimal when the whole pass was made and decided |
| CoreMin.Sweep | nixie-cli/src/core_min.rs:77-97 | the loop's answers are the checks' own, one a position, and the core is what survives them |
| CoreMin.StillNeeded | nixie-cli/src/core_min.rs:73-76 | an assertion found necessary stays necessary when others are dropped later |
| CoreMin.UnknownLosesMinimality | nixie-cli/src/core_min.rs:73-76 | a sound solver that refutes an unsatisfiable assertion only with a second one beside it leaves both |
| CoreMin.MinimalIffDecided | nixie-cli/src/core_min.rs:73-97 | whatever the assertions mean, consistently with the answers, the final core is 1-minimal: iff no check of the pass was unknown or one assertion is left |
| Cumulative.PeakAtStart | bench/cp_perf/reference.py:54-55 | any positive load is matched or exceeded at the start of a present task |
| Cumulative.StartsSuffice | bench/cp_perf/reference.py:54-60 | the load never exceeds a non-negative capacity iff it does not at the present tasks' starts |
| Cumulative.LoadConserved | bench/cp_perf/reference.py:58-59 | over a span holding all present tasks the load adds up to the duration times their number, however they overlap |
| Cumulative.VerifyLoads | bench/cp_perf/reference.py:127-135 | the replay accepts exactly the schedules never over capacity |
| Cumulative.EmitConstraints | bench/cp_perf/reference.py:56-60 | emits the non-negative capacity and one guarded load bound per task |
| Cumulative.ConstraintsExact | bench/cp_perf/reference.py:56-60 | the emitted constraints hold of a model iff its schedule is never over capacity, shared guards included |
| Sexps.ParseSexps | bench/differential/smt2_to_dimacs.py:28-44 | returns the forest whose tokens these are, and fails only if there is none |
| Sexps.TokensInjective | bench/differential/smt2_to_dimacs.py:28-44 | different forests have different token streams |
| GoalCnf.CollectGoals | bench/differential/smt2_to_dimacs.py:47-58 | appends the goals in document order |
| GoalCnf.GoalsYieldAssertions | bench/differential/smt2_to_dimacs.py:47-58 | a printed list of goals yields exactly their assertions, goal after goal, and nothing from a keyword on |
| GoalCnf.Converter.Lit | bench/differential/smt2_to_dimacs.py:69-92 | the recursion and the numbering updated in place compute the literal value and the new numbering |
| GoalCnf.LitCorrect | bench/differential/smt2_to_dimacs.py:69-82 | for an atom or constant negated any number of times the literal means the atom, and the numbering stays a bijection onto 1..n that extends the old one |
| GoalCnf.GoalCorrect | bench/differential/smt2_to_dimacs.py:61-101 | a clause-shaped goal is dropped only if valid, and otherwise its clause means it |
| GoalCnf.Convert | bench/differential/smt2_to_dimacs.py:120-124 | the emission loop computes clauses and numbering, or reports a failure |
| GoalCnf.ConversionCorrect | bench/differential/smt2_to_dimacs.py:120-124 | an assignment satisfies all goals iff the induced one satisfies all clauses; every literal is nonzero and in range |
| GoalCnf.Equisatisfiable | bench/differential/smt2_to_dimacs.py:120-128 | the goals are satisfiable iff the clauses are |
| GoalShapes.GoalsConvertIff | bench/differential/smt2_to_dimacs.py:69-92 | clause-shaped goals convert iff every atom read, up to a first constantly true disjunct, is one the pattern knows |
| GoalShapes.NegatedClauseIff | bench/differential/smt2_to_dimacs.py:80-82 | for a disjunction under any number of negations, what is emitted means the goal iff one disjunct is constantly true or all are constantly false |
| GoalShapes.NegatedDisjunctionLost | bench/differential/smt2_to_dimacs.py:80-82 | the instance `(not (or p))`: dropped as if valid, though it is not |

## Left out

- Progress of a distributed run: a closed connection removes a worker without giving its cube back, so termination is not claimed.
- Sockets, message encoding, clocks, heartbeats, shutdown messages, `workers_used`, and the order in which a map is searched.
- Lock exclusion across steps: the watchdog's removal and re-queue are two steps between which others may run, so the relation has more runs than the code and its invariants hold of the code's.
- Cubes.GenerateCubes: the floating-point logarithm is an integer one, and the narrowing of the variable count to 32 bits is not modelled.
- Vector instructions and the processor-feature gate: a block is 32 bytes and a mask 32 Booleans with the same shifts.
- Dimacs.Parse: buffered reading and read failures; errors carry the offending text or numbers, not their rendering.
- Dimacs.Write: write failures.
- Qbf.Compile: the rendering of the formula as text, comments and declarations; an empty block, which the text would render without binders, means its body.
- Qbf.CompilePlain: negating the most negative 32-bit literal, which overflows in the code, is ordinary negation.
- `model_from_smtlib2`, `write_sat_assignment` and `write_unsat`, and reading a file through a memory map.
- ReadersAgree.AgreeIff: when both readers fail, which of several errors each reports is not compared.
- Fsm.CandidateTransitions: the order in which a set of up to three targets is enumerated is fixed.
- FsmEncoding.Emit: declarations and text; `emit_nixie`, which prints the same automaton for another front end, and random words are left out.
- FieldWorkload.Generate: the `legacy`, `prime` and `wide` kinds and the text of the scripts.
- HeapEncoding.EmitSmt: text, and the separation-logic variant with its heap answers.
- HeapEncoding.ReferenceModel: reading the solver's output; it starts from the values and truth values.
- HeapProgram.Parse: splitting lines into words; a count that disagrees with the length of its list cannot be expressed.
- HeapOracle.Oracle: the comparison of the program's text with the generated one; the program is the generated one.
- CoreMin.MinimizeCore: printing; the clock is a function saying at which check the budget is found spent.
- Cumulative.ConstraintsExact: start domains, declarations and pushes.
- GoalCnf.GoalCorrect: disjunctions nested in disjunctions, for which the converter is not meant; negated ones are classified by `GoalShapes.NegatedClauseIff`.
- Running the solver, benchmark records, and the display, cache, checkpoint, dashboard and interpolation modules.
