# A verified model of COMPI and of the HPL code it ships

COMPI is a concolic testing tool for MPI programs, built on CREST (`src/`). It comes with the HPL benchmark
(`test/hpl-1.0`). This project models the hard parts of both in Dafny and proves what they are for.

**The concolic engine.** The symbolic interpreter shadows a concrete run with linear expressions over the inputs and
records the branches taken as constraints. The solver front end asks only about the constraints that depend on the last
one and keeps the old inputs elsewhere. The model says exactly which runs record a path condition that is true of their
inputs, and joins the two parts: for every such run whose inputs are within their bounds and fit MPI, solving at a
recorded constraint finds inputs that meet the recorded constraints before it and not that one, and it fails only if
there are none. Not every constraint on the way is recorded. The model says when those inputs lead to the branch
nevertheless: always if no unrecorded constraint has to do with what solving may change, and, whichever correct solver
is used, exactly if no inputs that agree with the old ones elsewhere flip the branch and falsify such a constraint. What
the constraints mean for the program is stated by running it once more: as long as it computes linearly with its inputs
and branches on comparisons, inputs meet the constraints of a run exactly if the program, replayed on them call by call
with plain numbers, takes every branch the same way. So the exact condition is one for the next run of the program to
turn where it should. The control-flow search rests on two distance algorithms that the code asserts to agree at run
time, on a bounded Dijkstra search that thins the control-flow graph down to its branches, and on a label-correcting
search backwards from the uncovered branches; the model proves that they agree, that thinning keeps distances, and that
the distances used in the end are those of the whole control-flow graph. Executions cross process boundaries as bytes;
what comes back is characterised exactly.

**HPL's communication.** Each broadcast and reduction is a C function that every process calls. A Dafny method per
function returns the list of MPI calls one process makes, and is proved equal to a script. The module `MessagePassing`
says what a system of scripts does under every interleaving, with one first-in first-out channel per ordered pair of
processes (non-overtaking order, section 3.5 of MPI 3.1). Its main lemmas reduce a statement about all runs to two local
ones: sends and receives can be paired along some order in time, and each operation takes the memory from what it should
be before to what it should be after. From that follow, for every process count and root: the right data everywhere, no
deadlock even if every send blocks until it is received, an end after a fixed number of moves, and no message left over.

**HPL's index arithmetic.** The block-cyclic maps are inverse to each other in both directions, `MnumrocI` counts
exactly, and the segments of `HPL_packL` tile the stretch they should.

## Where the code does not do what it looks like

- `ApplyUnaryOp` means to negate the predicate register for a logical not (`src/base/symbolic_interpreter.cc:159-164`),
  but a comparison leaves no expression on the stack, so that branch is never taken while the register is set
  (`NotNeverNegates`). After `if (!(x > 0))` with x = 1 the constraint x <= 0 is recorded (`NotRecordsFalse`). Likewise
  a comparison of two concrete values leaves an older predicate in the register (lines 255-281): `if (0 == (x > 0))`
  records the same (`CompareRecordsFalse`). The condition is exact. One call keeps the invariant if and only if it is
  `Benign` (`StepSound`). A call that is not turns the register over until a later call clears it or sets it again, so
  `y = !(x > 0);` does no harm. A recorded constraint is true if and only if the register is not turned over when the
  branch comes (`RecordsTruth`), and the whole path condition of a run is true of its inputs if and only if no branch
  records a constraint with the register turned over (`PathConditionTrue`).
- `Push` records a constraint only if the branch is new or went the other way the last time
  (`src/base/symbolic_path.cc:43-59`). Inputs that flip a later branch may therefore leave the path earlier, in a round
  of a loop whose constraint was dropped. `FlipLeavesLoop` runs `i = 0; while (x > i) i++; if (x == 2)` with x = 2, call
  by call: the last branch can only be flipped by x = 1, which leaves the loop a round too early. Solving changes only
  the inputs that depend on those of the branch's constraint, so if no dropped constraint before the branch has any of
  these, the inputs lead there (`UntouchedLeads`). The exact condition is `RiskFree`: every correct solver's inputs lead
  to the branch if and only if no inputs that flip it, and are the old ones where solving changes nothing, falsify a
  dropped constraint that has to do with what solving may change (`FollowsExactly`). Both are about runs whose own
  inputs meet all that was pushed before the branch; a run's inputs meet all of it if and only if no branch comes with
  the register set and turned over (`WholePathTrue`).
- The register, the stack and the memory lose what is not linear: a product of two symbolic values keeps one operand at
  its concrete value, and the result of a comparison that is stored or computed with is a concrete value from then on.
  `ConstraintsDecide` and `NextRunTurns` are about runs in which neither happens (`LinearRun`).
- A constant last constraint has nothing to depend on it, so `IncrementalSolve` asks an empty query and succeeds
  (`ConcreteSucceeds`). `QueryDecidesExactly` says when its answer is right nevertheless. The interpreter never records
  a constant constraint.
- `Parse` numbers the variables from 0 and drops inputs that belong to no variable. `RoundTripExactly` says when an
  execution comes back as it was; for what a run records, that is if and only if the run marked at least as many inputs
  as it was given (`RunComesBack`). A run that is given one input and marks none loses it (`InputLost`).
- `UpdateBranchDistances` caps distances at 10000. With at most 10000 branches the cap only marks those that reach no
  uncovered branch (`NearestExact`); with more it may also cut off distances.
- `Push` with a branch id alone (`src/base/symbolic_path.cc:39-41`), which is what calls and returns use, does not
  extend the list of branches, so recorded paths have no calls and returns in them. `DistancesAgree` holds for paths
  with and without them.
- The bounds that the solver puts on `long` and `unsigned long` are those of 32 bits (`src/base/basic_types.cc:25-30`).
  The model keeps them.
- `operator-=` with the expression itself as argument erases terms while it walks through them; `Subtract` asks for
  another expression. `operator+=` does so only if there is a zero coefficient, which parsing or a constructor can make;
  `Add` allows the expression itself if it has none.
- `HPL_reduce` combines the buffers in the order of the distance from the root, so it needs an associative operation
  only; that the root makes no difference needs commutativity (`FoldFromRoot`).

## Files

| file | what it holds |
|---|---|
| `Arith.dfy` | powers of two, bits, division |
| `Options.dfy` | values that may be missing |
| `BasicTypes.dfy` | the C types: bounds and casts |
| `SymbolicExpression.dfy` | linear expressions and predicates |
| `SymbolicPath.dfy` | recorded paths and constraint reduction |
| `SymbolicInterpreter.dfy` | the stack machine and its code |
| `PathCondition.dfy`, `RunExamples.dfy` | the invariant, whole runs, which of them record what is true; two that do not |
| `Solver.dfy`, `SolverCode.dfy` | slicing, the incremental query, flipping a branch; the code |
| `Meanings.dfy`, `MarkedInputs.dfy` | what each call does to the values of stack and memory for all inputs; what is noted of the inputs that a run marks |
| `NextInput.dfy` | from a run to the inputs of the next |
| `Replay.dfy`, `NextRun.dfy` | the program replayed on other inputs, and where it turns |
| `PushedPath.dfy`, `FollowedPath.dfy`, `LoopRun.dfy` | all that a run pushes, when the next inputs lead to the flipped branch, a run where they do not |
| `CflDistance.dfy` | the two distances along a path |
| `ShortestPaths.dfy`, `Thinning.dfy`, `BranchDistances.dfy` | bounded Dijkstra, the thinned graph, distances to uncovered branches |
| `Bytes.dfy`, `Serialization.dfy`, `SerializationCode.dfy` | numbers as bytes and streams, the formats, the code |
| `FileExample.dfy`, `Truncation.dfy` | the bytes themselves; files that were cut off |
| `RecordedRuns.dfy` | what becomes of the execution that a run records |
| `MessagePassing.dfy` | systems of communicating processes and all their runs |
| `Grid.dfy` | process coordinates and hypercube sizes |
| `Binomial.dfy` | reduce, broadcast and all-reduce |
| `Pieces.dfy`, `SpreadRoll.dfy`, `LongBroadcast.dfy`, `LongBroadcastCode.dfy` | the panel cut up, the schedule of the long broadcasts, what the buffers hold, the code |
| `Rings.dfy` | the four ring broadcasts |
| `Launched.dfy` | the broadcasts and reductions called by every process, from the code to the data |
| `BlockCyclic.dfy`, `PackL.dfy` | index arithmetic |

## Model

| member | source | states |
|---|---|---|
| `PathCondition.StepSound` | src/base/symbolic_interpreter.cc:94-393 | one legal, faithful call keeps the whole invariant (memory and stack expressions evaluate to their concrete values, the predicate register is true iff the top of the stack is nonzero, every recorded constraint holds) if and only if it is not a unary or all-concrete compare call that turns the register over |
| `PathCondition.PathConditionTrue` | src/base/symbolic_interpreter.cc:326-353 | over every run, whatever its calls: the recorded constraints are all true of the inputs that produced them if and only if no branch records one while the register is turned over; they are symbolic, canonical and over marked variables in any case |
| `PathCondition.RunFollows` | src/base/symbolic_interpreter.cc:94-393 | over every run memory and stack expressions keep evaluating to their concrete values, and the register is right or turned over as the calls before say |
| `PathCondition.RecordsTruth` | src/base/symbolic_interpreter.cc:326-353 | the constraint that a branch records is true of the inputs iff the register is not turned over then, whatever was called since it was set and whatever was recorded at the branch before |
| `PathCondition.NotNeverNegates` | src/base/symbolic_interpreter.cc:159-164 | in no run does a logical not reach the negation of the predicate register |
| `RunExamples.NotRecordsFalse` | src/base/symbolic_interpreter.cc:142-174 | the run of if (!(x > 0)) with x = 1, call by call, records x <= 0 |
| `RunExamples.CompareRecordsFalse` | src/base/symbolic_interpreter.cc:247-281 | so does the run of if (0 == (x > 0)) with x = 1 |
| `PathCondition.RunCounts` | src/base/symbolic_interpreter.cc:359-393 | in every run, benign or not, the variables are numbered as they are marked, and the inputs are as many as were given or marked, whichever is more |
| `Meanings.BinaryCallMeans` | src/base/symbolic_interpreter.cc:177-244 | for all inputs, not only the run's: a sum means the sum of what the operands mean, a difference the difference, a shift the multiple by the concrete power, a product the product with the operand that the code takes as concrete; anything else is the reported value |
| `Meanings.UnaryCallMeans` | src/base/symbolic_interpreter.cc:142-174 | for all inputs: a negation means the negative, the other operators give up what depends on the inputs |
| `Meanings.CompareCallMeans` | src/base/symbolic_interpreter.cc:247-281 | a comparison with a symbolic operand sets a predicate that holds for exactly the inputs for which the comparison of what the operands mean does, and none exactly if the inputs make no difference |
| `Meanings.StoredIsLoaded` | src/base/symbolic_interpreter.cc:107-140 | what is stored is what is loaded from there next, the same value for all inputs |
| `Meanings.OthersKeepMemory` | src/base/symbolic_interpreter.cc:94-393 | no call but a store to an address or the marking of an input there changes what is loaded from it |
| `Meanings.MarkedIsLoaded` | src/base/symbolic_interpreter.cc:359-393 | what is loaded from the address of a marked input is that input |
| `Meanings.ReturnedIsKept` | src/base/symbolic_interpreter.cc:291-324 | a value that an instrumented function returns stays on the stack as it is, for all inputs, and only the next one handed over replaces it |
| `PathCondition.DifferenceOk` | src/base/symbolic_interpreter.cc:255-267 | the three ways of computing a - b symbolically all have the concrete difference as value |
| `PathCondition.NextInputKeeps` | src/base/symbolic_interpreter.cc:359-393 | marking an input, even one that overwrites a given rank, changes the value of no expression over earlier inputs, and the input marked is the value stored |
| `SymbolicInterpreter.Interpreter.constructor` | src/base/symbolic_interpreter.cc:55-62 | the machine starts empty, with the given inputs, and the execution with its tag |
| `SymbolicInterpreter.Interpreter.DoClearStack` | src/base/symbolic_interpreter.cc:94-105 | the fields change as the step function says |
| `SymbolicInterpreter.Interpreter.DoLoad` | src/base/symbolic_interpreter.cc:107-118 | the fields change as the step function says |
| `SymbolicInterpreter.Interpreter.DoStore` | src/base/symbolic_interpreter.cc:120-140 | a constant expression is dropped from memory, a symbolic one kept, the stack popped; StoredIsLoaded says what that keeps |
| `SymbolicInterpreter.Interpreter.DoApplyUnaryOp` | src/base/symbolic_interpreter.cc:142-174 | the fields change as the step function says, on every branch |
| `SymbolicInterpreter.Interpreter.DoApplyBinaryOp` | src/base/symbolic_interpreter.cc:177-244 | swapping and updating the operands in place amounts to the expression that BinaryCallMeans is about |
| `SymbolicInterpreter.Interpreter.DoApplyCompareOp` | src/base/symbolic_interpreter.cc:247-281 | the register gets the comparison with zero of the symbolic difference, or is cleared if that is constant, or stays if both sides are concrete |
| `SymbolicInterpreter.Interpreter.DoCall` | src/base/symbolic_interpreter.cc:284-289 | only the set of branch ids changes |
| `SymbolicInterpreter.Interpreter.DoReturn` | src/base/symbolic_interpreter.cc:291-304 | notes whether a return value is on the stack |
| `SymbolicInterpreter.Interpreter.DoHandleReturn` | src/base/symbolic_interpreter.cc:306-324 | keeps an instrumented function's value, pushes an uninstrumented one's as concrete |
| `SymbolicInterpreter.Interpreter.DoBranch` | src/base/symbolic_interpreter.cc:326-353 | pushes the predicate, negated if the branch was not taken, and clears the stack |
| `SymbolicInterpreter.Interpreter.DoNewInput` | src/base/symbolic_interpreter.cc:359-556 | the four ways of marking an input, with and without a limit: where the value comes from and what is noted, the indices of ranks outside the default communicator included |
| `MarkedInputs.MarksAreNoted` | src/base/symbolic_interpreter.cc:359-556 | over every run, from the calls alone: in the process under test the lists of ranks, ranks in other communicators and sizes are the inputs marked as such, in order, and elsewhere they are empty; types and limits are those of the marks; an input is what was reported for it, else a rank the process's own, else what was given, else the value drawn, zero or the size |
| `MarkedInputs.RanksFit` | src/base/symbolic_interpreter.cc:395-556 | so in a run whose ranks and sizes are not given or rewritten, all ranks are the process's own, all sizes that of the run, and the rank is below the size |
| `SymbolicInterpreter.Interpreter.DoRankOverwritten` | src/libcrest/crest.cc:283-314 | a rank that the program finds out itself becomes the value of the latest input, with the size of its group as limit, and its row is added to the table of communicators |
| `SymbolicExpression.SymbolicExpr.NegateIt` | src/base/symbolic_expression.cc:40-45 | the loop negates constant and coefficients in place |
| `SymbolicExpression.SymbolicExpr.Add` | src/base/symbolic_expression.cc:114-128 | the loop adds term by term and drops zero sums, also for an expression without zero coefficients added to itself, of which it erases no term |
| `SymbolicExpression.SymbolicExpr.Subtract` | src/base/symbolic_expression.cc:131-145 | the loop subtracts term by term and drops zero differences |
| `SymbolicExpression.SymbolicExpr.MultiplyBy` | src/base/symbolic_expression.cc:160-171 | multiplication by zero empties the expression, any other scales it |
| `SymbolicExpression.OperatorsMean` | src/base/symbolic_expression.cc:40-171 | the operators are those of arithmetic at every assignment |
| `SymbolicExpression.OperatorsCanonical` | src/base/symbolic_expression.cc:114-171 | no operator makes a zero coefficient |
| `SymbolicExpression.EqualityDecides` | src/base/symbolic_expression.cc:173-175 | operator== is equality at every assignment |
| `SymbolicExpression.IsConcreteDecides` | src/base/symbolic_expression.h:52-54 | having no terms is being constant |
| `SymbolicExpression.NegateOpFlipsBit` | src/base/basic_types.cc:21-23 | flipping the lowest bit of an operator's number gives the complementary operator |
| `SymbolicExpression.NegateComplements` | src/base/symbolic_predicate.cc:26-28 | a negated predicate is the complement, and negating twice gives the predicate back |
| `BasicTypes.CastResidue` | src/base/basic_types.cc:33-60 | casting to a type narrower than 64 bits gives the one value within its bounds that is congruent modulo its width; values within bounds stay as they are |
| `BasicTypes.BoundsOfSize` | src/base/basic_types.cc:25-30 | unsigned types start at 0, signed ones at the complement of the largest value, and each has 2 to the number of its bits values |
| `SymbolicPath.SymbolicPath.Push` | src/base/symbolic_path.cc:43-59 | the fields after a push, kept or not |
| `SymbolicPath.SymbolicPath.PushId` | src/base/symbolic_path.cc:39-41 | a branch id alone goes to the set of branches only |
| `SymbolicPath.ReductionKeeps` | src/base/symbolic_path.cc:43-59 | over any pushes, exactly those constraints are kept, in order, that are the first at their branch or differ in state from the previous one there, each with the index of its branch |
| `SymbolicPath.IndicesIncrease` | src/base/symbolic_path.cc:43-59 | the indices are strictly increasing and hold exactly the kept positions |
| `SymbolicPath.FindConstraint` | src/run_crest/concolic_search.cc:1598-1605 | the binary search for branch j finds the constraint recorded there iff the push was kept, and otherwise the branch is skipped |
| `Solver.OverrideSatisfies` | src/base/yices_solver.cc:204-240 | a slice's answer over old inputs satisfies everything iff the old inputs satisfy what lies outside the slice |
| `Solver.SliceEquisatisfiable` | src/base/yices_solver.cc:172-209 | given inputs that satisfy all but the last, symbolic constraint, the slice is satisfiable iff all constraints are |
| `Solver.QueryDecides` | src/base/yices_solver.cc:142-253 | the incremental query succeeds iff all constraints can be satisfied within bounds, and its answer over the old inputs does so |
| `Solver.QueryDecidesExactly` | src/base/yices_solver.cc:142-253 | its verdict is right iff the last constraint is symbolic or true of the old inputs |
| `Solver.ConcreteSucceeds` | src/base/yices_solver.cc:172-212 | with a constant last constraint the query always succeeds |
| `Solver.SeenUnsatisfiable` | src/run_crest/concolic_search.cc:518-523 | the duplicate test only skips queries that cannot be satisfied |
| `Solver.SolvedFlipsBranch` | src/run_crest/concolic_search.cc:513-590 | SolveAtBranch succeeds iff some inputs within bounds meet the MPI constraints, the recorded constraints before k and not constraint k, and returns such inputs |
| `NextInput.RunFlipsBranch` | src/run_crest/concolic_search.cc:513-590 | the same for every run of the interpreter whose path condition is true: solving at a recorded constraint succeeds iff some inputs meet those before it and not this one, and returns such inputs; nothing about the constraints is assumed |
| `NextInput.FlipAfterRun` | src/run_crest/concolic_search.cc:513-590 | the same through the code, from the machine after the run to the inputs that SolveAtBranch returns |
| `PushedPath.RunRecords` | src/base/symbolic_path.cc:43-59 | the path that a run records is the reduction of all that it pushes |
| `PushedPath.WholePathTrue` | src/base/symbolic_interpreter.cc:326-353 | over every run: its inputs meet all that it pushes, recorded or not, iff no branch comes with the register set and turned over |
| `PushedPath.SetOfBranches` | src/base/symbolic_path.cc:39-41 | over every run the set of branches gains -1 for a call, -2 for a return and the id of a branch without a constraint, and nothing else |
| `Replay.ConstraintsDecide` | src/base/symbolic_interpreter.cc:326-353 | over every linear run, for all inputs: they meet every constraint pushed iff the program replayed on them takes every branch the way the run did |
| `Replay.TurnsExactly` | src/base/symbolic_interpreter.cc:326-353 | they meet the constraints before a branch and not that of the branch iff the replay goes the same way up to it and the other way there |
| `FollowedPath.SolvedMayAnswer` | src/base/yices_solver.cc:172-240 | what SolveAtBranch returns flips the branch and is the old inputs outside the component of its constraint |
| `FollowedPath.UntouchedLeads` | src/run_crest/concolic_search.cc:513-590 | if no unrecorded constraint before the branch has an input of that component, whatever is returned meets all that was pushed before the branch |
| `FollowedPath.FollowsExactly` | src/run_crest/concolic_search.cc:513-590 | every correct solver's inputs meet all that was pushed before the branch iff no inputs that flip it and are the old ones outside the component falsify an unrecorded constraint that touches it |
| `FollowedPath.SomeSolverReturns` | src/run_crest/concolic_search.cc:513-590 | all such inputs are the answer of some correct solver, so the condition cannot be weakened |
| `NextRun.NextRunTurns` | src/run_crest/concolic_search.cc:513-590 | after a linear run: whichever correct solver is used, the program replayed on what SolveAtBranch returns goes as before up to the flipped branch and turns there, iff no inputs that flip it and are the old ones outside the component falsify an unrecorded constraint that touches it |
| `LoopRun.FlipLeavesLoop` | src/base/symbolic_path.cc:43-59 | a legal, faithful, linear run of a loop of two rounds with x = 2, whose inputs meet all of its path: any correct solver returns x = 1 for the branch after the loop, which leaves the loop a round earlier, so the replay does not turn at that branch |
| `SolverCode.EqualToFirst` | src/base/yices_solver.cc:80-104 | the constraints say that all the variables are equal |
| `SolverCode.LimitConstraints` | src/base/yices_solver.cc:130-137 | the constraints say that every limited input is at most its limit |
| `SolverCode.YicesSolver.GenerateConstraintsMPI` | src/base/yices_solver.cc:63-139 | the constraints hold of an assignment iff there is one world size, one rank, the rank is below the size and the limits are kept |
| `SolverCode.MpiMeans` | src/base/yices_solver.cc:63-139 | that is: every rank is below every size, ranks are equal, sizes are equal, and no limit is exceeded |
| `SolverCode.DependenceGraph` | src/base/yices_solver.cc:161-170 | two variables are linked iff they occur together in a constraint |
| `SolverCode.DependentVars` | src/base/yices_solver.cc:172-203 | the breadth-first search finds the least closed set around the last constraint's variables |
| `SolverCode.DependentConstraints` | src/base/yices_solver.cc:204-209 | the constraints that touch the set, in order |
| `SolverCode.MergeOld` | src/base/yices_solver.cc:230-238 | variables the solver left open get their old values |
| `SolverCode.AnswerSolves` | src/base/yices_solver.cc:204-253 | after the merge every variable in a constraint has a value within its bounds, and all the constraints hold |
| `SolverCode.YicesSolver.IncrementalSolve` | src/base/yices_solver.cc:142-253 | asks the query that QueryDecides is about, merges in the old values, gives the vector of constraints back as it was, and returns a solution that is complete and meets all of them if the old inputs meet all but the last |
| `SolverCode.Search.SolveAtBranch` | src/run_crest/concolic_search.cc:513-590 | returns what SolvedFlipsBranch is about, restores the negated constraint, and makes new MPI constraints iff the execution is a new one and the query is not skipped; otherwise they stay |
| `SolverCode.Search.constructor` | src/run_crest/concolic_search.cc:62-66 | executions being numbered from 1, no MPI constraints are taken for kept at first |
| `CflDistance.MinCflDistance` | src/run_crest/concolic_search.cc:1461-1500 | the loop with its stack computes the recursive scan, with the exit at a bad id |
| `CflDistance.GoodIdsDoNotExit` | src/run_crest/concolic_search.cc:1477-1498 | the program does not end in the scan on a path of branches, calls (-1) and returns (-2) |
| `CflDistance.SkipUntilReturn` | src/run_crest/concolic_search.cc:1642-1654 | stops at the return of the enclosing function; the assertion inside holds |
| `CflDistance.ReturnIsFirstUnmatched` | src/run_crest/concolic_search.cc:1642-1654 | that is the first position with more returns than calls before and including it |
| `CflDistance.CollectNextBranches` | src/run_crest/concolic_search.cc:1656-1686 | appends the branches that come next and advances the position; the assertion inside holds |
| `CflDistance.NextInExample` | src/run_crest/concolic_search.cc:1516-1524 | on the path of the source's comment the branches that come next are the ones it names |
| `CflDistance.FindAlongCfg` | src/run_crest/concolic_search.cc:1502-1536 | finds a branch of the set iff one is within that many steps to a next branch |
| `CflDistance.ScanSplits` | src/run_crest/concolic_search.cc:1477-1498 | with calls open the scan goes through the callee and then on from the distance on the stack |
| `CflDistance.DistancesAgree` | src/run_crest/concolic_search.cc:1355-1371 | the run-time assertions: for every path, balanced or cut off, every set and every d, FindAlongCfg(i, d) iff MinCflDistance(i) <= d |
| `ShortestPaths.Dijkstra` | src/process_cfg/process_cfg.cc:103-143 | every entry is the true shortest distance if that is within the bound, else the maximum; it ends because each pop finishes a vertex |
| `ShortestPaths.EdgeKeepsInv` | src/process_cfg/process_cfg.cc:131-141 | looking at one edge keeps attained, queued, ordered and relaxed distances, zero weights included |
| `ShortestPaths.WalksNoShorter` | src/process_cfg/process_cfg.cc:118-142 | when the queue is empty no walk within the bound is shorter than the distance found |
| `Thinning.WeighEdges` | src/process_cfg/process_cfg.cc:159-169 | edges into branches get weight 1, all others 0 |
| `Thinning.LinkedIsOne` | src/process_cfg/process_cfg.cc:183-192 | a branch is at distance one iff it is another branch reached through vertices that are no branches only |
| `Thinning.ThinGraph` | src/process_cfg/process_cfg.cc:159-201 | the rows written hold exactly those edges, for every branch, in order |
| `Thinning.ThinningKeepsDistances` | src/process_cfg/process_cfg.cc:175-201 | shortest distances between branches in the thinned graph are the 0/1-weighted ones in the whole graph |
| `BranchDistances.ReverseCfg` | src/run_crest/concolic_search.cc:1225-1230 | v is in the reversed list of u iff u is in the list of v |
| `BranchDistances.UpdateBranchDistances` | src/run_crest/concolic_search.cc:1434-1458 | every branch gets the length of the shortest forward path to an uncovered branch, or 10000; other entries stay; it ends by the sum of the distances and the length of the queue |
| `BranchDistances.NearestExact` | src/run_crest/concolic_search.cc:1434-1458 | with at most 10000 branches each gets exactly the length of its shortest path to an uncovered one, and 10000 iff there is none: a shortest path visits no branch twice |
| `BranchDistances.PathsNoShorter` | src/run_crest/concolic_search.cc:1446-1457 | when the queue is empty no path to an uncovered branch is shorter than the distance found |
| `BranchDistances.DistancesAreCfgDistances` | src/run_crest/concolic_search.cc:1434-1458 | on the thinned graph, these are the 0/1-weighted distances in the whole control-flow graph |
| `BranchDistances.ExactCfgDistances` | src/run_crest/concolic_search.cc:1434-1458 | with at most 10000 branches: exactly the least 0/1-weight of a walk in the whole control-flow graph, and 10000 iff there is none |
| `Serialization.ExprRoundTrips` | src/base/symbolic_expression.cc:84-111 | an expression of fewer than 128 terms comes back, with anything after it unread |
| `Serialization.PredRoundTrips` | src/base/symbolic_predicate.cc:39-47 | so does a predicate |
| `Serialization.PathRoundTrips` | src/base/symbolic_path.cc:61-86 | so does a path: branches, indices and constraints |
| `Serialization.ExecRoundTrips` | src/base/symbolic_execution.cc:39-94 | so does an execution, in whatever order the limits are written, with its variables numbered from 0 |
| `Serialization.RoundTripExactly` | src/base/symbolic_execution.cc:102-165 | an execution comes back as it was iff its variables are 0 to n-1 and it has n inputs |
| `FileExample.Digit` | src/base/symbolic_execution.cc:39-94 | numbers are written least significant byte first |
| `FileExample.Numbers` | src/base/symbolic_predicate.cc:39-42 | types and operators are written as their places in their enumerations |
| `FileExample.ExampleBytes` | src/base/symbolic_execution.cc:39-94 | one execution and all the bytes of its file: the order and widths of everything |
| `Truncation.CutExprFails` | src/base/symbolic_expression.cc:95-111 | no proper front of the bytes of an expression is read as one |
| `Truncation.CutPredFails` | src/base/symbolic_predicate.cc:39-47 | nor of a predicate |
| `Truncation.CutPathFails` | src/base/symbolic_path.cc:103-153 | nor of a path |
| `Truncation.CutExecFails` | src/base/symbolic_execution.cc:102-165 | nor of an execution |
| `RecordedRuns.RunComesBack` | src/base/symbolic_execution.cc:102-109 | for every run of the interpreter: its execution, with all its fields, comes back as it was iff the run marked at least as many inputs as it was given |
| `RecordedRuns.RolesComeBack` | src/base/symbolic_execution.cc:102-165 | for every run: tag, limits, ranks, sizes, groups and the recorded path come back in any case |
| `RecordedRuns.InputLost` | src/base/symbolic_execution.cc:102-165 | a run that is given one input and marks none comes back with no input |
| `SerializationCode.SerializeExpr` | src/base/symbolic_expression.cc:84-92 | appends the format of an expression, terms in order |
| `SerializationCode.ParseExpr` | src/base/symbolic_expression.cc:95-111 | reads that format; true iff the stream did not fail |
| `SerializationCode.SerializePath` | src/base/symbolic_path.cc:61-86 | appends the format of a path |
| `SerializationCode.ParsePath` | src/base/symbolic_path.cc:103-153 | reads that format, stopping where the code does when the bytes run out; then the vector of branches has been cut to the ids whose bytes were there |
| `SerializationCode.SymbolicExecution.Serialize` | src/base/symbolic_execution.cc:39-94 | appends the format of the execution for some order of the limits |
| `SerializationCode.SymbolicExecution.Parse` | src/base/symbolic_execution.cc:102-165 | overwrites the fields with what the format holds; true iff the stream did not fail |
| `SerializationCode.WriteAndRead` | src/base/symbolic_execution.cc:39-165 | writing and reading through the code: exactly the bytes written are read, and the same iff as above |
| `Truncation.WriteCutAndRead` | src/base/symbolic_execution.cc:102-165 | through the code: of a file that was cut off anywhere Parse returns false |
| `MessagePassing.RunKeepsInv` | test/hpl-1.0/src/comm/HPL_blong.c:287-331 | paired scripts with certified operations: every interleaving keeps the invariant on memories and channels |
| `MessagePassing.NeverStuck` | test/hpl-1.0/src/comm/HPL_blong.c:287-331 | some process can always move until all are done, even if sends block until they are received |
| `MessagePassing.FinishedIsDrained` | test/hpl-1.0/src/comm/HPL_blong.c:287-331 | when all are done no message is left |
| `Grid.DistanceInverse` | test/hpl-1.0/include/hpl_grid.h:115-123 | adding and subtracting modulo the process count are inverse, so distance from the root numbers the processes |
| `Grid.HypercubeOf` | test/hpl-1.0/src/grid/HPL_grid_init.c:146-147 | the largest power of two up to the process count, and its exponent |
| `Grid.HypercubeBelow` | test/hpl-1.0/src/grid/HPL_grid_init.c:150-151 | the largest power of two below the process count, and the mask of its bits |
| `Binomial.Reduce` | test/hpl-1.0/src/grid/HPL_reduce.c:119-173 | the calls of one process, root or not, are its script |
| `Binomial.Broadcast` | test/hpl-1.0/src/grid/HPL_broadcast.c:111-143 | the calls of one process are its script |
| `Binomial.AllReduce` | test/hpl-1.0/src/grid/HPL_all_reduce.c:108-110 | reducing to process 0 and broadcasting from it is the script of both |
| `Binomial.RoundMatches` | test/hpl-1.0/src/grid/HPL_reduce.c:133-170 | in every round p sends to q iff q receives from p, for the same use |
| `Binomial.TalksToParentOnce` | test/hpl-1.0/src/grid/HPL_broadcast.c:119-141 | a process other than the root receives (or, reducing, sends) once, in the round of the lowest set bit of its distance; the root never does |
| `Binomial.CollectiveDelivers` | test/hpl-1.0/src/grid/HPL_reduce.c:119-173 | any size, root and interleaving: no deadlock, no message left, and every buffer combined exactly once into the root (reducing) or the root's result everywhere (broadcasting) |
| `Binomial.FoldFromRoot` | test/hpl-1.0/src/grid/HPL_reduce.c:119-173 | with a commutative operation the total does not depend on the root |
| `Binomial.AllReduceDelivers` | test/hpl-1.0/src/grid/HPL_all_reduce.c:108-110 | every process ends with the total of all buffers |
| `Launched.LaunchReduce` | test/hpl-1.0/src/grid/HPL_reduce.c:119-173 | what the function does in all processes leaves all buffers combined at the root, in every interleaving |
| `Launched.LaunchBroadcast` | test/hpl-1.0/src/grid/HPL_broadcast.c:111-143 | what the function does in all processes brings the root's buffer to every process |
| `Launched.LaunchAllReduce` | test/hpl-1.0/src/grid/HPL_all_reduce.c:108-110 | what the function does in all processes leaves all buffers combined at every process |
| `SpreadRoll.OwnedGrows` | test/hpl-1.0/src/comm/HPL_blong.c:257-336 | in the roll a participant only sends a piece it has, and each exchange adds one |
| `SpreadRoll.OwnedEnds` | test/hpl-1.0/src/comm/HPL_blong.c:257-336 | it starts with its own piece and ends with all of them |
| `SpreadRoll.RollMatches` | test/hpl-1.0/src/comm/HPL_blong.c:257-286 | partners agree on whom, when and which piece, also around the end of an odd ring where the steps differ |
| `SpreadRoll.SpreadRollPlanned` | test/hpl-1.0/src/comm/HPL_blonM.c:180-418 | in both forms every send has one matching receive of the same region, in an order that could be executed |
| `LongBroadcast.PhaseHolds` | test/hpl-1.0/src/comm/HPL_blong.c:163-336 | every operation sends only what its process holds and leaves the buffer as the next one needs it |
| `LongBroadcast.BroadcastDelivers` | test/hpl-1.0/src/comm/HPL_blong.c:163-336 | every size, root, length, way of cutting and interleaving: no deadlock, no message left, every process has the root's panel |
| `LongBroadcastCode.SpreadSegment` | test/hpl-1.0/src/comm/HPL_blong.c:178-179 | offset and length of a message of the spread are those of the pieces it should carry |
| `LongBroadcastCode.RollSegment` | test/hpl-1.0/src/comm/HPL_blong.c:265-283 | offset and length of a message of the roll are those of one piece, the last and the empty one included |
| `Pieces.EvenSizes` | test/hpl-1.0/src/comm/HPL_blong.c:167-168 | a piece has len / n entries and the last the remainder too, or one entry each as long as there are any |
| `LongBroadcastCode.Spread` | test/hpl-1.0/src/comm/HPL_blong.c:172-251 | the do-loop over mask, ip2, indx and mydist2 makes the calls of the spread |
| `LongBroadcastCode.Roll` | test/hpl-1.0/src/comm/HPL_blong.c:255-336 | the for-loop makes the calls of the roll |
| `LongBroadcastCode.Blong` | test/hpl-1.0/src/comm/HPL_blong.c:153-336 | the calls of one process are its script, given what HPL_grid_init stored |
| `LongBroadcastCode.BlonM` | test/hpl-1.0/src/comm/HPL_blonM.c:169-418 | the calls of one process of the modified form are its script |
| `Launched.LaunchBlong` | test/hpl-1.0/src/comm/HPL_blong.c:153-336 | what the function does in all processes, with what HPL_grid_init stores, brings the root's panel to every process in every interleaving, with no deadlock and no message left |
| `Launched.LaunchBlonM` | test/hpl-1.0/src/comm/HPL_blonM.c:169-418 | the same for the modified form |
| `Rings.SentOnce` | test/hpl-1.0/src/comm/HPL_2rinM.c:147-195 | in each of the four topologies a process other than the root is sent to exactly once, by the partner it probes, which is nearer to the root |
| `Rings.SendsAlongRings` | test/hpl-1.0/src/comm/HPL_2rinM.c:147-195 | each topology is the rings it is named for: one or two rows of processes, of which two have half each, and in the modified forms the first neighbour by itself; the root serves them in this order |
| `Rings.OneRingCall` | test/hpl-1.0/src/comm/HPL_1ring.c:147-176 | a call probes the process's parent in the ring, if any, and makes all of the process's calls, or none and asks to be made again |
| `Rings.OneRingMCall` | test/hpl-1.0/src/comm/HPL_1rinM.c:147-184 | the same for the modified ring |
| `Rings.TwoRingCall` | test/hpl-1.0/src/comm/HPL_2ring.c:147-183 | the same for two rings |
| `Rings.TwoRingMCall` | test/hpl-1.0/src/comm/HPL_2rinM.c:147-195 | the same for the two modified rings |
| `Rings.RingPlanned` | test/hpl-1.0/src/comm/HPL_2ring.c:147-183 | every send has one matching receive and back, in an order that could be executed |
| `Rings.RingDelivers` | test/hpl-1.0/src/comm/HPL_1rinM.c:147-184 | each topology, size, root and interleaving: no deadlock, no message left, every process has the root's panel |
| `Launched.LaunchRing` | test/hpl-1.0/src/comm/HPL_2rinM.c:147-195 | the same from the four functions, called in every process until the message is there |
| `BlockCyclic.LocalAndOwner` | test/hpl-1.0/include/hpl_pauxil.h:96-114 | computes owner and local index at once |
| `BlockCyclic.GlobalInvertsLocal` | test/hpl-1.0/include/hpl_pauxil.h:68-143 | to owner and local index and back is the identity, for every distribution |
| `BlockCyclic.LocalInvertsGlobal` | test/hpl-1.0/include/hpl_pauxil.h:116-143 | to the global index and back is the identity on every process and local index |
| `BlockCyclic.BlocksGoRound` | test/hpl-1.0/include/hpl_pauxil.h:68-90 | the first inb indices belong to src, and the next process takes over at every block |
| `BlockCyclic.LocalIsRank` | test/hpl-1.0/include/hpl_pauxil.h:68-114 | the local index is the number of earlier indices with the same owner |
| `BlockCyclic.Numroc` | test/hpl-1.0/include/hpl_pauxil.h:151-236 | exactly the number of indices in the interval that the process owns |
| `BlockCyclic.CountsAddUp` | test/hpl-1.0/include/hpl_pauxil.h:151-236 | summed over the processes these give the length of the interval |
| `PackL.Pack` | test/hpl-1.0/src/comm/HPL_packL.c:133-202 | the segments in order are exactly the positions index to index + len of the flattened panel, each within its column, at most jb + 1 of them |
| `PackL.PlacesDiffer` | test/hpl-1.0/src/comm/HPL_packL.c:133-202 | different entries have different places in the flattened panel, columns before L1 |

## Left out

- Integers are mathematical: overflow of the 64-bit `value_t` and of C ints is not modelled, except where numbers are
  cast or written as bytes.
- Yices itself (`Solve`, `makeYicesNum`) is a function of which only correctness is known: it answers every query about
  declared variables rightly.
- SolvedFlipsBranch: that the old inputs are within bounds and meet the MPI constraints is a premise; a run does not
  establish it, since a program may declare a 64-bit input beyond the 32-bit bounds.
- SolverCode.Search.SolveAtBranch: the rewrite of ranks outside the default communicator after iteration 100
  (`src/run_crest/concolic_search.cc:562-584`) is left out; the indices and the table that it uses are part of the
  machine.
- PathCondition.PathConditionTrue: the value that `__CrestRankNonDefaultComm2` puts in place of a marked rank
  (`src/libcrest/crest.cc:283-314`) is recorded in the process under test only, and the run is that of this process; in
  any other process the expression for such a rank keeps the value from before.
- PathCondition.RunFollows: a value is stored in the program as it is recorded; the C cast at the assignment
  (`src/libcrest/crest.cc:213-281`) is not modelled, so a run that is given an input outside the C type of the marked
  variable is not faithful, and neither is one with the complement of an unsigned value.
- Replay.ConstraintsDecide: is about linear runs only; in others the constraints hold what is not linear at its concrete
  value, and the replay would compute it anew.
- The outer search loops (`Run`, `DFS`, `DoSearch`, `SolveAlongCfg` and the random strategies), starting the program
  under test, reading and writing of coverage and graph files.
- Who owns and deletes expressions and predicates: they are values, and the methods of `Interpreter` use the operators'
  functions, to which `SymbolicExpr` proves the in-place versions equal.
- SymbolicInterpreter.Interpreter.DoNewInput: the four functions of the source are one method with the kind as an
  argument; the random number of the synchronised case is an argument.
- SerializationCode.SymbolicExecution.Parse: what the fields hold after a failure is not said, nor what an enumeration
  value of an unknown number is; `SerializeBranches` and `ParseBranches` are left out.
- SerializationCode.ParsePath: after a failure it is said what the branches are if the bytes run out among them, but not
  what indices and constraints are.
- CflDistance.DistancesAgree: covers the two assertions that compare the distances; the third, that the distance of the
  forced branch is not zero if nothing is found, rests on the bookkeeping of the outer search.
- ShortestPaths.Dijkstra: targets of edges are vertices of the graph, which reading the file does not ensure, and the
  bound is below the maximum value.
- Thinning.ThinGraph: takes the branches as an increasing sequence, in the order of the set, and returns the rows
  instead of writing them to a file.
- Collectives: a blocking send is a Post and a Wait, and how long the Wait takes is up to the library; rounds in which a
  process is idle are padded with operations that do nothing. MPI datatypes, error codes, communicators and allocation
  failures are left out.
- Rings: the probe's answer is an argument of the call. That the message is there eventually is the absence of deadlock
  in `RingDelivers`.
- LongBroadcastCode.SpreadSegment: an empty message is the empty region at 0, whatever its nominal offset.
- PackL.Pack: segments are named by column and row instead of by address, and HPL's copying form is left out.
- BLAS calls, norms, the unrolled copies and swaps, timers, and panel allocation.
