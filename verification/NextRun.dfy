/** The next run: whether the program, given the inputs that solving returns, turns at the branch that was flipped. */
module NextRun {
  import opened BasicTypes
  import opened FollowedPath
  import opened NextInput
  import opened Options
  import opened PathCondition
  import opened PushedPath
  import opened Replay
  import opened Solver
  import opened SolverCode
  import opened SymbolicExpression
  import opened SymbolicInterpreter
  import opened SymbolicPath

  /** Whatever solving at constraint k returns makes the program go as before up to the branch of that constraint and
      then the other way. */
  ghost predicate ReturnsTurning(m: Machine, w: World, evs: seq<Event>, k: nat, mpi: seq<Pred>, solve: Oracle)
    requires k < |m.path.constraints| && k < |m.path.constraintsIdx|
  {
    var r := Solved(solve, m.path.constraints, k, mpi, m.vars, m.inputs);
    r.Some? ==> TurnsAt(Concrete([], w, 0, false), evs, m.path.constraintsIdx[k], In(r.value))
  }

  /** Inputs that flip a constraint of a linear run turn at its branch exactly if they lead there. */
  lemma LeadingTurns(c: Config, given: seq<int>, w: World, evs: seq<Event>, k: nat, a: Assignment)
    requires IsRun(c, Initial(given), w, evs) && LinearRun(c, Initial(given), w, evs)
    requires var m := After(c, Initial(given), w, evs);
             k < |m.path.constraints| && Flips(m, k, a)
    ensures var m, xs := After(c, Initial(given), w, evs), Pushes(c, Initial(given), w, evs);
            && k < |m.path.constraintsIdx|
            && (LeadsTo(m, xs, k, a) <==> TurnsAt(Concrete([], w, 0, false), evs, m.path.constraintsIdx[k], a))
  {
    hide IsRun, LinearRun, After, Pushes, TakesPath, TurnsAt, Means, Shadows, PathIs, Holds, WithinBounds, MpiOk;
    var m, xs := After(c, Initial(given), w, evs), Pushes(c, Initial(given), w, evs);
    RunRecords(c, given, w, evs);
    IndexInPath(m, xs, k);
    StartMeans(given, w, a);
    TurnsExactly(c, Initial(given), w, evs, Concrete([], w, 0, false), m.path.constraintsIdx[k], a);
  }

  /** What solving returns flips the constraint. */
  lemma ReturnedFlips(c: Config, given: seq<int>, w: World, evs: seq<Event>, solve: Oracle, k: nat, mpi: seq<Pred>)
    requires Correct(solve) && IsRun(c, Initial(given), w, evs) && RecordsRight(c, Initial(given), w, evs, false)
    requires Supplies(After(c, Initial(given), w, evs), k, mpi)
    ensures var m := After(c, Initial(given), w, evs);
            var r := Solved(solve, m.path.constraints, k, mpi, m.vars, m.inputs);
            r.Some? ==> Flips(m, k, In(r.value))
  {
    hide IsRun, RecordsRight, After, Correct, Solved, Flips, Admissible, MeansMpi;
    RunFlipsBranch(c, given, w, evs, solve, k, mpi);
  }

  /** For a linear run, leading to the branch and turning there are the same for what solving returns. */
  lemma ReturnsSame(c: Config, given: seq<int>, w: World, evs: seq<Event>, solve: Oracle, k: nat, mpi: seq<Pred>)
    requires Correct(solve) && IsRun(c, Initial(given), w, evs) && LinearRun(c, Initial(given), w, evs)
    requires Supplies(After(c, Initial(given), w, evs), k, mpi)
    ensures var m, xs := After(c, Initial(given), w, evs), Pushes(c, Initial(given), w, evs);
            && k < |m.path.constraintsIdx|
            && (ReturnsLeading(m, xs, k, mpi, solve) <==> ReturnsTurning(m, w, evs, k, mpi, solve))
  {
    hide IsRun, LinearRun, After, Pushes, Correct, Solved, Flips, LeadsTo, TurnsAt, PushesRight, RecordsRight, PathIs;
    var m, xs := After(c, Initial(given), w, evs), Pushes(c, Initial(given), w, evs);
    LinearRight(c, Initial(given), w, evs);
    PushesRecordRight(c, Initial(given), w, evs, false);
    ReturnedFlips(c, given, w, evs, solve, k, mpi);
    RunRecords(c, given, w, evs);
    IndexInPath(m, xs, k);
    var r := Solved(solve, m.path.constraints, k, mpi, m.vars, m.inputs);
    if r.Some? {
      LeadingTurns(c, given, w, evs, k, In(r.value));
    }
  }

  /** After a linear run whose inputs are within bounds and fit MPI: whichever correct solver is used, the program goes
      as before up to the branch of a recorded constraint and then the other way, exactly if no inputs that flip it,
      and agree with the run's where solving changes nothing, falsify an unrecorded constraint that has to do with
      what solving may change. */
  lemma NextRunTurns(c: Config, given: seq<int>, w: World, evs: seq<Event>, k: nat, mpi: seq<Pred>)
    requires IsRun(c, Initial(given), w, evs) && LinearRun(c, Initial(given), w, evs)
    requires Supplies(After(c, Initial(given), w, evs), k, mpi)
    ensures var m, xs := After(c, Initial(given), w, evs), Pushes(c, Initial(given), w, evs);
            && k < |m.path.constraintsIdx| && m.path.constraintsIdx[k] < |xs|
            && ((forall solve: Oracle :: Correct(solve) ==> ReturnsTurning(m, w, evs, k, mpi, solve)) <==>
                  RiskFree(m, xs, k, mpi))
  {
    hide IsRun, LinearRun, After, Pushes, Correct, LeadsTo, PushesRight, RecordsRight, PathIs, RiskFree;
    hide ReturnsLeading, ReturnsTurning, Supplies;
    var m, xs := After(c, Initial(given), w, evs), Pushes(c, Initial(given), w, evs);
    SuppliesIndex(m, k, mpi);
    LinearRight(c, Initial(given), w, evs);
    OwnInputsLead(c, given, w, evs, k);
    RunRecords(c, given, w, evs);
    IndexInPath(m, xs, k);
    FollowsExactly(c, given, w, evs, k, mpi);
    forall solve: Oracle | Correct(solve)
      ensures ReturnsLeading(m, xs, k, mpi, solve) <==> ReturnsTurning(m, w, evs, k, mpi, solve)
    {
      ReturnsSame(c, given, w, evs, solve, k, mpi);
    }
  }

  lemma SuppliesIndex(m: Machine, k: nat, mpi: seq<Pred>)
    requires Supplies(m, k, mpi)
    ensures k < |m.path.constraints|
  {
  }
}
