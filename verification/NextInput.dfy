/** From one run of the program to the input of the next: the interpreter and the solver together. */
module NextInput {
  import opened BasicTypes
  import opened Options
  import opened PathCondition
  import opened Solver
  import opened SolverCode
  import opened SymbolicExpression
  import opened SymbolicInterpreter
  import opened SymbolicPath

  // ------------------------------------------------------------------------------------------------
  // Flipping a branch of a run
  // ------------------------------------------------------------------------------------------------

  /** An assignment within the bounds that meets the MPI constraints and the first k recorded constraints, but not the
      one after them. */
  ghost predicate Flips(m: Machine, k: nat, a: Assignment)
    requires k < |m.path.constraints|
  {
    && WithinBounds(m.vars, a) && MpiOk(m.roles.ranks, m.roles.worldSizes, m.limits, a)
    && AllHold(m.path.constraints[..k], a) && !Holds(m.path.constraints[k], a)
  }

  /** What the inputs of a run are relied on for: their types and MPI. */
  ghost predicate Admissible(m: Machine) {
    WithinBounds(m.vars, In(m.inputs)) && MpiOk(m.roles.ranks, m.roles.worldSizes, m.limits, In(m.inputs))
  }

  lemma FlipsSatisfies(m: Machine, k: nat, mpi: seq<Pred>, a: Assignment)
    requires k < |m.path.constraints| && MeansMpi(mpi, m.roles.ranks, m.roles.worldSizes, m.limits)
    ensures Flips(m, k, a) <==> Satisfies(a, m.vars, Flipped(m.path.constraints, k) + mpi)
  {
    hide InBounds, Holds, MpiOk;
    var cs := m.path.constraints;
    NegateComplements(cs[k], a);
    AllHoldAppend(cs[..k], [NegatePred(cs[k])], a);
    AllHoldAppend(Flipped(cs, k), mpi, a);
  }

  /** What RunFlipsBranch needs of the machine */
  lemma RunSupplies(c: Config, given: seq<int>, w: World, evs: seq<Event>, mpi: seq<Pred>)
    requires IsRun(c, Initial(given), w, evs) && RecordsRight(c, Initial(given), w, evs, false)
    requires var m := After(c, Initial(given), w, evs);
             MeansMpi(mpi, m.roles.ranks, m.roles.worldSizes, m.limits) && Admissible(m)
    ensures var m := After(c, Initial(given), w, evs);
            && Covered(m.path.constraints, m.vars.Keys) && Covered(mpi, m.vars.Keys)
            && Satisfies(In(m.inputs), m.vars, m.path.constraints + mpi)
            && (forall v :: v in m.vars ==> v < |m.inputs|)
            && forall p :: p in m.path.constraints ==> !IsConcrete(p.expr)
  {
    hide IsRun, RecordsRight, After, InBounds, Holds, MpiOk, IsConcrete, Canonical, WithinBounds;
    PathConditionTrue(c, given, w, evs);
    var m := After(c, Initial(given), w, evs);
    MpiCovered(mpi, m.roles.ranks, m.roles.worldSizes, m.limits, m.vars.Keys);
    AllHoldAppend(m.path.constraints, mpi, In(m.inputs));
  }

  /** For the execution of any run that records right and whose inputs are within bounds and fit MPI: solving at a
      recorded constraint finds inputs that meet those before it and not this one, if there are any. */
  lemma RunFlipsBranch(c: Config, given: seq<int>, w: World, evs: seq<Event>, solve: Oracle, k: nat, mpi: seq<Pred>)
    requires Correct(solve) && IsRun(c, Initial(given), w, evs) && RecordsRight(c, Initial(given), w, evs, false)
    requires var m := After(c, Initial(given), w, evs);
             && k < |m.path.constraints| && MeansMpi(mpi, m.roles.ranks, m.roles.worldSizes, m.limits)
             && Admissible(m)
    ensures var m := After(c, Initial(given), w, evs);
            var r := Solved(solve, m.path.constraints, k, mpi, m.vars, m.inputs);
            && (r.Some? <==> exists a: Assignment :: Flips(m, k, a))
            && (r.Some? ==> |r.value| == |m.inputs| && Flips(m, k, In(r.value)))
  {
    hide IsRun, RecordsRight, After, Correct, Covered, Solved, Satisfies, IsConcrete, Flips, Admissible, MeansMpi;
    var m := After(c, Initial(given), w, evs);
    var cs := m.path.constraints;
    RunSupplies(c, given, w, evs, mpi);
    assert cs[k] in cs;
    SolvedFlipsBranch(solve, cs, k, mpi, m.vars, m.inputs);
    forall a: Assignment
      ensures Flips(m, k, a) <==> Satisfies(a, m.vars, Flipped(cs, k) + mpi)
    {
      FlipsSatisfies(m, k, mpi, a);
    }
  }

  /** A constraint that was there before cannot be flipped. */
  lemma SeenFlipsNot(m: Machine, k: nat, a: Assignment)
    requires k < |m.path.constraints| && SeenBefore(m.path.constraints, k)
    ensures !Flips(m, k, a)
  {
    hide Holds, WithinBounds, MpiOk;
    var cs := m.path.constraints;
    var i :| 0 <= i < k && cs[i] == cs[k];
    assert cs[..k][i] == cs[k];
  }

  /** The same through the code: the execution is built from the machine after the run, and solved at constraint k. */
  method FlipAfterRun(search: Search, m: Machine, tag: nat, k: nat,
                      ghost c: Config, ghost given: seq<int>, ghost w: World, ghost evs: seq<Event>)
    returns (next: Option<seq<int>>)
    requires IsRun(c, Initial(given), w, evs) && RecordsRight(c, Initial(given), w, evs, false)
    requires m == After(c, Initial(given), w, evs) && k < |m.path.constraints| && Admissible(m)
    requires Correct(search.solver.solve)
    requires search.executionTag == tag ==>
               MeansMpi(search.solver.constraintsMPI, m.roles.ranks, m.roles.worldSizes, m.limits)
    modifies search, search.solver
    ensures next.Some? <==> exists a: Assignment :: Flips(m, k, a)
    ensures next.Some? ==> |next.value| == |m.inputs| && Flips(m, k, In(next.value))
    ensures var mpi := search.solver.constraintsMPI;
            && next == Solved(search.solver.solve, m.path.constraints, k, mpi, m.vars, m.inputs)
            && (next.Some? ==> MeansMpi(mpi, m.roles.ranks, m.roles.worldSizes, m.limits))
  {
    hide IsRun, RecordsRight, After, Admissible, Flips, MeansMpi, Correct, Solved, Covered, InputsOk;
    RunShape(c, given, w, evs);
    var ex := new Execution(m, tag);
    next := search.SolveAtBranch(ex, k);
    if SeenBefore(m.path.constraints, k) {
      SeenNone(search.solver.solve, m.path.constraints, k, search.solver.constraintsMPI, m.vars, m.inputs);
      forall a: Assignment
        ensures !Flips(m, k, a)
      {
        SeenFlipsNot(m, k, a);
      }
    } else {
      RunFlipsBranch(c, given, w, evs, search.solver.solve, k, search.solver.constraintsMPI);
    }
  }

  lemma SeenNone(solve: Oracle, constraints: seq<Pred>, k: nat, mpi: seq<Pred>, vars: Vars, inputs: seq<int>)
    requires k < |constraints| && SeenBefore(constraints, k)
    ensures Solved(solve, constraints, k, mpi, vars, inputs) == None
  {
  }

  /** What SolveAtBranch asks of an execution */
  lemma RunShape(c: Config, given: seq<int>, w: World, evs: seq<Event>)
    requires IsRun(c, Initial(given), w, evs)
    ensures var m := After(c, Initial(given), w, evs);
            && |m.vars| == m.numInputs && (forall v: Var :: v in m.vars <==> v < |m.vars|) && |m.vars| <= |m.inputs|
            && Covered(m.path.constraints, m.vars.Keys)
            && forall v :: v in m.roles.ranks || v in m.roles.worldSizes || v in m.limits ==> v in m.vars
  {
    hide IsRun, After, RecordsRight, IsConcrete, Canonical, Holds;
    PathConditionTrue(c, given, w, evs);
    var m := After(c, Initial(given), w, evs);
    KeysBelow(m.vars, m.numInputs);
  }
}
