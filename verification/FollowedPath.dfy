/**
  Do the inputs that flip a branch lead the program there?  They meet the recorded constraints before it, but not every
  constraint on the way was recorded.  What saves the others is that solving changes only what depends on the branch.
 */
module FollowedPath {
  import opened BasicTypes
  import opened NextInput
  import opened Options
  import opened PathCondition
  import opened PushedPath
  import opened Solver
  import opened SolverCode
  import opened SymbolicExpression
  import opened SymbolicInterpreter
  import opened SymbolicPath

  // ------------------------------------------------------------------------------------------------
  // What solving may change
  // ------------------------------------------------------------------------------------------------

  /** The inputs that depend on those of constraint k, through any chain of constraints. */
  ghost function Changeable(m: Machine, k: nat, mpi: seq<Pred>): set<Var>
    requires k < |m.path.constraints|
  {
    Component(Flipped(m.path.constraints, k) + mpi, VarsOf(m.path.constraints[k]))
  }

  /** Inputs that flip constraint k and are the same as those of the run where solving changes nothing. */
  ghost predicate MayAnswer(m: Machine, k: nat, mpi: seq<Pred>, a: Assignment)
    requires k < |m.path.constraints|
  {
    Flips(m, k, a) && forall v: Var :: v !in Changeable(m, k, mpi) ==> a(v) == In(m.inputs)(v)
  }

  /** What is needed of a run for RunFlipsBranch */
  ghost predicate Supplies(m: Machine, k: nat, mpi: seq<Pred>) {
    && k < |m.path.constraints|
    && MeansMpi(mpi, m.roles.ranks, m.roles.worldSizes, m.limits) && Admissible(m)
  }

  lemma NegatedVars(p: Pred)
    ensures VarsOf(NegatePred(p)) == VarsOf(p)
  {
  }

  /** The query's answer has values for the changeable inputs only. */
  lemma AnswerKeys(solve: Oracle, vars: Vars, constraints: seq<Pred>, k: nat, mpi: seq<Pred>)
    requires Correct(solve) && k < |constraints|
    requires Covered(constraints, vars.Keys) && Covered(mpi, vars.Keys)
    ensures var cs := Flipped(constraints, k) + mpi;
            var s := Component(cs, VarsOf(constraints[k]));
            var q := Query(solve, vars, cs, NegatePred(constraints[k]));
            && Covered(Slice(cs, s), Restrict(vars, s).Keys) && s <= vars.Keys
            && q == solve(Restrict(vars, s), Slice(cs, s))
            && (q.Some? ==> q.value.Keys == Restrict(vars, s).Keys)
  {
    hide Satisfies, Satisfiable, Slice, Component, Holds, NegatePred, VarsOf;
    var cs := Flipped(constraints, k) + mpi;
    var s := Component(cs, VarsOf(constraints[k]));
    NegatedVars(constraints[k]);
    FlippedCovered(vars, constraints, k, mpi, []);
    ComponentLeast(cs, VarsOf(constraints[k]));
    assert VarsOf(NegatePred(constraints[k])) <= vars.Keys;
    AllClosed(cs, vars.Keys);
    SliceCovered(vars, cs, s);
    assert Answers(solve, Restrict(vars, s), Slice(cs, s));
  }

  lemma AllClosed(cs: seq<Pred>, s: set<Var>)
    requires Covered(cs, s)
    ensures Closed(cs, s)
  {
  }

  /** What SolveAtBranch returns may answer. */
  lemma SolvedMayAnswer(c: Config, given: seq<int>, w: World, evs: seq<Event>, solve: Oracle, k: nat, mpi: seq<Pred>)
    requires Correct(solve) && IsRun(c, Initial(given), w, evs) && RecordsRight(c, Initial(given), w, evs, false)
    requires Supplies(After(c, Initial(given), w, evs), k, mpi)
    ensures var m := After(c, Initial(given), w, evs);
            var r := Solved(solve, m.path.constraints, k, mpi, m.vars, m.inputs);
            r.Some? ==> MayAnswer(m, k, mpi, In(r.value))
  {
    hide IsRun, RecordsRight, After, Correct, Flips, Admissible, MeansMpi, Component, Query, Covered, Satisfies;
    hide IsConcrete, Flipped, Slice;
    var m := After(c, Initial(given), w, evs);
    RunSupplies(c, given, w, evs, mpi);
    RunFlipsBranch(c, given, w, evs, solve, k, mpi);
    AnswerKeys(solve, m.vars, m.path.constraints, k, mpi);
  }

  // ------------------------------------------------------------------------------------------------
  // The constraints that were not recorded
  // ------------------------------------------------------------------------------------------------

  /** Inputs a lead the program along the run to the branch of constraint k. */
  ghost predicate LeadsTo(m: Machine, xs: seq<Pushed>, k: nat, a: Assignment) {
    k < |m.path.constraintsIdx| && m.path.constraintsIdx[k] < |xs| && TakesPath(xs, m.path.constraintsIdx[k], a)
  }

  /** Push i has a constraint that was not recorded and has to do with s. */
  ghost predicate AtRisk(xs: seq<Pushed>, i: nat, s: set<Var>)
    requires i < |xs|
  {
    xs[i].constraint.Some? && !Kept(xs, i) && !(VarsOf(xs[i].constraint.value) !! s)
  }

  /** The recorded constraints among the first pushes are the first recorded ones. */
  lemma KeptAmongFirst(m: Machine, xs: seq<Pushed>, k: nat, i: nat) returns (c: nat)
    requires PathIs(m, xs) && k < |m.path.constraintsIdx| && m.path.constraintsIdx[k] < |xs|
    requires i < m.path.constraintsIdx[k] && Kept(xs, i)
    ensures c < k < |m.path.constraints| && xs[i].constraint == Some(m.path.constraints[c])
  {
    hide Kept, PathOf;
    ReductionKeeps(xs);
    IndicesIncrease(xs, |xs|);
    KeptInside(xs, i);
    var idx := m.path.constraintsIdx;
    c :| 0 <= c < |idx| && idx[c] == i;
  }

  lemma IndexInPath(m: Machine, xs: seq<Pushed>, k: nat)
    requires PathIs(m, xs) && k < |m.path.constraints|
    ensures k < |m.path.constraintsIdx| && m.path.constraintsIdx[k] < |xs|
    ensures xs[m.path.constraintsIdx[k]].constraint == Some(m.path.constraints[k])
  {
    hide PathOf, KeptBelow;
    ReductionKeeps(xs);
  }

  /** A predicate over inputs that two assignments agree on */
  lemma OutsideKeeps(p: Pred, s: set<Var>, a: Assignment, b: Assignment)
    requires VarsOf(p) !! s && forall v: Var :: v !in s ==> a(v) == b(v)
    ensures Holds(p, a) <==> Holds(p, b)
  {
    hide Holds;
    HoldsAgrees(p, a, b);
  }

  /** Inputs that may answer lead to the branch exactly if they meet the constraints at risk. */
  lemma LeadsExactly(m: Machine, xs: seq<Pushed>, k: nat, mpi: seq<Pred>, a: Assignment)
    requires PathIs(m, xs) && LeadsTo(m, xs, k, In(m.inputs)) && k < |m.path.constraints| && MayAnswer(m, k, mpi, a)
    ensures LeadsTo(m, xs, k, a) <==>
              forall i: nat :: i < m.path.constraintsIdx[k] && AtRisk(xs, i, Changeable(m, k, mpi)) ==>
                PushHolds(xs, i, a)
  {
    hide Kept, PathIs, Changeable, Holds, VarsOf, In, WithinBounds, MpiOk;
    var s, j := Changeable(m, k, mpi), m.path.constraintsIdx[k];
    forall i: nat | i < j && !AtRisk(xs, i, s)
      ensures PushHolds(xs, i, a)
    {
      if xs[i].constraint.Some? {
        if Kept(xs, i) {
          var c := KeptAmongFirst(m, xs, k, i);
          assert m.path.constraints[..k][c] == m.path.constraints[c];
        } else {
          assert PushHolds(xs, i, In(m.inputs));
          OutsideKeeps(xs[i].constraint.value, s, a, In(m.inputs));
        }
      }
    }
  }

  /** What solving at constraint k returns, if anything, leads to the branch. */
  ghost predicate ReturnsLeading(m: Machine, xs: seq<Pushed>, k: nat, mpi: seq<Pred>, solve: Oracle)
    requires k < |m.path.constraints|
  {
    var r := Solved(solve, m.path.constraints, k, mpi, m.vars, m.inputs);
    r.Some? ==> LeadsTo(m, xs, k, In(r.value))
  }

  /** A run whose inputs meet its whole path up to a branch, where no constraint on the way that was not recorded has to
      do with what solving may change: whatever is returned leads to the branch. */
  lemma UntouchedLeads(c: Config, given: seq<int>, w: World, evs: seq<Event>, solve: Oracle, k: nat, mpi: seq<Pred>)
    requires Correct(solve) && IsRun(c, Initial(given), w, evs) && RecordsRight(c, Initial(given), w, evs, false)
    requires Supplies(After(c, Initial(given), w, evs), k, mpi)
    requires var m, xs := After(c, Initial(given), w, evs), Pushes(c, Initial(given), w, evs);
             && LeadsTo(m, xs, k, In(m.inputs))
             && forall i: nat :: i < m.path.constraintsIdx[k] ==> !AtRisk(xs, i, Changeable(m, k, mpi))
    ensures var m, xs := After(c, Initial(given), w, evs), Pushes(c, Initial(given), w, evs);
            ReturnsLeading(m, xs, k, mpi, solve)
  {
    hide IsRun, RecordsRight, After, Correct, Pushes, Solved, MayAnswer, PathIs, AtRisk, TakesPath, Changeable;
    var m, xs := After(c, Initial(given), w, evs), Pushes(c, Initial(given), w, evs);
    RunRecords(c, given, w, evs);
    SolvedMayAnswer(c, given, w, evs, solve, k, mpi);
    var r := Solved(solve, m.path.constraints, k, mpi, m.vars, m.inputs);
    if r.Some? {
      LeadsExactly(m, xs, k, mpi, In(r.value));
    }
  }

  // ------------------------------------------------------------------------------------------------
  // All inputs that may answer are the answer of some solver
  // ------------------------------------------------------------------------------------------------

  function ValuesOf(vars: Vars, a: Assignment): map<Var, int> {
    map v | v in vars :: a(v)
  }

  /** A solver that is correct */
  ghost function AnyAnswer(vars: Vars, cs: seq<Pred>): Option<map<Var, int>> {
    if Satisfiable(vars, cs) then
      var a: Assignment :| Satisfies(a, vars, cs);
      Some(ValuesOf(vars, a))
    else None
  }

  lemma ValuesSatisfy(vars: Vars, cs: seq<Pred>, a: Assignment)
    requires Satisfies(a, vars, cs) && Covered(cs, vars.Keys)
    ensures ValuesOf(vars, a).Keys == vars.Keys && Satisfies(AsAssignment(ValuesOf(vars, a)), vars, cs)
  {
    hide Satisfies, Covered;
    AgreesSatisfies(a, AsAssignment(ValuesOf(vars, a)), vars, cs);
  }

  /** One that is correct and answers a to one question */
  ghost function Answering(vars: Vars, cs: seq<Pred>, a: Assignment): Oracle {
    (vs: Vars, ps: seq<Pred>) => if vs == vars && ps == cs then Some(ValuesOf(vars, a)) else AnyAnswer(vs, ps)
  }

  lemma AnsweringCorrect(vars: Vars, cs: seq<Pred>, a: Assignment)
    requires Satisfies(a, vars, cs)
    ensures Correct(Answering(vars, cs, a)) && Answering(vars, cs, a)(vars, cs) == Some(ValuesOf(vars, a))
  {
    hide Satisfies, Covered, AsAssignment;
    var solve := Answering(vars, cs, a);
    forall vs: Vars, ps: seq<Pred> | Covered(ps, vs.Keys)
      ensures Answers(solve, vs, ps)
    {
      if vs == vars && ps == cs {
        ValuesSatisfy(vs, ps, a);
      } else if Satisfiable(vs, ps) {
        var b: Assignment :| Satisfies(b, vs, ps) && AnyAnswer(vs, ps) == Some(ValuesOf(vs, b));
        ValuesSatisfy(vs, ps, b);
      }
    }
  }

  /** Whatever may answer is what a correct solver makes SolveAtBranch return. */
  lemma SomeSolverReturns(c: Config, given: seq<int>, w: World, evs: seq<Event>, k: nat, mpi: seq<Pred>, a: Assignment)
    returns (solve: Oracle, r: seq<int>)
    requires IsRun(c, Initial(given), w, evs) && RecordsRight(c, Initial(given), w, evs, false)
    requires Supplies(After(c, Initial(given), w, evs), k, mpi)
    requires MayAnswer(After(c, Initial(given), w, evs), k, mpi, a)
    ensures var m := After(c, Initial(given), w, evs);
            Correct(solve) && Solved(solve, m.path.constraints, k, mpi, m.vars, m.inputs) == Some(r)
    ensures forall v: Var :: In(r)(v) == a(v)
  {
    hide IsRun, RecordsRight, After, Correct, Flips, Admissible, MeansMpi, Component, Covered, Satisfies;
    hide IsConcrete, Flipped, Slice, Answering, NegatePred, VarsOf, Restrict, Query, Replaced, ValuesOf;
    var m := After(c, Initial(given), w, evs);
    var cs, s := Flipped(m.path.constraints, k) + mpi, Changeable(m, k, mpi);
    RunSupplies(c, given, w, evs, mpi);
    FlipsSatisfies(m, k, mpi, a);
    WeakerQuery(m.vars, cs, s, a);
    solve := Answering(Restrict(m.vars, s), Slice(cs, s), a);
    AnsweringCorrect(Restrict(m.vars, s), Slice(cs, s), a);
    if SeenBefore(m.path.constraints, k) {
      SeenFlipsNot(m, k, a);
      assert false;
    }
    AnswerKeys(solve, m.vars, m.path.constraints, k, mpi);
    r := Replaced(m.inputs, ValuesOf(Restrict(m.vars, s), a));
    ReplacedAgrees(m, s, a);
  }

  lemma ReplacedAgrees(m: Machine, s: set<Var>, a: Assignment)
    requires (forall v :: v in m.vars ==> v < |m.inputs|) && forall v: Var :: v !in s ==> a(v) == In(m.inputs)(v)
    requires s <= m.vars.Keys
    ensures forall v: Var :: In(Replaced(m.inputs, ValuesOf(Restrict(m.vars, s), a)))(v) == a(v)
  {
  }

  // ------------------------------------------------------------------------------------------------
  // Main result
  // ------------------------------------------------------------------------------------------------

  /** Nothing that may answer falsifies a constraint at risk on the way to the branch. */
  ghost predicate RiskFree(m: Machine, xs: seq<Pushed>, k: nat, mpi: seq<Pred>)
    requires k < |m.path.constraints| && k < |m.path.constraintsIdx| && m.path.constraintsIdx[k] < |xs|
  {
    forall a: Assignment, i: nat ::
      MayAnswer(m, k, mpi, a) && i < m.path.constraintsIdx[k] && AtRisk(xs, i, Changeable(m, k, mpi)) ==>
        PushHolds(xs, i, a)
  }

  /** A run whose inputs meet its whole path up to a branch: every correct solver's inputs lead to that branch exactly
      if no inputs that flip it, and agree with the run's where solving changes nothing, falsify an unrecorded
      constraint that has to do with what solving may change. */
  lemma FollowsExactly(c: Config, given: seq<int>, w: World, evs: seq<Event>, k: nat, mpi: seq<Pred>)
    requires IsRun(c, Initial(given), w, evs) && RecordsRight(c, Initial(given), w, evs, false)
    requires Supplies(After(c, Initial(given), w, evs), k, mpi)
    requires var m, xs := After(c, Initial(given), w, evs), Pushes(c, Initial(given), w, evs);
             LeadsTo(m, xs, k, In(m.inputs))
    ensures var m, xs := After(c, Initial(given), w, evs), Pushes(c, Initial(given), w, evs);
            (forall solve: Oracle :: Correct(solve) ==> ReturnsLeading(m, xs, k, mpi, solve)) <==>
              RiskFree(m, xs, k, mpi)
  {
    hide IsRun, RecordsRight, After, Correct, Pushes, Solved, MayAnswer, PathIs, AtRisk, TakesPath, Changeable;
    var m, xs := After(c, Initial(given), w, evs), Pushes(c, Initial(given), w, evs);
    RunRecords(c, given, w, evs);
    if RiskFree(m, xs, k, mpi) {
      forall solve: Oracle | Correct(solve)
        ensures ReturnsLeading(m, xs, k, mpi, solve)
      {
        SolvedMayAnswer(c, given, w, evs, solve, k, mpi);
        var r := Solved(solve, m.path.constraints, k, mpi, m.vars, m.inputs);
        if r.Some? {
          LeadsExactly(m, xs, k, mpi, In(r.value));
        }
      }
    }
    if forall solve: Oracle :: Correct(solve) ==> ReturnsLeading(m, xs, k, mpi, solve) {
      forall a: Assignment | MayAnswer(m, k, mpi, a)
        ensures LeadsTo(m, xs, k, a)
      {
        var solve, r := SomeSolverReturns(c, given, w, evs, k, mpi, a);
        assert ReturnsLeading(m, xs, k, mpi, solve);
        SameLeads(m, xs, k, In(r), a);
      }
      forall a: Assignment | MayAnswer(m, k, mpi, a)
        ensures forall i: nat :: i < m.path.constraintsIdx[k] && AtRisk(xs, i, Changeable(m, k, mpi)) ==>
                  PushHolds(xs, i, a)
      {
        LeadsExactly(m, xs, k, mpi, a);
      }
    }
  }

  lemma SameLeads(m: Machine, xs: seq<Pushed>, k: nat, a: Assignment, b: Assignment)
    requires LeadsTo(m, xs, k, a) && forall v: Var :: a(v) == b(v)
    ensures LeadsTo(m, xs, k, b)
  {
    hide Holds;
    forall i: nat | i < m.path.constraintsIdx[k] && xs[i].constraint.Some?
      ensures PushHolds(xs, i, b)
    {
      assert PushHolds(xs, i, a);
      HoldsAgrees(xs[i].constraint.value, a, b);
    }
  }

  /** The inputs of a run lead to each of its branches if none comes with the register set while it is inverted. */
  lemma OwnInputsLead(c: Config, given: seq<int>, w: World, evs: seq<Event>, k: nat)
    requires IsRun(c, Initial(given), w, evs) && PushesRight(c, Initial(given), w, evs, false)
    requires k < |After(c, Initial(given), w, evs).path.constraints|
    ensures var m, xs := After(c, Initial(given), w, evs), Pushes(c, Initial(given), w, evs);
            RecordsRight(c, Initial(given), w, evs, false) && LeadsTo(m, xs, k, In(m.inputs))
  {
    hide IsRun, RecordsRight, After, Pushes, PushesRight, PathIs, PushHolds, In;
    var m, xs := After(c, Initial(given), w, evs), Pushes(c, Initial(given), w, evs);
    WholePathTrue(c, given, w, evs);
    PushesRecordRight(c, Initial(given), w, evs, false);
    RunRecords(c, given, w, evs);
    IndexInPath(m, xs, k);
  }
}
