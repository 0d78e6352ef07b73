/**
  Solving for the next input: IncrementalSolve and GenerateConstraintsMPI (yices_solver.cc) and SolveAtBranch
  (concolic_search.cc).  The SMT solver itself is a function, of which only correctness is known.
 */
module Solver {
  import opened BasicTypes
  import opened Options
  import opened PathCondition
  import opened SymbolicExpression
  import opened SymbolicPath

  type Vars = map<Var, Type>

  type Oracle = (Vars, seq<Pred>) -> Option<map<Var, int>>

  function VarsOf(p: Pred): set<Var> {
    p.expr.coeff.Keys
  }

  ghost predicate Covered(cs: seq<Pred>, s: set<Var>) {
    forall p :: p in cs ==> VarsOf(p) <= s
  }

  ghost predicate AllHold(cs: seq<Pred>, a: Assignment) {
    forall p :: p in cs ==> Holds(p, a)
  }

  ghost predicate WithinBounds(vars: Vars, a: Assignment) {
    forall v :: v in vars ==> InBounds(a(v), vars[v])
  }

  ghost predicate Satisfies(a: Assignment, vars: Vars, cs: seq<Pred>) {
    WithinBounds(vars, a) && AllHold(cs, a)
  }

  ghost predicate Satisfiable(vars: Vars, cs: seq<Pred>) {
    exists a: Assignment :: Satisfies(a, vars, cs)
  }

  function AsAssignment(m: map<Var, int>): Assignment {
    (v: Var) => if v in m then m[v] else 0
  }

  ghost predicate Answers(solve: Oracle, vars: Vars, cs: seq<Pred>) {
    match solve(vars, cs)
    case None => !Satisfiable(vars, cs)
    case Some(m) => m.Keys == vars.Keys && Satisfies(AsAssignment(m), vars, cs)
  }

  /** Solve answers every query about declared variables rightly. */
  ghost predicate Correct(solve: Oracle) {
    forall vars: Vars, cs: seq<Pred> :: Covered(cs, vars.Keys) ==> Answers(solve, vars, cs)
  }

  // ------------------------------------------------------------------------------------------------
  // Slicing
  // ------------------------------------------------------------------------------------------------

  /** Every constraint that touches s is over s alone. */
  ghost predicate Closed(cs: seq<Pred>, s: set<Var>) {
    forall p :: p in cs && DependsOn(p.expr, s) ==> VarsOf(p) <= s
  }

  /** The least closed set around some variables. */
  ghost predicate IsComponent(cs: seq<Pred>, start: set<Var>, s: set<Var>) {
    && start <= s && Closed(cs, s)
    && forall e: set<Var> :: start <= e && Closed(cs, e) ==> s <= e
  }

  function Slice(cs: seq<Pred>, s: set<Var>): seq<Pred> {
    if cs == [] then []
    else
      var n := |cs| - 1;
      Slice(cs[..n], s) + if DependsOn(cs[n].expr, s) then [cs[n]] else []
  }

  lemma {:induction false} SliceHas(cs: seq<Pred>, s: set<Var>, p: Pred)
    ensures p in Slice(cs, s) <==> p in cs && DependsOn(p.expr, s)
  {
    if cs != [] {
      var n := |cs| - 1;
      SliceHas(cs[..n], s, p);
      assert cs == cs[..n] + [cs[n]];
    }
  }

  function Restrict(vars: Vars, s: set<Var>): Vars {
    map v | v in vars && v in s :: vars[v]
  }

  /** The values of m where it has any, those of a elsewhere. */
  function Override(m: map<Var, int>, a: Assignment): Assignment {
    (v: Var) => if v in m then m[v] else a(v)
  }

  /** The answer to a slice, put over other inputs, satisfies exactly what those inputs satisfy outside the slice. */
  lemma OverrideSatisfies(vars: Vars, cs: seq<Pred>, s: set<Var>, m: map<Var, int>, a: Assignment)
    requires Covered(cs, vars.Keys) && Closed(cs, s)
    requires m.Keys == Restrict(vars, s).Keys && Satisfies(AsAssignment(m), Restrict(vars, s), Slice(cs, s))
    ensures Satisfies(Override(m, a), vars, cs) <==>
              && (forall v :: v in vars && v !in s ==> InBounds(a(v), vars[v]))
              && forall p :: p in cs && !DependsOn(p.expr, s) ==> Holds(p, a)
  {
    hide InBounds, Holds, Slice;
    var b := Override(m, a);
    forall v | v in vars
      ensures InBounds(b(v), vars[v]) <==> v in s || InBounds(a(v), vars[v])
    {
      if v in s {
        assert InBounds(AsAssignment(m)(v), Restrict(vars, s)[v]);
      }
    }
    forall p | p in cs
      ensures Holds(p, b) <==> DependsOn(p.expr, s) || Holds(p, a)
    {
      OverrideHolds(vars, cs, s, m, a, p);
    }
  }

  lemma OverrideHolds(vars: Vars, cs: seq<Pred>, s: set<Var>, m: map<Var, int>, a: Assignment, p: Pred)
    requires p in cs && Covered(cs, vars.Keys) && Closed(cs, s)
    requires m.Keys == Restrict(vars, s).Keys && AllHold(Slice(cs, s), AsAssignment(m))
    ensures Holds(p, Override(m, a)) <==> DependsOn(p.expr, s) || Holds(p, a)
  {
    hide Holds, Slice;
    if DependsOn(p.expr, s) {
      SliceHas(cs, s, p);
      HoldsAgrees(p, AsAssignment(m), Override(m, a));
    } else {
      HoldsAgrees(p, a, Override(m, a));
    }
  }

  /** What the last constraint's slice may be relied on for: the inputs satisfy everything but that constraint. */
  ghost predicate AllButLast(vars: Vars, cs: seq<Pred>, last: Pred, a: Assignment) {
    WithinBounds(vars, a) && forall p :: p in cs && p != last ==> Holds(p, a)
  }

  lemma NoTerms(m: map<Var, int>)
    requires m.Keys == {}
    ensures m == map[]
  {
  }

  lemma Depends(p: Pred, s: set<Var>)
    requires VarsOf(p) <= s && !IsConcrete(p.expr)
    ensures DependsOn(p.expr, s)
  {
    if p.expr.coeff.Keys == {} {
      NoTerms(p.expr.coeff);
    }
  }

  lemma SatisfiedBy(vars: Vars, cs: seq<Pred>) returns (a: Assignment)
    requires Satisfiable(vars, cs)
    ensures Satisfies(a, vars, cs)
  {
    hide Satisfies;
    a :| Satisfies(a, vars, cs);
  }

  /** A slice that has the last constraint in it: its answers, put over the inputs, satisfy everything. */
  lemma SliceAnswers(vars: Vars, cs: seq<Pred>, last: Pred, s: set<Var>, m: map<Var, int>, a: Assignment)
    requires Covered(cs, vars.Keys) && Closed(cs, s) && AllButLast(vars, cs, last, a)
    requires DependsOn(last.expr, s)
    requires m.Keys == Restrict(vars, s).Keys && Satisfies(AsAssignment(m), Restrict(vars, s), Slice(cs, s))
    ensures Satisfies(Override(m, a), vars, cs)
  {
    hide InBounds, Holds, Slice;
    OverrideSatisfies(vars, cs, s, m, a);
  }

  /** The slice around the last constraint is satisfiable exactly if all of the constraints are. */
  lemma SliceEquisatisfiable(vars: Vars, cs: seq<Pred>, last: Pred, s: set<Var>, a: Assignment)
    requires Covered(cs, vars.Keys) && Closed(cs, s) && last in cs && VarsOf(last) <= s
    requires AllButLast(vars, cs, last, a) && !IsConcrete(last.expr)
    ensures Satisfiable(Restrict(vars, s), Slice(cs, s)) <==> Satisfiable(vars, cs)
  {
    hide InBounds, Holds, Slice, Satisfies, Covered, Closed, AllButLast, IsConcrete, DependsOn;
    Depends(last, s);
    if Satisfiable(vars, cs) {
      var b := SatisfiedBy(vars, cs);
      WeakerQuery(vars, cs, s, b);
    }
    if Satisfiable(Restrict(vars, s), Slice(cs, s)) {
      var b := SatisfiedBy(Restrict(vars, s), Slice(cs, s));
      var m := map v | v in Restrict(vars, s) :: b(v);
      SliceCovered(vars, cs, s);
      AgreesSatisfies(b, AsAssignment(m), Restrict(vars, s), Slice(cs, s));
      SliceAnswers(vars, cs, last, s, m, a);
    }
  }

  lemma WeakerQuery(vars: Vars, cs: seq<Pred>, s: set<Var>, b: Assignment)
    requires Satisfies(b, vars, cs)
    ensures Satisfies(b, Restrict(vars, s), Slice(cs, s))
  {
    hide InBounds, Holds, Slice;
    forall p | p in Slice(cs, s)
      ensures Holds(p, b)
    {
      SliceHas(cs, s, p);
    }
  }

  lemma SliceCovered(vars: Vars, cs: seq<Pred>, s: set<Var>)
    requires Covered(cs, vars.Keys) && Closed(cs, s)
    ensures Covered(Slice(cs, s), Restrict(vars, s).Keys)
  {
    hide Slice;
    forall p | p in Slice(cs, s)
      ensures VarsOf(p) <= Restrict(vars, s).Keys
    {
      SliceHas(cs, s, p);
    }
  }

  lemma AgreesSatisfies(a: Assignment, b: Assignment, vars: Vars, cs: seq<Pred>)
    requires Covered(cs, vars.Keys) && Satisfies(a, vars, cs) && forall v :: v in vars ==> a(v) == b(v)
    ensures Satisfies(b, vars, cs)
  {
    hide InBounds, Holds;
    forall p | p in cs
      ensures Holds(p, b)
    {
      HoldsAgrees(p, a, b);
    }
  }

  // ------------------------------------------------------------------------------------------------
  // The incremental query
  // ------------------------------------------------------------------------------------------------

  ghost function AllVars(cs: seq<Pred>): set<Var> {
    set p, v | p in cs && v in VarsOf(p) :: v
  }

  ghost predicate InEveryClosed(cs: seq<Pred>, start: set<Var>, v: Var) {
    forall e: set<Var> :: start <= e && Closed(cs, e) ==> v in e
  }

  /** The variables that depend on some, through any chain of constraints. */
  ghost function Component(cs: seq<Pred>, start: set<Var>): set<Var> {
    set v | v in start + AllVars(cs) && InEveryClosed(cs, start, v)
  }

  lemma ComponentLeast(cs: seq<Pred>, start: set<Var>)
    ensures IsComponent(cs, start, Component(cs, start))
  {
    var s := Component(cs, start);
    forall p | p in cs && DependsOn(p.expr, s)
      ensures VarsOf(p) <= s
    {
      forall v | v in VarsOf(p)
        ensures v in s
      {
        assert v in AllVars(cs);
      }
    }
  }

  lemma ComponentUnique(cs: seq<Pred>, start: set<Var>, s: set<Var>)
    requires IsComponent(cs, start, s)
    ensures s == Component(cs, start)
  {
    ComponentLeast(cs, start);
  }

  /** What the solver is asked, and answers, about the slice around the last constraint. */
  ghost function Query(solve: Oracle, vars: Vars, cs: seq<Pred>, last: Pred): Option<map<Var, int>> {
    var s := Component(cs, VarsOf(last));
    solve(Restrict(vars, s), Slice(cs, s))
  }

  /** Given inputs that satisfy everything but a symbolic last constraint, the sliced query succeeds exactly if all
      the constraints can be satisfied within the bounds of the types; its answer over the inputs does that. */
  lemma QueryDecides(solve: Oracle, vars: Vars, cs: seq<Pred>, last: Pred, a: Assignment)
    requires Correct(solve) && Covered(cs, vars.Keys) && last in cs
    requires AllButLast(vars, cs, last, a) && !IsConcrete(last.expr)
    ensures var q := Query(solve, vars, cs, last);
            && (q.Some? <==> Satisfiable(vars, cs))
            && (q.Some? ==> Satisfies(Override(q.value, a), vars, cs))
  {
    hide AllButLast, IsConcrete, Component, Satisfies, Slice, Restrict, DependsOn;
    var s := Component(cs, VarsOf(last));
    ComponentLeast(cs, VarsOf(last));
    Depends(last, s);
    SliceCovered(vars, cs, s);
    SliceEquisatisfiable(vars, cs, last, s, a);
    assert Answers(solve, Restrict(vars, s), Slice(cs, s));
    var q := Query(solve, vars, cs, last);
    if q.Some? {
      SliceAnswers(vars, cs, last, s, q.value, a);
    }
  }

  /** With a constant last constraint there is nothing in the slice, and the query always succeeds. */
  lemma ConcreteSucceeds(solve: Oracle, vars: Vars, cs: seq<Pred>, last: Pred)
    requires Correct(solve) && IsConcrete(last.expr)
    ensures Query(solve, vars, cs, last) == Some(map[])
  {
    hide Component;
    ComponentLeast(cs, VarsOf(last));
    var s: set<Var> := {};
    assert Closed(cs, s);
    assert Component(cs, VarsOf(last)) == s;
    assert Restrict(vars, s) == map[];
    NothingDepends(cs, s);
    assert Answers(solve, map[], []);
    assert Satisfies(Zero(), map[], []);
    NoTerms(Query(solve, vars, cs, last).value);
  }

  lemma {:induction false} NothingDepends(cs: seq<Pred>, s: set<Var>)
    requires s == {}
    ensures Slice(cs, s) == []
  {
    if cs != [] {
      NothingDepends(cs[..|cs| - 1], s);
    }
  }

  /** So the query decides satisfiability exactly if the last constraint is symbolic or true anyway. */
  lemma QueryDecidesExactly(solve: Oracle, vars: Vars, cs: seq<Pred>, last: Pred, a: Assignment)
    requires Correct(solve) && Covered(cs, vars.Keys) && last in cs && AllButLast(vars, cs, last, a)
    ensures (Query(solve, vars, cs, last).Some? <==> Satisfiable(vars, cs)) <==>
              !IsConcrete(last.expr) || Holds(last, a)
  {
    hide Correct, Covered, Query;
    if !IsConcrete(last.expr) {
      QueryDecides(solve, vars, cs, last, a);
    } else {
      ConcreteSucceeds(solve, vars, cs, last);
      if Holds(last, a) {
        assert Satisfies(a, vars, cs);
      } else if Satisfiable(vars, cs) {
        var b := SatisfiedBy(vars, cs);
        HoldsAgrees(last, a, b);
      }
    }
  }

  // ------------------------------------------------------------------------------------------------
  // Flipping a branch
  // ------------------------------------------------------------------------------------------------

  /** The inputs with the solution's values put in. */
  function Replaced(inputs: seq<int>, m: map<Var, int>): seq<int> {
    seq(|inputs|, i requires 0 <= i < |inputs| => if i in m then m[i] else inputs[i])
  }

  /** The constraints for going the other way at constraint k. */
  function Flipped(constraints: seq<Pred>, k: nat): seq<Pred>
    requires k < |constraints|
  {
    constraints[..k] + [NegatePred(constraints[k])]
  }

  predicate SeenBefore(constraints: seq<Pred>, k: nat)
    requires k < |constraints|
  {
    exists i :: 0 <= i < k && constraints[i] == constraints[k]
  }

  /** The next input that SolveAtBranch finds, if any. */
  ghost function Solved(solve: Oracle, constraints: seq<Pred>, k: nat, mpi: seq<Pred>, vars: Vars, inputs: seq<int>)
    : Option<seq<int>>
    requires k < |constraints|
  {
    if SeenBefore(constraints, k) then None
    else
      var q := Query(solve, vars, Flipped(constraints, k) + mpi, NegatePred(constraints[k]));
      if q.None? then None else Some(Replaced(inputs, q.value))
  }

  /** A duplicate of an earlier constraint cannot be flipped: skipping it loses nothing. */
  lemma SeenUnsatisfiable(vars: Vars, constraints: seq<Pred>, k: nat, mpi: seq<Pred>)
    requires k < |constraints| && SeenBefore(constraints, k)
    ensures !Satisfiable(vars, Flipped(constraints, k) + mpi)
  {
    hide Holds;
    var i :| 0 <= i < k && constraints[i] == constraints[k];
    var cs := Flipped(constraints, k) + mpi;
    assert cs[i] == constraints[k] && cs[k] == NegatePred(constraints[k]);
    if Satisfiable(vars, cs) {
      var a := SatisfiedBy(vars, cs);
      NegateComplements(constraints[k], a);
    }
  }

  /** SolveAtBranch succeeds exactly if some inputs within the bounds of their types meet the MPI constraints and the
      recorded constraints before k, but not constraint k; and it returns such inputs. */
  lemma SolvedFlipsBranch(solve: Oracle, constraints: seq<Pred>, k: nat, mpi: seq<Pred>, vars: Vars, inputs: seq<int>)
    requires Correct(solve) && k < |constraints|
    requires Covered(constraints, vars.Keys) && Covered(mpi, vars.Keys) && !IsConcrete(constraints[k].expr)
    requires Satisfies(In(inputs), vars, constraints + mpi)
    requires forall v :: v in vars ==> v < |inputs|
    ensures var r := Solved(solve, constraints, k, mpi, vars, inputs);
            && (r.Some? <==> Satisfiable(vars, Flipped(constraints, k) + mpi))
            && (r.Some? ==> |r.value| == |inputs| && Satisfies(In(r.value), vars, Flipped(constraints, k) + mpi))
  {
    hide InBounds, Holds, Query, Satisfiable;
    var cs, last := Flipped(constraints, k) + mpi, NegatePred(constraints[k]);
    FlippedCovered(vars, constraints, k, mpi, inputs);
    if SeenBefore(constraints, k) {
      SeenUnsatisfiable(vars, constraints, k, mpi);
    } else {
      QueryDecides(solve, vars, cs, last, In(inputs));
      var q := Query(solve, vars, cs, last);
      if q.Some? {
        AgreesSatisfies(Override(q.value, In(inputs)), In(Replaced(inputs, q.value)), vars, cs);
      }
    }
  }

  lemma FlippedCovered(vars: Vars, constraints: seq<Pred>, k: nat, mpi: seq<Pred>, inputs: seq<int>)
    requires k < |constraints| && Covered(constraints, vars.Keys) && Covered(mpi, vars.Keys)
    ensures var cs := Flipped(constraints, k) + mpi;
            && Covered(cs, vars.Keys) && NegatePred(constraints[k]) in cs
            && (Satisfies(In(inputs), vars, constraints + mpi) ==>
                  AllButLast(vars, cs, NegatePred(constraints[k]), In(inputs)))
  {
    hide InBounds, Holds;
    var cs, last := Flipped(constraints, k) + mpi, NegatePred(constraints[k]);
    assert cs[k] == last;
    forall p | p in cs
      ensures p == last || p in constraints + mpi
      ensures VarsOf(p) <= vars.Keys
    {
      var i :| 0 <= i < |cs| && cs[i] == p;
      if i < k {
        assert p == constraints[i];
      } else if i > k {
        assert p == mpi[i - k - 1];
      } else {
        assert VarsOf(p) == VarsOf(constraints[k]);
      }
    }
  }
}
