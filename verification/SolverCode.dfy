/** The methods of YicesSolver (yices_solver.cc) and Search::SolveAtBranch (concolic_search.cc). */
module SolverCode {
  import opened BasicTypes
  import opened Options
  import opened PathCondition
  import opened SymbolicExpression
  import opened SymbolicPath
  import opened SymbolicInterpreter
  import opened Solver

  /** A vector of predicates that a callee changes. */
  class PredVector {
    var items: seq<Pred>

    constructor (ps: seq<Pred>)
      ensures items == ps
    {
      items := ps;
    }
  }

  /** The execution a branch is flipped in; SolveAtBranch negates one of its constraints and negates it back. */
  class Execution {
    var constraints: seq<Pred>
    const inputs: seq<int>
    const vars: Vars
    const limits: map<Var, int>
    const ranks: seq<Var>
    const worldSizes: seq<Var>
    const tag: nat

    constructor (m: Machine, tag: nat)
      ensures constraints == m.path.constraints && inputs == m.inputs && vars == m.vars && limits == m.limits
      ensures ranks == m.roles.ranks && worldSizes == m.roles.worldSizes && this.tag == tag
    {
      constraints, inputs, vars, limits := m.path.constraints, m.inputs, m.vars, m.limits;
      ranks, worldSizes, this.tag := m.roles.ranks, m.roles.worldSizes, tag;
    }
  }

  // ------------------------------------------------------------------------------------------------
  // Constraints on MPI ranks and sizes
  // ------------------------------------------------------------------------------------------------

  predicate AllEqual(vs: seq<Var>, a: Assignment) {
    forall i :: 0 <= i < |vs| ==> a(vs[i]) == a(vs[0])
  }

  predicate BelowLimits(limits: map<Var, int>, a: Assignment) {
    forall v :: v in limits ==> a(v) <= limits[v]
  }

  /** One world size, one rank, the rank below the world size, and every limited input at most its limit. */
  predicate MpiOk(ranks: seq<Var>, worldSizes: seq<Var>, limits: map<Var, int>, a: Assignment) {
    && AllEqual(worldSizes, a) && AllEqual(ranks, a) && BelowLimits(limits, a)
    && (ranks != [] && worldSizes != [] ==> a(ranks[0]) < a(worldSizes[0]))
  }

  /** What MPI promises of a run: all ranks are the same and below every size, all sizes are the same. */
  lemma MpiMeans(ranks: seq<Var>, worldSizes: seq<Var>, limits: map<Var, int>, a: Assignment)
    ensures MpiOk(ranks, worldSizes, limits, a) <==>
              && (forall r, s :: r in ranks && s in worldSizes ==> a(r) < a(s))
              && (forall r, q :: r in ranks && q in ranks ==> a(r) == a(q))
              && (forall r, q :: r in worldSizes && q in worldSizes ==> a(r) == a(q))
              && !exists v :: v in limits && a(v) > limits[v]
  {
    if ranks != [] {
      assert ranks[0] in ranks;
    }
    if worldSizes != [] {
      assert worldSizes[0] in worldSizes;
    }
  }

  ghost predicate MeansMpi(cs: seq<Pred>, ranks: seq<Var>, worldSizes: seq<Var>, limits: map<Var, int>) {
    && (forall a: Assignment :: AllHold(cs, a) <==> MpiOk(ranks, worldSizes, limits, a))
    && forall p, v :: p in cs && v in VarsOf(p) ==> v in ranks || v in worldSizes || v in limits
  }

  /** v op w, written v - w op 0 */
  lemma VariablesCompare(op: CompareOp, v: Var, w: Var, a: Assignment)
    ensures Holds(Pred(op, Minus(Variable(1, v), Variable(1, w))), a) <==> Compare(op, a(v), a(w))
    ensures VarsOf(Pred(op, Minus(Variable(1, v), Variable(1, w)))) <= {v, w}
  {
    hide Eval;
    OperatorsMean(Variable(1, v), Variable(1, w), 0, a);
    EvalVariable(1, v, a);
    EvalVariable(1, w, a);
  }

  lemma VariableBelow(v: Var, limit: int, a: Assignment)
    ensures Holds(Pred(LE, MinusConst(Variable(1, v), limit)), a) <==> a(v) <= limit
    ensures VarsOf(Pred(LE, MinusConst(Variable(1, v), limit))) == {v}
  {
    hide Eval;
    OperatorsMean(Variable(1, v), Constant(0), limit, a);
    EvalVariable(1, v, a);
  }

  /** The constraints vs[i] == vs[0], for 0 < i < n */
  ghost predicate MeansEqual(cs: seq<Pred>, vs: seq<Var>, n: nat)
    requires n <= |vs|
  {
    && (forall a: Assignment :: AllHold(cs, a) <==> forall i :: 0 <= i < n ==> a(vs[i]) == a(vs[0]))
    && forall p, v :: p in cs && v in VarsOf(p) ==> v in vs
  }

  lemma OneMoreEqual(cs: seq<Pred>, vs: seq<Var>, n: nat)
    requires 0 < n < |vs| && MeansEqual(cs, vs, n)
    ensures MeansEqual(cs + [Pred(EQ, Minus(Variable(1, vs[n]), Variable(1, vs[0])))], vs, n + 1)
  {
    hide Holds, Minus, Variable;
    var p := Pred(EQ, Minus(Variable(1, vs[n]), Variable(1, vs[0])));
    forall a: Assignment
      ensures AllHold(cs + [p], a) <==> forall i :: 0 <= i < n + 1 ==> a(vs[i]) == a(vs[0])
    {
      VariablesCompare(EQ, vs[n], vs[0], a);
      AllHoldAppend(cs, [p], a);
    }
    VariablesCompare(EQ, vs[n], vs[0], Zero());
  }

  lemma AllHoldAppend(cs: seq<Pred>, ds: seq<Pred>, a: Assignment)
    ensures AllHold(cs + ds, a) <==> AllHold(cs, a) && AllHold(ds, a)
  {
    hide Holds;
    assert forall p :: p in cs + ds <==> p in cs || p in ds;
  }

  /** The loops over world sizes and over ranks. */
  method EqualToFirst(vs: seq<Var>) returns (cs: seq<Pred>)
    ensures MeansEqual(cs, vs, |vs|)
  {
    hide Minus, Variable;
    cs := [];
    if vs != [] {
      var first := Variable(1, vs[0]);
      var i := 1;
      while i < |vs|
        invariant 1 <= i <= |vs| && MeansEqual(cs, vs, i)
      {
        var other := Variable(1, vs[i]);
        OneMoreEqual(cs, vs, i);
        cs := cs + [Pred(EQ, Minus(other, first))];
        i := i + 1;
      }
    }
  }

  ghost predicate MeansLimits(cs: seq<Pred>, limits: map<Var, int>, done: set<Var>)
    requires done <= limits.Keys
  {
    && (forall a: Assignment :: AllHold(cs, a) <==> forall v :: v in done ==> a(v) <= limits[v])
    && forall p, v :: p in cs && v in VarsOf(p) ==> v in limits
  }

  lemma OneMoreLimit(cs: seq<Pred>, limits: map<Var, int>, done: set<Var>, v: Var)
    requires done <= limits.Keys && v in limits && MeansLimits(cs, limits, done)
    ensures MeansLimits(cs + [Pred(LE, MinusConst(Variable(1, v), limits[v]))], limits, done + {v})
  {
    hide Holds, MinusConst, Variable;
    var p := Pred(LE, MinusConst(Variable(1, v), limits[v]));
    forall a: Assignment
      ensures AllHold(cs + [p], a) <==> forall u :: u in done + {v} ==> a(u) <= limits[u]
    {
      VariableBelow(v, limits[v], a);
      AllHoldAppend(cs, [p], a);
    }
    VariableBelow(v, limits[v], Zero());
  }

  method LimitConstraints(limits: map<Var, int>) returns (cs: seq<Pred>)
    ensures MeansLimits(cs, limits, limits.Keys)
  {
    hide MinusConst, Variable;
    cs := [];
    var todo := limits.Keys;
    while todo != {}
      invariant todo <= limits.Keys && MeansLimits(cs, limits, limits.Keys - todo)
      decreases todo
    {
      var v :| v in todo;
      OneMoreLimit(cs, limits, limits.Keys - todo, v);
      cs := cs + [Pred(LE, MinusConst(Variable(1, v), limits[v]))];
      assert limits.Keys - (todo - {v}) == limits.Keys - todo + {v};
      todo := todo - {v};
    }
  }

  lemma MpiMeant(ws: seq<Pred>, rs: seq<Pred>, lt: seq<Pred>, ls: seq<Pred>, ranks: seq<Var>, worldSizes: seq<Var>,
                 limits: map<Var, int>)
    requires MeansEqual(ws, worldSizes, |worldSizes|) && MeansEqual(rs, ranks, |ranks|)
    requires MeansLimits(ls, limits, limits.Keys)
    requires lt == if ranks != [] && worldSizes != []
                   then [Pred(LT, Minus(Variable(1, ranks[0]), Variable(1, worldSizes[0])))] else []
    ensures MeansMpi(ws + rs + lt + ls, ranks, worldSizes, limits)
  {
    hide Holds, Minus, Variable, VarsOf;
    var cs := ws + rs + lt + ls;
    assert forall p :: p in cs <==> p in ws || p in rs || p in lt || p in ls;
    forall a: Assignment
      ensures AllHold(cs, a) <==> MpiOk(ranks, worldSizes, limits, a)
    {
      if lt != [] {
        VariablesCompare(LT, ranks[0], worldSizes[0], a);
      }
      AllHoldAppend(ws, rs, a);
      AllHoldAppend(ws + rs, lt, a);
      AllHoldAppend(ws + rs + lt, ls, a);
    }
    if lt != [] {
      VariablesCompare(LT, ranks[0], worldSizes[0], Zero());
    }
  }

  // ------------------------------------------------------------------------------------------------
  // The dependence graph
  // ------------------------------------------------------------------------------------------------

  /** Do v and u occur together in one of the constraints? */
  predicate Together(cs: seq<Pred>, v: Var, u: Var) {
    exists p :: p in cs && v in VarsOf(p) && u in VarsOf(p)
  }

  ghost predicate IsGraph(depends: seq<set<Var>>, cs: seq<Pred>) {
    forall v: Var, u: Var :: v < |depends| ==> (u in depends[v] <==> Together(cs, v, u))
  }

  method DependenceGraph(n: nat, cs: seq<Pred>) returns (depends: seq<set<Var>>)
    requires forall p, v :: p in cs && v in VarsOf(p) ==> v < n
    ensures |depends| == n && IsGraph(depends, cs)
  {
    depends := seq(n, _ => {});
    var i := 0;
    while i < |cs|
      invariant i <= |cs| && |depends| == n && IsGraph(depends, cs[..i])
    {
      var tmp := VarsOf(cs[i]);
      depends := Connect(depends, tmp);
      assert forall p :: p in cs[..i + 1] <==> p in cs[..i] || p == cs[i];
      i := i + 1;
    }
    assert cs[..i] == cs;
  }

  method Connect(before: seq<set<Var>>, tmp: set<Var>) returns (depends: seq<set<Var>>)
    requires forall v :: v in tmp ==> v < |before|
    ensures |depends| == |before|
    ensures forall v: Var :: v < |before| ==> depends[v] == if v in tmp then before[v] + tmp else before[v]
  {
    depends := before;
    var todo := tmp;
    while todo != {}
      invariant todo <= tmp && |depends| == |before|
      invariant forall v: Var :: v < |before| ==>
                  depends[v] == if v in tmp && v !in todo then before[v] + tmp else before[v]
      decreases todo
    {
      var j :| j in todo;
      depends := depends[j := depends[j] + tmp];
      todo := todo - {j};
    }
  }

  ghost predicate Explored(depends: seq<set<Var>>, found: set<Var>, queue: seq<Var>) {
    forall v :: v in found && v !in queue && v < |depends| ==> depends[v] <= found
  }

  ghost predicate InAllClosed(cs: seq<Pred>, start: set<Var>, found: set<Var>) {
    forall e: set<Var> :: start <= e && Closed(cs, e) ==> found <= e
  }

  lemma StepsInside(cs: seq<Pred>, start: set<Var>, depends: seq<set<Var>>, found: set<Var>, v: Var, more: set<Var>)
    requires IsGraph(depends, cs) && InAllClosed(cs, start, found) && v in found && v < |depends|
    requires more <= depends[v]
    ensures InAllClosed(cs, start, found + more)
  {
    forall e: set<Var> | start <= e && Closed(cs, e)
      ensures found + more <= e
    {
      forall u | u in more
        ensures u in e
      {
        assert Together(cs, v, u);
        var p :| p in cs && v in VarsOf(p) && u in VarsOf(p);
        assert v in found && found <= e;
        assert DependsOn(p.expr, e);
      }
    }
  }

  lemma ExploredClosed(cs: seq<Pred>, depends: seq<set<Var>>, found: set<Var>)
    requires IsGraph(depends, cs) && Explored(depends, found, []) && forall v :: v in found ==> v < |depends|
    ensures Closed(cs, found)
  {
    forall p | p in cs && DependsOn(p.expr, found)
      ensures VarsOf(p) <= found
    {
      var v :| v in p.expr.coeff && v in found;
      forall u | u in VarsOf(p)
        ensures u in found
      {
        assert Together(cs, v, u);
      }
    }
  }

  /** The breadth-first search from the variables of the last constraint. */
  method DependentVars(vars: Vars, cs: seq<Pred>, depends: seq<set<Var>>, start: set<Var>) returns (found: Vars)
    requires |depends| == |vars| && (forall v: Var :: v in vars <==> v < |vars|)
    requires Covered(cs, vars.Keys) && IsGraph(depends, cs) && start <= vars.Keys
    ensures found == Restrict(vars, Component(cs, start)) && found.Keys == Component(cs, start)
  {
    hide Component, Together, Closed, Covered, IsGraph;
    var queue: seq<Var>;
    found, queue := Enqueue(vars, map[], [], start);
    assert InAllClosed(cs, start, start);
    while queue != []
      invariant found.Keys <= vars.Keys && found == Restrict(vars, found.Keys)
      invariant start <= found.Keys && InAllClosed(cs, start, found.Keys)
      invariant forall v :: v in queue ==> v in found
      invariant Explored(depends, found.Keys, queue)
      decreases vars.Keys - found.Keys, |queue|
    {
      var i := queue[0];
      assert i in queue;
      ghost var before, rest := found, queue;
      queue := queue[1..];
      DependsInside(vars, cs, depends, i);
      StepsInside(cs, start, depends, found.Keys, i, depends[i]);
      found, queue := Enqueue(vars, found, queue, depends[i]);
      ExploredStep(depends, before.Keys, rest, found.Keys, queue);
      MeasureDrops(vars.Keys, before.Keys, found.Keys);
    }
    ExploredClosed(cs, depends, found.Keys);
    ComponentUnique(cs, start, found.Keys);
  }

  lemma DependsInside(vars: Vars, cs: seq<Pred>, depends: seq<set<Var>>, v: Var)
    requires Covered(cs, vars.Keys) && IsGraph(depends, cs) && v < |depends|
    ensures depends[v] <= vars.Keys
  {
    forall u | u in depends[v]
      ensures u in vars
    {
      assert Together(cs, v, u);
    }
  }

  lemma ExploredStep(depends: seq<set<Var>>, before: set<Var>, rest: seq<Var>, found: set<Var>, queue: seq<Var>)
    requires rest != [] && Explored(depends, before, rest) && rest[0] < |depends|
    requires found == before + depends[rest[0]] && forall v :: v in rest[1..] || v in found - before ==> v in queue
    ensures Explored(depends, found, queue)
  {
    assert rest == [rest[0]] + rest[1..];
    forall v | v in found && v !in queue && v < |depends|
      ensures depends[v] <= found
    {
      assert v in before;
    }
  }

  lemma MeasureDrops(all: set<Var>, before: set<Var>, found: set<Var>)
    requires before <= found <= all
    ensures all - found <= all - before && (all - found == all - before ==> found == before)
  {
    if all - found == all - before {
      assert found == all - (all - found);
      assert before == all - (all - before);
    }
  }

  /** Puts the new ones among `more` into the set and at the end of the queue. */
  method Enqueue(vars: Vars, before: Vars, rest: seq<Var>, more: set<Var>) returns (found: Vars, queue: seq<Var>)
    requires before.Keys <= vars.Keys && before == Restrict(vars, before.Keys) && more <= vars.Keys
    ensures found.Keys == before.Keys + more && found == Restrict(vars, found.Keys)
    ensures forall v :: v in queue <==> v in rest || v in more - before.Keys
    ensures more <= before.Keys ==> queue == rest
  {
    found, queue := before, rest;
    var todo := more;
    while todo != {}
      invariant todo <= more && found.Keys == before.Keys + (more - todo) && found == Restrict(vars, found.Keys)
      invariant forall v :: v in queue <==> v in rest || v in (more - todo) - before.Keys
      invariant more <= before.Keys ==> queue == rest
      decreases todo
    {
      var j :| j in todo;
      if j !in found {
        queue := queue + [j];
        found := found[j := vars[j]];
      }
      todo := todo - {j};
    }
  }

  // ------------------------------------------------------------------------------------------------
  // Solving
  // ------------------------------------------------------------------------------------------------

  /** The constraints that depend on the variables found. */
  method DependentConstraints(cs: seq<Pred>, found: set<Var>) returns (ds: seq<Pred>)
    ensures ds == Slice(cs, found)
  {
    ds := [];
    var i := 0;
    while i < |cs|
      invariant i <= |cs| && ds == Slice(cs[..i], found)
    {
      assert cs[..i + 1][..i] == cs[..i];
      if DependsOn(cs[i].expr, found) {
        ds := ds + [cs[i]];
      }
      i := i + 1;
    }
    assert cs[..i] == cs;
  }

  /** The variables that occur in the constraints. */
  method Occurring(cs: seq<Pred>) returns (vs: set<Var>)
    ensures vs == AllVars(cs)
  {
    vs := {};
    var i := 0;
    while i < |cs|
      invariant i <= |cs| && vs == AllVars(cs[..i])
    {
      assert forall p :: p in cs[..i + 1] <==> p in cs[..i] || p == cs[i];
      vs := vs + VarsOf(cs[i]);
      i := i + 1;
    }
    assert cs[..i] == cs;
  }

  /** The old values of the variables that the solution leaves open. */
  function WithOld(m: map<Var, int>, vs: set<Var>, inputs: seq<int>): map<Var, int>
    requires forall v :: v in vs ==> v < |inputs|
  {
    map v | v in m.Keys + vs :: if v in m then m[v] else inputs[v]
  }

  method MergeOld(m: map<Var, int>, vs: set<Var>, oldSoln: seq<int>) returns (soln: map<Var, int>)
    requires forall v :: v in vs ==> v < |oldSoln|
    ensures soln == WithOld(m, vs, oldSoln)
  {
    soln := m;
    var todo := vs;
    while todo != {}
      invariant todo <= vs && soln == WithOld(m, vs - todo, oldSoln)
      decreases todo
    {
      var v :| v in todo;
      if v !in soln {
        soln := soln[v := oldSoln[v]];
      }
      todo := todo - {v};
    }
  }

  /** The inputs with the solution put in. */
  method PutIn(inputs: seq<int>, soln: map<Var, int>) returns (input: seq<int>)
    requires forall v :: v in soln ==> v < |inputs|
    ensures input == Replaced(inputs, soln)
  {
    input := inputs;
    var todo := soln.Keys;
    while todo != {}
      invariant todo <= soln.Keys && |input| == |inputs|
      invariant forall i: Var :: i < |inputs| ==> input[i] == if i in soln && i !in todo then soln[i] else inputs[i]
      decreases todo
    {
      var v :| v in todo;
      input := input[v := soln[v]];
      todo := todo - {v};
    }
  }

  lemma KeysWithOld(m: map<Var, int>, vs: set<Var>, inputs: seq<int>, vars: Vars)
    requires vs <= vars.Keys && m.Keys <= vars.Keys
    requires (forall v: Var :: v in vars <==> v < |vars|) && |vars| <= |inputs|
    ensures forall v :: v in WithOld(m, vs, inputs) ==> v < |inputs|
  {
  }

  lemma OldChangesNothing(m: map<Var, int>, vs: set<Var>, inputs: seq<int>, vars: Vars)
    requires vs <= vars.Keys && (forall v: Var :: v in vars <==> v < |vars|) && |vars| <= |inputs|
    ensures Replaced(inputs, WithOld(m, vs, inputs)) == Replaced(inputs, m)
  {
  }

  /** The solution has a value, within its bounds, for every variable that occurs, and meets all the constraints. */
  ghost predicate Solves(soln: map<Var, int>, vars: Vars, cs: seq<Pred>) {
    && AllVars(cs) <= soln.Keys && AllHold(cs, AsAssignment(soln))
    && forall v :: v in soln ==> v in vars && InBounds(soln[v], vars[v])
  }

  lemma AnswerSolves(solve: Oracle, vars: Vars, cs: seq<Pred>, last: Pred, inputs: seq<int>)
    requires Correct(solve) && Covered(cs, vars.Keys) && last in cs && AllVars(cs) <= vars.Keys
    requires AllButLast(vars, cs, last, In(inputs)) && !IsConcrete(last.expr) && forall v :: v in vars ==> v < |inputs|
    ensures var q := Query(solve, vars, cs, last);
            q.Some? ==> Solves(WithOld(q.value, AllVars(cs), inputs), vars, cs)
  {
    hide Correct, Covered, AllButLast, IsConcrete, AllVars, Holds, InBounds;
    QueryDecides(solve, vars, cs, last, In(inputs));
    var q := Query(solve, vars, cs, last);
    if q.Some? {
      AnswerWithin(solve, vars, cs, last);
      var soln, b := WithOld(q.value, AllVars(cs), inputs), Override(q.value, In(inputs));
      forall p | p in cs
        ensures Holds(p, AsAssignment(soln))
      {
        Occurs(cs, p);
        assert Holds(p, b);
        HoldsAgrees(p, b, AsAssignment(soln));
      }
      forall v | v in soln
        ensures v in vars && InBounds(soln[v], vars[v])
      {
        assert InBounds(b(v), vars[v]);
      }
    }
  }

  lemma Occurs(cs: seq<Pred>, p: Pred)
    requires p in cs
    ensures VarsOf(p) <= AllVars(cs)
  {
  }

  lemma AnswerWithin(solve: Oracle, vars: Vars, cs: seq<Pred>, last: Pred)
    requires Correct(solve) && Covered(cs, vars.Keys) && last in cs
    ensures var q := Query(solve, vars, cs, last); q.Some? ==> q.value.Keys <= vars.Keys
  {
    hide Slice, Component, Satisfies, Satisfiable;
    var s := Component(cs, VarsOf(last));
    ComponentLeast(cs, VarsOf(last));
    SliceCovered(vars, cs, s);
    assert Answers(solve, Restrict(vars, s), Slice(cs, s));
  }

  class YicesSolver {
    const solve: Oracle
    var constraintsMPI: seq<Pred>

    constructor (solve: Oracle)
      ensures constraintsMPI == [] && this.solve == solve
    {
      this.solve, constraintsMPI := solve, [];
    }

    method GenerateConstraintsMPI(ranks: seq<Var>, worldSizes: seq<Var>, limits: map<Var, int>)
      modifies this
      ensures MeansMpi(constraintsMPI, ranks, worldSizes, limits)
    {
      hide Minus, Variable, MeansMpi, MeansEqual, MeansLimits;
      constraintsMPI := [];
      var ws := EqualToFirst(worldSizes);
      constraintsMPI := constraintsMPI + ws;
      var rs := EqualToFirst(ranks);
      constraintsMPI := constraintsMPI + rs;
      var lt: seq<Pred> := [];
      if ranks != [] && worldSizes != [] {
        lt := [Pred(LT, Minus(Variable(1, ranks[0]), Variable(1, worldSizes[0])))];
        constraintsMPI := constraintsMPI + lt;
      }
      var ls := LimitConstraints(limits);
      constraintsMPI := constraintsMPI + ls;
      MpiMeant(ws, rs, lt, ls, ranks, worldSizes, limits);
      assert constraintsMPI == ws + rs + lt + ls;
    }

    /** Asks only about what depends on the last constraint; the vector of constraints is given back as it was. */
    method IncrementalSolve(oldSoln: seq<int>, vars: Vars, constraints: PredVector)
      returns (ok: bool, soln: map<Var, int>)
      requires constraints.items != [] && (forall v: Var :: v in vars <==> v < |vars|) && |vars| <= |oldSoln|
      requires Covered(constraints.items, vars.Keys) && Covered(constraintsMPI, vars.Keys)
      requires Correct(solve)
      modifies constraints
      ensures constraints.items == old(constraints.items)
      ensures var all := constraints.items + constraintsMPI;
              var q := Query(solve, vars, all, constraints.items[|constraints.items| - 1]);
              && ok == q.Some?
              && (ok ==> AllVars(all) <= vars.Keys && soln == WithOld(q.value, AllVars(all), oldSoln))
      ensures ok ==> forall v :: v in soln ==> v < |oldSoln|
      ensures var all, last := constraints.items + constraintsMPI, constraints.items[|constraints.items| - 1];
              ok && !IsConcrete(last.expr) && AllButLast(vars, all, last, In(oldSoln)) ==> Solves(soln, vars, all)
    {
      hide Solves, AllButLast, IsConcrete, Component, Slice, Restrict, IsGraph, WithOld, Covered, AllVars, Holds;
      ghost var given := constraints.items;
      var last := constraints.items[|constraints.items| - 1];
      constraints.items := constraints.items + constraintsMPI;
      ghost var all := constraints.items;
      AppendCovered(given, constraintsMPI, vars.Keys);
      var depends := DependenceGraph(|vars|, constraints.items);
      assert last in given && last in all;
      var found := DependentVars(vars, constraints.items, depends, VarsOf(last));
      var slice := DependentConstraints(constraints.items, found.Keys);
      soln := map[];
      var answer := solve(found, slice);
      ComponentLeast(all, VarsOf(last));
      SliceCovered(vars, all, found.Keys);
      assert Answers(solve, found, slice);
      if answer.Some? {
        soln := answer.value;
        var tmp := Occurring(constraints.items);
        constraints.items := constraints.items[..|constraints.items| - |constraintsMPI|];
        soln := MergeOld(soln, tmp, oldSoln);
        KeysWithOld(answer.value, tmp, oldSoln, vars);
        if !IsConcrete(last.expr) && AllButLast(vars, all, last, In(oldSoln)) {
          AnswerSolves(solve, vars, all, last, oldSoln);
        }
        ok := true;
      } else {
        constraints.items := constraints.items[..|constraints.items| - |constraintsMPI|];
        ok := false;
      }
    }
  }

  lemma AppendCovered(cs: seq<Pred>, ds: seq<Pred>, s: set<Var>)
    requires Covered(cs, s) && Covered(ds, s)
    ensures Covered(cs + ds, s) && AllVars(cs + ds) <= s
  {
  }

  class Search {
    const solver: YicesSolver
    var executionTag: nat

    /** The MPI constraints at hand, if kept from before, are those of the execution with that tag. */
    ghost predicate Cached(ex: Execution)
      reads this, solver
    {
      executionTag == ex.tag ==> MeansMpi(solver.constraintsMPI, ex.ranks, ex.worldSizes, ex.limits)
    }

    /** Executions are numbered from 1, so nothing is taken for kept at first. */
    constructor (solver: YicesSolver)
      ensures this.solver == solver && executionTag == 0
      ensures forall ex: Execution :: ex.tag >= 1 ==> Cached(ex)
    {
      this.solver, executionTag := solver, 0;
    }

    method SolveAtBranch(ex: Execution, branchIdx: nat) returns (next: Option<seq<int>>)
      requires branchIdx < |ex.constraints| && Correct(solver.solve) && Cached(ex)
      requires (forall v: Var :: v in ex.vars <==> v < |ex.vars|) && |ex.vars| <= |ex.inputs|
      requires Covered(ex.constraints, ex.vars.Keys)
      requires forall v :: v in ex.ranks || v in ex.worldSizes || v in ex.limits ==> v in ex.vars
      modifies this, solver, ex`constraints
      ensures ex.constraints == old(ex.constraints)
      ensures Cached(ex)
      ensures executionTag == if SeenBefore(ex.constraints, branchIdx) then old(executionTag) else ex.tag
      ensures executionTag == old(executionTag) ==> solver.constraintsMPI == old(solver.constraintsMPI)
      ensures next == Solved(solver.solve, ex.constraints, branchIdx, solver.constraintsMPI, ex.vars, ex.inputs)
    {
      hide Query, MeansMpi, AllVars, WithOld, Replaced, Covered, Component, Correct, VarsOf, AllHold;
      ghost var given := ex.constraints;
      var i := branchIdx - 1;
      while i >= 0
        invariant -1 <= i < branchIdx && forall j :: i < j < branchIdx ==> given[j] != given[branchIdx]
      {
        if EqualPred(ex.constraints[branchIdx], ex.constraints[i]) {
          return None;
        }
        i := i - 1;
      }
      ex.constraints := ex.constraints[branchIdx := NegatePred(ex.constraints[branchIdx])];
      var cs := new PredVector(ex.constraints[..branchIdx + 1]);
      if executionTag != ex.tag {
        executionTag := ex.tag;
        solver.GenerateConstraintsMPI(ex.ranks, ex.worldSizes, ex.limits);
      }
      assert cs.items == Flipped(given, branchIdx);
      ghost var all := cs.items + solver.constraintsMPI;
      FlippedVars(given, branchIdx, ex.vars.Keys);
      MpiCovered(solver.constraintsMPI, ex.ranks, ex.worldSizes, ex.limits, ex.vars.Keys);
      AppendCovered(cs.items, solver.constraintsMPI, ex.vars.Keys);
      var ok, soln := solver.IncrementalSolve(ex.inputs, ex.vars, cs);
      NegatedTwice(given[branchIdx]);
      ex.constraints := ex.constraints[branchIdx := NegatePred(ex.constraints[branchIdx])];
      assert ex.constraints == given;
      if ok {
        ghost var q := Query(solver.solve, ex.vars, all, NegatePred(given[branchIdx]));
        OldChangesNothing(q.value, AllVars(all), ex.inputs, ex.vars);
        var input := PutIn(ex.inputs, soln);
        next := Some(input);
      } else {
        next := None;
      }
    }
  }

  lemma NegatedTwice(p: Pred)
    ensures NegatePred(NegatePred(p)) == p
  {
    NegateComplements(p, Zero());
  }

  lemma FlippedVars(constraints: seq<Pred>, k: nat, s: set<Var>)
    requires k < |constraints| && Covered(constraints, s)
    ensures Covered(Flipped(constraints, k), s)
  {
    var cs := Flipped(constraints, k);
    forall i | 0 <= i < |cs|
      ensures VarsOf(cs[i]) <= s
    {
      assert constraints[i] in constraints;
      assert VarsOf(cs[i]) == VarsOf(constraints[i]);
    }
  }

  lemma MpiCovered(cs: seq<Pred>, ranks: seq<Var>, worldSizes: seq<Var>, limits: map<Var, int>, s: set<Var>)
    requires MeansMpi(cs, ranks, worldSizes, limits)
    requires forall v :: v in ranks || v in worldSizes || v in limits ==> v in s
    ensures Covered(cs, s)
  {
  }
}
