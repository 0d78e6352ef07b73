/**
  A run of

    i = 0; while (x > i) { i++; } if (x == 2) ...

  with x = 2, call by call, and an input that flips its last branch but never gets there.
 */
module LoopRun {
  import opened BasicTypes
  import opened FollowedPath
  import opened NextInput
  import opened NextRun
  import opened Options
  import opened PathCondition
  import opened PushedPath
  import opened Replay
  import opened Solver
  import opened SolverCode
  import opened SymbolicExpression
  import opened SymbolicInterpreter
  import opened SymbolicPath

  // ------------------------------------------------------------------------------------------------
  // Runs put together
  // ------------------------------------------------------------------------------------------------

  /** The calls lead from m to m' and push ys, and are linear. */
  ghost predicate Goes(c: Config, m: Machine, w: World, evs: seq<Event>, m': Machine, w': World, ys: seq<Pushed>) {
    && IsRun(c, m, w, evs) && (forall i :: 0 <= i < |evs| ==> !evs[i].RankOverwritten?)
    && After(c, m, w, evs) == m' && WorldAfter(c, m, w, evs) == w' && Pushes(c, m, w, evs) == ys
    && LinearRun(c, m, w, evs)
  }

  lemma OneCall(c: Config, m: Machine, w: World, ev: Event)
    requires Legal(m, ev) && Faithful(c, m, w, ev) && Linear(m, w, ev) && !ev.RankOverwritten?
    ensures Goes(c, m, w, [ev], Step(c, m, ev), NextWorld(c, m, w, ev), PushesOf(m, ev))
  {
    hide Step, NextWorld, Legal, Faithful, PushesOf, Linear;
    var m', w' := Step(c, m, ev), NextWorld(c, m, w, ev);
    assert [ev][1..] == [];
    assert IsRun(c, m', w', []) && After(c, m', w', []) == m' && WorldAfter(c, m', w', []) == w';
    assert Pushes(c, m', w', []) == [] && PushesOf(m, ev) + [] == PushesOf(m, ev);
    assert LinearRun(c, m', w', []);
    assert IsRun(c, m, w, [ev]);
  }

  /** A first call that can be made */
  ghost predicate Makes(c: Config, m: Machine, w: World, ev: Event) {
    Legal(m, ev) && Faithful(c, m, w, ev) && Linear(m, w, ev) && !ev.RankOverwritten?
  }

  lemma GoesFirst(c: Config, m: Machine, w: World, ev: Event, evs: seq<Event>, m': Machine, w': World, ys: seq<Pushed>)
    requires Makes(c, m, w, ev) && Goes(c, Step(c, m, ev), NextWorld(c, m, w, ev), evs, m', w', ys)
    ensures Goes(c, m, w, [ev] + evs, m', w', PushesOf(m, ev) + ys)
  {
    hide Step, NextWorld, Legal, Faithful, PushesOf, Linear;
    assert ([ev] + evs)[1..] == evs;
  }

  lemma GoesOn(c: Config, m: Machine, w: World, evs: seq<Event>, m': Machine, w': World, ys: seq<Pushed>)
    returns (rest: seq<Pushed>)
    requires evs != [] && Goes(c, m, w, evs, m', w', ys)
    ensures Makes(c, m, w, evs[0]) && ys == PushesOf(m, evs[0]) + rest
    ensures Goes(c, Step(c, m, evs[0]), NextWorld(c, m, w, evs[0]), evs[1..], m', w', rest)
  {
    hide Step, NextWorld, Legal, Faithful, PushesOf, Linear;
    rest := Pushes(c, Step(c, m, evs[0]), NextWorld(c, m, w, evs[0]), evs[1..]);
  }

  lemma NoCalls(c: Config, m: Machine, w: World, m': Machine, w': World, ys: seq<Pushed>)
    requires Goes(c, m, w, [], m', w', ys)
    ensures m' == m && w' == w && ys == []
  {
  }

  lemma {:induction false} Joined(c: Config, m: Machine, w: World, es: seq<Event>, m': Machine, w': World,
                                  ys: seq<Pushed>, fs: seq<Event>, m'': Machine, w'': World, zs: seq<Pushed>)
    requires Goes(c, m, w, es, m', w', ys) && Goes(c, m', w', fs, m'', w'', zs)
    ensures Goes(c, m, w, es + fs, m'', w'', ys + zs)
    decreases |es|
  {
    hide Goes, Step, NextWorld, Makes, PushesOf;
    if es == [] {
      NoCalls(c, m, w, m', w', ys);
      assert es + fs == fs && ys + zs == zs;
    } else {
      var rest := GoesOn(c, m, w, es, m', w', ys);
      MakesLegal(c, m, w, es[0]);
      var m1, w1 := Step(c, m, es[0]), NextWorld(c, m, w, es[0]);
      Joined(c, m1, w1, es[1..], m', w', rest, fs, m'', w'', zs);
      GoesFirst(c, m, w, es[0], es[1..] + fs, m'', w'', rest + zs);
      assert [es[0]] + (es[1..] + fs) == es + fs;
      assert (PushesOf(m, es[0]) + rest) + zs == PushesOf(m, es[0]) + (rest + zs);
    }
  }

  lemma MakesLegal(c: Config, m: Machine, w: World, ev: Event)
    requires Makes(c, m, w, ev)
    ensures Legal(m, ev)
  {
  }

  // ------------------------------------------------------------------------------------------------
  // The calls of the program: x is at 1, i at 2, constants at 0
  // ------------------------------------------------------------------------------------------------

  const X := Variable(1, 0)
  const VALUE_X := StackElem(Some(X), 2)

  /** x op n, for input 0 */
  function Test(op: CompareOp, n: int): Pred {
    Pred(op, MinusConst(X, n))
  }

  /** The machine between two statements, with a stack and a register */
  function At(p: Path, stack: seq<StackElem>, pred: Option<Pred>): Machine {
    Machine(stack, pred, false, map[1 := X], 1, [2], map[0 := BasicTypes.Int], map[], Roles([], [], [], []), p)
  }

  function WorldAt(i: int): World {
    map[1 := 2, 2 := i]
  }

  lemma LoadX(c: Config, p: Path, i: int, s: seq<StackElem>)
    ensures Goes(c, At(p, s, None), WorldAt(i), [Load(1, 2)], At(p, s + [VALUE_X], None), WorldAt(i), [])
  {
    hide Goes;
    OneCall(c, At(p, s, None), WorldAt(i), Load(1, 2));
  }

  /** Loading i, or a constant */
  lemma LoadPlain(c: Config, p: Path, i: int, s: seq<StackElem>, addr: Addr, n: int)
    requires addr == 0 || (addr == 2 && n == i)
    ensures Goes(c, At(p, s, None), WorldAt(i), [Load(addr, n)], At(p, s + [StackElem(None, n)], None), WorldAt(i), [])
  {
    hide Goes;
    OneCall(c, At(p, s, None), WorldAt(i), Load(addr, n));
  }

  lemma CompareX(c: Config, p: Path, i: int, op: CompareOp, n: int)
    ensures var v := if Compare(op, 2, n) then 1 else 0;
            Goes(c, At(p, [VALUE_X, StackElem(None, n)], None), WorldAt(i), [ApplyCompare(op, v)],
                 At(p, [StackElem(None, v)], Some(Test(op, n))), WorldAt(i), [])
  {
    hide Goes, Compare;
    var v := if Compare(op, 2, n) then 1 else 0;
    var m := At(p, [VALUE_X, StackElem(None, n)], None);
    assert 0 in MinusConst(X, n).coeff;
    assert m.stack[..0] + [StackElem(None, v)] == [StackElem(None, v)];
    OneCall(c, m, WorldAt(i), ApplyCompare(op, v));
  }

  /** What a test of x against n pushes */
  function PushOf(op: CompareOp, n: int, bid: BranchId): Pushed {
    if Compare(op, 2, n) then Pushed(bid, Some(Test(op, n)), TrueState)
    else Pushed(bid, Some(NegatePred(Test(op, n))), FalseState)
  }

  lemma BranchX(c: Config, p: Path, i: int, op: CompareOp, n: int, bid: BranchId)
    ensures var taken := Compare(op, 2, n);
            Goes(c, At(p, [StackElem(None, if taken then 1 else 0)], Some(Test(op, n))), WorldAt(i),
                 [Branch(bid, taken)],
                 At(PushStep(p, PushOf(op, n, bid)), [], None), WorldAt(i), [PushOf(op, n, bid)])
  {
    hide Goes, Compare, PushStep, NegatePred;
    var taken := Compare(op, 2, n);
    OneCall(c, At(p, [StackElem(None, if taken then 1 else 0)], Some(Test(op, n))), WorldAt(i), Branch(bid, taken));
  }

  /** if (x op n), where n is i or a constant */
  function TestCalls(op: CompareOp, addr: Addr, n: int, bid: BranchId): seq<Event> {
    [Load(1, 2)] + [Load(addr, n)] + [ApplyCompare(op, if Compare(op, 2, n) then 1 else 0)] +
    [Branch(bid, Compare(op, 2, n))]
  }

  lemma Testing(c: Config, p: Path, i: int, op: CompareOp, addr: Addr, n: int, bid: BranchId)
    requires addr == 0 || (addr == 2 && n == i)
    ensures Goes(c, At(p, [], None), WorldAt(i), TestCalls(op, addr, n, bid),
                 At(PushStep(p, PushOf(op, n, bid)), [], None), WorldAt(i), [PushOf(op, n, bid)])
  {
    hide Goes, Compare, PushStep, PushOf, At, WorldAt;
    var w, v := WorldAt(i), if Compare(op, 2, n) then 1 else 0;
    var x, k := VALUE_X, StackElem(None, n);
    assert [] + [x] == [x] && [x] + [k] == [x, k];
    LoadX(c, p, i, []);
    LoadPlain(c, p, i, [x], addr, n);
    CompareX(c, p, i, op, n);
    BranchX(c, p, i, op, n, bid);
    var m0, m1, m2 := At(p, [], None), At(p, [x], None), At(p, [x, k], None);
    var m3, m4 := At(p, [StackElem(None, v)], Some(Test(op, n))), At(PushStep(p, PushOf(op, n, bid)), [], None);
    Joined(c, m0, w, [Load(1, 2)], m1, w, [], [Load(addr, n)], m2, w, []);
    Joined(c, m0, w, [Load(1, 2)] + [Load(addr, n)], m2, w, [] + [], [ApplyCompare(op, v)], m3, w, []);
    Joined(c, m0, w, [Load(1, 2)] + [Load(addr, n)] + [ApplyCompare(op, v)], m3, w, [] + [] + [],
           [Branch(bid, Compare(op, 2, n))], m4, w, [PushOf(op, n, bid)]);
    assert [] + [] + [] + [PushOf(op, n, bid)] == [PushOf(op, n, bid)];
  }

  /** i++ */
  function CountCalls(i: int): seq<Event> {
    [Load(2, i)] + [Load(0, 1)] + [ApplyBinary(ADD, i + 1)] + [Store(2)]
  }

  lemma AddOne(c: Config, p: Path, i: int)
    ensures Goes(c, At(p, [StackElem(None, i), StackElem(None, 1)], None), WorldAt(i), [ApplyBinary(ADD, i + 1)],
                 At(p, [StackElem(None, i + 1)], None), WorldAt(i), [])
  {
    hide Goes;
    var m := At(p, [StackElem(None, i), StackElem(None, 1)], None);
    assert m.stack[..0] + [StackElem(None, i + 1)] == [StackElem(None, i + 1)];
    OneCall(c, m, WorldAt(i), ApplyBinary(ADD, i + 1));
    assert Step(c, m, ApplyBinary(ADD, i + 1)) == At(p, [StackElem(None, i + 1)], None);
  }

  /** Storing a concrete value in i */
  lemma StoreI(c: Config, p: Path, w: World, n: int)
    requires w[2 := n] == WorldAt(n)
    ensures Goes(c, At(p, [StackElem(None, n)], None), w, [Store(2)], At(p, [], None), WorldAt(n), [])
  {
    hide Goes;
    var m := At(p, [StackElem(None, n)], None);
    assert m.mem - {2} == m.mem && Popped(m) == [];
    assert Step(c, m, Store(2)) == At(p, [], None);
    OneCall(c, m, w, Store(2));
  }

  lemma SetI(i: int)
    ensures WorldAt(i)[2 := i + 1] == WorldAt(i + 1)
  {
  }

  lemma NothingPushed()
    ensures var none: seq<Pushed> := []; none + none == none
  {
  }

  lemma Counting(c: Config, p: Path, i: int)
    ensures Goes(c, At(p, [], None), WorldAt(i), CountCalls(i), At(p, [], None), WorldAt(i + 1), [])
  {
    hide Goes, At, WorldAt;
    var w, a, b := WorldAt(i), StackElem(None, i), StackElem(None, 1);
    assert [] + [a] == [a] && [a] + [b] == [a, b];
    LoadPlain(c, p, i, [], 2, i);
    LoadPlain(c, p, i, [a], 0, 1);
    AddOne(c, p, i);
    assert w[2 := i + 1] == WorldAt(i + 1) by {
      SetI(i);
    }
    StoreI(c, p, w, i + 1);
    var m0, m1, m2 := At(p, [], None), At(p, [a], None), At(p, [a, b], None);
    var m3 := At(p, [StackElem(None, i + 1)], None);
    Joined(c, m0, w, [Load(2, i)], m1, w, [], [Load(0, 1)], m2, w, []);
    Joined(c, m0, w, [Load(2, i)] + [Load(0, 1)], m2, w, [] + [], [ApplyBinary(ADD, i + 1)], m3, w, []);
    Joined(c, m0, w, [Load(2, i)] + [Load(0, 1)] + [ApplyBinary(ADD, i + 1)], m3, w, [] + [] + [],
           [Store(2)], m0, WorldAt(i + 1), []);
    NothingPushed();
  }

  /** Marking x, which is given as 2, and i = 0 */
  const START_CALLS := [NewInput(Plain(0), BasicTypes.Int, 1, None)] + [Load(0, 0)] + [Store(2)]

  lemma Starting(c: Config)
    ensures Goes(c, Initial([2]), map[], START_CALLS, At(EMPTY_PATH, [], None), WorldAt(0), [])
  {
    hide Goes;
    var mark, w, k := NewInput(Plain(0), BasicTypes.Int, 1, None), map[1 := 2], StackElem(None, 0);
    var m1, m2 := At(EMPTY_PATH, [], None), At(EMPTY_PATH, [k], None);
    OneCall(c, Initial([2]), map[], mark);
    OneCall(c, m1, w, Load(0, 0));
    assert [] + [k] == [k];
    StoreI(c, EMPTY_PATH, w, 0);
    Joined(c, Initial([2]), map[], [mark], m1, w, [], [Load(0, 0)], m2, w, []);
    Joined(c, Initial([2]), map[], [mark] + [Load(0, 0)], m2, w, [] + [], [Store(2)], m1, WorldAt(0), []);
    NothingPushed();
  }

  // ------------------------------------------------------------------------------------------------
  // The whole run
  // ------------------------------------------------------------------------------------------------

  /** Two rounds of the loop, the test that leaves it, and the one after it */
  const CALLS :=
    START_CALLS + TestCalls(GT, 2, 0, 1) + CountCalls(0) + TestCalls(GT, 2, 1, 1) + CountCalls(1) +
    TestCalls(GT, 2, 2, 2) + TestCalls(EQ, 0, 2, 3)

  const PUSHED := [PushOf(GT, 0, 1), PushOf(GT, 1, 1), PushOf(GT, 2, 2), PushOf(EQ, 2, 3)]

  const P1 := PushStep(EMPTY_PATH, PUSHED[0])
  const P2 := PushStep(P1, PUSHED[1])
  const P3 := PushStep(P2, PUSHED[2])
  const P4 := PushStep(P3, PUSHED[3])

  lemma WholeRun(c: Config)
    ensures Goes(c, Initial([2]), map[], CALLS, At(P4, [], None), WorldAt(2), PUSHED)
  {
    hide Goes, At, WorldAt, PushStep, PushOf, TestCalls, CountCalls, Initial;
    var m, m0 := Initial([2]), At(EMPTY_PATH, [], None);
    var m1, m2, m3, m4 := At(P1, [], None), At(P2, [], None), At(P3, [], None), At(P4, [], None);
    var none: seq<Pushed> := [];
    Starting(c);
    Testing(c, EMPTY_PATH, 0, GT, 2, 0, 1);
    Counting(c, P1, 0);
    Testing(c, P1, 1, GT, 2, 1, 1);
    Counting(c, P2, 1);
    Testing(c, P2, 2, GT, 2, 2, 2);
    Testing(c, P3, 2, EQ, 0, 2, 3);
    var es := START_CALLS;
    Joined(c, m, map[], es, m0, WorldAt(0), none, TestCalls(GT, 2, 0, 1), m1, WorldAt(0), [PUSHED[0]]);
    es := es + TestCalls(GT, 2, 0, 1);
    Joined(c, m, map[], es, m1, WorldAt(0), none + [PUSHED[0]], CountCalls(0), m1, WorldAt(1), none);
    es := es + CountCalls(0);
    var ys := none + [PUSHED[0]] + none;
    Joined(c, m, map[], es, m1, WorldAt(1), ys, TestCalls(GT, 2, 1, 1), m2, WorldAt(1), [PUSHED[1]]);
    es := es + TestCalls(GT, 2, 1, 1);
    Joined(c, m, map[], es, m2, WorldAt(1), ys + [PUSHED[1]], CountCalls(1), m2, WorldAt(2), none);
    es := es + CountCalls(1);
    ys := ys + [PUSHED[1]] + none;
    Joined(c, m, map[], es, m2, WorldAt(2), ys, TestCalls(GT, 2, 2, 2), m3, WorldAt(2), [PUSHED[2]]);
    es := es + TestCalls(GT, 2, 2, 2);
    Joined(c, m, map[], es, m3, WorldAt(2), ys + [PUSHED[2]], TestCalls(EQ, 0, 2, 3), m4, WorldAt(2), [PUSHED[3]]);
    assert ys + [PUSHED[2]] + [PUSHED[3]] == PUSHED;
  }

  // ------------------------------------------------------------------------------------------------
  // Its last branch
  // ------------------------------------------------------------------------------------------------

  lemma TestHolds(op: CompareOp, n: int, x: int)
    ensures Holds(Test(op, n), In([x])) <==> Compare(op, x, n)
    ensures Holds(NegatePred(Test(op, n)), In([x])) <==> !Compare(op, x, n)
  {
    hide Eval, Proper, NegatePred;
    VariableOk(0, [x]);
    ShiftOk(X, n, 1, In([x]));
    NegateComplements(Test(op, n), In([x]));
  }

  /** The test in the second round is not recorded. */
  lemma LoopPath()
    ensures P2 == Path([1, 1], [Test(GT, 0)], [0], map[1 := TrueState], {})
  {
    hide Test, NegatePred;
  }

  lemma LastPath()
    ensures P4.constraints == [Test(GT, 0), NegatePred(Test(GT, 2)), Test(EQ, 2)] && P4.constraintsIdx == [0, 2, 3]
  {
    hide Test, NegatePred, P1, P2;
    LoopPath();
    assert PUSHED[2] == Pushed(2, Some(NegatePred(Test(GT, 2))), FalseState);
    assert PUSHED[3] == Pushed(3, Some(Test(EQ, 2)), TrueState);
  }

  /** The inputs of the run meet all that it pushes. */
  lemma OwnPath()
    ensures TakesPath(PUSHED, |PUSHED|, In([2]))
  {
    hide Test, NegatePred, Holds;
    TestHolds(GT, 0, 2);
    TestHolds(GT, 1, 2);
    TestHolds(GT, 2, 2);
    TestHolds(EQ, 2, 2);
  }

  /** The machine after the run, as far as solving is concerned */
  predicate IsLast(m: Machine) {
    && m.path.constraints == [Test(GT, 0), NegatePred(Test(GT, 2)), Test(EQ, 2)]
    && m.vars == map[0 := BasicTypes.Int] && m.limits == map[] && m.inputs == [2]
    && m.roles == Roles([], [], [], [])
  }

  lemma LastIs()
    ensures IsLast(At(P4, [], None))
  {
    hide P4, Test, NegatePred;
    LastPath();
  }

  lemma OnlyOneFlips(m: Machine, x: int)
    requires IsLast(m)
    ensures Flips(m, 2, In([x])) <==> x == 1
  {
    hide Test, NegatePred, Holds;
    TestHolds(GT, 0, x);
    TestHolds(GT, 2, x);
    TestHolds(EQ, 2, x);
    var before := m.path.constraints[..2];
    assert before == [Test(GT, 0), NegatePred(Test(GT, 2))];
    assert before[0] in before && before[1] in before;
  }

  lemma LastSupplies(m: Machine)
    requires IsLast(m)
    ensures Supplies(m, 2, [])
  {
    hide Test, NegatePred;
  }

  /** The second test of the loop fails with x = 1. */
  lemma OneLeavesEarlier()
    ensures !TakesPath(PUSHED, 3, In([1]))
  {
    hide Test, NegatePred, Holds;
    TestHolds(GT, 1, 1);
    assert !PushHolds(PUSHED, 1, In([1]));
  }

  /** The run is legal and faithful, its inputs lead to its last branch and meet all of its path.  Yet the only inputs
      that any correct solver returns to flip that branch are x = 1, with which the program leaves the loop a round
      earlier: the constraint x - 1 > 0 was not recorded. */
  lemma FlipLeavesLoop(c: Config, solve: Oracle)
    requires Correct(solve)
    ensures IsRun(c, Initial([2]), map[], CALLS) && LinearRun(c, Initial([2]), map[], CALLS)
    ensures PushesRight(c, Initial([2]), map[], CALLS, false)
    ensures var m, xs := After(c, Initial([2]), map[], CALLS), Pushes(c, Initial([2]), map[], CALLS);
            && m.inputs == [2] && |m.path.constraints| == 3 && Supplies(m, 2, []) && LeadsTo(m, xs, 2, In([2]))
            && Solved(solve, m.path.constraints, 2, [], m.vars, m.inputs) == Some([1])
            && !LeadsTo(m, xs, 2, In([1])) && m.path.constraintsIdx == [0, 2, 3]
            && !TurnsAt(Concrete([], map[], 0, false), CALLS, 3, In([1]))
  {
    hide Correct, Solved, IsRun, LinearRun, TurnsAt, After, Pushes, TakesPath, Flips, Supplies, Initial, CALLS;
    hide PushesRight, RecordsRight;
    hide Test, PushOf, NegatePred;
    WholeRun(c);
    GoesParts(c, Initial([2]), map[], CALLS, At(P4, [], None), WorldAt(2), PUSHED);
    var m := At(P4, [], None);
    LastIs();
    LastSupplies(m);
    LastPath();
    OwnPath();
    WholePathTrue(c, [2], map[], CALLS);
    OwnInputsLead(c, [2], map[], CALLS, 2);
    SuppliesParts(m, 2, []);
    RunFlipsBranch(c, [2], map[], CALLS, solve, 2, []);
    OnlyOneFlips(m, 1);
    var r := Solved(solve, m.path.constraints, 2, [], m.vars, m.inputs);
    assert r.value == [r.value[0]];
    OnlyOneFlips(m, r.value[0]);
    OneLeavesEarlier();
    LeadingTurns(c, [2], map[], CALLS, 2, In([1]));
  }

  lemma GoesParts(c: Config, m: Machine, w: World, evs: seq<Event>, m': Machine, w': World, ys: seq<Pushed>)
    requires Goes(c, m, w, evs, m', w', ys)
    ensures IsRun(c, m, w, evs) && After(c, m, w, evs) == m' && Pushes(c, m, w, evs) == ys && LinearRun(c, m, w, evs)
  {
  }

  lemma SuppliesParts(m: Machine, k: nat, mpi: seq<Pred>)
    requires Supplies(m, k, mpi)
    ensures k < |m.path.constraints|
    ensures MeansMpi(mpi, m.roles.ranks, m.roles.worldSizes, m.limits) && Admissible(m)
  {
  }
}
