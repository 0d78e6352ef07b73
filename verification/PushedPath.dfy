/**
  The whole path of a run: every constraint that a branch pushes, of which only some are recorded, and when all of
  them are true of the inputs.
 */
module PushedPath {
  import opened BasicTypes
  import opened Options
  import opened PathCondition
  import opened SymbolicExpression
  import opened SymbolicInterpreter
  import opened SymbolicPath

  // ------------------------------------------------------------------------------------------------
  // What a run pushes
  // ------------------------------------------------------------------------------------------------

  function PushesOf(m: Machine, ev: Event): seq<Pushed> {
    if !ev.Branch? then []
    else
      var constraint := if m.pred.Some? && !ev.taken then Some(NegatePred(m.pred.value)) else m.pred;
      [Pushed(ev.bid, constraint, StateOf(ev.taken))]
  }

  ghost function Pushes(c: Config, m: Machine, w: World, evs: seq<Event>): seq<Pushed>
    requires IsRun(c, m, w, evs)
    decreases |evs|
  {
    if evs == [] then []
    else
      PushesOf(m, evs[0]) + Pushes(c, Step(c, m, evs[0]), NextWorld(c, m, w, evs[0]), evs[1..])
  }

  /** The path of the machine is that of the pushes so far. */
  ghost predicate PathIs(m: Machine, xs: seq<Pushed>) {
    m.path == PathOf(xs).(branchSet := m.path.branchSet)
  }

  lemma StepPushes(c: Config, m: Machine, ev: Event, xs: seq<Pushed>)
    requires Legal(m, ev) && PathIs(m, xs)
    ensures PathIs(Step(c, m, ev), xs + PushesOf(m, ev))
  {
    hide BinaryExpr, Difference, Negate, InputValue;
    if ev.Branch? {
      var x := PushesOf(m, ev)[0];
      assert PushesOf(m, ev) == [x];
      PathOfMore(xs, x);
      PushIgnoresIds(PathOf(xs), x, m.path.branchSet);
      assert Step(c, m, ev).path == PushStep(m.path, x);
    } else {
      assert xs + PushesOf(m, ev) == xs;
    }
  }

  lemma PushIgnoresIds(p: Path, x: Pushed, ids: set<BranchId>)
    ensures PushStep(p.(branchSet := ids), x) == PushStep(p, x).(branchSet := ids)
  {
  }

  lemma PathOfMore(xs: seq<Pushed>, x: Pushed)
    ensures PathOf(xs + [x]) == PushStep(PathOf(xs), x)
  {
    assert (xs + [x])[..|xs|] == xs;
  }

  lemma {:induction false} RunPushes(c: Config, m: Machine, w: World, evs: seq<Event>, xs: seq<Pushed>)
    requires IsRun(c, m, w, evs) && PathIs(m, xs)
    ensures PathIs(After(c, m, w, evs), xs + Pushes(c, m, w, evs))
    decreases |evs|
  {
    hide PathIs, Step, NextWorld, Legal, Faithful, PushesOf;
    if evs == [] {
      assert xs + [] == xs;
    } else {
      var first, m', w' := PushesOf(m, evs[0]), Step(c, m, evs[0]), NextWorld(c, m, w, evs[0]);
      StepPushes(c, m, evs[0], xs);
      RunPushes(c, m', w', evs[1..], xs + first);
      assert (xs + first) + Pushes(c, m', w', evs[1..]) == xs + (first + Pushes(c, m', w', evs[1..]));
    }
  }

  /** The path that a run records is the reduction of what it pushes. */
  lemma RunRecords(c: Config, given: seq<int>, w: World, evs: seq<Event>)
    requires IsRun(c, Initial(given), w, evs)
    ensures PathIs(After(c, Initial(given), w, evs), Pushes(c, Initial(given), w, evs))
  {
    hide IsRun, After, Pushes, PathOf;
    PathStarts(given);
    RunPushes(c, Initial(given), w, evs, []);
    assert [] + Pushes(c, Initial(given), w, evs) == Pushes(c, Initial(given), w, evs);
  }

  lemma PathStarts(given: seq<int>)
    ensures PathIs(Initial(given), [])
  {
  }

  // ------------------------------------------------------------------------------------------------
  // When all of it is true of the inputs
  // ------------------------------------------------------------------------------------------------

  /** Push i had a constraint, and it holds. */
  ghost predicate PushHolds(xs: seq<Pushed>, i: nat, a: Assignment)
    requires i < |xs|
  {
    xs[i].constraint.Some? ==> Holds(xs[i].constraint.value, a)
  }

  /** The path up to push j is taken. */
  ghost predicate TakesPath(xs: seq<Pushed>, j: nat, a: Assignment)
    requires j <= |xs|
  {
    forall i: nat :: i < j ==> PushHolds(xs, i, a)
  }

  /** Whatever was pushed is over the first n inputs. */
  ghost predicate PushedOver(xs: seq<Pushed>, n: nat) {
    forall i :: 0 <= i < |xs| && xs[i].constraint.Some? ==> Proper(xs[i].constraint.value.expr, n)
  }

  /** No branch of the run comes with the register set while it is inverted, whether its constraint is kept or not. */
  ghost predicate PushesRight(c: Config, m: Machine, w: World, evs: seq<Event>, inverted: bool)
    requires IsRun(c, m, w, evs)
    decreases |evs|
  {
    evs != [] ==>
      && !(inverted && evs[0].Branch? && m.pred.Some?)
      && PushesRight(c, Step(c, m, evs[0]), NextWorld(c, m, w, evs[0]), evs[1..], Inverted(m, evs[0], inverted))
  }

  /** Inputs that agree on the first n take the same path as far as it is over these. */
  lemma SamePath(xs: seq<Pushed>, n: nat, before: seq<int>, after: seq<int>)
    requires PushedOver(xs, n) && SameBelow(n, before, after)
    ensures TakesPath(xs, |xs|, In(before)) <==> TakesPath(xs, |xs|, In(after))
  {
    hide Eval, Proper, In;
    forall i: nat | i < |xs|
      ensures PushHolds(xs, i, In(before)) <==> PushHolds(xs, i, In(after))
    {
    }
  }

  lemma LaterPushed(xs: seq<Pushed>, n: nat, k: nat)
    requires PushedOver(xs, n) && n <= k
    ensures PushedOver(xs, k)
  {
    hide Canonical;
  }

  /** One more push */
  lemma PathGrowsBy(xs: seq<Pushed>, x: Pushed, n: nat, a: Assignment)
    requires PushedOver(xs, n) && (x.constraint.Some? ==> Proper(x.constraint.value.expr, n))
    ensures PushedOver(xs + [x], n)
    ensures TakesPath(xs + [x], |xs| + 1, a) <==>
              TakesPath(xs, |xs|, a) && (x.constraint.Some? ==> Holds(x.constraint.value, a))
  {
    hide Proper, Holds;
    var ys := xs + [x];
    assert ys[|xs|] == x;
    assert forall i :: 0 <= i < |xs| ==> ys[i] == xs[i];
    forall i: nat | i < |xs|
      ensures PushHolds(ys, i, a) <==> PushHolds(xs, i, a)
    {
    }
    assert PushHolds(ys, |xs|, a) <==> (x.constraint.Some? ==> Holds(x.constraint.value, a));
  }

  lemma BranchPushed(c: Config, m: Machine, w: World, ev: Event, xs: seq<Pushed>, inverted: bool)
    requires ev.Branch? && Shadows(m, w, inverted) && Faithful(c, m, w, ev) && PushedOver(xs, m.numInputs)
    ensures var ys := xs + PushesOf(m, ev);
            && PushedOver(ys, m.numInputs)
            && (TakesPath(ys, |ys|, In(m.inputs)) <==>
                  TakesPath(xs, |xs|, In(m.inputs)) && !(inverted && m.pred.Some?))
  {
    hide Holds, Proper, InputsOk, MemOk, StackOk, PathOk, PredOk, NegatePred, PushedOver, TakesPath, In, IsConcrete;
    var x := PushesOf(m, ev)[0];
    assert PushesOf(m, ev) == [x];
    if m.pred.Some? {
      BranchConstraint(m, w, ev, c, inverted);
    }
    PathGrowsBy(xs, x, m.numInputs, In(m.inputs));
  }

  lemma StepPushed(c: Config, m: Machine, w: World, ev: Event, xs: seq<Pushed>, inverted: bool)
    requires Shadows(m, w, inverted) && Legal(m, ev) && Faithful(c, m, w, ev) && PushedOver(xs, m.numInputs)
    requires ev.RankOverwritten? ==> PushedOver(xs, m.numInputs - 1)
    ensures var m', ys := Step(c, m, ev), xs + PushesOf(m, ev);
            && PushedOver(ys, m'.numInputs) && (ev.NewInput? ==> PushedOver(ys, m'.numInputs - 1))
            && (TakesPath(ys, |ys|, In(m'.inputs)) <==>
                  TakesPath(xs, |xs|, In(m.inputs)) && !(inverted && ev.Branch? && m.pred.Some?))
  {
    hide Shadows, Faithful, PushedOver, TakesPath, SameBelow, InputValue, In;
    var m' := Step(c, m, ev);
    if ev.Branch? {
      OthersKeepInputs(c, m, ev);
      BranchPushed(c, m, w, ev, xs, inverted);
    } else {
      assert xs + PushesOf(m, ev) == xs;
      if ev.NewInput? {
        ShadowsInputs(m, w, inverted);
        NextInputKeeps(c, m, ev.kind, ev.typ);
        NewInputCounts(c, m, ev);
        NewInputValue(c, m, ev);
        SamePath(xs, m.numInputs, m.inputs, m'.inputs);
        LaterPushed(xs, m.numInputs, m'.numInputs);
      } else if ev.RankOverwritten? {
        PrefixSame(m.numInputs - 1, m.inputs, m'.inputs);
        SamePath(xs, m.numInputs - 1, m.inputs, m'.inputs);
      } else {
        OthersKeepInputs(c, m, ev);
      }
    }
  }

  lemma ShadowsInputs(m: Machine, w: World, inverted: bool)
    requires Shadows(m, w, inverted)
    ensures m.numInputs <= |m.inputs|
  {
    hide MemOk, StackOk, PathOk, PredOk;
  }

  lemma NewInputValue(c: Config, m: Machine, ev: Event)
    requires ev.NewInput?
    ensures Step(c, m, ev).inputs == InputValue(c, m, ev.kind, ev.typ).1
  {
    hide InputValue;
  }

  /** Over any run, the whole path is true of the inputs exactly if what was pushed before was and no branch comes with
      the register set while it is inverted. */
  lemma {:induction false} RunPushesTrue(c: Config, m: Machine, w: World, evs: seq<Event>, xs: seq<Pushed>,
                                         inverted: bool)
    requires Shadows(m, w, inverted) && IsRun(c, m, w, evs) && PushedOver(xs, m.numInputs)
    requires evs != [] && evs[0].RankOverwritten? ==> PushedOver(xs, m.numInputs - 1)
    ensures var m', ys := After(c, m, w, evs), xs + Pushes(c, m, w, evs);
            TakesPath(ys, |ys|, In(m'.inputs)) <==>
              TakesPath(xs, |xs|, In(m.inputs)) && PushesRight(c, m, w, evs, inverted)
    decreases |evs|
  {
    hide Shadows, Follows, Legal, Step, NextWorld, Faithful, Inverted, PushesOf, PushedOver, TakesPath, In;
    if evs == [] {
      assert xs + [] == xs;
    } else {
      var first, m', w' := PushesOf(m, evs[0]), Step(c, m, evs[0]), NextWorld(c, m, w, evs[0]);
      StepPushed(c, m, w, evs[0], xs, inverted);
      StepFollows(c, m, w, evs[0], inverted);
      FollowsParts(c, m, w, evs[0], inverted);
      RunPushesTrue(c, m', w', evs[1..], xs + first, Inverted(m, evs[0], inverted));
      assert (xs + first) + Pushes(c, m', w', evs[1..]) == xs + (first + Pushes(c, m', w', evs[1..]));
    }
  }

  /** The inputs of a run meet every constraint on its path, recorded or not, exactly if no branch comes with the
      register set while it is inverted. */
  lemma WholePathTrue(c: Config, given: seq<int>, w: World, evs: seq<Event>)
    requires IsRun(c, Initial(given), w, evs)
    ensures var m, xs := After(c, Initial(given), w, evs), Pushes(c, Initial(given), w, evs);
            TakesPath(xs, |xs|, In(m.inputs)) <==> PushesRight(c, Initial(given), w, evs, false)
  {
    hide IsRun, After, Pushes, PushesRight, Shadows, PathTrue, In, Sound;
    InitialSound(given, w);
    SoundParts(Initial(given), w);
    StartsAtNone(c, given, w, evs);
    RunPushesTrue(c, Initial(given), w, evs, [], false);
    assert [] + Pushes(c, Initial(given), w, evs) == Pushes(c, Initial(given), w, evs);
  }

  lemma StartsAtNone(c: Config, given: seq<int>, w: World, evs: seq<Event>)
    requires IsRun(c, Initial(given), w, evs)
    ensures evs != [] ==> !evs[0].RankOverwritten?
  {
  }

  /** Then the recorded constraints are true as well. */
  lemma {:induction false} PushesRecordRight(c: Config, m: Machine, w: World, evs: seq<Event>, inverted: bool)
    requires IsRun(c, m, w, evs) && PushesRight(c, m, w, evs, inverted)
    ensures RecordsRight(c, m, w, evs, inverted)
    decreases |evs|
  {
    hide Step, NextWorld, Legal, Faithful, Inverted;
    if evs != [] {
      PushesRecordRight(c, Step(c, m, evs[0]), NextWorld(c, m, w, evs[0]), evs[1..], Inverted(m, evs[0], inverted));
    }
  }

  // ------------------------------------------------------------------------------------------------
  // The set of branches
  // ------------------------------------------------------------------------------------------------

  /** Calls, returns and branches without a constraint go to the set of branches: calls as -1, returns as -2. */
  function IdsOf(ev: Event): set<BranchId> {
    match ev
    case Call => {-1}
    case Return => {-2}
    case BranchOnly(bid) => {bid}
    case _ => {}
  }

  lemma StepIds(c: Config, m: Machine, ev: Event)
    requires Legal(m, ev)
    ensures Step(c, m, ev).path.branchSet == m.path.branchSet + IdsOf(ev)
  {
    hide BinaryExpr, Difference, Negate, InputValue, IsConcrete, NegatePred, Variable;
  }

  /** Nothing else does, and nothing is taken out. */
  lemma {:induction false} SetOfBranches(c: Config, m: Machine, w: World, evs: seq<Event>, id: BranchId)
    requires IsRun(c, m, w, evs)
    ensures id in After(c, m, w, evs).path.branchSet <==>
              id in m.path.branchSet || exists i :: 0 <= i < |evs| && id in IdsOf(evs[i])
    decreases |evs|
  {
    hide Step, NextWorld, Legal, Faithful, IdsOf;
    if evs != [] {
      var rest := evs[1..];
      StepIds(c, m, evs[0]);
      SetOfBranches(c, Step(c, m, evs[0]), NextWorld(c, m, w, evs[0]), rest, id);
      if i :| 0 <= i < |evs| && id in IdsOf(evs[i]) {
        assert i > 0 ==> rest[i - 1] == evs[i];
      }
      if i :| 0 <= i < |rest| && id in IdsOf(rest[i]) {
        assert evs[i + 1] == rest[i];
      }
    }
  }
}
