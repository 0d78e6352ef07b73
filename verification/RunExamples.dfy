/** Two runs whose recorded path condition is false of the inputs that produced it. */
module RunExamples {
  import opened BasicTypes
  import opened Options
  import opened PathCondition
  import opened SymbolicExpression
  import opened SymbolicInterpreter
  import opened SymbolicPath

  /** The machines and worlds that a run goes through */
  ghost predicate Trail(c: Config, ms: seq<Machine>, ws: seq<World>, evs: seq<Event>) {
    && |ms| == |ws| == |evs| + 1
    && (forall i: nat :: i < |evs| ==> Stage(c, ms[i], ws[i], evs[i], ms[i + 1], ws[i + 1]))
    && forall i :: 0 <= i < |evs| ==> !evs[i].RankOverwritten?
  }

  ghost predicate Stage(c: Config, m: Machine, w: World, ev: Event, m': Machine, w': World) {
    Legal(m, ev) && Faithful(c, m, w, ev) && m' == Step(c, m, ev) && w' == NextWorld(c, m, w, ev)
  }

  lemma {:induction false} TrailIsRun(c: Config, ms: seq<Machine>, ws: seq<World>, evs: seq<Event>)
    requires Trail(c, ms, ws, evs)
    ensures IsRun(c, ms[0], ws[0], evs) && After(c, ms[0], ws[0], evs) == ms[|evs|]
    decreases |evs|
  {
    hide Step, Legal, Faithful, NextWorld;
    if evs != [] {
      assert Stage(c, ms[0], ws[0], evs[0], ms[1], ws[1]);
      forall i: nat | i < |evs[1..]|
        ensures Stage(c, ms[1..][i], ws[1..][i], evs[1..][i], ms[1..][i + 1], ws[1..][i + 1])
      {
        assert Stage(c, ms[i + 1], ws[i + 1], evs[i + 1], ms[i + 2], ws[i + 2]);
      }
      TrailIsRun(c, ms[1..], ws[1..], evs[1..]);
    }
  }

  /** x is marked as input 0 and is 1; the predicate x > 0 is then true. */
  const X := Variable(1, 0)
  const POSITIVE := Pred(GT, MinusConst(X, 0))
  const WORLD: World := map[0 := 1]
  const MARK := NewInput(Plain(1), BasicTypes.Int, 0, None)

  /** The machine after marking x, with a stack and a register */
  function At(stack: seq<StackElem>, pred: Option<Pred>): Machine {
    Machine(stack, pred, false, map[0 := X], 1, [1], map[0 := BasicTypes.Int], map[], Roles([], [], [], []), EMPTY_PATH)
  }

  lemma Marking(c: Config)
    ensures Stage(c, Initial([]), map[], MARK, At([], None), WORLD)
  {
  }

  lemma LoadingX(c: Config, s: seq<StackElem>)
    ensures Stage(c, At(s, None), WORLD, Load(0, 1), At(s + [StackElem(Some(X), 1)], None), WORLD)
  {
  }

  lemma LoadingZero(c: Config, s: seq<StackElem>)
    ensures Stage(c, At(s, None), WORLD, Load(1, 0), At(s + [StackElem(None, 0)], None), WORLD)
  {
  }

  lemma Comparing(c: Config, s: seq<StackElem>)
    ensures Stage(c, At(s + [StackElem(Some(X), 1), StackElem(None, 0)], None), WORLD, ApplyCompare(GT, 1),
                  At(s + [StackElem(None, 1)], Some(POSITIVE)), WORLD)
  {
    var t := s + [StackElem(Some(X), 1), StackElem(None, 0)];
    assert t[..|t| - 2] == s && t[|t| - 2] == StackElem(Some(X), 1) && t[|t| - 1] == StackElem(None, 0);
    assert 0 in X.coeff;
  }

  lemma OneIsPositive()
    ensures !Holds(Pred(LE, MinusConst(X, 0)), In([1]))
  {
    hide Eval, MinusConst, Variable, Proper;
    VariableOk(0, [1]);
    ShiftOk(X, 0, 1, In([1]));
  }

  /** A branch not taken, with the register still x > 0 */
  lemma Branching(c: Config, m': Machine)
    requires m' == Step(c, At([StackElem(None, 0)], Some(POSITIVE)), Branch(7, false))
    ensures Stage(c, At([StackElem(None, 0)], Some(POSITIVE)), WORLD, Branch(7, false), m', WORLD)
    ensures m'.inputs == [1] && m'.path.constraints == [Pred(LE, MinusConst(X, 0))]
    ensures !Holds(Pred(LE, MinusConst(X, 0)), In([1]))
  {
    hide Eval, Holds;
    OneIsPositive();
  }

  lemma Negating(c: Config)
    ensures Stage(c, At([StackElem(None, 1)], Some(POSITIVE)), WORLD, ApplyUnary(LOGICAL_NOT, 0),
                  At([StackElem(None, 0)], Some(POSITIVE)), WORLD)
  {
  }

  lemma ComparingConcrete(c: Config)
    ensures Stage(c, At([StackElem(None, 0), StackElem(None, 1)], Some(POSITIVE)), WORLD, ApplyCompare(EQ, 0),
                  At([StackElem(None, 0)], Some(POSITIVE)), WORLD)
  {
  }

  /** The run of the calls records one constraint, which is false of the inputs. */
  ghost predicate RecordsFalse(c: Config, evs: seq<Event>) {
    && IsRun(c, Initial([]), map[], evs)
    && var m := After(c, Initial([]), map[], evs);
       m.inputs == [1] && |m.path.constraints| == 1 && !Holds(m.path.constraints[0], In(m.inputs))
  }

  /** if (!(x > 0)) with x = 1: the run is legal and faithful and records that x <= 0. */
  lemma NotRecordsFalse(c: Config)
    ensures RecordsFalse(c, [MARK, Load(0, 1), Load(1, 0), ApplyCompare(GT, 1), ApplyUnary(LOGICAL_NOT, 0),
                             Branch(7, false)])
  {
    hide Stage, At, Step, IsRun, After, Holds, Initial;
    var x, zero := StackElem(Some(X), 1), StackElem(None, 0);
    var last := Step(c, At([zero], Some(POSITIVE)), Branch(7, false));
    var ms := [Initial([]), At([], None), At([x], None), At([x, zero], None), At([StackElem(None, 1)], Some(POSITIVE)),
               At([zero], Some(POSITIVE)), last];
    var evs := [MARK, Load(0, 1), Load(1, 0), ApplyCompare(GT, 1), ApplyUnary(LOGICAL_NOT, 0), Branch(7, false)];
    Marking(c);
    assert [] + [x] == [x] && [x] + [zero] == [x, zero] && [] + [x, zero] == [x, zero];
    assert [] + [StackElem(None, 1)] == [StackElem(None, 1)];
    LoadingX(c, []);
    LoadingZero(c, [x]);
    Comparing(c, []);
    Negating(c);
    Branching(c, last);
    TrailIsRun(c, ms, [map[], WORLD, WORLD, WORLD, WORLD, WORLD, WORLD], evs);
  }

  /** if (0 == (x > 0)) with x = 1: the comparison of two concrete values leaves x > 0 in the register, and the run
      records that x <= 0. */
  lemma CompareRecordsFalse(c: Config)
    ensures RecordsFalse(c, [MARK, Load(1, 0), Load(0, 1), Load(1, 0), ApplyCompare(GT, 1), ApplyCompare(EQ, 0),
                             Branch(7, false)])
  {
    hide Stage, At, Step, IsRun, After, Holds, Initial, Faithful, NextWorld;
    var x, zero := StackElem(Some(X), 1), StackElem(None, 0);
    var last := Step(c, At([zero], Some(POSITIVE)), Branch(7, false));
    var ms := [Initial([]), At([], None), At([zero], None), At([zero, x], None), At([zero, x, zero], None),
               At([zero, StackElem(None, 1)], Some(POSITIVE)), At([zero], Some(POSITIVE)), last];
    var evs := [MARK, Load(1, 0), Load(0, 1), Load(1, 0), ApplyCompare(GT, 1), ApplyCompare(EQ, 0), Branch(7, false)];
    Marking(c);
    assert [] + [zero] == [zero] && [zero] + [x] == [zero, x] && [zero, x] + [zero] == [zero, x, zero];
    assert [zero] + [x, zero] == [zero, x, zero] && [zero] + [StackElem(None, 1)] == [zero, StackElem(None, 1)];
    LoadingZero(c, []);
    LoadingX(c, [zero]);
    LoadingZero(c, [zero, x]);
    Comparing(c, [zero]);
    ComparingConcrete(c);
    Branching(c, last);
    TrailIsRun(c, ms, [map[], WORLD, WORLD, WORLD, WORLD, WORLD, WORLD, WORLD], evs);
  }
}
