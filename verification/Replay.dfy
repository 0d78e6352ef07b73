/**
  The program run once more on other inputs, along the calls of a run: what the interpreter's constraints are for.  If
  what is computed from the inputs is linear and decides branches through comparisons only, inputs meet the constraints
  of a run exactly if every one of its branches goes the same way for them.
 */
module Replay {
  import opened Arith
  import opened BasicTypes
  import opened Meanings
  import opened Options
  import opened PathCondition
  import opened PushedPath
  import opened SymbolicExpression
  import opened SymbolicInterpreter
  import opened SymbolicPath

  // ------------------------------------------------------------------------------------------------
  // The program on other inputs
  // ------------------------------------------------------------------------------------------------

  /** Stack and memory as they would be, how many inputs were marked, and whether a function has returned a value */
  datatype Concrete = Concrete(stack: seq<int>, mem: World, marked: nat, returned: bool)

  function Last(r: Concrete): int {
    if r.stack == [] then 0 else r.stack[|r.stack| - 1]
  }

  function LastBut(r: Concrete): int {
    if |r.stack| < 2 then 0 else r.stack[|r.stack| - 2]
  }

  function Dropped(r: Concrete, k: nat): seq<int> {
    if k <= |r.stack| then r.stack[..|r.stack| - k] else []
  }

  /** The result of an operator; of one that is not followed, the result that was reported. */
  function Computed(op: BinaryOp, a: int, b: int, reported: int): int {
    match op
    case ADD => a + b
    case SUBTRACT => a - b
    case MULTIPLY => a * b
    case SHIFT_L => if b >= 0 then a * Pow2(b) else reported
    case CONCRETE => reported
  }

  /** A call, with the inputs x: loads take what was stored, operators compute anew. */
  function Replayed(r: Concrete, ev: Event, x: Assignment): Concrete {
    match ev
    case ClearStack => r.(stack := [], returned := false)
    case Load(addr, value) => r.(stack := r.stack + [if addr in r.mem then r.mem[addr] else value])
    case Store(addr) => r.(stack := Dropped(r, 1), mem := r.mem[addr := Last(r)])
    case ApplyUnary(op, _) => r.(stack := Dropped(r, 1) + [UnaryValue(op, Last(r))])
    case ApplyBinary(op, value) => r.(stack := Dropped(r, 2) + [Computed(op, LastBut(r), Last(r), value)])
    case ApplyCompare(op, _) => r.(stack := Dropped(r, 2) + [if Compare(op, LastBut(r), Last(r)) then 1 else 0])
    case Call | BranchOnly(_) => r
    case Return => r.(returned := |r.stack| == 1)
    case HandleReturn(value) => if r.returned then r.(returned := false) else r.(stack := [value])
    case Branch(_, _) => r.(stack := [])
    case NewInput(_, _, addr, _) => r.(mem := r.mem[addr := x(r.marked)], marked := r.marked + 1)
    case RankOverwritten(addr, _, _) => if r.marked > 0 then r.(mem := r.mem[addr := x(r.marked - 1)]) else r
  }

  /** Does a branch go the way it went in the run? */
  predicate SameTurn(r: Concrete, ev: Event) {
    ev.Branch? && r.stack != [] ==> (Last(r) != 0 <==> ev.taken)
  }

  /** Does every branch of the calls go the way it went in the run? */
  ghost predicate SameWay(r: Concrete, evs: seq<Event>, x: Assignment)
    decreases |evs|
  {
    evs != [] ==> SameTurn(r, evs[0]) && SameWay(Replayed(r, evs[0], x), evs[1..], x)
  }

  // ------------------------------------------------------------------------------------------------
  // Linear runs
  // ------------------------------------------------------------------------------------------------

  /** What depends on the inputs is added, subtracted, negated, scaled, stored, loaded and compared only; the result of
      a comparison that does is used for the next branch or not at all; and memory changes by these calls only. */
  predicate Linear(m: Machine, w: World, ev: Event)
    requires Legal(m, ev)
  {
    match ev
    case ClearStack | Call | BranchOnly(_) => true
    case Branch(_, _) => m.stack != [] && !Symbolic(Top(m))
    case Load(addr, value) => m.pred.None? && (addr in w ==> w[addr] == value)
    case ApplyUnary(op, _) => m.pred.None? && (op == NEGATE || !Symbolic(Top(m)))
    case ApplyBinary(op, _) =>
      && m.pred.None?
      && (op == MULTIPLY ==> !Symbolic(Second(m)) || !Symbolic(Top(m)))
      && (op == SHIFT_L ==> !Symbolic(Top(m)) && Top(m).concrete >= 0)
      && (op == CONCRETE ==> !Symbolic(Second(m)) && !Symbolic(Top(m)))
    case _ => m.pred.None?
  }

  ghost predicate LinearRun(c: Config, m: Machine, w: World, evs: seq<Event>)
    requires IsRun(c, m, w, evs)
    decreases |evs|
  {
    evs != [] ==>
      && Linear(m, w, evs[0])
      && LinearRun(c, Step(c, m, evs[0]), NextWorld(c, m, w, evs[0]), evs[1..])
  }

  // ------------------------------------------------------------------------------------------------
  // The machine stands for the program on all inputs
  // ------------------------------------------------------------------------------------------------

  ghost predicate StackMeans(m: Machine, r: Concrete, x: Assignment) {
    && |r.stack| == |m.stack|
    && forall i :: 0 <= i < |m.stack| - (if m.pred.Some? then 1 else 0) ==> r.stack[i] == Val(m.stack[i], x)
  }

  ghost predicate MemoryMeans(m: Machine, w: World, r: Concrete, x: Assignment) {
    && r.mem.Keys == w.Keys && m.mem.Keys <= w.Keys
    && forall addr :: addr in w ==> r.mem[addr] == if addr in m.mem then Eval(m.mem[addr], x) else w[addr]
  }

  /** With the register set the top of the stack is the result of the comparison in it. */
  ghost predicate RegisterMeans(m: Machine, r: Concrete, x: Assignment) {
    m.pred.Some? ==> r.stack != [] && (Last(r) != 0 <==> Holds(m.pred.value, x))
  }

  ghost predicate Means(m: Machine, w: World, r: Concrete, x: Assignment) {
    && r.marked == m.numInputs && r.returned == m.returnValue
    && StackMeans(m, r, x) && MemoryMeans(m, w, r, x) && RegisterMeans(m, r, x)
  }

  /** The branch's constraint holds for the inputs x, if it pushes one. */
  ghost predicate TurnHolds(m: Machine, ev: Event, x: Assignment) {
    TakesPath(PushesOf(m, ev), |PushesOf(m, ev)|, x)
  }

  // ------------------------------------------------------------------------------------------------
  // One call
  // ------------------------------------------------------------------------------------------------

  lemma LoadMeans(c: Config, m: Machine, w: World, ev: Event, r: Concrete, x: Assignment)
    requires ev.Load? && Means(m, w, r, x) && Linear(m, w, ev)
    ensures Means(Step(c, m, ev), w, Replayed(r, ev, x), x)
  {
    hide Eval;
  }

  /** The value stored, whether as an expression or, if that is constant, without one */
  lemma StoredMemory(m: Machine, w: World, r: Concrete, x: Assignment, addr: Addr)
    requires MemoryMeans(m, w, r, x) && StackOk(m) && m.stack != [] && Last(r) == Val(Top(m), x)
    ensures var e := Top(m).expr;
            var mem := if e.Some? && !IsConcrete(e.value) then m.mem[addr := e.value] else m.mem - {addr};
            MemoryMeans(m.(mem := mem), w[addr := Top(m).concrete], r.(mem := r.mem[addr := Last(r)]), x)
  {
    hide Eval, Proper, IsConcrete;
    ElemAt(m, |m.stack| - 1);
    if Symbolic(Top(m)) && IsConcrete(Top(m).expr.value) {
      ConstantEverywhere(Top(m).expr.value, x, In(m.inputs));
    }
  }

  lemma StoreMeans(c: Config, m: Machine, w: World, ev: Event, r: Concrete, x: Assignment)
    requires ev.Store? && Legal(m, ev) && Means(m, w, r, x) && Linear(m, w, ev) && StackOk(m)
    ensures Means(Step(c, m, ev), NextWorld(c, m, w, ev), Replayed(r, ev, x), x)
  {
    hide Val, IsConcrete, MemoryMeans, StackOk;
    LastMeans(m, r, x);
    StoredMemory(m, w, r, x, ev.addr);
    var m', w', r' := Step(c, m, ev), NextWorld(c, m, w, ev), Replayed(r, ev, x);
    var e := Top(m).expr;
    var mem := if e.Some? && !IsConcrete(e.value) then m.mem[ev.addr := e.value] else m.mem - {ev.addr};
    MemoryCarried(m.(mem := mem), w', r.(mem := r.mem[ev.addr := Last(r)]), x, m', r');
  }

  /** A call that replaces the top k elements by one, and leaves the register clear and all else alone */
  lemma TopMeans(m: Machine, w: World, r: Concrete, x: Assignment, m': Machine, r': Concrete, k: nat)
    requires Means(m, w, r, x) && m.pred.None? && 1 <= k <= |m.stack|
    requires |m'.stack| == |m.stack| - k + 1 && forall i :: 0 <= i < |m.stack| - k ==> m'.stack[i] == m.stack[i]
    requires m'.mem == m.mem && m'.numInputs == m.numInputs && m'.returnValue == m.returnValue
    requires r' == r.(stack := Dropped(r, k) + [Last(r')]) && |r'.stack| == |m'.stack|
    requires if m'.pred.None? then Last(r') == Val(Top(m'), x) else (Last(r') != 0 <==> Holds(m'.pred.value, x))
    ensures Means(m', w, r', x)
  {
    hide Val, Holds, MemoryMeans;
    assert MemoryMeans(m', w, r', x) by {
      MemoryCarried(m, w, r, x, m', r');
    }
  }

  lemma MemoryCarried(m: Machine, w: World, r: Concrete, x: Assignment, m': Machine, r': Concrete)
    requires MemoryMeans(m, w, r, x) && m'.mem == m.mem && r'.mem == r.mem
    ensures MemoryMeans(m', w, r', x)
  {
    hide Eval;
  }

  lemma LastMeans(m: Machine, r: Concrete, x: Assignment)
    requires StackMeans(m, r, x) && m.pred.None?
    ensures m.stack != [] ==> Last(r) == Val(Top(m), x)
    ensures |m.stack| >= 2 ==> LastBut(r) == Val(Second(m), x)
  {
    hide Val;
  }

  lemma UnaryMeans(c: Config, m: Machine, w: World, ev: Event, r: Concrete, x: Assignment)
    requires ev.ApplyUnary? && Legal(m, ev) && Faithful(c, m, w, ev) && Means(m, w, r, x) && Linear(m, w, ev)
    ensures Means(Step(c, m, ev), w, Replayed(r, ev, x), x)
  {
    hide Eval, Negate, MemoryMeans, RegisterMeans;
    UnaryCallMeans(c, m, ev.uop, ev.value, x);
    LastMeans(m, r, x);
    TopMeans(m, w, r, x, Step(c, m, ev), Replayed(r, ev, x), 1);
  }

  lemma BinaryAgrees(a: StackElem, b: StackElem, op: BinaryOp, e: StackElem, x: Assignment)
    requires op == SHIFT_L ==> !Symbolic(b) && b.concrete >= 0
    requires op == MULTIPLY ==> !Symbolic(a) || !Symbolic(b)
    requires op == CONCRETE ==> !Symbolic(a) && !Symbolic(b)
    requires BinaryValue(op, a.concrete, b.concrete, e.concrete) && BinaryMeans(a, b, op, e, x)
    ensures Val(e, x) == Computed(op, Val(a, x), Val(b, x), e.concrete)
  {
    hide Eval, Pow2;
  }

  lemma BinaryReplayed(c: Config, m: Machine, w: World, ev: Event, r: Concrete, x: Assignment)
    requires ev.ApplyBinary? && Legal(m, ev) && Faithful(c, m, w, ev) && Means(m, w, r, x) && Linear(m, w, ev)
    ensures Means(Step(c, m, ev), w, Replayed(r, ev, x), x)
  {
    hide Val, BinaryExpr, MemoryMeans, RegisterMeans, BinaryMeans, BinaryValue, Computed;
    BinaryCallMeans(c, m, ev.bop, ev.value, x);
    LastMeans(m, r, x);
    BinaryAgrees(Second(m), Top(m), ev.bop, Top(Step(c, m, ev)), x);
    TopMeans(m, w, r, x, Step(c, m, ev), Replayed(r, ev, x), 2);
  }

  /** Where a comparison does not depend on the inputs it comes out as it did. */
  lemma ComparesSame(m: Machine, op: CompareOp, x: Assignment)
    requires |m.stack| >= 2 && StackOk(m) && SameDifference(Second(m), Top(m))
    ensures Compare(op, Val(Second(m), x), Val(Top(m), x)) <==> Compare(op, Second(m).concrete, Top(m).concrete)
  {
    hide Eval, Proper, Compare;
    var a, b, y := Second(m), Top(m), In(m.inputs);
    ElemAt(m, |m.stack| - 1);
    ElemAt(m, |m.stack| - 2);
    assert Val(a, y) == a.concrete && Val(b, y) == b.concrete;
    assert Val(a, x) - Val(b, x) == Val(a, y) - Val(b, y);
    CompareDifference(op, Val(a, x), Val(b, x));
    CompareDifference(op, a.concrete, b.concrete);
  }

  lemma ConcreteDifference(a: StackElem, b: StackElem)
    requires !Symbolic(a) && !Symbolic(b)
    ensures SameDifference(a, b)
  {
  }

  lemma ComparedElems(m: Machine)
    requires StackOk(m)
    ensures forall i :: 0 <= i < |m.stack| && Symbolic(m.stack[i]) ==> Proper(m.stack[i].expr.value, m.numInputs)
  {
    hide Eval, Proper;
  }

  /** What TopMeans asks of a comparison */
  lemma ComparedTop(c: Config, m: Machine, w: World, ev: Event, x: Assignment)
    requires ev.ApplyCompare? && Legal(m, ev) && Faithful(c, m, w, ev) && m.pred.None? && StackOk(m)
    ensures var m' := Step(c, m, ev);
            var v := if Compare(ev.cop, Val(Second(m), x), Val(Top(m), x)) then 1 else 0;
            && |m'.stack| == |m.stack| - 1 && (forall i :: 0 <= i < |m.stack| - 2 ==> m'.stack[i] == m.stack[i])
            && m'.mem == m.mem
            && if m'.pred.None? then v == Val(Top(m'), x) else (v != 0 <==> Holds(m'.pred.value, x))
  {
    hide Compare, Difference, Holds, IsConcrete, SameDifference, StackOk, Proper, Eval;
    var a, b := Second(m), Top(m);
    if Symbolic(a) || Symbolic(b) {
      ComparedElems(m);
      CompareCallMeans(c, m, ev.cop, ev.value, m.numInputs);
    } else {
      ConcreteDifference(a, b);
    }
    if Step(c, m, ev).pred.None? {
      ComparesSame(m, ev.cop, x);
    }
  }

  lemma CompareReplayed(c: Config, m: Machine, w: World, ev: Event, r: Concrete, x: Assignment)
    requires ev.ApplyCompare? && Legal(m, ev) && Faithful(c, m, w, ev) && Means(m, w, r, x) && Linear(m, w, ev)
    requires StackOk(m)
    ensures Means(Step(c, m, ev), w, Replayed(r, ev, x), x)
  {
    hide Compare, Difference, MemoryMeans, RegisterMeans, Holds, IsConcrete, StackOk, Val, Faithful;
    LastMeans(m, r, x);
    ComparedTop(c, m, w, ev, x);
    TopMeans(m, w, r, x, Step(c, m, ev), Replayed(r, ev, x), 2);
  }

  /** A call that gives an address the value of an input */
  lemma InputAt(m: Machine, w: World, r: Concrete, x: Assignment, m': Machine, w': World, r': Concrete, addr: Addr,
                v: Var)
    requires MemoryMeans(m, w, r, x) && r'.mem == r.mem[addr := x(v)] && w'.Keys == w.Keys + {addr}
    requires forall a :: a in w && a != addr ==> w'[a] == w[a]
    requires m'.mem == m.mem[addr := Variable(1, v)]
    ensures MemoryMeans(m', w', r', x)
  {
    hide Eval, Variable;
    EvalVariable(1, v, x);
  }

  /** Such a call leaves the stack alone. */
  lemma InputStack(m: Machine, r: Concrete, x: Assignment, m': Machine, r': Concrete)
    requires StackMeans(m, r, x) && RegisterMeans(m, r, x)
    requires m'.stack == m.stack && m'.pred == m.pred && r'.stack == r.stack
    ensures StackMeans(m', r', x) && RegisterMeans(m', r', x)
  {
    hide Val, Holds;
  }

  lemma InputMeans(c: Config, m: Machine, w: World, ev: Event, r: Concrete, x: Assignment)
    requires ev.NewInput? && Means(m, w, r, x)
    ensures Means(Step(c, m, ev), NextWorld(c, m, w, ev), Replayed(r, ev, x), x)
  {
    hide StackMeans, MemoryMeans, RegisterMeans, Variable, InputValue;
    var m', w', r' := Step(c, m, ev), NextWorld(c, m, w, ev), Replayed(r, ev, x);
    InputStack(m, r, x, m', r');
    InputAt(m, w, r, x, m', w', r', ev.addr, m.numInputs);
  }

  lemma OverwriteMeans(c: Config, m: Machine, w: World, ev: Event, r: Concrete, x: Assignment)
    requires ev.RankOverwritten? && Legal(m, ev) && Faithful(c, m, w, ev) && Means(m, w, r, x)
    ensures Means(Step(c, m, ev), NextWorld(c, m, w, ev), Replayed(r, ev, x), x)
  {
    hide StackMeans, MemoryMeans, RegisterMeans, Variable, EarlierOnly;
    var m', w', r' := Step(c, m, ev), NextWorld(c, m, w, ev), Replayed(r, ev, x);
    InputStack(m, r, x, m', r');
    assert m.mem[ev.addr := Variable(1, m.numInputs - 1)] == m.mem;
    InputAt(m, w, r, x, m', w', r', ev.addr, m.numInputs - 1);
  }

  lemma PlainMeans(c: Config, m: Machine, w: World, ev: Event, r: Concrete, x: Assignment)
    requires IsPlain(ev) || ev.Branch?
    requires Legal(m, ev) && Means(m, w, r, x) && Linear(m, w, ev)
    ensures Means(Step(c, m, ev), w, Replayed(r, ev, x), x)
  {
    hide Eval, Holds, PushStep, NegatePred, InputValue, CompareResult, Difference;
  }

  /** A branch goes the same way for the inputs x exactly if x meets the constraint that it pushes. */
  lemma TurnMeans(c: Config, m: Machine, w: World, ev: Event, r: Concrete, x: Assignment)
    requires Legal(m, ev) && Faithful(c, m, w, ev) && Means(m, w, r, x) && Linear(m, w, ev)
    ensures SameTurn(r, ev) <==> TurnHolds(m, ev, x)
  {
    hide Eval, Holds, MemoryMeans, NegatePred;
    if ev.Branch? {
      var ys := PushesOf(m, ev);
      assert ys[0].bid == ev.bid && |ys| == 1;
      assert TurnHolds(m, ev, x) <==> PushHolds(ys, 0, x);
      if m.pred.Some? {
        NegateComplements(m.pred.value, x);
      }
    }
  }

  /** Whatever the call, the machine goes on standing for the program on all inputs. */
  lemma StepMeans(c: Config, m: Machine, w: World, ev: Event, r: Concrete, x: Assignment)
    requires Shadows(m, w, false) && Legal(m, ev) && Faithful(c, m, w, ev)
    requires Means(m, w, r, x) && Linear(m, w, ev)
    ensures Means(Step(c, m, ev), NextWorld(c, m, w, ev), Replayed(r, ev, x), x)
    ensures !Inverted(m, ev, false)
  {
    hide Legal, Faithful, Means, Linear, Step, Replayed, InputsOk, MemOk, StackOk, PathOk, PredOk;
    StaysRight(m, w, ev);
    match ev
    case Load(_, _) => LoadMeans(c, m, w, ev, r, x);
    case Store(_) => StoreMeans(c, m, w, ev, r, x);
    case ApplyUnary(_, _) => UnaryMeans(c, m, w, ev, r, x);
    case ApplyBinary(_, _) => BinaryReplayed(c, m, w, ev, r, x);
    case ApplyCompare(_, _) => CompareReplayed(c, m, w, ev, r, x);
    case NewInput(_, _, _, _) => InputMeans(c, m, w, ev, r, x);
    case RankOverwritten(_, _, _) => OverwriteMeans(c, m, w, ev, r, x);
    case _ => PlainMeans(c, m, w, ev, r, x);
  }

  lemma StaysRight(m: Machine, w: World, ev: Event)
    requires Legal(m, ev) && Linear(m, w, ev)
    ensures !Inverted(m, ev, false)
  {
    hide Compare;
  }

  // ------------------------------------------------------------------------------------------------
  // Main result
  // ------------------------------------------------------------------------------------------------

  lemma {:induction false} RunMeans(c: Config, m: Machine, w: World, evs: seq<Event>, r: Concrete, x: Assignment)
    requires IsRun(c, m, w, evs) && LinearRun(c, m, w, evs) && Shadows(m, w, false) && Means(m, w, r, x)
    ensures var ys := Pushes(c, m, w, evs); SameWay(r, evs, x) <==> TakesPath(ys, |ys|, x)
    decreases |evs|
  {
    hide Shadows, Follows, Legal, Faithful, Means, Linear, Step, NextWorld, Replayed, SameTurn, TurnHolds, PushesOf;
    hide Inverted, PushHolds;
    if evs != [] {
      var first, m', w' := PushesOf(m, evs[0]), Step(c, m, evs[0]), NextWorld(c, m, w, evs[0]);
      TurnMeans(c, m, w, evs[0], r, x);
      StepMeans(c, m, w, evs[0], r, x);
      StepFollows(c, m, w, evs[0], false);
      FollowsParts(c, m, w, evs[0], false);
      RunMeans(c, m', w', evs[1..], Replayed(r, evs[0], x), x);
      TurnIs(m, evs[0], x);
      TakesBoth(first, Pushes(c, m', w', evs[1..]), x);
    }
  }

  lemma TurnIs(m: Machine, ev: Event, x: Assignment)
    ensures TurnHolds(m, ev, x) <==> TakesPath(PushesOf(m, ev), |PushesOf(m, ev)|, x)
  {
  }

  lemma TakesBoth(xs: seq<Pushed>, ys: seq<Pushed>, x: Assignment)
    ensures TakesPath(xs + ys, |xs + ys|, x) <==> TakesPath(xs, |xs|, x) && TakesPath(ys, |ys|, x)
  {
    hide Holds;
    var zs := xs + ys;
    forall i: nat | i < |xs|
      ensures PushHolds(zs, i, x) <==> PushHolds(xs, i, x)
    {
      assert zs[i] == xs[i];
    }
    forall i: nat | i < |ys|
      ensures PushHolds(zs, |xs| + i, x) <==> PushHolds(ys, i, x)
    {
      assert zs[|xs| + i] == ys[i];
    }
    if TakesPath(zs, |zs|, x) {
      forall i: nat | i < |ys|
        ensures PushHolds(ys, i, x)
      {
        assert PushHolds(zs, |xs| + i, x);
      }
    }
    if TakesPath(xs, |xs|, x) && TakesPath(ys, |ys|, x) {
      forall i: nat | i < |zs|
        ensures PushHolds(zs, i, x)
      {
        if i >= |xs| {
          assert PushHolds(ys, i - |xs|, x);
        }
      }
    }
  }

  /** The constraints of a linear run say exactly for which inputs all its branches go the same way: no inputs that do
      are shut out, and none that do not are let in. */
  lemma ConstraintsDecide(c: Config, given: seq<int>, w: World, evs: seq<Event>, x: Assignment)
    requires IsRun(c, Initial(given), w, evs) && LinearRun(c, Initial(given), w, evs)
    ensures var xs := Pushes(c, Initial(given), w, evs);
            SameWay(Concrete([], w, 0, false), evs, x) <==> TakesPath(xs, |xs|, x)
  {
    hide IsRun, LinearRun, Pushes, SameWay, Shadows, PathTrue, Sound, TakesPath;
    InitialSound(given, w);
    SoundParts(Initial(given), w);
    RunMeans(c, Initial(given), w, evs, Concrete([], w, 0, false), x);
  }

  /** The register of a linear run is always right, so its own inputs go the same way. */
  lemma {:induction false} LinearRight(c: Config, m: Machine, w: World, evs: seq<Event>)
    requires IsRun(c, m, w, evs) && LinearRun(c, m, w, evs)
    ensures PushesRight(c, m, w, evs, false)
    decreases |evs|
  {
    hide Legal, Faithful, Linear, Step, NextWorld, Inverted;
    if evs != [] {
      StaysRight(m, w, evs[0]);
      LinearRight(c, Step(c, m, evs[0]), NextWorld(c, m, w, evs[0]), evs[1..]);
    }
  }

  lemma OwnWay(c: Config, given: seq<int>, w: World, evs: seq<Event>)
    requires IsRun(c, Initial(given), w, evs) && LinearRun(c, Initial(given), w, evs)
    ensures SameWay(Concrete([], w, 0, false), evs, In(After(c, Initial(given), w, evs).inputs))
  {
    hide IsRun, LinearRun, Pushes, SameWay, TakesPath, PushesRight, After, In;
    LinearRight(c, Initial(given), w, evs);
    WholePathTrue(c, given, w, evs);
    ConstraintsDecide(c, given, w, evs, In(After(c, Initial(given), w, evs).inputs));
  }

  /** Every branch before branch j goes the way it went in the run, and branch j does not. */
  ghost predicate TurnsAt(r: Concrete, evs: seq<Event>, j: nat, x: Assignment)
    decreases |evs|
  {
    evs != [] &&
      var r' := Replayed(r, evs[0], x);
      if !evs[0].Branch? then TurnsAt(r', evs[1..], j, x)
      else if j == 0 then !SameTurn(r, evs[0])
      else SameTurn(r, evs[0]) && TurnsAt(r', evs[1..], j - 1, x)
  }

  lemma {:induction false} TurnsExactly(c: Config, m: Machine, w: World, evs: seq<Event>, r: Concrete, j: nat,
                                        x: Assignment)
    requires IsRun(c, m, w, evs) && LinearRun(c, m, w, evs) && Shadows(m, w, false) && Means(m, w, r, x)
    ensures var ys := Pushes(c, m, w, evs);
            TurnsAt(r, evs, j, x) <==> j < |ys| && TakesPath(ys, j, x) && !PushHolds(ys, j, x)
    decreases |evs|
  {
    hide Shadows, Follows, Legal, Faithful, Means, Linear, Step, NextWorld, Replayed, SameTurn, TurnHolds, PushesOf;
    hide Inverted, PushHolds, TakesPath;
    if evs != [] {
      var first, m', w' := PushesOf(m, evs[0]), Step(c, m, evs[0]), NextWorld(c, m, w, evs[0]);
      var rest := Pushes(c, m', w', evs[1..]);
      TurnMeans(c, m, w, evs[0], r, x);
      StepMeans(c, m, w, evs[0], r, x);
      StepFollows(c, m, w, evs[0], false);
      FollowsParts(c, m, w, evs[0], false);
      PushCount(m, evs[0]);
      if evs[0].Branch? {
        TurnIs(m, evs[0], x);
        FirstPush(first[0], rest, j, x);
        if j > 0 {
          TurnsExactly(c, m', w', evs[1..], Replayed(r, evs[0], x), j - 1, x);
        }
      } else {
        assert first + rest == rest;
        TurnsExactly(c, m', w', evs[1..], Replayed(r, evs[0], x), j, x);
      }
    }
  }

  lemma PushCount(m: Machine, ev: Event)
    ensures |PushesOf(m, ev)| == if ev.Branch? then 1 else 0
    ensures ev.Branch? ==> PushesOf(m, ev) == [PushesOf(m, ev)[0]]
  {
  }

  lemma FirstPush(y: Pushed, ys: seq<Pushed>, j: nat, x: Assignment)
    ensures TakesPath([y], 1, x) <==> PushHolds([y], 0, x)
    ensures PushHolds([y] + ys, 0, x) <==> PushHolds([y], 0, x)
    ensures TakesPath([y] + ys, 0, x)
    ensures 0 < j < |ys| + 1 ==>
              && (PushHolds([y] + ys, j, x) <==> PushHolds(ys, j - 1, x))
              && (TakesPath([y] + ys, j, x) <==> PushHolds([y], 0, x) && TakesPath(ys, j - 1, x))
  {
    hide Holds;
    var zs := [y] + ys;
    if 0 < j < |zs| {
      forall i: nat | i < |ys|
        ensures PushHolds(zs, i + 1, x) <==> PushHolds(ys, i, x)
      {
        assert zs[i + 1] == ys[i];
      }
      if TakesPath(zs, j, x) {
        forall i: nat | i < j - 1
          ensures PushHolds(ys, i, x)
        {
          assert PushHolds(zs, i + 1, x);
        }
      }
      if PushHolds([y], 0, x) && TakesPath(ys, j - 1, x) {
        forall i: nat | i < j
          ensures PushHolds(zs, i, x)
        {
          if i > 0 {
            assert PushHolds(ys, i - 1, x);
          }
        }
      }
    }
  }

  lemma StartMeans(given: seq<int>, w: World, x: Assignment)
    ensures Shadows(Initial(given), w, false) && Means(Initial(given), w, Concrete([], w, 0, false), x)
  {
    InitialSound(given, w);
  }
}
