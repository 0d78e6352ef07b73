/**
  Why the path condition that the interpreter records is true of the inputs, and exactly when.

  The instrumented program is a `World`: the values of the memory it uses.  A run is a list of calls, each of which
  reports what really happens in the program.
 */
module PathCondition {
  import opened Arith
  import opened BasicTypes
  import opened Options
  import opened SymbolicExpression
  import opened SymbolicInterpreter
  import opened SymbolicPath

  // ------------------------------------------------------------------------------------------------
  // The concrete run
  // ------------------------------------------------------------------------------------------------

  type World = map<Addr, int>

  function UnaryValue(op: UnaryOp, x: int): int {
    match op
    case NEGATE => -x
    case LOGICAL_NOT => if x == 0 then 1 else 0
    case BITWISE_NOT => -x - 1
  }

  predicate BinaryValue(op: BinaryOp, x: int, y: int, value: int) {
    match op
    case ADD => value == x + y
    case SUBTRACT => value == x - y
    case MULTIPLY => value == x * y
    case SHIFT_L => y >= 0 ==> value == x * Pow2(y)
    case CONCRETE => true
  }

  /** A symbolic expression over the first n inputs. */
  predicate Proper(e: Expr, n: nat) {
    Canonical(e) && forall v :: v in e.coeff ==> v < n
  }

  /** Everything the machine holds, but for the memory at addr, is over the first n inputs. */
  predicate EarlierOnly(m: Machine, addr: Addr, n: nat) {
    && (forall a :: a in m.mem && a != addr ==> Proper(m.mem[a], n))
    && (forall i :: 0 <= i < |m.stack| && m.stack[i].expr.Some? ==> Proper(m.stack[i].expr.value, n))
    && (forall i :: 0 <= i < |m.path.constraints| ==> Proper(m.path.constraints[i].expr, n))
    && (m.pred.Some? ==> Proper(m.pred.value.expr, n))
  }

  /** The latest variable is at addr and has not been used yet. */
  predicate JustMarked(m: Machine, addr: Addr) {
    && m.numInputs > 0 && addr in m.mem && m.mem[addr] == Variable(1, m.numInputs - 1)
    && EarlierOnly(m, addr, m.numInputs - 1)
  }

  /** Does the call report what really happens in the program?  A rank that the program finds out itself is reported
      right after it was marked, to the process under test. */
  predicate Faithful(c: Config, m: Machine, w: World, ev: Event)
    requires Legal(m, ev)
  {
    match ev
    case Load(addr, value) => addr in m.mem ==> addr in w && w[addr] == value
    case ApplyUnary(op, value) => value == UnaryValue(op, Top(m).concrete)
    case ApplyBinary(op, value) => BinaryValue(op, Second(m).concrete, Top(m).concrete, value)
    case ApplyCompare(op, value) => value == if Compare(op, Second(m).concrete, Top(m).concrete) then 1 else 0
    case Branch(_, taken) => m.stack != [] ==> (taken <==> Top(m).concrete != 0)
    case RankOverwritten(addr, value, group) =>
      JustMarked(m, addr) && 0 <= value < |group| && c.rank == c.targetRank
    case _ => true
  }

  function NextWorld(c: Config, m: Machine, w: World, ev: Event): World
    requires Legal(m, ev)
  {
    match ev
    case Store(addr) => w[addr := Top(m).concrete]
    case NewInput(kind, typ, addr, _) => w[addr := InputValue(c, m, kind, typ).0]
    case RankOverwritten(addr, value, _) => w[addr := value]
    case _ => w
  }

  /** The inputs as an assignment. */
  function In(inputs: seq<int>): Assignment {
    (v: Var) => if v < |inputs| then inputs[v] else 0
  }

  // ------------------------------------------------------------------------------------------------
  // The invariant
  // ------------------------------------------------------------------------------------------------

  ghost predicate ElemOk(se: StackElem, n: nat, a: Assignment) {
    se.expr.Some? ==> Proper(se.expr.value, n) && Eval(se.expr.value, a) == se.concrete
  }

  /** What is recorded is symbolic and over the inputs so far. */
  predicate Recordable(p: Pred, n: nat) {
    Proper(p.expr, n) && !IsConcrete(p.expr)
  }

  ghost predicate RolesOk(r: Roles, n: nat) {
    forall v :: v in r.ranks || v in r.nonDefault || v in r.worldSizes ==> v < n
  }

  ghost predicate InputsOk(m: Machine) {
    && m.numInputs <= |m.inputs|
    && (forall v: Var :: v in m.vars <==> v < m.numInputs)
    && RolesOk(m.roles, m.numInputs) && (forall v :: v in m.limits ==> v < m.numInputs)
  }

  ghost predicate MemOk(m: Machine, w: World) {
    forall addr :: addr in m.mem ==>
      addr in w && Proper(m.mem[addr], m.numInputs) && Eval(m.mem[addr], In(m.inputs)) == w[addr]
  }

  ghost predicate StackOk(m: Machine) {
    forall i :: 0 <= i < |m.stack| ==> ElemOk(m.stack[i], m.numInputs, In(m.inputs))
  }

  ghost predicate PathOk(m: Machine) {
    forall i :: 0 <= i < |m.path.constraints| ==> Recordable(m.path.constraints[i], m.numInputs)
  }

  /** The predicate register belongs to the concrete value on top of the stack: it holds iff that is not zero or,
      when it is inverted, iff that is zero. */
  ghost predicate PredOk(m: Machine, inverted: bool) {
    m.pred.Some? ==>
      && m.stack != [] && Top(m).expr.None? && Recordable(m.pred.value, m.numInputs)
      && (Holds(m.pred.value, In(m.inputs)) <==> (Top(m).concrete != 0) != inverted)
  }

  /** The machine follows the program, but for the register, which may be inverted. */
  ghost predicate Shadows(m: Machine, w: World, inverted: bool) {
    InputsOk(m) && MemOk(m, w) && StackOk(m) && PathOk(m) && PredOk(m, inverted)
  }

  /** Every recorded constraint is true of the inputs. */
  ghost predicate PathTrue(m: Machine) {
    forall i :: 0 <= i < |m.path.constraints| ==> Holds(m.path.constraints[i], In(m.inputs))
  }

  ghost predicate Sound(m: Machine, w: World) {
    Shadows(m, w, false) && PathTrue(m)
  }

  lemma InitialSound(inputs: seq<int>, w: World)
    ensures Sound(Initial(inputs), w)
  {
  }

  // ------------------------------------------------------------------------------------------------
  // What the calls do to the register
  // ------------------------------------------------------------------------------------------------

  /** Does the call leave a set register alone?  A comparison leaves no expression on the stack, so a unary operator
      on its result does. */
  predicate KeepsRegister(m: Machine, ev: Event)
    requires Legal(m, ev)
  {
    m.pred.Some? &&
      match ev
      case ApplyUnary(_, _) => Top(m).expr.None?
      case ApplyCompare(_, _) => Second(m).expr.None? && Top(m).expr.None?
      case HandleReturn(_) => m.returnValue
      case Call | Return | BranchOnly(_) | NewInput(_, _, _, _) | RankOverwritten(_, _, _) => true
      case _ => false
  }

  /** A call that leaves a set register alone should leave a value that is zero iff the one before was; in terms of
      the operator: */
  predicate Benign(m: Machine, ev: Event)
    requires Legal(m, ev)
  {
    m.pred.Some? ==>
      match ev
      case ApplyUnary(op, _) =>
        (match op
         case NEGATE => true
         case LOGICAL_NOT => false
         case BITWISE_NOT => Top(m).concrete != 0 && Top(m).concrete != -1)
      case ApplyCompare(op, _) =>
        Second(m).expr.None? && Top(m).expr.None? ==>
          (Compare(op, Second(m).concrete, Top(m).concrete) <==> Top(m).concrete != 0)
      case _ => true
  }

  /** Is the register inverted after the call?  Clearing or setting it makes it right; a call that leaves it alone
      but is not benign turns it over. */
  predicate Inverted(m: Machine, ev: Event, inverted: bool)
    requires Legal(m, ev)
  {
    KeepsRegister(m, ev) && inverted == Benign(m, ev)
  }

  /** Is the call a branch whose constraint is kept? */
  predicate Records(m: Machine, ev: Event) {
    ev.Branch? && m.pred.Some? && (ev.bid !in m.path.hash || m.path.hash[ev.bid] != StateOf(ev.taken))
  }

  // ------------------------------------------------------------------------------------------------
  // The operators
  // ------------------------------------------------------------------------------------------------

  lemma NegateOk(e: Expr, n: nat, x: Assignment)
    requires Proper(e, n)
    ensures Proper(Negate(e), n) && Eval(Negate(e), x) == -Eval(e, x)
  {
    hide Eval;
    OperatorsCanonical(e, e, 0);
    OperatorsMean(e, e, 0, x);
  }

  lemma ShiftOk(e: Expr, c: int, n: nat, x: Assignment)
    requires Proper(e, n)
    ensures Proper(PlusConst(e, c), n) && Eval(PlusConst(e, c), x) == Eval(e, x) + c
    ensures Proper(MinusConst(e, c), n) && Eval(MinusConst(e, c), x) == Eval(e, x) - c
  {
    hide Eval;
    OperatorsMean(e, e, c, x);
  }

  lemma ScaleOk(e: Expr, c: int, n: nat, x: Assignment)
    requires Proper(e, n)
    ensures Proper(TimesConst(e, c), n) && Eval(TimesConst(e, c), x) == Eval(e, x) * c
  {
    hide Eval;
    OperatorsCanonical(e, e, c);
    OperatorsMean(e, e, c, x);
  }

  lemma CombineOk(e: Expr, f: Expr, n: nat, x: Assignment)
    requires Proper(e, n) && Proper(f, n)
    ensures Proper(Plus(e, f), n) && Eval(Plus(e, f), x) == Eval(e, x) + Eval(f, x)
    ensures Proper(Minus(e, f), n) && Eval(Minus(e, f), x) == Eval(e, x) - Eval(f, x)
  {
    hide Eval;
    OperatorsCanonical(e, f, 0);
    OperatorsMean(e, f, 0, x);
  }

  /** The symbolic difference has the concrete one as its value, whichever of the two has an expression. */
  lemma DifferenceOk(a: StackElem, b: StackElem, n: nat, x: Assignment)
    requires a.expr.Some? || b.expr.Some?
    requires ElemOk(a, n, x) && ElemOk(b, n, x)
    ensures Proper(Difference(a, b), n) && Eval(Difference(a, b), x) == a.concrete - b.concrete
  {
    hide Eval, Proper, Negate, Plus, Minus, PlusConst, MinusConst;
    if a.expr.None? {
      NegateOk(b.expr.value, n, x);
      ShiftOk(Negate(b.expr.value), a.concrete, n, x);
    } else if b.expr.None? {
      ShiftOk(a.expr.value, b.concrete, n, x);
    } else {
      CombineOk(a.expr.value, b.expr.value, n, x);
    }
  }

  lemma BinaryOk(a: StackElem, b: StackElem, op: BinaryOp, value: int, n: nat, x: Assignment)
    requires op == SHIFT_L && a.expr.Some? ==> 0 <= b.concrete
    requires ElemOk(a, n, x) && ElemOk(b, n, x) && BinaryValue(op, a.concrete, b.concrete, value)
    ensures ElemOk(StackElem(BinaryExpr(a, b, op), value), n, x)
  {
    hide Eval, Proper, Difference, Plus, PlusConst, MinusConst, TimesConst;
    if a.expr.Some? || b.expr.Some? {
      DifferenceOk(a, b, n, x);
      if a.expr.Some? {
        ShiftOk(a.expr.value, b.concrete, n, x);
        ScaleOk(a.expr.value, if op == SHIFT_L then Pow2(b.concrete) else b.concrete, n, x);
      }
      if b.expr.Some? {
        ShiftOk(b.expr.value, a.concrete, n, x);
        ScaleOk(b.expr.value, a.concrete, n, x);
      }
      if a.expr.Some? && b.expr.Some? {
        CombineOk(a.expr.value, b.expr.value, n, x);
      }
    }
  }

  // ------------------------------------------------------------------------------------------------
  // Inputs that change
  // ------------------------------------------------------------------------------------------------

  /** Inputs that come later do not change the value of an expression. */
  lemma LaterInputs(e: Expr, n: nat, before: seq<int>, after: seq<int>)
    requires Proper(e, n) && n <= |before| && n <= |after| && before[..n] == after[..n]
    ensures Eval(e, In(before)) == Eval(e, In(after))
  {
    hide Eval;
    forall v | v in e.coeff
      ensures In(before)(v) == In(after)(v)
    {
      assert before[..n][v] == after[..n][v];
    }
    EvalAgrees(e, In(before), In(after));
  }

  /** The inputs below n are the same: expressions over them keep their values. */
  ghost predicate SameBelow(n: nat, before: seq<int>, after: seq<int>) {
    forall e: Expr :: Proper(e, n) ==> Eval(e, In(before)) == Eval(e, In(after))
  }

  lemma PrefixSame(n: nat, before: seq<int>, after: seq<int>)
    requires n <= |before| && n <= |after| && before[..n] == after[..n]
    ensures SameBelow(n, before, after)
  {
    hide Eval, Proper;
    forall e: Expr | Proper(e, n)
      ensures Eval(e, In(before)) == Eval(e, In(after))
    {
      LaterInputs(e, n, before, after);
    }
  }

  /** Marking an input, even one that overwrites a given rank, leaves every expression over earlier ones as it was. */
  lemma NextInputKeeps(c: Config, m: Machine, kind: InputKind, typ: Type)
    requires m.numInputs <= |m.inputs|
    ensures SameBelow(m.numInputs, m.inputs, InputValue(c, m, kind, typ).1)
    ensures var after := InputValue(c, m, kind, typ);
            m.numInputs < |after.1| && after.1[m.numInputs] == after.0
  {
    hide CastTo, SameBelow;
    PrefixSame(m.numInputs, m.inputs, InputValue(c, m, kind, typ).1);
  }

  lemma VariableOk(n: nat, inputs: seq<int>)
    requires n < |inputs|
    ensures Proper(Variable(1, n), n + 1) && Eval(Variable(1, n), In(inputs)) == inputs[n]
  {
    hide Eval;
    EvalVariable(1, n, In(inputs));
  }

  /** A call that sets input k, with its variable at addr, and leaves all else alone. */
  lemma InputSet(m: Machine, w: World, m': Machine, w': World, addr: Addr, k: nat, inverted: bool)
    requires Shadows(m, w, inverted) && EarlierOnly(m, addr, k) && SameBelow(k, m.inputs, m'.inputs)
    requires InputsOk(m') && m'.numInputs == k + 1 && w' == w[addr := m'.inputs[k]]
    requires m'.mem == m.mem[addr := Variable(1, k)]
    requires m'.stack == m.stack && m'.pred == m.pred && m'.path == m.path
    ensures Shadows(m', w', inverted) && (PathTrue(m') <==> PathTrue(m))
  {
    hide InputsOk, EarlierOnly, SameBelow, MemOk, StackOk, PathOk, PredOk, PathTrue;
    InputsThere(m');
    MemSet(m, w, m', w', addr, k);
    StackSet(m, m', addr, k);
    PathSet(m, m', addr, k);
    PredSet(m, m', addr, k, inverted);
  }

  lemma InputsThere(m: Machine)
    requires InputsOk(m)
    ensures m.numInputs <= |m.inputs|
  {
  }

  lemma MemSet(m: Machine, w: World, m': Machine, w': World, addr: Addr, k: nat)
    requires MemOk(m, w) && EarlierOnly(m, addr, k) && SameBelow(k, m.inputs, m'.inputs)
    requires m'.numInputs == k + 1 <= |m'.inputs| && w' == w[addr := m'.inputs[k]]
    requires m'.mem == m.mem[addr := Variable(1, k)]
    ensures MemOk(m', w')
  {
    hide Eval, Variable, Canonical;
    VariableOk(k, m'.inputs);
  }

  lemma StackSet(m: Machine, m': Machine, addr: Addr, k: nat)
    requires StackOk(m) && EarlierOnly(m, addr, k) && SameBelow(k, m.inputs, m'.inputs)
    requires m'.numInputs == k + 1 && m'.stack == m.stack
    ensures StackOk(m')
  {
    hide Eval, Canonical;
  }

  lemma PathSet(m: Machine, m': Machine, addr: Addr, k: nat)
    requires PathOk(m) && EarlierOnly(m, addr, k) && SameBelow(k, m.inputs, m'.inputs)
    requires m'.numInputs == k + 1 && m'.path == m.path
    ensures PathOk(m') && (PathTrue(m') <==> PathTrue(m))
  {
    hide Eval, Canonical;
  }

  lemma PredSet(m: Machine, m': Machine, addr: Addr, k: nat, inverted: bool)
    requires PredOk(m, inverted) && EarlierOnly(m, addr, k) && SameBelow(k, m.inputs, m'.inputs)
    requires m'.numInputs == k + 1 && m'.stack == m.stack && m'.pred == m.pred
    ensures PredOk(m', inverted)
  {
    hide Eval, Canonical;
  }

  // ------------------------------------------------------------------------------------------------
  // One call
  // ------------------------------------------------------------------------------------------------

  /** What one call keeps: the machine follows the program, and the recorded constraints stay true unless the call
      records one with the register inverted. */
  ghost predicate Follows(c: Config, m: Machine, w: World, ev: Event, inverted: bool)
    requires Legal(m, ev)
  {
    && Shadows(Step(c, m, ev), NextWorld(c, m, w, ev), Inverted(m, ev, inverted))
    && (PathTrue(Step(c, m, ev)) <==> PathTrue(m) && !(inverted && Records(m, ev)))
  }

  lemma AllEarlier(m: Machine, w: World, inverted: bool, addr: Addr)
    requires Shadows(m, w, inverted)
    ensures EarlierOnly(m, addr, m.numInputs)
  {
    hide Eval, Canonical, In;
  }

  /** While it is not set it does not matter whether the register is inverted. */
  lemma NoRegister(m: Machine, w: World, inverted: bool, now: bool)
    requires Shadows(m, w, inverted) && (m.pred.None? || now == inverted)
    ensures Shadows(m, w, now)
  {
    hide InputsOk, MemOk, StackOk, PathOk;
  }

  lemma WithValueLength(c: Config, m: Machine, kind: InputKind, typ: Type)
    requires m.numInputs <= |m.inputs|
    ensures |WithValue(c, m, kind, typ).inputs| == Max(|m.inputs|, m.numInputs + 1)
  {
    hide CastTo;
  }

  lemma WithRoleOk(c: Config, m: Machine, kind: InputKind)
    requires RolesOk(m.roles, m.numInputs)
    ensures RolesOk(WithRole(c, m, kind).roles, m.numInputs + 1)
  {
  }

  lemma NewInputOk(c: Config, m: Machine, ev: Event)
    requires ev.NewInput? && InputsOk(m)
    ensures InputsOk(Step(c, m, ev))
    ensures |Step(c, m, ev).inputs| == Max(|m.inputs|, m.numInputs + 1)
  {
    hide WithValue, WithRole, RolesOk, InputValue;
    WithValueLength(c, m, ev.kind, ev.typ);
    OnlyThat(c, m, ev.kind, ev.typ);
    WithRoleOk(c, WithValue(c, m, ev.kind, ev.typ), ev.kind);
  }

  lemma OnlyThat(c: Config, m: Machine, kind: InputKind, typ: Type)
    ensures var m' := WithRole(c, WithValue(c, m, kind, typ), kind);
            m' == m.(inputs := WithValue(c, m, kind, typ).inputs, roles := m'.roles)
    ensures WithValue(c, m, kind, typ) == m.(inputs := InputValue(c, m, kind, typ).1)
  {
    hide InputValue;
  }

  lemma NewInputFollows(c: Config, m: Machine, w: World, ev: Event, inverted: bool)
    requires ev.NewInput? && Shadows(m, w, inverted)
    ensures Follows(c, m, w, ev, inverted)
  {
    hide InputsOk, MemOk, StackOk, PathOk, PredOk, PathTrue, EarlierOnly, SameBelow, InputValue, Variable;
    InputsThere(m);
    NextInputKeeps(c, m, ev.kind, ev.typ);
    NewInputOk(c, m, ev);
    AllEarlier(m, w, inverted, ev.addr);
    NoRegister(m, w, inverted, Inverted(m, ev, inverted));
    InputSet(m, w, Step(c, m, ev), NextWorld(c, m, w, ev), ev.addr, m.numInputs, Inverted(m, ev, inverted));
  }

  lemma RankOverwrittenOk(c: Config, m: Machine, ev: Event)
    requires ev.RankOverwritten? && Legal(m, ev) && InputsOk(m)
    ensures InputsOk(Step(c, m, ev))
  {
  }

  lemma RankOverwrittenFollows(c: Config, m: Machine, w: World, ev: Event, inverted: bool)
    requires ev.RankOverwritten? && Shadows(m, w, inverted) && Legal(m, ev) && Faithful(c, m, w, ev)
    ensures Follows(c, m, w, ev, inverted)
  {
    hide InputsOk, MemOk, StackOk, PathOk, PredOk, PathTrue, EarlierOnly, SameBelow, Variable;
    var k := m.numInputs - 1;
    var m' := Step(c, m, ev);
    RankOverwrittenOk(c, m, ev);
    PrefixSame(k, m.inputs, m'.inputs);
    NoRegister(m, w, inverted, Inverted(m, ev, inverted));
    InputSet(m, w, m', NextWorld(c, m, w, ev), ev.addr, k, Inverted(m, ev, inverted));
  }

  /** The top k elements give way to one. */
  lemma StackReplaced(m: Machine, m': Machine, k: nat, se: StackElem)
    requires StackOk(m) && k <= |m.stack| && m'.stack == m.stack[..|m.stack| - k] + [se]
    requires m'.inputs == m.inputs && m'.numInputs == m.numInputs && ElemOk(se, m.numInputs, In(m.inputs))
    ensures StackOk(m')
  {
    hide ElemOk;
    assert forall i :: 0 <= i < |m.stack| - k ==> m'.stack[i] == m.stack[i];
  }

  lemma ElemAt(m: Machine, i: nat)
    requires StackOk(m) && i < |m.stack|
    ensures ElemOk(m.stack[i], m.numInputs, In(m.inputs))
  {
  }

  /** Calls that change nothing but stack and register. */
  lemma CarryInputs(m: Machine, w: World, m': Machine)
    requires m' == m.(stack := m'.stack, pred := m'.pred, returnValue := m'.returnValue)
    ensures InputsOk(m') <==> InputsOk(m)
    ensures MemOk(m', w) <==> MemOk(m, w)
    ensures PathOk(m') <==> PathOk(m)
    ensures PathTrue(m') <==> PathTrue(m)
  {
    hide Eval, Proper, Recordable, Holds;
  }

  lemma UnaryElem(m: Machine, op: UnaryOp, value: int)
    requires Legal(m, ApplyUnary(op, value)) && StackOk(m) && value == UnaryValue(op, Top(m).concrete)
    requires m.pred.Some? ==> Top(m).expr.None?
    ensures ElemOk(Top(UnaryResult(m, op, value)), m.numInputs, In(m.inputs))
  {
    hide Eval, Proper, Negate;
    ElemAt(m, |m.stack| - 1);
    if Top(m).expr.Some? {
      NegateOk(Top(m).expr.value, m.numInputs, In(m.inputs));
    }
  }

  lemma UnaryFollows(c: Config, m: Machine, w: World, ev: Event, inverted: bool)
    requires ev.ApplyUnary? && Shadows(m, w, inverted) && Legal(m, ev) && Faithful(c, m, w, ev)
    ensures Follows(c, m, w, ev, inverted)
  {
    hide ElemOk, Recordable, Holds, Negate, InputsOk, MemOk, StackOk, PathOk, PathTrue;
    var m' := Step(c, m, ev);
    CarryInputs(m, w, m');
    UnaryElem(m, ev.uop, ev.value);
    StackReplaced(m, m', 1, Top(m'));
  }

  lemma BinaryFollows(c: Config, m: Machine, w: World, ev: Event, inverted: bool)
    requires ev.ApplyBinary? && Shadows(m, w, inverted) && Legal(m, ev) && Faithful(c, m, w, ev)
    ensures Follows(c, m, w, ev, inverted)
  {
    hide ElemOk, BinaryExpr, BinaryValue, InputsOk, MemOk, StackOk, PathOk, PathTrue;
    var m' := Step(c, m, ev);
    CarryInputs(m, w, m');
    ElemAt(m, |m.stack| - 1);
    ElemAt(m, |m.stack| - 2);
    BinaryOk(Second(m), Top(m), ev.bop, ev.value, m.numInputs, In(m.inputs));
    StackReplaced(m, m', 2, Top(m'));
  }

  /** A comparison of two values, at least one of them symbolic, sets the register right. */
  lemma ComparisonRight(a: StackElem, b: StackElem, op: CompareOp, n: nat, x: Assignment)
    requires a.expr.Some? || b.expr.Some?
    requires ElemOk(a, n, x) && ElemOk(b, n, x)
    ensures Proper(Difference(a, b), n)
    ensures Holds(Pred(op, Difference(a, b)), x) <==> Compare(op, a.concrete, b.concrete)
  {
    hide Eval, Proper, Difference, ElemOk;
    DifferenceOk(a, b, n, x);
  }

  lemma SymbolicCompare(m: Machine, op: CompareOp, value: int)
    requires |m.stack| >= 2 && (Second(m).expr.Some? || Top(m).expr.Some?)
    requires StackOk(m) && value == if Compare(op, Second(m).concrete, Top(m).concrete) then 1 else 0
    ensures PredOk(CompareResult(m, op, value), false)
  {
    hide ElemOk, Proper, Holds, Compare, Difference, StackOk, IsConcrete;
    ElemAt(m, |m.stack| - 1);
    ElemAt(m, |m.stack| - 2);
    ComparisonRight(Second(m), Top(m), op, m.numInputs, In(m.inputs));
  }

  lemma ConcreteCompare(m: Machine, op: CompareOp, value: int, inverted: bool)
    requires |m.stack| >= 2 && Second(m).expr.None? && Top(m).expr.None?
    requires PredOk(m, inverted) && value == if Compare(op, Second(m).concrete, Top(m).concrete) then 1 else 0
    ensures PredOk(CompareResult(m, op, value), Inverted(m, ApplyCompare(op, value), inverted))
  {
    hide Recordable, Holds, Compare;
  }

  lemma CompareFollows(c: Config, m: Machine, w: World, ev: Event, inverted: bool)
    requires ev.ApplyCompare? && Shadows(m, w, inverted) && Legal(m, ev) && Faithful(c, m, w, ev)
    ensures Follows(c, m, w, ev, inverted)
  {
    hide ElemOk, Compare, Difference, InputsOk, MemOk, StackOk, PathOk, PathTrue, PredOk, IsConcrete;
    var m' := Step(c, m, ev);
    CarryInputs(m, w, m');
    ConcreteElem(ev.value, m.numInputs, In(m.inputs));
    StackReplaced(m, m', 2, StackElem(None, ev.value));
    if Second(m).expr.Some? || Top(m).expr.Some? {
      SymbolicCompare(m, ev.cop, ev.value);
    } else {
      ConcreteCompare(m, ev.cop, ev.value, inverted);
    }
  }

  lemma ConcreteElem(value: int, n: nat, x: Assignment)
    ensures ElemOk(StackElem(None, value), n, x)
  {
  }

  /** The constraint of a branch is true of the inputs unless the register is inverted. */
  lemma BranchConstraint(m: Machine, w: World, ev: Event, c: Config, inverted: bool)
    requires ev.Branch? && m.pred.Some? && PredOk(m, inverted) && Faithful(c, m, w, ev)
    ensures var p := if ev.taken then m.pred.value else NegatePred(m.pred.value);
            Recordable(p, m.numInputs) && (Holds(p, In(m.inputs)) <==> !inverted)
  {
    hide Eval, Proper, Compare;
    NegateComplements(m.pred.value, In(m.inputs));
  }

  /** Machines with the same inputs, the second with one more constraint. */
  lemma PathGrows(m: Machine, m': Machine, p: Pred)
    requires m'.inputs == m.inputs && m'.numInputs == m.numInputs
    requires m'.path.constraints == m.path.constraints + [p]
    requires PathOk(m) && Recordable(p, m.numInputs)
    ensures PathOk(m') && (PathTrue(m') <==> PathTrue(m) && Holds(p, In(m.inputs)))
  {
    hide Holds, Recordable;
    var cs, n := m'.path.constraints, |m.path.constraints|;
    assert cs[n] == p;
    assert forall i :: 0 <= i < n ==> cs[i] == m.path.constraints[i];
  }

  lemma BranchFollows(c: Config, m: Machine, w: World, ev: Event, inverted: bool)
    requires ev.Branch? && Shadows(m, w, inverted) && Faithful(c, m, w, ev)
    ensures Follows(c, m, w, ev, inverted)
  {
    hide Holds, Recordable, MemOk, InputsOk, NegatePred, Faithful, StackOk, PredOk;
    var m' := Step(c, m, ev);
    BranchKeepsMemory(c, m, w, ev);
    StackCleared(m');
    if m.pred.Some? {
      BranchConstraint(m, w, ev, c, inverted);
    }
    if Records(m, ev) {
      PathGrows(m, m', if ev.taken then m.pred.value else NegatePred(m.pred.value));
    } else {
      assert m'.path.constraints == m.path.constraints;
    }
  }

  lemma StackCleared(m: Machine)
    requires m.stack == [] && m.pred == None
    ensures StackOk(m) && PredOk(m, false)
  {
  }

  lemma BranchKeepsMemory(c: Config, m: Machine, w: World, ev: Event)
    requires ev.Branch?
    ensures InputsOk(Step(c, m, ev)) <==> InputsOk(m)
    ensures MemOk(Step(c, m, ev), w) <==> MemOk(m, w)
  {
    hide Eval, Proper, PushStep;
  }

  predicate IsPlain(ev: Event) {
    ev.ClearStack? || ev.Call? || ev.Return? || ev.HandleReturn? || ev.BranchOnly?
  }

  lemma MemoryFollows(c: Config, m: Machine, w: World, ev: Event, inverted: bool)
    requires (ev.Load? || ev.Store?) && Shadows(m, w, inverted) && Legal(m, ev) && Faithful(c, m, w, ev)
    ensures Follows(c, m, w, ev, inverted)
  {
    hide Eval, Proper, Holds, IsConcrete;
  }

  lemma PlainFollows(c: Config, m: Machine, w: World, ev: Event, inverted: bool)
    requires IsPlain(ev) && Shadows(m, w, inverted) && Legal(m, ev)
    ensures Follows(c, m, w, ev, inverted)
  {
    hide Eval, Proper, Holds, IsConcrete, InputValue, CompareResult;
  }

  /** One call, whatever it does to the register. */
  lemma StepFollows(c: Config, m: Machine, w: World, ev: Event, inverted: bool)
    requires Shadows(m, w, inverted) && Legal(m, ev) && Faithful(c, m, w, ev)
    ensures Follows(c, m, w, ev, inverted)
  {
    hide Shadows, Follows, Legal, Faithful;
    match ev
    case NewInput(_, _, _, _) => NewInputFollows(c, m, w, ev, inverted);
    case RankOverwritten(_, _, _) => RankOverwrittenFollows(c, m, w, ev, inverted);
    case ApplyUnary(_, _) => UnaryFollows(c, m, w, ev, inverted);
    case ApplyBinary(_, _) => BinaryFollows(c, m, w, ev, inverted);
    case ApplyCompare(_, _) => CompareFollows(c, m, w, ev, inverted);
    case Branch(_, _) => BranchFollows(c, m, w, ev, inverted);
    case Load(_, _) | Store(_) => MemoryFollows(c, m, w, ev, inverted);
    case _ => PlainFollows(c, m, w, ev, inverted);
  }

  /** One call keeps the whole invariant exactly if it is benign. */
  lemma StepSound(c: Config, m: Machine, w: World, ev: Event)
    requires Sound(m, w) && Legal(m, ev) && Faithful(c, m, w, ev)
    ensures Sound(Step(c, m, ev), NextWorld(c, m, w, ev)) <==> Benign(m, ev)
  {
    hide Follows, InputsOk, MemOk, StackOk, PathOk, PathTrue, PredOk, Legal, Step, NextWorld, Faithful;
    StepFollows(c, m, w, ev, false);
    FollowsParts(c, m, w, ev, false);
    var m', w' := Step(c, m, ev), NextWorld(c, m, w, ev);
    if !Benign(m, ev) {
      NotBenignKeeps(c, m, ev);
      OneWayOnly(m', w');
    } else {
      BenignRight(m, ev);
    }
  }

  lemma FollowsParts(c: Config, m: Machine, w: World, ev: Event, inverted: bool)
    requires Legal(m, ev) && Follows(c, m, w, ev, inverted)
    ensures Shadows(Step(c, m, ev), NextWorld(c, m, w, ev), Inverted(m, ev, inverted))
    ensures PathTrue(Step(c, m, ev)) <==> PathTrue(m) && !(inverted && Records(m, ev))
  {
  }

  /** A call that is not benign leaves the register set, and turns it over. */
  lemma NotBenignKeeps(c: Config, m: Machine, ev: Event)
    requires Legal(m, ev) && PredOk(m, false) && !Benign(m, ev)
    ensures Step(c, m, ev).pred.Some? && Inverted(m, ev, false)
  {
  }

  lemma BenignRight(m: Machine, ev: Event)
    requires Legal(m, ev) && Benign(m, ev)
    ensures !Inverted(m, ev, false)
  {
  }

  /** A set register is either right or inverted. */
  lemma OneWayOnly(m: Machine, w: World)
    requires m.pred.Some? && Shadows(m, w, true)
    ensures !Shadows(m, w, false)
  {
  }

  /** The constraint that a branch records is true of the inputs exactly if the register is not inverted, whatever
      has been called since it was set and whatever was recorded at the branch before. */
  lemma RecordsTruth(c: Config, m: Machine, w: World, ev: Event, inverted: bool)
    requires Shadows(m, w, inverted) && Legal(m, ev) && Faithful(c, m, w, ev) && Records(m, ev)
    ensures var m' := Step(c, m, ev);
            && |m'.path.constraints| == |m.path.constraints| + 1
            && (Holds(m'.path.constraints[|m.path.constraints|], In(m'.inputs)) <==> !inverted)
  {
    hide Holds, Recordable, InputsOk, MemOk, StackOk, PathOk, PredOk, NegatePred;
    BranchConstraint(m, w, ev, c, inverted);
  }

  // ------------------------------------------------------------------------------------------------
  // Whole runs
  // ------------------------------------------------------------------------------------------------

  /** A run of the instrumented program: every call is legal and faithful when it comes, and no call comes between
      marking a rank and reporting what the program found out. */
  ghost predicate IsRun(c: Config, m: Machine, w: World, evs: seq<Event>)
    decreases |evs|
  {
    evs != [] ==>
      && Legal(m, evs[0]) && Faithful(c, m, w, evs[0])
      && (|evs| > 1 && evs[1].RankOverwritten? ==> evs[0].NewInput?)
      && IsRun(c, Step(c, m, evs[0]), NextWorld(c, m, w, evs[0]), evs[1..])
  }

  ghost function After(c: Config, m: Machine, w: World, evs: seq<Event>): Machine
    requires IsRun(c, m, w, evs)
    decreases |evs|
  {
    if evs == [] then m else After(c, Step(c, m, evs[0]), NextWorld(c, m, w, evs[0]), evs[1..])
  }

  ghost function WorldAfter(c: Config, m: Machine, w: World, evs: seq<Event>): World
    requires IsRun(c, m, w, evs)
    decreases |evs|
  {
    if evs == [] then w else WorldAfter(c, Step(c, m, evs[0]), NextWorld(c, m, w, evs[0]), evs[1..])
  }

  ghost predicate InvertedAfter(c: Config, m: Machine, w: World, evs: seq<Event>, inverted: bool)
    requires IsRun(c, m, w, evs)
    decreases |evs|
  {
    if evs == [] then inverted
    else InvertedAfter(c, Step(c, m, evs[0]), NextWorld(c, m, w, evs[0]), evs[1..], Inverted(m, evs[0], inverted))
  }

  /** No branch of the run records its constraint while the register is inverted. */
  ghost predicate RecordsRight(c: Config, m: Machine, w: World, evs: seq<Event>, inverted: bool)
    requires IsRun(c, m, w, evs)
    decreases |evs|
  {
    evs != [] ==>
      && !(inverted && Records(m, evs[0]))
      && RecordsRight(c, Step(c, m, evs[0]), NextWorld(c, m, w, evs[0]), evs[1..], Inverted(m, evs[0], inverted))
  }

  /** Every run is followed, and its constraints are all true exactly if those before were and none is recorded with
      the register inverted. */
  lemma {:induction false} RunFollows(c: Config, m: Machine, w: World, evs: seq<Event>, inverted: bool)
    requires Shadows(m, w, inverted) && IsRun(c, m, w, evs)
    ensures Shadows(After(c, m, w, evs), WorldAfter(c, m, w, evs), InvertedAfter(c, m, w, evs, inverted))
    ensures PathTrue(After(c, m, w, evs)) <==> PathTrue(m) && RecordsRight(c, m, w, evs, inverted)
    decreases |evs|
  {
    hide Shadows, PathTrue, Follows, Step, NextWorld, Legal, Faithful, Inverted, Records;
    if evs != [] {
      StepFollows(c, m, w, evs[0], inverted);
      FollowsParts(c, m, w, evs[0], inverted);
      RunFollows(c, Step(c, m, evs[0]), NextWorld(c, m, w, evs[0]), evs[1..], Inverted(m, evs[0], inverted));
    }
  }

  /** The recorded path condition is true of the inputs that produced it exactly if no branch of the run records its
      constraint while the register is inverted; in any run, what is recorded is symbolic and over marked inputs. */
  lemma PathConditionTrue(c: Config, given: seq<int>, w: World, evs: seq<Event>)
    requires IsRun(c, Initial(given), w, evs)
    ensures var m := After(c, Initial(given), w, evs);
            && InputsOk(m)
            && (forall p :: p in m.path.constraints ==>
                  !IsConcrete(p.expr) && Canonical(p.expr) && p.expr.coeff.Keys <= m.vars.Keys)
            && ((forall p :: p in m.path.constraints ==> Holds(p, In(m.inputs))) <==>
                  RecordsRight(c, Initial(given), w, evs, false))
  {
    hide IsRun, After, WorldAfter, InvertedAfter, RecordsRight, Sound, Shadows, PathTrue, Holds;
    InitialSound(given, w);
    SoundParts(Initial(given), w);
    RunFollows(c, Initial(given), w, evs, false);
    var m := After(c, Initial(given), w, evs);
    ShadowsShape(m, WorldAfter(c, Initial(given), w, evs), InvertedAfter(c, Initial(given), w, evs, false));
    TrueAll(m);
  }

  lemma SoundParts(m: Machine, w: World)
    requires Sound(m, w)
    ensures Shadows(m, w, false) && PathTrue(m)
  {
  }

  lemma ShadowsShape(m: Machine, w: World, inverted: bool)
    requires Shadows(m, w, inverted)
    ensures InputsOk(m)
    ensures forall p :: p in m.path.constraints ==>
              !IsConcrete(p.expr) && Canonical(p.expr) && p.expr.coeff.Keys <= m.vars.Keys
  {
    hide MemOk, StackOk, PredOk, IsConcrete, Canonical;
  }

  lemma TrueAll(m: Machine)
    ensures PathTrue(m) <==> forall p :: p in m.path.constraints ==> Holds(p, In(m.inputs))
  {
    hide Holds;
    assert forall i :: 0 <= i < |m.path.constraints| ==> m.path.constraints[i] in m.path.constraints;
  }

  /** For one thing, a run of benign calls records right. */
  ghost predicate AllBenign(c: Config, m: Machine, w: World, evs: seq<Event>)
    requires IsRun(c, m, w, evs)
    decreases |evs|
  {
    evs != [] ==>
      Benign(m, evs[0]) && AllBenign(c, Step(c, m, evs[0]), NextWorld(c, m, w, evs[0]), evs[1..])
  }

  lemma {:induction false} BenignRecordsRight(c: Config, m: Machine, w: World, evs: seq<Event>)
    requires IsRun(c, m, w, evs) && AllBenign(c, m, w, evs)
    ensures RecordsRight(c, m, w, evs, false)
    decreases |evs|
  {
    hide Step, NextWorld, Legal, Faithful, Benign, Inverted, Records;
    if evs != [] {
      BenignRight(m, evs[0]);
      BenignRecordsRight(c, Step(c, m, evs[0]), NextWorld(c, m, w, evs[0]), evs[1..]);
    }
  }

  lemma {:induction false} KeysBelow<T>(m: map<Var, T>, n: nat)
    requires forall v: Var :: v in m <==> v < n
    ensures |m| == n
  {
    if n == 0 {
      assert m.Keys == {};
    } else {
      KeysBelow(m - {n - 1}, n - 1);
      assert m.Keys == (m - {n - 1}).Keys + {n - 1};
    }
  }

  /** The variables are numbered as they are marked, and there are inputs for all of them and for all that were given,
      whatever else the calls do. */
  ghost predicate Counted(m: Machine, given: nat) {
    InputsOk(m) && |m.inputs| == Max(given, m.numInputs)
  }

  lemma StepCounts(c: Config, m: Machine, ev: Event, given: nat)
    requires Counted(m, given) && Legal(m, ev)
    ensures Counted(Step(c, m, ev), given)
  {
    hide RolesOk, UnaryResult, CompareResult, WithValue, WithRole, WithVariable, BinaryExpr, PushStep;
    if ev.NewInput? {
      NewInputOk(c, m, ev);
      NewInputCounts(c, m, ev);
    } else if ev.RankOverwritten? {
      RankOverwrittenOk(c, m, ev);
    } else {
      OthersKeepInputs(c, m, ev);
    }
  }

  lemma NewInputCounts(c: Config, m: Machine, ev: Event)
    requires ev.NewInput?
    ensures Step(c, m, ev).numInputs == m.numInputs + 1
  {
    hide InputValue;
  }

  lemma ResultsKeepInputs(m: Machine, uop: UnaryOp, cop: CompareOp, value: int)
    ensures |m.stack| >= 1 ==>
              var m' := UnaryResult(m, uop, value);
              m' == m.(stack := m'.stack, pred := m'.pred)
    ensures |m.stack| >= 2 ==>
              var m' := CompareResult(m, cop, value);
              m' == m.(stack := m'.stack, pred := m'.pred)
  {
    hide Negate, Difference, IsConcrete, NegatePred;
  }

  lemma OthersKeepInputs(c: Config, m: Machine, ev: Event)
    requires Legal(m, ev) && !ev.NewInput? && !ev.RankOverwritten?
    ensures var m' := Step(c, m, ev);
            && m'.numInputs == m.numInputs && m'.inputs == m.inputs && m'.vars == m.vars && m'.limits == m.limits
            && m'.roles == m.roles
  {
    hide BinaryExpr, PushStep, UnaryResult, CompareResult, IsConcrete, NegatePred;
    if ev.ApplyUnary? || ev.ApplyCompare? {
      ResultsKeepInputs(m, if ev.ApplyUnary? then ev.uop else NEGATE, if ev.ApplyCompare? then ev.cop else EQ,
                        ev.value);
    }
  }

  lemma {:induction false} RunCounts(c: Config, m: Machine, w: World, evs: seq<Event>, given: nat)
    requires Counted(m, given) && IsRun(c, m, w, evs)
    ensures Counted(After(c, m, w, evs), given)
    decreases |evs|
  {
    hide Counted, Step, Legal, NextWorld, Faithful;
    if evs != [] {
      StepCounts(c, m, evs[0], given);
      RunCounts(c, Step(c, m, evs[0]), NextWorld(c, m, w, evs[0]), evs[1..], given);
    }
  }

  // ------------------------------------------------------------------------------------------------
  // Logical not
  // ------------------------------------------------------------------------------------------------

  /** Whatever the calls, while the predicate register is set the top of the stack has no expression ... */
  ghost predicate PredOnTop(m: Machine) {
    m.pred.Some? ==> m.stack != [] && Top(m).expr.None?
  }

  lemma PredStepOnTop(c: Config, m: Machine, ev: Event)
    requires PredOnTop(m) && Legal(m, ev)
    ensures PredOnTop(Step(c, m, ev))
  {
    hide InputValue, BinaryExpr, Difference, Negate, PushStep;
  }

  lemma {:induction false} PredStaysOnTop(c: Config, m: Machine, w: World, evs: seq<Event>)
    requires PredOnTop(m) && IsRun(c, m, w, evs)
    ensures PredOnTop(After(c, m, w, evs))
    decreases |evs|
  {
    hide PredOnTop, Step, Legal, NextWorld, Faithful;
    if evs != [] {
      PredStepOnTop(c, m, evs[0]);
      PredStaysOnTop(c, Step(c, m, evs[0]), NextWorld(c, m, w, evs[0]), evs[1..]);
    }
  }

  /** ... so that a logical not never negates it: it changes nothing but the concrete value. */
  lemma NotNeverNegates(c: Config, given: seq<int>, w: World, evs: seq<Event>, value: int)
    requires IsRun(c, Initial(given), w, evs)
    ensures var m := After(c, Initial(given), w, evs);
            m.pred.Some? ==>
              && Legal(m, ApplyUnary(LOGICAL_NOT, value))
              && Step(c, m, ApplyUnary(LOGICAL_NOT, value)) == m.(stack := Popped(m) + [Top(m).(concrete := value)])
  {
    hide IsRun, After;
    PredStaysOnTop(c, Initial(given), w, evs);
  }
}
