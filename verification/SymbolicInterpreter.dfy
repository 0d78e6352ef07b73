/**
  The symbolic interpreter (symbolic_interpreter.cc): a stack machine that follows a concrete run of the program
  under test, call by call, with linear expressions over the inputs.

  `Step` says what a call does to the machine; the methods of the class do the same to its fields.
 */
module SymbolicInterpreter {
  import opened Arith
  import opened BasicTypes
  import opened Options
  import opened SymbolicExpression
  import opened SymbolicPath

  type Addr = nat

  datatype StackElem = StackElem(expr: Option<Expr>, concrete: int)

  datatype UnaryOp = NEGATE | LOGICAL_NOT | BITWISE_NOT

  datatype BinaryOp = ADD | SUBTRACT | MULTIPLY | SHIFT_L | CONCRETE

  datatype Machine = Machine(
    stack: seq<StackElem>,
    pred: Option<Pred>,
    returnValue: bool,
    mem: map<Addr, Expr>,
    numInputs: nat,
    inputs: seq<int>,
    vars: map<Var, Type>,
    limits: map<Var, int>,
    roles: Roles,
    path: Path)

  /** Which variables stand for ranks and sizes of communicators; commMap gives, for each communicator other than the
      default one, the ranks of its members. */
  datatype Roles = Roles(ranks: seq<Var>, nonDefault: seq<Var>, commMap: seq<seq<int>>, worldSizes: seq<Var>)

  /** The ways in which an input is marked. */
  datatype InputKind =
    | Plain(random: int)               // `random` stands for the synchronised rand() % limit, before the cast
    | Rank
    | RankNonDefaultComm
    | WorldSize

  /** What does not change during a run: the MPI rank and size, and the rank under test. */
  datatype Config = Config(rank: int, worldSize: int, targetRank: int)

  datatype Event =
    | ClearStack
    | Load(addr: Addr, value: int)
    | Store(addr: Addr)
    | ApplyUnary(uop: UnaryOp, value: int)
    | ApplyBinary(bop: BinaryOp, value: int)
    | ApplyCompare(cop: CompareOp, value: int)
    | Call
    | Return
    | HandleReturn(value: int)
    | Branch(bid: BranchId, taken: bool)
    | BranchOnly(bid: BranchId)
    | NewInput(kind: InputKind, typ: Type, addr: Addr, limit: Option<int>)
    | RankOverwritten(addr: Addr, value: int, group: seq<int>)

  // ------------------------------------------------------------------------------------------------
  // What a call does
  // ------------------------------------------------------------------------------------------------

  function Top(m: Machine): StackElem
    requires m.stack != []
  {
    m.stack[|m.stack| - 1]
  }

  function Second(m: Machine): StackElem
    requires |m.stack| >= 2
  {
    m.stack[|m.stack| - 2]
  }

  function Popped(m: Machine): seq<StackElem>
    requires m.stack != []
  {
    m.stack[..|m.stack| - 1]
  }

  /** What the source asserts of the stack, and that a symbolic value is only shifted by what an int can hold. */
  predicate Legal(m: Machine, ev: Event) {
    match ev
    case Store(_) => |m.stack| >= 1
    case ApplyUnary(_, _) => |m.stack| >= 1
    case ApplyBinary(op, _) =>
      |m.stack| >= 2 && (op == SHIFT_L && Second(m).expr.Some? ==> 0 <= Top(m).concrete <= 30)
    case ApplyCompare(_, _) => |m.stack| >= 2
    case Return => |m.stack| <= 1
    case HandleReturn(_) => m.returnValue ==> |m.stack| == 1
    case RankOverwritten(_, _, _) => 0 < m.numInputs <= |m.inputs|
    case _ => true
  }

  function UnaryResult(m: Machine, op: UnaryOp, value: int): Machine
    requires |m.stack| >= 1
  {
    var se := Top(m);
    var result :=
      if se.expr.None? then (None, m.pred)
      else if op == NEGATE then (Some(Negate(se.expr.value)), None)
      else if op == LOGICAL_NOT && m.pred.Some? then (se.expr, Some(NegatePred(m.pred.value)))
      else (None, None);
    m.(stack := Popped(m) + [StackElem(result.0, value)], pred := result.1)
  }

  /** The expression that a binary operator leaves for second op top. */
  function BinaryExpr(a: StackElem, b: StackElem, op: BinaryOp): Option<Expr>
    requires op == SHIFT_L && a.expr.Some? ==> 0 <= b.concrete
  {
    if a.expr.None? && b.expr.None? then None
    else
      match op
      case ADD =>
        if a.expr.None? then Some(PlusConst(b.expr.value, a.concrete))
        else if b.expr.None? then Some(PlusConst(a.expr.value, b.concrete))
        else Some(Plus(a.expr.value, b.expr.value))
      case SUBTRACT => Some(Difference(a, b))
      case SHIFT_L =>
        if a.expr.Some? then Some(TimesConst(a.expr.value, Pow2(b.concrete))) else None
      case MULTIPLY =>
        if b.expr.Some? then Some(TimesConst(b.expr.value, a.concrete)) else Some(TimesConst(a.expr.value, b.concrete))
      case CONCRETE => None
  }

  /** a - b, at least one of them symbolic. */
  function Difference(a: StackElem, b: StackElem): Expr
    requires a.expr.Some? || b.expr.Some?
  {
    if a.expr.None? then PlusConst(Negate(b.expr.value), a.concrete)
    else if b.expr.None? then MinusConst(a.expr.value, b.concrete)
    else Minus(a.expr.value, b.expr.value)
  }

  function CompareResult(m: Machine, op: CompareOp, value: int): Machine
    requires |m.stack| >= 2
  {
    var a, b := Second(m), Top(m);
    var stack' := m.stack[..|m.stack| - 2] + [StackElem(None, value)];
    if a.expr.None? && b.expr.None? then m.(stack := stack')
    else
      var e := Difference(a, b);
      m.(stack := stack', pred := if IsConcrete(e) then None else Some(Pred(op, e)))
  }

  /** The value an input gets, and the inputs afterwards. */
  function InputValue(c: Config, m: Machine, kind: InputKind, typ: Type): (int, seq<int>) {
    var n := m.numInputs;
    if n < |m.inputs| then
      if kind.Rank? then (CastTo(c.rank, typ), m.inputs[n := CastTo(c.rank, typ)])
      else (m.inputs[n], m.inputs)
    else
      var v := match kind
        case Plain(random) => CastTo(random, typ)
        case Rank => CastTo(c.rank, typ)
        case RankNonDefaultComm => CastTo(0, typ)
        case WorldSize => CastTo(c.worldSize, typ);
      (v, m.inputs + [v])
  }

  function WithValue(c: Config, m: Machine, kind: InputKind, typ: Type): Machine {
    m.(inputs := InputValue(c, m, kind, typ).1)
  }

  function WithRole(c: Config, m: Machine, kind: InputKind): Machine {
    var n, r := m.numInputs, m.roles;
    if c.targetRank != c.rank then m
    else m.(roles :=
      match kind
      case Plain(_) => r
      case Rank => r.(ranks := r.ranks + [n])
      case RankNonDefaultComm => r.(nonDefault := r.nonDefault + [n])
      case WorldSize => r.(worldSizes := r.worldSizes + [n]))
  }

  /** The next variable, at addr. */
  function WithVariable(m: Machine, typ: Type, addr: Addr, limit: Option<int>): Machine {
    var n := m.numInputs;
    m.(mem := m.mem[addr := Variable(1, n)],
       vars := if n in m.vars then m.vars else m.vars[n := typ],
       limits := if limit.Some? then m.limits[n := limit.value] else m.limits,
       numInputs := n + 1)
  }

  /** The rank in another communicator, which the program finds out only after it has marked it: in the process under
      test the latest input becomes that rank, and its limit the size of the communicator. */
  function WithRank(c: Config, m: Machine, value: int, group: seq<int>): Machine
    requires 0 < m.numInputs <= |m.inputs|
  {
    if c.rank != c.targetRank then m
    else
      var n := m.numInputs - 1;
      m.(inputs := m.inputs[n := value], limits := m.limits[n := |group|],
         roles := m.roles.(commMap := m.roles.commMap + [group]))
  }

  function StateOf(taken: bool): State {
    if taken then TrueState else FalseState
  }

  function Step(c: Config, m: Machine, ev: Event): Machine
    requires Legal(m, ev)
  {
    match ev
    case ClearStack => m.(stack := [], pred := None, returnValue := false)
    case Load(addr, value) =>
      m.(stack := m.stack + [StackElem(if addr in m.mem then Some(m.mem[addr]) else None, value)], pred := None)
    case Store(addr) =>
      var e := Top(m).expr;
      m.(mem := if e.Some? && !IsConcrete(e.value) then m.mem[addr := e.value] else m.mem - {addr},
         stack := Popped(m), pred := None)
    case ApplyUnary(op, value) => UnaryResult(m, op, value)
    case ApplyBinary(op, value) =>
      m.(stack := m.stack[..|m.stack| - 2] + [StackElem(BinaryExpr(Second(m), Top(m), op), value)], pred := None)
    case ApplyCompare(op, value) => CompareResult(m, op, value)
    case Call => m.(path := m.path.(branchSet := m.path.branchSet + {CALL_ID}))
    case Return => m.(path := m.path.(branchSet := m.path.branchSet + {RETURN_ID}), returnValue := |m.stack| == 1)
    case HandleReturn(value) =>
      if m.returnValue then m.(returnValue := false)
      else m.(stack := [StackElem(None, value)], pred := None)
    case Branch(bid, taken) =>
      var constraint := if m.pred.Some? && !taken then Some(NegatePred(m.pred.value)) else m.pred;
      m.(stack := [], pred := None, path := PushStep(m.path, Pushed(bid, constraint, StateOf(taken))))
    case BranchOnly(bid) => m.(path := m.path.(branchSet := m.path.branchSet + {bid}))
    case NewInput(kind, typ, addr, limit) =>
      WithVariable(WithRole(c, WithValue(c, m, kind, typ), kind), typ, addr, limit)
    case RankOverwritten(addr, value, group) => WithRank(c, m, value, group)
  }

  function Initial(inputs: seq<int>): Machine {
    Machine([], None, false, map[], 0, inputs, map[], map[], Roles([], [], [], []), EMPTY_PATH)
  }

  // ------------------------------------------------------------------------------------------------
  // The class
  // ------------------------------------------------------------------------------------------------

  class Interpreter {
    const config: Config
    const executionTag: nat
    var stack: seq<StackElem>
    var pred: Option<Pred>
    var returnValue: bool
    var mem: map<Addr, Expr>
    var numInputs: nat
    var inputs: seq<int>
    var vars: map<Var, Type>
    var limits: map<Var, int>
    var roles: Roles
    var path: Path

    function Value(): Machine
      reads this
    {
      Machine(stack, pred, returnValue, mem, numInputs, inputs, vars, limits, roles, path)
    }

    constructor (input: seq<int>, execTimes: nat, c: Config)
      ensures Value() == Initial(input) && executionTag == execTimes && config == c
    {
      config, executionTag := c, execTimes;
      stack, pred, returnValue, mem, numInputs := [], None, false, map[], 0;
      inputs, vars, limits, roles, path := input, map[], map[], Roles([], [], [], []), EMPTY_PATH;
    }

    method ClearPredicateRegister()
      modifies this`pred
      ensures pred == None
    {
      pred := None;
    }

    method PushSymbolic(expr: Option<Expr>, value: int)
      modifies this`stack
      ensures stack == old(stack) + [StackElem(expr, value)]
    {
      stack := stack + [StackElem(expr, value)];
    }

    method DoClearStack()
      modifies this
      ensures Value() == Step(config, old(Value()), ClearStack)
    {
      stack := [];
      ClearPredicateRegister();
      returnValue := false;
    }

    method DoLoad(addr: Addr, value: int)
      modifies this
      ensures Value() == Step(config, old(Value()), Load(addr, value))
    {
      if addr !in mem {
        PushSymbolic(None, value);
      } else {
        PushSymbolic(Some(mem[addr]), value);
      }
      ClearPredicateRegister();
    }

    method DoStore(addr: Addr)
      requires Legal(Value(), Store(addr))
      modifies this
      ensures Value() == Step(config, old(Value()), Store(addr))
    {
      var se := stack[|stack| - 1];
      if se.expr.Some? {
        if !IsConcrete(se.expr.value) {
          mem := mem[addr := se.expr.value];
        } else {
          mem := mem - {addr};
        }
      } else {
        mem := mem - {addr};
      }
      stack := stack[..|stack| - 1];
      ClearPredicateRegister();
    }

    method DoApplyUnaryOp(op: UnaryOp, value: int)
      requires Legal(Value(), ApplyUnary(op, value))
      modifies this
      ensures Value() == Step(config, old(Value()), ApplyUnary(op, value))
    {
      var se := stack[|stack| - 1];
      if se.expr.Some? {
        if op == NEGATE {
          se := se.(expr := Some(Negate(se.expr.value)));
          ClearPredicateRegister();
        } else if op == LOGICAL_NOT && pred.Some? {
          pred := Some(NegatePred(pred.value));
        } else {
          se := se.(expr := None);
          ClearPredicateRegister();
        }
      }
      se := se.(concrete := value);
      stack := stack[..|stack| - 1] + [se];
    }

    method DoApplyBinaryOp(op: BinaryOp, value: int)
      requires Legal(Value(), ApplyBinary(op, value))
      modifies this
      ensures Value() == Step(config, old(Value()), ApplyBinary(op, value))
    {
      var a, b := stack[|stack| - 2], stack[|stack| - 1];
      if a.expr.Some? || b.expr.Some? {
        match op {
          case ADD =>
            if a.expr.None? {
              a, b := b, a;
              a := a.(expr := Some(PlusConst(a.expr.value, b.concrete)));
            } else if b.expr.None? {
              a := a.(expr := Some(PlusConst(a.expr.value, b.concrete)));
            } else {
              a := a.(expr := Some(Plus(a.expr.value, b.expr.value)));
            }
          case SUBTRACT =>
            if a.expr.None? {
              b := b.(expr := Some(Negate(b.expr.value)));
              a, b := b, a;
              a := a.(expr := Some(PlusConst(a.expr.value, b.concrete)));
            } else if b.expr.None? {
              a := a.(expr := Some(MinusConst(a.expr.value, b.concrete)));
            } else {
              a := a.(expr := Some(Minus(a.expr.value, b.expr.value)));
            }
          case SHIFT_L =>
            if a.expr.Some? {
              a := a.(expr := Some(TimesConst(a.expr.value, Pow2(b.concrete))));
            }
          case MULTIPLY =>
            if a.expr.None? {
              a, b := b, a;
              a := a.(expr := Some(TimesConst(a.expr.value, b.concrete)));
            } else if b.expr.None? {
              a := a.(expr := Some(TimesConst(a.expr.value, b.concrete)));
            } else {
              a, b := b, a;
              a := a.(expr := Some(TimesConst(a.expr.value, b.concrete)));
            }
          case CONCRETE =>
            a := a.(expr := None);
        }
      }
      a := a.(concrete := value);
      stack := stack[..|stack| - 2] + [a];
      ClearPredicateRegister();
    }

    method DoApplyCompareOp(op: CompareOp, value: int)
      requires Legal(Value(), ApplyCompare(op, value))
      modifies this
      ensures Value() == Step(config, old(Value()), ApplyCompare(op, value))
    {
      hide InputValue, WithVariable;
      var a, b := stack[|stack| - 2], stack[|stack| - 1];
      if a.expr.Some? || b.expr.Some? {
        if a.expr.None? {
          b := b.(expr := Some(Negate(b.expr.value)));
          a, b := b, a;
          a := a.(expr := Some(PlusConst(a.expr.value, b.concrete)));
        } else if b.expr.None? {
          a := a.(expr := Some(MinusConst(a.expr.value, b.concrete)));
        } else {
          a := a.(expr := Some(Minus(a.expr.value, b.expr.value)));
        }
        if !IsConcrete(a.expr.value) {
          pred := Some(Pred(op, a.expr.value));
        } else {
          ClearPredicateRegister();
        }
        a := a.(expr := None);
      }
      a := a.(concrete := value);
      stack := stack[..|stack| - 2] + [a];
    }

    method PushId(bid: BranchId)
      modifies this`path
      ensures path == old(path).(branchSet := old(path).branchSet + {bid})
    {
      path := path.(branchSet := path.branchSet + {bid});
    }

    method DoCall()
      modifies this
      ensures Value() == Step(config, old(Value()), Call)
    {
      PushId(CALL_ID);
    }

    method DoReturn()
      requires Legal(Value(), Return)
      modifies this
      ensures Value() == Step(config, old(Value()), Return)
    {
      PushId(RETURN_ID);
      returnValue := |stack| == 1;
    }

    method DoHandleReturn(value: int)
      requires Legal(Value(), HandleReturn(value))
      modifies this
      ensures Value() == Step(config, old(Value()), HandleReturn(value))
    {
      if returnValue {
        returnValue := false;
      } else {
        DoClearStack();
        PushSymbolic(None, value);
      }
    }

    method DoBranch(bid: BranchId, taken: bool)
      modifies this
      ensures Value() == Step(config, old(Value()), Branch(bid, taken))
    {
      stack := [];
      if pred.Some? && !taken {
        pred := Some(NegatePred(pred.value));
      }
      path := PushStep(path, Pushed(bid, pred, StateOf(taken)));
      pred := None;
    }

    method DoBranchOnly(bid: BranchId)
      modifies this
      ensures Value() == Step(config, old(Value()), BranchOnly(bid))
    {
      PushId(bid);
    }

    /** Where an input's value comes from: the given inputs, except that a rank is always the process's own. */
    method NextValue(kind: InputKind, typ: Type) returns (ret: int)
      modifies this`inputs
      ensures Value() == WithValue(config, old(Value()), kind, typ)
      ensures ret == InputValue(config, old(Value()), kind, typ).0
    {
      hide CastTo;
      if numInputs < |inputs| {
        if kind.Rank? {
          ret := CastTo(config.rank, typ);
          inputs := inputs[numInputs := ret];
        } else {
          ret := inputs[numInputs];
        }
      } else {
        match kind {
          case Plain(random) => ret := CastTo(random, typ);
          case Rank => ret := CastTo(config.rank, typ);
          case RankNonDefaultComm => ret := CastTo(0, typ);
          case WorldSize => ret := CastTo(config.worldSize, typ);
        }
        inputs := inputs + [ret];
      }
    }

    method NoteRole(kind: InputKind)
      modifies this`roles
      ensures Value() == WithRole(config, old(Value()), kind)
    {
      if config.targetRank == config.rank {
        match kind {
          case Plain(_) =>
          case Rank => roles := roles.(ranks := roles.ranks + [numInputs]);
          case RankNonDefaultComm => roles := roles.(nonDefault := roles.nonDefault + [numInputs]);
          case WorldSize => roles := roles.(worldSizes := roles.worldSizes + [numInputs]);
        }
      }
    }

    /** The new variable, its type and its limit. */
    method MarkMemory(typ: Type, addr: Addr, limit: Option<int>)
      modifies this`limits, this`mem, this`vars, this`numInputs
      ensures Value() == WithVariable(old(Value()), typ, addr, limit)
    {
      hide Variable;
      if limit.Some? {
        limits := limits[numInputs := limit.value];
      }
      mem := mem[addr := Variable(1, numInputs)];
      if numInputs !in vars {
        vars := vars[numInputs := typ];
      }
      numInputs := numInputs + 1;
    }

    /** NewInput, NewInputRank, NewInputRankNonDefaultComm, NewInputWorldSize and their forms with a limit. */
    method DoNewInput(kind: InputKind, typ: Type, addr: Addr, limit: Option<int>) returns (ret: int)
      modifies this
      ensures Value() == Step(config, old(Value()), NewInput(kind, typ, addr, limit))
      ensures ret == InputValue(config, old(Value()), kind, typ).0
    {
      hide CastTo, InputValue, WithValue, WithRole, WithVariable, Value;
      hide UnaryResult, CompareResult, PushStep, BinaryExpr;
      ret := NextValue(kind, typ);
      NoteRole(kind);
      MarkMemory(typ, addr, limit);
    }

    /** What __CrestRankNonDefaultComm2 does to the execution, for a communicator that the process under test is in. */
    method DoRankOverwritten(value: int, group: seq<int>)
      requires 0 < numInputs <= |inputs|
      modifies this
      ensures Value() == WithRank(config, old(Value()), value, group)
    {
      hide UnaryResult, CompareResult, PushStep, BinaryExpr;
      if config.rank == config.targetRank {
        roles := roles.(commMap := roles.commMap + [group]);
        var index := numInputs - 1;
        inputs := inputs[index := value];
        limits := limits[index := |group|];
      }
    }
  }
}
