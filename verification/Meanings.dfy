/**
  What the calls of the interpreter do to the values that stack and memory stand for, at every assignment of the inputs
  and not only at those of the run.
 */
module Meanings {
  import opened Arith
  import opened BasicTypes
  import opened Options
  import opened PathCondition
  import opened SymbolicExpression
  import opened SymbolicInterpreter
  import opened SymbolicPath

  /** The value of an element for the inputs x */
  ghost function Val(se: StackElem, x: Assignment): int {
    if se.expr.Some? then Eval(se.expr.value, x) else se.concrete
  }

  predicate Symbolic(se: StackElem) {
    se.expr.Some?
  }

  // ------------------------------------------------------------------------------------------------
  // Operators
  // ------------------------------------------------------------------------------------------------

  /** What a binary operator is to leave: its result, or where that is not linear, the result with one operand at its
      concrete value. */
  ghost predicate BinaryMeans(a: StackElem, b: StackElem, op: BinaryOp, r: StackElem, x: Assignment)
    requires op == SHIFT_L && Symbolic(a) ==> 0 <= b.concrete
  {
    match op
    case ADD => Val(r, x) == Val(a, x) + Val(b, x)
    case SUBTRACT => Val(r, x) == Val(a, x) - Val(b, x)
    case MULTIPLY =>
      if Symbolic(b) then Val(r, x) == a.concrete * Val(b, x) else Val(r, x) == Val(a, x) * b.concrete
    case SHIFT_L =>
      if Symbolic(a) then Val(r, x) == Val(a, x) * Pow2(b.concrete) else Val(r, x) == r.concrete
    case CONCRETE => Val(r, x) == r.concrete
  }

  lemma BinaryExprMeans(a: StackElem, b: StackElem, op: BinaryOp, value: int, x: Assignment)
    requires op == SHIFT_L && Symbolic(a) ==> 0 <= b.concrete
    requires BinaryValue(op, a.concrete, b.concrete, value)
    ensures BinaryMeans(a, b, op, StackElem(BinaryExpr(a, b, op), value), x)
  {
    hide Eval, Plus, Minus, PlusConst, MinusConst, TimesConst, Negate;
    if Symbolic(a) {
      var e := a.expr.value;
      OperatorsMean(e, if Symbolic(b) then b.expr.value else e, b.concrete, x);
      if op == SHIFT_L {
        OperatorsMean(e, e, Pow2(b.concrete), x);
      }
    }
    if Symbolic(b) {
      var f := b.expr.value;
      OperatorsMean(f, f, a.concrete, x);
      OperatorsMean(Negate(f), f, a.concrete, x);
    }
  }

  /** A binary operator takes two elements off the stack and leaves one that means its result for all inputs. */
  lemma BinaryCallMeans(c: Config, m: Machine, op: BinaryOp, value: int, x: Assignment)
    requires Legal(m, ApplyBinary(op, value)) && BinaryValue(op, Second(m).concrete, Top(m).concrete, value)
    ensures var m' := Step(c, m, ApplyBinary(op, value));
            && |m'.stack| == |m.stack| - 1 && Top(m').concrete == value && m'.mem == m.mem
            && BinaryMeans(Second(m), Top(m), op, Top(m'), x)
            && forall i :: 0 <= i < |m.stack| - 2 ==> m'.stack[i] == m.stack[i]
  {
    hide BinaryExpr, Eval, BinaryMeans, BinaryValue;
    BinaryExprMeans(Second(m), Top(m), op, value, x);
  }

  /** Negation means the negative for all inputs; the other unary operators give up what depends on the inputs. */
  lemma UnaryCallMeans(c: Config, m: Machine, op: UnaryOp, value: int, x: Assignment)
    requires Legal(m, ApplyUnary(op, value)) && value == UnaryValue(op, Top(m).concrete)
    requires Symbolic(Top(m)) ==> m.pred.None?
    ensures var m' := Step(c, m, ApplyUnary(op, value));
            && |m'.stack| == |m.stack| && Top(m').concrete == value && m'.mem == m.mem
            && Val(Top(m'), x) == (if op == NEGATE then -Val(Top(m), x) else value)
            && forall i :: 0 <= i < |m.stack| - 1 ==> m'.stack[i] == m.stack[i]
  {
    hide Eval, Negate, Pow2;
    if Symbolic(Top(m)) {
      OperatorsMean(Top(m).expr.value, Top(m).expr.value, 0, x);
    }
  }

  lemma DifferenceMeans(a: StackElem, b: StackElem, x: Assignment)
    requires Symbolic(a) || Symbolic(b)
    ensures Eval(Difference(a, b), x) == Val(a, x) - Val(b, x)
  {
    hide Eval, Minus, PlusConst, MinusConst, Negate;
    if Symbolic(a) {
      OperatorsMean(a.expr.value, if Symbolic(b) then b.expr.value else a.expr.value, b.concrete, x);
    } else {
      var f := b.expr.value;
      OperatorsMean(f, f, 0, x);
      OperatorsMean(Negate(f), f, a.concrete, x);
    }
  }

  /** The difference of two elements is the same for all inputs. */
  ghost predicate SameDifference(a: StackElem, b: StackElem) {
    forall x: Assignment, y: Assignment {:trigger Val(a, x), Val(a, y)} ::
      Val(a, x) - Val(b, x) == Val(a, y) - Val(b, y)
  }

  /** A comparison with a symbolic operand sets a predicate that means it for all inputs; it sets none exactly if the
      inputs make no difference. */
  lemma CompareCallMeans(c: Config, m: Machine, op: CompareOp, value: int, n: nat)
    requires |m.stack| >= 2 && (Symbolic(Second(m)) || Symbolic(Top(m)))
    requires forall i :: 0 <= i < |m.stack| && Symbolic(m.stack[i]) ==> Proper(m.stack[i].expr.value, n)
    ensures var m' := Step(c, m, ApplyCompare(op, value));
            && |m'.stack| == |m.stack| - 1 && Top(m') == StackElem(None, value) && m'.mem == m.mem
            && (m'.pred.None? <==> SameDifference(Second(m), Top(m)))
            && (m'.pred.Some? ==> forall x: Assignment ::
                  Holds(m'.pred.value, x) <==> Compare(op, Val(Second(m), x), Val(Top(m), x)))
            && forall i :: 0 <= i < |m.stack| - 2 ==> m'.stack[i] == m.stack[i]
  {
    hide Eval, Difference, Compare, Val, IsConcrete, Canonical, SameDifference;
    var a, b := Second(m), Top(m);
    var d := Difference(a, b);
    forall x: Assignment
      ensures Eval(d, x) == Val(a, x) - Val(b, x)
    {
      DifferenceMeans(a, b, x);
    }
    forall x: Assignment
      ensures Compare(op, Eval(d, x), 0) <==> Compare(op, Val(a, x), Val(b, x))
    {
      CompareDifference(op, Val(a, x), Val(b, x));
    }
    DifferenceCanonical(a, b, n);
    ConcreteIsSame(a, b, d);
  }

  lemma CompareDifference(op: CompareOp, a: int, b: int)
    ensures Compare(op, a - b, 0) <==> Compare(op, a, b)
  {
  }

  lemma DifferenceCanonical(a: StackElem, b: StackElem, n: nat)
    requires Symbolic(a) || Symbolic(b)
    requires (Symbolic(a) ==> Proper(a.expr.value, n)) && (Symbolic(b) ==> Proper(b.expr.value, n))
    ensures Canonical(Difference(a, b))
  {
    hide Canonical, Plus, Minus, Negate;
    var e := if Symbolic(a) then a.expr.value else b.expr.value;
    var f := if Symbolic(b) then b.expr.value else e;
    OperatorsCanonical(e, f, 0);
    if Symbolic(a) && !Symbolic(b) {
      ShiftCanonical(e, -b.concrete);
    } else if !Symbolic(a) {
      ShiftCanonical(Negate(f), a.concrete);
    }
  }

  lemma ShiftCanonical(e: Expr, k: int)
    requires Canonical(e)
    ensures Canonical(PlusConst(e, k)) && Canonical(MinusConst(e, -k))
  {
  }

  lemma ConcreteIsSame(a: StackElem, b: StackElem, d: Expr)
    requires Canonical(d) && forall x: Assignment :: Eval(d, x) == Val(a, x) - Val(b, x)
    ensures IsConcrete(d) <==> SameDifference(a, b)
  {
    hide Eval, Val, IsConcrete, Canonical;
    IsConcreteDecides(d);
    if IsConcrete(d) {
      forall x: Assignment, y: Assignment
        ensures Val(a, x) - Val(b, x) == Val(a, y) - Val(b, y)
      {
        assert Eval(d, x) == d.constant && Eval(d, y) == d.constant;
      }
    }
    if SameDifference(a, b) {
      forall x: Assignment
        ensures Eval(d, x) == d.constant
      {
        EvalUnit(d, 0);
        assert Val(a, x) - Val(b, x) == Val(a, Zero()) - Val(b, Zero());
      }
    }
  }

  // ------------------------------------------------------------------------------------------------
  // Memory
  // ------------------------------------------------------------------------------------------------

  /** Whatever is stored is what is loaded from there next: the same value for all inputs. */
  lemma StoredIsLoaded(c: Config, m: Machine, w: World, inverted: bool, addr: Addr, x: Assignment)
    requires Shadows(m, w, inverted) && Legal(m, Store(addr))
    ensures var m1 := Step(c, m, Store(addr));
            var m2 := Step(c, m1, Load(addr, Top(m).concrete));
            && m1.stack == Popped(m) && |m2.stack| == |m.stack| && m2.stack[..|m1.stack|] == m1.stack
            && Val(Top(m2), x) == Val(Top(m), x) && Top(m2).concrete == Top(m).concrete
  {
    hide Eval, Proper, IsConcrete, InputsOk, MemOk, PathOk, PredOk;
    assert ElemOk(Top(m), m.numInputs, In(m.inputs));
    if Symbolic(Top(m)) && IsConcrete(Top(m).expr.value) {
      ConstantEverywhere(Top(m).expr.value, x, In(m.inputs));
    }
  }

  lemma ConstantEverywhere(e: Expr, x: Assignment, y: Assignment)
    requires IsConcrete(e)
    ensures Eval(e, x) == Eval(e, y)
  {
    hide Eval;
    EvalAgrees(e, x, y);
  }

  /** Is addr written by the call? */
  predicate Writes(ev: Event, addr: Addr) {
    match ev
    case Store(a) => a == addr
    case NewInput(_, _, a, _) => a == addr
    case _ => false
  }

  /** No other call changes what is at an address, whatever happens on the stack. */
  lemma OthersKeepMemory(c: Config, m: Machine, ev: Event, addr: Addr, value: int)
    requires Legal(m, ev) && !Writes(ev, addr)
    ensures var m' := Step(c, m, ev);
            && (addr in m'.mem <==> addr in m.mem) && (addr in m.mem ==> m'.mem[addr] == m.mem[addr])
            && Top(Step(c, m', Load(addr, value))) == Top(Step(c, m, Load(addr, value)))
  {
    hide BinaryExpr, PushStep, UnaryResult, CompareResult, InputValue, IsConcrete, NegatePred, Variable;
    var m' := Step(c, m, ev);
    ResultsKeepMemory(m, if ev.ApplyUnary? then ev.uop else NEGATE, if ev.ApplyCompare? then ev.cop else EQ,
                      if ev.ApplyUnary? || ev.ApplyCompare? then ev.value else 0);
    LoadsSame(c, m, m', addr, value);
  }

  lemma ResultsKeepMemory(m: Machine, uop: UnaryOp, cop: CompareOp, value: int)
    ensures |m.stack| >= 1 ==> UnaryResult(m, uop, value).mem == m.mem
    ensures |m.stack| >= 2 ==> CompareResult(m, cop, value).mem == m.mem
  {
    hide Negate, Difference, IsConcrete, NegatePred;
  }

  lemma LoadsSame(c: Config, m: Machine, m': Machine, addr: Addr, value: int)
    ensures (addr in m'.mem <==> addr in m.mem) && (addr in m.mem ==> m'.mem[addr] == m.mem[addr]) ==>
              Top(Step(c, m', Load(addr, value))) == Top(Step(c, m, Load(addr, value)))
  {
  }

  /** A marked input is what is loaded from its address next, for all inputs. */
  lemma MarkedIsLoaded(c: Config, m: Machine, ev: Event, value: int, x: Assignment)
    requires ev.NewInput?
    ensures var m1 := Step(c, m, ev);
            var m2 := Step(c, m1, Load(ev.addr, value));
            m1.stack == m.stack && Symbolic(Top(m2)) && Val(Top(m2), x) == x(m.numInputs)
  {
    hide Eval, InputValue, Variable;
    EvalVariable(1, m.numInputs, x);
  }

  // ------------------------------------------------------------------------------------------------
  // Function calls
  // ------------------------------------------------------------------------------------------------

  /** A value that an instrumented function returns stays on the stack, for all inputs; what comes next is a value of a
      function that is not instrumented, unless another one returns. */
  lemma ReturnedIsKept(c: Config, m: Machine, value: int)
    requires |m.stack| == 1
    ensures Legal(m, Return)
    ensures var m1 := Step(c, m, Return);
            && Legal(m1, HandleReturn(value))
            && var m2 := Step(c, m1, HandleReturn(value));
               && m2.stack == m.stack && m2.mem == m.mem && m2.pred == m.pred
               && Legal(m2, HandleReturn(value))
               && Step(c, m2, HandleReturn(value)).stack == [StackElem(None, value)]
  {
  }

  /** A function that returns nothing, or is not instrumented: the value handed over is a concrete one. */
  lemma UninstrumentedIsConcrete(c: Config, m: Machine, value: int)
    ensures m.stack == [] ==> Legal(m, Return) && !Step(c, m, Return).returnValue
    ensures !Step(c, m, ClearStack).returnValue && Step(c, m, ClearStack).stack == []
    ensures !m.returnValue ==>
              && Legal(m, HandleReturn(value))
              && Step(c, m, HandleReturn(value)).stack == [StackElem(None, value)]
              && Step(c, m, HandleReturn(value)).pred == None
  {
  }
}
