/**
  Linear expressions over the program's inputs (symbolic_expression.cc) and predicates on them
  (symbolic_predicate.cc), over the mathematical integers.
 */
module SymbolicExpression {
  import opened Arith

  type Var = nat

  /** An assignment gives every variable a value. */
  type Assignment = Var -> int

  /** constant + sum of coeff[v] * v */
  datatype Expr = Expr(constant: int, coeff: map<Var, int>)

  function Coeff(m: map<Var, int>, v: Var): int {
    if v in m then m[v] else 0
  }

  ghost function Sum(m: map<Var, int>, a: Assignment, n: nat): int {
    if n == 0 then 0 else Sum(m, a, n - 1) + Coeff(m, n - 1) * a(n - 1)
  }

  /** A number above all elements of s. */
  ghost function Above(s: set<Var>): (n: nat)
    ensures forall v :: v in s ==> v < n
  {
    if s == {} then 0
    else
      var v :| v in s;
      var n := Above(s - {v});
      assert forall x :: x in s ==> x == v || x in s - {v};
      if v < n then n else v + 1
  }

  ghost function Eval(e: Expr, a: Assignment): int {
    e.constant + Sum(e.coeff, a, Above(e.coeff.Keys))
  }

  /** No coefficient is zero. */
  predicate Canonical(e: Expr) {
    forall v :: v in e.coeff ==> e.coeff[v] != 0
  }

  predicate IsConcrete(e: Expr) {
    e.coeff == map[]
  }

  predicate DependsOn(e: Expr, vars: set<Var>) {
    exists v :: v in e.coeff && v in vars
  }

  // ------------------------------------------------------------------------------------------------
  // What the operators compute
  // ------------------------------------------------------------------------------------------------

  function Negated(m: map<Var, int>): map<Var, int> {
    map v | v in m :: -m[v]
  }

  /** Terms of both, added where they meet; a sum of zero disappears. */
  function Merged(m: map<Var, int>, k: map<Var, int>): map<Var, int> {
    map v | v in m.Keys + k.Keys && !(v in m && v in k && m[v] + k[v] == 0) :: Coeff(m, v) + Coeff(k, v)
  }

  function Scaled(m: map<Var, int>, c: int): map<Var, int> {
    map v | v in m :: m[v] * c
  }

  function Constant(c: int): Expr { Expr(c, map[]) }

  function Variable(c: int, v: Var): Expr { Expr(0, map[v := c]) }

  function Negate(e: Expr): Expr { Expr(-e.constant, Negated(e.coeff)) }

  function Plus(e: Expr, f: Expr): Expr { Expr(e.constant + f.constant, Merged(e.coeff, f.coeff)) }

  function Minus(e: Expr, f: Expr): Expr { Expr(e.constant - f.constant, Merged(e.coeff, Negated(f.coeff))) }

  function PlusConst(e: Expr, c: int): Expr { e.(constant := e.constant + c) }

  function MinusConst(e: Expr, c: int): Expr { e.(constant := e.constant - c) }

  function TimesConst(e: Expr, c: int): Expr {
    if c == 0 then Constant(0) else Expr(e.constant * c, Scaled(e.coeff, c))
  }

  /** SymbolicExpr: the operators change the expression in place, term by term. */
  class SymbolicExpr {
    var constant: int
    var coeff: map<Var, int>

    function Value(): Expr
      reads this
    {
      Expr(constant, coeff)
    }

    constructor (c: int)
      ensures Value() == Constant(c)
    {
      constant, coeff := c, map[];
    }

    constructor Term(c: int, v: Var)
      ensures Value() == Variable(c, v)
    {
      constant, coeff := 0, map[v := c];
    }

    method NegateIt()
      modifies this
      ensures Value() == Negate(old(Value()))
    {
      constant := -constant;
      ghost var before := coeff;
      var todo := coeff.Keys;
      while todo != {}
        invariant constant == -old(constant) && coeff.Keys == before.Keys && todo <= before.Keys
        invariant forall v :: v in before ==> coeff[v] == if v in todo then before[v] else -before[v]
        decreases todo
      {
        var v :| v in todo;
        coeff := coeff[v := -coeff[v]];
        todo := todo - {v};
      }
      assert coeff == Negated(before);
    }

    /** operator+=; an expression may be added to itself if it has no zero coefficient, since none of its terms is
        erased then while the source walks through them. */
    method Add(e: SymbolicExpr)
      requires e == this ==> Canonical(Value())
      modifies this
      ensures Value() == Plus(old(Value()), old(e.Value()))
    {
      hide Merged;
      ghost var before := coeff;
      MergeNone(before);
      var terms := e.coeff;
      constant := constant + e.constant;
      var todo := terms.Keys;
      ghost var done: map<Var, int> := map[];
      while todo != {}
        invariant constant == old(constant) + old(e.constant)
        invariant done.Keys == terms.Keys - todo && todo <= terms.Keys
        invariant forall v :: v in done ==> done[v] == terms[v]
        invariant coeff == Merged(before, done)
        decreases todo
      {
        var v :| v in todo;
        if v !in coeff {
          coeff := coeff[v := terms[v]];
        } else {
          coeff := coeff[v := coeff[v] + terms[v]];
          if coeff[v] == 0 {
            assert e != this by {
              MergedAt(before, done, v);
            }
            coeff := coeff - {v};
          }
        }
        MergeOne(before, done, v, terms[v]);
        done := done[v := terms[v]];
        todo := todo - {v};
      }
      assert done == terms;
    }

    /** operator-=; the source erases terms while it walks through e, so e must be another expression. */
    method Subtract(e: SymbolicExpr)
      requires e != this
      modifies this
      ensures Value() == Minus(old(Value()), e.Value())
    {
      hide Merged;
      ghost var before := coeff;
      MergeNone(before);
      constant := constant - e.constant;
      var todo := e.coeff.Keys;
      ghost var done: map<Var, int> := map[];
      while todo != {}
        invariant constant == old(constant) - e.constant
        invariant done.Keys == e.coeff.Keys - todo && todo <= e.coeff.Keys
        invariant forall v :: v in done ==> done[v] == -e.coeff[v]
        invariant coeff == Merged(before, done)
        decreases todo
      {
        var v :| v in todo;
        if v !in coeff {
          coeff := coeff[v := -e.coeff[v]];
        } else {
          coeff := coeff[v := coeff[v] - e.coeff[v]];
          if coeff[v] == 0 {
            coeff := coeff - {v};
          }
        }
        MergeOne(before, done, v, -e.coeff[v]);
        done := done[v := -e.coeff[v]];
        todo := todo - {v};
      }
      assert done == Negated(e.coeff);
    }

    method AddConst(c: int)
      modifies this
      ensures Value() == PlusConst(old(Value()), c)
    {
      constant := constant + c;
    }

    method SubtractConst(c: int)
      modifies this
      ensures Value() == MinusConst(old(Value()), c)
    {
      constant := constant - c;
    }

    method MultiplyBy(c: int)
      modifies this
      ensures Value() == TimesConst(old(Value()), c)
    {
      if c == 0 {
        coeff := map[];
        constant := 0;
      } else {
        constant := constant * c;
        ghost var before := coeff;
        var todo := coeff.Keys;
        while todo != {}
          invariant constant == old(constant) * c && coeff.Keys == before.Keys && todo <= before.Keys
          invariant forall v :: v in before ==> coeff[v] == if v in todo then before[v] else before[v] * c
          decreases todo
        {
          var v :| v in todo;
          coeff := coeff[v := coeff[v] * c];
          todo := todo - {v};
        }
        assert coeff == Scaled(before, c);
      }
    }
  }

  lemma MergeNone(m: map<Var, int>)
    ensures Merged(m, map[]) == m
  {
  }

  /** A key of both is merged alike. */
  lemma MergedAt(m: map<Var, int>, k: map<Var, int>, u: Var)
    ensures u in Merged(m, k) <==> (u in m || u in k) && !(u in m && u in k && m[u] + k[u] == 0)
    ensures u in Merged(m, k) ==> Merged(m, k)[u] == Coeff(m, u) + Coeff(k, u)
  {
  }

  /** Merging in one more term is what the loops do for it. */
  lemma MergeOne(m: map<Var, int>, done: map<Var, int>, v: Var, c: int)
    requires v !in done
    ensures var now := Merged(m, done);
            Merged(m, done[v := c]) ==
            if v !in now then now[v := c] else if now[v] + c == 0 then now - {v} else now[v := now[v] + c]
  {
    hide Merged;
    var now, after := Merged(m, done), Merged(m, done[v := c]);
    var next := if v !in now then now[v := c] else if now[v] + c == 0 then now - {v} else now[v := now[v] + c];
    MergedAt(m, done, v);
    forall u: Var
      ensures (u in after <==> u in next) && (u in after ==> after[u] == next[u])
    {
      MergedAt(m, done, u);
      MergedAt(m, done[v := c], u);
    }
    assert after == next;
  }

  // ------------------------------------------------------------------------------------------------
  // What the operators mean
  // ------------------------------------------------------------------------------------------------

  lemma {:induction false} SumStops(m: map<Var, int>, a: Assignment, k: nat, n: nat)
    requires k <= n && forall v :: v in m ==> v < k
    ensures Sum(m, a, n) == Sum(m, a, k)
    decreases n
  {
    if k < n {
      SumStops(m, a, k, n - 1);
    }
  }

  /** Eval may add up any range that covers the variables. */
  lemma EvalAt(e: Expr, a: Assignment, n: nat)
    requires forall v :: v in e.coeff ==> v < n
    ensures Eval(e, a) == e.constant + Sum(e.coeff, a, n)
  {
    var k := Above(e.coeff.Keys);
    if k <= n {
      SumStops(e.coeff, a, k, n);
    } else {
      SumStops(e.coeff, a, n, k);
    }
  }

  lemma {:induction false} SumLinear(m: map<Var, int>, k: map<Var, int>, r: map<Var, int>, x: int, a: Assignment,
                                     n: nat)
    requires forall v: Var :: Coeff(r, v) == Coeff(m, v) + x * Coeff(k, v)
    ensures Sum(r, a, n) == Sum(m, a, n) + x * Sum(k, a, n)
  {
    if n > 0 {
      SumLinear(m, k, r, x, a, n - 1);
      Distribute(Coeff(m, n - 1), x, Coeff(k, n - 1), a(n - 1), Sum(k, a, n - 1));
    }
  }

  lemma MulSum(x: int, y: int, z: int)
    ensures x * (y + z) == x * y + x * z
  {
  }

  lemma Distribute(c: int, x: int, d: int, y: int, s: int)
    ensures (c + x * d) * y + x * s == c * y + x * (s + d * y)
  {
    assert (c + x * d) * y == c * y + x * (d * y);
    assert x * (s + d * y) == x * s + x * (d * y);
  }

  /** r = e + x * f, coefficient by coefficient, has that value. */
  lemma EvalLinear(e: Expr, f: Expr, r: Expr, x: int, a: Assignment)
    requires r.constant == e.constant + x * f.constant
    requires forall v: Var :: Coeff(r.coeff, v) == Coeff(e.coeff, v) + x * Coeff(f.coeff, v)
    ensures Eval(r, a) == Eval(e, a) + x * Eval(f, a)
  {
    hide Eval, Sum, Coeff, Above;
    var n := Above(e.coeff.Keys + f.coeff.Keys + r.coeff.Keys);
    EvalAt(e, a, n);
    EvalAt(f, a, n);
    EvalAt(r, a, n);
    SumLinear(e.coeff, f.coeff, r.coeff, x, a, n);
    MulSum(x, f.constant, Sum(f.coeff, a, n));
  }

  lemma EvalConstant(c: int, a: Assignment)
    ensures Eval(Constant(c), a) == c
  {
    EvalAt(Constant(c), a, 0);
  }

  lemma EvalVariable(c: int, v: Var, a: Assignment)
    ensures Eval(Variable(c, v), a) == c * a(v)
  {
    EvalAt(Variable(c, v), a, v + 1);
    SumZero(map[v := c], a, v);
  }

  lemma {:induction false} SumZero(m: map<Var, int>, a: Assignment, n: nat)
    requires forall v :: v in m ==> v >= n
    ensures Sum(m, a, n) == 0
  {
    if n > 0 {
      SumZero(m, a, n - 1);
    }
  }

  lemma NegateMeans(e: Expr, a: Assignment)
    ensures Eval(Negate(e), a) == -Eval(e, a)
  {
    hide Eval;
    EvalConstant(0, a);
    EvalLinear(Constant(0), e, Negate(e), -1, a);
  }

  lemma PlusMeans(e: Expr, f: Expr, a: Assignment)
    ensures Eval(Plus(e, f), a) == Eval(e, a) + Eval(f, a)
  {
    hide Eval;
    EvalLinear(e, f, Plus(e, f), 1, a);
  }

  lemma MinusMeans(e: Expr, f: Expr, a: Assignment)
    ensures Eval(Minus(e, f), a) == Eval(e, a) - Eval(f, a)
  {
    hide Eval;
    EvalLinear(e, f, Minus(e, f), -1, a);
  }

  lemma ConstantsMean(e: Expr, c: int, a: Assignment)
    ensures Eval(PlusConst(e, c), a) == Eval(e, a) + c
    ensures Eval(MinusConst(e, c), a) == Eval(e, a) - c
  {
    hide Eval;
    EvalConstant(c, a);
    EvalLinear(e, Constant(c), PlusConst(e, c), 1, a);
    EvalLinear(e, Constant(c), MinusConst(e, c), -1, a);
  }

  lemma TimesMeans(e: Expr, c: int, a: Assignment)
    ensures Eval(TimesConst(e, c), a) == Eval(e, a) * c
  {
    hide Eval, TimesConst, Coeff;
    EvalConstant(0, a);
    TimesCoeff(e, c);
    ZeroCoeff();
    EvalLinear(Constant(0), e, TimesConst(e, c), c, a);
    assert c * Eval(e, a) == Eval(e, a) * c;
  }

  lemma ZeroCoeff()
    ensures forall v: Var :: Coeff(Constant(0).coeff, v) == 0
  {
  }

  /** The operators are those of arithmetic, at every assignment. */
  lemma OperatorsMean(e: Expr, f: Expr, c: int, a: Assignment)
    ensures Eval(Negate(e), a) == -Eval(e, a)
    ensures Eval(Plus(e, f), a) == Eval(e, a) + Eval(f, a)
    ensures Eval(Minus(e, f), a) == Eval(e, a) - Eval(f, a)
    ensures Eval(PlusConst(e, c), a) == Eval(e, a) + c
    ensures Eval(MinusConst(e, c), a) == Eval(e, a) - c
    ensures Eval(TimesConst(e, c), a) == Eval(e, a) * c
  {
    hide Eval, Negate, Plus, Minus, PlusConst, MinusConst, TimesConst;
    NegateMeans(e, a);
    PlusMeans(e, f, a);
    MinusMeans(e, f, a);
    ConstantsMean(e, c, a);
    TimesMeans(e, c, a);
  }

  lemma TimesCoeff(e: Expr, c: int)
    ensures TimesConst(e, c).constant == c * e.constant
    ensures forall v: Var :: Coeff(TimesConst(e, c).coeff, v) == c * Coeff(e.coeff, v)
  {
  }

  /** No operator makes a zero coefficient. */
  lemma OperatorsCanonical(e: Expr, f: Expr, c: int)
    requires Canonical(e) && Canonical(f)
    ensures Canonical(Negate(e)) && Canonical(Plus(e, f)) && Canonical(Minus(e, f))
    ensures Canonical(PlusConst(e, c)) && Canonical(MinusConst(e, c)) && Canonical(TimesConst(e, c))
  {
    if c != 0 {
      forall v | v in e.coeff
        ensures e.coeff[v] * c != 0
      {
        NonZeroProduct(e.coeff[v], c);
      }
    }
  }

  lemma NonZeroProduct(x: int, y: int)
    requires x != 0 && y != 0
    ensures x * y != 0
  {
  }

  /** Only the variables that occur matter. */
  lemma EvalAgrees(e: Expr, a: Assignment, b: Assignment)
    requires forall v :: v in e.coeff ==> a(v) == b(v)
    ensures Eval(e, a) == Eval(e, b)
  {
    SumAgrees(e.coeff, a, b, Above(e.coeff.Keys));
  }

  lemma {:induction false} SumAgrees(m: map<Var, int>, a: Assignment, b: Assignment, n: nat)
    requires forall v :: v in m ==> a(v) == b(v)
    ensures Sum(m, a, n) == Sum(m, b, n)
  {
    if n > 0 {
      SumAgrees(m, a, b, n - 1);
    }
  }

  /** The assignment that is 1 at v and 0 elsewhere. */
  function Unit(v: Var): Assignment {
    (x: Var) => if x == v then 1 else 0
  }

  function Zero(): Assignment {
    (x: Var) => 0
  }

  lemma {:induction false} SumUnit(m: map<Var, int>, v: Var, n: nat)
    ensures Sum(m, Unit(v), n) == (if v < n then Coeff(m, v) else 0)
    ensures Sum(m, Zero(), n) == 0
  {
    if n > 0 {
      SumUnit(m, v, n - 1);
    }
  }

  lemma EvalUnit(e: Expr, v: Var)
    ensures Eval(e, Zero()) == e.constant
    ensures Eval(e, Unit(v)) == e.constant + Coeff(e.coeff, v)
  {
    var n := Above(e.coeff.Keys + {v});
    assert v in e.coeff.Keys + {v};
    EvalAt(e, Zero(), n);
    EvalAt(e, Unit(v), n);
    SumUnit(e.coeff, v, n);
  }

  /** operator==, which compares constants and coefficients, decides equality at every assignment. */
  lemma EqualityDecides(e: Expr, f: Expr)
    requires Canonical(e) && Canonical(f)
    ensures e == f <==> forall a: Assignment :: Eval(e, a) == Eval(f, a)
  {
    if forall a: Assignment :: Eval(e, a) == Eval(f, a) {
      assert Eval(e, Zero()) == Eval(f, Zero());
      EvalUnit(e, 0);
      EvalUnit(f, 0);
      forall v: Var
        ensures Coeff(e.coeff, v) == Coeff(f.coeff, v)
      {
        assert Eval(e, Unit(v)) == Eval(f, Unit(v));
        EvalUnit(e, v);
        EvalUnit(f, v);
      }
      assert forall v: Var :: v in e.coeff <==> Coeff(e.coeff, v) != 0;
      assert forall v: Var :: v in f.coeff <==> Coeff(f.coeff, v) != 0;
      assert e.coeff == f.coeff;
    }
  }

  /** IsConcrete decides whether the value is the same at every assignment. */
  lemma IsConcreteDecides(e: Expr)
    requires Canonical(e)
    ensures IsConcrete(e) <==> forall a: Assignment :: Eval(e, a) == e.constant
  {
    if IsConcrete(e) {
      forall a: Assignment
        ensures Eval(e, a) == e.constant
      {
        EvalAt(e, a, 0);
      }
    } else {
      var v :| v in e.coeff;
      EvalUnit(e, v);
      assert Eval(e, Unit(v)) != e.constant;
    }
  }

  // ------------------------------------------------------------------------------------------------
  // Predicates
  // ------------------------------------------------------------------------------------------------

  datatype CompareOp = EQ | NEQ | GT | LE | LT | GE

  /** The numbers of the enumeration compare_op_t. */
  function Code(op: CompareOp): nat {
    match op
    case EQ => 0
    case NEQ => 1
    case GT => 2
    case LE => 3
    case LT => 4
    case GE => 5
  }

  function NegateOp(op: CompareOp): CompareOp {
    match op
    case EQ => NEQ
    case NEQ => EQ
    case GT => LE
    case LE => GT
    case LT => GE
    case GE => LT
  }

  /** NegateCompareOp flips the lowest bit of the number. */
  lemma NegateOpFlipsBit(op: CompareOp)
    ensures Code(NegateOp(op)) == BitXor(Code(op), 1)
  {
    XorBit(Code(op), 0);
    assert Pow2(0) == 1;
  }

  predicate Compare(op: CompareOp, x: int, y: int) {
    match op
    case EQ => x == y
    case NEQ => x != y
    case GT => x > y
    case LE => x <= y
    case LT => x < y
    case GE => x >= y
  }

  /** expr op 0 */
  datatype Pred = Pred(op: CompareOp, expr: Expr)

  ghost predicate Holds(p: Pred, a: Assignment) {
    Compare(p.op, Eval(p.expr, a), 0)
  }

  function NegatePred(p: Pred): Pred {
    p.(op := NegateOp(p.op))
  }

  predicate EqualPred(p: Pred, q: Pred) {
    p.op == q.op && p.expr == q.expr
  }

  /** Negate is complement and its own inverse. */
  lemma NegateComplements(p: Pred, a: Assignment)
    ensures Holds(NegatePred(p), a) <==> !Holds(p, a)
    ensures NegatePred(NegatePred(p)) == p
  {
  }

  lemma HoldsAgrees(p: Pred, a: Assignment, b: Assignment)
    requires forall v :: v in p.expr.coeff ==> a(v) == b(v)
    ensures Holds(p, a) <==> Holds(p, b)
  {
    EvalAgrees(p.expr, a, b);
  }
}
