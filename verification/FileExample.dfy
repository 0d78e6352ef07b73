/** How numbers are written, and one execution with the file that holds it, byte by byte. */
module FileExample {
  import opened Arith
  import opened BasicTypes
  import opened Bytes
  import opened Options
  import opened Serialization
  import opened SymbolicExpression
  import opened SymbolicPath

  /** Byte i of a number is the digit for 256 to the i. */
  lemma {:induction false} Digit(x: nat, n: nat, i: nat)
    requires i < n
    ensures |PutNat(x, n)| == n && PutNat(x, n)[i] == (x / Pow256(i)) % 256
    decreases n
  {
    PutLength(x, n);
    if i > 0 {
      PutLength(x / 256, n - 1);
      Digit(x / 256, n - 1, i - 1);
      DivideTwice(x, Pow256(i - 1));
    }
  }

  lemma DivideTwice(x: nat, p: nat)
    requires p > 0
    ensures (x / 256) / p == x / (256 * p)
  {
    var q := x / 256;
    var a, b := q / p, q % p;
    assert x == 256 * q + x % 256 && q == a * p + b;
    assert a * (256 * p) == 256 * (a * p);
    DivModUnique(x, 256 * p, a, 256 * b + x % 256);
  }

  /** A small number in eight bytes, and in four */
  function Eight(b: Byte): Bytes { [b, 0, 0, 0, 0, 0, 0, 0] }

  function Four(b: Byte): Bytes { [b, 0, 0, 0] }

  lemma {:induction false} ZeroBytes(n: nat)
    ensures |PutNat(0, n)| == n && forall i :: 0 <= i < n ==> PutNat(0, n)[i] == 0
  {
    if n > 0 {
      ZeroBytes(n - 1);
    }
  }

  lemma SmallNumber(b: Byte, n: nat)
    requires n > 0
    ensures |PutNat(b, n)| == n && PutNat(b, n)[0] == b && forall i :: 0 < i < n ==> PutNat(b, n)[i] == 0
  {
    DivModUnique(b, 256, 0, b);
    ZeroBytes(n - 1);
  }

  lemma SmallNumbers(b: Byte)
    ensures PutNat(b, 1) == [b] && PutNat(b, 4) == Four(b) && PutNat(b, 8) == Eight(b)
  {
    hide PutNat;
    SmallNumber(b, 1);
    SmallNumber(b, 4);
    SmallNumber(b, 8);
  }

  lemma {:induction false} Large(n: nat)
    requires n > 0
    ensures Pow256(n) >= 256
  {
    if n > 1 {
      Large(n - 1);
    }
  }

  lemma SmallInts(b: Byte)
    ensures PutInt(b, 4) == Four(b) && PutInt(b, 8) == Eight(b)
  {
    hide PutNat, Pow256;
    SmallNumbers(b);
    Large(4);
    Large(8);
    DivModUnique(b, Pow256(4), 0, b);
    DivModUnique(b, Pow256(8), 0, b);
  }

  /** Negative numbers are written in two's complement. */
  lemma NegativeNumbers(x: int, n: nat)
    requires 0 <= x + Pow256(n) && x < 0
    ensures PutInt(x, n) == PutNat(x + Pow256(n), n)
  {
    hide PutNat;
    DivModUnique(x, Pow256(n), -1, x + Pow256(n));
  }

  /** The number of a type is its place in the enumeration type_t, and that of an operator its place in compare_op_t. */
  lemma Numbers()
    ensures var types := [UChar, Char, UShort, Short, UInt, BasicTypes.Int, ULong, Long, ULongLong, LongLong];
            forall i, x: int :: 0 <= i < 10 ==> |PutInput((types[i], x))| == 9 && PutInput((types[i], x))[0] == i
    ensures var ops := [EQ, NEQ, GT, LE, LT, GE];
            forall i, e: Expr :: 0 <= i < 6 ==> |PutPred(Pred(ops[i], e))| > 0 && PutPred(Pred(ops[i], e))[0] == i
  {
    hide PutExpr, Pow256, PutNat;
    var types := [UChar, Char, UShort, Short, UInt, BasicTypes.Int, ULong, Long, ULongLong, LongLong];
    forall i, x: int | 0 <= i < 10
      ensures |PutInput((types[i], x))| == 9 && PutInput((types[i], x))[0] == i
    {
      SmallNumbers(i);
      PutLength(x % Pow256(8), 8);
    }
    forall i | 0 <= i < 6
      ensures PutNat(i, 1) == [i]
    {
      SmallNumbers(i);
    }
  }

  // ------------------------------------------------------------------------------------------------
  // A whole file
  // ------------------------------------------------------------------------------------------------

  /** One unsigned input x = 3, at most 4, a rank; another communicator of the ranks 1 and 2; branch 5 with the
      constraint 9 * x + 2 > 0 */
  const CONSTRAINT := Pred(GT, Expr(2, map[0 := 9]))
  const RECORDED := Recorded([5], [0], [CONSTRAINT])
  const EXAMPLE := Exec(map[0 := UInt], [3], 7, map[0 := 4], Mpi([0], [], [[1, 2]], []), RECORDED)

  lemma One<T>(put: T -> Bytes, x: T)
    ensures PutMany(put, [x]) == put(x)
  {
    var front: seq<T> := [x][..0];
    assert front == [] && PutMany(put, front) == [];
    assert [] + put(x) == put(x);
  }

  lemma Two<T>(put: T -> Bytes, x: T, y: T)
    ensures PutMany(put, [x, y]) == put(x) + put(y)
  {
    assert [x, y][..1] == [x];
    One(put, x);
  }

  lemma OnlyKey(s: set<nat>)
    requires s == {0}
    ensures Sorted(s) == [0]
  {
    hide Sorted;
    SortedInRange(s);
  }

  lemma ConstraintBytes()
    ensures PutPred(CONSTRAINT) == [2, 1] + Eight(2) + Four(0) + Eight(9)
  {
    hide PutNat, PutInt, Sorted, Entries, Eight, Four;
    SmallNumbers(0);
    SmallNumbers(1);
    SmallNumbers(2);
    SmallInts(2);
    SmallInts(9);
    var e := CONSTRAINT.expr;
    assert e.coeff.Keys == {0};
    OnlyKey(e.coeff.Keys);
    OneEntry(e.coeff, 9);
    One(PutTerm, (0, 9));
  }

  lemma OneEntry(m: map<nat, int>, x: int)
    requires m == map[0 := x]
    ensures Entries(m, [0]) == [(0, x)]
  {
  }

  lemma RecordedBytes()
    ensures PutPath(RECORDED) ==
              Eight(1) + Four(5) + Eight(1) + Eight(0) + ([2, 1] + Eight(2) + Four(0) + Eight(9))
  {
    hide PutNat, PutInt, PutPred, Eight, Four;
    SmallNumbers(0);
    SmallNumbers(1);
    SmallInts(5);
    One(PutId, 5);
    One(PutSize, 0);
    One(PutPred, CONSTRAINT);
    ConstraintBytes();
  }

  lemma MpiBytes()
    ensures PutMpi(EXAMPLE.mpi) ==
              Eight(1) + Four(0) + Eight(0) + (Eight(1) + (Eight(2) + Four(1) + Four(2))) + Eight(0)
  {
    hide PutNat, PutInt, Eight, Four;
    SmallNumbers(0);
    SmallNumbers(1);
    SmallNumbers(2);
    SmallInts(0);
    SmallInts(1);
    SmallInts(2);
    One(PutId, 0);
    Two(PutId, 1, 2);
    One(PutIds, [1, 2]);
    assert PutMany(PutId, []) == [];
    assert PutIds([1, 2]) == Eight(2) + (Four(1) + Four(2));
    assert PutIds([]) == Eight(0) + [];
  }

  lemma InputBytes()
    ensures PutList(PutInput, TypedInputs(EXAMPLE.vars, EXAMPLE.inputs, [0])) == Eight(1) + ([4] + Eight(3))
    ensures PutList(PutLimit, Entries(EXAMPLE.limits, [0])) == Eight(1) + (Four(0) + Eight(4))
  {
    hide PutNat, PutInt, Eight, Four;
    SmallNumbers(1);
    SmallNumbers(4);
    SmallInts(0);
    SmallInts(3);
    SmallInts(4);
    assert TypedInputs(EXAMPLE.vars, EXAMPLE.inputs, [0]) == [(UInt, 3)];
    assert Entries(EXAMPLE.limits, [0]) == [(0, 4)];
    One(PutInput, (UInt, 3));
    One(PutLimit, (0, 4));
  }

  /** The order and the widths of everything that is written */
  lemma ExampleBytes()
    ensures Lists([0], EXAMPLE.limits.Keys) && forall v :: v in EXAMPLE.vars ==> v < |EXAMPLE.inputs|
    ensures PutExec(EXAMPLE, [0]) ==
              Eight(1) + ([4] + Eight(3)) + Eight(7) + (Eight(1) + (Four(0) + Eight(4))) +
              (Eight(1) + Four(0) + Eight(0) + (Eight(1) + (Eight(2) + Four(1) + Four(2))) + Eight(0)) +
              (Eight(1) + Four(5) + Eight(1) + Eight(0) + ([2, 1] + Eight(2) + Four(0) + Eight(9)))
  {
    hide PutNat, PutList, PutMpi, PutPath, Sorted, TypedInputs, Entries, Eight, Four;
    assert EXAMPLE.vars.Keys == {0};
    OnlyKey(EXAMPLE.vars.Keys);
    InputBytes();
    SmallNumbers(7);
    MpiBytes();
    RecordedBytes();
  }
}
