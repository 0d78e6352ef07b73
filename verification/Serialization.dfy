/**
  What an execution is written as, and read back from (Serialize and Parse of symbolic_expression.cc,
  symbolic_predicate.cc, symbolic_path.cc and symbolic_execution.cc).
 */
module Serialization {
  import opened Arith
  import opened BasicTypes
  import opened Bytes
  import opened Options
  import opened SymbolicExpression
  import opened SymbolicPath

  // ------------------------------------------------------------------------------------------------
  // Maps
  // ------------------------------------------------------------------------------------------------

  ghost predicate Lists<K(!new)>(ks: seq<K>, s: set<K>) {
    && (forall i, j :: 0 <= i < j < |ks| ==> ks[i] != ks[j])
    && (forall i :: 0 <= i < |ks| ==> ks[i] in s)
    && forall k :: k in s ==> k in ks
  }

  lemma {:induction false} LeastExists(s: set<nat>) returns (k: nat)
    requires s != {}
    ensures k in s && forall j :: j in s ==> k <= j
    decreases |s|
  {
    var z :| z in s;
    var rest := s - {z};
    assert forall j :: j in s ==> j == z || j in rest;
    if rest == {} {
      k := z;
    } else {
      k := LeastExists(rest);
      if z < k {
        k := z;
      }
    }
  }

  lemma HasLeast(s: set<nat>)
    requires s != {}
    ensures exists k :: k in s && forall j :: j in s ==> k <= j
  {
    var k := LeastExists(s);
  }

  lemma HasSome(s: set<int>)
    requires s != {}
    ensures exists k :: k in s
  {
    if forall k :: k !in s {
    }
  }

  ghost function Least(s: set<nat>): (k: nat)
    requires s != {}
    ensures k in s && forall j :: j in s ==> k <= j
  {
    HasLeast(s);
    var k :| k in s && forall j :: j in s ==> k <= j;
    k
  }

  ghost function Sorted(s: set<nat>): (ks: seq<nat>)
    ensures forall i :: 0 <= i < |ks| ==> ks[i] in s
    decreases |s|
  {
    if s == {} then [] else [Least(s)] + Sorted(s - {Least(s)})
  }

  lemma {:induction false} SortedLists(s: set<nat>)
    ensures Increasing(Sorted(s)) && Lists(Sorted(s), s) && |Sorted(s)| == |s|
    decreases |s|
  {
    if s != {} {
      var k := Least(s);
      var rest := Sorted(s - {k});
      SortedLists(s - {k});
      ConsLists(k, rest, s);
    }
  }

  lemma ConsLists(k: nat, rest: seq<nat>, s: set<nat>)
    requires k in s && (forall j :: j in s ==> k <= j) && Increasing(rest) && Lists(rest, s - {k})
    ensures Increasing([k] + rest) && Lists([k] + rest, s)
  {
    assert forall i :: 0 <= i < |rest| ==> rest[i] in rest;
    assert forall j :: j in [k] + rest <==> j == k || j in rest;
  }

  /** The entries of a map, in the order of its listed keys */
  function Entries<K, V>(m: map<K, V>, ks: seq<K>): seq<(K, V)>
    requires forall i :: 0 <= i < |ks| ==> ks[i] in m
  {
    seq(|ks|, i requires 0 <= i < |ks| => (ks[i], m[ks[i]]))
  }

  function MapOf<K, V>(es: seq<(K, V)>): map<K, V> {
    if es == [] then map[] else MapOf(es[..|es| - 1])[es[|es| - 1].0 := es[|es| - 1].1]
  }

  lemma {:induction false} MapOfHas<K, V>(es: seq<(K, V)>, ks: seq<K>, m: map<K, V>)
    requires |es| == |ks| && (forall k :: k in ks ==> k in m)
    requires forall i :: 0 <= i < |ks| ==> es[i] == (ks[i], m[ks[i]])
    ensures forall k :: k in MapOf(es) <==> k in ks
    ensures forall k :: k in ks ==> MapOf(es)[k] == m[k]
  {
    if es != [] {
      var n := |es| - 1;
      MapOfHas(es[..n], ks[..n], m);
      assert ks == ks[..n] + [ks[n]];
    }
  }

  lemma MapOfEntries<K(!new), V>(m: map<K, V>, ks: seq<K>)
    requires Lists(ks, m.Keys)
    ensures MapOf(Entries(m, ks)) == m
  {
    MapOfHas(Entries(m, ks), ks, m);
  }

  // ------------------------------------------------------------------------------------------------
  // Expressions and predicates
  // ------------------------------------------------------------------------------------------------

  function PutTerm(t: (Var, int)): Bytes {
    PutNat(t.0, 4) + PutInt(t.1, 8)
  }

  function GetTerm(s: Bytes): Option<((Var, int), Bytes)> {
    var (v, s1) :- GetVar(s);
    var (c, s2) :- GetValue(s1);
    Some(((v, c), s2))
  }

  ghost function PutExpr(e: Expr): Bytes {
    PutNat(|e.coeff|, 1) + (PutInt(e.constant, 8) + PutMany(PutTerm, Entries(e.coeff, Sorted(e.coeff.Keys))))
  }

  function GetExpr(s: Bytes): Option<(Expr, Bytes)> {
    var (n, s1) :- GetChar(s);
    var (c, s2) :- GetValue(s1);
    var (ts, s3) :- GetMany(GetTerm, n, s2);
    Some((Expr(c, MapOf(ts)), s3))
  }

  ghost function PutPred(p: Pred): Bytes {
    PutNat(Code(p.op), 1) + PutExpr(p.expr)
  }

  /** The operator with a number; the source does not say which one a number of none becomes. */
  function OpOf(code: nat): CompareOp {
    match code
    case 0 => EQ
    case 1 => NEQ
    case 2 => GT
    case 3 => LE
    case 4 => LT
    case _ => GE
  }

  function GetPred(s: Bytes): Option<(Pred, Bytes)> {
    var (c, s1) :- GetChar(s);
    var (e, s2) :- GetExpr(s1);
    Some((Pred(OpOf(c), e), s2))
  }

  /** Fewer than 128 terms, as Serialize asserts, and numbers that fit their types */
  predicate ExprFits(e: Expr) {
    && |e.coeff| < 128 && FitsInt(e.constant, 8)
    && forall v :: v in e.coeff ==> v < Pow256(4) && FitsInt(e.coeff[v], 8)
  }

  lemma TermRoundTrips(t: (Var, int))
    requires t.0 < Pow256(4) && FitsInt(t.1, 8)
    ensures RoundTrips(GetTerm, PutTerm(t), t)
  {
    hide Pow256, PutNat, PutInt, FitsInt, GetNat, GetInt;
    NumbersRoundTrip(0, t.0, 0, t.1, 0);
    var a, b := PutNat(t.0, 4), PutInt(t.1, 8);
    forall rest: Bytes
      ensures GetTerm(PutTerm(t) + rest) == Some((t, rest))
    {
      assert (a + b) + rest == a + (b + rest);
      assert RoundTrips<nat>(GetVar, a, t.0) && RoundTrips<int>(GetValue, b, t.1);
    }
  }

  lemma ExprRoundTrips(e: Expr)
    requires ExprFits(e)
    ensures RoundTrips(GetExpr, PutExpr(e), e)
  {
    hide Pow256, PutNat, PutInt, FitsInt, GetNat, GetInt, GetMany, PutMany, PutTerm, GetTerm, MapOf, Entries;
    var ks := Sorted(e.coeff.Keys);
    SortedLists(e.coeff.Keys);
    var ts := Entries(e.coeff, ks);
    TermsRoundTrip(e, ks);
    MapOfEntries(e.coeff, ks);
    CharFits(|e.coeff|);
    NumbersRoundTrip(|e.coeff|, 0, 0, e.constant, 0);
    var a, b, c := PutNat(|e.coeff|, 1), PutInt(e.constant, 8), PutMany(PutTerm, ts);
    forall rest: Bytes
      ensures GetExpr(PutExpr(e) + rest) == Some((e, rest))
    {
      assert (a + (b + c)) + rest == a + (b + (c + rest));
      assert RoundTrips<nat>(GetChar, a, |e.coeff|) && RoundTrips<int>(GetValue, b, e.constant);
      ManyRoundTrips(GetTerm, PutTerm, ts, rest);
    }
  }

  lemma CharFits(n: nat)
    requires n < 256
    ensures n < Pow256(1)
  {
    assert Pow256(0) == 1;
  }

  lemma TermsRoundTrip(e: Expr, ks: seq<Var>)
    requires ExprFits(e) && Lists(ks, e.coeff.Keys) && |ks| == |e.coeff.Keys|
    ensures |Entries(e.coeff, ks)| == |e.coeff|
    ensures forall t :: t in Entries(e.coeff, ks) ==> RoundTrips(GetTerm, PutTerm(t), t)
  {
    hide Pow256, RoundTrips, FitsInt;
    forall t | t in Entries(e.coeff, ks)
      ensures RoundTrips(GetTerm, PutTerm(t), t)
    {
      var i :| 0 <= i < |ks| && t == Entries(e.coeff, ks)[i];
      assert ks[i] in ks;
      TermRoundTrips(t);
    }
  }

  lemma PredRoundTrips(p: Pred)
    requires ExprFits(p.expr)
    ensures RoundTrips(GetPred, PutPred(p), p)
  {
    hide Pow256, PutNat, PutInt, FitsInt, GetNat, GetInt, PutExpr, GetExpr;
    ExprRoundTrips(p.expr);
    CharFits(Code(p.op));
    NumbersRoundTrip(Code(p.op), 0, 0, 0, 0);
    var a, b := PutNat(Code(p.op), 1), PutExpr(p.expr);
    forall rest: Bytes
      ensures GetPred(PutPred(p) + rest) == Some((p, rest))
    {
      assert (a + b) + rest == a + (b + rest);
      assert RoundTrips<nat>(GetChar, a, Code(p.op)) && RoundTrips(GetExpr, b, p.expr);
    }
  }

  // ------------------------------------------------------------------------------------------------
  // Paths and executions
  // ------------------------------------------------------------------------------------------------

  /** What is written of a path */
  datatype Recorded = Recorded(branches: seq<BranchId>, constraintsIdx: seq<nat>, constraints: seq<Pred>)

  datatype Mpi = Mpi(ranks: seq<int>, nonDefault: seq<int>, commMap: seq<seq<int>>, worldSizes: seq<int>)

  datatype Exec = Exec(
    vars: map<Var, Type>,
    inputs: seq<int>,
    tag: nat,
    limits: map<int, int>,
    mpi: Mpi,
    path: Recorded)

  function PutId(x: int): Bytes { PutInt(x, 4) }

  function PutSize(n: nat): Bytes { PutNat(n, 8) }

  function PutIds(xs: seq<int>): Bytes { PutList(PutId, xs) }

  function GetIds(s: Bytes): Option<(seq<int>, Bytes)> { GetList(GetId, s) }

  ghost function PutPath(r: Recorded): Bytes {
    PutIds(r.branches) +
    (PutNat(|r.constraints|, 8) + (PutMany(PutSize, r.constraintsIdx) + PutMany(PutPred, r.constraints)))
  }

  function GetPath(s: Bytes): Option<(Recorded, Bytes)> {
    var (branches, s1) :- GetIds(s);
    var (n, s2) :- GetSize(s1);
    var (idx, s3) :- GetMany(GetSize, n, s2);
    var (ps, s4) :- GetMany(GetPred, n, s3);
    Some((Recorded(branches, idx, ps), s4))
  }

  /** The branches that are left when there are too few bytes for as many as announced: those that are there. */
  function BranchesLeft(before: Option<Bytes>): seq<BranchId> {
    if before.None? || GetSize(before.value).None? then []
    else
      var s := GetSize(before.value).value.1;
      IdsAt(s, |s| / 4)
  }

  function PutMpi(m: Mpi): Bytes {
    PutIds(m.ranks) + (PutIds(m.nonDefault) + (PutList(PutIds, m.commMap) + PutIds(m.worldSizes)))
  }

  function GetMpi(s: Bytes): Option<(Mpi, Bytes)> {
    var (ranks, s1) :- GetIds(s);
    var (nonDefault, s2) :- GetIds(s1);
    var (commMap, s3) :- GetList(GetIds, s2);
    var (worldSizes, s4) :- GetIds(s3);
    Some((Mpi(ranks, nonDefault, commMap, worldSizes), s4))
  }

  /** The numbers of the enumeration type_t */
  function TypeCode(t: Type): nat {
    match t
    case UChar => 0
    case Char => 1
    case UShort => 2
    case Short => 3
    case UInt => 4
    case Int => 5
    case ULong => 6
    case Long => 7
    case ULongLong => 8
    case LongLong => 9
  }

  function TypeOf(code: nat): Type {
    match code
    case 0 => UChar
    case 1 => Char
    case 2 => UShort
    case 3 => Short
    case 4 => UInt
    case 5 => BasicTypes.Int
    case 6 => ULong
    case 7 => Long
    case 8 => ULongLong
    case _ => LongLong
  }

  function PutInput(x: (Type, int)): Bytes {
    PutNat(TypeCode(x.0), 1) + PutInt(x.1, 8)
  }

  function GetInput(s: Bytes): Option<((Type, int), Bytes)> {
    var (c, s1) :- GetChar(s);
    var (x, s2) :- GetValue(s1);
    Some(((TypeOf(c), x), s2))
  }

  function PutLimit(x: (int, int)): Bytes {
    PutInt(x.0, 4) + PutInt(x.1, 8)
  }

  function GetLimit(s: Bytes): Option<((int, int), Bytes)> {
    var (v, s1) :- GetId(s);
    var (x, s2) :- GetValue(s1);
    Some(((v, x), s2))
  }

  /** For each variable in order, its type and its input */
  function TypedInputs(vars: map<Var, Type>, inputs: seq<int>, ks: seq<Var>): seq<(Type, int)>
    requires forall i :: 0 <= i < |ks| ==> ks[i] in vars && ks[i] < |inputs|
  {
    seq(|ks|, i requires 0 <= i < |ks| => (vars[ks[i]], inputs[ks[i]]))
  }

  /** Serialize, if it takes the limits in the order ks, which a std::unordered_map leaves open */
  ghost function PutExec(e: Exec, ks: seq<int>): Bytes
    requires Lists(ks, e.limits.Keys) && forall v :: v in e.vars ==> v < |e.inputs|
  {
    PutList(PutInput, TypedInputs(e.vars, e.inputs, Sorted(e.vars.Keys))) +
    (PutNat(e.tag, 8) + (PutList(PutLimit, Entries(e.limits, ks)) + (PutMpi(e.mpi) + PutPath(e.path))))
  }

  function Numbered(xs: seq<(Type, int)>): map<Var, Type> {
    map i: nat | i < |xs| :: xs[i].0
  }

  function Values(xs: seq<(Type, int)>): seq<int> {
    seq(|xs|, i requires 0 <= i < |xs| => xs[i].1)
  }

  /** Parse, of a whole execution */
  function GetExec(s: Bytes): Option<(Exec, Bytes)> {
    var (xs, s1) :- GetList(GetInput, s);
    var (tag, s2) :- GetSize(s1);
    var (limits, s3) :- GetList(GetLimit, s2);
    var (mpi, s4) :- GetMpi(s3);
    var (path, s5) :- GetPath(s4);
    Some((Exec(Numbered(xs), Values(xs), tag, MapOf(limits), mpi, path), s5))
  }

  predicate IdsFit(xs: seq<int>) {
    |xs| < Pow256(8) && forall x :: x in xs ==> FitsInt(x, 4)
  }

  predicate PathFits(r: Recorded) {
    && IdsFit(r.branches) && |r.constraints| < Pow256(8) && |r.constraintsIdx| == |r.constraints|
    && (forall i :: i in r.constraintsIdx ==> i < Pow256(8))
    && forall p :: p in r.constraints ==> ExprFits(p.expr)
  }

  predicate MpiFits(m: Mpi) {
    && IdsFit(m.ranks) && IdsFit(m.nonDefault) && IdsFit(m.worldSizes)
    && |m.commMap| < Pow256(8) && forall row :: row in m.commMap ==> IdsFit(row)
  }

  /** The numbers fit the types that the source gives them, and each variable has an input. */
  predicate ExecFits(e: Exec) {
    && |e.vars| < Pow256(8) && e.tag < Pow256(8) && |e.limits| < Pow256(8)
    && (forall v :: v in e.vars ==> v < |e.inputs|) && (forall x :: x in e.inputs ==> FitsInt(x, 8))
    && (forall v :: v in e.limits ==> FitsInt(v, 4) && FitsInt(e.limits[v], 8))
    && MpiFits(e.mpi) && PathFits(e.path)
  }

  lemma IdsRoundTrip(xs: seq<int>)
    requires IdsFit(xs)
    ensures RoundTrips(GetIds, PutIds(xs), xs)
  {
    hide Pow256, PutInt, FitsInt, GetInt, PutList, GetList;
    forall x | x in xs
      ensures RoundTrips(GetId, PutId(x), x)
    {
      NumbersRoundTrip(0, 0, x, 0, 0);
    }
    forall rest: Bytes
      ensures GetIds(PutIds(xs) + rest) == Some((xs, rest))
    {
      ListRoundTrips(GetId, PutId, xs, rest);
    }
  }

  lemma RowsRoundTrip(rows: seq<seq<int>>)
    requires |rows| < Pow256(8) && forall row :: row in rows ==> IdsFit(row)
    ensures forall rest: Bytes :: GetList(GetIds, PutList(PutIds, rows) + rest) == Some((rows, rest))
  {
    hide Pow256, IdsFit, PutIds, GetIds, PutList, GetList, RoundTrips;
    forall row | row in rows
      ensures RoundTrips(GetIds, PutIds(row), row)
    {
      IdsRoundTrip(row);
    }
    forall rest: Bytes
      ensures GetList(GetIds, PutList(PutIds, rows) + rest) == Some((rows, rest))
    {
      ListRoundTrips(GetIds, PutIds, rows, rest);
    }
  }

  lemma MpiRoundTrips(m: Mpi)
    requires MpiFits(m)
    ensures RoundTrips(GetMpi, PutMpi(m), m)
  {
    hide Pow256, IdsFit, PutIds, GetIds, PutList, GetList;
    IdsRoundTrip(m.ranks);
    IdsRoundTrip(m.nonDefault);
    RowsRoundTrip(m.commMap);
    IdsRoundTrip(m.worldSizes);
    var a, b, c, d := PutIds(m.ranks), PutIds(m.nonDefault), PutList(PutIds, m.commMap), PutIds(m.worldSizes);
    forall rest: Bytes
      ensures GetMpi(PutMpi(m) + rest) == Some((m, rest))
    {
      assert (a + (b + (c + d))) + rest == a + (b + (c + (d + rest)));
      assert RoundTrips(GetIds, a, m.ranks) && RoundTrips(GetIds, b, m.nonDefault);
      assert RoundTrips(GetIds, d, m.worldSizes);
    }
  }

  lemma PathRoundTrips(r: Recorded)
    requires PathFits(r)
    ensures RoundTrips(GetPath, PutPath(r), r)
  {
    hide Pow256, IdsFit, PutIds, GetIds, PutNat, GetNat, PutMany, GetMany, PutSize, PutPred, GetPred, ExprFits;
    IdsRoundTrip(r.branches);
    NumbersRoundTrip(0, 0, 0, 0, |r.constraints|);
    PartsRoundTrip(r);
    var a, b := PutIds(r.branches), PutNat(|r.constraints|, 8);
    var c, d := PutMany(PutSize, r.constraintsIdx), PutMany(PutPred, r.constraints);
    forall rest: Bytes
      ensures GetPath(PutPath(r) + rest) == Some((r, rest))
    {
      assert (a + (b + (c + d))) + rest == a + (b + (c + (d + rest)));
      assert RoundTrips(GetIds, a, r.branches) && RoundTrips<nat>(GetSize, b, |r.constraints|);
      ManyRoundTrips(GetSize, PutSize, r.constraintsIdx, d + rest);
      ManyRoundTrips(GetPred, PutPred, r.constraints, rest);
    }
  }

  lemma PartsRoundTrip(r: Recorded)
    requires PathFits(r)
    ensures forall i :: i in r.constraintsIdx ==> RoundTrips<nat>(GetSize, PutSize(i), i)
    ensures forall p :: p in r.constraints ==> RoundTrips(GetPred, PutPred(p), p)
  {
    hide Pow256, IdsFit, PutNat, GetNat, PutPred, GetPred, ExprFits, RoundTrips;
    forall i | i in r.constraintsIdx
      ensures RoundTrips<nat>(GetSize, PutSize(i), i)
    {
      NumbersRoundTrip(0, 0, 0, 0, i);
    }
    forall p | p in r.constraints
      ensures RoundTrips(GetPred, PutPred(p), p)
    {
      PredRoundTrips(p);
    }
  }

  lemma InputRoundTrips(x: (Type, int))
    requires FitsInt(x.1, 8)
    ensures RoundTrips(GetInput, PutInput(x), x)
  {
    hide Pow256, PutNat, PutInt, FitsInt, GetNat, GetInt;
    CharFits(TypeCode(x.0));
    NumbersRoundTrip(TypeCode(x.0), 0, 0, x.1, 0);
    var a, b := PutNat(TypeCode(x.0), 1), PutInt(x.1, 8);
    forall rest: Bytes
      ensures GetInput(PutInput(x) + rest) == Some((x, rest))
    {
      assert (a + b) + rest == a + (b + rest);
      assert RoundTrips<nat>(GetChar, a, TypeCode(x.0)) && RoundTrips<int>(GetValue, b, x.1);
    }
  }

  lemma LimitRoundTrips(x: (int, int))
    requires FitsInt(x.0, 4) && FitsInt(x.1, 8)
    ensures RoundTrips(GetLimit, PutLimit(x), x)
  {
    hide Pow256, PutNat, PutInt, FitsInt, GetNat, GetInt;
    NumbersRoundTrip(0, 0, x.0, x.1, 0);
    var a, b := PutInt(x.0, 4), PutInt(x.1, 8);
    forall rest: Bytes
      ensures GetLimit(PutLimit(x) + rest) == Some((x, rest))
    {
      assert (a + b) + rest == a + (b + rest);
      assert RoundTrips<int>(GetId, a, x.0) && RoundTrips<int>(GetValue, b, x.1);
    }
  }

  /** The variables in order, renumbered from 0, with their inputs only */
  ghost function Renumbered(e: Exec): Exec
    requires forall v :: v in e.vars ==> v < |e.inputs|
  {
    var xs := TypedInputs(e.vars, e.inputs, Sorted(e.vars.Keys));
    e.(vars := Numbered(xs), inputs := Values(xs))
  }

  lemma InputsRoundTrip(e: Exec, rest: Bytes)
    requires ExecFits(e)
    ensures var xs := TypedInputs(e.vars, e.inputs, Sorted(e.vars.Keys));
            GetList(GetInput, PutList(PutInput, xs) + rest) == Some((xs, rest))
  {
    hide Pow256, FitsInt, PutList, GetList, RoundTrips, MpiFits, PathFits, Increasing, Lists, Sorted;
    var ks := Sorted(e.vars.Keys);
    SortedLists(e.vars.Keys);
    var xs := TypedInputs(e.vars, e.inputs, ks);
    forall x | x in xs
      ensures RoundTrips(GetInput, PutInput(x), x)
    {
      var i :| 0 <= i < |xs| && xs[i] == x;
      assert ks[i] in ks;
      assert x.1 in e.inputs;
      InputRoundTrips(x);
    }
    ListRoundTrips(GetInput, PutInput, xs, rest);
  }

  lemma LimitsRoundTrip(e: Exec, ks: seq<int>, rest: Bytes)
    requires ExecFits(e) && Lists(ks, e.limits.Keys)
    ensures GetList(GetLimit, PutList(PutLimit, Entries(e.limits, ks)) + rest) == Some((Entries(e.limits, ks), rest))
  {
    hide Pow256, FitsInt, PutList, GetList, RoundTrips, MpiFits, PathFits;
    ListedSize(ks, e.limits.Keys);
    var xs := Entries(e.limits, ks);
    forall x | x in xs
      ensures RoundTrips(GetLimit, PutLimit(x), x)
    {
      var i :| 0 <= i < |xs| && xs[i] == x;
      assert ks[i] in ks;
      LimitRoundTrips(x);
    }
    ListRoundTrips(GetLimit, PutLimit, xs, rest);
  }

  lemma {:induction false} ListedSize<K(!new)>(ks: seq<K>, s: set<K>)
    requires Lists(ks, s)
    ensures |ks| == |s|
  {
    if ks != [] {
      var n := |ks| - 1;
      assert ks == ks[..n] + [ks[n]];
      ListedSize(ks[..n], s - {ks[n]});
    }
  }

  /** Parsing what was serialized, with anything after it, leaves the rest unread and gives the execution with its
      variables renumbered. */
  lemma ExecRoundTrips(e: Exec, ks: seq<int>, rest: Bytes)
    requires ExecFits(e) && Lists(ks, e.limits.Keys)
    ensures GetExec(PutExec(e, ks) + rest) == Some((Renumbered(e), rest))
  {
    hide Pow256, PutNat, GetNat, PutList, GetList, PutMpi, GetMpi, PutPath, GetPath, MpiFits, PathFits, FitsInt;
    hide Entries, MapOf, TypedInputs, Numbered, Values, Sorted;
    var xs := TypedInputs(e.vars, e.inputs, Sorted(e.vars.Keys));
    var a, b := PutList(PutInput, xs), PutNat(e.tag, 8);
    var c, d, f := PutList(PutLimit, Entries(e.limits, ks)), PutMpi(e.mpi), PutPath(e.path);
    assert PutExec(e, ks) + rest == a + (b + (c + (d + (f + rest))));
    InputsRoundTrip(e, b + (c + (d + (f + rest))));
    NumbersRoundTrip(0, 0, 0, 0, e.tag);
    assert RoundTrips<nat>(GetSize, b, e.tag);
    LimitsRoundTrip(e, ks, d + (f + rest));
    MapOfEntries(e.limits, ks);
    MpiRoundTrips(e.mpi);
    assert RoundTrips(GetMpi, d, e.mpi);
    PathRoundTrips(e.path);
    assert RoundTrips(GetPath, f, e.path);
  }

  lemma {:induction false} IncreasingFloor(ks: seq<nat>, i: nat)
    requires Increasing(ks) && i < |ks|
    ensures ks[i] >= i
  {
    if i > 0 {
      IncreasingFloor(ks, i - 1);
    }
  }

  lemma {:induction false} IncreasingCeiling(ks: seq<nat>, i: nat, n: nat)
    requires Increasing(ks) && i < |ks| && forall k :: k in ks ==> k < n
    ensures ks[i] + (|ks| - i) <= n
    decreases |ks| - i
  {
    if i + 1 < |ks| {
      IncreasingCeiling(ks, i + 1, n);
    } else {
      assert ks[i] in ks;
    }
  }

  lemma SortedRange(s: set<nat>, i: nat)
    requires (forall v: nat :: v in s <==> v < |s|) && i < |s|
    ensures |Sorted(s)| == |s| && Sorted(s)[i] == i
  {
    hide Sorted;
    SortedLists(s);
    IncreasingFloor(Sorted(s), i);
    IncreasingCeiling(Sorted(s), i, |s|);
  }

  lemma TypedInputsShape(vars: map<Var, Type>, inputs: seq<int>, ks: seq<Var>)
    requires forall i :: 0 <= i < |ks| ==> ks[i] in vars && ks[i] < |inputs|
    ensures var xs := TypedInputs(vars, inputs, ks);
            && |xs| == |ks| && |Values(xs)| == |ks| && (forall v: Var :: v in Numbered(xs) <==> v < |ks|)
            && forall i :: 0 <= i < |ks| ==> xs[i] == (vars[ks[i]], inputs[ks[i]])
  {
  }

  lemma SortedInRange(s: set<nat>)
    requires forall v: nat :: v in s <==> v < |s|
    ensures |Sorted(s)| == |s| && forall i: nat :: i < |s| ==> Sorted(s)[i] == i
  {
    hide Sorted;
    SortedLists(s);
    forall i: nat | i < |s|
      ensures Sorted(s)[i] == i
    {
      SortedRange(s, i);
    }
  }

  lemma NumberedSame(vars: map<Var, Type>, inputs: seq<int>, ks: seq<Var>)
    requires |ks| == |vars| == |inputs| && forall v: Var :: v in vars <==> v < |vars|
    requires forall i: nat :: i < |ks| ==> ks[i] == i
    ensures Numbered(TypedInputs(vars, inputs, ks)) == vars && Values(TypedInputs(vars, inputs, ks)) == inputs
  {
    hide TypedInputs, Numbered;
    TypedInputsShape(vars, inputs, ks);
    NumberedIs(TypedInputs(vars, inputs, ks), vars);
  }

  lemma NumberedIs(xs: seq<(Type, int)>, vars: map<Var, Type>)
    requires (forall v: Var :: v in vars <==> v < |xs|) && forall i: nat :: i < |xs| ==> xs[i].0 == vars[i]
    ensures Numbered(xs) == vars
  {
  }

  lemma InRangeSame(e: Exec)
    requires |e.inputs| == |e.vars| && forall v: Var :: v in e.vars <==> v < |e.vars|
    ensures Renumbered(e) == e
  {
    hide Sorted, TypedInputs, Numbered, Values;
    SortedInRange(e.vars.Keys);
    NumberedSame(e.vars, e.inputs, Sorted(e.vars.Keys));
  }

  lemma RenumberedInRange(e: Exec)
    requires forall v :: v in e.vars ==> v < |e.inputs|
    ensures |Renumbered(e).inputs| == |e.vars| && forall v: Var :: v in Renumbered(e).vars <==> v < |e.vars|
  {
    hide Sorted, TypedInputs;
    SortedLists(e.vars.Keys);
    TypedInputsShape(e.vars, e.inputs, Sorted(e.vars.Keys));
  }

  /** The execution comes back as it was exactly if its variables are 0 .. n-1 and it has n inputs. */
  lemma RoundTripExactly(e: Exec, ks: seq<int>, rest: Bytes)
    requires ExecFits(e) && Lists(ks, e.limits.Keys)
    ensures GetExec(PutExec(e, ks) + rest) == Some((e, rest)) <==>
              |e.inputs| == |e.vars| && forall v: Var :: v in e.vars <==> v < |e.vars|
  {
    hide ExecFits, GetExec, PutExec, Renumbered, Lists;
    InputsThere(e);
    ExecRoundTrips(e, ks, rest);
    RenumberedInRange(e);
    if |e.inputs| == |e.vars| && forall v: Var :: v in e.vars <==> v < |e.vars| {
      InRangeSame(e);
    }
  }

  lemma InputsThere(e: Exec)
    requires ExecFits(e)
    ensures forall v :: v in e.vars ==> v < |e.inputs|
  {
  }
}
