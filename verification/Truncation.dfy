/** Files that were cut off: no parser is satisfied with the front of what was written. */
module Truncation {
  import opened Arith
  import opened BasicTypes
  import opened Bytes
  import opened Options
  import opened Serialization
  import opened SerializationCode
  import opened SymbolicExpression
  import opened SymbolicPath

  /** What is read does not depend on what follows it. */
  ghost predicate Extends<T(!new)>(get: Parser<T>) {
    forall s: Bytes, more: Bytes {:trigger get(s + more)} ::
      get(s).Some? ==> get(s + more) == Some((get(s).value.0, get(s).value.1 + more))
  }

  /** If it reads all of some bytes, it fails on every proper prefix of them. */
  lemma PrefixFails<T(!new)>(get: Parser<T>, bytes: Bytes, s: Bytes)
    requires Extends(get) && get(bytes).Some? && get(bytes).value.1 == []
    requires s < bytes
    ensures get(s).None?
  {
    var more := bytes[|s|..];
    assert bytes == s + more;
    assert get(s + more) == get(bytes);
    assert |more| > 0;
  }

  // ------------------------------------------------------------------------------------------------
  // The parsers
  // ------------------------------------------------------------------------------------------------

  lemma NatMore(s: Bytes, n: nat, more: Bytes)
    requires |s| >= n
    ensures GetNat(s + more, n) == Some((NatOf(s[..n]), s[n..] + more))
    ensures GetInt(s + more, n) == Some((IntOf(s[..n]), s[n..] + more))
  {
    hide NatOf, IntOf;
    assert (s + more)[..n] == s[..n] && (s + more)[n..] == s[n..] + more;
  }

  lemma NumbersExtend()
    ensures Extends<nat>(GetChar) && Extends<nat>(GetVar) && Extends<int>(GetId) && Extends<int>(GetValue)
    ensures Extends<nat>(GetSize)
  {
    hide Extends;
    CharsExtend();
    VarsExtend();
    IdsExtend();
    ValuesExtend();
    SizesExtend();
  }

  lemma CharsExtend()
    ensures Extends<nat>(GetChar)
  {
    hide NatOf, IntOf;
    forall s: Bytes, more: Bytes | |s| >= 1
      ensures GetChar(s + more) == Some((GetChar(s).value.0, GetChar(s).value.1 + more))
    {
      NatMore(s, 1, more);
    }
  }

  lemma VarsExtend()
    ensures Extends<nat>(GetVar)
  {
    hide NatOf, IntOf;
    forall s: Bytes, more: Bytes | |s| >= 4
      ensures GetVar(s + more) == Some((GetVar(s).value.0, GetVar(s).value.1 + more))
    {
      NatMore(s, 4, more);
    }
  }

  lemma IdsExtend()
    ensures Extends<int>(GetId)
  {
    hide NatOf, IntOf;
    forall s: Bytes, more: Bytes | |s| >= 4
      ensures GetId(s + more) == Some((GetId(s).value.0, GetId(s).value.1 + more))
    {
      NatMore(s, 4, more);
    }
  }

  lemma ValuesExtend()
    ensures Extends<int>(GetValue)
  {
    hide NatOf, IntOf;
    forall s: Bytes, more: Bytes | |s| >= 8
      ensures GetValue(s + more) == Some((GetValue(s).value.0, GetValue(s).value.1 + more))
    {
      NatMore(s, 8, more);
    }
  }

  lemma SizesExtend()
    ensures Extends<nat>(GetSize)
  {
    hide NatOf, IntOf;
    forall s: Bytes, more: Bytes | |s| >= 8
      ensures GetSize(s + more) == Some((GetSize(s).value.0, GetSize(s).value.1 + more))
    {
      NatMore(s, 8, more);
    }
  }

  lemma More<T(!new)>(get: Parser<T>, s: Bytes, more: Bytes)
    requires Extends(get) && get(s).Some?
    ensures get(s + more) == Some((get(s).value.0, get(s).value.1 + more))
  {
  }

  lemma {:induction false} ManyMore<T(!new)>(get: Parser<T>, n: nat, s: Bytes, more: Bytes)
    requires Extends(get) && GetMany(get, n, s).Some?
    ensures GetMany(get, n, s + more) == Some((GetMany(get, n, s).value.0, GetMany(get, n, s).value.1 + more))
  {
    hide Extends;
    if n > 0 {
      ManyMore(get, n - 1, s, more);
      More(get, GetMany(get, n - 1, s).value.1, more);
    }
  }

  lemma ListMore<T(!new)>(get: Parser<T>, s: Bytes, more: Bytes)
    requires Extends(get) && GetList(get, s).Some?
    ensures GetList(get, s + more) == Some((GetList(get, s).value.0, GetList(get, s).value.1 + more))
  {
    hide Extends, GetMany, GetNat;
    NumbersExtend();
    More<nat>(GetSize, s, more);
    var (n, s1) := GetSize(s).value;
    ManyMore(get, n, s1, more);
  }

  lemma ByPoints<T(!new)>(get: Parser<T>)
    requires forall s: Bytes, more: Bytes {:trigger get(s + more)} ::
               get(s).Some? ==> get(s + more) == Some((get(s).value.0, get(s).value.1 + more))
    ensures Extends(get)
  {
  }

  lemma TermsExtend()
    ensures Extends(GetTerm)
  {
    hide Extends, GetNat, GetInt;
    NumbersExtend();
    forall s: Bytes, more: Bytes | GetTerm(s).Some?
      ensures GetTerm(s + more) == Some((GetTerm(s).value.0, GetTerm(s).value.1 + more))
    {
      More<nat>(GetVar, s, more);
      More<int>(GetValue, GetVar(s).value.1, more);
    }
    ByPoints(GetTerm);
  }

  lemma ExprsExtend()
    ensures Extends(GetExpr)
  {
    hide Extends, GetNat, GetInt, GetMany, GetTerm, MapOf;
    NumbersExtend();
    TermsExtend();
    forall s: Bytes, more: Bytes | GetExpr(s).Some?
      ensures GetExpr(s + more) == Some((GetExpr(s).value.0, GetExpr(s).value.1 + more))
    {
      More<nat>(GetChar, s, more);
      var (n, s1) := GetChar(s).value;
      More<int>(GetValue, s1, more);
      ManyMore(GetTerm, n, GetValue(s1).value.1, more);
    }
    ByPoints(GetExpr);
  }

  lemma PredsExtend()
    ensures Extends(GetPred)
  {
    hide Extends, GetNat, GetExpr;
    NumbersExtend();
    ExprsExtend();
    forall s: Bytes, more: Bytes | GetPred(s).Some?
      ensures GetPred(s + more) == Some((GetPred(s).value.0, GetPred(s).value.1 + more))
    {
      More<nat>(GetChar, s, more);
      More(GetExpr, GetChar(s).value.1, more);
    }
    ByPoints(GetPred);
  }

  lemma IdListsExtend()
    ensures Extends(GetIds)
  {
    hide Extends, GetList, GetInt;
    NumbersExtend();
    forall s: Bytes, more: Bytes | GetIds(s).Some?
      ensures GetIds(s + more) == Some((GetIds(s).value.0, GetIds(s).value.1 + more))
    {
      ListMore<int>(GetId, s, more);
    }
    ByPoints(GetIds);
  }

  lemma PathsExtend()
    ensures Extends(GetPath)
  {
    hide Extends, GetNat, GetMany, GetIds, GetPred;
    NumbersExtend();
    IdListsExtend();
    PredsExtend();
    forall s: Bytes, more: Bytes | GetPath(s).Some?
      ensures GetPath(s + more) == Some((GetPath(s).value.0, GetPath(s).value.1 + more))
    {
      More(GetIds, s, more);
      var s1 := GetIds(s).value.1;
      More<nat>(GetSize, s1, more);
      var (n, s2) := GetSize(s1).value;
      ManyMore<nat>(GetSize, n, s2, more);
      ManyMore(GetPred, n, GetMany(GetSize, n, s2).value.1, more);
    }
    ByPoints(GetPath);
  }

  lemma MpisExtend()
    ensures Extends(GetMpi)
  {
    hide Extends, GetList, GetIds;
    IdListsExtend();
    forall s: Bytes, more: Bytes | GetMpi(s).Some?
      ensures GetMpi(s + more) == Some((GetMpi(s).value.0, GetMpi(s).value.1 + more))
    {
      More(GetIds, s, more);
      var s1 := GetIds(s).value.1;
      More(GetIds, s1, more);
      var s2 := GetIds(s1).value.1;
      ListMore(GetIds, s2, more);
      More(GetIds, GetList(GetIds, s2).value.1, more);
    }
    ByPoints(GetMpi);
  }

  lemma InputsExtend()
    ensures Extends(GetInput)
  {
    hide Extends, GetNat, GetInt, TypeOf;
    NumbersExtend();
    forall s: Bytes, more: Bytes | GetInput(s).Some?
      ensures GetInput(s + more) == Some((GetInput(s).value.0, GetInput(s).value.1 + more))
    {
      More<nat>(GetChar, s, more);
      More<int>(GetValue, GetChar(s).value.1, more);
    }
    ByPoints(GetInput);
  }

  lemma LimitsExtend()
    ensures Extends(GetLimit)
  {
    hide Extends, GetInt;
    NumbersExtend();
    forall s: Bytes, more: Bytes | GetLimit(s).Some?
      ensures GetLimit(s + more) == Some((GetLimit(s).value.0, GetLimit(s).value.1 + more))
    {
      More<int>(GetId, s, more);
      More<int>(GetValue, GetId(s).value.1, more);
    }
    ByPoints(GetLimit);
  }

  lemma ExecsExtend()
    ensures Extends(GetExec)
  {
    hide Extends, GetNat, GetList, GetMpi, GetPath, MapOf, Numbered, Values;
    NumbersExtend();
    InputsExtend();
    LimitsExtend();
    MpisExtend();
    PathsExtend();
    forall s: Bytes, more: Bytes | GetExec(s).Some?
      ensures GetExec(s + more) == Some((GetExec(s).value.0, GetExec(s).value.1 + more))
    {
      ListMore(GetInput, s, more);
      var s1 := GetList(GetInput, s).value.1;
      More<nat>(GetSize, s1, more);
      var s2 := GetSize(s1).value.1;
      ListMore(GetLimit, s2, more);
      var s3 := GetList(GetLimit, s2).value.1;
      More(GetMpi, s3, more);
      More(GetPath, GetMpi(s3).value.1, more);
    }
    ByPoints(GetExec);
  }

  // ------------------------------------------------------------------------------------------------
  // What was cut off is not read
  // ------------------------------------------------------------------------------------------------

  lemma CutExprFails(e: Expr, s: Bytes)
    requires ExprFits(e) && s < PutExpr(e)
    ensures GetExpr(s).None?
  {
    hide Extends, GetExpr, PutExpr, ExprFits;
    ExprRoundTrips(e);
    assert PutExpr(e) + [] == PutExpr(e);
    ExprsExtend();
    PrefixFails(GetExpr, PutExpr(e), s);
  }

  lemma CutPredFails(p: Pred, s: Bytes)
    requires ExprFits(p.expr) && s < PutPred(p)
    ensures GetPred(s).None?
  {
    hide Extends, GetPred, PutPred, ExprFits;
    PredRoundTrips(p);
    assert PutPred(p) + [] == PutPred(p);
    PredsExtend();
    PrefixFails(GetPred, PutPred(p), s);
  }

  lemma CutPathFails(r: Recorded, s: Bytes)
    requires PathFits(r) && s < PutPath(r)
    ensures GetPath(s).None?
  {
    hide Extends, GetPath, PutPath, PathFits;
    PathRoundTrips(r);
    assert PutPath(r) + [] == PutPath(r);
    PathsExtend();
    PrefixFails(GetPath, PutPath(r), s);
  }

  /** An execution that was cut off anywhere is not taken for an execution. */
  lemma CutExecFails(e: Exec, ks: seq<int>, s: Bytes)
    requires ExecFits(e) && Lists(ks, e.limits.Keys) && s < PutExec(e, ks)
    ensures GetExec(s).None?
  {
    hide Extends, GetExec, PutExec, ExecFits, Lists, Renumbered;
    InputsThere(e);
    ExecRoundTrips(e, ks, []);
    assert PutExec(e, ks) + [] == PutExec(e, ks);
    ExecsExtend();
    PrefixFails(GetExec, PutExec(e, ks), s);
  }

  /** Nothing that anything is read from can be cut off: the bytes that an execution takes up are all needed. */
  lemma CutAnyFails(s: Bytes, t: Bytes)
    requires GetExec(s).Some? && GetExec(s).value.1 == [] && t < s
    ensures GetExec(t).None?
  {
    hide Extends, GetExec;
    ExecsExtend();
    PrefixFails(GetExec, s, t);
  }

  /** Through the code: of an execution, only the first `length` bytes are there to be read. */
  method WriteCutAndRead(ex: SymbolicExecution, length: nat) returns (ok: bool, s: Stream, whole: nat)
    requires ExecFits(ex.Value())
    ensures whole > 0 && (length < whole ==> !ok && s.State().None?)
    ensures length >= whole ==> ok && s.State() == Some([])
  {
    hide ExecFits, GetExec, PutExec, Lists, Renumbered;
    FitsWritten(ex.Value());
    var b := new Buffer();
    ghost var ks := ex.Serialize(b);
    assert b.bytes == PutExec(ex.Value(), ks);
    whole := |b.bytes|;
    var back := new SymbolicExecution(Exec(map[], [], 0, map[], Mpi([], [], [], []), Recorded([], [], [])));
    ExecRoundTrips(ex.Value(), ks, []);
    assert b.bytes + [] == b.bytes;
    SomethingWritten(ex.Value(), ks);
    if length < whole {
      CutExecFails(ex.Value(), ks, b.bytes[..length]);
      s := new Stream(b.bytes[..length]);
    } else {
      s := new Stream(b.bytes);
    }
    ok := back.Parse(s);
  }

  lemma SomethingWritten(e: Exec, ks: seq<int>)
    requires Lists(ks, e.limits.Keys) && forall v :: v in e.vars ==> v < |e.inputs|
    ensures |PutExec(e, ks)| > 0
  {
    hide PutMpi, PutPath, PutList, Entries, TypedInputs;
    PutLength(e.tag, 8);
  }
}
