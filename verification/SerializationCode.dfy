/** The methods Serialize and Parse, over a growing string of bytes and an input stream. */
module SerializationCode {
  import opened Arith
  import opened BasicTypes
  import opened Bytes
  import opened Options
  import opened SymbolicExpression
  import opened SymbolicPath
  import opened Serialization

  // ------------------------------------------------------------------------------------------------
  // Writing
  // ------------------------------------------------------------------------------------------------

  lemma PutNone<T>(put: T -> Bytes)
    ensures PutMany(put, []) == []
  {
  }

  lemma AppendMany<T>(put: T -> Bytes, xs: seq<T>, n: nat)
    requires n < |xs|
    ensures PutMany(put, xs[..n + 1]) == PutMany(put, xs[..n]) + put(xs[n])
  {
    assert xs[..n + 1][..n] == xs[..n];
  }

  /** Taking the least key walks down the sorted ones. */
  lemma NextKey(todo: set<nat>, ks: seq<nat>, n: nat, v: nat)
    requires n <= |ks| && Sorted(todo) == ks[n..] && v in todo && forall u :: u in todo ==> v <= u
    ensures n < |ks| && ks[n] == v && Sorted(todo - {v}) == ks[n + 1..]
  {
    assert v == Least(todo);
    assert ks[n] == ks[n..][0] && ks[n + 1..] == ks[n..][1..];
    assert ([v] + Sorted(todo - {v}))[1..] == Sorted(todo - {v});
  }

  lemma AllKeys(ks: seq<nat>, n: nat)
    requires n <= |ks| && Sorted({}) == ks[n..]
    ensures n == |ks|
  {
  }

  /** The terms of a std::map in order */
  method SerializeTerms(coeff: map<Var, int>, s: Buffer)
    modifies s
    ensures s.bytes == old(s.bytes) + PutMany(PutTerm, Entries(coeff, Sorted(coeff.Keys)))
  {
    hide PutTerm, Sorted;
    ghost var ks := Sorted(coeff.Keys);
    ghost var es := Entries(coeff, ks);
    var todo := coeff.Keys;
    ghost var n := 0;
    while todo != {}
      invariant todo <= coeff.Keys && n <= |ks| && Sorted(todo) == ks[n..]
      invariant s.bytes == old(s.bytes) + PutMany(PutTerm, es[..n])
      decreases todo
    {
      HasLeast(todo);
      var v :| v in todo && forall u :: u in todo ==> v <= u;
      NextKey(todo, ks, n, v);
      s.Append(PutTerm((v, coeff[v])));
      AppendMany(PutTerm, es, n);
      todo := todo - {v};
      n := n + 1;
    }
    AllKeys(ks, n);
    assert es[..n] == es;
  }

  method SerializeExpr(e: Expr, s: Buffer)
    requires |e.coeff| < 128
    modifies s
    ensures s.bytes == old(s.bytes) + PutExpr(e)
  {
    hide PutNat, PutInt, PutMany, Entries, Sorted;
    s.Append(PutNat(|e.coeff|, 1));
    s.Append(PutInt(e.constant, 8));
    SerializeTerms(e.coeff, s);
    Regroup3(old(s.bytes), PutNat(|e.coeff|, 1), PutInt(e.constant, 8),
             PutMany(PutTerm, Entries(e.coeff, Sorted(e.coeff.Keys))));
  }

  lemma Regroup2(a: Bytes, b: Bytes, c: Bytes)
    ensures (a + b) + c == a + (b + c)
  {
  }

  lemma Regroup3(a: Bytes, b: Bytes, c: Bytes, d: Bytes)
    ensures ((a + b) + c) + d == a + (b + (c + d))
  {
  }

  method SerializePred(p: Pred, s: Buffer)
    requires |p.expr.coeff| < 128
    modifies s
    ensures s.bytes == old(s.bytes) + PutPred(p)
  {
    hide PutNat, PutExpr;
    s.Append(PutNat(Code(p.op), 1));
    SerializeExpr(p.expr, s);
  }

  method SerializeIds(xs: seq<int>, s: Buffer)
    modifies s
    ensures s.bytes == old(s.bytes) + PutIds(xs)
  {
    hide PutNat, PutId;
    s.Append(PutNat(|xs|, 8));
    var i := 0;
    while i < |xs|
      invariant i <= |xs|
      invariant s.bytes == old(s.bytes) + (PutNat(|xs|, 8) + PutMany(PutId, xs[..i]))
    {
      s.Append(PutId(xs[i]));
      AppendMany(PutId, xs, i);
      i := i + 1;
    }
    assert xs[..i] == xs;
  }

  method SerializeSizes(ns: seq<nat>, s: Buffer)
    modifies s
    ensures s.bytes == old(s.bytes) + PutMany(PutSize, ns)
  {
    hide PutSize, PutMany;
    PutNone(PutSize);
    var i := 0;
    while i < |ns|
      invariant i <= |ns| && s.bytes == old(s.bytes) + PutMany(PutSize, ns[..i])
    {
      s.Append(PutSize(ns[i]));
      AppendMany(PutSize, ns, i);
      Regroup2(old(s.bytes), PutMany(PutSize, ns[..i]), PutSize(ns[i]));
      i := i + 1;
    }
    assert ns[..i] == ns;
  }

  method SerializePreds(ps: seq<Pred>, s: Buffer)
    requires forall p :: p in ps ==> |p.expr.coeff| < 128
    modifies s
    ensures s.bytes == old(s.bytes) + PutMany(PutPred, ps)
  {
    hide PutPred, PutMany;
    PutNone(PutPred);
    var i := 0;
    while i < |ps|
      invariant i <= |ps| && s.bytes == old(s.bytes) + PutMany(PutPred, ps[..i])
    {
      assert ps[i] in ps;
      SerializePred(ps[i], s);
      AppendMany(PutPred, ps, i);
      Regroup2(old(s.bytes), PutMany(PutPred, ps[..i]), PutPred(ps[i]));
      i := i + 1;
    }
    assert ps[..i] == ps;
  }

  method SerializePath(r: Recorded, s: Buffer)
    requires |r.constraintsIdx| == |r.constraints| && forall p :: p in r.constraints ==> |p.expr.coeff| < 128
    modifies s
    ensures s.bytes == old(s.bytes) + PutPath(r)
  {
    hide PutNat, PutIds, PutPred, PutSize, PutMany;
    SerializeIds(r.branches, s);
    s.Append(PutNat(|r.constraints|, 8));
    SerializeSizes(r.constraintsIdx, s);
    SerializePreds(r.constraints, s);
    Regroup4(old(s.bytes), PutIds(r.branches), PutNat(|r.constraints|, 8), PutMany(PutSize, r.constraintsIdx),
             PutMany(PutPred, r.constraints));
  }

  lemma Regroup4(a: Bytes, b: Bytes, c: Bytes, d: Bytes, e: Bytes)
    ensures (((a + b) + c) + d) + e == a + (b + (c + (d + e)))
  {
  }

  method SerializeMpi(m: Mpi, s: Buffer)
    modifies s
    ensures s.bytes == old(s.bytes) + PutMpi(m)
  {
    hide PutNat, PutIds;
    SerializeIds(m.ranks, s);
    SerializeIds(m.nonDefault, s);
    ghost var start := s.bytes;
    s.Append(PutNat(|m.commMap|, 8));
    var i := 0;
    while i < |m.commMap|
      invariant i <= |m.commMap|
      invariant s.bytes == start + (PutNat(|m.commMap|, 8) + PutMany(PutIds, m.commMap[..i]))
    {
      SerializeIds(m.commMap[i], s);
      AppendMany(PutIds, m.commMap, i);
      i := i + 1;
    }
    assert m.commMap[..i] == m.commMap;
    SerializeIds(m.worldSizes, s);
    Regroup4(old(s.bytes), PutIds(m.ranks), PutIds(m.nonDefault), PutList(PutIds, m.commMap), PutIds(m.worldSizes));
  }

  // ------------------------------------------------------------------------------------------------
  // Reading
  // ------------------------------------------------------------------------------------------------

  method ReadTerm(s: Stream) returns (t: (Var, int))
    modifies s
    ensures Reads(old(s.State()), GetTerm, s.State(), t)
  {
    hide NatOf, IntOf;
    var v := s.ReadNat(4);
    var c := s.ReadInt(8);
    t := (v, c);
  }

  method ParseExpr(s: Stream) returns (ok: bool, e: Expr)
    modifies s
    ensures Reads(old(s.State()), GetExpr, s.State(), e) && ok == s.State().Some?
  {
    hide NatOf, IntOf, GetTerm, GetMany;
    var len := s.ReadNat(1);
    var constant := s.ReadInt(8);
    if s.failed {
      return false, Constant(0);
    }
    ghost var st := s.State();
    var coeff: map<Var, int> := map[];
    ghost var ts: seq<(Var, int)> := [];
    ReadsNone(st, GetTerm);
    var i := 0;
    while i < len
      invariant i <= len && Reads(st, Many(GetTerm, i), s.State(), ts) && coeff == MapOf(ts)
    {
      ghost var before := s.State();
      var t := ReadTerm(s);
      ReadsMore(st, GetTerm, i, before, ts, s.State(), t);
      coeff := coeff[t.0 := t.1];
      ghost var us := ts;
      ts := ts + [t];
      assert ts[..|us|] == us;
      i := i + 1;
    }
    e := Expr(constant, coeff);
    ok := !s.failed;
  }

  method ParsePred(s: Stream) returns (ok: bool, p: Pred)
    modifies s
    ensures Reads(old(s.State()), GetPred, s.State(), p) && ok == s.State().Some?
  {
    hide NatOf, IntOf, GetExpr;
    var code := s.ReadNat(1);
    var parsed, e := ParseExpr(s);
    p := Pred(OpOf(code), e);
    ok := parsed && !s.failed;
  }

  method ReadIds(s: Stream) returns (xs: seq<int>)
    modifies s
    ensures Reads(old(s.State()), GetIds, s.State(), xs)
  {
    hide NatOf, IntOf, GetMany, GetList;
    var len := s.ReadNat(8);
    ghost var st := s.State();
    xs := [];
    ReadsNone(st, GetId);
    var i := 0;
    while i < len
      invariant i <= len && Reads(st, Many(GetId, i), s.State(), xs)
    {
      ghost var before := s.State();
      var x := s.ReadInt(4);
      ReadsMore(st, GetId, i, before, xs, s.State(), x);
      xs := xs + [x];
      i := i + 1;
    }
    ReadsList(old(s.State()), GetId, st, len, s.State(), xs);
  }

  method ReadSizes(n: nat, s: Stream) returns (xs: seq<nat>)
    modifies s
    ensures Reads(old(s.State()), Many(GetSize, n), s.State(), xs)
  {
    hide NatOf, GetMany;
    ghost var st := s.State();
    xs := [];
    ReadsNone(st, GetSize);
    var i := 0;
    while i < n
      invariant i <= n && Reads(st, Many(GetSize, i), s.State(), xs)
    {
      ghost var before := s.State();
      var x := s.ReadNat(8);
      ReadsMore(st, GetSize, i, before, xs, s.State(), x);
      xs := xs + [x];
      i := i + 1;
    }
  }

  /** The loop over the predicates, which stops at the first that fails. */
  method ParsePreds(n: nat, s: Stream) returns (ok: bool, ps: seq<Pred>)
    modifies s
    ensures Reads(old(s.State()), Many(GetPred, n), s.State(), ps) && (ok ==> s.State().Some? || n == 0)
    ensures !ok ==> s.State().None?
  {
    hide GetPred;
    ghost var st := s.State();
    ps := [];
    ReadsNone(st, GetPred);
    var i := 0;
    while i < n
      invariant i <= n && Reads(st, Many(GetPred, i), s.State(), ps) && (i > 0 ==> s.State().Some?)
    {
      ghost var before := s.State();
      var parsed, p := ParsePred(s);
      if !parsed {
        FailsLater(st, GetPred, i, before, ps, n);
        return false, ps;
      }
      ReadsMore(st, GetPred, i, before, ps, s.State(), p);
      ps := ps + [p];
      i := i + 1;
    }
    ok := true;
  }

  /** When one of the elements cannot be read, the list cannot. */
  lemma {:induction false} FailsLater<T>(st: Option<Bytes>, get: Parser<T>, i: nat, before: Option<Bytes>, xs: seq<T>,
                                         n: nat)
    requires Reads(st, Many(get, i), before, xs) && i < n && (before.Some? ==> get(before.value).None?)
    ensures st.Some? ==> GetMany(get, n, st.value).None?
  {
    if i + 1 < n {
      FailsLater(st, get, i, before, xs, n - 1);
    }
  }

  /** The branches, in one block; if the bytes run out, those that are there. */
  method ReadBranches(s: Stream) returns (branches: seq<BranchId>)
    modifies s
    ensures s.State().Some? ==> Reads(old(s.State()), GetIds, s.State(), branches)
    ensures s.State().None? ==> old(s.State()).None? || GetIds(old(s.State()).value).None?
    ensures s.State().None? ==> branches == BranchesLeft(old(s.State()))
  {
    hide NatOf, IntOf, GetMany, IdsAt;
    var len := s.ReadNat(8);
    ghost var st := s.State();
    var got := s.ReadBlock(4 * len);
    branches := IdsAt(got, |got| / 4);
    if st.Some? {
      BlockIsMany(st.value, len);
      if !s.failed {
        IdsOfPrefix(st.value, 4 * len, len);
      }
    } else {
      NoIds();
    }
  }

  lemma NoIds()
    ensures IdsAt([], 0) == []
  {
  }

  method ParsePath(s: Stream) returns (ok: bool, r: Recorded)
    modifies s
    ensures Reads(old(s.State()), GetPath, s.State(), r) && ok == s.State().Some?
    ensures old(s.State()).None? || GetIds(old(s.State()).value).None? ==> r.branches == BranchesLeft(old(s.State()))
  {
    hide NatOf, GetMany, GetPred, GetIds, BranchesLeft;
    var branches := ReadBranches(s);
    if s.failed {
      return false, Recorded(branches, [], []);
    }
    var len := s.ReadNat(8);
    var idx := ReadSizes(len, s);
    var parsed, ps := ParsePreds(len, s);
    r := Recorded(branches, idx, ps);
    if !parsed {
      return false, r;
    }
    ok := !s.failed;
  }

  method ReadInputs(s: Stream) returns (xs: seq<(Type, int)>)
    modifies s
    ensures Reads(old(s.State()), List(GetInput), s.State(), xs)
  {
    hide NatOf, IntOf, GetMany, GetList, TypeOf;
    var len := s.ReadNat(8);
    ghost var st := s.State();
    xs := [];
    ReadsNone(st, GetInput);
    var i := 0;
    while i < len
      invariant i <= len && Reads(st, Many(GetInput, i), s.State(), xs)
    {
      ghost var before := s.State();
      var code := s.ReadNat(1);
      var x := s.ReadInt(8);
      ReadsMore(st, GetInput, i, before, xs, s.State(), (TypeOf(code), x));
      xs := xs + [(TypeOf(code), x)];
      i := i + 1;
    }
    ReadsList(old(s.State()), GetInput, st, len, s.State(), xs);
  }

  method ReadLimits(s: Stream) returns (limits: map<int, int>, ghost xs: seq<(int, int)>)
    modifies s
    ensures Reads(old(s.State()), List(GetLimit), s.State(), xs) && limits == MapOf(xs)
  {
    hide NatOf, IntOf, GetMany, GetList;
    var len := s.ReadNat(8);
    ghost var st := s.State();
    limits, xs := map[], [];
    ReadsNone(st, GetLimit);
    var i := 0;
    while i < len
      invariant i <= len && Reads(st, Many(GetLimit, i), s.State(), xs) && limits == MapOf(xs)
    {
      ghost var before := s.State();
      var first := s.ReadInt(4);
      var second := s.ReadInt(8);
      ReadsMore(st, GetLimit, i, before, xs, s.State(), (first, second));
      limits := limits[first := second];
      ghost var ys := xs;
      xs := xs + [(first, second)];
      assert xs[..|ys|] == ys;
      i := i + 1;
    }
    ReadsList(old(s.State()), GetLimit, st, len, s.State(), xs);
  }

  method ReadRows(s: Stream) returns (rows: seq<seq<int>>)
    modifies s
    ensures Reads(old(s.State()), List(GetIds), s.State(), rows)
  {
    hide NatOf, GetMany, GetList, GetIds;
    var len := s.ReadNat(8);
    ghost var st := s.State();
    rows := [];
    ReadsNone(st, GetIds);
    var i := 0;
    while i < len
      invariant i <= len && Reads(st, Many(GetIds, i), s.State(), rows)
    {
      ghost var before := s.State();
      var row := ReadIds(s);
      ReadsMore(st, GetIds, i, before, rows, s.State(), row);
      rows := rows + [row];
      i := i + 1;
    }
    ReadsList(old(s.State()), GetIds, st, len, s.State(), rows);
  }

  method ReadMpi(s: Stream) returns (m: Mpi)
    modifies s
    ensures Reads(old(s.State()), GetMpi, s.State(), m)
  {
    hide GetIds, GetList;
    var ranks := ReadIds(s);
    var nonDefault := ReadIds(s);
    var commMap := ReadRows(s);
    var worldSizes := ReadIds(s);
    m := Mpi(ranks, nonDefault, commMap, worldSizes);
  }

  // ------------------------------------------------------------------------------------------------
  // The execution
  // ------------------------------------------------------------------------------------------------

  lemma TypedInputsAt(vars: map<Var, Type>, inputs: seq<int>, ks: seq<Var>, i: nat)
    requires i < |ks| && forall j :: 0 <= j < |ks| ==> ks[j] in vars && ks[j] < |inputs|
    ensures ks[i] in vars && ks[i] < |inputs| && i < |TypedInputs(vars, inputs, ks)|
    ensures TypedInputs(vars, inputs, ks)[i] == (vars[ks[i]], inputs[ks[i]])
  {
  }

  lemma TypedInputsLength(vars: map<Var, Type>, inputs: seq<int>, ks: seq<Var>)
    requires forall j :: 0 <= j < |ks| ==> ks[j] in vars && ks[j] < |inputs|
    ensures |TypedInputs(vars, inputs, ks)| == |ks|
  {
  }

  method SerializeInputs(vars: map<Var, Type>, inputs: seq<int>, s: Buffer)
    requires forall v :: v in vars ==> v < |inputs|
    modifies s
    ensures s.bytes == old(s.bytes) + PutList(PutInput, TypedInputs(vars, inputs, Sorted(vars.Keys)))
  {
    hide PutInput, PutMany, Sorted, PutNat, TypedInputs, Lists, Increasing;
    ghost var ks := Sorted(vars.Keys);
    SortedLists(vars.Keys);
    ghost var xs := TypedInputs(vars, inputs, ks);
    TypedInputsLength(vars, inputs, ks);
    PutNone(PutInput);
    s.Append(PutNat(|vars|, 8));
    ghost var start := s.bytes;
    var todo := vars.Keys;
    ghost var n := 0;
    while todo != {}
      invariant todo <= vars.Keys && n <= |ks| && Sorted(todo) == ks[n..]
      invariant s.bytes == start + PutMany(PutInput, xs[..n])
      decreases todo
    {
      HasLeast(todo);
      var v :| v in todo && forall u :: u in todo ==> v <= u;
      NextKey(todo, ks, n, v);
      TypedInputsAt(vars, inputs, ks, n);
      ghost var before := s.bytes;
      s.Append(PutInput((vars[v], inputs[v])));
      AppendMany(PutInput, xs, n);
      assert s.bytes == before + PutInput(xs[n]);
      Regroup2(start, PutMany(PutInput, xs[..n]), PutInput(xs[n]));
      todo := todo - {v};
      n := n + 1;
    }
    AllKeys(ks, n);
    assert xs[..n] == xs;
  }

  /** The limits but those in todo are written, in the order ks. */
  ghost predicate LimitsWritten(limits: map<int, int>, todo: set<int>, ks: seq<int>, written: Bytes) {
    Lists(ks, limits.Keys - todo) && written == PutMany(PutLimit, Entries(limits, ks))
  }

  lemma LimitsStart(limits: map<int, int>)
    ensures LimitsWritten(limits, limits.Keys, [], [])
  {
  }

  lemma LimitsMore(limits: map<int, int>, todo: set<int>, ks: seq<int>, written: Bytes, v: int)
    requires todo <= limits.Keys && v in todo && LimitsWritten(limits, todo, ks, written)
    ensures LimitsWritten(limits, todo - {v}, ks + [v], written + PutLimit((v, limits[v])))
  {
    hide PutLimit;
    var es := Entries(limits, ks + [v]);
    assert es[..|ks|] == Entries(limits, ks);
  }

  lemma LimitsAll(limits: map<int, int>, ks: seq<int>, written: Bytes)
    requires LimitsWritten(limits, {}, ks, written)
    ensures Lists(ks, limits.Keys) && PutNat(|limits|, 8) + written == PutList(PutLimit, Entries(limits, ks))
  {
    hide PutLimit, PutNat;
    assert limits.Keys - {} == limits.Keys;
    ListedSize(ks, limits.Keys);
  }

  /** The limits, in the order in which the hash table happens to have them */
  method SerializeLimits(limits: map<int, int>, s: Buffer) returns (ghost ks: seq<int>)
    modifies s
    ensures Lists(ks, limits.Keys) && s.bytes == old(s.bytes) + PutList(PutLimit, Entries(limits, ks))
  {
    hide PutLimit, PutNat, Entries, Lists, LimitsWritten, PutList;
    s.Append(PutNat(|limits|, 8));
    ghost var start, written := s.bytes, [];
    var todo := limits.Keys;
    ks := [];
    LimitsStart(limits);
    while todo != {}
      invariant todo <= limits.Keys && LimitsWritten(limits, todo, ks, written)
      invariant s.bytes == start + written
      decreases todo
    {
      HasSome(todo);
      var v :| v in todo;
      s.Append(PutLimit((v, limits[v])));
      LimitsMore(limits, todo, ks, written, v);
      ks, written := ks + [v], written + PutLimit((v, limits[v]));
      todo := todo - {v};
    }
    LimitsAll(limits, ks, written);
    Regroup2(old(s.bytes), PutNat(|limits|, 8), written);
  }

  class SymbolicExecution {
    var vars: map<Var, Type>
    var inputs: seq<int>
    var tag: nat
    var limits: map<int, int>
    var mpi: Mpi
    var path: Recorded

    constructor (e: Exec)
      ensures Value() == e
    {
      vars, inputs, tag, limits, mpi, path := e.vars, e.inputs, e.tag, e.limits, e.mpi, e.path;
    }

    function Value(): Exec
      reads this
    {
      Exec(vars, inputs, tag, limits, mpi, path)
    }

    method Serialize(s: Buffer) returns (ghost ks: seq<int>)
      requires (forall v :: v in vars ==> v < |inputs|) && |path.constraintsIdx| == |path.constraints|
      requires forall p :: p in path.constraints ==> |p.expr.coeff| < 128
      modifies s
      ensures Lists(ks, limits.Keys) && s.bytes == old(s.bytes) + PutExec(Value(), ks)
    {
      hide PutMpi, PutPath, PutNat, PutList, TypedInputs, Entries, Sorted;
      SerializeInputs(vars, inputs, s);
      s.Append(PutNat(tag, 8));
      ks := SerializeLimits(limits, s);
      SerializeMpi(mpi, s);
      SerializePath(path, s);
      Regroup5(old(s.bytes), PutList(PutInput, TypedInputs(vars, inputs, Sorted(vars.Keys))), PutNat(tag, 8),
               PutList(PutLimit, Entries(limits, ks)), PutMpi(mpi), PutPath(path));
    }

    /** Overwrites the fields; what they hold after a failure is not said. */
    method Parse(s: Stream) returns (ok: bool)
      modifies this, s
      ensures Reads(old(s.State()), GetExec, s.State(), Value()) && ok == s.State().Some?
    {
      hide GetMpi, GetPath, GetList, NatOf, MapOf, Numbered, Values, BranchesLeft, GetIds;
      var xs := ReadInputs(s);
      vars, inputs := Numbered(xs), Values(xs);
      tag := s.ReadNat(8);
      ghost var ls: seq<(int, int)>;
      limits, ls := ReadLimits(s);
      mpi := ReadMpi(s);
      var parsed, r := ParsePath(s);
      path := r;
      ok := parsed && !s.failed;
    }
  }

  lemma Regroup5(a: Bytes, b: Bytes, c: Bytes, d: Bytes, e: Bytes, f: Bytes)
    ensures ((((a + b) + c) + d) + e) + f == a + (b + (c + (d + (e + f))))
  {
  }

  /** Writing an execution and reading it back, through the methods: true with everything after it still unread, and
      the execution itself exactly if its variables are 0 .. n-1 and it has n inputs. */
  method WriteAndRead(ex: SymbolicExecution, after: Bytes) returns (ok: bool, back: SymbolicExecution, s: Stream)
    requires ExecFits(ex.Value())
    ensures ok && s.State() == Some(after)
    ensures back.Value() == ex.Value() <==>
              |ex.inputs| == |ex.vars| && forall v: Var :: v in ex.vars <==> v < |ex.vars|
  {
    hide ExecFits, GetExec, PutExec, Lists;
    FitsWritten(ex.Value());
    var b := new Buffer();
    ghost var ks := ex.Serialize(b);
    s := new Stream(b.bytes + after);
    assert [] + PutExec(ex.Value(), ks) == PutExec(ex.Value(), ks);
    ExecRoundTrips(ex.Value(), ks, after);
    RoundTripExactly(ex.Value(), ks, after);
    back := new SymbolicExecution(Exec(map[], [], 0, map[], Mpi([], [], [], []), Recorded([], [], [])));
    ok := back.Parse(s);
  }

  lemma FitsWritten(e: Exec)
    requires ExecFits(e)
    ensures (forall v :: v in e.vars ==> v < |e.inputs|) && |e.path.constraintsIdx| == |e.path.constraints|
    ensures forall p :: p in e.path.constraints ==> |p.expr.coeff| < 128
  {
    hide Pow256, FitsInt, IdsFit, MpiFits;
  }
}
