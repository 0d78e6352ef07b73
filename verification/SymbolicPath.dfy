/** The recorded path of an execution (symbolic_path.cc): branches, and the constraints that are kept. */
module SymbolicPath {
  import opened Arith
  import opened Options
  import opened SymbolicExpression

  type BranchId = int

  const CALL_ID: BranchId := -1
  const RETURN_ID: BranchId := -2

  /** Which way a branch went. */
  datatype State = TrueState | FalseState

  datatype Path = Path(
    branches: seq<BranchId>,
    constraints: seq<Pred>,
    constraintsIdx: seq<nat>,
    hash: map<BranchId, State>,
    branchSet: set<BranchId>)

  const EMPTY_PATH := Path([], [], [], map[], {})

  /** One call of Push with a branch id, a constraint or none, and the state of the branch. */
  datatype Pushed = Pushed(bid: BranchId, constraint: Option<Pred>, state: State)

  function PushStep(p: Path, x: Pushed): Path {
    var keep := x.constraint.Some? && (x.bid !in p.hash || p.hash[x.bid] != x.state);
    Path(
      p.branches + [x.bid],
      if keep then p.constraints + [x.constraint.value] else p.constraints,
      if keep then p.constraintsIdx + [|p.branches|] else p.constraintsIdx,
      if keep then p.hash[x.bid := x.state] else p.hash,
      p.branchSet)
  }

  class SymbolicPath {
    var branches: seq<BranchId>
    var constraints: seq<Pred>
    var constraintsIdx: seq<nat>
    var hash: map<BranchId, State>
    var branchSet: set<BranchId>

    function Value(): Path
      reads this
    {
      Path(branches, constraints, constraintsIdx, hash, branchSet)
    }

    constructor ()
      ensures Value() == EMPTY_PATH
    {
      branches, constraints, constraintsIdx, hash, branchSet := [], [], [], map[], {};
    }

    /** Push of a branch id alone, as for calls and returns: it goes to the set of branches only. */
    method PushId(bid: BranchId)
      modifies this
      ensures Value() == old(Value()).(branchSet := old(branchSet) + {bid})
    {
      branchSet := branchSet + {bid};
    }

    method Push(bid: BranchId, constraint: Option<Pred>, state: State)
      modifies this
      ensures Value() == PushStep(old(Value()), Pushed(bid, constraint, state))
    {
      if constraint.Some? {
        if bid !in hash || hash[bid] != state {
          hash := hash[bid := state];
          constraints := constraints + [constraint.value];
          constraintsIdx := constraintsIdx + [|branches|];
        }
      }
      branches := branches + [bid];
    }
  }

  // ------------------------------------------------------------------------------------------------
  // Which constraints are kept
  // ------------------------------------------------------------------------------------------------

  function PathOf(xs: seq<Pushed>): Path {
    if xs == [] then EMPTY_PATH else PushStep(PathOf(xs[..|xs| - 1]), xs[|xs| - 1])
  }

  /** Push j is the last one before k with a constraint at k's branch. */
  ghost predicate Previous(xs: seq<Pushed>, j: nat, k: nat) {
    && j < k < |xs| && xs[j].bid == xs[k].bid && xs[j].constraint.Some?
    && forall i :: j < i < k && xs[i].bid == xs[k].bid ==> xs[i].constraint.None?
  }

  /** A constraint is kept if its branch had none before or the previous one was for the other way. */
  ghost predicate Kept(xs: seq<Pushed>, k: nat) {
    && k < |xs| && xs[k].constraint.Some?
    && forall j: nat :: Previous(xs, j, k) ==> xs[j].state != xs[k].state
  }

  ghost function KeptBelow(xs: seq<Pushed>, n: nat): seq<nat>
    requires n <= |xs|
  {
    if n == 0 then [] else KeptBelow(xs, n - 1) + if Kept(xs, n - 1) then [n - 1] else []
  }

  /** The state of the last push before n with a constraint at bid. */
  ghost predicate LastState(xs: seq<Pushed>, n: nat, bid: BranchId, st: State)
    requires n <= |xs|
  {
    exists j: nat :: j < n && xs[j].bid == bid && xs[j].constraint.Some? && xs[j].state == st
                     && forall i :: j < i < n && xs[i].bid == bid ==> xs[i].constraint.None?
  }

  lemma LastStateStays(xs: seq<Pushed>, n: nat, bid: BranchId, st: State)
    requires n < |xs| && LastState(xs[..n], n, bid, st) && (xs[n].bid == bid ==> xs[n].constraint.None?)
    ensures LastState(xs, n + 1, bid, st)
  {
    var ys := xs[..n];
    var j: nat :| j < n && ys[j].bid == bid && ys[j].constraint.Some? && ys[j].state == st
                  && forall i :: j < i < n && ys[i].bid == bid ==> ys[i].constraint.None?;
    assert xs[j] == ys[j];
    assert forall i :: j < i < n ==> xs[i] == ys[i];
  }

  lemma LastStateNew(xs: seq<Pushed>, n: nat)
    requires n < |xs| && xs[n].constraint.Some?
    ensures LastState(xs, n + 1, xs[n].bid, xs[n].state)
  {
  }

  lemma {:induction false} HashIsLast(xs: seq<Pushed>, bid: BranchId)
    ensures bid in PathOf(xs).hash ==> LastState(xs, |xs|, bid, PathOf(xs).hash[bid])
    ensures bid !in PathOf(xs).hash ==> forall j :: 0 <= j < |xs| && xs[j].bid == bid ==> xs[j].constraint.None?
  {
    hide LastState;
    if xs != [] {
      var n := |xs| - 1;
      HashIsLast(xs[..n], bid);
      if xs[n].bid == bid && xs[n].constraint.Some? {
        LastStateNew(xs, n);
      } else if bid in PathOf(xs[..n]).hash {
        LastStateStays(xs, n, bid, PathOf(xs[..n]).hash[bid]);
      }
    }
  }

  lemma KeptDecided(xs: seq<Pushed>, n: nat)
    requires n < |xs|
    ensures var h := PathOf(xs[..n]).hash;
            Kept(xs, n) <==> xs[n].constraint.Some? && (xs[n].bid !in h || h[xs[n].bid] != xs[n].state)
  {
    var ys := xs[..n];
    var bid := xs[n].bid;
    HashIsLast(ys, bid);
    if xs[n].constraint.Some? && bid in PathOf(ys).hash {
      var st := PathOf(ys).hash[bid];
      assert LastState(ys, n, bid, st);
      var j: nat :| j < n && ys[j].bid == bid && ys[j].constraint.Some? && ys[j].state == st
                    && forall i :: j < i < n && ys[i].bid == bid ==> ys[i].constraint.None?;
      assert Previous(xs, j, n);
      forall k: nat | Previous(xs, k, n)
        ensures k == j
      {
      }
    } else if xs[n].constraint.Some? {
      forall k: nat | Previous(xs, k, n)
        ensures false
      {
      }
    }
  }

  lemma PreviousLocal(xs: seq<Pushed>, m: nat, j: nat, k: nat)
    requires k < m <= |xs|
    ensures Previous(xs[..m], j, k) <==> Previous(xs, j, k)
  {
    assert forall i :: 0 <= i < m ==> xs[..m][i] == xs[i];
  }

  lemma KeptLocal(xs: seq<Pushed>, m: nat, k: nat)
    requires k < m <= |xs|
    ensures Kept(xs[..m], k) <==> Kept(xs, k)
  {
    hide Previous;
    forall j: nat
      ensures Previous(xs[..m], j, k) <==> Previous(xs, j, k)
    {
      PreviousLocal(xs, m, j, k);
    }
    EarlierPrevious(xs, k);
    EarlierPrevious(xs[..m], k);
    assert forall i :: 0 <= i < m ==> xs[..m][i] == xs[i];
  }

  lemma EarlierPrevious(xs: seq<Pushed>, k: nat)
    ensures forall j: nat :: Previous(xs, j, k) ==> j < k < |xs|
  {
  }

  lemma {:induction false} KeptPrefix(xs: seq<Pushed>, m: nat, n: nat)
    requires n <= m <= |xs|
    ensures KeptBelow(xs[..m], n) == KeptBelow(xs, n)
  {
    hide Kept;
    if n > 0 {
      KeptPrefix(xs, m, n - 1);
      KeptLocal(xs, m, n - 1);
    }
  }

  /** p has recorded the pushes xs, with the constraints of those at the indices idx. */
  ghost predicate HasRecorded(p: Path, xs: seq<Pushed>, idx: seq<nat>) {
    && |p.branches| == |xs| && (forall k :: 0 <= k < |xs| ==> p.branches[k] == xs[k].bid)
    && p.constraintsIdx == idx && |p.constraints| == |idx|
    && forall c :: 0 <= c < |p.constraints| ==> idx[c] < |xs| && xs[idx[c]].constraint == Some(p.constraints[c])
  }

  lemma RecordedNext(p: Path, xs: seq<Pushed>, idx: seq<nat>, x: Pushed, keep: bool)
    requires HasRecorded(p, xs, idx)
    requires keep <==> x.constraint.Some? && (x.bid !in p.hash || p.hash[x.bid] != x.state)
    ensures HasRecorded(PushStep(p, x), xs + [x], if keep then idx + [|xs|] else idx)
  {
  }

  ghost predicate Reduced(xs: seq<Pushed>) {
    HasRecorded(PathOf(xs), xs, KeptBelow(xs, |xs|))
  }

  lemma ReducedNext(xs: seq<Pushed>)
    requires xs != [] && Reduced(xs[..|xs| - 1])
    requires KeptBelow(xs[..|xs| - 1], |xs| - 1) == KeptBelow(xs, |xs| - 1)
    requires var h, x := PathOf(xs[..|xs| - 1]).hash, xs[|xs| - 1];
             Kept(xs, |xs| - 1) <==> x.constraint.Some? && (x.bid !in h || h[x.bid] != x.state)
    ensures Reduced(xs)
  {
    hide Kept, HasRecorded, PushStep, PathOf, KeptBelow;
    var n := |xs| - 1;
    PathOfLast(xs);
    KeptBelowLast(xs, n);
    RecordedNext(PathOf(xs[..n]), xs[..n], KeptBelow(xs, n), xs[n], Kept(xs, n));
    assert xs[..n] + [xs[n]] == xs;
  }

  lemma PathOfLast(xs: seq<Pushed>)
    requires xs != []
    ensures PathOf(xs) == PushStep(PathOf(xs[..|xs| - 1]), xs[|xs| - 1])
  {
  }

  lemma KeptBelowLast(xs: seq<Pushed>, n: nat)
    requires n < |xs|
    ensures KeptBelow(xs, n + 1) == if Kept(xs, n) then KeptBelow(xs, n) + [n] else KeptBelow(xs, n)
  {
    hide Kept;
  }

  /** Constraint reduction, for any sequence of pushes: exactly the kept constraints are recorded, in order, each
      with the index of its branch. */
  lemma {:induction false} ReductionKeeps(xs: seq<Pushed>)
    ensures Reduced(xs)
  {
    hide Kept, KeptBelow, Reduced;
    if xs == [] {
      NothingReduced(xs);
    } else {
      var n := |xs| - 1;
      ReductionKeeps(xs[..n]);
      KeptPrefix(xs, n, n);
      KeptDecided(xs, n);
      ReducedNext(xs);
    }
  }

  lemma NothingReduced(xs: seq<Pushed>)
    requires xs == []
    ensures Reduced(xs)
  {
  }

  /** The recorded indices are strictly increasing, as the later binary search for a branch requires, and an index
      is among them exactly if the constraint there was kept. */
  lemma {:induction false} IndicesIncrease(xs: seq<Pushed>, n: nat)
    requires n <= |xs|
    ensures Increasing(KeptBelow(xs, n))
    ensures forall k: nat :: k in KeptBelow(xs, n) <==> k < n && Kept(xs, k)
  {
    hide Kept;
    if n > 0 {
      IndicesIncrease(xs, n - 1);
      var idx := KeptBelow(xs, n - 1);
      if Kept(xs, n - 1) {
        AppendIncreases(idx, n - 1);
      }
    }
  }

  lemma AppendIncreases(idx: seq<nat>, k: nat)
    requires Increasing(idx) && forall i :: i in idx ==> i < k
    ensures Increasing(idx + [k])
  {
    assert forall c :: 0 <= c < |idx| ==> idx[c] in idx;
  }

  // ------------------------------------------------------------------------------------------------
  // Finding the constraint of a branch
  // ------------------------------------------------------------------------------------------------

  /** std::lower_bound */
  method LowerBound(idx: seq<nat>, j: nat) returns (c: nat)
    requires Increasing(idx)
    ensures c <= |idx|
    ensures forall i :: 0 <= i < |idx| ==> (idx[i] < j <==> i < c)
  {
    var high := |idx|;
    c := 0;
    while c < high
      invariant c <= high <= |idx|
      invariant forall i :: 0 <= i < c ==> idx[i] < j
      invariant forall i :: high <= i < |idx| ==> idx[i] >= j
    {
      var mid := (c + high) / 2;
      if idx[mid] < j {
        c := mid + 1;
      } else {
        high := mid;
      }
    }
  }

  /** The constraint of the branch at position j of the path, or none, for which the search goes on to the next
      branch: it has none, or it was not kept. */
  method FindConstraint(constraintsIdx: seq<nat>, j: nat, ghost xs: seq<Pushed>) returns (cIdx: Option<nat>)
    requires constraintsIdx == PathOf(xs).constraintsIdx
    ensures cIdx.Some? <==> Kept(xs, j)
    ensures cIdx.Some? ==> cIdx.value < |constraintsIdx| && constraintsIdx[cIdx.value] == j
    ensures cIdx.Some? ==> cIdx.value < |PathOf(xs).constraints| && j < |xs|
                           && xs[j].constraint == Some(PathOf(xs).constraints[cIdx.value])
  {
    hide PathOf, Kept, KeptBelow;
    ReductionKeeps(xs);
    IndicesIncrease(xs, |xs|);
    KeptInside(xs, j);
    var idx := LowerBound(constraintsIdx, j);
    if idx == |constraintsIdx| || constraintsIdx[idx] != j {
      NotThere(constraintsIdx, j, idx);
      return None;
    }
    assert constraintsIdx[idx] in constraintsIdx;
    return Some(idx);
  }

  lemma KeptInside(xs: seq<Pushed>, k: nat)
    ensures Kept(xs, k) ==> k < |xs|
  {
  }

  lemma NotThere(idx: seq<nat>, j: nat, c: nat)
    requires c <= |idx| && (forall i :: 0 <= i < |idx| ==> (idx[i] < j <==> i < c)) && Increasing(idx)
    requires c == |idx| || idx[c] != j
    ensures j !in idx
  {
    forall i | 0 <= i < |idx|
      ensures idx[i] != j
    {
      if c < i {
        assert idx[c] < idx[i];
      }
    }
  }
}
