/**
  Distances along a path of branches, calls and returns (concolic_search.cc): MinCflDistance, which scans the path
  once with a stack, and FindAlongCfg, which searches through the branches that come next.
 */
module CflDistance {
  import opened SymbolicPath

  /** What MinCflDistance comes to; it ends the program at an id that is no branch, call or return. */
  datatype Outcome = Exits | Infinite | Distance(n: nat)

  predicate AtMost(x: Outcome, d: nat) {
    x.Distance? && x.n <= d
  }

  /** The lesser distance, unless the program ends. */
  function Least(x: Outcome, y: Outcome): Outcome {
    if x.Exits? || y.Exits? then Exits
    else if x.Infinite? then y
    else if y.Infinite? || x.n <= y.n then x
    else y
  }

  // ------------------------------------------------------------------------------------------------
  // The scan
  // ------------------------------------------------------------------------------------------------

  function Hit(p: seq<BranchId>, bs: set<BranchId>, j: nat, dist: nat): Outcome
    requires j < |p|
  {
    if p[j] in bs then Distance(dist) else Infinite
  }

  /** The least distance to a branch of bs from position j on, with the distances at the open calls on the stack. */
  function Scan(p: seq<BranchId>, bs: set<BranchId>, j: nat, stack: seq<nat>, dist: nat): Outcome
    decreases |p| - j
  {
    if j >= |p| then Infinite
    else if p[j] >= 0 then Least(Hit(p, bs, j, dist), Scan(p, bs, j + 1, stack, dist + 1))
    else if p[j] == CALL_ID then Least(Hit(p, bs, j, dist), Scan(p, bs, j + 1, stack + [dist], dist))
    else if p[j] == RETURN_ID then
      if stack == [] then Hit(p, bs, j, dist)
      else Least(Hit(p, bs, j, dist), Scan(p, bs, j + 1, stack[..|stack| - 1], stack[|stack| - 1]))
    else Exits
  }

  function MinCfl(p: seq<BranchId>, bs: set<BranchId>, i: nat): Outcome {
    if i >= |p| then Infinite
    else if p[i] in bs then Distance(0)
    else Scan(p, bs, i + 1, [], 1)
  }

  method MinCflDistance(i: nat, p: seq<BranchId>, bs: set<BranchId>) returns (r: Outcome)
    ensures r == MinCfl(p, bs, i)
  {
    if i >= |p| {
      return Infinite;
    }
    if p[i] in bs {
      return Distance(0);
    }
    var stack: seq<nat> := [];
    var minDist := Infinite;
    var curDist := 1;
    var j := i + 1;
    while j < |p|
      invariant i < j <= |p| && !minDist.Exits?
      invariant MinCfl(p, bs, i) == Least(minDist, Scan(p, bs, j, stack, curDist))
    {
      if p[j] in bs {
        minDist := Least(minDist, Distance(curDist));
      }
      if p[j] >= 0 {
        curDist := curDist + 1;
      } else if p[j] == CALL_ID {
        stack := stack + [curDist];
      } else if p[j] == RETURN_ID {
        if stack == [] {
          return minDist;
        }
        curDist := stack[|stack| - 1];
        stack := stack[..|stack| - 1];
      } else {
        return Exits;
      }
      j := j + 1;
    }
    return minDist;
  }

  // ------------------------------------------------------------------------------------------------
  // The search
  // ------------------------------------------------------------------------------------------------

  /** Where the function that position j is in returns, or the end of the path. */
  function ReturnOf(p: seq<BranchId>, j: nat): (k: nat)
    ensures j <= k && (j <= |p| ==> k <= |p|) && (k < |p| ==> p[k] == RETURN_ID)
    decreases |p| - j
  {
    if j >= |p| || p[j] == RETURN_ID then j
    else if p[j] == CALL_ID then
      var k := ReturnOf(p, j + 1);
      if k >= |p| then k else ReturnOf(p, k + 1)
    else ReturnOf(p, j + 1)
  }

  method SkipUntilReturn(p: seq<BranchId>, start: nat) returns (pos: nat)
    requires start <= |p|
    ensures pos == ReturnOf(p, start)
    decreases |p| - start
  {
    pos := start;
    while pos < |p| && p[pos] != RETURN_ID
      invariant start <= pos <= |p| && ReturnOf(p, pos) == ReturnOf(p, start)
      decreases |p| - pos
    {
      if p[pos] == CALL_ID {
        pos := SkipUntilReturn(p, pos + 1);
        if pos >= |p| {
          return;
        }
        assert p[pos] == RETURN_ID;
      }
      pos := pos + 1;
    }
  }

  /** The branches that may come next from position j on: inside any of the calls there, and after them. */
  function Next(p: seq<BranchId>, j: nat): seq<nat>
    decreases |p| - j
  {
    if j >= |p| then []
    else if p[j] == CALL_ID then
      var k := ReturnOf(p, j + 1);
      Next(p, j + 1) + if k >= |p| then [] else Next(p, k + 1)
    else if p[j] >= 0 then [j]
    else []
  }

  /** Where collecting them ends. */
  function AfterNext(p: seq<BranchId>, j: nat): (k: nat)
    ensures j <= k && (j <= |p| ==> k <= |p|)
    decreases |p| - j
  {
    if j >= |p| then j
    else if p[j] == CALL_ID then
      var k := ReturnOf(p, j + 1);
      if k >= |p| then k else AfterNext(p, k + 1)
    else if p[j] >= 0 then j + 1
    else j
  }

  /** Collecting stays inside the function. */
  lemma {:induction false} AfterNextReturns(p: seq<BranchId>, j: nat)
    ensures ReturnOf(p, AfterNext(p, j)) == ReturnOf(p, j)
    decreases |p| - j
  {
    hide ReturnOf, Next, AfterNext;
    ReturnCases(p, j);
    if j < |p| && p[j] == CALL_ID {
      NextAtCall(p, j, []);
      var k := ReturnOf(p, j + 1);
      if k < |p| {
        AfterNextReturns(p, k + 1);
      } else {
        ReturnCases(p, k);
      }
    } else {
      NextAtOther(p, j);
    }
  }

  lemma NextAtCall(p: seq<BranchId>, j: nat, idxs: seq<nat>)
    requires j < |p| && p[j] == CALL_ID
    ensures var k := ReturnOf(p, j + 1);
            if k >= |p| then
              AfterNext(p, j) == k && idxs + Next(p, j) == idxs + Next(p, j + 1)
            else
              AfterNext(p, j) == AfterNext(p, k + 1) && idxs + Next(p, j) == (idxs + Next(p, j + 1)) + Next(p, k + 1)
  {
    hide ReturnOf;
  }

  lemma NextAtOther(p: seq<BranchId>, j: nat)
    requires j < |p| ==> p[j] != CALL_ID
    ensures Next(p, j) == if j < |p| && p[j] >= 0 then [j] else []
    ensures AfterNext(p, j) == if j < |p| && p[j] >= 0 then j + 1 else j
  {
  }

  method CollectNextBranches(p: seq<BranchId>, start: nat, before: seq<nat>) returns (pos: nat, idxs: seq<nat>)
    requires start <= |p|
    ensures pos == AfterNext(p, start) && idxs == before + Next(p, start)
    decreases |p| - start
  {
    hide ReturnOf, Next, AfterNext;
    pos, idxs := start, before;
    while pos < |p| && p[pos] == CALL_ID
      invariant start <= pos <= |p|
      invariant AfterNext(p, pos) == AfterNext(p, start)
      invariant idxs + Next(p, pos) == before + Next(p, start)
      decreases |p| - pos
    {
      AfterNextReturns(p, pos + 1);
      NextAtCall(p, pos, idxs);
      pos, idxs := CollectNextBranches(p, pos + 1, idxs);
      pos := SkipUntilReturn(p, pos);
      if pos >= |p| {
        return;
      }
      assert p[pos] == RETURN_ID;
      pos := pos + 1;
    }
    NextAtOther(p, pos);
    if pos < |p| && p[pos] >= 0 {
      idxs := idxs + [pos];
      pos := pos + 1;
    }
  }

  /** Is a branch of bs reached from position i in at most dist steps to a next branch? */
  predicate Found(p: seq<BranchId>, bs: set<BranchId>, i: nat, dist: nat)
    decreases dist, 0
  {
    i < |p| && (p[i] in bs || (dist > 0 && AnyFound(p, bs, Next(p, i + 1), dist - 1)))
  }

  predicate AnyFound(p: seq<BranchId>, bs: set<BranchId>, ks: seq<nat>, dist: nat)
    decreases dist, 1
  {
    exists j :: 0 <= j < |ks| && Found(p, bs, ks[j], dist)
  }

  lemma FoundHere(p: seq<BranchId>, bs: set<BranchId>, i: nat, dist: nat)
    ensures i >= |p| ==> !Found(p, bs, i, dist)
    ensures i < |p| && p[i] in bs ==> Found(p, bs, i, dist)
    ensures i < |p| && p[i] !in bs && dist == 0 ==> !Found(p, bs, i, dist)
  {
  }

  lemma FoundNext(p: seq<BranchId>, bs: set<BranchId>, i: nat, dist: nat)
    requires i < |p| && p[i] !in bs && dist > 0
    ensures Found(p, bs, i, dist) <==> AnyFound(p, bs, Next(p, i + 1), dist - 1)
  {
    hide Next;
  }

  method FindAlongCfg(i: nat, dist: nat, p: seq<BranchId>, bs: set<BranchId>) returns (found: bool)
    ensures found == Found(p, bs, i, dist)
    decreases dist
  {
    hide Found, Next;
    FoundHere(p, bs, i, dist);
    if i >= |p| {
      return false;
    }
    if p[i] in bs {
      return true;
    }
    if dist == 0 {
      return false;
    }
    var pos, idxs := CollectNextBranches(p, i + 1, []);
    FoundNext(p, bs, i, dist);
    assert idxs == Next(p, i + 1);
    var j := 0;
    while j < |idxs|
      invariant j <= |idxs| && forall k :: 0 <= k < j ==> !Found(p, bs, idxs[k], dist - 1)
    {
      var there := FindAlongCfg(idxs[j], dist - 1, p, bs);
      if there {
        return true;
      }
      j := j + 1;
    }
    return false;
  }

  // ------------------------------------------------------------------------------------------------
  // They agree
  // ------------------------------------------------------------------------------------------------

  function Plus(x: Outcome, n: nat): Outcome {
    if x.Distance? then Distance(x.n + n) else x
  }

  function PlusAll(stack: seq<nat>, n: nat): seq<nat> {
    seq(|stack|, i requires 0 <= i < |stack| => stack[i] + n)
  }

  lemma LeastPlus(x: Outcome, y: Outcome, n: nat)
    ensures Least(Plus(x, n), Plus(y, n)) == Plus(Least(x, y), n)
  {
  }

  lemma HitPlus(p: seq<BranchId>, bs: set<BranchId>, j: nat, dist: nat, n: nat)
    requires j < |p|
    ensures Hit(p, bs, j, dist + n) == Plus(Hit(p, bs, j, dist), n)
  {
  }

  lemma PlusAllPush(stack: seq<nat>, dist: nat, n: nat)
    ensures PlusAll(stack + [dist], n) == PlusAll(stack, n) + [dist + n]
  {
  }

  lemma PlusAllPop(stack: seq<nat>, n: nat)
    ensures |PlusAll(stack, n)| == |stack|
    ensures stack != [] ==> PlusAll(stack[..|stack| - 1], n) == PlusAll(stack, n)[..|stack| - 1]
    ensures stack != [] ==> PlusAll(stack, n)[|stack| - 1] == stack[|stack| - 1] + n
  {
  }

  /** Starting farther away, everything is that much farther away. */
  lemma {:induction false} ScanShifts(p: seq<BranchId>, bs: set<BranchId>, j: nat, stack: seq<nat>, dist: nat, n: nat)
    ensures Scan(p, bs, j, PlusAll(stack, n), dist + n) == Plus(Scan(p, bs, j, stack, dist), n)
    decreases |p| - j
  {
    hide Least, PlusAll;
    LeastPlus(Infinite, Infinite, n);
    if j < |p| {
      HitPlus(p, bs, j, dist, n);
    }
    if j < |p| {
      if p[j] >= 0 {
        ScanShifts(p, bs, j + 1, stack, dist + 1, n);
        LeastPlus(Hit(p, bs, j, dist), Scan(p, bs, j + 1, stack, dist + 1), n);
      } else if p[j] == CALL_ID {
        ScanShifts(p, bs, j + 1, stack + [dist], dist, n);
        PlusAllPush(stack, dist, n);
        LeastPlus(Hit(p, bs, j, dist), Scan(p, bs, j + 1, stack + [dist], dist), n);
      } else if p[j] == RETURN_ID {
        PlusAllPop(stack, n);
        if stack != [] {
          ScanShifts(p, bs, j + 1, stack[..|stack| - 1], stack[|stack| - 1], n);
          LeastPlus(Hit(p, bs, j, dist), Scan(p, bs, j + 1, stack[..|stack| - 1], stack[|stack| - 1]), n);
        }
      }
    }
  }

  /** The scan after the return at k of the function whose call is on top of the stack. */
  function Rest(p: seq<BranchId>, bs: set<BranchId>, k: nat, stack: seq<nat>): Outcome
    requires stack != []
  {
    if k >= |p| then Infinite else Scan(p, bs, k + 1, stack[..|stack| - 1], stack[|stack| - 1])
  }

  /** With calls open, the scan goes through the function's body and then on from its return. */
  lemma {:induction false} ScanSplits(p: seq<BranchId>, bs: set<BranchId>, j: nat, stack: seq<nat>, dist: nat)
    requires stack != [] && RETURN_ID !in bs
    ensures Scan(p, bs, j, stack, dist) == Least(Scan(p, bs, j, [], dist), Rest(p, bs, ReturnOf(p, j), stack))
    decreases |p| - j
  {
    hide ReturnOf, Least, Hit, Rest;
    ReturnCases(p, j);
    LeastLaws(Infinite, Infinite, Infinite);
    if j < |p| && p[j] >= 0 {
      ScanSplits(p, bs, j + 1, stack, dist + 1);
      LeastLaws(Hit(p, bs, j, dist), Scan(p, bs, j + 1, [], dist + 1), Rest(p, bs, ReturnOf(p, j), stack));
    } else if j < |p| && p[j] == CALL_ID {
      var k := ReturnOf(p, j + 1);
      ScanSplits(p, bs, j + 1, stack + [dist], dist);
      ScanSplits(p, bs, j + 1, [dist], dist);
      assert [] + [dist] == [dist];
      RestPushed(p, bs, k, stack, dist);
      RestPushed(p, bs, k, [], dist);
      var hit, body := Hit(p, bs, j, dist), Scan(p, bs, j + 1, [], dist);
      var rest := Rest(p, bs, ReturnOf(p, j), stack);
      var on := if k >= |p| then Infinite else Scan(p, bs, k + 1, [], dist);
      if k < |p| {
        ScanSplits(p, bs, k + 1, stack, dist);
      } else {
        RestEnds(p, bs, k, stack);
      }
      LeastLaws(body, on, rest);
      LeastLaws(hit, Least(body, on), rest);
    } else {
      LastSplits(p, bs, j, stack, dist);
    }
  }

  lemma LastSplits(p: seq<BranchId>, bs: set<BranchId>, j: nat, stack: seq<nat>, dist: nat)
    requires stack != [] && RETURN_ID !in bs && (j < |p| ==> p[j] < 0 && p[j] != CALL_ID)
    ensures Scan(p, bs, j, stack, dist) == Least(Scan(p, bs, j, [], dist), Rest(p, bs, ReturnOf(p, j), stack))
  {
  }

  lemma RestPushed(p: seq<BranchId>, bs: set<BranchId>, k: nat, stack: seq<nat>, dist: nat)
    ensures Rest(p, bs, k, stack + [dist]) == if k >= |p| then Infinite else Scan(p, bs, k + 1, stack, dist)
  {
    assert (stack + [dist])[..|stack|] == stack;
  }

  lemma RestEnds(p: seq<BranchId>, bs: set<BranchId>, k: nat, stack: seq<nat>)
    requires stack != [] && k >= |p|
    ensures Rest(p, bs, k, stack) == Infinite
  {
  }

  lemma LeastLaws(x: Outcome, y: Outcome, z: Outcome)
    ensures Least(Least(x, y), z) == Least(x, Least(y, z))
    ensures Least(x, Infinite) == x && Least(Infinite, x) == x
  {
  }

  lemma ReturnCases(p: seq<BranchId>, j: nat)
    ensures j < |p| && p[j] >= 0 ==> ReturnOf(p, j) == ReturnOf(p, j + 1)
    ensures j < |p| && p[j] == CALL_ID ==>
              var k := ReturnOf(p, j + 1); ReturnOf(p, j) == if k >= |p| then k else ReturnOf(p, k + 1)
    ensures j >= |p| || p[j] == RETURN_ID ==> ReturnOf(p, j) == j
  {
  }

  /** At a call, the distances inside it and those after it. */
  lemma ScanAtCall(p: seq<BranchId>, bs: set<BranchId>, j: nat, dist: nat)
    requires j < |p| && p[j] == CALL_ID && RETURN_ID !in bs && CALL_ID !in bs
    ensures var k := ReturnOf(p, j + 1);
            Scan(p, bs, j, [], dist) ==
            Least(Scan(p, bs, j + 1, [], dist), if k >= |p| then Infinite else Scan(p, bs, k + 1, [], dist))
  {
    hide ReturnOf, Least;
    ScanSplits(p, bs, j + 1, [dist], dist);
    assert [] + [dist] == [dist];
    LeastLaws(Scan(p, bs, j + 1, [dist], dist), Infinite, Infinite);
  }

  lemma ScanPositive(p: seq<BranchId>, bs: set<BranchId>, j: nat)
    ensures Scan(p, bs, j, [], 2) == Plus(Scan(p, bs, j, [], 1), 1)
    ensures !AtMost(Scan(p, bs, j, [], 1), 0)
  {
    ScanShifts(p, bs, j, [], 1, 1);
    ScanShifts(p, bs, j, [], 0, 1);
    assert PlusAll([], 1) == [];
  }

  lemma AnyFoundJoins(p: seq<BranchId>, bs: set<BranchId>, ks: seq<nat>, ls: seq<nat>, dist: nat)
    ensures AnyFound(p, bs, ks + ls, dist) <==> AnyFound(p, bs, ks, dist) || AnyFound(p, bs, ls, dist)
  {
    hide Found;
    if AnyFound(p, bs, ks, dist) {
      var j :| 0 <= j < |ks| && Found(p, bs, ks[j], dist);
      assert (ks + ls)[j] == ks[j];
    }
    if AnyFound(p, bs, ls, dist) {
      var j :| 0 <= j < |ls| && Found(p, bs, ls[j], dist);
      assert (ks + ls)[|ks| + j] == ls[j];
    }
  }

  lemma LeastAtMost(x: Outcome, y: Outcome, d: nat)
    requires Least(x, y) != Exits
    ensures AtMost(Least(x, y), d) <==> AtMost(x, d) || AtMost(y, d)
    ensures x != Exits && y != Exits
  {
  }

  /** What the search finds among the branches that come next is what the scan sees from there. */
  lemma {:induction false} NextAgrees(p: seq<BranchId>, bs: set<BranchId>, j: nat, dist: nat)
    requires RETURN_ID !in bs && CALL_ID !in bs && Scan(p, bs, j, [], 1) != Exits
    ensures AnyFound(p, bs, Next(p, j), dist) <==> AtMost(Scan(p, bs, j, [], 1), dist + 1)
    decreases |p| - j, 1
  {
    hide ReturnOf, Least, AnyFound, Found, Scan, Next;
    if j < |p| && p[j] == CALL_ID {
      CallAgrees(p, bs, j, dist);
    } else if j < |p| && p[j] >= 0 {
      BranchAgrees(p, bs, j, dist);
    } else {
      NextAtOther(p, j);
      NothingFound(p, bs, dist);
      ScanAtEnd(p, bs, j);
    }
  }

  lemma ScanAtEnd(p: seq<BranchId>, bs: set<BranchId>, j: nat)
    requires j < |p| ==> p[j] < 0 && p[j] != CALL_ID
    requires RETURN_ID !in bs
    ensures Scan(p, bs, j, [], 1) == Infinite || Scan(p, bs, j, [], 1) == Exits
  {
  }

  lemma {:induction false} CallAgrees(p: seq<BranchId>, bs: set<BranchId>, j: nat, dist: nat)
    requires j < |p| && p[j] == CALL_ID
    requires RETURN_ID !in bs && CALL_ID !in bs && Scan(p, bs, j, [], 1) != Exits
    ensures AnyFound(p, bs, Next(p, j), dist) <==> AtMost(Scan(p, bs, j, [], 1), dist + 1)
    decreases |p| - j, 0
  {
    hide Least, AnyFound, Found, Scan, Next, ReturnOf;
    ScanAtCall(p, bs, j, 1);
    NextAtCall(p, j, []);
    var k := ReturnOf(p, j + 1);
    var on := if k >= |p| then Infinite else Scan(p, bs, k + 1, [], 1);
    LeastAtMost(Scan(p, bs, j + 1, [], 1), on, dist + 1);
    NextAgrees(p, bs, j + 1, dist);
    assert [] + Next(p, j) == Next(p, j) && [] + Next(p, j + 1) == Next(p, j + 1);
    if k < |p| {
      NextAgrees(p, bs, k + 1, dist);
      AnyFoundJoins(p, bs, Next(p, j + 1), Next(p, k + 1), dist);
    }
  }

  lemma NothingFound(p: seq<BranchId>, bs: set<BranchId>, dist: nat)
    ensures !AnyFound(p, bs, [], dist)
  {
  }

  lemma {:induction false} BranchAgrees(p: seq<BranchId>, bs: set<BranchId>, j: nat, dist: nat)
    requires j < |p| && p[j] >= 0
    requires RETURN_ID !in bs && CALL_ID !in bs && Scan(p, bs, j, [], 1) != Exits
    ensures AnyFound(p, bs, Next(p, j), dist) <==> AtMost(Scan(p, bs, j, [], 1), dist + 1)
    decreases |p| - j, 0
  {
    hide Least;
    NextAtOther(p, j);
    assert Next(p, j)[0] == j;
    ScanPositive(p, bs, j + 1);
    LeastAtMost(Hit(p, bs, j, 1), Scan(p, bs, j + 1, [], 2), dist + 1);
    if dist > 0 {
      NextAgrees(p, bs, j + 1, dist - 1);
    }
  }

  predicate WellMarked(p: seq<BranchId>) {
    forall j :: 0 <= j < |p| ==> p[j] >= 0 || p[j] == CALL_ID || p[j] == RETURN_ID
  }

  lemma {:induction false} ScanGoesOn(p: seq<BranchId>, bs: set<BranchId>, j: nat, stack: seq<nat>, dist: nat)
    requires WellMarked(p)
    ensures Scan(p, bs, j, stack, dist) != Exits
    decreases |p| - j
  {
    if j < |p| {
      if p[j] >= 0 {
        ScanGoesOn(p, bs, j + 1, stack, dist + 1);
      } else if p[j] == CALL_ID {
        ScanGoesOn(p, bs, j + 1, stack + [dist], dist);
      } else if stack != [] {
        ScanGoesOn(p, bs, j + 1, stack[..|stack| - 1], stack[|stack| - 1]);
      }
    }
  }

  /** What the run-time assertions claim: for every path, balanced or cut off, every set of branches and every
      distance, the search succeeds exactly if the scan's minimum is no more, unless the scan ends the program;
      which it does for no path of branches, calls and returns. */
  lemma DistancesAgree(p: seq<BranchId>, bs: set<BranchId>, i: nat, dist: nat)
    requires RETURN_ID !in bs && CALL_ID !in bs
    ensures MinCfl(p, bs, i) != Exits ==> (Found(p, bs, i, dist) <==> AtMost(MinCfl(p, bs, i), dist))
    ensures WellMarked(p) ==> MinCfl(p, bs, i) != Exits
  {
    hide Scan, Next, AnyFound;
    if WellMarked(p) {
      ScanGoesOn(p, bs, i + 1, [], 1);
    }
    if i < |p| && p[i] !in bs && MinCfl(p, bs, i) != Exits {
      ScanPositive(p, bs, i + 1);
      if dist > 0 {
        NextAgrees(p, bs, i + 1, dist - 1);
      }
    }
  }

  /** Calls less returns from position j to before position k. */
  function Depth(p: seq<BranchId>, j: nat, k: nat): int
    requires j <= k <= |p|
  {
    if j == k then 0
    else Depth(p, j, k - 1) + if p[k - 1] == CALL_ID then 1 else if p[k - 1] == RETURN_ID then -1 else 0
  }

  lemma {:induction false} DepthAdds(p: seq<BranchId>, j: nat, m: nat, k: nat)
    requires j <= m <= k <= |p|
    ensures Depth(p, j, k) == Depth(p, j, m) + Depth(p, m, k)
  {
    if m < k {
      DepthAdds(p, j, m, k - 1);
    }
  }

  /** From j the depth is never below zero up to k, and the return at k, if there is one, brings it below. */
  ghost predicate Unmatched(p: seq<BranchId>, j: nat, k: nat)
    requires j <= k <= |p|
  {
    && (forall m :: j <= m <= k ==> Depth(p, j, m) >= 0)
    && (k < |p| ==> Depth(p, j, k + 1) == -1)
  }

  /** If the depth from j is back at zero at i, what is first unmatched from i is so from j. */
  lemma UnmatchedFurther(p: seq<BranchId>, j: nat, i: nat, k: nat)
    requires j <= i <= k <= |p| && Unmatched(p, i, k)
    requires Depth(p, j, i) == 0 && forall m :: j <= m <= i ==> Depth(p, j, m) >= 0
    ensures Unmatched(p, j, k)
  {
    hide Depth;
    forall m | i <= m <= k
      ensures Depth(p, j, m) >= 0
    {
      DepthAdds(p, j, i, m);
    }
    if k < |p| {
      DepthAdds(p, j, i, k + 1);
    }
  }

  lemma DepthOfOne(p: seq<BranchId>, j: nat)
    requires j < |p|
    ensures Depth(p, j, j) == 0
    ensures Depth(p, j, j + 1) == if p[j] == CALL_ID then 1 else if p[j] == RETURN_ID then -1 else 0
  {
  }

  /** A call and what is inside it, up to its return, stay above zero and come back to it. */
  lemma CallMatched(p: seq<BranchId>, j: nat, k: nat)
    requires j < k <= |p| && p[j] == CALL_ID && Unmatched(p, j + 1, k)
    ensures forall m :: j <= m <= k ==> Depth(p, j, m) >= 0
    ensures k < |p| ==> Depth(p, j, k + 1) == 0
  {
    hide Depth;
    DepthOfOne(p, j);
    forall m | j + 1 <= m <= k
      ensures Depth(p, j, m) >= 1
    {
      DepthAdds(p, j, j + 1, m);
    }
    if k < |p| {
      DepthAdds(p, j, j + 1, k + 1);
    }
  }

  /** SkipUntilReturn stops at the first return without a call, from where it starts. */
  lemma {:induction false} ReturnIsFirstUnmatched(p: seq<BranchId>, j: nat)
    requires j <= |p|
    ensures Unmatched(p, j, ReturnOf(p, j))
    decreases |p| - j
  {
    hide Depth, Unmatched, ReturnOf;
    StopsHere(p, j);
    if j < |p| && p[j] == CALL_ID {
      var k := ReturnOf(p, j + 1);
      ReturnIsFirstUnmatched(p, j + 1);
      CallMatched(p, j, k);
      if k < |p| {
        ReturnIsFirstUnmatched(p, k + 1);
        UnmatchedFurther(p, j, k + 1, ReturnOf(p, k + 1));
      } else {
        UnmatchedAtEnd(p, j, k);
      }
    } else if j < |p| && p[j] != RETURN_ID {
      ReturnIsFirstUnmatched(p, j + 1);
      DepthOfOne(p, j);
      UnmatchedFurther(p, j, j + 1, ReturnOf(p, j + 1));
    }
  }

  lemma StopsHere(p: seq<BranchId>, j: nat)
    requires j <= |p|
    ensures j == |p| || p[j] == RETURN_ID ==> ReturnOf(p, j) == j && Unmatched(p, j, j)
    ensures j < |p| && p[j] == CALL_ID ==>
              var k := ReturnOf(p, j + 1); ReturnOf(p, j) == if k >= |p| then k else ReturnOf(p, k + 1)
    ensures j < |p| && p[j] != CALL_ID && p[j] != RETURN_ID ==> ReturnOf(p, j) == ReturnOf(p, j + 1)
  {
  }

  lemma UnmatchedAtEnd(p: seq<BranchId>, j: nat, k: nat)
    requires j <= k == |p| && forall m :: j <= m <= k ==> Depth(p, j, m) >= 0
    ensures Unmatched(p, j, k)
  {
  }

  // ------------------------------------------------------------------------------------------------
  // Ids
  // ------------------------------------------------------------------------------------------------

  /** Branches are 0 and more, a call is -1, a return is -2. */
  predicate GoodId(id: BranchId) {
    id >= -2
  }

  /** At anything else, and only there, the program ends: on a path of good ids there is always an answer. */
  lemma {:induction false} GoodIdsDoNotExit(p: seq<BranchId>, bs: set<BranchId>, j: nat, stack: seq<nat>, dist: nat)
    requires forall id :: id in p ==> GoodId(id)
    ensures !Scan(p, bs, j, stack, dist).Exits?
    decreases |p| - j
  {
    if j < |p| {
      assert p[j] in p;
      if p[j] >= 0 {
        GoodIdsDoNotExit(p, bs, j + 1, stack, dist + 1);
      } else if p[j] == -1 {
        GoodIdsDoNotExit(p, bs, j + 1, stack + [dist], dist);
      } else if stack != [] {
        GoodIdsDoNotExit(p, bs, j + 1, stack[..|stack| - 1], stack[|stack| - 1]);
      }
    }
  }

  lemma BadIdExits(p: seq<BranchId>, bs: set<BranchId>, j: nat, stack: seq<nat>, dist: nat)
    requires j < |p| && !GoodId(p[j])
    ensures Scan(p, bs, j, stack, dist).Exits?
  {
  }

  /** The path * ( ( ( 1 2 ) 4 ) ( 5 ( 6 7 ) ) 8 ) 9 of the source's comment, with 3 for the current branch */
  const EXAMPLE: seq<BranchId> := [3, -1, -1, -1, 1, 2, -2, 4, -2, -1, 5, -1, 6, 7, -2, -2, 8, -2, 9]

  /** The same, position by position */
  predicate IsExample(p: seq<BranchId>) {
    && |p| == 19 && p[1] == p[2] == p[3] == p[9] == p[11] == CALL_ID
    && p[6] == p[8] == p[14] == p[15] == p[17] == RETURN_ID
    && p[0] == 3 && p[4] == 1 && p[5] == 2 && p[7] == 4 && p[10] == 5 && p[12] == 6 && p[13] == 7 && p[16] == 8
    && p[18] == 9
  }

  lemma ReturnsInExample(p: seq<BranchId>)
    requires IsExample(p)
    ensures ReturnOf(p, 4) == 6 && ReturnOf(p, 3) == 8 && ReturnOf(p, 10) == 15
    ensures ReturnOf(p, 2) == 17
  {
    hide ReturnOf;
    ReturnCases(p, 4);
    ReturnCases(p, 5);
    ReturnCases(p, 6);
    ReturnCases(p, 3);
    ReturnCases(p, 7);
    ReturnCases(p, 8);
    ReturnCases(p, 12);
    ReturnCases(p, 13);
    ReturnCases(p, 14);
    ReturnCases(p, 10);
    ReturnCases(p, 11);
    ReturnCases(p, 15);
    ReturnCases(p, 2);
    ReturnCases(p, 9);
    ReturnCases(p, 16);
    ReturnCases(p, 17);
  }

  lemma NextInside(p: seq<BranchId>)
    requires IsExample(p)
    ensures Next(p, 3) == [4, 7] && Next(p, 9) == [10, 16] && Next(p, 18) == [18]
  {
    hide ReturnOf, Next;
    ReturnsInExample(p);
    NextAtOther(p, 4);
    NextAtOther(p, 7);
    NextAtOther(p, 10);
    NextAtOther(p, 16);
    NextAtOther(p, 18);
    NextJoins(p, 3);
    NextJoins(p, 9);
  }

  lemma NextJoins(p: seq<BranchId>, j: nat)
    requires j < |p| && p[j] == CALL_ID
    ensures var k := ReturnOf(p, j + 1);
            Next(p, j) == if k >= |p| then Next(p, j + 1) else Next(p, j + 1) + Next(p, k + 1)
  {
    hide ReturnOf, Next;
    NextAtCall(p, j, []);
    EmptyFront(Next(p, j));
    EmptyFront(Next(p, j + 1));
  }

  lemma EmptyFront(a: seq<nat>)
    ensures [] + a == a
  {
  }

  /** The branches that may come next are 1, 4, 5, 8 and 9. */
  lemma NextInExample()
    ensures Next(EXAMPLE, 1) == [4, 7, 10, 16, 18]
    ensures EXAMPLE[4] == 1 && EXAMPLE[7] == 4 && EXAMPLE[10] == 5 && EXAMPLE[16] == 8 && EXAMPLE[18] == 9
  {
    hide ReturnOf, Next, EXAMPLE;
    ExampleIs();
    NextOfExample(EXAMPLE);
  }

  lemma ExampleIs()
    ensures IsExample(EXAMPLE)
  {
  }

  lemma NextOfExample(p: seq<BranchId>)
    requires IsExample(p)
    ensures Next(p, 1) == [4, 7, 10, 16, 18]
  {
    hide ReturnOf, Next;
    ReturnsInExample(p);
    NextInside(p);
    NextJoins(p, 2);
    NextJoins(p, 1);
  }
}
