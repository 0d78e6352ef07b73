/** How far each branch is from an uncovered one (the CFG search of concolic_search.cc). */
module BranchDistances {
  import opened Arith
  import opened ShortestPaths
  import opened Thinning

  /** kInfiniteDistance */
  const FAR: nat := 10000

  type Adjacency = seq<seq<nat>>

  /** The adjacency lists of branches lead to branches, and all fit the vectors. */
  predicate BranchGraph(cfg: Adjacency, branches: seq<nat>) {
    && (forall b :: b in branches ==> b < |cfg|)
    && forall v, u :: v in branches && v < |cfg| && u in cfg[v] ==> u in branches
  }

  // ------------------------------------------------------------------------------------------------
  // The reversed graph
  // ------------------------------------------------------------------------------------------------

  ghost predicate Reversed(rev: Adjacency, cfg: Adjacency, branches: seq<nat>) {
    && |rev| == |cfg|
    && forall u: nat, v: nat :: u < |rev| ==> (v in rev[u] <==> v in branches && v < |cfg| && u in cfg[v])
  }

  method ReverseCfg(cfg: Adjacency, branches: seq<nat>) returns (rev: Adjacency)
    requires BranchGraph(cfg, branches)
    ensures Reversed(rev, cfg, branches)
  {
    rev := seq(|cfg|, _ => []);
    var i := 0;
    while i < |branches|
      invariant i <= |branches| && Reversed(rev, cfg, branches[..i])
    {
      assert branches[i] in branches;
      assert forall u :: u in cfg[branches[i]] ==> u in branches;
      rev := AddReversed(rev, branches[i], cfg[branches[i]]);
      assert branches[..i + 1] == branches[..i] + [branches[i]];
      i := i + 1;
    }
    assert branches[..i] == branches;
  }

  method AddReversed(before: Adjacency, v: nat, targets: seq<nat>) returns (rev: Adjacency)
    requires forall u :: u in targets ==> u < |before|
    ensures |rev| == |before|
    ensures forall u: nat, x: nat :: u < |rev| ==> (x in rev[u] <==> x in before[u] || (x == v && u in targets))
  {
    rev := before;
    var j := 0;
    while j < |targets|
      invariant j <= |targets| && |rev| == |before|
      invariant forall u: nat, x: nat :: u < |rev| ==>
                  (x in rev[u] <==> x in before[u] || (x == v && u in targets[..j]))
    {
      assert targets[j] in targets;
      rev := rev[targets[j] := rev[targets[j]] + [v]];
      assert targets[..j + 1] == targets[..j] + [targets[j]];
      j := j + 1;
    }
    assert targets[..j] == targets;
  }

  // ------------------------------------------------------------------------------------------------
  // Distances
  // ------------------------------------------------------------------------------------------------

  /** A path of n edges from b to one of the goals. */
  ghost predicate PathTo(cfg: Adjacency, goals: set<nat>, b: nat, n: nat)
    decreases n
  {
    if n == 0 then b in goals else b < |cfg| && exists c: nat :: c in cfg[b] && PathTo(cfg, goals, c, n - 1)
  }

  /** d is the length of the shortest path to a goal, or FAR if there is none shorter than that. */
  ghost predicate Nearest(cfg: Adjacency, goals: set<nat>, b: nat, d: nat) {
    && d <= FAR && (d < FAR ==> PathTo(cfg, goals, b, d))
    && forall n: nat :: PathTo(cfg, goals, b, n) ==> d <= n
  }

  ghost predicate Attained(cfg: Adjacency, branches: seq<nat>, goals: set<nat>, dist: seq<nat>) {
    forall b :: b in branches && b < |dist| ==> dist[b] <= FAR && (dist[b] < FAR ==> PathTo(cfg, goals, b, dist[b]))
  }

  /** The edges into v shorten no distance. */
  ghost predicate RelaxedInto(cfg: Adjacency, branches: seq<nat>, dist: seq<nat>, v: nat) {
    forall j :: j in branches && j < |cfg| && j < |dist| && v < |dist| && v in cfg[j] ==> dist[j] <= dist[v] + 1
  }

  ghost predicate Settled(cfg: Adjacency, branches: seq<nat>, dist: seq<nat>, queue: seq<nat>, besides: set<nat>) {
    forall v :: v in branches && v !in queue && v !in besides ==> RelaxedInto(cfg, branches, dist, v)
  }

  /** The invariant of the loop: goals are at distance zero, distances are attained, and every branch that is not in
      the queue (or being looked at) is settled. */
  ghost predicate Inv(cfg: Adjacency, branches: seq<nat>, goals: set<nat>, dist: seq<nat>, queue: seq<nat>,
                      besides: set<nat>) {
    && BranchGraph(cfg, branches) && |dist| == |cfg|
    && (forall b :: b in goals ==> b in branches && dist[b] == 0)
    && (forall v :: v in queue ==> v in branches)
    && Attained(cfg, branches, goals, dist) && Settled(cfg, branches, dist, queue, besides)
  }

  function Total(dist: seq<nat>, branches: seq<nat>): nat {
    if branches == [] then 0
    else
      var n := |branches| - 1;
      Total(dist, branches[..n]) + if branches[n] < |dist| then dist[branches[n]] else 0
  }

  lemma {:induction false} TotalDrops(dist: seq<nat>, branches: seq<nat>, u: nat, d: nat)
    requires u < |dist| && d < dist[u]
    ensures Total(dist[u := d], branches) <= Total(dist, branches)
    ensures u in branches ==> Total(dist[u := d], branches) < Total(dist, branches)
  {
    if branches != [] {
      var n := |branches| - 1;
      TotalDrops(dist, branches[..n], u, d);
      assert branches == branches[..n] + [branches[n]];
    }
  }

  /** Lowering the distance of j by an edge into i. */
  lemma LowerKeepsInv(cfg: Adjacency, branches: seq<nat>, goals: set<nat>, dist: seq<nat>, queue: seq<nat>, i: nat,
                      j: nat)
    requires Inv(cfg, branches, goals, dist, queue, {i}) && i in branches && j in branches
    requires i < |dist| && j < |dist| && i in cfg[j] && dist[i] + 1 < dist[j]
    ensures Inv(cfg, branches, goals, dist[j := dist[i] + 1], queue + [j], {i})
  {
    hide PathTo;
    var dist' := dist[j := dist[i] + 1];
    StepTo(cfg, goals, j, i, dist[i]);
    forall v | v in branches && v !in queue + [j] && v !in {i}
      ensures RelaxedInto(cfg, branches, dist', v)
    {
      assert RelaxedInto(cfg, branches, dist, v);
    }
  }

  lemma StepTo(cfg: Adjacency, goals: set<nat>, b: nat, c: nat, n: nat)
    requires b < |cfg| && c in cfg[b]
    ensures PathTo(cfg, goals, c, n) ==> PathTo(cfg, goals, b, n + 1)
  {
  }

  /** The inner loop: the edges into i. */
  method LookBack(cfg: Adjacency, rev: Adjacency, branches: seq<nat>, ghost goals: set<nat>, dist: array<nat>,
                  before: seq<nat>, i: nat)
    returns (queue: seq<nat>)
    requires Reversed(rev, cfg, branches) && i in branches && i < dist.Length
    requires Inv(cfg, branches, goals, dist[..], before, {i})
    modifies dist
    ensures Inv(cfg, branches, goals, dist[..], queue, {})
    ensures Total(dist[..], branches) < Total(old(dist[..]), branches) || (dist[..] == old(dist[..]) && queue == before)
    ensures forall b :: 0 <= b < dist.Length && b !in branches ==> dist[b] == old(dist[b])
  {
    hide PathTo, Attained, Settled, Inv;
    queue := before;
    var distI := dist[i];
    InvShape(cfg, branches, goals, dist[..], queue, {i});
    var k := 0;
    while k < |rev[i]|
      invariant k <= |rev[i]| && dist.Length == |cfg| == |rev|
      invariant Inv(cfg, branches, goals, dist[..], queue, {i}) && dist[i] == distI
      invariant forall m :: 0 <= m < k ==> rev[i][m] < dist.Length && dist[rev[i][m]] <= distI + 1
      invariant Total(dist[..], branches) < Total(old(dist[..]), branches)
                || (dist[..] == old(dist[..]) && queue == before)
      invariant forall b :: 0 <= b < dist.Length && b !in branches ==> dist[b] == old(dist[b])
    {
      var j := rev[i][k];
      assert j in rev[i] && j in branches;
      assert j < |cfg|;
      if distI + 1 < dist[j] {
        LowerKeepsInv(cfg, branches, goals, dist[..], queue, i, j);
        TotalDrops(dist[..], branches, j, distI + 1);
        ghost var was := dist[..];
        dist[j] := distI + 1;
        assert dist[..] == was[j := distI + 1];
        queue := queue + [j];
      }
      k := k + 1;
    }
    AllSettled(cfg, rev, branches, goals, dist[..], queue, i);
  }

  lemma InvShape(cfg: Adjacency, branches: seq<nat>, goals: set<nat>, dist: seq<nat>, queue: seq<nat>,
                 besides: set<nat>)
    requires Inv(cfg, branches, goals, dist, queue, besides)
    ensures BranchGraph(cfg, branches) && |dist| == |cfg| && forall v :: v in queue ==> v in branches
  {
  }

  lemma AllSettled(cfg: Adjacency, rev: Adjacency, branches: seq<nat>, goals: set<nat>, dist: seq<nat>,
                   queue: seq<nat>, i: nat)
    requires Inv(cfg, branches, goals, dist, queue, {i}) && Reversed(rev, cfg, branches) && i < |rev|
    requires forall m :: 0 <= m < |rev[i]| ==> rev[i][m] < |dist| && dist[rev[i][m]] <= dist[i] + 1
    ensures Inv(cfg, branches, goals, dist, queue, {})
  {
    hide PathTo;
    forall j | j in branches && i in cfg[j]
      ensures dist[j] <= dist[i] + 1
    {
      assert j in rev[i];
    }
    assert RelaxedInto(cfg, branches, dist, i);
  }

  function Uncovered(branches: seq<nat>, covered: seq<bool>): set<nat> {
    set b | b in branches && b < |covered| && !covered[b]
  }

  /** The loop that sets the first distances and fills the queue. */
  method StartAll(branches: seq<nat>, covered: seq<bool>, dist: array<nat>) returns (queue: seq<nat>)
    requires dist.Length == |covered| && forall b :: b in branches ==> b < |covered|
    modifies dist
    ensures forall b :: b in branches ==> b < dist.Length && dist[b] == if covered[b] then FAR else 0
    ensures forall b :: b in queue <==> b in Uncovered(branches, covered)
    ensures forall b :: 0 <= b < dist.Length && b !in branches ==> dist[b] == old(dist[b])
  {
    queue := [];
    var i := 0;
    while i < |branches|
      invariant i <= |branches|
      invariant forall b :: b in branches[..i] ==> b < dist.Length && dist[b] == if covered[b] then FAR else 0
      invariant forall b :: b in queue <==> b in branches[..i] && b < |covered| && !covered[b]
      invariant forall b :: 0 <= b < dist.Length && b !in branches ==> dist[b] == old(dist[b])
    {
      var b := branches[i];
      assert b in branches;
      if !covered[b] {
        dist[b] := 0;
        queue := queue + [b];
      } else {
        dist[b] := FAR;
      }
      assert branches[..i + 1] == branches[..i] + [b];
      i := i + 1;
    }
    assert branches[..i] == branches;
  }

  lemma StartInv(cfg: Adjacency, branches: seq<nat>, covered: seq<bool>, dist: seq<nat>, queue: seq<nat>)
    requires BranchGraph(cfg, branches) && |dist| == |cfg| == |covered|
    requires forall b :: b in branches ==> dist[b] == if covered[b] then FAR else 0
    requires forall b :: b in queue <==> b in Uncovered(branches, covered)
    ensures Inv(cfg, branches, Uncovered(branches, covered), dist, queue, {})
  {
  }

  lemma TakeKeepsInv(cfg: Adjacency, branches: seq<nat>, goals: set<nat>, dist: seq<nat>, queue: seq<nat>)
    requires queue != [] && Inv(cfg, branches, goals, dist, queue, {})
    ensures Inv(cfg, branches, goals, dist, queue[1..], {queue[0]})
  {
    hide PathTo, Attained, RelaxedInto;
    assert queue == [queue[0]] + queue[1..];
  }

  lemma {:induction false} PathsNoShorter(cfg: Adjacency, branches: seq<nat>, goals: set<nat>, dist: seq<nat>, b: nat,
                                          n: nat)
    requires Inv(cfg, branches, goals, dist, [], {}) && b in branches && PathTo(cfg, goals, b, n)
    ensures dist[b] <= n
    decreases n
  {
    hide Attained;
    if n > 0 {
      var c: nat :| c in cfg[b] && PathTo(cfg, goals, c, n - 1);
      PathsNoShorter(cfg, branches, goals, dist, c, n - 1);
      assert RelaxedInto(cfg, branches, dist, c);
    }
  }

  lemma SettledNearest(cfg: Adjacency, branches: seq<nat>, goals: set<nat>, dist: seq<nat>, b: nat)
    requires Inv(cfg, branches, goals, dist, [], {}) && b in branches
    ensures Nearest(cfg, goals, b, dist[b])
  {
    hide PathTo, Settled;
    forall n: nat | PathTo(cfg, goals, b, n)
      ensures dist[b] <= n
    {
      PathsNoShorter(cfg, branches, goals, dist, b, n);
    }
  }

  // ------------------------------------------------------------------------------------------------
  // How far branches can be
  // ------------------------------------------------------------------------------------------------

  function SetOf(branches: seq<nat>): set<nat> {
    set b | b in branches
  }

  ghost predicate Connected(cfg: Adjacency, goals: set<nat>, b: nat) {
    exists n: nat :: PathTo(cfg, goals, b, n)
  }

  ghost predicate IsLeast(cfg: Adjacency, goals: set<nat>, b: nat, n: nat) {
    PathTo(cfg, goals, b, n) && forall k: nat :: PathTo(cfg, goals, b, k) ==> n <= k
  }

  lemma {:induction false} LeastExists(cfg: Adjacency, goals: set<nat>, b: nat, n: nat) returns (k: nat)
    requires PathTo(cfg, goals, b, n)
    ensures k <= n && IsLeast(cfg, goals, b, k)
    decreases n
  {
    hide PathTo;
    if j: nat :| j < n && PathTo(cfg, goals, b, j) {
      k := LeastExists(cfg, goals, b, j);
    } else {
      k := n;
    }
  }

  /** On a shortest path each branch is nearer than the one before, so a path of length n has n + 1 branches. */
  lemma {:induction false} BranchesOnPath(cfg: Adjacency, branches: seq<nat>, goals: set<nat>, b: nat, n: nat)
    returns (s: set<nat>)
    requires BranchGraph(cfg, branches) && b in branches && IsLeast(cfg, goals, b, n)
    ensures s <= SetOf(branches) && |s| == n + 1
    ensures forall v :: v in s ==> exists k: nat :: k <= n && IsLeast(cfg, goals, v, k)
    decreases n
  {
    hide IsLeast;
    if n == 0 {
      s := {b};
    } else {
      var c := NextOnPath(cfg, goals, b, n);
      var rest := BranchesOnPath(cfg, branches, goals, c, n - 1);
      if b in rest {
        var k: nat :| k <= n - 1 && IsLeast(cfg, goals, b, k);
        LeastUnique(cfg, goals, b, k, n);
      }
      s := rest + {b};
    }
  }

  lemma NextOnPath(cfg: Adjacency, goals: set<nat>, b: nat, n: nat) returns (c: nat)
    requires n > 0 && IsLeast(cfg, goals, b, n)
    ensures b < |cfg| && c in cfg[b] && IsLeast(cfg, goals, c, n - 1)
  {
    c :| c in cfg[b] && PathTo(cfg, goals, c, n - 1);
    forall k: nat | PathTo(cfg, goals, c, k)
      ensures n - 1 <= k
    {
      StepTo(cfg, goals, b, c, k);
    }
  }

  lemma LeastUnique(cfg: Adjacency, goals: set<nat>, b: nat, k: nat, n: nat)
    requires IsLeast(cfg, goals, b, k) && IsLeast(cfg, goals, b, n)
    ensures k == n
  {
    hide PathTo;
  }

  lemma {:induction false} Subset<T>(s: set<T>, t: set<T>)
    requires s <= t
    ensures |s| <= |t|
    decreases s
  {
    if x :| x in s {
      Subset(s - {x}, t - {x});
    }
  }

  /** With at most 10000 branches every distance is exact: the length of a shortest path to a goal, and 10000 for those
      that reach none. */
  ghost predicate Exact(cfg: Adjacency, goals: set<nat>, b: nat, d: nat) {
    && (Connected(cfg, goals, b) ==> IsLeast(cfg, goals, b, d) && d < 10000)
    && (!Connected(cfg, goals, b) ==> d == 10000)
  }

  lemma NearestExact(cfg: Adjacency, branches: seq<nat>, goals: set<nat>, b: nat, d: nat)
    requires BranchGraph(cfg, branches) && b in branches && |SetOf(branches)| <= 10000
    requires Nearest(cfg, goals, b, d)
    ensures Exact(cfg, goals, b, d)
  {
    hide PathTo;
    if Connected(cfg, goals, b) {
      var n: nat :| PathTo(cfg, goals, b, n);
      var k := LeastExists(cfg, goals, b, n);
      var s := BranchesOnPath(cfg, branches, goals, b, k);
      Subset(s, SetOf(branches));
    }
  }

  /** The backward search from all uncovered branches at once. */
  method UpdateBranchDistances(cfg: Adjacency, rev: Adjacency, branches: seq<nat>, covered: seq<bool>, dist: array<nat>)
    requires BranchGraph(cfg, branches) && Reversed(rev, cfg, branches) && dist.Length == |cfg| == |covered|
    modifies dist
    ensures forall b :: b in branches ==> Nearest(cfg, Uncovered(branches, covered), b, dist[b])
    ensures |SetOf(branches)| <= 10000 ==>
              forall b :: b in branches ==> Exact(cfg, Uncovered(branches, covered), b, dist[b])
    ensures forall b :: 0 <= b < dist.Length && b !in branches ==> dist[b] == old(dist[b])
  {
    hide Nearest, Inv, Exact;
    ghost var goals := Uncovered(branches, covered);
    var queue := StartAll(branches, covered, dist);
    StartInv(cfg, branches, covered, dist[..], queue);
    while queue != []
      invariant Inv(cfg, branches, goals, dist[..], queue, {})
      invariant forall b :: 0 <= b < dist.Length && b !in branches ==> dist[b] == old(dist[b])
      decreases Total(dist[..], branches), |queue|
    {
      var i := queue[0];
      ghost var before := queue;
      InvShape(cfg, branches, goals, dist[..], queue, {});
      assert i in queue;
      queue := queue[1..];
      TakeKeepsInv(cfg, branches, goals, dist[..], before);
      queue := LookBack(cfg, rev, branches, goals, dist, queue, i);
    }
    forall b | b in branches
      ensures Nearest(cfg, goals, b, dist[b])
    {
      SettledNearest(cfg, branches, goals, dist[..], b);
    }
    if |SetOf(branches)| <= 10000 {
      forall b | b in branches
        ensures Exact(cfg, goals, b, dist[b])
      {
        NearestExact(cfg, branches, goals, b, dist[b]);
      }
    }
  }

  // ------------------------------------------------------------------------------------------------
  // From the control-flow graph to the distances
  // ------------------------------------------------------------------------------------------------

  /** The adjacency lists read from the rows of the thinned graph. */
  ghost predicate IsThinned(adj: Adjacency, cfg: Graph, branches: seq<nat>) {
    && (forall b :: b in branches ==> b < |adj|)
    && forall b: nat, c: nat :: b in branches ==> (c in adj[b] <==> ThinEdge(cfg, branches, b, c))
  }

  method ReadRows(rows: seq<Row>, size: nat, ghost cfg: Graph, branches: seq<nat>) returns (adj: Adjacency)
    requires Increasing(branches) && (forall b :: b in branches ==> b < size) && |rows| == |branches|
    requires forall i :: 0 <= i < |rows| ==> rows[i].src == branches[i] && RowOk(cfg, branches, rows[i])
    ensures |adj| == size && IsThinned(adj, cfg, branches) && BranchGraph(adj, branches)
  {
    hide ThinEdge;
    adj := seq(size, _ => []);
    var i := 0;
    while i < |rows|
      invariant i <= |rows| && |adj| == size
      invariant forall k :: 0 <= k < i ==> branches[k] < size && adj[branches[k]] == rows[k].nbhrs
    {
      assert branches[i] in branches;
      adj := adj[rows[i].src := rows[i].nbhrs];
      i := i + 1;
    }
    forall b: nat, c: nat | b in branches
      ensures b < |adj| && (c in adj[b] <==> ThinEdge(cfg, branches, b, c))
    {
      var k :| 0 <= k < |branches| && branches[k] == b;
      assert RowOk(cfg, branches, rows[k]);
    }
    ThinnedStays(adj, cfg, branches);
  }

  lemma ThinnedStays(adj: Adjacency, cfg: Graph, branches: seq<nat>)
    requires IsThinned(adj, cfg, branches)
    ensures BranchGraph(adj, branches)
  {
    hide Linked;
  }

  lemma {:induction false} PathIsThinWalk(adj: Adjacency, cfg: Graph, branches: seq<nat>, goals: set<nat>, b: nat,
                                          n: nat)
    requires IsThinned(adj, cfg, branches) && b in branches && forall u :: u in goals ==> u in branches
    ensures PathTo(adj, goals, b, n) <==> exists u :: u in goals && ThinWalk(cfg, branches, b, u, n)
    decreases n
  {
    hide ThinEdge;
    ThinnedStays(adj, cfg, branches);
    if n > 0 {
      forall c: nat | c in adj[b]
        ensures PathTo(adj, goals, c, n - 1) <==> exists u :: u in goals && ThinWalk(cfg, branches, c, u, n - 1)
      {
        PathIsThinWalk(adj, cfg, branches, goals, c, n - 1);
      }
    }
  }

  /** d is the least weight of a walk from b to a goal, or FAR if there is none below that. */
  ghost predicate NearestInCfg(g: Graph, goals: set<nat>, b: nat, d: nat) {
    && d <= FAR && (d < FAR ==> exists u :: u in goals && Reaches(g, b, u, d))
    && forall u, w: nat :: u in goals && Reaches(g, b, u, w) ==> d <= w
  }

  /** So the distances that the search uses are the 0/1-weighted ones in the whole control-flow graph. */
  lemma DistancesAreCfgDistances(adj: Adjacency, g: Graph, cfg: Graph, branches: seq<nat>, goals: set<nat>, b: nat,
                                 d: nat)
    requires IsThinned(adj, cfg, branches) && IsWeighted(g, cfg, branches)
    requires b in branches && forall u :: u in goals ==> u in branches
    ensures Nearest(adj, goals, b, d) <==> NearestInCfg(g, goals, b, d)
  {
    hide IsThinned, IsWeighted, PathTo, ThinWalk, Reaches;
    forall n: nat
      ensures PathTo(adj, goals, b, n) <==> exists u :: u in goals && ThinWalk(cfg, branches, b, u, n)
    {
      PathIsThinWalk(adj, cfg, branches, goals, b, n);
    }
    forall u, n: nat | u in goals && ThinWalk(cfg, branches, b, u, n)
      ensures Reaches(g, b, u, n)
    {
      ThinReaches(g, cfg, branches, b, u, n);
    }
    forall u, w: nat | u in goals && Reaches(g, b, u, w)
      ensures exists n: nat :: n <= w && PathTo(adj, goals, b, n)
    {
      var n := ThinNoLonger(g, cfg, branches, b, u, w);
      assert PathTo(adj, goals, b, n);
    }
  }

  ghost predicate ReachesAny(g: Graph, goals: set<nat>, b: nat) {
    exists u, w: nat :: u in goals && Reaches(g, b, u, w)
  }

  /** With at most 10000 branches: d is the least weight of a walk from b to a goal in the whole graph, or 10000 if
      there is no walk to one. */
  ghost predicate ExactInCfg(g: Graph, goals: set<nat>, b: nat, d: nat) {
    && (ReachesAny(g, goals, b) ==> d < 10000 && exists u :: u in goals && Reaches(g, b, u, d))
    && (forall u, w: nat :: u in goals && Reaches(g, b, u, w) ==> d <= w)
    && (!ReachesAny(g, goals, b) ==> d == 10000)
  }

  lemma PathReaches(adj: Adjacency, g: Graph, cfg: Graph, branches: seq<nat>, goals: set<nat>, b: nat, n: nat)
    returns (u: nat)
    requires IsThinned(adj, cfg, branches) && IsWeighted(g, cfg, branches)
    requires b in branches && (forall u :: u in goals ==> u in branches) && PathTo(adj, goals, b, n)
    ensures u in goals && Reaches(g, b, u, n)
  {
    hide IsThinned, IsWeighted, PathTo, ThinWalk, Reaches;
    PathIsThinWalk(adj, cfg, branches, goals, b, n);
    u :| u in goals && ThinWalk(cfg, branches, b, u, n);
    ThinReaches(g, cfg, branches, b, u, n);
  }

  lemma SameConnected(adj: Adjacency, g: Graph, cfg: Graph, branches: seq<nat>, goals: set<nat>, b: nat)
    requires IsThinned(adj, cfg, branches) && IsWeighted(g, cfg, branches)
    requires b in branches && forall u :: u in goals ==> u in branches
    ensures Connected(adj, goals, b) <==> ReachesAny(g, goals, b)
  {
    hide IsThinned, IsWeighted, PathTo, ThinWalk, Reaches;
    if Connected(adj, goals, b) {
      var n: nat :| PathTo(adj, goals, b, n);
      var u := PathReaches(adj, g, cfg, branches, goals, b, n);
    }
    if u, w: nat :| u in goals && Reaches(g, b, u, w) {
      var n := ThinNoLonger(g, cfg, branches, b, u, w);
      PathIsThinWalk(adj, cfg, branches, goals, b, n);
      assert PathTo(adj, goals, b, n);
    }
  }

  lemma ExactCfgDistances(adj: Adjacency, g: Graph, cfg: Graph, branches: seq<nat>, goals: set<nat>, b: nat, d: nat)
    requires IsThinned(adj, cfg, branches) && IsWeighted(g, cfg, branches)
    requires b in branches && (forall u :: u in goals ==> u in branches) && |SetOf(branches)| <= 10000
    requires Nearest(adj, goals, b, d)
    ensures ExactInCfg(g, goals, b, d)
  {
    hide IsThinned, IsWeighted, PathTo, Reaches, Nearest, Connected, ReachesAny;
    ThinnedStays(adj, cfg, branches);
    NearestExact(adj, branches, goals, b, d);
    DistancesAreCfgDistances(adj, g, cfg, branches, goals, b, d);
    LeastInCfg(g, goals, b, d);
    SameConnected(adj, g, cfg, branches, goals, b);
    if Connected(adj, goals, b) {
      var u := PathReaches(adj, g, cfg, branches, goals, b, d);
    }
  }

  lemma LeastInCfg(g: Graph, goals: set<nat>, b: nat, d: nat)
    requires NearestInCfg(g, goals, b, d)
    ensures forall u, w: nat :: u in goals && Reaches(g, b, u, w) ==> d <= w
  {
    hide Reaches;
  }
}
