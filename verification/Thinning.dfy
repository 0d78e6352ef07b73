/**
  Thinning the control-flow graph down to its branches (main of process_cfg.cc): from each branch, edges to the
  branches at distance one, where edges into branches count one and all others nothing.
 */
module Thinning {
  import opened Arith
  import opened ShortestPaths

  ghost predicate IsWeighted(g: Graph, cfg: Graph, branches: seq<nat>) {
    && |g| == |cfg|
    && forall v :: 0 <= v < |g| ==> WeightedList(g[v], cfg[v], branches)
  }

  ghost predicate WeightedList(es: seq<Edge>, fs: seq<Edge>, branches: seq<nat>) {
    && |es| == |fs|
    && forall k :: 0 <= k < |es| ==> es[k] == Edge(fs[k].to, if fs[k].to in branches then 1 else 0)
  }

  method WeighEdges(cfg: Graph, branches: seq<nat>) returns (g: Graph)
    ensures IsWeighted(g, cfg, branches)
  {
    g := cfg;
    var i := 0;
    while i < |g|
      invariant i <= |g| == |cfg|
      invariant forall v :: 0 <= v < i ==> WeightedList(g[v], cfg[v], branches)
      invariant forall v :: i <= v < |g| ==> g[v] == cfg[v]
    {
      var es := g[i];
      var j := 0;
      while j < |es|
        invariant j <= |es| == |cfg[i]|
        invariant forall k :: 0 <= k < j ==> es[k] == Edge(cfg[i][k].to, if cfg[i][k].to in branches then 1 else 0)
        invariant forall k :: j <= k < |es| ==> es[k] == cfg[i][k]
      {
        es := es[j := es[j].(weight := if es[j].to in branches then 1 else 0)];
        j := j + 1;
      }
      g := g[i := es];
      i := i + 1;
    }
  }

  // ------------------------------------------------------------------------------------------------
  // What an edge of the thinned graph means
  // ------------------------------------------------------------------------------------------------

  ghost predicate HasEdge(cfg: Graph, v: nat, u: nat) {
    v < |cfg| && exists k: nat :: Leads(cfg, v, k, u)
  }

  /** v is reached from a by n edges through vertices that are no branches, v itself among them unless it is a. */
  ghost predicate Through(cfg: Graph, branches: seq<nat>, a: nat, v: nat, n: nat)
    decreases n
  {
    if n == 0 then v == a
    else v !in branches && exists x: nat :: HasEdge(cfg, x, v) && Through(cfg, branches, a, x, n - 1)
  }

  /** b is reached from a with only vertices that are no branches in between. */
  ghost predicate Linked(cfg: Graph, branches: seq<nat>, a: nat, b: nat) {
    exists x: nat, n: nat :: Through(cfg, branches, a, x, n) && HasEdge(cfg, x, b)
  }

  lemma {:induction false} ThroughIsWeightless(g: Graph, cfg: Graph, branches: seq<nat>, a: nat, v: nat, n: nat)
    requires IsWeighted(g, cfg, branches)
    ensures Through(cfg, branches, a, v, n) <==> Walk(g, a, v, 0, n)
    decreases n
  {
    if n > 0 {
      if Through(cfg, branches, a, v, n) {
        var x: nat :| HasEdge(cfg, x, v) && Through(cfg, branches, a, x, n - 1);
        var k: nat :| Leads(cfg, x, k, v);
        WeightOf(g, cfg, branches, x, k);
        ThroughIsWeightless(g, cfg, branches, a, x, n - 1);
      }
      if Walk(g, a, v, 0, n) {
        var x: nat, k: nat :| Leads(g, x, k, v) && g[x][k].weight <= 0 && Walk(g, a, x, 0 - g[x][k].weight, n - 1);
        WeightOf(g, cfg, branches, x, k);
        ThroughIsWeightless(g, cfg, branches, a, x, n - 1);
        assert HasEdge(cfg, x, v);
      }
    }
  }

  lemma WeightOf(g: Graph, cfg: Graph, branches: seq<nat>, x: nat, k: nat)
    requires IsWeighted(g, cfg, branches)
    ensures forall v: nat :: Leads(g, x, k, v) <==> Leads(cfg, x, k, v)
    ensures x < |g| && k < |g[x]| ==> g[x][k].weight == if g[x][k].to in branches then 1 else 0
  {
    if x < |g| {
      assert WeightedList(g[x], cfg[x], branches);
    }
  }

  /** A branch at distance one is another branch that is linked. */
  lemma LinkedIsOne(g: Graph, cfg: Graph, branches: seq<nat>, a: nat, b: nat)
    requires IsWeighted(g, cfg, branches) && b in branches
    ensures IsShortest(g, a, b, 1) <==> a != b && Linked(cfg, branches, a, b)
  {
    hide IsWeighted, Walk, Linked, Through;
    if a != b && Linked(cfg, branches, a, b) {
      LinkReaches(g, cfg, branches, a, b);
      ZeroOnlyAtOnce(g, cfg, branches, a, b);
    }
    if IsShortest(g, a, b, 1) {
      assert Walk(g, a, a, 0, 0) && Reaches(g, a, a, 0) by {
        NoEdges(g, a);
      }
      var n: nat :| Walk(g, a, b, 1, n);
      LastLink(g, cfg, branches, a, b, n);
    }
  }

  lemma NoEdges(g: Graph, a: nat)
    ensures Walk(g, a, a, 0, 0)
  {
  }

  lemma LinkReaches(g: Graph, cfg: Graph, branches: seq<nat>, a: nat, b: nat)
    requires IsWeighted(g, cfg, branches) && b in branches && Linked(cfg, branches, a, b)
    ensures Reaches(g, a, b, 1)
  {
    var x: nat, n: nat :| Through(cfg, branches, a, x, n) && HasEdge(cfg, x, b);
    var k: nat :| Leads(cfg, x, k, b);
    ThroughIsWeightless(g, cfg, branches, a, x, n);
    WeightOf(g, cfg, branches, x, k);
    assert Walk(g, a, x, 0, n);
    ReachesOn(g, a, x, k, 0);
  }

  /** A branch other than the start is at distance one or more. */
  lemma ZeroOnlyAtOnce(g: Graph, cfg: Graph, branches: seq<nat>, a: nat, b: nat)
    requires IsWeighted(g, cfg, branches) && b in branches && a != b
    ensures !Reaches(g, a, b, 0)
  {
    forall n: nat
      ensures !Walk(g, a, b, 0, n)
    {
      ThroughIsWeightless(g, cfg, branches, a, b, n);
    }
  }

  lemma LastLink(g: Graph, cfg: Graph, branches: seq<nat>, a: nat, b: nat, n: nat)
    requires IsWeighted(g, cfg, branches) && b in branches && Walk(g, a, b, 1, n)
    ensures Linked(cfg, branches, a, b)
  {
    var x: nat, k: nat :| Leads(g, x, k, b) && g[x][k].weight <= 1 && Walk(g, a, x, 1 - g[x][k].weight, n - 1);
    WeightOf(g, cfg, branches, x, k);
    ThroughIsWeightless(g, cfg, branches, a, x, n - 1);
    assert HasEdge(cfg, x, b);
  }

  // ------------------------------------------------------------------------------------------------
  // Thinning keeps the distances
  // ------------------------------------------------------------------------------------------------

  /** The edges that are written: to other branches that are linked. */
  ghost predicate ThinEdge(cfg: Graph, branches: seq<nat>, a: nat, b: nat) {
    a in branches && b in branches && a != b && Linked(cfg, branches, a, b)
  }

  /** A walk of n edges in the thinned graph. */
  ghost predicate ThinWalk(cfg: Graph, branches: seq<nat>, a: nat, b: nat, n: nat)
    decreases n
  {
    if n == 0 then a == b
    else exists c: nat :: ThinEdge(cfg, branches, a, c) && ThinWalk(cfg, branches, c, b, n - 1)
  }

  ghost predicate ThinShortest(cfg: Graph, branches: seq<nat>, a: nat, b: nat, d: nat) {
    ThinWalk(cfg, branches, a, b, d) && forall n: nat :: ThinWalk(cfg, branches, a, b, n) ==> d <= n
  }

  lemma {:induction false} WalksJoin(g: Graph, a: nat, b: nat, c: nat, w: nat, x: nat, m: nat, n: nat)
    requires Walk(g, a, b, w, m) && Walk(g, b, c, x, n)
    ensures Walk(g, a, c, w + x, m + n)
    decreases n
  {
    if n > 0 {
      var v: nat, k: nat :| Leads(g, v, k, c) && g[v][k].weight <= x && Walk(g, b, v, x - g[v][k].weight, n - 1);
      WalksJoin(g, a, b, v, w, x - g[v][k].weight, m, n - 1);
    }
  }

  lemma ReachesJoin(g: Graph, a: nat, b: nat, c: nat, w: nat, x: nat)
    requires Reaches(g, a, b, w) && Reaches(g, b, c, x)
    ensures Reaches(g, a, c, w + x)
  {
    hide Walk;
    var m: nat :| Walk(g, a, b, w, m);
    var n: nat :| Walk(g, b, c, x, n);
    WalksJoin(g, a, b, c, w, x, m, n);
  }

  /** A walk in the thinned graph is one in the control-flow graph, with a weight of one for each edge. */
  lemma {:induction false} ThinReaches(g: Graph, cfg: Graph, branches: seq<nat>, a: nat, b: nat, n: nat)
    requires IsWeighted(g, cfg, branches) && ThinWalk(cfg, branches, a, b, n)
    ensures Reaches(g, a, b, n)
    decreases n
  {
    hide IsWeighted, Linked, Reaches;
    if n == 0 {
      StaysThere(g, a);
    } else {
      var c: nat :| ThinEdge(cfg, branches, a, c) && ThinWalk(cfg, branches, c, b, n - 1);
      ThinReaches(g, cfg, branches, c, b, n - 1);
      LinkReaches(g, cfg, branches, a, c);
      ReachesJoin(g, a, c, b, 1, n - 1);
    }
  }

  lemma StaysThere(g: Graph, a: nat)
    ensures Reaches(g, a, a, 0)
  {
    NoEdges(g, a);
  }

  lemma {:induction false} ThinAppend(cfg: Graph, branches: seq<nat>, a: nat, c: nat, b: nat, n: nat)
    requires ThinWalk(cfg, branches, a, c, n) && ThinEdge(cfg, branches, c, b)
    ensures ThinWalk(cfg, branches, a, b, n + 1)
    decreases n
  {
    hide ThinEdge;
    if n == 0 {
      assert ThinWalk(cfg, branches, b, b, 0);
    } else {
      var d: nat :| ThinEdge(cfg, branches, a, d) && ThinWalk(cfg, branches, d, c, n - 1);
      ThinAppend(cfg, branches, d, c, b, n - 1);
    }
  }

  /** The last branch before v, some way along the thinned graph. */
  ghost predicate Via(cfg: Graph, branches: seq<nat>, a: nat, v: nat, w: nat) {
    exists c: nat, n: nat, m: nat ::
      c in branches && n <= w && ThinWalk(cfg, branches, a, c, n) && Through(cfg, branches, c, v, m)
  }

  lemma {:induction false} WalkIsVia(g: Graph, cfg: Graph, branches: seq<nat>, a: nat, v: nat, w: nat, l: nat)
    requires IsWeighted(g, cfg, branches) && a in branches && Walk(g, a, v, w, l)
    ensures Via(cfg, branches, a, v, w)
    decreases l
  {
    hide IsWeighted, ThinWalk, Through, Via;
    if l == 0 {
      ViaStart(cfg, branches, a);
    } else {
      var x: nat, k: nat :| Leads(g, x, k, v) && g[x][k].weight <= w && Walk(g, a, x, w - g[x][k].weight, l - 1);
      WalkIsVia(g, cfg, branches, a, x, w - g[x][k].weight, l - 1);
      WeightOf(g, cfg, branches, x, k);
      ViaStep(cfg, branches, a, x, v, w - g[x][k].weight);
    }
  }

  lemma ViaStart(cfg: Graph, branches: seq<nat>, a: nat)
    requires a in branches
    ensures Via(cfg, branches, a, a, 0)
  {
    assert ThinWalk(cfg, branches, a, a, 0) && Through(cfg, branches, a, a, 0);
  }

  lemma ViaStep(cfg: Graph, branches: seq<nat>, a: nat, x: nat, v: nat, w: nat)
    requires Via(cfg, branches, a, x, w) && HasEdge(cfg, x, v)
    ensures Via(cfg, branches, a, v, if v in branches then w + 1 else w)
  {
    hide ThinWalk, HasEdge, Through;
    var c: nat, n: nat, m: nat :|
      c in branches && n <= w && ThinWalk(cfg, branches, a, c, n) && Through(cfg, branches, c, x, m);
    if v in branches {
      NoStepsThrough(cfg, branches, v);
      if c != v {
        ThinAppend(cfg, branches, a, c, v, n);
      }
    } else {
      StepThrough(cfg, branches, c, x, v, m);
    }
  }

  lemma NoStepsThrough(cfg: Graph, branches: seq<nat>, v: nat)
    ensures Through(cfg, branches, v, v, 0)
  {
  }

  lemma StepThrough(cfg: Graph, branches: seq<nat>, c: nat, x: nat, v: nat, m: nat)
    requires Through(cfg, branches, c, x, m) && HasEdge(cfg, x, v) && v !in branches
    ensures Through(cfg, branches, c, v, m + 1)
  {
  }

  /** A walk between branches has a walk in the thinned graph with no more edges than its weight. */
  lemma ThinNoLonger(g: Graph, cfg: Graph, branches: seq<nat>, a: nat, b: nat, w: nat) returns (n: nat)
    requires IsWeighted(g, cfg, branches) && a in branches && b in branches && Reaches(g, a, b, w)
    ensures n <= w && ThinWalk(cfg, branches, a, b, n)
  {
    hide IsWeighted, ThinWalk, Walk;
    var l: nat :| Walk(g, a, b, w, l);
    WalkIsVia(g, cfg, branches, a, b, w, l);
    var c: nat, k: nat, m: nat :|
      c in branches && k <= w && ThinWalk(cfg, branches, a, c, k) && Through(cfg, branches, c, b, m);
    n := k;
  }

  /** Shortest distances in the thinned graph are the 0/1-weighted ones of the control-flow graph. */
  lemma ThinningKeepsDistances(g: Graph, cfg: Graph, branches: seq<nat>, a: nat, b: nat, d: nat)
    requires IsWeighted(g, cfg, branches) && a in branches && b in branches
    ensures ThinShortest(cfg, branches, a, b, d) <==> IsShortest(g, a, b, d)
  {
    hide IsWeighted, ThinWalk, Reaches;
    if ThinShortest(cfg, branches, a, b, d) {
      ThinReaches(g, cfg, branches, a, b, d);
      forall w: nat | Reaches(g, a, b, w)
        ensures d <= w
      {
        var n := ThinNoLonger(g, cfg, branches, a, b, w);
      }
    }
    if IsShortest(g, a, b, d) {
      var n := ThinNoLonger(g, cfg, branches, a, b, d);
      ThinReaches(g, cfg, branches, a, b, n);
      forall k: nat | ThinWalk(cfg, branches, a, b, k)
        ensures d <= k
      {
        ThinReaches(g, cfg, branches, a, b, k);
      }
    }
  }

  // ------------------------------------------------------------------------------------------------
  // The program
  // ------------------------------------------------------------------------------------------------

  /** What is written for one branch. */
  datatype Row = Row(src: nat, nbhrs: seq<nat>)

  ghost predicate RowOk(cfg: Graph, branches: seq<nat>, row: Row) {
    && Increasing(row.nbhrs)
    && forall b: nat :: b in row.nbhrs <==> ThinEdge(cfg, branches, row.src, b)
  }

  /** The branches at distance one. */
  method Neighbors(ghost g: Graph, ghost cfg: Graph, branches: seq<nat>, dist: array<nat>, ghost a: nat)
    returns (nbhrs: seq<nat>)
    requires IsWeighted(g, cfg, branches) && Increasing(branches) && a in branches
    requires forall b :: b in branches ==> b < |g|
    requires dist.Length == |g| && forall u :: 0 <= u < |g| ==> BoundedShortest(g, a, 1, u, dist[u])
    ensures RowOk(cfg, branches, Row(a, nbhrs))
  {
    hide IsWeighted, Linked, BoundedShortest;
    nbhrs := [];
    var j := 0;
    while j < |branches|
      invariant j <= |branches| && Increasing(nbhrs)
      invariant nbhrs != [] ==> j > 0 && nbhrs[|nbhrs| - 1] <= branches[j - 1]
      invariant forall b: nat :: b in nbhrs <==> b in branches[..j] && ThinEdge(cfg, branches, a, b)
    {
      var b := branches[j];
      assert b in branches;
      OneIsThin(g, cfg, branches, a, b, dist[b]);
      if dist[b] == 1 {
        nbhrs := nbhrs + [b];
      }
      assert branches[..j + 1] == branches[..j] + [b];
      j := j + 1;
    }
    assert branches[..j] == branches;
  }

  lemma OneIsThin(g: Graph, cfg: Graph, branches: seq<nat>, a: nat, b: nat, d: nat)
    requires IsWeighted(g, cfg, branches) && a in branches && b in branches && BoundedShortest(g, a, 1, b, d)
    ensures d == 1 <==> ThinEdge(cfg, branches, a, b)
  {
    hide IsWeighted, Linked, Reaches;
    LinkedIsOne(g, cfg, branches, a, b);
  }

  /** For every branch, its edges in the thinned graph. */
  method ThinGraph(cfg: Graph, branches: seq<nat>) returns (rows: seq<Row>)
    requires WellFormed(cfg) && Increasing(branches) && forall b :: b in branches ==> b < |cfg|
    ensures |rows| == |branches|
    ensures forall i :: 0 <= i < |rows| ==> rows[i].src == branches[i] && RowOk(cfg, branches, rows[i])
  {
    hide Linked, BoundedShortest, IsWeighted, RowOk;
    var g := WeighEdges(cfg, branches);
    WeightedWellFormed(g, cfg, branches);
    var dist := new nat[|g|];
    rows := [];
    var i := 0;
    while i < |branches|
      invariant i <= |branches| && |rows| == i
      invariant forall k :: 0 <= k < i ==> rows[k].src == branches[k] && RowOk(cfg, branches, rows[k])
    {
      assert branches[i] in branches;
      Dijkstra(g, branches[i], dist, 1);
      var nbhrs := Neighbors(g, cfg, branches, dist, branches[i]);
      rows := rows + [Row(branches[i], nbhrs)];
      i := i + 1;
    }
  }

  lemma WeightedWellFormed(g: Graph, cfg: Graph, branches: seq<nat>)
    requires IsWeighted(g, cfg, branches) && WellFormed(cfg)
    ensures WellFormed(g) && |g| == |cfg|
  {
    forall v, k | 0 <= v < |g| && 0 <= k < |g[v]|
      ensures g[v][k].to < |g|
    {
      assert WeightedList(g[v], cfg[v], branches);
    }
  }
}
