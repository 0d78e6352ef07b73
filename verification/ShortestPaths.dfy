/** Bounded shortest paths in a graph with edges of weight zero and more (process_cfg.cc). */
module ShortestPaths {
  import opened Arith
  import opened BasicTypes

  datatype Edge = Edge(to: nat, weight: nat)

  type Graph = seq<seq<Edge>>

  /** numeric_limits<size_t>::max() */
  const INFINITE: nat := 18446744073709551615

  predicate WellFormed(g: Graph) {
    forall v, k :: 0 <= v < |g| && 0 <= k < |g[v]| ==> g[v][k].to < |g|
  }

  /** The k-th edge of v leads to u. */
  predicate Leads(g: Graph, v: nat, k: nat, u: nat) {
    v < |g| && k < |g[v]| && g[v][k].to == u
  }

  /** A walk of n edges from src to u, of total weight w. */
  ghost predicate Walk(g: Graph, src: nat, u: nat, w: nat, n: nat)
    decreases n
  {
    if n == 0 then u == src && w == 0
    else exists v: nat, k: nat :: Leads(g, v, k, u) && g[v][k].weight <= w && Walk(g, src, v, w - g[v][k].weight, n - 1)
  }

  ghost predicate Reaches(g: Graph, src: nat, u: nat, w: nat) {
    exists n: nat :: Walk(g, src, u, w, n)
  }

  ghost predicate IsShortest(g: Graph, src: nat, u: nat, d: nat) {
    Reaches(g, src, u, d) && forall w: nat :: Reaches(g, src, u, w) ==> d <= w
  }

  lemma ReachesOn(g: Graph, src: nat, v: nat, k: nat, w: nat)
    requires v < |g| && k < |g[v]| && Reaches(g, src, v, w)
    ensures Reaches(g, src, g[v][k].to, w + g[v][k].weight)
  {
    var n: nat :| Walk(g, src, v, w, n);
    assert Leads(g, v, k, g[v][k].to);
    assert Walk(g, src, g[v][k].to, w + g[v][k].weight, n + 1);
  }

  // ------------------------------------------------------------------------------------------------
  // The queue
  // ------------------------------------------------------------------------------------------------

  /** The order of pairs, by distance and then by vertex */
  predicate Before(x: (nat, nat), y: (nat, nat)) {
    x.0 < y.0 || (x.0 == y.0 && x.1 <= y.1)
  }

  lemma {:induction false} FirstExists(q: set<(nat, nat)>) returns (x: (nat, nat))
    requires q != {}
    ensures x in q && forall y :: y in q ==> Before(x, y)
    decreases |q|
  {
    var z :| z in q;
    var rest := q - {z};
    assert forall y :: y in q ==> y == z || y in rest;
    if rest == {} {
      x := z;
    } else {
      x := FirstExists(rest);
      if Before(z, x) {
        x := z;
      }
    }
  }

  // ------------------------------------------------------------------------------------------------
  // The invariant
  // ------------------------------------------------------------------------------------------------

  /** Finite distances are those of walks within the bound. */
  ghost predicate Attained(g: Graph, src: nat, dist: seq<nat>, max: nat) {
    forall u :: 0 <= u < |dist| && dist[u] != INFINITE ==> dist[u] <= max && Reaches(g, src, u, dist[u])
  }

  /** The queue holds the vertices that have a distance and are not finished. */
  ghost predicate Queued(dist: seq<nat>, q: set<(nat, nat)>, finished: set<nat>) {
    && (forall x :: x in q ==> x.1 < |dist| && x.1 !in finished && x.0 == dist[x.1] && x.0 != INFINITE)
    && forall u :: 0 <= u < |dist| && u !in finished && dist[u] != INFINITE ==> (dist[u], u) in q
  }

  /** Finished vertices are no farther than the queued ones. */
  ghost predicate Ordered(dist: seq<nat>, q: set<(nat, nat)>, finished: set<nat>) {
    && (forall u :: u in finished ==> u < |dist|)
    && forall u, x :: u in finished && x in q ==> dist[u] <= x.0
  }

  ghost predicate RelaxedAt(g: Graph, dist: seq<nat>, max: nat, v: nat, k: nat)
    requires v < |g| && k < |g[v]|
  {
    var e := g[v][k];
    v < |dist| && e.to < |dist| && (dist[v] + e.weight <= max ==> dist[e.to] <= dist[v] + e.weight)
  }

  /** No edge that leaves a finished vertex shortens a distance. */
  ghost predicate Relaxed(g: Graph, dist: seq<nat>, max: nat, finished: set<nat>) {
    forall v, k {:trigger RelaxedAt(g, dist, max, v, k)} ::
      v in finished && v < |g| && 0 <= k < |g[v]| ==> RelaxedAt(g, dist, max, v, k)
  }

  /** The invariant of the main loop. */
  ghost predicate Inv(g: Graph, src: nat, dist: seq<nat>, max: nat, q: set<(nat, nat)>, finished: set<nat>) {
    && |dist| == |g| && src < |g| && dist[src] == 0
    && Attained(g, src, dist, max) && Queued(dist, q, finished) && Ordered(dist, q, finished)
    && Relaxed(g, dist, max, finished)
  }

  /** The invariant while the edges of v are looked at, of which the first n are done. */
  ghost predicate InvAt(g: Graph, src: nat, dist: seq<nat>, max: nat, q: set<(nat, nat)>, finished: set<nat>, v: nat,
                        n: nat)
  {
    && v < |g| && n <= |g[v]| && v !in finished
    && |dist| == |g| && src < |g| && dist[src] == 0 && dist[v] != INFINITE
    && Attained(g, src, dist, max) && Queued(dist, q, finished + {v}) && Ordered(dist, q, finished + {v})
    && (forall u :: u in finished ==> dist[u] <= dist[v])
    && Relaxed(g, dist, max, finished)
    && forall k :: 0 <= k < n ==> RelaxedAt(g, dist, max, v, k)
  }

  predicate Lowers(dist: seq<nat>, max: nat, finished: set<nat>, d: nat, u: nat)
    requires u < |dist|
  {
    u !in finished && d < dist[u] && d <= max
  }

  /** One edge, as the inner loop treats it. */
  lemma EdgeKeepsInv(g: Graph, src: nat, dist: seq<nat>, max: nat, q: set<(nat, nat)>, finished: set<nat>, v: nat,
                     n: nat, dist': seq<nat>, q': set<(nat, nat)>)
    requires InvAt(g, src, dist, max, q, finished, v, n) && n < |g[v]| && WellFormed(g) && max < INFINITE
    requires var u, d := g[v][n].to, dist[v] + g[v][n].weight;
             if Lowers(dist, max, finished + {v}, d, u)
             then dist' == dist[u := d] && q' == q - {(dist[u], u)} + {(d, u)}
             else dist' == dist && q' == q
    ensures InvAt(g, src, dist', max, q', finished, v, n + 1)
  {
    hide Reaches, Walk, Queued;
    var u, d := g[v][n].to, dist[v] + g[v][n].weight;
    if Lowers(dist, max, finished + {v}, d, u) {
      ReachesOn(g, src, v, n, dist[v]);
      LoweredQueue(dist, q, finished + {v}, u, d);
      forall w, k | w in finished + {v} && w < |g| && 0 <= k < |g[w]| && RelaxedAt(g, dist, max, w, k)
        ensures RelaxedAt(g, dist', max, w, k)
      {
      }
    }
  }

  lemma LoweredQueue(dist: seq<nat>, q: set<(nat, nat)>, finished: set<nat>, u: nat, d: nat)
    requires u < |dist| && u !in finished && d < dist[u] && d != INFINITE
    requires Queued(dist, q, finished) && Ordered(dist, q, finished) && forall f :: f in finished ==> dist[f] <= d
    ensures Queued(dist[u := d], q - {(dist[u], u)} + {(d, u)}, finished)
    ensures Ordered(dist[u := d], q - {(dist[u], u)} + {(d, u)}, finished)
  {
  }

  /** Taking the first vertex off the queue. */
  lemma PopKeepsInv(g: Graph, src: nat, dist: seq<nat>, max: nat, q: set<(nat, nat)>, finished: set<nat>, x: (nat, nat))
    requires Inv(g, src, dist, max, q, finished) && x in q && forall y :: y in q ==> Before(x, y)
    ensures InvAt(g, src, dist, max, q - {x}, finished, x.1, 0)
    ensures x.1 !in finished && x.0 == dist[x.1] <= max
  {
    hide Reaches;
  }

  lemma EdgesKeepInv(g: Graph, src: nat, dist: seq<nat>, max: nat, q: set<(nat, nat)>, finished: set<nat>, v: nat)
    requires v < |g| && InvAt(g, src, dist, max, q, finished, v, |g[v]|)
    ensures Inv(g, src, dist, max, q, finished + {v})
  {
    hide Reaches, Attained;
  }

  /** Finished, the distances are no more than those of the walks within the bound. */
  lemma {:induction false} WalksNoShorter(g: Graph, src: nat, dist: seq<nat>, max: nat, finished: set<nat>, u: nat,
                                          w: nat, n: nat)
    requires Inv(g, src, dist, max, {}, finished) && WellFormed(g) && max < INFINITE
    requires Walk(g, src, u, w, n) && w <= max
    ensures u < |g| && dist[u] <= w
    decreases n
  {
    hide Attained, Relaxed;
    if n > 0 {
      var v: nat, k: nat :| Leads(g, v, k, u) && g[v][k].weight <= w && Walk(g, src, v, w - g[v][k].weight, n - 1);
      WalksNoShorter(g, src, dist, max, finished, v, w - g[v][k].weight, n - 1);
      assert v in finished;
      RelaxedOne(g, dist, max, finished, v, k);
    }
  }

  lemma RelaxedOne(g: Graph, dist: seq<nat>, max: nat, finished: set<nat>, v: nat, k: nat)
    requires Relaxed(g, dist, max, finished) && v in finished && v < |g| && k < |g[v]|
    ensures RelaxedAt(g, dist, max, v, k)
  {
  }

  /** The distance of every vertex within the bound is right, and the others have none. */
  ghost predicate BoundedShortest(g: Graph, src: nat, max: nat, u: nat, d: nat) {
    if d == INFINITE then forall w: nat :: Reaches(g, src, u, w) ==> w > max
    else d <= max && IsShortest(g, src, u, d)
  }

  lemma FinishedShortest(g: Graph, src: nat, dist: seq<nat>, max: nat, finished: set<nat>, u: nat)
    requires Inv(g, src, dist, max, {}, finished) && WellFormed(g) && max < INFINITE && u < |g|
    ensures BoundedShortest(g, src, max, u, dist[u])
  {
    hide Walk, Inv;
    assert dist[u] != INFINITE ==> dist[u] <= max && Reaches(g, src, u, dist[u]) by {
      InvAttained(g, src, dist, max, finished, u);
    }
    forall w: nat | Reaches(g, src, u, w) && w <= max
      ensures dist[u] <= w
    {
      var n: nat :| Walk(g, src, u, w, n);
      WalksNoShorter(g, src, dist, max, finished, u, w, n);
    }
  }

  lemma InvAttained(g: Graph, src: nat, dist: seq<nat>, max: nat, finished: set<nat>, u: nat)
    requires Inv(g, src, dist, max, {}, finished) && u < |g|
    ensures |dist| == |g| && (dist[u] != INFINITE ==> dist[u] <= max && Reaches(g, src, u, dist[u]))
  {
    hide Reaches;
  }

  // ------------------------------------------------------------------------------------------------
  // The algorithm
  // ------------------------------------------------------------------------------------------------

  lemma InitialInv(g: Graph, src: nat, dist: seq<nat>, max: nat)
    requires src < |g| == |dist| && forall u :: 0 <= u < |g| ==> dist[u] == if u == src then 0 else INFINITE
    ensures Inv(g, src, dist, max, {(0, src)}, {})
  {
    assert Walk(g, src, src, 0, 0);
  }

  method Initialize(src: nat, dist: array<nat>)
    requires src < dist.Length
    modifies dist
    ensures forall u :: 0 <= u < dist.Length ==> dist[u] == if u == src then 0 else INFINITE
  {
    var i := 0;
    while i < dist.Length
      invariant i <= dist.Length && forall u :: 0 <= u < i ==> dist[u] == INFINITE
    {
      dist[i] := INFINITE;
      i := i + 1;
    }
    dist[src] := 0;
  }

  /** The inner loop: the edges of v. */
  method LookAtEdges(g: Graph, ghost src: nat, dist: array<nat>, maxDist: nat, before: set<(nat, nat)>,
                     finished: set<nat>, v: nat)
    returns (queue: set<(nat, nat)>)
    requires WellFormed(g) && maxDist < INFINITE && v in finished
    requires InvAt(g, src, dist[..], maxDist, before, finished - {v}, v, 0)
    modifies dist
    ensures Inv(g, src, dist[..], maxDist, queue, finished)
  {
    hide InvAt, Inv;
    queue := before;
    ghost var others := finished - {v};
    assert others + {v} == finished;
    AtEdges(g, src, dist[..], maxDist, queue, others, v, 0);
    var k := 0;
    while k < |g[v]|
      invariant v < |g| == dist.Length && k <= |g[v]|
      invariant InvAt(g, src, dist[..], maxDist, queue, others, v, k)
    {
      ghost var dist0, queue0 := dist[..], queue;
      var u := g[v][k].to;
      if u !in finished {
        var d: nat := dist[v] + g[v][k].weight;
        if d < dist[u] && d <= maxDist {
          queue := queue - {(dist[u], u)};
          queue := queue + {(d, u)};
          dist[u] := d;
          assert dist[..] == dist0[u := d];
        }
      }
      EdgeKeepsInv(g, src, dist0, maxDist, queue0, others, v, k, dist[..], queue);
      k := k + 1;
    }
    EdgesKeepInv(g, src, dist[..], maxDist, queue, others, v);
  }

  lemma AtEdges(g: Graph, src: nat, dist: seq<nat>, max: nat, q: set<(nat, nat)>, finished: set<nat>, v: nat, n: nat)
    requires InvAt(g, src, dist, max, q, finished, v, n)
    ensures v < |g| == |dist| && n <= |g[v]|
  {
  }

  ghost function Vertices(n: nat): (s: set<nat>)
    ensures forall v: nat :: v in s <==> v < n
  {
    if n == 0 then {} else Vertices(n - 1) + {n - 1}
  }

  method Dijkstra(g: Graph, src: nat, dist: array<nat>, maxDist: nat)
    requires WellFormed(g) && src < |g| == dist.Length && maxDist < INFINITE
    modifies dist
    ensures forall u :: 0 <= u < |g| ==> BoundedShortest(g, src, maxDist, u, dist[u])
  {
    hide Inv, InvAt, BoundedShortest;
    Initialize(src, dist);
    InitialInv(g, src, dist[..], maxDist);
    var queue: set<(nat, nat)> := {(0, src)};
    var finished: set<nat> := {};
    ghost var all := Vertices(|g|);
    while queue != {}
      invariant Inv(g, src, dist[..], maxDist, queue, finished)
      invariant finished <= all
      decreases all - finished
    {
      ghost var first := FirstExists(queue);
      var x :| x in queue && forall y :: y in queue ==> Before(x, y);
      PopKeepsInv(g, src, dist[..], maxDist, queue, finished, x);
      queue := queue - {x};
      var v := x.1;
      if x.0 > maxDist {
        break;
      }
      AtEdges(g, src, dist[..], maxDist, queue, finished, v, 0);
      ghost var before := finished;
      finished := finished + {v};
      assert finished - {v} == before;
      queue := LookAtEdges(g, src, dist, maxDist, queue, finished, v);
    }
    forall u | 0 <= u < |g|
      ensures BoundedShortest(g, src, maxDist, u, dist[u])
    {
      FinishedShortest(g, src, dist[..], maxDist, finished, u);
    }
  }

  lemma InfiniteIsMax()
    ensures INFINITE == Pow2(64) - 1
  {
    hide Pow2;
    BoundsOfSize(ULongLong);
  }
}
