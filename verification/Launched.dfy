/**
  The collective operations from the code to the data: every process of a row or column makes the call, and whatever the
  interleaving of what the calls do, the data arrive.
 */
module Launched {
  import opened Arith
  import opened Grid
  import opened MessagePassing
  import opened Options

  import B = Binomial
  import C = LongBroadcastCode
  import L = LongBroadcast
  import P = Pieces
  import R = Rings
  import S = SpreadRoll

  // ------------------------------------------------------------------------------------------------
  // The long broadcasts
  // ------------------------------------------------------------------------------------------------

  lemma LongDelivers<V(!new)>(size: nat, root: nat, modified: bool, len: nat, scripts: seq<seq<Op<P.Region>>>,
                              bufs: seq<seq<V>>)
    requires root < size == |scripts| == |bufs| && forall p :: 0 <= p < size ==> |bufs[p]| == len
    requires forall p :: 0 <= p < size ==>
               scripts[p] == if size <= 1 then [] else S.Script(C.Bcasting(size, root, modified, len), p)
    ensures AlwaysDelivers(L.Moving<V>(scripts), bufs, Everywhere(bufs[root]))
  {
    hide Delivers, Run, Start, S.Script, L.Moving;
    if size <= 1 {
      NoCallsLong(scripts, bufs);
    } else {
      var l := P.Even(len, L.PartCount(size, modified));
      var b := C.Bcasting(size, root, modified, len);
      L.PanelFits(size, root, modified, l);
      assert scripts == S.Scripts(b);
      forall sched: seq<nat>, t: Net<seq<V>, seq<V>> | Run(L.Moving<V>(scripts), Start(bufs), sched, t)
        ensures Delivers(L.Moving<V>(scripts), sched, t, Everywhere(bufs[root]))
      {
        L.BroadcastDelivers(size, root, modified, l, bufs, sched, t);
      }
    }
  }

  lemma NoCallsLong<V(!new)>(scripts: seq<seq<Op<P.Region>>>, bufs: seq<seq<V>>)
    requires |scripts| == |bufs| == 1 && scripts[0] == []
    ensures AlwaysDelivers(L.Moving<V>(scripts), bufs, Everywhere(bufs[0]))
  {
    NoCallsDeliver(L.Moving<V>(scripts), bufs, Everywhere(bufs[0]));
  }

  /** HPL_bcast_blong in every process, with what HPL_grid_init stores */
  method LaunchBlong<V(!new)>(size: nat, root: nat, len: nat, ghost bufs: seq<seq<V>>)
    returns (scripts: seq<seq<Op<P.Region>>>)
    requires root < size == |bufs| && forall p :: 0 <= p < size ==> |bufs[p]| == len
    ensures |scripts| == size && AlwaysDelivers(L.Moving<V>(scripts), bufs, Everywhere(bufs[root]))
  {
    hide S.Script, L.Moving, AlwaysDelivers;
    var ip2, mask := HypercubeBelow(size);
    scripts := [];
    for rank := 0 to size
      invariant |scripts| == rank
      invariant forall p :: 0 <= p < rank ==>
                  scripts[p] == if size <= 1 then [] else S.Script(C.Bcasting(size, root, false, len), p)
    {
      var ops := C.Blong(rank, root, size, len, ip2, mask);
      scripts := scripts + [ops];
    }
    LongDelivers(size, root, false, len, scripts, bufs);
  }

  /** HPL_bcast_blonM in every process */
  method LaunchBlonM<V(!new)>(size: nat, root: nat, len: nat, ghost bufs: seq<seq<V>>)
    returns (scripts: seq<seq<Op<P.Region>>>)
    requires root < size == |bufs| && forall p :: 0 <= p < size ==> |bufs[p]| == len
    ensures |scripts| == size && AlwaysDelivers(L.Moving<V>(scripts), bufs, Everywhere(bufs[root]))
  {
    hide S.Script, L.Moving, AlwaysDelivers;
    scripts := [];
    for rank := 0 to size
      invariant |scripts| == rank
      invariant forall p :: 0 <= p < rank ==>
                  scripts[p] == if size <= 1 then [] else S.Script(C.Bcasting(size, root, true, len), p)
    {
      var ops := C.BlonM(rank, root, size, len);
      scripts := scripts + [ops];
    }
    LongDelivers(size, root, true, len, scripts, bufs);
  }

  // ------------------------------------------------------------------------------------------------
  // The rings
  // ------------------------------------------------------------------------------------------------

  lemma RingDelivers<V(!new)>(r: R.Ring, scripts: seq<seq<Op<R.Panel>>>, bufs: seq<V>)
    requires r.root < r.size == |scripts| == |bufs|
    requires forall p :: 0 <= p < r.size ==> scripts[p] == if r.size <= 1 then [] else R.Script(r, p)
    ensures AlwaysDelivers(R.Passing<V>(scripts), bufs, Everywhere(bufs[r.root]))
  {
    hide Delivers, Run, Start, R.Script, R.Passing;
    if r.size <= 1 {
      NoCallsRing(scripts, bufs);
    } else {
      assert scripts == R.Scripts(r);
      forall sched: seq<nat>, t: Net<V, V> | Run(R.Passing<V>(scripts), Start(bufs), sched, t)
        ensures Delivers(R.Passing<V>(scripts), sched, t, Everywhere(bufs[r.root]))
      {
        R.RingDelivers(r, bufs, sched, t);
      }
    }
  }

  lemma NoCallsRing<V(!new)>(scripts: seq<seq<Op<R.Panel>>>, bufs: seq<V>)
    requires |scripts| == |bufs| == 1 && scripts[0] == []
    ensures AlwaysDelivers(R.Passing<V>(scripts), bufs, Everywhere(bufs[0]))
  {
    NoCallsDeliver(R.Passing<V>(scripts), bufs, Everywhere(bufs[0]));
  }

  /** HPL_bcast for one of the rings: the call is made until the message is there. */
  method RingCall(r: R.Ring, rank: nat, go: bool) returns (probed: Option<nat>, flag: R.Flag, ops: seq<Op<R.Panel>>)
    requires rank < r.size && r.root < r.size
    ensures R.CallDoes(r, rank, probed, go, flag, ops)
  {
    hide R.CallDoes;
    match r.top
    case OneRing => probed, flag, ops := R.OneRingCall(rank, r.root, r.size, go);
    case OneRingM => probed, flag, ops := R.OneRingMCall(rank, r.root, r.size, go);
    case TwoRing => probed, flag, ops := R.TwoRingCall(rank, r.root, r.size, go);
    case TwoRingM => probed, flag, ops := R.TwoRingMCall(rank, r.root, r.size, go);
  }

  /** A ring broadcast in every process, up to the call that succeeds */
  method LaunchRing<V(!new)>(r: R.Ring, ghost bufs: seq<V>) returns (scripts: seq<seq<Op<R.Panel>>>)
    requires r.root < r.size == |bufs|
    ensures |scripts| == r.size && AlwaysDelivers(R.Passing<V>(scripts), bufs, Everywhere(bufs[r.root]))
  {
    hide R.Script, R.Passing, R.Probes, AlwaysDelivers;
    scripts := [];
    for rank := 0 to r.size
      invariant |scripts| == rank
      invariant forall p :: 0 <= p < rank ==> scripts[p] == if r.size <= 1 then [] else R.Script(r, p)
    {
      var probed, flag, ops := RingCall(r, rank, true);
      scripts := scripts + [ops];
    }
    RingDelivers(r, scripts, bufs);
  }

  // ------------------------------------------------------------------------------------------------
  // Reduce, broadcast and all-reduce
  // ------------------------------------------------------------------------------------------------

  lemma CollectiveDelivers<V(!new)>(c: B.Collective, op: (V, V) -> V, scripts: seq<seq<Op<B.Use>>>, bufs: seq<V>)
    requires B.Valid(c) && |scripts| == |bufs| == c.size && (c.reduce ==> B.Associative(op))
    requires forall p :: 0 <= p < c.size ==> scripts[p] == B.Script(c, p)
    ensures AlwaysDelivers(B.Combining(scripts, op), bufs, B.Purpose(c, B.Result(c, op, B.FromRoot(c, bufs))))
  {
    hide Delivers, Run, Start, B.Script, B.Combining, B.Purpose, B.Result, B.FromRoot, B.Associative;
    assert scripts == B.Scripts(c);
    var wanted := B.Purpose(c, B.Result(c, op, B.FromRoot(c, bufs)));
    forall sched: seq<nat>, t: Net<V, V> | Run(B.Combining(scripts, op), Start(bufs), sched, t)
      ensures Delivers(B.Combining(scripts, op), sched, t, wanted)
    {
      B.CollectiveDelivers(c, op, bufs, sched, t);
    }
  }

  /** HPL_reduce in every process: the root ends with all buffers combined. */
  method LaunchReduce<V(!new)>(size: nat, root: nat, count: int, ghost op: (V, V) -> V, ghost bufs: seq<V>)
    returns (scripts: seq<seq<Op<B.Use>>>)
    requires root < size == |bufs| && B.Associative(op)
    ensures |scripts| == size
    ensures if size == 1 || count <= 0 then forall p :: 0 <= p < size ==> scripts[p] == []
            else
              var c := B.Collective(size, root, true, false);
              AlwaysDelivers(B.Combining(scripts, op), bufs, B.Purpose(c, B.Result(c, op, B.FromRoot(c, bufs))))
  {
    hide B.Script, B.Combining, B.Purpose, B.Result, B.FromRoot, B.Associative, AlwaysDelivers;
    scripts := [];
    for rank := 0 to size
      invariant |scripts| == rank
      invariant forall p :: 0 <= p < rank ==>
                  scripts[p] == if count <= 0 || size == 1 then []
                                else B.Script(B.Collective(size, root, true, false), p)
    {
      var ops := B.Reduce(rank, root, size, count);
      scripts := scripts + [ops];
    }
    if size > 1 && count > 0 {
      CollectiveDelivers(B.Collective(size, root, true, false), op, scripts, bufs);
    }
  }

  lemma BroadcastDelivers<V(!new)>(size: nat, root: nat, scripts: seq<seq<Op<B.Use>>>, op: (V, V) -> V, bufs: seq<V>)
    requires root < size == |scripts| == |bufs| && size >= 2
    requires forall p :: 0 <= p < size ==> scripts[p] == B.Script(B.Collective(size, root, false, true), p)
    ensures AlwaysDelivers(B.Combining(scripts, op), bufs, Everywhere(bufs[root]))
  {
    hide Delivers, Run, Start, B.Script, B.Combining;
    var c := B.Collective(size, root, false, true);
    CollectiveDelivers(c, op, scripts, bufs);
    assert B.Result(c, op, B.FromRoot(c, bufs)) == bufs[root];
    B.PurposeEverywhere(c, bufs[root]);
    forall sched: seq<nat>, t: Net<V, V> | Run(B.Combining(scripts, op), Start(bufs), sched, t)
      ensures Delivers(B.Combining(scripts, op), sched, t, Everywhere(bufs[root]))
    {
      DeliversMore(B.Combining(scripts, op), sched, t, B.Purpose(c, bufs[root]), Everywhere(bufs[root]));
    }
  }

  /** HPL_broadcast in every process: all end with the root's buffer. */
  method LaunchBroadcast<V(!new)>(size: nat, root: nat, count: int, ghost op: (V, V) -> V, ghost bufs: seq<V>)
    returns (scripts: seq<seq<Op<B.Use>>>)
    requires root < size == |bufs|
    ensures |scripts| == size
    ensures if size == 1 || count <= 0 then forall p :: 0 <= p < size ==> scripts[p] == []
            else AlwaysDelivers(B.Combining(scripts, op), bufs, Everywhere(bufs[root]))
  {
    hide B.Script, B.Combining, AlwaysDelivers;
    scripts := [];
    for rank := 0 to size
      invariant |scripts| == rank
      invariant forall p :: 0 <= p < rank ==>
                  scripts[p] == if count <= 0 || size <= 1 then []
                                else B.Script(B.Collective(size, root, false, true), p)
    {
      var ops := B.Broadcast(rank, root, size, count);
      scripts := scripts + [ops];
    }
    if size > 1 && count > 0 {
      BroadcastDelivers(size, root, scripts, op, bufs);
    }
  }

  lemma AllReduceDelivers<V(!new)>(size: nat, scripts: seq<seq<Op<B.Use>>>, op: (V, V) -> V, bufs: seq<V>)
    requires size == |scripts| == |bufs| && size >= 2 && B.Associative(op)
    requires forall p :: 0 <= p < size ==> scripts[p] == B.Script(B.Collective(size, 0, true, true), p)
    ensures AlwaysDelivers(B.Combining(scripts, op), bufs, Everywhere(B.Fold(op, bufs, 0, size)))
  {
    hide Delivers, Run, Start, B.Script, B.Combining, B.Associative, B.Fold;
    assert scripts == B.Scripts(B.Collective(size, 0, true, true));
    forall sched: seq<nat>, t: Net<V, V> | Run(B.Combining(scripts, op), Start(bufs), sched, t)
      ensures Delivers(B.Combining(scripts, op), sched, t, Everywhere(B.Fold(op, bufs, 0, size)))
    {
      B.AllReduceDelivers(size, op, bufs, sched, t);
    }
  }

  /** HPL_all_reduce in every process: all end with all buffers combined. */
  method LaunchAllReduce<V(!new)>(size: nat, count: int, ghost op: (V, V) -> V, ghost bufs: seq<V>)
    returns (scripts: seq<seq<Op<B.Use>>>)
    requires size == |bufs| && B.Associative(op)
    ensures |scripts| == size
    ensures if size <= 1 || count <= 0 then forall p :: 0 <= p < size ==> scripts[p] == []
            else AlwaysDelivers(B.Combining(scripts, op), bufs, Everywhere(B.Fold(op, bufs, 0, size)))
  {
    hide B.Script, B.Combining, B.Associative, B.Fold, AlwaysDelivers;
    scripts := [];
    for rank := 0 to size
      invariant |scripts| == rank
      invariant forall p :: 0 <= p < rank ==>
                  scripts[p] == if count <= 0 || size == 1 then []
                                else B.Script(B.Collective(size, 0, true, true), p)
    {
      var ops := B.AllReduce(rank, size, count);
      scripts := scripts + [ops];
    }
    if size > 1 && count > 0 {
      AllReduceDelivers(size, scripts, op, bufs);
    }
  }
}
