/**
  Message passing between processes whose communication calls do not depend on the data they receive.
  A process is a fixed list of operations; messages of one channel arrive in the order they were posted
  (MPI 3.1, section 3.5).  A run is any interleaving of the processes.

  A Post is the non-blocking half of a send, Wait its completion.  How long a send blocks is up to the MPI
  library: with buffering Wait never blocks, in synchronous mode it blocks until the message has been taken.
  Safety is proved for the runs of a buffering library, which contain all others; absence of deadlock is
  proved for the synchronous one, whose operations are enabled least often.
 */
module MessagePassing {

  /** `sel` says which part of the process's memory a message carries. */
  datatype Op<S> =
    | Post(to: nat, sel: S)
    | Recv(from: nat, sel: S)
    | Wait(to: nat)
    | Skip

  datatype System<!S, !M, !D> = System(
    scripts: seq<seq<Op<S>>>,
    read: (M, S) -> D,
    write: (M, S, D) -> M)

  datatype Net<M, D> = Net(pc: seq<nat>, mem: seq<M>, chan: map<(nat, nat), seq<D>>)

  function Chan<M, D>(s: Net<M, D>, p: nat, q: nat): seq<D> {
    if (p, q) in s.chan then s.chan[(p, q)] else []
  }

  function Start<M, D>(mem: seq<M>): Net<M, D> {
    Net(seq(|mem|, i => 0), mem, map[])
  }

  predicate Shape<S, M, D>(sys: System<S, M, D>, s: Net<M, D>) {
    && |s.pc| == |s.mem| == |sys.scripts|
    && forall p :: 0 <= p < |s.pc| ==> s.pc[p] <= |sys.scripts[p]|
  }

  predicate Running<S, M, D>(sys: System<S, M, D>, s: Net<M, D>, p: nat) {
    p < |s.pc| && p < |s.mem| && p < |sys.scripts| && s.pc[p] < |sys.scripts[p]|
  }

  /** Can process p make its next move?  `synchronous` makes Wait block until the channel is drained. */
  predicate Enabled<S, M, D>(sys: System<S, M, D>, s: Net<M, D>, p: nat, synchronous: bool) {
    && Running(sys, s, p)
    && match sys.scripts[p][s.pc[p]] {
         case Post(_, _) => true
         case Recv(q, _) => Chan(s, q, p) != []
         case Wait(q) => synchronous ==> |Chan(s, p, q)| == 0
         case Skip => true
       }
  }

  function Step<S, M, D>(sys: System<S, M, D>, s: Net<M, D>, p: nat): Net<M, D>
    requires Enabled(sys, s, p, false)
  {
    var pc' := s.pc[p := s.pc[p] + 1];
    match sys.scripts[p][s.pc[p]] {
      case Post(q, sel) =>
        Net(pc', s.mem, s.chan[(p, q) := Chan(s, p, q) + [sys.read(s.mem[p], sel)]])
      case Recv(q, sel) =>
        Net(pc', s.mem[p := sys.write(s.mem[p], sel, Chan(s, q, p)[0])], s.chan[(q, p) := Chan(s, q, p)[1..]])
      case Wait(_) => Net(pc', s.mem, s.chan)
      case Skip => Net(pc', s.mem, s.chan)
    }
  }

  /** Does `sched`, read as the order in which processes move, lead from s to t? */
  ghost predicate Run<S, M(!new), D(!new)>(sys: System<S, M, D>, s: Net<M, D>, sched: seq<nat>, t: Net<M, D>)
    decreases |sched|
  {
    if sched == [] then t == s
    else Enabled(sys, s, sched[0], false) && Run(sys, Step(sys, s, sched[0]), sched[1..], t)
  }

  predicate Finished<S, M, D>(sys: System<S, M, D>, s: Net<M, D>)
    requires Shape(sys, s)
  {
    forall p :: 0 <= p < |s.pc| ==> s.pc[p] == |sys.scripts[p]|
  }

  /** Every message that was posted has been received. */
  ghost predicate Drained<M(!new), D(!new)>(s: Net<M, D>) {
    forall p: nat, q: nat :: p < |s.pc| && q < |s.pc| ==> Chan(s, p, q) == []
  }

  function Total(ns: seq<nat>): nat {
    if ns == [] then 0 else Total(ns[..|ns| - 1]) + ns[|ns| - 1]
  }

  function Lengths<S>(scripts: seq<seq<Op<S>>>): seq<nat> {
    seq(|scripts|, p requires 0 <= p < |scripts| => |scripts[p]|)
  }

  // ------------------------------------------------------------------------------------------------
  // What has to be known about the scripts
  // ------------------------------------------------------------------------------------------------

  /** `mate` pairs every Post with the Recv that takes its message, and back; `time` puts all operations in an
      order in which they could be executed one after another. */
  datatype Plan = Plan(mate: (nat, nat) -> nat, time: (nat, nat) -> int)

  predicate PostsTo<S>(scripts: seq<seq<Op<S>>>, p: nat, i: nat, q: nat) {
    p < |scripts| && i < |scripts[p]| && scripts[p][i].Post? && scripts[p][i].to == q
  }

  predicate RecvsFrom<S>(scripts: seq<seq<Op<S>>>, p: nat, i: nat, q: nat) {
    p < |scripts| && i < |scripts[p]| && scripts[p][i].Recv? && scripts[p][i].from == q
  }

  predicate WaitsFor<S>(scripts: seq<seq<Op<S>>>, p: nat, i: nat, q: nat) {
    p < |scripts| && i < |scripts[p]| && scripts[p][i] == Wait(q)
  }

  /** A Post at (p, i) to q and the Recv at (q, j) are each other's mates and agree on what is sent. */
  predicate Paired<S(==)>(scripts: seq<seq<Op<S>>>, plan: Plan, p: nat, i: nat, q: nat, j: nat) {
    && PostsTo(scripts, p, i, q) && RecvsFrom(scripts, q, j, p)
    && plan.mate(p, i) == j && plan.mate(q, j) == i
    && scripts[p][i].sel == scripts[q][j].sel
    && plan.time(p, i) < plan.time(q, j)
  }

  ghost predicate WellPlanned<S(!new)>(scripts: seq<seq<Op<S>>>, plan: Plan) {
    && (forall p: nat, i: nat, q: nat :: PostsTo(scripts, p, i, q) ==> Paired(scripts, plan, p, i, q, plan.mate(p, i)))
    && (forall p: nat, i: nat, q: nat ::
          RecvsFrom(scripts, p, i, q) ==> Paired(scripts, plan, q, plan.mate(p, i), p, i))
    && (forall p: nat, i: nat, j: nat, q: nat ::
          i < j && PostsTo(scripts, p, i, q) && PostsTo(scripts, p, j, q) ==> plan.mate(p, i) < plan.mate(p, j))
    && (forall p: nat, i: nat, j: nat, q: nat ::
          i < j && PostsTo(scripts, p, i, q) && WaitsFor(scripts, p, j, q) ==>
            plan.time(q, plan.mate(p, i)) < plan.time(p, j))
    && (forall p: nat, i: nat, q: nat :: WaitsFor(scripts, p, i, q) ==> q < |scripts|)
    && (forall p: nat, i: nat :: p < |scripts| && i + 1 < |scripts[p]| ==> plan.time(p, i) < plan.time(p, i + 1))
  }

  /** A simpler condition: every message is taken one tick after it was posted, and no Wait comes that early. */
  ghost predicate Tight<S(!new)>(scripts: seq<seq<Op<S>>>, plan: Plan) {
    SendsTaken(scripts, plan) && RecvsSent(scripts, plan) && WaitsLater(scripts, plan) && TimesGrow(scripts, plan)
  }

  ghost predicate SendsTaken<S(!new)>(scripts: seq<seq<Op<S>>>, plan: Plan) {
    forall p: nat, i: nat, q: nat :: PostsTo(scripts, p, i, q) ==> TightPair(scripts, plan, p, i, q, plan.mate(p, i))
  }

  ghost predicate RecvsSent<S(!new)>(scripts: seq<seq<Op<S>>>, plan: Plan) {
    forall p: nat, i: nat, q: nat :: RecvsFrom(scripts, p, i, q) ==> TightPair(scripts, plan, q, plan.mate(p, i), p, i)
  }

  ghost predicate WaitsLater<S(!new)>(scripts: seq<seq<Op<S>>>, plan: Plan) {
    forall p: nat, i: nat, q: nat :: WaitsFor(scripts, p, i, q) ==>
      q < |scripts| && (i > 0 && PostsTo(scripts, p, i - 1, q) ==> plan.time(p, i - 1) + 1 < plan.time(p, i))
  }

  ghost predicate TimesGrow<S(!new)>(scripts: seq<seq<Op<S>>>, plan: Plan) {
    forall p: nat, i: nat :: p < |scripts| && i + 1 < |scripts[p]| ==> plan.time(p, i) < plan.time(p, i + 1)
  }

  predicate TightPair<S(==)>(scripts: seq<seq<Op<S>>>, plan: Plan, p: nat, i: nat, q: nat, j: nat) {
    Paired(scripts, plan, p, i, q, j) && plan.time(q, j) == plan.time(p, i) + 1
  }

  lemma {:induction false} TightTimes<S(!new)>(scripts: seq<seq<Op<S>>>, plan: Plan, p: nat, i: nat, j: nat)
    requires Tight(scripts, plan) && p < |scripts| && i < j < |scripts[p]|
    ensures plan.time(p, i) < plan.time(p, j)
    decreases j
  {
    assert plan.time(p, j - 1) < plan.time(p, j - 1 + 1);
    if i < j - 1 {
      TightTimes(scripts, plan, p, i, j - 1);
    }
  }

  lemma TightIsWellPlanned<S(!new)>(scripts: seq<seq<Op<S>>>, plan: Plan)
    requires Tight(scripts, plan)
    ensures WellPlanned(scripts, plan)
  {
    forall p: nat, i: nat, j: nat, q: nat | i < j && PostsTo(scripts, p, i, q) && PostsTo(scripts, p, j, q)
      ensures plan.mate(p, i) < plan.mate(p, j)
    {
      var x, y := plan.mate(p, i), plan.mate(p, j);
      assert TightPair(scripts, plan, p, i, q, x) && TightPair(scripts, plan, p, j, q, y);
      TightTimes(scripts, plan, p, i, j);
      if y < x {
        TightTimes(scripts, plan, q, y, x);
      }
    }
    forall p: nat, i: nat, j: nat, q: nat | i < j && PostsTo(scripts, p, i, q) && WaitsFor(scripts, p, j, q)
      ensures plan.time(q, plan.mate(p, i)) < plan.time(p, j)
    {
      assert TightPair(scripts, plan, p, i, q, plan.mate(p, i));
      if i < j - 1 {
        TightTimes(scripts, plan, p, i, j - 1);
      }
    }
    forall p: nat, i: nat, q: nat | PostsTo(scripts, p, i, q)
      ensures Paired(scripts, plan, p, i, q, plan.mate(p, i))
    {
      assert TightPair(scripts, plan, p, i, q, plan.mate(p, i));
    }
    forall p: nat, i: nat, q: nat | RecvsFrom(scripts, p, i, q)
      ensures Paired(scripts, plan, q, plan.mate(p, i), p, i)
    {
      assert TightPair(scripts, plan, q, plan.mate(p, i), p, i);
    }
  }

  /** What is true of a process's memory before each of its operations, and of each message. */
  datatype Certificate<!M, !D> = Certificate(good: (nat, nat, M) -> bool, msg: (nat, nat, D) -> bool)

  ghost predicate MsgAccepted<S, M(!new), D(!new)>(
    sys: System<S, M, D>, plan: Plan, cert: Certificate<M, D>, p: nat, i: nat, m: M, q: nat, sel: S)
  {
    forall d: D :: cert.msg(q, plan.mate(p, i), d) ==> cert.good(p, i + 1, sys.write(m, sel, d))
  }

  /** Operation i of process p, started in a good memory, does what the certificate says. */
  ghost predicate OpCertified<S, M(!new), D(!new)>(
    sys: System<S, M, D>, plan: Plan, cert: Certificate<M, D>, p: nat, i: nat, m: M)
    requires p < |sys.scripts| && i < |sys.scripts[p]|
  {
    match sys.scripts[p][i] {
      case Post(_, sel) => cert.good(p, i + 1, m) && cert.msg(p, i, sys.read(m, sel))
      case Recv(q, sel) => MsgAccepted(sys, plan, cert, p, i, m, q, sel)
      case Wait(_) => cert.good(p, i + 1, m)
      case Skip => cert.good(p, i + 1, m)
    }
  }

  ghost predicate Certifies<S(!new), M(!new), D(!new)>(sys: System<S, M, D>, plan: Plan, cert: Certificate<M, D>) {
    forall p: nat, i: nat, m: M ::
      p < |sys.scripts| && i < |sys.scripts[p]| && cert.good(p, i, m) ==> OpCertified(sys, plan, cert, p, i, m)
  }

  // ------------------------------------------------------------------------------------------------
  // The invariant of every run
  // ------------------------------------------------------------------------------------------------

  /** The posts of p to q among its first i operations whose Recv is not among q's first j, in order. */
  ghost function Pending<S>(scripts: seq<seq<Op<S>>>, plan: Plan, p: nat, q: nat, i: nat, j: nat): seq<nat> {
    if i == 0 then []
    else
      Pending(scripts, plan, p, q, i - 1, j)
      + if PostsTo(scripts, p, i - 1, q) && plan.mate(p, i - 1) >= j then [i - 1] else []
  }

  ghost predicate ChannelOk<S, M(!new), D(!new)>(
    sys: System<S, M, D>, plan: Plan, cert: Certificate<M, D>, s: Net<M, D>, p: nat, q: nat)
    requires p < |s.pc| && q < |s.pc|
  {
    var pend := Pending(sys.scripts, plan, p, q, s.pc[p], s.pc[q]);
    && |Chan(s, p, q)| == |pend|
    && forall k :: 0 <= k < |pend| ==> cert.msg(p, pend[k], Chan(s, p, q)[k])
  }

  ghost predicate Inv<S(!new), M(!new), D(!new)>(sys: System<S, M, D>, plan: Plan, cert: Certificate<M, D>, s: Net<M,
                        D>) {
    && Shape(sys, s)
    && (forall p :: 0 <= p < |s.pc| ==> cert.good(p, s.pc[p], s.mem[p]))
    && (forall p: nat, j: nat, q: nat :: RecvsFrom(sys.scripts, p, j, q) && j < s.pc[p] ==>
          q < |s.pc| && plan.mate(p, j) < s.pc[q])
    && (forall p: nat, q: nat :: p < |s.pc| && q < |s.pc| ==> ChannelOk(sys, plan, cert, s, p, q))
  }

  lemma {:induction false} PendingMembers<S>(scripts: seq<seq<Op<S>>>, plan: Plan, p: nat, q: nat, i: nat, j: nat)
    ensures forall x: nat :: x in Pending(scripts, plan, p, q, i, j) <==>
              x < i && PostsTo(scripts, p, x, q) && plan.mate(p, x) >= j
  {
    if i > 0 {
      PendingMembers(scripts, plan, p, q, i - 1, j);
    }
  }

  lemma RecvHasPost<S(!new)>(scripts: seq<seq<Op<S>>>, plan: Plan, q: nat, j: nat, p: nat)
    requires WellPlanned(scripts, plan) && RecvsFrom(scripts, q, j, p)
    ensures Paired(scripts, plan, p, plan.mate(q, j), q, j)
  {
  }

  lemma PostHasRecv<S(!new)>(scripts: seq<seq<Op<S>>>, plan: Plan, p: nat, i: nat, q: nat)
    requires WellPlanned(scripts, plan) && PostsTo(scripts, p, i, q)
    ensures Paired(scripts, plan, p, i, q, plan.mate(p, i))
  {
  }

  lemma PostsInOrder<S(!new)>(scripts: seq<seq<Op<S>>>, plan: Plan, p: nat, i: nat, j: nat, q: nat)
    requires WellPlanned(scripts, plan) && i < j && PostsTo(scripts, p, i, q) && PostsTo(scripts, p, j, q)
    ensures plan.mate(p, i) < plan.mate(p, j)
  {
  }

  /** The receiver's next operation takes exactly the oldest pending message. */
  lemma {:induction false} PendingHead<S(!new)>(scripts: seq<seq<Op<S>>>, plan: Plan, p: nat, q: nat, i: nat, j: nat)
    requires WellPlanned(scripts, plan)
    requires RecvsFrom(scripts, q, j, p) && plan.mate(q, j) < i
    ensures Pending(scripts, plan, p, q, i, j) == [plan.mate(q, j)] + Pending(scripts, plan, p, q, i, j + 1)
  {
    hide WellPlanned;
    var x := plan.mate(q, j);
    RecvHasPost(scripts, plan, q, j, p);
    if i - 1 > x {
      PendingHead(scripts, plan, p, q, i - 1, j);
      if PostsTo(scripts, p, i - 1, q) {
        PostsInOrder(scripts, plan, p, x, i - 1, q);
      }
    } else {
      forall y: nat | y < x && PostsTo(scripts, p, y, q)
        ensures plan.mate(p, y) < j
      {
        PostsInOrder(scripts, plan, p, y, x, q);
      }
      PendingNone(scripts, plan, p, q, x, j);
      PendingNone(scripts, plan, p, q, x, j + 1);
    }
  }

  /** Moving the receiver past an operation that is not a Recv from p leaves the channel alone. */
  lemma {:induction false} PendingSkip<S(!new)>(scripts: seq<seq<Op<S>>>, plan: Plan, p: nat, q: nat, i: nat, j: nat)
    requires WellPlanned(scripts, plan)
    requires !RecvsFrom(scripts, q, j, p)
    ensures Pending(scripts, plan, p, q, i, j) == Pending(scripts, plan, p, q, i, j + 1)
  {
    hide WellPlanned;
    if i > 0 {
      PendingSkip(scripts, plan, p, q, i - 1, j);
      if PostsTo(scripts, p, i - 1, q) {
        PostHasRecv(scripts, plan, p, i - 1, q);
      }
    }
  }

  lemma {:induction false} PendingNone<S>(scripts: seq<seq<Op<S>>>, plan: Plan, p: nat, q: nat, i: nat, j: nat)
    requires forall x: nat :: x < i && PostsTo(scripts, p, x, q) ==> plan.mate(p, x) < j
    ensures Pending(scripts, plan, p, q, i, j) == []
  {
    if i > 0 {
      PendingNone(scripts, plan, p, q, i - 1, j);
    }
  }

  lemma StartInv<S(!new), M(!new), D(!new)>(sys: System<S, M, D>, plan: Plan, cert: Certificate<M, D>, mem: seq<M>)
    requires |mem| == |sys.scripts|
    requires forall p :: 0 <= p < |mem| ==> cert.good(p, 0, mem[p])
    ensures Inv(sys, plan, cert, Start(mem))
  {
  }

  /** The queue of channel (p, q) after a move of process r. */
  lemma StepChan<S, M, D>(sys: System<S, M, D>, s: Net<M, D>, r: nat, p: nat, q: nat)
    requires Enabled(sys, s, r, false)
    ensures Chan(Step(sys, s, r), p, q) ==
            if p == r && PostsTo(sys.scripts, r, s.pc[r], q) then
              Chan(s, p, q) + [sys.read(s.mem[r], sys.scripts[r][s.pc[r]].sel)]
            else if q == r && RecvsFrom(sys.scripts, r, s.pc[r], p) then Chan(s, p, q)[1..]
            else Chan(s, p, q)
  {
  }

  /** What becomes of the pending posts of channel (p, q) when process r moves past its operation pc[r]. */
  lemma StepPending<S(!new)>(scripts: seq<seq<Op<S>>>, plan: Plan, pc: seq<nat>, r: nat, p: nat, q: nat)
    requires WellPlanned(scripts, plan)
    requires p < |pc| && q < |pc| && r < |pc|
    requires p == r && PostsTo(scripts, r, pc[r], q) ==> plan.mate(r, pc[r]) >= pc[q]
    requires q == r && RecvsFrom(scripts, r, pc[r], p) ==> plan.mate(r, pc[r]) < pc[p]
    ensures var was := Pending(scripts, plan, p, q, pc[p], pc[q]);
            var pc' := pc[r := pc[r] + 1];
            var now := Pending(scripts, plan, p, q, pc'[p], pc'[q]);
            if p == r && PostsTo(scripts, r, pc[r], q) then now == was + [pc[r]]
            else if q == r && RecvsFrom(scripts, r, pc[r], p) then was == [plan.mate(r, pc[r])] + now
            else now == was
  {
    hide WellPlanned, Pending;
    var pc' := pc[r := pc[r] + 1];
    if p == r {
      PendingNext(scripts, plan, p, q, pc[p], pc[q]);
    }
    if q == r {
      if RecvsFrom(scripts, r, pc[r], p) {
        PendingHead(scripts, plan, p, r, pc'[p], pc[r]);
      } else {
        PendingSkip(scripts, plan, p, r, pc'[p], pc[r]);
      }
    }
  }

  lemma PendingNext<S>(scripts: seq<seq<Op<S>>>, plan: Plan, p: nat, q: nat, i: nat, j: nat)
    ensures Pending(scripts, plan, p, q, i + 1, j) == Pending(scripts, plan, p, q, i, j)
            + if PostsTo(scripts, p, i, q) && plan.mate(p, i) >= j then [i] else []
  {
  }

  lemma StepKeepsChannel<S(!new), M(!new), D(!new)>(
    sys: System<S, M, D>, plan: Plan, cert: Certificate<M, D>, s: Net<M, D>, r: nat, p: nat, q: nat)
    requires WellPlanned(sys.scripts, plan) && Shape(sys, s) && Enabled(sys, s, r, false)
    requires p < |s.pc| && q < |s.pc|
    requires p == r && PostsTo(sys.scripts, r, s.pc[r], q) ==> plan.mate(r, s.pc[r]) >= s.pc[q]
    requires q == r && RecvsFrom(sys.scripts, r, s.pc[r], p) ==> plan.mate(r, s.pc[r]) < s.pc[p]
    requires ChannelOk(sys, plan, cert, s, p, q)
    requires PostsTo(sys.scripts, r, s.pc[r], q) ==>
               cert.msg(r, s.pc[r], sys.read(s.mem[r], sys.scripts[r][s.pc[r]].sel))
    ensures ChannelOk(sys, plan, cert, Step(sys, s, r), p, q)
  {
    hide WellPlanned, Pending;
    var t := Step(sys, s, r);
    assert t.pc == s.pc[r := s.pc[r] + 1];
    StepChan(sys, s, r, p, q);
    StepPending(sys.scripts, plan, s.pc, r, p, q);
    var was := Pending(sys.scripts, plan, p, q, s.pc[p], s.pc[q]);
    var now := Pending(sys.scripts, plan, p, q, t.pc[p], t.pc[q]);
    QueueFollows(cert, r, p, was, now, Chan(s, p, q), Chan(t, p, q), s.pc[r], plan.mate(r, s.pc[r]));
  }

  lemma QueueFollows<M, D(!new)>(
    cert: Certificate<M, D>, r: nat, p: nat, was: seq<nat>, now: seq<nat>, c: seq<D>, c': seq<D>, i: nat, x: nat)
    requires |was| == |c| && forall k :: 0 <= k < |was| ==> cert.msg(p, was[k], c[k])
    requires || (now == was && c' == c)
             || (p == r && now == was + [i] && |c'| == |c| + 1 && c'[..|c|] == c && cert.msg(p, i, c'[|c|]))
             || (was == [x] + now && c != [] && c' == c[1..])
    ensures |now| == |c'| && forall k :: 0 <= k < |now| ==> cert.msg(p, now[k], c'[k])
  {
    forall k | 0 <= k < |now|
      ensures k < |c'| && cert.msg(p, now[k], c'[k])
    {
      if now == was && c' == c {
      } else if was == [x] + now && c != [] && c' == c[1..] {
        assert now[k] == was[k + 1];
      } else if k < |c| {
        assert c'[k] == c'[..|c|][k];
      }
    }
  }

  lemma PostNotYetReceived<S(!new), M(!new), D(!new)>(
    sys: System<S, M, D>, plan: Plan, cert: Certificate<M, D>, s: Net<M, D>, p: nat, q: nat)
    requires WellPlanned(sys.scripts, plan)
    requires Inv(sys, plan, cert, s) && p < |s.pc| && PostsTo(sys.scripts, p, s.pc[p], q) && q < |s.pc|
    ensures plan.mate(p, s.pc[p]) >= s.pc[q]
  {
    hide ChannelOk;
    assert Paired(sys.scripts, plan, p, s.pc[p], q, plan.mate(p, s.pc[p]));
  }

  /** If the channel is not empty, the message the receiver wants has been posted. */
  lemma RecvAlreadyPosted<S(!new), M(!new), D(!new)>(
    sys: System<S, M, D>, plan: Plan, cert: Certificate<M, D>, s: Net<M, D>, p: nat, q: nat)
    requires WellPlanned(sys.scripts, plan)
    requires Inv(sys, plan, cert, s) && q < |s.pc| && RecvsFrom(sys.scripts, q, s.pc[q], p)
    requires p < |s.pc| && Chan(s, p, q) != []
    ensures plan.mate(q, s.pc[q]) < s.pc[p]
  {
    hide WellPlanned, Pending;
    assert ChannelOk(sys, plan, cert, s, p, q);
    var f := Pending(sys.scripts, plan, p, q, s.pc[p], s.pc[q])[0];
    PendingMembers(sys.scripts, plan, p, q, s.pc[p], s.pc[q]);
    assert f in Pending(sys.scripts, plan, p, q, s.pc[p], s.pc[q]);
    var x := plan.mate(q, s.pc[q]);
    RecvHasPost(sys.scripts, plan, q, s.pc[q], p);
    if f < x {
      PostsInOrder(sys.scripts, plan, p, f, x, q);
    }
  }

  /** A received message was a good one, so the receiver's memory stays good. */
  lemma StepKeepsMemory<S(!new), M(!new), D(!new)>(
    sys: System<S, M, D>, plan: Plan, cert: Certificate<M, D>, s: Net<M, D>, r: nat)
    requires WellPlanned(sys.scripts, plan) && Shape(sys, s) && Enabled(sys, s, r, false)
    requires OpCertified(sys, plan, cert, r, s.pc[r], s.mem[r])
    requires forall q: nat :: RecvsFrom(sys.scripts, r, s.pc[r], q) ==>
               q < |s.pc| && plan.mate(r, s.pc[r]) < s.pc[q] && ChannelOk(sys, plan, cert, s, q, r)
    ensures cert.good(r, s.pc[r] + 1, Step(sys, s, r).mem[r])
  {
    hide WellPlanned, Pending;
    var op := sys.scripts[r][s.pc[r]];
    if op.Recv? {
      var q := op.from;
      assert RecvsFrom(sys.scripts, r, s.pc[r], q);
      PendingHead(sys.scripts, plan, q, r, s.pc[q], s.pc[r]);
      assert cert.msg(q, plan.mate(r, s.pc[r]), Chan(s, q, r)[0]);
      assert MsgAccepted(sys, plan, cert, r, s.pc[r], s.mem[r], q, op.sel);
    }
  }

  /** A message that has not been posted cannot have been received, and what is taken was posted. */
  lemma MovesInOrder<S(!new), M(!new), D(!new)>(
    sys: System<S, M, D>, plan: Plan, cert: Certificate<M, D>, s: Net<M, D>, r: nat)
    requires WellPlanned(sys.scripts, plan) && Inv(sys, plan, cert, s) && Enabled(sys, s, r, false)
    ensures forall q: nat :: PostsTo(sys.scripts, r, s.pc[r], q) ==> q < |s.pc| && plan.mate(r, s.pc[r]) >= s.pc[q]
    ensures forall q: nat :: RecvsFrom(sys.scripts, r, s.pc[r], q) ==> q < |s.pc| && plan.mate(r, s.pc[r]) < s.pc[q]
  {
    hide WellPlanned, ChannelOk;
    var i := s.pc[r];
    forall q: nat | PostsTo(sys.scripts, r, i, q)
      ensures q < |s.pc| && plan.mate(r, i) >= s.pc[q]
    {
      PostHasRecv(sys.scripts, plan, r, i, q);
      PostNotYetReceived(sys, plan, cert, s, r, q);
    }
    forall q: nat | RecvsFrom(sys.scripts, r, i, q)
      ensures q < |s.pc| && plan.mate(r, i) < s.pc[q]
    {
      RecvHasPost(sys.scripts, plan, r, i, q);
      RecvAlreadyPosted(sys, plan, cert, s, q, r);
    }
  }

  lemma StepKeepsInv<S(!new), M(!new), D(!new)>(
    sys: System<S, M, D>, plan: Plan, cert: Certificate<M, D>, s: Net<M, D>, r: nat)
    requires WellPlanned(sys.scripts, plan) && Certifies(sys, plan, cert)
    requires Inv(sys, plan, cert, s) && Enabled(sys, s, r, false)
    ensures Inv(sys, plan, cert, Step(sys, s, r))
  {
    hide WellPlanned, ChannelOk;
    var t := Step(sys, s, r);
    assert OpCertified(sys, plan, cert, r, s.pc[r], s.mem[r]);
    MovesInOrder(sys, plan, cert, s, r);
    StepKeepsMemory(sys, plan, cert, s, r);
    forall p: nat, q: nat | p < |t.pc| && q < |t.pc|
      ensures ChannelOk(sys, plan, cert, t, p, q)
    {
      assert ChannelOk(sys, plan, cert, s, p, q);
      StepKeepsChannel(sys, plan, cert, s, r, p, q);
    }
  }

  /** Main result, safety: whatever the interleaving, the invariant holds. */
  lemma {:induction false} RunKeepsInv<S(!new), M(!new), D(!new)>(
    sys: System<S, M, D>, plan: Plan, cert: Certificate<M, D>, s: Net<M, D>, sched: seq<nat>, t: Net<M, D>)
    requires WellPlanned(sys.scripts, plan) && Certifies(sys, plan, cert)
    requires Inv(sys, plan, cert, s) && Run(sys, s, sched, t)
    ensures Inv(sys, plan, cert, t)
    ensures Total(t.pc) == Total(s.pc) + |sched|
    decreases |sched|
  {
    hide WellPlanned, Certifies, Inv;
    if sched != [] {
      StepKeepsInv(sys, plan, cert, s, sched[0]);
      TotalBump(s.pc, sched[0]);
      RunKeepsInv(sys, plan, cert, Step(sys, s, sched[0]), sched[1..], t);
    }
  }

  lemma {:induction false} TotalBump(ns: seq<nat>, p: nat)
    requires p < |ns|
    ensures Total(ns[p := ns[p] + 1]) == Total(ns) + 1
  {
    var ms := ns[p := ns[p] + 1];
    var l := |ns| - 1;
    if p < l {
      TotalBump(ns[..l], p);
      assert ms[..l] == ns[..l][p := ns[p] + 1];
    } else {
      assert ms[..l] == ns[..l];
    }
  }

  lemma {:induction false} TotalMono(ns: seq<nat>, ms: seq<nat>)
    requires |ns| == |ms| && forall i :: 0 <= i < |ns| ==> ns[i] <= ms[i]
    ensures Total(ns) <= Total(ms)
    ensures Total(ns) == Total(ms) ==> ns == ms
  {
    if ns != [] {
      var l := |ns| - 1;
      TotalMono(ns[..l], ms[..l]);
      assert ns == ns[..l] + [ns[l]] && ms == ms[..l] + [ms[l]];
    }
  }

  /** The unfinished process whose next operation comes first in the plan. */
  lemma {:induction false} EarliestUnfinished<S(!new), M(!new), D(!new)>(
    sys: System<S, M, D>, plan: Plan, s: Net<M, D>, n: nat) returns (p: nat)
    requires Shape(sys, s) && n <= |s.pc|
    requires exists q: nat :: q < n && s.pc[q] < |sys.scripts[q]|
    ensures p < n && s.pc[p] < |sys.scripts[p]|
    ensures forall q: nat :: q < n && s.pc[q] < |sys.scripts[q]| ==> plan.time(p, s.pc[p]) <= plan.time(q, s.pc[q])
  {
    var l := n - 1;
    if exists q: nat :: q < l && s.pc[q] < |sys.scripts[q]| {
      p := EarliestUnfinished(sys, plan, s, l);
      if s.pc[l] < |sys.scripts[l]| && plan.time(l, s.pc[l]) < plan.time(p, s.pc[p]) {
        p := l;
      }
    } else {
      p := l;
    }
  }

  lemma {:induction false} TimeMono<S(!new)>(scripts: seq<seq<Op<S>>>, plan: Plan, p: nat, i: nat, j: nat)
    requires WellPlanned(scripts, plan) && p < |scripts| && i <= j < |scripts[p]|
    ensures plan.time(p, i) <= plan.time(p, j)
    decreases j
  {
    if i < j {
      TimeMono(scripts, plan, p, i, j - 1);
      assert plan.time(p, j - 1) < plan.time(p, j - 1 + 1);
    }
  }

  /** Main result, progress: until every process is done some process can move, even if sends are synchronous. */
  lemma NeverStuck<S(!new), M(!new), D(!new)>(
    sys: System<S, M, D>, plan: Plan, cert: Certificate<M, D>, s: Net<M, D>) returns (p: nat)
    requires WellPlanned(sys.scripts, plan)
    requires Inv(sys, plan, cert, s) && !Finished(sys, s)
    ensures Enabled(sys, s, p, true)
  {
    var scripts := sys.scripts;
    p := EarliestUnfinished(sys, plan, s, |s.pc|);
    var i := s.pc[p];
    match scripts[p][i] {
      case Post(_, _) =>
      case Skip =>
      case Recv(q, _) =>
        assert RecvsFrom(scripts, p, i, q);
        var x := plan.mate(p, i);
        assert Paired(scripts, plan, q, x, p, i);
        if s.pc[q] <= x {
          TimeMono(scripts, plan, q, s.pc[q], x);
          assert false;
        }
        PendingMembers(scripts, plan, q, p, s.pc[q], i);
        assert x in Pending(scripts, plan, q, p, s.pc[q], i);
        assert ChannelOk(sys, plan, cert, s, q, p);
      case Wait(q) =>
        assert WaitsFor(scripts, p, i, q);
        if |Chan(s, p, q)| != 0 {
          ChannelTargets(sys, plan, cert, s, p, q, i);
        }
    }
  }

  /** A process that waits on a non-empty channel is not the earliest one. */
  lemma ChannelTargets<S(!new), M(!new), D(!new)>(
    sys: System<S, M, D>, plan: Plan, cert: Certificate<M, D>, s: Net<M, D>, p: nat, q: nat, i: nat)
    requires WellPlanned(sys.scripts, plan) && Inv(sys, plan, cert, s)
    requires p < |s.pc| && i == s.pc[p] && WaitsFor(sys.scripts, p, i, q)
    requires forall r: nat :: r < |s.pc| && s.pc[r] < |sys.scripts[r]| ==> plan.time(p, i) <= plan.time(r, s.pc[r])
    requires q < |s.pc|
    ensures Chan(s, p, q) == []
  {
    forall x: nat | x < i && PostsTo(sys.scripts, p, x, q)
      ensures plan.mate(p, x) < s.pc[q]
    {
      var j := plan.mate(p, x);
      assert Paired(sys.scripts, plan, p, x, q, j);
      assert plan.time(q, j) < plan.time(p, i);
      if s.pc[q] <= j {
        TimeMono(sys.scripts, plan, q, s.pc[q], j);
      }
    }
    PendingNone(sys.scripts, plan, p, q, i, s.pc[q]);
    assert ChannelOk(sys, plan, cert, s, p, q);
  }

  /** Main result, completion: once every process is done, no message is left over. */
  lemma FinishedIsDrained<S(!new), M(!new), D(!new)>(sys: System<S, M, D>, plan: Plan, cert: Certificate<M, D>,
                            s: Net<M, D>)
    requires WellPlanned(sys.scripts, plan)
    requires Inv(sys, plan, cert, s) && Finished(sys, s)
    ensures Drained(s)
  {
    forall p: nat, q: nat | p < |s.pc| && q < |s.pc|
      ensures Chan(s, p, q) == []
    {
      assert ChannelOk(sys, plan, cert, s, p, q);
      forall x: nat | x < s.pc[p] && PostsTo(sys.scripts, p, x, q)
        ensures plan.mate(p, x) < s.pc[q]
      {
        assert Paired(sys.scripts, plan, p, x, q, plan.mate(p, x));
      }
      PendingNone(sys.scripts, plan, p, q, s.pc[p], s.pc[q]);
    }
  }

  /** What a correct collective operation guarantees of a state reached by `sched`: it can always go on, it ends
      after a fixed number of moves, and then every message was received and every memory is as wanted. */
  ghost predicate Delivers<S(!new), M(!new), D(!new)>(
    sys: System<S, M, D>, sched: seq<nat>, t: Net<M, D>, wanted: (nat, M) -> bool)
  {
    && Shape(sys, t)
    && (!Finished(sys, t) ==> exists p: nat :: Enabled(sys, t, p, true))
    && |sched| <= Total(Lengths(sys.scripts))
    && (|sched| == Total(Lengths(sys.scripts)) <==> Finished(sys, t))
    && (Finished(sys, t) ==> Drained(t) && forall p :: 0 <= p < |t.mem| ==> wanted(p, t.mem[p]))
  }

  /** Every process is to end with the same. */
  ghost function Everywhere<M>(result: M): (nat, M) -> bool {
    (p: nat, m: M) => m == result
  }

  lemma DeliversMore<S(!new), M(!new), D(!new)>(
    sys: System<S, M, D>, sched: seq<nat>, t: Net<M, D>, wanted: (nat, M) -> bool, wanted': (nat, M) -> bool)
    requires Delivers(sys, sched, t, wanted)
    requires forall p: nat, m: M :: wanted(p, m) ==> wanted'(p, m)
    ensures Delivers(sys, sched, t, wanted')
  {
  }

  ghost predicate StartsGood<M, D>(cert: Certificate<M, D>, mem: seq<M>) {
    forall p: nat :: p < |mem| ==> cert.good(p, 0, mem[p])
  }

  ghost predicate EndsGood<S, M(!new), D>(sys: System<S, M, D>, cert: Certificate<M, D>, wanted: (nat, M) -> bool) {
    forall p: nat, m: M :: p < |sys.scripts| && cert.good(p, |sys.scripts[p]|, m) ==> wanted(p, m)
  }

  lemma InvShape<S(!new), M(!new), D(!new)>(sys: System<S, M, D>, plan: Plan, cert: Certificate<M, D>, s: Net<M, D>)
    requires Inv(sys, plan, cert, s)
    ensures Shape(sys, s) && forall p :: 0 <= p < |s.pc| ==> cert.good(p, s.pc[p], s.mem[p])
  {
    hide ChannelOk;
  }

  /** How many moves a run can have */
  lemma MovesBounded<S, M, D>(sys: System<S, M, D>, s: Net<M, D>)
    requires Shape(sys, s)
    ensures Total(s.pc) <= Total(Lengths(sys.scripts))
    ensures Total(s.pc) == Total(Lengths(sys.scripts)) <==> Finished(sys, s)
  {
    var lengths := Lengths(sys.scripts);
    TotalMono(s.pc, lengths);
    if Finished(sys, s) {
      assert s.pc == lengths;
    }
  }

  lemma StartTotal<M, D>(mem: seq<M>, s: Net<M, D>)
    requires s == Start(mem)
    ensures Total(s.pc) == 0
  {
    TotalZero(s.pc);
  }

  /** All of the above for one run from the start. */
  lemma RunDelivers<S(!new), M(!new), D(!new)>(
    sys: System<S, M, D>, plan: Plan, cert: Certificate<M, D>, mem: seq<M>, sched: seq<nat>, t: Net<M, D>,
    wanted: (nat, M) -> bool)
    requires WellPlanned(sys.scripts, plan) && Certifies(sys, plan, cert)
    requires |mem| == |sys.scripts|
    requires StartsGood(cert, mem) && EndsGood(sys, cert, wanted)
    requires Run(sys, Start(mem), sched, t)
    ensures Delivers(sys, sched, t, wanted)
  {
    hide Inv, WellPlanned, Certifies, Run, Start, Enabled, Drained, Total, Lengths;
    StartInv(sys, plan, cert, mem);
    StartTotal(mem, Start<M, D>(mem));
    RunKeepsInv(sys, plan, cert, Start(mem), sched, t);
    InvShape(sys, plan, cert, t);
    MovesBounded(sys, t);
    if !Finished(sys, t) {
      var p := NeverStuck(sys, plan, cert, t);
    } else {
      FinishedIsDrained(sys, plan, cert, t);
    }
  }

  /** Every run from the start does. */
  ghost predicate AlwaysDelivers<S(!new), M(!new), D(!new)>(
    sys: System<S, M, D>, mem: seq<M>, wanted: (nat, M) -> bool)
  {
    forall sched: seq<nat>, t: Net<M, D> :: Run(sys, Start(mem), sched, t) ==> Delivers(sys, sched, t, wanted)
  }

  /** Processes that make no calls leave everything as it is. */
  lemma NoCallsDeliver<S(!new), M(!new), D(!new)>(sys: System<S, M, D>, mem: seq<M>, wanted: (nat, M) -> bool)
    requires |mem| == |sys.scripts| && forall p :: 0 <= p < |mem| ==> sys.scripts[p] == [] && wanted(p, mem[p])
    ensures AlwaysDelivers(sys, mem, wanted)
  {
    hide Delivers, Run, Start;
    var plan := Plan((p: nat, i: nat) => 0, (p: nat, i: nat) => 0);
    var cert: Certificate<M, D> := Certificate((p: nat, i: nat, m: M) => p < |mem| ==> m == mem[p],
                                               (p: nat, i: nat, d: D) => true);
    forall sched: seq<nat>, t: Net<M, D> | Run(sys, Start(mem), sched, t)
      ensures Delivers(sys, sched, t, wanted)
    {
      RunDelivers(sys, plan, cert, mem, sched, t, wanted);
    }
  }

  lemma {:induction false} TotalZero(ns: seq<nat>)
    requires forall i :: 0 <= i < |ns| ==> ns[i] == 0
    ensures Total(ns) == 0
  {
    if ns != [] {
      TotalZero(ns[..|ns| - 1]);
    }
  }
}
