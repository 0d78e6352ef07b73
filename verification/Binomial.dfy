/**
  The binomial-tree collectives of HPL: HPL_reduce, HPL_broadcast and HPL_all_reduce.

  Each C function is modelled by a method that returns the MPI calls one process makes.  A round of the source's
  loop takes two operations: a send is Post and Wait, a receive is Recv and Skip (the call of OP, or nothing), and a
  round in which the process is idle is Skip and Skip.
 */
module Binomial {
  import opened Arith
  import opened Grid
  import opened MessagePassing

  /** What a receiver does with the message: combine it into its buffer, or overwrite the buffer. */
  datatype Use = Combine | Overwrite

  datatype Collective = Collective(size: nat, root: nat, reduce: bool, bcast: bool)

  predicate Valid(c: Collective) {
    c.size >= 2 && c.root < c.size
  }

  function ReduceRounds(c: Collective): nat
    requires Valid(c)
  {
    if c.reduce then Rounds(c.size) else 0
  }

  function AllRounds(c: Collective): nat
    requires Valid(c)
  {
    ReduceRounds(c) + if c.bcast then Rounds(c.size) else 0
  }

  /** The bit of the distance that round t works on: upwards when reducing, downwards when broadcasting. */
  function RoundBit(c: Collective, t: nat): nat
    requires Valid(c) && t < AllRounds(c)
  {
    if t < ReduceRounds(c) then t else Rounds(c.size) - 1 - (t - ReduceRounds(c))
  }

  function Distance(c: Collective, p: nat): nat
    requires Valid(c) && p < c.size
  {
    ModSub(p, c.root, c.size)
  }

  function RankOf(c: Collective, d: nat): nat
    requires Valid(c) && d < c.size
  {
    ModAdd(c.root, d, c.size)
  }

  /** The communication of process p in round t. */
  function MainOp(c: Collective, p: nat, t: nat): Op<Use>
    requires Valid(c) && p < c.size && t < AllRounds(c)
  {
    var d, r, up := Distance(c, p), RoundBit(c, t), t < ReduceRounds(c);
    if !Aligned(d, r) then Skip
    else if Bit(d, r) then
      BitLeq(d, r);
      var q := RankOf(c, d - Pow2(r));
      if up then Post(q, Combine) else Recv(q, Overwrite)
    else if d + Pow2(r) < c.size then
      var q := RankOf(c, d + Pow2(r));
      if up then Recv(q, Combine) else Post(q, Overwrite)
    else Skip
  }

  function After(op: Op<Use>): Op<Use> {
    if op.Post? then Wait(op.to) else Skip
  }

  function OpAt(c: Collective, p: nat, i: nat): Op<Use>
    requires Valid(c) && p < c.size && i < 2 * AllRounds(c)
  {
    if i % 2 == 0 then MainOp(c, p, i / 2) else After(MainOp(c, p, i / 2))
  }

  function Script(c: Collective, p: nat): seq<Op<Use>>
    requires Valid(c) && p < c.size
  {
    seq(2 * AllRounds(c), i requires 0 <= i < 2 * AllRounds(c) => OpAt(c, p, i))
  }

  function Scripts(c: Collective): seq<seq<Op<Use>>>
    requires Valid(c)
  {
    seq(c.size, p requires 0 <= p < c.size => Script(c, p))
  }

  /** Processes that send their whole buffer and combine what they receive with it, or overwrite it */
  function Combining<V>(scripts: seq<seq<Op<Use>>>, op: (V, V) -> V): System<Use, V, V> {
    System(scripts, (m: V, u: Use) => m, (m: V, u: Use, d: V) => if u == Combine then op(m, d) else d)
  }

  function SystemOf<V>(c: Collective, op: (V, V) -> V): System<Use, V, V>
    requires Valid(c)
  {
    Combining(Scripts(c), op)
  }

  // ------------------------------------------------------------------------------------------------
  // The code
  // ------------------------------------------------------------------------------------------------

  /** One round's two operations. */
  function RoundOps(op: Op<Use>): seq<Op<Use>> {
    [op, After(op)]
  }

  /** The first t rounds of process p. */
  function Prefix(c: Collective, p: nat, t: nat): seq<Op<Use>>
    requires Valid(c) && p < c.size && t <= AllRounds(c)
  {
    Script(c, p)[..2 * t]
  }

  lemma ScriptAt(c: Collective, p: nat, t: nat)
    requires Valid(c) && p < c.size && t < AllRounds(c)
    ensures |Script(c, p)| == 2 * AllRounds(c)
    ensures Script(c, p)[2 * t] == MainOp(c, p, t) && Script(c, p)[2 * t + 1] == After(MainOp(c, p, t))
  {
    hide MainOp, After, AllRounds;
  }

  lemma PrefixGrows(c: Collective, p: nat, t: nat)
    requires Valid(c) && p < c.size && t < AllRounds(c)
    ensures Prefix(c, p, t + 1) == Prefix(c, p, t) + RoundOps(MainOp(c, p, t))
  {
    hide Script, MainOp, After, AllRounds;
    ScriptAt(c, p, t);
    var s := Script(c, p);
    assert s[..2 * (t + 1)] == s[..2 * t] + [s[2 * t], s[2 * t + 1]];
  }

  /** The tests and the partner of the C code, for the round that works on ip2. */
  function CodeOp(mydist: nat, ip2: nat, mask: nat, root: nat, size: nat, up: bool): Op<Use>
    requires root < size
  {
    if BitAnd(mydist, mask) == 0 then
      var partner := BitXor(mydist, ip2);
      if BitAnd(mydist, ip2) != 0 then
        var q := ModAdd(root, partner, size);
        if up then Post(q, Combine) else Recv(q, Overwrite)
      else if partner < size then
        var q := ModAdd(root, partner, size);
        if up then Recv(q, Combine) else Post(q, Overwrite)
      else Skip
    else Skip
  }

  lemma CodeOpIsMainOp(c: Collective, p: nat, t: nat)
    requires Valid(c) && p < c.size && t < AllRounds(c)
    ensures var ip2 := Pow2(RoundBit(c, t));
            && BitXor(Distance(c, p), ip2) >= 0
            && (BitAnd(Distance(c, p), ip2) != 0 ==> BitXor(Distance(c, p), ip2) < c.size)
            && CodeOp(Distance(c, p), ip2, ip2 - 1, c.root, c.size, t < ReduceRounds(c)) == MainOp(c, p, t)
  {
    hide BitAnd, BitXor, Aligned, Bit, Pow2, Distance, RoundBit, ReduceRounds, ModAdd;
    var d, r := Distance(c, p), RoundBit(c, t);
    DistanceBelow(c, p);
    AndLowMask(d, r);
    AndBit(d, r);
    XorBit(d, r);
  }

  /** The loop of the root. */
  method RootRounds(rank: nat, root: nat, size: nat, rounds: nat) returns (ops: seq<Op<Use>>)
    requires rank < size && root < size && size >= 2 && ModSub(rank, root, size) == 0 && rounds == Rounds(size)
    ensures ops == Script(Collective(size, root, true, false), rank)
  {
    hide MainOp, Script, Prefix, Rounds;
    ghost var c := Collective(size, root, true, false);
    ghost var t: nat := 0;
    var d, ip2 := rounds, 1;
    ops := [];
    PrefixNone(c, rank);
    while d != 0
      invariant t + d == AllRounds(c) && ip2 == Pow2(t)
      invariant ops == Prefix(c, rank, t)
      decreases d
    {
      RootReceives(c, rank, t);
      PrefixGrows(c, rank, t);
      var partner := ModAdd(root, ip2, size);
      ops := ops + [Recv(partner, Combine), Skip];
      ip2 := ip2 * 2;
      d := d - 1;
      t := t + 1;
    }
    PrefixAll(c, rank);
  }

  /** The loop of the others. */
  method OtherRounds(rank: nat, root: nat, size: nat, mydist: nat, rounds: nat) returns (ops: seq<Op<Use>>)
    requires rank < size && root < size && size >= 2 && mydist == ModSub(rank, root, size) && rounds == Rounds(size)
    ensures ops == Script(Collective(size, root, true, false), rank)
  {
    hide MainOp, Script, Prefix, Rounds, BitAnd, BitXor;
    ghost var c := Collective(size, root, true, false);
    ghost var t: nat := 0;
    var d, ip2, mask := rounds, 1, 0;
    ops := [];
    PrefixNone(c, rank);
    while d != 0
      invariant t + d == AllRounds(c) && ip2 == Pow2(t) && mask == ip2 - 1
      invariant ops == Prefix(c, rank, t)
      decreases d
    {
      CodeOpIsMainOp(c, rank, t);
      PrefixGrows(c, rank, t);
      if BitAnd(mydist, mask) == 0 {
        var partner := BitXor(mydist, ip2);
        if BitAnd(mydist, ip2) != 0 {
          partner := ModAdd(root, partner, size);
          ops := ops + [Post(partner, Combine), Wait(partner)];
        } else if partner < size {
          partner := ModAdd(root, partner, size);
          ops := ops + [Recv(partner, Combine), Skip];
        } else {
          ops := ops + [Skip, Skip];
        }
      } else {
        ops := ops + [Skip, Skip];
      }
      TopBitOn(t);
      mask := BitXor(mask, ip2);
      ip2 := ip2 * 2;
      d := d - 1;
      t := t + 1;
    }
    PrefixAll(c, rank);
  }

  /** HPL_reduce: the calls of process `rank`. */
  method Reduce(rank: nat, root: nat, size: nat, count: int) returns (ops: seq<Op<Use>>)
    requires rank < size && root < size
    ensures ops == if count <= 0 || size == 1 then [] else Script(Collective(size, root, true, false), rank)
  {
    hide Script;
    ops := [];
    if count <= 0 { return; }
    if size == 1 { return; }
    var d := 1;
    var i := size - 1;
    while i > 1
      invariant i >= 1 && d >= 1 && d + Digits(i) == Rounds(size) + 1
    {
      i := i / 2;
      d := d + 1;
    }
    DistanceInverse(root, rank, size);
    var mydist: nat := ModSub(rank, root, size);
    if mydist == 0 {
      ops := RootRounds(rank, root, size, d);
    } else {
      ops := OtherRounds(rank, root, size, mydist, d);
    }
  }

  lemma PrefixNone(c: Collective, p: nat)
    requires Valid(c) && p < c.size
    ensures Prefix(c, p, 0) == []
  {
  }

  lemma RootReceives(c: Collective, p: nat, t: nat)
    requires Valid(c) && p < c.size && Distance(c, p) == 0 && t < ReduceRounds(c)
    ensures Pow2(t) < c.size
    ensures MainOp(c, p, t) == Recv(ModAdd(c.root, Pow2(t), c.size), Combine)
  {
    Pow2Mono(t, Rounds(c.size) - 1);
    AlignedZero(t);
  }

  lemma PrefixAll(c: Collective, p: nat)
    requires Valid(c) && p < c.size
    ensures Prefix(c, p, AllRounds(c)) == Script(c, p)
  {
  }

  /** HPL_broadcast: the calls of process `rank`. */
  method Broadcast(rank: nat, root: nat, size: nat, count: int) returns (ops: seq<Op<Use>>)
    requires rank < size && root < size
    ensures ops == if count <= 0 || size <= 1 then [] else Script(Collective(size, root, false, true), rank)
  {
    hide MainOp, Script, BitAnd, BitXor, Aligned, Bit;
    ops := [];
    if count <= 0 { return; }
    if size <= 1 { return; }
    ghost var c := Collective(size, root, false, true);
    ghost var t: nat := 0;
    var ip2, mask := HypercubeBelow(size);
    DistanceInverse(root, rank, size);
    var mydist: nat := ModSub(rank, root, size);
    while ip2 != 0
      invariant t <= AllRounds(c)
      invariant if t < AllRounds(c) then ip2 == Pow2(RoundBit(c, t)) && mask == 2 * ip2 - 1 else ip2 == 0
      invariant ops == Prefix(c, rank, t)
      decreases AllRounds(c) - t
    {
      ghost var r := RoundBit(c, t);
      TopBitOff(r);
      mask := BitXor(mask, ip2);
      CodeOpIsMainOp(c, rank, t);
      PrefixGrows(c, rank, t);
      if BitAnd(mydist, mask) == 0 {
        var partner := BitXor(mydist, ip2);
        if BitAnd(mydist, ip2) != 0 {
          partner := ModAdd(root, partner, size);
          ops := ops + [Recv(partner, Overwrite), Skip];
        } else if partner < size {
          partner := ModAdd(root, partner, size);
          ops := ops + [Post(partner, Overwrite), Wait(partner)];
        } else {
          ops := ops + [Skip, Skip];
        }
      } else {
        ops := ops + [Skip, Skip];
      }
      ip2 := ip2 / 2;
      t := t + 1;
    }
    PrefixAll(c, rank);
  }

  /** HPL_all_reduce: reduce to process 0, then broadcast from it. */
  method AllReduce(rank: nat, size: nat, count: int) returns (ops: seq<Op<Use>>)
    requires rank < size
    ensures ops == if count <= 0 || size == 1 then [] else Script(Collective(size, 0, true, true), rank)
  {
    var up := Reduce(rank, 0, size, count);
    var down := Broadcast(rank, 0, size, count);
    ops := up + down;
    if count > 0 && size > 1 {
      AllReduceIsBoth(size, rank);
    }
  }

  lemma SameRounds(size: nat, p: nat, t: nat)
    requires p < size && size >= 2 && t < Rounds(size)
    ensures MainOp(Collective(size, 0, true, false), p, t) == MainOp(Collective(size, 0, true, true), p, t)
    ensures MainOp(Collective(size, 0, false, true), p, t)
         == MainOp(Collective(size, 0, true, true), p, Rounds(size) + t)
  {
    hide Aligned, Bit, Pow2;
  }

  lemma AllReduceIsBoth(size: nat, p: nat)
    requires p < size && size >= 2
    ensures Script(Collective(size, 0, true, false), p) + Script(Collective(size, 0, false, true), p)
         == Script(Collective(size, 0, true, true), p)
  {
    hide MainOp;
    var up, down := Collective(size, 0, true, false), Collective(size, 0, false, true);
    var both := Collective(size, 0, true, true);
    var n := 2 * Rounds(size);
    forall i: nat | i < n
      ensures OpAt(up, p, i) == OpAt(both, p, i) && OpAt(down, p, i) == OpAt(both, p, n + i)
    {
      SameRounds(size, p, i / 2);
      assert (n + i) / 2 == Rounds(size) + i / 2;
    }
  }

  // ------------------------------------------------------------------------------------------------
  // Sends and receives match
  // ------------------------------------------------------------------------------------------------

  function PlanOf(c: Collective): Plan
    requires Valid(c)
  {
    Plan((p: nat, i: nat) => i,
         (p: nat, i: nat) =>
           3 * (i / 2) + if i % 2 == 1 then 2
                         else if p < c.size && i < 2 * AllRounds(c) && OpAt(c, p, i).Recv? then 1 else 0)
  }

  /** In every round, p sends to q exactly if q receives from p. */
  lemma RoundMatches(c: Collective, p: nat, q: nat, t: nat)
    requires Valid(c) && p < c.size && q < c.size && t < AllRounds(c)
    ensures MainOp(c, p, t).Post? && MainOp(c, p, t).to == q <==> MainOp(c, q, t).Recv? && MainOp(c, q, t).from == p
    ensures MainOp(c, p, t).Post? && MainOp(c, p, t).to == q ==> MainOp(c, p, t).sel == MainOp(c, q, t).sel
  {
    var r := RoundBit(c, t);
    var d, e := Distance(c, p), Distance(c, q);
    ShiftByPow2(d, r);
    ShiftByPow2(e, r);
    MainOpChar(c, p, q, t);
    MainOpChar(c, q, p, t);
  }

  /** When p talks to q in round t. */
  lemma RankOfIs(c: Collective, x: nat, q: nat)
    requires Valid(c) && x < c.size && q < c.size
    ensures RankOf(c, x) == q <==> x == Distance(c, q)
  {
    DistanceInverse(c.root, x, c.size);
    DistanceInverse(c.root, q, c.size);
  }

  lemma DistanceBelow(c: Collective, p: nat)
    requires Valid(c) && p < c.size
    ensures Distance(c, p) < c.size
  {
    DistanceInverse(c.root, p, c.size);
  }

  lemma MainOpChar(c: Collective, p: nat, q: nat, t: nat)
    requires Valid(c) && p < c.size && q < c.size && t < AllRounds(c)
    ensures var d, e, r, up := Distance(c, p), Distance(c, q), RoundBit(c, t), t < ReduceRounds(c);
            && (MainOp(c, p, t).Post? && MainOp(c, p, t).to == q <==>
                  Aligned(d, r) && if up then Bit(d, r) && d == e + Pow2(r) else !Bit(d, r) && e == d + Pow2(r))
            && (MainOp(c, p, t).Recv? && MainOp(c, p, t).from == q <==>
                  Aligned(d, r) && if up then !Bit(d, r) && e == d + Pow2(r) else Bit(d, r) && d == e + Pow2(r))
            && (!MainOp(c, p, t).Skip? ==>
                  MainOp(c, p, t).Wait? || MainOp(c, p, t).sel == if up then Combine else Overwrite)
  {
    hide Aligned, Bit, Pow2, RankOf, Distance, RoundBit, ReduceRounds;
    var d, r := Distance(c, p), RoundBit(c, t);
    DistanceBelow(c, p);
    DistanceBelow(c, q);
    if Aligned(d, r) && Bit(d, r) {
      BitLeq(d, r);
      RankOfIs(c, d - Pow2(r), q);
    } else if d + Pow2(r) < c.size {
      RankOfIs(c, d + Pow2(r), q);
    }
  }

  lemma PartnerInRange(c: Collective, p: nat, t: nat)
    requires Valid(c) && p < c.size && t < AllRounds(c)
    ensures MainOp(c, p, t).Post? ==> MainOp(c, p, t).to < c.size
    ensures MainOp(c, p, t).Recv? ==> MainOp(c, p, t).from < c.size
  {
    DistanceInverse(c.root, p, c.size);
    BitLeq(Distance(c, p), RoundBit(c, t));
  }

  lemma PlanTime(c: Collective, p: nat, i: nat)
    requires Valid(c)
    ensures PlanOf(c).mate(p, i) == i
    ensures i % 2 == 1 ==> PlanOf(c).time(p, i) == 3 * (i / 2) + 2
    ensures i % 2 == 0 && p < c.size && i < 2 * AllRounds(c) ==>
              PlanOf(c).time(p, i) == 3 * (i / 2) + if MainOp(c, p, i / 2).Recv? then 1 else 0
    ensures 3 * (i / 2) <= PlanOf(c).time(p, i) <= 3 * (i / 2) + 2
    ensures i % 2 == 0 ==> PlanOf(c).time(p, i) <= 3 * (i / 2) + 1
  {
    hide MainOp;
  }

  /** What is at index i of p's script */
  lemma OpOf(c: Collective, p: nat, i: nat)
    requires Valid(c) && p < c.size && i < 2 * AllRounds(c)
    ensures |Scripts(c)| == c.size && |Scripts(c)[p]| == 2 * AllRounds(c)
    ensures Scripts(c)[p][i] == if i % 2 == 0 then MainOp(c, p, i / 2) else After(MainOp(c, p, i / 2))
    ensures !MainOp(c, p, i / 2).Wait?
  {
    hide Aligned, Bit, Pow2, AllRounds, RankOf, Distance, RoundBit, ReduceRounds;
  }

  lemma ScriptSizes(c: Collective)
    requires Valid(c)
    ensures |Scripts(c)| == c.size && forall p :: 0 <= p < c.size ==> |Scripts(c)[p]| == 2 * AllRounds(c)
  {
    hide OpAt, AllRounds;
  }

  lemma PostPaired(c: Collective, p: nat, i: nat, q: nat)
    requires Valid(c) && PostsTo(Scripts(c), p, i, q)
    ensures Paired(Scripts(c), PlanOf(c), p, i, q, i) && i % 2 == 0
  {
    hide MainOp, Scripts, PlanOf, After, AllRounds;
    ScriptSizes(c);
    OpOf(c, p, i);
    AfterNeverPosts(MainOp(c, p, i / 2));
    PartnerInRange(c, p, i / 2);
    OpOf(c, q, i);
    RoundMatches(c, p, q, i / 2);
    PlanTime(c, p, i);
    PlanTime(c, q, i);
  }

  lemma AfterNeverPosts(op: Op<Use>)
    ensures After(op).Wait? || After(op).Skip?
  {
  }

  lemma RecvPaired(c: Collective, p: nat, i: nat, q: nat)
    requires Valid(c) && RecvsFrom(Scripts(c), p, i, q)
    ensures Paired(Scripts(c), PlanOf(c), q, i, p, i)
  {
    hide MainOp, Scripts, PlanOf, After, AllRounds;
    ScriptSizes(c);
    OpOf(c, p, i);
    AfterNeverPosts(MainOp(c, p, i / 2));
    PartnerInRange(c, p, i / 2);
    OpOf(c, q, i);
    RoundMatches(c, q, p, i / 2);
    PlanTime(c, p, i);
    PlanTime(c, q, i);
  }

  lemma WaitAt(c: Collective, p: nat, i: nat, q: nat)
    requires Valid(c) && WaitsFor(Scripts(c), p, i, q)
    ensures q < c.size && i % 2 == 1
  {
    hide MainOp, Scripts, AllRounds;
    ScriptSizes(c);
    OpOf(c, p, i);
    PartnerInRange(c, p, i / 2);
  }

  lemma WaitTimes(c: Collective, p: nat, q: nat, i: nat, j: nat)
    requires Valid(c) && i < j && i % 2 == 0 && j % 2 == 1
    ensures PlanOf(c).time(q, i) < PlanOf(c).time(p, j)
  {
    hide PlanOf;
    PlanTime(c, q, i);
    PlanTime(c, p, j);
  }

  lemma NextTime(c: Collective, p: nat, i: nat)
    requires Valid(c)
    ensures PlanOf(c).time(p, i) < PlanOf(c).time(p, i + 1)
  {
    hide PlanOf;
    PlanTime(c, p, i);
    PlanTime(c, p, i + 1);
  }

  lemma WellPlannedCollective(c: Collective)
    requires Valid(c)
    ensures WellPlanned(Scripts(c), PlanOf(c))
  {
    hide Scripts, PlanOf, PostsTo, RecvsFrom, WaitsFor, Paired;
    var scripts, plan := Scripts(c), PlanOf(c);
    ScriptSizes(c);
    forall p: nat, i: nat
      ensures plan.mate(p, i) == i && plan.time(p, i) < plan.time(p, i + 1)
    {
      PlanTime(c, p, i);
      NextTime(c, p, i);
    }
    forall p: nat, i: nat, q: nat | PostsTo(scripts, p, i, q)
      ensures Paired(scripts, plan, p, i, q, i)
    {
      PostPaired(c, p, i, q);
    }
    forall p: nat, i: nat, q: nat | RecvsFrom(scripts, p, i, q)
      ensures Paired(scripts, plan, q, i, p, i)
    {
      RecvPaired(c, p, i, q);
    }
    forall p: nat, i: nat, j: nat, q: nat | i < j && PostsTo(scripts, p, i, q) && WaitsFor(scripts, p, j, q)
      ensures plan.time(q, i) < plan.time(p, j)
    {
      PostPaired(c, p, i, q);
      WaitAt(c, p, j, q);
      WaitTimes(c, p, q, i, j);
    }
    forall p: nat, i: nat, q: nat | WaitsFor(scripts, p, i, q)
      ensures q < |scripts|
    {
      WaitAt(c, p, i, q);
    }
  }

  // ------------------------------------------------------------------------------------------------
  // What the buffers hold
  // ------------------------------------------------------------------------------------------------

  /** v[lo] op v[lo + 1] op ... op v[hi - 1] */
  function Fold<V>(op: (V, V) -> V, v: seq<V>, lo: nat, hi: nat): V
    requires lo < hi <= |v|
  {
    if hi == lo + 1 then v[lo] else op(Fold(op, v, lo, hi - 1), v[hi - 1])
  }

  ghost predicate Associative<V(!new)>(op: (V, V) -> V) {
    forall a, b, c :: op(op(a, b), c) == op(a, op(b, c))
  }

  ghost predicate Commutative<V(!new)>(op: (V, V) -> V) {
    forall a, b :: op(a, b) == op(b, a)
  }

  lemma {:induction false} FoldSplit<V(!new)>(op: (V, V) -> V, v: seq<V>, lo: nat, mid: nat, hi: nat)
    requires Associative(op) && lo < mid < hi <= |v|
    ensures Fold(op, v, lo, hi) == op(Fold(op, v, lo, mid), Fold(op, v, mid, hi))
  {
    if mid < hi - 1 {
      FoldSplit(op, v, lo, mid, hi - 1);
      assert op(op(Fold(op, v, lo, mid), Fold(op, v, mid, hi - 1)), v[hi - 1])
          == op(Fold(op, v, lo, mid), op(Fold(op, v, mid, hi - 1), v[hi - 1]));
    }
  }

  lemma {:induction false} FoldShift<V(!new)>(op: (V, V) -> V, v: seq<V>, w: seq<V>, lo: nat, hi: nat, lo': nat)
    requires lo < hi <= |v| && lo' + (hi - lo) <= |w|
    requires v[lo..hi] == w[lo'..lo' + (hi - lo)]
    ensures Fold(op, v, lo, hi) == Fold(op, w, lo', lo' + (hi - lo))
    decreases hi
  {
    var s := v[lo..hi];
    assert v[hi - 1] == s[hi - 1 - lo] == w[lo' + (hi - lo) - 1];
    if lo + 1 < hi {
      assert v[lo..hi - 1] == s[..hi - 1 - lo] == w[lo'..lo' + (hi - 1 - lo)];
      FoldShift(op, v, w, lo, hi - 1, lo');
    }
  }

  /** The buffers in the order of their distance from the root. */
  function FromRoot<V>(c: Collective, bufs: seq<V>): (v: seq<V>)
    requires Valid(c) && |bufs| == c.size
    ensures |v| == c.size
    ensures forall p :: 0 <= p < c.size ==> v[Distance(c, p)] == bufs[p]
  {
    bufs[c.root..] + bufs[..c.root]
  }

  /** With a commutative operation the root no longer matters. */
  lemma FoldFromRoot<V(!new)>(c: Collective, op: (V, V) -> V, bufs: seq<V>)
    requires Valid(c) && |bufs| == c.size && Associative(op) && Commutative(op)
    ensures Fold(op, FromRoot(c, bufs), 0, c.size) == Fold(op, bufs, 0, c.size)
  {
    hide Fold;
    if c.root == 0 {
      assert FromRoot(c, bufs) == bufs;
    } else {
      FoldRotated(op, bufs[c.root..], bufs[..c.root]);
      assert bufs[..c.root] + bufs[c.root..] == bufs;
    }
  }

  lemma FoldRotated<V(!new)>(op: (V, V) -> V, a: seq<V>, b: seq<V>)
    requires Associative(op) && Commutative(op) && a != [] && b != []
    ensures Fold(op, a + b, 0, |a| + |b|) == Fold(op, b + a, 0, |a| + |b|)
  {
    FoldJoined(op, a, b);
    FoldJoined(op, b, a);
  }

  lemma FoldJoined<V(!new)>(op: (V, V) -> V, a: seq<V>, b: seq<V>)
    requires Associative(op) && a != [] && b != []
    ensures Fold(op, a + b, 0, |a| + |b|) == op(Fold(op, a, 0, |a|), Fold(op, b, 0, |b|))
  {
    hide Fold;
    FoldSplit(op, a + b, 0, |a|, |a| + |b|);
    assert (a + b)[0..|a|] == a[0..|a|];
    FoldShift(op, a + b, a, 0, |a|, 0);
    assert (a + b)[|a|..|a| + |b|] == b[0..|b|];
    FoldShift(op, a + b, b, |a|, |a| + |b|, 0);
  }

  /** How many buffers the one at distance d stands for after t rounds of reducing. */
  function Width(d: nat, t: nat): (w: nat)
    ensures w >= 1
    ensures Aligned(d, t) ==> w == Pow2(t)
  {
    if t == 0 then 1
    else
      AlignedStep(d, t - 1);
      if Aligned(d, t) then 2 * Width(d, t - 1) else Width(d, t - 1)
  }

  function Partial<V>(c: Collective, op: (V, V) -> V, v: seq<V>, d: nat, t: nat): V
    requires Valid(c) && |v| == c.size && d < c.size
  {
    Fold(op, v, d, Min(c.size, d + Width(d, t)))
  }

  /** What is broadcast: the combination of all buffers after a reduction, else the root's own buffer. */
  function Result<V>(c: Collective, op: (V, V) -> V, v: seq<V>): V
    requires Valid(c) && |v| == c.size
  {
    if c.reduce then Fold(op, v, 0, c.size) else v[0]
  }

  /** The buffer of process p once t of its rounds have communicated. */
  ghost predicate Holds<V>(c: Collective, op: (V, V) -> V, v: seq<V>, p: nat, t: nat, m: V)
    requires Valid(c) && |v| == c.size && p < c.size && t <= AllRounds(c)
  {
    var d := Distance(c, p);
    if c.reduce && t <= ReduceRounds(c) then m == Partial(c, op, v, d, t)
    else Aligned(d, Rounds(c.size) - (t - ReduceRounds(c))) ==> m == Result(c, op, v)
  }

  /** What process p sends in round t, if it sends. */
  function Message<V>(c: Collective, op: (V, V) -> V, v: seq<V>, p: nat, t: nat): V
    requires Valid(c) && |v| == c.size && p < c.size
  {
    if t < ReduceRounds(c) then
      DistanceInverse(c.root, p, c.size);
      Partial(c, op, v, Distance(c, p), t)
    else Result(c, op, v)
  }

  ghost function CertificateOf<V>(c: Collective, op: (V, V) -> V, v: seq<V>): Certificate<V, V>
    requires Valid(c) && |v| == c.size
  {
    Certificate(
      (p: nat, i: nat, m: V) => p < c.size && i <= 2 * AllRounds(c) && Holds(c, op, v, p, (i + 1) / 2, m),
      (p: nat, i: nat, m: V) =>
        p < c.size && i / 2 < AllRounds(c) && m == Message(c, op, v, p, i / 2))
  }

  lemma ReduceRoundHolds<V(!new)>(c: Collective, op: (V, V) -> V, v: seq<V>, p: nat, t: nat, m: V)
    requires Valid(c) && |v| == c.size && p < c.size && Associative(op)
    requires t < ReduceRounds(c) && Holds(c, op, v, p, t, m)
    ensures m == Partial(c, op, v, Distance(c, p), t)
    ensures match MainOp(c, p, t)
            case Recv(q, _) => q < c.size && Holds(c, op, v, p, t + 1, op(m, Partial(c, op, v, Distance(c, q), t)))
            case _ => Holds(c, op, v, p, t + 1, m)
  {
    hide MainOp, Distance, Partial, Aligned, Bit, Pow2, Associative;
    DistanceBelow(c, p);
    if MainOp(c, p, t).Recv? {
      var q := MainOp(c, p, t).from;
      PartnerInRange(c, p, t);
      DistanceBelow(c, q);
      MainOpChar(c, p, q, t);
      JoinPartials(c, op, v, Distance(c, p), t);
    } else {
      NoMoreToJoin(c, op, v, p, t);
    }
  }

  /** A process that receives nothing stands for as many buffers as before. */
  lemma NoMoreToJoin<V>(c: Collective, op: (V, V) -> V, v: seq<V>, p: nat, t: nat)
    requires Valid(c) && |v| == c.size && p < c.size && t < ReduceRounds(c) && !MainOp(c, p, t).Recv?
    ensures Distance(c, p) < c.size
    ensures Partial(c, op, v, Distance(c, p), t + 1) == Partial(c, op, v, Distance(c, p), t)
  {
    hide Fold;
    DistanceBelow(c, p);
    AlignedStep(Distance(c, p), t);
  }

  /** Two neighbouring blocks of buffers make the next larger block. */
  lemma JoinPartials<V(!new)>(c: Collective, op: (V, V) -> V, v: seq<V>, d: nat, t: nat)
    requires Valid(c) && |v| == c.size && Associative(op)
    requires d + Pow2(t) < c.size && Aligned(d, t) && !Bit(d, t)
    ensures op(Partial(c, op, v, d, t), Partial(c, op, v, d + Pow2(t), t)) == Partial(c, op, v, d, t + 1)
  {
    AlignedStep(d, t);
    ShiftByPow2(d, t);
    FoldSplit(op, v, d, d + Pow2(t), Min(c.size, d + Pow2(t + 1)));
  }

  lemma BcastRoundHolds<V(!new)>(c: Collective, op: (V, V) -> V, v: seq<V>, p: nat, t: nat, m: V)
    requires Valid(c) && |v| == c.size && p < c.size
    requires ReduceRounds(c) <= t < AllRounds(c) && Holds(c, op, v, p, t, m)
    ensures match MainOp(c, p, t)
            case Recv(_, _) => Holds(c, op, v, p, t + 1, Result(c, op, v))
            case Post(_, _) => m == Result(c, op, v) && Holds(c, op, v, p, t + 1, m)
            case _ => Holds(c, op, v, p, t + 1, m)
  {
    var d, r := Distance(c, p), RoundBit(c, t);
    DistanceInverse(c.root, p, c.size);
    AlignedStep(d, r);
    if t == ReduceRounds(c) {
      AlignedBelow(d, r + 1);
      if d == 0 && c.reduce {
        RootHasAll(c, op, v);
      }
    }
  }

  lemma RootHasAll<V>(c: Collective, op: (V, V) -> V, v: seq<V>)
    requires Valid(c) && |v| == c.size
    ensures Partial(c, op, v, 0, Rounds(c.size)) == Fold(op, v, 0, c.size)
  {
    AlignedZero(Rounds(c.size));
  }

  /** A round's operation, with the message that is meant for it, does what Holds asks for. */
  lemma RoundHolds<V(!new)>(c: Collective, op: (V, V) -> V, v: seq<V>, p: nat, t: nat, m: V)
    requires Valid(c) && |v| == c.size && p < c.size && t < AllRounds(c) && (c.reduce ==> Associative(op))
    requires Holds(c, op, v, p, t, m)
    ensures match MainOp(c, p, t)
            case Post(_, _) => m == Message(c, op, v, p, t) && Holds(c, op, v, p, t + 1, m)
            case Recv(q, u) =>
              q < c.size && u == (if t < ReduceRounds(c) then Combine else Overwrite)
              && var d := Message(c, op, v, q, t);
                 Holds(c, op, v, p, t + 1, if u == Combine then op(m, d) else d)
            case _ => Holds(c, op, v, p, t + 1, m)
  {
    hide Holds, Partial, Result, Distance, RankOf, RoundBit;
    MainOpChar(c, p, p, t);
    PartnerInRange(c, p, t);
    if t < ReduceRounds(c) {
      ReduceRoundHolds(c, op, v, p, t, m);
    } else {
      BcastRoundHolds(c, op, v, p, t, m);
    }
  }

  lemma EvenCertified<V(!new)>(c: Collective, op: (V, V) -> V, v: seq<V>, p: nat, t: nat, m: V)
    requires Valid(c) && |v| == c.size && p < c.size && t < AllRounds(c) && (c.reduce ==> Associative(op))
    requires Holds(c, op, v, p, t, m) && SystemOf(c, op).scripts[p][2 * t] == MainOp(c, p, t)
    ensures OpCertified(SystemOf(c, op), PlanOf(c), CertificateOf(c, op, v), p, 2 * t, m)
  {
    hide Holds, MainOp, Message, ReduceRounds, AllRounds, Scripts, Associative;
    RoundHolds(c, op, v, p, t, m);
  }

  lemma OddCertified<V(!new)>(c: Collective, op: (V, V) -> V, v: seq<V>, p: nat, t: nat, m: V)
    requires Valid(c) && |v| == c.size && p < c.size && t < AllRounds(c)
    requires Holds(c, op, v, p, t + 1, m) && SystemOf(c, op).scripts[p][2 * t + 1] == After(MainOp(c, p, t))
    ensures OpCertified(SystemOf(c, op), PlanOf(c), CertificateOf(c, op, v), p, 2 * t + 1, m)
  {
    hide Holds, MainOp, Message, AllRounds, Scripts;
  }

  lemma OpCertifiedAt<V(!new)>(c: Collective, op: (V, V) -> V, v: seq<V>, p: nat, i: nat, m: V)
    requires Valid(c) && |v| == c.size && p < c.size && i < 2 * AllRounds(c) && (c.reduce ==> Associative(op))
    requires Holds(c, op, v, p, (i + 1) / 2, m)
    ensures i < |SystemOf(c, op).scripts[p]|
    ensures OpCertified(SystemOf(c, op), PlanOf(c), CertificateOf(c, op, v), p, i, m)
  {
    hide Holds, MainOp, OpCertified, CertificateOf, PlanOf, After, AllRounds, Scripts, Associative;
    OpOf(c, p, i);
    if i % 2 == 0 {
      EvenCertified(c, op, v, p, i / 2, m);
    } else {
      OddCertified(c, op, v, p, i / 2, m);
    }
  }

  lemma CertifiesCollective<V(!new)>(c: Collective, op: (V, V) -> V, v: seq<V>)
    requires Valid(c) && |v| == c.size && (c.reduce ==> Associative(op))
    ensures Certifies(SystemOf(c, op), PlanOf(c), CertificateOf(c, op, v))
  {
    hide Holds, OpAt, OpCertified, Message;
    var sys, plan, cert := SystemOf(c, op), PlanOf(c), CertificateOf(c, op, v);
    forall p: nat, i: nat, m: V | p < |sys.scripts| && i < |sys.scripts[p]| && cert.good(p, i, m)
      ensures OpCertified(sys, plan, cert, p, i, m)
    {
      OpCertifiedAt(c, op, v, p, i, m);
    }
  }

  lemma HoldsAtStart<V>(c: Collective, op: (V, V) -> V, bufs: seq<V>, p: nat)
    requires Valid(c) && |bufs| == c.size && p < c.size
    ensures Holds(c, op, FromRoot(c, bufs), p, 0, bufs[p])
  {
    var v, d := FromRoot(c, bufs), Distance(c, p);
    DistanceInverse(c.root, p, c.size);
    assert v[d] == bufs[p];
    if c.reduce {
      assert Partial(c, op, v, d, 0) == v[d];
    } else {
      AlignedBelow(d, Rounds(c.size));
    }
  }

  // ------------------------------------------------------------------------------------------------
  // Main results
  // ------------------------------------------------------------------------------------------------

  /** What the collective is for: the result at the root (when reducing) and everywhere (when broadcasting). */
  ghost function Purpose<V>(c: Collective, result: V): (nat, V) -> bool
  {
    (p: nat, m: V) => c.bcast || (c.reduce && p == c.root) ==> m == result
  }

  lemma HoldsAtEnd<V>(c: Collective, op: (V, V) -> V, v: seq<V>, p: nat, m: V)
    requires Valid(c) && |v| == c.size && p < c.size && Holds(c, op, v, p, AllRounds(c), m)
    ensures Purpose(c, Result(c, op, v))(p, m)
  {
    if c.reduce && !c.bcast && p == c.root {
      RootHasAll(c, op, v);
    }
  }

  /** Whatever the interleaving and however much the library buffers, a collective cannot deadlock, ends after a
      fixed number of moves with no message left over, and leaves the result at the root (when reducing) and at
      every process (when broadcasting).  The reduction only needs OP to be associative: it combines the buffers,
      each of them once, in the order of their distance from the root. */
  lemma CollectiveDelivers<V(!new)>(c: Collective, op: (V, V) -> V, bufs: seq<V>, sched: seq<nat>, t: Net<V, V>)
    requires Valid(c) && |bufs| == c.size && (c.reduce ==> Associative(op))
    requires Run(SystemOf(c, op), Start(bufs), sched, t)
    ensures Delivers(SystemOf(c, op), sched, t, Purpose(c, Result(c, op, FromRoot(c, bufs))))
  {
    var v := FromRoot(c, bufs);
    WellPlannedCollective(c);
    CertifiesCollective(c, op, v);
    CertificateStarts(c, op, bufs);
    CertificateEnds(c, op, v);
    RunDelivers(SystemOf(c, op), PlanOf(c), CertificateOf(c, op, v), bufs, sched, t, Purpose(c, Result(c, op, v)));
  }

  lemma CertificateStarts<V(!new)>(c: Collective, op: (V, V) -> V, bufs: seq<V>)
    requires Valid(c) && |bufs| == c.size
    ensures StartsGood(CertificateOf(c, op, FromRoot(c, bufs)), bufs)
  {
    forall p: nat | p < c.size
      ensures Holds(c, op, FromRoot(c, bufs), p, (0 + 1) / 2, bufs[p])
    {
      HoldsAtStart(c, op, bufs, p);
    }
  }

  lemma CertificateEnds<V(!new)>(c: Collective, op: (V, V) -> V, v: seq<V>)
    requires Valid(c) && |v| == c.size
    ensures EndsGood(SystemOf(c, op), CertificateOf(c, op, v), Purpose(c, Result(c, op, v)))
  {
    forall p: nat, m: V | p < c.size && Holds(c, op, v, p, AllRounds(c), m)
      ensures Purpose(c, Result(c, op, v))(p, m)
    {
      HoldsAtEnd(c, op, v, p, m);
    }
    assert forall p: nat :: p < c.size ==> |SystemOf(c, op).scripts[p]| == 2 * AllRounds(c);
  }

  /** All-reduce leaves the combination of all buffers, in the order of the ranks, at every process. */
  lemma AllReduceDelivers<V(!new)>(size: nat, op: (V, V) -> V, bufs: seq<V>, sched: seq<nat>, t: Net<V, V>)
    requires size >= 2 && |bufs| == size && Associative(op)
    requires Run(SystemOf(Collective(size, 0, true, true), op), Start(bufs), sched, t)
    ensures Delivers(SystemOf(Collective(size, 0, true, true), op), sched, t, Everywhere(Fold(op, bufs, 0, size)))
  {
    var c := Collective(size, 0, true, true);
    CollectiveDelivers(c, op, bufs, sched, t);
    assert FromRoot(c, bufs) == bufs;
    PurposeEverywhere(c, Fold(op, bufs, 0, size));
    DeliversMore(SystemOf(c, op), sched, t, Purpose(c, Fold(op, bufs, 0, size)), Everywhere(Fold(op, bufs, 0, size)));
  }

  lemma PurposeEverywhere<V(!new)>(c: Collective, result: V)
    requires c.bcast
    ensures forall p: nat, m: V :: Purpose(c, result)(p, m) ==> Everywhere(result)(p, m)
  {
  }

  /** The number of trailing zero bits. */
  function LowBit(d: nat): nat
    requires d > 0
  {
    if d % 2 == 1 then 0 else 1 + LowBit(d / 2)
  }

  lemma {:induction false} LowBitChar(d: nat, r: nat)
    requires d > 0
    ensures Aligned(d, r) && Bit(d, r) <==> r == LowBit(d)
    decreases r
  {
    if r > 0 && d % 2 == 0 {
      LowBitChar(d / 2, r - 1);
    }
  }

  /** A process other than the root talks to its parent in one round only, that of the lowest set bit of its
      distance: it sends there once when reducing and receives from there once when broadcasting.  The root
      never does either. */
  lemma TalksToParentOnce(c: Collective, p: nat, t: nat)
    requires Valid(c) && p < c.size && t < AllRounds(c)
    ensures (if t < ReduceRounds(c) then MainOp(c, p, t).Post? else MainOp(c, p, t).Recv?) <==>
            p != c.root && RoundBit(c, t) == LowBit(Distance(c, p))
  {
    var d := Distance(c, p);
    DistanceInverse(c.root, p, c.size);
    if d > 0 {
      LowBitChar(d, RoundBit(c, t));
    } else {
      AlignedZero(RoundBit(c, t));
    }
  }
}
