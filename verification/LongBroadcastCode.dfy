/**
  The code of HPL_bcast_blong and HPL_bcast_blonM.  A method returns the MPI calls of one process; the two functions
  share the loops that spread and roll the pieces.
 */
module LongBroadcastCode {
  import opened Arith
  import opened Grid
  import opened MessagePassing
  import opened Pieces
  import opened SpreadRoll
  import opened LongBroadcast

  /** The broadcast of a panel of `len` entries, cut up as the code does it. */
  function Bcasting(size: nat, root: nat, modified: bool, len: nat): Bcast<Region>
    requires size >= 2
  {
    Panel(size, root, modified, Even(len, PartCount(size, modified)))
  }

  /** From piece x up to, but not including, piece y */
  ghost predicate InOrder(x: nat, y: nat) {
    x <= y
  }

  /** b cuts a panel of `len` entries up as the code does. */
  ghost predicate CutsEvenly(b: Bcast<Region>, len: nat)
    requires Valid(b)
  {
    && b.whole == Region(0, len)
    && forall x: nat, y: nat {:trigger InOrder(x, y)} :: InOrder(x, y) ==>
         b.cover(x, y) == Cover(Even(len, Members(b)), x, y)
  }

  function RoundOps<S>(b: Bcast<S>, p: nat, t: nat): (ops: seq<Op<S>>)
    requires Valid(b) && p < b.size && Member(b, p) && t < b.rounds
    ensures |ops| == 2
  {
    [SpreadMain(b, p, t), After(SpreadMain(b, p, t))]
  }

  function StepOps<S>(b: Bcast<S>, p: nat, k: nat): (ops: seq<Op<S>>)
    requires Valid(b) && p < b.size && Member(b, p) && k + 1 < Members(b)
    ensures |ops| == 3
  {
    [RollOp(b, p, k, 0), RollOp(b, p, k, 1), RollOp(b, p, k, 2)]
  }

  /** The first t rounds of the spread of process p. */
  function SpreadOps<S>(b: Bcast<S>, p: nat, t: nat): (ops: seq<Op<S>>)
    requires Valid(b) && p < b.size && Member(b, p) && t <= b.rounds
    ensures |ops| == 2 * t
  {
    if t == 0 then [] else SpreadOps(b, p, t - 1) + RoundOps(b, p, t - 1)
  }

  /** The first k steps of the roll of process p. */
  function RollOps<S>(b: Bcast<S>, p: nat, k: nat): (ops: seq<Op<S>>)
    requires Valid(b) && p < b.size && Member(b, p) && k < Members(b)
    ensures |ops| == 3 * k
  {
    if k == 0 then [] else RollOps(b, p, k - 1) + StepOps(b, p, k - 1)
  }

  function LeadOps<S>(b: Bcast<S>, p: nat): (ops: seq<Op<S>>)
    requires Valid(b) && p < b.size
  {
    if b.modified then [LeadOp(b, p), After(LeadOp(b, p))] else []
  }

  lemma {:induction false} SpreadOpsAt<S>(b: Bcast<S>, p: nat, t: nat, i: nat)
    requires Valid(b) && p < b.size && Member(b, p) && t <= b.rounds && i < 2 * t
    ensures SpreadOps(b, p, t)[i] == OpIn(b, p, Spreading(Half(i), i - 2 * Half(i)))
  {
    hide Half, SpreadMain, Member;
    HalfThird(i);
    if i < 2 * (t - 1) {
      SpreadOpsAt(b, p, t - 1, i);
    }
  }

  lemma {:induction false} RollOpsAt<S>(b: Bcast<S>, p: nat, k: nat, i: nat)
    requires Valid(b) && p < b.size && Member(b, p) && k < Members(b) && i < 3 * k
    ensures RollOps(b, p, k)[i] == OpIn(b, p, Rolling(Third(i), i - 3 * Third(i)))
  {
    hide Third, Member, RollOp, Members;
    HalfThird(i);
    if i < 3 * (k - 1) {
      RollOpsAt(b, p, k - 1, i);
    }
  }

  lemma ScriptAtLead<S>(b: Bcast<S>, p: nat, j: nat)
    requires Valid(b) && p < b.size && Member(b, p) && j < Lead(b)
    ensures OpAt(b, p, j) == LeadOps(b, p)[j]
  {
  }

  lemma ScriptAtSpread<S>(b: Bcast<S>, p: nat, j: nat)
    requires Valid(b) && p < b.size && Member(b, p) && j < 2 * b.rounds
    ensures OpAt(b, p, Lead(b) + j) == SpreadOps(b, p, b.rounds)[j]
  {
    hide OpIn, SpreadOps;
    SpreadOpsAt(b, p, b.rounds, j);
    assert PhaseOf(b, Lead(b) + j) == Spreading(Half(j), j - 2 * Half(j));
  }

  lemma ScriptAtRoll<S>(b: Bcast<S>, p: nat, j: nat)
    requires Valid(b) && p < b.size && Member(b, p) && j < 3 * (Members(b) - 1)
    ensures OpAt(b, p, RollStart(b) + j) == RollOps(b, p, Members(b) - 1)[j]
  {
    hide OpIn, RollOps;
    RollOpsAt(b, p, Members(b) - 1, j);
    assert PhaseOf(b, RollStart(b) + j) == Rolling(Third(j), j - 3 * Third(j));
  }

  /** A member's script is its three phases, one after the other. */
  lemma ScriptOfPhases<S>(b: Bcast<S>, p: nat)
    requires Valid(b) && p < b.size && Member(b, p)
    ensures Script(b, p) == LeadOps(b, p) + (SpreadOps(b, p, b.rounds) + RollOps(b, p, Members(b) - 1))
  {
    hide OpAt, SpreadOps, RollOps, LeadOp, After;
    var lead, spread, roll := LeadOps(b, p), SpreadOps(b, p, b.rounds), RollOps(b, p, Members(b) - 1);
    var s := Script(b, p);
    forall i: nat | i < |s|
      ensures s[i] == if i < |lead| then lead[i] else if i < |lead| + |spread| then spread[i - |lead|]
                      else roll[i - |lead| - |spread|]
    {
      if |lead| + |spread| <= i {
        ScriptAtRoll(b, p, i - |lead| - |spread|);
      } else if |lead| <= i {
        ScriptAtSpread(b, p, i - |lead|);
      } else {
        ScriptAtLead(b, p, i);
      }
    }
    Concatenated(s, lead, spread, roll);
  }

  lemma Concatenated<T>(s: seq<T>, a: seq<T>, b: seq<T>, c: seq<T>)
    requires |s| == |a| + |b| + |c|
    requires forall i: nat :: i < |s| ==>
               s[i] == if i < |a| then a[i] else if i < |a| + |b| then b[i - |a|] else c[i - |a| - |b|]
    ensures s == a + (b + c)
  {
  }

  lemma ScriptOfNeighbour<S>(b: Bcast<S>, p: nat)
    requires Valid(b) && p < b.size && !Member(b, p)
    ensures Script(b, p) == LeadOps(b, p)
  {
  }

  /** The rank that the code computes for participant x. */
  lemma PartnerRank<S>(b: Bcast<S>, x: nat)
    requires Valid(b) && x < Members(b)
    ensures var q := ModAdd(b.root, x, b.size);
            RankOf(b, x) == if b.modified && q != b.root then ModAdd1(q, b.size) else q
  {
  }

  /** Where the spread's variables are when round r = log2(ip2) starts. */
  ghost predicate Tracks(d: nat, r: nat, ip2: nat, mydist2: nat, indx: int)
  {
    ip2 == Pow2(r) && mydist2 == Low(d, r + 1) && indx == d - Low(d, r + 1) + ip2
  }

  lemma TracksOn(d: nat, r: nat, ip2: nat, mydist2: nat, indx: int)
    requires Tracks(d, r, ip2, mydist2, indx)
    ensures mydist2 < ip2 <==> !Bit(d, r)
    ensures r > 0 && Bit(d, r) ==> Tracks(d, r - 1, ip2 / 2, mydist2 - ip2, indx + ip2 / 2)
    ensures r > 0 && !Bit(d, r) ==> Tracks(d, r - 1, ip2 / 2, mydist2, indx - ip2 / 2)
    ensures Aligned(d, r) ==> indx == if Bit(d, r) then d else d + ip2
  {
    LowStep(d, r);
    LowAligned(d, r);
  }

  /** The operation of a round of the spread in the terms of the code. */
  lemma RoundOfCode<S>(b: Bcast<S>, p: nat, t: nat, indx: nat)
    requires Valid(b) && p < b.size && Member(b, p) && t < b.rounds
    requires var r, d := b.rounds - 1 - t, NumberOf(b, p);
             indx == if Bit(d, r) then d else d + Pow2(r)
    ensures var r, d := b.rounds - 1 - t, NumberOf(b, p);
            var ip2 := Pow2(r);
            && (Bit(d, r) ==> ip2 <= d)
            && SpreadMain(b, p, t) ==
               if !Aligned(d, r) then Skip
               else if Bit(d, r) then Recv(RankOf(b, d - ip2), b.cover(indx, indx + ip2))
               else if d + ip2 < Members(b) then Post(RankOf(b, d + ip2), b.cover(indx, indx + ip2))
               else Skip
  {
    hide Aligned, Bit, Pow2, NumberOf, RankOf, Members, Member;
    BitLeq(NumberOf(b, p), b.rounds - 1 - t);
  }

  /** The region of a round of the spread: as many as ip2 pieces from piece indx on; a length of at most zero
      means an empty message. */
  method SpreadSegment(len: nat, n: nat, count: nat, indx: nat, ip2: nat, ghost b: Bcast<Region>) returns (reg: Region)
    requires Valid(b) && n == Members(b) && CutsEvenly(b, len) && indx < n && count == Count(len, n)
    ensures reg == b.cover(indx, indx + ip2)
  {
    var ibuf := indx * count;
    var lbuf := len - ibuf;
    if indx + ip2 < n {
      var l := ip2 * count;
      lbuf := Min(lbuf, l);
    }
    reg := if lbuf > 0 then Region(ibuf, lbuf) else Region(0, 0);
    EvenCover(len, n, indx, indx + ip2);
    assert (indx + ip2) * count == indx * count + ip2 * count;
    assert InOrder(indx, indx + ip2);
  }

  /** The region of a step of the roll: piece indx. */
  method RollSegment(len: nat, n: nat, count: nat, indx: nat, ghost b: Bcast<Region>) returns (reg: Region)
    requires Valid(b) && n == Members(b) && CutsEvenly(b, len) && indx < n && count == Count(len, n)
    ensures reg == b.cover(indx, indx + 1)
  {
    var ibuf := indx * count;
    var lbuf: int := if indx == n - 1 then len else ibuf + count;
    lbuf := Min(len, lbuf) - ibuf;
    lbuf := Max(0, lbuf);
    reg := if lbuf > 0 then Region(ibuf, lbuf) else Region(0, 0);
    EvenCover(len, n, indx, indx + 1);
    assert (indx + 1) * count == indx * count + count;
    assert InOrder(indx, indx + 1);
  }

  /** The rank of participant x. */
  method RankOfPartner<S>(root: nat, size: nat, modified: bool, x: nat, ghost b: Bcast<S>) returns (partner: nat)
    requires Valid(b) && b.size == size && b.root == root && b.modified == modified && x < Members(b)
    ensures partner == RankOf(b, x)
  {
    PartnerRank(b, x);
    partner := ModAdd(root, x, size);
    if modified {
      if partner != root { partner := ModAdd1(partner, size); }
    }
  }

  /** One round of the spread. */
  method SpreadRound(root: nat, size: nat, modified: bool, len: nat, count: nat, parts: nat, mydist: nat, mask: nat,
                     ip2: nat,
                     indx: int, ghost b: Bcast<Region>, ghost p: nat, ghost t: nat)
    returns (ops: seq<Op<Region>>)
    requires size >= 2 && root < size && p < size && parts == PartCount(size, modified) && parts >= 2
    requires Valid(b) && b.size == size && b.root == root && b.modified == modified && CutsEvenly(b, len)
    requires Member(b, p) && mydist == NumberOf(b, p) && count == Count(len, parts)
    requires t < b.rounds
    requires var r := b.rounds - 1 - t;
             && ip2 == Pow2(r) && mask == ip2 - 1
             && (Aligned(mydist, r) ==> indx == if Bit(mydist, r) then mydist else mydist + ip2)
    ensures ops == RoundOps(b, p, t)
  {
    hide BitAnd, BitXor, Aligned, Bit, Pow2, SpreadMain, CutsEvenly, Count;
    ghost var r := b.rounds - 1 - t;
    AndLowMask(mydist, r);
    AndBit(mydist, r);
    XorBit(mydist, r);
    RoundOfCode(b, p, t, if Bit(mydist, r) then mydist else mydist + ip2);
    ops := [Skip, Skip];
    if BitAnd(mydist, mask) == 0 {
      var partner := BitXor(mydist, ip2);
      if BitAnd(mydist, ip2) != 0 {
        var reg := SpreadSegment(len, parts, count, indx, ip2, b);
        partner := RankOfPartner(root, size, modified, partner, b);
        ops := [Recv(partner, reg), Skip];
      } else if partner < parts {
        var reg := SpreadSegment(len, parts, count, indx, ip2, b);
        partner := RankOfPartner(root, size, modified, partner, b);
        ops := [Post(partner, reg), Wait(partner)];
      }
    }
  }

  /** Spread the panel: the do-loop of both functions, over `parts` participants. */
  method Spread(root: nat, size: nat, modified: bool, len: nat, count: nat, parts: nat, mydist: nat, mask0: nat,
                ip2m1: nat, ghost b: Bcast<Region>, ghost p: nat)
    returns (ops: seq<Op<Region>>)
    requires size >= 2 && root < size && p < size && parts == PartCount(size, modified) && parts >= 2
    requires Valid(b) && b.size == size && b.root == root && b.modified == modified && CutsEvenly(b, len)
    requires Member(b, p) && mydist == NumberOf(b, p) && count == Count(len, parts)
    requires ip2m1 == Pow2(b.rounds - 1) && mask0 == Pow2(b.rounds) - 1
    ensures ops == SpreadOps(b, p, b.rounds)
  {
    hide CutsEvenly, BitXor, Aligned, Bit, Low, RoundOps, Count, NumberOf;
    ghost var rounds := b.rounds;
    ghost var t: nat := 0;
    var mask, ip2, indx, mydist2 := mask0, ip2m1, ip2m1, mydist;
    ops := [];
    LowAll(mydist, rounds);
    while ip2 > 0
      invariant t <= rounds && ops == SpreadOps(b, p, t)
      invariant t == rounds ==> ip2 == 0
      invariant t < rounds ==> Tracks(mydist, rounds - 1 - t, ip2, mydist2, indx) && mask == 2 * ip2 - 1
      decreases rounds - t
    {
      ghost var r := rounds - 1 - t;
      TopBitOff(r);
      mask := BitXor(mask, ip2);
      TracksOn(mydist, r, ip2, mydist2, indx);
      var round := SpreadRound(root, size, modified, len, count, parts, mydist, mask, ip2, indx, b, p, t);
      ops := ops + round;
      if mydist2 < ip2 {
        ip2 := ip2 / 2;
        indx := indx - ip2;
      } else {
        mydist2 := mydist2 - ip2;
        ip2 := ip2 / 2;
        indx := indx + ip2;
      }
      t := t + 1;
    }
  }

  lemma HalfIs(k: nat)
    ensures Half(k) == k / 2
  {
  }

  /** One step of the roll. */
  method RollStep(len: nat, count: nat, parts: nat, mydist: nat, prev: nat, next: nat, k: nat, ghost b: Bcast<Region>,
                  ghost p: nat)
    returns (ops: seq<Op<Region>>)
    requires Valid(b) && CutsEvenly(b, len) && parts == Members(b) && count == Count(len, parts)
    requires p < b.size && Member(b, p) && mydist == NumberOf(b, p) && k + 1 < parts
    requires prev == RankOf(b, ModSub1(mydist, parts)) && next == RankOf(b, ModAdd1(mydist, parts))
    ensures ops == StepOps(b, p, k)
  {
    hide CutsEvenly, BitAnd, NumberOf, RankOf, Count, Odd, Half, Member, Valid;
    var l := k / 2;
    HalfIs(k);
    var indxS, indxR, partner;
    AndOne(mydist + k);
    if BitAnd(mydist + k, 1) != 0 {
      indxS := ModAdd(mydist, l, parts);
      indxR := ModSub(mydist, l + 1, parts);
      partner := prev;
    } else {
      indxS := ModSub(mydist, l, parts);
      indxR := ModAdd(mydist, l + 1, parts);
      partner := next;
    }
    assert indxS == SentPiece(parts, mydist, k) && indxR == GotPiece(parts, mydist, k);
    var regS := RollSegment(len, parts, count, indxS, b);
    var regR := RollSegment(len, parts, count, indxR, b);
    ops := [Post(partner, regS), Recv(partner, regR), Wait(partner)];
  }

  /** Roll the pieces: the for-loop of both functions. */
  method Roll(len: nat, count: nat, parts: nat, mydist: nat, prev: nat, next: nat, ghost b: Bcast<Region>, ghost p: nat)
    returns (ops: seq<Op<Region>>)
    requires Valid(b) && CutsEvenly(b, len) && parts == Members(b) && count == Count(len, parts)
    requires p < b.size && Member(b, p) && mydist == NumberOf(b, p)
    requires parts >= 2 && prev == RankOf(b, ModSub1(mydist, parts)) && next == RankOf(b, ModAdd1(mydist, parts))
    ensures ops == RollOps(b, p, parts - 1)
  {
    hide CutsEvenly, NumberOf, RankOf, StepOps, Count, ModSub1, ModAdd1;
    ops := [];
    for k := 0 to parts - 1
      invariant ops == RollOps(b, p, k)
    {
      var step := RollStep(len, count, parts, mydist, prev, next, k, b, p);
      ops := ops + step;
    }
  }

  lemma BcastingCuts(size: nat, root: nat, modified: bool, len: nat)
    requires size >= 2 && root < size
    ensures CutsEvenly(Bcasting(size, root, modified, len), len)
  {
  }

  /** The spread and the roll of one participant. */
  method SpreadAndRoll(rank: nat, root: nat, size: nat, modified: bool, len: nat, parts: nat, mydist: nat, mask: nat,
                       ip2: nat,
                       prev: nat, next: nat, ghost b: Bcast<Region>)
    returns (ops: seq<Op<Region>>)
    requires Valid(b) && b.size == size && b.root == root && b.modified == modified && CutsEvenly(b, len)
    requires rank < size && Member(b, rank) && mydist == NumberOf(b, rank) && parts == Members(b) && parts >= 2
    requires ip2 == Pow2(b.rounds - 1) && mask == Pow2(b.rounds) - 1
    requires prev == RankOf(b, ModSub1(mydist, parts)) && next == RankOf(b, ModAdd1(mydist, parts))
    ensures LeadOps(b, rank) + ops == Script(b, rank)
  {
    hide CutsEvenly, NumberOf, RankOf, SpreadOps, RollOps, Script, LeadOps, ModSub1, ModAdd1, Pow2;
    var count := len / parts;
    count := Max(count, 1);
    var spread := Spread(root, size, modified, len, count, parts, mydist, mask, ip2, b, rank);
    var roll := Roll(len, count, parts, mydist, prev, next, b, rank);
    ops := spread + roll;
    ScriptOfPhases(b, rank);
  }

  /** HPL_bcast_blong: `ip2m1` and `mask` are what HPL_grid_init stored for the process row. */
  method Blong(rank: nat, root: nat, size: nat, len: nat, ip2m1: nat, mask: nat) returns (ops: seq<Op<Region>>)
    requires rank < size && root < size
    requires size >= 2 ==> ip2m1 == Pow2(Rounds(size) - 1) && mask == Pow2(Rounds(size)) - 1
    ensures ops == if size <= 1 then [] else Script(Bcasting(size, root, false, len), rank)
  {
    if size <= 1 { return []; }
    ghost var b := Bcasting(size, root, false, len);
    BcastingCuts(size, root, false, len);
    var mydist := ModSub(rank, root, size);
    Neighbours(b, rank);
    var prev, next := ModSub1(rank, size), ModAdd1(rank, size);
    ops := SpreadAndRoll(rank, root, size, false, len, size, mydist, mask, ip2m1, prev, next, b);
    assert LeadOps(b, rank) + ops == ops;
  }

  /** The neighbours in the ring of participants, as the code finds them. */
  lemma NeighbourBefore<S>(b: Bcast<S>, p: nat)
    requires Valid(b) && p < b.size && Member(b, p) && Members(b) >= 2
    ensures var before := ModSub1(p, b.size);
            RankOf(b, ModSub1(NumberOf(b, p), Members(b)))
            == if b.modified && ModSub1(before, b.size) == b.root then b.root else before
  {
    hide RoundsFor;
  }

  lemma NeighbourAfter<S>(b: Bcast<S>, p: nat)
    requires Valid(b) && p < b.size && Member(b, p) && Members(b) >= 2
    ensures var after := ModAdd1(p, b.size);
            RankOf(b, ModAdd1(NumberOf(b, p), Members(b)))
            == if b.modified && p == b.root then ModAdd1(after, b.size) else after
  {
    hide RoundsFor;
  }

  lemma Neighbours<S>(b: Bcast<S>, p: nat)
    requires Valid(b) && p < b.size && Member(b, p) && Members(b) >= 2
    ensures var d, n := NumberOf(b, p), Members(b);
            var before := ModSub1(p, b.size);
            var after := ModAdd1(p, b.size);
            && RankOf(b, ModSub1(d, n)) == (if b.modified && ModSub1(before, b.size) == b.root then b.root else before)
            && RankOf(b, ModAdd1(d, n)) == (if b.modified && p == b.root then ModAdd1(after, b.size) else after)
  {
    hide RankOf, NumberOf, Members, Member, ModSub1, ModAdd1;
    NeighbourBefore(b, p);
    NeighbourAfter(b, p);
  }

  /** The direct message of blonM. */
  method SendDirect(rank: nat, root: nat, size: nat, len: nat, ghost b: Bcast<Region>) returns (ops: seq<Op<Region>>)
    requires Valid(b) && b.size == size && b.root == root && b.modified && b.whole == Region(0, len) && rank < size
    ensures ops == LeadOps(b, rank)
  {
    var prev := ModSub1(rank, size);
    if rank == root {
      var next := ModAdd1(rank, size);
      ops := [Post(next, Region(0, len)), Wait(next)];
    } else if prev == root {
      ops := [Recv(root, Region(0, len)), Skip];
    } else {
      ops := [Skip, Skip];
    }
  }

  lemma EarlyExit<S>(b: Bcast<S>, p: nat)
    requires Valid(b) && b.modified && p < b.size && (b.size == 2 || ModSub1(p, b.size) == b.root)
    ensures Script(b, p) == LeadOps(b, p)
  {
    if Member(b, p) {
      ScriptOfPhases(b, p);
    } else {
      ScriptOfNeighbour(b, p);
    }
  }

  /** HPL_bcast_blonM. */
  method BlonM(rank: nat, root: nat, size: nat, len: nat) returns (ops: seq<Op<Region>>)
    requires rank < size && root < size
    ensures ops == if size <= 1 then [] else Script(Bcasting(size, root, true, len), rank)
  {
    hide CutsEvenly, SpreadOps, RollOps, Script, LeadOps, Pow2;
    if size <= 1 { return []; }
    ghost var b := Bcasting(size, root, true, len);
    BcastingCuts(size, root, true, len);
    ops := SendDirect(rank, root, size, len, b);
    var prev := ModSub1(rank, size);
    if prev == root || size == 2 {
      EarlyExit(b, rank);
      return;
    }
    var npm1 := size - 1;
    var ip2, mask := HypercubeBelow(npm1);
    var mydist := 0;
    if rank != root { mydist := ModSub(rank, root, size) - 1; }
    Neighbours(b, rank);
    if ModSub1(prev, size) == root { prev := root; }
    var next := ModAdd1(rank, size);
    if rank == root { next := ModAdd1(next, size); }
    var rest := SpreadAndRoll(rank, root, size, true, len, npm1, mydist, mask, ip2, prev, next, b);
    ops := ops + rest;
  }
}
