/** HPL_bcast_blong and HPL_bcast_blonM: the code, and what it does to the panel buffers. */
module LongBroadcast {
  import opened Arith
  import opened Grid
  import opened MessagePassing
  import opened Pieces
  import opened SpreadRoll

  function PartCount(size: nat, modified: bool): nat
    requires size >= 2
  {
    if modified then size - 1 else size
  }

  /** The broadcast of a panel cut up by l. */
  function Panel(size: nat, root: nat, modified: bool, l: Layout): Bcast<Region>
    requires size >= 2 && ValidLayout(l)
  {
    var n := PartCount(size, modified);
    Bcast(size, root, modified, if n >= 2 then Rounds(n) else 0, Region(0, Length(l)),
          (x: nat, y: nat) => Cover(l, x, y))
  }

  /** The messages of b carry what l says. */
  ghost predicate Carries(b: Bcast<Region>, l: Layout)
    requires ValidLayout(l)
  {
    b.whole == Region(0, Length(l)) && forall x: nat, y: nat :: b.cover(x, y) == Cover(l, x, y)
  }

  /** Processes that send and receive regions of their buffers */
  function Moving<V>(scripts: seq<seq<Op<Region>>>): System<Region, seq<V>, seq<V>> {
    System(scripts, (m: seq<V>, r: Region) => Read(m, r), (m: seq<V>, r: Region, d: seq<V>) => Write(m, r, d))
  }

  function SystemOf<V>(b: Bcast<Region>): System<Region, seq<V>, seq<V>>
    requires Valid(b)
  {
    Moving(Scripts(b))
  }

  // ------------------------------------------------------------------------------------------------
  // What the buffers hold
  // ------------------------------------------------------------------------------------------------

  /** With `left` rounds of the spread to go: the root has everything, and a participant whose number has its
      lowest set bit among those already treated has its piece and those it still has to pass on. */
  ghost predicate SpreadHolds<V>(l: Layout, buf: seq<V>, d: nat, left: nat, m: seq<V>)
    requires ValidLayout(l) && |buf| == Length(l)
  {
    && |m| == Length(l)
    && (d == 0 ==> m == buf)
    && (d > 0 && Aligned(d, left) ==> Has(l, buf, m, d, d + Pow2(left)))
  }

  /** A round's operation keeps a memory as it should be, and only sends what the memory has. */
  ghost predicate RoundHolds<V>(l: Layout, buf: seq<V>, d: nat, op: Op<Region>, left: nat, m: seq<V>)
    requires ValidLayout(l) && |buf| == Length(l)
  {
    match op
    case Post(_, r) => Read(m, r) == Read(buf, r) && SpreadHolds(l, buf, d, left, m)
    case Recv(_, r) => SpreadHolds(l, buf, d, left, Write(m, r, Read(buf, r)))
    case _ => SpreadHolds(l, buf, d, left, m)
  }

  lemma SpreadRecvHolds<V>(l: Layout, buf: seq<V>, d: nat, r: nat, m: seq<V>, from: nat)
    requires ValidLayout(l) && |buf| == Length(l) && |m| == Length(l)
    requires d > 0
    ensures RoundHolds(l, buf, d, Recv(from, Cover(l, d, d + Pow2(r))), r, m)
  {
    hide Cover, Read, Write, Has, Aligned, Pow2;
    Received(l, buf, m, d, d + Pow2(r));
  }

  lemma SpreadKeepHolds<V>(l: Layout, buf: seq<V>, d: nat, r: nat, m: seq<V>)
    requires ValidLayout(l) && |buf| == Length(l) && SpreadHolds(l, buf, d, r + 1, m)
    requires Aligned(d, r) && !Bit(d, r)
    ensures SpreadHolds(l, buf, d, r, m)
  {
    hide Has;
    AlignedStep(d, r);
    if d > 0 {
      HasLess(l, buf, m, d, d + Pow2(r + 1), d, d + Pow2(r));
    }
  }

  lemma SpreadSendHolds<V>(l: Layout, buf: seq<V>, d: nat, r: nat, m: seq<V>, w: nat)
    requires ValidLayout(l) && |buf| == Length(l) && SpreadHolds(l, buf, d, r + 1, m)
    requires Aligned(d, r) && !Bit(d, r) && w == Pow2(r)
    ensures Read(m, Cover(l, d + w, d + w + w)) == Read(buf, Cover(l, d + w, d + w + w))
  {
    hide Cover, Read, Has;
    AlignedStep(d, r);
    if d > 0 {
      HasLess(l, buf, m, d, d + w + w, d + w, d + w + w);
      ReadHas(l, buf, m, d + w, d + w + w);
    }
  }

  lemma SpreadIdleHolds<V>(l: Layout, buf: seq<V>, d: nat, r: nat, m: seq<V>)
    requires ValidLayout(l) && |buf| == Length(l) && SpreadHolds(l, buf, d, r + 1, m)
    requires !Aligned(d, r)
    ensures RoundHolds(l, buf, d, Skip, r, m)
  {
    hide Has;
  }

  lemma SpreadRoundHolds<V>(l: Layout, cover: (nat, nat) -> Region, buf: seq<V>, d: nat, r: nat, m: seq<V>)
    requires ValidLayout(l) && d < Parts(l) && |buf| == Length(l)
    requires forall x: nat, y: nat :: cover(x, y) == Cover(l, x, y)
    requires SpreadHolds(l, buf, d, r + 1, m)
    ensures RoundHolds(l, buf, d, SpreadOp(cover, Parts(l), d, r), r, m)
  {
    hide Cover, Read, Write, Has, Aligned, Bit, Pow2;
    var w := Pow2(r);
    var op := SpreadOp(cover, Parts(l), d, r);
    if !Aligned(d, r) {
      assert op == Skip;
      SpreadIdleHolds(l, buf, d, r, m);
    } else if Bit(d, r) {
      BitLeq(d, r);
      assert op == Recv(d - w, Cover(l, d, d + w));
      SpreadRecvHolds(l, buf, d, r, m, d - w);
    } else {
      assert op == Skip || op == Post(d + w, Cover(l, d + w, d + w + w));
      SpreadKeepHolds(l, buf, d, r, m);
      SpreadSendHolds(l, buf, d, r, m, w);
    }
  }

  lemma SpreadThenRoll<V>(l: Layout, buf: seq<V>, d: nat, m: seq<V>)
    requires ValidLayout(l) && d < Parts(l) && |buf| == Length(l) && SpreadHolds(l, buf, d, 0, m)
    ensures HasPieces(l, buf, m, Owned(Parts(l), d, 0))
  {
    OwnedEnds(Parts(l), d);
    assert Has(l, buf, m, d, d + Pow2(0));
    assert HasPiece(l, buf, m, d);
  }

  /** The panel buffer of process p before the operation of phase ph. */
  ghost predicate HoldsIn<V>(b: Bcast<Region>, l: Layout, buf: seq<V>, p: nat, ph: Phase, m: seq<V>)
    requires Valid(b) && p < b.size && ValidLayout(l) && |buf| == Length(l)
  {
    if !Member(b, p) then |m| == |buf| && (ph != Leading(0) ==> m == buf)
    else
      var d := NumberOf(b, p);
      match ph
      case Leading(_) => SpreadHolds(l, buf, d, b.rounds, m)
      case Spreading(t, e) => t + e <= b.rounds && SpreadHolds(l, buf, d, b.rounds - t - e, m)
      case Rolling(k, e) => HasPieces(l, buf, m, Owned(Members(b), d, if e == 2 then k + 1 else k))
  }

  /** Does an operation, with the message that is meant for it, lead from a memory that is as it should be before
      phase `next` to one that is as it should be there? */
  ghost predicate OpHolds<V>(b: Bcast<Region>, l: Layout, buf: seq<V>, p: nat, op: Op<Region>, next: Phase, m: seq<V>)
    requires Valid(b) && p < b.size && ValidLayout(l) && |buf| == Length(l)
  {
    match op
    case Post(_, r) => Read(m, r) == Read(buf, r) && HoldsIn(b, l, buf, p, next, m)
    case Recv(_, r) => HoldsIn(b, l, buf, p, next, Write(m, r, Read(buf, r)))
    case _ => HoldsIn(b, l, buf, p, next, m)
  }

  lemma LeadHolds<V>(b: Bcast<Region>, l: Layout, buf: seq<V>, p: nat, e: nat, m: seq<V>)
    requires Valid(b) && p < b.size && b.modified && e < 2
    requires ValidLayout(l) && Parts(l) == Members(b) && |buf| == Length(l) && Carries(b, l)
    requires HoldsIn(b, l, buf, p, Leading(e), m)
    ensures OpHolds(b, l, buf, p, OpIn(b, p, Leading(e)), NextPhase(b.rounds, Leading(e)), m)
  {
    if e == 0 && !Member(b, p) {
      var r := Region(0, Length(l));
      assert Write(m, r, Read(buf, r)) == buf;
    } else if e == 1 && Members(b) == 1 && Member(b, p) {
      SpreadThenRoll(l, buf, NumberOf(b, p), m);
    }
  }

  /** Naming the processes does not change what a message carries. */
  lemma RenamedHolds<V>(b: Bcast<Region>, l: Layout, buf: seq<V>, p: nat, op: Op<Region>, left: nat, next: Phase,
                        m: seq<V>)
    requires Valid(b) && p < b.size && Member(b, p) && ValidLayout(l) && |buf| == Length(l)
    requires op.Post? ==> op.to < Members(b)
    requires op.Recv? ==> op.from < Members(b)
    requires RoundHolds(l, buf, NumberOf(b, p), op, left, m)
    requires forall m' :: SpreadHolds(l, buf, NumberOf(b, p), left, m') ==> HoldsIn(b, l, buf, p, next, m')
    ensures OpHolds(b, l, buf, p, Renamed(b, op), next, m)
  {
    hide Cover, Read, Write, Has, SpreadHolds, HoldsIn, RankOf, NumberOf;
  }

  lemma SpreadMainHolds<V>(b: Bcast<Region>, l: Layout, buf: seq<V>, p: nat, t: nat, m: seq<V>)
    requires Valid(b) && p < b.size && Member(b, p) && t < b.rounds
    requires ValidLayout(l) && Parts(l) == Members(b) && |buf| == Length(l) && Carries(b, l)
    requires HoldsIn(b, l, buf, p, Spreading(t, 0), m)
    ensures OpHolds(b, l, buf, p, SpreadMain(b, p, t), Spreading(t, 1), m)
  {
    hide Cover, Read, Write, SpreadHolds, RoundHolds, OpHolds, HasPieces, Owned, SpreadOp, NumberOf, Renamed;
    var d, r := NumberOf(b, p), b.rounds - 1 - t;
    var op := SpreadOp(b.cover, Members(b), d, r);
    SpreadRoundHolds(l, b.cover, buf, d, r, m);
    SpreadOpInRange(b.cover, Members(b), d, r);
    RenamedHolds(b, l, buf, p, op, r, Spreading(t, 1), m);
  }

  lemma SpreadPhaseHolds<V>(b: Bcast<Region>, l: Layout, buf: seq<V>, p: nat, t: nat, e: nat, m: seq<V>)
    requires Valid(b) && p < b.size && Member(b, p) && t < b.rounds && e < 2
    requires ValidLayout(l) && Parts(l) == Members(b) && |buf| == Length(l) && Carries(b, l)
    requires HoldsIn(b, l, buf, p, Spreading(t, e), m)
    ensures OpHolds(b, l, buf, p, OpIn(b, p, Spreading(t, e)), NextPhase(b.rounds, Spreading(t, e)), m)
  {
    hide Cover, Read, Write, SpreadHolds, RoundHolds, HasPieces, Owned, SpreadMain, NumberOf;
    if e == 0 {
      SpreadMainHolds(b, l, buf, p, t, m);
    } else if t + 1 == b.rounds {
      SpreadThenRoll(l, buf, NumberOf(b, p), m);
    }
  }

  /** The exchange of step k, on the pieces alone. */
  lemma ExchangeHolds<V>(l: Layout, buf: seq<V>, d: nat, k: nat, m: seq<V>)
    requires ValidLayout(l) && |buf| == Length(l) && d < Parts(l) && k + 1 < Parts(l)
    requires HasPieces(l, buf, m, Owned(Parts(l), d, k))
    ensures var s := SentPiece(Parts(l), d, k); Read(m, Cover(l, s, s + 1)) == Read(buf, Cover(l, s, s + 1))
    ensures var g := GotPiece(Parts(l), d, k);
            HasPieces(l, buf, Write(m, Cover(l, g, g + 1), Read(buf, Cover(l, g, g + 1))), Owned(Parts(l), d, k + 1))
  {
    hide Cover, Read, Write, HasPieces, Owned, SentPiece, GotPiece;
    var n := Parts(l);
    OwnedGrows(n, d, k);
    PieceSent(l, buf, m, Owned(n, d, k), SentPiece(n, d, k));
    PieceReceived(l, buf, m, Owned(n, d, k), GotPiece(n, d, k));
  }

  lemma RollSendHolds<V>(b: Bcast<Region>, l: Layout, buf: seq<V>, p: nat, k: nat, m: seq<V>)
    requires Valid(b) && p < b.size && Member(b, p) && k + 1 < Members(b)
    requires ValidLayout(l) && Parts(l) == Members(b) && |buf| == Length(l) && Carries(b, l)
    requires HoldsIn(b, l, buf, p, Rolling(k, 0), m)
    ensures OpHolds(b, l, buf, p, RollOp(b, p, k, 0), Rolling(k, 1), m)
  {
    hide Cover, Read, Write, HasPieces, Owned, SentPiece, GotPiece, Partner, RankOf;
    ExchangeHolds(l, buf, NumberOf(b, p), k, m);
  }

  lemma RollRecvHolds<V>(b: Bcast<Region>, l: Layout, buf: seq<V>, p: nat, k: nat, m: seq<V>)
    requires Valid(b) && p < b.size && Member(b, p) && k + 1 < Members(b)
    requires ValidLayout(l) && Parts(l) == Members(b) && |buf| == Length(l) && Carries(b, l)
    requires HoldsIn(b, l, buf, p, Rolling(k, 1), m)
    ensures OpHolds(b, l, buf, p, RollOp(b, p, k, 1), Rolling(k, 2), m)
  {
    hide Cover, Read, Write, HasPieces, Owned, SentPiece, GotPiece, Partner, RankOf;
    ExchangeHolds(l, buf, NumberOf(b, p), k, m);
  }

  lemma RollPhaseHolds<V>(b: Bcast<Region>, l: Layout, buf: seq<V>, p: nat, k: nat, e: nat, m: seq<V>)
    requires Valid(b) && p < b.size && Member(b, p) && k + 1 < Members(b) && e < 3
    requires ValidLayout(l) && Parts(l) == Members(b) && |buf| == Length(l) && Carries(b, l)
    requires HoldsIn(b, l, buf, p, Rolling(k, e), m)
    ensures OpHolds(b, l, buf, p, OpIn(b, p, Rolling(k, e)), NextPhase(b.rounds, Rolling(k, e)), m)
  {
    hide Cover, Read, Write, HasPieces, Owned, SentPiece, GotPiece, Partner, RankOf;
    if e == 0 {
      RollSendHolds(b, l, buf, p, k, m);
    } else if e == 1 {
      RollRecvHolds(b, l, buf, p, k, m);
    }
  }

  /** Every operation finds the memory as it should be and leaves it as the next one wants it. */
  lemma PhaseHolds<V>(b: Bcast<Region>, l: Layout, buf: seq<V>, p: nat, i: nat, m: seq<V>)
    requires Valid(b) && p < b.size && i < ScriptLength(b, p)
    requires ValidLayout(l) && Parts(l) == Members(b) && |buf| == Length(l) && Carries(b, l)
    requires HoldsIn(b, l, buf, p, PhaseOf(b, i), m)
    ensures OpHolds(b, l, buf, p, OpAt(b, p, i), PhaseOf(b, i + 1), m)
  {
    hide HoldsIn, OpHolds, OpIn, PhaseOf, NextPhase;
    PhaseInScript(b, p, i);
    match PhaseOf(b, i) {
      case Leading(e) => LeadHolds(b, l, buf, p, e, m);
      case Spreading(t, e) => SpreadPhaseHolds(b, l, buf, p, t, e, m);
      case Rolling(k, e) => RollPhaseHolds(b, l, buf, p, k, e, m);
    }
  }

  ghost function CertificateOf<V>(b: Bcast<Region>, l: Layout, buf: seq<V>): Certificate<seq<V>, seq<V>>
    requires Valid(b) && ValidLayout(l) && |buf| == Length(l)
  {
    Certificate(
      (p: nat, i: nat, m: seq<V>) => p < b.size && i <= ScriptLength(b, p) && HoldsIn(b, l, buf, p, PhaseOf(b, i), m),
      (p: nat, i: nat, d: seq<V>) =>
        p < b.size && i < ScriptLength(b, p) && OpAt(b, p, i).Post? && d == Read(buf, OpAt(b, p, i).sel))
  }

  lemma OpCertifiedAt<V(!new)>(b: Bcast<Region>, l: Layout, buf: seq<V>, p: nat, i: nat, m: seq<V>)
    requires Valid(b) && ValidLayout(l) && Parts(l) == Members(b) && |buf| == Length(l) && Carries(b, l)
    requires p < b.size && i < ScriptLength(b, p) && HoldsIn(b, l, buf, p, PhaseOf(b, i), m)
    ensures |Scripts(b)| == b.size && |Scripts(b)[p]| == ScriptLength(b, p)
    ensures OpCertified(SystemOf<V>(b), PlanOf(b), CertificateOf(b, l, buf), p, i, m)
  {
    hide HoldsIn, OpAt, PhaseOf, Read, Write, ScriptLength, Carries, Parts, Length, Members, MateAt, TimeAt;
    assert Scripts(b)[p][i] == OpAt(b, p, i);
    PhaseHolds(b, l, buf, p, i, m);
    if OpAt(b, p, i).Recv? {
      RecvPaired(b, p, i);
    }
  }

  lemma CertifiesBroadcast<V(!new)>(b: Bcast<Region>, l: Layout, buf: seq<V>)
    requires Valid(b) && ValidLayout(l) && Parts(l) == Members(b) && |buf| == Length(l)
    requires Carries(b, l)
    ensures Certifies(SystemOf<V>(b), PlanOf(b), CertificateOf(b, l, buf))
  {
    hide HoldsIn, OpAt, PhaseOf, OpCertified, Carries, Parts, Length, Members;
    var sys, plan, cert := SystemOf<V>(b), PlanOf(b), CertificateOf(b, l, buf);
    forall p: nat, i: nat, m: seq<V> | p < |sys.scripts| && i < |sys.scripts[p]| && cert.good(p, i, m)
      ensures OpCertified(sys, plan, cert, p, i, m)
    {
      OpCertifiedAt(b, l, buf, p, i, m);
    }
  }

  lemma BroadcastStarts<V(!new)>(b: Bcast<Region>, l: Layout, bufs: seq<seq<V>>)
    requires Valid(b) && ValidLayout(l) && Parts(l) == Members(b) && |bufs| == b.size
    requires forall p :: 0 <= p < b.size ==> |bufs[p]| == Length(l)
    ensures StartsGood(CertificateOf(b, l, bufs[b.root]), bufs)
  {
    hide Has, Aligned, Pow2;
    var buf := bufs[b.root];
    forall p: nat | p < b.size
      ensures HoldsIn(b, l, buf, p, PhaseOf(b, 0), bufs[p])
    {
      if Member(b, p) {
        var d := NumberOf(b, p);
        RankOfNumber(b, p);
        if d > 0 {
          AlignedBelow(d, b.rounds);
        } else {
          assert p == b.root;
        }
        assert SpreadHolds(l, buf, d, b.rounds, bufs[p]);
      }
    }
  }

  lemma EndPhase<S>(b: Bcast<S>, p: nat)
    requires Valid(b) && p < b.size
    ensures Member(b, p) ==> PhaseOf(b, ScriptLength(b, p)) == Rolling(Members(b) - 1, 0)
    ensures !Member(b, p) ==> PhaseOf(b, ScriptLength(b, p)) != Leading(0)
  {
  }

  lemma BroadcastEnds<V(!new)>(b: Bcast<Region>, l: Layout, buf: seq<V>)
    requires Valid(b) && ValidLayout(l) && Parts(l) == Members(b) && |buf| == Length(l)
    ensures EndsGood(SystemOf<V>(b), CertificateOf(b, l, buf), Everywhere(buf))
  {
    hide HasPieces, Owned, Within;
    forall p: nat, m: seq<V> | p < b.size && HoldsIn(b, l, buf, p, PhaseOf(b, ScriptLength(b, p)), m)
      ensures m == buf
    {
      EndPhase(b, p);
      if Member(b, p) {
        var n, d := Members(b), NumberOf(b, p);
        OwnedEnds(n, d);
        HasAll(l, buf, m, Owned(n, d, n - 1));
      }
    }
    assert forall p: nat :: p < b.size ==> |Scripts(b)[p]| == ScriptLength(b, p);
  }

  lemma ScriptCount<S>(b: Bcast<S>)
    requires Valid(b)
    ensures |Scripts(b)| == b.size
  {
    hide Script;
  }

  lemma PanelFits(size: nat, root: nat, modified: bool, l: Layout)
    requires size >= 2 && root < size && ValidLayout(l) && Parts(l) == PartCount(size, modified)
    ensures var b := Panel(size, root, modified, l);
            Valid(b) && b.size == size && b.root == root && Members(b) == Parts(l) && Carries(b, l)
  {
    hide Cover;
  }

  /** Main result: whatever the interleaving and however long sends block, the broadcast cannot get stuck, ends
      after a fixed number of moves with no message left over, and then every process has the root's panel.
      It does so for every way of cutting the panel up. */
  lemma BroadcastDelivers<V(!new)>(
    size: nat, root: nat, modified: bool, l: Layout, bufs: seq<seq<V>>, sched: seq<nat>, t: Net<seq<V>, seq<V>>)
    requires size >= 2 && root < size && |bufs| == size
    requires ValidLayout(l) && Parts(l) == PartCount(size, modified)
    requires forall p :: 0 <= p < size ==> |bufs[p]| == Length(l)
    requires Run(SystemOf(Panel(size, root, modified, l)), Start(bufs), sched, t)
    ensures Delivers(SystemOf(Panel(size, root, modified, l)), sched, t, Everywhere(bufs[root]))
  {
    hide WellPlanned, Certifies, StartsGood, EndsGood, Delivers, PlanOf, CertificateOf, Run;
    hide Panel, Carries, Members, Parts, Length, Valid, ValidLayout, Scripts;
    PanelFits(size, root, modified, l);
    var b := Panel(size, root, modified, l);
    ScriptCount(b);
    SpreadRollPlanned(b);
    CertifiesBroadcast(b, l, bufs[root]);
    BroadcastStarts(b, l, bufs);
    BroadcastEnds(b, l, bufs[root]);
    RunDelivers(SystemOf(b), PlanOf(b), CertificateOf(b, l, bufs[root]), bufs, sched, t, Everywhere(bufs[root]));
  }
}
