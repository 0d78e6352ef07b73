/**
  The long broadcast of HPL (HPL_bcast_blong) and its modified form (HPL_bcast_blonM).

  The root spreads the panel so that each of n participants gets one piece, then the participants roll the pieces
  around a ring, exchanging one piece with a neighbour in each of n - 1 steps, the even participants first with the
  next and then with the previous one, the odd ones the other way round.  In the modified form the root sends
  the whole panel to its right neighbour first and the other size - 1 processes take part.

  A participant's number is its distance from the root, the right neighbour left out.  A round of the spread takes
  two operations as in module Binomial, a step of the roll takes three: Post, Recv and Wait.
 */
module SpreadRoll {
  import opened Arith
  import opened Grid
  import opened MessagePassing

  /** `cover(x, y)` is what a message with the pieces x, ..., y - 1 carries, `whole` what one with the panel does. */
  datatype Bcast<!S> = Bcast(size: nat, root: nat, modified: bool, rounds: nat, whole: S, cover: (nat, nat) -> S)

  predicate Valid<S>(b: Bcast<S>) {
    b.size >= 2 && b.root < b.size && RoundsFor(if b.modified then b.size - 1 else b.size, b.rounds)
  }

  /** Enough rounds to reach n participants, and no more. */
  predicate RoundsFor(n: nat, rounds: nat) {
    if n <= 1 then rounds == 0 else rounds >= 1 && Pow2(rounds - 1) < n <= Pow2(rounds)
  }

  /** The number of participants of spread and roll. */
  function Members<S>(b: Bcast<S>): (n: nat)
    requires Valid(b)
    ensures n >= 1
  {
    if b.modified then b.size - 1 else b.size
  }

  predicate Member<S>(b: Bcast<S>, p: nat)
    requires Valid(b) && p < b.size
  {
    !b.modified || ModSub(p, b.root, b.size) != 1
  }

  /** The participant number of process p. */
  function NumberOf<S>(b: Bcast<S>, p: nat): (d: nat)
    requires Valid(b) && p < b.size && Member(b, p)
    ensures d < Members(b)
  {
    var d := ModSub(p, b.root, b.size);
    if b.modified && d > 0 then d - 1 else d
  }

  /** The process with participant number d. */
  function RankOf<S>(b: Bcast<S>, d: nat): (p: nat)
    requires Valid(b) && d < Members(b)
    ensures p < b.size && Member(b, p) && NumberOf(b, p) == d
  {
    if b.modified && d > 0 then ModAdd(b.root, d + 1, b.size) else ModAdd(b.root, d, b.size)
  }

  lemma RankOfNumber<S>(b: Bcast<S>, p: nat)
    requires Valid(b) && p < b.size && Member(b, p)
    ensures RankOf(b, NumberOf(b, p)) == p
  {
  }

  // ------------------------------------------------------------------------------------------------
  // The schedule among the participants 0, ..., n - 1
  // ------------------------------------------------------------------------------------------------

  /** The round of the spread that works on bit r, for participant d: `to` and `from` are participants. */
  function SpreadOp<S>(cover: (nat, nat) -> S, n: nat, d: nat, r: nat): Op<S>
    requires d < n
  {
    var w := Pow2(r);
    if !Aligned(d, r) then Skip
    else if Bit(d, r) then BitLeq(d, r); Recv(d - w, cover(d, d + w))
    else if d + w < n then Post(d + w, cover(d + w, d + w + w))
    else Skip
  }

  lemma SpreadOpInRange<S>(cover: (nat, nat) -> S, n: nat, d: nat, r: nat)
    requires d < n
    ensures SpreadOp(cover, n, d, r).Post? ==> SpreadOp(cover, n, d, r).to < n
    ensures SpreadOp(cover, n, d, r).Recv? ==> SpreadOp(cover, n, d, r).from < n
  {
  }

  /** Does participant d turn to its left in step k of the roll? */
  predicate Leftwards(d: nat, k: nat) {
    Odd(d + k)
  }

  function Partner(n: nat, d: nat, k: nat): (e: nat)
    requires d < n && n >= 2
    ensures e < n && e != d
  {
    if Leftwards(d, k) then ModSub1(d, n) else ModAdd1(d, n)
  }

  function SentPiece(n: nat, d: nat, k: nat): (x: nat)
    requires d < n && k + 1 < n
    ensures x < n
  {
    if Leftwards(d, k) then ModAdd(d, Half(k), n) else ModSub(d, Half(k), n)
  }

  function GotPiece(n: nat, d: nat, k: nat): (x: nat)
    requires d < n && k + 1 < n
    ensures x < n
  {
    if Leftwards(d, k) then ModSub(d, Half(k) + 1, n) else ModAdd(d, Half(k) + 1, n)
  }

  /** How far participant d's pieces reach to its right and left after k exchanges. */
  function RightReach(d: nat, k: nat): nat {
    if Odd(d) then Half(k) else Half(k + 1)
  }

  function LeftReach(d: nat, k: nat): nat {
    if Odd(d) then Half(k + 1) else Half(k)
  }

  predicate Within(n: nat, d: nat, k: nat, x: nat) {
    ModSub(x, d, n) <= RightReach(d, k) || ModSub(d, x, n) <= LeftReach(d, k)
  }

  /** The pieces that participant d has after k exchanges, whatever else it may have. */
  ghost function Owned(n: nat, d: nat, k: nat): set<nat> {
    set x: nat | x < n && Within(n, d, k, x)
  }

  ghost function Below(n: nat): (s: set<nat>)
    ensures forall x: nat :: x in s <==> x < n
  {
    if n == 0 then {} else Below(n - 1) + {n - 1}
  }

  lemma HalvesOf(k: nat)
    ensures Half(k + 2) == Half(k) + 1 && Odd(k + 1) != Odd(k)
    ensures Half(k + 1) == if Odd(k) then Half(k) + 1 else Half(k)
    ensures 2 * Half(k) == if Odd(k) then k - 1 else k
  {
  }

  /** Both reaches together */
  lemma ReachesGrow(d: nat, k: nat)
    ensures RightReach(d, k + 1) == RightReach(d, k) + if Odd(d) == Odd(k) then 1 else 0
    ensures LeftReach(d, k + 1) == LeftReach(d, k) + if Odd(d) == Odd(k) then 0 else 1
    ensures Odd(d) == Odd(k) ==> RightReach(d, k) == Half(k)
    ensures Odd(d) != Odd(k) ==> LeftReach(d, k) == Half(k)
    ensures RightReach(d, k) + LeftReach(d, k) == k
    ensures RightReach(d, k) >= Half(k) && LeftReach(d, k) >= Half(k)
  {
    hide Odd, Half;
    HalvesOf(k);
  }

  lemma WithinGrows(n: nat, d: nat, k: nat, x: nat)
    requires n >= 2 && d < n && k + 1 < n && x < n
    ensures Within(n, d, k + 1, x) <==> Within(n, d, k, x) || x == GotPiece(n, d, k)
    ensures Within(n, d, k, SentPiece(n, d, k))
  {
    hide Odd, Half, RightReach, LeftReach;
    OddAdd(d, k);
    ReachesGrow(d, k);
  }

  /** A participant only sends what it has, an exchange adds one piece, and n - 1 exchanges give all. */
  lemma OwnedGrows(n: nat, d: nat, k: nat)
    requires n >= 2 && d < n && k + 1 < n
    ensures SentPiece(n, d, k) in Owned(n, d, k)
    ensures Owned(n, d, k + 1) == Owned(n, d, k) + {GotPiece(n, d, k)}
  {
    WithinGrows(n, d, k, d);
    forall x: nat | x < n
      ensures x in Owned(n, d, k + 1) <==> x in Owned(n, d, k) + {GotPiece(n, d, k)}
    {
      WithinGrows(n, d, k, x);
    }
  }

  lemma OwnedEnds(n: nat, d: nat)
    requires n >= 1 && d < n
    ensures Owned(n, d, 0) == {d}
    ensures Owned(n, d, n - 1) == Below(n)
  {
    assert Half(0) == Half(1) == 0;
    assert Odd(n) != Odd(n - 1);
    assert Half(n - 1) + Half(n) == n - 1;
  }

  /** The pair around the end of an odd ring: its even step at the last participant is the next odd step at 0. */
  predicate AroundFromLast(n: nat, d: nat, k: nat) {
    Odd(n) && d == n - 1 && !Odd(k)
  }

  predicate AroundFromFirst(n: nat, d: nat, k: nat) {
    Odd(n) && d == 0 && Odd(k)
  }

  /** The step in which the partner makes the same exchange. */
  function MateStep(n: nat, d: nat, k: nat): nat {
    if AroundFromLast(n, d, k) then k + 1 else if AroundFromFirst(n, d, k) then k - 1 else k
  }

  /** When the exchange happens: round the end it happens between two steps of the others. */
  function Tick(n: nat, d: nat, k: nat): int {
    if AroundFromLast(n, d, k) then 2 * k + 1 else if AroundFromFirst(n, d, k) then 2 * k - 1 else 2 * k
  }

  lemma OddSteps(n: nat)
    ensures Odd(n + 1) != Odd(n) && !Odd(0)
  {
  }

  /** The partner's number is one less or one more, or that of the other end. */
  lemma PartnerParity(n: nat, d: nat, k: nat)
    requires n >= 2 && d < n && k + 1 < n
    ensures var e, k' := Partner(n, d, k), MateStep(n, d, k);
            k' + 1 < n && Leftwards(e, k') != Leftwards(d, k) && Partner(n, e, k') == d
  {
    hide Odd;
    var e, k' := Partner(n, d, k), MateStep(n, d, k);
    OddAdd(d, k);
    OddAdd(e, k');
    OddSteps(n - 1);
    OddSteps(n - 2);
    OddSteps(d);
    OddSteps(k);
    if d > 0 { OddSteps(d - 1); }
    if k > 0 { OddSteps(k - 1); }
  }

  lemma StepsMatch(n: nat, d: nat, k: nat)
    requires n >= 2 && d < n && k + 1 < n
    ensures var e, k' := Partner(n, d, k), MateStep(n, d, k);
            && MateStep(n, e, k') == k && Tick(n, d, k) == Tick(n, e, k')
            && (|| k' == k
                || (k' == k + 1 && !Odd(k) && e == 0 && d == n - 1)
                || (k' == k - 1 && Odd(k) && e == n - 1 && d == 0))
  {
    hide Odd;
    PartnerParity(n, d, k);
    OddAdd(d, k);
    OddSteps(n - 1);
    OddSteps(k);
    if k > 0 { OddSteps(k - 1); }
  }

  lemma SentMatches(n: nat, d: nat, k: nat)
    requires n >= 2 && d < n && k + 1 < n
    ensures MateStep(n, d, k) + 1 < n
    ensures SentPiece(n, d, k) == GotPiece(n, Partner(n, d, k), MateStep(n, d, k))
  {
    hide Odd, Half, Leftwards, MateStep, Tick;
    PartnerParity(n, d, k);
    StepsMatch(n, d, k);
    HalvesOf(k);
    if k > 0 { HalvesOf(k - 1); }
  }

  /** Partners agree on who talks to whom, when, and about which piece. */
  lemma RollMatches(n: nat, d: nat, k: nat)
    requires n >= 2 && d < n && k + 1 < n
    ensures var e, k' := Partner(n, d, k), MateStep(n, d, k);
            && k' + 1 < n && Partner(n, e, k') == d && MateStep(n, e, k') == k
            && SentPiece(n, d, k) == GotPiece(n, e, k') && GotPiece(n, d, k) == SentPiece(n, e, k')
            && Tick(n, d, k) == Tick(n, e, k')
  {
    hide Odd, Half, Leftwards, MateStep, Tick, SentPiece, GotPiece, Partner;
    PartnerParity(n, d, k);
    StepsMatch(n, d, k);
    SentMatches(n, d, k);
    SentMatches(n, Partner(n, d, k), MateStep(n, d, k));
  }

  /** Participant d's k-th exchange comes before its next one. */
  lemma TicksGrow(n: nat, d: nat, k: nat)
    requires n >= 2
    ensures Tick(n, d, k) < Tick(n, d, k + 1)
  {
  }

  lemma SpreadMatches<S>(cover: (nat, nat) -> S, n: nat, d: nat, e: nat, r: nat)
    requires d < n && e < n
    ensures SpreadOp(cover, n, d, r).Post? && SpreadOp(cover, n, d, r).to == e <==>
            SpreadOp(cover, n, e, r).Recv? && SpreadOp(cover, n, e, r).from == d
    ensures SpreadOp(cover, n, d, r).Post? && SpreadOp(cover, n, d, r).to == e ==>
            SpreadOp(cover, n, d, r).sel == SpreadOp(cover, n, e, r).sel
  {
    BitLeq(e, r);
    ShiftByPow2(d, r);
    if Pow2(r) <= e {
      ShiftByPow2(e - Pow2(r), r);
    }
  }

  // ------------------------------------------------------------------------------------------------
  // The scripts of the processes
  // ------------------------------------------------------------------------------------------------

  /** Operations before the spread: the direct message of the modified form. */
  function Lead<S>(b: Bcast<S>): nat {
    if b.modified then 2 else 0
  }

  function RollStart<S>(b: Bcast<S>): nat
    requires Valid(b)
  {
    Lead(b) + 2 * b.rounds
  }

  function ScriptLength<S>(b: Bcast<S>, p: nat): nat
    requires Valid(b) && p < b.size
  {
    if Member(b, p) then RollStart(b) + 3 * (Members(b) - 1) else 2
  }

  function After<S>(op: Op<S>): Op<S> {
    if op.Post? then Wait(op.to) else Skip
  }

  /** The root sends the whole panel to its right neighbour. */
  function LeadOp<S>(b: Bcast<S>, p: nat): Op<S>
    requires Valid(b) && p < b.size
  {
    if p == b.root then Post(ModAdd1(p, b.size), b.whole)
    else if ModSub1(p, b.size) == b.root then Recv(b.root, b.whole)
    else Skip
  }

  function Renamed<S>(b: Bcast<S>, op: Op<S>): Op<S>
    requires Valid(b) && (op.Post? ==> op.to < Members(b)) && (op.Recv? ==> op.from < Members(b))
  {
    match op
    case Post(d, sel) => Post(RankOf(b, d), sel)
    case Recv(d, sel) => Recv(RankOf(b, d), sel)
    case _ => Skip
  }

  function SpreadMain<S>(b: Bcast<S>, p: nat, t: nat): Op<S>
    requires Valid(b) && p < b.size && Member(b, p) && t < b.rounds
  {
    Renamed(b, SpreadOp(b.cover, Members(b), NumberOf(b, p), b.rounds - 1 - t))
  }

  function Piece<S>(b: Bcast<S>, x: nat): S {
    b.cover(x, x + 1)
  }

  function RollOp<S>(b: Bcast<S>, p: nat, k: nat, e: nat): Op<S>
    requires Valid(b) && p < b.size && Member(b, p) && k + 1 < Members(b) && e < 3
  {
    var n, d := Members(b), NumberOf(b, p);
    var q := RankOf(b, Partner(n, d, k));
    if e == 0 then Post(q, Piece(b, SentPiece(n, d, k)))
    else if e == 1 then Recv(q, Piece(b, GotPiece(n, d, k)))
    else Wait(q)
  }

  /** Where in its script a process is. */
  datatype Phase = Leading(e: nat) | Spreading(t: nat, e: nat) | Rolling(k: nat, e: nat)

  function PhaseOf<S>(b: Bcast<S>, i: nat): Phase
    requires Valid(b)
  {
    if i < Lead(b) then Leading(i)
    else if i < RollStart(b) then Spreading(Half(i - Lead(b)), (i - Lead(b)) - 2 * Half(i - Lead(b)))
    else Rolling(Third(i - RollStart(b)), (i - RollStart(b)) - 3 * Third(i - RollStart(b)))
  }

  predicate InScript<S>(b: Bcast<S>, p: nat, ph: Phase)
    requires Valid(b) && p < b.size
  {
    match ph
    case Leading(e) => b.modified && e < 2
    case Spreading(t, e) => Member(b, p) && t < b.rounds && e < 2
    case Rolling(k, e) => Member(b, p) && k + 1 < Members(b) && e < 3
  }

  function OpIn<S>(b: Bcast<S>, p: nat, ph: Phase): Op<S>
    requires Valid(b) && p < b.size && InScript(b, p, ph)
  {
    match ph
    case Leading(e) => if e == 0 then LeadOp(b, p) else After(LeadOp(b, p))
    case Spreading(t, e) => if e == 0 then SpreadMain(b, p, t) else After(SpreadMain(b, p, t))
    case Rolling(k, e) => RollOp(b, p, k, e)
  }

  /** The phase after ph, in a script whose last round of spreading is the one before `rounds`. */
  function NextPhase(rounds: nat, ph: Phase): Phase {
    match ph
    case Leading(e) => if e == 0 then Leading(1) else if rounds == 0 then Rolling(0, 0) else Spreading(0, 0)
    case Spreading(t, e) =>
      if e == 0 then Spreading(t, 1) else if t + 1 < rounds then Spreading(t + 1, 0) else Rolling(0, 0)
    case Rolling(k, e) => if e < 2 then Rolling(k, e + 1) else Rolling(k + 1, 0)
  }

  lemma PhaseInScript<S>(b: Bcast<S>, p: nat, i: nat)
    requires Valid(b) && p < b.size && i < ScriptLength(b, p)
    ensures InScript(b, p, PhaseOf(b, i))
    ensures PhaseOf(b, i + 1) == NextPhase(b.rounds, PhaseOf(b, i))
  {
    hide Member, Members;
    PhaseFollows(b, i);
    PhaseInside(b, p, i);
  }

  lemma HalfThird(j: nat)
    ensures 2 * Half(j) <= j < 2 * Half(j) + 2 && 3 * Third(j) <= j < 3 * Third(j) + 3
    ensures j == 2 * Half(j) + 1 <==> Half(j + 1) == Half(j) + 1
    ensures j == 3 * Third(j) + 2 <==> Third(j + 1) == Third(j) + 1
    ensures j < 3 * Third(j) + 2 <==> Third(j + 1) == Third(j)
    ensures j == 2 * Half(j) <==> Half(j + 1) == Half(j)
  {
  }

  lemma PhaseFollows<S>(b: Bcast<S>, i: nat)
    requires Valid(b)
    ensures PhaseOf(b, i + 1) == NextPhase(b.rounds, PhaseOf(b, i))
  {
    hide Half, Third, Pow2;
    HalfThird(0);
    if i >= RollStart(b) {
      HalfThird(i - RollStart(b));
    } else if i >= Lead(b) {
      HalfThird(i - Lead(b));
    }
    ZeroParts();
  }

  lemma ZeroParts()
    ensures Half(0) == 0 && Third(0) == 0
  {
  }

  lemma PhaseInside<S>(b: Bcast<S>, p: nat, i: nat)
    requires Valid(b) && p < b.size && i < ScriptLength(b, p)
    ensures InScript(b, p, PhaseOf(b, i))
  {
    hide Half, Third, Pow2;
    if i >= RollStart(b) {
      HalfThird(i - RollStart(b));
    } else if i >= Lead(b) {
      HalfThird(i - Lead(b));
    }
  }

  function OpAt<S>(b: Bcast<S>, p: nat, i: nat): Op<S>
    requires Valid(b) && p < b.size && i < ScriptLength(b, p)
  {
    PhaseInScript(b, p, i);
    OpIn(b, p, PhaseOf(b, i))
  }

  function Script<S>(b: Bcast<S>, p: nat): seq<Op<S>>
    requires Valid(b) && p < b.size
  {
    seq(ScriptLength(b, p), i requires 0 <= i < ScriptLength(b, p) => OpAt(b, p, i))
  }

  function Scripts<S>(b: Bcast<S>): seq<seq<Op<S>>>
    requires Valid(b)
  {
    seq(b.size, p requires 0 <= p < b.size => Script(b, p))
  }

  // ------------------------------------------------------------------------------------------------
  // Sends and receives match
  // ------------------------------------------------------------------------------------------------

  function MateAt<S>(b: Bcast<S>, p: nat, i: nat): nat {
    if Valid(b) && p < b.size && RollStart(b) <= i < ScriptLength(b, p) && Member(b, p) then
      var k := Third(i - RollStart(b));
      var k' := MateStep(Members(b), NumberOf(b, p), k);
      RollStart(b) + 3 * k' + if i - RollStart(b) == 3 * k then 1 else 0
    else i
  }

  function TimeAt<S>(b: Bcast<S>, p: nat, i: nat): int {
    if Valid(b) && p < b.size && i < ScriptLength(b, p) then
      if i < RollStart(b) then
        3 * Half(i) + if Odd(i) then 2 else if OpAt(b, p, i).Recv? then 1 else 0
      else
        var k := Third(i - RollStart(b));
        3 * Half(RollStart(b)) + 3 * Tick(Members(b), NumberOf(b, p), k) + (i - RollStart(b)) - 3 * k
    else 0
  }

  function PlanOf<S>(b: Bcast<S>): Plan {
    Plan((p: nat, i: nat) => MateAt(b, p, i), (p: nat, i: nat) => TimeAt(b, p, i))
  }

  lemma LeadMatches<S>(b: Bcast<S>, p: nat, q: nat)
    requires Valid(b) && b.modified && p < b.size && q < b.size
    ensures LeadOp(b, p).Post? && LeadOp(b, p).to == q <==> LeadOp(b, q).Recv? && LeadOp(b, q).from == p
    ensures LeadOp(b, p).Post? ==> LeadOp(b, p).to < b.size
  {
  }

  lemma SpreadMainMatches<S>(b: Bcast<S>, p: nat, q: nat, t: nat)
    requires Valid(b) && p < b.size && q < b.size && Member(b, p) && Member(b, q) && t < b.rounds
    ensures SpreadMain(b, p, t).Post? && SpreadMain(b, p, t).to == q <==>
              SpreadMain(b, q, t).Recv? && SpreadMain(b, q, t).from == p
    ensures SpreadMain(b, p, t).Post? && SpreadMain(b, p, t).to == q ==>
              SpreadMain(b, p, t).sel == SpreadMain(b, q, t).sel
  {
    SpreadMatches(b.cover, Members(b), NumberOf(b, p), NumberOf(b, q), b.rounds - 1 - t);
    RankOfNumber(b, p);
    RankOfNumber(b, q);
  }

  lemma SpreadPartner<S>(b: Bcast<S>, p: nat, t: nat)
    requires Valid(b) && p < b.size && Member(b, p) && t < b.rounds
    ensures SpreadMain(b, p, t).Post? ==> SpreadMain(b, p, t).to < b.size && Member(b, SpreadMain(b, p, t).to)
    ensures SpreadMain(b, p, t).Recv? ==> SpreadMain(b, p, t).from < b.size && Member(b, SpreadMain(b, p, t).from)
  {
  }

  /** Same index, one sends and the other receives: enough to be paired in the first two phases. */
  lemma EarlyTimes<S>(b: Bcast<S>, p: nat, q: nat, i: nat)
    requires Valid(b) && p < b.size && q < b.size && i < RollStart(b)
    requires i < ScriptLength(b, p) && i < ScriptLength(b, q) && !Odd(i)
    requires OpAt(b, p, i).Post? && OpAt(b, q, i).Recv?
    ensures MateAt(b, p, i) == i == MateAt(b, q, i) && TimeAt(b, q, i) == TimeAt(b, p, i) + 1
  {
  }

  lemma EarlySendTaken<S>(b: Bcast<S>, p: nat, i: nat)
    requires Valid(b) && p < b.size && i < ScriptLength(b, p) && i < RollStart(b) && OpAt(b, p, i).Post?
    ensures var q := OpAt(b, p, i).to;
            && !Odd(i) && q < b.size && i < ScriptLength(b, q)
            && OpAt(b, q, i) == Recv(p, OpAt(b, p, i).sel)
  {
    var q := OpAt(b, p, i).to;
    if i < Lead(b) {
      LeadMatches(b, p, q);
    } else {
      SpreadPartner(b, p, Half(i - Lead(b)));
      SpreadMainMatches(b, p, q, Half(i - Lead(b)));
    }
  }

  lemma EarlyRecvSent<S>(b: Bcast<S>, p: nat, i: nat)
    requires Valid(b) && p < b.size && i < ScriptLength(b, p) && i < RollStart(b) && OpAt(b, p, i).Recv?
    ensures var q := OpAt(b, p, i).from;
            && !Odd(i) && q < b.size && i < ScriptLength(b, q)
            && OpAt(b, q, i) == Post(p, OpAt(b, p, i).sel)
  {
    var q := OpAt(b, p, i).from;
    if i < Lead(b) {
      LeadMatches(b, q, p);
    } else {
      SpreadPartner(b, p, Half(i - Lead(b)));
      SpreadMainMatches(b, q, p, Half(i - Lead(b)));
    }
  }

  /** In the roll, p's exchange in step k is its partner's in step k'. */
  lemma RollPaired<S>(b: Bcast<S>, p: nat, k: nat) returns (q: nat, k': nat, sent: S, got: S)
    requires Valid(b) && p < b.size && Member(b, p) && k + 1 < Members(b)
    ensures q < b.size && Member(b, q) && k' + 1 < Members(b)
    ensures RollOp(b, p, k, 0) == Post(q, sent) && RollOp(b, p, k, 1) == Recv(q, got)
    ensures RollOp(b, q, k', 0) == Post(p, got) && RollOp(b, q, k', 1) == Recv(p, sent)
    ensures MateStep(Members(b), NumberOf(b, p), k) == k' && MateStep(Members(b), NumberOf(b, q), k') == k
    ensures Tick(Members(b), NumberOf(b, q), k') == Tick(Members(b), NumberOf(b, p), k)
  {
    var n, d := Members(b), NumberOf(b, p);
    RollMatches(n, d, k);
    RankOfNumber(b, p);
    q, k' := RankOf(b, Partner(n, d, k)), MateStep(n, d, k);
    sent, got := Piece(b, SentPiece(n, d, k)), Piece(b, GotPiece(n, d, k));
  }

  /** Operation e of step k of the roll, found by its index. */
  lemma RollIndex<S>(b: Bcast<S>, p: nat, k: nat, e: nat)
    requires Valid(b) && p < b.size && Member(b, p) && k + 1 < Members(b) && e < 3
    ensures var i := RollStart(b) + 3 * k + e;
            && i < ScriptLength(b, p) && OpAt(b, p, i) == RollOp(b, p, k, e)
            && TimeAt(b, p, i) == 3 * (Half(RollStart(b))) + 3 * Tick(Members(b), NumberOf(b, p), k) + e
            && (e == 0 ==> MateAt(b, p, i) == RollStart(b) + 3 * MateStep(Members(b), NumberOf(b, p), k) + 1)
            && (e == 1 ==> MateAt(b, p, i) == RollStart(b) + 3 * MateStep(Members(b), NumberOf(b, p), k))
  {
    hide Half, Tick, MateStep, NumberOf, Partner, SentPiece, GotPiece, RankOf;
    var i := RollStart(b) + 3 * k + e;
    assert Third(i - RollStart(b)) == k;
  }

  /** The same with the operations' indices. */
  lemma RollSendPaired<S>(b: Bcast<S>, p: nat, k: nat) returns (q: nat, j: nat, sent: S)
    requires Valid(b) && p < b.size && Member(b, p) && k + 1 < Members(b)
    ensures var i := RollStart(b) + 3 * k;
            && i < ScriptLength(b, p) && OpAt(b, p, i) == Post(q, sent) && MateAt(b, p, i) == j
            && q < b.size && j < ScriptLength(b, q) && OpAt(b, q, j) == Recv(p, sent)
            && MateAt(b, q, j) == i && TimeAt(b, q, j) == TimeAt(b, p, i) + 1
  {
    hide RollOp, MateStep, Tick, NumberOf;
    var k', got;
    q, k', sent, got := RollPaired(b, p, k);
    j := RollStart(b) + 3 * k' + 1;
    RollIndex(b, p, k, 0);
    RollIndex(b, q, k', 1);
  }

  lemma RollRecvPaired<S>(b: Bcast<S>, p: nat, k: nat) returns (q: nat, j: nat, got: S)
    requires Valid(b) && p < b.size && Member(b, p) && k + 1 < Members(b)
    ensures var i := RollStart(b) + 3 * k + 1;
            && i < ScriptLength(b, p) && OpAt(b, p, i) == Recv(q, got) && MateAt(b, p, i) == j
            && q < b.size && j < ScriptLength(b, q) && OpAt(b, q, j) == Post(p, got)
            && MateAt(b, q, j) == i && TimeAt(b, p, i) == TimeAt(b, q, j) + 1
  {
    hide RollOp, MateStep, Tick, NumberOf;
    var k', sent;
    q, k', sent, got := RollPaired(b, p, k);
    j := RollStart(b) + 3 * k';
    RollIndex(b, p, k, 1);
    RollIndex(b, q, k', 0);
  }

  lemma RollKind<S>(b: Bcast<S>, p: nat, i: nat)
    requires Valid(b) && p < b.size && RollStart(b) <= i < ScriptLength(b, p)
    ensures Member(b, p) && Third(i - RollStart(b)) + 1 < Members(b)
    ensures OpAt(b, p, i).Post? ==> i == RollStart(b) + 3 * Third(i - RollStart(b))
    ensures OpAt(b, p, i).Recv? ==> i == RollStart(b) + 3 * Third(i - RollStart(b)) + 1
  {
  }

  lemma SendPaired<S>(b: Bcast<S>, p: nat, i: nat)
    requires Valid(b) && p < b.size && i < ScriptLength(b, p) && OpAt(b, p, i).Post?
    ensures var q := OpAt(b, p, i).to;
            var j := MateAt(b, p, i);
            && q < b.size && j < ScriptLength(b, q) && OpAt(b, q, j) == Recv(p, OpAt(b, p, i).sel)
            && MateAt(b, q, j) == i && TimeAt(b, q, j) == TimeAt(b, p, i) + 1
  {
    hide RollOp, MateAt, TimeAt, Lead, RollStart;
    if i < RollStart(b) {
      EarlySendTaken(b, p, i);
      EarlyTimes(b, p, OpAt(b, p, i).to, i);
    } else {
      RollKind(b, p, i);
      var q, j, sent := RollSendPaired(b, p, Third(i - RollStart(b)));
    }
  }

  lemma RecvPaired<S>(b: Bcast<S>, p: nat, i: nat)
    requires Valid(b) && p < b.size && i < ScriptLength(b, p) && OpAt(b, p, i).Recv?
    ensures var q := OpAt(b, p, i).from;
            var j := MateAt(b, p, i);
            && q < b.size && j < ScriptLength(b, q) && OpAt(b, q, j) == Post(p, OpAt(b, p, i).sel)
            && MateAt(b, q, j) == i && TimeAt(b, p, i) == TimeAt(b, q, j) + 1
  {
    hide RollOp, MateAt, TimeAt, Lead, RollStart;
    if i < RollStart(b) {
      EarlyRecvSent(b, p, i);
      EarlyTimes(b, OpAt(b, p, i).from, p, i);
    } else {
      RollKind(b, p, i);
      var q, j, got := RollRecvPaired(b, p, Third(i - RollStart(b)));
    }
  }

  lemma NextLaterEarly<S>(b: Bcast<S>, p: nat, i: nat)
    requires Valid(b) && p < b.size && i + 1 < ScriptLength(b, p) && i < RollStart(b)
    ensures i + 1 < RollStart(b) ==> TimeAt(b, p, i) < TimeAt(b, p, i + 1)
    ensures i + 1 < RollStart(b) && OpAt(b, p, i).Post? ==> TimeAt(b, p, i) + 1 < TimeAt(b, p, i + 1)
    ensures TimeAt(b, p, i) < 3 * (Half(RollStart(b)))
  {
    var h, x, y := Half(RollStart(b)), Half(i), Half(i + 1);
    assert !Odd(RollStart(b)) && Odd(i + 1) != Odd(i);
    if i >= Lead(b) {
      var j: nat := i - Lead(b);
      var z := Half(j);
      assert Odd(i) == Odd(j);
    }
  }

  /** Inside a step the times go up by one. */
  lemma NextLaterStep<S>(b: Bcast<S>, p: nat, k: nat, e: nat)
    requires Valid(b) && p < b.size && Member(b, p) && k + 1 < Members(b) && 0 < e < 3
    ensures var i := RollStart(b) + 3 * k + e;
            i < ScriptLength(b, p) && TimeAt(b, p, i - 1) < TimeAt(b, p, i)
            && (!OpAt(b, p, i - 1).Post? || !OpAt(b, p, i).Wait?)
  {
    hide Tick, NumberOf, Third, Half, TimeAt, OpAt, MateAt, MateStep, Partner, SentPiece, GotPiece, RankOf;
    RollIndex(b, p, k, e);
    RollIndex(b, p, k, e - 1);
  }

  /** And from one step to the next they go up, too. */
  lemma NextLaterTurn<S>(b: Bcast<S>, p: nat, k: nat)
    requires Valid(b) && p < b.size && Member(b, p) && 0 < k && k + 1 < Members(b)
    ensures var i := RollStart(b) + 3 * k;
            i < ScriptLength(b, p) && TimeAt(b, p, i - 1) < TimeAt(b, p, i)
            && (!OpAt(b, p, i - 1).Post? || !OpAt(b, p, i).Wait?)
  {
    hide Tick, NumberOf, Third, Half, TimeAt, OpAt, MateAt, MateStep, Partner, SentPiece, GotPiece, RankOf;
    RollIndex(b, p, k, 0);
    RollIndex(b, p, k - 1, 2);
    TicksGrow(Members(b), NumberOf(b, p), k - 1);
  }

  lemma NextLaterRoll<S>(b: Bcast<S>, p: nat, i: nat)
    requires Valid(b) && p < b.size && i + 1 < ScriptLength(b, p) && RollStart(b) <= i
    ensures TimeAt(b, p, i) < TimeAt(b, p, i + 1)
    ensures !OpAt(b, p, i).Post? || !OpAt(b, p, i + 1).Wait?
  {
    hide TimeAt, OpAt;
    var k, e := Third(i + 1 - RollStart(b)), (i + 1 - RollStart(b)) - 3 * Third(i + 1 - RollStart(b));
    if e > 0 {
      NextLaterStep(b, p, k, e);
    } else {
      NextLaterTurn(b, p, k);
    }
  }

  lemma NextLater<S>(b: Bcast<S>, p: nat, i: nat)
    requires Valid(b) && p < b.size && i + 1 < ScriptLength(b, p)
    ensures TimeAt(b, p, i) < TimeAt(b, p, i + 1)
    ensures OpAt(b, p, i).Post? && OpAt(b, p, i + 1).Wait? ==> TimeAt(b, p, i) + 1 < TimeAt(b, p, i + 1)
  {
    if i < RollStart(b) {
      NextLaterEarly(b, p, i);
      if i + 1 == RollStart(b) {
        RollIndex(b, p, 0, 0);
      }
    } else {
      NextLaterRoll(b, p, i);
    }
  }

  lemma WaitTarget<S>(b: Bcast<S>, p: nat, i: nat)
    requires Valid(b) && p < b.size && i < ScriptLength(b, p) && OpAt(b, p, i).Wait?
    ensures OpAt(b, p, i).to < b.size
  {
    if i < Lead(b) {
      LeadMatches(b, p, b.root);
    } else if i < RollStart(b) {
      SpreadPartner(b, p, Half(i - Lead(b)));
    }
  }

  lemma AllSendsTaken<S(!new)>(b: Bcast<S>)
    requires Valid(b)
    ensures SendsTaken(Scripts(b), PlanOf(b))
  {
    var scripts, plan := Scripts(b), PlanOf(b);
    forall p: nat, i: nat, q: nat | PostsTo(scripts, p, i, q)
      ensures TightPair(scripts, plan, p, i, q, plan.mate(p, i))
    {
      assert scripts[p][i] == OpAt(b, p, i);
      SendPaired(b, p, i);
      assert scripts[q][MateAt(b, p, i)] == OpAt(b, q, MateAt(b, p, i));
    }
  }

  lemma AllRecvsSent<S(!new)>(b: Bcast<S>)
    requires Valid(b)
    ensures RecvsSent(Scripts(b), PlanOf(b))
  {
    var scripts, plan := Scripts(b), PlanOf(b);
    forall p: nat, i: nat, q: nat | RecvsFrom(scripts, p, i, q)
      ensures TightPair(scripts, plan, q, plan.mate(p, i), p, i)
    {
      assert scripts[p][i] == OpAt(b, p, i);
      RecvPaired(b, p, i);
      assert scripts[q][MateAt(b, p, i)] == OpAt(b, q, MateAt(b, p, i));
    }
  }

  lemma AllWaitsLater<S(!new)>(b: Bcast<S>)
    requires Valid(b)
    ensures WaitsLater(Scripts(b), PlanOf(b))
  {
    var scripts, plan := Scripts(b), PlanOf(b);
    forall p: nat, i: nat, q: nat | WaitsFor(scripts, p, i, q)
      ensures q < |scripts| && (i > 0 && PostsTo(scripts, p, i - 1, q) ==> plan.time(p, i - 1) + 1 < plan.time(p, i))
    {
      assert scripts[p][i] == OpAt(b, p, i);
      WaitTarget(b, p, i);
      if i > 0 {
        assert scripts[p][i - 1] == OpAt(b, p, i - 1);
        NextLater(b, p, i - 1);
      }
    }
  }

  lemma AllTimesGrow<S(!new)>(b: Bcast<S>)
    requires Valid(b)
    ensures TimesGrow(Scripts(b), PlanOf(b))
  {
    var scripts, plan := Scripts(b), PlanOf(b);
    forall p: nat, i: nat | p < |scripts| && i + 1 < |scripts[p]|
      ensures plan.time(p, i) < plan.time(p, i + 1)
    {
      NextLater(b, p, i);
    }
  }

  /** Every send has one matching receive and back, with the same region, and there is an order in which every
      message is taken as soon as it is sent. */
  lemma SpreadRollPlanned<S(!new)>(b: Bcast<S>)
    requires Valid(b)
    ensures WellPlanned(Scripts(b), PlanOf(b))
  {
    AllSendsTaken(b);
    AllRecvsSent(b);
    AllWaitsLater(b);
    AllTimesGrow(b);
    TightIsWellPlanned(Scripts(b), PlanOf(b));
  }
}
