/**
  The ring broadcasts of HPL: HPL_bcast_1ring, HPL_bcast_1rinM, HPL_bcast_2ring and HPL_bcast_2rinM.

  A process other than the root probes for the message; as long as it is not there the call returns
  HPL_KEEP_TESTING and is made again.  A send is Post and Wait, as in module MessagePassing.
 */
module Rings {
  import opened Arith
  import opened Grid
  import opened MessagePassing
  import opened Options

  datatype Topology = OneRing | OneRingM | TwoRing | TwoRingM

  datatype Flag = Success | KeepTesting

  /** The messages carry the whole panel. */
  datatype Panel = Panel

  datatype Ring = Ring(top: Topology, size: nat, root: nat)

  predicate Valid(r: Ring) {
    r.size >= 2 && r.root < r.size
  }

  // ------------------------------------------------------------------------------------------------
  // The tree of a topology, in distances from the root
  // ------------------------------------------------------------------------------------------------

  /** Where the second ring starts. */
  function Middle(n: nat): nat {
    Half(n + 1)
  }

  /** Who process c gets the panel from. */
  function Parent(top: Topology, n: nat, c: nat): nat
    requires 0 < c
  {
    match top
    case OneRing => c - 1
    case OneRingM => if c <= 2 then 0 else c - 1
    case TwoRing => if c == 1 || c == Middle(n) then 0 else c - 1
    case TwoRingM => if c <= 2 || c == Middle(n) then 0 else c - 1
  }

  /** Whom process d sends the panel to, in this order. */
  function Sends(top: Topology, n: nat, d: nat): seq<nat>
    requires n >= 2
  {
    if d == 0 then
      if top == OneRing || n == 2 then [1]
      else if top == OneRingM then [1, 2]
      else if top == TwoRing || Middle(n) == 2 then [1, Middle(n)]
      else [1, 2, Middle(n)]
    else if d + 1 >= n then []
    else if (top == OneRingM || top == TwoRingM) && d == 1 then []
    else if (top == TwoRing || top == TwoRingM) && d + 1 == Middle(n) then []
    else [d + 1]
  }

  /** The place of process c among those its parent sends to. */
  function Slot(top: Topology, n: nat, c: nat): nat
    requires 0 < c
  {
    match top
    case OneRing => 0
    case OneRingM => if c == 2 then 1 else 0
    case TwoRing => if c != 1 && c == Middle(n) then 1 else 0
    case TwoRingM => if c == 1 then 0 else if c == 2 then 1 else if c == Middle(n) then 2 else 0
  }

  /** Every process but the root is sent to exactly once, by its parent. */
  lemma SentOnce(top: Topology, n: nat, c: nat)
    requires n >= 2 && 0 < c < n
    ensures Parent(top, n, c) < c
    ensures var s := Sends(top, n, Parent(top, n, c)); Slot(top, n, c) < |s| && s[Slot(top, n, c)] == c
    ensures forall d: nat, k: nat :: d < n && k < |Sends(top, n, d)| && Sends(top, n, d)[k] == c ==>
              d == Parent(top, n, c) && k == Slot(top, n, c)
  {
  }

  lemma SendsInRange(top: Topology, n: nat, d: nat, k: nat)
    requires n >= 2 && d < n && k < |Sends(top, n, d)|
    ensures 0 < Sends(top, n, d)[k] < n
  {
  }

  /** The root and the processes from, ..., to - 1 in a row, each of which passes the panel on to the next. */
  datatype Chain = Chain(from: nat, to: nat)

  predicate PassesOn(ch: Chain, d: nat, c: nat) {
    ch.from <= c < ch.to && d == if c == ch.from then 0 else c - 1
  }

  /** The rings of a topology: the first neighbour has one of its own in the modified ones, and two rings have half of
      the processes each. */
  function ChainsOf(top: Topology, n: nat): seq<Chain> {
    var middle := (n + 1) / 2;
    match top
    case OneRing => [Chain(1, n)]
    case OneRingM => [Chain(1, 2), Chain(2, n)]
    case TwoRing => [Chain(1, middle), Chain(middle, n)]
    case TwoRingM => [Chain(1, 2), Chain(2, middle), Chain(middle, n)]
  }

  /** A process sends to those that come after it in a ring, the root in the order of its rings. */
  lemma SendsAlongRings(top: Topology, n: nat, d: nat, c: nat)
    requires n >= 2 && d < n && 0 < c < n
    ensures c in Sends(top, n, d) <==> exists i :: 0 <= i < |ChainsOf(top, n)| && PassesOn(ChainsOf(top, n)[i], d, c)
    ensures Increasing(Sends(top, n, d)) && (d > 0 ==> |Sends(top, n, d)| <= 1)
  {
    HalfIsHalf(n + 1);
    var chains := ChainsOf(top, n);
    assert PassesOn(chains[0], d, c) || !PassesOn(chains[0], d, c);
    if |chains| > 1 {
      assert PassesOn(chains[1], d, c) || !PassesOn(chains[1], d, c);
    }
    if |chains| > 2 {
      assert PassesOn(chains[2], d, c) || !PassesOn(chains[2], d, c);
    }
  }

  // ------------------------------------------------------------------------------------------------
  // The scripts of the processes
  // ------------------------------------------------------------------------------------------------

  function Distance(r: Ring, p: nat): (d: nat)
    requires Valid(r) && p < r.size
    ensures d < r.size
  {
    ModSub(p, r.root, r.size)
  }

  function RankOf(r: Ring, d: nat): (p: nat)
    requires Valid(r) && d < r.size
    ensures p < r.size && Distance(r, p) == d
  {
    ModAdd(r.root, d, r.size)
  }

  /** The operations before a process's first send. */
  function Lead(d: nat): nat {
    if d == 0 then 0 else 1
  }

  function ScriptLength(r: Ring, p: nat): nat
    requires Valid(r) && p < r.size
  {
    Lead(Distance(r, p)) + 2 * |Sends(r.top, r.size, Distance(r, p))|
  }

  function OpAt(r: Ring, p: nat, i: nat): Op<Panel>
    requires Valid(r) && p < r.size && i < ScriptLength(r, p)
  {
    var d := Distance(r, p);
    if i < Lead(d) then
      SentOnce(r.top, r.size, d);
      Recv(RankOf(r, Parent(r.top, r.size, d)), Panel)
    else
      var j := i - Lead(d);
      SendsInRange(r.top, r.size, d, Half(j));
      var q := RankOf(r, Sends(r.top, r.size, d)[Half(j)]);
      if Odd(j) then Wait(q) else Post(q, Panel)
  }

  function Script(r: Ring, p: nat): seq<Op<Panel>>
    requires Valid(r) && p < r.size
  {
    seq(ScriptLength(r, p), i requires 0 <= i < ScriptLength(r, p) => OpAt(r, p, i))
  }

  function SendTo(r: Ring, d: nat): seq<Op<Panel>>
    requires Valid(r) && d < r.size
  {
    [Post(RankOf(r, d), Panel), Wait(RankOf(r, d))]
  }

  /** A script at its beginning and at each of its sends */
  lemma ScriptParts(r: Ring, p: nat, k: nat)
    requires Valid(r) && p < r.size && k < |Sends(r.top, r.size, Distance(r, p))|
    ensures var d, s := Distance(r, p), Script(r, p);
            var c := Sends(r.top, r.size, d)[k];
            && |s| == ScriptLength(r, p) && c < r.size
            && s[Lead(d) + 2 * k] == Post(RankOf(r, c), Panel) && s[Lead(d) + 2 * k + 1] == Wait(RankOf(r, c))
  {
    hide Sends, Parent, RankOf, Distance;
    SendsInRange(r.top, r.size, Distance(r, p), k);
    HalfOfDouble(k);
  }

  lemma HalfOfDouble(k: nat)
    ensures Half(2 * k) == k && !Odd(2 * k) && Half(2 * k + 1) == k && Odd(2 * k + 1)
  {
  }

  lemma ScriptLead(r: Ring, p: nat)
    requires Valid(r) && p < r.size && Distance(r, p) > 0
    ensures Distance(r, p) < r.size && Parent(r.top, r.size, Distance(r, p)) < r.size
    ensures |Script(r, p)| >= 1 && Script(r, p)[0] == Recv(RankOf(r, Parent(r.top, r.size, Distance(r, p))), Panel)
  {
    hide Sends, Parent, Slot;
    SentOnce(r.top, r.size, Distance(r, p));
  }

  /** A script written out: at most one receive and three sends. */
  lemma ScriptForm(r: Ring, p: nat)
    requires Valid(r) && p < r.size
    ensures var d := Distance(r, p);
            var s := Sends(r.top, r.size, d);
            && (forall k :: 0 <= k < |s| ==> s[k] < r.size)
            && (d > 0 ==> Parent(r.top, r.size, d) < r.size)
            && var lead := if d == 0 then [] else [Recv(RankOf(r, Parent(r.top, r.size, d)), Panel)];
            && (|s| == 0 ==> Script(r, p) == lead)
            && (|s| == 1 ==> Script(r, p) == lead + SendTo(r, s[0]))
            && (|s| == 2 ==> Script(r, p) == lead + SendTo(r, s[0]) + SendTo(r, s[1]))
            && (|s| == 3 ==> Script(r, p) == lead + SendTo(r, s[0]) + SendTo(r, s[1]) + SendTo(r, s[2]))
  {
    hide Sends, Parent, RankOf, Distance, OpAt;
    var d := Distance(r, p);
    if d > 0 {
      ScriptLead(r, p);
    }
    forall k: nat | k < |Sends(r.top, r.size, d)|
      ensures Sends(r.top, r.size, d)[k] < r.size
    {
      ScriptParts(r, p, k);
    }
    if |Sends(r.top, r.size, d)| > 0 { ScriptParts(r, p, 0); }
    if |Sends(r.top, r.size, d)| > 1 { ScriptParts(r, p, 1); }
    if |Sends(r.top, r.size, d)| > 2 { ScriptParts(r, p, 2); }
  }

  function Scripts(r: Ring): seq<seq<Op<Panel>>>
    requires Valid(r)
  {
    seq(r.size, p requires 0 <= p < r.size => Script(r, p))
  }

  /** Processes that send and receive whole panels */
  function Passing<V>(scripts: seq<seq<Op<Panel>>>): System<Panel, V, V> {
    System(scripts, (m: V, u: Panel) => m, (m: V, u: Panel, d: V) => d)
  }

  function SystemOf<V>(r: Ring): System<Panel, V, V>
    requires Valid(r)
  {
    Passing(Scripts(r))
  }

  // ------------------------------------------------------------------------------------------------
  // The code: what one call does, `probed` being the process that MPI_Iprobe asks about and `go` its answer
  // ------------------------------------------------------------------------------------------------

  /** A process other than the root probes for the message of its parent. */
  function Probes(r: Ring, p: nat): Option<nat>
    requires Valid(r) && p < r.size
  {
    var d := Distance(r, p);
    if d == 0 then None
    else
      SentOnce(r.top, r.size, d);
      Some(RankOf(r, Parent(r.top, r.size, d)))
  }

  lemma ProbesParent(r: Ring, p: nat)
    requires Valid(r) && p < r.size
    ensures p == r.root <==> Probes(r, p).None?
    ensures p != r.root ==>
              |Script(r, p)| > 0 && Script(r, p)[0].Recv? && Probes(r, p) == Some(Script(r, p)[0].from)
  {
    hide Sends, Parent, Slot;
    if p != r.root {
      ScriptLead(r, p);
    }
  }

  /** A call either changes nothing and asks to be made again, or makes all of the process's calls. */
  ghost predicate CallDoes(r: Ring, p: nat, probed: Option<nat>, go: bool, flag: Flag, ops: seq<Op<Panel>>) {
    if r.size <= 1 then flag == Success && ops == [] && probed == None
    else
      && Valid(r) && p < r.size && probed == Probes(r, p)
      && if p == r.root || go then flag == Success && ops == Script(r, p) else flag == KeepTesting && ops == []
  }

  method OneRingCall(rank: nat, root: nat, size: nat, go: bool)
    returns (probed: Option<nat>, flag: Flag, ops: seq<Op<Panel>>)
    requires rank < size && root < size
    ensures CallDoes(Ring(OneRing, size, root), rank, probed, go, flag, ops)
  {
    hide OpAt, Script, Probes;
    probed, flag, ops := None, Success, [];
    if size <= 1 { return; }
    ScriptForm(Ring(OneRing, size, root), rank);
    ProbesParent(Ring(OneRing, size, root), rank);
    if rank == root {
      var next := ModAdd1(rank, size);
      ops := [Post(next, Panel), Wait(next)];
    } else {
      var prev := ModSub1(rank, size);
      probed := Some(prev);
      if go {
        ops := [Recv(prev, Panel)];
        var next := ModAdd1(rank, size);
        if next != root {
          ops := ops + [Post(next, Panel), Wait(next)];
        }
      } else {
        flag := KeepTesting;
      }
    }
  }

  method OneRingMCall(rank: nat, root: nat, size: nat, go: bool)
    returns (probed: Option<nat>, flag: Flag, ops: seq<Op<Panel>>)
    requires rank < size && root < size
    ensures CallDoes(Ring(OneRingM, size, root), rank, probed, go, flag, ops)
  {
    hide OpAt, Script, Probes;
    probed, flag, ops := None, Success, [];
    if size <= 1 { return; }
    ScriptForm(Ring(OneRingM, size, root), rank);
    ProbesParent(Ring(OneRingM, size, root), rank);
    var next := ModAdd1(rank, size);
    if rank == root {
      ops := [Post(next, Panel), Wait(next)];
      if size > 2 {
        ops := ops + [Post(ModAdd1(next, size), Panel), Wait(ModAdd1(next, size))];
      }
    } else {
      var prev := ModSub1(rank, size);
      var partner := if size > 2 && ModSub1(prev, size) == root then root else prev;
      probed := Some(partner);
      if go {
        ops := [Recv(partner, Panel)];
        if prev != root && next != root {
          ops := ops + [Post(next, Panel), Wait(next)];
        }
      } else {
        flag := KeepTesting;
      }
    }
  }

  /** The process's neighbours, by their distance from the root. */
  lemma NeighboursOf(r: Ring, p: nat)
    requires Valid(r) && p < r.size
    ensures var d := Distance(r, p);
            && d < r.size && p == RankOf(r, d) && r.root == RankOf(r, 0)
            && ModAdd1(p, r.size) == RankOf(r, if d + 1 < r.size then d + 1 else 0)
            && ModSub1(p, r.size) == RankOf(r, if d > 0 then d - 1 else r.size - 1)
  {
  }

  lemma RankIs(r: Ring, x: nat)
    requires Valid(r) && x < r.size
    ensures ModAdd(r.root, x, r.size) == RankOf(r, x)
  {
  }

  lemma SameRank(r: Ring, x: nat, y: nat)
    requires Valid(r) && x < r.size && y < r.size
    ensures RankOf(r, x) == RankOf(r, y) <==> x == y
  {
    hide ModAdd, ModSub;
    var p, q := RankOf(r, x), RankOf(r, y);
  }

  lemma AllRanks(r: Ring)
    requires Valid(r)
    ensures forall x: nat, y: nat :: x < r.size && y < r.size ==> (RankOf(r, x) == RankOf(r, y) <==> x == y)
  {
    hide RankOf;
    forall x: nat, y: nat | x < r.size && y < r.size
      ensures RankOf(r, x) == RankOf(r, y) <==> x == y
    {
      SameRank(r, x, y);
    }
  }

  lemma MiddleOf(n: nat)
    requires n >= 2
    ensures 0 < Middle(n) < n && (n > 3 ==> Middle(n) >= 2) && (n <= 4 <==> Middle(n) <= 2)
    ensures n == 2 <==> Middle(n) == 1
  {
  }

  /** The process where the second ring starts. */
  method SecondRoot(root: nat, size: nat) returns (roo2: nat)
    requires root < size && size >= 2
    ensures roo2 == ModAdd(root, Middle(size), size)
  {
    hide Half;
    roo2 := (size + 1) / 2;
    HalfIsHalf(size + 1);
    roo2 := ModAdd(root, roo2, size);
  }

  method TwoRingCall(rank: nat, root: nat, size: nat, go: bool)
    returns (probed: Option<nat>, flag: Flag, ops: seq<Op<Panel>>)
    requires rank < size && root < size
    ensures CallDoes(Ring(TwoRing, size, root), rank, probed, go, flag, ops)
  {
    hide OpAt, Script, Probes, Half, Middle, ModAdd, ModAdd1, ModSub1, ModSub, RankOf, Distance;
    probed, flag, ops := None, Success, [];
    if size <= 1 { return; }
    ghost var r := Ring(TwoRing, size, root);
    ScriptForm(r, rank);
    ProbesParent(r, rank);
    NeighboursOf(r, rank);
    AllRanks(r);
    MiddleOf(size);
    RankIs(r, Middle(size));
    var next := ModAdd1(rank, size);
    var roo2 := SecondRoot(root, size);
    if rank == root {
      ops := [Post(next, Panel), Wait(next)];
      if size > 2 {
        ops := ops + [Post(roo2, Panel), Wait(roo2)];
      }
    } else {
      var partner := ModSub1(rank, size);
      if partner == root || rank == roo2 { partner := root; }
      probed := Some(partner);
      if go {
        ops := [Recv(partner, Panel)];
        if next != roo2 && next != root {
          ops := ops + [Post(next, Panel), Wait(next)];
        }
      } else {
        flag := KeepTesting;
      }
    }
  }

  /** The root's part of it. */
  method TwoRingMRoot(root: nat, size: nat) returns (ops: seq<Op<Panel>>)
    requires root < size && size >= 2
    ensures ops == Script(Ring(TwoRingM, size, root), root)
  {
    hide OpAt, Script, Probes, Half, Middle, ModAdd, ModAdd1, ModSub1, ModSub, RankOf, Distance;
    ghost var r := Ring(TwoRingM, size, root);
    ScriptForm(r, root);
    NeighboursOf(r, root);
    AllRanks(r);
    MiddleOf(size);
    RankIs(r, Middle(size));
    var next := ModAdd1(root, size);
    var roo2 := SecondRoot(root, size);
    NeighboursOf(r, next);
    ops := [Post(next, Panel), Wait(next)];
    if size > 2 {
      if ModAdd1(next, size) != roo2 {
        ops := ops + [Post(ModAdd1(next, size), Panel), Wait(ModAdd1(next, size))];
      }
      ops := ops + [Post(roo2, Panel), Wait(roo2)];
    }
  }

  method TwoRingMCall(rank: nat, root: nat, size: nat, go: bool)
    returns (probed: Option<nat>, flag: Flag, ops: seq<Op<Panel>>)
    requires rank < size && root < size
    ensures CallDoes(Ring(TwoRingM, size, root), rank, probed, go, flag, ops)
  {
    hide OpAt, Script, Probes, Half, Middle, ModAdd, ModAdd1, ModSub1, ModSub, RankOf, Distance;
    probed, flag, ops := None, Success, [];
    if size <= 1 { return; }
    ghost var r := Ring(TwoRingM, size, root);
    ProbesParent(r, rank);
    if rank == root {
      ops := TwoRingMRoot(root, size);
    } else {
      ScriptForm(r, rank);
      NeighboursOf(r, rank);
      AllRanks(r);
      MiddleOf(size);
      RankIs(r, Middle(size));
      var next := ModAdd1(rank, size);
      var roo2 := SecondRoot(root, size);
      var prev := ModSub1(rank, size);
      NeighboursOf(r, prev);
      var partner := if prev == root || rank == roo2 || ModSub1(prev, size) == root then root else prev;
      probed := Some(partner);
      if go {
        ops := [Recv(partner, Panel)];
        if prev != root && next != roo2 && next != root {
          ops := ops + [Post(next, Panel), Wait(next)];
        }
      } else {
        flag := KeepTesting;
      }
    }
  }

  lemma HalfIsHalf(k: nat)
    ensures Half(k) == k / 2
  {
  }

  // ------------------------------------------------------------------------------------------------
  // Sends and receives match
  // ------------------------------------------------------------------------------------------------

  /** When the process at distance d has the panel. */
  function Arrival(top: Topology, n: nat, d: nat): int
    requires n >= 2 && d < n
  {
    if d == 0 then 0
    else
      SentOnce(top, n, d);
      Arrival(top, n, Parent(top, n, d)) + 2 + 3 * Slot(top, n, d)
  }

  function MateAt(r: Ring, p: nat, i: nat): nat {
    if Valid(r) && p < r.size && i < Lead(Distance(r, p)) then
      var d := Distance(r, p);
      Lead(Parent(r.top, r.size, d)) + 2 * Slot(r.top, r.size, d)
    else 0
  }

  function TimeAt(r: Ring, p: nat, i: nat): int {
    if Valid(r) && p < r.size then
      var d := Distance(r, p);
      if i < Lead(d) then Arrival(r.top, r.size, d)
      else
        var j := i - Lead(d);
        Arrival(r.top, r.size, d) + 3 * Half(j) + if Odd(j) then 3 else 1
    else 0
  }

  function PlanOf(r: Ring): Plan {
    Plan((p: nat, i: nat) => MateAt(r, p, i), (p: nat, i: nat) => TimeAt(r, p, i))
  }

  lemma SendTaken(r: Ring, p: nat, i: nat) returns (q: nat)
    requires Valid(r) && p < r.size && i < ScriptLength(r, p) && OpAt(r, p, i).Post?
    ensures OpAt(r, p, i) == Post(q, Panel) && q < r.size && MateAt(r, p, i) == 0
    ensures ScriptLength(r, q) > 0 && OpAt(r, q, 0) == Recv(p, Panel) && MateAt(r, q, 0) == i
    ensures TimeAt(r, q, 0) == TimeAt(r, p, i) + 1
  {
    hide Sends, Parent, Slot;
    var d := Distance(r, p);
    var j := i - Lead(d);
    SendsInRange(r.top, r.size, d, Half(j));
    var c := Sends(r.top, r.size, d)[Half(j)];
    SentOnce(r.top, r.size, c);
    q := RankOf(r, c);
  }

  lemma RecvSent(r: Ring, p: nat, i: nat) returns (q: nat)
    requires Valid(r) && p < r.size && i < ScriptLength(r, p) && OpAt(r, p, i).Recv?
    ensures i == 0 && OpAt(r, p, i) == Recv(q, Panel) && q < r.size && MateAt(r, p, i) < ScriptLength(r, q)
    ensures OpAt(r, q, MateAt(r, p, i)) == Post(p, Panel) && MateAt(r, q, MateAt(r, p, i)) == 0
    ensures TimeAt(r, p, i) == TimeAt(r, q, MateAt(r, p, i)) + 1
  {
    hide Sends, Parent, Slot;
    var c := Distance(r, p);
    SentOnce(r.top, r.size, c);
    q := RankOf(r, Parent(r.top, r.size, c));
    var k := 2 * Slot(r.top, r.size, c);
    assert Half(k) == Slot(r.top, r.size, c) && !Odd(k);
  }

  lemma RingPlanned(r: Ring)
    requires Valid(r)
    ensures WellPlanned(Scripts(r), PlanOf(r))
  {
    hide OpAt, MateAt, TimeAt, Sends, WellPlanned;
    var scripts, plan := Scripts(r), PlanOf(r);
    forall p: nat, i: nat, q: nat | PostsTo(scripts, p, i, q)
      ensures TightPair(scripts, plan, p, i, q, plan.mate(p, i))
    {
      var q' := SendTaken(r, p, i);
    }
    forall p: nat, i: nat, q: nat | RecvsFrom(scripts, p, i, q)
      ensures TightPair(scripts, plan, q, plan.mate(p, i), p, i)
    {
      var q' := RecvSent(r, p, i);
    }
    forall p: nat, i: nat | p < |scripts| && i + 1 < |scripts[p]|
      ensures plan.time(p, i) < plan.time(p, i + 1)
    {
      NextLater(r, p, i);
    }
    forall p: nat, i: nat, q: nat | WaitsFor(scripts, p, i, q)
      ensures q < |scripts| && (i > 0 && PostsTo(scripts, p, i - 1, q) ==> plan.time(p, i - 1) + 1 < plan.time(p, i))
    {
      WaitTarget(r, p, i);
      if i > 0 {
        NextLater(r, p, i - 1);
      }
    }
    TightIsWellPlanned(scripts, plan);
  }

  lemma WaitTarget(r: Ring, p: nat, i: nat)
    requires Valid(r) && p < r.size && i < ScriptLength(r, p) && OpAt(r, p, i).Wait?
    ensures OpAt(r, p, i).to < r.size
  {
    hide Sends;
    SendsInRange(r.top, r.size, Distance(r, p), Half(i - Lead(Distance(r, p))));
  }

  lemma NextLater(r: Ring, p: nat, i: nat)
    requires Valid(r) && p < r.size && i + 1 < ScriptLength(r, p)
    ensures TimeAt(r, p, i) < TimeAt(r, p, i + 1)
    ensures OpAt(r, p, i).Post? && OpAt(r, p, i + 1).Wait? ==> TimeAt(r, p, i) + 1 < TimeAt(r, p, i + 1)
  {
    hide Sends, Arrival;
    var d := Distance(r, p);
    if i < Lead(d) {
      assert Half(0) == 0 && !Odd(0);
    } else {
      var j := i - Lead(d);
      assert Odd(j + 1) != Odd(j);
      var x, y := Half(j), Half(j + 1);
    }
  }

  // ------------------------------------------------------------------------------------------------
  // Main result
  // ------------------------------------------------------------------------------------------------

  ghost function CertificateOf<V>(r: Ring, panel: V): Certificate<V, V> {
    Certificate((p: nat, i: nat, m: V) => p == r.root || i > 0 ==> m == panel, (p: nat, i: nat, d: V) => d == panel)
  }

  lemma RingCertified<V(!new)>(r: Ring, panel: V)
    requires Valid(r)
    ensures Certifies(SystemOf<V>(r), PlanOf(r), CertificateOf(r, panel))
    ensures EndsGood(SystemOf<V>(r), CertificateOf(r, panel), Everywhere(panel))
  {
    hide Sends, Parent;
    var sys, cert := SystemOf<V>(r), CertificateOf(r, panel);
    forall p: nat, i: nat, m: V | p < |sys.scripts| && i < |sys.scripts[p]| && cert.good(p, i, m)
      ensures OpCertified(sys, PlanOf(r), cert, p, i, m)
    {
      assert sys.scripts[p][i] == OpAt(r, p, i);
    }
    assert forall p: nat :: p < r.size ==> |sys.scripts[p]| == ScriptLength(r, p);
  }

  /** In each of the four topologies, whatever the interleaving, the broadcast cannot get stuck, ends after a fixed
      number of moves with no message left over, and then every process has the root's panel. */
  lemma RingDelivers<V(!new)>(r: Ring, bufs: seq<V>, sched: seq<nat>, t: Net<V, V>)
    requires Valid(r) && |bufs| == r.size
    requires Run(SystemOf(r), Start(bufs), sched, t)
    ensures Delivers(SystemOf(r), sched, t, Everywhere(bufs[r.root]))
  {
    hide WellPlanned, Certifies, EndsGood, Delivers;
    RingPlanned(r);
    RingCertified(r, bufs[r.root]);
    RunDelivers(SystemOf(r), PlanOf(r), CertificateOf(r, bufs[r.root]), bufs, sched, t, Everywhere(bufs[r.root]));
  }
}
