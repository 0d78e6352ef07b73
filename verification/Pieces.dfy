/** The panel cut into one piece per participant: piece x starts at x * count, the last one takes what is left. */
module Pieces {
  import opened Arith

  /** A stretch of the panel buffer; nothing at all is Region(0, 0). */
  datatype Region = Region(lo: nat, len: nat)

  /** Piece x of a panel reaches from cut x to cut x + 1. */
  datatype Layout = Layout(cuts: seq<nat>)

  predicate ValidLayout(l: Layout) {
    && |l.cuts| >= 2 && l.cuts[0] == 0
    && forall x, y :: 0 <= x <= y < |l.cuts| ==> l.cuts[x] <= l.cuts[y]
  }

  function Parts(l: Layout): nat
    requires ValidLayout(l)
  {
    |l.cuts| - 1
  }

  function Length(l: Layout): nat
    requires ValidLayout(l)
  {
    l.cuts[|l.cuts| - 1]
  }

  function Cut(l: Layout, x: nat): (c: nat)
    requires ValidLayout(l)
    ensures c <= Length(l)
  {
    if x < |l.cuts| then l.cuts[x] else Length(l)
  }

  /** The region of the pieces x, ..., y - 1. */
  function Cover(l: Layout, x: nat, y: nat): (r: Region)
    requires ValidLayout(l)
    ensures r.lo + r.len <= Length(l)
  {
    if Cut(l, x) < Cut(l, y) then Region(Cut(l, x), Cut(l, y) - Cut(l, x)) else Region(0, 0)
  }

  /** The contents of region r. */
  function Read<V>(m: seq<V>, r: Region): seq<V> {
    if r.lo + r.len <= |m| then seq(r.len, k requires 0 <= k < r.len => m[r.lo + k]) else []
  }

  /** The buffer after receiving d into region r. */
  function Write<V>(m: seq<V>, r: Region, d: seq<V>): seq<V> {
    if r.lo + r.len <= |m| && |d| == r.len then
      seq(|m|, k requires 0 <= k < |m| => if r.lo <= k < r.lo + r.len then d[k - r.lo] else m[k])
    else m
  }

  /** m has the contents of buf in the pieces x, ..., y - 1. */
  ghost predicate Has<V>(l: Layout, buf: seq<V>, m: seq<V>, x: nat, y: nat)
    requires ValidLayout(l) && |buf| == Length(l)
  {
    && |m| == Length(l)
    && forall k :: Cut(l, x) <= k < Cut(l, y) ==> m[k] == buf[k]
  }

  ghost predicate HasPiece<V>(l: Layout, buf: seq<V>, m: seq<V>, x: nat)
    requires ValidLayout(l) && |buf| == Length(l)
  {
    Has(l, buf, m, x, x + 1)
  }

  lemma HasLess<V>(l: Layout, buf: seq<V>, m: seq<V>, x: nat, y: nat, x': nat, y': nat)
    requires ValidLayout(l) && |buf| == Length(l) && Has(l, buf, m, x, y)
    requires x <= x' && y' <= y
    ensures Has(l, buf, m, x', y')
  {
    assert Cut(l, x) <= Cut(l, x') && Cut(l, y') <= Cut(l, y);
  }

  lemma ReadHas<V>(l: Layout, buf: seq<V>, m: seq<V>, x: nat, y: nat)
    requires ValidLayout(l) && |buf| == Length(l) && Has(l, buf, m, x, y)
    ensures Read(m, Cover(l, x, y)) == Read(buf, Cover(l, x, y))
  {
  }

  /** Receiving pieces of buf gives these pieces and harms no other. */
  lemma WriteHas<V>(l: Layout, buf: seq<V>, m: seq<V>, x: nat, y: nat, x': nat, y': nat)
    requires ValidLayout(l) && |buf| == Length(l) == |m|
    ensures var m' := Write(m, Cover(l, x, y), Read(buf, Cover(l, x, y)));
            |m'| == |m| && Has(l, buf, m', x, y) && (Has(l, buf, m, x', y') ==> Has(l, buf, m', x', y'))
  {
    var r := Cover(l, x, y);
    var m' := Write(m, r, Read(buf, r));
    forall k | 0 <= k < Length(l)
      ensures m'[k] == if r.lo <= k < r.lo + r.len then buf[k] else m[k]
    {
    }
  }

  lemma Received<V>(l: Layout, buf: seq<V>, m: seq<V>, x: nat, y: nat)
    requires ValidLayout(l) && |buf| == Length(l) == |m|
    ensures Has(l, buf, Write(m, Cover(l, x, y), Read(buf, Cover(l, x, y))), x, y)
  {
    WriteHas(l, buf, m, x, y, x, y);
  }

  /** m has all the pieces in `owned`. */
  ghost predicate HasPieces<V>(l: Layout, buf: seq<V>, m: seq<V>, owned: set<nat>)
    requires ValidLayout(l) && |buf| == Length(l)
  {
    |m| == Length(l) && forall x :: x in owned ==> HasPiece(l, buf, m, x)
  }

  lemma PieceReceived<V>(l: Layout, buf: seq<V>, m: seq<V>, owned: set<nat>, g: nat)
    requires ValidLayout(l) && |buf| == Length(l) && HasPieces(l, buf, m, owned)
    ensures HasPieces(l, buf, Write(m, Cover(l, g, g + 1), Read(buf, Cover(l, g, g + 1))), owned + {g})
  {
    forall x | x in owned + {g}
      ensures HasPiece(l, buf, Write(m, Cover(l, g, g + 1), Read(buf, Cover(l, g, g + 1))), x)
    {
      WriteHas(l, buf, m, g, g + 1, x, x + 1);
      assert x == g || HasPiece(l, buf, m, x);
    }
    WriteHas(l, buf, m, g, g + 1, g, g + 1);
  }

  lemma PieceSent<V>(l: Layout, buf: seq<V>, m: seq<V>, owned: set<nat>, s: nat)
    requires ValidLayout(l) && |buf| == Length(l) && HasPieces(l, buf, m, owned) && s in owned
    ensures Read(m, Cover(l, s, s + 1)) == Read(buf, Cover(l, s, s + 1))
  {
    assert HasPiece(l, buf, m, s);
    ReadHas(l, buf, m, s, s + 1);
  }

  /** Every position of the panel lies in a piece. */
  lemma {:induction false} PieceOf(l: Layout, k: nat, y: nat) returns (x: nat)
    requires ValidLayout(l) && y <= Parts(l) && k < Cut(l, y)
    ensures x < y && Cut(l, x) <= k < Cut(l, x + 1)
  {
    if Cut(l, y - 1) <= k {
      x := y - 1;
    } else {
      x := PieceOf(l, k, y - 1);
    }
  }

  lemma HasAll<V>(l: Layout, buf: seq<V>, m: seq<V>, owned: set<nat>)
    requires ValidLayout(l) && |buf| == Length(l)
    requires HasPieces(l, buf, m, owned) && forall x: nat :: x < Parts(l) ==> x in owned
    ensures m == buf
  {
    forall k | 0 <= k < Length(l)
      ensures m[k] == buf[k]
    {
      var x := PieceOf(l, k, Parts(l));
      assert HasPiece(l, buf, m, x);
    }
  }

  // ------------------------------------------------------------------------------------------------
  // The cuts of the code
  // ------------------------------------------------------------------------------------------------

  function Count(len: nat, n: nat): (c: nat)
    requires n > 0
    ensures c >= 1
  {
    Max(len / n, 1)
  }

  /** x * c, spelled out. */
  function Times(x: nat, c: nat): nat {
    if x == 0 then 0 else Times(x - 1, c) + c
  }

  lemma {:induction false} TimesIsProduct(x: nat, c: nat)
    ensures Times(x, c) == x * c
  {
    if x > 0 {
      TimesIsProduct(x - 1, c);
      assert x * c == (x - 1) * c + c;
    }
  }

  lemma {:induction false} TimesGrows(x: nat, y: nat, c: nat)
    requires x <= y
    ensures Times(x, c) <= Times(y, c)
  {
    if x < y {
      TimesGrows(x, y - 1, c);
    }
  }

  /** Where piece x of n starts. */
  function CutAt(len: nat, n: nat, x: nat): nat
    requires n > 0
  {
    if x >= n then len else Min(Times(x, Count(len, n)), len)
  }

  lemma CutsGrow(len: nat, n: nat, x: nat, y: nat)
    requires n > 0 && x <= y
    ensures CutAt(len, n, x) <= CutAt(len, n, y)
  {
    TimesGrows(x, y, Count(len, n));
  }

  function Cuts(len: nat, n: nat): (s: seq<nat>)
    requires n > 0
    ensures |s| == n + 1 && forall x :: 0 <= x <= n ==> s[x] == CutAt(len, n, x)
  {
    seq(n + 1, x requires 0 <= x => CutAt(len, n, x))
  }

  /** The layout that the code uses for n participants. */
  function Even(len: nat, n: nat): (l: Layout)
    requires n > 0
    ensures ValidLayout(l) && Parts(l) == n && Length(l) == len
  {
    var l := Layout(Cuts(len, n));
    assert ValidLayout(l) by {
      forall x, y | 0 <= x <= y < |l.cuts|
        ensures l.cuts[x] <= l.cuts[y]
      {
        CutsGrow(len, n, x, y);
      }
    }
    l
  }

  lemma EvenCover(len: nat, n: nat, x: nat, y: nat)
    requires n > 0 && x < n
    ensures Cover(Even(len, n), x, y) ==
            var e := if y < n then Min(y * Count(len, n), len) else len;
            if x * Count(len, n) < e then Region(x * Count(len, n), e - x * Count(len, n)) else Region(0, 0)
  {
    TimesIsProduct(x, Count(len, n));
    TimesIsProduct(y, Count(len, n));
  }

  lemma CutPlaces(len: nat, n: nat, x: nat)
    requires 0 < n && x <= n
    ensures Cut(Even(len, n), x) == if x == n then len else Min(x * Count(len, n), len)
  {
    TimesIsProduct(x, Count(len, n));
  }

  lemma LongSize(len: nat, n: nat, x: nat, q: nat, r: nat)
    requires x < n && len == q * n + r && r < n
    ensures x * q <= len
    ensures (if x + 1 == n then len else Min((x + 1) * q, len)) - x * q == q + if x + 1 == n then r else 0
  {
    MulMono(x + 1, n, q);
    assert (x + 1) * q == x * q + q;
    assert q * n == n * q;
  }

  lemma CountOfLong(len: nat, n: nat)
    requires 0 < n
    ensures Count(len, n) == if len >= n then len / n else 1
    ensures len == (len / n) * n + len % n && 0 <= len % n < n && len / n >= 0
  {
    var q := len / n;
    assert len == q * n + len % n;
    if q < 0 {
      MulMono(q, -1, n);
    }
    if q == 0 {
      assert q * n == 0;
    }
  }

  /** A panel of at least n entries is cut into pieces of len / n of them, and the last has the remainder too; of a
      shorter one each piece has one entry as long as there are any. */
  lemma EvenSizes(len: nat, n: nat, x: nat)
    requires n > 0 && x < n
    ensures var size := Cut(Even(len, n), x + 1) - Cut(Even(len, n), x);
            if len >= n then size == len / n + if x + 1 == n then len % n else 0
            else size == if x < len then 1 else 0
  {
    hide Cut, Even, Count;
    CutPlaces(len, n, x);
    CutPlaces(len, n, x + 1);
    CountOfLong(len, n);
    if len >= n {
      LongSize(len, n, x, len / n, len % n);
    }
  }
}
