/**
  HPL_packL: the pieces of memory that make up a stretch of the panel.

  The panel is jb columns of m entries, followed by one contiguous stretch with L1, DPIV and DINFO.  Neither the
  columns nor the last stretch are next to each other in memory, so an MPI datatype lists the segments.
 */
module PackL {
  import opened Arith

  /** `len` entries from row i of column j, or from offset i of L1. */
  datatype Segment = Column(j: nat, i: nat, len: nat) | Rest(i: nat, len: nat)

  /** Where column j starts in the flattened panel. */
  function Start(j: nat, m: nat): nat {
    j * m
  }

  /** Where a segment starts in the flattened panel. */
  function Position(s: Segment, m: nat, jb: nat): nat {
    match s
    case Column(j, i, _) => Start(j, m) + i
    case Rest(i, _) => Start(jb, m) + i
  }

  /** A segment of a column stays within the column. */
  predicate InPanel(s: Segment, m: nat, jb: nat) {
    s.Column? ==> s.j < jb && s.i + s.len <= m
  }

  function Interval(lo: nat, len: nat): seq<nat> {
    seq(len, k requires 0 <= k => lo + k)
  }

  /** The positions of all segments, in order. */
  function Positions(segs: seq<Segment>, m: nat, jb: nat): seq<nat> {
    if segs == [] then []
    else
      var last := segs[|segs| - 1];
      Positions(segs[..|segs| - 1], m, jb) + Interval(Position(last, m, jb), last.len)
  }

  lemma PositionsGrow(segs: seq<Segment>, s: Segment, m: nat, jb: nat, lo: nat, n: nat)
    requires Positions(segs, m, jb) == Interval(lo, n) && Position(s, m, jb) == lo + n
    ensures Positions(segs + [s], m, jb) == Interval(lo, n + s.len)
  {
    assert (segs + [s])[..|segs|] == segs;
  }

  lemma NoPositions(m: nat, jb: nat, lo: nat)
    ensures Positions([], m, jb) == Interval(lo, 0)
  {
  }

  lemma ColumnAt(j: nat, i: nat, len: nat, m: nat, jb: nat)
    ensures Position(Column(j, i, len), m, jb) == Start(j, m) + i
  {
  }

  lemma RestAt(i: nat, len: nat, m: nat, jb: nat)
    ensures Position(Rest(i, len), m, jb) == Start(jb, m) + i
  {
  }

  lemma NextStart(j: nat, m: nat)
    ensures Start(j + 1, m) == Start(j, m) + m
  {
  }

  lemma NoRows(jb: nat)
    ensures Start(jb, 0) == 0
  {
  }

  /** The column of a position, and the row in it. */
  method FirstColumn(x: nat, m: nat, jb: nat) returns (j: nat, i: nat)
    requires m > 0 && x < Start(jb, m)
    ensures j < jb && i < m && x == Start(j, m) + i && Start(j + 1, m) == x + (m - i)
  {
    j := x / m;
    i := x - j * m;
    assert x == (x / m) * m + x % m;
    if j >= jb {
      MulMono(jb, j, m);
    }
  }

  /** The loop of HPL_packL for a panel of jb columns; mp local rows, of which a process of the current row (curr)
      leaves the first jb out. */
  method Pack(mp: nat, jb: nat, curr: bool, index: nat, len: nat) returns (segs: seq<Segment>)
    requires curr ==> jb <= mp
    ensures var m := if curr then mp - jb else mp;
            && Positions(segs, m, jb) == Interval(index, len)
            && (forall k :: 0 <= k < |segs| ==> InPanel(segs[k], m, jb) && (len > 0 ==> segs[k].len > 0))
            && |segs| <= jb + 1 && (len > 0 ==> segs != [])
  {
    hide Positions, Interval, Position, Start;
    var m := mp;
    if curr { m := m - jb; }
    var left: nat := len;
    var ibuf: nat := index;
    var jbm := Start(jb, m);
    segs := [];
    NoPositions(m, jb, index);
    NoRows(jb);
    if m > 0 && ibuf < jbm {
      var j1, i1 := FirstColumn(ibuf, m, jb);
      var m1 := m - i1;
      m1 := Min(left, m1);
      ColumnAt(j1, i1, m1, m, jb);
      PositionsGrow(segs, Column(j1, i1, m1), m, jb, index, 0);
      segs := segs + [Column(j1, i1, m1)];
      left, j1, ibuf := left - m1, j1 + 1, ibuf + m1;
      while left > 0 && j1 < jb
        invariant left + ibuf == index + len && index <= ibuf
        invariant Positions(segs, m, jb) == Interval(index, ibuf - index)
        invariant forall k :: 0 <= k < |segs| ==> InPanel(segs[k], m, jb) && (len > 0 ==> segs[k].len > 0)
        invariant 1 <= |segs| <= j1 <= jb
        invariant left > 0 ==> ibuf == Start(j1, m)
      {
        m1 := Min(left, m);
        NextStart(j1, m);
        ColumnAt(j1, 0, m1, m, jb);
        PositionsGrow(segs, Column(j1, 0, m1), m, jb, index, ibuf - index);
        segs := segs + [Column(j1, 0, m1)];
        left, j1, ibuf := left - m1, j1 + 1, ibuf + m1;
      }
    }
    if left > 0 {
      RestAt(ibuf - jbm, left, m, jb);
      PositionsGrow(segs, Rest(ibuf - jbm, left), m, jb, index, ibuf - index);
      segs := segs + [Rest(ibuf - jbm, left)];
    }
  }

  /** No two entries of the panel have the same place in its flattened form, and those of L1 come after all columns. */
  lemma PlacesDiffer(j: nat, i: nat, k: nat, h: nat, x: nat, m: nat, jb: nat)
    requires j < jb && k < jb && i < m && h < m
    ensures Position(Column(j, i, 1), m, jb) == Position(Column(k, h, 1), m, jb) ==> j == k && i == h
    ensures Position(Column(j, i, 1), m, jb) < Position(Rest(x, 1), m, jb)
  {
    DivModUnique(j * m + i, m, j, i);
    DivModUnique(k * m + h, m, k, h);
    MulMono(j + 1, jb, m);
    assert (j + 1) * m == j * m + m;
  }
}
