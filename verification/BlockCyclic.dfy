/**
  The block-cyclic index maps of hpl_pauxil.h.

  Global indices 0, 1, ... are dealt out to nprocs processes: the first inb to process src, then blocks of nb to
  the following processes in turn.  src == -1 means that every process has everything.
 */
module BlockCyclic {
  import opened Arith

  datatype Dist = Dist(inb: int, nb: int, src: int, nprocs: int)

  predicate Valid(d: Dist) {
    d.inb >= 0 && d.nb >= 1 && d.nprocs >= 1 && -1 <= d.src < d.nprocs
  }

  /** Really distributed, over more than one process. */
  predicate Spread(d: Dist) {
    Valid(d) && d.src >= 0 && d.nprocs > 1
  }

  // ------------------------------------------------------------------------------------------------
  // The macros
  // ------------------------------------------------------------------------------------------------

  /** Mindxg2p: the process that owns global index ig. */
  function Owner(ig: int, d: Dist): int
    requires Valid(d)
  {
    if ig >= d.inb && d.src >= 0 && d.nprocs > 1 then
      var proc := d.src + 1 + (ig - d.inb) / d.nb;
      proc - (proc / d.nprocs) * d.nprocs
    else d.src
  }

  /** Mindxg2l: the local index of ig in its process. */
  function Local(ig: int, d: Dist): int
    requires Valid(d)
  {
    if ig < d.inb || d.src == -1 || d.nprocs == 1 then ig
    else
      var i := (ig - d.inb) / d.nb;
      var j := i / d.nprocs;
      d.nb * (j - i) + if i + 1 - (j + 1) * d.nprocs != 0 then ig - d.inb else ig
  }

  /** Mindxg2lp: both at once. */
  method LocalAndOwner(ig: int, d: Dist) returns (il: int, proc: int)
    requires Valid(d)
    ensures il == Local(ig, d) && proc == Owner(ig, d)
  {
    if ig < d.inb || d.src == -1 || d.nprocs == 1 {
      il, proc := ig, d.src;
    } else {
      var i := (ig - d.inb) / d.nb;
      var j := i / d.nprocs;
      il := d.nb * (j - i) + if i + 1 - (j + 1) * d.nprocs != 0 then ig - d.inb else ig;
      proc := d.src + 1 + i;
      proc := proc - (proc / d.nprocs) * d.nprocs;
    }
  }

  /** Mindxl2g: the global index of local index il of process proc. */
  function Global(il: int, proc: int, d: Dist): int
    requires Valid(d)
  {
    if d.src >= 0 && d.nprocs > 1 then
      if proc == d.src then
        if il < d.inb then il else il + d.nb * (d.nprocs - 1) * ((il - d.inb) / d.nb + 1)
      else if proc < d.src then
        il + d.inb + d.nb * ((d.nprocs - 1) * (il / d.nb) + proc - d.src - 1 + d.nprocs)
      else
        il + d.inb + d.nb * ((d.nprocs - 1) * (il / d.nb) + proc - d.src - 1)
    else il
  }

  // ------------------------------------------------------------------------------------------------
  // The maps are inverse to each other
  // ------------------------------------------------------------------------------------------------

  /** Global index inb + (j * nprocs + r) * nb + o is entry o of the r-th block of round j. */
  function Place(j: int, r: int, o: int, d: Dist): int {
    d.inb + (j * d.nprocs + r) * d.nb + o
  }

  predicate InRound(j: int, r: int, o: int, d: Dist) {
    0 <= j && 0 <= r < d.nprocs && 0 <= o < d.nb
  }

  lemma FindPlace(ig: int, d: Dist) returns (j: int, r: int, o: int)
    requires Valid(d) && ig >= d.inb
    ensures InRound(j, r, o, d) && ig == Place(j, r, o, d)
  {
    var x := ig - d.inb;
    var i := x / d.nb;
    j, r, o := i / d.nprocs, i % d.nprocs, x % d.nb;
    assert x == i * d.nb + o;
    assert i == j * d.nprocs + r;
    if j < 0 {
      MulMono(j, -1, d.nprocs);
      MulMono(i, -1, d.nb);
      assert false;
    }
  }

  /** The process of block r of a round. */
  function Turn(r: int, d: Dist): int {
    if d.src + 1 + r < d.nprocs then d.src + 1 + r else d.src + 1 + r - d.nprocs
  }

  lemma OwnerOfPlace(j: int, r: int, o: int, d: Dist)
    requires Spread(d) && InRound(j, r, o, d)
    ensures Owner(Place(j, r, o, d), d) == Turn(r, d)
  {
    var i := j * d.nprocs + r;
    DivModUnique(i * d.nb + o, d.nb, i, o);
    MulMono(0, j, d.nprocs);
    MulMono(0, i, d.nb);
    var proc := d.src + 1 + i;
    if d.src + 1 + r < d.nprocs {
      DivModUnique(proc, d.nprocs, j, d.src + 1 + r);
    } else {
      assert (j + 1) * d.nprocs == j * d.nprocs + d.nprocs;
      DivModUnique(proc, d.nprocs, j + 1, d.src + 1 + r - d.nprocs);
    }
  }

  lemma LocalOfPlace(j: int, r: int, o: int, d: Dist)
    requires Spread(d) && InRound(j, r, o, d)
    ensures Local(Place(j, r, o, d), d) == j * d.nb + o + if r == d.nprocs - 1 then d.inb else 0
  {
    var i := j * d.nprocs + r;
    DivModUnique(i * d.nb + o, d.nb, i, o);
    DivModUnique(i, d.nprocs, j, r);
    MulMono(0, j, d.nprocs);
    MulMono(0, i, d.nb);
    assert d.nb * (j - i) == j * d.nb - i * d.nb;
    assert (j + 1) * d.nprocs == j * d.nprocs + d.nprocs;
  }

  lemma GlobalOfPlace(j: int, r: int, o: int, d: Dist)
    requires Spread(d) && InRound(j, r, o, d)
    ensures Global(j * d.nb + o + if r == d.nprocs - 1 then d.inb else 0, Turn(r, d), d) == Place(j, r, o, d)
  {
    var p, nb := d.nprocs, d.nb;
    MulMono(0, j, nb);
    DivModUnique(j * nb + o, nb, j, o);
    if r == p - 1 {
      assert nb * (p - 1) * (j + 1) == (j * p + (p - 1)) * nb - j * nb by {
        ProductOfThree(nb, p - 1, j + 1);
        assert (p - 1) * (j + 1) == j * p + p - 1 - j by {
          assert (p - 1) * (j + 1) == (p - 1) * j + (p - 1);
          assert (p - 1) * j == j * p - j;
        }
        assert ((j * p + (p - 1)) - j) * nb == (j * p + (p - 1)) * nb - j * nb;
      }
    } else {
      assert nb * ((p - 1) * j + r) == (j * p + r) * nb - j * nb by {
        assert (p - 1) * j == j * p - j;
        assert ((j * p + r) - j) * nb == (j * p + r) * nb - j * nb;
      }
    }
  }

  lemma ProductOfThree(a: int, b: int, c: int)
    ensures a * b * c == (b * c) * a
  {
  }

  /** Going to (process, local index) and back is the identity, whatever the distribution. */
  lemma GlobalInvertsLocal(ig: int, d: Dist)
    requires Valid(d) && ig >= 0
    ensures Global(Local(ig, d), Owner(ig, d), d) == ig
    ensures d.src >= 0 ==> 0 <= Owner(ig, d) < d.nprocs
    ensures Local(ig, d) >= 0
  {
    if Spread(d) && ig >= d.inb {
      var j, r, o := FindPlace(ig, d);
      OwnerOfPlace(j, r, o, d);
      LocalOfPlace(j, r, o, d);
      GlobalOfPlace(j, r, o, d);
      MulMono(0, j, d.nb);
    }
  }

  /** And so is going from (process, local index) to the global index and back. */
  lemma LocalInvertsGlobal(il: int, proc: int, d: Dist)
    requires Valid(d) && il >= 0 && 0 <= proc < d.nprocs
    ensures Local(Global(il, proc, d), d) == il
    ensures d.src >= 0 ==> Owner(Global(il, proc, d), d) == proc
    ensures Global(il, proc, d) >= 0
  {
    if Spread(d) && !(proc == d.src && il < d.inb) {
      var x := if proc == d.src then il - d.inb else il;
      var j, o := x / d.nb, x % d.nb;
      assert x == j * d.nb + o;
      if j < 0 {
        MulMono(j, -1, d.nb);
        assert false;
      }
      var r := if proc > d.src then proc - d.src - 1 else proc - d.src - 1 + d.nprocs;
      assert Turn(r, d) == proc;
      GlobalOfPlace(j, r, o, d);
      OwnerOfPlace(j, r, o, d);
      LocalOfPlace(j, r, o, d);
      MulMono(0, j, d.nprocs);
      MulMono(0, j * d.nprocs + r, d.nb);
    }
  }

  // ------------------------------------------------------------------------------------------------
  // MnumrocI counts
  // ------------------------------------------------------------------------------------------------

  /** How many of the global indices i, ..., i + n - 1 does process proc own? */
  ghost function Owned(i: int, n: nat, proc: int, d: Dist): nat
    requires Valid(d)
  {
    if n == 0 then 0 else Owned(i, n - 1, proc, d) + if Owner(i + n - 1, d) == proc then 1 else 0
  }

  /** The owner of entry k of an interval that starts with f more entries of process s. */
  function OwnerFrom(k: int, f: int, s: int, nb: int, p: int): int
    requires nb >= 1 && p >= 1
  {
    if k < f then s else (s + 1 + (k - f) / nb) % p
  }

  ghost function OwnedFrom(n: nat, f: int, s: int, nb: int, p: int, proc: int): nat
    requires nb >= 1 && p >= 1
  {
    if n == 0 then 0 else OwnedFrom(n - 1, f, s, nb, p, proc) + if OwnerFrom(n - 1, f, s, nb, p) == proc then 1 else 0
  }

  /** How many of 0, ..., m - 1 are congruent to c modulo p? */
  ghost function Congruent(m: nat, c: int, p: int): nat
    requires p >= 1
  {
    if m == 0 then 0 else Congruent(m - 1, c, p) + if (m - 1) % p == c then 1 else 0
  }

  lemma {:induction false} CongruentCount(m: nat, c: int, p: int)
    requires p >= 1 && 0 <= c < p
    ensures Congruent(m, c, p) == m / p + if c < m % p then 1 else 0
  {
    if m > 0 {
      CongruentCount(m - 1, c, p);
      NextDivMod(m - 1, p);
    }
  }

  /** Block b after the first stretch belongs to proc exactly if b + 1 is its distance from s modulo p. */
  lemma TurnOf(b: nat, s: int, proc: int, p: int)
    requires p >= 1 && 0 <= s < p && 0 <= proc < p
    ensures (s + 1 + b) % p == proc <==> (b + 1) % p == if proc < s then proc - s + p else proc - s
  {
    var q, r := (b + 1) / p, (b + 1) % p;
    assert s + 1 + b == q * p + (s + r);
    if s + r < p {
      DivModUnique(s + 1 + b, p, q, s + r);
    } else {
      assert (q + 1) * p == q * p + p;
      DivModUnique(s + 1 + b, p, q + 1, s + r - p);
    }
  }

  lemma {:induction false} OwnedInFirst(n: nat, f: int, s: int, nb: int, p: int, proc: int)
    requires nb >= 1 && p >= 1 && n <= f
    ensures OwnedFrom(n, f, s, nb, p, proc) == if proc == s then n else 0
  {
    if n > 0 {
      OwnedInFirst(n - 1, f, s, nb, p, proc);
    }
  }

  /** The entries that the blocks 1, ..., b give to the process whose distance from s is c. */
  ghost function WholeBlocks(b: nat, c: int, nb: int, p: int): int
    requires p >= 1
  {
    if b == 0 then 0 else WholeBlocks(b - 1, c, nb, p) + if b % p == c then nb else 0
  }

  lemma {:induction false} WholeBlocksCount(b: nat, c: int, nb: int, p: int)
    requires p >= 1 && 0 <= c < p
    ensures WholeBlocks(b, c, nb, p) == nb * (Congruent(b + 1, c, p) - if c == 0 then 1 else 0)
  {
    if b == 0 {
      DivModUnique(0, p, 0, 0);
      assert Congruent(1, c, p) == if 0 == c then 1 else 0;
    } else {
      WholeBlocksCount(b - 1, c, nb, p);
      var k := Congruent(b, c, p) - if c == 0 then 1 else 0;
      assert nb * (k + 1) == nb * k + nb;
    }
  }

  /** The count after the first stretch, b whole blocks and o entries of the next one. */
  lemma {:induction false} OwnedInBlocks(b: nat, o: nat, f: nat, s: int, nb: int, p: int, proc: int, c: int)
    requires nb >= 1 && p >= 1 && 0 <= s < p && 0 <= proc < p && o <= nb
    requires c == if proc < s then proc - s + p else proc - s
    ensures f + b * nb + o >= 0
    ensures OwnedFrom(f + b * nb + o, f, s, nb, p, proc)
            == (if proc == s then f else 0) + WholeBlocks(b, c, nb, p) + if (b + 1) % p == c then o else 0
    decreases b, o
  {
    hide OwnedFrom, OwnerFrom;
    MulMono(0, b, nb);
    if o > 0 {
      OwnedInBlocks(b, o - 1, f, s, nb, p, proc, c);
      OwnedNext(f + b * nb + (o - 1), f, s, nb, p, proc);
      EntryOfBlock(b, o - 1, f, s, nb, p, proc, c);
    } else if b > 0 {
      OwnedInBlocks(b - 1, nb, f, s, nb, p, proc, c);
      assert (b - 1) * nb + nb == b * nb;
    } else {
      OwnedInFirst(f, f, s, nb, p, proc);
    }
  }

  lemma OwnedNext(n: nat, f: int, s: int, nb: int, p: int, proc: int)
    requires nb >= 1 && p >= 1
    ensures OwnedFrom(n + 1, f, s, nb, p, proc)
         == OwnedFrom(n, f, s, nb, p, proc) + if OwnerFrom(n, f, s, nb, p) == proc then 1 else 0
  {
  }

  lemma EntryOfBlock(b: nat, o: nat, f: nat, s: int, nb: int, p: int, proc: int, c: int)
    requires nb >= 1 && p >= 1 && 0 <= s < p && 0 <= proc < p && o < nb
    requires c == if proc < s then proc - s + p else proc - s
    ensures OwnerFrom(f + b * nb + o, f, s, nb, p) == proc <==> (b + 1) % p == c
  {
    MulMono(0, b, nb);
    DivModUnique(b * nb + o, nb, b, o);
    TurnOf(b, s, proc, p);
  }

  /** Seen from index i the distribution starts with a shorter stretch, of another process if i is beyond inb. */
  lemma OwnerShifted(i: int, k: nat, d: Dist)
    requires Spread(d) && i >= 0
    ensures var x := i - d.inb;
            var b := x / d.nb + 1;
            Owner(i + k, d) == if x < 0 then OwnerFrom(k, -x, d.src, d.nb, d.nprocs)
                               else OwnerFrom(k, b * d.nb - x, (d.src + b) % d.nprocs, d.nb, d.nprocs)
  {
    var x, nb, p := i - d.inb, d.nb, d.nprocs;
    if i + k >= d.inb {
      var proc := d.src + 1 + (i + k - d.inb) / nb;
      assert Owner(i + k, d) == proc % p;
      if x >= 0 {
        var b := x / nb + 1;
        assert x == (b - 1) * nb + x % nb;
        assert b * nb == (b - 1) * nb + nb;
        if k < b * nb - x {
          DivModUnique(x + k, nb, b - 1, x % nb + k);
        } else {
          var y := k - (b * nb - x);
          assert (b + y / nb) * nb == b * nb + (y / nb) * nb;
          DivModUnique(x + k, nb, b + y / nb, y % nb);
          ModTwice(d.src + b, 1 + y / nb, p);
        }
      }
    }
  }

  lemma ModTwice(a: int, e: int, p: int)
    requires p >= 1
    ensures (a % p + e) % p == (a + e) % p
  {
    var q, r := (a % p + e) / p, (a % p + e) % p;
    assert a + e == (a / p) * p + q * p + r;
    assert (a / p + q) * p == (a / p) * p + q * p;
    DivModUnique(a + e, p, a / p + q, r);
  }

  lemma {:induction false} OwnedShifted(i: int, n: nat, f: int, s: int, proc: int, d: Dist)
    requires Spread(d) && i >= 0
    requires var x := i - d.inb;
             var b := x / d.nb + 1;
             if x < 0 then f == -x && s == d.src else f == b * d.nb - x && s == (d.src + b) % d.nprocs
    ensures Owned(i, n, proc, d) == OwnedFrom(n, f, s, d.nb, d.nprocs, proc)
  {
    if n > 0 {
      OwnedShifted(i, n - 1, f, s, proc, d);
      OwnerShifted(i, n - 1, d);
    }
  }

  /** The count in terms of the number nblk of blocks begun after the first stretch of f entries. */
  lemma OwnedByBlocks(n: nat, f: int, s: int, nb: int, p: int, proc: int, c: int, nblk: int)
    requires nb >= 1 && p >= 1 && 0 <= s < p && 0 <= proc < p && 0 < f < n
    requires c == if proc < s then proc - s + p else proc - s
    requires nblk == (n - f) / nb + 1
    ensures nblk >= 1
    ensures OwnedFrom(n, f, s, nb, p, proc) ==
            (if proc == s then f else 0)
            + nb * (nblk / p + (if c < nblk % p then 1 else 0) - (if c == 0 then 1 else 0))
            + if nblk % p == c then (n - f) % nb else 0
  {
    hide OwnedFrom, WholeBlocks, Congruent;
    QuotientNonNegative(n - f, nb);
    var m, o := (n - f) / nb, (n - f) % nb;
    assert n - f == m * nb + o;
    OwnedInBlocks(m, o, f, s, nb, p, proc, c);
    WholeBlocksCount(m, c, nb, p);
    CongruentCount(nblk, c, p);
  }

  /** The case distinction of MnumrocI is that sum. */
  lemma ClosedForm(n: nat, f: int, s: int, nb: int, p: int, proc: int, c: int, nblk: int, quot: int)
    requires nb >= 1 && p >= 1 && 0 <= s < p && 0 <= proc < p && 0 < f < n
    requires c == if proc < s then proc - s + p else proc - s
    requires nblk == (n - f) / nb + 1 && quot == nblk / p
    ensures OwnedFrom(n, f, s, nb, p, proc) ==
            var d := c - (nblk - quot * p);
            if d < 0 then (if proc != s then nb else f) + nb * quot
            else if d > 0 then nb * quot
            else if proc != s then n - f + nb + nb * (quot - nblk)
            else n + nb * (quot - nblk)
  {
    hide OwnedFrom;
    OwnedByBlocks(n, f, s, nb, p, proc, c, nblk);
    var r := nblk % p;
    assert c - (nblk - quot * p) == c - r;
    assert (c == 0) == (proc == s);
    if c < r {
      if c == 0 {
        assert nb * (quot + 1 - 1) == nb * quot;
      } else {
        assert nb * (quot + 1 - 0) == nb * quot + nb;
      }
    } else if c == r {
      Rest(n, f, nb, nblk, quot);
      if c == 0 {
        assert nb * (quot + 0 - 1) == nb * quot - nb;
      } else {
        assert nb * (quot + 0 - 0) == nb * quot;
      }
    } else {
      assert nb * (quot + 0 - 0) == nb * quot;
    }
  }

  lemma Rest(n: nat, f: int, nb: int, nblk: int, quot: int)
    requires nb >= 1 && nblk == (n - f) / nb + 1
    ensures nb * quot + (n - f) % nb == n - f + nb + nb * (quot - nblk)
  {
    var m, o := (n - f) / nb, (n - f) % nb;
    assert n - f == m * nb + o;
    assert nb * (quot - nblk) == nb * quot - m * nb - nb;
  }

  lemma QuotientNonNegative(x: int, m: int)
    requires m > 0 && x >= 0
    ensures x / m >= 0
  {
  }

  /** The closed form that MnumrocI uses once it knows the first stretch: f entries of process s. */
  method CountFrom(n: nat, f: int, s: int, nb: int, p: int, proc: int) returns (np: int)
    requires nb >= 1 && p >= 1 && 0 <= s < p && 0 <= proc < p && f > 0
    ensures np == OwnedFrom(n, f, s, nb, p, proc)
  {
    var n' := n - f;
    if n' <= 0 {
      OwnedInFirst(n, f, s, nb, p, proc);
      np := if proc == s then n else 0;
    } else {
      var mydist := proc - s;
      if mydist < 0 { mydist := mydist + p; }
      ghost var c := mydist;
      var nblk := n' / nb + 1;
      var quot := nblk / p;
      mydist := mydist - (nblk - quot * p);
      ClosedForm(n, f, s, nb, p, proc, c, nblk, quot);
      if mydist < 0 {
        if proc != s { np := nb + nb * quot; } else { np := f + nb * quot; }
      } else if mydist > 0 {
        np := nb * quot;
      } else {
        if proc != s { np := n' + nb + nb * (quot - nblk); } else { np := n + nb * (quot - nblk); }
      }
    }
  }

  /** MnumrocI: the number of local indices that process proc has in the global interval i, ..., i + n - 1. */
  method Numroc(n: nat, i: nat, proc: int, d: Dist) returns (np: int)
    requires Valid(d) && 0 <= proc < d.nprocs
    ensures np == if d.src >= 0 then Owned(i, n, proc, d) else n
  {
    if d.src >= 0 && d.nprocs > 1 {
      var inb := d.inb - i;
      if inb <= 0 {
        var nblk := (-inb) / d.nb + 1;
        var src := d.src + nblk;
        src := src - (src / d.nprocs) * d.nprocs;
        ghost var x := -inb;
        assert x == (x / d.nb) * d.nb + x % d.nb;
        assert nblk * d.nb == (x / d.nb) * d.nb + d.nb;
        inb := inb + nblk * d.nb;
        OwnedShifted(i, n, inb, src, proc, d);
        np := CountFrom(n, inb, src, d.nb, d.nprocs, proc);
      } else {
        OwnedShifted(i, n, inb, d.src, proc, d);
        np := CountFrom(n, inb, d.src, d.nb, d.nprocs, proc);
      }
    } else {
      np := n;
      if d.src >= 0 {
        OwnedByOne(i, n, proc, d);
      }
    }
  }

  lemma {:induction false} OwnedByOne(i: int, n: nat, proc: int, d: Dist)
    requires Valid(d) && d.src >= 0 && d.nprocs == 1 && proc == 0
    ensures Owned(i, n, proc, d) == n
  {
    if n > 0 {
      OwnedByOne(i, n - 1, proc, d);
    }
  }

  // ------------------------------------------------------------------------------------------------
  // Nothing is lost, nothing is counted twice
  // ------------------------------------------------------------------------------------------------

  ghost function OwnedBelow(i: int, n: nat, k: nat, d: Dist): nat
    requires Valid(d)
  {
    if k == 0 then 0 else OwnedBelow(i, n, k - 1, d) + Owned(i, n, k - 1, d)
  }

  lemma {:induction false} OneMore(i: int, n: nat, k: nat, d: Dist)
    requires Valid(d) && n > 0
    ensures OwnedBelow(i, n, k, d) == OwnedBelow(i, n - 1, k, d) + if 0 <= Owner(i + n - 1, d) < k then 1 else 0
  {
    if k > 0 {
      OneMore(i, n, k - 1, d);
    }
  }

  /** Summed over all processes the counts give the length of the interval. */
  lemma {:induction false} CountsAddUp(i: nat, n: nat, d: Dist)
    requires Valid(d) && d.src >= 0
    ensures OwnedBelow(i, n, d.nprocs, d) == n
  {
    if n == 0 {
      NoneOwned(i, d.nprocs, d);
    } else {
      CountsAddUp(i, n - 1, d);
      OneMore(i, n, d.nprocs, d);
      GlobalInvertsLocal(i + n - 1, d);
    }
  }

  lemma {:induction false} NoneOwned(i: int, k: nat, d: Dist)
    requires Valid(d)
    ensures OwnedBelow(i, 0, k, d) == 0
  {
    if k > 0 {
      NoneOwned(i, k - 1, d);
    }
  }

  // ------------------------------------------------------------------------------------------------
  // Block by block, process after process
  // ------------------------------------------------------------------------------------------------

  /** The first inb indices belong to src; from then on the process after the one before takes over at every block. */
  lemma BlocksGoRound(ig: int, d: Dist)
    requires Spread(d) && ig >= 0
    ensures ig < d.inb ==> Owner(ig, d) == d.src
    ensures Owner(ig + 1, d) ==
            if ig + 1 >= d.inb && (ig + 1 - d.inb) % d.nb == 0
            then (if Owner(ig, d) + 1 < d.nprocs then Owner(ig, d) + 1 else 0)
            else Owner(ig, d)
  {
    if ig < d.inb {
      if ig + 1 == d.inb {
        assert Place(0, 0, 0, d) == ig + 1;
        OwnerOfPlace(0, 0, 0, d);
        DivModUnique(0, d.nb, 0, 0);
      }
    } else {
      var j, r, o := FindPlace(ig, d);
      OwnerOfPlace(j, r, o, d);
      var i := j * d.nprocs + r;
      if o + 1 < d.nb {
        assert Place(j, r, o + 1, d) == ig + 1;
        OwnerOfPlace(j, r, o + 1, d);
        DivModUnique(i * d.nb + (o + 1), d.nb, i, o + 1);
      } else {
        assert (i + 1) * d.nb == i * d.nb + d.nb;
        DivModUnique((i + 1) * d.nb, d.nb, i + 1, 0);
        if r + 1 < d.nprocs {
          assert Place(j, r + 1, 0, d) == ig + 1;
          OwnerOfPlace(j, r + 1, 0, d);
        } else {
          assert (j + 1) * d.nprocs == j * d.nprocs + d.nprocs;
          assert Place(j + 1, 0, 0, d) == ig + 1;
          OwnerOfPlace(j + 1, 0, 0, d);
        }
      }
    }
  }

  lemma OwnerFromStart(k: nat, d: Dist)
    requires Spread(d)
    ensures Owner(k, d) == OwnerFrom(k, d.inb, d.src, d.nb, d.nprocs)
  {
    if k >= d.inb {
      var proc := d.src + 1 + (k - d.inb) / d.nb;
      DivModUnique(proc, d.nprocs, proc / d.nprocs, proc % d.nprocs);
    }
  }

  lemma {:induction false} OwnedFromStart(n: nat, proc: int, d: Dist)
    requires Spread(d)
    ensures Owned(0, n, proc, d) == OwnedFrom(n, d.inb, d.src, d.nb, d.nprocs, proc)
  {
    hide Owner, OwnerFrom;
    if n > 0 {
      OwnedFromStart(n - 1, proc, d);
      OwnerFromStart(n - 1, d);
    }
  }

  lemma {:induction false} AllOwned(n: nat, d: Dist)
    requires Valid(d) && !Spread(d)
    ensures Owned(0, n, d.src, d) == n
  {
    if n > 0 {
      AllOwned(n - 1, d);
    }
  }

  /** The local index is the number of indices before it that the same process owns. */
  lemma LocalIsRank(ig: nat, d: Dist)
    requires Valid(d)
    ensures Local(ig, d) == Owned(0, ig, Owner(ig, d), d)
  {
    hide Owned, OwnedFrom, WholeBlocks, Congruent;
    var proc := Owner(ig, d);
    if !Spread(d) {
      AllOwned(ig, d);
    } else if ig < d.inb {
      OwnedFromStart(ig, proc, d);
      OwnedInFirst(ig, d.inb, d.src, d.nb, d.nprocs, proc);
    } else {
      RankOfPlace(ig, d);
    }
  }

  lemma RankOfPlace(ig: nat, d: Dist)
    requires Spread(d) && ig >= d.inb
    ensures Local(ig, d) == Owned(0, ig, Owner(ig, d), d)
  {
    hide Owned, OwnedFrom, WholeBlocks, Congruent, Local, Owner, OwnerFrom;
    var j, r, o := FindPlace(ig, d);
    var p, i, proc := d.nprocs, j * d.nprocs + r, Turn(r, d);
    var c := if proc < d.src then proc - d.src + p else proc - d.src;
    MulMono(0, j, p);
    OwnerOfPlace(j, r, o, d);
    LocalOfPlace(j, r, o, d);
    OwnedFromStart(ig, proc, d);
    OwnedInBlocks(i, o, d.inb, d.src, d.nb, p, proc, c);
    WholeBlocksCount(i, c, d.nb, p);
    CongruentCount(i + 1, c, p);
    if r + 1 < p {
      DivModUnique(i + 1, p, j, r + 1);
    } else {
      assert (j + 1) * p == j * p + p;
      DivModUnique(i + 1, p, j + 1, 0);
    }
  }
}
