/** Process coordinates: the modular macros of hpl_grid.h and the hypercube sizes of HPL_grid_init.c. */
module Grid {
  import opened Arith

  function ModAdd(a: nat, b: nat, d: nat): nat {
    if a + b < d then a + b else a + b - d
  }

  function ModAdd1(a: nat, d: nat): nat {
    if a != d - 1 then a + 1 else 0
  }

  function ModSub(a: nat, b: nat, d: nat): int {
    if a < b then d + a - b else a - b
  }

  function ModSub1(a: nat, d: nat): int {
    if a != 0 then a - 1 else d - 1
  }

  /** Numbering the processes by their distance from the root is a bijection. */
  lemma DistanceInverse(root: nat, x: nat, d: nat)
    requires root < d && x < d
    ensures ModAdd(root, x, d) < d && ModSub(ModAdd(root, x, d), root, d) == x
    ensures 0 <= ModSub(x, root, d) < d && ModAdd(root, ModSub(x, root, d), d) == x
  {
  }

  /** The number of binary digits of k, at least one. */
  function Digits(k: nat): (n: nat)
    ensures n >= 1
    ensures k >= 1 ==> Pow2(n - 1) <= k
    ensures k < Pow2(n)
  {
    if k <= 1 then 1 else 1 + Digits(k / 2)
  }

  /** Rounds that a binomial tree over `size` processes needs. */
  function Rounds(size: nat): (r: nat)
    requires size >= 2
    ensures r >= 1 && Pow2(r - 1) < size <= Pow2(r)
  {
    Digits(size - 1)
  }

  /** The loop computing row_ip2 and row_hdim (col_ip2 and col_hdim): the largest power of two <= nprow. */
  method HypercubeOf(nprocs: nat) returns (ip2: nat, hdim: nat)
    requires nprocs >= 1
    ensures ip2 == Pow2(hdim) && ip2 <= nprocs < 2 * ip2
  {
    hdim, ip2 := 0, 1;
    var k := nprocs;
    while k > 1
      invariant k >= 1 && ip2 == Pow2(hdim)
      invariant k * ip2 <= nprocs < (k + 1) * ip2
    {
      var k' := k / 2;
      HalveBounds(k, ip2, nprocs);
      k, ip2, hdim := k', ip2 * 2, hdim + 1;
    }
  }

  lemma HalveBounds(k: nat, ip2: nat, n: nat)
    requires k * ip2 <= n < (k + 1) * ip2
    ensures (k / 2) * (ip2 * 2) <= n < (k / 2 + 1) * (ip2 * 2)
  {
    assert (k / 2) * (ip2 * 2) == (2 * (k / 2)) * ip2;
    assert (k / 2 + 1) * (ip2 * 2) == (2 * (k / 2) + 2) * ip2;
    MulMono(2 * (k / 2), k, ip2);
    MulMono(k + 1, 2 * (k / 2) + 2, ip2);
  }

  lemma DigitsHalve(k: nat)
    requires k > 1
    ensures Digits(k) == 1 + Digits(k / 2)
  {
  }

  lemma DigitsOne(k: nat)
    requires k <= 1
    ensures Digits(k) == 1
  {
  }

  /** The loop, for k processes less one. */
  method DoubleFor(start: nat) returns (ip2: nat, mask: nat)
    ensures ip2 == Pow2(Digits(start) - 1) && mask == 2 * ip2 - 1
  {
    hide Digits;
    mask, ip2 := 1, 1;
    var k := start;
    ghost var done: nat := 0;
    while k > 1
      invariant ip2 == Pow2(done) && mask == 2 * ip2 - 1 && Digits(k) + done == Digits(start)
    {
      DigitsHalve(k);
      k := k / 2;
      ip2 := ip2 * 2;
      mask := mask * 2;
      mask := mask + 1;
      done := done + 1;
    }
    DigitsOne(k);
  }

  /** The loop computing row_ip2m1 and row_mask (col_ip2m1 and col_mask) from nprocs - 1: the largest power of
      two <= nprocs - 1, and the mask of all bits up to and including it; both are 1 for one process. */
  method HypercubeBelow(nprocs: nat) returns (ip2: nat, mask: nat)
    requires nprocs >= 1
    ensures nprocs == 1 ==> ip2 == 1 && mask == 1
    ensures nprocs >= 2 ==> ip2 == Pow2(Rounds(nprocs) - 1) && mask == Pow2(Rounds(nprocs)) - 1
    ensures nprocs >= 2 ==> ip2 <= nprocs - 1 < 2 * ip2
  {
    hide Digits;
    ip2, mask := DoubleFor(nprocs - 1);
    DigitsOne(0);
  }
}
