/** Division by a positive divisor, powers of two, and the C bit operators on non-negative ints. */
module Arith {

  function Min(a: int, b: int): int { if a <= b then a else b }

  function Max(a: int, b: int): int { if a >= b then a else b }

  predicate Increasing(s: seq<int>) {
    forall i, j :: 0 <= i < j < |s| ==> s[i] < s[j]
  }

  /** Quotient and remainder are the only pair that decomposes x. */
  lemma DivModUnique(x: int, m: int, q: int, r: int)
    requires m > 0 && 0 <= r < m && x == q * m + r
    ensures x / m == q && x % m == r
  {
    var d := x / m - q;
    assert x == (x / m) * m + x % m;
    assert d * m == r - x % m by {
      assert d * m == (x / m) * m - q * m;
    }
    assert d >= 1 ==> d * m >= m;
    assert d <= -1 ==> d * m <= -m;
  }

  /** k % 2 == 1 and k / 2, spelled out. */
  predicate Odd(k: nat) {
    k > 0 && !Odd(k - 1)
  }

  function Half(k: nat): (h: nat)
    ensures k == 2 * h + if Odd(k) then 1 else 0
  {
    if k < 2 then 0 else 1 + Half(k - 2)
  }

  /** j / 3, spelled out. */
  function Third(j: nat): (t: nat)
    ensures 3 * t <= j < 3 * t + 3
  {
    if j < 3 then 0 else 1 + Third(j - 3)
  }

  lemma OddAdd(a: nat, b: nat)
    ensures Odd(a + b) <==> Odd(a) != Odd(b)
  {
    var x, y, z := Half(a), Half(b), Half(a + b);
  }

  /** Dividing the next number. */
  lemma NextDivMod(x: nat, m: int)
    requires m > 0
    ensures (x + 1) / m == (if x % m + 1 < m then x / m else x / m + 1)
    ensures (x + 1) % m == (if x % m + 1 < m then x % m + 1 else 0)
  {
    var q, r := x / m, x % m;
    assert x == q * m + r;
    if r + 1 < m {
      DivModUnique(x + 1, m, q, r + 1);
    } else {
      assert (q + 1) * m == q * m + m;
      DivModUnique(x + 1, m, q + 1, 0);
    }
  }

  lemma MulMono(a: int, b: int, c: int)
    requires a <= b && c >= 0
    ensures a * c <= b * c
  {
    assert (b - a) * c >= 0;
  }

  function Pow2(n: nat): (p: nat)
    ensures p >= 1
  {
    if n == 0 then 1 else 2 * Pow2(n - 1)
  }

  lemma {:induction false} Pow2Mono(a: nat, b: nat)
    requires a <= b
    ensures Pow2(a) <= Pow2(b)
    decreases b
  {
    if a < b {
      Pow2Mono(a, b - 1);
    }
  }

  /** The C operator & on non-negative ints. */
  function BitAnd(x: nat, y: nat): nat
  {
    if x == 0 || y == 0 then 0
    else 2 * BitAnd(x / 2, y / 2) + (if x % 2 == 1 && y % 2 == 1 then 1 else 0)
  }

  /** The C operator ^ on non-negative ints. */
  function BitXor(x: nat, y: nat): nat
    decreases x + y
  {
    if x == 0 && y == 0 then 0
    else 2 * BitXor(x / 2, y / 2) + (if x % 2 != y % 2 then 1 else 0)
  }

  /** Is bit n of x set? */
  predicate Bit(x: nat, n: nat)
  {
    if n == 0 then x % 2 == 1 else Bit(x / 2, n - 1)
  }

  /** Are the lowest n bits of x clear, that is, is x a multiple of 2^n? */
  predicate Aligned(x: nat, n: nat)
  {
    n == 0 || (x % 2 == 0 && Aligned(x / 2, n - 1))
  }

  lemma {:induction false} AlignedIsMultiple(x: nat, n: nat)
    ensures Aligned(x, n) <==> x % Pow2(n) == 0
    decreases n
  {
    if n > 0 {
      AlignedIsMultiple(x / 2, n - 1);
      var p := Pow2(n - 1);
      var q, r := (x / 2) / p, (x / 2) % p;
      assert x / 2 == q * p + r;
      assert q * (2 * p) == 2 * (q * p);
      DivModUnique(x, 2 * p, q, 2 * r + x % 2);
    }
  }

  lemma {:induction false} AndLowMask(x: nat, n: nat)
    ensures BitAnd(x, Pow2(n) - 1) == 0 <==> Aligned(x, n)
    decreases n
  {
    if n == 0 {
    } else if x == 0 {
      AlignedZero(n);
    } else {
      AndLowMask(x / 2, n - 1);
      var y := Pow2(n) - 1;
      assert y / 2 == Pow2(n - 1) - 1 && y % 2 == 1;
      assert BitAnd(x, y) == 2 * BitAnd(x / 2, Pow2(n - 1) - 1) + x % 2;
    }
  }

  lemma {:induction false} AndBit(x: nat, n: nat)
    ensures BitAnd(x, Pow2(n)) != 0 <==> Bit(x, n)
    decreases n
  {
    if x == 0 {
      AlignedZero(n);
    } else if n == 0 {
      assert BitAnd(x / 2, 0) == 0;
    } else {
      AndBit(x / 2, n - 1);
    }
  }

  lemma {:induction false} XorZero(x: nat)
    ensures BitXor(x, 0) == x
  {
    if x > 0 {
      XorZero(x / 2);
    }
  }

  lemma {:induction false} XorBit(x: nat, n: nat)
    ensures Bit(x, n) ==> Pow2(n) <= x
    ensures BitXor(x, Pow2(n)) == if Bit(x, n) then x - Pow2(n) else x + Pow2(n)
    decreases n
  {
    if n == 0 {
      XorZero(x / 2);
      assert BitXor(x, 1) == 2 * BitXor(x / 2, 0) + (if x % 2 != 1 then 1 else 0);
    } else {
      XorBit(x / 2, n - 1);
      assert Pow2(n) / 2 == Pow2(n - 1);
    }
  }

  lemma {:induction false} AlignedZero(n: nat)
    ensures Aligned(0, n) && !Bit(0, n)
  {
    if n > 0 {
      AlignedZero(n - 1);
    }
  }

  lemma {:induction false} AlignedStep(x: nat, n: nat)
    ensures Aligned(x, n + 1) <==> Aligned(x, n) && !Bit(x, n)
    decreases n
  {
    if n > 0 {
      AlignedStep(x / 2, n - 1);
    }
  }

  /** Adding 2^n flips bit n and leaves the bits below alone. */
  lemma {:induction false} ShiftByPow2(x: nat, n: nat)
    ensures Aligned(x + Pow2(n), n) <==> Aligned(x, n)
    ensures Bit(x + Pow2(n), n) <==> !Bit(x, n)
    decreases n
  {
    if n > 0 {
      ShiftByPow2(x / 2, n - 1);
      assert (x + Pow2(n)) / 2 == x / 2 + Pow2(n - 1);
    }
  }

  lemma {:induction false} BitLeq(x: nat, n: nat)
    ensures Bit(x, n) ==> Pow2(n) <= x
    decreases n
  {
    if n > 0 {
      BitLeq(x / 2, n - 1);
    }
  }

  /** Only zero is a multiple of a power of two above it. */
  lemma {:induction false} AlignedBelow(x: nat, n: nat)
    requires x < Pow2(n)
    ensures Aligned(x, n) <==> x == 0
    decreases n
  {
    if n > 0 {
      AlignedBelow(x / 2, n - 1);
    }
  }

  /** The mask of the bits up to n, taken apart. */
  lemma {:induction false} MaskTopBit(n: nat)
    ensures Bit(2 * Pow2(n) - 1, n) && !Bit(Pow2(n) - 1, n)
    decreases n
  {
    if n > 0 {
      MaskTopBit(n - 1);
      assert (2 * Pow2(n) - 1) / 2 == 2 * Pow2(n - 1) - 1;
      assert (Pow2(n) - 1) / 2 == Pow2(n - 1) - 1;
    }
  }

  /** The number made of the lowest n bits of x. */
  function Low(x: nat, n: nat): (l: nat)
    ensures l < Pow2(n) && l <= x
  {
    if n == 0 then 0 else 2 * Low(x / 2, n - 1) + x % 2
  }

  lemma {:induction false} LowStep(x: nat, n: nat)
    ensures Low(x, n + 1) == Low(x, n) + (if Bit(x, n) then Pow2(n) else 0)
    decreases n
  {
    if n > 0 {
      LowStep(x / 2, n - 1);
    }
  }

  lemma {:induction false} LowAligned(x: nat, n: nat)
    ensures Aligned(x, n) <==> Low(x, n) == 0
    decreases n
  {
    if n > 0 {
      LowAligned(x / 2, n - 1);
    }
  }

  lemma {:induction false} LowAll(x: nat, n: nat)
    requires x < Pow2(n)
    ensures Low(x, n) == x
    decreases n
  {
    if n > 0 {
      LowAll(x / 2, n - 1);
    }
  }

  /** Clearing the top bit of a full mask. */
  lemma TopBitOff(n: nat)
    ensures BitXor(2 * Pow2(n) - 1, Pow2(n)) == Pow2(n) - 1
  {
    MaskTopBit(n);
    XorBit(2 * Pow2(n) - 1, n);
  }

  /** Setting the next bit of a full mask. */
  lemma TopBitOn(n: nat)
    ensures BitXor(Pow2(n) - 1, Pow2(n)) == 2 * Pow2(n) - 1
  {
    MaskTopBit(n);
    XorBit(Pow2(n) - 1, n);
  }

  lemma AndOne(x: nat)
    ensures BitAnd(x, 1) != 0 <==> Odd(x)
  {
    var h := Half(x);
    assert x / 2 == h && (x % 2 == 1 <==> Odd(x));
    assert BitAnd(x / 2, 0) == 0;
  }
}
