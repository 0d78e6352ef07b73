/** The C numeric types of basic_types.h. */
module BasicTypes {
  import opened Arith

  datatype Type = UChar | Char | UShort | Short | UInt | Int | ULong | Long | ULongLong | LongLong

  /** kMinValueStr */
  function MinValue(t: Type): int {
    match t
    case UChar => 0
    case Char => -128
    case UShort => 0
    case Short => -32768
    case UInt => 0
    case Int => -2147483648
    case ULong => 0
    case Long => -2147483648
    case ULongLong => 0
    case LongLong => -9223372036854775808
  }

  /** kMaxValueStr */
  function MaxValue(t: Type): int {
    match t
    case UChar => 255
    case Char => 127
    case UShort => 65535
    case Short => 32767
    case UInt => 4294967295
    case Int => 2147483647
    case ULong => 4294967295
    case Long => 2147483647
    case ULongLong => 18446744073709551615
    case LongLong => 9223372036854775807
  }

  predicate InBounds(x: int, t: Type) {
    MinValue(t) <= x <= MaxValue(t)
  }

  /** x modulo the number of values. */
  function Residue(x: int, range: int): (r: int)
    requires range > 0
    ensures 0 <= r < range
    ensures 0 <= x < range ==> r == x
    ensures -range <= x < 0 ==> r == x + range
  {
    if 0 <= x < range then
      DivModUnique(x, range, 0, x); x % range
    else if -range <= x < 0 then
      DivModUnique(x, range, -1, x + range); x % range
    else
      x % range
  }

  /** The value modulo twice half for the unsigned type, moved down by that much if too large for the signed one. */
  function Wrap(x: int, half: int, signed: bool): (r: int)
    requires half > 0
    ensures if signed then -half <= r < half else 0 <= r < 2 * half
    ensures (if signed then -half <= x < half else 0 <= x < 2 * half) ==> r == x
  {
    var r := Residue(x, 2 * half);
    if signed && r >= half then r - 2 * half else r
  }

  /** The number of values of a type narrower than value_t. */
  function Width(t: Type): nat
    requires IsNarrow(t)
  {
    match t
    case UChar | Char => 256
    case UShort | Short => 65536
    case UInt | Int => 4294967296
  }

  predicate IsNarrow(t: Type) {
    t.UChar? || t.Char? || t.UShort? || t.Short? || t.UInt? || t.Int?
  }

  /** CastTo, for a 64-bit value_t and a 64-bit long: the conversions to 64-bit types change nothing. */
  function CastTo(x: int, t: Type): (r: int)
    ensures IsNarrow(t) ==> InBounds(r, t)
    ensures InBounds(x, t) || !IsNarrow(t) ==> r == x
  {
    match t
    case UChar => Wrap(x, 128, false)
    case Char => Wrap(x, 128, true)
    case UShort => Wrap(x, 32768, false)
    case Short => Wrap(x, 32768, true)
    case UInt => Wrap(x, 2147483648, false)
    case Int => Wrap(x, 2147483648, true)
    case _ => x
  }

  lemma WrapResidue(x: int, half: int, signed: bool) returns (q: int)
    requires half > 0
    ensures x == Wrap(x, half, signed) + q * (2 * half)
  {
    var range := 2 * half;
    q := x / range;
    assert x == q * range + x % range;
    if Wrap(x, half, signed) != x % range {
      assert (q + 1) * range == q * range + range;
      q := q + 1;
    }
  }

  /** A cast to a narrow type gives the one value within its bounds that is the same modulo 2 to the width. */
  lemma CastResidue(x: int, t: Type) returns (q: int)
    requires IsNarrow(t)
    ensures x == CastTo(x, t) + q * Width(t) && InBounds(CastTo(x, t), t)
    ensures MaxValue(t) - MinValue(t) + 1 == Width(t)
  {
    hide Wrap;
    q := WrapResidue(x, Width(t) / 2, t.Char? || t.Short? || t.Int?);
  }

  predicate IsUnsigned(t: Type) {
    t.UChar? || t.UShort? || t.UInt? || t.ULong? || t.ULongLong?
  }

  /** The size in bytes; the bounds of the two long types are those of four. */
  function Size(t: Type): nat {
    match t
    case UChar | Char => 1
    case UShort | Short => 2
    case UInt | Int | ULong | Long => 4
    case ULongLong | LongLong => 8
  }

  /** Unsigned types start at 0, signed ones at the complement of their largest value, and each has as many values as
      its bits allow. */
  lemma BoundsOfSize(t: Type)
    ensures MinValue(t) == if IsUnsigned(t) then 0 else -MaxValue(t) - 1
    ensures MaxValue(t) - MinValue(t) + 1 == Pow2(8 * Size(t))
  {
    hide Pow2;
    EightMore(0);
    EightMore(8);
    EightMore(16);
    EightMore(24);
    EightMore(32);
    EightMore(40);
    EightMore(48);
    EightMore(56);
  }

  lemma EightMore(n: nat)
    ensures Pow2(0) == 1 && Pow2(n + 8) == 256 * Pow2(n)
  {
    assert Pow2(n + 8) == 2 * Pow2(n + 7) && Pow2(n + 7) == 2 * Pow2(n + 6) && Pow2(n + 6) == 2 * Pow2(n + 5);
    assert Pow2(n + 5) == 2 * Pow2(n + 4) && Pow2(n + 4) == 2 * Pow2(n + 3) && Pow2(n + 3) == 2 * Pow2(n + 2);
    assert Pow2(n + 2) == 2 * Pow2(n + 1) && Pow2(n + 1) == 2 * Pow2(n);
  }
}
