/** Numbers as bytes, least significant first, and the strings and streams that hold them. */
module Bytes {
  import opened Arith
  import opened Options

  type Byte = x: int | 0 <= x < 256

  type Bytes = seq<Byte>

  /** A parser takes what it reads off the front of the bytes, or fails for want of bytes. */
  type Parser<!T> = Bytes -> Option<(T, Bytes)>

  /** Parsing gives x back, and leaves whatever follows. */
  ghost predicate RoundTrips<T>(get: Parser<T>, bytes: Bytes, x: T) {
    forall rest: Bytes :: get(bytes + rest) == Some((x, rest))
  }

  // ------------------------------------------------------------------------------------------------
  // Numbers
  // ------------------------------------------------------------------------------------------------

  function Pow256(n: nat): (p: nat)
    ensures p > 0
  {
    if n == 0 then 1 else 256 * Pow256(n - 1)
  }

  function PutNat(x: nat, n: nat): Bytes {
    if n == 0 then [] else [x % 256] + PutNat(x / 256, n - 1)
  }

  function NatOf(s: Bytes): nat {
    if s == [] then 0 else s[0] + 256 * NatOf(s[1..])
  }

  lemma {:induction false} NatPut(x: nat, n: nat)
    requires x < Pow256(n)
    ensures |PutNat(x, n)| == n && NatOf(PutNat(x, n)) == x
  {
    if n > 0 {
      NatPut(x / 256, n - 1);
    }
  }

  lemma {:induction false} PutLength(x: nat, n: nat)
    ensures |PutNat(x, n)| == n
  {
    if n > 0 {
      PutLength(x / 256, n - 1);
    }
  }

  lemma {:induction false} NatBelow(s: Bytes)
    ensures NatOf(s) < Pow256(|s|)
  {
    if s != [] {
      NatBelow(s[1..]);
    }
  }

  /** Two's complement */
  function PutInt(x: int, n: nat): Bytes {
    PutNat(x % Pow256(n), n)
  }

  function IntOf(s: Bytes): int {
    var u := NatOf(s);
    if 2 * u >= Pow256(|s|) then u - Pow256(|s|) else u
  }

  predicate FitsInt(x: int, n: nat) {
    0 <= 2 * x + Pow256(n) && 2 * x < Pow256(n)
  }

  lemma IntPut(x: int, n: nat)
    requires FitsInt(x, n)
    ensures |PutInt(x, n)| == n && IntOf(PutInt(x, n)) == x
  {
    if x >= 0 {
      DivModUnique(x, Pow256(n), 0, x);
    } else {
      DivModUnique(x, Pow256(n), -1, x + Pow256(n));
    }
    NatPut(x % Pow256(n), n);
  }

  function GetNat(s: Bytes, n: nat): Option<(nat, Bytes)> {
    if |s| < n then None else Some((NatOf(s[..n]), s[n..]))
  }

  function GetInt(s: Bytes, n: nat): Option<(int, Bytes)> {
    if |s| < n then None else Some((IntOf(s[..n]), s[n..]))
  }

  // The sizes of char, var_t, id_t, value_t and size_t

  function GetChar(s: Bytes): Option<(nat, Bytes)> { GetNat(s, 1) }

  function GetVar(s: Bytes): Option<(nat, Bytes)> { GetNat(s, 4) }

  function GetId(s: Bytes): Option<(int, Bytes)> { GetInt(s, 4) }

  function GetValue(s: Bytes): Option<(int, Bytes)> { GetInt(s, 8) }

  function GetSize(s: Bytes): Option<(nat, Bytes)> { GetNat(s, 8) }

  lemma NumbersRoundTrip(c: nat, v: nat, id: int, x: int, n: nat)
    ensures c < Pow256(1) ==> RoundTrips<nat>(GetChar, PutNat(c, 1), c)
    ensures v < Pow256(4) ==> RoundTrips<nat>(GetVar, PutNat(v, 4), v)
    ensures FitsInt(id, 4) ==> RoundTrips<int>(GetId, PutInt(id, 4), id)
    ensures FitsInt(x, 8) ==> RoundTrips<int>(GetValue, PutInt(x, 8), x)
    ensures n < Pow256(8) ==> RoundTrips<nat>(GetSize, PutNat(n, 8), n)
  {
    hide Pow256, PutNat, PutInt, NatOf, IntOf, FitsInt;
    if c < Pow256(1) { NatPut(c, 1); NatComesBack(c, 1); }
    if v < Pow256(4) { NatComesBack(v, 4); }
    if FitsInt(id, 4) { IntComesBack(id, 4); }
    if FitsInt(x, 8) { IntComesBack(x, 8); }
    if n < Pow256(8) { NatComesBack(n, 8); }
  }

  lemma NatComesBack(x: nat, n: nat)
    requires x < Pow256(n)
    ensures forall rest: Bytes :: GetNat(PutNat(x, n) + rest, n) == Some((x, rest))
  {
    hide Pow256, PutNat, NatOf;
    NatPut(x, n);
    forall rest: Bytes
      ensures GetNat(PutNat(x, n) + rest, n) == Some((x, rest))
    {
      Front(PutNat(x, n), rest);
    }
  }

  lemma IntComesBack(x: int, n: nat)
    requires FitsInt(x, n)
    ensures forall rest: Bytes :: GetInt(PutInt(x, n) + rest, n) == Some((x, rest))
  {
    hide Pow256, PutInt, IntOf, FitsInt;
    IntPut(x, n);
    forall rest: Bytes
      ensures GetInt(PutInt(x, n) + rest, n) == Some((x, rest))
    {
      Front(PutInt(x, n), rest);
    }
  }

  lemma Front(s: Bytes, rest: Bytes)
    ensures (s + rest)[..|s|] == s && (s + rest)[|s|..] == rest
  {
  }

  // ------------------------------------------------------------------------------------------------
  // Lists
  // ------------------------------------------------------------------------------------------------

  function PutMany<T>(put: T -> Bytes, xs: seq<T>): Bytes {
    if xs == [] then [] else PutMany(put, xs[..|xs| - 1]) + put(xs[|xs| - 1])
  }

  function GetMany<T>(get: Parser<T>, n: nat, s: Bytes): Option<(seq<T>, Bytes)> {
    if n == 0 then Some(([], s))
    else
      var (xs, s1) :- GetMany(get, n - 1, s);
      var (x, s2) :- get(s1);
      Some((xs + [x], s2))
  }

  lemma {:induction false} ManyRoundTrips<T>(get: Parser<T>, put: T -> Bytes, xs: seq<T>, rest: Bytes)
    requires forall x :: x in xs ==> RoundTrips(get, put(x), x)
    ensures GetMany(get, |xs|, PutMany(put, xs) + rest) == Some((xs, rest))
  {
    if xs == [] {
      assert [] + rest == rest;
    } else {
      var n := |xs| - 1;
      var front, last := PutMany(put, xs[..n]), put(xs[n]);
      ManyRoundTrips(get, put, xs[..n], last + rest);
      assert (front + last) + rest == front + (last + rest);
      assert RoundTrips(get, last, xs[n]);
      assert xs[..n] + [xs[n]] == xs;
    }
  }

  /** The number of elements, and the elements */
  function PutList<T>(put: T -> Bytes, xs: seq<T>): Bytes {
    PutNat(|xs|, 8) + PutMany(put, xs)
  }

  function GetList<T>(get: Parser<T>, s: Bytes): Option<(seq<T>, Bytes)> {
    var (n, s1) :- GetSize(s);
    GetMany(get, n, s1)
  }

  lemma ListRoundTrips<T>(get: Parser<T>, put: T -> Bytes, xs: seq<T>, rest: Bytes)
    requires (forall x :: x in xs ==> RoundTrips(get, put(x), x)) && |xs| < Pow256(8)
    ensures GetList(get, PutList(put, xs) + rest) == Some((xs, rest))
  {
    hide Pow256, PutNat, PutMany, GetMany, GetNat;
    NumbersRoundTrip(0, 0, 0, 0, |xs|);
    ManyRoundTrips(get, put, xs, rest);
    var head, tail := PutNat(|xs|, 8), PutMany(put, xs);
    assert (head + tail) + rest == head + (tail + rest);
    assert RoundTrips<nat>(GetSize, head, |xs|);
  }

  /** As parsers of their own */
  function Many<T>(get: Parser<T>, n: nat): Parser<seq<T>> {
    s => GetMany(get, n, s)
  }

  function List<T>(get: Parser<T>): Parser<seq<T>> {
    s => GetList(get, s)
  }

  // ------------------------------------------------------------------------------------------------
  // Strings and streams
  // ------------------------------------------------------------------------------------------------

  class Buffer {
    var bytes: Bytes

    constructor ()
      ensures bytes == []
    {
      bytes := [];
    }

    method Append(more: Bytes)
      modifies this
      ensures bytes == old(bytes) + more
    {
      bytes := bytes + more;
    }
  }

  /** x is what the parser reads in the state before, and `after` the state it leaves; None stands for a stream that
      has failed, and then nothing is known of x. */
  ghost predicate Reads<T>(before: Option<Bytes>, get: Parser<T>, after: Option<Bytes>, x: T) {
    if before.None? || get(before.value).None? then after.None?
    else after == Some(get(before.value).value.1) && x == get(before.value).value.0
  }

  /** An input stream; a read that finds too few bytes makes it fail, and then every later one fails too. */
  class Stream {
    var rest: Bytes
    var failed: bool

    constructor (bytes: Bytes)
      ensures State() == Some(bytes)
    {
      rest, failed := bytes, false;
    }

    ghost function State(): Option<Bytes>
      reads this
    {
      if failed then None else Some(rest)
    }

    method ReadNat(n: nat) returns (x: nat)
      modifies this
      ensures Reads(old(State()), s => GetNat(s, n), State(), x)
    {
      if !failed && |rest| >= n {
        x, rest := NatOf(rest[..n]), rest[n..];
      } else {
        x, failed := *, true;
      }
    }

    /** Reads n bytes, or what there is; `got` has the length that gcount then reports. */
    method ReadBlock(n: nat) returns (got: Bytes)
      modifies this
      ensures old(failed) ==> got == [] && failed
      ensures !old(failed) && n <= |old(rest)| ==> got == old(rest)[..n] && State() == Some(old(rest)[n..])
      ensures !old(failed) && n > |old(rest)| ==> got == old(rest) && failed
    {
      got := [];
      if !failed {
        if |rest| >= n {
          got, rest := rest[..n], rest[n..];
        } else {
          got, failed := rest, true;
        }
      }
    }

    method ReadInt(n: nat) returns (x: int)
      modifies this
      ensures Reads(old(State()), s => GetInt(s, n), State(), x)
    {
      if !failed && |rest| >= n {
        x, rest := IntOf(rest[..n]), rest[n..];
      } else {
        x, failed := *, true;
      }
    }
  }

  // ------------------------------------------------------------------------------------------------
  // Blocks of numbers
  // ------------------------------------------------------------------------------------------------

  /** The first n numbers of four bytes. */
  function IdsAt(s: Bytes, n: nat): seq<int>
    requires 4 * n <= |s|
  {
    if n == 0 then [] else IdsAt(s, n - 1) + [IntOf(s[4 * (n - 1)..4 * n])]
  }

  /** Reading a block reads the numbers in it. */
  lemma {:induction false} BlockIsMany(s: Bytes, n: nat)
    ensures GetMany(GetId, n, s) == if 4 * n <= |s| then Some((IdsAt(s, n), s[4 * n..])) else None
  {
    hide IntOf;
    if n > 0 {
      BlockIsMany(s, n - 1);
      if 4 * n <= |s| {
        var s1 := s[4 * (n - 1)..];
        assert s1[..4] == s[4 * (n - 1)..4 * n] && s1[4..] == s[4 * n..];
      }
    }
  }

  lemma {:induction false} IdsOfPrefix(s: Bytes, m: nat, n: nat)
    requires 4 * n <= m <= |s|
    ensures IdsAt(s[..m], n) == IdsAt(s, n)
  {
    hide IntOf;
    if n > 0 {
      IdsOfPrefix(s, m, n - 1);
      assert s[..m][4 * (n - 1)..4 * n] == s[4 * (n - 1)..4 * n];
    }
  }

  lemma ReadsNone<T>(st: Option<Bytes>, get: Parser<T>)
    ensures Reads(st, Many(get, 0), st, [])
  {
  }

  lemma ReadsMore<T>(st0: Option<Bytes>, get: Parser<T>, n: nat, st1: Option<Bytes>, xs: seq<T>, st2: Option<Bytes>,
                     x: T)
    requires Reads(st0, Many(get, n), st1, xs) && Reads(st1, get, st2, x)
    ensures Reads(st0, Many(get, n + 1), st2, xs + [x])
  {
  }

  lemma ReadsList<T>(st0: Option<Bytes>, get: Parser<T>, st1: Option<Bytes>, n: nat, st2: Option<Bytes>, xs: seq<T>)
    requires Reads(st0, GetSize, st1, n) && Reads(st1, Many(get, n), st2, xs)
    ensures Reads(st0, List(get), st2, xs)
  {
  }
}
