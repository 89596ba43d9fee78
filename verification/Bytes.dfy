/** Little-endian fixed-width integers. */
module Bytes {

  type Byte = x: int | 0 <= x < 256

  type Bytes = seq<Byte>

  const TWO_32: nat := 0x1_0000_0000
  const TWO_63: int := 0x8000_0000_0000_0000
  const TWO_64: nat := 0x1_0000_0000_0000_0000

  type U32 = x: nat | x < TWO_32

  /** The largest number of `w` bytes, plus one. */
  function Span(w: nat): nat {
    if w == 0 then 1 else 256 * Span(w - 1)
  }

  lemma SpanValues()
    ensures Span(2) == 0x1_0000 && Span(4) == TWO_32 && Span(8) == TWO_64
  {
    assert Span(1) == 256 && Span(2) == 0x1_0000 && Span(3) == 0x100_0000 && Span(4) == TWO_32;
    assert Span(5) == 0x100_0000_0000 && Span(6) == 0x1_0000_0000_0000 && Span(7) == 0x100_0000_0000_0000;
  }

  function Put(n: nat, w: nat): (r: Bytes)
    ensures |r| == w
  {
    if w == 0 then [] else [n % 256] + Put(n / 256, w - 1)
  }

  function Take(b: Bytes): nat {
    if b == [] then 0 else b[0] + 256 * Take(b[1..])
  }

  lemma {:induction false} TakePut(n: nat, w: nat)
    requires n < Span(w)
    ensures Take(Put(n, w)) == n
  {
    if w > 0 {
      TakePut(n / 256, w - 1);
      assert Put(n, w)[1..] == Put(n / 256, w - 1);
    }
  }

  lemma {:induction false} PutTake(b: Bytes)
    ensures Take(b) < Span(|b|) && Put(Take(b), |b|) == b
  {
    if b != [] {
      PutTake(b[1..]);
      assert Take(b) / 256 == Take(b[1..]) && Take(b) % 256 == b[0];
      assert [b[0]] + b[1..] == b;
    }
  }

  lemma DivTwice(n: nat, b: nat)
    requires b > 0
    ensures n / 256 / b == n / (256 * b)
  {
    var q, r := n / 256 / b, n / 256 % b;
    assert n / 256 == b * q + r;
    Regroup(b, q);
    Quotient(n, 256 * b, q, 256 * r + n % 256);
  }

  lemma Regroup(b: nat, q: nat)
    ensures 256 * (b * q) == (256 * b) * q
  {
  }

  lemma Quotient(n: nat, d: nat, q: nat, r: nat)
    requires d > 0 && n == d * q + r && r < d
    ensures n / d == q
  {
    var m := n / d;
    assert m < q ==> d * (m + 1) <= d * q;
    assert m > q ==> d * (q + 1) <= d * m;
  }

  lemma SpanPositive(w: nat)
    ensures Span(w) > 0
  {
  }

  /** The least significant byte comes first. */
  lemma {:induction false} LittleEndian(n: nat, w: nat, i: nat)
    requires i < w
    ensures Span(i) > 0 && Put(n, w)[i] == n / Span(i) % 256
  {
    SpanPositive(i);
    if i > 0 {
      LittleEndian(n / 256, w - 1, i - 1);
      DivTwice(n, Span(i - 1));
    }
  }

  /** `b` holds the number `n`, least significant byte first, from position `at` on in `w` bytes. */
  ghost predicate NumberAt(b: Bytes, at: nat, w: nat, n: nat) {
    at + w <= |b| && forall i :: 0 <= i < w ==> Span(i) > 0 && b[at + i] == n / Span(i) % 256
  }

  lemma NumberIsAt(b: Bytes, at: nat, w: nat, n: nat)
    requires at + w <= |b| && b[at..at + w] == Put(n, w)
    ensures NumberAt(b, at, w, n)
  {
    hide Span, Put;
    forall i | 0 <= i < w ensures Span(i) > 0 && b[at + i] == n / Span(i) % 256 {
      LittleEndian(n, w, i);
      assert b[at + i] == b[at..at + w][i];
    }
  }

  /** A signed 64-bit integer as its unsigned pattern, and back. */
  function Unsigned(x: int): nat
    requires -TWO_63 <= x < TWO_63
  {
    if x < 0 then x + TWO_64 else x
  }

  function Signed(u: nat): int {
    if u < TWO_63 then u else u - TWO_64
  }
}
