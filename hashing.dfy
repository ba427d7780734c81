/**
 * Java's hash code arithmetic. A Java `int` is modelled by the unsigned reading of
 * its 32 bits, a `nat` below 2^32; wrap-around is reduction modulo 2^32.
 */
module Hashing {

  const Modulus: nat := 0x1_0000_0000

  /** The 32 bits that remain of `x` after wrap-around. */
  function Wrap(x: int): nat
  {
    x % Modulus
  }

  /** Bitwise exclusive or of the low `bits` bits of `a` and `b`. */
  function Xor(a: nat, b: nat, bits: nat): nat
    decreases bits
  {
    if bits == 0 then 0
    else (if a % 2 == b % 2 then 0 else 1) + 2 * Xor(a / 2, b / 2, bits - 1)
  }

  /** Adding a multiple of 2^32 leaves the wrapped value unchanged. */
  lemma WrapIgnoresMultiples(y: int, q: int)
    ensures Wrap(y + q * Modulus) == Wrap(y)
  {
    var r := y % Modulus;
    assert y == (y / Modulus) * Modulus + r;
    assert y + q * Modulus == (y / Modulus + q) * Modulus + r;
  }

  /** Wrapping an intermediate result of `a * x + c` does not change the final bits. */
  lemma WrapAffine(x: int, a: int, c: int)
    ensures Wrap(a * Wrap(x) + c) == Wrap(a * x + c)
  {
    var q := x / Modulus;
    assert x == q * Modulus + Wrap(x);
    assert a * x + c == (a * Wrap(x) + c) + (a * q) * Modulus;
    WrapIgnoresMultiples(a * Wrap(x) + c, a * q);
  }

  /** The hash polynomial s[0]*31^(n-1) + ... + s[n-1], without wrap-around. */
  function Polynomial(s: string): int
    decreases |s|
  {
    if s == [] then 0 else 31 * Polynomial(s[..|s| - 1]) + s[|s| - 1] as int
  }

  /** `String.hashCode()`, computed with a wrap-around after each step as Java's `int` does. */
  function StringHash(s: string): (h: nat)
    ensures h < Modulus
    decreases |s|
  {
    if s == [] then 0
    else Wrap(31 * StringHash(s[..|s| - 1]) + s[|s| - 1] as int)
  }

  /** Wrapping after every step gives the same 32 bits as wrapping the whole polynomial once. */
  lemma {:induction false} StringHashIsPolynomial(s: string)
    ensures StringHash(s) == Wrap(Polynomial(s))
    decreases |s|
  {
    if s != [] {
      var p := s[..|s| - 1];
      StringHashIsPolynomial(p);
      WrapAffine(Polynomial(p), 31, s[|s| - 1] as int);
    }
  }
}
