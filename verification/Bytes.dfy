/** Byte buffers: big-endian reads as Node's `Buffer` performs them. */
module Bytes {

  newtype byte = x: int | 0 <= x < 256

  function U16(s: seq<byte>, i: nat): (r: nat)
    requires i + 2 <= |s|
    ensures r < 0x1_0000
  {
    (s[i] as int) * 0x100 + s[i + 1] as int
  }

  function U32(s: seq<byte>, i: nat): (r: nat)
    requires i + 4 <= |s|
    ensures r < 0x1_0000_0000
  {
    U16(s, i) * 0x1_0000 + U16(s, i + 2)
  }

  function U64(s: seq<byte>, i: nat): nat
    requires i + 8 <= |s|
  {
    U32(s, i) * 0x1_0000_0000 + U32(s, i + 4)
  }

  /** Bitwise conjunction of two non-negative integers. */
  function BitAnd(a: nat, b: nat): nat
  {
    if a == 0 || b == 0 then 0 else 2 * BitAnd(a / 2, b / 2) + (a % 2) * (b % 2)
  }

  lemma {:induction false} BitAndSame(n: nat)
    ensures BitAnd(n, n) == n
  {
    if n != 0 {
      BitAndSame(n / 2);
    }
  }

  /** Halving a number that passes the power-of-two bit test. */
  lemma PowerOfTwoHalves(n: nat) returns (half: nat)
    requires n > 1 && BitAnd(n, n - 1) == 0
    ensures n == 2 * half && half >= 1 && BitAnd(half, half - 1) == 0
  {
    half := n / 2;
    if n == 2 * half + 1 {
      assert (n - 1) / 2 == half && (n - 1) % 2 == 0;
      assert BitAnd(n, n - 1) == 2 * BitAnd(half, half);
      BitAndSame(half);
      assert false;
    }
    assert (n - 1) / 2 == half - 1 && n % 2 == 0;
    assert BitAnd(n, n - 1) == 2 * BitAnd(half, half - 1);
  }

  /** The bit test `n & (n - 1)` leaves only multiples of 512 at or above 512. */
  lemma PowerOfTwoMultiple(n: nat) returns (quotient: nat)
    requires n >= 512 && BitAnd(n, n - 1) == 0
    ensures n == 512 * quotient && quotient >= 1
  {
    hide BitAnd;
    quotient := n;
    ghost var power := 1;
    while power < 512
      invariant power in {1, 2, 4, 8, 16, 32, 64, 128, 256, 512}
      invariant n == power * quotient && quotient >= 1 && BitAnd(quotient, quotient - 1) == 0
      decreases 512 - power
    {
      quotient := PowerOfTwoHalves(quotient);
      power := 2 * power;
    }
  }
}
