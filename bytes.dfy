/** Bytes as the integers 0..255 and the bitwise exclusive or that `data[i] ^ key[j]` computes on them. */
module Bytes {

  type Byte = b: int | 0 <= b < 256

  function Pow2(n: nat): (r: nat)
    ensures r >= 1
  {
    if n == 0 then 1 else 2 * Pow2(n - 1)
  }

  /** Bitwise exclusive or of two naturals, one bit at a time from the least significant. */
  function XorNat(a: nat, b: nat): (r: nat)
    decreases a + b
  {
    if a == 0 && b == 0 then 0
    else (if a % 2 == b % 2 then 0 else 1) + 2 * XorNat(a / 2, b / 2)
  }

  lemma {:induction false} XorNatBelow(a: nat, b: nat, width: nat)
    requires a < Pow2(width) && b < Pow2(width)
    ensures XorNat(a, b) < Pow2(width)
    decreases a + b
  {
    if a != 0 || b != 0 {
      XorNatBelow(a / 2, b / 2, width - 1);
    }
  }

  lemma {:induction false} XorNatCancels(a: nat, k: nat)
    ensures XorNat(XorNat(a, k), k) == a
    decreases a + k
  {
    if a != 0 || k != 0 {
      XorNatCancels(a / 2, k / 2);
      var x := XorNat(a, k);
      assert x / 2 == XorNat(a / 2, k / 2);
      assert x % 2 == (if a % 2 == k % 2 then 0 else 1);
    }
  }

  lemma {:induction false} XorNatCommutes(a: nat, b: nat)
    ensures XorNat(a, b) == XorNat(b, a)
    decreases a + b
  {
    if a != 0 || b != 0 {
      XorNatCommutes(a / 2, b / 2);
    }
  }

  lemma {:induction false} XorNatZero(a: nat)
    ensures XorNat(a, 0) == a
    decreases a
  {
    if a != 0 {
      XorNatZero(a / 2);
    }
  }

  /** `a ^ b` on two bytes; the result is again a byte. */
  function Xor(a: Byte, b: Byte): (r: Byte)
  {
    assert Pow2(8) == 256;
    XorNatBelow(a, b, 8);
    XorNat(a, b)
  }

  /** Combining twice with the same key byte gives the byte back. */
  lemma XorCancels(a: Byte, k: Byte)
    ensures Xor(Xor(a, k), k) == a
  {
    XorNatCancels(a, k);
  }

  /** `x ^ undefined` in JavaScript converts `undefined` to 0, which leaves the byte unchanged. */
  lemma XorZero(a: Byte)
    ensures Xor(a, 0) == a
  {
    XorNatZero(a);
  }

  lemma XorCommutes(a: Byte, b: Byte)
    ensures Xor(a, b) == Xor(b, a)
  {
    XorNatCommutes(a, b);
  }

  /** The key byte is determined by the input byte and the output byte. */
  lemma XorInjective(a: Byte, k1: Byte, k2: Byte)
    requires Xor(a, k1) == Xor(a, k2)
    ensures k1 == k2
  {
    XorCommutes(a, k1);
    XorCommutes(a, k2);
    XorCancels(k1, a);
    XorCancels(k2, a);
  }

  /** Two different key bytes never undo each other: the byte comes back changed. */
  lemma XorOtherKeyDiffers(a: Byte, k1: Byte, k2: Byte)
    requires k1 != k2
    ensures Xor(Xor(a, k1), k2) != a
  {
    if Xor(Xor(a, k1), k2) == a {
      XorCancels(a, k1);
      XorInjective(Xor(a, k1), k1, k2);
    }
  }
}
