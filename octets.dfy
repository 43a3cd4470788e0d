/**
 * Octets and the big-endian packing warp64 uses to carry a three-octet key
 * in the 24 least significant bits of one integer.
 *
 * The C code builds and takes apart such integers with shifts, `|`, `+` and
 * `& 0xff` on values whose bits never overlap; here they are the equivalent
 * multiplications, additions, divisions and remainders.
 */
module Octets {

  /** One octet, the range of `uint8_t`. */
  type Byte = x: int | 0 <= x < 256

  /** The value of `digits` read most significant digit first in base `radix`:
      what repeated `acc = (acc << s) | d` computes when `radix == 2^s`. */
  function BigEndian(digits: seq<int>, radix: int): (v: int)
    ensures radix >= 1 && (forall i :: 0 <= i < |digits| ==> 0 <= digits[i] < radix)
            ==> 0 <= v < Power(radix, |digits|)
    decreases |digits|
  {
    if digits == [] then 0
    else
      var init, d := BigEndian(digits[..|digits| - 1], radix), digits[|digits| - 1];
      assert radix >= 1 && 0 <= init < Power(radix, |digits| - 1) && 0 <= d < radix
             ==> init * radix + d < Power(radix, |digits| - 1) * radix by {
        if radix >= 1 && 0 <= init < Power(radix, |digits| - 1) {
          MulMono(init + 1, Power(radix, |digits| - 1), radix);
        }
      }
      init * radix + d
  }

  /** `radix` to the power `n`. */
  function Power(radix: int, n: nat): int {
    if n == 0 then 1 else Power(radix, n - 1) * radix
  }

  /** Multiplying by a non-negative factor keeps the order. */
  lemma {:induction false} MulMono(a: int, b: int, p: int)
    requires a <= b && p >= 0
    ensures a * p <= b * p
    decreases b - a
  {
    if a < b {
      MulMono(a, b - 1, p);
      assert b * p == (b - 1) * p + p;
    }
  }

  /** Takes a key apart into its octets: bits 23-16, 15-8 and 7-0, that is
      `(key >> 16) & 0xff`, `(key >> 8) & 0xff` and `key & 0xff`. On a negative
      `int32_t` the shift is arithmetic, which is what Dafny's division by a
      positive constant (rounding towards minus infinity) gives. */
  function Unpack(key: int): (kb: seq<Byte>)
    ensures |kb| == 3
    ensures 0 <= key < 0x100_0000 ==> key == (kb[0] as int * 256 + kb[1] as int) * 256 + kb[2] as int
  {
    var q := key / 0x100;
    assert key == q * 0x100 + key % 0x100;
    assert key / 0x1_0000 == q / 0x100;
    assert q == (q / 0x100) * 0x100 + q % 0x100;
    [key / 0x1_0000 % 256, key / 0x100 % 256, key % 256]
  }

  /** Packs three octets into a 24-bit key, `(kb[0] << 16) | (kb[1] << 8) | kb[2]`;
      unpacking gives the octets back. */
  function Pack(kb: seq<Byte>): (key: int)
    requires |kb| == 3
    ensures 0 <= key < 0x100_0000
    ensures Unpack(key) == kb
  {
    ByteTriple(kb);
    UnpackTriple(kb[0], kb[1], kb[2]);
    SameTriple(Unpack(BigEndian(kb, 256)), kb);
    BigEndian(kb, 256)
  }

  /** Every 24-bit value is the packing of its own octets. */
  lemma PackUnpack(key: int)
    requires 0 <= key < 0x100_0000
    ensures Pack(Unpack(key)) == key
  {
    ByteTriple(Unpack(key));
  }

  /** The octets of `(a * 256 + b) * 256 + c` are `a`, `b` and `c`. */
  lemma UnpackTriple(a: Byte, b: Byte, c: Byte)
    ensures var k := (a as int * 256 + b as int) * 256 + c as int;
            0 <= k < 0x100_0000 && k / 0x1_0000 % 256 == a && k / 0x100 % 256 == b && k % 256 == c
  {
    var k := (a as int * 256 + b as int) * 256 + c as int;
    assert k == a as int * 0x1_0000 + (b as int * 256 + c as int);
    assert k / 0x1_0000 == a;
    assert k / 0x100 == a as int * 256 + b as int;
  }

  /** The big-endian value of three octets, written out. */
  lemma ByteTriple(kb: seq<Byte>)
    requires |kb| == 3
    ensures BigEndian(kb, 256) == (kb[0] as int * 256 + kb[1] as int) * 256 + kb[2] as int
  {
    assert kb[..2][..1] == kb[..1] && kb[..1][..0] == [];
    assert BigEndian(kb[..1], 256) == kb[0];
    assert BigEndian(kb[..2], 256) == kb[0] as int * 256 + kb[1] as int;
  }

  /** Packing is one-to-one. */
  lemma PackInjective(a: seq<Byte>, b: seq<Byte>)
    requires |a| == 3 && |b| == 3
    ensures Pack(a) == Pack(b) <==> a == b
  {
    if Pack(a) == Pack(b) {
      assert a == Unpack(Pack(a)) == Unpack(Pack(b)) == b;
    }
  }

  /** Two triples of octets that agree at every position are equal. */
  lemma SameTriple(a: seq<Byte>, b: seq<Byte>)
    requires |a| == 3 && |b| == 3
    requires a[0] == b[0] && a[1] == b[1] && a[2] == b[2]
    ensures a == b
  {
  }

  /** 24 bits. */
  lemma Pow2Of24()
    ensures Power(2, 24) == 0x100_0000
  {
    assert Power(2, 6) == 64;
    assert Power(2, 12) == 0x1000;
    assert Power(2, 18) == 0x4_0000;
  }

  /** C's `^` on non-negative integers, bit by bit from the least
      significant: the low bit is the sum of the low bits modulo 2. It never
      leaves a range of whole bits that both operands are in. */
  function Xor(a: nat, b: nat): (r: nat)
    ensures forall n: nat :: a < Power(2, n) && b < Power(2, n) ==> r < Power(2, n)
    decreases a + b
  {
    if a == 0 then b
    else if b == 0 then a
    else 2 * Xor(a / 2, b / 2) + (a + b) % 2
  }

  /** A value XORed with itself is zero. */
  lemma {:induction false} XorSelf(a: nat)
    ensures Xor(a, a) == 0
  {
    if a != 0 {
      XorSelf(a / 2);
    }
  }

  /** XOR with `b` undoes XOR with `b`: the fold of key groups can be
      unwound one group at a time. */
  lemma {:induction false} XorCancel(a: nat, b: nat)
    ensures Xor(Xor(a, b), b) == a
    decreases a + b
  {
    if a == 0 {
      XorSelf(b);
    } else if b != 0 {
      XorCancel(a / 2, b / 2);
      XorHalves(Xor(a / 2, b / 2), a, b, Xor(a, b));
    }
  }

  /** The step of XorCancel: `x = Xor(a, b)` is `2h` plus a low bit, with
      `h` the XOR of the halves, so XORing `b` in again works on `h` and
      the low bits. */
  lemma XorHalves(h: nat, a: nat, b: nat, x: nat)
    requires a != 0 && b != 0 && x == 2 * h + (a + b) % 2 && Xor(h, b / 2) == a / 2
    ensures Xor(x, b) == a
  {
    if x == 0 {
      assert h == 0 && a / 2 == b / 2 && a % 2 == b % 2;
    } else {
      assert x / 2 == h && (x + b) % 2 == a % 2;
    }
  }
}
