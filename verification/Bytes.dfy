/**
  Machine integers of the C sources, and the bit operations `on_flow_read` uses to turn the
  length field of an OpenFlow header from network order into host order.
 */
module Bytes {

  /** `unsigned char` and `counter_t`. */
  type Byte = x: int | 0 <= x < 0x100

  /** `char`, which is signed on the platforms the program is built for. */
  type SignedChar = x: int | -0x80 <= x < 0x80

  /** `uint16_t`. */
  type Half = x: int | 0 <= x < 0x1_0000

  /** `unsigned int`. */
  type Word = x: int | 0 <= x < 0x1_0000_0000

  /** Conversion of an `int` to `counter_t`. */
  function ToByte(x: int): Byte {
    x % 0x100
  }

  /** Conversion of an `int` to `char`. */
  function ToSignedChar(x: int): SignedChar {
    var b := x % 0x100;
    if b < 0x80 then b else b - 0x100
  }

  /** Conversion of a `char` to `unsigned int`. */
  function SignedCharToWord(x: SignedChar): Word {
    if x < 0 then x + 0x1_0000_0000 else x
  }

  /** Bitwise or, bit by bit. */
  function BitOr(x: nat, y: nat): nat
    decreases x + y
  {
    if x == 0 && y == 0 then 0
    else 2 * BitOr(x / 2, y / 2) + (if x % 2 == 1 || y % 2 == 1 then 1 else 0)
  }

  function Pow2(k: nat): nat {
    if k == 0 then 1 else 2 * Pow2(k - 1)
  }

  /** A number below 2^k and a multiple of 2^k share no bit, so their bitwise or is their sum. */
  lemma {:induction false} BitOrDisjoint(x: nat, y: nat, k: nat)
    requires x < Pow2(k)
    ensures BitOr(x, y * Pow2(k)) == x + y * Pow2(k)
    decreases k
  {
    if k == 0 {
      BitOrZero(y);
    } else {
      var p := Pow2(k - 1);
      assert y * Pow2(k) == 2 * (y * p);
      BitOrDisjoint(x / 2, y, k - 1);
    }
  }

  lemma {:induction false} BitOrZero(y: nat)
    ensures BitOr(0, y) == y
  {
    if y > 0 {
      BitOrZero(y / 2);
    }
  }

  /** A 16-bit load on a little-endian host: the first byte in memory is the low one. */
  function LoadHalf(first: Byte, second: Byte): Half {
    first as int + 0x100 * (second as int)
  }

  /** `(v >> 8) | (v << 8)`, computed in `int` and stored back into a `uint16_t`. */
  function SwapHalf(v: Half): Half {
    BitOr(v / 0x100, (v as int) * 0x100) % 0x1_0000
  }

  /** The swap of the host-order load is the big-endian number in memory. */
  lemma SwapLoad(first: Byte, second: Byte)
    ensures SwapHalf(LoadHalf(first, second)) == 0x100 * (first as int) + second as int
  {
    var a: int, b: int := first, second;
    var v := a + 0x100 * b;
    assert v / 0x100 == b;
    BitOrDisjoint(b, v, 8);
    PowerOfEight();
    TruncateSum(0x100 * a + b, b);
  }

  lemma TruncateSum(x: Half, high: nat)
    ensures (x as int + high * 0x1_0000) % 0x1_0000 == x
  {
  }

  lemma PowerOfEight()
    ensures Pow2(8) == 0x100
  {
    assert Pow2(4) == 0x10;
  }
}
