/**
 * The machine's integer widths: `byte`, `sbyte` and `ushort` of the emulator, with the
 * wrap-around of C#'s unchecked arithmetic written out.
 */
module Bytes {

  type Byte = x: int | 0 <= x < 0x100
  type SByte = x: int | -0x80 <= x < 0x80
  type Word = x: int | 0 <= x < 0x1_0000

  /** `(ushort)(w + n)`: addition modulo 2^16. */
  function WordAdd(w: Word, n: int): Word {
    (w + n) % 0x1_0000
  }

  /** `(byte)(b + n)`: addition modulo 2^8. */
  function ByteAdd(b: Byte, n: int): Byte {
    (b + n) % 0x100
  }

  /** `(byte)w`: the low byte of a word. */
  function Lo(w: Word): Byte {
    w % 0x100
  }

  /** `(byte)(w >> 8)`: the high byte of a word, its page number. */
  function Hi(w: Word): Byte {
    w / 0x100
  }

  /** `(ushort)(lo | (hi << 8))`: the two bits ranges do not overlap, so the `|` is a sum. */
  function MakeWord(lo: Byte, hi: Byte): (w: Word)
    ensures Lo(w) == lo && Hi(w) == hi
  {
    lo + hi * 0x100
  }

  lemma SplitWord(w: Word)
    ensures MakeWord(Lo(w), Hi(w)) == w
  {
  }

  /** `(byte)v` for an `sbyte` v: the two's-complement bit pattern. */
  function ToByte(v: SByte): (b: Byte)
    ensures 0 <= v ==> b == v
    ensures v < 0 ==> b == v + 0x100
  {
    v % 0x100
  }

  /** `(sbyte)b`: reads a byte as a two's-complement number. */
  function ToSByte(b: Byte): (v: SByte)
    ensures ToByte(v) == b
    ensures b < 0x80 <==> 0 <= v
  {
    if b < 0x80 then b else b - 0x100
  }

  /** C#'s `^` on non-negative integers, one binary digit at a time. */
  function Xor(a: nat, b: nat): nat
    decreases a + b, 1
  {
    if a == 0 && b == 0 then 0 else XorDigits(a, b)
  }

  /** The lowest binary digit of `a ^ b`, below the xor of the remaining digits. */
  function XorDigits(a: nat, b: nat): nat
    requires a != 0 || b != 0
    decreases a + b, 0
  {
    2 * Xor(a / 2, b / 2) + (a % 2 + b % 2) % 2
  }

  /** Two numbers xor to 0 exactly when they are equal. */
  lemma {:induction false} XorZero(a: nat, b: nat)
    ensures Xor(a, b) == 0 <==> a == b
    decreases a + b
  {
    if a == 0 && b == 0 {
    } else {
      XorZero(a / 2, b / 2);
    }
  }

  /** Dropping the lowest binary digit commutes with `^`. */
  lemma XorHalf(a: nat, b: nat)
    ensures Xor(a, b) / 2 == Xor(a / 2, b / 2)
  {
  }

  /** `(a ^ b) >> 2 == (a >> 2) ^ (b >> 2)`. */
  lemma XorShift2(a: nat, b: nat)
    ensures Xor(a, b) / 4 == Xor(a / 4, b / 4)
  {
    XorHalf(a, b);
    XorHalf(a / 2, b / 2);
    assert a / 2 / 2 == a / 4 && b / 2 / 2 == b / 4;
  }

  /** `(a ^ b) >> 4 == (a >> 4) ^ (b >> 4)`. */
  lemma XorShift4(a: nat, b: nat)
    ensures Xor(a, b) / 16 == Xor(a / 16, b / 16)
  {
    XorShift2(a, b);
    XorShift2(a / 4, b / 4);
    assert a / 4 / 4 == a / 16 && b / 4 / 4 == b / 16;
  }

  /** `(a ^ b) >> 8 == (a >> 8) ^ (b >> 8)`: shifting out a byte commutes with `^`. */
  lemma XorShift8(a: nat, b: nat)
    ensures Xor(a, b) / 0x100 == Xor(a / 0x100, b / 0x100)
  {
    XorShift4(a, b);
    XorShift4(a / 16, b / 16);
    assert a / 16 / 16 == a / 0x100 && b / 16 / 16 == b / 0x100;
  }
}
