/** Value types shared by the emulator. The header that declares `Byte` and
    `ControlFlags` (types.h) is not part of this model: `Byte` is taken as
    `uint8_t` and `ControlFlags` as the four flags named in `updateControls`. */
module Types {

  /** An 8-bit register or memory cell (`Byte`). */
  type Byte = x: int | 0 <= x < 0x100

  /** A 16-bit unsigned value (`uint16_t`): sp, pc, an address, a widened ALU result. */
  type Word = x: int | 0 <= x < 0x1_0000

  /** The 65536-byte address space of `Status::memory`. */
  type Memory = s: seq<Byte> | |s| == 0x1_0000 witness seq(0x1_0000, _ => 0)

  /** The flags `updateControls` can be asked to recompute. */
  datatype ControlFlag = Carry | Parity | Sign | Zero

  /** Storing an `int` into a `uint16_t`: reduction modulo 2^16. Every
      value the emulator stores is a 16-bit value plus or minus less than
      2^16, so one correction by 2^16 is the whole reduction. */
  function Wrap(i: int): Word
    requires -0x1_0000 <= i < 0x2_0000
  {
    if i < 0 then i + 0x1_0000 else if i < 0x1_0000 then i else i - 0x1_0000
  }

  /** `Wrap` is reduction modulo 2^16. */
  lemma WrapIsMod(i: int)
    requires -0x1_0000 <= i < 0x2_0000
    ensures Wrap(i) == i % 0x1_0000
  {
  }

  /** Reducing modulo 2^16 keeps the low byte. */
  lemma WrapLowByte(i: int)
    requires -0x1_0000 <= i < 0x2_0000
    ensures Wrap(i) % 0x100 == i % 0x100
  {
  }

  /** `(hi << 8) | lo`: the 16-bit value of a high/low byte pair. */
  function Word16(hi: Byte, lo: Byte): Word
  {
    hi * 0x100 + lo
  }

  /** `w >> 8` stored into a `Byte`. */
  function Hi(w: Word): Byte
  {
    w / 0x100
  }

  /** `w & 0xff`. */
  function Lo(w: Word): Byte
  {
    w % 0x100
  }

  /** Splitting a joined pair gives back its two bytes. */
  lemma WordJoinSplit(hi: Byte, lo: Byte)
    ensures Hi(Word16(hi, lo)) == hi && Lo(Word16(hi, lo)) == lo
  {
  }

  /** Joining the two halves of a word gives back the word. */
  lemma WordSplitJoin(w: Word)
    ensures Word16(Hi(w), Lo(w)) == w
  {
  }

  lemma WrapAdd(w: Word, k: int)
    requires -0x1_0000 < k < 0x1_0000
    ensures Wrap(Wrap(w + k) - k) == w
  {
  }

  /** A bitwise operator of the source, applied one bit position at a time. */
  datatype BitOp = AndBits | OrBits | XorBits

  /** The operator on two bits. */
  function CombineBit(op: BitOp, p: bool, q: bool): bool
  {
    match op
    case AndBits => p && q
    case OrBits => p || q
    case XorBits => p != q
  }

  /** `op` applied to the low `n` bits of `x` and `y`, bit by bit from
      the least significant end. */
  function Bitwise(op: BitOp, x: nat, y: nat, n: nat): (r: nat)
    ensures r < Pow2(n)
  {
    if n == 0 then 0
    else (if CombineBit(op, x % 2 == 1, y % 2 == 1) then 1 else 0) + 2 * Bitwise(op, x / 2, y / 2, n - 1)
  }

  /** `x & y` on bytes. */
  function And8(x: Byte, y: Byte): Byte
  {
    Pow2Eight(); Bitwise(AndBits, x, y, 8)
  }

  /** `x ^ y` on bytes. */
  function Xor8(x: Byte, y: Byte): Byte
  {
    Pow2Eight(); Bitwise(XorBits, x, y, 8)
  }

  /** `x | y` on bytes. */
  function Or8(x: Byte, y: Byte): Byte
  {
    Pow2Eight(); Bitwise(OrBits, x, y, 8)
  }

  /** `~x` stored back into a `Byte`: every one of the eight bits flipped. */
  function Not8(x: Byte): Byte
  {
    0xFF - x
  }

  lemma Pow2Eight()
    ensures Pow2(8) == 0x100
  {
    assert Pow2(1) == 2 && Pow2(2) == 4 && Pow2(3) == 8 && Pow2(4) == 16;
    assert Pow2(5) == 32 && Pow2(6) == 64 && Pow2(7) == 128;
  }

  /** Bit `k` of `x`, counting from 0 at the least significant end. */
  function Bit(x: int, k: nat): bool
  {
    (x / Pow2(k)) % 2 == 1
  }

  function Pow2(k: nat): (r: nat)
    ensures r > 0
  {
    if k == 0 then 1 else 2 * Pow2(k - 1)
  }
}
