/** What the instructions of `Emulator::emulateOp` (lib/emulator.cpp)
    guarantee, stated about the specification functions of `Semantics`:
    flag meanings, carries and borrows, round trips and involutions, frame
    conditions, and the program-counter step of every instruction against
    the instruction lengths of the Intel 8080 manual. */
module Properties {
  import opened Types
  import opened Auxiliary
  import opened Isa
  import opened Semantics

  // ---------------------------------------------------------------------
  // Flags

  /** What S, Z and P mean for the byte an operation leaves behind: Z when
      it is 0, S when its bit 7 is set, P when it has an even number of 1
      bits. */
  predicate Describes(f: Flags, v: Byte)
  {
    && (f.z <==> v == 0)
    && (f.s <==> Bit(v, 7))
    && (f.p <==> OnesBelow(v, 8) % 2 == 0)
  }

  lemma Pow2Seven()
    ensures Pow2(7) == 0x80
  {
    Pow2Eight();
  }

  /** `(result & 0x80) != 0` looks at bit 7 of the low byte. */
  lemma SignOfLowByte(r: Word)
    ensures SignOf(r) <==> Bit(r % 0x100, 7)
  {
    Pow2Seven();
    var q, v := r / 0x100, r % 0x100;
    assert r == 0x100 * q + v;
    assert r == 0x80 * (2 * q + v / 0x80) + v % 0x80;
    DivUnique(r, 0x80, 2 * q + v / 0x80, v % 0x80);
  }

  /** Recomputing S, Z and P from a result makes them describe its low
      byte, whatever they were before. */
  lemma UpdateDescribes(f: Flags, r: Word, affected: set<ControlFlag>)
    requires SZP_FLAGS <= affected
    ensures Describes(UpdateFlags(f, r, affected), r % 0x100)
  {
    SignOfLowByte(r);
    PopcountOfByte(r % 0x100);
    LowByteCount(r);
  }

  /** `updateControls` visits the flags of an `unordered_set` in an
      unspecified order; the result does not depend on how the set is
      split into successive calls, and repeating a call changes nothing. */
  lemma UpdateFlagsCompose(f: Flags, r: Word, s1: set<ControlFlag>, s2: set<ControlFlag>)
    ensures UpdateFlags(UpdateFlags(f, r, s1), r, s2) == UpdateFlags(f, r, s1 + s2)
    ensures UpdateFlags(UpdateFlags(f, r, s1), r, s1) == UpdateFlags(f, r, s1)
  {
  }

  /** A flag outside the set keeps its value. */
  lemma UpdateFlagsFrame(f: Flags, r: Word, affected: set<ControlFlag>)
    ensures Carry !in affected ==> UpdateFlags(f, r, affected).c == f.c
    ensures Sign !in affected ==> UpdateFlags(f, r, affected).s == f.s
    ensures Zero !in affected ==> UpdateFlags(f, r, affected).z == f.z
    ensures Parity !in affected ==> UpdateFlags(f, r, affected).p == f.p
  {
  }

  // ---------------------------------------------------------------------
  // Bitwise operations

  /** Bit `k` of `op` applied to `x` and `y` is `op` applied to bit `k` of
      each: the bit-level meaning of `&`, `|` and `^`. */
  lemma {:induction false} BitwiseBit(op: BitOp, x: nat, y: nat, n: nat, k: nat)
    requires k < n
    ensures Bit(Bitwise(op, x, y, n), k) == CombineBit(op, Bit(x, k), Bit(y, k))
  {
    var r := Bitwise(op, x, y, n);
    BitwiseUnfold(op, x, y, n);
    if k == 0 {
      BitZero(r);
      BitZero(x);
      BitZero(y);
    } else {
      BitShift(r, k - 1);
      BitShift(x, k - 1);
      BitShift(y, k - 1);
      BitwiseBit(op, x / 2, y / 2, n - 1, k - 1);
    }
  }

  /** The low bit and the rest of a bitwise result. */
  lemma BitwiseUnfold(op: BitOp, x: nat, y: nat, n: nat)
    requires n > 0
    ensures Bitwise(op, x, y, n) % 2 == 1 <==> CombineBit(op, x % 2 == 1, y % 2 == 1)
    ensures Bitwise(op, x, y, n) / 2 == Bitwise(op, x / 2, y / 2, n - 1)
  {
  }

  lemma BitZero(x: nat)
    ensures Bit(x, 0) == (x % 2 == 1)
  {
    assert Pow2(0) == 1;
  }

  /** `x ^ x == 0`. */
  lemma {:induction false} XorSelf(x: nat, n: nat)
    ensures Bitwise(XorBits, x, x, n) == 0
  {
    if n > 0 {
      XorSelf(x / 2, n - 1);
    }
  }

  /** `x & x == x` and `x | x == x` for an `n`-bit `x`. */
  lemma {:induction false} AndOrSelf(op: BitOp, x: nat, n: nat)
    requires op != XorBits
    requires x < Pow2(n)
    ensures Bitwise(op, x, x, n) == x
  {
    if n > 0 {
      assert x / 2 < Pow2(n - 1);
      AndOrSelf(op, x / 2, n - 1);
    }
  }

  /** `&`, `|` and `^` are commutative. */
  lemma {:induction false} BitwiseCommutes(op: BitOp, x: nat, y: nat, n: nat)
    ensures Bitwise(op, x, y, n) == Bitwise(op, y, x, n)
  {
    if n > 0 {
      BitwiseCommutes(op, x / 2, y / 2, n - 1);
    }
  }

  /** `~x` flips each of the eight bits. */
  lemma NotBit(x: Byte, k: nat)
    requires k < 8
    ensures Bit(Not8(x), k) == !Bit(x, k)
  {
    var p := Pow2(k);
    var q, r := x / p, x % p;
    assert x == p * q + r;
    Pow2Eight();
    Pow2Split(k);
    var w := Pow2(8) / p;
    assert 0xFF == p * (w - 1) + (p - 1);
    assert 0xFF - x == p * (w - 1 - q) + (p - 1 - r);
    DivUnique(0xFF - x, p, w - 1 - q, p - 1 - r);
    assert w % 2 == 0;
    assert (w - 1 - q) % 2 == 1 - q % 2;
  }

  /** 2^8 is 2^k times an even number for k < 8. */
  lemma {:induction false} Pow2Split(k: nat)
    requires k < 8
    ensures Pow2(8) == Pow2(k) * (Pow2(8) / Pow2(k))
    ensures (Pow2(8) / Pow2(k)) % 2 == 0
  {
    Pow2Eight();
    assert Pow2(1) == 2 && Pow2(2) == 4 && Pow2(3) == 8 && Pow2(4) == 16;
    assert Pow2(5) == 32 && Pow2(6) == 64 && Pow2(7) == 128;
  }

  // ---------------------------------------------------------------------
  // The accumulator operations

  /** Every accumulator operation changes only A, the flags and pc, which
      steps over the opcode byte. */
  lemma AluStepChanges(m: State, op: AluOp, x: Byte)
    ensures var m' := AluStep(m, op, x);
      m' == m.(a := m'.a, flags := m'.flags, pc := Wrap(m.pc + 1))
  {
  }

  /** ADD, ADC, SUB, SBB: A is the low byte of the widened result and all
      four flags are computed from it. */
  lemma ArithStep(m: State, op: AluOp, x: Byte)
    requires !IsLogic(op) && op != CmpOp
    ensures var r := ArithResult(op, m.a, x, m.flags.c);
      && AluStep(m, op, x).a == r % 0x100
      && AluStep(m, op, x).flags == UpdateFlags(m.flags, r, ALL_FLAGS)
  {
  }

  /** ADD: A gets the sum modulo 256, C is the carry out of bit 7, S Z P
      describe the new A. */
  lemma AddSpec(m: State, x: Byte)
    ensures var m' := AluStep(m, AddOp, x);
      && m'.a == (m.a + x) % 0x100
      && (m'.flags.c <==> m.a + x > 0xFF)
      && Describes(m'.flags, m'.a)
      && m' == m.(a := m'.a, flags := m'.flags, pc := Wrap(m.pc + 1))
  {
    AluStepChanges(m, AddOp, x);
    ArithStep(m, AddOp, x);
    UpdateDescribes(m.flags, m.a + x, ALL_FLAGS);
  }

  /** ADC: as ADD with the incoming carry added in. */
  lemma AdcSpec(m: State, x: Byte)
    ensures var cin := if m.flags.c then 1 else 0;
      var m' := AluStep(m, AdcOp, x);
      && m'.a == (m.a + x + cin) % 0x100
      && (m'.flags.c <==> m.a + x + cin > 0xFF)
      && Describes(m'.flags, m'.a)
      && m' == m.(a := m'.a, flags := m'.flags, pc := Wrap(m.pc + 1))
  {
    AluStepChanges(m, AdcOp, x);
    ArithStep(m, AdcOp, x);
    UpdateDescribes(m.flags, m.a + x + (if m.flags.c then 1 else 0), ALL_FLAGS);
  }

  /** SUB: A gets the difference modulo 256 and C is the borrow, set
      exactly when the operand exceeds A. */
  lemma SubSpec(m: State, x: Byte)
    ensures var m' := AluStep(m, SubOp, x);
      && m'.a == (m.a - x) % 0x100
      && (m'.flags.c <==> m.a < x)
      && Describes(m'.flags, m'.a)
      && m' == m.(a := m'.a, flags := m'.flags, pc := Wrap(m.pc + 1))
  {
    AluStepChanges(m, SubOp, x);
    ArithStep(m, SubOp, x);
    UpdateDescribes(m.flags, Wrap(m.a - x), ALL_FLAGS);
    WrapLowByte(m.a - x);
  }

  /** SBB: as SUB with the incoming carry subtracted as well; C is set
      exactly when the operand plus the carry exceeds A. */
  lemma SbbSpec(m: State, x: Byte)
    ensures var cin := if m.flags.c then 1 else 0;
      var m' := AluStep(m, SbbOp, x);
      && m'.a == (m.a - x - cin) % 0x100
      && (m'.flags.c <==> m.a < x + cin)
      && Describes(m'.flags, m'.a)
      && m' == m.(a := m'.a, flags := m'.flags, pc := Wrap(m.pc + 1))
  {
    var cin := if m.flags.c then 1 else 0;
    var r := Wrap(m.a - x - cin);
    assert ArithResult(SbbOp, m.a, x, m.flags.c) == r;
    AluStepChanges(m, SbbOp, x);
    ArithStep(m, SbbOp, x);
    UpdateDescribes(m.flags, r, ALL_FLAGS);
    WrapLowByte(m.a - x - cin);
  }

  /** CMP: A is kept; Z is set exactly when A equals the operand and C
      exactly when A is below it. */
  lemma CmpSpec(m: State, x: Byte)
    ensures var m' := AluStep(m, CmpOp, x);
      && (m'.flags.z <==> m.a == x)
      && (m'.flags.c <==> m.a < x)
      && Describes(m'.flags, (m.a - x) % 0x100)
      && m' == m.(flags := m'.flags, pc := Wrap(m.pc + 1))
  {
    var r := Wrap(m.a - x);
    AluStepChanges(m, CmpOp, x);
    assert AluStep(m, CmpOp, x).flags == UpdateFlags(m.flags, r, ALL_FLAGS);
    UpdateDescribes(m.flags, r, ALL_FLAGS);
    WrapLowByte(m.a - x);
  }

  /** The operator of `&`, `^` or `|` an accumulator operation applies. */
  function BitOpOf(op: AluOp): BitOp
    requires IsLogic(op)
  {
    if op == AnaOp then AndBits else if op == XraOp then XorBits else OrBits
  }

  /** Each bit of the result of ANA, XRA or ORA is the operator applied to
      that bit of each operand. */
  lemma LogicBits(op: AluOp, a: Byte, x: Byte)
    requires IsLogic(op)
    ensures forall k :: 0 <= k < 8 ==> Bit(LogicResult(op, a, x), k) == CombineBit(BitOpOf(op), Bit(a, k), Bit(x, k))
  {
    Pow2Eight();
    assert LogicResult(op, a, x) == Bitwise(BitOpOf(op), a, x, 8);
    forall k | 0 <= k < 8
      ensures Bit(Bitwise(BitOpOf(op), a, x, 8), k) == CombineBit(BitOpOf(op), Bit(a, k), Bit(x, k))
    {
      BitwiseBit(BitOpOf(op), a, x, 8, k);
    }
  }

  /** ANA, XRA, ORA: every bit of the new A is the operator applied to
      the bits of A and the operand; C is cleared; S Z P describe the new
      A. */
  lemma LogicSpec(m: State, op: AluOp, x: Byte)
    requires IsLogic(op)
    ensures var m' := AluStep(m, op, x);
      && (forall k :: 0 <= k < 8 ==> Bit(m'.a, k) == CombineBit(BitOpOf(op), Bit(m.a, k), Bit(x, k)))
      && !m'.flags.c
      && Describes(m'.flags, m'.a)
      && m' == m.(a := m'.a, flags := m'.flags, pc := Wrap(m.pc + 1))
  {
    var v := LogicResult(op, m.a, x);
    AluStepChanges(m, op, x);
    assert AluStep(m, op, x).a == v && AluStep(m, op, x).flags == UpdateFlags(m.flags, v, SZP_FLAGS).(c := false);
    LogicBits(op, m.a, x);
    LogicFlags(m.flags, v);
  }

  /** S Z P computed from a byte, then C cleared, describe that byte. */
  lemma LogicFlags(f: Flags, v: Byte)
    ensures Describes(UpdateFlags(f, v, SZP_FLAGS).(c := false), v)
  {
    UpdateDescribes(f, v, SZP_FLAGS);
    assert v % 0x100 == v;
  }

  /** XRA A clears A and sets Z: the idiom for zeroing the accumulator. */
  lemma XraSelfClears(m: State)
    ensures AluStep(m, XraOp, m.a).a == 0
    ensures AluStep(m, XraOp, m.a).flags.z && !AluStep(m, XraOp, m.a).flags.c
  {
    XorSelf(m.a, 8);
  }

  /** ANA A and ORA A keep A and only recompute the flags. */
  lemma AndOrSelfKeeps(m: State, op: AluOp)
    requires op == AnaOp || op == OraOp
    ensures AluStep(m, op, m.a).a == m.a
  {
    Pow2Eight();
    AndOrSelf(if op == AnaOp then AndBits else OrBits, m.a, 8);
  }

  /** The order of the operands of ANA, XRA and ORA does not matter. */
  lemma LogicCommutes(op: AluOp, a: Byte, x: Byte)
    requires IsLogic(op)
    ensures LogicResult(op, a, x) == LogicResult(op, x, a)
  {
    BitwiseCommutes(if op == AnaOp then AndBits else if op == XraOp then XorBits else OrBits, a, x, 8);
  }

  /** The immediate forms do what the register forms do, with the byte
      after the opcode as operand, and are one byte longer. */
  lemma AluImmediateSpec(m: State, op: AluOp)
    ensures AluImmediate(m, op) == AluStep(m, op, m.mem[Wrap(m.pc + 1)]).(pc := Wrap(m.pc + 2))
  {
  }

  // ---------------------------------------------------------------------
  // Increments and decrements

  /** Of the registers, sp, the interrupt bit and memory, `m'` differs
      from `m` at most in the operand `r`: another register, or memory
      anywhere but at HL (anywhere at all when `r` is a register). */
  predicate OnlyOperandChanges(m: State, m': State, r: Reg)
  {
    && (forall q: Reg :: q != r && q != M ==> Get(m', q) == Get(m, q))
    && m'.sp == m.sp && m'.interruptEnabled == m.interruptEnabled
    && (r != M ==> m'.mem == m.mem)
    && (forall k :: 0 <= k < 0x1_0000 && k != AddrHL(m) ==> m'.mem[k] == m.mem[k])
  }

  /** Writing the operand, replacing the flags and moving pc: the operand
      holds the value, and the rest keeps to the operand's frame. */
  lemma OperandUpdate(m: State, r: Reg, f: Flags, v: Byte, n: nat)
    requires n <= 3
    ensures var m' := Advance(Set(m.(flags := f), r, v), n);
      Get(m', r) == v && m'.flags == f && m'.pc == Wrap(m.pc + n) && OnlyOperandChanges(m, m', r)
  {
  }

  /** INR: the operand goes up by one modulo 256, S Z P describe it, C is
      untouched, and nothing but the operand, the flags and pc changes. */
  lemma IncrementSpec(m: State, r: Reg)
    ensures var m' := Increment(m, r);
      && Get(m', r) == (Get(m, r) + 1) % 0x100
      && Describes(m'.flags, Get(m', r))
      && m'.flags.c == m.flags.c
      && m'.pc == Wrap(m.pc + 1)
      && OnlyOperandChanges(m, m', r)
  {
    var tmp := Get(m, r) + 1;
    OperandUpdate(m, r, UpdateFlags(m.flags, tmp, SZP_FLAGS), tmp % 0x100, 1);
    UpdateDescribes(m.flags, tmp, SZP_FLAGS);
  }

  /** DCR: the operand goes down by one modulo 256, S Z P describe it, C
      is untouched, and nothing but the operand, the flags and pc changes. */
  lemma DecrementSpec(m: State, r: Reg)
    ensures var m' := Decrement(m, r);
      && Get(m', r) == (Get(m, r) - 1) % 0x100
      && Describes(m'.flags, Get(m', r))
      && m'.flags.c == m.flags.c
      && m'.pc == Wrap(m.pc + 1)
      && OnlyOperandChanges(m, m', r)
  {
    var tmp := Wrap(Get(m, r) - 1);
    OperandUpdate(m, r, UpdateFlags(m.flags, tmp, SZP_FLAGS), tmp % 0x100, 1);
    UpdateDescribes(m.flags, tmp, SZP_FLAGS);
    WrapLowByte(Get(m, r) - 1);
  }

  lemma DownUp(v: Byte)
    ensures ((v - 1) % 0x100 + 1) % 0x100 == v
  {
    if v == 0 {
      assert (v - 1) % 0x100 == 0xFF;
    }
  }

  /** DCR then INR on the same operand gives the operand back. */
  lemma DecrementIncrement(m: State, r: Reg)
    ensures Get(Increment(Decrement(m, r), r), r) == Get(m, r)
  {
    DecrementSpec(m, r);
    IncrementSpec(Decrement(m, r), r);
    DownUp(Get(m, r));
  }

  /** INX / DCX: the pair moves by one modulo 2^16; flags and everything
      else but the pair and pc are kept. */
  lemma StepPairSpec(m: State, rp: Pair, delta: int)
    requires delta == 1 || delta == -1
    ensures var m' := StepPair(m, rp, delta);
      && PairValue(m', rp) == (PairValue(m, rp) + delta) % 0x1_0000
      && (forall other: Pair :: other != rp ==> PairValue(m', other) == PairValue(m, other))
      && m'.flags == m.flags && m'.mem == m.mem && m'.sp == m.sp && m'.a == m.a
      && m'.interruptEnabled == m.interruptEnabled
      && m'.pc == Wrap(m.pc + 1)
  {
    var w := Wrap(PairValue(m, rp) + delta);
    WordSplitJoin(w);
    WrapIsMod(PairValue(m, rp) + delta);
  }

  /** INX then DCX of the same pair leaves everything as it was except
      that pc has moved past both. */
  lemma IncrementDecrementPair(m: State, rp: Pair)
    ensures StepPair(StepPair(m, rp, 1), rp, -1) == Advance(m, 2)
  {
    var v: int := PairValue(m, rp);
    var w: Word := Wrap(v + 1);
    var m1 := StepPair(m, rp, 1);
    WordSplitJoin(w);
    assert PairValue(m1, rp) == w;
    WrapAdd(v, 1);
    WordJoinSplit(PairHi(m, rp), PairLo(m, rp));
    assert StepPair(m1, rp, -1) == Advance(SetPair(m1, rp, PairHi(m, rp), PairLo(m, rp)), 1);
  }

  /** DAD: HL gets HL plus the pair modulo 2^16, C is the carry out of bit
      15, and nothing else but pc changes. */
  lemma DoubleAddSpec(m: State, hi: Byte, lo: Byte)
    ensures var m' := DoubleAdd(m, hi, lo);
      var sum := AddrHL(m) + Word16(hi, lo);
      && AddrHL(m') == sum % 0x1_0000
      && (m'.flags.c <==> sum > 0xFFFF)
      && m' == m.(h := m'.h, l := m'.l, flags := m.flags.(c := m'.flags.c), pc := Wrap(m.pc + 1))
  {
    LowWordBytes(AddrHL(m) + Word16(hi, lo));
  }

  /** The two low bytes of a number are the bytes of its low 16 bits. */
  lemma LowWordBytes(sum: nat)
    ensures (sum / 0x100) % 0x100 == (sum % 0x1_0000) / 0x100
    ensures sum % 0x100 == (sum % 0x1_0000) % 0x100
  {
    var w := sum % 0x1_0000;
    assert sum == 0x1_0000 * (sum / 0x1_0000) + w;
    assert sum == 0x100 * (0x100 * (sum / 0x1_0000) + w / 0x100) + w % 0x100;
    DivUnique(sum, 0x100, 0x100 * (sum / 0x1_0000) + w / 0x100, w % 0x100);
  }

  // ---------------------------------------------------------------------
  // Rotates and complements

  /** RLC then RRC gives A back; C ends up holding the old bit 7. */
  lemma RotateLeftRight(m: State)
    ensures RotateRight(RotateLeft(m)) == Advance(m.(flags := m.flags.(c := m.a >= 0x80)), 2)
  {
    var m1 := RotateLeft(m);
    assert m1.a == (m.a * 2) % 0x100 + m.a / 0x80;
    assert m1.a % 2 == m.a / 0x80;
    assert m1.a / 2 == m.a % 0x80;
  }

  /** RAL then RAR restores A and C. */
  lemma RotateThroughCarryInverse(m: State)
    ensures RotateRightThroughCarry(RotateLeftThroughCarry(m)) == Advance(m, 2)
  {
    RotateLeftThroughCarryShape(m);
    var cin := if m.flags.c then 1 else 0;
    var m1 := RotateLeftThroughCarry(m);
    assert m1.a % 2 == cin;
    assert m1.a / 2 == m.a % 0x80;
  }

  /** RAL: A shifted left with the old C in bit 0, C from the old bit 7,
      nothing else changed but pc. */
  lemma RotateLeftThroughCarryShape(m: State)
    ensures var cin := if m.flags.c then 1 else 0;
      RotateLeftThroughCarry(m) == m.(a := (m.a % 0x80) * 2 + cin, flags := m.flags.(c := m.a >= 0x80), pc := Wrap(m.pc + 1))
  {
    var cin := if m.flags.c then 1 else 0;
    assert (m.a * 2 + cin) % 0x100 == (m.a % 0x80) * 2 + cin;
  }

  /** RLC: C is the old bit 7, which also becomes bit 0. */
  lemma RotateLeftSpec(m: State)
    ensures var m' := RotateLeft(m);
      && (m'.flags.c <==> m.a >= 0x80)
      && m'.a % 2 == m.a / 0x80
      && m'.a / 2 == m.a % 0x80
      && m'.flags.s == m.flags.s && m'.flags.z == m.flags.z && m'.flags.p == m.flags.p
  {
    assert (m.a * 2 + m.a / 0x80) % 0x100 == (m.a % 0x80) * 2 + m.a / 0x80;
  }

  /** RRC as written: on an even A the carry is left as it was instead of
      being cleared, so RRC of an even A after STC still reports a carry. */
  lemma RotateRightKeepsCarry(m: State)
    requires m.a % 2 == 0
    ensures RotateRight(m).flags.c == m.flags.c
    ensures RotateRight(SetCarry(m)).flags.c
  {
  }

  /** CMA twice, and CMC twice, change nothing but pc. */
  lemma ComplementTwice(m: State)
    ensures Complement(Complement(m)) == Advance(m, 2)
    ensures ComplementCarry(ComplementCarry(m)) == Advance(m, 2)
  {
  }

  /** CMA flips every bit of A and changes nothing else but pc; CMC flips
      C and changes nothing else but pc. */
  lemma ComplementSpec(m: State)
    ensures forall k :: 0 <= k < 8 ==> Bit(Complement(m).a, k) == !Bit(m.a, k)
    ensures Complement(m) == m.(a := Complement(m).a, pc := Wrap(m.pc + 1))
    ensures ComplementCarry(m).flags.c == !m.flags.c
    ensures ComplementCarry(m) == m.(flags := m.flags.(c := !m.flags.c), pc := Wrap(m.pc + 1))
  {
    forall k | 0 <= k < 8
      ensures Bit(Complement(m).a, k) == !Bit(m.a, k)
    {
      NotBit(m.a, k);
    }
  }

  // ---------------------------------------------------------------------
  // Loads and stores

  /** SHLD stores L then H; an LHLD of the same address after it gets
      them back, whatever happened to the registers in between. */
  lemma StoreLoadHL(m: State, n: State)
    requires n.mem == StoreHL(m).mem && ImmWord(n) == ImmWord(m)
    ensures LoadHL(n).l == m.l && LoadHL(n).h == m.h
  {
  }

  /** STA then LDA of the same address gives A back. */
  lemma StoreLoadDirect(m: State, n: State)
    requires n.mem == StoreDirect(m).mem && ImmWord(n) == ImmWord(m)
    ensures LoadDirect(n).a == m.a
  {
  }

  /** STAX then LDAX through a pair holding the same address gives A back. */
  lemma StoreLoadAccumulator(m: State, rp: Pair, n: State, rq: Pair)
    requires n.mem == StoreAccumulator(m, rp).mem && PairValue(n, rq) == PairValue(m, rp)
    ensures LoadAccumulator(n, rq).a == m.a
  {
  }

  /** LXI: the pair holds the operand word; the other pairs, A, sp, the
      flags and memory are kept. */
  lemma LoadPairSpec(m: State, rp: Pair)
    ensures PairValue(LoadPair(m, rp), rp) == ImmWord(m)
    ensures LoadPair(m, rp).pc == Wrap(m.pc + 3)
    ensures forall other: Pair :: other != rp ==> PairValue(LoadPair(m, rp), other) == PairValue(m, other)
    ensures var m' := LoadPair(m, rp);
      m'.a == m.a && m'.sp == m.sp && m'.flags == m.flags && m'.mem == m.mem && m'.interruptEnabled == m.interruptEnabled
  {
  }

  /** MOV: the destination gets the source's byte; nothing else but the
      destination and pc changes. */
  lemma MoveSpec(m: State, dst: Reg, src: Reg)
    ensures Get(Exec(Mov(dst, src), m), dst) == Get(m, src)
    ensures dst != M ==> Exec(Mov(dst, src), m).mem == m.mem
    ensures Exec(Mov(dst, src), m).flags == m.flags
    ensures Exec(Mov(dst, src), m).pc == Wrap(m.pc + 1)
    ensures OnlyOperandChanges(m, Exec(Mov(dst, src), m), dst)
  {
  }

  /** MVI: the operand gets the byte after the opcode; nothing else but
      the operand and pc changes. */
  lemma MoveImmediateSpec(m: State, r: Reg)
    ensures var m' := MoveImmediate(m, r);
      && Get(m', r) == m.mem[Wrap(m.pc + 1)]
      && m'.flags == m.flags
      && m'.pc == Wrap(m.pc + 2)
      && OnlyOperandChanges(m, m', r)
  {
  }

  /** MOV A,M as written reads the byte at `(h << 8) | a`; it agrees with
      reading at HL when A and L hold the same byte. */
  lemma MoveFromMemoryAsWritten(m: State)
    ensures Exec(MovAM, m).a == m.mem[Word16(m.h, m.a)]
    ensures m.a == m.l ==> Exec(MovAM, m) == Exec(Mov(A, M), m)
  {
  }

  // ---------------------------------------------------------------------
  // The stack

  /** PUSH of one pair then POP into another copies the pair and leaves sp
      where it was. */
  lemma PushPop(m: State, src: Pair, dst: Pair)
    ensures var m' := PopPair(PushBytes(m, PairHi(m, src), PairLo(m, src)), dst);
      && PairValue(m', dst) == PairValue(m, src)
      && m'.sp == m.sp
      && m'.pc == Wrap(m.pc + 2)
      && m'.flags == m.flags
  {
    var m1 := PushBytes(m, PairHi(m, src), PairLo(m, src));
    assert Wrap(m1.sp + 1) == Wrap(m.sp - 1);
  }

  /** POP PSW reads back exactly the flags PUSH PSW packed. */
  lemma FlagsOfPsw(f: Flags)
    ensures FlagsOf(Psw(f)) == f
  {
    var x := Psw(f);
    var q := x / 0x80;
    assert q == (if f.s then 1 else 0);
    assert (x / 0x40) % 2 == (if f.z then 1 else 0);
    assert (x / 0x04) % 2 == (if f.p then 1 else 0);
    assert x % 2 == (if f.c then 1 else 0);
  }

  /** PUSH PSW then POP PSW restores A and the flags and leaves sp where
      it was. */
  lemma PushPopPsw(m: State)
    ensures var m' := PopFlags(PushBytes(m, m.a, Psw(m.flags)));
      && m'.a == m.a && m'.flags == m.flags && m'.sp == m.sp && m'.pc == Wrap(m.pc + 2)
  {
    FlagsOfPsw(m.flags);
    var m1 := PushBytes(m, m.a, Psw(m.flags));
    assert Wrap(m1.sp + 1) == Wrap(m.sp - 1);
  }

  /** The byte PUSH PSW stores has bit 1 set and bits 3 and 5 clear. */
  lemma PswFixedBits(f: Flags)
    ensures (Psw(f) / 2) % 2 == 1 && (Psw(f) / 8) % 2 == 0 && (Psw(f) / 0x20) % 2 == 0
  {
    var x := Psw(f);
    assert (x / 2) % 2 == 1;
    assert (x / 8) % 2 == 0;
    assert (x / 0x20) % 2 == 0;
  }

  /** XCHG twice, and XTHL twice, change nothing but pc. */
  lemma ExchangeTwice(m: State)
    ensures ExchangeDeHl(ExchangeDeHl(m)) == Advance(m, 2)
    ensures ExchangeStackTop(ExchangeStackTop(m)) == Advance(m, 2)
  {
    var m2 := ExchangeStackTop(ExchangeStackTop(m));
    assert m2.mem == m.mem;
  }

  /** XTHL: HL and the word on top of the stack swap; no other register,
      flag or memory byte changes. */
  lemma ExchangeStackTopSpec(m: State)
    ensures var m' := ExchangeStackTop(m);
      && m'.l == m.mem[m.sp] && m'.h == m.mem[Wrap(m.sp + 1)]
      && m'.mem[m.sp] == m.l && m'.mem[Wrap(m.sp + 1)] == m.h
      && m'.sp == m.sp
      && m'.a == m.a && m'.b == m.b && m'.c == m.c && m'.d == m.d && m'.e == m.e && m'.flags == m.flags
    ensures var m' := ExchangeStackTop(m);
      forall k :: 0 <= k < 0x1_0000 && k != m.sp && k != Wrap(m.sp + 1) ==> m'.mem[k] == m.mem[k]
  {
  }

  // ---------------------------------------------------------------------
  // Control flow

  /** CALL then RET as written: RET comes back to the address of the CALL
      itself (CALL pushes its own pc), with sp where it was. */
  lemma CallThenReturn(m: State)
    ensures Return(CallTo(m)).pc == m.pc
    ensures Return(CallTo(m)).sp == m.sp
  {
    var m1 := CallTo(m);
    assert Wrap(m1.sp + 1) == Wrap(m.sp - 1);
    WordSplitJoin(m.pc);
  }

  /** CALL stores the pushed address high byte above low byte, and jumps
      to the operand word read after the stack writes. */
  lemma CallSpec(m: State)
    ensures var m' := CallTo(m);
      && m'.mem[Wrap(m.sp - 1)] == Hi(m.pc) && m'.mem[Wrap(m.sp - 2)] == Lo(m.pc)
      && m'.sp == Wrap(m.sp - 2)
      && m'.pc == Word16(m'.mem[Wrap(m.pc + 2)], m'.mem[Wrap(m.pc + 1)])
  {
  }

  /** A conditional jump or call that is not taken skips its two operand
      bytes; a conditional return that is not taken moves to the next
      instruction, except RNC, which as written stays where it is. */
  lemma NotTaken(m: State, cc: Cond)
    requires !Holds(cc, m.flags)
    ensures ConditionalJump(m, cc) == Advance(m, 3)
    ensures ConditionalCall(m, cc) == Advance(m, 3)
    ensures ConditionalReturn(m, cc) == if cc == IfNoCarry then m else Advance(m, 1)
  {
  }

  /** Taken branches behave as their unconditional forms. */
  lemma Taken(m: State, cc: Cond)
    requires Holds(cc, m.flags)
    ensures ConditionalJump(m, cc) == Jump(m)
    ensures ConditionalCall(m, cc) == CallTo(m)
    ensures ConditionalReturn(m, cc) == Return(m)
  {
  }

  /** Each condition and its partner opcode test the same flag in
      opposite senses. */
  lemma ConditionPairs(f: Flags)
    ensures Holds(IfZero, f) != Holds(IfNotZero, f)
    ensures Holds(IfCarry, f) != Holds(IfNoCarry, f)
    ensures Holds(IfParityEven, f) != Holds(IfParityOdd, f)
    ensures Holds(IfMinus, f) != Holds(IfPlus, f)
  {
  }

  // ---------------------------------------------------------------------
  // Whole instructions

  /** The instruction length the Intel 8080 manual gives each opcode. */
  function Length(i: Instr): nat
  {
    match i
    case Lxi(_) => 3
    case LxiSp => 3
    case Shld => 3
    case Lhld => 3
    case Sta => 3
    case Lda => 3
    case Jmp => 3
    case JmpIf(_) => 3
    case Call => 3
    case CallIf(_) => 3
    case Mvi(_) => 2
    case AluImm(_) => 2
    case In => 2
    case Out => 2
    case _ => 1
  }

  /** Instructions that may set pc to something other than the next
      instruction. */
  predicate Branches(i: Instr)
  {
    i.Jmp? || i.JmpIf? || i.Call? || i.CallIf? || i.Ret? || i.RetIf? || i.Pchl? || i.NotImplemented?
  }

  /** Instructions whose pc step the source writes one short of the
      manual's length: 0x08, INX SP, DCX SP and STC do not move pc, IN and
      OUT do not skip their port byte. */
  predicate ShortStep(i: Instr)
  {
    i.Stall? || i.InxSp? || i.DcxSp? || i.Stc? || i.In? || i.Out?
  }

  /** The pc step of the transfer group: each moves pc past itself. */
  lemma PcStepTransfer(i: Instr, m: State)
    requires GroupOf(i) == Transfer
    ensures ExecTransfer(i, m).pc == Wrap(m.pc + Length(i))
  {
  }

  lemma PcStepArithmetic(i: Instr, m: State)
    requires GroupOf(i) == Arithmetic
    ensures ExecArithmetic(i, m).pc == Wrap(m.pc + Length(i) - (if ShortStep(i) then 1 else 0))
  {
    if i.Alu? {
      AluStepChanges(m, i.op, Get(m, i.src));
    } else if i.AluImm? {
      AluStepChanges(m, i.op, Imm(m));
    } else if !i.InxSp? && !i.DcxSp? {
      assert Length(i) == 1 && !ShortStep(i);
    }
  }

  lemma PcStepLogical(i: Instr, m: State)
    requires GroupOf(i) == Logical
    ensures ExecLogical(i, m).pc == Wrap(m.pc + Length(i) - (if ShortStep(i) then 1 else 0))
  {
  }

  lemma PcStepMachine(i: Instr, m: State)
    requires GroupOf(i) == Machine && !i.NotImplemented?
    ensures ExecMachine(i, m).pc == Wrap(m.pc + Length(i) - (if ShortStep(i) then 1 else 0))
  {
  }

  /** Every instruction that does not branch moves pc past itself, as the
      manual's length says, except the six that, as written, stop one byte
      short. */
  lemma PcStep(i: Instr, m: State)
    requires !Branches(i)
    ensures Exec(i, m).pc == Wrap(m.pc + Length(i) - (if ShortStep(i) then 1 else 0))
  {
    match GroupOf(i)
    case Transfer => PcStepTransfer(i, m);
    case Arithmetic => PcStepArithmetic(i, m);
    case Logical => PcStepLogical(i, m);
    case Machine => PcStepMachine(i, m);
  }

  /** Instructions that write memory. */
  predicate WritesMemory(i: Instr)
  {
    match i
    case Stax(_) => true
    case Sta => true
    case Shld => true
    case Push(_) => true
    case PushPsw => true
    case Call => true
    case CallIf(_) => true
    case Xthl => true
    case Mov(dst, _) => dst == M
    case Mvi(r) => r == M
    case Inr(r) => r == M
    case Dcr(r) => r == M
    case _ => false
  }

  /** The memory and interrupt frame of the transfer group. */
  lemma FrameTransfer(i: Instr, m: State)
    requires GroupOf(i) == Transfer
    ensures !WritesMemory(i) ==> ExecTransfer(i, m).mem == m.mem
    ensures ExecTransfer(i, m).interruptEnabled == m.interruptEnabled
  {
  }

  lemma FrameArithmetic(i: Instr, m: State)
    requires GroupOf(i) == Arithmetic
    ensures !WritesMemory(i) ==> ExecArithmetic(i, m).mem == m.mem
    ensures ExecArithmetic(i, m).interruptEnabled == m.interruptEnabled
  {
    if i.Alu? {
      AluStepChanges(m, i.op, Get(m, i.src));
    } else if i.AluImm? {
      AluImmediateSpec(m, i.op);
      AluStepChanges(m, i.op, Imm(m));
    } else if i.Inr? {
      var tmp := Get(m, i.r) + 1;
      OperandUpdate(m, i.r, UpdateFlags(m.flags, tmp, SZP_FLAGS), tmp % 0x100, 1);
    } else if i.Dcr? {
      var tmp := Wrap(Get(m, i.r) - 1);
      OperandUpdate(m, i.r, UpdateFlags(m.flags, tmp, SZP_FLAGS), tmp % 0x100, 1);
    } else if i.Inx? {
      StepPairSpec(m, i.rp, 1);
    } else if i.Dcx? {
      StepPairSpec(m, i.rp, -1);
    }
  }

  lemma FrameLogical(i: Instr, m: State)
    requires GroupOf(i) == Logical
    ensures ExecLogical(i, m).mem == m.mem
    ensures ExecLogical(i, m).interruptEnabled == m.interruptEnabled
  {
  }

  lemma FrameBranch(i: Instr, m: State)
    requires GroupOf(i) == Branch
    ensures !WritesMemory(i) ==> ExecBranch(i, m).mem == m.mem
    ensures ExecBranch(i, m).interruptEnabled == m.interruptEnabled
  {
  }

  lemma FrameMachine(i: Instr, m: State)
    requires GroupOf(i) == Machine
    ensures !WritesMemory(i) ==> ExecMachine(i, m).mem == m.mem
    ensures ExecMachine(i, m).interruptEnabled ==
      if i == Ei then true else if i == Di then false else m.interruptEnabled
  {
  }

  /** No instruction outside `WritesMemory` changes memory, and only EI
      and DI change the interrupt-enable bit. */
  lemma Frame(i: Instr, m: State)
    ensures !WritesMemory(i) ==> Exec(i, m).mem == m.mem
    ensures Exec(i, m).interruptEnabled ==
      if i == Ei then true else if i == Di then false else m.interruptEnabled
  {
    match GroupOf(i)
    case Transfer => FrameTransfer(i, m);
    case Arithmetic => FrameArithmetic(i, m);
    case Logical => FrameLogical(i, m);
    case Branch => FrameBranch(i, m);
    case Machine => FrameMachine(i, m);
  }

  /** `emulateOp` throws exactly on the opcodes of `UNIMPLEMENTED`, with
      that opcode, and then leaves the machine as it was. */
  lemma StepNotImplemented(m: State)
    ensures Step(m).signal.NotImplementedInstruction? <==> Fetch(m) in UNIMPLEMENTED
    ensures Step(m).signal.NotImplementedInstruction? ==>
      Step(m).signal.opcode == Fetch(m) && Step(m).state == m
  {
    DecodeNotImplemented(Fetch(m));
  }

  /** One `emulateOp` changes the interrupt-enable bit only on EI (0xFB)
      and DI (0xF3). */
  lemma StepInterrupts(m: State)
    ensures Step(m).state.interruptEnabled ==
      if Fetch(m) == 0xFB then true else if Fetch(m) == 0xF3 then false else m.interruptEnabled
  {
    var i := Decode(Fetch(m));
    DecodeInterrupts(Fetch(m));
    if i.NotImplemented? {
      assert Step(m).state == m;
    } else {
      Frame(i, m);
      assert Step(m).state == Exec(i, m);
    }
  }
}
