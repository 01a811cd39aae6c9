/** What one call of `Emulator::emulateOp` (lib/emulator.cpp) does, as
    functions on a snapshot of the machine state. The imperative `Emulator`
    class is proved to compute exactly these functions; the lemmas of
    module `Properties` are stated about them. */
module Semantics {
  import opened Types
  import opened Auxiliary
  import opened Isa

  /** The four flags of `Controls`. */
  datatype Flags = Flags(s: bool, z: bool, p: bool, c: bool)

  /** A snapshot of `Status`: seven byte registers, sp, pc, 64 KiB of
      memory, the flags and the interrupt-enable bit. */
  datatype State = State(
    a: Byte, b: Byte, c: Byte, d: Byte, e: Byte, h: Byte, l: Byte,
    sp: Word, pc: Word, mem: Memory, flags: Flags, interruptEnabled: bool)

  /** The result of one step: `Ok`, or the `NotImplementedInstruction`
      exception with the opcode it was constructed with. */
  datatype Signal = Ok | NotImplementedInstruction(opcode: Byte)

  datatype Outcome = Outcome(signal: Signal, state: State)

  /** The state of a newly constructed `Emulator`: registers, sp, pc and
      all of memory zero, every flag clear, interrupts enabled. */
  function Initial(): State
  {
    State(0, 0, 0, 0, 0, 0, 0, 0, 0, seq(0x1_0000, _ => 0), Flags(false, false, false, false), true)
  }

  // ---------------------------------------------------------------------
  // Flags (updateControls)

  const ALL_FLAGS: set<ControlFlag> := {Carry, Parity, Sign, Zero}
  const SZP_FLAGS: set<ControlFlag> := {Sign, Zero, Parity}

  /** `result > 0xff` */
  predicate CarryOf(result: Word) { result > 0xFF }

  /** `popcount(result & 0xff) % 2 == 0`: an even number of 1 bits in the
      low byte (`LowBitCountIsPopcount` relates the two counts). */
  predicate ParityOf(result: Word) { LowBitCount(result, 8) % 2 == 0 }

  /** `(result & 0x80) != 0` */
  predicate SignOf(result: Word) { (result / 0x80) % 2 == 1 }

  /** `(result & 0xff) == 0` */
  predicate ZeroOf(result: Word) { result % 0x100 == 0 }

  /** The flags after `updateControls(result, affected)`: each flag in
      `affected` recomputed from `result`, every other flag as it was. */
  function UpdateFlags(f: Flags, result: Word, affected: set<ControlFlag>): Flags
  {
    Flags(
      s := if Sign in affected then SignOf(result) else f.s,
      z := if Zero in affected then ZeroOf(result) else f.z,
      p := if Parity in affected then ParityOf(result) else f.p,
      c := if Carry in affected then CarryOf(result) else f.c)
  }

  // ---------------------------------------------------------------------
  // Operand access

  /** `++pc`, `pc += 2`, `pc += 3` on the `uint16_t` pc. */
  function Advance(m: State, n: nat): State
    requires n <= 3
  {
    m.(pc := Wrap(m.pc + n))
  }

  /** `(h << 8) | l` */
  function AddrHL(m: State): Word
  {
    Word16(m.h, m.l)
  }

  /** The byte an operand field names; `M` is memory at HL. */
  function Get(m: State, r: Reg): Byte
  {
    match r
    case B => m.b
    case C => m.c
    case D => m.d
    case E => m.e
    case H => m.h
    case L => m.l
    case M => m.mem[AddrHL(m)]
    case A => m.a
  }

  /** Writing through the `Byte&` an operand field names. */
  function Set(m: State, r: Reg, v: Byte): State
  {
    match r
    case B => m.(b := v)
    case C => m.(c := v)
    case D => m.(d := v)
    case E => m.(e := v)
    case H => m.(h := v)
    case L => m.(l := v)
    case M => m.(mem := m.mem[AddrHL(m) := v])
    case A => m.(a := v)
  }

  function PairHi(m: State, rp: Pair): Byte
  {
    match rp
    case BC => m.b
    case DE => m.d
    case HL => m.h
  }

  function PairLo(m: State, rp: Pair): Byte
  {
    match rp
    case BC => m.c
    case DE => m.e
    case HL => m.l
  }

  /** The 16-bit value of a register pair. */
  function PairValue(m: State, rp: Pair): Word
  {
    Word16(PairHi(m, rp), PairLo(m, rp))
  }

  function SetPair(m: State, rp: Pair, hi: Byte, lo: Byte): State
  {
    match rp
    case BC => m.(b := hi, c := lo)
    case DE => m.(d := hi, e := lo)
    case HL => m.(h := hi, l := lo)
  }

  /** `mem[pc + 1]`, the operand byte of a 2-byte instruction (the index is
      wrapped to 16 bits). */
  function Imm(m: State): Byte
  {
    m.mem[Wrap(m.pc + 1)]
  }

  /** `mem[pc + 2] << 8 | mem[pc + 1]`, the little-endian operand word of
      a 3-byte instruction. */
  function ImmWord(m: State): Word
  {
    Word16(m.mem[Wrap(m.pc + 2)], m.mem[Wrap(m.pc + 1)])
  }

  // ---------------------------------------------------------------------
  // The helpers of lib/emulator.cpp

  predicate IsLogic(op: AluOp)
  {
    op == AnaOp || op == XraOp || op == OraOp
  }

  /** `ana`, `xra`, `ora`: the new accumulator. */
  function LogicResult(op: AluOp, a: Byte, x: Byte): Byte
    requires IsLogic(op)
  {
    match op
    case AnaOp => And8(a, x)
    case XraOp => Xor8(a, x)
    case OraOp => Or8(a, x)
  }

  /** The widened `uint16_t` value `add`, `adc`, `sub`, `sbb` and `cmp`
      compute before truncating: sums exactly, differences modulo 2^16. */
  function ArithResult(op: AluOp, a: Byte, x: Byte, carry: bool): Word
    requires !IsLogic(op)
  {
    var cin := if carry then 1 else 0;
    match op
    case AddOp => a + x
    case AdcOp => a + x + cin
    case SubOp => Wrap(a - x)
    case SbbOp => Wrap(a - x - cin)
    case CmpOp => Wrap(a - x)
  }

  /** `add`, `adc`, `sub`, `sbb` (all four flags, A := result & 0xff),
      `ana`, `xra`, `ora` (S, Z, P from the new A, then C := false) and
      `cmp` (all four flags, A kept), each followed by `++pc`. */
  function AluStep(m: State, op: AluOp, x: Byte): State
  {
    if IsLogic(op) then
      var v := LogicResult(op, m.a, x);
      Advance(m.(a := v, flags := UpdateFlags(m.flags, v, SZP_FLAGS).(c := false)), 1)
    else
      var r := ArithResult(op, m.a, x, m.flags.c);
      if op == CmpOp then
        Advance(m.(flags := UpdateFlags(m.flags, r, ALL_FLAGS)), 1)
      else
        Advance(m.(a := r % 0x100, flags := UpdateFlags(m.flags, r, ALL_FLAGS)), 1)
  }

  /** `inr`: the widened `regr + 1` sets S, Z, P; the target keeps its low byte. */
  function Increment(m: State, r: Reg): State
  {
    var tmp := Get(m, r) + 1;
    Advance(Set(m.(flags := UpdateFlags(m.flags, tmp, SZP_FLAGS)), r, tmp % 0x100), 1)
  }

  /** `dcr`: as `inr` with `regr - 1` stored into a `uint16_t`. */
  function Decrement(m: State, r: Reg): State
  {
    var tmp := Wrap(Get(m, r) - 1);
    Advance(Set(m.(flags := UpdateFlags(m.flags, tmp, SZP_FLAGS)), r, tmp % 0x100), 1)
  }

  /** `mov(dest, src)`: the value is read by the caller. */
  function Move(m: State, dst: Reg, v: Byte): State
  {
    Advance(Set(m, dst, v), 1)
  }

  /** `inx` / `dcx` on a register pair: the pair as a `uint16_t`, plus or
      minus one. */
  function StepPair(m: State, rp: Pair, delta: int): State
    requires -1 <= delta <= 1
  {
    var w := Wrap(PairValue(m, rp) + delta);
    Advance(SetPair(m, rp, Hi(w), Lo(w)), 1)
  }

  /** `dad(rpHigh, rpLow)`: HL plus the pair in a `uint32_t`; H and L get
      its two low bytes and C whether it exceeds 0xffff. */
  function DoubleAdd(m: State, hi: Byte, lo: Byte): State
  {
    var hl := AddrHL(m) + Word16(hi, lo);
    Advance(m.(h := (hl / 0x100) % 0x100, l := hl % 0x100, flags := m.flags.(c := hl > 0xFFFF)), 1)
  }

  /** `push(high, low)`: high byte at sp - 1, low byte at sp - 2, then
      sp -= 2 and ++pc. */
  function PushBytes(m: State, hi: Byte, lo: Byte): State
  {
    Advance(m.(mem := m.mem[Wrap(m.sp - 1) := hi][Wrap(m.sp - 2) := lo], sp := Wrap(m.sp - 2)), 1)
  }

  /** `pop(high, low)`: low byte from sp, high byte from sp + 1, then
      sp += 2 and ++pc. */
  function PopPair(m: State, rp: Pair): State
  {
    Advance(SetPair(m, rp, m.mem[Wrap(m.sp + 1)], m.mem[m.sp]).(sp := Wrap(m.sp + 2)), 1)
  }

  /** `ret`: pc from the word at sp (low byte first), sp += 2. */
  function Return(m: State): State
  {
    m.(pc := Word16(m.mem[Wrap(m.sp + 1)], m.mem[m.sp]), sp := Wrap(m.sp + 2))
  }

  /** `jmp`: pc := the operand word. */
  function Jump(m: State): State
  {
    m.(pc := ImmWord(m))
  }

  /** `call`: pushes pc (the address of the CALL itself, as written), then
      jumps; the operand word is read after the two stack writes. */
  function CallTo(m: State): State
  {
    Jump(m.(mem := m.mem[Wrap(m.sp - 1) := Hi(m.pc)][Wrap(m.sp - 2) := Lo(m.pc)], sp := Wrap(m.sp - 2)))
  }

  /** Whether a conditional branch is taken. */
  predicate Holds(cc: Cond, f: Flags)
  {
    match cc
    case IfNotZero => !f.z
    case IfZero => f.z
    case IfNoCarry => !f.c
    case IfCarry => f.c
    case IfParityOdd => !f.p
    case IfParityEven => f.p
    case IfPlus => !f.s
    case IfMinus => f.s
  }

  /** The byte PUSH PSW stores: `s << 7 | z << 6 | p << 2 | 0x02 | c`. */
  function Psw(f: Flags): Byte
  {
    (if f.s then 0x80 else 0) + (if f.z then 0x40 else 0) + (if f.p then 0x04 else 0) + 0x02
      + (if f.c then 0x01 else 0)
  }

  /** The flags POP PSW takes from a byte: `c = b & 0x01`, `p = b & 0x04`,
      `z = b & 0x40`, `s = b & 0x80`. */
  function FlagsOf(x: Byte): Flags
  {
    Flags(s := (x / 0x80) % 2 == 1, z := (x / 0x40) % 2 == 1, p := (x / 0x04) % 2 == 1, c := x % 2 == 1)
  }

  // ---------------------------------------------------------------------
  // The cases the switch writes out inline

  /** LXI rp: the operand word into the pair (low byte at pc + 1). */
  function LoadPair(m: State, rp: Pair): State
  {
    Advance(SetPair(m, rp, m.mem[Wrap(m.pc + 2)], m.mem[Wrap(m.pc + 1)]), 3)
  }

  /** LXI SP */
  function LoadSp(m: State): State
  {
    Advance(m.(sp := ImmWord(m)), 3)
  }

  /** STAX rp: A into memory at the pair. */
  function StoreAccumulator(m: State, rp: Pair): State
  {
    Advance(m.(mem := m.mem[PairValue(m, rp) := m.a]), 1)
  }

  /** LDAX rp: A from memory at the pair. */
  function LoadAccumulator(m: State, rp: Pair): State
  {
    Advance(m.(a := m.mem[PairValue(m, rp)]), 1)
  }

  /** INX SP / DCX SP: sp plus or minus one; as written pc does not move. */
  function StepSp(m: State, delta: int): State
    requires -1 <= delta <= 1
  {
    m.(sp := Wrap(m.sp + delta))
  }

  /** MVI r: the operand byte into the register or memory at HL. */
  function MoveImmediate(m: State, r: Reg): State
  {
    Advance(Set(m, r, Imm(m)), 2)
  }

  /** RLC: `a << 1` with bit 8 copied into bit 0; C from bit 8. */
  function RotateLeft(m: State): State
  {
    var tmp := m.a * 2 + m.a / 0x80;
    Advance(m.(a := tmp % 0x100, flags := UpdateFlags(m.flags, tmp, {Carry})), 1)
  }

  /** RRC as written: bit 0 moves to bit 7 and, when it is 1, sets C; a 0
      leaves C as it was. */
  function RotateRight(m: State): State
  {
    if m.a % 2 == 1 then Advance(m.(a := m.a / 2 + 0x80, flags := m.flags.(c := true)), 1)
    else Advance(m.(a := m.a / 2), 1)
  }

  /** RAL: `a << 1 | c`; C from bit 8. */
  function RotateLeftThroughCarry(m: State): State
  {
    var tmp := m.a * 2 + (if m.flags.c then 1 else 0);
    Advance(m.(a := tmp % 0x100, flags := UpdateFlags(m.flags, tmp, {Carry})), 1)
  }

  /** RAR: `a >> 1` with the old C in bit 7; C from the old bit 0. */
  function RotateRightThroughCarry(m: State): State
  {
    Advance(m.(a := m.a / 2 + (if m.flags.c then 0x80 else 0), flags := m.flags.(c := m.a % 2 == 1)), 1)
  }

  /** SHLD: L at the operand address, H at the next one. */
  function StoreHL(m: State): State
  {
    var addr := ImmWord(m);
    Advance(m.(mem := m.mem[addr := m.l][Wrap(addr + 1) := m.h]), 3)
  }

  /** LHLD: L from the operand address, H from the next one. */
  function LoadHL(m: State): State
  {
    var addr := ImmWord(m);
    Advance(m.(l := m.mem[addr], h := m.mem[Wrap(addr + 1)]), 3)
  }

  /** STA: A at the operand address. */
  function StoreDirect(m: State): State
  {
    Advance(m.(mem := m.mem[ImmWord(m) := m.a]), 3)
  }

  /** LDA: A from the operand address. */
  function LoadDirect(m: State): State
  {
    Advance(m.(a := m.mem[ImmWord(m)]), 3)
  }

  /** CMA: `a = ~a`. */
  function Complement(m: State): State
  {
    Advance(m.(a := Not8(m.a)), 1)
  }

  /** STC as written: C := 1 and pc does not move. */
  function SetCarry(m: State): State
  {
    m.(flags := m.flags.(c := true))
  }

  /** CMC: C := !C. */
  function ComplementCarry(m: State): State
  {
    Advance(m.(flags := m.flags.(c := !m.flags.c)), 1)
  }

  /** ADI ACI SUI SBI ANI XRI ORI CPI: the accumulator operation on the
      operand byte, one byte further on. */
  function AluImmediate(m: State, op: AluOp): State
  {
    Advance(AluStep(m, op, Imm(m)), 1)
  }

  /** RNZ RZ RNC RC RPO RPE RP RM: return when the condition holds; as
      written RNC not taken leaves the state unchanged. */
  function ConditionalReturn(m: State, cc: Cond): State
  {
    if Holds(cc, m.flags) then Return(m)
    else if cc == IfNoCarry then m
    else Advance(m, 1)
  }

  /** JNZ JZ JNC JC JPO JPE JP JM */
  function ConditionalJump(m: State, cc: Cond): State
  {
    if Holds(cc, m.flags) then Jump(m) else Advance(m, 3)
  }

  /** CNZ CZ CNC CC CPO CPE CP CM */
  function ConditionalCall(m: State, cc: Cond): State
  {
    if Holds(cc, m.flags) then CallTo(m) else Advance(m, 3)
  }

  /** POP PSW: flags from the byte at sp, A from the byte at sp + 1. */
  function PopFlags(m: State): State
  {
    Advance(m.(flags := FlagsOf(m.mem[m.sp]), a := m.mem[Wrap(m.sp + 1)], sp := Wrap(m.sp + 2)), 1)
  }

  /** XTHL: H swaps with the byte at sp + 1, then L with the byte at sp. */
  function ExchangeStackTop(m: State): State
  {
    var m1 := m.(h := m.mem[Wrap(m.sp + 1)], mem := m.mem[Wrap(m.sp + 1) := m.h]);
    Advance(m1.(l := m1.mem[m.sp], mem := m1.mem[m.sp := m.l]), 1)
  }

  /** XCHG: HL and DE swap. */
  function ExchangeDeHl(m: State): State
  {
    Advance(m.(h := m.d, d := m.h, l := m.e, e := m.l), 1)
  }

  /** DI / EI */
  function SetInterrupts(m: State, enabled: bool): State
  {
    Advance(m.(interruptEnabled := enabled), 1)
  }

  // ---------------------------------------------------------------------
  // One instruction

  /** The effect of one decoded instruction, case by case as in the switch
      of `emulateOp`, grouped as in the Intel 8080 manual. */
  function Exec(i: Instr, m: State): State
  {
    match GroupOf(i)
    case Transfer => ExecTransfer(i, m)
    case Arithmetic => ExecArithmetic(i, m)
    case Logical => ExecLogical(i, m)
    case Branch => ExecBranch(i, m)
    case Machine => ExecMachine(i, m)
  }

  function ExecTransfer(i: Instr, m: State): State
    requires GroupOf(i) == Transfer
  {
    match i
    case Mov(dst, src) => Move(m, dst, Get(m, src))
    case MovAM => Move(m, A, m.mem[Word16(m.h, m.a)])
    case Mvi(r) => MoveImmediate(m, r)
    case Lxi(rp) => LoadPair(m, rp)
    case LxiSp => LoadSp(m)
    case Lda => LoadDirect(m)
    case Sta => StoreDirect(m)
    case Lhld => LoadHL(m)
    case Shld => StoreHL(m)
    case Ldax(rp) => LoadAccumulator(m, rp)
    case Stax(rp) => StoreAccumulator(m, rp)
    case Xchg => ExchangeDeHl(m)
  }

  function ExecArithmetic(i: Instr, m: State): State
    requires GroupOf(i) == Arithmetic
  {
    match i
    case Alu(op, src) => AluStep(m, op, Get(m, src))
    case AluImm(op) => AluImmediate(m, op)
    case Inr(r) => Increment(m, r)
    case Dcr(r) => Decrement(m, r)
    case Inx(rp) => StepPair(m, rp, 1)
    case Dcx(rp) => StepPair(m, rp, -1)
    case InxSp => StepSp(m, 1)
    case DcxSp => StepSp(m, -1)
    case Dad(rp) => DoubleAdd(m, PairHi(m, rp), PairLo(m, rp))
    case DadSp => DoubleAdd(m, Hi(m.sp), Lo(m.sp))
  }

  function ExecLogical(i: Instr, m: State): State
    requires GroupOf(i) == Logical
  {
    match i
    case Rlc => RotateLeft(m)
    case Rrc => RotateRight(m)
    case Ral => RotateLeftThroughCarry(m)
    case Rar => RotateRightThroughCarry(m)
    case Cma => Complement(m)
    case Cmc => ComplementCarry(m)
    case Stc => SetCarry(m)
  }

  function ExecBranch(i: Instr, m: State): State
    requires GroupOf(i) == Branch
  {
    match i
    case Jmp => Jump(m)
    case JmpIf(cc) => ConditionalJump(m, cc)
    case Call => CallTo(m)
    case CallIf(cc) => ConditionalCall(m, cc)
    case Ret => Return(m)
    case RetIf(cc) => ConditionalReturn(m, cc)
    case Pchl => m.(pc := AddrHL(m))
  }

  /** Stack, I/O and machine control; an unimplemented opcode changes
      nothing. */
  function ExecMachine(i: Instr, m: State): State
    requires GroupOf(i) == Machine
  {
    match i
    case Push(rp) => PushBytes(m, PairHi(m, rp), PairLo(m, rp))
    case Pop(rp) => PopPair(m, rp)
    case PushPsw => PushBytes(m, m.a, Psw(m.flags))
    case PopPsw => PopFlags(m)
    case Xthl => ExchangeStackTop(m)
    case Sphl => Advance(m.(sp := AddrHL(m)), 1)
    case In => Advance(m, 1)
    case Out => Advance(m, 1)
    case Ei => SetInterrupts(m, true)
    case Di => SetInterrupts(m, false)
    case Nop => Advance(m, 1)
    case Stall => m
    case NotImplemented(_) => m
  }

  /** The opcode `emulateOp` fetches: `mem[pc]`. */
  function Fetch(m: State): Byte
  {
    m.mem[m.pc]
  }

  /** `emulateOp`: fetch, decode, execute; an unimplemented opcode throws
      before anything changes. */
  function Step(m: State): Outcome
  {
    var i := Decode(Fetch(m));
    if i.NotImplemented? then Outcome(NotImplementedInstruction(i.opcode), m)
    else Outcome(Ok, Exec(i, m))
  }
}
