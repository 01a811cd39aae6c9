/** The instruction set as `Emulator::emulateOp` (lib/emulator.cpp) decodes
    it: one `Instr` per case of its 256-way switch. Deviations of the source
    from the Intel 8080 manual are decoded as the source behaves and marked
    "as written". */
module Isa {
  import opened Types

  /** An 8-bit operand in the 8080's register-field order; `M` is the memory
      cell addressed by the HL pair. */
  datatype Reg = B | C | D | E | H | L | M | A

  /** A register pair held in two byte registers (SP is a separate `Word`). */
  datatype Pair = BC | DE | HL

  /** The flag test of a conditional jump, call or return: the condition
      under which the branch is taken. */
  datatype Cond =
    | IfNotZero | IfZero | IfNoCarry | IfCarry
    | IfParityOdd | IfParityEven | IfPlus | IfMinus

  /** The eight accumulator operations, in opcode order. */
  datatype AluOp = AddOp | AdcOp | SubOp | SbbOp | AnaOp | XraOp | OraOp | CmpOp

  datatype Instr =
    | Nop                         // 0x00, and the undocumented 0x10 0x18 0x20 0x28 0x30 0x38
    | Stall                       // 0x08 as written: no effect at all, pc included
    | Lxi(rp: Pair)               // loadi
    | LxiSp                       // loadsp
    | Stax(rp: Pair)
    | Ldax(rp: Pair)
    | Inx(rp: Pair)
    | Dcx(rp: Pair)
    | InxSp                       // as written: pc is not advanced
    | DcxSp                       // as written: pc is not advanced
    | Inr(r: Reg)
    | Dcr(r: Reg)
    | Mvi(r: Reg)
    | Rlc
    | Rrc                         // as written: sets C on a 1 bit, never clears it
    | Ral
    | Rar
    | Dad(rp: Pair)
    | DadSp
    | Shld
    | Lhld
    | Sta
    | Lda
    | Cma
    | Stc                         // as written: pc is not advanced
    | Cmc
    | Mov(dst: Reg, src: Reg)
    | MovAM                       // 0x7E as written: reads memory at (h << 8) | a, not HL
    | Alu(op: AluOp, src: Reg)    // 0x80 - 0xBF
    | AluImm(op: AluOp)           // ADI ACI SUI SBI ANI XRI ORI CPI
    | RetIf(cond: Cond)           // as written: RNC not taken leaves pc unchanged
    | Ret                         // 0xC9, and the undocumented 0xD9
    | JmpIf(cond: Cond)
    | Jmp                         // 0xC3, and the undocumented 0xCB
    | CallIf(cond: Cond)
    | Call                        // 0xCD, and the undocumented 0xDD 0xED 0xFD
    | Pop(rp: Pair)
    | Push(rp: Pair)
    | PopPsw
    | PushPsw
    | Out                         // as written: consumes no operand byte
    | In                          // as written: consumes no operand byte
    | Xthl
    | Pchl
    | Xchg
    | Sphl
    | Di
    | Ei
    | NotImplemented(opcode: Byte)  // throw NotImplementedInstruction(opcode)

  /** The instruction groups of the Intel 8080 manual, with the 16-bit
      register steps counted as arithmetic and the rotates, complements and
      carry operations as logical. */
  datatype Group = Transfer | Arithmetic | Logical | Branch | Machine

  function GroupOf(i: Instr): Group
  {
    match i
    case Mov(_, _) => Transfer
    case MovAM => Transfer
    case Mvi(_) => Transfer
    case Lxi(_) => Transfer
    case LxiSp => Transfer
    case Lda => Transfer
    case Sta => Transfer
    case Lhld => Transfer
    case Shld => Transfer
    case Ldax(_) => Transfer
    case Stax(_) => Transfer
    case Xchg => Transfer
    case Alu(_, _) => Arithmetic
    case AluImm(_) => Arithmetic
    case Inr(_) => Arithmetic
    case Dcr(_) => Arithmetic
    case Inx(_) => Arithmetic
    case Dcx(_) => Arithmetic
    case InxSp => Arithmetic
    case DcxSp => Arithmetic
    case Dad(_) => Arithmetic
    case DadSp => Arithmetic
    case Rlc => Logical
    case Rrc => Logical
    case Ral => Logical
    case Rar => Logical
    case Cma => Logical
    case Cmc => Logical
    case Stc => Logical
    case Jmp => Branch
    case JmpIf(_) => Branch
    case Call => Branch
    case CallIf(_) => Branch
    case Ret => Branch
    case RetIf(_) => Branch
    case Pchl => Branch
    case Push(_) => Machine
    case Pop(_) => Machine
    case PushPsw => Machine
    case PopPsw => Machine
    case Xthl => Machine
    case Sphl => Machine
    case In => Machine
    case Out => Machine
    case Ei => Machine
    case Di => Machine
    case Nop => Machine
    case Stall => Machine
    case NotImplemented(_) => Machine
  }

  /** The opcodes whose case throws `NotImplementedInstruction`: DAA, HLT
      and the eight RST vectors. */
  const UNIMPLEMENTED: set<Byte> := {0x27, 0x76, 0xC7, 0xCF, 0xD7, 0xDF, 0xE7, 0xEF, 0xF7, 0xFF}

  /** The register selected by a 3-bit field of an opcode. */
  function RegField(k: int): Reg
    requires 0 <= k < 8
  {
    [B, C, D, E, H, L, M, A][k]
  }

  /** The 3-bit field that selects a register: the inverse of `RegField`. */
  function RegCode(r: Reg): (k: int)
    ensures 0 <= k < 8 && RegField(k) == r
  {
    match r
    case B => 0
    case C => 1
    case D => 2
    case E => 3
    case H => 4
    case L => 5
    case M => 6
    case A => 7
  }

  /** The accumulator operation selected by bits 3-5 of an opcode 0x80-0xBF. */
  function AluField(k: int): AluOp
    requires 0 <= k < 8
  {
    [AddOp, AdcOp, SubOp, SbbOp, AnaOp, XraOp, OraOp, CmpOp][k]
  }

  function AluCode(op: AluOp): (k: int)
    ensures 0 <= k < 8 && AluField(k) == op
  {
    match op
    case AddOp => 0
    case AdcOp => 1
    case SubOp => 2
    case SbbOp => 3
    case AnaOp => 4
    case XraOp => 5
    case OraOp => 6
    case CmpOp => 7
  }

  /** The switch of `emulateOp`, as a table from opcode to instruction.
      0x40-0xBF are decoded by their bit fields, with the two cases where the
      source departs from that pattern (0x76 throws, 0x7E reads through
      (h << 8) | a); every other opcode has its own entry. */
  function Decode(op: Byte): Instr
  {
    match op
    case 0x00 => Nop
    case 0x01 => Lxi(BC)
    case 0x02 => Stax(BC)
    case 0x03 => Inx(BC)
    case 0x04 => Inr(B)
    case 0x05 => Dcr(B)
    case 0x06 => Mvi(B)
    case 0x07 => Rlc
    case 0x08 => Stall
    case 0x09 => Dad(BC)
    case 0x0A => Ldax(BC)
    case 0x0B => Dcx(BC)
    case 0x0C => Inr(C)
    case 0x0D => Dcr(C)
    case 0x0E => Mvi(C)
    case 0x0F => Rrc
    case 0x10 => Nop
    case 0x11 => Lxi(DE)
    case 0x12 => Stax(DE)
    case 0x13 => Inx(DE)
    case 0x14 => Inr(D)
    case 0x15 => Dcr(D)
    case 0x16 => Mvi(D)
    case 0x17 => Ral
    case 0x18 => Nop
    case 0x19 => Dad(DE)
    case 0x1A => Ldax(DE)
    case 0x1B => Dcx(DE)
    case 0x1C => Inr(E)
    case 0x1D => Dcr(E)
    case 0x1E => Mvi(E)
    case 0x1F => Rar
    case 0x20 => Nop
    case 0x21 => Lxi(HL)
    case 0x22 => Shld
    case 0x23 => Inx(HL)
    case 0x24 => Inr(H)
    case 0x25 => Dcr(H)
    case 0x26 => Mvi(H)
    case 0x27 => NotImplemented(0x27)
    case 0x28 => Nop
    case 0x29 => Dad(HL)
    case 0x2A => Lhld
    case 0x2B => Dcx(HL)
    case 0x2C => Inr(L)
    case 0x2D => Dcr(L)
    case 0x2E => Mvi(L)
    case 0x2F => Cma
    case 0x30 => Nop
    case 0x31 => LxiSp
    case 0x32 => Sta
    case 0x33 => InxSp
    case 0x34 => Inr(M)
    case 0x35 => Dcr(M)
    case 0x36 => Mvi(M)
    case 0x37 => Stc
    case 0x38 => Nop
    case 0x39 => DadSp
    case 0x3A => Lda
    case 0x3B => DcxSp
    case 0x3C => Inr(A)
    case 0x3D => Dcr(A)
    case 0x3E => Mvi(A)
    case 0x3F => Cmc
    case 0xC0 => RetIf(IfNotZero)
    case 0xC1 => Pop(BC)
    case 0xC2 => JmpIf(IfNotZero)
    case 0xC3 => Jmp
    case 0xC4 => CallIf(IfNotZero)
    case 0xC5 => Push(BC)
    case 0xC6 => AluImm(AddOp)
    case 0xC7 => NotImplemented(0xC7)
    case 0xC8 => RetIf(IfZero)
    case 0xC9 => Ret
    case 0xCA => JmpIf(IfZero)
    case 0xCB => Jmp
    case 0xCC => CallIf(IfZero)
    case 0xCD => Call
    case 0xCE => AluImm(AdcOp)
    case 0xCF => NotImplemented(0xCF)
    case 0xD0 => RetIf(IfNoCarry)
    case 0xD1 => Pop(DE)
    case 0xD2 => JmpIf(IfNoCarry)
    case 0xD3 => Out
    case 0xD4 => CallIf(IfNoCarry)
    case 0xD5 => Push(DE)
    case 0xD6 => AluImm(SubOp)
    case 0xD7 => NotImplemented(0xD7)
    case 0xD8 => RetIf(IfCarry)
    case 0xD9 => Ret
    case 0xDA => JmpIf(IfCarry)
    case 0xDB => In
    case 0xDC => CallIf(IfCarry)
    case 0xDD => Call
    case 0xDE => AluImm(SbbOp)
    case 0xDF => NotImplemented(0xDF)
    case 0xE0 => RetIf(IfParityOdd)
    case 0xE1 => Pop(HL)
    case 0xE2 => JmpIf(IfParityOdd)
    case 0xE3 => Xthl
    case 0xE4 => CallIf(IfParityOdd)
    case 0xE5 => Push(HL)
    case 0xE6 => AluImm(AnaOp)
    case 0xE7 => NotImplemented(0xE7)
    case 0xE8 => RetIf(IfParityEven)
    case 0xE9 => Pchl
    case 0xEA => JmpIf(IfParityEven)
    case 0xEB => Xchg
    case 0xEC => CallIf(IfParityEven)
    case 0xED => Call
    case 0xEE => AluImm(XraOp)
    case 0xEF => NotImplemented(0xEF)
    case 0xF0 => RetIf(IfPlus)
    case 0xF1 => PopPsw
    case 0xF2 => JmpIf(IfPlus)
    case 0xF3 => Di
    case 0xF4 => CallIf(IfPlus)
    case 0xF5 => PushPsw
    case 0xF6 => AluImm(OraOp)
    case 0xF7 => NotImplemented(0xF7)
    case 0xF8 => RetIf(IfMinus)
    case 0xF9 => Sphl
    case 0xFA => JmpIf(IfMinus)
    case 0xFB => Ei
    case 0xFC => CallIf(IfMinus)
    case 0xFD => Call
    case 0xFE => AluImm(CmpOp)
    case 0xFF => NotImplemented(0xFF)
    case _ =>
      // Only 0x40-0xBF remain; the source's `default:` (which would throw
      // with opcode 0x00) is reached by no byte and has no entry.
      if op < 0x80 then
        if op == 0x76 then NotImplemented(0x76)          // HLT
        else if op == 0x7E then MovAM
        else Mov(RegField((op - 0x40) / 8), RegField(op % 8))
      else
        Alu(AluField((op - 0x80) / 8), RegField(op % 8))
  }

  /** Opcodes 0x80-0xBF: bits 3-5 select the operation, bits 0-2 the operand. */
  lemma DecodeAlu(op: AluOp, r: Reg)
    ensures Decode(0x80 + 8 * AluCode(op) + RegCode(r)) == Alu(op, r)
  {
    var k := 0x80 + 8 * AluCode(op) + RegCode(r);
    assert (k - 0x80) / 8 == AluCode(op) && k % 8 == RegCode(r);
  }

  /** Opcodes 0x40-0x7F other than 0x76 and 0x7E: MOV dst,src. */
  lemma DecodeMov(dst: Reg, src: Reg)
    requires src != M || (dst != M && dst != A)
    ensures Decode(0x40 + 8 * RegCode(dst) + RegCode(src)) == Mov(dst, src)
  {
    var k := 0x40 + 8 * RegCode(dst) + RegCode(src);
    assert (k - 0x40) / 8 == RegCode(dst) && k % 8 == RegCode(src);
  }

  /** Exactly the opcodes of `UNIMPLEMENTED` throw, each with its own
      opcode. */
  lemma DecodeNotImplemented(op: Byte)
    ensures Decode(op).NotImplemented? <==> op in UNIMPLEMENTED
    ensures Decode(op).NotImplemented? ==> Decode(op).opcode == op
  {
  }

  /** EI is 0xFB and DI is 0xF3, and no other opcode decodes to either. */
  lemma DecodeInterrupts(op: Byte)
    ensures Decode(op) == Ei <==> op == 0xFB
    ensures Decode(op) == Di <==> op == 0xF3
  {
  }
}
