/** The machine state of lib/emulator.h and the interpreter of
    lib/emulator.cpp, updating that state in place. Every method is proved
    to leave the state that the matching function of module `Semantics`
    describes. */
module Emulator {
  import opened Types
  import opened Isa
  import Auxiliary
  import Semantics

  /** `Controls`: the four flags, all false on construction. */
  class Controls {
    var s: bool
    var z: bool
    var p: bool
    var c: bool

    constructor ()
      ensures !s && !z && !p && !c
    {
      s, z, p, c := false, false, false, false;
    }

    function Flags(): Semantics.Flags
      reads this
    {
      Semantics.Flags(s, z, p, c)
    }
  }

  /** `Status`: the registers, sp, pc, the 65536-byte memory, the flags and
      the interrupt-enable bit. `memory` and `controls` are members held by
      value in the source; here they are objects that are never replaced. */
  class Status {
    var a: Byte
    var b: Byte
    var c: Byte
    var d: Byte
    var e: Byte
    var h: Byte
    var l: Byte
    var sp: Word
    var pc: Word
    const memory: array<Byte>
    const controls: Controls
    var isInterruptEnabled: bool

    ghost predicate Valid()
    {
      memory.Length == 0x1_0000
    }

    /** `Status()`: memory is 65536 zero bytes, every register, sp and pc
        is 0, every flag false, interrupts enabled. */
    constructor ()
      ensures Valid() && fresh(memory) && fresh(controls)
      ensures a == 0 && b == 0 && c == 0 && d == 0 && e == 0 && h == 0 && l == 0
      ensures sp == 0 && pc == 0
      ensures forall i :: 0 <= i < memory.Length ==> memory[i] == 0
      ensures controls.Flags() == Semantics.Flags(false, false, false, false)
      ensures isInterruptEnabled
    {
      a, b, c, d, e, h, l := 0, 0, 0, 0, 0, 0, 0;
      sp, pc := 0, 0;
      memory := new Byte[0x1_0000](_ => 0);
      controls := new Controls();
      isInterruptEnabled := true;
    }

    /** The value of the whole state. */
    ghost function Snapshot(): Semantics.State
      reads this, controls, memory
      requires Valid()
    {
      Semantics.State(a, b, c, d, e, h, l, sp, pc, memory[..], controls.Flags(), isInterruptEnabled)
    }
  }

  class Emulator {
    const status: Status

    ghost predicate Valid()
    {
      status.Valid()
    }

    constructor ()
      ensures Valid() && fresh(status) && fresh(status.memory) && fresh(status.controls)
      ensures status.Snapshot() == Semantics.Initial()
    {
      status := new Status();
    }

    // -------------------------------------------------------------------
    // Operands passed by reference in the source

    /** The byte an operand field names; `M` is memory at HL. */
    function Read(r: Reg): (v: Byte)
      reads status, status.memory, status.controls
      requires Valid()
      ensures v == Semantics.Get(status.Snapshot(), r)
    {
      match r
      case B => status.b
      case C => status.c
      case D => status.d
      case E => status.e
      case H => status.h
      case L => status.l
      case M => status.memory[Word16(status.h, status.l)]
      case A => status.a
    }

    /** `(rpHigh << 8) | rpLow` for a register pair. */
    function PairWord(rp: Pair): (w: Word)
      reads status, status.memory, status.controls
      requires Valid()
      ensures w == Semantics.PairValue(status.Snapshot(), rp)
    {
      match rp
      case BC => Word16(status.b, status.c)
      case DE => Word16(status.d, status.e)
      case HL => Word16(status.h, status.l)
    }

    method Write(r: Reg, v: Byte)
      requires Valid()
      modifies status, status.memory
      ensures status.Snapshot() == Semantics.Set(old(status.Snapshot()), r, v)
    {
      match r
      case B => status.b := v;
      case C => status.c := v;
      case D => status.d := v;
      case E => status.e := v;
      case H => status.h := v;
      case L => status.l := v;
      case M => status.memory[Word16(status.h, status.l)] := v;
      case A => status.a := v;
    }

    // -------------------------------------------------------------------
    // Flags

    /** `updateControls`: visits the affected flags in whatever order the
        set yields them and recomputes each from `result`. */
    method UpdateControls(result: Word, affected: set<ControlFlag>)
      requires Valid()
      modifies status.controls
      ensures status.controls.Flags() == Semantics.UpdateFlags(old(status.controls.Flags()), result, affected)
    {
      var todo := affected;
      while todo != {}
        invariant todo <= affected
        invariant status.controls.Flags()
               == Semantics.UpdateFlags(old(status.controls.Flags()), result, affected - todo)
        decreases todo
      {
        var flag :| flag in todo;
        match flag {
          case Carry => status.controls.c := result > 0xFF;
          case Parity =>
            var count := Auxiliary.Popcount(result % 0x100);
            Auxiliary.LowByteCount(result);
            status.controls.p := count % 2 == 0;
          case Sign => status.controls.s := (result / 0x80) % 2 == 1;
          case Zero => status.controls.z := result % 0x100 == 0;
        }
        todo := todo - {flag};
      }
    }

    // -------------------------------------------------------------------
    // Accumulator operations

    method Ana(x: Byte)
      requires Valid()
      modifies status, status.controls
      ensures status.Snapshot() == Semantics.AluStep(old(status.Snapshot()), AnaOp, x)
    {
      status.a := And8(status.a, x);
      UpdateControls(status.a, Semantics.SZP_FLAGS);
      status.controls.c := false;
      status.pc := Wrap(status.pc + 1);
    }

    method Xra(x: Byte)
      requires Valid()
      modifies status, status.controls
      ensures status.Snapshot() == Semantics.AluStep(old(status.Snapshot()), XraOp, x)
    {
      status.a := Xor8(status.a, x);
      UpdateControls(status.a, Semantics.SZP_FLAGS);
      status.controls.c := false;
      status.pc := Wrap(status.pc + 1);
    }

    method Ora(x: Byte)
      requires Valid()
      modifies status, status.controls
      ensures status.Snapshot() == Semantics.AluStep(old(status.Snapshot()), OraOp, x)
    {
      status.a := Or8(status.a, x);
      UpdateControls(status.a, Semantics.SZP_FLAGS);
      status.controls.c := false;
      status.pc := Wrap(status.pc + 1);
    }

    method Cmp(x: Byte)
      requires Valid()
      modifies status, status.controls
      ensures status.Snapshot() == Semantics.AluStep(old(status.Snapshot()), CmpOp, x)
    {
      var tmp := Wrap(status.a - x);
      UpdateControls(tmp, Semantics.ALL_FLAGS);
      status.pc := Wrap(status.pc + 1);
    }

    method Add(x: Byte)
      requires Valid()
      modifies status, status.controls
      ensures status.Snapshot() == Semantics.AluStep(old(status.Snapshot()), AddOp, x)
    {
      var tmp := status.a + x;
      UpdateControls(tmp, Semantics.ALL_FLAGS);
      status.a := tmp % 0x100;
      status.pc := Wrap(status.pc + 1);
    }

    method Adc(x: Byte)
      requires Valid()
      modifies status, status.controls
      ensures status.Snapshot() == Semantics.AluStep(old(status.Snapshot()), AdcOp, x)
    {
      var tmp := status.a + x + (if status.controls.c then 1 else 0);
      UpdateControls(tmp, Semantics.ALL_FLAGS);
      status.a := tmp % 0x100;
      status.pc := Wrap(status.pc + 1);
    }

    method Sub(x: Byte)
      requires Valid()
      modifies status, status.controls
      ensures status.Snapshot() == Semantics.AluStep(old(status.Snapshot()), SubOp, x)
    {
      var tmp := Wrap(status.a - x);
      UpdateControls(tmp, Semantics.ALL_FLAGS);
      status.a := tmp % 0x100;
      status.pc := Wrap(status.pc + 1);
    }

    method Sbb(x: Byte)
      requires Valid()
      modifies status, status.controls
      ensures status.Snapshot() == Semantics.AluStep(old(status.Snapshot()), SbbOp, x)
    {
      var tmp := Wrap(status.a - x - (if status.controls.c then 1 else 0));
      UpdateControls(tmp, Semantics.ALL_FLAGS);
      status.a := tmp % 0x100;
      status.pc := Wrap(status.pc + 1);
    }

    /** The switch's choice among the eight helpers above. */
    method Accumulate(op: AluOp, x: Byte)
      requires Valid()
      modifies status, status.controls
      ensures status.Snapshot() == Semantics.AluStep(old(status.Snapshot()), op, x)
    {
      match op
      case AddOp => Add(x);
      case AdcOp => Adc(x);
      case SubOp => Sub(x);
      case SbbOp => Sbb(x);
      case AnaOp => Ana(x);
      case XraOp => Xra(x);
      case OraOp => Ora(x);
      case CmpOp => Cmp(x);
    }

    // -------------------------------------------------------------------
    // Stack and control flow

    method Pop(rp: Pair)
      requires Valid()
      modifies status
      ensures status.Snapshot() == Semantics.PopPair(old(status.Snapshot()), rp)
    {
      var lo := status.memory[status.sp];
      var hi := status.memory[Wrap(status.sp + 1)];
      match rp {
        case BC => status.b, status.c := hi, lo;
        case DE => status.d, status.e := hi, lo;
        case HL => status.h, status.l := hi, lo;
      }
      status.sp := Wrap(status.sp + 2);
      status.pc := Wrap(status.pc + 1);
    }

    method Push(hi: Byte, lo: Byte)
      requires Valid()
      modifies status, status.memory
      ensures status.Snapshot() == Semantics.PushBytes(old(status.Snapshot()), hi, lo)
    {
      status.memory[Wrap(status.sp - 1)] := hi;
      status.memory[Wrap(status.sp - 2)] := lo;
      status.sp := Wrap(status.sp - 2);
      status.pc := Wrap(status.pc + 1);
    }

    method Ret()
      requires Valid()
      modifies status
      ensures status.Snapshot() == Semantics.Return(old(status.Snapshot()))
    {
      status.pc := Word16(status.memory[Wrap(status.sp + 1)], status.memory[status.sp]);
      status.sp := Wrap(status.sp + 2);
    }

    method Jmp()
      requires Valid()
      modifies status
      ensures status.Snapshot() == Semantics.Jump(old(status.Snapshot()))
    {
      status.pc := Word16(status.memory[Wrap(status.pc + 2)], status.memory[Wrap(status.pc + 1)]);
    }

    /** `call`: pushes the current pc, the address of the CALL itself. */
    method Call()
      requires Valid()
      modifies status, status.memory
      ensures status.Snapshot() == Semantics.CallTo(old(status.Snapshot()))
    {
      status.memory[Wrap(status.sp - 1)] := Hi(status.pc);
      status.memory[Wrap(status.sp - 2)] := Lo(status.pc);
      status.sp := Wrap(status.sp - 2);
      Jmp();
    }

    // -------------------------------------------------------------------
    // Loads, stores, register pairs

    method LoadI(rp: Pair)
      requires Valid()
      modifies status
      ensures status.Snapshot() == Semantics.LoadPair(old(status.Snapshot()), rp)
    {
      var lo := status.memory[Wrap(status.pc + 1)];
      var hi := status.memory[Wrap(status.pc + 2)];
      match rp {
        case BC => status.b, status.c := hi, lo;
        case DE => status.d, status.e := hi, lo;
        case HL => status.h, status.l := hi, lo;
      }
      status.pc := Wrap(status.pc + 3);
    }

    method LoadSp()
      requires Valid()
      modifies status
      ensures status.Snapshot() == Semantics.LoadSp(old(status.Snapshot()))
    {
      var lo := status.memory[Wrap(status.pc + 1)];
      var hi := status.memory[Wrap(status.pc + 2)];
      status.sp := Word16(hi, lo);
      status.pc := Wrap(status.pc + 3);
    }

    method Ldax(rp: Pair)
      requires Valid()
      modifies status
      ensures status.Snapshot() == Semantics.LoadAccumulator(old(status.Snapshot()), rp)
    {
      var addr := PairWord(rp);
      status.a := status.memory[addr];
      status.pc := Wrap(status.pc + 1);
    }

    method Stax(rp: Pair)
      requires Valid()
      modifies status, status.memory
      ensures status.Snapshot() == Semantics.StoreAccumulator(old(status.Snapshot()), rp)
    {
      var addr := PairWord(rp);
      status.memory[addr] := status.a;
      status.pc := Wrap(status.pc + 1);
    }

    method Inx(rp: Pair)
      requires Valid()
      modifies status
      ensures status.Snapshot() == Semantics.StepPair(old(status.Snapshot()), rp, 1)
    {
      var w := Wrap(PairWord(rp) + 1);
      SetPair(rp, Hi(w), Lo(w));
      status.pc := Wrap(status.pc + 1);
    }

    method Dcx(rp: Pair)
      requires Valid()
      modifies status
      ensures status.Snapshot() == Semantics.StepPair(old(status.Snapshot()), rp, -1)
    {
      var w := Wrap(PairWord(rp) - 1);
      SetPair(rp, Hi(w), Lo(w));
      status.pc := Wrap(status.pc + 1);
    }

    method SetPair(rp: Pair, hi: Byte, lo: Byte)
      requires Valid()
      modifies status
      ensures status.Snapshot() == Semantics.SetPair(old(status.Snapshot()), rp, hi, lo)
    {
      match rp
      case BC => status.b, status.c := hi, lo;
      case DE => status.d, status.e := hi, lo;
      case HL => status.h, status.l := hi, lo;
    }

    method Inr(r: Reg)
      requires Valid()
      modifies status, status.controls, status.memory
      ensures status.Snapshot() == Semantics.Increment(old(status.Snapshot()), r)
    {
      var tmp := Read(r) + 1;
      UpdateControls(tmp, Semantics.SZP_FLAGS);
      Write(r, tmp % 0x100);
      status.pc := Wrap(status.pc + 1);
    }

    /** `dcr`; its console print when Z is set is not modelled. */
    method Dcr(r: Reg)
      requires Valid()
      modifies status, status.controls, status.memory
      ensures status.Snapshot() == Semantics.Decrement(old(status.Snapshot()), r)
    {
      var tmp := Wrap(Read(r) - 1);
      UpdateControls(tmp, Semantics.SZP_FLAGS);
      Write(r, tmp % 0x100);
      status.pc := Wrap(status.pc + 1);
    }

    method Mvi(r: Reg)
      requires Valid()
      modifies status, status.memory
      ensures status.Snapshot() == Semantics.MoveImmediate(old(status.Snapshot()), r)
    {
      Write(r, status.memory[Wrap(status.pc + 1)]);
      status.pc := Wrap(status.pc + 2);
    }

    method Mov(dst: Reg, v: Byte)
      requires Valid()
      modifies status, status.memory
      ensures status.Snapshot() == Semantics.Move(old(status.Snapshot()), dst, v)
    {
      Write(dst, v);
      status.pc := Wrap(status.pc + 1);
    }

    method Dad(hi: Byte, lo: Byte)
      requires Valid()
      modifies status, status.controls
      ensures status.Snapshot() == Semantics.DoubleAdd(old(status.Snapshot()), hi, lo)
    {
      var hl := Word16(status.h, status.l) + Word16(hi, lo);
      status.h := (hl / 0x100) % 0x100;
      status.l := hl % 0x100;
      status.controls.c := hl > 0xFFFF;
      status.pc := Wrap(status.pc + 1);
    }

    // -------------------------------------------------------------------
    // Cases of the switch that the source writes out inline

    method Rlc()
      requires Valid()
      modifies status, status.controls
      ensures status.Snapshot() == Semantics.RotateLeft(old(status.Snapshot()))
    {
      var tmp := status.a * 2;
      tmp := tmp + (if tmp >= 0x100 then 1 else 0);
      UpdateControls(tmp, {Carry});
      status.a := tmp % 0x100;
      status.pc := Wrap(status.pc + 1);
    }

    /** RRC as written: C is set when bit 0 is 1 and otherwise left alone. */
    method Rrc()
      requires Valid()
      modifies status, status.controls
      ensures status.Snapshot() == Semantics.RotateRight(old(status.Snapshot()))
    {
      var carry := status.a % 2 == 1;
      status.a := status.a / 2;
      if carry {
        status.controls.c := true;
        status.a := status.a + 0x80;
      }
      status.pc := Wrap(status.pc + 1);
    }

    method Ral()
      requires Valid()
      modifies status, status.controls
      ensures status.Snapshot() == Semantics.RotateLeftThroughCarry(old(status.Snapshot()))
    {
      var tmp := status.a * 2 + (if status.controls.c then 1 else 0);
      UpdateControls(tmp, {Carry});
      status.a := tmp % 0x100;
      status.pc := Wrap(status.pc + 1);
    }

    method Rar()
      requires Valid()
      modifies status, status.controls
      ensures status.Snapshot() == Semantics.RotateRightThroughCarry(old(status.Snapshot()))
    {
      var tmp := status.a % 2;
      status.a := status.a / 2;
      if status.controls.c {
        status.a := status.a + 0x80;
      }
      status.controls.c := tmp == 1;
      status.pc := Wrap(status.pc + 1);
    }

    /** The operand word of a 3-byte instruction. */
    function Operand(): (w: Word)
      reads status, status.memory, status.controls
      requires Valid()
      ensures w == Semantics.ImmWord(status.Snapshot())
    {
      Word16(status.memory[Wrap(status.pc + 2)], status.memory[Wrap(status.pc + 1)])
    }

    method Shld()
      requires Valid()
      modifies status, status.memory
      ensures status.Snapshot() == Semantics.StoreHL(old(status.Snapshot()))
    {
      var offset: int := Operand();
      status.memory[offset] := status.l;
      status.memory[Wrap(offset + 1)] := status.h;
      status.pc := Wrap(status.pc + 3);
    }

    method Lhld()
      requires Valid()
      modifies status
      ensures status.Snapshot() == Semantics.LoadHL(old(status.Snapshot()))
    {
      var offset: int := Operand();
      status.l := status.memory[offset];
      status.h := status.memory[Wrap(offset + 1)];
      status.pc := Wrap(status.pc + 3);
    }

    method Sta()
      requires Valid()
      modifies status, status.memory
      ensures status.Snapshot() == Semantics.StoreDirect(old(status.Snapshot()))
    {
      var addr := Operand();
      status.memory[addr] := status.a;
      status.pc := Wrap(status.pc + 3);
    }

    method Lda()
      requires Valid()
      modifies status
      ensures status.Snapshot() == Semantics.LoadDirect(old(status.Snapshot()))
    {
      var offset: int := Operand();
      status.a := status.memory[offset];
      status.pc := Wrap(status.pc + 3);
    }

    /** ADI ACI SUI SBI repeat the helper's computation inline with
        `pc += 2`; ANI XRI ORI CPI call the helper and then `++pc`. Both
        come to the helper on `memory[pc + 1]` and one more pc increment. */
    method AccumulateImmediate(op: AluOp)
      requires Valid()
      modifies status, status.controls
      ensures status.Snapshot() == Semantics.AluImmediate(old(status.Snapshot()), op)
    {
      Accumulate(op, status.memory[Wrap(status.pc + 1)]);
      status.pc := Wrap(status.pc + 1);
    }

    /** RNZ RZ RNC RC RPO RPE RP RM. As written, RNC not taken leaves pc
        where it is; the seven others step over the opcode. */
    method ConditionalReturn(cc: Cond)
      requires Valid()
      modifies status
      ensures status.Snapshot() == Semantics.ConditionalReturn(old(status.Snapshot()), cc)
    {
      if Semantics.Holds(cc, status.controls.Flags()) {
        Ret();
      } else if cc != IfNoCarry {
        status.pc := Wrap(status.pc + 1);
      }
    }

    method ConditionalJump(cc: Cond)
      requires Valid()
      modifies status
      ensures status.Snapshot() == Semantics.ConditionalJump(old(status.Snapshot()), cc)
    {
      if Semantics.Holds(cc, status.controls.Flags()) {
        Jmp();
      } else {
        status.pc := Wrap(status.pc + 3);
      }
    }

    method ConditionalCall(cc: Cond)
      requires Valid()
      modifies status, status.memory
      ensures status.Snapshot() == Semantics.ConditionalCall(old(status.Snapshot()), cc)
    {
      if Semantics.Holds(cc, status.controls.Flags()) {
        Call();
      } else {
        status.pc := Wrap(status.pc + 3);
      }
    }

    method PopPsw()
      requires Valid()
      modifies status, status.controls
      ensures status.Snapshot() == Semantics.PopFlags(old(status.Snapshot()))
    {
      var x := status.memory[status.sp];
      status.controls.c := x % 2 == 1;
      status.controls.p := (x / 0x04) % 2 == 1;
      status.controls.z := (x / 0x40) % 2 == 1;
      status.controls.s := (x / 0x80) % 2 == 1;
      status.a := status.memory[Wrap(status.sp + 1)];
      status.sp := Wrap(status.sp + 2);
      status.pc := Wrap(status.pc + 1);
    }

    method PushPsw()
      requires Valid()
      modifies status, status.memory
      ensures status.Snapshot() == Semantics.PushBytes(old(status.Snapshot()), old(status.a), Semantics.Psw(old(status.controls.Flags())))
    {
      status.memory[Wrap(status.sp - 1)] := status.a;
      var psw := Semantics.Psw(status.controls.Flags());
      status.memory[Wrap(status.sp - 2)] := psw;
      status.sp := Wrap(status.sp - 2);
      status.pc := Wrap(status.pc + 1);
    }

    method Xthl()
      requires Valid()
      modifies status, status.memory
      ensures status.Snapshot() == Semantics.ExchangeStackTop(old(status.Snapshot()))
    {
      var tmp := status.h;
      status.h := status.memory[Wrap(status.sp + 1)];
      status.memory[Wrap(status.sp + 1)] := tmp;
      tmp := status.l;
      status.l := status.memory[status.sp];
      status.memory[status.sp] := tmp;
      status.pc := Wrap(status.pc + 1);
    }

    method Xchg()
      requires Valid()
      modifies status
      ensures status.Snapshot() == Semantics.ExchangeDeHl(old(status.Snapshot()))
    {
      var tmp := status.h;
      status.h := status.d;
      status.d := tmp;
      tmp := status.l;
      status.l := status.e;
      status.e := tmp;
      status.pc := Wrap(status.pc + 1);
    }

    // -------------------------------------------------------------------
    // One instruction

    /** The case of the switch for one decoded instruction. */
    method Execute(instr: Instr)
      requires Valid() && !instr.NotImplemented?
      modifies status, status.controls, status.memory
      ensures status.Snapshot() == Semantics.Exec(instr, old(status.Snapshot()))
    {
      match GroupOf(instr)
      case Transfer => ExecuteTransfer(instr);
      case Arithmetic => ExecuteArithmetic(instr);
      case Logical => ExecuteLogical(instr);
      case Branch => ExecuteBranch(instr);
      case Machine => ExecuteMachine(instr);
    }

    method ExecuteTransfer(instr: Instr)
      requires Valid() && GroupOf(instr) == Transfer
      modifies status, status.memory
      ensures status.Snapshot() == Semantics.ExecTransfer(instr, old(status.Snapshot()))
    {
      match instr
      case Mov(dst, src) => Mov(dst, Read(src));
      case MovAM => Mov(A, status.memory[Word16(status.h, status.a)]);
      case Mvi(r) => Mvi(r);
      case Lxi(rp) => LoadI(rp);
      case LxiSp => LoadSp();
      case Lda => Lda();
      case Sta => Sta();
      case Lhld => Lhld();
      case Shld => Shld();
      case Ldax(rp) => Ldax(rp);
      case Stax(rp) => Stax(rp);
      case Xchg => Xchg();
    }

    method ExecuteArithmetic(instr: Instr)
      requires Valid() && GroupOf(instr) == Arithmetic
      modifies status, status.controls, status.memory
      ensures status.Snapshot() == Semantics.ExecArithmetic(instr, old(status.Snapshot()))
    {
      if instr.Alu? || instr.AluImm? || instr.Inr? || instr.Dcr? {
        ExecuteByteArithmetic(instr);
      } else {
        ExecuteWordArithmetic(instr);
      }
    }

    /** The 8-bit arithmetic cases: the accumulator operations, INR, DCR. */
    method ExecuteByteArithmetic(instr: Instr)
      requires Valid() && (instr.Alu? || instr.AluImm? || instr.Inr? || instr.Dcr?)
      modifies status, status.controls, status.memory
      ensures status.Snapshot() == Semantics.ExecArithmetic(instr, old(status.Snapshot()))
    {
      match instr
      case Alu(op, src) => Accumulate(op, Read(src));
      case AluImm(op) => AccumulateImmediate(op);
      case Inr(r) => Inr(r);
      case Dcr(r) => Dcr(r);
    }

    /** The 16-bit arithmetic cases: INX, DCX, DAD on pairs and on SP. */
    method ExecuteWordArithmetic(instr: Instr)
      requires Valid() && GroupOf(instr) == Arithmetic
      requires !(instr.Alu? || instr.AluImm? || instr.Inr? || instr.Dcr?)
      modifies status, status.controls
      ensures status.Snapshot() == Semantics.ExecArithmetic(instr, old(status.Snapshot()))
    {
      match instr
      case Inx(rp) => Inx(rp);
      case Dcx(rp) => Dcx(rp);
      case InxSp => status.sp := Wrap(status.sp + 1);
      case DcxSp => status.sp := Wrap(status.sp - 1);
      case Dad(rp) => Dad(Read(PairHigh(rp)), Read(PairLow(rp)));
      case DadSp => Dad(Hi(status.sp), Lo(status.sp));
    }

    method ExecuteLogical(instr: Instr)
      requires Valid() && GroupOf(instr) == Logical
      modifies status, status.controls
      ensures status.Snapshot() == Semantics.ExecLogical(instr, old(status.Snapshot()))
    {
      match instr
      case Rlc => Rlc();
      case Rrc => Rrc();
      case Ral => Ral();
      case Rar => Rar();
      case Cma =>
        status.a := Not8(status.a);
        status.pc := Wrap(status.pc + 1);
      case Cmc =>
        status.controls.c := !status.controls.c;
        status.pc := Wrap(status.pc + 1);
      case Stc => status.controls.c := true;
    }

    method ExecuteBranch(instr: Instr)
      requires Valid() && GroupOf(instr) == Branch
      modifies status, status.memory
      ensures status.Snapshot() == Semantics.ExecBranch(instr, old(status.Snapshot()))
    {
      match instr
      case Jmp => Jmp();
      case JmpIf(cc) => ConditionalJump(cc);
      case Call => Call();
      case CallIf(cc) => ConditionalCall(cc);
      case Ret => Ret();
      case RetIf(cc) => ConditionalReturn(cc);
      case Pchl => status.pc := Word16(status.h, status.l);
    }

    method ExecuteMachine(instr: Instr)
      requires Valid() && GroupOf(instr) == Machine && !instr.NotImplemented?
      modifies status, status.controls, status.memory
      ensures status.Snapshot() == Semantics.ExecMachine(instr, old(status.Snapshot()))
    {
      match instr
      case Push(rp) => Push(Read(PairHigh(rp)), Read(PairLow(rp)));
      case Pop(rp) => Pop(rp);
      case PushPsw => PushPsw();
      case PopPsw => PopPsw();
      case Xthl => Xthl();
      case Sphl =>
        status.sp := Word16(status.h, status.l);
        status.pc := Wrap(status.pc + 1);
      case In => status.pc := Wrap(status.pc + 1);
      case Out => status.pc := Wrap(status.pc + 1);
      case Ei =>
        status.isInterruptEnabled := true;
        status.pc := Wrap(status.pc + 1);
      case Di =>
        status.isInterruptEnabled := false;
        status.pc := Wrap(status.pc + 1);
      case Nop => status.pc := Wrap(status.pc + 1);
      case Stall =>
    }

    /** `emulateOp`: fetches `memory[pc]`, decodes it and applies its case of
        the switch. An unimplemented opcode changes nothing and is reported
        with the opcode, as the source's exception carries it. */
    method EmulateOp() returns (signal: Semantics.Signal)
      requires Valid()
      modifies status, status.controls, status.memory
      ensures Valid()
      ensures Semantics.Step(old(status.Snapshot())) == Semantics.Outcome(signal, status.Snapshot())
    {
      var instr := Decode(status.memory[status.pc]);
      if instr.NotImplemented? {
        signal := Semantics.NotImplementedInstruction(instr.opcode);
      } else {
        Execute(instr);
        signal := Semantics.Ok;
      }
    }
  }

  /** The register holding the high byte of a pair. */
  function PairHigh(rp: Pair): Reg
  {
    match rp
    case BC => B
    case DE => D
    case HL => H
  }

  /** The register holding the low byte of a pair. */
  function PairLow(rp: Pair): Reg
  {
    match rp
    case BC => C
    case DE => E
    case HL => L
  }
}
