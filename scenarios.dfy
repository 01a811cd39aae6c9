/** The cases of test/ops_test.cpp. Each test runs `emulateOp` on a newly
    constructed `Emulator` whose pc is 0, after writing the program bytes
    and the registers it names; `Setup` builds that state. A test that runs
    a second instruction after resetting pc is stated from a new machine
    too: the values it checks do not depend on what the first run left
    behind, because the instruction recomputes them or the test sets them
    first. Each proof names the instruction the opcode decodes to, and for
    INR and DCR the 16-bit intermediate result. */
module Scenarios {
  import opened Types
  import opened Isa
  import opened Semantics

  /** `Initial()` with three program bytes at addresses 0, 1 and 2. */
  function Setup(op: Byte, lo: Byte, hi: Byte): State
  {
    Initial().(mem := Initial().mem[0 := op][1 := lo][2 := hi])
  }

  /** An implemented opcode at pc is executed as the instruction it
      decodes to. */
  lemma Executes(s: State, op: Byte, i: Instr)
    requires Fetch(s) == op && Decode(op) == i && !i.NotImplemented?
    ensures Step(s) == Outcome(Ok, Exec(i, s))
  {
  }

  /** DAD rp writes the two low bytes of the sum `v` of HL and the pair
      to H and L, sets C when `v` exceeds 16 bits and writes no memory. */
  lemma DoubleAddSum(s: State, rp: Pair, v: int)
    requires v == AddrHL(s) + PairValue(s, rp)
    ensures var m := DoubleAdd(s, PairHi(s, rp), PairLo(s, rp));
      m.h == (v / 0x100) % 0x100 && m.l == v % 0x100 && m.flags.c == (v > 0xFFFF) && m.mem == s.mem
  {
  }

  /** INR leaves the low byte of `v = r + 1` in the operand and sets S, Z
      and P from `v`. */
  lemma IncrementFlags(s: State, r: Reg, v: Word)
    requires v == Get(s, r) + 1
    ensures Get(Increment(s, r), r) == v % 0x100
    ensures Increment(s, r).flags.s == SignOf(v)
    ensures Increment(s, r).flags.z == ZeroOf(v)
    ensures Increment(s, r).flags.p == ParityOf(v)
  {
  }

  /** DCR leaves the low byte of the 16-bit `v = r - 1` in the operand and
      sets S, Z and P from `v`. */
  lemma DecrementFlags(s: State, r: Reg, v: Word)
    requires v == Wrap(Get(s, r) - 1)
    ensures Get(Decrement(s, r), r) == v % 0x100
    ensures Decrement(s, r).flags.s == SignOf(v)
    ensures Decrement(s, r).flags.z == ZeroOf(v)
    ensures Decrement(s, r).flags.p == ParityOf(v)
  {
  }

  /** LXI B,0x2211 loads BC and steps over its operands. */
  lemma LxiB()
    ensures var s := Setup(0x01, 0x11, 0x22);
      var m := Step(s).state;
      Step(s).signal == Ok && m.b == 0x22 && m.c == 0x11 && m.pc == 3
  {
    var s := Setup(0x01, 0x11, 0x22);
    Executes(s, 0x01, Lxi(BC));
  }

  /** STAX B with BC = 0x0801 stores A there. */
  lemma StaxB()
    ensures var s := Setup(0x02, 0, 0).(a := 9, b := 8, c := 1);
      var m := Step(s).state;
      Step(s).signal == Ok && m.mem[0x0801] == 9
  {
    var s := Setup(0x02, 0, 0).(a := 9, b := 8, c := 1);
    Executes(s, 0x02, Stax(BC));
  }

  /** INX B takes BC = 0xFFFF round to 0. */
  lemma InxBWraps()
    ensures var s := Setup(0x03, 0, 0).(b := 0xFF, c := 0xFF);
      var m := Step(s).state;
      Step(s).signal == Ok && m.b == 0 && m.c == 0
  {
    var s := Setup(0x03, 0, 0).(b := 0xFF, c := 0xFF);
    Executes(s, 0x03, Inx(BC));
  }

  /** INX B carries from C into B: 0x080F becomes 0x0810. */
  lemma InxBCarries()
    ensures var s := Setup(0x03, 0, 0).(b := 0x08, c := 0x0F);
      var m := Step(s).state;
      Step(s).signal == Ok && m.b == 0x08 && m.c == 0x10
  {
    var s := Setup(0x03, 0, 0).(b := 0x08, c := 0x0F);
    Executes(s, 0x03, Inx(BC));
  }

  /** INR B: 0xFF becomes 0 with Z and P set and S clear. */
  lemma InrBWraps()
    ensures var s := Setup(0x04, 0, 0).(b := 0xFF);
      var m := Step(s).state;
      Step(s).signal == Ok && m.b == 0 && !m.flags.s && m.flags.z && m.flags.p
  {
    var s := Setup(0x04, 0, 0).(b := 0xFF);
    Executes(s, 0x04, Inr(B));
    IncrementFlags(s, B, 0x100);
  }

  /** INR B: 0x82 becomes 0x83 with S set and P clear (three 1 bits). */
  lemma InrBSigned()
    ensures var s := Setup(0x04, 0, 0).(b := 0x82);
      var m := Step(s).state;
      Step(s).signal == Ok && m.b == 0x83 && m.flags.s && !m.flags.z && !m.flags.p
  {
    var s := Setup(0x04, 0, 0).(b := 0x82);
    Executes(s, 0x04, Inr(B));
    IncrementFlags(s, B, 0x83);
  }

  /** DCR B: 0 becomes 0xFF with S and P set. */
  lemma DcrBWraps()
    ensures var s := Setup(0x05, 0, 0);
      var m := Step(s).state;
      Step(s).signal == Ok && m.b == 0xFF && m.flags.s && !m.flags.z && m.flags.p
  {
    var s := Setup(0x05, 0, 0);
    Executes(s, 0x05, Dcr(B));
    DecrementFlags(s, B, 0xFFFF);
  }

  /** DCR B: 0x74 becomes 0x73 with S, Z and P clear (five 1 bits). */
  lemma DcrBOdd()
    ensures var s := Setup(0x05, 0, 0).(b := 0x74);
      var m := Step(s).state;
      Step(s).signal == Ok && m.b == 0x73 && !m.flags.s && !m.flags.z && !m.flags.p
  {
    var s := Setup(0x05, 0, 0).(b := 0x74);
    Executes(s, 0x05, Dcr(B));
    DecrementFlags(s, B, 0x73);
  }

  /** MVI B,0x10 loads B and steps over its operand. */
  lemma MviB()
    ensures var s := Setup(0x06, 0x10, 0);
      var m := Step(s).state;
      Step(s).signal == Ok && m.b == 0x10 && m.pc == 2
  {
    var s := Setup(0x06, 0x10, 0);
    Executes(s, 0x06, Mvi(B));
  }

  /** RLC: 0x91 becomes 0x23 and bit 7 sets C. */
  lemma RlcCarries()
    ensures var s := Setup(0x07, 0, 0).(a := 0x91);
      var m := Step(s).state;
      Step(s).signal == Ok && m.a == 0x23 && m.flags.c
  {
    var s := Setup(0x07, 0, 0).(a := 0x91);
    Executes(s, 0x07, Rlc);
  }

  /** RLC: 0x60 becomes 0xC0 and C is clear. */
  lemma RlcClears()
    ensures var s := Setup(0x07, 0, 0).(a := 0x60);
      var m := Step(s).state;
      Step(s).signal == Ok && m.a == 0xC0 && !m.flags.c
  {
    var s := Setup(0x07, 0, 0).(a := 0x60);
    Executes(s, 0x07, Rlc);
  }

  /** DAD B with HL = 0x8001 and BC = 0x0001, as the code does it: HL becomes
      0x8002, C is clear and memory is not written. */
  lemma DadB()
    ensures var s := Setup(0x09, 0xFF, 0).(b := 0, c := 1, h := 0x80, l := 0x01);
      var m := Step(s).state;
      Step(s).signal == Ok && m.h == 0x80 && m.l == 0x02 && !m.flags.c && m.mem == s.mem
  {
    var s := Setup(0x09, 0xFF, 0).(b := 0, c := 1, h := 0x80, l := 0x01);
    Executes(s, 0x09, Dad(BC));
    DoubleAddSum(s, BC, 0x8002);
  }

  /** LDAX B with BC = 0x0102 loads the byte stored there. */
  lemma LdaxB()
    ensures var s := Setup(0x0A, 0, 0).(b := 0x01, c := 0x02, mem := Setup(0x0A, 0, 0).mem[0x0102 := 5]);
      var m := Step(s).state;
      Step(s).signal == Ok && m.a == 5
  {
    var s := Setup(0x0A, 0, 0).(b := 0x01, c := 0x02, mem := Setup(0x0A, 0, 0).mem[0x0102 := 5]);
    Executes(s, 0x0A, Ldax(BC));
  }

  /** DCX B with BC = 0x0102, as the code does it: BC becomes 0x0101 and
      memory is not written. */
  lemma DcxB()
    ensures var s := Setup(0x0B, 0, 0).(b := 0x01, c := 0x02, mem := Setup(0x0B, 0, 0).mem[0x0102 := 5]);
      var m := Step(s).state;
      Step(s).signal == Ok && m.b == 0x01 && m.c == 0x01 && m.mem == s.mem
  {
    var s := Setup(0x0B, 0, 0).(b := 0x01, c := 0x02, mem := Setup(0x0B, 0, 0).mem[0x0102 := 5]);
    Executes(s, 0x0B, Dcx(BC));
  }

  /** RRC: 0x01 becomes 0x80 and bit 0 sets C. */
  lemma RrcCarries()
    ensures var s := Setup(0x0F, 0, 0).(a := 0x01);
      var m := Step(s).state;
      Step(s).signal == Ok && m.a == 0x80 && m.flags.c
  {
    var s := Setup(0x0F, 0, 0).(a := 0x01);
    Executes(s, 0x0F, Rrc);
  }

  /** RRC: 0x82 becomes 0x41 and a clear C stays clear. */
  lemma RrcKeeps()
    ensures var s := Setup(0x0F, 0, 0).(a := 0x82);
      var m := Step(s).state;
      Step(s).signal == Ok && m.a == 0x41 && !m.flags.c
  {
    var s := Setup(0x0F, 0, 0).(a := 0x82);
    Executes(s, 0x0F, Rrc);
  }

  /** RAL: 0x01 becomes 0x02 with C clear. */
  lemma RalClears()
    ensures var s := Setup(0x17, 0, 0).(a := 0x01);
      var m := Step(s).state;
      Step(s).signal == Ok && m.a == 0x02 && !m.flags.c
  {
    var s := Setup(0x17, 0, 0).(a := 0x01);
    Executes(s, 0x17, Ral);
  }

  /** RAL: bit 7 of 0x81 leaves into C. */
  lemma RalCarriesOut()
    ensures var s := Setup(0x17, 0, 0).(a := 0x81);
      var m := Step(s).state;
      Step(s).signal == Ok && m.a == 0x02 && m.flags.c
  {
    var s := Setup(0x17, 0, 0).(a := 0x81);
    Executes(s, 0x17, Ral);
  }

  /** RAL: a set C enters at bit 0. */
  lemma RalCarriesIn()
    ensures var s := Setup(0x17, 0, 0).(a := 0x81, flags := Flags(false, false, false, true));
      var m := Step(s).state;
      Step(s).signal == Ok && m.a == 0x03 && m.flags.c
  {
    var s := Setup(0x17, 0, 0).(a := 0x81, flags := Flags(false, false, false, true));
    Executes(s, 0x17, Ral);
  }

  /** RAR: bit 0 of 0x01 leaves into C. */
  lemma RarCarriesOut()
    ensures var s := Setup(0x1F, 0, 0).(a := 0x01);
      var m := Step(s).state;
      Step(s).signal == Ok && m.a == 0 && m.flags.c
  {
    var s := Setup(0x1F, 0, 0).(a := 0x01);
    Executes(s, 0x1F, Rar);
  }

  /** RAR: a set C enters at bit 7. */
  lemma RarCarriesIn()
    ensures var s := Setup(0x1F, 0, 0).(a := 0x01, flags := Flags(false, false, false, true));
      var m := Step(s).state;
      Step(s).signal == Ok && m.a == 0x80 && m.flags.c
  {
    var s := Setup(0x1F, 0, 0).(a := 0x01, flags := Flags(false, false, false, true));
    Executes(s, 0x1F, Rar);
  }

  /** RAR: 0x10 with C set becomes 0x88 with C clear. */
  lemma RarClears()
    ensures var s := Setup(0x1F, 0, 0).(a := 0x10, flags := Flags(false, false, false, true));
      var m := Step(s).state;
      Step(s).signal == Ok && m.a == 0x88 && !m.flags.c
  {
    var s := Setup(0x1F, 0, 0).(a := 0x10, flags := Flags(false, false, false, true));
    Executes(s, 0x1F, Rar);
  }

  /** SHLD 0x2310 with HL = 0x1011 stores L then H. */
  lemma Shld()
    ensures var s := Setup(0x22, 0x10, 0x23).(h := 0x10, l := 0x11);
      var m := Step(s).state;
      Step(s).signal == Ok && m.mem[0x2310] == 0x11 && m.mem[0x2311] == 0x10
  {
    var s := Setup(0x22, 0x10, 0x23).(h := 0x10, l := 0x11);
    Executes(s, 0x22, Isa.Shld);
  }

  /** LHLD 0x2310 loads L then H. */
  lemma Lhld()
    ensures var s := Setup(0x2A, 0x10, 0x23).(mem := Setup(0x2A, 0x10, 0x23).mem[0x2310 := 0x12][0x2311 := 0x23]);
      var m := Step(s).state;
      Step(s).signal == Ok && m.l == 0x12 && m.h == 0x23
  {
    var s := Setup(0x2A, 0x10, 0x23).(mem := Setup(0x2A, 0x10, 0x23).mem[0x2310 := 0x12][0x2311 := 0x23]);
    Executes(s, 0x2A, Isa.Lhld);
  }

  /** CMA: 0x9A becomes 0x65. */
  lemma Cma()
    ensures var s := Setup(0x2F, 0, 0).(a := 0x9A);
      var m := Step(s).state;
      Step(s).signal == Ok && m.a == 0x65
  {
    var s := Setup(0x2F, 0, 0).(a := 0x9A);
    Executes(s, 0x2F, Isa.Cma);
  }

  /** LXI SP,0x0381 */
  lemma LxiSp()
    ensures var s := Setup(0x31, 0x81, 0x03);
      var m := Step(s).state;
      Step(s).signal == Ok && m.sp == 0x0381
  {
    var s := Setup(0x31, 0x81, 0x03);
    Executes(s, 0x31, Isa.LxiSp);
  }

  /** INR M with HL = 0x0403 holding 0x02 writes 0x03 there, with P set. */
  lemma InrM()
    ensures var s := Setup(0x34, 0, 0).(h := 0x04, l := 0x03, mem := Setup(0x34, 0, 0).mem[0x0403 := 2]);
      var m := Step(s).state;
      Step(s).signal == Ok && m.mem[0x0403] == 3 && !m.flags.s && m.flags.p && !m.flags.z
  {
    var s := Setup(0x34, 0, 0).(h := 0x04, l := 0x03, mem := Setup(0x34, 0, 0).mem[0x0403 := 2]);
    Executes(s, 0x34, Inr(M));
    IncrementFlags(s, M, 3);
  }

  /** CMC clears a set C. */
  lemma CmcClears()
    ensures var s := Setup(0x3F, 0, 0).(flags := Flags(false, false, false, true));
      var m := Step(s).state;
      Step(s).signal == Ok && !m.flags.c
  {
    var s := Setup(0x3F, 0, 0).(flags := Flags(false, false, false, true));
    Executes(s, 0x3F, Isa.Cmc);
  }

  /** CMC sets a clear C. */
  lemma CmcSets()
    ensures var s := Setup(0x3F, 0, 0);
      var m := Step(s).state;
      Step(s).signal == Ok && m.flags.c
  {
    var s := Setup(0x3F, 0, 0);
    Executes(s, 0x3F, Isa.Cmc);
  }
}
