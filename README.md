# An Intel 8080 emulator core, in Dafny

This project models the core of a small C++ Intel 8080 emulator:
`Emulator::emulateOp`, which fetches the opcode at `pc` and executes one
instruction; the helpers it calls (`updateControls`, `ana`, `add`, `push`,
`call`, `dad` and the rest); the `Status` and `Controls` records; the
`NotImplementedInstruction` exception; and the `popcount` template that sets
the parity flag.

The model has two layers.

- `Semantics` is a pure specification. A `State` datatype is a snapshot of
  `Status`: the registers, `sp`, `pc`, the 64 KiB memory, the flags and the
  interrupt-enable bit. `Step` fetches, decodes (`Isa.Decode`, one entry per
  opcode of the `emulateOp` switch) and executes one instruction. It returns
  an `Outcome` whose `signal` is `Ok` or `NotImplementedInstruction(opcode)`,
  which stands for the C++ exception.
- `Emulator` holds the classes `Controls`, `Status` and `Emulator`. Their
  fields change in place, as in the C++, and memory is an `array`.
  `UpdateControls` keeps the loop over the affected flags, and `Popcount`
  keeps the shifting loop. Every helper method is proved to move
  `Status.Snapshot()` exactly as the matching `Semantics` function does, and
  `EmulateOp` is proved to behave exactly as `Semantics.Step`.

`Properties` proves what the instructions mean:

- the 8-bit results and carries of ADD, ADC, SUB, SBB and CMP, and that
  S, Z and P describe the low byte of the result;
- bit by bit, what ANA, XRA, ORA and CMA compute;
- round trips: PUSH then POP, PUSH PSW then POP PSW, CALL then RET, SHLD then
  LHLD, STA then LDA, STAX then LDAX, a rotate then its inverse, an exchange
  done twice, and INR after DCR;
- how far each instruction moves `pc`, which instructions write memory, and
  that only EI and DI change the interrupt bit;
- exactly which opcodes raise `NotImplementedInstruction`.

`Scenarios` restates each case of `test/ops_test.cpp` as a lemma about
`Semantics.Step`.

Integers are unbounded in Dafny, so the C++ widths are written out:

- `Byte` is 0..255 and `Word` is 0..65535;
- `uint16_t` arithmetic goes through `Types.Wrap`, which reduces modulo
  2^16;
- assignments into a `Byte` keep `% 0x100`;
- `&`, `|` and `^` are defined bit by bit (`Types.Bitwise`).

The emulator's behaviour is modelled as the code is written, including
these places where it differs from a real 8080:

- opcode 0x08 does nothing, not even advance `pc`, so the emulator stalls
  on it (the other undocumented NOPs 0x10, 0x18, 0x20, 0x28, 0x30 and 0x38
  advance `pc` by one);
- `INX SP`, `DCX SP` and `STC` do not advance `pc`, and `IN`/`OUT` advance
  it by one instead of two;
- `RRC` sets C when bit 0 is 1 but never clears it;
- `MOV A,M` reads the byte at `(H << 8) | A`, not at HL
  (`Properties.MoveFromMemoryAsWritten`);
- a `RNC` that is not taken leaves `pc` unchanged, while the other
  conditional returns step over themselves;
- `CALL` pushes the address of the CALL instruction itself, so RET returns
  to it (`Properties.CallThenReturn`);
- `DAA`, `HLT` and the eight `RST` opcodes raise
  `NotImplementedInstruction`.

The test file expects two things the code does not do, and the model follows
the code:

- `DAD_B` (test/ops_test.cpp:115-133) and `DCX_B` (test/ops_test.cpp:145-152)
  expect memory bytes to change.
- `dad` and `dcx` write only registers, so `Scenarios.DadB` and
  `Scenarios.DcxB` prove that memory is left unchanged.

## Model

| member | source | states |
|---|---|---|
| Types.WrapIsMod | lib/emulator.cpp:121-135 | reducing into `uint16_t` is the value modulo 2^16 |
| Types.WrapLowByte | lib/emulator.cpp:144-151 | the low byte of a `uint16_t` result is the low byte of the exact result |
| Types.WordJoinSplit | lib/emulator.cpp:121-127 | `(hi << 8) \| lo` splits back into `rp >> 8` and `rp & 0xff` |
| Types.WordSplitJoin | lib/emulator.cpp:129-135 | every 16-bit word is the join of its high and low bytes |
| Types.WrapAdd | lib/emulator.cpp:73-83 | adding and then subtracting the same amount modulo 2^16 gives back the word (sp -= 2 then sp += 2) |
| Types.Bitwise | lib/emulator.cpp:38-57 | a bitwise combination of n-bit values stays below 2^n |
| Types.Pow2Eight | lib/auxiliary.h:8-18 | proof helper: 2^8 = 0x100, the width of the masks and counts |
| Types.Pow2 | lib/auxiliary.h:8-18 | proof helper: powers of two, used by the bit and mask lemmas, are positive |
| Auxiliary.Popcount | lib/auxiliary.h:8-18 | the shifting loop returns the number of 1 bits of its argument, and 0 for a non-positive one |
| Auxiliary.OnesBelowAtMost | lib/auxiliary.h:8-18 | at most n of the low n bits are 1 |
| Auxiliary.MulGap | lib/auxiliary.h:8-18 | proof helper for the shift lemmas: multiples of d differ by at least d |
| Auxiliary.DivUnique | lib/auxiliary.h:8-18 | proof helper for the shift lemmas: the quotient is determined by x = d*q + r with 0 <= r < d |
| Auxiliary.HalfThenDiv | lib/auxiliary.h:12-16 | proof helper: shifting right once and dividing by b is dividing by 2b |
| Auxiliary.BitShift | lib/auxiliary.h:12-16 | bit k+1 of x is bit k of `x >> 1` |
| Auxiliary.OnesBelowShift | lib/auxiliary.h:12-16 | counting the low n+1 bits is `x & 1` plus counting the low n bits of `x >> 1` |
| Auxiliary.PopcountCountsOnes | lib/auxiliary.h:8-18 | for x < 2^n, `popcount(x)` counts the 1 bits among bits 0..n-1 |
| Auxiliary.PopcountZero | lib/auxiliary.h:12 | `popcount(0) == 0` |
| Auxiliary.PopcountStep | lib/auxiliary.h:12-16 | one loop iteration: `popcount(x) == (x & 1) + popcount(x >> 1)` for x > 0 |
| Auxiliary.ModHalf | lib/emulator.cpp:31 | masking to n+1 bits and then shifting is shifting and then masking to n bits |
| Auxiliary.LowBitCountIsPopcount | lib/emulator.cpp:31 | counting the 1 bits among the low n bits equals `popcount(x mod 2^n)` |
| Auxiliary.LowByteCount | lib/emulator.cpp:31 | the parity count over 8 bits is `popcount(result & 0xff)` |
| Auxiliary.PopcountOfByte | lib/emulator.cpp:31 | the popcount of a byte lies in 0..8 and counts its eight bits |
| Isa.RegCode | lib/emulator.cpp:508-762 | the 3-bit register field decodes back to the register |
| Isa.AluCode | lib/emulator.cpp:763-1018 | the 3-bit operation field decodes back to the ALU operation |
| Isa.DecodeAlu | lib/emulator.cpp:763-1018 | opcode 0x80 + 8*op + r is the ALU operation op on register r |
| Isa.DecodeMov | lib/emulator.cpp:508-762 | opcode 0x40 + 8*dst + src is `MOV dst,src`, except 0x76 and 0x7E |
| Isa.DecodeNotImplemented | lib/emulator.cpp:202-1337 | an opcode decodes to "not implemented" exactly when it is one of the ten that throw, and it carries that opcode |
| Isa.DecodeInterrupts | lib/emulator.cpp:1270-1274 | 0xFB alone decodes to EI and 0xF3 alone to DI |
| Emulator.Controls.constructor | lib/emulator.h:15-21 | all four flags start false |
| Emulator.Status.constructor | lib/emulator.h:23-40 | registers, sp and pc start at 0, all 65536 memory bytes are 0, the flags are clear, interrupts are enabled |
| Emulator.Emulator.constructor | lib/emulator.h:51-84 | a new emulator's status is the initial state |
| Emulator.Emulator.Read | lib/emulator.cpp:508-762 | reading register r (M reads the byte at HL) agrees with the snapshot |
| Emulator.Emulator.PairWord | lib/emulator.cpp:109-113 | `(rpHigh << 8) \| rpLow` is the pair's value in the snapshot |
| Emulator.Emulator.Write | lib/emulator.cpp:158-161 | writing register r (M writes the byte at HL) changes exactly that register or byte |
| Emulator.Emulator.UpdateControls | lib/emulator.cpp:25-36 | the loop over the affected set sets C, P, S and Z from the result and leaves the other flags alone |
| Emulator.Emulator.Ana | lib/emulator.cpp:38-43 | AND into A, S/Z/P from the result, C cleared, pc + 1 |
| Emulator.Emulator.Xra | lib/emulator.cpp:45-50 | XOR into A, S/Z/P from the result, C cleared, pc + 1 |
| Emulator.Emulator.Ora | lib/emulator.cpp:52-57 | OR into A, S/Z/P from the result, C cleared, pc + 1 |
| Emulator.Emulator.Cmp | lib/emulator.cpp:59-63 | all four flags from the 16-bit `a - b`, A unchanged, pc + 1 |
| Emulator.Emulator.Add | lib/emulator.cpp:163-168 | A becomes the low byte of `a + x`, with all four flags from the 16-bit sum |
| Emulator.Emulator.Adc | lib/emulator.cpp:170-175 | the same for `a + x + c` |
| Emulator.Emulator.Sub | lib/emulator.cpp:177-182 | the same for the 16-bit `a - x` |
| Emulator.Emulator.Sbb | lib/emulator.cpp:184-189 | the same for the 16-bit `a - x - c` |
| Emulator.Emulator.Accumulate | lib/emulator.cpp:763-1018 | the ALU row op applied to A and x, as `Semantics.AluStep` |
| Emulator.Emulator.Pop | lib/emulator.cpp:66-71 | the low byte from sp, the high byte from sp+1, sp + 2, pc + 1 |
| Emulator.Emulator.Push | lib/emulator.cpp:73-78 | high byte to sp-1, low byte to sp-2, sp - 2, pc + 1 |
| Emulator.Emulator.Ret | lib/emulator.cpp:80-83 | pc from the two bytes at sp, sp + 2 |
| Emulator.Emulator.Jmp | lib/emulator.cpp:85-87 | pc from the two operand bytes |
| Emulator.Emulator.Call | lib/emulator.cpp:89-94 | the current pc is pushed, then the jump is taken |
| Emulator.Emulator.LoadI | lib/emulator.cpp:96-100 | the pair gets the two operand bytes, pc + 3 |
| Emulator.Emulator.LoadSp | lib/emulator.cpp:102-107 | sp gets the operand word, pc + 3 |
| Emulator.Emulator.Ldax | lib/emulator.cpp:109-113 | A gets the byte the pair addresses, pc + 1 |
| Emulator.Emulator.Stax | lib/emulator.cpp:115-119 | A is stored where the pair points, pc + 1 |
| Emulator.Emulator.Inx | lib/emulator.cpp:121-127 | the pair is incremented modulo 2^16, pc + 1 |
| Emulator.Emulator.Dcx | lib/emulator.cpp:129-135 | the pair is decremented modulo 2^16, pc + 1 |
| Emulator.Emulator.SetPair | lib/emulator.cpp:1254-1264 | the pair's two registers are set, nothing else changes |
| Emulator.Emulator.Inr | lib/emulator.cpp:137-142 | the register or the byte at HL is incremented, S/Z/P from the 16-bit sum, C kept |
| Emulator.Emulator.Dcr | lib/emulator.cpp:144-151 | the same for the 16-bit `r - 1` |
| Emulator.Emulator.Mvi | lib/emulator.cpp:153-156 | the register or the byte at HL gets the operand byte, pc + 2 |
| Emulator.Emulator.Mov | lib/emulator.cpp:158-161 | the destination gets the value, pc + 1 |
| Emulator.Emulator.Dad | lib/emulator.cpp:191-199 | HL gets the low 16 bits of HL + pair, C is set when the sum exceeds 16 bits |
| Emulator.Emulator.Rlc | lib/emulator.cpp:235-243 | A rotated left, bit 7 into C and bit 0 |
| Emulator.Emulator.Rrc | lib/emulator.cpp:271-280 | A rotated right, C set when bit 0 was 1 and otherwise kept |
| Emulator.Emulator.Ral | lib/emulator.cpp:309-317 | A rotated left through C |
| Emulator.Emulator.Rar | lib/emulator.cpp:346-355 | A rotated right through C |
| Emulator.Emulator.Operand | lib/emulator.cpp:364-373 | the 16-bit operand at pc+1, pc+2 |
| Emulator.Emulator.Shld | lib/emulator.cpp:364-373 | L to the operand address, H to the next byte, pc + 3 |
| Emulator.Emulator.Lhld | lib/emulator.cpp:401-410 | L and H from the operand address and the next byte, pc + 3 |
| Emulator.Emulator.Sta | lib/emulator.cpp:440-447 | A to the operand address, pc + 3 |
| Emulator.Emulator.Lda | lib/emulator.cpp:481-486 | A from the operand address, pc + 3 |
| Emulator.Emulator.AccumulateImmediate | lib/emulator.cpp:1046-1052 | the ALU op on A and the operand byte, pc + 2 |
| Emulator.Emulator.ConditionalReturn | lib/emulator.cpp:1093-1097 | RET when the condition holds; otherwise pc + 1, except that RNC leaves pc unchanged |
| Emulator.Emulator.ConditionalJump | lib/emulator.cpp:1028-1032 | JMP when the condition holds, otherwise pc + 3 |
| Emulator.Emulator.ConditionalCall | lib/emulator.cpp:1037-1041 | CALL when the condition holds, otherwise pc + 3 |
| Emulator.Emulator.PopPsw | lib/emulator.cpp:1254-1264 | the flags come from the byte at sp (bits 7, 6, 2, 0), A from sp+1, sp + 2, pc + 1 |
| Emulator.Emulator.PushPsw | lib/emulator.cpp:1280-1288 | A and the flag byte (bit 1 set) are pushed |
| Emulator.Emulator.Xthl | lib/emulator.cpp:1181-1190 | L and H swap with the bytes at sp and sp+1 |
| Emulator.Emulator.Xchg | lib/emulator.cpp:1222-1231 | DE and HL swap |
| Emulator.Emulator.Execute | lib/emulator.cpp:202-1337 | executing any implemented instruction moves the state exactly as `Semantics.Exec` |
| Emulator.Emulator.ExecuteTransfer | lib/emulator.cpp:202-1337 | the data-transfer cases as `Semantics.ExecTransfer` |
| Emulator.Emulator.ExecuteArithmetic | lib/emulator.cpp:202-1337 | the ALU, immediate ALU, INR, DCR, INX, DCX and DAD cases as `Semantics.ExecArithmetic` |
| Emulator.Emulator.ExecuteByteArithmetic | lib/emulator.cpp:763-1018 | the register, memory and immediate ALU cases and INR and DCR as `Semantics.ExecArithmetic` |
| Emulator.Emulator.ExecuteWordArithmetic | lib/emulator.cpp:219-490 | the INX, DCX and DAD cases as `Semantics.ExecArithmetic` |
| Emulator.Emulator.ExecuteLogical | lib/emulator.cpp:235-507 | the rotate, complement and set-carry cases as `Semantics.ExecLogical` |
| Emulator.Emulator.ExecuteBranch | lib/emulator.cpp:1019-1337 | the jump, call and return cases as `Semantics.ExecBranch` |
| Emulator.Emulator.ExecuteMachine | lib/emulator.cpp:202-1337 | stack, I/O, interrupt and no-op cases as `Semantics.ExecMachine` |
| Emulator.Emulator.EmulateOp | lib/emulator.cpp:202-1337 | one call keeps the emulator well formed, and its signal and new state are exactly `Semantics.Step` of the old state |
| Properties.Pow2Seven | lib/emulator.cpp:32 | proof helper: bit 7 is 0x80 |
| Properties.SignOfLowByte | lib/emulator.cpp:32 | `result & 0x80` tests bit 7 of the low byte |
| Properties.UpdateDescribes | lib/emulator.cpp:25-36 | after updating S, Z and P, they say whether the low byte is negative, zero, and has even parity |
| Properties.UpdateFlagsCompose | lib/emulator.cpp:25-36 | updating two sets in turn is updating their union, and updating twice is updating once, so the order of the set does not matter |
| Properties.UpdateFlagsFrame | lib/emulator.cpp:25-36 | a flag not in the affected set keeps its value |
| Properties.BitwiseBit | lib/emulator.cpp:38-57 | bit k of a bitwise combination is the combination of the bits k |
| Properties.BitwiseUnfold | lib/emulator.cpp:38-57 | the low bit and the remaining bits of a bitwise combination |
| Properties.BitZero | lib/emulator.cpp:38-57 | bit 0 is the remainder modulo 2 |
| Properties.XorSelf | lib/emulator.cpp:45-50 | x XOR x is 0 |
| Properties.AndOrSelf | lib/emulator.cpp:38-57 | x AND x and x OR x are x |
| Properties.BitwiseCommutes | lib/emulator.cpp:38-57 | AND, OR and XOR commute |
| Properties.NotBit | lib/emulator.cpp:427-431 | each bit of the complement is the negated bit |
| Properties.Pow2Split | lib/emulator.cpp:427-431 | proof helper for NotBit: 2^8 is an even multiple of 2^k below bit 8 |
| Properties.AluStepChanges | lib/emulator.cpp:38-63 | an ALU step changes only A, the flags and pc, and advances pc by one |
| Properties.ArithStep | lib/emulator.cpp:163-189 | ADD, ADC, SUB and SBB keep the low byte of their 16-bit result in A and set all four flags from it |
| Properties.AddSpec | lib/emulator.cpp:163-168 | A becomes (a + x) mod 256; C exactly when a + x > 0xFF; S/Z/P describe A; nothing else but pc changes |
| Properties.AdcSpec | lib/emulator.cpp:170-175 | the same with the incoming carry added |
| Properties.SubSpec | lib/emulator.cpp:177-182 | A becomes (a - x) mod 256; C exactly when a < x (a borrow); S/Z/P describe A |
| Properties.SbbSpec | lib/emulator.cpp:184-189 | the same with the incoming carry subtracted; C exactly when a < x + c |
| Properties.CmpSpec | lib/emulator.cpp:59-63 | Z exactly when a == x, C exactly when a < x, A unchanged |
| Properties.LogicBits | lib/emulator.cpp:38-57 | each bit of ANA/XRA/ORA's result is the AND/XOR/OR of the operands' bits |
| Properties.LogicSpec | lib/emulator.cpp:38-57 | ANA, XRA and ORA combine A bit by bit, clear C, set S/Z/P from A and change nothing else but pc |
| Properties.LogicFlags | lib/emulator.cpp:38-57 | updating S/Z/P from a byte and clearing C describes that byte |
| Properties.XraSelfClears | lib/emulator.cpp:45-50 | `XRA A` zeroes A and sets Z with C clear |
| Properties.AndOrSelfKeeps | lib/emulator.cpp:38-57 | `ANA A` and `ORA A` keep A |
| Properties.LogicCommutes | lib/emulator.cpp:38-57 | the logical ops do not depend on operand order |
| Properties.AluImmediateSpec | lib/emulator.cpp:1046-1052 | the immediate form is the register form on the byte at pc+1, stepping pc by 2 |
| Properties.OperandUpdate | lib/emulator.cpp:137-161 | writing an operand through its `Byte&` (with new flags and a pc step) leaves the value there and changes no other register, sp, interrupt bit or memory byte |
| Properties.IncrementSpec | lib/emulator.cpp:137-142 | INR leaves (r + 1) mod 256, S/Z/P describing it, C kept, pc + 1; the other registers, sp, the interrupt bit and memory (except the byte at HL for INR M) are unchanged |
| Properties.DecrementSpec | lib/emulator.cpp:144-151 | DCR leaves (r - 1) mod 256, S/Z/P describing it, C kept, pc + 1; the other registers, sp, the interrupt bit and memory (except the byte at HL for DCR M) are unchanged |
| Properties.DownUp | lib/emulator.cpp:137-151 | decrementing then incrementing a byte modulo 256 gives it back |
| Properties.DecrementIncrement | lib/emulator.cpp:137-151 | INR undoes DCR on the same operand |
| Properties.StepPairSpec | lib/emulator.cpp:121-135 | INX/DCX move the pair by ±1 modulo 2^16, pc + 1, and touch neither the other two pairs, A, the flags, memory, sp nor the interrupt bit |
| Properties.IncrementDecrementPair | lib/emulator.cpp:121-135 | DCX undoes INX, leaving only pc advanced by two |
| Properties.DoubleAddSpec | lib/emulator.cpp:191-199 | HL becomes (HL + rp) mod 2^16, C exactly when the sum exceeds 0xFFFF, nothing else but pc changes |
| Properties.LowWordBytes | lib/emulator.cpp:191-199 | proof helper for DAD: `hl >> 8` and `hl & 0xff` truncated to bytes are the bytes of the low 16 bits |
| Properties.RotateLeftRight | lib/emulator.cpp:235-280 | RRC undoes RLC on A |
| Properties.RotateThroughCarryInverse | lib/emulator.cpp:309-355 | RAR undoes RAL, restoring A and C |
| Properties.RotateLeftThroughCarryShape | lib/emulator.cpp:309-317 | RAL shifts A left, takes C into bit 0 and bit 7 into C |
| Properties.RotateLeftSpec | lib/emulator.cpp:235-243 | RLC moves bit 7 into bit 0 and into C and keeps S/Z/P |
| Properties.RotateRightKeepsCarry | lib/emulator.cpp:271-280 | RRC of an even A keeps C, even when C is set |
| Properties.ComplementTwice | lib/emulator.cpp:427-431 | CMA twice, and CMC twice, change only pc |
| Properties.ComplementSpec | lib/emulator.cpp:427-507 | CMA (427-431) negates each bit of A and CMC (503-507) negates C; each changes nothing else but pc |
| Properties.StoreLoadHL | lib/emulator.cpp:364-410 | LHLD from the address SHLD wrote gives back H and L |
| Properties.StoreLoadDirect | lib/emulator.cpp:440-486 | LDA from the address STA wrote gives back A |
| Properties.StoreLoadAccumulator | lib/emulator.cpp:109-119 | LDAX through a pair with the same value gives back what STAX stored |
| Properties.LoadPairSpec | lib/emulator.cpp:96-100 | LXI sets the pair to the operand word and steps pc by 3, keeping the other pairs, A, sp, the flags, memory and the interrupt bit |
| Properties.MoveSpec | lib/emulator.cpp:158-161 | MOV copies the source into the destination, keeps the flags, steps pc by 1, and changes no other register, sp, interrupt bit or memory byte (only the byte at HL for `MOV M,r`) |
| Properties.MoveImmediateSpec | lib/emulator.cpp:153-156 | MVI puts the byte at pc+1 into the operand, keeps the flags, steps pc by 2, and changes no other register, sp, interrupt bit or memory byte (only the byte at HL for `MVI M`) |
| Properties.MoveFromMemoryAsWritten | lib/emulator.cpp:755-758 | `MOV A,M` reads the byte at `(H << 8) \| A`, which agrees with HL only when A == L |
| Properties.PushPop | lib/emulator.cpp:66-78 | POP returns what PUSH pushed and restores sp |
| Properties.FlagsOfPsw | lib/emulator.cpp:1254-1288 | decoding the pushed flag byte gives back the flags |
| Properties.PushPopPsw | lib/emulator.cpp:1254-1288 | POP PSW after PUSH PSW restores A, the flags and sp |
| Properties.PswFixedBits | lib/emulator.cpp:1280-1288 | the pushed flag byte has bit 1 set and bits 3 and 5 clear |
| Properties.ExchangeTwice | lib/emulator.cpp:1181-1231 | XCHG twice and XTHL twice change only pc |
| Properties.ExchangeStackTopSpec | lib/emulator.cpp:1181-1190 | XTHL swaps L with the byte at sp and H with the byte at sp+1; sp, the other registers, the flags and every other memory byte are kept |
| Properties.CallThenReturn | lib/emulator.cpp:80-94 | RET after CALL restores sp and returns to the CALL's own address |
| Properties.CallSpec | lib/emulator.cpp:89-94 | CALL pushes pc's high byte at sp-1 and low byte at sp-2 and jumps to the operand |
| Properties.NotTaken | lib/emulator.cpp:1019-1097 | untaken jumps and calls step by 3; untaken returns step by 1, except RNC, which changes nothing |
| Properties.Taken | lib/emulator.cpp:1019-1041 | taken conditionals behave as RET, JMP and CALL |
| Properties.ConditionPairs | lib/emulator.cpp:1019-1337 | each condition is the negation of its partner (Z/NZ, C/NC, PE/PO, M/P) |
| Properties.PcStepTransfer | lib/emulator.cpp:202-1337 | transfer instructions step pc by their length |
| Properties.PcStepArithmetic | lib/emulator.cpp:202-1337 | arithmetic instructions step pc by their length, except INX SP and DCX SP |
| Properties.PcStepLogical | lib/emulator.cpp:235-507 | rotates, CMA and CMC step pc by their length, except STC |
| Properties.PcStepMachine | lib/emulator.cpp:202-1337 | stack, exchange, I/O, interrupt and no-op instructions step pc by their length, except 0x08, IN and OUT |
| Properties.PcStep | lib/emulator.cpp:202-1337 | every non-branching instruction steps pc by its length, less one for the listed exceptions |
| Properties.FrameTransfer | lib/emulator.cpp:202-1337 | transfer instructions that are not stores leave memory alone, and none touches the interrupt bit |
| Properties.FrameArithmetic | lib/emulator.cpp:202-1337 | the same for arithmetic instructions |
| Properties.FrameLogical | lib/emulator.cpp:235-507 | rotates, CMA, CMC and STC write no memory and keep the interrupt bit |
| Properties.FrameBranch | lib/emulator.cpp:1019-1337 | jumps and returns write no memory, and no branch changes the interrupt bit |
| Properties.FrameMachine | lib/emulator.cpp:202-1337 | only pushes and XTHL write memory; EI sets and DI clears the interrupt bit |
| Properties.Frame | lib/emulator.cpp:202-1337 | only the listed instructions write memory, and only EI/DI change the interrupt bit |
| Properties.StepNotImplemented | lib/emulator.cpp:1331-1335 | `emulateOp` throws exactly for the ten unimplemented opcodes, naming the opcode, and the state is unchanged |
| Properties.StepInterrupts | lib/emulator.cpp:1270-1316 | one step sets the interrupt bit on 0xFB, clears it on 0xF3, and otherwise keeps it |
| Scenarios.Executes | lib/emulator.cpp:202-207 | an implemented opcode at pc runs the instruction it decodes to |
| Scenarios.DoubleAddSum | lib/emulator.cpp:191-199 | DAD leaves the low 16 bits of the sum in HL, C when it overflows, memory unchanged |
| Scenarios.IncrementFlags | lib/emulator.cpp:137-142 | INR sets S, Z and P from the 16-bit sum |
| Scenarios.DecrementFlags | lib/emulator.cpp:144-151 | DCR sets S, Z and P from the 16-bit difference |
| Scenarios.LxiB | test/ops_test.cpp:18-25 | LXI B loads B = 0x22, C = 0x11 and pc = 3 |
| Scenarios.StaxB | test/ops_test.cpp:27-35 | STAX B stores A at 0x0801 |
| Scenarios.InxBWraps | test/ops_test.cpp:37-51 | INX B takes 0xFFFF to 0 |
| Scenarios.InxBCarries | test/ops_test.cpp:37-51 | INX B takes 0x080F to 0x0810 |
| Scenarios.InrBWraps | test/ops_test.cpp:53-71 | INR B takes 0xFF to 0 with Z and P set |
| Scenarios.InrBSigned | test/ops_test.cpp:53-71 | INR B takes 0x82 to 0x83 with S set and P clear |
| Scenarios.DcrBWraps | test/ops_test.cpp:73-91 | DCR B takes 0 to 0xFF with S and P set |
| Scenarios.DcrBOdd | test/ops_test.cpp:73-91 | DCR B takes 0x74 to 0x73 with S, Z and P clear |
| Scenarios.MviB | test/ops_test.cpp:93-99 | MVI B loads 0x10 and pc = 2 |
| Scenarios.RlcCarries | test/ops_test.cpp:101-113 | RLC takes 0x91 to 0x23 with C set |
| Scenarios.RlcClears | test/ops_test.cpp:101-113 | RLC takes 0x60 to 0xC0 with C clear |
| Scenarios.DadB | test/ops_test.cpp:115-133 | DAD B gives HL = 0x8002 with C clear and, as the code does, no memory write |
| Scenarios.LdaxB | test/ops_test.cpp:135-143 | LDAX B loads the byte at 0x0102 |
| Scenarios.DcxB | test/ops_test.cpp:145-152 | DCX B gives BC = 0x0101 and, as the code does, no memory write |
| Scenarios.RrcCarries | test/ops_test.cpp:154-167 | RRC takes 0x01 to 0x80 with C set |
| Scenarios.RrcKeeps | test/ops_test.cpp:154-167 | RRC takes 0x82 to 0x41 with C still clear |
| Scenarios.RalClears | test/ops_test.cpp:169-189 | RAL takes 0x01 to 0x02 with C clear |
| Scenarios.RalCarriesOut | test/ops_test.cpp:169-189 | RAL takes 0x81 to 0x02 with C set |
| Scenarios.RalCarriesIn | test/ops_test.cpp:169-189 | RAL with C set takes 0x81 to 0x03 |
| Scenarios.RarCarriesOut | test/ops_test.cpp:191-212 | RAR takes 0x01 to 0 with C set |
| Scenarios.RarCarriesIn | test/ops_test.cpp:191-212 | RAR with C set takes 0x01 to 0x80 |
| Scenarios.RarClears | test/ops_test.cpp:191-212 | RAR with C set takes 0x10 to 0x88 with C clear |
| Scenarios.Shld | test/ops_test.cpp:214-223 | SHLD 0x2310 stores L at 0x2310 and H at 0x2311 |
| Scenarios.Lhld | test/ops_test.cpp:225-236 | LHLD 0x2310 loads L = 0x12 and H = 0x23 |
| Scenarios.Cma | test/ops_test.cpp:238-243 | CMA takes 0x9A to 0x65 |
| Scenarios.LxiSp | test/ops_test.cpp:245-251 | LXI SP loads 0x0381 |
| Scenarios.InrM | test/ops_test.cpp:253-263 | INR M takes the byte at 0x0403 from 2 to 3 with P set |
| Scenarios.CmcClears | test/ops_test.cpp:265-275 | CMC clears a set carry |
| Scenarios.CmcSets | test/ops_test.cpp:265-275 | CMC sets a clear carry |

## Left out

- `Emulator::emulate` (the run loop) and `Emulator::setMemory` (reading a ROM file) are I/O around the core and are not modelled.
- The `std::cout` trace in `dcr` and the text that `NotImplementedInstruction::what()` returns are output only. The exception is modelled by its opcode.
- The disassembler (lib/disassembler.h) and main.cpp are not part of this model.
- Interrupt delivery, cycle timing, the devices behind `IN`/`OUT`, the auxiliary-carry flag and `DAA` are absent from the source and so from the model. `IN` and `OUT` move only `pc`.
- The order in which `updateControls` visits the `unordered_set` is not modelled. The model updates the affected flags as a set, and `Properties.UpdateFlagsCompose` shows that the order cannot matter.
- Memory indices that the C++ computes as `int` could run past the 65536-byte vector, which is undefined behaviour; the model wraps them modulo 2^16. They are `sp - 1` and `sp - 2` in push, call and PUSH PSW (lib/emulator.cpp:73-78, 89-94, 1280-1288), `sp + 1` in pop, ret, POP PSW and XTHL, `pc + 1` and `pc + 2` for operands, and `offset + 1` in SHLD and LHLD (lib/emulator.cpp:369, 406).
- Scenarios: a test that runs a second instruction after resetting `pc` is stated as a separate lemma from a new machine, not as a continuation of the first run.
- Semantics.ParityOf: P is defined by counting the low 8 bits of the result (`LowBitCount`), not by calling `popcount`. `Auxiliary.LowByteCount` proves the two are equal, and `Emulator.UpdateControls` calls the `Popcount` method.
