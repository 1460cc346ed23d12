# Verified models

Dafny models of the parts of this repository whose correctness is least obvious, with proofs. Each file is
one module, named after what it models. Check the project with `dafny verify dfyconfig.toml`.

Three kinds of member appear. Code that changes state step by step is a method, or a class with methods,
whose contract ties the new state to a function of the old one. What the code promises is then proved
about those functions as lemmas. The specification side is independent of the code wherever there is
something to be independent of: a decoder, a grammar, bit positions, a plain array, one pass over a
stream, the last call that covered an address.

- **Bits** is the arithmetic all of it rests on: words are natural numbers, and shifts and bitwise
  operations are recursive functions with their laws. **Options** is the option type.
- **Int64** is `__udivmoddi4` and its signed wrappers. Every special case and the branch-free
  shift-and-subtract loop give quotient and remainder for all operands with a divisor other than zero.
- **Rv...** is rvmini, which expands RV32I into eight instructions, with byte tables and scratch words
  below the stack pointer. `RvMachine` is the machine, `RvLut` the generator of the tables, `RvMacros` the
  expansions, `RvSpec` the meaning of the instructions after the RISC-V Unprivileged ISA manual, sections 2.4 to
  2.6; shifts are multiplication and division by powers of two there, rounding down. The files in between prove macro by macro what an expansion does; `RvInstr` and `RvBranch` collect
  that by instruction, and `RvDefects` has the four uses of a macro that are not among them; `RvSimulation`
  proves that every run of a program is a run of its expansion, and `RvExample` has a program for it and a
  failing input for each of the four uses.
- **Resampler** is the high-quality sound path: feeding a stream in chunks plays what one pass plays, and what
  a pass plays is pinned down by single samples, whole positions and the way between them.
- **Eeprom** and **EepromTransfer** are the two-wire EEPROMs. The state machine is compared with a
  reading of the bits by position, for all bus traffic, and so is what the port shows; a write and a read
  back is then a theorem about port writes.
- **Flash** is a flash chip behind an unlocking protocol: a grammar of commands, and for every byte its
  history.
- **Barcode** encodes EAN-13 and EAN-8; the specification decodes the bars.
- **Sprites** and **BitReverse** are the sprite line buffer with its tables, and the table of reversed
  bytes.
- **HandlerIndex**, **BankTable**: compressed tables that have to agree with simple ones.
- **Scheduler**: the interrupt handler of a multiprocessor kernel under every interleaving, and its lock.
- **IrqCounters**, **Apu**, **CpuTime**: invariants and conservation laws over every run. **ApuRegisters** says
  what the registers mean: the last byte written decides, over whole runs.
- **Decimal**: printing and reading numbers.

## What does not hold

Where the code does not do what its name or its comments promise, the model keeps the code, and a lemma
says exactly when it works.

- Four macros of rvmini spoil what they still need when they are aimed at certain registers. `seqz` restores
  `s0` after it has loaded its result, so that with `s0` as the target the result is lost, and it moves the
  slot it restores from when the target is `sp` (`RvDefects.SeqzWorksExactlyWhen`, for all targets); `sltz sp`
  and `lb sp` store through the stack pointer that they have just overwritten
  (`RvDefects.SltzToSpWorksExactlyWhen`, `RvDefects.LbToSpWorksExactlyWhen`). `RvExample.SeqzToS0Fails`,
  `SeqzToSpFails`, `SltzToSpFails` and `LbToSpFails` have inputs. All other macros work with `sp` as the target.
- `setprg4r` has no fallback for a chip of 2K: its mask becomes all ones and the page points outside
  the chip (`BankTable.FourOfTwo`, `BankTable.StaysInside`). A bank is therefore not always the two banks of
  half its size (`BankTable.BankIsHalves` for the whole table, `BankTable.AgreeExactlyWhen` for one address).
- `FlushEmulateSound` copies the retained samples without looking whether there are as many. With a short
  first frame it reads before the buffer (`Resampler.CarriesExactlyWhen`, `Resampler.ShortFrame`). A first frame
  of the emulator is never that short (`Resampler.EmulatorCarries`).
- `%d` indexes its digits with negative numbers for the least integer (`Decimal.LeastNumberFails`). A format in
  which the scan, two characters for each `%` and one for any other, ends in a lone `%` is read beyond its end if
  the limit on the output does not stop the scan before (`Decimal.PastEndExactlyWhen`, and `Decimal.OnePercent`
  for `%` itself). `atoi` knows no sign (`Decimal.IntRoundTrip`).
- MIN / -1 gives MIN (`Int64.Divdi3`).
- A processor with a number not below the number of tasks never leaves `on_interrupt`
  (`Scheduler.EndsExactlyWhen`; `Scheduler.SixthIsLost` for the kernel's five tasks). During the search a
  processor's `current` passes over other processors' tasks (`Scheduler.TaskTwiceInSearch`); two processors
  that are not searching have different tasks (`Scheduler.NoTaskTwice`).
- inst-replace.h says (lines 5-7) what a program must not use. `RvSpec.Accepted` and `RvProgram.Fair` add what the
  macros need beyond that: no `s0` and no `sp` as the target of `seqz`, no `sp` as the target of `lb` and `sltz`,
  tables that do not overlap the scratch area, and no reading of a byte below `sp` that an expansion may
  have overwritten. `RvExample.AssumptionsMet` shows for an endless program that all of this can be met.

## Model

| member | source | states |
|---|---|---|
| Int64.Udivmoddi4 | abstract-machine/klib/src/int64.c:413-620 | for every dividend and every divisor but zero, through every special case and the loop: a = q * b + r and r < b |
| Int64.DivideByHighWord | abstract-machine/klib/src/int64.c:446-507 | divisor with an empty low half: multiple of 2^32, power of two, quotient zero and the general case all give quotient and remainder |
| Int64.DivideByHighPower | abstract-machine/klib/src/int64.c:477-486 | the mask and the shift by ctz give remainder and quotient when the divisor is a power of two times 2^32 |
| Int64.DivideByWord | abstract-machine/klib/src/int64.c:510-558 | divisor of one word: power of two, one, and the three ways to align the registers |
| Int64.DivideByPair | abstract-machine/klib/src/int64.c:559-589 | divisor of two words: quotient zero exactly when the shift count is large, otherwise the aligned loop |
| Int64.AlignShort | abstract-machine/klib/src/int64.c:502-506 | the registers hold the dividend shifted, split at `sr`, for a shift of less than a word |
| Int64.AlignLong | abstract-machine/klib/src/int64.c:552-556 | the same for a shift of more than a word |
| Int64.SmallerByClz | abstract-machine/klib/src/int64.c:491-498 | when the difference of the clz counts is negative as a number the quotient is zero |
| Int64.AlignedByClz | abstract-machine/klib/src/int64.c:491-506 | after alignment by the clz difference the running remainder is smaller than the divisor |
| Int64.PowerOfTwoTest | abstract-machine/klib/src/int64.c:477 | x & (x - 1) is zero exactly for powers of two |
| Int64.ShiftSubtract | abstract-machine/klib/src/int64.c:591-619 | from aligned registers the loop ends with quotient and remainder |
| Int64.LoopBody | abstract-machine/klib/src/int64.c:598-615 | one turn keeps the division invariant: the remainder stays below the divisor and fits 64 bits before and after the subtraction |
| Int64.ShiftRegisters | abstract-machine/klib/src/int64.c:600-604 | the four half-word shifts are one shift of the double register with the carry shifted in |
| Int64.Subtract | abstract-machine/klib/src/int64.c:605-614 | the branch-free compare and subtract: carry is 1 exactly when r >= d, for all divisors, also above 2^63 |
| Int64.SignTest | abstract-machine/klib/src/int64.c:612-613 | the sign of d - r - 1 in 64 bits decides r >= d as long as r < 2 * d and the doubled remainder fits |
| Int64.DivStep | abstract-machine/klib/src/int64.c:598-615 | the invariant of the shift-and-subtract loop is kept by one more bit of the dividend |
| Int64.Clzsi2 | abstract-machine/klib/src/int64.c:626-655 | the branch-free count is the number of leading zero bits |
| Int64.Ctzsi2 | abstract-machine/klib/src/int64.c:661-695 | the branch-free count is the number of trailing zero bits |
| Int64.Clzdi2 | abstract-machine/klib/src/int64.c:711-717 | leading zeros of a 64-bit word by selecting a half |
| Int64.Ctzdi2 | abstract-machine/klib/src/int64.c:703-709 | trailing zeros of a 64-bit word by selecting a half |
| Int64.Divdi3 | abstract-machine/klib/src/int64.c:355-365 | the quotient truncates toward zero for all b != 0; MIN / -1 gives MIN back |
| Int64.Moddi3 | abstract-machine/klib/src/int64.c:379-390 | the remainder is the one of truncating division, with the dividend's sign, for all b != 0 |
| Int64.Divmoddi4 | abstract-machine/klib/src/int64.c:369-375 | quotient and remainder agree with `__divdi3` and `__moddi3` |
| Int64.TruncatedUnique | abstract-machine/klib/src/int64.c:353-390 | C11 section 6.5.5: dividend = q * b + r with r smaller than b in magnitude and not against the dividend's sign has exactly one solution, truncating division |
| RvLut.GenTable | abstract-machine/tools/rvmini/gen-lut.c:10-17 | one table is written row by row, every entry at its place |
| RvLut.GenLut | abstract-machine/tools/rvmini/gen-lut.c:19-24 | the file holds the six tables at the offsets that the macros use |
| RvLut.IncludedTables | abstract-machine/tools/rvmini/inst-replace.h:70-81 | including the file at `lut` puts every table entry where the macros look |
| Bits.BitwiseMeaning | abstract-machine/tools/rvmini/gen-lut.c:19-21 | each bit of and, or and exclusive or is that operation on the bits of the operands |
| RvRefine.ExecRefines | abstract-machine/tools/rvmini/inst-replace.h:30-40 | execution with the scratch words below `sp` kept apart agrees with execution on the machine, while `sp` stays and other accesses miss the area |
| RvBasicMacros.LaRuns | abstract-machine/tools/rvmini/inst-replace.h:603-606 | `lui` and `addi` with %hi and %lo load any address |
| RvBasicMacros.GetByteRuns | abstract-machine/tools/rvmini/inst-replace.h:115-118 | `getbyte` gets byte `k` of a register through a scratch slot |
| RvBasicMacros.MsbRuns | abstract-machine/tools/rvmini/inst-replace.h:120-124 | `msb` is the sign bit, and touches nothing but its target and one slot |
| RvBasicMacros.NotRuns | abstract-machine/tools/rvmini/inst-replace.h:626-654 | `not` is the bitwise complement, through the xor table, and gives `gp` back |
| RvBasicMacros.SlliShortRuns | abstract-machine/tools/rvmini/inst-replace.h:524-550 | shifts by less than 16 by doubling |
| RvCompare.SubRuns | abstract-machine/tools/rvmini/inst-replace.h:108-113 | `sub` by complement and two additions is subtraction modulo 2^32 |
| RvCompare.SignTables | abstract-machine/tools/rvmini/inst-replace.h:51-65 | the two tables of eight signs are signed and unsigned less-than, for all operands |
| RvCompare.SltTemplateRuns | abstract-machine/tools/rvmini/inst-replace.h:126-151 | the comparison looks up the three signs, gives `s0` and `s1` back, also when one of them is an operand or the target |
| RvLogic.TableWordMeaning | abstract-machine/tools/rvmini/inst-replace.h:163-198 | the byte-wise table operations are the 32-bit `and`, `or` and `xor` |
| RvLogic.LogicRuns | abstract-machine/tools/rvmini/inst-replace.h:174-198 | the macro `logic` computes the table's operation on whole words |
| RvEqual.Check8SameRuns | abstract-machine/tools/rvmini/inst-replace.h:211-222 | marking two entries of an array tells whether two bytes are equal, whatever the array held before |
| RvEqual.SeqRuns | abstract-machine/tools/rvmini/inst-replace.h:224-245 | `seq tp` is 1 exactly for equal operands, gives `s0` and `s1` back and changes no memory but the slots and the marks |
| RvEqual.SeqzRuns | abstract-machine/tools/rvmini/inst-replace.h:253-271 | `seqz` gives the truth value for every target but `s0`, which always keeps its old value; the slots and the marks are all it changes in memory |
| RvShiftValues.SllByTable | abstract-machine/tools/rvmini/inst-replace.h:397-428 | the sum of four table words is the word shifted left, for every shift amount |
| RvShiftValues.NoCarry | abstract-machine/tools/rvmini/inst-replace.h:430-511 | the byte sums of the right shift produce no carry |
| RvShiftValues.ShiftRightByTable | abstract-machine/tools/rvmini/inst-replace.h:430-511 | the bytes put together are the word shifted right, logically or arithmetically, for every shift amount |
| RvShiftValues.SraIsFloor | abstract-machine/tools/rvmini/gen-lut.c:24 | the arithmetic shift by k of a signed number is the largest number that is not above it when multiplied by 2^k again |
| RvInstr.ShiftValue | abstract-machine/tools/rvmini/inst-replace.h:397-521 | the shifts that the tables hold are those of the manual: multiplication and division by 2 to the low five bits, rounding down, modulo 2^32 |
| RvShift.GetShamtRuns | abstract-machine/tools/rvmini/inst-replace.h:382-388 | the shift amount is the low five bits, through the and table |
| RvShift.ShiftRowRuns | abstract-machine/tools/rvmini/inst-replace.h:397-405 | the base register points to the row of the table that the shift amount selects |
| RvShift.ShiftByteRuns | abstract-machine/tools/rvmini/inst-replace.h:390-395 | one byte is looked up in the selected row |
| RvShiftRuns.SllRuns | abstract-machine/tools/rvmini/inst-replace.h:397-428 | `sll` shifts by the low five bits of the second register and gives `s0` back |
| RvShiftRuns.ShiftRightRuns | abstract-machine/tools/rvmini/inst-replace.h:430-521 | `srl` and `sra` shift by the low five bits of the second register; with `RvShiftValues.SraIsFloor`, `sra` divides a signed number and rounds down |
| RvShiftRuns.ShiftRightImmRuns | abstract-machine/tools/rvmini/inst-replace.h:430-511 | `srli` and `srai` do by a constant, with the short way for 24 |
| RvShiftRuns.SlliRuns | abstract-machine/tools/rvmini/inst-replace.h:524-550 | `slli` through byte and half-word stores and doubling, for every amount below 32 |
| RvMemory.LbRuns | abstract-machine/tools/rvmini/inst-replace.h:568-574 | `lb` loads a byte with its sign |
| RvMemory.LhuRuns | abstract-machine/tools/rvmini/inst-replace.h:576-583 | `lhu` loads two bytes, also at odd addresses |
| RvMemory.LhRuns | abstract-machine/tools/rvmini/inst-replace.h:585-593 | `lh` loads two bytes with their sign |
| RvMemory.ShRuns | abstract-machine/tools/rvmini/inst-replace.h:595-599 | `sh` stores two bytes and nothing else outside the scratch slots |
| RvMemory.NotPositiveRuns | abstract-machine/tools/rvmini/inst-replace.h:327-374 | the test of `blt zero` and `bge zero` is 1 exactly for numbers that are not positive |
| RvInstr.OpRuns | abstract-machine/tools/rvmini/inst-replace.h:108-198 | every register-register macro computes its operation, shifts as multiplication and division, for every target, `sp` included, inside the frame of `rd`, `tp`, `gp` and the slots |
| RvLift.LateRefines | abstract-machine/tools/rvmini/inst-replace.h:108-198 | a macro that writes its target only when it needs no slot any more does on the machine what it does on the split view, also when the target is `sp` |
| RvInstr.TopByteToSpCorrect | abstract-machine/tools/rvmini/inst-replace.h:430-442 | the short way of `srai` for 24 works with `sp` as its target |
| RvInstr.InstrCorrect | abstract-machine/tools/rvmini/inst-replace.h:84-725 | every accepted instruction that is not a control transfer does what the RISC-V manual says, `sp` as a target included, up to `tp`, `gp`, the area below the old `sp` and the marking array |
| RvDefects.SeqzWorksExactlyWhen | abstract-machine/tools/rvmini/inst-replace.h:253-271 | `seqz` works for every target but `s0` and `sp`; for `s0` if and only if it held the result already; for `sp` if and only if the word at the moved slot is what `s0` held |
| RvDefects.SltzToSpWorksExactlyWhen | abstract-machine/tools/rvmini/inst-replace.h:120-124 | `sltz sp` works if and only if the word it stores through the overwritten `sp`, twice the top byte, lands where nobody reads or where it changes nothing |
| RvDefects.LbToSpWorksExactlyWhen | abstract-machine/tools/rvmini/inst-replace.h:568-574 | `lb sp` works if and only if the sign extension, which stores through the loaded byte as `sp`, reads the byte back and lands where it changes nothing |
| RvExample.SeqzToS0Fails | abstract-machine/tools/rvmini/inst-replace.h:253-271 | `seqz s0, a0` with a0 = 0 leaves the 5 that was in `s0` |
| RvExample.SeqzToSpFails | abstract-machine/tools/rvmini/inst-replace.h:253-271 | `seqz sp, a0` with a0 = 0 loses `s0` |
| RvExample.SltzToSpFails | abstract-machine/tools/rvmini/inst-replace.h:120-124 | `sltz sp, a1` with a1 = 0x12000000 overwrites a byte of the program at 12 |
| RvExample.LbToSpFails | abstract-machine/tools/rvmini/inst-replace.h:568-574 | `lb sp` of a byte 1 writes to 0xFFFFFFF4 |
| RvBranch.TestRuns | abstract-machine/tools/rvmini/inst-replace.h:297-380 | after the test of each of the six branches `tp` says whether the first alternative holds, zero operands included |
| RvBranch.BranchSelectRuns | abstract-machine/tools/rvmini/inst-replace.h:275-294 | both addresses lie in their slots and `tp` is left pointing at the chosen one |
| RvBranch.BranchCorrect | abstract-machine/tools/rvmini/inst-replace.h:275-380 | after the straight part of a branch `tp` holds the target exactly when the branch is taken, and the next address otherwise |
| RvProgram.RunStraight | abstract-machine/tools/rvmini/inst-replace.h:1-24 | the machine runs straight code from end to end |
| RvProgram.SameEffect | abstract-machine/tools/rvmini/inst-replace.h:5-7 | states that agree outside the junk have agreeing effects, if the instruction reads no junk |
| RvSimulation.CallRuns | abstract-machine/tools/rvmini/inst-replace.h:90-106 | `jal` loads the address and links with the address behind it |
| RvSimulation.InstructionSimulated | abstract-machine/tools/rvmini/inst-replace.h:1-24 | from agreeing states, one instruction of the program and its expansion lead to the same next instruction and to agreeing states, jumps, branches and new values of `sp` included |
| RvSimulation.ProgramSimulated | abstract-machine/tools/rvmini/inst-replace.h:1-24 | every run of a program is a run of its expansion: the same instruction boundaries in the same order, with the same registers but `tp` and `gp` and the same memory but the junk |
| RvExample.ProgramHasImage | abstract-machine/tools/rvmini/inst-replace.h:1-24 | every program that fits in memory has an image with all its expansions behind one another |
| RvExample.AssumptionsMet | abstract-machine/tools/rvmini/inst-replace.h:5-7 | the assumptions of the simulation hold in runs of every length of an endless program with stores, narrow loads, shifts, comparisons, logic, a branch and a jump, at concrete addresses and for every file with the generated tables |
| Resampler.RatioRange | fceux-am/src/filter.cpp:181-182 | the step for each region and output rate lies between 17 and 41 in 16.16 |
| Resampler.OutputAtSample | fceux-am/src/filter.cpp:128-138 | at a whole position the output is the filter sum that ends at that sample, over 2048 |
| Resampler.OutputMoves | fceux-am/src/filter.cpp:137 | between two samples the output moves from the sum of the first to that of the second without going back |
| Resampler.UnitSample | fceux-am/src/filter.cpp:131-135 | a single sample meets the coefficient whose number is its distance from the end of the window, and no other |
| Resampler.OutputsAt | fceux-am/src/filter.cpp:104-141 | the positions played are every `mrratio` from the index on, exactly as long as there are samples |
| Resampler.FirstOutput | fceux-am/src/filter.cpp:165-182 | the first output of a pass is the filter sum that ends one sample behind the first full window |
| Resampler.StagesAtRest | fceux-am/src/filter.cpp:19-79 | of a constant level the equalizer at rest lets nothing through and the low-pass filter everything |
| Resampler.StagesMove | fceux-am/src/filter.cpp:37-75 | how far the accumulators of both filters go towards a new level, and the clamp to 16 bits |
| Resampler.OutputsShift | fceux-am/src/filter.cpp:104-141 | outputs depend on the samples and not on where in the buffer they are |
| Resampler.OutputsSplit | fceux-am/src/filter.cpp:104-154 | a pass can be stopped where the samples end and resumed when more have come |
| Resampler.FilteredSplit | fceux-am/src/filter.cpp:19-79 | both recursive filters carry their accumulators across a cut |
| Resampler.FeedTracks | fceux-am/src/filter.cpp:143-163 | index and retained samples are what one pass would have at that point, and the output is the next part of one pass |
| Resampler.ChunksDoNotShow | fceux-am/src/sound.cpp:1033-1052 | any division of a stream into chunks plays exactly what one pass over the stream plays |
| Resampler.CarriesExactlyWhen | fceux-am/src/sound.cpp:1047 | the copy of retained samples stays inside the buffer in the whole run if and only if the first frame with samples has more than the filter has taps |
| Resampler.ShortFrame | fceux-am/src/sound.cpp:1047 | a first frame of 99 samples makes the copy start before the buffer; the same frame behind a full one does not |
| Resampler.EmulatorCarries | fceux-am/src/sound.cpp:1013-1052 | the first frame after power-on is long enough, however the runs that make it up go, and so the copy stays inside in the whole run |
| Resampler.OutputsFit | fceux-am/src/sound.cpp:56-58 | the outputs of a full input buffer fit the output buffer |
| Resampler.Player.FilterAt | fceux-am/src/filter.cpp:128-138 | the inner loop is the interpolated filter output of `OutputAtSample`, `OutputMoves` and `UnitSample`, with every access in bounds |
| Resampler.Player.SexyFilter | fceux-am/src/filter.cpp:48-79 | the first recursive filter, in place |
| Resampler.Player.SexyFilter2 | fceux-am/src/filter.cpp:19-46 | the second recursive filter, in place |
| Resampler.Player.Resample | fceux-am/src/filter.cpp:104-154 | for every buffer that is not empty, also one shorter than the filter, the 32-bit index does not wrap, and the loop writes all outputs and leaves the index for the next chunk |
| Resampler.Player.NeoFilterSound | fceux-am/src/filter.cpp:93-163 | resampling and both filters on one buffer |
| Resampler.Player.ShiftDown | fceux-am/src/sound.cpp:1047-1048 | the last samples are moved to the front and the rest is cleared |
| Resampler.Player.FlushEmulateSound | fceux-am/src/sound.cpp:1013-1086 | one frame at high quality is one step of the chunked pass if and only if there are more samples than the filter has taps, or none |
| Eeprom.AllTraffic | fceux-am/src/boards/bandai.cpp:74-157 | for every trace of port writes the chip holds what the protocol, read off bit positions, says: memory, word address and phase |
| Eeprom.EventMatches | fceux-am/src/boards/bandai.cpp:79-153 | START, STOP and clock mean to the state machine what they mean to the protocol |
| Eeprom.ClockCommand | fceux-am/src/boards/bandai.cpp:89-106 | the eighth bit decides between reading and writing and sets an X24C01's word address |
| Eeprom.ClockWord | fceux-am/src/boards/bandai.cpp:107-120 | an X24C02 takes its word address from the second byte |
| Eeprom.ClockRead | fceux-am/src/boards/bandai.cpp:121-135 | reading sends the cells in order, highest bit first |
| Eeprom.ClockWrite | fceux-am/src/boards/bandai.cpp:136-151 | writing takes eight bits and an acknowledge, with the line low, for each byte |
| Eeprom.OnlyCompleteBytes | fceux-am/src/boards/bandai.cpp:136-149 | a port write changes the memory if and only if it completes a data byte of a write, and then the cell at the word address only |
| Eeprom.PortShows | fceux-am/src/boards/bandai.cpp:107-161 | after any traffic, from the first acknowledge of a transaction on: the port shows the acknowledge after every ninth clock and all through a write, and while a cell is read the bit clocked out last, highest first |
| Eeprom.PortKept | fceux-am/src/boards/bandai.cpp:74-161 | before the first acknowledge, and when the chip is not listening, no port write changes what the port shows |
| Eeprom.InitMatches | fceux-am/src/boards/bandai.cpp:69-72 | after initialisation the bus is idle and the memory is kept |
| Eeprom.Device.Reset | fceux-am/src/boards/bandai.cpp:69-72 | initialisation keeps memory and output level |
| Eeprom.Device.RisingEdge | fceux-am/src/boards/bandai.cpp:87-153 | the switch over the states is the transition function |
| Eeprom.Device.Write | fceux-am/src/boards/bandai.cpp:74-157 | one port write is one step of the chip |
| EepromTransfer.PokeCells | fceux-am/src/boards/bandai.cpp:145-149 | up to 256 bytes from any address on land in different cells and leave the others |
| EepromTransfer.SignalsMatch | fceux-am/src/boards/bandai.cpp:74-157 | any sequence of START, STOP and bits on the wires |
| EepromTransfer.WriteStores | fceux-am/src/boards/bandai.cpp:88-151 | a write transaction of any length leaves the bytes from the word address on, around the end |
| EepromTransfer.ReadPrepares | fceux-am/src/boards/bandai.cpp:88-106 | the broken-off write and the repeated START set the word address |
| EepromTransfer.TakeBytesMatch | fceux-am/src/boards/bandai.cpp:121-135 | reading gives the cells from the word address on |
| EepromTransfer.WriteThenRead | fceux-am/src/boards/bandai.cpp:69-161 | a write of up to 256 bytes followed by a random read gives the bytes back in order, and no other cell changes, for both chips |
| Flash.FollowsCommands | fceux-am/src/boards/cheapocabra.cpp:116-208 | for every list of writes the state machine does exactly the commands that a grammar finds in the list, and its registers say how far the last one has got |
| Flash.StepFollows | fceux-am/src/boards/cheapocabra.cpp:130-207 | one write moves along an incomplete command, breaks it off, or completes it |
| Flash.ParseNext | fceux-am/src/boards/cheapocabra.cpp:130-207 | the grammar can be extended by one write at the end |
| Flash.ByteMeaning | fceux-am/src/boards/cheapocabra.cpp:172-202 | each byte is what it was at the last erase that covered it, or at the beginning, and-ed with everything programmed there since |
| Flash.ByteHistory | fceux-am/src/boards/cheapocabra.cpp:116-208 | the same for any list of writes to the chip |
| Flash.OnlyUnlocked | fceux-am/src/boards/cheapocabra.cpp:130-207 | memory changes only right after a complete unlocking sequence, by one byte or by an erase |
| Flash.SeenByte | fceux-am/src/boards/cheapocabra.cpp:79-121 | after any writes of the processor, a read gives the identification exactly if the last command about it says so, and otherwise, in the bank selected last, the byte as of its last erase and-ed with everything programmed since |
| Flash.BanksApart | fceux-am/src/boards/cheapocabra.cpp:119 | the sixteen banks are sixteen separate parts that make up the whole flash, each in order |
| Flash.ApplyAt | fceux-am/src/boards/cheapocabra.cpp:173-200 | a sector erase touches exactly its 4K, programming exactly one byte |
| Flash.SequenceInRange | fceux-am/src/boards/cheapocabra.cpp:169-205 | the branches marked as unreachable are |
| Flash.Board.constructor | fceux-am/src/boards/cheapocabra.cpp:210-267 | the flash is filled with copies of the ROM, and the chip starts ready |
| Flash.Board.WriteFlash | fceux-am/src/boards/cheapocabra.cpp:116-208 | one write is one step of the chip at the address in the selected bank |
| Flash.Board.Poke | fceux-am/src/boards/cheapocabra.cpp:79-121 | a write of the processor sets the bank register, reaches the chip in the selected bank, or does nothing |
| Barcode.PatternsDiffer | fceux-am/src/boards/bandai.cpp:316-330 | no two of the thirty symbols look alike |
| Barcode.SetsRelated | fceux-am/src/boards/bandai.cpp:316-330 | right patterns are the complement of left odd ones, left even patterns are right ones backwards (GS1 General Specifications, section 5.2) |
| Barcode.ElementWidths | fceux-am/src/boards/bandai.cpp:316-320 | the widths of spaces and bars of each digit (GS1 General Specifications, section 5.2) |
| Barcode.ParityPlaces | fceux-am/src/boards/bandai.cpp:311-315 | the places of the even symbols for each first digit |
| Barcode.ParitiesDiffer | fceux-am/src/boards/bandai.cpp:311-315 | the parity pattern determines the first digit |
| Barcode.CheckDigitCompletes | fceux-am/src/boards/bandai.cpp:374-384 | the check digit makes the weighted sum a multiple of ten |
| Barcode.Decode13Encoded | fceux-am/src/boards/bandai.cpp:353-378 | a decoder recovers all twelve digits and the check digit from the bars of an EAN-13 |
| Barcode.Decode8Encoded | fceux-am/src/boards/bandai.cpp:379-403 | a decoder recovers all seven digits and the check digit from the bars of an EAN-8 |
| Barcode.CheckDigits | fceux-am/src/boards/bandai.cpp:374-384 | with the digits at every other place taken three times, from the second of thirteen and from the first of eight on, the decoded digits add up to a multiple of ten |
| Barcode.DecodeEncoded | fceux-am/src/boards/bandai.cpp:342-412 | for every accepted text, whatever follows the end mark, the digits can be read back, and the bars take at most 160 entries |
| Barcode.Reader.constructor | fceux-am/src/boards/bandai.cpp:442-447 | after power-on the end mark is at the start |
| Barcode.Reader.Enter | fceux-am/src/boards/bandai.cpp:336-341 | the text is read up to its end or 13 characters, and every character must be a digit |
| Barcode.Reader.PutSymbols | fceux-am/src/boards/bandai.cpp:356-364 | the loops over digits write the symbols one after the other |
| Barcode.Reader.Body13 | fceux-am/src/boards/bandai.cpp:353-378 | the inner part of an EAN-13 with its check digit |
| Barcode.Reader.Body8 | fceux-am/src/boards/bandai.cpp:379-403 | the inner part of an EAN-8 with its check digit |
| Barcode.Reader.Swipe | fceux-am/src/boards/bandai.cpp:310-420 | accepts exactly 7, 8, 12 or 13 digits; then the data decode to the digits with the right check digit, otherwise nothing changes |
| Barcode.Reader.Tick | fceux-am/src/boards/bandai.cpp:425-435 | reading sends one bar each thousand cycles and stays inside the data |
| Sprites.Tables.Spread | fceux-am/src/ppu.cpp:297-302 | the bits of a byte are spread over the nibbles of a word, leftmost lowest |
| Sprites.Tables.SpreadAttribute | fceux-am/src/ppu.cpp:304-314 | the palette bits for eight pixels at a fine scroll offset |
| Sprites.Tables.constructor | fceux-am/src/ppu.cpp:291-316 | the three tables hold the spread words |
| Sprites.PixelData | fceux-am/src/ppu.cpp:1476 | or-ing both tables gives the two-bit values of all columns |
| Sprites.PixelStep | fceux-am/src/ppu.cpp:1498-1565 | masking and shifting yields the value of one column after the other |
| Sprites.Opaque | fceux-am/src/ppu.cpp:1477 | a bit of `J` is set exactly where the column is not transparent |
| Sprites.PaintedIsTop | fceux-am/src/ppu.cpp:1464-1568 | painting from the last to the first leaves at each place the sprite of the lowest index that is not transparent there |
| Sprites.PixelShown | fceux-am/src/ppu.cpp:1457-1589 | after copying, a pixel shows the top sprite unless that is behind a background pixel that is not transparent |
| Sprites.ColorOfEntry | fceux-am/src/ppu.cpp:1495-1566 | the colour of a pixel depends on the entry of its own palette and value among the sixteen for sprites, and on no other |
| Sprites.PixelColour | fceux-am/src/ppu.cpp:463-472 | from palette writes to the picture: where a sprite is shown, the pixel has the value last written at 0x3F10 plus four times its palette plus its value, or in greyscale two bits of it |
| Sprites.PaletteAlways | fceux-am/src/ppu.cpp:463-472 | from power-on, after any writes, an entry of the palette is the lower six bits of what was last written to it or its mirrors, which is what the painting relies on |
| Sprites.PaletteMemory.Write | fceux-am/src/ppu.cpp:463-472 | a write to the palette goes to one entry, to the side table, or to the eight entries of the backdrop |
| Sprites.HitDataMeaning | fceux-am/src/ppu.cpp:1481-1493 | the mask for the hit test has a bit exactly where the first sprite is not transparent, mirrored if the sprite is |
| Sprites.LineBuffer.PaintSprite | fceux-am/src/ppu.cpp:1495-1566 | one sprite painted over the line, in all four ways of flipping and priority |
| Sprites.LineBuffer.RefreshSprites | fceux-am/src/ppu.cpp:1457-1571 | the line is the painting of all sprites on a transparent line, and the hit data belong to the first sprite |
| Sprites.LineBuffer.CopySprites | fceux-am/src/ppu.cpp:1573-1589 | each pixel is taken or left by its priority and the background's mark |
| BitReverse.ReversedBit | fceux-am/src/ppu.cpp:73-92 | bit k of the reversed byte is bit 7 - k of the byte |
| BitReverse.Extend | fceux-am/src/ppu.cpp:86-91 | one round of doubling: the upper half is the lower half plus a constant |
| BitReverse.Build | fceux-am/src/ppu.cpp:73-92 | building the table by doubling gives the reversed bytes |
| HandlerIndex.IndexedIsPlain | fceux-am/src/fceu.cpp:158-273 | from a filled table any registrations succeed if and only if there are at most so many different handlers in all, and then every lookup is that of a plain array of 64K handlers |
| HandlerIndex.LookAfterSet | fceux-am/src/fceu.cpp:225-239 | one registration changes the lookups of its range only |
| HandlerIndex.PlainIsLast | fceux-am/src/fceu.cpp:225-239 | the handler of an address is that of the last registration whose range, both ends included, covers it |
| HandlerIndex.FirstFill | fceux-am/src/fceu.cpp:566-567 | the first full-range registration makes every address ready |
| HandlerIndex.HandlerTable.Add | fceux-am/src/fceu.cpp:159-177 | a handler is found or appended; the table stays a prefix without repetitions and nulls behind |
| HandlerIndex.HandlerTable.GetIdx | fceux-am/src/fceu.cpp:179-189 | the index from a byte or half a byte |
| HandlerIndex.HandlerTable.SetIdx | fceux-am/src/fceu.cpp:191-204 | setting one index changes no other one, in both forms |
| HandlerIndex.HandlerTable.Get | fceux-am/src/fceu.cpp:207-213 | the lookup |
| HandlerIndex.HandlerTable.Set | fceux-am/src/fceu.cpp:225-239 | registration over a range, with the fallback for a null handler, and the failed assertion when the table is full |
| BankTable.TableIsLastCall | fceux-am/src/cart.cpp:64-78 | after any calls a read goes to the chip and offset of the last call that covered the address, the bank number taken modulo the chip's size, if and only if that call alone shows the right byte there; calls before it do not matter |
| BankTable.BankShows | fceux-am/src/cart.cpp:138-200 | one call changes no page it does not cover, and shows the right byte at an address if and only if the chip is absent, is served, or the address is in the exception of `FourOfTwo` |
| BankTable.WholeBank | fceux-am/src/cart.cpp:138-175 | a bank that the chip holds whole: mask and shift |
| BankTable.SmallPages | fceux-am/src/cart.cpp:160-199 | a bank larger than the chip: the 2K pages repeat the chip |
| BankTable.SourceInside | fceux-am/src/cart.cpp:121-136 | every place a read can come from is inside its chip |
| BankTable.BankIsHalves | fceux-am/src/cart.cpp:138-200 | the table after a mapping of 32K, 16K, 8K or 4K reads as the table after the two mappings of half the size at every address, if and only if the chip has 4K or more, is absent, or the bank has 16K or more |
| BankTable.AgreeExactlyWhen | fceux-am/src/cart.cpp:138-200 | at one address, the two tables agree if and only if the call and its half both show the right byte |
| BankTable.FourOfTwo | fceux-am/src/cart.cpp:147-150 | 4K of a chip of 2K: right if and only if the number is a multiple of 2^20 and the address in the lower half, otherwise outside the chip |
| BankTable.StaysInside | fceux-am/src/cart.cpp:131-200 | the pointers stay inside their chips if and only if the call is served or its chip absent |
| BankTable.Cart.constructor | fceux-am/src/cart.cpp:80-94 | every page starts out on the zero area |
| BankTable.Cart.SetPagePtr | fceux-am/src/cart.cpp:64-78 | the loop over pages sets pointer and write mark, or clears both |
| BankTable.Cart.SetPrg | fceux-am/src/cart.cpp:138-200 | the bank calls for every chip and number; the table stays inside its chips if and only if the call is served or its chip absent |
| BankTable.Cart.Read | fceux-am/src/cart.cpp:131-136 | a read through the table, or the last value on the bus |
| BankTable.Cart.Write | fceux-am/src/cart.cpp:125-129 | a write changes one byte of a RAM chip, and never a ROM chip |
| Scheduler.NoTaskTwice | am-kernels/kernels/thread-os/thread-os.c:45-53 | in every interleaving, when a task is current on two processors one of them is searching |
| Scheduler.TaskTwiceInSearch | am-kernels/kernels/thread-os/thread-os.c:45-53 | a run with two processors in which a searching one has arrived at what the other one runs |
| Scheduler.OnlyOwnerSaves | am-kernels/kernels/thread-os/thread-os.c:48 | a saved context is written only by the processor (index mod n), when it is interrupted in that task |
| Scheduler.ThreadKept | am-kernels/kernels/thread-os/thread-os.c:45-53 | no step of any processor loses or changes where a thread is, but an interrupt in its own task |
| Scheduler.ResumesWhereInterrupted | am-kernels/kernels/thread-os/thread-os.c:45-53 | from the start, in every interleaving, a processor in a task was given the context with which that task was last interrupted, or its first one |
| Scheduler.HandlerAdvances | am-kernels/kernels/thread-os/thread-os.c:45-53 | each step of a processor with a task brings it one step nearer to the end of the handler, at most 4 N + 4 steps away, and which task it will resume is fixed from the start, whatever the others do |
| Scheduler.EndsExactlyWhen | am-kernels/kernels/thread-os/thread-os.c:49-51 | a processor in the handler is in a task again after finitely many of its own steps, in every interleaving, if and only if its number is below the number of tasks |
| Scheduler.Leaves | am-kernels/kernels/thread-os/thread-os.c:45-53 | a processor with any task at all leaves the handler after a number of its own steps known from the start, in the one it was to find |
| Scheduler.NeverLeaves | am-kernels/kernels/thread-os/thread-os.c:49-51 | a processor without a task never leaves the handler, in any interleaving |
| Scheduler.SixthIsLost | am-kernels/kernels/thread-os/thread-os.c:34-53 | five tasks on six processors: the sixth one never returns from its first interrupt |
| Scheduler.NextIsNth | am-kernels/kernels/thread-os/thread-os.c:49-51 | the next task is n places on, or the processor's first |
| Scheduler.RoundRobin | am-kernels/kernels/thread-os/thread-os.c:49-51 | from any of its tasks a processor reaches every other one in a bounded number of switches |
| Scheduler.MutualExclusion | am-kernels/kernels/thread-os/thread-os.c:22-24 | in every interleaving at most one thread is between `lock` and `unlock` |
| Scheduler.LockIsFree | am-kernels/kernels/thread-os/thread-os.c:23 | a thread that tries gets in if and only if nobody is inside |
| Scheduler.Kernel.constructor | am-kernels/kernels/thread-os/thread-os.c:60-68 | the ring and the fresh contexts |
| Scheduler.Kernel.OnInterrupt | am-kernels/kernels/thread-os/thread-os.c:45-53 | saves the interrupted task's context, moves to the next own task and returns its context |
| Scheduler.Kernel.Search | am-kernels/kernels/thread-os/thread-os.c:49-51 | the loop ends at the next own task |
| IrqCounters.UpIsModulo | fceux-am/src/boards/90.cpp:329-367 | counting up, prescaler and counter are one number modulo 2048 or 65536, and the interrupt is raised exactly when it wraps |
| IrqCounters.DownIsModulo | fceux-am/src/boards/90.cpp:329-367 | counting down, the same from the other end |
| IrqCounters.OffStandsStill | fceux-am/src/boards/90.cpp:349-367 | in the other modes nothing moves |
| IrqCounters.CyclesAdd | fceux-am/src/boards/90.cpp:369-373 | cycles can be delivered in any portions |
| IrqCounters.LinesAreClocks | fceux-am/src/boards/90.cpp:375-379 | n scan lines are 8 n clocks |
| IrqCounters.Board90.Ccl | fceux-am/src/boards/90.cpp:329-347 | one step of the counter |
| IrqCounters.Board90.ClockCounter | fceux-am/src/boards/90.cpp:349-367 | one clock of the prescaler |
| IrqCounters.Board90.CpuWrap | fceux-am/src/boards/90.cpp:369-373 | the loop over cycles |
| IrqCounters.Board90.SlWrap | fceux-am/src/boards/90.cpp:375-379 | the loop of eight |
| IrqCounters.DrainIsDivision | fceux-am/src/boards/252.cpp:90-98 | the loop takes out whole lines of 341 and leaves the remainder |
| IrqCounters.CyclesAreLines | fceux-am/src/boards/252.cpp:89-99 | 341 processor cycles are three scan lines, with nothing left over |
| IrqCounters.LineCyclesAdd | fceux-am/src/boards/252.cpp:86-101 | cycles can be delivered in any portions, from any state with a clock below 341 |
| IrqCounters.LinesPeriod | fceux-am/src/boards/252.cpp:93-97 | with count and latch below 256, interrupts come after 256 - count lines and then every 256 - latch lines |
| IrqCounters.Board252.M252Irq | fceux-am/src/boards/252.cpp:86-101 | the hook |
| Apu.ReachableInRange | fceux-am/src/sound.cpp:182-455 | after power-on and any register writes, frame steps, hooks, mixing and soft resets: frequencies, envelopes, lengths, the delta level and the noise register are in range, and both sums of the mixer are inside their tables |
| Apu.LargestSum | fceux-am/src/sound.cpp:832 | the bound 202 is reached by a run from power-on |
| Apu.NoiseReversible | fceux-am/src/sound.cpp:864-865 | the noise register never becomes zero, and no two states lead to the same one, in both modes |
| Apu.EnvelopeFalls | fceux-am/src/sound.cpp:434-454 | over any number of clocks without reload, the volume falls by one every speed + 1 clocks, stays at zero without the loop bit and starts again from 15 with it |
| Apu.EnvelopeCourse | fceux-am/src/sound.cpp:434-454 | a reload starts that course at 15 with the next clock |
| Apu.Square.Sweep | fceux-am/src/sound.cpp:400-420 | a sweep keeps the frequency between 0 and 0x7FF |
| ApuRegisters.RegistersHold | fceux-am/src/sound.cpp:194-285 | from power-on, whatever happens, a register holds the byte last written to it, and each envelope has speed and mode from the last byte written to its register |
| ApuRegisters.FrequencyWritten | fceux-am/src/sound.cpp:190-237 | from power-on, as long as nothing sweeps, the frequency of a square channel is the last byte of its low register plus 0x100 times the last three bits of its high one, and its sweep is on as the last byte of its sweep register says |
| ApuRegisters.EnabledWritten | fceux-am/src/sound.cpp:323-348 | the enabled channels are the low five bits of the last status write, or none after a reset, whatever else happens |
| ApuRegisters.LengthLoaded | fceux-am/src/sound.cpp:182-193 | a write to the last register of a channel loads its length from the table exactly if it is enabled, and no other length |
| ApuRegisters.LengthsFall | fceux-am/src/sound.cpp:379-398 | over any number of frames of the counting kind a length falls by one each, down to zero, unless its halt bit is set |
| ApuRegisters.Periods | fceux-am/src/sound.cpp:684-822 | the periods are the frequencies plus one, scaled; triangle and noise stand still exactly if they have no length or the triangle's period is too short; noise adds twice its volume |
| ApuRegisters.SweepMoves | fceux-am/src/sound.cpp:400-420 | a sweep that is due moves the frequency down or up by its shifted value as the direction bit says, and when it is due |
| ApuRegisters.DisabledIsSilent | fceux-am/src/sound.cpp:332-346 | from power-on, a channel that is not enabled has no length, stands still and adds nothing, whatever is written to it |
| ApuRegisters.SquareLevels | fceux-am/src/sound.cpp:655-684 | what the square channels add: the volume in 1, 2, 4 or 6 of 8 positions, and nothing out of range |
| ApuRegisters.SquaresRun | fceux-am/src/sound.cpp:697-735 | over any number of samples a square channel moves on once every period |
| ApuRegisters.TriangleShape | fceux-am/src/sound.cpp:847-851 | down from 45 in steps of 3 and up again |
| ApuRegisters.NoiseBits | fceux-am/src/sound.cpp:864-865 | the register is shifted, and the new bit is the sum of the top bit and the tap |
| ApuRegisters.DeltaMoves | fceux-am/src/sound.cpp:536-551 | a bit moves the level up or down by two, unless that leaves 0 to 127 |
| ApuRegisters.MixedTotal | fceux-am/src/sound.cpp:700-713 | no sample is lost or counted twice in the wave |
| Apu.Frame | fceux-am/src/sound.cpp:370-455 | a step of the frame sequencer keeps all ranges |
| Apu.Hook | fceux-am/src/sound.cpp:531-557 | the loop ends and the delta level keeps seven bits |
| Apu.SquareAmp | fceux-am/src/sound.cpp:670-680 | a channel's level is at most 15 |
| Apu.SumRest | fceux-am/src/sound.cpp:796-832 | the sum of triangle, noise and delta level is below 203 |
| Apu.Mixer.FillTables | fceux-am/src/sound.cpp:1202-1215 | the two tables of the mixer at low quality |
| Apu.Mixer.SquaresLq | fceux-am/src/sound.cpp:640-736 | the loop adds the looked-up level of every sample to the wave and leaves the channels where the samples end |
| Apu.Mixer.RestLq | fceux-am/src/sound.cpp:780-921 | the same for triangle, noise and delta level |
| Apu.Mixer.StepRest | fceux-am/src/sound.cpp:840-869 | one sample: triangle and noise turn when their counters run out |
| CpuTime.TimeIsConserved | fceux-am/src/x6502.cpp:405-501 | a run pays out 15 or 16 units for each cycle asked for, the hooks are told of each cycle once, and the run ends with nothing left |
| CpuTime.TimeIsConservedOverRuns | fceux-am/src/x6502.cpp:405-501 | over any sequence of runs nothing is lost |
| CpuTime.LongEnough | fceux-am/src/x6502.cpp:405-501 | runs that begin without an overdraft last at least as long as was asked for, also for the sound |
| CpuTime.LoopTogether | fceux-am/src/x6502.cpp:414-500 | the main loop ends, in a number of turns bounded by the time given |
| CpuTime.SpinningUsesUp | fceux-am/src/x6502.cpp:496-499 | a spinning program leaves less than a cycle |
| CpuTime.Cycles | fceux-am/src/x6502.cpp:324-342 | every instruction takes between two and eight cycles |
| CpuTime.Cpu.AddCyc | fceux-am/src/x6502.cpp:33-40 | the macro pays the same amount to all counters |
| CpuTime.Cpu.OneInstruction | fceux-am/src/x6502.cpp:478-499 | fetch, hooks, execution and the shortcut |
| CpuTime.Cpu.RunFor | fceux-am/src/x6502.cpp:405-501 | the run loop |
| Decimal.NumeralIsCanonical | abstract-machine/klib/src/stdio.c:63-72 | the printed numeral has no leading zero and stands for the number |
| Decimal.CanonicalIsUnique | abstract-machine/klib/src/stdio.c:63-72 | there is only one such numeral |
| Decimal.UnsignedRoundTrip | abstract-machine/klib/src/stdlib.c:22-30 | `atoi` of what `%u` printed is the same 32 bits as a signed number, whatever follows |
| Decimal.IntRoundTrip | abstract-machine/klib/src/stdlib.c:22-30 | `atoi` of what `%d` printed is the number for v >= 0 and 0 for negative v |
| Decimal.PrintedIntIsCanonical | abstract-machine/klib/src/stdio.c:49-62 | `%d` prints the canonical numeral of the magnitude, behind a minus sign if negative |
| Decimal.PieceMeaning | abstract-machine/klib/src/stdio.c:49-93 | what each conversion prints: canonical decimal numerals, hexadecimal digits without a leading zero behind `0x` (none for zero), the character, the text |
| Decimal.LeastNumberFails | abstract-machine/klib/src/stdio.c:52-58 | `%d` indexes its table below the start if and only if the number is the least one |
| Decimal.PastEndExactlyWhen | abstract-machine/klib/src/stdio.c:40-105 | for all formats, fitting arguments and limits: the format is read beyond its end if and only if its scan ends in a lone `%` and the limit is not reached before |
| Decimal.OnePercent | abstract-machine/klib/src/stdio.c:40-47 | the format `%` is read beyond its end |
| Decimal.Atoi | abstract-machine/klib/src/stdlib.c:22-30 | spaces are skipped and the leading digits read modulo 2^32 |
| Decimal.Digits | abstract-machine/klib/src/stdio.c:66-71 | the digit loops give the numeral, and the buffer is large enough |
| Decimal.Convert | abstract-machine/klib/src/stdio.c:47-93 | one conversion and the arguments it uses up |
| Decimal.Vsnprintf | abstract-machine/klib/src/stdio.c:40-105 | the outcome for a whole format: the text, or which of three failures comes first (the end of the format, an argument of the wrong kind, a negative index) |

## Left out

- Int64.Udivmoddi4: the remainder is always returned; the null pointer for it is not modelled. Division by zero, which traps, is excluded.
- RvSimulation.ProgramSimulated: code is not in data memory, so programs that change their own code are not covered; misaligned and out-of-range accesses do not trap, as in the machine that the macros assume.
- RvSimulation.ProgramSimulated: `auipc`, `fence`, `ecall` and the status registers have no macros in inst-replace.h and are not modelled; most of the one-line aliases at its end expand to modelled instructions and have no member of their own.
- Resampler.EmulatorCarries: a frame is at least the time of 262 lines of 341 dots and is not overclocked; which lines a frame has, and the frame that a state file continues, are not part of this model.
- Resampler.Player.FlushEmulateSound: samples are given after the per-sample lookup of lines 1039-1044 of sound.cpp; the hooks for expansion sound and the low-quality branch are not modelled, and the accumulators are unbounded, as filter.cpp lines 88-91 assume. A frame with too few samples ends the method with `ok` false, where the program reads before its buffer.
- Eeprom.Device.Write: the board's other registers, and the saving of the memory to a file.
- Flash.Board.Poke: the nametable and pattern pages of the board; the handlers that the identification mode exchanges are a flag here.
- Barcode.Reader.Enter: characters after the thirteenth are not looked at, as in the code.
- Barcode.Reader.Tick: the board's own interrupt counter, which shares the hook.
- Sprites.LineBuffer.RefreshSprites: which sprites are on a line, and the fetching of their patterns, come from outside; the background is drawn by code that is not part of this model.
- Sprites: the scroll registers and the hit test itself; of a register write to the picture memory, only the part for the palette.
- HandlerIndex.HandlerTable.Set: the table for reading is modelled; the one for writing is the same code.
- BankTable: the picture banks (`setchr1r` to `setchr8r`) have the same arithmetic with pages of 1K and no fallback.
- BankTable.Cart.constructor: the 8K of zeros that unmapped pages show are the last chip of the model; chips do not change during a run.
- Scheduler.NoTaskTwice: the contents of contexts and stacks, and the memory model of the machine; each step touches shared memory at most once, in some order.
- IrqCounters.LinesPeriod: latches above 255, which line 72 of 252.cpp can produce; the batching law holds for them too.
- IrqCounters: the mode that counts picture memory accesses, and the register writes.
- Apu.Mixer.SquaresLq: register writes, the frame sequencer and the soft reset are functions on values, not methods; the interrupt flags, the pointers to fill routines that a reset sets, the fetching of sample bytes and the high-quality path are not modelled.
- CpuTime.Cpu.RunFor: instructions and hooks are arbitrary amounts of further cycles; counters are unbounded, while the timestamp of the program has 32 bits and is taken back once a frame.
- CpuTime: the arithmetic and flags of single instructions.
- Decimal.Vsnprintf: the capacity of the caller's buffer; the length is compared with the limit only before each character of the format. What the program does after one of the three failures is not defined by C, so the outcome only names the failure.
- Game boards with single bank switches, file formats, checksums, text drawing and the user interface: no loop or history.
