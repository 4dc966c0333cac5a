# Verification models of the FPGA and ESP32 projects

This project models the working parts of the repository's processor, infrared remote, server and app, and proves what
they guarantee.

**The processor.** `words`, `alu`, `isa`, `control`, `cpu` and `transfers` model a multi-cycle DLX processor: a
20-state controller, a data path with a carry-select adder and three mirrored register-file memories, and a bus master.
The design is treated as synchronous: one clock edge is one step. `refinement` proves that the processor, on any memory
that honours the handshake, executes a one-step-per-instruction interpreter (`isa`). `encoding` writes the instruction
formats out as numbers: the fields of every word, an assembler that decoding undoes, and one step of the interpreter on
every kind of word. `runs` and `ledger` draw conclusions for whole runs: independence of memory timing and stepping, and
complete books of where every edge and bus access goes. `board` closes the loop with the handshaking SRAM, shows that
this memory honours the contract, and counts cycles exactly. `machine` is the same hardware as objects whose registers
and arrays change in place, each edge proved equal to the step functions the theorems are about. `lockstep` proves the
second controller equivalent. `analyzer` and `monitor` cover the logic analyzer that records a stepping processor, alone
and connected to the board.

**The infrared codec.** `ir_codec` encodes a word as Manchester half-bits, sends it through a channel that merges
neighbouring equal levels, disturbs every run length by less than the tolerance and may invert levels, and proves what
the decoder makes of it. `frame` places the settings in the word and reads them back at the other end.

**The air-conditioner server and its app.** `week_time` and `schedule` find the next scheduled event, `compaction`
deletes rows in place, `text` and `commands` print and parse schedule commands, `remote` executes update commands and
tracks an appliance that can only be toggled, and `scheduler` runs the whole loop.

`dafny verify dfyconfig.toml` checks everything.

## How to read the main results

- Start with `Refinement.IsaRefinement`, `Runs.LatencyInsensitive`, `Ledger.BooksBalance`, `Board.BoardRefines`,
  `Board.ExactTime` and `Monitor.StatusCountsInstruction` for the processor; `IrCodec.DecodeManchester` and
  `Frame.SendAndReceive` for the codec; `Schedule.ScheduleManager.DelayToNearest`, `Compaction.DeletesExactly`,
  `Commands.RoundTrip`, `Remote.PowerTracked` and `Scheduler.AcScheduler.Round` for the server.
- A run is a sequence of inputs; its properties are proved by induction on the sequence, so they hold for every length
  and every input. `Honest` is the whole contract a memory has to keep: acknowledge only under the strobe, and drive
  the addressed word when acknowledging a read. The contract is kept by real hardware: `Machine.Computer.constructor`
  builds a booted board, and `Board.RunModels` shows that every run of it is an honest run.
- Where both sides of a theorem use the same definition, separate lemmas say in literal numbers and characters what that
  definition means: `Encoding.Fields` and the steps after it for instruction words, `IrCodec.MessageSpelled` and
  `Frame.FieldPositions` for what is on air, `Remote.NamedCommands`, `Commands.TransferredFields`,
  `Scheduler.NewRowAnswered` and `Scheduler.ToggleFlips` for requests.
- The analyzer's inputs `in_init` and `stop_n` exist inside the processor, but no file of the repository connects the
  two: `DLX.vhf` does not bring them out. That connection, in `monitor`, is the model's own.
- `hide` statements keep definitions out of proofs that do not need them; they weaken nothing.

## Where the code differs from its documentation

- The encoder's comment names the IEEE convention (section 7.3.1.1 of IEEE 802.3, 1 as low-high), the decoder's comment
  the opposite one. With equal polarity the decoder therefore yields the complement of the word; with an inverting
  receiver, the word itself. Both are proved (`IrCodec.DecodeManchester`).
- The off-day of a schedule moves to the next day only if the off hour is smaller; equal hours with a smaller off minute
  run for almost a week (`WeekTime.OffDelayExact`, `WeekTime.SameHourOverruns`). An entry with equal on and off times,
  which the server accepts, is switched on and not ended: its off-delay is not positive, no timer is set, and unless a
  request comes nothing more happens, while no later start is looked for (`WeekTime.EqualTimesElapsed`). An entry ends
  after its running time exactly if equal hours imply a later off minute (`Scheduler.AcScheduler.OnStep`).
- Deleting a row is exact only under a condition on the table (`Compaction.DeletesExactly`): with four rows, if the next
  or the last row is free or the last one is deleted (`Compaction.FourSlots`). A full table ends up with duplicates
  (`Compaction.FullTableDuplicates`), and so does one with a gap (`Compaction.GappedTableDuplicates`), which saving to a
  row beyond the first free one produces (`Scheduler.UpdatePacks`, `Scheduler.GapReached`). Longer tables can also lose
  rows.
- Deleting a row does not move the number of the running entry, which may then end at the off-time of another row
  (`Scheduler.OffKept`, `Scheduler.DeleteMovesEnd`).
- `FAN_DOWN` is compared over four characters only (the size of an address, not of the text) and looks for its number
  behind the prefix of `FAN_UP`, so it always lowers by one (`Remote.FanDownIsOne`, `Remote.FanDownTwo`).
- An off-step that finds the appliance already off does not rearm the timer and leaves the schedule active; it ends
  the schedule exactly if the appliance is on (`Scheduler.AcScheduler.OffStep`, `Scheduler.SwitchedOffByHand`).
- `is_on` is never read when the next event is searched, so an entry switched off is executed like any other
  (`Schedule.IsOnIgnored`, `Schedule.SwitchedOffStillPlanned`). The search honours the flags exactly if every start of
  an entry switched off coincides with that of an earlier entry switched on (`Schedule.HonoursOnFlags`).
- A delay that is not positive sets no timer. That happens exactly when an event is due in the very minute in which the
  scheduler looks for the next one (`Scheduler.AcScheduler.ConfigWakeup`, `Schedule.DueEntryMissed`).

## Model

| member | source | states |
|---|---|---|
| Words.Bits32At | MIPS CPU - Uni lab/ALU_ENV.vhf:474-521 | every bit of the 32-bit AND, OR and XOR is the truth function of the two input bits at its position |
| Words.SignedMeans | MIPS CPU - Uni lab/ALU_ENV.vhf:224-239 | the signed value of a word is the only number of the signed range equal to it modulo 2^32, negative iff bit 31 is set |
| Alu.CellAdds | MIPS CPU - Uni lab/ALU_ENV.vhf:68-92 | a 16-bit cell adds `b` or its one's complement with the carry in, and its carry out is the true carry (subtraction is complement-and-add) |
| Alu.SelectedCarryIsExact | MIPS CPU - Uni lab/ALU_ENV.vhf:181-239 | selecting one of two precomputed upper halves by the lower carry gives the sum and carry of the whole 33-bit complement-and-add |
| Alu.SignFromCarry | MIPS CPU - Uni lab/ALU_ENV.vhf:224-239 | the three-input XOR of effective sign bits and carry is the sign of the exact result, and the sum is the result modulo 2^32 |
| Alu.AddSubCorrect | MIPS CPU - Uni lab/ALU_ENV.vhf:180-241 | for all words and both operations the adder yields a±b modulo 2^32, and NEG is the sign of the exact signed a±b even when that overflows 32 bits |
| Alu.ComparatorRelates | MIPS CPU - Uni lab/ALU_ENV.vhf:299-338 | given the true sign and difference, the comparator raises its output iff the code enables the signed order of the operands (bit 2 less, bit 1 equal, bit 0 greater) |
| Alu.AluTests | MIPS CPU - Uni lab/ALU_ENV.vhf:449-535 | with TEST the unit returns 1 iff the signed relation of A and B is enabled by the code, for all operands, 0 otherwise |
| Alu.AluComputes | MIPS CPU - Uni lab/ALU_ENV.vhf:449-535 | without TEST and ADD the eight codes compute subtract, add, subtract, add, xor, or, and, and |
| Alu.AluAdds | MIPS CPU - Uni lab/ALU_ENV.vhf:494-533 | ADD forces an addition whatever the code input is |
| Encoding.Fields | MIPS CPU - Uni lab/DLX.vhf:783-828 | opcode, rs and rt of every word are the numbers at 2^26, 2^21 and 2^16, and the rest is its low sixteen bits: each field is read where the netlist wires it, whatever stands in the others |
| Encoding.LowFields | MIPS CPU - Uni lab/DLX.vhf:820-824 | rd of every word is the number at 2^11, and the rest is its low eleven bits |
| Encoding.DecodesImmediate | MIPS CPU - Uni lab/DLX_Control.vhd:134-171 | every word with opcode 4 to 63, its operation by number: 4-7 branch (even on zero), 8-15 add, 16-23 jump (odd with link), 24-31 test, 32-39 load, 40-47 store, 48-55 nothing, 56-63 stop, with its registers and signed immediate |
| Encoding.DecodesRegister | MIPS CPU - Uni lab/DLX_Control.vhd:134-171 | every word with opcode 0 to 3: bit 5 tells arithmetic from shifts, the three low bits are the function, bit 1 a right shift |
| Encoding.DecodeEncode | MIPS CPU - Uni lab/DLX_Control.vhd:134-171 | every instruction has a word, and decoding that word gives the instruction back |
| Encoding.TestCodes | MIPS CPU - Uni lab/ALU_ENV.vhf:299-338 | the eight test codes are never, >, =, >=, <, !=, <= and always |
| Encoding.FunctionCodes | MIPS CPU - Uni lab/ALU_ENV.vhf:449-535 | the eight functions as numbers and bits: differences and sums modulo 2^32, and exclusive or, or, and, and in every bit position |
| Encoding.ImmediateStep | MIPS CPU - Uni lab/DLX_Control.vhd:186-197 | one step on an add or test word given as numbers: rt gets the sum with the signed immediate modulo 2^32, or 1 or 0; register 0 is never written, PC goes on by one, nothing else changes |
| Encoding.MemoryStep | MIPS CPU - Uni lab/DLX_Control.vhd:199-227 | one step on a load or store word: the address is rs plus the signed immediate modulo 2^32, cut to 1024 words; a load changes rt only, a store one word of memory only |
| Encoding.JumpStep | MIPS CPU - Uni lab/DLX_Control.vhd:230-261 | one step on a branch or jump word: where PC goes, counted from the next address for a branch, and the link address in register 31 for an odd jump only |
| Encoding.OtherStep | MIPS CPU - Uni lab/DLX_Control.vhd:134-171 | one step on opcodes 48 to 63: PC goes on by one, and from 56 on the machine stops |
| Encoding.RegisterStep | MIPS CPU - Uni lab/SHIFT_ENV.vhd:42-51 | one step on a three-register word: rd gets the function of rs and rt, half of rs rounded down, or twice rs modulo 2^32 |
| Encoding.LinksAndZero | MIPS CPU - Uni lab/DLX.vhf:830-853 | a linking jump changes register 31 only, and register 0 stays zero under every instruction |
| Core.CoherenceKept | MIPS CPU - Uni lab/DLX.vhf:604-662 | under every control line and address the three register-file copies stay equal, register 0 stays zero, and all three take one common write |
| Transfers.SignExtendMeans | MIPS CPU - Uni lab/Sxt_16_32.vhd:39-43 | the sign-extended field means the signed immediate, both as a value and as an addend modulo 2^32 |
| Transfers.LinesTransfer | MIPS CPU - Uni lab/DLX.vhf:1017-1121 | in every one of the states, the control table together with the netlist of multiplexers, ALU, shifter and registers performs exactly the intended register transfer and changes nothing else |
| Transfers.AddingBus | MIPS CPU - Uni lab/DLX_Control.vhd:323-369 | the operand selects and ADD put PC+1, A+imm, PC+imm, A or PC on the internal bus in the seven adding states |
| Transfers.ShiftingBus | MIPS CPU - Uni lab/SHIFT_ENV.vhd:42-51 | in the shift and copy states the bus carries A shifted by one place logically, MDR, or B |
| Refinement.DecodeDispatches | MIPS CPU - Uni lab/DLX_Control.vhd:134-171 | the opcode tests of DECODE send every instruction word to the state its decoded instruction starts in, and back to Init/Fetch for a no-op |
| Refinement.CellOfAddress | MIPS CPU - Uni lab/MMU.vhd:37-47 | cutting an address to 24 bits does not change the word the memory selects |
| Refinement.ReadData | MIPS CPU - Uni lab/DLX.vhf:1094-1102 | an acknowledged fetch or load returns the word at PC or MAR, and a store addresses the word at MAR |
| Refinement.FetchEdge | MIPS CPU - Uni lab/DLX_Control.vhd:126-132 | a FETCH edge, waiting with junk in IR or acknowledged, keeps the place in the instruction |
| Refinement.StoreEnds | MIPS CPU - Uni lab/DLX_Control.vhd:219-227 | the acknowledged STORE edge completes exactly the sequential store instruction |
| Refinement.TracksNext | MIPS CPU - Uni lab/DLX_Control.vhd:112-369 | on every edge, with any honest slave, the hardware keeps its place in the current instruction or completes it: the simulation relation (with the bus invariant: MAC never in its unused state, no Spare state) is preserved by one sequential step per retirement and none otherwise |
| Refinement.RunTracks | MIPS CPU - Uni lab/DLX_Control.vhd:112-369 | after every run from reset the hardware tracks as many sequential steps as instructions retired |
| Refinement.IsaRefinement | MIPS CPU - Uni lab/DLX.vhf:1252-1328 | at every instruction boundary of every run, for every memory image and every timing, PC, all 32 registers and memory equal n steps of the sequential interpreter, self-modifying code included |
| Runs.TraceRefines | MIPS CPU - Uni lab/DLX_Control.vhd:112-272 | the sequence of programmer-visible states after each retirement is the sequential trace |
| Runs.LatencyInsensitive | MIPS CPU - Uni lab/MAC.vhd:67-105 | two runs of one program on any two honest memories and step inputs: the shorter retired trace is a prefix of the longer |
| Runs.HaltAbsorbs | MIPS CPU - Uni lab/DLX_Control.vhd:264-265 | once in HALT, registers, memory and state never change and nothing retires, under every input |
| Runs.PulseRetiresOne | MIPS CPU - Uni lab/DLX_Control.vhd:118-124 | a one-cycle step pulse in INIT retires exactly one instruction, and it has done so exactly when INIT or HALT is reached again |
| Ledger.PlanHolds | MIPS CPU - Uni lab/DLX_Control.vhd:134-268 | every state change on a tracked run is the one planned by the decoded instruction and its branch outcome |
| Ledger.DoneStep | MIPS CPU - Uni lab/DLX_Control.vhd:112-272 | along each instruction's path of states the work and the acknowledgements add up to its fixed cost, at the edge that retires it |
| Ledger.BooksEdge | MIPS CPU - Uni lab/MAC.vhd:102-105 | one edge of the processor: the running totals of the current instruction advance by what the edge did, and a retiring edge reaches its fixed cost |
| Ledger.BooksBalance | MIPS CPU - Uni lab/MAC.vhd:71-105 | over every run: edges = idle + waiting + fixed work of the retired instructions + work under way; acknowledgements = accesses of the retired instructions; one strobe period and one acknowledgement for each FETCH, LOAD or STORE visit |
| Ledger.BusStable | MIPS CPU - Uni lab/MAC.vhd:102-105 | address, data, direction and kind of access do not change while the strobe is active |
| Board.ModelsHonest | MIPS CPU - Uni lab/basic modules/SRAM.VHD:79-101 | in every reachable state the memory acknowledges only under the strobe and with the addressed word |
| Board.ModelsNext | MIPS CPU - Uni lab/basic modules/SRAM.VHD:53-97 | one edge of processor and memory together is one edge of the abstract contract, although the chip writes a store on two consecutive edges, the first before it answers |
| Board.RunModels | MIPS CPU - Uni lab/IO_SIMUL.VHD:41-59 | every run of the closed loop is an honest run, so all results for arbitrary slaves apply to it |
| Board.BoardRefines | MIPS CPU - Uni lab/IO_SIMUL.VHD:41-59 | at every instruction boundary of the closed loop, registers, PC and the chip's own memory are those of the sequential machine |
| Board.ResetBoots | MIPS CPU - Uni lab/basic modules/SRAM.VHD:42-51 | a reset in the middle of anything boots the given image with PC 0 and the register file kept |
| Board.PhaseEdge | MIPS CPU - Uni lab/basic modules/SRAM.VHD:72-97 | the handshake flags count the four waiting edges of an access, and a store is written on exactly two of them |
| Board.ClocksBalance | MIPS CPU - Uni lab/basic modules/SRAM.VHD:53-97 | over every run: waiting edges = 4 per acknowledgement + stalls + current phase, and chip writes = 2 per store |
| Board.StallEdge | MIPS CPU - Uni lab/MAC.vhd:90-93 | a fetch finds the bus master still closing exactly if a store instruction has just retired with the step input high |
| Board.StallsAreRunOns | MIPS CPU - Uni lab/MAC.vhd:90-93 | over every run the stalls are as many as the store instructions of the sequential trace that retired with the step input high, the last one counted from the edge after it |
| Board.CyclesAreWorkAndWaits | MIPS CPU - Uni lab/basic modules/SRAM.VHD:79-97 | the cycle table (no-op 6, jr and untaken branch 7, most 8, store 13, load 14) is fixed work plus four waits an access |
| Board.ExactTime | MIPS CPU - Uni lab/DLX_Control.vhd:116-268 | total time of every run = idle cycles + one cycle for every store of the sequential trace retired with the step input high (once it has passed) + sum of instruction cycles over the sequential trace + cycles of the instruction under way |
| Board.NeverHangs | MIPS CPU - Uni lab/DLX_Control.vhd:116-268 | the cycles of every run outside INIT and HALT are at most 15 for each retired instruction plus 13, so no run hangs |
| Machine.RegisterFile.ClockEdge | MIPS CPU - Uni lab/DLX.vhf:604-662 | the three arrays updated in place change as the register-file function says |
| Machine.Dlx.LatchOperands | MIPS CPU - Uni lab/DLX.vhf:762-793 | A, B, C and the register file take their new values from the old ones, in place |
| Machine.Dlx.LatchBus | MIPS CPU - Uni lab/DLX.vhf:795-818 | PC, IR, MAR and MDR take bus or memory data under their enables, in place |
| Machine.Dlx.ClockEdge | MIPS CPU - Uni lab/DLX.vhf:1252-1328 | one edge of the clocked processor object is one step of the processor function |
| Machine.Dlx.Reset | MIPS CPU - Uni lab/DLX_Control.vhd:101-109 | reset clears controller, bus master and PC and keeps every other register |
| Machine.SramChip.ClockEdge | MIPS CPU - Uni lab/basic modules/SRAM.VHD:53-97 | the scanning loop and the flag updates change exactly what the memory step function says |
| Machine.SramChip.Reset | MIPS CPU - Uni lab/basic modules/SRAM.VHD:42-51 | the loading loop leaves the program followed by zeros and clears the flags |
| Machine.Image | MIPS CPU - Uni lab/basic modules/SRAM.VHD:42-51 | word k of a loaded memory is word k of the program, and zero behind its end |
| Machine.Computer.constructor | MIPS CPU - Uni lab/IO_SIMUL.VHD:41-59 | a new computer is booted: registers zero, PC 0, program loaded |
| Machine.Computer.ClockEdge | MIPS CPU - Uni lab/IO_SIMUL.VHD:41-59 | one edge of the closed loop of objects is one step of the board, so every board theorem speaks about the objects |
| Lockstep.CodesAgree | MIPS CPU - Uni lab/sDLX_Control.vhd:112-259 | the two next-state rules agree under the bijection of state codes |
| Lockstep.RecodeInjective | MIPS CPU - Uni lab/sDLX_Control.vhd:86-105 | different states of the first controller have different codes in the second, so the correspondence of states is one to one |
| Lockstep.CodesPermuted | MIPS CPU - Uni lab/sDLX_Control.vhd:86-105 | the correspondence of the two state numberings, number by number |
| Lockstep.LinesAgree | MIPS CPU - Uni lab/sDLX_Control.vhd:263-358 | the two output tables agree in every state except the instruction-register enable while FETCH waits |
| Lockstep.SameNext | MIPS CPU - Uni lab/sDLX_Control.vhd:112-358 | one edge keeps both processors in the same state, bus state and registers, IR included outside FETCH |
| Lockstep.RunsInLockstep | MIPS CPU - Uni lab/sDLX_Control.vhd:112-358 | on every input sequence of any length the two processors stay in lockstep; on entering DECODE their IR agree |
| Analyzer.HoldsMore | MIPS CPU - Uni lab/LogicAnalyzer.vhf:168-185 | one more sample keeps the ring memory holding the last 32 samples at their index modulo 32 over the old contents |
| Analyzer.CapturesWhileStepping | MIPS CPU - Uni lab/LogicAnalyzer.vhf:168-212 | while the processor steps, memory and counter are those of the unstalled samples so far, for any number of them |
| Analyzer.StepCaptured | MIPS CPU - Uni lab/LogicAnalyzer.vhf:167-242 | after a pulse and the return to INIT the memory holds the unstalled samples in order (the last 32 if more), status is their number modulo 32 and the analyzer is idle again |
| Analyzer.LogicAnalyzer.ClockEdge | MIPS CPU - Uni lab/LogicAnalyzer.vhf:167-242 | flip-flops, counter, status and memory updated in place follow the step function |
| Analyzer.StepReadBack | MIPS CPU - Uni lab/LogicAnalyzer.vhf:167-242 | after a step the memory gives back each of the last 32 unstalled samples at its index modulo 32 and what was there before everywhere else |
| Analyzer.IdleStays | MIPS CPU - Uni lab/LogicAnalyzer.vhf:167-242 | between steps nothing in the analyzer changes, for any number of cycles |
| Analyzer.LogicAnalyzer.Read | MIPS CPU - Uni lab/LogicAnalyzer.vhf:175-179 | at rest, address ai reads the recorded sample whose index is ai modulo 32 among the last 32, or the older contents; while recording it reads the oldest sample still held, the one about to be overwritten |
| Monitor.ThreeStallsAnAccess | MIPS CPU - Uni lab/MAC.vhd:105 | the stall flag is active for exactly three cycles of every memory access |
| Monitor.StepTime | MIPS CPU - Uni lab/DLX_Control.vhd:116-268 | a step begun in Init at any point of any run is back at rest exactly when the cycles of the instruction at PC are over, never earlier or later, and has then made exactly that instruction's accesses |
| Monitor.StepReturns | MIPS CPU - Uni lab/DLX_Control.vhd:116-268 | from Init at any point of any run, one pulse followed by silence comes back to rest: the step always ends |
| Monitor.StatusCountsInstruction | MIPS CPU - Uni lab/LogicAnalyzer.vhf:167-242 | processor, memory and analyzer together: from Init at any point of any run, after one pulse and the instruction's cycles the board rests and the status register reads those cycles + 2 - 3 per access, modulo 32 |
| IrCodec.FillFrame | ESP32 - IR Receiver/ir_codec.c:35-54 | the loop fills the leading symbol and one Manchester symbol per data bit, most significant first, 1 as low-high and 0 as high-low |
| IrCodec.CopyFrame | ESP32 - IR Receiver/ir_codec.c:55-58 | the block copy repeats the frame and leaves the rest of the array alone |
| IrCodec.EncodeSettings | ESP32 - IR Receiver/ir_codec.c:35-66 | the symbol array filled in place is the message of the word: three frames and the trailing symbol, spelled out in `IrCodec.MessageSpelled` |
| IrCodec.MessageSpelled | ESP32 - IR Receiver/ir_codec.c:35-66 | all 3(n+1)+1 symbols of a message as literals: in each of the three repetitions a 3000/3000 leader, then 1000 low, 1000 high for a 1 and the reverse for a 0, and at the end a 4000 mark with an empty space |
| IrCodec.MergeKeepsSignal | ESP32 - IR Receiver/ir_codec.c:183-212 | merging neighbouring runs changes the level of the signal at no time |
| IrCodec.DistortedReceives | ESP32 - IR Receiver/ir_codec.c:183-212 | packing any runs after any errors below the tolerance, with or without inverted levels, gives a buffer that holds them as received |
| IrCodec.MergeAlternates | ESP32 - IR Receiver/ir_codec.c:183-212 | merging neighbouring equal levels leaves runs of strictly alternating level |
| IrCodec.MergeCovers | ESP32 - IR Receiver/ir_codec.c:44-54 | after merging, the runs of any word's data symbols re-expand to exactly its half-bits, whatever leading or trailing symbol follows |
| IrCodec.LeaderLeads | ESP32 - IR Receiver/ir_codec.c:37-42 | a leading mark stands alone after merging and its space is at least its own length |
| IrCodec.SentDecodable | ESP32 - IR Receiver/ir_codec.c:35-66 | the merged runs of a message, from any of its three leaders on, start with the leader, hold exactly the half-bits of the word, and continue with a run no decoder branch takes for a double |
| IrCodec.WholeMessageSuffices | ESP32 - IR Receiver/ir_codec.c:183-212 | a buffer with the whole message, or all of it from the second or third leader on, meets the decoder's precondition |
| IrCodec.FirstRepetitionSuffices | ESP32 - IR Receiver/ir_codec.c:183-212 | so does a buffer with only one repetition, any of the three, for every word and all errors below the tolerance |
| IrCodec.FirstRunsUnique | ESP32 - IR Receiver/ir_codec.c:193-212 | the number of runs the decoder needs is determined by the message |
| IrCodec.JitterHarmless | ESP32 - IR Receiver/ir_codec.c:177-180 | errors under 200 µs never change which of the lengths 2000 and 4000 a run is taken for |
| IrCodec.ToleranceSpelled | ESP32 - IR Receiver/ir_codec.c:177-180 | a duration counts as 2000 iff it lies strictly between 1800 and 2200, as 4000 iff strictly between 3800 and 4200 |
| IrCodec.EntriesDone | ESP32 - IR Receiver/ir_codec.c:197-212 | the collecting loop stops with exactly 2n half-bits, or 2n+1 when the last bit is 1, and the first 2n are those of the word |
| IrCodec.PutRun | ESP32 - IR Receiver/ir_codec.c:199-209 | one run adds its level once, or twice if it is a double |
| IrCodec.DecodeManchester | ESP32 - IR Receiver/ir_codec.c:183-225 | for every word of n bits, merged, jittered and possibly inverted, given the runs of one repetition, any of the three: the decoder stays within its buffers and writes the complement of the word with equal polarity and the word itself with inverted polarity, having collected 2n half-bits (2n+1 if the last bit is 1) |
| Frame.WordIsLayout | ESP32 - IR remote/ir_codec.h:13-33 | shifting the settings union gives power, mode, fan, swing, temperature, sleep and the constant bits in order; fields do not overlap and the tracked state is not sent |
| Frame.FieldPositions | ESP32 - IR remote/ir_codec.h:13-33 | bit by bit: power is bit 33, mode 30-32, fan 28-29, swing 25, temperature 19-22, sleep 18, bit 1 is one, and every other bit below 34 is zero |
| Frame.ValueOfBits | ESP32 - IR remote/ir_codec.h:13-33 | the bits of a field give its value back |
| Frame.SettingsArrive | ESP32 - IR remote/ir_codec.h:13-33 | what the receiver decodes is exactly the settings the remote was set to, and the word always ends in 0 |
| Frame.SendAndReceive | ESP32 - IR Receiver/ir_codec.c:35-66 | from settings to settings: encoded, merged, disturbed below the tolerance, perhaps inverted, decoded and read, they are those of the remote, with exactly 68 half-bits collected |
| Text.AtoiOfDigits | ESP32 - IR remote/server_schedule.c:153 | the C conversion of a digit string is its positional value |
| Text.TwoReads | ESP32 - IR remote/Android App/ScheduleViewModel.kt:42 | two-digit printing is two characters long and read back by the C conversion |
| Text.NumeralOfValue | ESP32 - IR remote/Android App/ScheduleViewModel.kt:47 | reading a numeral without needless zeros and printing it again gives the same text |
| Text.ValueOfNumeral | ESP32 - IR remote/uri_handlers.c:79 | a printed number is read back |
| Text.NumbersSpelled | ESP32 - IR remote/Android App/ScheduleViewModel.kt:39-49 | the digit characters and printed numbers as literals: most significant digit first, zeros in front |
| Text.ConversionsSpelled | ESP32 - IR remote/server_schedule.c:153 | the C conversion on literals: white space and one sign in front, and it stops at the first other character |
| Remote.ParseCommandDelta | ESP32 - IR remote/uri_handlers.c:67-83 | the loop computes the number behind the prefix and a space, 1 if there is none |
| Remote.DeltaReads | ESP32 - IR remote/uri_handlers.c:67-83 | a decimal number sent behind a prefix is the delta the server uses |
| Remote.DeltaDefault | ESP32 - IR remote/uri_handlers.c:67-83 | without a space and a digit right behind the prefix the delta is 1 |
| Remote.NamedCommands | ESP32 - IR remote/uri_handlers.c:165-223 | POWER sets the toggle bit, SWING flips the swing, COOL, HEAT, AUTO, DRY and FAN (not followed by an underscore) set the modes 1 to 5, and nothing else changes |
| Remote.UnknownCommand | ESP32 - IR remote/uri_handlers.c:165-223 | a text that starts with none of the names changes nothing |
| Remote.SettingsOnAir | ESP32 - IR remote/uri_handlers.c:225-231 | every frame carries the mode, fan, swing, temperature and sleep in force afterwards; an update sends one frame, with the power bit iff it is POWER; switching sends one frame with the power bit iff the appliance is in the other state, and changes only the tracked state |
| Remote.TemperatureMoves | ESP32 - IR remote/uri_handlers.c:173-189 | TEMP_UP n and TEMP_DOWN n move the temperature by exactly n, stopping at 14 and 0, and nothing else |
| Remote.FanMovesUp | ESP32 - IR remote/uri_handlers.c:190-198 | FAN_UP n raises the fan by exactly n, stopping at 3, and nothing else |
| Remote.FanDownIsOne | ESP32 - IR remote/uri_handlers.c:199-205 | FAN_DOWN lowers the fan by one, not below 0, whatever number follows |
| Remote.FanUnderscore | ESP32 - IR remote/uri_handlers.c:199-205 | any text that starts with FAN_ but not with FAN_UP lowers the fan by the number found two characters further on |
| Remote.FanDownObeysNumber | ESP32 - IR remote/uri_handlers.c:199-205 | FAN_DOWN n lowers the fan by n iff n is 1, the fan is 0, or the fan is 1 and n is positive |
| Remote.FanDownTwo | ESP32 - IR remote/uri_handlers.c:199-205 | from fan 3, FAN_DOWN 2 leads to fan 2 |
| Remote.ObeyedInRange | ESP32 - IR remote/uri_handlers.c:165-223 | no command makes a bit field overflow or touches the tracked power state |
| Remote.ActionTracked | ESP32 - IR remote/uri_handlers.c:225-231 | one whole handler or scheduler step leaves the toggle bit clear and the tracked state equal to what its frames make of the appliance; on-steps end on, off-steps end off |
| Remote.PowerTracked | ESP32 - IR remote/uri_handlers.c:165-231 | for every interleaving of whole handlers and steps: power is 0 in between and power_state is the parity of transmitted frames with the power bit, and all settings stay in range |
| Remote.IrRemote.Obey | ESP32 - IR remote/uri_handlers.c:165-223 | the comparison chain applied to the fields in place is the command's effect, spelled out in `Remote.NamedCommands` and the temperature and fan theorems, other fields unchanged |
| Remote.IrRemote.UpdateHandler | ESP32 - IR remote/uri_handlers.c:150-236 | the handler's new settings and the one frame it sends; power is 0 afterwards and the tracked state still is the parity of all frames sent |
| Remote.IrRemote.SwitchApplianceOn | ESP32 - IR remote/server_schedule.c:261-271 | the on-step transmits a toggle exactly if the appliance was off, and leaves it on as far as all frames sent tell |
| Remote.IrRemote.SwitchApplianceOff | ESP32 - IR remote/server_schedule.c:281-290 | the off-step transmits a toggle exactly if the appliance was on, and leaves it off as far as all frames sent tell |
| WeekTime.CalcDelay | ESP32 - IR remote/server_schedule.c:27-54 | subtraction with borrows equals 60000·((event − now) mod 10080 minutes) − 1000·seconds, within a 32-bit int |
| WeekTime.TimerLands | ESP32 - IR remote/server_schedule.c:27-54 | a timer set to the delay expires on the event's day, in its minute, at second 0; delays are whole seconds |
| WeekTime.MinutesAhead | ESP32 - IR remote/server_schedule.c:30-49 | an event o days ahead lies o days plus the time difference away; only one earlier today wraps to next week |
| WeekTime.OffDelayExact | ESP32 - IR remote/server_schedule.c:105-113 | in its own minute an on-event's off-delay is (off − on) mod 1440 minutes less the seconds, iff not (equal hours and off minute smaller) |
| WeekTime.SameHourOverruns | ESP32 - IR remote/server_schedule.c:107-111 | 10:30 to 10:15 runs a week less 15 minutes: the case the midnight test misses |
| WeekTime.EqualTimesElapsed | ESP32 - IR remote/server_schedule.c:107-111 | 10:30 to 10:30 has an off-delay that is never positive, so it sets no timer |
| Schedule.DueExactly | ESP32 - IR remote/server_schedule.c:27-54 | a delay fails to be positive exactly in the event's own minute |
| Schedule.UpcomingSign | ESP32 - IR remote/server_schedule.c:74-103 | the nearest delay fails to be positive exactly if some planned event falls in the clock's own day and minute |
| Schedule.DueEntryMissed | ESP32 - IR remote/server_schedule.c:129-137 | at 8:00:30 the entry of 8:00 is due, so the scheduler wakes up for none |
| Schedule.IsOnIgnored | ESP32 - IR remote/server_schedule.c:74-103 | flipping any on-flag changes neither whether nor which event is found |
| Schedule.HonoursOnFlags | ESP32 - IR remote/server_schedule.c:74-103 | for every table: at every clock the search finds exactly what it would find among the entries switched on, iff every start of an entry switched off coincides with that of an earlier entry switched on |
| Schedule.HonoursIsOn | ESP32 - IR remote/server_schedule.c:74-103 | at one clock, the event found is also that of the entries switched on iff its own entry is switched on |
| Schedule.NearestAtStart | ESP32 - IR remote/server_schedule.c:74-103 | at a start, on the second, the search finds the lowest row starting then |
| Schedule.SwitchedOffStillPlanned | ESP32 - IR remote/server_schedule.c:74-103 | a table whose only row is switched off still has an event |
| Schedule.OffTimer | ESP32 - IR remote/server_schedule.c:105-113 | in an entry's first minute its off-delay is positive and its running time iff (equal hours imply a later off minute), and not positive iff both times are equal |
| Schedule.DayIsBit | ESP32 - IR remote/server_schedule.c:82-83 | weekday d is selected iff bit d of the mask is set |
| Schedule.NearestUnique | ESP32 - IR remote/server_schedule.c:68-121 | at most one event is nearest with ties to the lowest index, so the search result is determined by table and clock |
| Schedule.LaterDaysLater | ESP32 - IR remote/server_schedule.c:94-98 | leaving the day loop early loses nothing: later days are later, unless today's time has passed |
| Schedule.ScanDays | ESP32 - IR remote/server_schedule.c:78-101 | the day loop of one entry, with its early exit and its one continue, leaves the minimum of the incoming best and all selected days of the entry, replacing it only by something strictly nearer |
| Schedule.ScheduleManager.constructor | ESP32 - IR remote/server_schedule.c:231-237 | the table starts empty, inactive, with no next event |
| Schedule.ScheduleManager.DelayToNearest | ESP32 - IR remote/server_schedule.c:56-122 | inactive: the exact minimum over all valid entries and selected weekdays with its index and off-day, −1 iff there is none; active: the delay to the running entry's end |
| Compaction.MoveRows | ESP32 - IR remote/server_schedule.c:363 | the overlapping block move shifts the tail down one row and leaves a copy of the last row in place |
| Compaction.Delete | ESP32 - IR remote/server_schedule.c:359-366 | the in-place loop of block moves computes the deletion function |
| Compaction.ClosePacks | ESP32 - IR remote/server_schedule.c:361-366 | closing a gap leaves the used rows a prefix, one row fewer with every move unless the table was full |
| Compaction.DeletedPacks | ESP32 - IR remote/server_schedule.c:359-366 | for any table length deletion keeps the used rows a prefix if they were one, with the stated number of them |
| Compaction.DeletedFree | ESP32 - IR remote/server_schedule.c:359-366 | deleting an unused row of a packed table changes nothing |
| Compaction.DeletedRow | ESP32 - IR remote/server_schedule.c:359-366 | every row of the table after a deletion, told by the number of block moves: rows before the gap stay, the next come from every other place, the rest from that many places on, the last row repeated |
| Compaction.LastFreeExact | ESP32 - IR remote/server_schedule.c:361-366 | with the last row free, closing a gap never adds used rows and keeps them all iff every row it runs over is free |
| Compaction.LastUsedGrows | ESP32 - IR remote/server_schedule.c:361-366 | with the last row in use, closing a gap never lowers the number of used rows, and raises it if any block is moved over a free one |
| Compaction.DeletesExactly | ESP32 - IR remote/server_schedule.c:359-366 | for every table of any length, with gaps or without, and every row of it: exactly the other used rows remain, in order, iff no used row follows directly, or the last row is free and so are the rows two, four, ... places on that the moves run over |
| Compaction.FourSlots | ESP32 - IR remote/server_schedule.c:359-366 | in any table of four rows deletion of row k is exact iff k is 3, row k + 1 is free or row 3 is free |
| Compaction.PackedDeletesExactly | ESP32 - IR remote/server_schedule.c:359-366 | in a table whose used rows are a prefix: exactly the requested row disappears, order kept, iff it is the last used row or the table is not full and at most two used rows follow it |
| Compaction.FourPackedSlots | ESP32 - IR remote/server_schedule.c:359-366 | with four slots whose used rows are a prefix, deletion is exact iff a slot is free or the last slot is the one deleted |
| Compaction.GappedTableDuplicates | ESP32 - IR remote/server_schedule.c:361-366 | with rows 1 and 3 used and row 2 free, deleting row 0 leaves rows 1, 3, 3, 3 |
| Compaction.FullTableDuplicates | ESP32 - IR remote/server_schedule.c:361-366 | deleting the first of four full rows leaves rows 1, 3, 3, 3 |
| Commands.ParseIndex | ESP32 - IR remote/server_schedule.c:140-155 | the digit loop and conversion yield the new-row mark, or a row number of at most two digits with its length |
| Commands.TransferData | ESP32 - IR remote/server_schedule.c:157-216 | the two loops store the accepted fields up to the first bad one, and on success all four times, the day mask and both flags; no other row changes |
| Commands.TransferredFields | ESP32 - IR remote/server_schedule.c:157-216 | character positions and limits: hours below 24 and minutes below 60 at characters 0, 3, 6 and 9; the first field out of its limits ends the transfer with the fields before it stored, otherwise the days from character 12 on and both flags are stored |
| Commands.TimesStayValid | ESP32 - IR remote/server_schedule.c:170-198 | no command, malformed or not, puts an hour or minute out of range into the table |
| Commands.MaskSelects | ESP32 - IR remote/server_schedule.c:203-210 | weekday d is selected iff character d of the mask text is '1' |
| Commands.FoldSpells | ESP32 - IR remote/Android App/ui/schedule/ScheduleEditDialog.kt:128 | the padded binary numeral of the folded selection spells the selection from day 0 on |
| Commands.EmptyFold | ESP32 - IR remote/Android App/ui/schedule/ScheduleEditDialog.kt:136 | the dialog's refusal of mask 0 is a refusal of the empty selection |
| Commands.RowText | ESP32 - IR remote/Android App/ScheduleViewModel.kt:39-49 | parsing the binary numeral as decimal and printing it seven wide prints the seven selections |
| Commands.CommandSpelled | ESP32 - IR remote/Android App/ScheduleViewModel.kt:39-49 | row 3 from 8:05 to 19:30 on Sundays and Fridays is the text 3 08 05 19 30 1000010 |
| Commands.RoundTrip | ESP32 - IR remote/Android App/ScheduleViewModel.kt:38-49 | for every index below 100, valid times and selection, whatever the buffer held before: the server parses index and all four times back and selects exactly the chosen weekdays |
| Commands.EditKeepsDays | ESP32 - IR remote/Android App/ui/schedule/ScheduleEditDialog.kt:28 | opening the dialog on a stored mask and saving unchanged stores the same mask |
| Scheduler.SaveStores | ESP32 - IR remote/server_schedule.c:299-325 | a row saved in the app replaces exactly that row of the table, times and selected weekdays included, and is answered with success; a row past the table changes nothing |
| Scheduler.NewRowStores | ESP32 - IR remote/server_schedule.c:301-316 | a new row, n and a space before the text of the row, goes to the lowest free row with its times and weekdays and is answered with success; with no free row nothing changes and the answer says full |
| Scheduler.NewRowAnswered | ESP32 - IR remote/server_schedule.c:301-316 | any new-row request, well formed or not: what it leaves in the lowest free row, and its answer |
| Scheduler.UpdateAnswered | ESP32 - IR remote/server_schedule.c:317-325 | any update of a numbered row: what it leaves there and its answer; a row past the table is accepted and ignored |
| Scheduler.RowNamed | ESP32 - IR remote/server_schedule.c:140-155 | a request that starts with the decimal numeral of a number below 100 names that row |
| Scheduler.ToggleFlips | ESP32 - IR remote/server_schedule.c:334-346 | the on-flag of every row after a toggle: flipped iff the row is the named one and in use; no other field changes, and toggling twice gives the table back |
| Scheduler.NamedRequests | ESP32 - IR remote/server_schedule.c:334-370 | toggle and delete requests that start with the numeral n act on row n, and their answers |
| Scheduler.MalformedAnswered | ESP32 - IR remote/server_schedule.c:295-370 | a request that starts neither with a digit nor as a new row changes nothing and is answered with wrong format, whatever it asks for |
| Scheduler.UpdatePacks | ESP32 - IR remote/server_schedule.c:299-325 | an update keeps the used rows a prefix iff it is not a well-formed command for a row beyond the first free one |
| Scheduler.GapReached | ESP32 - IR remote/server_schedule.c:317-325 | saving row 3 to a table of two rows leaves a gap, and deleting row 0 of the result triples its last row |
| Scheduler.OffKept | ESP32 - IR remote/server_schedule.c:295-370 | which requests leave the off-time of a row as it is, told from table and request: a toggle always; an update unless it writes another off-time to that row; a deletion if the row lies before the deleted one or no used row follows that, and otherwise only if the row that moves in shares the off-time |
| Scheduler.DeleteMovesEnd | ESP32 - IR remote/server_schedule.c:354-367 | with row 1 of three running, deleting row 0 puts row 2 in its place, so that the entry ends at the off-time of row 2 |
| Scheduler.RunsAsLongAsPlanned | ESP32 - IR remote/server_schedule.c:77-113 | woken in the minute its timer was set for, the on-step sees its entry's on-time and stored off-day, and a positive off-delay equal to the running time iff (equal hours imply a later off minute) |
| Scheduler.WokenAtEvent | ESP32 - IR remote/server_schedule.c:125-137 | woken in the minute an event's timer was set for, the clock shows the event's day and time |
| Scheduler.AcScheduler.ConfigWakeup | ESP32 - IR remote/server_schedule.c:125-137 | a positive delay goes to the timer and fixes the wake-up state; in terms of table and clock: with nothing running, the state is switch-on iff something is planned and nothing planned falls in the clock's own day and minute; with an entry running, it is switch-off iff its end is not in that minute; otherwise idle, the timer as it was |
| Scheduler.AcScheduler.OnStep | ESP32 - IR remote/server_schedule.c:259-277 | the appliance ends up on and the entry active; woken in its minute, the timer is set to the entry's running time less the seconds and to switching off, iff (equal hours imply a later off minute); with equal times no timer is set and the state is idle |
| Scheduler.AcScheduler.OffStep | ESP32 - IR remote/server_schedule.c:279-293 | the appliance ends up off, at the entry's off-day and off-time when woken in its minute; the entry is over and the timer set anew iff the appliance was on, otherwise nothing changes |
| Scheduler.SwitchedOffByHand | ESP32 - IR remote/server_schedule.c:279-293 | an entry with different times that starts on time and is then switched off by a POWER command stays active and in its off-state through its off-step |
| Scheduler.AcScheduler.Update | ESP32 - IR remote/server_schedule.c:295-325 | the table updated in place and the answer are those `Scheduler.SaveStores`, `NewRowStores`, `NewRowAnswered` and `UpdateAnswered` describe: the named or the lowest free row is written, rows past the table are ignored |
| Scheduler.AcScheduler.Toggle | ESP32 - IR remote/server_schedule.c:334-346 | the row updated in place and the answer are those `Scheduler.ToggleFlips` describes |
| Scheduler.AcScheduler.DeleteRow | ESP32 - IR remote/server_schedule.c:354-370 | deletes the named row in place, or reports a wrong format |
| Scheduler.AcScheduler.Round | ESP32 - IR remote/server_schedule.c:247-382 | one round changes the table and answers as the request does on its own, and keeps the invariants for every wake-up, command and clock: times in range, toggle bit clear, tracked state equal to the parity of all frames sent, an active or pending entry inside the table; only timer rounds transmit, exactly as the power theorem assumes; an on-round starts its entry and an off-round ends it as the steps say, an idle one changes nothing, and every request recomputes timer and state, and leaves the end of a running entry as it was iff the request keeps that row's off-time |

## Left out

- The driver callbacks that fill the receive buffer, and the printing of intermediate data in the decoder, are not modelled.
- Commands.RoundTrip: row numbers of three or more digits, of which the server reads only two; the server's table has four rows.
- Scheduler.AcScheduler.Toggle: requires the row to be inside the table, because the code indexes without a bound check; likewise `Scheduler.AcScheduler.DeleteRow`.
- Remote.DeltaReads: bytes behind the 16-byte command buffer count as non-digits; reading past the buffer is not modelled.
- Scheduler.AcScheduler.Update: a request of the full 24 bytes, whose terminator the handler writes one byte behind the buffer, is not modelled; the buffer holds 24 characters here.
- WeekTime.CalcDelay: the clock is read once a call; the second reading for the seconds inside the C function, and a clock that moves between readings, are not modelled.
- Board.ResetBoots: reset is held over at least one clock edge, so the synchronous clearing of PC and the asynchronous clearing of the state machines are one step.
- Lockstep.RunsInLockstep: models the assignments of the second controller; its port list does not match them. It is stated on values, because both controllers drive the same data path.
- The twelve controller codes no transition names are one `Spare` state, shown unreachable; for the second controller they have no common name.
- VHDL metavalues, delta delays and settling times, and the unconnected monitor port `Dadr`/`D` (its copy of the register file is modelled with read address 0).
- The number of the program's words comes from `sram_data`; any program of at most 1024 words is a parameter here.
- Wi-Fi, sockets, HTTP and TLS, the file system, clock synchronisation and JSON: library plumbing. Requests reach the model as command buffers.
- FreeRTOS: every request handler and every scheduler round is atomic; the request semaphore, which some early returns of the schedule handler never release, timer ticks and the notification queue are not modelled.
- Transmitting always succeeds, as the transmit function returns success or aborts.
- The app's list of schedules, its screens and its requests, beyond the command text and the day selection; the web pages.
- The Xilinx reference software, the older or duplicate VHDL files (`DataPath_drc`, `IR_env`, the read and write state machines, `BROJA`), block designs and test benches: vendor code, or nothing new to prove.
