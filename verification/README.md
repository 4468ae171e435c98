# ELISA: the machine, its assembler and a program, proved

ELISA is a 32-bit computer emulated in Python: a processor of 71 opcodes whose register file can fire
interrupts, memory behind an LRU cache, an interrupt controller with its own thread, and a one-pass
assembler. This project models those parts in Dafny and proves what they keep over every run, down to one
guest program followed from its listing through the assembler and the processor to the text it leaves in RAM.

Two forms stand side by side. The emulator's objects are classes with mutable fields (`Processor.Cpu`,
`Storage.Mmu`, `Storage.Memory`, `Assembler.OnePass`, `Interrupts.InterruptController`), and every method is
proved against a function on values. `Machine.State` is the machine as one value: registers, the
pending-interrupt flag, RAM, the trap vectors, the bytes sent to devices, and a control field that says whether
the processor runs, has a privilege exception in flight, halted, hit a Python error, or left the model.
`Instructions.Step` is one fetch-decode-execute step on it and `Instructions.Run` any sequence of steps and
asynchronous interrupt requests; the theorems about runs are about those.

| files | what they hold |
|---|---|
| `Common`, `Words`, `Status`, `Division` | Python's bitwise operators on unbounded integers; the STATUS word as a stack; the shift-subtract division |
| `Machine`, `Instructions` | the machine as a value, its primitives, the opcode table, the step |
| `Meanings`, `Calculations`, `Transfers`, `Jumps`, `Privileges` | what each of the 71 opcodes makes of the machine in one step, from its four words in memory, stated register by register and byte by byte |
| `Invariants`, `Fetch`, `Runs`, `Widths` | what every instruction may change; what a fetch yields; what every run keeps; how wide registers get |
| `Protection`, `Vectors`, `Cases` | user mode, trap brackets, precise faults; installed trap vectors; four small programs |
| `Memory`, `Quiet`, `Cpu` | the mutable machine with its cache, proved equal to the uncached one over runs |
| `Assembler`, `Grammar`, `Directives`, `Linkage` | one pass with backpatching against two passes; the two instruction tables; what alignment, zeros and data put into the image; what is emitted is what is fetched |
| `Decimal`, `Guest`, `Refinement`, `Itoa`, `Calling` | the guest routine `itoa`, from its listing to its return |
| `Interrupts`, `Locks`, `Delivery`, `Handlers`, `Registration` | the interrupt controller; the processor's and the worker's threads with the locks, the mask and the interrupt bit; when `wait` returns, when an access gets through and what a delivery amounts to, under every interleaving; a delivery followed to its handler; the stores of a guest that registers one |
| `Lanes`, `Pages` | byte lanes of device registers; page table entries and the walk |

## Findings

The proofs follow the code where it and its documentation or its evident intent part. Each point but the last is a
theorem below. "The manual" is the emulator's own README.md.

* `div` and `mod` are exact for divisors up to 2^31, for 2^31+1 with a dividend of 2^31 or more, and in no other call.
* The double fault handler of the manual (README.md:57 and 66 there) is never entered: a second trap counts to three and halts.
* `rfe` resumes the interrupted code exactly when no interrupt waits or the restored state has them off; otherwise it
  takes the interrupt and then continues behind itself instead of at the vector.
* `rfe` is not privileged: a run without traps keeps user mode exactly when every `rfe` in it finds the saved user bit set.
* `swap` stores the second operand's register number, not its contents (the manual's line 42 says otherwise): it exchanges two
  registers only when the second happens to hold its own number. It is also the one instruction whose privilege fault
  is not precise: its first operand may already be written.
* `sub` never reports a borrow: on 32-bit operands it leaves `$carry` 0.
* A branch that compares with a word and jumps through a register is refused as illegal when the word is 0x28 or 0x29,
  because the table calls the word a register (compyter/cpu.py:459-464).
* A device read may be answered from the cache: a device that changed is not noticed while its byte is cached under
  the same arguments.
* A word stored into a device register keeps its low 16 bits only, so handlers at or above 2^16 are registered wrongly.
* `wait` returns only if the event is on its way, or interrupts are on and a registered interrupt is past the mask or
  has a lifted mask before it; otherwise it hangs, since it holds `cpu_lock` and only the guest can lift the mask or
  turn interrupts on. A trap of the processor's own can rob it of the signal, too.
* An access to the interrupt controller can meet the worker's trap entry with each thread holding the lock the other
  wants, exactly if the worker is heading for a trap when the access is made: past the point where it reads interrupts
  on, or with interrupts on and a registered number past the mask or next to a lifted one. Once it has read them on, the
  access never gets through; with interrupts off and no trap entry under way it always does.
* That meeting, a robbed `wait` and a `wait` behind a mask that is up are the only ways both threads stop.
* A word store that lifts the interrupt mask lifts it four times, and a second interrupt may pass during the store,
  exactly if interrupts are off or the first is not registered; with both registered one pending flag then stands for
  two deliveries, and the first handler is not entered.
* A register a program can name outgrows 32 bits only by executing an instruction at 0xfffffff0, behind which PC is 2^32.
* The trap vectors are at 0xfffff000 in steps of 16 (compyter/cpu.py:14-19), not where lines 59-66 of the manual put
  them; this is a matter of constants and has no theorem.

The three-deep STATUS bits are proved as a law of the bit operations: they lose the interrupted level exactly when
entries nest deeper than two. No live machine gets there, since it halts at the second trap (`Runs.TrapOnce`).

## Model

| member | source | states |
|---|---|---|
| Calling.AssembledItoa | examples/rtc.txt:207-340 | for every program containing the listing of `itoa`, assembled and loaded at 0, whatever has become of the rest of the image since, and every 32-bit number in `$0`: some number of instructions, whatever devices answer and, with interrupts off, request meanwhile, ends at the return address with `$0`-`$31` and `$sp` as they were, the NUL-terminated signed decimal text at the address in `$1`, all other RAM, the trap vectors and the privileged registers untouched, and the listing still in place for the next call |
| Calling.ItoaReturns | examples/rtc.txt:211-340 | the same for any RAM holding the routine's words, and that PC stays within the routine until the return and is at its last line only before the last instruction |
| Calling.CallItoa | compyter/machine.py:26-28 | the cached processor, run until the routine's last instruction has been executed, terminates in that final state |
| Calling.ListingLoaded | assemble.py:13-54 | RAM that still has the image's bytes of the listing holds the 67 instructions of the routine at the offset of its label, with every jump target resolved |
| Calling.ListingAssembles | assemble.py:67-71 | the listing by itself is accepted by the assembler: encodable, no label twice, every reference resolved |
| Calling.LabelPlaced | assemble.py:31-39 | in a program without duplicate labels a label stands for the offset of what follows it |
| Itoa.Routine | examples/rtc.txt:211-340 | from every bank of 32-bit registers the routine's own view runs safely to its last line with all registers restored and the text in place |
| Itoa.DigitLoop | examples/rtc.txt:267-278 | the divide and modulo loop terminates and leaves the decimal digits, last one first, at the current place |
| Itoa.ReverseLoop | examples/rtc.txt:298-319 | the in-place reversal terminates and leaves exactly the cells between the two ends reversed |
| Itoa.SignCase | examples/rtc.txt:243-265 | a non-zero number reaches the loop as its magnitude with the sign flag set exactly when negative, the most negative number included |
| Itoa.PushAll | examples/rtc.txt:213-227 | the stack frame receives `$0`-`$6` in order |
| Itoa.PopAll | examples/rtc.txt:321-337 | and gives them back in reverse order |
| Refinement.LineStep | compyter/cpu.py:487-544 | one machine step at a line of the routine, from its bytes in RAM, is the line's effect on the registers and RAM it can see, and touches nothing else |
| Refinement.RunFollows | compyter/cpu.py:487-544 | any number of machine steps, with any requests while interrupts are off, follows the routine's own view; RAM outside frame and destination, the code included, stays as it was |
| Decimal.DigitsDenote | examples/rtc.txt:207-210 | the text denotes the number: digits only, no leading zero, value equal |
| Decimal.SignedReversed | examples/rtc.txt:280-319 | the backwards digits followed by the sign are the signed text reversed |
| Division.Correct | compyter/cpu.py:202-223 | for every 32-bit dividend and non-zero divisor, quotient times divisor plus remainder is the dividend modulo 2^32; up to divisor 2^31 it is the exact quotient and remainder |
| Division.ExactDivisors | compyter/cpu.py:202-223 | the divisors for which every dividend divides exactly are precisely 1 to 2^31 |
| Division.ExactCalls | compyter/cpu.py:202-223 | a call is exact if and only if its divisor is at most 2^31, or it is 2^31+1 and the dividend at least 2^31 |
| Division.WrongAbove | compyter/cpu.py:202-223 | every other call comes out wrong |
| Division.Divide | compyter/cpu.py:202-223 | the 32-turn loop on mutable quotient and remainder computes the function the other rows are about |
| Status.StatusStack | compyter/register.py:96-166 | for every balanced sequence of trap entries and returns the interrupted level comes back exactly when nesting never exceeds two or the level was all off |
| Status.PlayLevels | compyter/register.py:96-166 | within depth two the bits are the top of an unbounded stack of (interrupt, user) pairs, beyond it that level is off for good, and no other STATUS bit ever moves |
| Status.StackRefined | compyter/register.py:96-166 | with writes of the current level in between as well: while nesting stays within two, the six bits are a real stack of (interrupt, user) pairs, every level of it, and no other STATUS bit moves |
| Status.PushIsShift | compyter/cpu.py:43-49 | the six property assignments of trap entry, in order, are a shift by two of the low four bits |
| Status.PopIsShift | compyter/cpu.py:331-335 | the four property assignments of `rfe` are the shift back that leaves the old bits |
| Status.PushSaves | compyter/cpu.py:43-49 | trap entry masks interrupts, enters kernel mode and saves the two levels below |
| Status.PopRestores | compyter/cpu.py:331-335 | return restores the two levels above the oldest |
| Words.OrWord | compyter/cpu.py:258-262 | four byte loads or-ed together make the big-endian word |
| Meanings.RamAt | compyter/cpu.py:491-515 | with the MMU off an instruction whose sixteen bytes stand in RAM at PC is the one fetched; the rows on single opcodes below are about the fetched words |
| Calculations.AddStep | compyter/cpu.py:176-183 | one step at `add` or `addi` (0x0f, 0x14): the third register gets the sum modulo 2^32, `$carry` 1 exactly when the sum exceeds 32 bits, PC is past the instruction, and nothing else changes |
| Calculations.SubStep | compyter/cpu.py:185-190 | `sub`, `subi` (0x10, 0x15): the difference modulo 2^32, and carry 0 on 32-bit operands |
| Calculations.MulStep | compyter/cpu.py:192-199 | `mul`, `muli` (0x11, 0x16): the product modulo 2^32, and the carry |
| Calculations.DivStep | compyter/cpu.py:225-251 | `div`, `divi`, `mod`, `modi` (0x12, 0x13, 0x17, 0x18): a zero divisor takes the trap at 0xfffff020 with nothing written; up to divisor 2^31 the exact quotient or remainder, and carry 0 |
| Calculations.BitsStep | compyter/cpu.py:357-388 | `and`, `or`, `xor` and their immediate forms: the result bit by bit; `shl` and `shr`: times and by a power of two, the former modulo 2^32 |
| Calculations.CopySteps | compyter/cpu.py:354-376 | `copy`; and `not`, the complement within 32 bits |
| Calculations.SwapStep | compyter/cpu.py:349-352 | `swap` as a step: the second register's number and the first's contents |
| Calculations.ImmediateSteps | compyter/cpu.py:267-299 | `loadwi`, `loadbi`: the word, or its low byte |
| Calculations.CpuIdStep | compyter/cpu.py:390-391 | `cpuid` leaves 6 in `$res` |
| Calculations.PlainSteps | compyter/cpu.py:346-347 | `nop`, and `wait` as far as the machine alone is concerned, change nothing but PC |
| Transfers.LoadWordStep | compyter/cpu.py:253-265 | one step at `loadw` or `loadwr` (0x02, 0x06): the register gets the big-endian word of the four bytes at the address, vectors and devices included; past the top of the address space the illegal-instruction trap |
| Transfers.LoadByteStep | compyter/cpu.py:292-300 | `loadb`, `loadbr` (0x04, 0x08): the one byte |
| Transfers.StoreStep | compyter/cpu.py:270-313 | the eight stores: the bytes of the value stand at the address in RAM and vectors, those for devices are sent in order, every other byte and every register is as it was |
| Transfers.StoreThenLoad | compyter/cpu.py:253-280 | a stored word is what a load from there gives back |
| Transfers.StrapStep | compyter/cpu.py:393-403 | one step at `strapr` or `strapi` (0x45, 0x46) with k below 256: slot k holds `jmp` to the address, the other vector bytes, RAM and every register are as they were; with k of 256 or more it halts |
| Transfers.StrapTaken | compyter/cpu.py:393-403 | and from then on, while the slot stands, a trap to it and one step reach the address |
| Jumps.BranchStep | compyter/cpu.py:64-174 | the 24 conditional branches: PC becomes the target exactly if the condition holds, else passes on, and nothing else changes; less-than is the order of the 32-bit words moved by 2^31 |
| Jumps.JumpStep | compyter/cpu.py:73-82 | `jmp`, `jmpr` |
| Jumps.HaltStep | compyter/cpu.py:318-321 | `halt` ends the run where it is |
| Jumps.InterruptStep | compyter/cpu.py:323-328 | `intr` takes the trap at 0xfffff000 with interrupts on and leaves the pending flag with them off |
| Jumps.ReturnStep | compyter/cpu.py:330-344 | `rfe` as a step, with and without a waiting interrupt |
| Jumps.IllegalStep | compyter/cpu.py:511-531 | an opcode past the table, or a register operand that names the fault counter or the reserved register, takes the trap at 0xfffff010 and does nothing else |
| Privileges.KernelOnly | compyter/register.py:194-204 | in user mode every instruction that touches no memory and names a kernel register, as source or target, raises before it is done, and at fault count 0 is the illegal-instruction trap alone |
| Privileges.StatusStep | compyter/register.py:200-210 | `loadwi` or `copy` into STATUS in kernel mode: the value is there, and if it lets a waiting interrupt in, that is taken at once with the new value saved |
| Invariants.SetPlain | compyter/register.py:200-210 | when pending and enabled do not coexist, a register write other than to STATUS fires nothing |
| Invariants.ExecuteEffect | compyter/cpu.py:81-403 | every instruction but `rfe`, with any operands: either nothing follows, or the invariants hold and it changes only its destinations (and in user mode no privileged register), or it entered one trap |
| Fetch.LoadWordPlain | compyter/cpu.py:253-262 | a word load stores the four bytes' word in its register and changes nothing else, or ends the run when a byte is not mapped |
| Fetch.StepDecoded | compyter/cpu.py:487-531 | a step is the execution of the four words at PC, or ends the run when they cannot be fetched |
| Runs.RunReady | compyter/cpu.py:39-79 | along every run and interleaving of interrupt requests: pending and enabled never coexist, the fault counter is 0 or 1, no nameable register is negative |
| Runs.BootRuns | compyter/machine.py:26-28 | so from power-on with any memory image |
| Widths.RunNarrow | compyter/cpu.py:176-403 | along every run that executes no instruction at 0xfffffff0, every register a program can name stays a 32-bit word |
| Widths.LastWidens | compyter/cpu.py:491-509 | an instruction there, `copy $0 $pc`, leaves 2^32 in `$0` |
| Runs.TrapOnce | compyter/cpu.py:39-62 | a trap at fault count 0 enters the vector with the return address saved, interrupts off and kernel mode; any trap at count 1 halts with count 3 and enters nothing |
| Runs.RequestEnds | compyter/cpu.py:323-328 | an interrupt request ends the machine exactly when it comes with interrupts on at fault count 1 |
| Runs.RfeExact | compyter/cpu.py:330-344 | what `rfe` does in every reachable state, with and without a waiting interrupt |
| Runs.StepEffect | compyter/cpu.py:487-544 | a whole step, faults and recovery included, has the effect its instruction is allowed |
| Runs.EndedStays | compyter/cpu.py:318-321 | nothing follows a halt |
| Protection.Confined | compyter/register.py:194-204 | over every run in user mode without `rfe`, until a trap is entered: still user mode, and STATUS, VADDR and BPTR as they were |
| Protection.LeavesByTrap | compyter/cpu.py:47-49 | each event in user mode other than `rfe` leaves it only by a trap entry, into kernel mode with interrupts off |
| Protection.RfeMode | compyter/cpu.py:330-344 | `rfe` with nothing waiting goes where RET says, in the mode the saved bit says, from user mode too |
| Protection.UserKept | compyter/cpu.py:330-344 | a run without traps from user mode stays in it if and only if every `rfe` executed finds the saved user bit set, and then VADDR and BPTR stand |
| Protection.HandlerKeeps | compyter/cpu.py:39-62 | a handler that neither traps, runs `rfe` nor names STATUS or RET keeps them and the fault count, through any interrupt requests |
| Protection.TrapBracket | compyter/cpu.py:330-344 | a trap, any such handler and its `rfe` restore PC, both levels of interrupt and user bits, the rest of STATUS and fault count 0, exactly unless an interrupt waits and the restored bit is on |
| Protection.ExecutePrecise | compyter/cpu.py:540-544 | an instruction that raises a privilege exception has by then changed nothing but the reserved register |
| Protection.FaultStep | compyter/cpu.py:533-544 | from fault count 0 in user mode such a step is a trap entry and nothing else: RET is the instruction's own address |
| Protection.FaultStepExact | compyter/cpu.py:349-352 | and is exactly that unless it is a `swap` that visibly overwrote its first register |
| Protection.SwapContents | compyter/cpu.py:349-352 | `swap` leaves the second register's number in the first and the first's contents in the second; that exchanges them if and only if the second held its own number |
| Protection.SwapImprecise | compyter/cpu.py:349-352 | a `swap` with a privileged second operand raises after the register number is written |
| Cases.StatusReadFaults | compyter/register.py:194-204 | for instance a user program that reads STATUS traps as illegal and changes nothing else |
| Cases.SlotReturns | compyter/cpu.py:330-344 | and a vector that holds `rfe` gives every first-level program back in one step, as if nothing had happened |
| Cases.RequestMissesReturn | compyter/cpu.py:330-344 | the same vector with one request during the handler: the interrupted program, which had interrupts on, is not resumed; execution goes on behind the `rfe` one level deep |
| Cases.RfeLeavesUser | compyter/cpu.py:330-344 | `rfe` in user mode with the saved user bit clear and nothing pending goes on in kernel mode at the address in RET, with no trap entered |
| Vectors.Installed | compyter/cpu.py:393-403 | `strapr` with k below 256 writes the jump into slot k and touches nothing else; with k of 256 or more it halts |
| Vectors.VectorTaken | compyter/cpu.py:393-403 | after it a trap to slot k and one step reach the address given, and the other 255 slots are as they were |
| Vectors.WithJumpAt | compyter/memory.py:53-56 | the written slot reads back as the jump, every other slot unchanged |
| Processor.Cpu.RunAll | compyter/mmu.py:196-253 | every run through the LRU cache, self-modifying code included, is a run of the uncached machine: for some device answers always, for the devices' own when they are steady, and for any answers when no device is read |
| Processor.Cpu.DecodeNextInstr | compyter/cpu.py:487-544 | one cached step is one uncached step |
| Processor.Cpu.SetItem | compyter/register.py:200-210 | the register write with its privilege check and interrupt; with `intr`, `trap` and `jmp` it terminates, and no write made by a trap entry fires another interrupt |
| Processor.Cpu.EnterTrap | compyter/cpu.py:39-62 | trap entry, recursing at most once into itself, where it halts |
| Processor.Cpu.ReturnFromException | compyter/cpu.py:330-344 | `rfe` step by step |
| Processor.Cpu.InstallTrap | compyter/cpu.py:393-399 | four word stores into the vector page, each followed by a flush |
| Processor.Cpu.SaveWord | compyter/cpu.py:270-280 | four byte stores and then a flush, so the cache never holds a stale byte of memory |
| Quiet.QuietRunSame | compyter/memory.py:35-43 | a run that reads no device is the same whatever devices would answer |
| Machine.DevicesAnswer | compyter/memory.py:22-24 | the addresses devices answer are exactly the register ranges of the seven attached ones |
| Storage.Mmu.GetAddress | compyter/mmu.py:196-213 | a cached read returns the byte in memory whatever was cached or is evicted; it never holds more than 128 entries, and with the MMU on it answers exactly what it holds |
| Storage.StaleRead | compyter/mmu.py:196-213 | two reads of a device between which it changes both return the first answer |
| Storage.Memory.Set | compyter/memory.py:45-63 | a store reaches exactly one of vectors, devices and RAM |
| Assembler.Assemble | assemble.py:67-71 | for every statement list: the one pass fails exactly when the two-pass assembler does, and otherwise the images are equal |
| Assembler.OnePass.DoParse | assemble.py:13-54 | after any prefix the output is the prefix encoded under the labels so far, and the pending lists hold exactly the unresolved references |
| Assembler.ImagePatched | assemble.py:37-39 | patching the pending places of a label is encoding everything so far with that label known |
| Assembler.AcceptedMeans | assemble.py:31-54 | the pass gets through exactly the programs with encodable statements, distinct labels and addresses below 2^32 |
| Directives.AlignPlaced | assemble.py:16-18 | in every program that assembles `!align` is at least one zero and at most a unit of them, and what follows is at a multiple of the unit |
| Directives.AlignedAgain | assemble.py:17-18 | at an offset already aligned it is a whole unit |
| Directives.LabelAligned | assemble.py:31-35 | a label behind it is at that multiple |
| Directives.ZeroPlaced | assemble.py:19-20 | `!zero` is exactly as many zeros as asked for |
| Directives.DataPlaced | assemble.py:21-28 | the items of `!data` stand one after another and nothing else, each word most significant byte first, each text as it is |
| Linkage.MidRun | assemble.py:43-52 | mid-run the output differs from the final image only where a reference to a label still undefined stands, and there it is zero |
| Linkage.FetchAssembled | assemble.py:40-54 | for every program that assembles, loaded at 0, the processor at an instruction's offset, whose own bytes still stand, fetches its opcode, resolved operands and zeros |
| Linkage.ArgumentsAssembled | compyter/cpu.py:517-531 | the argument list the processor builds is the operand list the grammar parsed, in number and value |
| Grammar.TablesAgree | assembler/grammar.py:115-200 | for all 71 opcodes the two tables agree on number and kind of operands |
| Grammar.Forms | assembler/grammar.py:115-200 | the immediate and indirect forms are named after the plain ones, each at its distance in the table |
| Interrupts.InOrder | compyter/hardware/intc.py:51-77 | under every interleaving what was raised is what was finished, what is in hand and what waits, in that order |
| Interrupts.Conserved | compyter/hardware/intc.py:51-77 | raised = waiting + in hand + delivered + ignored + dropped |
| Interrupts.DeliveredInOrder | compyter/hardware/intc.py:51-77 | deliveries are a subsequence of what was raised |
| Interrupts.DeliveriesPaid | compyter/hardware/intc.py:51-64 | interrupts that pass the mask never outnumber the unmask writes, whatever else is written meanwhile |
| Interrupts.DeliveriesBounded | compyter/hardware/intc.py:51-64 | so deliveries never exceed the guest's unmask writes among the steps |
| Interrupts.MaskWritten | compyter/hardware/intc.py:98-99 | a zero written to any byte of the mask lifts it, anything else puts it up, and nothing else changes |
| Interrupts.BytesWritten | compyter/hardware/intc.py:100-103 | the bytes of number and vector are set in their own register alone, as the rows on `Lanes` say |
| Interrupts.AddWritten | compyter/hardware/intc.py:104-106 | any non-zero byte written to any of the four add registers puts the vector under the number, every other pair stands, and nothing else changes; a zero changes nothing |
| Interrupts.DeleteWritten | compyter/hardware/intc.py:107-109 | likewise the delete registers take out the number alone |
| Interrupts.GetWritten | compyter/hardware/intc.py:110-113 | the get registers change the vector register alone: the number's handler, or 0xffffffff |
| Interrupts.TriggerWritten | compyter/hardware/intc.py:114-118 | the trigger registers put the number behind what waits; outside the registers nothing is written |
| Interrupts.RegistersRead | compyter/hardware/intc.py:79-94 | what every register reads as in every reachable state |
| Interrupts.HandlerRegistered | compyter/hardware/intc.py:100-106 | number and address stored as words and any non-zero byte to any add register: their low halves are registered, the handler meant exactly when both are below 2^16, and nothing else changes |
| Registration.SetupRuns | examples/echo.txt:23-26 | the four stores the programs open with, from their bytes in RAM: the processor is past them with nothing else changed, and a controller in any reachable state that receives the bytes sent has the handler under the number, both cut to 16 bits, and its mask lifted |
| Interrupts.HandlerRead | compyter/hardware/intc.py:110-113 | any get register leaves the handler of the number asked for, or the sentinel, readable byte by byte |
| Interrupts.HandlerRemoved | compyter/hardware/intc.py:107-109 | a removed number is ignored from then on, and only that one |
| Interrupts.HandlerEntered | compyter/hardware/intc.py:86-92 | on delivery the sixteen bytes the vector jumps to are `jmp` to the handler registered for that interrupt |
| Interrupts.InterruptController.Play | compyter/hardware/intc.py:51-118 | the controller object under any schedule of guest, devices and worker goes where the steps go |
| Interrupts.InterruptController.SetItem | compyter/hardware/intc.py:96-118 | a guest byte write |
| Interrupts.InterruptController.GetItem | compyter/hardware/intc.py:79-94 | a guest byte read |
| Interrupts.InterruptController.InterruptNoWait | compyter/hardware/intc.py:69-77 | delivers exactly the registered numbers |
| Locks.StuckExactly | compyter/cpu.py:39-62 | in every reachable state of the two threads neither can move, whatever devices raise, if and only if the worker has signalled and waits for `cpu_lock` while the processor, holding it, is at a controller register or in a `wait` whose signal its own trap cleared; or the processor is in `wait` and the worker at a mask that is up |
| Locks.WaitIsSafe | compyter/cpu.py:346-347 | when only the worker enters traps, a `wait` it has signalled can always wake, and neither thread can move exactly when the worker is at a mask that is up |
| Locks.EventStands | compyter/cpu.py:40-42 | while the worker waits for the lock its event stands unless the processor's own trap cleared it |
| Locks.Exclusive | compyter/cpu.py:487-489 | an instruction and a trap entry of the worker never overlap, and the event stands only for a trap under way |
| Locks.WaitCanStick | compyter/cpu.py:39-62 | a run from power-on in which the processor's own trap robs `wait` of its signal |
| Locks.AccessCanStick | compyter/hardware/intc.py:69-77 | a run from power-on in which each thread holds the lock the other needs |
| Locks.MaskCanStick | compyter/hardware/intc.py:51-64 | a run from power-on in which `wait` hangs because the mask was never lifted |
| Delivery.ControllerRuns | compyter/hardware/intc.py:51-118 | the controller within the two threads makes a run of its own, so the rows on `Interrupts` hold under the locks |
| Delivery.WaitExactly | compyter/cpu.py:346-347 | from a consistent state in `wait` there is a continuation that sets the event if and only if it is set or about to be, or interrupts are on and a registered number is past the mask or next to a lifted one |
| Delivery.WaitReturns | compyter/cpu.py:346-347 | then, while devices raise registered numbers, at most nine steps of the worker set it |
| Delivery.WaitNever | compyter/cpu.py:346-347 | otherwise no continuation of any length does, and the processor stays in `wait` |
| Delivery.AccessExactly | compyter/hardware/intc.py:69-77 | from a consistent state with an access to the controller under way, a continuation without its completion in which neither thread can move exists if and only if the worker is heading for a trap |
| Delivery.AccessPasses | compyter/hardware/intc.py:79-118 | the access can get through if and only if the worker has not yet read interrupts on, and then in at most two worker steps |
| Delivery.AccessDoomed | compyter/hardware/intc.py:69-77 | once it has, the access stays where it is in every continuation |
| Delivery.AccessWithInterruptsOff | compyter/hardware/intc.py:79-118 | with interrupts off and no trap entry under way, wherever the access is held neither thread is stuck and it gets through after at most two worker steps |
| Delivery.WordUnmaskPassesTwo | compyter/hardware/intc.py:98-99 | with two numbers queued, a second one can pass the mask during one store of zeros to it if and only if interrupts are off or the first is not registered |
| Delivery.StoreBlocks | compyter/hardware/intc.py:69-77 | otherwise the worker ends up waiting for the storing processor, and at most one number is finished |
| Delivery.FirstHandlerLost | compyter/hardware/intc.py:69-77 | in every run of one store that lets exactly two registered numbers through with interrupts off: one flag is pending, the second handler is named, and until the next delivery there is at most one entry |
| Delivery.TwoDelivered | compyter/hardware/intc.py:98-99 | there is such a run |
| Delivery.OneEntry | compyter/cpu.py:323-328 | one pending flag gives at most one entry, and the controller goes on naming the same handler until the next delivery |
| Handlers.DeliveredToHandler | compyter/hardware/intc.py:69-94 | a delivery to a processor with interrupts on, fault count 0 and the first vector jumping to the controller: two instructions later PC is the handler registered for that number, in kernel mode with interrupts off and the interrupted address in RET |
| Lanes.StoredHalf | compyter/util.py:4-13 | a word stored byte by byte leaves exactly its low 16 bits, whatever the register held |
| Lanes.WordRoundTrips | compyter/util.py:4-13 | so it round-trips exactly when below 2^16 |
| Lanes.WordLanes | compyter/util.py:4-16 | one byte written is or-ed into its lane, clears the mirrored lane and keeps the others |
| Lanes.WordLawsExactly | compyter/util.py:4-16 | the lane is set and the others kept exactly when its old bits are among the new ones and the mirrored lane was clear |
| Lanes.DoubleLanes | compyter/util.py:18-34 | a 64-bit lane set reads back, and every other lane is kept |
| Lanes.DoubleRoundTrips | compyter/util.py:18-31 | every 64-bit value stored byte by byte is left as stored |
| Pages.ParsePrint | compyter/mmu.py:80-128 | parsing a printed entry gives it back exactly when its fields are in range and its reserved bits zero |
| Pages.PrintParse | compyter/mmu.py:80-128 | printing a parsed word clears its low three bits and nothing else |
| Pages.Indices | compyter/mmu.py:143-145 | the two walk indices are the halves of the page number, and their slots lie in 4096-byte tables |
| Pages.WalkMeans | compyter/mmu.py:138-159 | the walk by division alone: an entry of the first table for every 4 MB, which is the answer for all of them if it is `phys`, else a second table with one for every 4 KB; bases above 0xffffefff are refused |
| Pages.MappedLarge | compyter/mmu.py:147-151 | a large page written into the first table is found by exactly the addresses of its 4 MB, with that size, and walks elsewhere are as before |
| Pages.MappedPage | compyter/mmu.py:138-159 | an entry printed into a second-level slot is found by exactly the addresses of its page, and every other walk through the table is unaffected |
| Pages.Tables.Remap | compyter/mmu.py:138-159 | the same through the cache in front of the walk, whatever it holds, when the store is followed by a flush |
| Pages.Tables.StaleWalk | compyter/mmu.py:138-159 | without the flush a walk remembered is answered as before |
| Pages.Tables.GetPte | compyter/mmu.py:138-159 | a walk is answered from the cache or made, and one that raises is not remembered |

## Left out

- Execution with the MMU on: a read that misses the cache then applies `&` to a page table entry, which has no such operator (compyter/mmu.py:202, 237), and fails; the model stops at the first read or write with the MMU on, with the control `Unmodelled`. The page fault and base pointer traps, raised only there, are left out with it, and so are `get_page`, `write_page` and `pte_writeback`.
- Processor.Cpu.RunAll: equality with the uncached machine is claimed while the MMU is off; with it on the source goes on as long as its reads hit the cache, which the model does not follow.
- Processor.Cpu.DecodeNextInstr: stops when the MMU is on, where the source would first ask the cache.
- A fetch that runs past the top of the address space: the source traps in the middle of decoding and goes on with a stale word (compyter/cpu.py:254-257, 491-509); the model stops there with the control `Unmodelled`.
- Python errors (addresses with nothing behind them, register operands of 0x2a and above, negative shift counts) end a run with the control `Crashed`; what the interpreter does then is not modelled.
- Devices: a device read is an arbitrary byte that may depend on time and address, and a device write is appended to a log; except for the interrupt controller's registers no device behaviour is modelled. Memory and controller are not joined in one state.
- `intr` from the worker's thread is one step between instructions in `Instructions.Run`; that it reads the interrupt bit outside `cpu_lock` (compyter/cpu.py:323-328) is modelled in `Locks` only, where reading, noting and signalling are separate steps.
- `halt` is a terminal state: thread joins, console output and what `quit` does in a thread are left out.
- Runs.RunReady: a machine ended by a request from the worker's thread counts as ended; in the source the halt there fails to join its own thread and raises, and the instruction loop goes on at fault count 3. Runs.RequestEnds says exactly when that is.
- Locks.StuckExactly: the fault counter is not part of the two-thread state, so a trap that halts, and the end of a thread, are not among its steps.
- Queue operations, single register accesses and the worker's test of the mask are atomic steps; the exit flag of the worker's loop is left out.
- Interrupts.InterruptController.InterruptNoWait: the call of `intr` under the lock is a flag here; its steps, which can block, are those of `Locks`.
- STATUS as an enumeration flag: clearing a bit is subtraction of that bit; how Python's flag type complements values beyond its declared members is not modelled.
- `RegisterFile` is part of `Processor.Cpu`; its property getters and the reserved-register setter are field accesses.
- Float operands and data, UTF-8 encoding and the parsing of text: the model starts from a list of statements with integer and label operands.
- Pages.MappedPage: a store over the very first-level entry the walk goes through is not covered, since it changes which table is meant. It is about a walk that is made; Pages.Tables.Remap is about one through the cache.
- Interrupts.HandlerEntered: the controller's bytes are stated at the delivery itself; a later delivery replaces them.
- Calculations.DivStep, Jumps.BranchStep: the value is stated for operands that are 32-bit words, which Widths.RunNarrow says all are but behind an instruction at 0xfffffff0.
- Transfers.LoadWordStep, Transfers.StoreStep: word accesses of which a byte has nothing behind it end the run; for those Fetch.LoadWordPlain says what loads do.
- The trap constant with a digit missing (compyter/cpu.py:19) is kept, and harmless: nothing is entered there.
- `Memory.load_file`, slices of memory, the image writer, the keyboard, printer, clock, timer, storage and network devices, and old/assembler.py.
