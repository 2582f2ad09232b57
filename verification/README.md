# The BB6502 machine and its kernel, in Dafny

BB6502 is a 65C02 computer with a small memory management unit, a kernel that runs several programs by
cooperative scheduling, a boot ROM and a debugger. This project models its hardware registers, the kernel
and ROM code that drives them, the monitor's screen and the debugger's run control, and proves what a
program on the machine may rely on.

The central result is `Virtualisation.RunsAlone`. A context switch saves only the stack pointer and the
page table; everything else of a process lies on its own stack page, which can be reached only through the
table being swapped. The theorem says that, in every run of any length, with any interleaving by
`sys_yield` and any mix of system calls and answers, every process is at every moment exactly where it
would be had it run alone on a private memory. The repository does not isolate processes, so the theorem
takes each process's footprint (the virtual addresses it uses) and asks that the footprints' physical
images are disjoint and miss the kernel. `Rotation.DemoPlaced` shows that for the three demo programs, and
`Start.KernelMain` shows that the kernel's `main` reaches the state from which the theorem starts for the
demo programs that the disk holds, if it holds any and only then.

The devices are part of the same runs. `Devices.ReadDelivers` says that `sys_block_read`, in any run, puts
into the caller's virtual buffer the 512 bytes that any process last wrote at that LBA from its own virtual
buffer, or the initial image. `Devices.OutputRun` and `Devices.KeysRun` say that, from power-on, serial line
and screen show one sequence, what the processes printed in the order of the run, without an overrun, and
that the keys answered to all processes together are the keys typed, each once and in order.

What the kernel does at each step is proved of its code: `Service.ServeYield` and `Service.ServeCall` run
the code of the BRK sequence, `brk.s`, `yield.s`, `proc.c`, `syscalls.c`, `block.c` and the ROM's
`ret_user_mode` over one RAM array with the process table, the disk buffer, the kernel's zero page and its
stack inside it, and show that at every BRK of processes that keep to their footprints this code takes
exactly the steps that the run theorems speak of, whatever the call. The one call that asks for more is
`sys_getc`, which waits for a key; `Progress.RunExtends` and `Progress.GetcWaits` show that this, and
exiting, are all that can end a run.

## How the model is built

- `Bytes`: bytes, 16-bit words and their wrap-around. Addresses are naturals with division and remainder;
  `Bytes.ShiftAndMask` proves the shift-and-mask forms of the C and assembly code equal to these.
- `Mmu6502`, `Disk`, `Console`: the MMU, the disk controller and the serial and GPU ports. Each is a class
  whose methods are the clocked blocks, tied to a transition function on values; properties over whole bus
  histories are lemmas about that function.
- `System`: the machine as a value at user-mode points, and what one trip through the kernel may do.
  `Virtualisation`, `Devices`, `KernelMemory`, `Progress` and `Stubs` reason about runs of such steps; user
  instructions are an arbitrary deterministic function of registers and footprint.
- `Machine`: the CPU registers, the RAM array and the devices as one object. `Yield`, `Trap`, `Block`,
  `KernelIo`, `Syscalls`, `Loader`, `Start`, `Boot`: the kernel and ROM routines as methods over it, with the
  loops, flags and zero-page pointers of the original. `Transparency` draws what a system call leaves alone
  from their contracts, and `Service` ties them to the steps of runs.
- `Rotation`: the page table that `spawn_bbx` builds.
- `Screen`, `Debugger`, `MemView`: the monitor's text screen, the debugger's run-mode machine and its view
  of memory.

Specifications of kernel code are equations up to scratch memory (`System.SameOffScratch`): cells that
compiled C and the assembly routines use while they run and that nothing reads later. That nothing depends
on them is proved (`Trap.YieldSame`, `Syscalls.ServedSame`), not assumed.

A specification function and the method proved against it could be wrong together. Therefore each has laws
in other terms beside it: bytes of the image file (`Disk.SectorBytes`), bits of the flags
(`Bytes.FlagBits`), header bytes (`Start.FreshStart`, `Boot.OutcomeInBytes`), bytes of the caller's zero page
(`Devices.CallsInBytes`), lines of the sheet (`Screen.LineFeed`). Every lemma carries `{:induction false}`,
so each induction is the one written in its body.

## Model

| member | source | states |
|---|---|---|
| Bytes.ShiftAndMask | sw/kernel/src/syscalls.c:75-78 | joining a 5-bit page and a 10-bit offset by shifts and masks is page * 1024 + offset, and the page index is the address divided by 1024 modulo 32, on 16-bit vectors |
| Bytes.WrapIsMod | sw/kernel/src/brk.s:72-82 | the 8-bit and 16-bit wrap-around used throughout is the remainder modulo 256 and 65536 |
| Bytes.ByteOfBits | rtl/mmu6502.v:168-171 | a byte is the sum of its bits' weights, so a byte is known when its bits are |
| Bytes.FlagBits | sw/boot/boot.s:53-55 | what a trip over the stack makes of the flag byte: bits 4 and 5 are clear, each other bit is as it was |
| Mmu6502.Mmu.constructor | rtl/mmu6502.v:101-108 | reset: identity page table, no page open to user mode, all writable, kernel mode |
| Mmu6502.Mmu.Clock | rtl/mmu6502.v:99-137 | the clocked block with its priorities: trap or fault before register write, and writes only in kernel mode, cut to the register's width |
| Mmu6502.UserModeFreezesConfig | rtl/mmu6502.v:109-137 | over any bus history, page table and permission bits are the same at both ends of every stretch of user mode |
| Mmu6502.UserModeEntry | rtl/mmu6502.v:112-128 | after any history from reset the MMU is in user mode if and only if some earlier kernel-mode write of an even value to $80A8 put it there and it has not left since |
| Mmu6502.ReadsLastAccepted | rtl/mmu6502.v:148-165 | reading any of the 64 offsets gives the last accepted write to it cut to its width, or its reset value; for the mode bit also the last trap |
| Mmu6502.FaultForcesKernel | rtl/mmu6502.v:168-182 | a registered fault finds the MMU in kernel mode and the next access cannot fault |
| Mmu6502.OneEdgePerFault | rtl/tb.v:94-95 | over any history the rising edges of NMI are as many as the faults, up to the one still in the register |
| Mmu6502.OpenUserAccess | rtl/mmu6502.v:168-171 | with all pages opened a user access to RAM changes no MMU register |
| Mmu6502.FaultsExactly | rtl/mmu6502.v:166-182 | after any history an access registers a fault if and only if it is in user mode and its page's bit in the last accepted write of the u registers is clear, or it is a write and the one in the w registers is, or it writes a control register |
| Disk.WriteBytesAt | rtl/tb.v:135-149 | a write through the file puts each byte at its offset and leaves every other offset alone, also when it extends the file |
| Disk.SectorBytes | rtl/tb.v:121-127 | byte i of the sector at any LBA is byte 512 * (lba mod 2^23) + i of the file, or 0 past its end |
| Disk.WrittenBytes | rtl/tb.v:141-143 | writing a sector replaces the 512 file bytes from 512 * (lba mod 2^23) on and no others; a gap before them is zeros |
| Disk.LbaDigits | rtl/tb.v:219-222 | registers $80E0 to $80E3 are the bytes of the LBA, least significant first |
| Disk.WriteThenRead | rtl/tb.v:115-149 | a sector written reads back, and no other sector changes |
| Disk.Controller.DoRead | rtl/tb.v:115-133 | a whole sector, zeros past the end of the file, into the buffer and the data pointer to 0; an error and an untouched buffer when no image is open |
| Disk.Controller.DoWrite | rtl/tb.v:135-149 | the whole buffer to the sector at the LBA, or an error and no change |
| Disk.Controller.Write | rtl/tb.v:215-235 | what a bus write to each register does to LBA, buffer, file, error flag and the data pointer, which stops at 511 |
| Disk.Controller.Read | rtl/tb.v:168-174 | what a bus read of each register gives, and that only a DATA read moves the pointer |
| Console.KeysExactlyOnce | rtl/tb.v:237-261 | over any run of cycles and typing, bytes returned and the byte pending are the first `stdin_pos` bytes of the file, in order, if and only if no read found the data register stale |
| Console.BusyFor87 | rtl/tb.v:177-197 | after a byte the transmitter is ready again after exactly 87 cycles |
| Console.RunFollows | rtl/tb.v:177-261 | over any run of cycles and typing from power-on, told by the CPU's accesses alone: every byte written to a port is sent, in order, the overruns reported are exactly the serial bytes with fewer than 87 cycles since the one before, and the receiver polls at every 201st cycle |
| Console.NoOverrunIff | rtl/tb.v:177-197 | there is no overrun if and only if any two serial bytes have 87 cycles between them |
| Console.KeyArrives | rtl/tb.v:242-261 | with no key pending and one in the file, the key is there exactly when the 201st cycle since the last poll has passed, and it is the next one |
| Console.Ports.Transmit | rtl/tb.v:179-197 | the TX block: ready flag, counter, log and overruns after one cycle |
| Console.Ports.Receive | rtl/tb.v:238-261 | the RX block: clear on read, poll every 201 cycles, next byte of the append-only file |
| Console.Ports.Cycle | rtl/tb.v:176-261 | one clock edge of the port as a whole |
| Virtualisation.RunsAlone | sw/kernel/src/yield.s:66-111 | in every run of placed, well-behaved processes, each process at each moment is where it would be alone after its own events, and the invariant of user-mode points holds |
| Virtualisation.StepSimulated | sw/kernel/src/brk.s:52-112 | one step of the machine (instruction, yield or call) is one step of the running process alone, permitted by what that process sees, and no step of the others |
| Virtualisation.YieldSimulated | sw/kernel/src/yield.s:66-111 | a yield is, for the one who yielded, a no-op that leaves its own frame below SP, and for the others nothing; the next process resumes as it was |
| Virtualisation.CallSimulated | sw/kernel/src/syscalls.c:142-155 | a returning call changes the caller by its answer only and the others not at all |
| Virtualisation.ComputeSimulated | rtl/mmu6502.v:90 | a user instruction's writes through the page table are seen by its own process only |
| Virtualisation.ViewBlit | sw/kernel/src/syscalls.c:112-119 | a sector stored through the kernel's untranslated pointer appears in exactly the caller's 512 virtual bytes |
| Virtualisation.RoundRobin | sw/kernel/src/proc.c:35-44 | at every user-mode point exactly the running entry is RUNNING, all others are WAITING, and after k yields the index is k places on modulo nprocs |
| Virtualisation.TurnIsMod | sw/kernel/src/proc.c:38-41 | advancing to the next place k times is addition of k modulo nprocs |
| Virtualisation.OneTurnEach | sw/kernel/src/proc.c:35-44 | after any turn there is, for each process, exactly one of the next nprocs turns that is its own, and the last of them is that of the one who had the turn: between two turns of a process each other one runs exactly once |
| Progress.NextStep | sw/kernel/src/brk.s:106-112 | at a user-mode point of processes that keep to their footprints machine and devices have a next step, a call being answered as the devices serve it, unless the process exits or waits for a key |
| Progress.RunExtends | sw/kernel/src/syscalls.c:87-155 | so every run, with the devices beside it, can be continued until a process exits or waits in sys_getc for a key that no one has typed |
| Progress.GetcWaits | sw/kernel/src/syscalls.c:100-104 | without a key there is no step of a process in sys_getc in which no key is typed |
| Progress.CallServed | sw/kernel/src/syscalls.c:142-155 | the answer and the device states that serve each call whose needs are met |
| Devices.ReadDelivers | sw/kernel/src/syscalls.c:112-126 | in any run, a block read leaves in the caller's virtual buffer what any process last wrote at that LBA from its virtual buffer, or, if none has, bytes 512 * lba on of the initial image; only a result slot inside the buffer holds the result |
| Devices.DiskRun | sw/kernel/src/block.c:42-89 | at every point of any run each sector of the image is the last one written there by a process, and no other LBA has changed |
| Devices.OutputRun | rtl/tb.v:177-214 | from power-on, at every point of any run serial log and GPU log are one sequence, what was printed before the run and then the processes' own characters and strings in order, with no overrun |
| Devices.KeysRun | rtl/tb.v:237-261 | from power-on, the keys answered to all processes and the one pending are the first `stdin_pos` bytes typed, and no read was stale |
| Devices.NbRun | sw/kernel/src/syscalls.c:128-136 | at any point of any run a sys_getc_nb that finds a key pending answers that key with 0, so an answer of "none" means that no key was there |
| Devices.NbTakesKey | sw/kernel/src/syscalls.c:128-136 | the same of one call |
| Devices.RunAccounted | sw/kernel/src/syscalls.c:93-155 | at every point of any run console and disk are what the calls so far make of them, in terms of the callers' memories |
| Devices.CallAccounted | sw/kernel/src/syscalls.c:93-136 | one served call prints, takes and stores what the caller's virtual memory and the answer say |
| Devices.CallsInBytes | sw/kernel/src/syscalls.c:33-58 | which call is which, and where it finds character, string pointer, LBA and buffer pointer and leaves key and code, in bytes of the caller's zero page |
| Devices.CodeByte | sw/kernel/src/syscalls.c:93-155 | the code a returning call leaves at $33 by number: 0, 1 of a block call when no image is open, $FF of an unknown number, which touches no device |
| Devices.UnwrittenIsImage | sw/kernel/src/block.c:42-75 | a sector that no operation of a list has written holds the image's bytes from 512 * lba on |
| Devices.TextIsCString | sw/kernel/src/syscalls.c:106-110 | for any page table, the kernel's physical string is the process's virtual string when its bytes are contiguous up to the NUL |
| Devices.BufferIsWindow | sw/kernel/src/syscalls.c:121-126 | the kernel's 512 physical bytes are the process's virtual buffer |
| Service.ServeCall | sw/kernel/src/brk.s:52-112 | the code from the BRK of a returning call to its RTI takes a step of the runs, for machine and devices, and keeps the invariant |
| Service.ServeYield | sw/kernel/src/yield.s:66-111 | so does the code of a yield |
| KernelMemory.RunKeepsKernel | docs/memory-map.md:36-43 | in any run the kernel's memory outside its scratch cells and the process table never changes |
| KernelMemory.VectorKept | sw/kernel/src/main.c:23-25 | so every BRK of a run goes to the handler that main installed |
| Stubs.StubTransparent | sw/prog/src/syslib.s:58-67 | for any process that keeps bits 4 and 5 of its flags clear, as a trap leaves them, pushes, BRK, answer and pulls together give back A, X, Y, SP and every flag but N and Z, which are those of A; control continues after the stub, and memory changes only in six stack bytes and the answer's cells |
| Stubs.LoadFlagBits | sw/prog/src/syslib.s:58-67 | a pull sets Z from the byte being zero, N from its bit 7, and no other flag |
| Transparency.CallReturns | sw/kernel/src/syscalls.c:93-155 | for every page table, a returning call resumes at PC + 2 with SP, page table and each of the flags N, V, D, I, Z and C as they were, and changes no byte but its frame's, its result slots', its read buffer's and kernel scratch |
| Transparency.BrkIsServable | sw/kernel/src/brk.s:52-112 | at a BRK of a process that keeps to its footprint, the frame does not wrap, the number is the process's own byte, and strings and buffers are where the kernel looks, for every call; sys_getc also needs a key |
| Transparency.PointerPlace | sw/kernel/src/syscalls.c:71-83 | the physical pointer the kernel makes of an argument is the translation of the process's own pointer |
| Rotation.Rotates | sw/kernel/src/proc.c:58-62 | translation through a spawned table is (va + 4096 * base) mod 32768 |
| Rotation.Bijective | sw/kernel/src/proc.c:58-62 | that translation is a bijection, inverted by the opposite rotation |
| Rotation.ContiguousIff | sw/kernel/src/syscalls.c:71-78 | a translated pointer plus k is the translation of va + k if and only if it does not run past the end of RAM |
| Rotation.ContiguousInPage | sw/kernel/src/syscalls.c:71-78 | for any page table at all this holds within a 1 KB page |
| Rotation.PutsPrintsVirtualString | sw/kernel/src/syscalls.c:106-110 | the bytes the kernel prints from its physical pointer are the process's virtual string, across page borders |
| Rotation.DemoImage | docs/memory-map.md:38-51 | the physical ranges that the three documented layouts occupy, exactly, all clear of the kernel |
| Rotation.DemoPlaced | docs/memory-map.md:36-51 | bases 1, 3 and 5 keep any footprints within the documented layout apart from each other and from the kernel |
| Rotation.BaseThreeReachesKernel | sw/kernel/src/proc.c:14-17 | the limitation the source admits: base 3 maps virtual $5000 onto physical 0 |
| Machine.Machine.Jsr | sw/kernel/src/yield.s:68 | JSR in kernel mode puts the return address on the kernel's physical stack page wherever the user's SP is |
| Machine.Machine.Rts | sw/kernel/src/yield.s:130 | RTS takes it from there |
| Yield.ChooseIsNearest | sw/kernel/src/proc.c:35-44 | for arbitrary states the search takes the WAITING entry at the least cyclic distance in 1..nprocs |
| Yield.ChooseStaysIff | sw/kernel/src/proc.c:35-44 | the index stays if and only if no other entry is WAITING |
| Yield.ScheduleProcess | sw/kernel/src/proc.c:35-44 | the loop computes that search, and does nothing when nprocs is 0 |
| Yield.CalcProcPtr | sw/kernel/src/yield.s:119-130 | the pointer cells hold plist + 64 * plist_idx, and no other cell changes |
| Yield.CallCalcProcPtr | sw/kernel/src/yield.s:95-96 | the same through JSR and RTS, SP restored |
| Yield.SaveTable | sw/kernel/src/yield.s:81-90 | bytes 14..45 of the entry are the MMU's page table, all others untouched |
| Yield.SaveRunning | sw/kernel/src/yield.s:66-90 | the running entry, at $7000 + 64 * plist_idx, is WAITING (1) and holds SP at byte 13 and the page table from byte 14 |
| Yield.RestorePpn | sw/kernel/src/yield.s:38-49 | the MMU's page table is the entry's, cut to five bits, and A, X and Y are left with the loop's last values |
| Yield.MarkSelected | sw/kernel/src/yield.s:95-101 | the pointer cells are at the selected entry, which is RUNNING |
| Yield.LoadSelected | sw/kernel/src/yield.s:95-111 | the selected entry becomes RUNNING (2), and SP and page table are what its bytes 13 and 14 to 45 held |
| Yield.CallScheduleProcess | sw/kernel/src/yield.s:92-93 | calling the compiled scheduler on the kernel stack finds its return address whatever scratch it uses |
| Yield.DoYield | sw/kernel/src/yield.s:66-111 | the whole routine: save, choose, load, for any process table |
| Trap.FrameFound | sw/kernel/src/brk.s:54-64 | the handler reads the frame BRK pushed if and only if the push did not wrap round the stack page (SP at least 3) |
| Trap.Brk | rtl/mmu6502.v:111-114 | BRK pushes PC + 2 and flags through the user's table, the vector fetch forces kernel mode, and the jump goes to the address in $FE (low) and $FF (high) |
| Trap.RetUserMode | sw/boot/boot.s:53-55 | STZ and RTI: user mode, and the frame pulled through the process's own page 0 |
| Trap.PushUser | rtl/mmu6502.v:90 | a stack write in user mode lands at the translated address |
| Trap.PullUser | rtl/mmu6502.v:90 | a stack read in user mode comes from the translated address |
| Trap.FindFrame | sw/kernel/src/brk.s:54-65 | the pointer to the frame, the only two cells written, and the status byte |
| Trap.CallAddress | sw/kernel/src/brk.s:72-82 | saved PC minus one with the borrow through 16 bits |
| Trap.TranslatePointer | sw/kernel/src/brk.s:87-99 | the pointer becomes its own translation by the user's page table |
| Trap.SelectsPage | sw/kernel/src/brk.s:87-99 | the handler's byte shuffle is page-table translation, for every table and pointer |
| Trap.ReadNumber | sw/kernel/src/brk.s:101-104 | the number byte is fetched through the pointer and kept at $32 |
| Trap.BrkHandler | sw/kernel/src/brk.s:52-112 | the handler's route by flag and number, writing nothing but its five zero-page cells, with the number at $32 for the dispatch |
| Trap.RoutedByNumber | sw/kernel/src/brk.s:84-110 | for every page table and PC the number dispatched on is the byte the handler finds after the user's BRK, also across a page border |
| Trap.NumberReadIff | sw/kernel/src/brk.s:57-104 | that byte is the process's own, whatever it is, if and only if it does not lie in the four cells of the handler's two pointers |
| Trap.EnterKernel | sw/kernel/src/brk.s:52-112 | from a user's BRK to the dispatch for every page table, PC and SP, memory changed by the frame and handler cells only; with SP at least 3 dispatched on the call's number |
| Trap.YieldTrap | sw/kernel/src/yield.s:66-111 | SYS_YIELD as a whole, from one user-mode point to the next, is the step that the run theorem uses |
| Trap.YieldSame | sw/kernel/src/yield.s:66-111 | the outcome of a yield does not depend on scratch memory |
| Block.SetLba | sw/kernel/src/block.c:31-36 | four byte writes leave the 32-bit value in the controller |
| Block.Drain | sw/kernel/src/block.c:53-72 | the nested loop with its bumped pointer lays the 512 buffer bytes at the destination and changes nothing else |
| Block.BlockRead | sw/kernel/src/block.c:42-75 | a sector into RAM and 0, or 1 and no change when no image is open |
| Block.BlockWrite | sw/kernel/src/block.c:78-89 | the 512 bytes reach the file although the pointer saturates at 511, or 1 and no change |
| Block.DiskIsAMemory | sw/kernel/src/block.c:42-89 | of any list of sector reads and writes applied to an image, a sector is what was last written at its LBA, else as it was; `Devices.ReadDelivers` is the statement about runs |
| Block.CopyUpIsMove | sw/kernel/src/memcpy512.s:23-35 | the ascending copy is a block move when no byte is overwritten before it is read |
| Block.Memcpy512 | sw/kernel/src/memcpy512.s:11-38 | the two-page loop is the ascending byte copy, overlapping or not |
| KernelIo.Status | rtl/tb.v:165 | the two status bits, and that an unset bit has come nearer |
| KernelIo.AwaitTx | sw/kernel/src/kernel.c:13 | the wait ends, with the transmitter ready and nothing sent or read |
| KernelIo.KPutc | sw/kernel/src/kernel.c:12-15 | exactly this byte is sent, without overrun |
| KernelIo.KGputc | sw/kernel/src/kernel.c:17-20 | exactly this byte goes to the screen |
| KernelIo.KPrint | sw/kernel/src/kernel.c:22-28 | the string up to its NUL goes to both devices in order, without overrun |
| KernelIo.ShownSpells | sw/kernel/src/kernel.c:22-28 | of a string constant without a NUL exactly its characters are printed |
| KernelIo.Getc | sw/kernel/src/syscalls.c:100-104 | the wait ends when a key is pending or in the file, and exactly the next key is taken |
| KernelIo.GetcNb | sw/kernel/src/syscalls.c:128-136 | one look: a key that is pending is taken, and it is the next one; else none and 0 |
| Syscalls.DoPutc | sw/kernel/src/syscalls.c:93-98 | the character in the caller's slot goes to both devices, result 0 |
| Syscalls.DoPuts | sw/kernel/src/syscalls.c:106-110 | the string at the translated pointer goes to both devices, result 0 |
| Syscalls.DoGetc | sw/kernel/src/syscalls.c:100-104 | the next key in the caller's slot, result 0 |
| Syscalls.DoGetcNb | sw/kernel/src/syscalls.c:128-136 | the next key with 0, or 0 with 1, the latter only when no key was pending |
| Syscalls.DoBlockRead | sw/kernel/src/syscalls.c:112-119 | the sector at the argument LBA in the caller's buffer and 0, or 1 |
| Syscalls.DoBlockWrite | sw/kernel/src/syscalls.c:121-126 | the caller's 512 bytes in the file at the argument LBA and 0, or 1 |
| Syscalls.SyscallDispatch | sw/kernel/src/syscalls.c:142-155 | each number does its call; every other number gives ENOSYS and touches no device |
| Syscalls.CallSyscallDispatch | sw/kernel/src/brk.s:111 | the same through JSR, by the number found at $32, with compiled code's scratch memory, SP restored |
| Syscalls.CallTrap | sw/kernel/src/brk.s:110-112 | a returning call as a whole is the step that the run theorem uses, with its effect on console and disk |
| Syscalls.ServedSame | sw/kernel/src/syscalls.c:93-155 | what a call does to the devices does not depend on scratch memory |
| Loader.BuildTable | sw/kernel/src/proc.c:58-62 | the new entry holds the rotated table and nothing else changes |
| Loader.BlockWindow | sw/kernel/src/proc.c:82-87 | a 512-byte block never crosses a page: its physical bytes are the next 512 virtual ones |
| Loader.OneMoreBlock | sw/kernel/src/proc.c:75-88 | copying sector b extends the loaded image by exactly that sector |
| Loader.ImageBytes | sw/kernel/src/proc.c:74-88 | byte off of the sectors from lba on is byte 512 * lba + off of the file, or 0 past its end |
| Loader.CopyBlock | sw/kernel/src/proc.c:82-87 | one sector from the disk buffer to where the new table sends it |
| Loader.LoadBlocks | sw/kernel/src/proc.c:75-88 | the loop loads sectors lba..lba+n-1 at virtual $1000 on, and changes nothing outside them and the disk buffer |
| Loader.WriteFrame | sw/kernel/src/proc.c:90-95 | status $20 and the entry point at virtual $01FD |
| Loader.WriteFields | sw/kernel/src/proc.c:97-102 | WAITING, exit code 0, the LBA's and the count's low bytes, SP $FC and an empty name in the entry's head, and no byte outside it |
| Loader.Register | sw/kernel/src/proc.c:90-104 | after the copy loop: the frame, the fields and the count, so that the new entry is spawned |
| Loader.StepsSpawn | sw/kernel/src/proc.c:58-104 | table, image, frame and fields together are the load that the start of the kernel relies on |
| Loader.SpawnBbx | sw/kernel/src/proc.c:46-106 | 0 exactly when there is room, the disk is open and the header begins $42 $58, 1 exactly when there is no room or no disk, with the message for each; with 0 image, frame, entry and nothing else; a refusal leaves nprocs and memory as they were but for the page table in the free entry, if there is one, the disk buffer and scratch |
| Loader.Prepare | sw/kernel/src/proc.c:56-72 | the new table, the first sector, the header check with its messages, and the entry point, header byte 4 the low and byte 5 the high one |
| Start.ImageSeen | sw/kernel/src/proc.c:74-88 | reading virtual $1000 + off through the new table gives file byte 512 * lba + off |
| Start.FrameSeen | sw/kernel/src/proc.c:90-95 | reading virtual $01FD..$01FF through the new table gives $20 and header bytes 4 and 5 |
| Start.LoadExtends | sw/kernel/src/proc.c:46-106 | a load makes its entry ready and leaves earlier entries and their footprints alone |
| Start.RefusedStaysReady | sw/kernel/src/proc.c:52-71 | so does a refused load, also with a full table |
| Start.LoadKeepsVector | sw/kernel/src/proc.c:46-106 | neither touches the installed BRK vector |
| Start.FreshStart | sw/kernel/src/proc.c:90-101 | a loaded process starts with PC from header bytes 4 and 5, which it also finds at its own $1004 and $1005, with SP $FF and clear flags |
| Start.HeaderInMemory | sw/kernel/src/proc.c:72-88 | a program of at least one sector has its header bytes 4 and 5 at virtual $1004 and $1005 |
| Start.OpenAll | sw/kernel/src/yield.s:138-144 | all 32 pages are opened to user access and writing, the table unchanged |
| Start.SchedStart | sw/kernel/src/yield.s:135-161 | for any table, entry 0 is RUNNING and the machine is in user mode on its page table with the frame at its stack pointer pulled |
| Start.SchedStarts | sw/kernel/src/yield.s:135-161 | with ready processes, process 0 runs, every process stands where its loader put it, and the run invariant holds |
| Start.LoadProgram | sw/kernel/src/main.c:45-50 | one load of main with its result ignored: one more ready process, or none and the refusal's traces, and its printed text |
| Start.PresentFrom | sw/kernel/src/main.c:45-50 | the programs that get loaded come from distinct places of main's list, in order |
| Start.PresentPlaced | sw/kernel/src/main.c:45-50 | leaving programs out keeps the others apart |
| Start.KernelInit | sw/kernel/src/main.c:23-43 | BRK vector in $FE and $FF, identity table, signature message by bytes 510 and 511 of sector 0; hangs exactly when the disk cannot be read |
| Start.LoadDemo | sw/kernel/src/main.c:45-50 | after the three loads exactly the programs with a BBX header are ready; with none, entry 0 holds the last program's page table and an unwritten stack pointer |
| Start.KernelMain | sw/kernel/src/main.c:20-52 | from the ROM's jump to user mode for any disk: the run invariant holds for the programs present, each at its entry point with its sectors in place, if and only if there is one; with none, user mode without a process at an unwritten stack pointer; the vector installed and the text printed |
| Start.PresentInBytes | sw/kernel/src/main.c:45-50 | which programs those are, in bytes of the image file: $42 $58 at 102400, 107520 and 112640 |
| Start.EmptyDiskHasNoProgram | sw/kernel/src/proc.c:68-71 | an empty image is such a disk |
| Boot.PutBoth | sw/boot/boot.s:267-280 | the byte goes to both devices without overrun, A and the stack preserved |
| Boot.NextChar | sw/boot/boot.s:281-284 | the next byte of the string, also when Y wraps |
| Boot.PutsInline | sw/boot/boot.s:258-297 | prints exactly the bytes before the NUL, of any length, and returns to the byte after it with the stack balanced |
| Boot.IncLba | sw/boot/boot.s:157-165 | the 32-bit LBA plus one, carry through all four bytes |
| Boot.DecCount | sw/boot/boot.s:167-172 | the 16-bit count less one, with borrow |
| Boot.StagePage | sw/boot/boot.s:236-243 | the inner loop reads 256 bytes in order |
| Boot.StageSector | sw/boot/boot.s:232-251 | the nested loop, X counting the pages, reads 512 bytes in order and restores the pointer |
| Boot.StageOnePage | sw/boot/boot.s:236-247 | one round of the outer loop |
| Boot.DiskReadToPtr | sw/boot/boot.s:222-251 | the sector at the controller's LBA to the pointer's place, or the stale buffer when no image is open, since the ROM ignores the error flag |
| Boot.ReadAtZpLba | sw/boot/boot.s:140-149 | the sector at the zero-page LBA |
| Boot.Advance | sw/boot/boot.s:151-172 | pointer, LBA and count move on together |
| Boot.LoadOne | sw/boot/boot.s:134-175 | one round of the load loop stages one more sector |
| Boot.LoadLoop | sw/boot/boot.s:134-175 | the loop ends with the record's n sectors from $0200 on |
| Boot.LoadKernel | sw/boot/boot.s:108-175 | from a good boot record to the whole kernel in RAM |
| Boot.Launch | sw/boot/boot.s:177-204 | jumps if and only if the staged header begins $42 $58, and then to its bytes 4 (low) and 5 (high); halts otherwise |
| Boot.Reset | sw/boot/boot.s:61-209 | for every disk, and with no image open for whatever the controller's buffer holds, exactly one of bad record, bad BBX or a jump to the header's entry, decided by the medium alone, with the kernel in RAM past a good record, the early BRK vector installed and the text printed |
| Boot.RecordInBytes | sw/boot/boot.s:77-130 | the record is at 51200: the outcome is bad record if and only if it does not begin BBBR, and LBA and count are its bytes 4 to 9 |
| Boot.OutcomeInBytes | sw/boot/boot.s:77-209 | past a good record, for every image file in the file's bytes: the header is at 512 times the LBA (the record itself when the count is 0), and the outcome is a jump to its bytes 4 and 5 if and only if it begins $42 $58 |
| Boot.LoadedBytes | sw/boot/boot.s:108-175 | with the kernel loaded, RAM $0200 + off is file byte 512 * LBA + off |
| Screen.TextInReadingOrder | tools/gpu.c:43-46 | text without control characters fills the unbounded sheet in reading order |
| Screen.LineFeed | tools/gpu.c:39 | after any bytes, a line feed keeps all lines and what follows stands at the start of a new one |
| Screen.CarriageReturn | tools/gpu.c:40 | after any bytes, a carriage return adds no line and what follows stands over the front of the last one |
| Screen.Backspace | tools/gpu.c:41 | a backspace blanks the cell before the cursor and steps onto it; at column 0 it does nothing |
| Screen.FormFeed | tools/gpu.c:42 | whatever was written before a form feed is as if it had not been |
| Screen.Ignored | tools/gpu.c:38-47 | so is every other byte below 32 and every byte from 127 on |
| Screen.TwoLines | tools/gpu.c:39-46 | two lines of text with a line feed between show as two lines |
| Screen.Monitor.ScrollIfNeeded | tools/gpu.c:30-36 | the array is again the last 25 lines of the sheet, rows below the cursor blank |
| Screen.Monitor.PutChar | tools/gpu.c:38-48 | one byte on the array is one byte on the sheet seen through the window |
| Screen.Monitor.PutAll | tools/gpu.c:161-163 | so is any stream of bytes: afterwards the screen is the last 25 lines of the sheet, or all of them above blank rows, with the cursor at its end |
| Debugger.StepRunsExactly | rtl/dbg/debugger.c:181-252 | after `s n` the instructions up to the first with a breakpoint run, at most n: for any fetches the number is the minimum of the two |
| Debugger.RunningRuns | rtl/dbg/debugger.c:210-232 | continuous execution stops at the first fetch whose address is listed or where a poll finds a Ctrl-C, and nowhere else |
| Debugger.ContinueRunsExactly | rtl/dbg/debugger.c:181-232 | after `c` the instruction stopped at runs and then none at an address on the list as edited at the prompt |
| Debugger.CtrlCWithin512 | rtl/dbg/debugger.c:211-218 | a waiting Ctrl-C stops execution by the next multiple of 512, across the 32-bit wrap |
| Debugger.ListedIff | rtl/dbg/debugger.c:746-802 | after any history an address is listed if and only if it was set since it was last removed |
| Debugger.ListIsHistory | rtl/dbg/debugger.c:265-333 | the list at any point of a session is what the commands obeyed so far make of an empty one |
| Debugger.NoListedRuns | rtl/dbg/debugger.c:181-232 | after any session, once resumed by `c`, no instruction runs whose address was set and not removed since |
| Debugger.StepSeesListed | rtl/dbg/debugger.c:706-720 | stepping stops on a listed instruction if and only if the address after it does not wrap past $FFFF; running always does |
| Debugger.StepStopsIff | rtl/dbg/debugger.c:706-720 | which addresses stop a step: those from the instruction to the one after it, both included, unless that wraps |
| Debugger.RestartStops | rtl/dbg/debugger.c:371-377 | after reset at the prompt, following any edits, the machine is reset once and the prompt comes up at the next fetch |
| Debugger.PromptResets | rtl/dbg/debugger.c:181-252 | reaching the prompt resets nothing |
| Debugger.StpRestarts | rtl/dbg/debugger.c:355-369 | so it is after STP answered with r, in any mode |
| Debugger.ResetStops | rtl/dbg/debugger.c:371-377 | a requested reset lets no instruction run before the prompt |
| Debugger.StpQuits | rtl/dbg/debugger.c:355-369 | after STP answered otherwise, nothing stops the machine again, whatever is listed or typed |
| Debugger.QuitQuits | rtl/dbg/debugger.c:308-313 | so it is after q |
| Debugger.QuitsForGood | rtl/dbg/debugger.c:181-196 | while quitting nothing changes but the keys waiting |
| Debugger.KeysForwarded | rtl/dbg/debugger.c:380-393 | through any run the keys handed on and still waiting are those typed, in order, less the Ctrl-Cs |
| Debugger.PromptEdits | rtl/dbg/debugger.c:265-333 | editing commands leave the user at the prompt and change the list only; the first other command resumes |
| Debugger.Session.CheckIfAtBp | rtl/dbg/debugger.c:706-720 | a hit exactly when some entry lies in the range, and then the first such entry |
| Debugger.Session.Add | rtl/dbg/debugger.c:746-782 | the list grows by the address at its end, also when the array has to grow |
| Debugger.Session.Remove | rtl/dbg/debugger.c:786-802 | the in-place loop ends, removes every entry at the address, keeps the others in order, and reports whether there was one |
| Debugger.Session.PollTerminal | rtl/dbg/debugger.c:380-388 | keys up to the first Ctrl-C are forwarded, the rest stay |
| Debugger.Session.ShouldStop | rtl/dbg/debugger.c:199-254 | the user gets control exactly when the machine is then in stopped mode |
| Debugger.Session.CommandLoop | rtl/dbg/debugger.c:257-336 | commands are obeyed in order until one resumes |
| Debugger.Session.Boundary | rtl/dbg/debugger.c:181-196 | one fetch as a whole is one step of the run-mode machine |
| MemView.ShowsWhatIsRead | rtl/dbg/bbdbg_vpi.c:87-105 | in either MMU mode each byte shown is what the read mux gives the processor, RAM through the page table in user mode and ROM from $8100 on, and exactly $8000-$80FF is hidden |
| MemView.HiddenRegisters | rtl/tb.v:160-175 | what the processor reads in the window that the view hides: page table, LBA and data port, the bits of the two status registers, and $FF where nothing answers |
| MemView.ShowRow | rtl/dbg/debugger.c:467-476 | a row lists its sixteen addresses, or those up to the end, without wrapping past $FFFF |
| MemView.ShowMem | rtl/dbg/debugger.c:463-483 | for every start up to end, $FFFF included, the dump ends and lists each address once in order |

## Left out

- The 65C02 core, cycle counts and the instructions the kernel does not use: a routine's instructions are modelled one data access at a time, and any number of cycles may pass between two accesses to the console.
- User instructions: any deterministic function of registers and footprint; user code that reads or writes device addresses directly is outside the run theorems. Time passes for the console at every instruction and yield, and at a call before the kernel first looks at the port and while it waits.
- What a faulting user access reads or writes and the return of the NMI handler: unfinished in the design; only mode, registers and pulses are modelled.
- The IRQ path (empty), `sys_exit` (halts) and `k_puthex`.
- Isolation of processes with arbitrary footprints: not claimed by the code, and false (`Rotation.BaseThreeReachesKernel`).
- SDL drawing and events, ncurses windows, prompts and messages, VPI handles and their cache, symbol files, command names and the opcode table: foreign calls and text.
- The linker's placement of `plist_idx`, `nprocs`, `zp_ptr`, `ptr1` and `ptr2`: these are fields or locals. `plist`, `block_buf`, zero-page slots, both stacks and the C stack are bytes of the one RAM array.
- Machine.Machine.Clobber: cc65's generated code is not modelled instruction by instruction; it may leave anything in A, X, Y and in its scratch memory, but not over its own return address.
- Disk.Controller.DoRead: byte offsets are taken modulo 2^32 as the expression computes them; what `$fseek` does with an offset that a C library takes as negative (LBA 2^22 and above) is not modelled, so sequences of writes are limited to smaller LBAs in `Block.DiskIsAMemory` and `Disk.WriteThenRead`.
- Block.BlockRead: the busy flag is clear at the first look because the controller finishes within the command, so the wait is one read; the pointer cell `zp_ptr` is a local.
- Loader.SpawnBbx: asks for at most 56 sectors (the table's end) and a target clear of the kernel's memory; a read failure after the first sector cannot happen because whether an image is open never changes.
- Start.KernelMain: asks for nprocs to be 0 on entry, as the zero-filled BSS of the kernel image leaves it; the loading of that image is `Boot.Reset`, and the few instructions of `crt0.s` between the two are not modelled.
- Boot.Reset: asks, for a good record, for at most 63 sectors, as many as RAM holds; the ROM does not check.
- Trap.YieldTrap: asks for SP at least 3, without which the handler misreads the frame (`Trap.FrameFound`); `Transparency.BrkIsServable` shows it of processes within their footprints.
- Syscalls.CallTrap: asks for SP at least 3, a key for `sys_getc` (which otherwise waits for ever), a terminated string outside kernel scratch for `sys_puts`, and a buffer within RAM outside kernel scratch for block calls; `Transparency.BrkIsServable` shows all but the key of processes within their footprints.
- Stubs.StubTransparent: about the pushes, BRK and pulls that every stub has; the loads and stores of argument and result slots before and after them, and cc65's `popax`, are ordinary user instructions.
- Screen.Monitor.PutChar: a row of the screen is one value whose cells are replaced, so rows are moved whole, as `memmove` does, without aliasing between them.
- Debugger.Session.Add: running out of memory when the list grows, and the symbol text kept with an entry, are not modelled.
- Debugger.Session.PollTerminal: the translation of key codes on their way to the input file is not modelled; a forwarded key is recorded as typed.

Where the code and its comments or documents differ, the model follows the code: `yield.s` says that BRK's
handler pushes A, X and Y, while the user stubs do; it says that a call in `do_yield` uses the process's
stack page, while kernel mode is untranslated and the call uses physical $0100-$01FF at the process's SP
(`Yield.CallCalcProcPtr`); `syscalls.c` and `syslib.s` warn that a block buffer must not cross a 1 KB page,
while with the tables that `spawn_bbx` builds any buffer that
passes the end of RAM neither at its virtual nor at its physical addresses is contiguous
(`Rotation.ContiguousIff`). A step range in the debugger includes the address after the instruction, so a
breakpoint there stops one instruction early, and is empty when it wraps (`Debugger.StepSeesListed`).
