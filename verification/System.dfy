/**
 The kernel's view of the machine as a value: RAM, page tables, the process table inside RAM, the
 frames BRK pushes and RTI pulls, and what one trip through the kernel may do.
 */
module System {
  import opened Bytes

  const RAM_SIZE := 0x8000

  // Layout of physical RAM and of the process table (proc.h, yield.s, kernel.cfg)
  const PLIST := 0x7000
  const ENTRY_SIZE := 64
  const OFF_STATE := 0
  const OFF_SP := 13
  const OFF_PPN := 14
  const MAX_PROCS := 4
  const BLOCK_BUF := 0x7100

  const WAITING: byte := 1
  const RUNNING: byte := 2

  type Ram = r: seq<byte> | |r| == RAM_SIZE witness seq<byte>(RAM_SIZE, _ => 0)

  /** A page table: one physical page for each of the 32 virtual pages. */
  type Table = t: seq<byte> | |t| == 32 && forall i :: 0 <= i < 32 ==> t[i] < 32 witness seq<byte>(32, _ => 0)

  datatype Regs = Regs(a: byte, x: byte, y: byte, sp: byte, p: byte, pc: word)

  /** The machine at a point where the CPU is about to fetch an instruction. */
  datatype Sys = Sys(ram: Ram, ppn: Table, r: Regs, nprocs: nat, idx: nat)

  // ---- RAM ----

  /** ram with data laid over the bytes from `at` on. */
  function Blit(ram: seq<byte>, at: nat, data: seq<byte>): (r: seq<byte>)
    ensures |r| == |ram|
    ensures forall i :: 0 <= i < |ram| ==> r[i] == if at <= i < at + |data| then data[i - at] else ram[i]
  {
    seq<byte>(|ram|, i requires 0 <= i < |ram| => if at <= i < at + |data| then data[i - at] else ram[i])
  }

  /** User-mode translation of a RAM address. */
  function Phys(t: Table, va: nat): (pa: nat)
    requires va < RAM_SIZE
    ensures pa < RAM_SIZE
  {
    t[va / 1024] * 1024 + va % 1024
  }

  /** Address of the stack byte k above sp, wrapping inside the stack page. */
  function Stack(sp: byte, k: int): (va: nat)
    requires -3 <= k <= 3
    ensures 0x100 <= va < 0x200
  {
    0x100 + Wrap(sp + k)
  }

  // ---- Interrupt frames ----

  /** BRK pushes PCH, PCL and the flags. */
  function PushFrame(ram: Ram, t: Table, r: Regs): Ram {
    var next := WrapWord(r.pc + 2);
    ram[Phys(t, Stack(r.sp, 0)) := Hi(next)]
       [Phys(t, Stack(r.sp, -1)) := Lo(next)]
       [Phys(t, Stack(r.sp, -2)) := Pushed(r.p)]
  }

  function PopFrame(sp: byte): byte {
    Wrap(sp - 3)
  }

  /** Where the handler looks for the byte after the BRK: it drops bit 15 of the address. */
  function NumberAt(t: Table, pc: word): (pa: nat)
    ensures pa < RAM_SIZE
  {
    Phys(t, WrapWord(pc + 1) % RAM_SIZE)
  }

  /** RAM as the handler has left it when it reads the number at pa: pointers to the frame at sp and to
      the number are in its zero-page cells. */
  function AtRead(q: Ram, t: Table, sp: byte, pa: nat): Ram
    requires pa < RAM_SIZE
  {
    q[0x54 := sp][0x55 := t[0] * 4 + 1][0x30 := Lo(pa)][0x31 := Hi(pa)]
  }

  /** The call's number, read after the frame has been pushed. */
  function CallNumber(s: Sys): byte {
    var pa := NumberAt(s.ppn, s.r.pc);
    AtRead(PushFrame(s.ram, s.ppn, s.r), s.ppn, PopFrame(s.r.sp), pa)[pa]
  }

  /** RTI with the page table t. */
  function Rti(ram: Ram, t: Table, r: Regs): Regs {
    r.(p := Flags(ram[Phys(t, Stack(r.sp, 1))]),
       pc := Word(ram[Phys(t, Stack(r.sp, 2))], ram[Phys(t, Stack(r.sp, 3))]),
       sp := Wrap(r.sp + 3))
  }

  // ---- The process table ----

  function Entry(j: nat): nat {
    PLIST + ENTRY_SIZE * j
  }

  function StateOf(ram: Ram, j: nat): byte
    requires j < MAX_PROCS
  {
    ram[Entry(j) + OFF_STATE]
  }

  function SavedSp(ram: Ram, j: nat): byte
    requires j < MAX_PROCS
  {
    ram[Entry(j) + OFF_SP]
  }

  /** The entry's table as the MMU's 5-bit registers will hold it. */
  function SavedTable(ram: Ram, j: nat): Table
    requires j < MAX_PROCS
  {
    seq<byte>(32, i requires 0 <= i < 32 => ram[Entry(j) + OFF_PPN + i] % 32)
  }

  /** Entry j after the running process has been saved into it. */
  function SaveEntry(ram: Ram, j: nat, sp: byte, t: Table): Ram
    requires j < MAX_PROCS
  {
    Blit(ram[Entry(j) + OFF_STATE := WAITING], Entry(j) + OFF_SP, [sp] + t)
  }

  function SetState(ram: Ram, j: nat, state: byte): Ram
    requires j < MAX_PROCS
  {
    ram[Entry(j) + OFF_STATE := state]
  }

  /** The place at cyclic distance d after idx. */
  function Place(idx: nat, d: nat, n: nat): (k: nat)
    requires n > 0
    ensures k < n
  {
    (idx + d) % n
  }

  /** The search of schedule_process from distance i on. */
  function Choose(ram: Ram, idx: nat, n: nat, i: nat): (k: nat)
    requires idx < MAX_PROCS && 0 < n <= MAX_PROCS
    ensures k < MAX_PROCS
    decreases n + 1 - i
  {
    if i > n then idx
    else if StateOf(ram, Place(idx, i, n)) == WAITING then Place(idx, i, n)
    else Choose(ram, idx, n, i + 1)
  }

  // ---- Kernel scratch memory ----

  /** Cells the kernel uses while it runs and nothing reads back later: cc65's zero page, the assembly
      files' zero-page slots, the kernel's stack page and its C stack below $7EFF. */
  predicate Scratch(a: int) {
    || a < 0x20 || 0x30 <= a < 0x33 || 0x51 <= a < 0x53 || 0x54 <= a < 0x56
    || 0x100 <= a < 0x200 || 0x7D00 <= a < 0x7F00
  }

  ghost predicate SameOffScratch(q: Ram, r: Ram) {
    forall a :: 0 <= a < RAM_SIZE && !Scratch(a) ==> q[a] == r[a]
  }

  // ---- SYS_YIELD ----

  /** Registers left by RESTORE_PPN: A the last table byte, X the count, Y the last offset plus one. */
  function AfterRestore(ram: Ram, j: nat): Regs
    requires j < MAX_PROCS
  {
    Regs(ram[Entry(j) + OFF_PPN + 31], 32, OFF_PPN + 32, SavedSp(ram, j), 0, 0)
  }

  /** From a BRK #0 in user mode to the next user-mode point. */
  ghost predicate YieldStep(s: Sys, t: Sys)
    requires s.idx < s.nprocs <= MAX_PROCS
  {
    var saved := SaveEntry(PushFrame(s.ram, s.ppn, s.r), s.idx, PopFrame(s.r.sp), s.ppn);
    var k := Choose(saved, s.idx, s.nprocs, 1);
    var ram := SetState(saved, k, RUNNING);
    && SameOffScratch(ram, t.ram)
    && t == Sys(t.ram, SavedTable(ram, k), Rti(t.ram, SavedTable(ram, k), AfterRestore(ram, k)), s.nprocs, k)
  }

  // ---- The other system calls ----

  const SYS_YIELD: byte := 0
  const SYS_EXIT: byte := 1
  const SYS_PUTC: byte := 2
  const SYS_GETC: byte := 3
  const SYS_PUTS: byte := 4
  const SYS_BLOCK_READ: byte := 5
  const SYS_BLOCK_WRITE: byte := 6
  const SYS_GETC_NB: byte := 8
  const ENOSYS: byte := 0xFF

  // Slots of the ABI block (SYS_ABI_BASE = 48) in the process's zero page
  const RET := 0x33
  const ARG0 := 0x34
  const ARG1 := 0x36
  const A_REG := 0x40

  /** What a call hands back to the process: a code, a character with a code, or a sector. */
  datatype Answer = Code(ret: byte) | Char(c: byte, ret: byte) | Block(data: seq<byte>)

  /** The answers each call may give. */
  predicate Answers(num: byte, ans: Answer) {
    match num
    case 2 => ans == Code(0)
    case 3 => ans.Char? && ans.ret == 0
    case 4 => ans == Code(0)
    case 5 => ans == Code(1) || (ans.Block? && |ans.data| == 512)
    case 6 => ans == Code(0) || ans == Code(1)
    case 8 => ans.Char? && (ans.ret == 0 || ans == Char(0, 1))
    case _ => num > 1 && ans == Code(ENOSYS)
  }

  function Zp(t: Table, off: nat): (pa: nat)
    requires off < 0x100
    ensures pa == Phys(t, off)
  {
    t[0] * 1024 + off
  }

  /** Where the kernel finds a user pointer: only the start is translated, and bit 15 is dropped. */
  function UserPtr(t: Table, va: word): nat {
    Phys(t, va % RAM_SIZE)
  }

  function UserWord(ram: Ram, t: Table, off: nat): word
    requires off < 0xFF
  {
    Word(ram[Zp(t, off)], ram[Zp(t, off + 1)])
  }

  /** RAM after the kernel has stored an answer for the process with table t. */
  function Store(ram: Ram, t: Table, ans: Answer): Ram {
    match ans
    case Code(ret) => ram[Zp(t, RET) := ret]
    case Char(c, ret) => ram[Zp(t, A_REG) := c][Zp(t, RET) := ret]
    case Block(data) => Blit(ram, UserPtr(t, UserWord(ram, t, ARG1)), data)[Zp(t, RET) := 0]
  }

  /** From a BRK #num in user mode, answered with ans, back to the same process; the compiled C code
      leaves anything in A, X and Y. */
  ghost predicate CallStep(s: Sys, num: byte, ans: Answer, t: Sys) {
    && Answers(num, ans)
    && SameOffScratch(Store(PushFrame(s.ram, s.ppn, s.r), s.ppn, ans), t.ram)
    && t == Sys(t.ram, s.ppn, Rti(t.ram, s.ppn, Regs(t.r.a, t.r.x, t.r.y, PopFrame(s.r.sp), 0, 0)), s.nprocs, s.idx)
  }
}
