/**
 From the disk to the first user instruction: what a loaded program sees of its image, sched_start
 (sw/kernel/src/yield.s:135-161), and the kernel's main for the three demo programs.
 */
module Start {
  import opened Bytes
  import opened System
  import opened Machine
  import opened Virtualisation
  import opened Rotation
  import opened Yield
  import opened Loader
  import Block
  import Disk
  import KernelIo
  import Mmu6502
  import Trap

  /** A program to load, with the virtual addresses it will use. */
  datatype Program = Program(lba: nat, nblocks: nat, base: byte, fp: set<int>) {
    function Task(): Task {
      Virtualisation.Task(SpawnTable(base), fp)
    }

    /** The footprint holds the start frame and the whole image. */
    ghost predicate Fits() {
      && lba < 0x1_0000_0000 && nblocks <= MAX_BLOCKS
      && forall va :: 0x1FD <= va < 0x200 || IMAGE <= va < IMAGE + 512 * nblocks ==> va in fp
    }
  }

  function Tasks(ps: seq<Program>): (ts: seq<Task>)
    ensures |ts| == |ps| && forall i :: 0 <= i < |ps| ==> ts[i] == ps[i].Task()
  {
    seq(|ps|, i requires 0 <= i < |ps| => ps[i].Task())
  }

  /** Physical bytes and virtual addresses correspond one to one. */
  lemma {:induction false} VirtOfPhys(base: byte, va: nat)
    requires va < RAM_SIZE
    ensures VirtOf(base, Phys(SpawnTable(base), va)) == va
  {
    hide SpawnTable, Phys;
    Bijective(base, Phys(SpawnTable(base), va), va);
  }

  lemma {:induction false} PhysOfVirt(base: byte, pa: nat)
    requires pa < RAM_SIZE
    ensures Phys(SpawnTable(base), VirtOf(base, pa)) == pa
  {
    hide SpawnTable, Phys;
    Bijective(base, pa, VirtOf(base, pa));
  }

  /** A placed footprint that holds the image makes the load safe. */
  lemma {:induction false} PlacedIsSafe(ps: seq<Program>, i: nat)
    requires i < |ps| && Placed(Tasks(ps)) && ps[i].Fits()
    ensures LoadSafe(ps[i].base, ps[i].nblocks)
  {
    hide SpawnTable, Phys, VirtOf, KernelByte;
    forall pa: nat | pa < RAM_SIZE && (Target(ps[i].base, ps[i].nblocks, pa) || FrameByte(ps[i].base, pa))
      ensures !KernelByte(pa)
    {
      PhysOfVirt(ps[i].base, pa);
      assert VirtOf(ps[i].base, pa) in Tasks(ps)[i].fp;
    }
  }

  /** Reading the new process's memory gives exactly its sectors. */
  lemma {:induction false} ImageSeen(before: Ram, after: Ram, j: nat, file: seq<byte>, p: Program, off: nat)
    requires j < MAX_PROCS && Spawned(before, after, j, file, p.lba, p.nblocks, p.base)
    requires LoadSafe(p.base, p.nblocks) && p.nblocks <= MAX_BLOCKS && off < 512 * p.nblocks
    ensures after[Phys(SpawnTable(p.base), IMAGE + off)] == ImageByte(file, p.lba, off)
    ensures p.lba + p.nblocks <= Disk.OFFSET_LIMIT ==>
              after[Phys(SpawnTable(p.base), 0x1000 + off)] ==
              if 512 * p.lba + off < |file| then file[512 * p.lba + off] else 0
  {
    if p.lba + p.nblocks <= Disk.OFFSET_LIMIT {
      ImageBytes(file, p.lba, off);
    }
    var pa := Phys(SpawnTable(p.base), IMAGE + off);
    VirtOfPhys(p.base, IMAGE + off);
    hide SpawnTable, Phys, VirtOf, ImageByte;
    assert Target(p.base, p.nblocks, pa);
    assert !Working(j, pa);
  }

  lemma {:induction false} FrameSeen(before: Ram, after: Ram, j: nat, file: seq<byte>, p: Program, k: nat)
    requires j < MAX_PROCS && Spawned(before, after, j, file, p.lba, p.nblocks, p.base)
    requires LoadSafe(p.base, p.nblocks) && k < 3
    ensures var h := Disk.Sector(file, p.lba);
            after[Phys(SpawnTable(p.base), 0x1FD + k)] == [0x20, h[4], h[5]][k]
  {
    var pa := Phys(SpawnTable(p.base), 0x1FD + k);
    VirtOfPhys(p.base, 0x1FD + k);
    hide SpawnTable, Phys, VirtOf, ImageByte;
    assert FrameByte(p.base, pa);
    assert !Working(j, pa);
  }

  /** Loading one more program: its entry is ready, and earlier entries and footprints are untouched. */
  lemma {:induction false} LoadExtends(ps: seq<Program>, before: Ram, after: Ram, j: nat, file: seq<byte>, i: nat)
    requires j < |ps| <= MAX_PROCS && i <= j && Placed(Tasks(ps)) && ps[j].Fits()
    requires Spawned(before, after, j, file, ps[j].lba, ps[j].nblocks, ps[j].base)
    ensures i == j ==> Suspended(Tasks(ps)[j], after, j) && SavedSp(after, j) == 0xFC
    ensures i < j && Suspended(Tasks(ps)[i], before, i) ==>
              Suspended(Tasks(ps)[i], after, i) && SavedSp(after, i) == SavedSp(before, i)
    ensures i < j ==> View(after, Tasks(ps)[i]) == View(before, Tasks(ps)[i])
  {
    hide SpawnTable, Phys, VirtOf, ImageByte, FrameBytes;
    if i == j {
      assert Stack(0xFC, 1) == 0x1FD && Stack(0xFC, 2) == 0x1FE && Stack(0xFC, 3) == 0x1FF;
    } else {
      forall va | va in Tasks(ps)[i].fp
        ensures after[Phys(Tasks(ps)[i].table, va)] == before[Phys(Tasks(ps)[i].table, va)]
      {
        OthersByteKept(ps, before, after, j, file, i, va);
      }
      forall a | Entry(i) <= a < Entry(i) + ENTRY_SIZE
        ensures after[a] == before[a]
      {
        EntryByteKept(ps, before, after, j, file, a);
      }
    }
  }

  lemma {:induction false} OthersByteKept(ps: seq<Program>, before: Ram, after: Ram, j: nat, file: seq<byte>, i: nat,
      va: int)
    requires i < j < |ps| <= MAX_PROCS && Placed(Tasks(ps)) && ps[j].Fits() && va in ps[i].fp
    requires Spawned(before, after, j, file, ps[j].lba, ps[j].nblocks, ps[j].base)
    ensures 0 <= va < RAM_SIZE && after[Phys(SpawnTable(ps[i].base), va)] == before[Phys(SpawnTable(ps[i].base), va)]
  {
    hide SpawnTable, Phys, VirtOf, ImageByte, FrameBytes;
    assert va in Tasks(ps)[i].fp;
    var pa := Phys(Tasks(ps)[i].table, va);
    PhysOfVirt(ps[j].base, pa);
    assert Pair(i, va, j, VirtOf(ps[j].base, pa));
    assert !Working(j, pa);
  }

  lemma {:induction false} EntryByteKept(ps: seq<Program>, before: Ram, after: Ram, j: nat, file: seq<byte>, a: nat)
    requires j < |ps| <= MAX_PROCS && Placed(Tasks(ps)) && ps[j].Fits() && PLIST <= a < Entry(j)
    requires Spawned(before, after, j, file, ps[j].lba, ps[j].nblocks, ps[j].base)
    ensures after[a] == before[a]
  {
    hide SpawnTable, Phys, VirtOf, ImageByte, FrameBytes;
    PhysOfVirt(ps[j].base, a);
    assert !Working(j, a);
    assert VirtOf(ps[j].base, a) !in Tasks(ps)[j].fp;
  }

  // ---- sched_start ----

  /** Process j as its table entry will start it. */
  ghost function Fresh(tasks: seq<Task>, ram: Ram, j: nat): Private
    requires j < |tasks| <= MAX_PROCS
  {
    var mem := View(ram, tasks[j]);
    Private(Resume(mem, Regs(tasks[j].table[31], 32, OFF_PPN + 32, SavedSp(ram, j), 0, 0)), mem)
  }

  /** The loop that opens all 32 pages to user mode. */
  method OpenAll(m: Machine)
    requires m.Core() && m.KernelMode()
    modifies m.mmu, m`a, m`x
    ensures m.Core() && m.KernelMode() && Mmu6502.Open(m.mmu.Snap()) && m.mmu.ppn == old(m.mmu.ppn)
  {
    m.a := 0xFF;
    m.x := 3;
    while true
      invariant m.Core() && m.KernelMode() && m.x <= 3 && m.a == 0xFF && m.mmu.ppn == old(m.mmu.ppn)
      invariant forall k :: m.x < k <= 3 ==> m.mmu.uBits[k] == 0xFF && m.mmu.wBits[k] == 0xFF
      decreases m.x
    {
      m.mmu.Clock(Mmu6502.Bus(Mmu6502.UBITS + m.x, true, m.a, false));
      m.mmu.Clock(Mmu6502.Bus(Mmu6502.WBITS + m.x, true, m.a, false));
      if m.x == 0 {
        break;
      }
      m.x := m.x - 1;
    }
  }

  /** sched_start, for any table: entry 0 is marked RUNNING, and its page table and stack pointer are what
      the machine goes to user mode with. */
  method SchedStart(m: Machine)
    requires m.Core() && m.KernelMode()
    modifies m.ram, m.mmu, m`a, m`x, m`y, m`sp, m`p, m`pc, m`plistIdx
    ensures m.Core() && m.UserMode() && m.plistIdx == 0
    ensures SameOffScratch(SetState(old(m.ram[..]), 0, RUNNING), m.ram[..])
    ensures m.mmu.ppn == SavedTable(old(m.ram[..]), 0)
    ensures m.Snap().r == Rti(m.ram[..], m.mmu.ppn, AfterRestore(old(m.ram[..]), 0))
  {
    m.plistIdx := 0;
    OpenAll(m);
    LoadSelected(m);
    Trap.RetUserMode(m);
    RtiIgnores(m.ram[..], m.mmu.ppn, AfterRestore(old(m.ram[..]), 0), old(m.p), old(m.pc));
  }

  lemma {:induction false} RtiIgnores(ram: Ram, t: Table, r: Regs, p: byte, pc: word)
    ensures Rti(ram, t, r.(p := p, pc := pc)) == Rti(ram, t, r)
  {
  }

  /** sched_start on a table of ready processes: process 0 runs, every process stands where its loader put
      it, and the invariant of every run holds. */
  lemma {:induction false} SchedStarts(tasks: seq<Task>, start: Ram, t: Sys)
    requires Placed(tasks) && 0 < |tasks| == t.nprocs <= MAX_PROCS && t.idx == 0
    requires forall j :: 0 <= j < |tasks| ==> Suspended(tasks[j], start, j)
    requires SameOffScratch(SetState(start, 0, RUNNING), t.ram) && t.ppn == SavedTable(start, 0)
    requires t.r == Rti(t.ram, t.ppn, AfterRestore(start, 0))
    ensures Inv(tasks, t)
    ensures forall j :: 0 <= j < |tasks| ==> Logical(tasks, t, j) == Fresh(tasks, start, j)
  {
    StartedInv(tasks, start, t.ram);
    StartedLogical(tasks, start, t);
  }

  /** The table and the memories when the first process is dispatched. */
  ghost predicate Dispatched(tasks: seq<Task>, start: Ram, ram: Ram)
    requires 0 < |tasks| <= MAX_PROCS
  {
    && SavedTable(start, 0) == tasks[0].table
    && StateOf(ram, 0) == RUNNING
    && (forall j :: 0 < j < |tasks| ==> Suspended(tasks[j], ram, j))
    && (forall j :: 0 <= j < |tasks| ==>
          SavedSp(ram, j) == SavedSp(start, j) && View(ram, tasks[j]) == View(start, tasks[j]))
    && AfterRestore(start, 0) == Regs(tasks[0].table[31], 32, OFF_PPN + 32, SavedSp(start, 0), 0, 0)
  }

  lemma {:induction false} StartedInv(tasks: seq<Task>, start: Ram, ram: Ram)
    requires Placed(tasks) && 0 < |tasks| <= MAX_PROCS
    requires forall j :: 0 <= j < |tasks| ==> Suspended(tasks[j], start, j)
    requires SameOffScratch(SetState(start, 0, RUNNING), ram)
    ensures Dispatched(tasks, start, ram)
  {
    assert Suspended(tasks[0], start, 0);
    assert SavedTable(start, 0) == tasks[0].table;
    forall j | 0 <= j < |tasks|
      ensures View(ram, tasks[j]) == View(start, tasks[j]) && SavedSp(ram, j) == SavedSp(start, j)
      ensures j > 0 ==> Suspended(tasks[j], ram, j)
    {
      ViewKernel(tasks, ram, start, j);
      if j > 0 {
        SuspendedKept(tasks[j], start, ram, j);
      }
    }
  }

  lemma {:induction false} StartedLogical(tasks: seq<Task>, start: Ram, t: Sys)
    requires Placed(tasks) && 0 < |tasks| <= MAX_PROCS && Suspended(tasks[0], start, 0)
    requires Dispatched(tasks, start, t.ram)
    requires t.idx == 0 && t.nprocs == |tasks| && t.ppn == tasks[0].table
    requires t.r == Rti(t.ram, t.ppn, AfterRestore(start, 0))
    ensures Inv(tasks, t)
    ensures forall j :: 0 <= j < |tasks| ==> Logical(tasks, t, j) == Fresh(tasks, start, j)
  {
    RtiIsResume(tasks, t.ram, 0, AfterRestore(start, 0));
  }

  // ---- The kernel's main (main.c) ----

  /** A process's memory as loaded: its sectors from $1000 on and the start frame on its stack. */
  ghost predicate FreshMemory(p: Program, mem: Memory, file: seq<byte>) {
    && (forall off :: 0 <= off < 512 * p.nblocks ==> Peek(mem, IMAGE + off) == ImageByte(file, p.lba, off))
    && Peek(mem, 0x1FD) == 0x20
    && Peek(mem, 0x1FE) == Disk.Sector(file, p.lba)[4]
    && Peek(mem, 0x1FF) == Disk.Sector(file, p.lba)[5]
  }

  /** Entry j is ready to run program j. */
  ghost predicate ReadyToRun(ps: seq<Program>, ram: Ram, file: seq<byte>, j: nat)
    requires j < |ps| <= MAX_PROCS
  {
    && Suspended(Tasks(ps)[j], ram, j) && SavedSp(ram, j) == 0xFC && ps[j].lba < 0x1_0000_0000
    && FreshMemory(ps[j], View(ram, Tasks(ps)[j]), file)
  }

  lemma {:induction false} NewIsReady(ps: seq<Program>, before: Ram, after: Ram, j: nat, file: seq<byte>)
    requires j < |ps| <= MAX_PROCS && Placed(Tasks(ps)) && ps[j].Fits()
    requires Spawned(before, after, j, file, ps[j].lba, ps[j].nblocks, ps[j].base)
    ensures ReadyToRun(ps, after, file, j)
  {
    hide SpawnTable, Phys, VirtOf, ImageByte, Spawned, LoadSafe, EntryPoint;
    PlacedIsSafe(ps, j);
    LoadExtends(ps, before, after, j, file, j);
    var mem := View(after, Tasks(ps)[j]);
    forall off | 0 <= off < 512 * ps[j].nblocks
      ensures Peek(mem, IMAGE + off) == ImageByte(file, ps[j].lba, off)
    {
      ImageSeen(before, after, j, file, ps[j], off);
      PeekView(Tasks(ps), after, j, IMAGE + off);
    }
    FrameSeen(before, after, j, file, ps[j], 0);
    FrameSeen(before, after, j, file, ps[j], 1);
    FrameSeen(before, after, j, file, ps[j], 2);
    PeekView(Tasks(ps), after, j, 0x1FD);
    PeekView(Tasks(ps), after, j, 0x1FE);
    PeekView(Tasks(ps), after, j, 0x1FF);
  }

  lemma {:induction false} OldStaysReady(ps: seq<Program>, before: Ram, after: Ram, j: nat, file: seq<byte>, i: nat)
    requires i < j < |ps| <= MAX_PROCS && Placed(Tasks(ps)) && ps[j].Fits()
    requires Spawned(before, after, j, file, ps[j].lba, ps[j].nblocks, ps[j].base) && ReadyToRun(ps, before, file, i)
    ensures ReadyToRun(ps, after, file, i)
  {
    hide Spawned, View, FreshMemory, Suspended;
    LoadExtends(ps, before, after, j, file, i);
  }

  /** RTI with SP $FC over the start frame. */
  lemma {:induction false} ResumeStartFrame(mem: Memory, r: Regs, lo: byte, hi: byte)
    requires r.sp == 0xFC && Peek(mem, 0x1FD) == 0x20 && Peek(mem, 0x1FE) == lo && Peek(mem, 0x1FF) == hi
    ensures Resume(mem, r) == r.(sp := 0xFF, p := 0, pc := lo as int + 0x100 * hi as int)
  {
  }

  /** The process is about to execute at the address in bytes 4 and 5 of its header, which are also the
      bytes it sees at $1004 and $1005. */
  ghost predicate AtEntry(p: Program, now: Private, file: seq<byte>) {
    var h := Disk.Sector(file, p.lba);
    && now.r.pc == h[4] as int + 0x100 * h[5] as int
    && (p.nblocks > 0 ==> now.r.pc == Peek(now.mem, 0x1004) as int + 0x100 * Peek(now.mem, 0x1005) as int)
  }

  lemma {:induction false} HeaderInMemory(p: Program, mem: Memory, file: seq<byte>)
    requires FreshMemory(p, mem, file) && p.nblocks > 0 && p.lba < 0x1_0000_0000
    ensures var h := Disk.Sector(file, p.lba); Peek(mem, 0x1004) == h[4] && Peek(mem, 0x1005) == h[5]
  {
    assert Peek(mem, IMAGE + 4) == ImageByte(file, p.lba, 4) && Peek(mem, IMAGE + 5) == ImageByte(file, p.lba, 5);
    assert (p.lba + 4 / 512) % 0x1_0000_0000 == p.lba && (p.lba + 5 / 512) % 0x1_0000_0000 == p.lba;
  }

  /** A ready process starts at its header's entry point with SP $FF and clear flags. */
  lemma {:induction false} FreshStart(ps: seq<Program>, ram: Ram, file: seq<byte>, j: nat)
    requires j < |ps| <= MAX_PROCS && ReadyToRun(ps, ram, file, j)
    ensures var now := Fresh(Tasks(ps), ram, j);
            && AtEntry(ps[j], now, file)
            && now.r == Regs(SpawnTable(ps[j].base)[31], 32, OFF_PPN + 32, 0xFF, 0, now.r.pc)
  {
    hide View, Suspended, Resume, Disk.Sector;
    var mem, h := View(ram, Tasks(ps)[j]), Disk.Sector(file, ps[j].lba);
    ResumeStartFrame(mem, Regs(SpawnTable(ps[j].base)[31], 32, OFF_PPN + 32, 0xFC, 0, 0), h[4], h[5]);
    if ps[j].nblocks > 0 {
      HeaderInMemory(ps[j], mem, file);
    }
  }

  /** A refused load, also of a fifth program, changes no earlier entry and no footprint. */
  lemma {:induction false} RefusedStaysReady(ps: seq<Program>, before: Ram, after: Ram, j: nat, base: byte,
      file: seq<byte>, i: nat)
    requires i < j <= MAX_PROCS && i < |ps| <= MAX_PROCS && Placed(Tasks(ps)) && ReadyToRun(ps, before, file, i)
    requires Refused(before, after, j, base)
    ensures ReadyToRun(ps, after, file, i)
  {
    hide SpawnTable, Phys, FreshMemory, View, Placed;
    ViewKernel(Tasks(ps), before, after, i);
    SuspendedKept(Tasks(ps)[i], before, after, i);
  }

  /** Neither a load nor a refusal touches the installed BRK vector. */
  lemma {:induction false} LoadKeepsVector(before: Ram, after: Ram, j: nat, file: seq<byte>, p: Program)
    requires j < MAX_PROCS && LoadSafe(p.base, p.nblocks)
    requires Spawned(before, after, j, file, p.lba, p.nblocks, p.base) || Refused(before, after, j, p.base)
    ensures Trap.Vector(after) == Trap.Vector(before)
  {
    hide SpawnTable, Phys, VirtOf, ImageByte, EntryPoint;
    assert KernelByte(0xFE) && KernelByte(0xFF) && !Working(j, 0xFE) && !Working(j, 0xFF);
  }

  /** What one load of main prints. */
  function LoadText(title: string, file: seq<byte>, lba: nat): seq<byte> {
    KernelIo.Shown(title) + KernelIo.Shown(SpawnMessage(0, true, Disk.Sector(file, lba)))
  }

  /** A title and spawn_bbx for program p with m.nprocs programs ready; p is the next of ps unless its
      header is bad. */
  method LoadProgram(m: Machine, title: string, lba: nat, nblocks: nat, base: byte, ghost ps: seq<Program>,
      ghost p: Program)
    requires m.Valid() && m.nprocs < MAX_PROCS && m.nprocs <= |ps| <= MAX_PROCS && Placed(Tasks(ps)) && p.Fits()
    requires (lba, nblocks, base) == (p.lba, p.nblocks, p.base) && LoadSafe(base, nblocks) && m.disk.open
    requires Magic(Disk.Sector(m.disk.file, lba)) ==> m.nprocs < |ps| && ps[m.nprocs] == p
    requires forall i :: 0 <= i < m.nprocs ==> ReadyToRun(ps, m.ram[..], m.disk.file, i)
    modifies m.ram, m.con, m.disk, m.disk.buf, m`a, m`x, m`y, m`nprocs
    ensures m.Valid() && m.disk.file == old(m.disk.file) && Trap.Vector(m.ram[..]) == Trap.Vector(old(m.ram[..]))
    ensures m.nprocs == old(m.nprocs) + if Magic(Disk.Sector(m.disk.file, lba)) then 1 else 0
    ensures m.nprocs <= |ps| && forall i :: 0 <= i < m.nprocs ==> ReadyToRun(ps, m.ram[..], m.disk.file, i)
    ensures !Magic(Disk.Sector(m.disk.file, lba)) ==> Refused(old(m.ram[..]), m.ram[..], m.nprocs, base)
    ensures var text := LoadText(title, m.disk.file, lba); KernelIo.Printed(old(m.con.Snap()), m.con.Snap(), text, text)
  {
    hide LoadSafe, Spawned, Refused, ReadyToRun, Working, Placed, Magic, KernelIo.Printed, KernelIo.Shown, Trap.Vector;
    ghost var before, file, j, con := m.ram[..], m.disk.file, m.nprocs, m.con.Snap();
    KernelIo.KPrintLiteral(m.con, title);
    ghost var titled := m.con.Snap();
    var err := SpawnBbx(m, lba, nblocks, base);
    ghost var after, t1 := m.ram[..], KernelIo.Shown(title);
    ghost var t2 := KernelIo.Shown(SpawnMessage(0, true, Disk.Sector(file, lba)));
    KernelIo.PrintedThen(con, titled, m.con.Snap(), t1, t1, t2, t2);
    LoadKeepsVector(before, after, j, file, p);
    StaysReady(ps, p, before, after, j, file, err);
  }

  /** After a load, successful or refused, the registered programs are ready. */
  lemma {:induction false} StaysReady(ps: seq<Program>, p: Program, before: Ram, after: Ram, j: nat, file: seq<byte>,
      err: byte)
    requires j < MAX_PROCS && j <= |ps| <= MAX_PROCS && Placed(Tasks(ps)) && p.Fits()
    requires forall i :: 0 <= i < j ==> ReadyToRun(ps, before, file, i)
    requires if err == 0 then j < |ps| && ps[j] == p && Spawned(before, after, j, file, p.lba, p.nblocks, p.base)
             else Refused(before, after, j, p.base)
    ensures forall i :: 0 <= i < (if err == 0 then j + 1 else j) ==> ReadyToRun(ps, after, file, i)
  {
    hide Spawned, Refused, ReadyToRun, Placed;
    if err == 0 {
      NewIsReady(ps, before, after, j, file);
    }
    forall i | 0 <= i < j
      ensures ReadyToRun(ps, after, file, i)
    {
      if err == 0 {
        OldStaysReady(ps, before, after, j, file, i);
      } else {
        RefusedStaysReady(ps, before, after, j, p.base, file, i);
      }
    }
  }

  /** The programs of ps that have a BBX header on the disk; main ignores spawn_bbx's result, so these
      are the ones that run, in order. */
  function Present(ps: seq<Program>, file: seq<byte>): (qs: seq<Program>)
    ensures |qs| <= |ps|
  {
    if ps == [] then []
    else
      var p := ps[|ps| - 1];
      Present(ps[..|ps| - 1], file) + if Magic(Disk.Sector(file, p.lba)) then [p] else []
  }

  /** Present programs come from different places of the list, in its order. */
  lemma {:induction false} PresentFrom(ps: seq<Program>, file: seq<byte>, k: nat, l: nat) returns (i: nat, j: nat)
    requires k <= l < |Present(ps, file)|
    ensures i <= j < |ps| && ps[i] == Present(ps, file)[k] && ps[j] == Present(ps, file)[l]
    ensures i == j <==> k == l
  {
    var q := ps[..|ps| - 1];
    if l < |Present(q, file)| {
      i, j := PresentFrom(q, file, k, l);
    } else {
      j := |ps| - 1;
      i := j;
      if k < l {
        var same: nat;
        i, same := PresentFrom(q, file, k, k);
      }
    }
  }

  lemma {:induction false} PresentPlaced(ps: seq<Program>, file: seq<byte>)
    requires Placed(Tasks(ps))
    ensures Placed(Tasks(Present(ps, file)))
  {
    hide SpawnTable, Phys, KernelByte, Present;
    var qs := Present(ps, file);
    forall k, va | 0 <= k < |qs| && va in qs[k].fp
      ensures 0 <= va < RAM_SIZE && !KernelByte(Phys(qs[k].Task().table, va))
    {
      var i, _ := PresentFrom(ps, file, k, k);
      assert va in Tasks(ps)[i].fp;
    }
    forall k, va, l, vb | 0 <= k < |qs| && 0 <= l < |qs| && va in qs[k].fp && vb in qs[l].fp && Pair(k, va, l, vb)
      ensures Phys(qs[k].Task().table, va) == Phys(qs[l].Task().table, vb) ==> k == l && va == vb
    {
      if k <= l {
        var i, j := PresentFrom(ps, file, k, l);
        assert Pair(i, va, j, vb) && va in Tasks(ps)[i].fp && vb in Tasks(ps)[j].fp;
      } else {
        var j, i := PresentFrom(ps, file, l, k);
        assert Pair(i, va, j, vb) && va in Tasks(ps)[i].fp && vb in Tasks(ps)[j].fp;
      }
    }
  }

  function Demo(fps: seq<set<int>>): (ps: seq<Program>)
    requires |fps| == 3
    ensures |ps| == 3
  {
    [Program(200, 1, 1, fps[0]), Program(210, 1, 3, fps[1]), Program(220, 1, 5, fps[2])]
  }

  /** The demo footprints: within the documented layout, and holding the frame and the one sector. */
  ghost predicate DemoFootprints(fps: seq<set<int>>)
    requires |fps| == 3
  {
    && (forall i, va :: 0 <= i < 3 && va in fps[i] ==> DemoAddress(va))
    && (forall i :: 0 <= i < 3 ==> Demo(fps)[i].Fits())
  }

  lemma {:induction false} DemoTasksPlaced(fps: seq<set<int>>, file: seq<byte>)
    requires |fps| == 3 && DemoFootprints(fps)
    ensures forall i :: 0 <= i < 3 ==> Demo(fps)[i].Fits() && LoadSafe(Demo(fps)[i].base, Demo(fps)[i].nblocks)
    ensures Placed(Tasks(Present(Demo(fps), file)))
  {
    DemoPlaced(Tasks(Demo(fps)));
    hide Placed, LoadSafe;
    PresentPlaced(Demo(fps), file);
    forall i | 0 <= i < 3
      ensures LoadSafe(Demo(fps)[i].base, Demo(fps)[i].nblocks)
    {
      PlacedIsSafe(Demo(fps), i);
    }
  }

  /** A program whose header is good, alone. */
  function IfPresent(p: Program, file: seq<byte>): seq<Program> {
    if Magic(Disk.Sector(file, p.lba)) then [p] else []
  }

  lemma {:induction false} DemoPresent(fps: seq<set<int>>, file: seq<byte>)
    requires |fps| == 3
    ensures var d := Demo(fps);
            Present(d, file) == IfPresent(d[0], file) + IfPresent(d[1], file) + IfPresent(d[2], file)
  {
    var d := Demo(fps);
    assert d[..2][..1] == d[..1] && d[..1][..0] == [] && d[..2][1] == d[1] && d[..1][0] == d[0];
    assert Present(d[..1], file) == [] + IfPresent(d[0], file);
    assert Present(d[..2], file) == Present(d[..1], file) + IfPresent(d[1], file);
  }

  /** Where process j stands at its first instruction. */
  ghost predicate AtStart(p: Program, now: Private, file: seq<byte>) {
    && FreshMemory(p, now.mem, file) && AtEntry(p, now, file)
    && now.r == Regs(SpawnTable(p.base)[31], 32, OFF_PPN + 32, 0xFF, 0, now.r.pc)
  }

  lemma {:induction false} ReadyAtStart(ps: seq<Program>, ram: Ram, file: seq<byte>, j: nat)
    requires j < |ps| <= MAX_PROCS && ReadyToRun(ps, ram, file, j)
    ensures Suspended(Tasks(ps)[j], ram, j) && AtStart(ps[j], Fresh(Tasks(ps), ram, j), file)
  {
    FreshStart(ps, ram, file, j);
  }

  method IdentityMap(m: Machine)
    requires m.Core() && m.KernelMode()
    modifies m.mmu
    ensures m.Core() && m.KernelMode() && forall i :: 0 <= i < 32 ==> m.mmu.ppn[i] == i
  {
    var i := 0;
    while i < 32
      invariant m.Core() && m.KernelMode() && i <= 32 && forall k :: 0 <= k < i ==> m.mmu.ppn[k] == k
    {
      m.mmu.Clock(Mmu6502.Bus(Mmu6502.PPN0 + i, true, i, false));
      i := i + 1;
    }
  }

  /** What main prints about sector 0. */
  function SignatureText(open: bool, sector: seq<byte>): string
    requires |sector| == 512
  {
    if !open then "block_read ERROR"
    else if sector[510] == 0x55 && sector[511] == 0xAA then "FAT boot signature OK\r\n"
    else "FAT boot signature MISSING\r\n"
  }

  /** main before the first load: the BRK vector, an identity page table, the FAT signature check. It
      hangs when the disk cannot be read. */
  method KernelInit(m: Machine, handler: word) returns (hung: bool)
    requires m.Valid() && m.KernelMode()
    modifies m.ram, m.mmu, m.con, m.disk, m.disk.buf, m`a, m`x, m`y
    ensures m.Valid() && m.KernelMode() && m.disk.file == old(m.disk.file) && hung == !m.disk.open
    ensures forall i :: 0 <= i < 32 ==> m.mmu.ppn[i] == i
    ensures Trap.Vector(m.ram[..]) == m.ram[0xFE] as int + 0x100 * m.ram[0xFF] as int == handler
    ensures m.nprocs == old(m.nprocs)
    ensures SavedSp(m.ram[..], 0) == SavedSp(old(m.ram[..]), 0)
    ensures var sector := Disk.Sector(m.disk.file, 0);
            var text := KernelIo.Shown(
              if hung then "block_read ERROR"
              else if sector[510] == 0x55 && sector[511] == 0xAA then "FAT boot signature OK\r\n"
              else "FAT boot signature MISSING\r\n");
            text == KernelIo.Shown(SignatureText(m.disk.open, sector))
            && KernelIo.Printed(old(m.con.Snap()), m.con.Snap(), text, text)
  {
    m.ram[0xFE] := Lo(handler);
    m.ram[0xFF] := Hi(handler);
    IdentityMap(m);
    var err := Block.BlockRead(m, 0, BLOCK_BUF);
    if err != 0 {
      KernelIo.KPrintLiteral(m.con, "block_read ERROR");
      return true;
    }
    ghost var sector := Disk.Sector(m.disk.file, 0);
    assert m.ram[BLOCK_BUF + 510] == sector[510] && m.ram[BLOCK_BUF + 511] == sector[511];
    if m.ram[BLOCK_BUF + 510] == 0x55 && m.ram[BLOCK_BUF + 511] == 0xAA {
      KernelIo.KPrintLiteral(m.con, "FAT boot signature OK\r\n");
    } else {
      KernelIo.KPrintLiteral(m.con, "FAT boot signature MISSING\r\n");
    }
    return false;
  }

  /** What main prints up to sched_start. */
  function MainText(open: bool, file: seq<byte>): seq<byte> {
    KernelIo.Shown(SignatureText(open, Disk.Sector(file, 0)))
    + if !open then [] else LoadsText(file) + KernelIo.Shown("Staring scheduler...\r\n")
  }

  function LoadsText(file: seq<byte>): seq<byte> {
    LoadText("Loading hello.c\r\n", file, 200) + LoadText("Loading hello2.c\r\n", file, 210)
    + LoadText("Loading disktest.c\r\n", file, 220)
  }

  /** Three refusals leave the free entry with the last one's page table and an unwritten stack pointer. */
  lemma {:induction false} ThreeRefusals(r0: Ram, r1: Ram, r2: Ram, r3: Ram)
    requires Refused(r0, r1, 0, 1) && Refused(r1, r2, 0, 3) && Refused(r2, r3, 0, 5)
    ensures OnlyTable(r3) && SavedSp(r3, 0) == SavedSp(r0, 0)
  {
  }

  /** Entry 0 holds the page table of the last refused load. */
  ghost predicate OnlyTable(ram: Ram) {
    forall i :: 0 <= i < 32 ==> ram[Entry(0) + OFF_PPN + i] == SpawnTable(5)[i]
  }

  /** The three loads of main, whatever their headers. */
  method LoadDemo(m: Machine, ghost fps: seq<set<int>>)
    requires m.Valid() && m.nprocs == 0 && m.disk.open && |fps| == 3 && DemoFootprints(fps)
    modifies m.ram, m.con, m.disk, m.disk.buf, m`a, m`x, m`y, m`nprocs
    ensures m.Valid() && m.disk.file == old(m.disk.file) && m.nprocs == |Present(Demo(fps), m.disk.file)|
    ensures forall i :: 0 <= i < m.nprocs ==> ReadyToRun(Present(Demo(fps), m.disk.file), m.ram[..], m.disk.file, i)
    ensures Trap.Vector(m.ram[..]) == Trap.Vector(old(m.ram[..]))
    ensures m.nprocs == 0 ==> OnlyTable(m.ram[..]) && SavedSp(m.ram[..], 0) == SavedSp(old(m.ram[..]), 0)
    ensures var text := LoadsText(m.disk.file); KernelIo.Printed(old(m.con.Snap()), m.con.Snap(), text, text)
  {
    hide ReadyToRun, Placed, Magic, DemoFootprints, LoadSafe, Present, Refused, Trap.Vector, KernelIo.Printed, LoadText,
      OnlyTable, SavedSp;
    ghost var ps, file := Present(Demo(fps), m.disk.file), m.disk.file;
    DemoTasksPlaced(fps, file);
    DemoPresent(fps, file);
    ghost var r0, c0 := m.ram[..], m.con.Snap();
    LoadProgram(m, "Loading hello.c\r\n", 200, 1, 1, ps, Demo(fps)[0]);
    ghost var r1, c1, t1 := m.ram[..], m.con.Snap(), LoadText("Loading hello.c\r\n", file, 200);
    LoadProgram(m, "Loading hello2.c\r\n", 210, 1, 3, ps, Demo(fps)[1]);
    ghost var r2, c2, t2 := m.ram[..], m.con.Snap(), LoadText("Loading hello2.c\r\n", file, 210);
    KernelIo.PrintedThen(c0, c1, c2, t1, t1, t2, t2);
    LoadProgram(m, "Loading disktest.c\r\n", 220, 1, 5, ps, Demo(fps)[2]);
    ghost var t3 := LoadText("Loading disktest.c\r\n", file, 220);
    KernelIo.PrintedThen(c0, c2, m.con.Snap(), t1 + t2, t1 + t2, t3, t3);
    if m.nprocs == 0 {
      ThreeRefusals(r0, r1, r2, m.ram[..]);
    }
  }

  /** What main leaves when it has started the scheduler. */
  ghost predicate MainStarted(ps: seq<Program>, t: Sys, file: seq<byte>)
    requires t.nprocs == |ps| <= MAX_PROCS
  {
    Inv(Tasks(ps), t) && forall j :: 0 <= j < |ps| ==> AtStart(ps[j], Logical(Tasks(ps), t, j), file)
  }

  lemma {:induction false} StartsPresent(ps: seq<Program>, start: Ram, file: seq<byte>, t: Sys)
    requires Placed(Tasks(ps)) && 0 < |ps| == t.nprocs <= MAX_PROCS && t.idx == 0
    requires forall j :: 0 <= j < |ps| ==> ReadyToRun(ps, start, file, j)
    requires SameOffScratch(SetState(start, 0, RUNNING), t.ram) && t.ppn == SavedTable(start, 0)
    requires t.r == Rti(t.ram, t.ppn, AfterRestore(start, 0))
    ensures MainStarted(ps, t, file)
  {
    hide ReadyToRun, Placed, AtStart, Inv, Suspended, Fresh, Logical, SetState, SavedTable, Rti, AfterRestore;
    forall j | 0 <= j < |ps|
      ensures Suspended(Tasks(ps)[j], start, j) && AtStart(ps[j], Fresh(Tasks(ps), start, j), file)
    {
      ReadyAtStart(ps, start, file, j);
    }
    SchedStarts(Tasks(ps), start, t);
  }

  lemma {:induction false} SchedKeepsVector(start: Ram, ram: Ram)
    requires SameOffScratch(SetState(start, 0, RUNNING), ram)
    ensures Trap.Vector(ram) == Trap.Vector(start) && SavedSp(ram, 0) == SavedSp(start, 0)
  {
  }

  lemma {:induction false} EmptyNotInv(t: Sys)
    requires t.nprocs == 0
    ensures !Inv([], t)
  {
  }

  lemma {:induction false} NothingMore(text: seq<byte>)
    ensures text + [] == text
  {
  }

  /** main, from the boot ROM's jump to user mode, for any disk. With no readable disk it hangs with a
      message. Otherwise the invariant of every run holds for the demo programs the disk has, each at its
      entry point with its sector at $1000, exactly when there is one; with none the machine enters user
      mode with no process, on the page table of the last refused load and at a stack pointer that no one
      has written. */
  method KernelMain(m: Machine, handler: word, ghost fps: seq<set<int>>) returns (hung: bool)
    requires m.Valid() && m.KernelMode() && m.nprocs == 0
    requires |fps| == 3 && DemoFootprints(fps)
    modifies m, m.ram, m.mmu, m.con, m.disk, m.disk.buf
    ensures m.Valid() && m.disk.file == old(m.disk.file) && hung == !m.disk.open
    ensures Trap.Vector(m.ram[..]) == handler
    ensures var text := MainText(m.disk.open, m.disk.file);
            KernelIo.Printed(old(m.con.Snap()), m.con.Snap(), text, text)
    ensures hung ==> m.KernelMode() && m.nprocs == 0
    ensures !hung ==> m.UserMode() && m.plistIdx == 0 && m.nprocs == |Present(Demo(fps), m.disk.file)|
    ensures var ps := Present(Demo(fps), m.disk.file);
            !hung ==> (MainStarted(ps, m.Snap(), m.disk.file) <==> ps != [])
    ensures !hung && Present(Demo(fps), m.disk.file) == [] ==>
              && m.mmu.ppn == SpawnTable(5) && SavedSp(m.ram[..], 0) == old(m.ram[Entry(0) + OFF_SP])
              && m.Snap().r == Rti(m.ram[..], SpawnTable(5),
                  Regs(SpawnTable(5)[31], 32, OFF_PPN + 32, SavedSp(m.ram[..], 0), 0, 0))
  {
    hide ReadyToRun, Placed, AtStart, DemoFootprints, Inv, Suspended, Logical, Demo, Present, LoadSafe,
      KernelIo.Printed, KernelIo.Shown, LoadsText, SignatureText, Disk.Sector, Trap.Vector, SetState, SpawnTable,
      MainStarted, OnlyTable;
    ghost var ps, file, c0 := Present(Demo(fps), m.disk.file), m.disk.file, m.con.Snap();
    DemoTasksPlaced(fps, file);
    hung := KernelInit(m, handler);
    if hung {
      NothingMore(KernelIo.Shown(SignatureText(false, Disk.Sector(file, 0))));
      return;
    }
    ghost var c1, t1 := m.con.Snap(), KernelIo.Shown(SignatureText(true, Disk.Sector(file, 0)));
    LoadDemo(m, fps);
    ghost var c2, t2 := m.con.Snap(), LoadsText(file);
    KernelIo.KPrintLiteral(m.con, "Staring scheduler...\r\n");
    ghost var t3 := KernelIo.Shown("Staring scheduler...\r\n");
    KernelIo.PrintedThen(c1, c2, m.con.Snap(), t2, t2, t3, t3);
    KernelIo.PrintedThen(c0, c1, m.con.Snap(), t1, t1, t2 + t3, t2 + t3);
    ghost var ram := m.ram[..];
    SchedStart(m);
    SchedKeepsVector(ram, m.ram[..]);
    MainEnds(ps, ram, file, m.Snap());
  }

  /** Registers with which an entry that holds only a page table is started. */
  lemma {:induction false} NoProgram(start: Ram, t: Sys)
    requires SameOffScratch(SetState(start, 0, RUNNING), t.ram) && t.ppn == SavedTable(start, 0)
    requires t.r == Rti(t.ram, t.ppn, AfterRestore(start, 0))
    requires OnlyTable(start)
    ensures t.ppn == SpawnTable(5)
    ensures t.r == Rti(t.ram, t.ppn, Regs(SpawnTable(5)[31], 32, OFF_PPN + 32, SavedSp(t.ram, 0), 0, 0))
  {
    assert forall i :: 0 <= i < 32 ==> t.ppn[i] == SpawnTable(5)[i];
    assert start[Entry(0) + OFF_PPN + 31] == SpawnTable(5)[31];
    hide SpawnTable, Rti;
  }

  /** The two ends of main. */
  lemma {:induction false} MainEnds(ps: seq<Program>, start: Ram, file: seq<byte>, t: Sys)
    requires Placed(Tasks(ps)) && |ps| == t.nprocs <= MAX_PROCS && t.idx == 0
    requires forall j :: 0 <= j < |ps| ==> ReadyToRun(ps, start, file, j)
    requires SameOffScratch(SetState(start, 0, RUNNING), t.ram) && t.ppn == SavedTable(start, 0)
    requires t.r == Rti(t.ram, t.ppn, AfterRestore(start, 0))
    ensures MainStarted(ps, t, file) <==> ps != []
    ensures ps == [] && OnlyTable(start) ==> t.ppn == SpawnTable(5)
    ensures ps == [] && OnlyTable(start) ==>
              t.r == Rti(t.ram, SpawnTable(5), Regs(SpawnTable(5)[31], 32, OFF_PPN + 32, SavedSp(t.ram, 0), 0, 0))
  {
    hide ReadyToRun, Placed, OnlyTable, SetState, SavedTable, Rti, AfterRestore, SpawnTable, Inv, AtStart;
    if ps == [] {
      EmptyNotInv(t);
      assert Tasks(ps) == [];
      if OnlyTable(start) {
        NoProgram(start, t);
      }
    } else {
      StartsPresent(ps, start, file, t);
    }
  }

  /** Which programs are present, in bytes of the image file: headers at 512 times 200, 210 and 220. */
  lemma {:induction false} PresentInBytes(fps: seq<set<int>>, file: seq<byte>)
    requires |fps| == 3
    ensures var if_ := (at: nat, p: Program) =>
              if Disk.At(file, at) == 0x42 && Disk.At(file, at + 1) == 0x58 then [p] else [];
            Present(Demo(fps), file) ==
            if_(102400, Program(200, 1, 1, fps[0])) + if_(107520, Program(210, 1, 3, fps[1]))
              + if_(112640, Program(220, 1, 5, fps[2]))
  {
    forall lba, k | lba in {200, 210, 220} && 0 <= k < 2
      ensures Disk.Sector(file, lba)[k] == Disk.At(file, 512 * lba + k)
    {
      Disk.SectorBytes(file, lba, k);
    }
    DemoPresent(fps, file);
    hide Disk.Sector, Disk.At, Present;
  }

  /** A disk without headers, such as an empty image, is such a disk. */
  lemma {:induction false} EmptyDiskHasNoProgram(fps: seq<set<int>>)
    requires |fps| == 3
    ensures Present(Demo(fps), []) == []
  {
    PresentInBytes(fps, []);
  }
}
