/**
 Processes interleaved by the kernel do not notice each other: in every run, each process's registers
 and footprint go through exactly the steps of that process alone on a private memory. User
 instructions are an arbitrary deterministic function of the registers and the footprint.
 */
module Virtualisation {
  import opened Bytes
  import opened System

  // ---- A process alone ----

  type Memory = map<int, byte>

  /** One user instruction: new registers and the bytes written, by virtual address. */
  type Cpu = (Regs, Memory) -> (Regs, Memory)

  datatype Private = Private(r: Regs, mem: Memory)

  /** What happens next to a process; a call comes back with an answer and leftovers in A, X and Y. */
  datatype Event = Compute | Yielded | Called(ans: Answer, a: byte, x: byte, y: byte)

  function Peek(mem: Memory, va: int): byte {
    if va in mem then mem[va] else 0
  }

  predicate AtBrk(p: Private) {
    Peek(p.mem, p.r.pc) == 0
  }

  function Push(mem: Memory, r: Regs): Memory {
    var next := WrapWord(r.pc + 2);
    mem[Stack(r.sp, 0) := Hi(next)][Stack(r.sp, -1) := Lo(next)][Stack(r.sp, -2) := Pushed(r.p)]
  }

  /** The call's number, read by the kernel after the frame has been pushed. */
  function Number(p: Private): byte {
    Peek(Push(p.mem, p.r), p.r.pc + 1)
  }

  function Resume(mem: Memory, r: Regs): Regs {
    r.(p := Flags(Peek(mem, Stack(r.sp, 1))),
       pc := Word(Peek(mem, Stack(r.sp, 2)), Peek(mem, Stack(r.sp, 3))),
       sp := Wrap(r.sp + 3))
  }

  function Arg(mem: Memory, off: nat): word {
    Word(Peek(mem, off), Peek(mem, off + 1))
  }

  function Receive(mem: Memory, ans: Answer): Memory {
    match ans
    case Code(ret) => mem[RET := ret]
    case Char(c, ret) => mem[A_REG := c][RET := ret]
    case Block(data) =>
      var buf := Arg(mem, ARG1) % RAM_SIZE;
      (map va | va in mem :: if buf <= va < buf + |data| then data[va - buf] else mem[va])[RET := 0]
  }

  /** A yield does nothing here but leave its frame below SP and the loader's leftovers in A, X, Y. */
  function Advance(cpu: Cpu, t: Table, p: Private, e: Event): Private {
    match e
    case Compute =>
      var (r, w) := cpu(p.r, p.mem);
      Private(r, p.mem + w)
    case Yielded =>
      var mem := Push(p.mem, p.r);
      Private(Resume(mem, Regs(t[31], 32, OFF_PPN + 32, PopFrame(p.r.sp), 0, 0)), mem)
    case Called(ans, a, x, y) =>
      var mem := Receive(Push(p.mem, p.r), ans);
      Private(Resume(mem, Regs(a, x, y, PopFrame(p.r.sp), 0, 0)), mem)
  }

  /** The events that may come next. */
  predicate Permitted(p: Private, e: Event) {
    if !AtBrk(p) then e == Compute
    else if Number(p) == SYS_YIELD then e == Yielded
    else e.Called? && Answers(Number(p), e.ans)
  }

  function Alone(cpu: Cpu, t: Table, p: Private, es: seq<Event>): Private {
    if es == [] then p else Advance(cpu, t, Alone(cpu, t, p, es[..|es| - 1]), es[|es| - 1])
  }

  predicate PermittedRun(cpu: Cpu, t: Table, p: Private, es: seq<Event>) {
    es == [] ||
    (PermittedRun(cpu, t, p, es[..|es| - 1]) && Permitted(Alone(cpu, t, p, es[..|es| - 1]), es[|es| - 1]))
  }

  // ---- Footprints ----

  /** A process: its page table and the virtual addresses it uses. */
  datatype Task = Task(table: Table, fp: set<int>)

  /** Kernel image and data ($0000-$0DFF) and the kernel's high page. */
  predicate KernelByte(a: int) {
    a < 0x0E00 || PLIST <= a
  }

  /** Names a pair of footprint bytes for which separation is wanted; always true. */
  predicate Pair(i: int, va: int, j: int, vb: int) {
    true
  }

  /** Footprints lie in RAM, their images miss the kernel, and no physical byte serves twice. */
  ghost predicate Placed(tasks: seq<Task>) {
    && (forall i, va :: 0 <= i < |tasks| && va in tasks[i].fp ==>
          0 <= va < RAM_SIZE && !KernelByte(Phys(tasks[i].table, va)))
    && (forall i, va, j, vb {:trigger Pair(i, va, j, vb)} | 0 <= i < |tasks| && 0 <= j < |tasks|
          && va in tasks[i].fp && vb in tasks[j].fp && Pair(i, va, j, vb) ::
          Phys(tasks[i].table, va) == Phys(tasks[j].table, vb) ==> i == j && va == vb)
  }

  /** n bytes from buf on can be handed to the kernel: its untranslated pointer steps through the same
      bytes. */
  ghost predicate Contiguous(task: Task, buf: int, n: nat) {
    forall va :: 0 <= buf <= va < buf + n ==>
      va in task.fp && va < RAM_SIZE && Phys(task.table, va) == Phys(task.table, buf) + (va - buf)
  }

  /** A string from va on, with its NUL within n + 1 bytes that can be handed to the kernel. */
  ghost predicate Ends(task: Task, mem: Memory, va: int, n: nat) {
    Contiguous(task, va, n + 1) && Peek(mem, va + n) == 0
  }

  /** What the kernel asks of the arguments of call `num`, mem holding them. */
  ghost predicate GoodArguments(task: Task, mem: Memory, num: byte) {
    && (num > SYS_EXIT ==> RET in task.fp && A_REG in task.fp)
    && (num == SYS_PUTS ==>
          ARG0 in task.fp && ARG0 + 1 in task.fp && exists n: nat :: Ends(task, mem, Arg(mem, ARG0) % RAM_SIZE, n))
    && (num == SYS_BLOCK_READ || num == SYS_BLOCK_WRITE ==>
          ARG0 in task.fp && ARG0 + 1 in task.fp && ARG1 in task.fp && ARG1 + 1 in task.fp
          && Contiguous(task, Arg(mem, ARG1) % RAM_SIZE, 512))
  }

  /** One more step of p stays within the footprint. A BRK needs three stack bytes that do not wrap, and
      what its call points to has to be where the kernel looks. */
  ghost predicate Confined(cpu: Cpu, task: Task, p: Private) {
    && p.r.pc in task.fp
    && (if !AtBrk(p) then cpu(p.r, p.mem).1.Keys <= task.fp
        else
          && p.r.pc + 1 in task.fp && p.r.sp >= 3
          && (forall k :: -2 <= k <= 0 ==> Stack(p.r.sp, k) in task.fp)
          && GoodArguments(task, Push(p.mem, p.r), Number(p)))
  }

  /** Process p has come to `now` through the events es, all of them permitted. */
  ghost predicate Reached(cpu: Cpu, t: Table, p: Private, es: seq<Event>, now: Private) {
    PermittedRun(cpu, t, p, es) && now == Alone(cpu, t, p, es)
  }

  /** Run alone, and however the devices answer, the process keeps to its footprint. */
  ghost predicate WellBehaved(cpu: Cpu, task: Task, p: Private) {
    forall es: seq<Event>, now: Private :: Reached(cpu, task.table, p, es, now) ==> Confined(cpu, task, now)
  }

  // ---- The interleaved machine ----

  /** The footprint as user mode sees it. */
  ghost function View(ram: Ram, task: Task): Memory {
    map va | va in task.fp && 0 <= va < RAM_SIZE :: ram[Phys(task.table, va)]
  }

  /** A user instruction: writes go through the page table, nothing else in RAM changes. */
  ghost predicate UserStep(cpu: Cpu, task: Task, s: Sys, t: Sys) {
    var (r, w) := cpu(s.r, View(s.ram, task));
    && t == Sys(t.ram, s.ppn, r, s.nprocs, s.idx)
    && (forall va :: va in w && 0 <= va < RAM_SIZE ==> t.ram[Phys(s.ppn, va)] == w[va])
    && (forall a :: 0 <= a < RAM_SIZE && (forall va :: va in w && 0 <= va < RAM_SIZE ==> Phys(s.ppn, va) != a)
          ==> t.ram[a] == s.ram[a])
  }

  /** The opcode, fetched through the page table. */
  ghost function Opcode(s: Sys): byte {
    if s.r.pc < RAM_SIZE then s.ram[Phys(s.ppn, s.r.pc)] else 0
  }

  ghost predicate Step(cpu: Cpu, tasks: seq<Task>, s: Sys, e: Event, t: Sys)
    requires s.idx < s.nprocs == |tasks| <= MAX_PROCS
  {
    match e
    case Compute => Opcode(s) != 0 && UserStep(cpu, tasks[s.idx], s, t)
    case Yielded => Opcode(s) == 0 && CallNumber(s) == SYS_YIELD && YieldStep(s, t)
    case Called(ans, a, x, y) =>
      Opcode(s) == 0 && CallStep(s, CallNumber(s), ans, t) && t.r.a == a && t.r.x == x && t.r.y == y
  }

  // ---- The invariant of user-mode points ----

  /** Entry j holds a suspended process: its table, and a stack pointer with a whole frame above it. */
  ghost predicate Suspended(task: Task, ram: Ram, j: nat)
    requires j < MAX_PROCS
  {
    && StateOf(ram, j) == WAITING
    && (forall i :: 0 <= i < 32 ==> ram[Entry(j) + OFF_PPN + i] == task.table[i])
    && SavedSp(ram, j) <= 252
    && (forall k :: 1 <= k <= 3 ==> Stack(SavedSp(ram, j), k) in task.fp)
  }

  ghost predicate Inv(tasks: seq<Task>, s: Sys) {
    && s.idx < s.nprocs == |tasks| <= MAX_PROCS
    && s.ppn == tasks[s.idx].table
    && StateOf(s.ram, s.idx) == RUNNING
    && (forall j :: 0 <= j < |tasks| && j != s.idx ==> Suspended(tasks[j], s.ram, j))
  }

  /** The process a table entry stands for: the live registers, or those its frame will restore. */
  ghost function Logical(tasks: seq<Task>, s: Sys, j: nat): Private
    requires j < |tasks| <= MAX_PROCS
  {
    var mem := View(s.ram, tasks[j]);
    if j == s.idx then Private(s.r, mem)
    else Private(Resume(mem, Regs(tasks[j].table[31], 32, OFF_PPN + 32, SavedSp(s.ram, j), 0, 0)), mem)
  }

  // ---- How RAM changes look to each process ----

  lemma {:induction false} ViewPoke(tasks: seq<Task>, ram: Ram, i: nat, va: int, b: byte, j: nat)
    requires Placed(tasks) && i < |tasks| && j < |tasks| && va in tasks[i].fp
    ensures View(ram[Phys(tasks[i].table, va) := b], tasks[j]) ==
            if i == j then View(ram, tasks[j])[va := b] else View(ram, tasks[j])
  {
    assert forall vb :: vb in tasks[j].fp ==> Pair(i, va, j, vb);
  }

  lemma {:induction false} TablePoke(tasks: seq<Task>, ram: Ram, i: nat, va: int, b: byte)
    requires Placed(tasks) && i < |tasks| && va in tasks[i].fp
    ensures SameTable(ram, ram[Phys(tasks[i].table, va) := b])
  {
  }

  lemma {:induction false} PeekView(tasks: seq<Task>, ram: Ram, i: nat, va: int)
    requires Placed(tasks) && i < |tasks| && va in tasks[i].fp
    ensures Peek(View(ram, tasks[i]), va) == ram[Phys(tasks[i].table, va)]
  {
  }

  /** Changes confined to the kernel's bytes are invisible. */
  lemma {:induction false} ViewKernel(tasks: seq<Task>, q: Ram, r: Ram, j: nat)
    requires Placed(tasks) && j < |tasks|
    requires forall a :: 0 <= a < RAM_SIZE && !KernelByte(a) ==> q[a] == r[a]
    ensures View(q, tasks[j]) == View(r, tasks[j])
  {
  }

  lemma {:induction false} ViewPush(tasks: seq<Task>, ram: Ram, i: nat, r: Regs, j: nat)
    requires Placed(tasks) && i < |tasks| && j < |tasks|
    requires forall k :: -2 <= k <= 0 ==> Stack(r.sp, k) in tasks[i].fp
    ensures View(PushFrame(ram, tasks[i].table, r), tasks[j]) ==
            if i == j then Push(View(ram, tasks[j]), r) else View(ram, tasks[j])
  {
    var next := WrapWord(r.pc + 2);
    var t := tasks[i].table;
    var ram1 := ram[Phys(t, Stack(r.sp, 0)) := Hi(next)];
    var ram2 := ram1[Phys(t, Stack(r.sp, -1)) := Lo(next)];
    ViewPoke(tasks, ram, i, Stack(r.sp, 0), Hi(next), j);
    ViewPoke(tasks, ram1, i, Stack(r.sp, -1), Lo(next), j);
    ViewPoke(tasks, ram2, i, Stack(r.sp, -2), Pushed(r.p), j);
  }

  lemma {:induction false} RtiIsResume(tasks: seq<Task>, ram: Ram, j: nat, r: Regs)
    requires Placed(tasks) && j < |tasks|
    requires forall k :: 1 <= k <= 3 ==> Stack(r.sp, k) in tasks[j].fp
    ensures Rti(ram, tasks[j].table, r) == Resume(View(ram, tasks[j]), r)
  {
    assert Stack(r.sp, 1) in tasks[j].fp && Stack(r.sp, 2) in tasks[j].fp && Stack(r.sp, 3) in tasks[j].fp;
  }

  lemma {:induction false} OpcodeIsPeek(tasks: seq<Task>, s: Sys)
    requires Placed(tasks) && Inv(tasks, s) && s.r.pc in tasks[s.idx].fp
    ensures Opcode(s) == Peek(View(s.ram, tasks[s.idx]), s.r.pc)
  {
  }

  lemma {:induction false} NumberIsPeek(tasks: seq<Task>, s: Sys)
    requires Placed(tasks) && Inv(tasks, s) && s.r.pc + 1 in tasks[s.idx].fp
    requires forall k :: -2 <= k <= 0 ==> Stack(s.r.sp, k) in tasks[s.idx].fp
    ensures CallNumber(s) == Peek(Push(View(s.ram, tasks[s.idx]), s.r), s.r.pc + 1)
  {
    hide Phys, Push, PushFrame;
    ViewPush(tasks, s.ram, s.idx, s.r, s.idx);
    PeekView(tasks, PushFrame(s.ram, s.ppn, s.r), s.idx, s.r.pc + 1);
    assert NumberAt(s.ppn, s.r.pc) == Phys(s.ppn, s.r.pc + 1);
    assert !KernelByte(Phys(s.ppn, s.r.pc + 1));
  }

  /** The frame pushed at sp is the frame RTI finds three bytes below. */
  lemma {:induction false} FrameInFootprint(task: Task, sp: byte)
    requires sp >= 3 && forall k :: -2 <= k <= 0 ==> Stack(sp, k) in task.fp
    ensures PopFrame(sp) == sp - 3 && forall k :: 1 <= k <= 3 ==> Stack(PopFrame(sp), k) in task.fp
  {
    forall k | 1 <= k <= 3
      ensures Stack(PopFrame(sp), k) in task.fp
    {
      assert Stack(PopFrame(sp), k) == Stack(sp, k - 3);
    }
  }

  /** Entries survive any change that misses the process table. */
  lemma {:induction false} SuspendedKept(task: Task, q: Ram, r: Ram, j: nat)
    requires j < MAX_PROCS && Suspended(task, q, j)
    requires forall a :: Entry(j) <= a < Entry(j) + ENTRY_SIZE ==> q[a] == r[a]
    ensures Suspended(task, r, j)
  {
  }

  ghost predicate SameTable(q: Ram, r: Ram) {
    forall a :: PLIST <= a < PLIST + 0x100 ==> q[a] == r[a]
  }

  lemma {:induction false} InvKept(tasks: seq<Task>, s: Sys, t: Sys)
    requires Inv(tasks, s) && SameTable(s.ram, t.ram)
    requires t.ppn == s.ppn && t.nprocs == s.nprocs && t.idx == s.idx
    ensures Inv(tasks, t)
  {
    forall j | 0 <= j < |tasks| && j != t.idx
      ensures Suspended(tasks[j], t.ram, j)
    {
      SuspendedKept(tasks[j], s.ram, t.ram, j);
    }
  }

  /** Other processes stand still while `i` computes or is served. */
  lemma {:induction false} OthersKept(tasks: seq<Task>, s: Sys, t: Sys, j: nat)
    requires Placed(tasks) && Inv(tasks, s) && j < |tasks| && j != s.idx && t.idx == s.idx
    requires SameTable(s.ram, t.ram) && View(s.ram, tasks[j]) == View(t.ram, tasks[j])
    ensures Logical(tasks, t, j) == Logical(tasks, s, j)
  {
  }

  /** The place after k among n. */
  function NextOf(k: nat, n: nat): (m: nat)
    requires k < n
    ensures m < n
  {
    if k + 1 == n then 0 else k + 1
  }

  lemma {:induction false} NextOfIsMod(k: nat, n: nat)
    requires k < n
    ensures NextOf(k, n) == (k + 1) % n
  {
  }

  /** What one step must establish. */
  ghost predicate Simulated(cpu: Cpu, tasks: seq<Task>, s: Sys, e: Event, t: Sys)
    requires Inv(tasks, s)
  {
    && Inv(tasks, t)
    && Permitted(Logical(tasks, s, s.idx), e)
    && t.idx == (if e.Yielded? then NextOf(s.idx, |tasks|) else s.idx)
    && forall j :: 0 <= j < |tasks| ==>
         Logical(tasks, t, j) == if j == s.idx then Advance(cpu, tasks[j].table, Logical(tasks, s, j), e)
                                 else Logical(tasks, s, j)
  }

  /** A user instruction is seen by its own process as its writes, by the kernel and the others not at all. */
  lemma {:induction false} ComputeViews(cpu: Cpu, tasks: seq<Task>, s: Sys, t: Sys, j: nat)
    requires Placed(tasks) && s.idx < |tasks| && s.ppn == tasks[s.idx].table
    requires UserStep(cpu, tasks[s.idx], s, t) && j < |tasks|
    requires cpu(s.r, View(s.ram, tasks[s.idx])).1.Keys <= tasks[s.idx].fp
    ensures View(t.ram, tasks[j]) ==
            if j == s.idx then View(s.ram, tasks[j]) + cpu(s.r, View(s.ram, tasks[j])).1 else View(s.ram, tasks[j])
    ensures SameTable(s.ram, t.ram)
  {
    var w := cpu(s.r, View(s.ram, tasks[s.idx])).1;
    assert forall va, vb :: va in w && vb in tasks[j].fp ==> Pair(s.idx, va, j, vb);
    forall vb | vb in tasks[j].fp
      ensures t.ram[Phys(tasks[j].table, vb)] ==
              if j == s.idx && vb in w then w[vb] else s.ram[Phys(tasks[j].table, vb)]
    {
    }
  }

  lemma {:induction false} ComputeSimulated(cpu: Cpu, tasks: seq<Task>, s: Sys, t: Sys)
    requires Placed(tasks) && Inv(tasks, s) && UserStep(cpu, tasks[s.idx], s, t)
    requires Permitted(Logical(tasks, s, s.idx), Compute)
    requires cpu(s.r, View(s.ram, tasks[s.idx])).1.Keys <= tasks[s.idx].fp
    ensures Simulated(cpu, tasks, s, Compute, t)
  {
    ComputeViews(cpu, tasks, s, t, s.idx);
    InvKept(tasks, s, t);
    forall j | 0 <= j < |tasks| && j != s.idx
      ensures Logical(tasks, t, j) == Logical(tasks, s, j)
    {
      ComputeViews(cpu, tasks, s, t, j);
      OthersKept(tasks, s, t, j);
    }
  }

  /** Pushing a frame does not reach the process table. */
  lemma {:induction false} PushKeepsTable(tasks: seq<Task>, ram: Ram, i: nat, r: Regs)
    requires Placed(tasks) && i < |tasks|
    requires forall k :: -2 <= k <= 0 ==> Stack(r.sp, k) in tasks[i].fp
    ensures SameTable(ram, PushFrame(ram, tasks[i].table, r))
  {
    assert Stack(r.sp, 0) in tasks[i].fp && Stack(r.sp, -1) in tasks[i].fp && Stack(r.sp, -2) in tasks[i].fp;
  }

  lemma {:induction false} SaveEntryBytes(ram: Ram, j: nat, sp: byte, t: Table)
    requires j < MAX_PROCS
    ensures var saved := SaveEntry(ram, j, sp, t);
            && StateOf(saved, j) == WAITING && SavedSp(saved, j) == sp
            && (forall i :: 0 <= i < 32 ==> saved[Entry(j) + OFF_PPN + i] == t[i])
            && forall a :: 0 <= a < RAM_SIZE && !(Entry(j) <= a < Entry(j) + ENTRY_SIZE) ==> saved[a] == ram[a]
  {
    var data := [sp] + t;
    var saved := SaveEntry(ram, j, sp, t);
    assert data[0] == sp;
    forall i | 0 <= i < 32
      ensures saved[Entry(j) + OFF_PPN + i] == t[i]
    {
      assert data[i + 1] == t[i];
    }
  }

  /** After the running process has been saved, every entry is suspended. */
  lemma {:induction false} SavedSuspended(tasks: seq<Task>, ram: Ram, i: nat, sp: byte, j: nat)
    requires i < |tasks| <= MAX_PROCS && j < |tasks|
    requires if j == i then sp >= 3 && forall k :: -2 <= k <= 0 ==> Stack(sp, k) in tasks[i].fp
             else Suspended(tasks[j], ram, j)
    ensures var saved := SaveEntry(ram, i, PopFrame(sp), tasks[i].table);
            Suspended(tasks[j], saved, j) && SavedSp(saved, j) == if j == i then PopFrame(sp) else SavedSp(ram, j)
  {
    SaveEntryBytes(ram, i, PopFrame(sp), tasks[i].table);
    if j == i {
      FrameInFootprint(tasks[i], sp);
    } else {
      SuspendedKept(tasks[j], ram, SaveEntry(ram, i, PopFrame(sp), tasks[i].table), j);
    }
  }

  /** With every entry waiting, the scheduler takes the next one round. */
  lemma {:induction false} ChooseNext(tasks: seq<Task>, ram: Ram, idx: nat)
    requires |tasks| <= MAX_PROCS && idx < |tasks|
    requires forall j :: 0 <= j < |tasks| ==> Suspended(tasks[j], ram, j)
    ensures Choose(ram, idx, |tasks|, 1) == (idx + 1) % |tasks|
  {
    assert Suspended(tasks[Place(idx, 1, |tasks|)], ram, Place(idx, 1, |tasks|));
  }

  /** The frame a yield pushes has room and lies in the running process's footprint. */
  ghost predicate FrameFits(task: Task, sp: byte) {
    sp >= 3 && forall k :: -2 <= k <= 0 ==> Stack(sp, k) in task.fp
  }

  lemma {:induction false} AllSaved(tasks: seq<Task>, s: Sys, j: nat)
    requires Placed(tasks) && Inv(tasks, s) && FrameFits(tasks[s.idx], s.r.sp) && j < |tasks|
    ensures var saved := SaveEntry(PushFrame(s.ram, s.ppn, s.r), s.idx, PopFrame(s.r.sp), s.ppn);
            Suspended(tasks[j], saved, j)
            && SavedSp(saved, j) == if j == s.idx then PopFrame(s.r.sp) else SavedSp(s.ram, j)
  {
    PushKeepsTable(tasks, s.ram, s.idx, s.r);
    var pushed := PushFrame(s.ram, s.ppn, s.r);
    if j != s.idx {
      SuspendedKept(tasks[j], s.ram, pushed, j);
    }
    SavedSuspended(tasks, pushed, s.idx, s.r.sp, j);
  }

  /** From a table of suspended entries, the next one round starts to run. */
  lemma {:induction false} NextDispatched(tasks: seq<Task>, saved: Ram, idx: nat, t: Sys)
    requires idx < |tasks| == t.nprocs <= MAX_PROCS && t.idx == Choose(saved, idx, |tasks|, 1)
    requires forall j :: 0 <= j < |tasks| ==> Suspended(tasks[j], saved, j)
    requires SameOffScratch(SetState(saved, t.idx, RUNNING), t.ram)
    requires t.ppn == SavedTable(SetState(saved, t.idx, RUNNING), t.idx)
    ensures t.idx == (idx + 1) % |tasks| && Inv(tasks, t)
    ensures forall j :: 0 <= j < |tasks| ==> SavedSp(t.ram, j) == SavedSp(saved, j)
    ensures saved[Entry(t.idx) + OFF_PPN + 31] == t.ppn[31]
  {
    ChooseNext(tasks, saved, idx);
    assert Suspended(tasks[t.idx], saved, t.idx);
    assert t.ppn == tasks[t.idx].table;
    forall j | 0 <= j < |tasks| && j != t.idx
      ensures Suspended(tasks[j], t.ram, j)
    {
      SuspendedKept(tasks[j], saved, t.ram, j);
    }
  }

  /** The process table after a yield. */
  lemma {:induction false} YieldEntries(tasks: seq<Task>, s: Sys, t: Sys)
    requires Placed(tasks) && Inv(tasks, s) && YieldStep(s, t) && FrameFits(tasks[s.idx], s.r.sp)
    ensures t.idx == (s.idx + 1) % |tasks| && Inv(tasks, t)
    ensures forall j :: 0 <= j < |tasks| ==>
              SavedSp(t.ram, j) == if j == s.idx then PopFrame(s.r.sp) else SavedSp(s.ram, j)
    ensures forall k :: 1 <= k <= 3 ==> Stack(SavedSp(t.ram, t.idx), k) in tasks[t.idx].fp
    ensures t.r == Rti(t.ram, t.ppn, Regs(t.ppn[31], 32, OFF_PPN + 32, SavedSp(t.ram, t.idx), 0, 0))
  {
    var saved := SaveEntry(PushFrame(s.ram, s.ppn, s.r), s.idx, PopFrame(s.r.sp), s.ppn);
    forall j | 0 <= j < |tasks|
      ensures Suspended(tasks[j], saved, j)
      ensures SavedSp(saved, j) == if j == s.idx then PopFrame(s.r.sp) else SavedSp(s.ram, j)
    {
      AllSaved(tasks, s, j);
    }
    YieldDispatches(tasks, saved, s, t);
  }

  lemma {:induction false} YieldDispatches(tasks: seq<Task>, saved: Ram, s: Sys, t: Sys)
    requires s.idx < s.nprocs == |tasks| <= MAX_PROCS
    requires YieldStep(s, t) && saved == SaveEntry(PushFrame(s.ram, s.ppn, s.r), s.idx, PopFrame(s.r.sp), s.ppn)
    requires forall j :: 0 <= j < |tasks| ==> Suspended(tasks[j], saved, j)
    ensures t.idx == (s.idx + 1) % |tasks| && Inv(tasks, t)
    ensures forall j :: 0 <= j < |tasks| ==> SavedSp(t.ram, j) == SavedSp(saved, j)
    ensures forall k :: 1 <= k <= 3 ==> Stack(SavedSp(t.ram, t.idx), k) in tasks[t.idx].fp
    ensures t.r == Rti(t.ram, t.ppn, Regs(t.ppn[31], 32, OFF_PPN + 32, SavedSp(t.ram, t.idx), 0, 0))
  {
    NextDispatched(tasks, saved, s.idx, t);
    assert Suspended(tasks[t.idx], saved, t.idx);
  }

  lemma {:induction false} YieldChangesKernelOnly(tasks: seq<Task>, s: Sys, t: Sys)
    requires Inv(tasks, s) && YieldStep(s, t)
    ensures forall a :: 0 <= a < RAM_SIZE && !KernelByte(a) ==> t.ram[a] == PushFrame(s.ram, s.ppn, s.r)[a]
  {
    hide PushFrame, Phys;
    SaveEntryBytes(PushFrame(s.ram, s.ppn, s.r), s.idx, PopFrame(s.r.sp), s.ppn);
  }

  /** The memories after a yield: only the one who yielded sees a change, its own frame. */
  lemma {:induction false} YieldViews(tasks: seq<Task>, s: Sys, t: Sys, j: nat)
    requires Placed(tasks) && Inv(tasks, s) && YieldStep(s, t) && FrameFits(tasks[s.idx], s.r.sp) && j < |tasks|
    ensures View(t.ram, tasks[j]) == if j == s.idx then Push(View(s.ram, tasks[j]), s.r) else View(s.ram, tasks[j])
  {
    hide YieldStep, Placed, PushFrame, View, KernelByte, Push;
    YieldChangesKernelOnly(tasks, s, t);
    ViewKernel(tasks, PushFrame(s.ram, s.ppn, s.r), t.ram, j);
    ViewPush(tasks, s.ram, s.idx, s.r, j);
  }

  lemma {:induction false} YieldLogical(cpu: Cpu, tasks: seq<Task>, s: Sys, t: Sys, j: nat)
    requires Placed(tasks) && Inv(tasks, s) && YieldStep(s, t) && FrameFits(tasks[s.idx], s.r.sp) && j < |tasks|
    ensures Logical(tasks, t, j) == if j == s.idx then Advance(cpu, tasks[j].table, Logical(tasks, s, j), Yielded)
                                    else Logical(tasks, s, j)
  {
    hide YieldStep, Placed, View, Push, Phys, Rti, Resume;
    YieldEntries(tasks, s, t);
    YieldViews(tasks, s, t, j);
    if j == t.idx {
      RtiIsResume(tasks, t.ram, j, Regs(t.ppn[31], 32, OFF_PPN + 32, SavedSp(t.ram, j), 0, 0));
    }
  }

  lemma {:induction false} YieldSimulated(cpu: Cpu, tasks: seq<Task>, s: Sys, t: Sys)
    requires Placed(tasks) && Inv(tasks, s) && YieldStep(s, t) && FrameFits(tasks[s.idx], s.r.sp)
    requires Permitted(Logical(tasks, s, s.idx), Yielded)
    ensures Simulated(cpu, tasks, s, Yielded, t)
  {
    hide Placed, Advance, Logical, YieldStep;
    YieldEntries(tasks, s, t);
    NextOfIsMod(s.idx, |tasks|);
    forall j | 0 <= j < |tasks|
      ensures Logical(tasks, t, j) == if j == s.idx then Advance(cpu, tasks[j].table, Logical(tasks, s, j), Yielded)
                                      else Logical(tasks, s, j)
    {
      YieldLogical(cpu, tasks, s, t, j);
    }
  }

  lemma {:induction false} ViewStore(tasks: seq<Task>, ram: Ram, i: nat, ans: Answer, j: nat)
    requires Placed(tasks) && i < |tasks| && j < |tasks|
    requires CanReceive(tasks[i], View(ram, tasks[i]), ans)
    ensures View(Store(ram, tasks[i].table, ans), tasks[j]) ==
            if i == j then Receive(View(ram, tasks[j]), ans) else View(ram, tasks[j])
    ensures SameTable(ram, Store(ram, tasks[i].table, ans))
  {
    hide Placed, View, Phys, Blit, Contiguous;
    var t := tasks[i].table;
    match ans
    case Code(ret) =>
      TablePoke(tasks, ram, i, RET, ret);
      ViewPoke(tasks, ram, i, RET, ret, j);
    case Char(c, ret) =>
      TablePoke(tasks, ram, i, A_REG, c);
      TablePoke(tasks, ram[Zp(t, A_REG) := c], i, RET, ret);
      ViewPoke(tasks, ram, i, A_REG, c, j);
      ViewPoke(tasks, ram[Zp(t, A_REG) := c], i, RET, ret, j);
    case Block(data) =>
      var buf := Arg(View(ram, tasks[i]), ARG1) % RAM_SIZE;
      PeekView(tasks, ram, i, ARG1);
      PeekView(tasks, ram, i, ARG1 + 1);
      assert UserPtr(t, UserWord(ram, t, ARG1)) == Phys(t, buf);
      TablePoke(tasks, Blit(ram, Phys(t, buf), data), i, RET, 0);
      ViewBlit(tasks, ram, i, buf, data, j);
      ViewPoke(tasks, Blit(ram, Phys(t, buf), data), i, RET, 0, j);
  }

  /** A physical byte of the kernel's 512-byte window is a byte of the caller's buffer, and of no one
      else's footprint. */
  lemma {:induction false} InBuffer(tasks: seq<Task>, i: nat, buf: int, j: nat, va: int)
    requires Placed(tasks) && i < |tasks| && j < |tasks| && va in tasks[j].fp
    requires 0 <= buf < RAM_SIZE && Contiguous(tasks[i], buf, 512)
    ensures var pa, a := Phys(tasks[i].table, buf), Phys(tasks[j].table, va);
            && (pa <= a < pa + 512 <==> i == j && buf <= va < buf + 512)
            && (i == j && buf <= va < buf + 512 ==> a - pa == va - buf)
  {
    var pa, a := Phys(tasks[i].table, buf), Phys(tasks[j].table, va);
    if pa <= a < pa + 512 {
      var vb := buf + (a - pa);
      assert vb in tasks[i].fp && Phys(tasks[i].table, vb) == a;
      assert Pair(i, vb, j, va);
    }
  }

  lemma {:induction false} WindowMissesKernel(tasks: seq<Task>, i: nat, buf: int, n: nat, a: int)
    requires Placed(tasks) && i < |tasks| && 0 <= buf < RAM_SIZE && Contiguous(tasks[i], buf, n)
    requires Phys(tasks[i].table, buf) <= a < Phys(tasks[i].table, buf) + n
    ensures !KernelByte(a)
  {
    var va := buf + (a - Phys(tasks[i].table, buf));
    assert va in tasks[i].fp && Phys(tasks[i].table, va) == a;
  }

  /** A sector laid over the buffer's physical bytes is the sector in the caller's virtual buffer. */
  lemma {:induction false} ViewBlit(tasks: seq<Task>, ram: Ram, i: nat, buf: int, data: seq<byte>, j: nat)
    requires Placed(tasks) && i < |tasks| && j < |tasks| && |data| == 512
    requires 0 <= buf < RAM_SIZE && Contiguous(tasks[i], buf, 512)
    ensures var mem := View(ram, tasks[j]);
            View(Blit(ram, Phys(tasks[i].table, buf), data), tasks[j]) ==
            if i == j then map va | va in mem :: if buf <= va < buf + |data| then data[va - buf] else mem[va] else mem
    ensures SameTable(ram, Blit(ram, Phys(tasks[i].table, buf), data))
  {
    var pa := Phys(tasks[i].table, buf);
    forall va | va in tasks[j].fp
      ensures pa <= Phys(tasks[j].table, va) < pa + 512 <==> i == j && buf <= va < buf + 512
      ensures i == j && buf <= va < buf + 512 ==> Phys(tasks[j].table, va) - pa == va - buf
    {
      InBuffer(tasks, i, buf, j, va);
    }
    var after := Blit(ram, pa, data);
    forall a | PLIST <= a < PLIST + 0x100
      ensures ram[a] == after[a]
    {
      if pa <= a < pa + 512 {
        WindowMissesKernel(tasks, i, buf, 512, a);
      }
    }
  }

  /** The process has the slots and the buffer that the answer needs. */
  ghost predicate CanReceive(task: Task, mem: Memory, ans: Answer) {
    && RET in task.fp && A_REG in task.fp
    && (ans.Block? ==> |ans.data| == 512 && ARG1 in task.fp && ARG1 + 1 in task.fp
                       && Contiguous(task, Arg(mem, ARG1) % RAM_SIZE, 512))
  }

  lemma {:induction false} CallViews(tasks: seq<Task>, s: Sys, num: byte, ans: Answer, t: Sys, j: nat)
    requires Placed(tasks) && Inv(tasks, s) && CallStep(s, num, ans, t) && j < |tasks|
    requires FrameFits(tasks[s.idx], s.r.sp) && CanReceive(tasks[s.idx], Push(View(s.ram, tasks[s.idx]), s.r), ans)
    ensures View(t.ram, tasks[j]) ==
            if j == s.idx then Receive(Push(View(s.ram, tasks[j]), s.r), ans) else View(s.ram, tasks[j])
    ensures SameTable(s.ram, t.ram)
  {
    hide Placed, View, Phys, Push, PushFrame, Store, Receive, CanReceive;
    var pushed := PushFrame(s.ram, s.ppn, s.r);
    PushKeepsTable(tasks, s.ram, s.idx, s.r);
    ViewPush(tasks, s.ram, s.idx, s.r, s.idx);
    ViewPush(tasks, s.ram, s.idx, s.r, j);
    ViewStore(tasks, pushed, s.idx, ans, j);
    ViewKernel(tasks, Store(pushed, s.ppn, ans), t.ram, j);
  }

  lemma {:induction false} CallLogical(cpu: Cpu, tasks: seq<Task>, s: Sys, num: byte, e: Event, t: Sys)
    requires Placed(tasks) && Inv(tasks, s) && FrameFits(tasks[s.idx], s.r.sp)
    requires e.Called? && CallStep(s, num, e.ans, t) && (t.r.a, t.r.x, t.r.y) == (e.a, e.x, e.y)
    requires CanReceive(tasks[s.idx], Push(View(s.ram, tasks[s.idx]), s.r), e.ans)
    ensures Logical(tasks, t, s.idx) == Advance(cpu, tasks[s.idx].table, Logical(tasks, s, s.idx), e)
  {
    CallViews(tasks, s, num, e.ans, t, s.idx);
    FrameInFootprint(tasks[s.idx], s.r.sp);
    RtiIsResume(tasks, t.ram, s.idx, Regs(e.a, e.x, e.y, PopFrame(s.r.sp), 0, 0));
  }

  lemma {:induction false} CallSimulated(cpu: Cpu, tasks: seq<Task>, s: Sys, num: byte, e: Event, t: Sys)
    requires Placed(tasks) && Inv(tasks, s) && FrameFits(tasks[s.idx], s.r.sp)
    requires e.Called? && CallStep(s, num, e.ans, t) && (t.r.a, t.r.x, t.r.y) == (e.a, e.x, e.y)
    requires CanReceive(tasks[s.idx], Push(View(s.ram, tasks[s.idx]), s.r), e.ans)
    requires Permitted(Logical(tasks, s, s.idx), e)
    ensures Simulated(cpu, tasks, s, e, t)
  {
    CallViews(tasks, s, num, e.ans, t, s.idx);
    InvKept(tasks, s, t);
    CallLogical(cpu, tasks, s, num, e, t);
    forall j | 0 <= j < |tasks| && j != s.idx
      ensures Logical(tasks, t, j) == Logical(tasks, s, j)
    {
      CallViews(tasks, s, num, e.ans, t, j);
      OthersKept(tasks, s, t, j);
    }
  }

  lemma {:induction false} OnlyReadsDeliverBlocks(num: byte, ans: Answer)
    requires Answers(num, ans)
    ensures num > SYS_EXIT && (ans.Block? ==> num == SYS_BLOCK_READ && |ans.data| == 512)
  {
  }

  /** The bytes fetched select the kind of step. */
  ghost predicate Fetched(s: Sys, e: Event) {
    match e
    case Compute => Opcode(s) != 0
    case Yielded => Opcode(s) == 0 && CallNumber(s) == SYS_YIELD
    case Called(ans, _, _, _) => Opcode(s) == 0 && Answers(CallNumber(s), ans)
  }

  /** The machine fetches the opcode and the number byte that the process sees. */
  lemma {:induction false} FetchedPermitted(cpu: Cpu, tasks: seq<Task>, s: Sys, e: Event)
    requires Placed(tasks) && Inv(tasks, s) && Fetched(s, e)
    requires Confined(cpu, tasks[s.idx], Logical(tasks, s, s.idx))
    ensures Permitted(Logical(tasks, s, s.idx), e)
    ensures !e.Compute? ==> FrameFits(tasks[s.idx], s.r.sp)
    ensures e.Called? ==> CanReceive(tasks[s.idx], Push(View(s.ram, tasks[s.idx]), s.r), e.ans)
  {
    hide Placed, Push, Phys, PushFrame, CallNumber, Opcode, View;
    OpcodeIsPeek(tasks, s);
    if !e.Compute? {
      NumberIsPeek(tasks, s);
      if e.Called? {
        OnlyReadsDeliverBlocks(CallNumber(s), e.ans);
      }
    }
  }

  // ---- Whole runs ----

  ghost predicate StepAt(cpu: Cpu, tasks: seq<Task>, states: seq<Sys>, es: seq<Event>, i: nat)
    requires |states| == |es| + 1 && i < |es|
  {
    && states[i].idx < states[i].nprocs == |tasks| <= MAX_PROCS
    && Step(cpu, tasks, states[i], es[i], states[i + 1])
  }

  /** A run: states at user-mode points and the event between each two. */
  ghost predicate IsRun(cpu: Cpu, tasks: seq<Task>, states: seq<Sys>, es: seq<Event>) {
    && |states| == |es| + 1
    && forall i :: 0 <= i < |es| ==> StepAt(cpu, tasks, states, es, i)
  }

  /** A run of placed, well-behaved processes from a user-mode point that satisfies the invariant. */
  ghost predicate GoodRun(cpu: Cpu, tasks: seq<Task>, states: seq<Sys>, es: seq<Event>) {
    && Placed(tasks) && |tasks| <= MAX_PROCS && IsRun(cpu, tasks, states, es) && Inv(tasks, states[0])
    && forall j :: 0 <= j < |tasks| ==> WellBehaved(cpu, tasks[j], Logical(tasks, states[0], j))
  }

  /** The events of process j among the first i. */
  ghost function Own(states: seq<Sys>, es: seq<Event>, j: nat, i: nat): seq<Event>
    requires |states| == |es| + 1 && i <= |es|
  {
    if i == 0 then []
    else Own(states, es, j, i - 1) + if states[i - 1].idx == j then [es[i - 1]] else []
  }

  lemma {:induction false} StepSimulated(cpu: Cpu, tasks: seq<Task>, s: Sys, e: Event, t: Sys)
    requires Placed(tasks) && Inv(tasks, s) && Step(cpu, tasks, s, e, t)
    requires Confined(cpu, tasks[s.idx], Logical(tasks, s, s.idx))
    ensures Simulated(cpu, tasks, s, e, t)
  {
    assert Fetched(s, e);
    FetchedPermitted(cpu, tasks, s, e);
    match e
    case Compute => ComputeSimulated(cpu, tasks, s, t);
    case Yielded => YieldSimulated(cpu, tasks, s, t);
    case Called(_, _, _, _) => CallSimulated(cpu, tasks, s, CallNumber(s), e, t);
  }

  lemma {:induction false} ReachedNext(cpu: Cpu, t: Table, p: Private, es: seq<Event>, now: Private, e: Event)
    requires Reached(cpu, t, p, es, now) && Permitted(now, e)
    ensures Reached(cpu, t, p, es + [e], Advance(cpu, t, now, e))
  {
    assert (es + [e])[..|es|] == es;
  }

  lemma {:induction false} ReachedConfined(cpu: Cpu, task: Task, p: Private, es: seq<Event>, now: Private)
    requires WellBehaved(cpu, task, p) && Reached(cpu, task.table, p, es, now)
    ensures Confined(cpu, task, now)
  {
  }

  lemma {:induction false} ReachedStep(cpu: Cpu, tasks: seq<Task>, s: Sys, e: Event, t: Sys, start: Private,
      own: seq<Event>, j: nat)
    requires Placed(tasks) && Inv(tasks, s) && Simulated(cpu, tasks, s, e, t) && j < |tasks|
    requires Reached(cpu, tasks[j].table, start, own, Logical(tasks, s, j))
    ensures Reached(cpu, tasks[j].table, start, own + (if s.idx == j then [e] else []), Logical(tasks, t, j))
  {
    hide Placed, Advance, Logical;
    if j == s.idx {
      ReachedNext(cpu, tasks[j].table, start, own, Logical(tasks, s, j), e);
    } else {
      assert own + [] == own;
    }
  }

  /** At point i the invariant holds and each process is where it would be alone after its own events. */
  ghost predicate AsAlone(cpu: Cpu, tasks: seq<Task>, states: seq<Sys>, es: seq<Event>, i: nat)
    requires |tasks| <= MAX_PROCS && |states| == |es| + 1 && i <= |es|
  {
    && Inv(tasks, states[i])
    && forall j :: 0 <= j < |tasks| ==>
         Reached(cpu, tasks[j].table, Logical(tasks, states[0], j), Own(states, es, j, i), Logical(tasks, states[i], j))
  }

  lemma {:induction false} StartsAlone(cpu: Cpu, tasks: seq<Task>, states: seq<Sys>, es: seq<Event>)
    requires |tasks| <= MAX_PROCS && |states| == |es| + 1 && GoodRun(cpu, tasks, states, es)
    ensures AsAlone(cpu, tasks, states, es, 0)
  {
  }

  lemma {:induction false} OneMore(cpu: Cpu, tasks: seq<Task>, states: seq<Sys>, es: seq<Event>, i: nat)
    requires |tasks| <= MAX_PROCS && |states| == |es| + 1 && i < |es| && GoodRun(cpu, tasks, states, es)
    requires AsAlone(cpu, tasks, states, es, i)
    ensures AsAlone(cpu, tasks, states, es, i + 1)
    ensures states[i].idx < |tasks|
    ensures states[i + 1].idx == if es[i].Yielded? then NextOf(states[i].idx, |tasks|) else states[i].idx
  {
    var s, e, t := states[i], es[i], states[i + 1];
    assert StepAt(cpu, tasks, states, es, i) && WellBehaved(cpu, tasks[s.idx], Logical(tasks, states[0], s.idx));
    hide Placed, Step, Logical, WellBehaved, Reached, IsRun, GoodRun;
    ReachedConfined(cpu, tasks[s.idx], Logical(tasks, states[0], s.idx), Own(states, es, s.idx, i),
        Logical(tasks, s, s.idx));
    StepSimulated(cpu, tasks, s, e, t);
    forall j | 0 <= j < |tasks|
      ensures Reached(cpu, tasks[j].table, Logical(tasks, states[0], j), Own(states, es, j, i + 1),
          Logical(tasks, t, j))
    {
      ReachedStep(cpu, tasks, s, e, t, Logical(tasks, states[0], j), Own(states, es, j, i), j);
    }
  }

  /** The main theorem. Whatever the interleaving, the system calls and their answers, each process is
      at every moment where it would be alone after its own events. */
  lemma {:induction false} RunsAlone(cpu: Cpu, tasks: seq<Task>, states: seq<Sys>, es: seq<Event>, i: nat)
    requires |tasks| <= MAX_PROCS && |states| == |es| + 1 && i <= |es| && GoodRun(cpu, tasks, states, es)
    ensures AsAlone(cpu, tasks, states, es, i)
    decreases i
  {
    hide GoodRun, AsAlone;
    if i == 0 {
      StartsAlone(cpu, tasks, states, es);
    } else {
      RunsAlone(cpu, tasks, states, es, i - 1);
      OneMore(cpu, tasks, states, es, i - 1);
    }
  }

  // ---- Round robin ----

  /** Yields among the first i events. */
  ghost function Yields(es: seq<Event>, i: nat): nat
    requires i <= |es|
  {
    if i == 0 then 0 else Yields(es, i - 1) + if es[i - 1].Yielded? then 1 else 0
  }

  /** The running index after `turns` yields. */
  function Turn(idx: nat, n: nat, turns: nat): (k: nat)
    requires idx < n
    ensures k < n
  {
    if turns == 0 then idx else NextOf(Turn(idx, n, turns - 1), n)
  }

  lemma {:induction false} TurnAdds(idx: nat, n: nat, a: nat, b: nat)
    requires idx < n
    ensures Turn(idx, n, a + b) == Turn(Turn(idx, n, a), n, b)
  {
    if b > 0 {
      TurnAdds(idx, n, a, b - 1);
    }
  }

  lemma {:induction false} WithinRound(k: nat, n: nat, d: nat)
    requires k < n && d <= n
    ensures Turn(k, n, d) == if k + d < n then k + d else k + d - n
  {
    if d > 0 {
      WithinRound(k, n, d - 1);
    }
  }

  /** k yields on, the index is k places further round. */
  lemma {:induction false} TurnIsMod(idx: nat, n: nat, turns: nat)
    requires idx < n <= MAX_PROCS
    ensures Turn(idx, n, turns) == (idx + turns) % n
  {
    if turns > 0 {
      TurnIsMod(idx, n, turns - 1);
      NextOfIsMod((idx + turns - 1) % n, n);
      ModNext(idx + turns - 1, n);
    }
  }

  lemma {:induction false} ModNext(k: nat, n: nat)
    requires 0 < n <= MAX_PROCS
    ensures (k % n + 1) % n == (k + 1) % n
  {
    if n == 1 {
    } else if n == 2 {
    } else if n == 3 {
    } else {
      assert n == 4;
    }
  }

  /** Exactly one entry is RUNNING, the others WAITING, and the turn goes round: after k yields it is
      k places further. */
  lemma {:induction false} RoundRobin(cpu: Cpu, tasks: seq<Task>, states: seq<Sys>, es: seq<Event>, i: nat)
    requires |tasks| <= MAX_PROCS && |states| == |es| + 1 && i <= |es| && GoodRun(cpu, tasks, states, es)
    ensures 0 < |tasks| <= MAX_PROCS && states[i].idx == (states[0].idx + Yields(es, i)) % |tasks|
    ensures forall j :: 0 <= j < |tasks| ==> states[i].ram[0x7000 + 64 * j] == if j == states[i].idx then 2 else 1
  {
    hide GoodRun, AsAlone, Turn;
    StatesAlong(cpu, tasks, states, es, 0);
    StatesAlong(cpu, tasks, states, es, i);
    TurnsAlong(cpu, tasks, states, es, i);
    TurnIsMod(states[0].idx, |tasks|, Yields(es, i));
    forall j | 0 <= j < |tasks|
      ensures states[i].ram[0x7000 + 64 * j] == if j == states[i].idx then 2 else 1
    {
      assert states[i].ram[0x7000 + 64 * j] == StateOf(states[i].ram, j);
    }
  }

  lemma {:induction false} TurnsAlong(cpu: Cpu, tasks: seq<Task>, states: seq<Sys>, es: seq<Event>, i: nat)
    requires |tasks| <= MAX_PROCS && |states| == |es| + 1 && i <= |es| && GoodRun(cpu, tasks, states, es)
    ensures states[0].idx < |tasks| && states[i].idx == Turn(states[0].idx, |tasks|, Yields(es, i))
    decreases i
  {
    hide GoodRun, AsAlone;
    StatesAlong(cpu, tasks, states, es, 0);
    if i > 0 {
      TurnsAlong(cpu, tasks, states, es, i - 1);
      RunsAlone(cpu, tasks, states, es, i - 1);
      OneMore(cpu, tasks, states, es, i - 1);
    }
  }

  lemma {:induction false} StatesAlong(cpu: Cpu, tasks: seq<Task>, states: seq<Sys>, es: seq<Event>, i: nat)
    requires |tasks| <= MAX_PROCS && |states| == |es| + 1 && i <= |es| && GoodRun(cpu, tasks, states, es)
    ensures states[i].idx < |tasks| <= MAX_PROCS
    ensures forall j :: 0 <= j < |tasks| ==>
              StateOf(states[i].ram, j) == if j == states[i].idx then RUNNING else WAITING
  {
    RunsAlone(cpu, tasks, states, es, i);
    forall j | 0 <= j < |tasks|
      ensures StateOf(states[i].ram, j) == if j == states[i].idx then RUNNING else WAITING
    {
      if j != states[i].idx {
        assert Suspended(tasks[j], states[i].ram, j);
      }
    }
  }

  /** Who runs e yields after `turns` yields. */
  function Later(idx: nat, n: nat, turns: nat, e: nat): (k: nat)
    requires idx < n
    ensures k < n
  {
    Turn(idx, n, turns + e)
  }

  /** In the round that follows any turn each of the n processes has exactly one turn, the d-th, and
      the one whose turn it is has the last: between two turns of a process each other one runs once. */
  lemma {:induction false} OneTurnEach(idx: nat, n: nat, turns: nat, j: nat) returns (d: nat)
    requires idx < n && j < n
    ensures 1 <= d <= n && Later(idx, n, turns, d) == j
    ensures forall e :: 1 <= e <= n ==> (Later(idx, n, turns, e) == j <==> e == d)
    ensures d == n <==> j == Turn(idx, n, turns)
  {
    var k := Turn(idx, n, turns);
    d := if j > k then j - k else j - k + n;
    forall e | 1 <= e <= n
      ensures Later(idx, n, turns, e) == j <==> e == d
    {
      TurnAdds(idx, n, turns, e);
      WithinRound(k, n, e);
    }
  }
}
