/**
 The disk and the console over whole runs of interleaved processes: what system calls make of them, in
 terms of each process's own registers and virtual memory.
 */
module Devices {
  import opened Bytes
  import opened System
  import opened Virtualisation
  import opened Rotation
  import Block
  import Console
  import Disk
  import KernelIo
  import Syscalls
  import Transparency

  datatype Dev = Dev(con: Console.Port, file: seq<byte>, open: bool)

  // ---- What a process asks of the devices ----

  /** The string at va in a process's memory. */
  function Text(mem: Memory, va: int): seq<byte>
    decreases RAM_SIZE - va
  {
    if va >= RAM_SIZE || Peek(mem, va) == 0 then [] else [Peek(mem, va)] + Text(mem, va + 1)
  }

  function Buffer(mem: Memory, va: int): (data: seq<byte>)
    ensures |data| == 512
  {
    seq<byte>(512, k requires 0 <= k < 512 => Peek(mem, va + k))
  }

  /** A pointer argument without its bit 15, as u_ptr takes it. */
  function Pointer(mem: Memory, off: nat): nat {
    Arg(mem, off) % RAM_SIZE
  }

  /** What a call with the arguments in mem prints. */
  function Printout(mem: Memory, num: byte): seq<byte> {
    if num == SYS_PUTC then [Peek(mem, A_REG)]
    else if num == SYS_PUTS then Text(mem, Pointer(mem, ARG0))
    else []
  }

  /** The key a call has taken. */
  function Key(num: byte, ans: Answer): seq<byte> {
    if ans.Char? && (num == SYS_GETC || (num == SYS_GETC_NB && ans.ret == 0)) then [ans.c] else []
  }

  function DiskOps(mem: Memory, num: byte): seq<Block.DiskOp> {
    if num == SYS_BLOCK_READ then [Block.ReadOp(Arg(mem, ARG0))]
    else if num == SYS_BLOCK_WRITE then [Block.WriteOp(Arg(mem, ARG0), Buffer(mem, Pointer(mem, ARG1)))]
    else []
  }

  /** The calls by number and by the bytes of the caller's zero page: character and key in $40, code in
      $33, string pointer or LBA in $34 and $35, buffer pointer in $36 and $37. */
  lemma {:induction false} CallsInBytes(mem: Memory, c: byte, ret: byte, data: seq<byte>)
    ensures var w := (k: int) => Peek(mem, k) as int + 0x100 * Peek(mem, k + 1) as int;
            && Printout(mem, 2) == [Peek(mem, 0x40)] && Printout(mem, 4) == Text(mem, w(0x34) % 0x8000)
            && DiskOps(mem, 5) == [Block.ReadOp(w(0x34))]
            && DiskOps(mem, 6) == [Block.WriteOp(w(0x34), Buffer(mem, w(0x36) % 0x8000))]
            && Key(3, Char(c, 0)) == [c] && Key(8, Char(c, 0)) == [c] && Key(8, Char(0, 1)) == []
    ensures Peek(Receive(mem, Code(ret)), 0x33) == ret
    ensures var after := Receive(mem, Char(c, ret)); Peek(after, 0x40) == c && Peek(after, 0x33) == ret
  {
  }

  // ---- The devices along a run ----

  /** A call is served with the console as it is at some time after the BRK. */
  ghost predicate ServedAt(s: Sys, ans: Answer, d: Dev, d': Dev, con: Console.Port)
    requires d.con.Valid() && d'.con.Valid()
  {
    && con.Valid() && Console.Elapsed(d.con, con)
    && Syscalls.Served(CallNumber(s), PushFrame(s.ram, s.ppn, s.r), s.ppn, ans, con, d'.con, d.file, d'.file, d.open)
  }

  /** Time passes at every step. */
  ghost predicate DevStep(s: Sys, e: Event, d: Dev, d': Dev) {
    && d.con.Valid() && d'.con.Valid() && d'.open == d.open
    && match e
       case Called(ans, _, _, _) =>
         exists con: Console.Port :: ServedAt(s, ans, d, d', con)
       case _ => Console.Elapsed(d.con, d'.con) && d'.file == d.file
  }

  ghost predicate DevStepAt(states: seq<Sys>, es: seq<Event>, ds: seq<Dev>, i: nat)
    requires |states| == |ds| == |es| + 1 && i < |es|
  {
    DevStep(states[i], es[i], ds[i], ds[i + 1])
  }

  /** The devices beside a run. */
  ghost predicate DevRun(states: seq<Sys>, es: seq<Event>, ds: seq<Dev>) {
    && |states| == |ds| == |es| + 1 && ds[0].con.Valid()
    && forall i :: 0 <= i < |es| ==> DevStepAt(states, es, ds, i)
  }

  /** From c to c' exactly this was printed, on both devices and without overrun, and exactly these keys
      were taken, each of them valid. */
  ghost predicate Talked(c: Console.Port, c': Console.Port, out: seq<byte>, keys: seq<byte>)
    requires c.Valid() && c'.Valid()
  {
    && c'.tx.log == c.tx.log + out && c'.gpu == c.gpu + out && c'.tx.overruns == c.tx.overruns
    && c'.rx.returned == c.rx.returned + keys && c'.rx.stale == c.rx.stale && c.rx.input <= c'.rx.input
    && (Console.ExactlyOnce(c.rx) ==> Console.ExactlyOnce(c'.rx))
  }

  /** The console from d to d', and the image after exactly these operations. */
  ghost predicate Accounted(d: Dev, d': Dev, out: seq<byte>, keys: seq<byte>, ops: seq<Block.DiskOp>) {
    && d.con.Valid() && d'.con.Valid() && Talked(d.con, d'.con, out, keys)
    && d'.open == d.open && d'.file == if d.open then Block.ImageAfter(d.file, ops) else d.file
  }

  lemma {:induction false} ImageThen(file: seq<byte>, a: seq<Block.DiskOp>, b: seq<Block.DiskOp>)
    ensures Block.ImageAfter(file, a + b) == Block.ImageAfter(Block.ImageAfter(file, a), b)
  {
    if b == [] {
      assert a + b == a;
    } else {
      ImageThen(file, a, b[..|b| - 1]);
      assert (a + b)[..|a + b| - 1] == a + b[..|b| - 1];
    }
  }

  lemma {:induction false} TalkedThen(c: Console.Port, u: Console.Port, v: Console.Port, out: seq<byte>,
      keys: seq<byte>, out': seq<byte>, keys': seq<byte>)
    requires c.Valid() && u.Valid() && v.Valid() && Talked(c, u, out, keys) && Talked(u, v, out', keys')
    ensures Talked(c, v, out + out', keys + keys')
  {
    hide Console.ExactlyOnce;
    assert c.tx.log + out + out' == c.tx.log + (out + out') && c.gpu + out + out' == c.gpu + (out + out');
    assert c.rx.returned + keys + keys' == c.rx.returned + (keys + keys');
  }

  lemma {:induction false} AccountedThen(d: Dev, u: Dev, v: Dev, out: seq<byte>, keys: seq<byte>,
      ops: seq<Block.DiskOp>, out': seq<byte>, keys': seq<byte>, ops': seq<Block.DiskOp>)
    requires Accounted(d, u, out, keys, ops) && Accounted(u, v, out', keys', ops')
    ensures Accounted(d, v, out + out', keys + keys', ops + ops')
  {
    hide Talked, Block.ImageAfter;
    TalkedThen(d.con, u.con, v.con, out, keys, out', keys');
    ImageThen(d.file, ops, ops');
  }

  // ---- One call ----

  /** The kernel's physical string is the process's. */
  lemma {:induction false} TextIsCString(tasks: seq<Task>, ram: Ram, i: nat, va: int, n: nat)
    requires Placed(tasks) && i < |tasks| && 0 <= va < RAM_SIZE && Ends(tasks[i], View(ram, tasks[i]), va, n)
    ensures CString(ram, Phys(tasks[i].table, va)) == Text(View(ram, tasks[i]), va)
    ensures Text(View(ram, tasks[i]), va) == VirtualString(ram, tasks[i].table, va)
    decreases n
  {
    hide Placed, View, Phys;
    assert va in tasks[i].fp;
    PeekView(tasks, ram, i, va);
    if n > 0 {
      NextPlace(tasks, i, va, n);
      assert Ends(tasks[i], View(ram, tasks[i]), va + 1, n - 1) by {
        assert va + 1 + (n - 1) == va + n;
      }
      TextIsCString(tasks, ram, i, va + 1, n - 1);
    }
  }

  lemma {:induction false} NextPlace(tasks: seq<Task>, i: nat, va: int, n: nat)
    requires Placed(tasks) && i < |tasks| && 0 <= va < RAM_SIZE && n > 0 && Contiguous(tasks[i], va, n + 1)
    ensures va + 1 < RAM_SIZE && Phys(tasks[i].table, va + 1) == Phys(tasks[i].table, va) + 1
    ensures Contiguous(tasks[i], va + 1, n)
  {
    hide Placed, Phys;
    assert va + 1 in tasks[i].fp;
  }

  /** The kernel's 512 physical bytes are the process's buffer. */
  lemma {:induction false} BufferIsWindow(tasks: seq<Task>, ram: Ram, i: nat, va: int)
    requires Placed(tasks) && i < |tasks| && 0 <= va < RAM_SIZE && Contiguous(tasks[i], va, 512)
    ensures var pa := Phys(tasks[i].table, va);
            pa + 512 <= RAM_SIZE && ram[pa..pa + 512] == Buffer(View(ram, tasks[i]), va)
  {
    var pa, mem := Phys(tasks[i].table, va), View(ram, tasks[i]);
    hide Placed, View, Phys;
    Transparency.LastPlace(tasks, ram, i, va, 511);
    forall k | 0 <= k < 512
      ensures ram[pa..pa + 512][k] == Buffer(mem, va)[k]
    {
      var vb := va + k;
      assert vb in tasks[i].fp;
      PeekView(tasks, ram, i, vb);
    }
  }

  lemma {:induction false} PrintedIsPrintout(tasks: seq<Task>, ram: Ram, i: nat, num: byte)
    requires Placed(tasks) && i < |tasks| && GoodArguments(tasks[i], View(ram, tasks[i]), num)
    ensures num == SYS_PUTC ==> Printout(View(ram, tasks[i]), num) == [ram[Zp(tasks[i].table, A_REG)]]
    ensures num == SYS_PUTS ==>
              Printout(View(ram, tasks[i]), num)
              == CString(ram, UserPtr(tasks[i].table, UserWord(ram, tasks[i].table, ARG0)))
  {
    hide Placed, View, Phys, Contiguous;
    if num == SYS_PUTC {
      PeekView(tasks, ram, i, A_REG);
    } else if num == SYS_PUTS {
      var va := Pointer(View(ram, tasks[i]), ARG0);
      Transparency.PointerPlace(tasks, ram, i, ARG0);
      var n: nat :| Ends(tasks[i], View(ram, tasks[i]), va, n);
      TextIsCString(tasks, ram, i, va, n);
    }
  }

  lemma {:induction false} WrittenIsBuffer(tasks: seq<Task>, ram: Ram, i: nat, num: byte)
    requires Placed(tasks) && i < |tasks| && GoodArguments(tasks[i], View(ram, tasks[i]), num)
    requires num == SYS_BLOCK_READ || num == SYS_BLOCK_WRITE
    ensures var t, mem := tasks[i].table, View(ram, tasks[i]);
            var pa := UserPtr(t, UserWord(ram, t, ARG1));
            && UserWord(ram, t, ARG0) == Arg(mem, ARG0)
            && pa + 512 <= RAM_SIZE && ram[pa..pa + 512] == Buffer(mem, Pointer(mem, ARG1))
  {
    hide Placed, View, Phys, Contiguous;
    Transparency.PointerPlace(tasks, ram, i, ARG0);
    Transparency.PointerPlace(tasks, ram, i, ARG1);
    BufferIsWindow(tasks, ram, i, Pointer(View(ram, tasks[i]), ARG1));
  }

  /** A served call is accounted for by the caller's memory and the answer. */
  lemma {:induction false} CallAccounted(tasks: seq<Task>, ram: Ram, i: nat, num: byte, ans: Answer, con: Console.Port,
      d: Dev, d': Dev)
    requires Placed(tasks) && i < |tasks| && GoodArguments(tasks[i], View(ram, tasks[i]), num) && Answers(num, ans)
    requires d.con.Valid() && con.Valid() && d'.con.Valid() && Console.Elapsed(d.con, con) && d'.open == d.open
    requires Syscalls.Served(num, ram, tasks[i].table, ans, con, d'.con, d.file, d'.file, d.open)
    ensures var mem := View(ram, tasks[i]); Accounted(d, d', Printout(mem, num), Key(num, ans), DiskOps(mem, num))
    ensures num == SYS_BLOCK_READ && d.open ==> ans == Answer.Block(Disk.Sector(d.file, Arg(View(ram, tasks[i]), ARG0)))
  {
    hide Placed, View, Phys, Contiguous, UserPtr, UserWord, Zp, Text, CString, GoodArguments, Disk.Sector,
        Disk.WriteSector, Buffer;
    PrintedIsPrintout(tasks, ram, i, num);
    if num == SYS_BLOCK_READ || num == SYS_BLOCK_WRITE {
      WrittenIsBuffer(tasks, ram, i, num);
      OneOp(d.file, DiskOps(View(ram, tasks[i]), num));
    }
  }

  lemma {:induction false} OneOp(file: seq<byte>, ops: seq<Block.DiskOp>)
    requires |ops| == 1
    ensures Block.ImageAfter(file, ops) ==
            if ops[0].WriteOp? then Disk.WriteSector(file, ops[0].lba, ops[0].data) else file
  {
    assert Block.ImageAfter(file, ops[..0]) == file;
  }

  // ---- One step ----

  /** The running process. */
  ghost function Running(tasks: seq<Task>, s: Sys): Private
    requires s.idx < |tasks| <= MAX_PROCS
  {
    Logical(tasks, s, s.idx)
  }

  /** The memory in which the kernel finds the arguments of the running process's call. */
  ghost function Arguments(tasks: seq<Task>, s: Sys): Memory
    requires s.idx < |tasks| <= MAX_PROCS
  {
    Push(Running(tasks, s).mem, s.r)
  }

  ghost function StepOutput(tasks: seq<Task>, s: Sys, e: Event): seq<byte> {
    if e.Called? && s.idx < |tasks| <= MAX_PROCS then Printout(Arguments(tasks, s), CallNumber(s)) else []
  }

  ghost function StepKeys(s: Sys, e: Event): seq<byte> {
    if e.Called? then Key(CallNumber(s), e.ans) else []
  }

  ghost function StepOps(tasks: seq<Task>, s: Sys, e: Event): seq<Block.DiskOp> {
    if e.Called? && s.idx < |tasks| <= MAX_PROCS then DiskOps(Arguments(tasks, s), CallNumber(s)) else []
  }

  lemma {:induction false} CalledAccounted(cpu: Cpu, tasks: seq<Task>, s: Sys, e: Event, d: Dev, d': Dev,
      con: Console.Port)
    requires Placed(tasks) && Inv(tasks, s) && Confined(cpu, tasks[s.idx], Running(tasks, s)) && e.Called?
    requires Opcode(s) == 0 && Answers(CallNumber(s), e.ans)
    requires d.con.Valid() && d'.con.Valid() && d'.open == d.open && ServedAt(s, e.ans, d, d', con)
    ensures Accounted(d, d', StepOutput(tasks, s, e), StepKeys(s, e), StepOps(tasks, s, e))
    ensures CallNumber(s) == SYS_BLOCK_READ && d.open ==>
              e.ans == Answer.Block(Disk.Sector(d.file, Arg(Arguments(tasks, s), ARG0)))
  {
    NumberOfCall(cpu, tasks, s);
    hide Placed, View, Push, PushFrame, CallNumber, Printout, DiskOps, Key, Syscalls.Served, Opcode, GoodArguments,
      Accounted, Confined, Answers, Disk.Sector, Console.Elapsed;
    ViewPush(tasks, s.ram, s.idx, s.r, s.idx);
    CallAccounted(tasks, PushFrame(s.ram, s.ppn, s.r), s.idx, CallNumber(s), e.ans, con, d, d');
  }

  lemma {:induction false} NumberOfCall(cpu: Cpu, tasks: seq<Task>, s: Sys)
    requires Placed(tasks) && Inv(tasks, s) && Confined(cpu, tasks[s.idx], Running(tasks, s)) && Opcode(s) == 0
    ensures GoodArguments(tasks[s.idx], Arguments(tasks, s), CallNumber(s)) && FrameFits(tasks[s.idx], s.r.sp)
    ensures forall va :: va in tasks[s.idx].fp && 0 <= va < RAM_SIZE ==> va in Arguments(tasks, s)
  {
    hide Placed, CallNumber, GoodArguments;
    OpcodeIsPeek(tasks, s);
    NumberIsPeek(tasks, s);
  }

  lemma {:induction false} StepAccounted(cpu: Cpu, tasks: seq<Task>, s: Sys, e: Event, t: Sys, d: Dev, d': Dev)
    requires Placed(tasks) && Inv(tasks, s) && Step(cpu, tasks, s, e, t) && DevStep(s, e, d, d')
    requires Confined(cpu, tasks[s.idx], Running(tasks, s))
    ensures Accounted(d, d', StepOutput(tasks, s, e), StepKeys(s, e), StepOps(tasks, s, e))
    ensures e.Called? && CallNumber(s) == SYS_BLOCK_READ && d.open ==>
              e.ans == Answer.Block(Disk.Sector(d.file, Arg(Arguments(tasks, s), ARG0)))
  {
    hide Placed, Inv, Confined, ServedAt, CallNumber, Printout, DiskOps, Key, Store, Opcode, UserStep, YieldStep,
        Arguments;
    if e.Called? {
      var con: Console.Port :| ServedAt(s, e.ans, d, d', con);
      CalledAccounted(cpu, tasks, s, e, d, d', con);
    }
  }

  // ---- Whole runs ----

  ghost function Output(tasks: seq<Task>, states: seq<Sys>, es: seq<Event>, i: nat): seq<byte>
    requires |states| == |es| + 1 && i <= |es|
  {
    if i == 0 then [] else Output(tasks, states, es, i - 1) + StepOutput(tasks, states[i - 1], es[i - 1])
  }

  ghost function Keys(states: seq<Sys>, es: seq<Event>, i: nat): seq<byte>
    requires |states| == |es| + 1 && i <= |es|
  {
    if i == 0 then [] else Keys(states, es, i - 1) + StepKeys(states[i - 1], es[i - 1])
  }

  ghost function Ops(tasks: seq<Task>, states: seq<Sys>, es: seq<Event>, i: nat): seq<Block.DiskOp>
    requires |states| == |es| + 1 && i <= |es|
  {
    if i == 0 then [] else Ops(tasks, states, es, i - 1) + StepOps(tasks, states[i - 1], es[i - 1])
  }

  /** In any run the machine is at each point a good state for its next step. */
  lemma {:induction false} PointOfRun(cpu: Cpu, tasks: seq<Task>, states: seq<Sys>, es: seq<Event>, i: nat)
    requires |tasks| <= MAX_PROCS && |states| == |es| + 1 && i <= |es| && GoodRun(cpu, tasks, states, es)
    ensures Placed(tasks) && Inv(tasks, states[i]) && Confined(cpu, tasks[states[i].idx], Running(tasks, states[i]))
    ensures i < |es| ==> Step(cpu, tasks, states[i], es[i], states[i + 1])
  {
    RunsAlone(cpu, tasks, states, es, i);
    hide Placed, Logical, Step, Confined;
    var j := states[i].idx;
    assert WellBehaved(cpu, tasks[j], Logical(tasks, states[0], j));
    ReachedConfined(cpu, tasks[j], Logical(tasks, states[0], j), Own(states, es, j, i), Logical(tasks, states[i], j));
    if i < |es| {
      assert StepAt(cpu, tasks, states, es, i);
    }
  }

  /** Console and disk at every point of every run are accounted for by the calls the processes made, in
      the order of the run. */
  lemma {:induction false} RunAccounted(cpu: Cpu, tasks: seq<Task>, states: seq<Sys>, es: seq<Event>, ds: seq<Dev>,
      i: nat)
    requires |tasks| <= MAX_PROCS && |states| == |es| + 1 && i <= |es|
    requires GoodRun(cpu, tasks, states, es) && DevRun(states, es, ds)
    ensures Accounted(ds[0], ds[i], Output(tasks, states, es, i), Keys(states, es, i), Ops(tasks, states, es, i))
    decreases i
  {
    hide GoodRun, Step, Inv, Confined, StepOutput, StepKeys, StepOps, DevStep, Placed;
    if i > 0 {
      var k := i - 1;
      RunAccounted(cpu, tasks, states, es, ds, k);
      PointOfRun(cpu, tasks, states, es, k);
      assert DevStepAt(states, es, ds, k);
      StepAccounted(cpu, tasks, states[k], es[k], states[k + 1], ds[k], ds[k + 1]);
      AccountedThen(ds[0], ds[k], ds[i], Output(tasks, states, es, k), Keys(states, es, k), Ops(tasks, states, es, k),
                    StepOutput(tasks, states[k], es[k]), StepKeys(states[k], es[k]), StepOps(tasks, states[k], es[k]));
    } else {
      assert Block.ImageAfter(ds[0].file, []) == ds[0].file;
    }
  }

  // ---- The disk ----

  /** Arguments are 16 bits wide, so every LBA has a positive file offset; sectors are 512 bytes. */
  predicate SmallOps(ops: seq<Block.DiskOp>) {
    forall k :: 0 <= k < |ops| && ops[k].WriteOp? ==> ops[k].lba < Disk.LBA_LIMIT && |ops[k].data| == 512
  }

  lemma {:induction false} CallIsSmall(mem: Memory, num: byte)
    ensures SmallOps(DiskOps(mem, num))
  {
  }

  lemma {:induction false} OpsAreSmall(tasks: seq<Task>, states: seq<Sys>, es: seq<Event>, i: nat)
    requires |states| == |es| + 1 && i <= |es|
    ensures SmallOps(Ops(tasks, states, es, i))
  {
    hide Arguments, DiskOps, CallNumber;
    if i > 0 {
      var s, e := states[i - 1], es[i - 1];
      OpsAreSmall(tasks, states, es, i - 1);
      if e.Called? && s.idx < |tasks| <= MAX_PROCS {
        CallIsSmall(Arguments(tasks, s), CallNumber(s));
      }
    }
  }

  lemma {:induction false} LastWrittenLength(file: seq<byte>, ops: seq<Block.DiskOp>, lba: nat)
    requires SmallOps(ops)
    ensures |Block.LastWritten(file, ops, lba)| == 512
  {
    if ops != [] {
      LastWrittenLength(file, ops[..|ops| - 1], lba);
    }
  }

  /** No operation has written this sector. */
  predicate Unwritten(ops: seq<Block.DiskOp>, lba: nat) {
    forall k :: 0 <= k < |ops| ==> !(ops[k].WriteOp? && ops[k].lba == lba)
  }

  /** Then it is still the image's bytes from 512 * lba on. */
  lemma {:induction false} UnwrittenIsImage(file: seq<byte>, ops: seq<Block.DiskOp>, lba: nat, k: nat)
    requires SmallOps(ops) && Unwritten(ops, lba) && lba < Disk.OFFSET_LIMIT && k < 512
    ensures |Block.LastWritten(file, ops, lba)| == 512
    ensures Block.LastWritten(file, ops, lba)[k] == if 512 * lba + k < |file| then file[512 * lba + k] else 0
  {
    if ops == [] {
      Disk.SectorBytes(file, lba, k);
    } else {
      UnwrittenIsImage(file, ops[..|ops| - 1], lba, k);
    }
  }

  /** At every point of every run each sector of the image is what a process last wrote there, from its
      own virtual buffer, or what it was at the start. */
  lemma {:induction false} DiskRun(cpu: Cpu, tasks: seq<Task>, states: seq<Sys>, es: seq<Event>, ds: seq<Dev>, i: nat,
      lba: nat)
    requires |tasks| <= MAX_PROCS && |states| == |es| + 1 && i <= |es| && lba < Disk.LBA_LIMIT
    requires GoodRun(cpu, tasks, states, es) && DevRun(states, es, ds) && ds[0].open
    ensures ds[i].open && ds[i].file == Block.ImageAfter(ds[0].file, Ops(tasks, states, es, i))
    ensures Disk.Sector(ds[i].file, lba) == Block.LastWritten(ds[0].file, Ops(tasks, states, es, i), lba)
  {
    hide GoodRun, Disk.Sector;
    RunAccounted(cpu, tasks, states, es, ds, i);
    OpsAreSmall(tasks, states, es, i);
    Block.DiskIsAMemory(ds[0].file, Ops(tasks, states, es, i), lba);
  }

  /** sys_block_read, in any run, puts into the caller's virtual buffer what any process last wrote at
      that LBA, or the initial image; only the result slot, should the buffer cover it, holds 0. */
  lemma {:induction false} ReadDelivers(cpu: Cpu, tasks: seq<Task>, states: seq<Sys>, es: seq<Event>, ds: seq<Dev>,
      i: nat)
    requires |tasks| <= MAX_PROCS && |states| == |es| + 1 && i < |es|
    requires GoodRun(cpu, tasks, states, es) && DevRun(states, es, ds) && ds[0].open
    requires es[i].Called? && CallNumber(states[i]) == SYS_BLOCK_READ
    ensures states[i].idx < |tasks| && |tasks| == states[i + 1].nprocs
    ensures var mem := Arguments(tasks, states[i]);
            var data := Block.LastWritten(ds[0].file, Ops(tasks, states, es, i), Arg(mem, ARG0));
            var after := Logical(tasks, states[i + 1], states[i].idx).mem;
            && es[i].ans == Answer.Block(data) && |data| == 512
            && Peek(after, RET) == 0 && Holds(after, Pointer(mem, ARG1), data)
    ensures var ops, lba := Ops(tasks, states, es, i), Arg(Arguments(tasks, states[i]), ARG0);
            Unwritten(ops, lba) ==>
              forall k :: 0 <= k < 512 ==>
                es[i].ans.data[k] == if 512 * lba + k < |ds[0].file| then ds[0].file[512 * lba + k] else 0
  {
    hide GoodRun, Disk.Sector, Step, AsAlone, CallNumber, Confined, Inv, Placed, DevStep, Receive, Arguments,
        Logical, Holds;
    PointOfRun(cpu, tasks, states, es, i);
    InvRange(tasks, states[i]);
    var lba := Arg(Arguments(tasks, states[i]), ARG0);
    DiskRun(cpu, tasks, states, es, ds, i, lba);
    assert DevStepAt(states, es, ds, i);
    StepAccounted(cpu, tasks, states[i], es[i], states[i + 1], ds[i], ds[i + 1]);
    OpsAreSmall(tasks, states, es, i);
    LastWrittenLength(ds[0].file, Ops(tasks, states, es, i), lba);
    Received(cpu, tasks, states[i], es[i], states[i + 1]);
    if Unwritten(Ops(tasks, states, es, i), lba) {
      forall k | 0 <= k < 512
        ensures es[i].ans.data[k] == if 512 * lba + k < |ds[0].file| then ds[0].file[512 * lba + k] else 0
      {
        UnwrittenIsImage(ds[0].file, Ops(tasks, states, es, i), lba, k);
      }
    }
  }

  lemma {:induction false} InvRange(tasks: seq<Task>, s: Sys)
    requires Inv(tasks, s)
    ensures s.idx < |tasks| == s.nprocs <= MAX_PROCS
  {
  }

  /** A sector answered to a read is in the caller's memory. */
  lemma {:induction false} Received(cpu: Cpu, tasks: seq<Task>, s: Sys, e: Event, t: Sys)
    requires Placed(tasks) && Inv(tasks, s) && Step(cpu, tasks, s, e, t)
    requires Confined(cpu, tasks[s.idx], Running(tasks, s))
    requires e.Called? && CallNumber(s) == SYS_BLOCK_READ && e.ans.Block? && |e.ans.data| == 512
    ensures s.idx < |tasks| == t.nprocs <= MAX_PROCS
    ensures var after := Logical(tasks, t, s.idx).mem;
            Peek(after, RET) == 0 && Holds(after, Pointer(Arguments(tasks, s), ARG1), e.ans.data)
  {
    CallLeaves(cpu, tasks, s, e, t);
    hide Placed, Inv, Step, Confined, Logical, CallNumber, GoodArguments, Receive, Arguments, Holds;
    NumberOfCall(cpu, tasks, s);
    BufferMapped(tasks[s.idx], Arguments(tasks, s));
    InMemory(Arguments(tasks, s), e.ans.data);
  }

  /** The caller's memory after a call. */
  lemma {:induction false} CallLeaves(cpu: Cpu, tasks: seq<Task>, s: Sys, e: Event, t: Sys)
    requires Placed(tasks) && Inv(tasks, s) && Step(cpu, tasks, s, e, t) && e.Called?
    requires Confined(cpu, tasks[s.idx], Running(tasks, s))
    ensures Opcode(s) == 0 && s.idx < |tasks| == t.nprocs <= MAX_PROCS
    ensures Logical(tasks, t, s.idx).mem == Receive(Arguments(tasks, s), e.ans)
  {
    hide Placed, CallNumber, GoodArguments, Receive, Push, View, CallStep, Confined, Opcode;
    StepSimulated(cpu, tasks, s, e, t);
  }

  /** data lies in memory from buf on, but for the result slot. */
  ghost predicate Holds(mem: Memory, buf: int, data: seq<byte>) {
    forall va :: buf <= va < buf + |data| && va != RET ==> Peek(mem, va) == data[va - buf]
  }

  lemma {:induction false} BufferMapped(task: Task, mem: Memory)
    requires GoodArguments(task, mem, SYS_BLOCK_READ)
    requires forall va :: va in task.fp && 0 <= va < RAM_SIZE ==> va in mem
    ensures forall va :: Pointer(mem, ARG1) <= va < Pointer(mem, ARG1) + 512 ==> va in mem
  {
    var buf := Pointer(mem, ARG1);
    hide Phys, Arg;
    forall va | buf <= va < buf + 512
      ensures va in mem
    {
      assert va in task.fp && va < RAM_SIZE;
    }
  }

  lemma {:induction false} InMemory(mem: Memory, data: seq<byte>)
    requires |data| == 512 && forall va :: Pointer(mem, ARG1) <= va < Pointer(mem, ARG1) + 512 ==> va in mem
    ensures var after := Receive(mem, Answer.Block(data));
            Peek(after, RET) == 0 && Holds(after, Pointer(mem, ARG1), data)
  {
    hide Arg;
  }

  // ---- The console ----

  /** sys_getc_nb never misses a key: it answers 1 only if none was valid when the process called, and
      with one valid it answers that key. */
  lemma {:induction false} NbTakesKey(s: Sys, e: Event, d: Dev, d': Dev)
    requires e.Called? && CallNumber(s) == SYS_GETC_NB && DevStep(s, e, d, d')
    ensures e.ans.Char? && (e.ans.ret != 0 ==> !d.con.rx.valid)
    ensures d.con.rx.valid ==> e.ans == Char(d.con.rx.data, 0)
  {
    hide CallNumber, PushFrame, Console.ExactlyOnce;
  }

  /** The code that a returning call leaves in the caller's byte $33, whatever its memory: 0, for a block
      call 1 when no image is open, for sys_getc_nb 1 when no key was there, and $FF for an unknown number. */
  lemma {:induction false} CodeByte(cpu: Cpu, tasks: seq<Task>, s: Sys, e: Event, t: Sys, d: Dev, d': Dev, mem: Memory)
    requires s.idx < s.nprocs == |tasks| <= MAX_PROCS && e.Called?
    requires Step(cpu, tasks, s, e, t) && DevStep(s, e, d, d')
    ensures var num, code := CallNumber(s), Peek(Receive(mem, e.ans), 0x33);
            && num != 0 && num != 1 && (num in {2, 3, 4} ==> code == 0)
            && (num in {5, 6} ==> code == if d.open then 0 else 1)
            && (num == 8 ==> code <= 1 && (d.con.rx.valid ==> code == 0))
            && (num == 7 || num > 8 ==> code == 0xFF && Console.Elapsed(d.con, d'.con) && d'.file == d.file)
  {
    hide CallNumber, PushFrame, Rti, SameOffScratch, Store, KernelIo.Printed, Console.ExactlyOnce, Disk.Sector,
         Disk.WriteSector;
    if CallNumber(s) == SYS_GETC_NB {
      NbTakesKey(s, e, d, d');
    }
  }

  /** At any point of a run. */
  lemma {:induction false} NbRun(states: seq<Sys>, es: seq<Event>, ds: seq<Dev>, i: nat)
    requires DevRun(states, es, ds) && i < |es| && es[i].Called? && CallNumber(states[i]) == SYS_GETC_NB
    ensures es[i].ans.Char? && (es[i].ans.ret != 0 ==> !ds[i].con.rx.valid)
    ensures ds[i].con.rx.valid ==> es[i].ans == Char(ds[i].con.rx.data, 0)
  {
    hide CallNumber, DevStep;
    assert DevStepAt(states, es, ds, i);
    NbTakesKey(states[i], es[i], ds[i], ds[i + 1]);
  }

  lemma {:induction false} SincePowerOn(input: seq<byte>, c: Console.Port, c': Console.Port, text: seq<byte>,
      out: seq<byte>, keys: seq<byte>)
    requires c.Valid() && c'.Valid()
    requires KernelIo.Printed(Console.PowerOn(input), c, text, text) && Talked(c, c', out, keys)
    ensures c'.tx.log == c'.gpu == text + out && c'.tx.overruns == 0
    ensures keys + c'.rx.Pending() == c'.rx.input[..c'.rx.pos] && c'.rx.stale == 0 && input <= c'.rx.input
  {
    assert [] + text == text && [] + keys == keys;
    assert Console.ExactlyOnce(Console.PowerOn(input).rx);
  }

  /** From power-on, whatever the ROM and the kernel have printed before the run: the bytes on the serial
      line and those on the screen are one sequence, what the processes printed in the order of the run,
      and none was lost to an overrun. */
  lemma {:induction false} OutputRun(cpu: Cpu, tasks: seq<Task>, states: seq<Sys>, es: seq<Event>, ds: seq<Dev>, i: nat,
      input: seq<byte>, text: seq<byte>)
    requires |tasks| <= MAX_PROCS && |states| == |ds| == |es| + 1 && i <= |es| && ds[0].con.Valid()
    requires GoodRun(cpu, tasks, states, es) && DevRun(states, es, ds)
    requires KernelIo.Printed(Console.PowerOn(input), ds[0].con, text, text)
    ensures ds[i].con.tx.log == ds[i].con.gpu == text + Output(tasks, states, es, i) && ds[i].con.tx.overruns == 0
  {
    hide GoodRun, Output, Keys, Ops, DevRun, Talked, KernelIo.Printed, Console.ExactlyOnce, Block.ImageAfter;
    RunAccounted(cpu, tasks, states, es, ds, i);
    SincePowerOn(input, ds[0].con, ds[i].con, text, Output(tasks, states, es, i), Keys(states, es, i));
  }

  /** From power-on: the keys that sys_getc and sys_getc_nb have answered, to whichever process, and the
      one that waits are the first stdin_pos bytes of what was typed, in order; none was read stale. */
  lemma {:induction false} KeysRun(cpu: Cpu, tasks: seq<Task>, states: seq<Sys>, es: seq<Event>, ds: seq<Dev>, i: nat,
      input: seq<byte>, text: seq<byte>)
    requires |tasks| <= MAX_PROCS && |states| == |ds| == |es| + 1 && i <= |es| && ds[0].con.Valid()
    requires GoodRun(cpu, tasks, states, es) && DevRun(states, es, ds)
    requires KernelIo.Printed(Console.PowerOn(input), ds[0].con, text, text)
    ensures ds[i].con.Valid() && ds[i].con.rx.stale == 0
    ensures var rx := ds[i].con.rx;
            Keys(states, es, i) + rx.Pending() == rx.input[..rx.pos] && input <= rx.input
  {
    hide GoodRun, Output, Keys, Ops, DevRun, Talked, KernelIo.Printed, Console.ExactlyOnce, Block.ImageAfter;
    RunAccounted(cpu, tasks, states, es, ds, i);
    SincePowerOn(input, ds[0].con, ds[i].con, text, Output(tasks, states, es, i), Keys(states, es, i));
  }
}
