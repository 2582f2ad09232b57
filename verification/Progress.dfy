/**
 Runs do not get stuck: at every user-mode point of processes that keep to their footprints the machine
 and its devices have a next step, unless the process asks to exit or waits for a key.
 */
module Progress {
  import opened Bytes
  import opened System
  import opened Virtualisation
  import opened Devices
  import opened Rotation
  import Console
  import Disk
  import KernelIo
  import Syscalls
  import Transparency

  predicate Lands(t: Table, w: Memory, va: int, a: int) {
    va in w && 0 <= va < RAM_SIZE && Phys(t, va) == a
  }

  /** ram after the writes w through the page table t. */
  ghost function Written(ram: Ram, t: Table, w: Memory): Ram {
    seq<byte>(RAM_SIZE, a requires 0 <= a < RAM_SIZE =>
      if exists va :: Lands(t, w, va, a) then var va :| Lands(t, w, va, a); w[va] else ram[a])
  }

  lemma {:induction false} Instruction(cpu: Cpu, tasks: seq<Task>, s: Sys) returns (t: Sys)
    requires Placed(tasks) && Inv(tasks, s) && cpu(s.r, View(s.ram, tasks[s.idx])).1.Keys <= tasks[s.idx].fp
    ensures UserStep(cpu, tasks[s.idx], s, t)
  {
    var (r, w) := cpu(s.r, View(s.ram, tasks[s.idx]));
    t := Sys(Written(s.ram, s.ppn, w), s.ppn, r, s.nprocs, s.idx);
    forall va | va in w && 0 <= va < RAM_SIZE
      ensures t.ram[Phys(s.ppn, va)] == w[va]
    {
      assert Lands(s.ppn, w, va, Phys(s.ppn, va));
      var vb :| Lands(s.ppn, w, vb, Phys(s.ppn, va)) && t.ram[Phys(s.ppn, va)] == w[vb];
      assert Pair(s.idx, va, s.idx, vb);
    }
  }

  /** The successor of a yield. */
  function AfterYield(s: Sys): Sys
    requires s.idx < s.nprocs <= MAX_PROCS
  {
    var saved := SaveEntry(PushFrame(s.ram, s.ppn, s.r), s.idx, PopFrame(s.r.sp), s.ppn);
    var k := Choose(saved, s.idx, s.nprocs, 1);
    var ram := SetState(saved, k, RUNNING);
    Sys(ram, SavedTable(ram, k), Rti(ram, SavedTable(ram, k), AfterRestore(ram, k)), s.nprocs, k)
  }

  function AfterCall(s: Sys, ans: Answer): Sys {
    var ram := Store(PushFrame(s.ram, s.ppn, s.r), s.ppn, ans);
    Sys(ram, s.ppn, Rti(ram, s.ppn, Regs(0, 0, 0, PopFrame(s.r.sp), 0, 0)), s.nprocs, s.idx)
  }

  // ---- The devices ----

  /** A printed text, at once. */
  function Print(c: Console.Port, text: seq<byte>): (c': Console.Port)
    requires c.Valid()
    ensures c'.Valid() && KernelIo.Printed(c, c', text, text)
  {
    c.(tx := c.tx.(log := c.tx.log + text), gpu := c.gpu + text)
  }

  /** The poll that makes a key of the file valid. */
  function Arrived(c: Console.Port): (c': Console.Port)
    requires c.Valid() && c.rx.KeyAvailable()
    ensures c'.Valid() && c'.rx.valid && Console.Elapsed(c, c')
  {
    if c.rx.valid then c
    else
      assert Console.ExactlyOnce(c.rx) ==> c.rx.returned + [c.rx.input[c.rx.pos]] == c.rx.input[..c.rx.pos + 1];
      c.(rx := c.rx.(valid := true, data := c.rx.input[c.rx.pos], pos := c.rx.pos + 1))
  }

  lemma {:induction false} KeyRead(c: Console.Port)
    requires c.Valid() && c.rx.valid
    ensures KernelIo.Taken(c, Console.Next(c, Console.ReadData), c.rx.data)
  {
    KernelIo.TakenValid(c);
  }

  /** What the kernel's devices answer to a call whose needs are met, and what becomes of them. */
  lemma {:induction false} CallServed(ram: Ram, t: Table, num: byte, d: Dev) returns (ans: Answer, con: Console.Port,
      d': Dev)
    requires d.con.Valid() && Syscalls.Ready(num, ram, t, d.con)
    ensures Answers(num, ans) && con.Valid() && d'.con.Valid() && Console.Elapsed(d.con, con) && d'.open == d.open
    ensures Syscalls.Served(num, ram, t, ans, con, d'.con, d.file, d'.file, d.open)
  {
    hide UserPtr, UserWord, Zp, Scratch, Disk.WriteSector;
    var lba, buf := UserWord(ram, t, ARG0), UserPtr(t, UserWord(ram, t, ARG1));
    con, ans, d' := d.con, Code(0), d;
    if num == SYS_PUTC {
      d' := d.(con := Print(d.con, [ram[Zp(t, A_REG)]]));
    } else if num == SYS_PUTS {
      d' := d.(con := Print(d.con, CString(ram, UserPtr(t, lba))));
    } else if num == SYS_GETC || (num == SYS_GETC_NB && d.con.rx.valid) {
      con := Arrived(d.con);
      ans, d' := Char(con.rx.data, 0), d.(con := Console.Next(con, Console.ReadData));
      KeyRead(con);
    } else if num == SYS_GETC_NB {
      ans := Char(0, 1);
    } else if num == SYS_BLOCK_READ {
      ans := if d.open then Block(Disk.Sector(d.file, lba)) else Code(1);
    } else if num == SYS_BLOCK_WRITE {
      ans := Code(if d.open then 0 else 1);
      d' := d.(file := if d.open then Disk.WriteSector(d.file, lba, ram[buf..buf + 512]) else d.file);
    } else {
      ans := Code(ENOSYS);
    }
  }

  // ---- One step, and any run ----

  /** The process neither asks to exit nor waits for a key that no one has typed. */
  ghost predicate CanGoOn(s: Sys, d: Dev) {
    Opcode(s) == 0 ==> CallNumber(s) != SYS_EXIT && (CallNumber(s) == SYS_GETC ==> d.con.rx.KeyAvailable())
  }

  /** At a user-mode point of processes that keep to their footprints, machine and devices have a next
      step, a call being answered as its devices serve it. */
  lemma {:induction false} NextStep(cpu: Cpu, tasks: seq<Task>, s: Sys, d: Dev) returns (e: Event, t: Sys, d': Dev)
    requires Placed(tasks) && Inv(tasks, s) && Confined(cpu, tasks[s.idx], Logical(tasks, s, s.idx))
    requires d.con.Valid() && CanGoOn(s, d)
    ensures Step(cpu, tasks, s, e, t) && DevStep(s, e, d, d')
  {
    hide Placed, PushFrame, Push, Store, SaveEntry, Contiguous, CallNumber, Syscalls.Ready, Syscalls.Served;
    d' := d;
    if Opcode(s) != 0 {
      OpcodeIsPeek(tasks, s);
      e := Compute;
      t := Instruction(cpu, tasks, s);
    } else if CallNumber(s) == SYS_YIELD {
      e, t := Yielded, AfterYield(s);
    } else {
      Transparency.BrkIsServable(cpu, tasks, s, d.con);
      var ans, con;
      ans, con, d' := CallServed(PushFrame(s.ram, s.ppn, s.r), s.ppn, CallNumber(s), d);
      assert ServedAt(s, ans, d, d', con);
      t := AfterCall(s, ans);
      e := Called(ans, 0, 0, 0);
    }
  }

  /** Without a key there is no next step of a process in sys_getc until one is typed. */
  lemma {:induction false} GetcWaits(s: Sys, e: Event, d: Dev, d': Dev)
    requires e.Called? && CallNumber(s) == SYS_GETC && DevStep(s, e, d, d') && Console.ExactlyOnce(d.con.rx)
    ensures d.con.rx.KeyAvailable() || |d'.con.rx.input| > |d.con.rx.input|
  {
    hide CallNumber;
    var rx, rx' := d.con.rx, d'.con.rx;
    if !rx.KeyAvailable() {
      assert rx.returned + [] == rx.input;
      assert |rx'.returned| + |rx'.Pending()| == |rx'.input[..rx'.pos]|;
    }
  }

  /** Every run of placed, well-behaved processes, with the devices beside it, can be continued until one
      of them exits or waits for a key. */
  lemma {:induction false} RunExtends(cpu: Cpu, tasks: seq<Task>, states: seq<Sys>, es: seq<Event>, ds: seq<Dev>)
    returns (e: Event, t: Sys, d: Dev)
    requires |tasks| <= MAX_PROCS && |states| == |ds| == |es| + 1
    requires GoodRun(cpu, tasks, states, es) && DevRun(states, es, ds) && CanGoOn(states[|es|], ds[|es|])
    ensures GoodRun(cpu, tasks, states + [t], es + [e]) && DevRun(states + [t], es + [e], ds + [d])
  {
    PointOfRun(cpu, tasks, states, es, |es|);
    RunAccounted(cpu, tasks, states, es, ds, |es|);
    hide GoodRun, DevRun, CanGoOn, Placed, Inv, Confined, Step, DevStep, Accounted;
    e, t, d := NextStep(cpu, tasks, states[|es|], ds[|es|]);
    RunAppends(cpu, tasks, states, es, e, t);
    DevAppends(states, es, ds, e, t, d);
  }

  lemma {:induction false} RunAppends(cpu: Cpu, tasks: seq<Task>, states: seq<Sys>, es: seq<Event>, e: Event, t: Sys)
    requires |tasks| <= MAX_PROCS && |states| == |es| + 1 && GoodRun(cpu, tasks, states, es)
    requires Inv(tasks, states[|es|]) && Step(cpu, tasks, states[|es|], e, t)
    ensures GoodRun(cpu, tasks, states + [t], es + [e])
  {
    hide Placed, WellBehaved, Step, Logical;
    forall i | 0 <= i < |es| + 1
      ensures StepAt(cpu, tasks, states + [t], es + [e], i)
    {
      assert i < |es| ==> StepAt(cpu, tasks, states, es, i);
    }
  }

  lemma {:induction false} DevAppends(states: seq<Sys>, es: seq<Event>, ds: seq<Dev>, e: Event, t: Sys, d: Dev)
    requires DevRun(states, es, ds) && DevStep(states[|es|], e, ds[|es|], d)
    ensures DevRun(states + [t], es + [e], ds + [d])
  {
    hide DevStep;
    forall i | 0 <= i < |es| + 1
      ensures DevStepAt(states + [t], es + [e], ds + [d], i)
    {
      assert i < |es| ==> DevStepAt(states, es, ds, i);
    }
  }
}
