/**
 What runs of processes never touch: the kernel's image and data, the installed BRK vector and the disk
 buffer.
 */
module KernelMemory {
  import opened Bytes
  import opened System
  import opened Virtualisation
  import opened Devices
  import Transparency
  import Trap

  /** Kernel memory outside its scratch cells and the process table. */
  predicate Standing(a: int) {
    0 <= a < RAM_SIZE && KernelByte(a) && !Scratch(a) && !(PLIST <= a < PLIST + 0x100)
  }

  lemma {:induction false} FramesMissKernel(tasks: seq<Task>, s: Sys, a: nat)
    requires Placed(tasks) && Inv(tasks, s) && FrameFits(tasks[s.idx], s.r.sp) && Standing(a)
    ensures PushFrame(s.ram, s.ppn, s.r)[a] == s.ram[a]
  {
    assert Stack(s.r.sp, 0) in tasks[s.idx].fp && Stack(s.r.sp, -1) in tasks[s.idx].fp
        && Stack(s.r.sp, -2) in tasks[s.idx].fp;
  }

  lemma {:induction false} ComputeKeepsKernel(cpu: Cpu, tasks: seq<Task>, s: Sys, t: Sys, a: nat)
    requires Placed(tasks) && Inv(tasks, s) && UserStep(cpu, tasks[s.idx], s, t) && Standing(a)
    requires cpu(s.r, View(s.ram, tasks[s.idx])).1.Keys <= tasks[s.idx].fp
    ensures t.ram[a] == s.ram[a]
  {
  }

  lemma {:induction false} YieldKeepsKernel(tasks: seq<Task>, s: Sys, t: Sys, a: nat)
    requires Placed(tasks) && Inv(tasks, s) && YieldStep(s, t) && FrameFits(tasks[s.idx], s.r.sp) && Standing(a)
    ensures t.ram[a] == s.ram[a]
  {
    FramesMissKernel(tasks, s, a);
    hide PushFrame, Phys, Placed, FrameFits;
    SaveEntryBytes(PushFrame(s.ram, s.ppn, s.r), s.idx, PopFrame(s.r.sp), s.ppn);
  }

  lemma {:induction false} StoreMissesKernel(tasks: seq<Task>, ram: Ram, i: nat, ans: Answer, a: nat)
    requires Placed(tasks) && i < |tasks| && CanReceive(tasks[i], View(ram, tasks[i]), ans) && Standing(a)
    ensures Store(ram, tasks[i].table, ans)[a] == ram[a]
  {
    if ans.Block? {
      Transparency.PointerPlace(tasks, ram, i, ARG1);
      var buf := Arg(View(ram, tasks[i]), ARG1) % RAM_SIZE;
      if Phys(tasks[i].table, buf) <= a < Phys(tasks[i].table, buf) + 512 {
        WindowMissesKernel(tasks, i, buf, 512, a);
      }
    }
    hide View, Contiguous;
    assert RET in tasks[i].fp && A_REG in tasks[i].fp;
  }

  lemma {:induction false} CallKeepsKernel(tasks: seq<Task>, s: Sys, num: byte, ans: Answer, t: Sys, a: nat)
    requires Placed(tasks) && Inv(tasks, s) && CallStep(s, num, ans, t) && Standing(a)
    requires FrameFits(tasks[s.idx], s.r.sp) && CanReceive(tasks[s.idx], Push(View(s.ram, tasks[s.idx]), s.r), ans)
    ensures t.ram[a] == s.ram[a]
  {
    FramesMissKernel(tasks, s, a);
    ViewPush(tasks, s.ram, s.idx, s.r, s.idx);
    hide PushFrame, Phys, Placed, FrameFits, Push, View, Store, CanReceive;
    StoreMissesKernel(tasks, PushFrame(s.ram, s.ppn, s.r), s.idx, ans, a);
  }

  lemma {:induction false} StepKeepsKernel(cpu: Cpu, tasks: seq<Task>, s: Sys, e: Event, t: Sys, a: nat)
    requires Placed(tasks) && Inv(tasks, s) && Step(cpu, tasks, s, e, t) && Standing(a)
    requires Confined(cpu, tasks[s.idx], Logical(tasks, s, s.idx))
    ensures t.ram[a] == s.ram[a]
  {
    assert Fetched(s, e);
    FetchedPermitted(cpu, tasks, s, e);
    hide Placed, PushFrame, Push, Store, CanReceive, FrameFits, View, Standing;
    match e
    case Compute => ComputeKeepsKernel(cpu, tasks, s, t, a);
    case Yielded => YieldKeepsKernel(tasks, s, t, a);
    case Called(ans, _, _, _) => CallKeepsKernel(tasks, s, CallNumber(s), ans, t, a);
  }

  /** In every run of placed, well-behaved processes the standing memory is as it was at the start. */
  lemma {:induction false} RunKeepsKernel(cpu: Cpu, tasks: seq<Task>, states: seq<Sys>, es: seq<Event>, i: nat, a: nat)
    requires |tasks| <= MAX_PROCS && |states| == |es| + 1 && i <= |es| && GoodRun(cpu, tasks, states, es) && Standing(a)
    ensures states[i].ram[a] == states[0].ram[a]
    decreases i
  {
    hide GoodRun, Step, Inv, Confined, Standing, Placed;
    if i > 0 {
      RunKeepsKernel(cpu, tasks, states, es, i - 1, a);
      PointOfRun(cpu, tasks, states, es, i - 1);
      StepKeepsKernel(cpu, tasks, states[i - 1], es[i - 1], states[i], a);
    }
  }

  /** So every BRK of the run goes through the vector that main installed. */
  lemma {:induction false} VectorKept(cpu: Cpu, tasks: seq<Task>, states: seq<Sys>, es: seq<Event>, i: nat)
    requires |tasks| <= MAX_PROCS && |states| == |es| + 1 && i <= |es| && GoodRun(cpu, tasks, states, es)
    ensures Trap.Vector(states[i].ram) == Trap.Vector(states[0].ram)
  {
    hide GoodRun;
    RunKeepsKernel(cpu, tasks, states, es, i, 0xFE);
    RunKeepsKernel(cpu, tasks, states, es, i, 0xFF);
  }
}
