/**
 The kernel's code takes the steps of which the runs are made: every BRK of processes that keep to their
 footprints, served by the routines as they are, is a step of machine and devices.
 */
module Service {
  import opened System
  import opened Machine
  import opened Virtualisation
  import opened Devices
  import Syscalls
  import Transparency
  import Trap

  ghost function DevOf(m: Machine): Dev
    reads m, m.disk, m.con
  {
    Dev(m.con.Snap(), m.disk.file, m.disk.open)
  }

  /** The machine stands at a BRK of the running process. */
  ghost predicate AtCall(cpu: Cpu, tasks: seq<Task>, s: Sys) {
    && Placed(tasks) && Inv(tasks, s) && Confined(cpu, tasks[s.idx], Logical(tasks, s, s.idx)) && Opcode(s) == 0
  }

  /** Every returning call: the code of brk.s, syscalls.c and below, from BRK to RTI. */
  method ServeCall(m: Machine, ghost cpu: Cpu, ghost tasks: seq<Task>) returns (ghost e: Event)
    requires m.Valid() && m.UserMode() && AtCall(cpu, tasks, m.Snap()) && CallNumber(m.Snap()) > SYS_EXIT
    requires CallNumber(m.Snap()) == SYS_GETC ==> m.con.Snap().rx.KeyAvailable()
    modifies m.ram, m.mmu, m.con, m.disk, m.disk.buf, m`a, m`x, m`y, m`sp, m`p, m`pc
    ensures m.Valid() && m.UserMode() && e.Called? && Inv(tasks, m.Snap())
    ensures Step(cpu, tasks, old(m.Snap()), e, m.Snap()) && DevStep(old(m.Snap()), e, old(DevOf(m)), DevOf(m))
  {
    hide Placed, Logical, Confined, Inv, CallNumber, Syscalls.Ready, Syscalls.Served, PushFrame, Opcode, Store, Rti;
    ghost var s, d := m.Snap(), DevOf(m);
    InvRange(tasks, s);
    Transparency.BrkIsServable(cpu, tasks, s, d.con);
    ghost var ans := Syscalls.CallTrap(m);
    e := Called(ans, m.a, m.x, m.y);
    assert m.mmu.ppn == s.ppn;
    assert ServedAt(s, ans, d, DevOf(m), d.con);
    StepSimulated(cpu, tasks, s, e, m.Snap());
  }

  /** Every sys_yield: the code of brk.s, yield.s and schedule_process. */
  method ServeYield(m: Machine, ghost cpu: Cpu, ghost tasks: seq<Task>)
    requires m.Valid() && m.UserMode() && AtCall(cpu, tasks, m.Snap()) && CallNumber(m.Snap()) == SYS_YIELD
    modifies m.ram, m.mmu, m`a, m`x, m`y, m`sp, m`p, m`pc, m`plistIdx
    ensures m.Valid() && m.UserMode() && Inv(tasks, m.Snap())
    ensures Step(cpu, tasks, old(m.Snap()), Yielded, m.Snap())
    ensures DevStep(old(m.Snap()), Yielded, old(DevOf(m)), DevOf(m))
  {
    hide Placed, Logical, Confined, Inv, CallNumber, YieldStep, Opcode;
    ghost var s := m.Snap();
    InvRange(tasks, s);
    Transparency.BrkIsServable(cpu, tasks, s, m.con.Snap());
    Trap.YieldTrap(m);
    StepSimulated(cpu, tasks, s, Yielded, m.Snap());
  }
}
