/**
 The context switch (sw/kernel/src/yield.s) and the scheduler it calls (proc.c), instruction by
 instruction on the machine's RAM and MMU registers.
 */
module Yield {
  import opened Bytes
  import opened System
  import opened Machine
  import Mmu6502

  const ZP_CURR_PROC_PTR := 0x51

  // ---- The scheduler's choice ----

  /** schedule_process takes the WAITING entry at the least cyclic distance in 1..n, if there is one. */
  lemma {:induction false} ChooseIsNearest(ram: Ram, idx: nat, n: nat, i: nat) returns (d: nat)
    requires idx < MAX_PROCS && 0 < n <= MAX_PROCS && 1 <= i <= n + 1
    ensures i <= d <= n + 1
    ensures forall e :: i <= e < d ==> StateOf(ram, Place(idx, e, n)) != WAITING
    ensures if d <= n then Choose(ram, idx, n, i) == Place(idx, d, n) && StateOf(ram, Place(idx, d, n)) == WAITING
            else Choose(ram, idx, n, i) == idx
    decreases n + 1 - i
  {
    if i > n || StateOf(ram, Place(idx, i, n)) == WAITING {
      d := i;
    } else {
      d := ChooseIsNearest(ram, idx, n, i + 1);
    }
  }

  lemma {:induction false} PlaceSum(idx: nat, d: nat, n: nat)
    requires idx < n && d <= n
    ensures Place(idx, d, n) == if idx + d < n then idx + d else idx + d - n
  {
  }

  /** The index stays if and only if no other entry is WAITING. */
  lemma {:induction false} ChooseStaysIff(ram: Ram, idx: nat, n: nat)
    requires idx < n <= MAX_PROCS
    ensures Choose(ram, idx, n, 1) == idx <==> forall j :: 0 <= j < n && j != idx ==> StateOf(ram, j) != WAITING
  {
    var d := ChooseIsNearest(ram, idx, n, 1);
    hide Choose, Place, StateOf;
    forall e | 1 <= e <= n
      ensures Place(idx, e, n) == if idx + e < n then idx + e else idx + e - n
    {
      PlaceSum(idx, e, n);
    }
    if d >= n {
      forall j | 0 <= j < n && j != idx
        ensures StateOf(ram, j) != WAITING
      {
        var e := if j > idx then j - idx else j - idx + n;
        assert Place(idx, e, n) == j;
      }
    }
  }

  lemma {:induction false} ChooseSame(q: Ram, r: Ram, idx: nat, n: nat, i: nat)
    requires idx < MAX_PROCS && 0 < n <= MAX_PROCS
    requires forall j :: 0 <= j < MAX_PROCS ==> StateOf(q, j) == StateOf(r, j)
    ensures Choose(q, idx, n, i) == Choose(r, idx, n, i)
    decreases n + 1 - i
  {
    if i <= n {
      ChooseSame(q, r, idx, n, i + 1);
    }
  }

  method ScheduleProcess(m: Machine)
    requires m.Core()
    modifies m.ram, m`a, m`x, m`y, m`plistIdx
    ensures m.Core() && SameOffScratch(old(m.ram[..]), m.ram[..]) && m.ReturnKept(old(m.ram[..]))
    ensures m.plistIdx == if m.nprocs == 0 then old(m.plistIdx)
        else Choose(old(m.ram[..]), old(m.plistIdx), m.nprocs, 1)
  {
    m.Clobber();
    if m.nprocs > 0 {
      ChooseSame(old(m.ram[..]), m.ram[..], m.plistIdx, m.nprocs, 1);
    }
    var i := 1;
    while i <= m.nprocs
      invariant m.Core() && m.plistIdx == old(m.plistIdx) && 1 <= i <= m.nprocs + 1
      invariant SameOffScratch(old(m.ram[..]), m.ram[..])
      invariant m.nprocs > 0 ==>
                  Choose(m.ram[..], m.plistIdx, m.nprocs, 1) == Choose(m.ram[..], m.plistIdx, m.nprocs, i)
    {
      var idx := Place(m.plistIdx, i, m.nprocs);
      if m.ram[Entry(idx) + OFF_STATE] == WAITING {
        m.plistIdx := idx;
        return;
      }
      i := i + 1;
    }
  }

  // ---- yield.s ----

  lemma {:induction false} StackBack(sp: byte)
    ensures Wrap(Wrap(sp - 2) + 2) == sp
    ensures Stack(Wrap(sp - 2), 1) == Stack(sp, -1) && Stack(Wrap(sp - 2), 2) == Stack(sp, 0)
  {
  }

  function Asl(b: byte): byte {
    if b < 0x80 then 2 * b else 2 * b - 0x100
  }

  lemma {:induction false} ShiftedSixTimes(idx: byte)
    requires idx < MAX_PROCS
    ensures Asl(Asl(Asl(Asl(Asl(Asl(idx)))))) == 64 * idx
  {
  }

  /** calc_proc_ptr: ZP_CURR_PROC_PTR = plist + 64 * plist_idx. */
  method CalcProcPtr(m: Machine)
    requires m.Core()
    modifies m.ram, m`a
    ensures m.Core() && m.Ptr(ZP_CURR_PROC_PTR) == Entry(m.plistIdx)
    ensures forall i :: 0 <= i < RAM_SIZE && i != ZP_CURR_PROC_PTR && i != ZP_CURR_PROC_PTR + 1 ==>
              m.ram[i] == old(m.ram[i])
  {
    hide Asl;
    ShiftedSixTimes(m.plistIdx);
    m.a := m.plistIdx;
    m.a := Asl(m.a);
    m.a := Asl(m.a);
    m.a := Asl(m.a);
    m.a := Asl(m.a);
    m.a := Asl(m.a);
    m.a := Asl(m.a);
    var sum := m.a + Lo(PLIST);
    m.ram[ZP_CURR_PROC_PTR] := sum % 0x100;
    m.a := Hi(PLIST) + sum / 0x100;
    m.ram[ZP_CURR_PROC_PTR + 1] := m.a;
  }

  /** JSR calc_proc_ptr, wherever the user's SP happens to be: the call's two bytes go to the kernel's
      stack page and the RTS finds them again. */
  method CallCalcProcPtr(m: Machine)
    requires m.Core()
    modifies m.ram, m`a, m`sp
    ensures m.Core() && m.sp == old(m.sp) && m.Ptr(ZP_CURR_PROC_PTR) == Entry(m.plistIdx)
    ensures SameOffScratch(old(m.ram[..]), m.ram[..])
  {
    var site: word := *;
    StackBack(m.sp);
    m.Jsr(site);
    CalcProcPtr(m);
    var ret := m.Rts();
    assert ret == site;
  }

  /** `after` is `before` with the state byte, SP and the table stored in entry j. */
  ghost predicate Stored(before: Ram, after: Ram, j: nat, sp: byte, t: Table)
    requires j < MAX_PROCS
  {
    && after[Entry(j) + OFF_STATE] == WAITING && after[Entry(j) + OFF_SP] == sp
    && (forall i :: 0 <= i < 32 ==> after[Entry(j) + OFF_PPN + i] == t[i])
    && (forall i :: 0 <= i < RAM_SIZE && !(Entry(j) <= i < Entry(j) + 46) ==> after[i] == before[i])
    && (forall i :: Entry(j) < i < Entry(j) + OFF_SP ==> after[i] == before[i])
  }

  lemma {:induction false} StoredIsSaved(q: Ram, before: Ram, after: Ram, j: nat, sp: byte, t: Table)
    requires j < MAX_PROCS && SameOffScratch(q, before) && Stored(before, after, j, sp, t)
    ensures SameOffScratch(SaveEntry(q, j, sp, t), after)
  {
    var data := [sp] + t;
    forall a | 0 <= a < RAM_SIZE && !Scratch(a)
      ensures SaveEntry(q, j, sp, t)[a] == after[a]
    {
      if Entry(j) + OFF_PPN <= a < Entry(j) + 46 {
        assert after[Entry(j) + OFF_PPN + (a - Entry(j) - OFF_PPN)] == t[a - Entry(j) - OFF_PPN];
      }
    }
  }

  /** @save_ppn: the MMU's 32 page registers go into the entry. */
  method SaveTable(m: Machine)
    requires m.Core() && m.Ptr(ZP_CURR_PROC_PTR) == Entry(m.plistIdx)
    modifies m.ram, m`a, m`x, m`y
    ensures m.Core()
    ensures forall i :: 0 <= i < 32 ==> m.ram[Entry(m.plistIdx) + OFF_PPN + i] == m.mmu.ppn[i]
    ensures forall i :: 0 <= i < RAM_SIZE && !(Entry(m.plistIdx) + OFF_PPN <= i < Entry(m.plistIdx) + 46) ==>
              m.ram[i] == old(m.ram[i])
  {
    m.y := OFF_PPN;
    m.x := 0;
    while m.x != Mmu6502.NPAGES
      invariant m.Core() && m.x <= 32 && m.y == OFF_PPN + m.x
      invariant m.Ptr(ZP_CURR_PROC_PTR) == Entry(m.plistIdx)
      invariant forall i :: 0 <= i < m.x ==> m.ram[Entry(m.plistIdx) + OFF_PPN + i] == m.mmu.ppn[i]
      invariant forall i :: 0 <= i < RAM_SIZE && !(Entry(m.plistIdx) + OFF_PPN <= i < Entry(m.plistIdx) + 46) ==>
                  m.ram[i] == old(m.ram[i])
      decreases 32 - m.x
    {
      m.a := Mmu6502.CtrlRead(m.mmu.Snap(), m.x);
      m.ram[m.Ptr(ZP_CURR_PROC_PTR) + m.y] := m.a;
      m.y := m.y + 1;
      m.x := m.x + 1;
    }
  }

  /** The first half of do_yield: the running process goes into its entry. */
  method SaveRunning(m: Machine)
    requires m.Core()
    modifies m.ram, m`a, m`x, m`y, m`sp
    ensures m.Core() && m.sp == old(m.sp)
    ensures SameOffScratch(SaveEntry(old(m.ram[..]), m.plistIdx, m.sp, m.mmu.ppn), m.ram[..])
    ensures m.ram[0x7000 + 64 * m.plistIdx] == 1 && m.ram[0x700D + 64 * m.plistIdx] == m.sp
    ensures forall i :: 0 <= i < 32 ==> m.ram[0x700E + 64 * m.plistIdx + i] == m.mmu.ppn[i]
  {
    hide SaveEntry, Scratch, SameOffScratch;
    ghost var before := SaveStateAndSp(m);
    SaveTable(m);
    StoredIsSaved(old(m.ram[..]), before, m.ram[..], m.plistIdx, m.sp, m.mmu.ppn);
  }

  /** Its state byte and SP, and the pointer cells at the entry; `before` is what these leave of the rest. */
  method SaveStateAndSp(m: Machine) returns (ghost before: Ram)
    requires m.Core()
    modifies m.ram, m`a, m`x, m`y, m`sp
    ensures m.Core() && m.sp == old(m.sp) && m.Ptr(ZP_CURR_PROC_PTR) == Entry(m.plistIdx)
    ensures SameOffScratch(old(m.ram[..]), before)
    ensures m.ram[..] == before[Entry(m.plistIdx) := WAITING][Entry(m.plistIdx) + OFF_SP := m.sp]
  {
    CallCalcProcPtr(m);
    before := m.ram[..];
    m.y := OFF_STATE;
    m.a := WAITING;
    m.ram[m.Ptr(ZP_CURR_PROC_PTR) + m.y] := m.a;
    assert m.Ptr(ZP_CURR_PROC_PTR) == Entry(m.plistIdx);
    m.x := m.sp;
    m.a := m.x;
    m.y := OFF_SP;
    m.ram[m.Ptr(ZP_CURR_PROC_PTR) + m.y] := m.a;
  }

  /** The macro RESTORE_PPN: the entry's table goes into the MMU, one kernel-mode register write each. */
  method RestorePpn(m: Machine)
    requires m.Core() && m.KernelMode() && m.Ptr(ZP_CURR_PROC_PTR) == Entry(m.plistIdx)
    modifies m.mmu, m`a, m`x, m`y
    ensures m.Core() && (m.a, m.x, m.y) == (m.ram[Entry(m.plistIdx) + OFF_PPN + 31], 32, OFF_PPN + 32)
    ensures m.mmu.Snap() == old(m.mmu.Snap()).(ppn := SavedTable(m.ram[..], m.plistIdx), faultReg := false)
  {
    ghost var table := SavedTable(m.ram[..], m.plistIdx);
    m.y := OFF_PPN;
    m.x := 0;
    while true
      invariant m.Core() && m.x < 32 && m.y == OFF_PPN + m.x && m.KernelMode()
      invariant m.mmu.Snap() == old(m.mmu.Snap()).(ppn := m.mmu.ppn, faultReg := m.mmu.faultReg)
      invariant forall i :: 0 <= i < m.x ==> m.mmu.ppn[i] == table[i]
      decreases 32 - m.x
    {
      m.a := m.ram[m.Ptr(ZP_CURR_PROC_PTR) + m.y];
      m.mmu.Clock(Mmu6502.Bus(Mmu6502.PPN0 + m.x, true, m.a, false));
      m.y := m.y + 1;
      m.x := m.x + 1;
      if m.x == Mmu6502.NPAGES {
        break;
      }
    }
    assert m.mmu.ppn == table;
  }

  /** The second half of do_yield, and all of sched_start after the permission bits: the selected entry
      is marked RUNNING and its SP and page table are loaded. */
  method LoadSelected(m: Machine)
    requires m.Core() && m.KernelMode()
    modifies m.ram, m.mmu, m`a, m`x, m`y, m`sp
    ensures m.Core() && SameOffScratch(SetState(old(m.ram[..]), m.plistIdx, RUNNING), m.ram[..])
    ensures m.mmu.Snap() == old(m.mmu.Snap()).(ppn := SavedTable(old(m.ram[..]), m.plistIdx), faultReg := false)
    ensures Regs(m.a, m.x, m.y, m.sp, 0, 0) == AfterRestore(old(m.ram[..]), m.plistIdx)
    ensures m.ram[0x7000 + 64 * m.plistIdx] == 2 && m.sp == old(m.ram[0x700D + 64 * m.plistIdx])
    ensures forall i :: 0 <= i < 32 ==> m.mmu.ppn[i] == old(m.ram[0x700E + 64 * m.plistIdx + i]) % 32
  {
    MarkSelected(m);
    SelectedSame(old(m.ram[..]), m.ram[..], m.plistIdx);
    hide Scratch, SameOffScratch;
    m.y := OFF_SP;
    m.a := m.ram[m.Ptr(ZP_CURR_PROC_PTR) + m.y];
    m.x := m.a;
    m.sp := m.x;
    RestorePpn(m);
  }

  /** Its state byte, and the pointer cells at the entry. */
  method MarkSelected(m: Machine)
    requires m.Core()
    modifies m.ram, m`a, m`x, m`y, m`sp
    ensures m.Core() && m.Ptr(ZP_CURR_PROC_PTR) == Entry(m.plistIdx)
    ensures SameOffScratch(SetState(old(m.ram[..]), m.plistIdx, RUNNING), m.ram[..])
    ensures m.ram[0x7000 + 64 * m.plistIdx] == 2
  {
    CallCalcProcPtr(m);
    m.y := OFF_STATE;
    m.a := RUNNING;
    m.ram[m.Ptr(ZP_CURR_PROC_PTR) + m.y] := m.a;
  }

  /** Entries are outside the scratch memory, and a state change leaves their other bytes alone. */
  lemma {:induction false} SameEntry(q: Ram, r: Ram, j: nat)
    requires j < MAX_PROCS && SameOffScratch(q, r)
    ensures SavedTable(q, j) == SavedTable(r, j) && AfterRestore(q, j) == AfterRestore(r, j)
    ensures StateOf(q, j) == StateOf(r, j)
  {
    forall i | 0 <= i < 32
      ensures SavedTable(q, j)[i] == SavedTable(r, j)[i]
    {
      assert !Scratch(Entry(j) + OFF_PPN + i);
    }
  }

  /** So what is loaded from an entry is what was there before the call and the change of its state. */
  lemma {:induction false} SelectedSame(q: Ram, r: Ram, j: nat)
    requires j < MAX_PROCS && SameOffScratch(SetState(q, j, RUNNING), r)
    ensures SavedTable(r, j) == SavedTable(q, j) && AfterRestore(r, j) == AfterRestore(q, j)
  {
    SameEntry(SetState(q, j, RUNNING), r, j);
  }

  lemma {:induction false} SetStateSame(p: Ram, q: Ram, r: Ram, j: nat)
    requires j < MAX_PROCS && SameOffScratch(p, q) && SameOffScratch(SetState(q, j, RUNNING), r)
    ensures SameOffScratch(SetState(p, j, RUNNING), r)
  {
  }

  /** JSR schedule_process: the return address survives whatever the compiled code does. */
  method CallScheduleProcess(m: Machine)
    requires m.Core()
    modifies m.ram, m`a, m`x, m`y, m`sp, m`plistIdx
    ensures m.Core() && m.sp == old(m.sp) && SameOffScratch(old(m.ram[..]), m.ram[..])
    ensures m.plistIdx == if m.nprocs == 0 then old(m.plistIdx)
        else Choose(old(m.ram[..]), old(m.plistIdx), m.nprocs, 1)
  {
    var site: word := *;
    StackBack(m.sp);
    m.Jsr(site);
    if m.nprocs > 0 {
      ScheduleSame(old(m.ram[..]), m.ram[..], m.plistIdx, m.nprocs);
    }
    ScheduleProcess(m);
    var ret := m.Rts();
    assert ret == site;
  }

  /** do_yield up to its final jump. */
  method DoYield(m: Machine)
    requires m.Core() && m.KernelMode() && m.plistIdx < m.nprocs
    modifies m.ram, m.mmu, m`a, m`x, m`y, m`sp, m`plistIdx
    ensures m.Core() && m.KernelMode()
    ensures var saved := SaveEntry(old(m.ram[..]), old(m.plistIdx), old(m.sp), old(m.mmu.ppn));
            && m.plistIdx == Choose(saved, old(m.plistIdx), m.nprocs, 1)
            && SameOffScratch(SetState(saved, m.plistIdx, RUNNING), m.ram[..])
            && m.mmu.Snap() == old(m.mmu.Snap()).(ppn := SavedTable(saved, m.plistIdx), faultReg := false)
            && Regs(m.a, m.x, m.y, m.sp, 0, 0) == AfterRestore(saved, m.plistIdx)
  {
    ghost var saved := SaveEntry(m.ram[..], m.plistIdx, m.sp, m.mmu.ppn);
    SaveRunning(m);
    ghost var ram1 := m.ram[..];
    hide SaveEntry, Scratch;
    CallScheduleProcess(m);
    ScheduleSame(saved, ram1, old(m.plistIdx), m.nprocs);
    ghost var ram2 := m.ram[..];
    LoadSelected(m);
    SameEntry(saved, ram2, m.plistIdx);
    SetStateSame(saved, ram2, m.ram[..], m.plistIdx);
  }

  lemma {:induction false} ScheduleSame(q: Ram, r: Ram, idx: nat, n: nat)
    requires idx < MAX_PROCS && 0 < n <= MAX_PROCS && SameOffScratch(q, r)
    ensures Choose(q, idx, n, 1) == Choose(r, idx, n, 1)
  {
    ChooseSame(q, r, idx, n, 1);
  }
}
