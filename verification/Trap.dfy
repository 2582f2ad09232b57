/**
 Into the kernel and back: the CPU's BRK sequence, brk.s, and the boot ROM's ret_user_mode.
 */
module Trap {
  import opened Bytes
  import opened System
  import opened Machine
  import opened Yield
  import Mmu6502

  const ZP_SYS_NUM_PTR := 0x30
  const ZP_SYS_NUM := 0x32
  const ZP_MEM_PTR := 0x54

  // ---- Where the handler looks ----

  /** Physical address at which brk.s reads byte k of the frame: no wrap at the end of the stack page. */
  function FrameAddr(t: Table, sp: byte, k: nat): (pa: nat)
    requires k <= 3
    ensures pa < RAM_SIZE
  {
    Word(sp, t[0] * 4 + 1) + k
  }

  /** The handler reads the frame that BRK pushed exactly when the push did not wrap round the stack
      page; a process with SP below 3 is misread. */
  lemma {:induction false} FrameFound(t: Table, sp: byte)
    ensures (forall k :: 1 <= k <= 3 ==> FrameAddr(t, PopFrame(sp), k) == Phys(t, Stack(PopFrame(sp), k))) <==> sp >= 3
  {
    if sp < 3 {
      assert FrameAddr(t, PopFrame(sp), 3) != Phys(t, Stack(PopFrame(sp), 3));
    }
  }

  /** The zero-page cells brk.s itself writes. */
  predicate HandlerCell(pa: int) {
    0x30 <= pa < 0x33 || 0x54 <= pa < 0x56
  }

  /** The frame read back from where the handler looks. */
  lemma {:induction false} FrameReadBack(s: Sys)
    requires s.r.sp >= 3
    ensures var q := PushFrame(s.ram, s.ppn, s.r);
            && Bit(q[FrameAddr(s.ppn, PopFrame(s.r.sp), 1)], 4)
            && Word(q[FrameAddr(s.ppn, PopFrame(s.r.sp), 2)], q[FrameAddr(s.ppn, PopFrame(s.r.sp), 3)])
                == WrapWord(s.r.pc + 2)
  {
    var sp := PopFrame(s.r.sp);
    FrameFound(s.ppn, s.r.sp);
    assert Stack(sp, 1) == Stack(s.r.sp, -2) && Stack(sp, 2) == Stack(s.r.sp, -1) && Stack(sp, 3) == Stack(s.r.sp, 0);
    StackApart(s.ppn, s.r.sp);
    PushedFlags(s.r.p);
    hide Phys, FrameAddr, Stack, Pushed, Bit;
  }

  /** The three frame bytes are three different physical bytes. */
  lemma {:induction false} StackApart(t: Table, sp: byte)
    ensures Phys(t, Stack(sp, 0)) != Phys(t, Stack(sp, -1)) && Phys(t, Stack(sp, 0)) != Phys(t, Stack(sp, -2))
    ensures Phys(t, Stack(sp, -1)) != Phys(t, Stack(sp, -2))
  {
  }

  // ---- The CPU ----

  /** A push in user mode goes through the page table. */
  method PushUser(m: Machine, v: byte)
    requires m.Core() && m.UserMode()
    modifies m.ram, m.mmu, m`sp
    ensures m.Core() && m.UserMode() && m.mmu.Snap() == old(m.mmu.Snap()) && m.sp == Wrap(old(m.sp) - 1)
    ensures m.ram[..] == old(m.ram[..])[Phys(m.mmu.ppn, Stack(old(m.sp), 0)) := v]
  {
    var addr: word := 0x100 + m.sp;
    var bus := Mmu6502.Bus(addr, true, v, false);
    Mmu6502.OpenUserAccess(m.mmu.Snap(), bus);
    var pa := Mmu6502.RamAddr(m.mmu.Snap(), addr);
    m.mmu.Clock(bus);
    m.ram[pa] := v;
    m.sp := Wrap(m.sp - 1);
  }

  method PullUser(m: Machine) returns (v: byte)
    requires m.Core() && m.UserMode()
    modifies m.mmu, m`sp
    ensures m.Core() && m.UserMode() && m.mmu.Snap() == old(m.mmu.Snap()) && m.sp == Wrap(old(m.sp) + 1)
    ensures v == m.ram[Phys(m.mmu.ppn, Stack(old(m.sp), 1))]
  {
    m.sp := Wrap(m.sp + 1);
    var addr: word := 0x100 + m.sp;
    var bus := Mmu6502.Bus(addr, false, 0, false);
    Mmu6502.OpenUserAccess(m.mmu.Snap(), bus);
    v := m.ram[Mmu6502.RamAddr(m.mmu.Snap(), addr)];
    m.mmu.Clock(bus);
  }

  /** The handler's address, installed in kernel RAM. */
  function Vector(ram: seq<byte>): word
    requires |ram| == RAM_SIZE
  {
    Word(ram[0xFE], ram[0xFF])
  }

  /** BRK: three pushes in user mode, the two vector fetches that force kernel mode, and the ROM's
      JMP ($00FE), whose target is `target`. */
  method Brk(m: Machine) returns (target: word)
    requires m.Core() && m.UserMode()
    modifies m.ram, m.mmu, m`sp
    ensures m.Core() && m.sp == PopFrame(old(m.sp))
    ensures m.ram[..] == PushFrame(old(m.ram[..]), old(m.mmu.ppn), old(m.Snap().r))
    ensures m.mmu.Snap() == old(m.mmu.Snap()).(kernel := true)
    ensures target == Vector(old(m.ram[..])) == old(m.ram[0xFE]) as int + 0x100 * old(m.ram[0xFF]) as int
  {
    assert Vector(m.ram[..]) == m.ram[0xFE] as int + 0x100 * m.ram[0xFF] as int;
    VectorSpared(m.ram[..], m.mmu.ppn, m.Snap().r);
    hide Vector;
    PushAll(m);
    m.mmu.Clock(Mmu6502.Bus(0xFFFE, false, 0, true));
    m.mmu.Clock(Mmu6502.Bus(0xFFFF, false, 0, true));
    target := Jump(m);
  }

  lemma {:induction false} VectorSpared(ram: Ram, t: Table, r: Regs)
    ensures Vector(PushFrame(ram, t, r)) == Vector(ram)
  {
  }

  /** JMP ($00FE) in the ROM. */
  method Jump(m: Machine) returns (target: word)
    requires m.Core()
    ensures target == Vector(m.ram[..])
  {
    target := m.Ptr(0xFE);
  }

  method PushAll(m: Machine)
    requires m.Core() && m.UserMode()
    modifies m.ram, m.mmu, m`sp
    ensures m.Core() && m.mmu.Snap() == old(m.mmu.Snap()) && m.sp == PopFrame(old(m.sp))
    ensures m.ram[..] == PushFrame(old(m.ram[..]), old(m.mmu.ppn), old(m.Snap().r))
  {
    var next := WrapWord(m.pc + 2);
    PushUser(m, Hi(next));
    PushUser(m, Lo(next));
    PushUser(m, Pushed(m.p));
  }

  /** ret_user_mode: STZ MMU_CTRL, then RTI whose pulls already go through ppn[0]. */
  method RetUserMode(m: Machine)
    requires m.Core() && m.KernelMode() && Mmu6502.Open(m.mmu.Snap())
    modifies m.mmu, m`sp, m`p, m`pc
    ensures m.Core() && m.UserMode()
    ensures m.mmu.Snap() == old(m.mmu.Snap()).(kernel := false, faultReg := false)
    ensures m.Snap().r == Rti(m.ram[..], m.mmu.ppn, old(m.Snap().r))
  {
    m.mmu.Clock(Mmu6502.Bus(Mmu6502.MMU_CTRL, true, 0, false));
    StackUp(m.sp);
    var status := PullUser(m);
    m.p := Flags(status);
    var lo := PullUser(m);
    var hi := PullUser(m);
    m.pc := Word(lo, hi);
  }

  lemma {:induction false} StackUp(sp: byte)
    ensures Stack(Wrap(sp + 1), 1) == Stack(sp, 2) && Stack(Wrap(Wrap(sp + 1) + 1), 1) == Stack(sp, 3)
    ensures Wrap(Wrap(Wrap(sp + 1) + 1) + 1) == Wrap(sp + 3)
  {
  }

  // ---- brk.s ----

  datatype Route = IrqReturn | ToYield | ToDispatch(num: byte)

  /** CMP #0, BNE. */
  function Dispatch(num: byte): Route {
    if num == 0 then ToYield else ToDispatch(num)
  }

  ghost predicate OnlyNumberPtr(before: seq<byte>, after: seq<byte>) {
    && |before| == |after| == RAM_SIZE
    && forall i :: 0 <= i < RAM_SIZE && i != ZP_SYS_NUM_PTR && i != ZP_SYS_NUM_PTR + 1 ==> after[i] == before[i]
  }

  ghost predicate OnlyHandlerCells(before: seq<byte>, after: seq<byte>) {
    |before| == |after| == RAM_SIZE && forall i :: 0 <= i < RAM_SIZE && !HandlerCell(i) ==> after[i] == before[i]
  }

  /** brk.s:53-66: find the frame through ppn[0] and test the B flag. */
  method FindFrame(m: Machine)
    requires m.Core()
    modifies m.ram, m`a, m`x, m`y
    ensures m.Core() && m.Ptr(ZP_MEM_PTR) == FrameAddr(m.mmu.ppn, m.sp, 0) && m.y == 1
    ensures m.ram[..] == old(m.ram[..])[0x54 := m.sp][0x55 := m.mmu.ppn[0] * 4 + 1]
    ensures m.a == old(m.ram[FrameAddr(m.mmu.ppn, m.sp, 1)])
  {
    m.x := m.sp;
    m.a := Mmu6502.CtrlRead(m.mmu.Snap(), 0);
    m.a := m.a * 4 + 1;                       // ASL, ASL, ORA #1
    m.ram[ZP_MEM_PTR + 1] := m.a;
    m.ram[ZP_MEM_PTR] := m.x;
    m.y := 1;
    m.a := m.ram[m.Ptr(ZP_MEM_PTR) + m.y];
  }

  /** brk.s:72-82: the saved PC less one, with the borrow into its high byte. */
  method CallAddress(m: Machine)
    requires m.Core() && m.Ptr(ZP_MEM_PTR) == FrameAddr(m.mmu.ppn, m.sp, 0) && m.y == 1
    modifies m.ram, m`a, m`y
    ensures m.Core() && OnlyNumberPtr(old(m.ram[..]), m.ram[..])
    ensures m.Ptr(ZP_SYS_NUM_PTR) ==
            WrapWord(Word(old(m.ram[FrameAddr(m.mmu.ppn, m.sp, 2)]), old(m.ram[FrameAddr(m.mmu.ppn, m.sp, 3)])) - 1)
  {
    m.y := m.y + 1;
    m.a := m.ram[m.Ptr(ZP_MEM_PTR) + m.y];
    var borrow := if m.a == 0 then 1 else 0;  // SEC, SBC #1
    m.a := Wrap(m.a - 1);
    m.ram[ZP_SYS_NUM_PTR] := m.a;
    m.y := m.y + 1;
    m.a := m.ram[m.Ptr(ZP_MEM_PTR) + m.y];
    m.a := Wrap(m.a - borrow);                // SBC #0
    m.ram[ZP_SYS_NUM_PTR + 1] := m.a;
  }

  /** brk.s:87-99: translate the pointer by its own page, in place. */
  method TranslatePointer(m: Machine)
    requires m.Core()
    modifies m.ram, m`a, m`x
    ensures m.Core() && OnlyNumberPtr(old(m.ram[..]), m.ram[..])
    ensures m.Ptr(ZP_SYS_NUM_PTR) == Phys(m.mmu.ppn, old(m.Ptr(ZP_SYS_NUM_PTR)) % RAM_SIZE)
  {
    SelectsPage(m.mmu.ppn, m.ram[ZP_SYS_NUM_PTR], m.ram[ZP_SYS_NUM_PTR + 1]);
    hide Phys;
    m.a := m.ram[ZP_SYS_NUM_PTR + 1];
    m.a := m.a / 4 % 0x20;                    // LSR, LSR, AND #$1F
    m.x := m.a;
    m.a := m.ram[ZP_SYS_NUM_PTR + 1];
    m.a := m.a % 4;                           // AND #$03
    m.ram[ZP_SYS_NUM_PTR + 1] := m.a;
    m.a := Mmu6502.CtrlRead(m.mmu.Snap(), m.x);
    m.a := m.a * 4 + m.ram[ZP_SYS_NUM_PTR + 1];
    m.ram[ZP_SYS_NUM_PTR + 1] := m.a;
  }

  /** Where the handler goes for the frame at sp: with any page table it reads the byte selected by the
      saved PC less one, page by page, as RAM is with its own pointers in place. */
  predicate Routed(q: Ram, t: Table, sp: byte, route: Route) {
    && (route.IrqReturn? <==> !Bit(q[FrameAddr(t, sp, 1)], 4))
    && (!route.IrqReturn? ==>
          var w := WrapWord(Word(q[FrameAddr(t, sp, 2)], q[FrameAddr(t, sp, 3)]) - 1);
          var pa := Phys(t, w % RAM_SIZE);
          route == Dispatch(AtRead(q, t, sp, pa)[pa]))
  }

  /** The handler up to its dispatch, which leaves the number in $32 for syscall_dispatch. */
  method BrkHandler(m: Machine) returns (route: Route)
    requires m.Core()
    modifies m.ram, m`a, m`x, m`y
    ensures m.Core() && OnlyHandlerCells(old(m.ram[..]), m.ram[..])
    ensures Routed(old(m.ram[..]), m.mmu.ppn, m.sp, route)
    ensures route.ToDispatch? ==> m.ram[0x32] == route.num
  {
    hide Phys, WrapWord, Bit, FrameAddr, Word;
    FrameIsNoHandlerCell(m.mmu.ppn, m.sp);
    ghost var q := m.ram[..];
    FindFrame(m);
    if !Bit(m.a, 4) {
      return IrqReturn;
    }
    CallAddress(m);
    TranslatePointer(m);
    ReadyToRead(q, m.ram[..], m.mmu.ppn, m.sp, m.Ptr(ZP_SYS_NUM_PTR));
    ReadNumber(m);
    route := Dispatch(m.a);
  }

  lemma {:induction false} ReadyToRead(q: Ram, r: Ram, t: Table, sp: byte, pa: nat)
    requires OnlyNumberPtr(q[0x54 := sp][0x55 := t[0] * 4 + 1], r) && Word(r[0x30], r[0x31]) == pa < RAM_SIZE
    ensures r == AtRead(q, t, sp, pa) && OnlyHandlerCells(q, r)
  {
    assert r[0x30] == Lo(pa) && r[0x31] == Hi(pa);
    assert forall i :: 0 <= i < RAM_SIZE ==> r[i] == AtRead(q, t, sp, pa)[i];
  }

  /** brk.s:102-104: the number byte, kept in the kernel's zero page. */
  method ReadNumber(m: Machine)
    requires m.Core() && m.Ptr(ZP_SYS_NUM_PTR) < RAM_SIZE
    modifies m.ram, m`a, m`y
    ensures m.Core() && OnlyHandlerCells(old(m.ram[..]), m.ram[..]) && m.a == old(m.ram[m.Ptr(ZP_SYS_NUM_PTR)])
    ensures m.ram[ZP_SYS_NUM] == m.a
  {
    m.y := 0;
    m.a := m.ram[m.Ptr(ZP_SYS_NUM_PTR) + m.y];
    m.ram[ZP_SYS_NUM] := m.a;
  }

  lemma {:induction false} FrameIsNoHandlerCell(t: Table, sp: byte)
    ensures !HandlerCell(FrameAddr(t, sp, 1)) && !HandlerCell(FrameAddr(t, sp, 2)) && !HandlerCell(FrameAddr(t, sp, 3))
  {
  }

  lemma {:induction false} HighByteParts(hi: byte)
    ensures hi / 4 % 0x20 == hi % 0x80 / 4 && hi % 4 == hi % 0x80 % 4
  {
  }

  lemma {:induction false} DropBit15(lo: byte, hi: byte)
    ensures Word(lo, hi) % RAM_SIZE == lo + 0x100 * (hi % 0x80)
  {
    assert hi == hi / 0x80 * 0x80 + hi % 0x80;
  }

  lemma {:induction false} PageAndOffset(lo: byte, h: nat)
    requires h < 0x80
    ensures (lo + 0x100 * h) / 1024 == h / 4 && (lo + 0x100 * h) % 1024 == lo + 0x100 * (h % 4)
  {
    assert lo + 0x100 * h == 1024 * (h / 4) + (lo + 0x100 * (h % 4));
  }

  /** The byte shuffle of brk.s is the page-table translation of the 16-bit pointer. */
  lemma {:induction false} SelectsPage(t: Table, lo: byte, hi: byte)
    ensures Word(lo, t[hi / 4 % 0x20] * 4 + hi % 4) == Phys(t, Word(lo, hi) % RAM_SIZE)
  {
    HighByteParts(hi);
    DropBit15(lo, hi);
    PageAndOffset(lo, hi % 0x80);
  }

  lemma {:induction false} BackOne(pc: word)
    ensures WrapWord(WrapWord(pc + 2) - 1) == WrapWord(pc + 1)
  {
  }

  lemma {:induction false} RoutedAt(q: Ram, t: Table, sp: byte, route: Route, w: word)
    requires Routed(q, t, sp, route) && Bit(q[FrameAddr(t, sp, 1)], 4)
    requires Word(q[FrameAddr(t, sp, 2)], q[FrameAddr(t, sp, 3)]) == w
    ensures var pa := Phys(t, WrapWord(w - 1) % RAM_SIZE); route == Dispatch(AtRead(q, t, sp, pa)[pa])
  {
  }

  /** With any page table and PC, the number dispatched on is what the handler finds after the BRK. */
  lemma {:induction false} RoutedByNumber(s: Sys, route: Route)
    requires s.r.sp >= 3 && Routed(PushFrame(s.ram, s.ppn, s.r), s.ppn, PopFrame(s.r.sp), route)
    ensures route == Dispatch(CallNumber(s))
  {
    hide Routed, PushFrame, FrameAddr, Bit, Phys, Word, WrapWord, PopFrame, AtRead, Dispatch;
    FrameReadBack(s);
    BackOne(s.r.pc);
    RoutedAt(PushFrame(s.ram, s.ppn, s.r), s.ppn, PopFrame(s.r.sp), route, WrapWord(s.r.pc + 2));
  }

  /** The cells that hold the handler's two pointers. */
  predicate PointerCell(pa: int) {
    0x30 <= pa < 0x32 || 0x54 <= pa < 0x56
  }

  function Poke(s: Sys, pa: nat, b: byte): Sys
    requires pa < RAM_SIZE
  {
    s.(ram := s.ram[pa := b])
  }

  lemma {:induction false} FrameSparesPointers(ram: Ram, t: Table, r: Regs, pa: nat)
    requires PointerCell(pa)
    ensures PushFrame(ram, t, r)[pa] == ram[pa]
  {
  }

  /** The handler's own value in one of its pointer cells. */
  function OwnValue(t: Table, sp: byte, pa: nat): byte
    requires PointerCell(pa)
  {
    if pa == 0x54 then sp else if pa == 0x55 then t[0] * 4 + 1 else if pa == 0x30 then Lo(pa) else Hi(pa)
  }

  lemma {:induction false} ReadAt(q: Ram, t: Table, sp: byte, pa: nat)
    requires pa < RAM_SIZE
    ensures AtRead(q, t, sp, pa)[pa] == if PointerCell(pa) then OwnValue(t, sp, pa) else q[pa]
  {
  }

  lemma {:induction false} PokedNumber(s: Sys, b: byte)
    ensures var pa, u := NumberAt(s.ppn, s.r.pc), Poke(s, NumberAt(s.ppn, s.r.pc), b);
            && CallNumber(u) == (if PointerCell(pa) then OwnValue(s.ppn, PopFrame(s.r.sp), pa)
                                 else PushFrame(u.ram, s.ppn, s.r)[pa])
            && (PointerCell(pa) ==> PushFrame(u.ram, s.ppn, s.r)[pa] == b)
  {
    hide PushFrame, AtRead, NumberAt, PointerCell;
    var pa, u := NumberAt(s.ppn, s.r.pc), Poke(s, NumberAt(s.ppn, s.r.pc), b);
    ReadAt(PushFrame(u.ram, s.ppn, s.r), s.ppn, PopFrame(s.r.sp), pa);
    if PointerCell(pa) {
      FrameSparesPointers(u.ram, s.ppn, s.r, pa);
    }
  }

  /** The process's byte after the BRK is the number, whatever it is, exactly when it does not lie in the
      handler's two pointers; a process whose code is there is misread. */
  lemma {:induction false} NumberReadIff(s: Sys)
    ensures var pa := NumberAt(s.ppn, s.r.pc);
            (forall b: byte :: CallNumber(Poke(s, pa, b)) == PushFrame(Poke(s, pa, b).ram, s.ppn, s.r)[pa])
            <==> !PointerCell(pa)
  {
    hide PushFrame, CallNumber, NumberAt, OwnValue, Poke;
    var pa := NumberAt(s.ppn, s.r.pc);
    forall b: byte
      ensures !PointerCell(pa) ==> CallNumber(Poke(s, pa, b)) == PushFrame(Poke(s, pa, b).ram, s.ppn, s.r)[pa]
    {
      PokedNumber(s, b);
    }
    if PointerCell(pa) {
      var other: byte := if OwnValue(s.ppn, PopFrame(s.r.sp), pa) == 1 then 2 else 1;
      PokedNumber(s, other);
    }
  }

  /** From a user's BRK to the dispatch, with any page table, PC and SP. */
  method EnterKernel(m: Machine) returns (route: Route)
    requires m.Core() && m.UserMode()
    modifies m.ram, m.mmu, m`a, m`x, m`y, m`sp
    ensures m.Core() && m.mmu.Snap() == old(m.mmu.Snap()).(kernel := true) && m.sp == PopFrame(old(m.sp))
    ensures SameOffScratch(PushFrame(old(m.ram[..]), old(m.mmu.ppn), old(m.Snap().r)), m.ram[..])
    ensures Routed(PushFrame(old(m.ram[..]), old(m.mmu.ppn), old(m.Snap().r)), old(m.mmu.ppn), m.sp, route)
    ensures old(m.sp) >= 3 ==> route == Dispatch(old(CallNumber(m.Snap())))
    ensures route.ToDispatch? ==> m.ram[0x32] == route.num
  {
    ghost var s := m.Snap();
    hide Routed, PushFrame, CallNumber;
    var target := Brk(m);
    assert target == Vector(s.ram);  // where brk_handler is installed
    route := BrkHandler(m);
    if s.r.sp >= 3 {
      RoutedByNumber(s, route);
    }
    HandlerIsScratch(PushFrame(s.ram, s.ppn, s.r), m.ram[..]);
  }

  lemma {:induction false} HandlerIsScratch(q: Ram, r: Ram)
    requires OnlyHandlerCells(q, r)
    ensures SameOffScratch(q, r)
  {
  }

  /** SYS_YIELD as a whole: from the BRK #0 of one process to the next user-mode point. */
  method YieldTrap(m: Machine)
    requires m.Core() && m.UserMode() && m.sp >= 3 && m.plistIdx < m.nprocs && CallNumber(m.Snap()) == SYS_YIELD
    modifies m.ram, m.mmu, m`a, m`x, m`y, m`sp, m`p, m`pc, m`plistIdx
    ensures m.Core() && m.UserMode() && YieldStep(old(m.Snap()), m.Snap())
  {
    hide Scratch, PushFrame, SaveEntry, CallNumber, HandlerCell, Phys, Choose;
    ghost var s := m.Snap();
    var route := EnterKernel(m);
    assert route == ToYield;
    ghost var entered := m.ram[..];
    DoYield(m);
    YieldSame(s, entered, m.plistIdx, m.ram[..]);
    RetUserMode(m);
  }

  /** do_yield does the same whatever the handler left in its scratch cells. */
  lemma {:induction false} YieldSame(s: Sys, entered: Ram, k: nat, after: Ram)
    requires s.idx < s.nprocs <= MAX_PROCS && SameOffScratch(PushFrame(s.ram, s.ppn, s.r), entered)
    requires k == Choose(SaveEntry(entered, s.idx, PopFrame(s.r.sp), s.ppn), s.idx, s.nprocs, 1)
    requires SameOffScratch(SetState(SaveEntry(entered, s.idx, PopFrame(s.r.sp), s.ppn), k, RUNNING), after)
    ensures var saved := SaveEntry(PushFrame(s.ram, s.ppn, s.r), s.idx, PopFrame(s.r.sp), s.ppn);
            && k == Choose(saved, s.idx, s.nprocs, 1)
            && SameOffScratch(SetState(saved, k, RUNNING), after)
            && SavedTable(SetState(saved, k, RUNNING), k)
                == SavedTable(SaveEntry(entered, s.idx, PopFrame(s.r.sp), s.ppn), k)
            && AfterRestore(SetState(saved, k, RUNNING), k)
                == AfterRestore(SaveEntry(entered, s.idx, PopFrame(s.r.sp), s.ppn), k)
  {
    var q := SaveEntry(PushFrame(s.ram, s.ppn, s.r), s.idx, PopFrame(s.r.sp), s.ppn);
    var r := SaveEntry(entered, s.idx, PopFrame(s.r.sp), s.ppn);
    assert SameOffScratch(q, r);
    hide SaveEntry, PushFrame, Scratch;
    ScheduleSame(q, r, s.idx, s.nprocs);
    SameEntry(q, r, k);
    SetStateKeeps(q, k);
    SetStateSame(q, r, after, k);
  }

  lemma {:induction false} SetStateKeeps(q: Ram, j: nat)
    requires j < MAX_PROCS
    ensures SavedTable(SetState(q, j, RUNNING), j) == SavedTable(q, j)
    ensures AfterRestore(SetState(q, j, RUNNING), j) == AfterRestore(q, j)
  {
  }
}
