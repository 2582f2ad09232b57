/**
 rtl/mmu6502.v: 32 virtual pages of 1 KB, a mode bit, control registers at $8080-$80BF and a
 registered fault. `Next` is one falling edge of phi2.
 */
module Mmu6502 {
  import opened Bytes

  const NPAGES := 32
  const PAGE := 1024
  const PPN0: word := 0x8080
  const UBITS: word := 0x80A0
  const WBITS: word := 0x80A4
  const MMU_CTRL: word := 0x80A8
  const MODE: nat := 0x28

  /** One bus cycle as the MMU samples it. */
  datatype Bus = Bus(addr: word, write: bool, data: byte, vectorPull: bool)

  /** The MMU's registers. Byte k, bit n of uBits and wBits is virtual page 8k + n. */
  datatype State = State(ppn: seq<byte>, uBits: seq<byte>, wBits: seq<byte>, kernel: bool, faultReg: bool) {
    ghost predicate Valid() {
      && |ppn| == NPAGES && |uBits| == 4 && |wBits| == 4
      && forall i :: 0 <= i < NPAGES ==> ppn[i] < 32
    }
  }

  // ---- Address decode and translation ----

  function Vpn(addr: word): (n: nat)
    ensures n < NPAGES
  {
    (addr / PAGE) % NPAGES
  }

  predicate IsCtrl(addr: word) {
    addr / 64 == 0x202
  }

  function RegOff(addr: word): (off: nat)
    ensures off < 64
  {
    addr % 64
  }

  /** The physical address of a RAM access. */
  function RamAddr(s: State, addr: word): (pa: nat)
    requires s.Valid()
    ensures pa < 0x8000
  {
    var page: nat := if s.kernel then Vpn(addr) else s.ppn[Vpn(addr)];
    page * PAGE + addr % PAGE
  }

  // ---- Faults ----

  predicate PageBit(bits: seq<byte>, vpn: nat)
    requires |bits| == 4 && vpn < NPAGES
  {
    Bit(bits[vpn / 8], vpn % 8)
  }

  predicate FaultU(s: State, b: Bus)
    requires s.Valid()
  {
    b.addr < 0x8000 && !s.kernel && !PageBit(s.uBits, Vpn(b.addr))
  }

  predicate FaultW(s: State, b: Bus)
    requires s.Valid()
  {
    b.addr < 0x8000 && !s.kernel && b.write && !PageBit(s.wBits, Vpn(b.addr))
  }

  predicate FaultCtrl(s: State, b: Bus) {
    IsCtrl(b.addr) && !s.kernel && b.write
  }

  predicate Faulting(s: State, b: Bus)
    requires s.Valid()
  {
    FaultU(s, b) || FaultW(s, b) || FaultCtrl(s, b)
  }

  // ---- The clocked registers ----

  function Reset(): (s: State)
    ensures s.Valid()
  {
    State(seq(NPAGES, i requires 0 <= i < NPAGES => i as byte), [0, 0, 0, 0], [0xFF, 0xFF, 0xFF, 0xFF], true, false)
  }

  function Next(s: State, b: Bus): (t: State)
    requires s.Valid()
    ensures t.Valid()
  {
    var fault := Faulting(s, b);
    if b.vectorPull || fault then
      s.(kernel := true, faultReg := fault)
    else if IsCtrl(b.addr) && b.write && s.kernel then
      var off := RegOff(b.addr);
      if off < 0x20 then s.(ppn := s.ppn[off := b.data % 32], faultReg := false)
      else if off < 0x24 then s.(uBits := s.uBits[off - 0x20 := b.data], faultReg := false)
      else if off < 0x28 then s.(wBits := s.wBits[off - 0x24 := b.data], faultReg := false)
      else if off == MODE then s.(kernel := b.data % 2 == 1, faultReg := false)
      else s.(faultReg := false)
    else
      s.(faultReg := false)
  }

  /** The control-register read mux. */
  function CtrlRead(s: State, off: nat): (v: byte)
    requires s.Valid() && off < 64
  {
    if off < 0x20 then s.ppn[off]
    else if off < 0x24 then s.uBits[off - 0x20]
    else if off < 0x28 then s.wBits[off - 0x24]
    else if off == MODE then (if s.kernel then 1 else 0)
    else 0
  }

  /** The module itself; Verilog's nonblocking assignments replace all registers at once. */
  class Mmu {
    var ppn: seq<byte>
    var uBits: seq<byte>
    var wBits: seq<byte>
    var kernel: bool
    var faultReg: bool

    function Snap(): State
      reads this
    {
      State(ppn, uBits, wBits, kernel, faultReg)
    }

    ghost predicate Valid()
      reads this
    {
      Snap().Valid()
    }

    constructor ()
      ensures Valid() && Snap() == Reset()
    {
      ppn := seq(NPAGES, i requires 0 <= i < NPAGES => i as byte);
      uBits := [0, 0, 0, 0];
      wBits := [0xFF, 0xFF, 0xFF, 0xFF];
      kernel := true;
      faultReg := false;
    }

    method Clock(b: Bus)
      requires Valid()
      modifies this
      ensures Valid() && Snap() == Next(old(Snap()), b)
    {
      var vpn, off := Vpn(b.addr), RegOff(b.addr);
      var ram := b.addr < 0x8000;
      var faultU := ram && !kernel && !PageBit(uBits, vpn);
      var faultW := ram && !kernel && b.write && !PageBit(wBits, vpn);
      var faultCtrl := IsCtrl(b.addr) && !kernel && b.write;
      if b.vectorPull || faultU || faultW || faultCtrl {
        kernel := true;
      } else if IsCtrl(b.addr) && b.write && kernel {
        if off < 0x20 {
          ppn := ppn[off := b.data % 32];
        } else if off < 0x24 {
          uBits := uBits[off - 0x20 := b.data];
        } else if off < 0x28 {
          wBits := wBits[off - 0x24 := b.data];
        } else if off == MODE {
          kernel := b.data % 2 == 1;
        }
      }
      faultReg := faultU || faultW || faultCtrl;
    }
  }

  // ---- Runs: any bus history after reset ----

  function Run(s: State, h: seq<Bus>): (t: State)
    requires s.Valid()
    ensures t.Valid()
  {
    if h == [] then s else Next(Run(s, h[..|h| - 1]), h[|h| - 1])
  }

  lemma {:induction false} RunStep(s: State, h: seq<Bus>, k: nat)
    requires s.Valid() && k < |h|
    ensures Run(s, h[..k + 1]) == Next(Run(s, h[..k]), h[k])
  {
    assert h[..k + 1][..k] == h[..k];
  }

  lemma {:induction false} NextInUserMode(s: State, b: Bus)
    requires s.Valid() && !s.kernel
    ensures Next(s, b).ppn == s.ppn && Next(s, b).uBits == s.uBits && Next(s, b).wBits == s.wBits
  {
  }

  /** Page table and permissions are frozen through every stretch of user mode. */
  lemma {:induction false} UserModeFreezesConfig(s: State, h: seq<Bus>, i: nat, j: nat)
    requires s.Valid() && i <= j <= |h|
    requires forall k :: i <= k < j ==> !Run(s, h[..k]).kernel
    ensures Run(s, h[..j]).ppn == Run(s, h[..i]).ppn
    ensures Run(s, h[..j]).uBits == Run(s, h[..i]).uBits && Run(s, h[..j]).wBits == Run(s, h[..i]).wBits
  {
    hide Run;
    if i < j {
      UserModeFreezesConfig(s, h, i, j - 1);
      RunStep(s, h, j - 1);
      NextInUserMode(Run(s, h[..j - 1]), h[j - 1]);
    }
  }

  /** A kernel-mode write of an even value to $80A8, not overridden by a vector pull. */
  predicate DropsToUser(s: State, b: Bus) {
    s.kernel && b.addr == 0x80A8 && b.write && b.data % 2 == 0 && !b.vectorPull
  }

  /** Cycle k of the history entered user mode, and up to cycle n the MMU has stayed in it. */
  ghost predicate UserSince(h: seq<Bus>, k: nat, n: nat)
    requires n <= |h|
  {
    k < n && DropsToUser(Run(Reset(), h[..k]), h[k]) && forall l :: k < l <= n ==> !Run(Reset(), h[..l]).kernel
  }

  /** After any n cycles the MMU is in user mode exactly when some kernel write of $80A8 put it there
      and it has not left since. */
  lemma {:induction false} UserModeEntry(h: seq<Bus>, n: nat)
    requires n <= |h|
    ensures !Run(Reset(), h[..n]).kernel <==> exists k: nat :: UserSince(h, k, n)
  {
    if n > 0 && !Run(Reset(), h[..n]).kernel {
      RunStep(Reset(), h, n - 1);
      if Run(Reset(), h[..n - 1]).kernel {
        assert UserSince(h, n - 1, n);
      } else {
        UserModeEntry(h, n - 1);
        var k: nat :| UserSince(h, k, n - 1);
        assert UserSince(h, k, n);
      }
    }
  }

  predicate Accepts(s: State, b: Bus)
    requires s.Valid()
  {
    IsCtrl(b.addr) && b.write && s.kernel && !b.vectorPull && !Faulting(s, b)
  }

  /** What offset `off` holds according to the bus history alone: the last accepted write to it cut to
      the register's width, or its reset value; for the mode also the last trap; 0 when reserved. */
  ghost function LastAccepted(h: seq<Bus>, off: nat): byte
    requires off < 64
  {
    if off > MODE then 0
    else if h == [] then
      if off < 0x20 then off else if off < 0x24 then 0 else if off < 0x28 then 0xFF else 1
    else
      var g, b := h[..|h| - 1], h[|h| - 1];
      var s := Run(Reset(), g);
      if off == MODE && (b.vectorPull || Faulting(s, b)) then 1
      else if Accepts(s, b) && b.addr == 0x8080 + off then
        if off < 0x20 then b.data % 32 else if off < MODE then b.data else b.data % 2
      else LastAccepted(g, off)
  }

  /** The 64 offsets behave as independent registers over any history. */
  lemma {:induction false} ReadsLastAccepted(h: seq<Bus>, off: nat)
    requires off < 64
    ensures CtrlRead(Run(Reset(), h), off) == LastAccepted(h, off)
  {
    if h != [] {
      ReadsLastAccepted(h[..|h| - 1], off);
      var b := h[|h| - 1];
      assert IsCtrl(b.addr) ==> b.addr == PPN0 + RegOff(b.addr);
    }
  }

  /** Over any history: a user-mode access to RAM faults exactly when the last value the kernel wrote for
      its page has the user bit clear, or it is a write and the write bit is clear; a user-mode write of a
      control register always does, and nothing else ever. Page 8 j + n has bit n of registers $20 + j
      and $24 + j. */
  lemma {:induction false} FaultsExactly(h: seq<Bus>, b: Bus, j: nat, n: nat)
    requires j < 4 && n < 8 && (b.addr < 0x8000 ==> b.addr / 1024 == 8 * j + n)
    ensures var s := Run(Reset(), h);
            Next(s, b).faultReg <==>
            !s.kernel &&
            (if b.addr < 0x8000 then
               !Bit(LastAccepted(h, 0x20 + j), n) || (b.write && !Bit(LastAccepted(h, 0x24 + j), n))
             else 0x8080 <= b.addr < 0x80C0 && b.write)
  {
    hide Run, LastAccepted, Bit, Next;
    ReadsLastAccepted(h, 0x20 + j);
    ReadsLastAccepted(h, 0x24 + j);
    FaultsByBits(Run(Reset(), h), b, j, n);
  }

  lemma {:induction false} FaultsByBits(s: State, b: Bus, j: nat, n: nat)
    requires s.Valid() && j < 4 && n < 8 && (b.addr < 0x8000 ==> b.addr / 1024 == 8 * j + n)
    ensures Next(s, b).faultReg <==>
            !s.kernel &&
            (if b.addr < 0x8000 then !Bit(s.uBits[j], n) || (b.write && !Bit(s.wBits[j], n))
             else 0x8080 <= b.addr < 0x80C0 && b.write)
  {
    assert b.addr < 0x8000 ==> Vpn(b.addr) == 8 * j + n;
    assert (8 * j + n) / 8 == j && (8 * j + n) % 8 == n;
    hide Bit;
  }

  // ---- Faults and the NMI line (tb.v registers ~faultb on the rising clock edge) ----

  /** A registered fault always finds the MMU back in kernel mode, and the access after it cannot fault. */
  lemma {:induction false} FaultForcesKernel(s: State, b: Bus, c: Bus)
    requires s.Valid() && Faulting(s, b)
    ensures Next(s, b).faultReg && Next(s, b).kernel
    ensures !Faulting(Next(s, b), c)
  {
  }

  /** NMI after the cycles of h: on each rising edge it samples the fault registered before. */
  ghost function Nmi(nmi: bool, h: seq<Bus>): bool {
    if h == [] then nmi else Run(Reset(), h[..|h| - 1]).faultReg
  }

  /** Rising edges of NMI over the cycles of h, NMI being `nmi` at the start. */
  ghost function NmiEdges(nmi: bool, h: seq<Bus>): nat {
    if h == [] then 0
    else
      var g := h[..|h| - 1];
      NmiEdges(nmi, g) + if !Nmi(nmi, g) && Nmi(nmi, h) then 1 else 0
  }

  ghost function FaultCount(h: seq<Bus>): nat {
    if h == [] then 0
    else
      var g := h[..|h| - 1];
      FaultCount(g) + if Faulting(Run(Reset(), g), h[|h| - 1]) then 1 else 0
  }

  lemma {:induction false} FaultInKernel(h: seq<Bus>)
    ensures Run(Reset(), h).faultReg ==> Run(Reset(), h).kernel
  {
  }

  /** Every fault makes exactly one NMI edge, whatever NMI was at power-on: the counts agree up to the
      fault still in the register. */
  lemma {:induction false} OneEdgePerFault(nmi: bool, h: seq<Bus>)
    ensures NmiEdges(nmi, h) + (if Run(Reset(), h).faultReg then 1 else 0) == FaultCount(h)
  {
    if h != [] {
      var g := h[..|h| - 1];
      OneEdgePerFault(nmi, g);
      if g != [] {
        var f := g[..|g| - 1];
        FaultInKernel(f);
        FaultInKernel(g);
        assert Nmi(nmi, h) == Run(Reset(), g).faultReg && Nmi(nmi, g) == Run(Reset(), f).faultReg;
      }
    }
  }

  // ---- What the kernel's code relies on ----

  /** With all permission bits open, a user RAM access neither faults nor changes any register. */
  predicate Open(s: State) {
    s.uBits == [0xFF, 0xFF, 0xFF, 0xFF] && s.wBits == [0xFF, 0xFF, 0xFF, 0xFF]
  }

  lemma {:induction false} OpenUserAccess(s: State, b: Bus)
    requires s.Valid() && Open(s) && !s.faultReg && !b.vectorPull
    requires !s.kernel && (b.addr < 0x8000 || !IsCtrl(b.addr) || !b.write)
    ensures Next(s, b) == s
  {
  }
}
