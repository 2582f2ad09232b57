/**
 The user-side system call stubs (sw/prog/src/syslib.s): PHA PHX PHY, BRK and its number byte, then
 PLY PLX PLA, run on a process's private memory.
 */
module Stubs {
  import opened Bytes
  import opened System
  import opened Virtualisation

  function PushRegs(p: Private): Private {
    Private(p.r.(sp := Wrap(p.r.sp - 3), pc := WrapWord(p.r.pc + 3)),
            p.mem[Stack(p.r.sp, 0) := p.r.a][Stack(p.r.sp, -1) := p.r.x][Stack(p.r.sp, -2) := p.r.y])
  }

  /** N and Z set from a loaded byte, the other flags as they were. */
  function LoadFlags(p: byte, a: byte): byte {
    p % 0x80 / 4 * 4 + p % 2 + (if a >= 0x80 then 0x80 else 0) + (if a == 0 then 2 else 0)
  }

  /** Bit 3 and the three below it. */
  lemma {:induction false} TopBit(s: nat, l: nat, n: nat)
    requires s < 2 && l < 8 && n < 4
    ensures Bit(8 * s + l, n) <==> if n == 3 then s == 1 else Bit(l, n)
  {
    var v: byte := 8 * s + l;
    if n == 1 {
      assert v / 2 == 4 * s + l / 2;
    } else if n == 2 {
      assert v / 4 == 2 * s + l / 4;
    } else if n == 3 {
      assert v / 8 == s;
    }
  }

  /** Bits 0 and 1 and the two above them. */
  lemma {:induction false} LowBits(h: nat, y: nat, x: nat, n: nat)
    requires h < 4 && y < 2 && x < 2 && n < 4
    ensures Bit(4 * h + 2 * y + x, n) <==> if n == 0 then x == 1 else if n == 1 then y == 1 else Bit(h, n - 2)
  {
    var v: byte := 4 * h + 2 * y + x;
    if n == 1 {
      assert v / 2 == 2 * h + y;
    } else if n == 2 {
      assert v / 4 == h;
    } else if n == 3 {
      assert v / 8 == h / 2;
    }
  }

  /** A byte in the parts that matter here. */
  lemma {:induction false} Parts(p: byte) returns (t: nat, l: nat, h: nat, y: nat, x: nat)
    ensures t < 2 && l < 8 && h < 4 && y < 2 && x < 2
    ensures p == 16 * (8 * t + l) + (4 * h + 2 * y + x)
  {
    t, x := p / 128, p % 2;
    l, h, y := p / 16 - 8 * t, p / 4 - 4 * (p / 16), p / 2 - 2 * (p / 4);
  }

  lemma {:induction false} LoadedParts(t: nat, l: nat, h: nat, y: nat, x: nat, a: byte)
    requires t < 2 && l < 8 && h < 4 && y < 2 && x < 2
    ensures LoadFlags(16 * (8 * t + l) + (4 * h + 2 * y + x), a) ==
            16 * (8 * (if a >= 0x80 then 1 else 0) + l) + (4 * h + 2 * (if a == 0 then 1 else 0) + x)
  {
    SplitAt(128, t, 16 * l + 4 * h + 2 * y + x);
    SplitAt(4, 4 * l + h, 2 * y + x);
    SplitAt(2, 64 * t + 8 * l + 2 * h + y, x);
  }

  lemma {:induction false} SplitAt(d: nat, q: nat, r: nat)
    requires d in {2, 4, 128} && r < d
    ensures (d * q + r) / d == q && (d * q + r) % d == r
  {
  }

  /** Zero and sign of the loaded byte in bits 1 and 7, the other bits as they were. */
  lemma {:induction false} LoadFlagBits(p: byte, a: byte, n: nat)
    requires n < 8
    ensures Bit(LoadFlags(p, a), n) <==> if n == 1 then a == 0 else if n == 7 then a >= 0x80 else Bit(p, n)
  {
    var t, l, h, y, x := Parts(p);
    var s, z := if a >= 0x80 then 1 else 0, if a == 0 then 1 else 0;
    LoadedParts(t, l, h, y, x, a);
    hide Bit, LoadFlags;
    if n < 4 {
      LowBit(p, 8 * t + l, 4 * h + 2 * y + x, n);
      LowBit(LoadFlags(p, a), 8 * s + l, 4 * h + 2 * z + x, n);
      LowBits(h, y, x, n);
      LowBits(h, z, x, n);
    } else {
      HighBit(p, 8 * t + l, 4 * h + 2 * y + x, n);
      HighBit(LoadFlags(p, a), 8 * s + l, 4 * h + 2 * z + x, n);
      TopBit(t, l, n - 4);
      TopBit(s, l, n - 4);
    }
  }

  function PullRegs(p: Private): Private {
    var a := Peek(p.mem, Stack(p.r.sp, 3));
    Private(Regs(a, Peek(p.mem, Stack(p.r.sp, 2)), Peek(p.mem, Stack(p.r.sp, 1)), Wrap(p.r.sp + 3),
                 LoadFlags(p.r.p, a), WrapWord(p.r.pc + 3)), p.mem)
  }

  /** The stub as a whole, the kernel doing e at its BRK. */
  function Stub(cpu: Cpu, t: Table, p: Private, e: Event): Private {
    PullRegs(Advance(cpu, t, PushRegs(p), e))
  }

  /** Bytes an answer is stored in. */
  predicate AnswerCell(mem: Memory, e: Event, va: int) {
    e.Called? &&
    (va == RET || (e.ans.Char? && va == A_REG)
     || (e.ans.Block? && var buf := Arg(mem, ARG1) % RAM_SIZE; buf <= va < buf + |e.ans.data|))
  }

  /** Memory after the pushes of the stub and of BRK. */
  function Pushes(p: Private): Memory {
    Push(PushRegs(p).mem, PushRegs(p).r)
  }

  lemma {:induction false} SixBytes(p: Private)
    requires p.r.sp >= 6 && p.r.pc + 8 < RAM_SIZE
    ensures var m, s := Pushes(p), 0x100 + p.r.sp;
            && s in m && s - 1 in m && s - 2 in m && s - 3 in m && s - 4 in m && s - 5 in m
            && m[s] == p.r.a && m[s - 1] == p.r.x && m[s - 2] == p.r.y
            && Word(m[s - 4], m[s - 3]) == p.r.pc + 5 && m[s - 5] == Pushed(p.r.p)
            && forall va :: va in p.mem && !(s - 5 <= va <= s) ==> va in m && m[va] == p.mem[va]
  {
    var s, sp := 0x100 + p.r.sp, Wrap(p.r.sp - 3);
    assert Stack(p.r.sp, 0) == s && Stack(p.r.sp, -1) == s - 1 && Stack(p.r.sp, -2) == s - 2;
    assert Stack(sp, 0) == s - 3 && Stack(sp, -1) == s - 4 && Stack(sp, -2) == s - 5;
    var next := WrapWord(PushRegs(p).r.pc + 2);
    assert Pushes(p) == p.mem[s := p.r.a][s - 1 := p.r.x][s - 2 := p.r.y]
                             [s - 3 := Hi(next)][s - 4 := Lo(next)][s - 5 := Pushed(p.r.p)];
  }

  lemma {:induction false} ReceivedCells(mem: Memory, t: Table, e: Event, va: int)
    requires e.Called? && va in mem && !AnswerCell(mem, e, va)
    ensures va in Receive(mem, e.ans) && Receive(mem, e.ans)[va] == mem[va]
  {
  }

  /** RTI after BRK at sp brings sp back and takes flags and PC from the three bytes below it. */
  lemma {:induction false} ResumeReads(mem: Memory, r: Regs, sp: byte)
    requires sp >= 3 && r.sp == sp - 3 && (forall va :: 0x100 + sp - 2 <= va <= 0x100 + sp ==> va in mem)
    ensures Resume(mem, r) ==
            r.(sp := sp, p := Flags(mem[0x100 + sp - 2]), pc := Word(mem[0x100 + sp - 1], mem[0x100 + sp]))
  {
    assert Stack(r.sp, 1) == 0x100 + sp - 2 && Stack(r.sp, 2) == 0x100 + sp - 1 && Stack(r.sp, 3) == 0x100 + sp;
  }

  lemma {:induction false} PullReads(p: Private, sp: byte)
    requires sp >= 3 && p.r.sp == sp - 3 && p.r.pc <= 0x7FFF
    requires (forall va :: 0x100 + sp - 2 <= va <= 0x100 + sp ==> va in p.mem)
    ensures PullRegs(p) == Private(Regs(p.mem[0x100 + sp], p.mem[0x100 + sp - 1], p.mem[0x100 + sp - 2], sp,
                                        LoadFlags(p.r.p, p.mem[0x100 + sp]), p.r.pc + 3), p.mem)
  {
    assert Stack(p.r.sp, 1) == 0x100 + sp - 2 && Stack(p.r.sp, 2) == 0x100 + sp - 1 && Stack(p.r.sp, 3) == 0x100 + sp;
  }

  /** Memory in which the six pushed bytes are still there. */
  ghost predicate HoldsPushes(p: Private, mem: Memory) {
    forall va :: 0x100 + p.r.sp - 5 <= va <= 0x100 + p.r.sp && va in Pushes(p) ==> va in mem && mem[va] == Pushes(p)[va]
  }

  /** RTI brings back the stack pointer, the flags and the address after the number byte. */
  lemma {:induction false} ResumeBack(p: Private, mem: Memory, r: Regs)
    requires p.r.sp >= 6 && p.r.pc + 8 < RAM_SIZE && Flags(p.r.p) == p.r.p && r.sp == p.r.sp - 6
    requires HoldsPushes(p, mem)
    ensures Resume(mem, r) == r.(sp := p.r.sp - 3, p := p.r.p, pc := p.r.pc + 5)
  {
    SixBytes(p);
    PushedFlags(p.r.p);
    hide Pushes, Flags, Pushed, Word, Resume;
    ResumeReads(mem, r, p.r.sp - 3);
  }

  /** The three pulls bring back Y, X and A. */
  lemma {:induction false} PullBack(p: Private, q: Private)
    requires p.r.sp >= 6 && p.r.pc + 8 < RAM_SIZE && HoldsPushes(p, q.mem)
    requires q.r.sp == p.r.sp - 3 && q.r.p == p.r.p && q.r.pc == p.r.pc + 5
    ensures PullRegs(q) == Private(p.r.(p := LoadFlags(p.r.p, p.r.a), pc := p.r.pc + 8), q.mem)
  {
    SixBytes(p);
    hide Pushes, LoadFlags;
    PullReads(q, p.r.sp);
  }

  lemma {:induction false} MemoryKept(p: Private, e: Event, mem: Memory)
    requires p.r.sp >= 6 && p.r.pc + 8 < RAM_SIZE
    requires forall va :: va in Pushes(p) && !AnswerCell(Pushes(p), e, va) ==> va in mem && mem[va] == Pushes(p)[va]
    ensures forall va :: va in p.mem && !(0x100 + p.r.sp - 5 <= va <= 0x100 + p.r.sp) && !AnswerCell(Pushes(p), e, va)
              ==> va in mem && mem[va] == p.mem[va]
  {
    SixBytes(p);
  }

  /** The kernel hands back a memory in which only the answer's cells changed, through an RTI at the
      same stack pointer. */
  lemma {:induction false} AdvanceAtBrk(cpu: Cpu, t: Table, p: Private, e: Event) returns (r: Regs)
    requires !e.Compute?
    ensures var q := Advance(cpu, t, PushRegs(p), e);
            && r.sp == PopFrame(PushRegs(p).r.sp) && q.r == Resume(q.mem, r)
            && forall va :: va in Pushes(p) && !AnswerCell(Pushes(p), e, va) ==>
                 va in q.mem && q.mem[va] == Pushes(p)[va]
  {
    var sp := PopFrame(PushRegs(p).r.sp);
    if e.Called? {
      r := Regs(e.a, e.x, e.y, sp, 0, 0);
      forall va | va in Pushes(p) && !AnswerCell(Pushes(p), e, va)
        ensures va in Receive(Pushes(p), e.ans) && Receive(Pushes(p), e.ans)[va] == Pushes(p)[va]
      {
        ReceivedCells(Pushes(p), t, e, va);
      }
    } else {
      r := Regs(t[31], 32, OFF_PPN + 32, sp, 0, 0);
    }
  }

  /** The answer is not stored over the six pushed bytes. */
  ghost predicate SparesStack(p: Private, e: Event) {
    forall va :: 0x100 + p.r.sp - 5 <= va <= 0x100 + p.r.sp ==> !AnswerCell(Pushes(p), e, va)
  }

  lemma {:induction false} AdvanceHoldsPushes(cpu: Cpu, t: Table, p: Private, e: Event) returns (r: Regs)
    requires p.r.sp >= 6 && !e.Compute? && SparesStack(p, e)
    ensures var q := Advance(cpu, t, PushRegs(p), e);
            r.sp == p.r.sp - 6 && q.r == Resume(q.mem, r) && HoldsPushes(p, q.mem)
  {
    r := AdvanceAtBrk(cpu, t, p, e);
    hide Pushes, Advance, AnswerCell, Resume;
  }

  lemma {:induction false} StubRegisters(cpu: Cpu, t: Table, p: Private, e: Event)
    requires p.r.sp >= 6 && p.r.pc + 8 < RAM_SIZE && Flags(p.r.p) == p.r.p && !e.Compute? && SparesStack(p, e)
    ensures Stub(cpu, t, p, e) ==
            Private(p.r.(p := LoadFlags(p.r.p, p.r.a), pc := p.r.pc + 8), Advance(cpu, t, PushRegs(p), e).mem)
  {
    var r := AdvanceHoldsPushes(cpu, t, p, e);
    hide HoldsPushes, SparesStack, Advance, Flags, LoadFlags, Resume, PullRegs;
    var q := Advance(cpu, t, PushRegs(p), e);
    ResumeBack(p, q.mem, r);
    PullBack(p, q);
  }

  /** A stub is transparent, yields included: A, X, Y, SP and all flags but N and Z come back, control
      goes on after the stub, and memory changes only in the six stack bytes below SP and where the
      answer is stored, provided the answer is not stored over those six bytes. */
  lemma {:induction false} StubTransparent(cpu: Cpu, t: Table, p: Private, e: Event)
    requires p.r.sp >= 6 && p.r.pc + 8 < RAM_SIZE && !Bit(p.r.p, 4) && !Bit(p.r.p, 5)
    requires !e.Compute? && SparesStack(p, e)
    ensures var r := Stub(cpu, t, p, e).r;
            && r.a == p.r.a && r.x == p.r.x && r.y == p.r.y && r.sp == p.r.sp && r.pc == p.r.pc + 8
            && forall n :: 0 <= n < 8 ==>
                 (Bit(r.p, n) <==> if n == 1 then r.a == 0 else if n == 7 then r.a >= 0x80 else Bit(p.r.p, n))
    ensures forall va :: va in p.mem && !(0x100 + p.r.sp - 5 <= va <= 0x100 + p.r.sp) && !AnswerCell(Pushes(p), e, va)
              ==> va in Stub(cpu, t, p, e).mem && Stub(cpu, t, p, e).mem[va] == p.mem[va]
  {
    FlagsKept(p.r.p);
    StubRegisters(cpu, t, p, e);
    var r := AdvanceAtBrk(cpu, t, p, e);
    hide Pushes, Advance, AnswerCell, Stub, LoadFlags, PushRegs, Bit, Flags;
    forall n | 0 <= n < 8
      ensures Bit(LoadFlags(p.r.p, p.r.a), n) <==>
              if n == 1 then p.r.a == 0 else if n == 7 then p.r.a >= 0x80 else Bit(p.r.p, n)
    {
      LoadFlagBits(p.r.p, p.r.a, n);
    }
    MemoryKept(p, e, Advance(cpu, t, PushRegs(p), e).mem);
  }
}
