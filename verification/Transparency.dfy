/**
 What a returning system call leaves alone, for any page table; and that processes which keep to their
 footprints meet the kernel's demands at every BRK.
 */
module Transparency {
  import opened Bytes
  import opened System
  import opened Trap
  import opened Virtualisation
  import opened Rotation
  import Console
  import KernelIo
  import Syscalls

  /** One of the three bytes BRK pushes. */
  predicate FrameByte(s: Sys, a: int) {
    exists k :: -2 <= k <= 0 && a == Phys(s.ppn, Stack(s.r.sp, k))
  }

  /** The bytes an answer is delivered in. */
  predicate ResultByte(s: Sys, ans: Answer, a: int) {
    || a == Zp(s.ppn, RET)
    || (ans.Char? && a == Zp(s.ppn, A_REG))
    || (ans.Block? && var buf := UserPtr(s.ppn, UserWord(s.ram, s.ppn, ARG1)); buf <= a < buf + |ans.data|)
  }

  /** The frame survives the kernel: it is in nobody's scratch memory, and the process does not read a
      sector over it. */
  predicate FrameSafe(s: Sys, ans: Answer) {
    forall a :: 0 <= a < RAM_SIZE && FrameByte(s, a) ==> !Scratch(a) && !ResultByte(s, ans, a)
  }

  lemma {:induction false} PushedByte(s: Sys, a: nat)
    requires a < RAM_SIZE && !FrameByte(s, a)
    ensures PushFrame(s.ram, s.ppn, s.r)[a] == s.ram[a]
  {
    assert a != Phys(s.ppn, Stack(s.r.sp, 0)) && a != Phys(s.ppn, Stack(s.r.sp, -1))
        && a != Phys(s.ppn, Stack(s.r.sp, -2));
  }

  /** ABI slots and stack share the process's page 0 but no byte. */
  lemma {:induction false} ArgumentsKept(s: Sys)
    ensures UserWord(PushFrame(s.ram, s.ppn, s.r), s.ppn, ARG1) == UserWord(s.ram, s.ppn, ARG1)
  {
    PushedByte(s, Zp(s.ppn, ARG1));
    PushedByte(s, Zp(s.ppn, ARG1 + 1));
    hide PushFrame;
  }

  lemma {:induction false} StoredByte(s: Sys, ans: Answer, a: nat)
    requires a < RAM_SIZE && !ResultByte(s, ans, a)
    ensures var pushed := PushFrame(s.ram, s.ppn, s.r); Store(pushed, s.ppn, ans)[a] == pushed[a]
  {
    hide PushFrame, Phys;
    ArgumentsKept(s);
  }

  /** Every returning call resumes after the number byte with SP, flags and page table as they were, and
      changes no byte but its frame's, its results' and the kernel's scratch memory. */
  lemma {:induction false} CallReturns(s: Sys, num: byte, ans: Answer, t: Sys)
    requires CallStep(s, num, ans, t) && FrameSafe(s, ans)
    ensures t.r.pc == WrapWord(s.r.pc + 2) && t.r.sp == s.r.sp
    ensures forall n :: 0 <= n < 8 ==> (Bit(t.r.p, n) <==> n != 4 && n != 5 && Bit(s.r.p, n))
    ensures t.ppn == s.ppn && t.idx == s.idx && t.nprocs == s.nprocs
    ensures forall a :: 0 <= a < RAM_SIZE && !Scratch(a) && !FrameByte(s, a) && !ResultByte(s, ans, a) ==>
              t.ram[a] == s.ram[a]
  {
    var pushed := PushFrame(s.ram, s.ppn, s.r);
    forall a | 0 <= a < RAM_SIZE && !Scratch(a) && !ResultByte(s, ans, a)
      ensures t.ram[a] == pushed[a]
      ensures !FrameByte(s, a) ==> t.ram[a] == s.ram[a]
    {
      StoredByte(s, ans, a);
      if !FrameByte(s, a) {
        PushedByte(s, a);
      }
    }
    FrameComesBack(s, ans, t);
    hide Bit, Flags;
    forall n | 0 <= n < 8
      ensures Bit(t.r.p, n) <==> n != 4 && n != 5 && Bit(s.r.p, n)
    {
      FlagBits(s.r.p, n);
    }
  }

  lemma {:induction false} FrameComesBack(s: Sys, ans: Answer, t: Sys)
    requires forall a :: 0 <= a < RAM_SIZE && !Scratch(a) && !ResultByte(s, ans, a) ==>
               t.ram[a] == PushFrame(s.ram, s.ppn, s.r)[a]
    requires FrameSafe(s, ans) && t.r == Rti(t.ram, s.ppn, Regs(t.r.a, t.r.x, t.r.y, PopFrame(s.r.sp), 0, 0))
    ensures t.r.pc == WrapWord(s.r.pc + 2) && t.r.sp == s.r.sp && t.r.p == Flags(s.r.p)
  {
    var sp := PopFrame(s.r.sp);
    assert Stack(sp, 1) == Stack(s.r.sp, -2) && Stack(sp, 2) == Stack(s.r.sp, -1) && Stack(sp, 3) == Stack(s.r.sp, 0);
    StackApart(s.ppn, s.r.sp);
    PushedFlags(s.r.p);
    hide Scratch, ResultByte, Pushed, Flags, Phys, Stack;
    forall k | -2 <= k <= 0
      ensures t.ram[Phys(s.ppn, Stack(s.r.sp, k))] == PushFrame(s.ram, s.ppn, s.r)[Phys(s.ppn, Stack(s.r.sp, k))]
    {
      assert FrameByte(s, Phys(s.ppn, Stack(s.r.sp, k)));
    }
  }

  /** At a BRK of a process that keeps to its footprint the frame fits, and the kernel finds everything it
      asks for, whatever the call; for sys_getc that is all but a key. */
  lemma {:induction false} BrkIsServable(cpu: Cpu, tasks: seq<Task>, s: Sys, con: Console.Port)
    requires Placed(tasks) && Inv(tasks, s) && con.Valid()
    requires Opcode(s) == 0 && Confined(cpu, tasks[s.idx], Logical(tasks, s, s.idx))
    ensures s.r.sp >= 3 && CallNumber(s) == Number(Logical(tasks, s, s.idx))
    ensures CallNumber(s) > SYS_EXIT && (CallNumber(s) == SYS_GETC ==> con.rx.KeyAvailable()) ==>
              Syscalls.Ready(CallNumber(s), PushFrame(s.ram, s.ppn, s.r), s.ppn, con)
  {
    hide PushFrame, Push, Contiguous, Syscalls.Clear, Ends, Placed, CallNumber, View;
    OpcodeIsPeek(tasks, s);
    NumberIsPeek(tasks, s);
    var i, ram := s.idx, PushFrame(s.ram, s.ppn, s.r);
    ViewPush(tasks, s.ram, i, s.r, i);
    if CallNumber(s) == SYS_PUTS {
      StringClear(tasks, ram, i);
    } else if CallNumber(s) == SYS_BLOCK_READ || CallNumber(s) == SYS_BLOCK_WRITE {
      BufferClear(tasks, ram, i);
    }
  }

  /** The pointer the kernel makes of an argument is the translation of the process's own. */
  lemma {:induction false} PointerPlace(tasks: seq<Task>, ram: Ram, i: nat, off: nat)
    requires Placed(tasks) && i < |tasks| && off < 0xFF && off in tasks[i].fp && off + 1 in tasks[i].fp
    ensures UserWord(ram, tasks[i].table, off) == Arg(View(ram, tasks[i]), off)
    ensures UserPtr(tasks[i].table, UserWord(ram, tasks[i].table, off)) ==
            Phys(tasks[i].table, Arg(View(ram, tasks[i]), off) % RAM_SIZE)
  {
    hide Placed, View, Phys;
    PeekView(tasks, ram, i, off);
    PeekView(tasks, ram, i, off + 1);
  }

  lemma {:induction false} BufferClear(tasks: seq<Task>, ram: Ram, i: nat)
    requires Placed(tasks) && i < |tasks| && ARG1 in tasks[i].fp && ARG1 + 1 in tasks[i].fp
    requires Contiguous(tasks[i], Arg(View(ram, tasks[i]), ARG1) % RAM_SIZE, 512)
    ensures Syscalls.Clear(UserPtr(tasks[i].table, UserWord(ram, tasks[i].table, ARG1)), 512)
  {
    hide Placed, View, Phys, Contiguous, Syscalls.Clear;
    PointerPlace(tasks, ram, i, ARG1);
    WindowClear(tasks, i, Arg(View(ram, tasks[i]), ARG1) % RAM_SIZE, 512);
  }

  lemma {:induction false} StringClear(tasks: seq<Task>, ram: Ram, i: nat)
    requires Placed(tasks) && i < |tasks| && ARG0 in tasks[i].fp && ARG0 + 1 in tasks[i].fp
    requires exists n: nat :: Ends(tasks[i], View(ram, tasks[i]), Arg(View(ram, tasks[i]), ARG0) % RAM_SIZE, n)
    ensures var pa := UserPtr(tasks[i].table, UserWord(ram, tasks[i].table, ARG0));
            Syscalls.Clear(pa, |CString(ram, pa)| + 1)
  {
    hide Placed, View, Phys, Contiguous;
    var va := Arg(View(ram, tasks[i]), ARG0) % RAM_SIZE;
    var n: nat :| Ends(tasks[i], View(ram, tasks[i]), va, n);
    PointerPlace(tasks, ram, i, ARG0);
    WindowClear(tasks, i, va, n + 1);
    LastPlace(tasks, ram, i, va, n);
    KernelIo.CStringEnds(ram, Phys(tasks[i].table, va), Phys(tasks[i].table, va) + n);
  }

  lemma {:induction false} LastPlace(tasks: seq<Task>, ram: Ram, i: nat, va: int, n: nat)
    requires Placed(tasks) && i < |tasks| && 0 <= va < RAM_SIZE && Contiguous(tasks[i], va, n + 1)
    ensures va + n in tasks[i].fp && va + n < RAM_SIZE && Phys(tasks[i].table, va + n) == Phys(tasks[i].table, va) + n
    ensures Peek(View(ram, tasks[i]), va + n) == ram[Phys(tasks[i].table, va) + n]
  {
    assert va + n in tasks[i].fp;
    PeekView(tasks, ram, i, va + n);
  }

  lemma {:induction false} WindowClear(tasks: seq<Task>, i: nat, buf: int, n: nat)
    requires Placed(tasks) && i < |tasks| && 0 <= buf < RAM_SIZE && n > 0 && Contiguous(tasks[i], buf, n)
    ensures Syscalls.Clear(Phys(tasks[i].table, buf), n)
  {
    var pa := Phys(tasks[i].table, buf);
    forall a | pa <= a < pa + n
      ensures !Scratch(a)
    {
      WindowMissesKernel(tasks, i, buf, n, a);
    }
    var last := buf + n - 1;
    assert last in tasks[i].fp;
    assert Phys(tasks[i].table, last) == pa + n - 1;
  }
}
