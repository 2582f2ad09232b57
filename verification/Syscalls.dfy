/**
 The system calls (sw/kernel/src/syscalls.c) in kernel mode, with arguments in the caller's zero page
 and pointers translated by the caller's page table, and a whole call from BRK to RTI.
 */
module Syscalls {
  import opened Bytes
  import opened System
  import opened Machine
  import opened Trap
  import opened Rotation
  import Console
  import Disk
  import KernelIo
  import Block
  import Yield

  // ---- What each call needs ----

  /** The caller's bytes [pa, pa + n) are RAM the kernel does not use as scratch. */
  ghost predicate Clear(pa: nat, n: nat) {
    pa + n <= RAM_SIZE && forall i :: pa <= i < pa + n ==> !Scratch(i)
  }

  /** sys_exit never returns, puts wants its string terminated, a block call its buffer in RAM, and getc
      waits for ever without a key. */
  ghost predicate Ready(num: byte, ram: Ram, t: Table, con: Console.Port)
    requires con.Valid()
  {
    && num > SYS_EXIT
    && (num == SYS_GETC ==> con.rx.KeyAvailable())
    && (num == SYS_PUTS ==>
          var pa := UserPtr(t, UserWord(ram, t, ARG0));
          Clear(pa, |CString(ram, pa)| + 1))
    && (num == SYS_BLOCK_READ || num == SYS_BLOCK_WRITE ==> Clear(UserPtr(t, UserWord(ram, t, ARG1)), 512))
  }

  // ---- What each call does to the devices ----

  /** Time went by, and at its start no key was there to be taken. */
  ghost predicate Missed(s: Console.Port, t: Console.Port)
    requires s.Valid() && t.Valid()
  {
    !s.rx.valid && Console.Elapsed(s, t)
  }

  /** Console and disk around a call answered with ans, from the caller's RAM as it was at the BRK. */
  ghost predicate Served(num: byte, ram: Ram, t: Table, ans: Answer, con: Console.Port, con': Console.Port,
      file: seq<byte>, file': seq<byte>, open: bool)
    requires con.Valid() && con'.Valid()
  {
    var lba, buf := UserWord(ram, t, ARG0), UserPtr(t, UserWord(ram, t, ARG1));
    && (match num
        case 2 => KernelIo.Printed(con, con', [ram[Zp(t, A_REG)]], [ram[Zp(t, A_REG)]])
        case 3 => ans.Char? && KernelIo.Taken(con, con', ans.c)
        case 4 => var text := CString(ram, UserPtr(t, lba)); KernelIo.Printed(con, con', text, text)
        case 8 => ans.Char? && if ans.ret == 0 then KernelIo.Taken(con, con', ans.c) else Missed(con, con')
        case _ => con' == con)
    && (if num == SYS_BLOCK_READ then file' == file && ans == if open then Block(Disk.Sector(file, lba)) else Code(1)
        else if num == SYS_BLOCK_WRITE then
          && ans == Code(if open then 0 else 1)
          && buf + 512 <= RAM_SIZE
          && file' == if open then Disk.WriteSector(file, lba, ram[buf..buf + 512]) else file
        else file' == file)
  }

  // ---- The calls ----

  method StoreZp(m: Machine, off: nat, v: byte)
    requires m.Core() && off < 0x100
    modifies m.ram
    ensures m.Core() && m.ram[..] == old(m.ram[..])[Zp(m.mmu.ppn, off) := v]
  {
    m.ram[Zp(m.mmu.ppn, off)] := v;
  }

  method DoPutc(m: Machine)
    requires m.Valid()
    modifies m.ram, m.con
    ensures m.Valid() && m.ram[..] == Store(old(m.ram[..]), m.mmu.ppn, Code(0))
    ensures var c := old(m.ram[..])[Zp(m.mmu.ppn, A_REG)]; KernelIo.Printed(old(m.con.Snap()), m.con.Snap(), [c], [c])
  {
    var c := m.ram[Zp(m.mmu.ppn, A_REG)];
    KernelIo.KPutc(m.con, c);
    ghost var sent := m.con.Snap();
    KernelIo.KGputc(m.con, c);
    KernelIo.PrintedThen(old(m.con.Snap()), sent, m.con.Snap(), [c], [], [], [c]);
    assert [c] + [] == [c] && [] + [c] == [c];
    StoreZp(m, RET, 0);
  }

  method DoPuts(m: Machine)
    requires m.Valid() && Ready(SYS_PUTS, m.ram[..], m.mmu.ppn, m.con.Snap())
    modifies m.ram, m.con
    ensures m.Valid() && m.ram[..] == Store(old(m.ram[..]), m.mmu.ppn, Code(0))
    ensures var text := CString(old(m.ram[..]), UserPtr(m.mmu.ppn, UserWord(old(m.ram[..]), m.mmu.ppn, ARG0)));
            KernelIo.Printed(old(m.con.Snap()), m.con.Snap(), text, text)
  {
    var va := UserWord(m.ram[..], m.mmu.ppn, ARG0);
    KernelIo.KPrint(m.con, m.ram[..], UserPtr(m.mmu.ppn, va));
    StoreZp(m, RET, 0);
  }

  method DoGetc(m: Machine) returns (c: byte)
    requires m.Valid() && m.con.Snap().rx.KeyAvailable()
    modifies m.ram, m.con
    ensures m.Valid() && m.ram[..] == Store(old(m.ram[..]), m.mmu.ppn, Char(c, 0))
    ensures KernelIo.Taken(old(m.con.Snap()), m.con.Snap(), c)
  {
    c := KernelIo.Getc(m.con);
    StoreZp(m, A_REG, c);
    StoreZp(m, RET, 0);
  }

  method DoGetcNb(m: Machine) returns (ghost ans: Answer)
    requires m.Valid()
    modifies m.ram, m.con
    ensures m.Valid() && m.ram[..] == Store(old(m.ram[..]), m.mmu.ppn, ans)
    ensures ans.Char? && (ans.ret == 0 || ans == Char(0, 1))
    ensures if ans.ret == 0 then KernelIo.Taken(old(m.con.Snap()), m.con.Snap(), ans.c)
            else Missed(old(m.con.Snap()), m.con.Snap())
  {
    var got, c := KernelIo.GetcNb(m.con);
    if got {
      StoreZp(m, A_REG, c);
      StoreZp(m, RET, 0);
      ans := Char(c, 0);
    } else {
      StoreZp(m, A_REG, 0);
      StoreZp(m, RET, 1);
      ans := Char(0, 1);
    }
  }

  method DoBlockRead(m: Machine) returns (ghost ans: Answer)
    requires m.Valid() && UserPtr(m.mmu.ppn, UserWord(m.ram[..], m.mmu.ppn, ARG1)) + 512 <= RAM_SIZE
    modifies m.ram, m.disk, m.disk.buf, m`a, m`x, m`y
    ensures m.Valid() && m.ram[..] == Store(old(m.ram[..]), m.mmu.ppn, ans) && m.disk.file == old(m.disk.file)
    ensures ans == if m.disk.open then Block(Disk.Sector(m.disk.file, UserWord(old(m.ram[..]), m.mmu.ppn, ARG0)))
                   else Code(1)
  {
    var lba := UserWord(m.ram[..], m.mmu.ppn, ARG0);
    var buf := UserPtr(m.mmu.ppn, UserWord(m.ram[..], m.mmu.ppn, ARG1));
    var err := Block.BlockRead(m, lba, buf);
    StoreZp(m, RET, err);
    ans := if m.disk.open then Answer.Block(Disk.Sector(m.disk.file, lba)) else Code(1);
  }

  method DoBlockWrite(m: Machine) returns (ghost ans: Answer)
    requires m.Valid() && UserPtr(m.mmu.ppn, UserWord(m.ram[..], m.mmu.ppn, ARG1)) + 512 <= RAM_SIZE
    modifies m.ram, m.disk, m.disk.buf
    ensures m.Valid() && m.ram[..] == Store(old(m.ram[..]), m.mmu.ppn, ans)
    ensures ans == Code(if m.disk.open then 0 else 1)
    ensures var lba, buf := UserWord(old(m.ram[..]), m.mmu.ppn, ARG0),
        UserPtr(m.mmu.ppn, UserWord(old(m.ram[..]), m.mmu.ppn, ARG1));
            m.disk.file == if m.disk.open then Disk.WriteSector(old(m.disk.file), lba, old(m.ram[..])[buf..buf + 512])
                           else old(m.disk.file)
  {
    var lba := UserWord(m.ram[..], m.mmu.ppn, ARG0);
    var buf := UserPtr(m.mmu.ppn, UserWord(m.ram[..], m.mmu.ppn, ARG1));
    assert m.ram[buf..buf + 512] == m.ram[..][buf..buf + 512];
    var err := Block.BlockWrite(m, lba, buf);
    StoreZp(m, RET, err);
    ans := Code(err);
  }

  /** syscall_dispatch on the number in the kernel's zero page. */
  method SyscallDispatch(m: Machine, num: byte) returns (ghost ans: Answer)
    requires m.Valid() && Ready(num, m.ram[..], m.mmu.ppn, m.con.Snap())
    modifies m.ram, m.con, m.disk, m.disk.buf, m`a, m`x, m`y
    ensures m.Valid() && Answers(num, ans) && m.ram[..] == Store(old(m.ram[..]), m.mmu.ppn, ans)
    ensures Served(num, old(m.ram[..]), m.mmu.ppn, ans, old(m.con.Snap()), m.con.Snap(), old(m.disk.file),
        m.disk.file, m.disk.open)
  {
    if num == SYS_PUTC {
      DoPutc(m);
      ans := Code(0);
    } else if num == SYS_GETC {
      var c := DoGetc(m);
      ans := Char(c, 0);
    } else if num == SYS_PUTS {
      DoPuts(m);
      ans := Code(0);
    } else if num == SYS_BLOCK_READ {
      ans := DoBlockRead(m);
    } else if num == SYS_BLOCK_WRITE {
      ans := DoBlockWrite(m);
    } else if num == SYS_GETC_NB {
      ans := DoGetcNb(m);
    } else {
      StoreZp(m, RET, ENOSYS);
      ans := Code(ENOSYS);
    }
  }

  // ---- Nothing depends on scratch memory ----

  /** The ABI slots are never scratch, whatever page the caller's page 0 is. */
  lemma {:induction false} SlotsClear(t: Table, off: nat)
    requires 0x33 <= off <= 0x40
    ensures !Scratch(Zp(t, off))
  {
  }

  lemma {:induction false} StringSame(q: Ram, r: Ram, pa: nat)
    requires SameOffScratch(q, r) && Clear(pa, |CString(q, pa)| + 1)
    ensures CString(q, pa) == CString(r, pa)
    decreases RAM_SIZE - pa
  {
    if pa < RAM_SIZE && q[pa] != 0 {
      StringSame(q, r, pa + 1);
    }
  }

  lemma {:induction false} WordsSame(q: Ram, r: Ram, t: Table)
    requires SameOffScratch(q, r)
    ensures UserWord(q, t, ARG0) == UserWord(r, t, ARG0) && UserWord(q, t, ARG1) == UserWord(r, t, ARG1)
    ensures q[Zp(t, A_REG)] == r[Zp(t, A_REG)]
  {
    SlotsClear(t, ARG0);
    SlotsClear(t, ARG0 + 1);
    SlotsClear(t, ARG1);
    SlotsClear(t, ARG1 + 1);
    SlotsClear(t, A_REG);
  }

  lemma {:induction false} ReadySame(num: byte, q: Ram, r: Ram, t: Table, con: Console.Port)
    requires con.Valid() && SameOffScratch(q, r) && Ready(num, q, t, con)
    ensures Ready(num, r, t, con)
  {
    hide UserPtr, UserWord, Zp;
    WordsSame(q, r, t);
    if num == SYS_PUTS {
      StringSame(q, r, UserPtr(t, UserWord(q, t, ARG0)));
    }
  }

  lemma {:induction false} ServedSame(num: byte, q: Ram, r: Ram, t: Table, ans: Answer, con: Console.Port,
      con': Console.Port, file: seq<byte>, file': seq<byte>, open: bool)
    requires con.Valid() && con'.Valid() && SameOffScratch(q, r) && Ready(num, q, t, con)
    requires Served(num, r, t, ans, con, con', file, file', open)
    ensures Served(num, q, t, ans, con, con', file, file', open)
  {
    hide UserPtr, UserWord, Zp, Scratch;
    WordsSame(q, r, t);
    if num == SYS_PUTS {
      StringSame(q, r, UserPtr(t, UserWord(q, t, ARG0)));
    } else if num == SYS_BLOCK_WRITE {
      var buf := UserPtr(t, UserWord(q, t, ARG1));
      assert q[buf..buf + 512] == r[buf..buf + 512];
    }
  }

  lemma {:induction false} StoreSame(q: Ram, r: Ram, t: Table, ans: Answer)
    requires SameOffScratch(q, r)
    ensures SameOffScratch(Store(q, t, ans), Store(r, t, ans))
  {
    hide UserPtr, UserWord, Zp, Scratch;
    WordsSame(q, r, t);
  }

  /** Storing an answer misses the kernel's stack page. */
  lemma {:induction false} StoreKeepsStack(num: byte, ram: Ram, t: Table, con: Console.Port, ans: Answer, i: nat)
    requires con.Valid() && Ready(num, ram, t, con) && Answers(num, ans) && 0x100 <= i < 0x200
    ensures Store(ram, t, ans)[i] == ram[i]
  {
    assert Scratch(i);
    SlotsClear(t, RET);
    SlotsClear(t, A_REG);
  }

  // ---- A whole call ----

  /** JSR syscall_dispatch: compiled C with its scratch memory, wherever the user's SP is. The first thing
      it does is read the number that the handler left at $32. */
  method CallSyscallDispatch(m: Machine, ghost num: byte) returns (ghost ans: Answer)
    requires m.Valid() && Ready(num, m.ram[..], m.mmu.ppn, m.con.Snap()) && m.ram[0x32] == num
    modifies m.ram, m.con, m.disk, m.disk.buf, m`a, m`x, m`y, m`sp
    ensures m.Valid() && m.sp == old(m.sp) && Answers(num, ans)
    ensures SameOffScratch(Store(old(m.ram[..]), m.mmu.ppn, ans), m.ram[..])
    ensures Served(num, old(m.ram[..]), m.mmu.ppn, ans, old(m.con.Snap()), m.con.Snap(), old(m.disk.file),
        m.disk.file, m.disk.open)
  {
    hide Scratch, Ready, Served, Store;
    ghost var t, con := m.mmu.ppn, m.con.Snap();
    ghost var before := m.ram[..];
    var site: word := *;
    Yield.StackBack(m.sp);
    m.Jsr(site);
    JsrIsScratch(before, m.ram[..]);
    var sysNum := m.ram[ZP_SYS_NUM];
    m.Clobber();
    ghost var q := m.ram[..];
    ReadySame(num, before, q, t, con);
    ans := SyscallDispatch(m, sysNum);
    StoreSame(before, q, t, ans);
    ServedSame(num, before, q, t, ans, con, m.con.Snap(), old(m.disk.file), m.disk.file, m.disk.open);
    StoreKeepsStack(num, q, t, con, ans, Stack(m.sp, 1));
    StoreKeepsStack(num, q, t, con, ans, Stack(m.sp, 2));
    m.Clobber();
    var ret := m.Rts();
    assert ret == site;
  }

  lemma {:induction false} JsrIsScratch(q: Ram, r: Ram)
    requires forall i :: 0 <= i < RAM_SIZE && !(0x100 <= i < 0x200) ==> r[i] == q[i]
    ensures SameOffScratch(q, r)
  {
  }

  /** A returning system call as a whole: from the BRK to the next user-mode point, which is the same
      process at PC + 2 with its SP and page table, the answer stored, and the devices served. */
  method CallTrap(m: Machine) returns (ghost ans: Answer)
    requires m.Valid() && m.UserMode() && m.sp >= 3
    requires Ready(CallNumber(m.Snap()), PushFrame(m.ram[..], m.mmu.ppn, m.Snap().r), m.mmu.ppn, m.con.Snap())
    modifies m.ram, m.mmu, m.con, m.disk, m.disk.buf, m`a, m`x, m`y, m`sp, m`p, m`pc
    ensures m.Valid() && m.UserMode()
    ensures CallStep(old(m.Snap()), old(CallNumber(m.Snap())), ans, m.Snap())
    ensures var pushed := PushFrame(old(m.ram[..]), old(m.mmu.ppn), old(m.Snap().r));
            Served(old(CallNumber(m.Snap())), pushed, m.mmu.ppn, ans, old(m.con.Snap()), m.con.Snap(),
              old(m.disk.file), m.disk.file, m.disk.open)
  {
    hide Scratch, Ready, Served, Store, CallNumber, PushFrame, Phys;
    ghost var s, con := m.Snap(), m.con.Snap();
    ghost var num, pushed := CallNumber(s), PushFrame(s.ram, s.ppn, s.r);
    var route := EnterKernel(m);
    ghost var entered := m.ram[..];
    ReadySame(num, pushed, entered, s.ppn, con);
    ReadyNumber(num, entered, s.ppn, con);
    ans := CallSyscallDispatch(m, route.num);
    StoreSame(pushed, entered, s.ppn, ans);
    ServedSame(num, pushed, entered, s.ppn, ans, con, m.con.Snap(), old(m.disk.file), m.disk.file, m.disk.open);
    RetUserMode(m);
  }

  lemma {:induction false} ReadyNumber(num: byte, ram: Ram, t: Table, con: Console.Port)
    requires con.Valid() && Ready(num, ram, t, con)
    ensures num > SYS_EXIT
  {
  }
}
