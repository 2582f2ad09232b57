/**
 The machine in place: CPU registers, one RAM array (process table, disk buffer, kernel zero page and
 stack page inside it), the MMU, the disk controller and the console ports.
 */
module Machine {
  import opened Bytes
  import opened System
  import Mmu6502
  import Disk
  import Console

  class Machine {
    var a: byte
    var x: byte
    var y: byte
    var sp: byte
    var p: byte
    var pc: word
    var nprocs: nat       // C globals of proc.c; the linker places them in the kernel's BSS
    var plistIdx: nat
    const ram: array<byte>
    const mmu: Mmu6502.Mmu
    const disk: Disk.Controller
    const con: Console.Ports

    /** The part code without device access relies on. */
    ghost predicate Core()
      reads this, mmu
    {
      ram.Length == RAM_SIZE && mmu.Valid() && nprocs <= MAX_PROCS && plistIdx < MAX_PROCS
    }

    ghost predicate Valid()
      reads this, mmu, disk, disk.buf, con
    {
      Core() && disk.buf != ram && disk.Valid() && con.Valid()
    }

    /** RAM, page table and registers as a value. */
    ghost function Snap(): Sys
      requires ram.Length == RAM_SIZE && mmu.Valid()
      reads this, ram, mmu
    {
      Sys(ram[..], mmu.ppn, Regs(a, x, y, sp, p, pc), nprocs, plistIdx)
    }

    ghost predicate KernelMode()
      reads mmu
    {
      mmu.kernel
    }

    /** User mode with every page open, as sched_start leaves it. */
    ghost predicate UserMode()
      requires mmu.Valid()
      reads mmu
    {
      !mmu.kernel && !mmu.faultReg && Mmu6502.Open(mmu.Snap())
    }

    /** The 16-bit pointer held in two zero-page cells. */
    function Ptr(zp: nat): word
      requires ram.Length == RAM_SIZE && zp + 1 < RAM_SIZE
      reads ram
    {
      Word(ram[zp], ram[zp + 1])
    }

    constructor (image: seq<byte>, diskOpen: bool, keys: seq<byte>)
      ensures Valid() && fresh(ram) && fresh(mmu) && fresh(disk) && fresh(disk.buf) && fresh(con)
      ensures mmu.Snap() == Mmu6502.Reset() && nprocs == 0 && plistIdx == 0
      ensures disk.file == image && disk.open == diskOpen && con.Snap() == Console.PowerOn(keys)
    {
      a, x, y, sp, p, pc := 0, 0, 0, 0, 0, 0;
      nprocs, plistIdx := 0, 0;
      ram := new byte[RAM_SIZE](_ => 0);
      mmu := new Mmu6502.Mmu();
      disk := new Disk.Controller(image, diskOpen);
      con := new Console.Ports(keys);
    }

    /** JSR in kernel mode: two bytes on the kernel's physical stack page, at whatever SP is. */
    method Jsr(ret: word)
      requires Core()
      modifies ram, `sp
      ensures Core() && sp == Wrap(old(sp) - 2)
      ensures ram[Stack(old(sp), 0)] == Hi(ret) && ram[Stack(old(sp), -1)] == Lo(ret)
      ensures forall i :: 0 <= i < RAM_SIZE && !(0x100 <= i < 0x200) ==> ram[i] == old(ram[i])
    {
      ram[0x100 + sp] := Hi(ret);
      sp := Wrap(sp - 1);
      ram[0x100 + sp] := Lo(ret);
      sp := Wrap(sp - 1);
    }

    /** RTS in kernel mode: the address pulled. */
    method Rts() returns (ret: word)
      requires Core()
      modifies `sp
      ensures Core() && sp == Wrap(old(sp) + 2)
      ensures ret == Word(ram[Stack(old(sp), 1)], ram[Stack(old(sp), 2)])
    {
      sp := Wrap(sp + 1);
      var lo := ram[0x100 + sp];
      sp := Wrap(sp + 1);
      ret := Word(lo, ram[0x100 + sp]);
    }

    /** The return address on top of the kernel's stack page is as it was. */
    ghost predicate ReturnKept(before: seq<byte>)
      requires ram.Length == |before| == RAM_SIZE
      reads this, ram
    {
      ram[Stack(sp, 1)] == before[Stack(sp, 1)] && ram[Stack(sp, 2)] == before[Stack(sp, 2)]
    }

    /** Compiled C leaves anything in A, X, Y and in its scratch memory, but not over its own return
        address. */
    method Clobber()
      requires Core()
      modifies ram, `a, `x, `y
      ensures Core() && SameOffScratch(old(ram[..]), ram[..]) && ReturnKept(old(ram[..]))
    {
      for i := 0 to RAM_SIZE
        invariant Core() && SameOffScratch(old(ram[..]), ram[..]) && ReturnKept(old(ram[..]))
      {
        if Scratch(i) && i != Stack(sp, 1) && i != Stack(sp, 2) {
          var v: byte := *;
          ram[i] := v;
        }
      }
      a, x, y := *, *, *;
    }
  }
}
