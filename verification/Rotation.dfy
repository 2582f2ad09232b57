/**
 The page table spawn_bbx builds (proc.c:58-62): physical memory rotated by whole 4 KB blocks. When a
 pointer translated only at its start can be walked, and where the three demo processes land.
 */
module Rotation {
  import opened Bytes
  import opened System
  import opened Virtualisation

  function SpawnTable(base: byte): Table {
    seq<byte>(32, i requires 0 <= i < 32 => (base + i / 4) % 8 * 4 + i % 4)
  }

  /** Rotation of a 15-bit address by k 4 KB blocks. */
  function Rotate(k: nat, a: nat): (r: nat)
    requires k < 8 && a < RAM_SIZE
    ensures r < RAM_SIZE
  {
    if a + 0x1000 * k < RAM_SIZE then a + 0x1000 * k else a + 0x1000 * k - RAM_SIZE
  }

  /** The rotation that undoes the one by k. */
  function Back(k: nat): (j: nat)
    requires k < 8
    ensures j < 8
  {
    if k == 0 then 0 else 8 - k
  }

  lemma {:induction false} BlockOf(va: nat)
    requires va < RAM_SIZE
    ensures va / 1024 / 4 == va / 0x1000 && va / 1024 % 4 * 1024 + va % 1024 == va % 0x1000
  {
  }

  lemma {:induction false} WrapBlock(base: byte, block: nat)
    requires block < 8
    ensures (base + block) % 8 == if base % 8 + block < 8 then base % 8 + block else base % 8 + block - 8
  {
  }

  /** Translation through a spawned table is a rotation of the 32 KB, addition modulo 2^15. */
  lemma {:induction false} Rotates(base: byte, va: nat)
    requires va < RAM_SIZE
    ensures Phys(SpawnTable(base), va) == Rotate(base % 8, va) == (va + 0x1000 * (base % 8)) % RAM_SIZE
  {
    BlockOf(va);
    WrapBlock(base, va / 0x1000);
    assert SpawnTable(base)[va / 1024] == (base + va / 0x1000) % 8 * 4 + va / 1024 % 4;
    assert va == va / 0x1000 * 0x1000 + va % 0x1000;
  }

  /** Every physical byte has exactly one virtual address: translation is a bijection, and the
      opposite rotation inverts it. */
  lemma {:induction false} Bijective(base: byte, pa: nat, va: nat)
    requires pa < RAM_SIZE && va < RAM_SIZE
    ensures Phys(SpawnTable(base), va) == pa <==> va == Rotate(Back(base % 8), pa)
  {
    hide SpawnTable, Phys;
    Rotates(base, va);
  }

  /** A translated pointer may be advanced by k exactly when it does not run off the end of RAM. */
  lemma {:induction false} ContiguousIff(base: byte, va: nat, k: nat)
    requires va + k < RAM_SIZE
    ensures var t := SpawnTable(base); Phys(t, va) + k == Phys(t, va + k) <==> Phys(t, va) + k < RAM_SIZE
  {
    hide SpawnTable, Phys;
    Rotates(base, va);
    Rotates(base, va + k);
  }

  /** With any table a pointer may be advanced within its 1 KB page. */
  lemma {:induction false} ContiguousInPage(t: Table, va: nat, k: nat)
    requires va % 1024 + k < 1024 && va + k < RAM_SIZE
    ensures Phys(t, va + k) == Phys(t, va) + k
  {
    assert (va + k) / 1024 == va / 1024;
  }

  // ---- The string do_puts prints ----

  /** The NUL-terminated string at physical address pa. */
  function CString(ram: seq<byte>, pa: nat): seq<byte>
    decreases |ram| - pa
  {
    if pa >= |ram| || ram[pa] == 0 then [] else [ram[pa]] + CString(ram, pa + 1)
  }

  /** The NUL-terminated string a process sees at virtual address va. */
  function VirtualString(ram: Ram, t: Table, va: nat): seq<byte>
    decreases RAM_SIZE - va
  {
    if va >= RAM_SIZE || ram[Phys(t, va)] == 0 then []
    else [ram[Phys(t, va)]] + VirtualString(ram, t, va + 1)
  }

  /** The kernel prints exactly the process's string, across page borders, when the string with its NUL
      (n bytes on) runs past the end neither of virtual nor of physical memory. */
  lemma {:induction false} PutsPrintsVirtualString(ram: Ram, base: byte, va: nat, n: nat)
    requires va + n < RAM_SIZE && Phys(SpawnTable(base), va) + n < RAM_SIZE
    requires ram[Phys(SpawnTable(base), va + n)] == 0
    ensures CString(ram, Phys(SpawnTable(base), va)) == VirtualString(ram, SpawnTable(base), va)
    decreases n
  {
    hide SpawnTable, Phys;
    if n > 0 && ram[Phys(SpawnTable(base), va)] != 0 {
      ContiguousIff(base, va, 1);
      PutsPrintsVirtualString(ram, base, va + 1, n - 1);
    }
  }

  // ---- The demo layout (docs/memory-map.md) ----

  /** What a demo program may use: zero page and stack, an image below $1E00, 256 bytes of C stack. */
  predicate DemoAddress(va: int) {
    0 <= va < 0x200 || 0x1000 <= va < 0x1E00 || 0x7E00 <= va < 0x7F00
  }

  lemma {:induction false} DemoImage(base: byte, va: nat)
    requires base in {1, 3, 5} && va < RAM_SIZE
    ensures var pa := Phys(SpawnTable(base), va);
            && (DemoAddress(va) ==> !KernelByte(pa))
            && (DemoAddress(va) <==>
                  if base == 1 then 0x0E00 <= pa < 0x0F00 || 0x1000 <= pa < 0x1200 || 0x2000 <= pa < 0x2E00
                  else if base == 3 then 0x2E00 <= pa < 0x2F00 || 0x3000 <= pa < 0x3200 || 0x4000 <= pa < 0x4E00
                  else 0x4E00 <= pa < 0x4F00 || 0x5000 <= pa < 0x5200 || 0x6000 <= pa < 0x6E00)
  {
    hide SpawnTable, Phys;
    Rotates(base, va);
  }

  /** Bases 1, 3 and 5 keep the three programs apart from each other and from the kernel, although
      each program's C stack lies in the block below its base. */
  lemma {:induction false} DemoPlaced(tasks: seq<Task>)
    requires |tasks| == 3
    requires forall i :: 0 <= i < 3 ==> tasks[i].table == SpawnTable(2 * i + 1)
    requires forall i, va :: 0 <= i < 3 && va in tasks[i].fp ==> DemoAddress(va)
    ensures Placed(tasks)
  {
    hide SpawnTable, Phys, KernelByte;
    forall i, va | 0 <= i < 3 && va in tasks[i].fp
      ensures 0 <= va < RAM_SIZE
    {
      assert DemoAddress(va);
    }
    forall i, va | 0 <= i < 3 && va in tasks[i].fp
      ensures 0 <= va < RAM_SIZE && !KernelByte(Phys(tasks[i].table, va))
    {
      assert DemoAddress(va);
      DemoImage(2 * i + 1, va);
    }
    forall i, va, j, vb | 0 <= i < 3 && 0 <= j < 3 && va in tasks[i].fp && vb in tasks[j].fp && Pair(i, va, j, vb)
      ensures Phys(tasks[i].table, va) == Phys(tasks[j].table, vb) ==> i == j && va == vb
    {
      assert DemoAddress(va) && DemoAddress(vb);
      DemoImage(2 * i + 1, va);
      DemoImage(2 * j + 1, vb);
      if i == j && Phys(tasks[i].table, va) == Phys(tasks[j].table, vb) {
        Bijective(2 * i + 1, Phys(tasks[i].table, va), va);
        Bijective(2 * i + 1, Phys(tasks[i].table, va), vb);
      }
    }
  }

  /** Without care the images do collide: base 3 maps virtual $5000 onto the kernel's zero page. */
  lemma {:induction false} BaseThreeReachesKernel()
    ensures Phys(SpawnTable(3), 0x5000) == 0
  {
    Rotates(3, 0x5000);
  }
}
