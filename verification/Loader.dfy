/**
 Loading programs: spawn_bbx (sw/kernel/src/proc.c), from the sectors on disk to a ready entry of the
 process table.
 */
module Loader {
  import opened Bytes
  import opened System
  import opened Machine
  import opened Virtualisation
  import opened Rotation
  import Block
  import Console
  import Disk
  import KernelIo

  const IMAGE := 0x1000
  const MAX_BLOCKS := 56

  // ---- What a load puts where ----

  /** Byte off of the program whose sectors start at lba. */
  function ImageByte(file: seq<byte>, lba: nat, off: nat): byte {
    Disk.Sector(file, (lba + off / 512) % 0x1_0000_0000)[off % 512]
  }

  /** In bytes of the image file: sector after sector from 512 * lba on, zeros past the end. */
  lemma {:induction false} ImageBytes(file: seq<byte>, lba: nat, off: nat)
    requires lba + off / 512 < Disk.OFFSET_LIMIT
    ensures ImageByte(file, lba, off) == if 512 * lba + off < |file| then file[512 * lba + off] else 0
  {
    assert off == off / 512 * 512 + off % 512;
    Disk.SectorBytes(file, lba + off / 512, off % 512);
    hide Disk.Sector;
  }

  /** The virtual address of a physical byte under SpawnTable(base). */
  function VirtOf(base: byte, pa: nat): (va: nat)
    requires pa < RAM_SIZE
    ensures va < RAM_SIZE
  {
    Rotate(Back(base % 8), pa)
  }

  /** The physical bytes of the first n sectors of the image. */
  predicate Target(base: byte, n: nat, pa: nat)
    requires pa < RAM_SIZE
  {
    IMAGE <= VirtOf(base, pa) < IMAGE + 512 * n
  }

  predicate FrameByte(base: byte, pa: nat)
    requires pa < RAM_SIZE
  {
    0x1FD <= VirtOf(base, pa) < 0x200
  }

  predicate InBlockBuf(pa: int) {
    BLOCK_BUF <= pa < BLOCK_BUF + 512
  }

  /** The image and the start frame miss the kernel's memory. */
  ghost predicate LoadSafe(base: byte, n: nat) {
    forall pa: nat | pa < RAM_SIZE && (Target(base, n, pa) || FrameByte(base, pa)) :: !KernelByte(pa)
  }

  /** ram is `start` with the first n sectors loaded; the disk buffer may hold anything. */
  ghost predicate Loaded(start: Ram, ram: Ram, file: seq<byte>, lba: nat, base: byte, n: nat) {
    forall pa: nat | pa < RAM_SIZE && !InBlockBuf(pa) ::
      ram[pa] == if Target(base, n, pa) then ImageByte(file, lba, VirtOf(base, pa) - IMAGE) else start[pa]
  }

  /** Where sector b goes, in C's 16-bit arithmetic through the new table. */
  function BlockAddress(t: Table, b: nat): nat
    requires b < MAX_BLOCKS
  {
    var virt := IMAGE + b * 512;
    t[virt / 1024] * 1024 + virt % 1024
  }

  /** A 512-byte block never crosses a 1 KB page: its 512 physical bytes are the next 512 virtual ones. */
  lemma {:induction false} BlockWindow(base: byte, b: nat, pa: nat)
    requires b < MAX_BLOCKS && pa < RAM_SIZE
    ensures var dst := BlockAddress(SpawnTable(base), b);
            && dst + 512 <= RAM_SIZE
            && (dst <= pa < dst + 512 <==> IMAGE + b * 512 <= VirtOf(base, pa) < IMAGE + b * 512 + 512)
            && (dst <= pa < dst + 512 ==> pa - dst == VirtOf(base, pa) - (IMAGE + b * 512))
  {
    hide SpawnTable;
    Rotates(base, IMAGE + b * 512);
    assert BlockAddress(SpawnTable(base), b) == Rotate(base % 8, IMAGE + b * 512);
    SameWindow(base % 8, b, pa);
  }

  lemma {:induction false} SameWindow(k: nat, b: nat, pa: nat)
    requires k < 8 && b < MAX_BLOCKS && pa < RAM_SIZE
    ensures var dst, va := Rotate(k, IMAGE + b * 512), Rotate(Back(k), pa);
            && dst + 512 <= RAM_SIZE
            && (dst <= pa < dst + 512 <==> IMAGE + b * 512 <= va < IMAGE + b * 512 + 512)
            && (dst <= pa < dst + 512 ==> pa - dst == va - (IMAGE + b * 512))
  {
  }

  // ---- spawn_bbx ----

  /** ram with the page table of entry j set. */
  ghost predicate TableSet(before: Ram, after: Ram, j: nat, t: Table)
    requires j < MAX_PROCS
  {
    && (forall i :: 0 <= i < 32 ==> after[Entry(j) + OFF_PPN + i] == t[i])
    && (forall a :: 0 <= a < RAM_SIZE && !(Entry(j) + OFF_PPN <= a < Entry(j) + OFF_PPN + 32) ==> after[a] == before[a])
  }

  method BuildTable(m: Machine, base: byte)
    requires m.Core() && m.nprocs < MAX_PROCS
    modifies m.ram
    ensures m.Core() && TableSet(old(m.ram[..]), m.ram[..], m.nprocs, SpawnTable(base))
  {
    var p := Entry(m.nprocs) + OFF_PPN;
    for i := 0 to 32
      invariant m.Core()
      invariant forall k :: 0 <= k < i ==> m.ram[p + k] == SpawnTable(base)[k]
      invariant forall a :: 0 <= a < RAM_SIZE && !(p <= a < p + 32) ==> m.ram[a] == old(m.ram[a])
    {
      m.ram[p + i] := (base + i / 4) % 8 * 4 + i % 4;
    }
  }

  /** One more sector: memcpy512 from the disk buffer to where the table sends sector b. */
  lemma {:induction false} OneMoreBlock(start: Ram, before: Ram, file: seq<byte>, lba: nat, base: byte, b: nat,
      after: Ram)
    requires b < MAX_BLOCKS && LoadSafe(base, b + 1) && Loaded(start, before, file, lba, base, b)
    requires before[BLOCK_BUF..BLOCK_BUF + 512] == Disk.Sector(file, (lba + b) % 0x1_0000_0000)
    requires after == Block.CopyUp(before, BlockAddress(SpawnTable(base), b), BLOCK_BUF, 512)
    ensures Loaded(start, after, file, lba, base, b + 1)
    ensures forall a :: InBlockBuf(a) ==> after[a] == before[a]
  {
    var dst := BlockAddress(SpawnTable(base), b);
    BlockMissesBuffer(base, b);
    Block.CopyUpIsMove(before, dst, BLOCK_BUF, 512);
    forall pa: nat | pa < RAM_SIZE && !InBlockBuf(pa)
      ensures after[pa] == if Target(base, b + 1, pa) then ImageByte(file, lba, VirtOf(base, pa) - IMAGE) else start[pa]
    {
      BlockWindow(base, b, pa);
      if dst <= pa < dst + 512 {
        var off := VirtOf(base, pa) - IMAGE;
        assert off / 512 == b && off % 512 == pa - dst;
      }
    }
  }

  lemma {:induction false} BlockMissesBuffer(base: byte, b: nat)
    requires b < MAX_BLOCKS && LoadSafe(base, b + 1)
    ensures BlockAddress(SpawnTable(base), b) + 512 <= PLIST
  {
    var dst := BlockAddress(SpawnTable(base), b);
    BlockWindow(base, b, dst);
    BlockWindow(base, b, dst + 511);
    assert !KernelByte(dst) && !KernelByte(dst + 511);
  }

  lemma {:induction false} SafeForFewer(base: byte, n: nat, k: nat)
    requires k <= n && LoadSafe(base, n)
    ensures LoadSafe(base, k)
  {
  }

  /** Loading leaves the process table alone. */
  lemma {:induction false} LoadKeepsTable(start: Ram, ram: Ram, file: seq<byte>, lba: nat, base: byte, n: nat, a: nat)
    requires Loaded(start, ram, file, lba, base, n) && LoadSafe(base, n) && PLIST <= a < PLIST + 0x100
    ensures ram[a] == start[a]
  {
  }

  lemma {:induction false} BufferFilled(start: Ram, ram: Ram, file: seq<byte>, lba: nat, base: byte, n: nat,
      data: seq<byte>)
    requires Loaded(start, ram, file, lba, base, n) && |data| == 512
    ensures Loaded(start, Blit(ram, BLOCK_BUF, data), file, lba, base, n)
    ensures Blit(ram, BLOCK_BUF, data)[BLOCK_BUF..BLOCK_BUF + 512] == data
  {
  }

  /** Sector b from the disk buffer to its page, the table being read back from the entry. */
  method CopyBlock(m: Machine, b: nat, base: byte)
    requires m.Core() && m.nprocs < MAX_PROCS && b < MAX_BLOCKS && LoadSafe(base, b + 1)
    requires forall i :: 0 <= i < 32 ==> m.ram[Entry(m.nprocs) + OFF_PPN + i] == SpawnTable(base)[i]
    modifies m.ram, m`a, m`x, m`y
    ensures m.Core() && BlockAddress(SpawnTable(base), b) + 512 <= RAM_SIZE
    ensures m.ram[..] == Block.CopyUp(old(m.ram[..]), BlockAddress(SpawnTable(base), b), BLOCK_BUF, 512)
  {
    BlockMissesBuffer(base, b);
    var virt := IMAGE + b * 512;
    var phys := m.ram[Entry(m.nprocs) + OFF_PPN + virt / 1024] * 1024 + virt % 1024;
    Block.Memcpy512(m, phys, BLOCK_BUF);
  }

  /** The copy loop over the sectors. */
  method LoadBlocks(m: Machine, lba: nat, nblocks: nat, base: byte) returns (err: byte)
    requires m.Valid() && m.nprocs < MAX_PROCS && lba < 0x1_0000_0000 && nblocks <= MAX_BLOCKS
    requires LoadSafe(base, nblocks)
    requires forall i :: 0 <= i < 32 ==> m.ram[Entry(m.nprocs) + OFF_PPN + i] == SpawnTable(base)[i]
    requires m.disk.open && m.ram[..][BLOCK_BUF..BLOCK_BUF + 512] == Disk.Sector(m.disk.file, lba)
    modifies m.ram, m.disk, m.disk.buf, m`a, m`x, m`y
    ensures m.Valid() && err == 0 && m.disk.file == old(m.disk.file)
    ensures Loaded(old(m.ram[..]), m.ram[..], m.disk.file, lba, base, nblocks)
  {
    hide LoadSafe, Loaded, SpawnTable, Disk.Sector, Blit;
    ghost var start, file := m.ram[..], m.disk.file;
    var b := 0;
    err := 0;
    NothingLoaded(start, file, lba, base);
    while b < nblocks
      invariant m.Valid() && b <= nblocks && m.disk.file == file && err == 0
      invariant b == 0 ==> m.ram[..] == start
      invariant Loaded(start, m.ram[..], file, lba, base, b)
    {
      if b != 0 {
        ghost var before := m.ram[..];
        err := Block.BlockRead(m, (lba + b) % 0x1_0000_0000, BLOCK_BUF);
        BufferFilled(start, before, file, lba, base, b, Disk.Sector(file, (lba + b) % 0x1_0000_0000));
        if err != 0 {
          break;
        }
      }
      SafeForFewer(base, nblocks, b);
      SafeForFewer(base, nblocks, b + 1);
      ghost var before := m.ram[..];
      forall i | 0 <= i < 32
        ensures m.ram[Entry(m.nprocs) + OFF_PPN + i] == SpawnTable(base)[i]
      {
        LoadKeepsTable(start, before, file, lba, base, b, Entry(m.nprocs) + OFF_PPN + i);
      }
      CopyBlock(m, b, base);
      OneMoreBlock(start, before, file, lba, base, b, m.ram[..]);
      b := b + 1;
    }
  }

  lemma {:induction false} NothingLoaded(start: Ram, file: seq<byte>, lba: nat, base: byte)
    ensures Loaded(start, start, file, lba, base, 0)
  {
  }

  // ---- The contract of a load ----

  predicate Magic(sector: seq<byte>) {
    |sector| == 512 && sector[0] == 0x42 && sector[1] == 0x58
  }

  /** The error spawn_bbx returns: 1 when the table is full or nothing can be read, 2 for a bad header. */
  function SpawnError(nprocs: nat, open: bool, header: seq<byte>): byte {
    if nprocs >= MAX_PROCS || !open then 1 else if !Magic(header) then 2 else 0
  }

  /** Bytes a successful load changes besides the image and the frame. */
  predicate Working(j: nat, a: int) {
    Entry(j) <= a < Entry(j) + ENTRY_SIZE || InBlockBuf(a) || Scratch(a)
  }

  /** The entry point in a BBX header. */
  function EntryPoint(header: seq<byte>): word
    requires |header| == 512
  {
    Word(header[4], header[5])
  }

  /** A byte outside the working memory after a load. */
  function SpawnByte(before: Ram, file: seq<byte>, lba: nat, n: nat, base: byte, entry: word, pa: nat): byte
    requires pa < RAM_SIZE
  {
    if Target(base, n, pa) then ImageByte(file, lba, VirtOf(base, pa) - IMAGE)
    else if FrameByte(base, pa) then FrameBytes(entry)[VirtOf(base, pa) - 0x1FD]
    else before[pa]
  }

  /** Success: the image, the start frame and the new entry are in place, nothing else has changed. */
  ghost predicate Spawned(before: Ram, after: Ram, j: nat, file: seq<byte>, lba: nat, n: nat, base: byte)
    requires j < MAX_PROCS
  {
    && (forall pa: nat | pa < RAM_SIZE && !Working(j, pa) ::
          after[pa] == SpawnByte(before, file, lba, n, base, EntryPoint(Disk.Sector(file, lba)), pa))
    && StateOf(after, j) == WAITING && SavedSp(after, j) == 0xFC
    && (forall i :: 0 <= i < 32 ==> after[Entry(j) + OFF_PPN + i] == SpawnTable(base)[i])
    && FieldsSet(before, after, j, lba, n)
  }

  /** The entry's other fields: exit code, LBA and sector count cut to a byte, an empty name; the rest of
      the name and the padding are untouched. */
  ghost predicate FieldsSet(before: Ram, after: Ram, j: nat, lba: nat, n: nat)
    requires j < MAX_PROCS
  {
    && after[Entry(j) + 1] == 0 && after[Entry(j) + 2] == lba % 0x100 && after[Entry(j) + 3] == n % 0x100
    && after[Entry(j) + 4] == 0
    && (forall a :: Entry(j) + 5 <= a < Entry(j) + OFF_SP || Entry(j) + OFF_PPN + 32 <= a < Entry(j) + ENTRY_SIZE
          ==> after[a] == before[a])
  }

  /** Failure: with a full table nothing changes; otherwise the free entry holds the new page table, and
      nothing else of it or of memory has changed but the disk buffer and scratch cells. */
  ghost predicate Refused(before: Ram, after: Ram, j: nat, base: byte) {
    if j >= MAX_PROCS then SameOffScratch(before, after)
    else
      && (forall i :: 0 <= i < 32 ==> after[Entry(j) + OFF_PPN + i] == SpawnTable(base)[i])
      && (forall a :: 0 <= a < RAM_SIZE && !(Entry(j) + OFF_PPN <= a < Entry(j) + OFF_PPN + 32)
                      && !InBlockBuf(a) && !Scratch(a)
            ==> after[a] == before[a])
  }

  function FrameAt(base: byte): nat {
    Phys(SpawnTable(base), 0x1FD)
  }

  lemma {:induction false} FrameWindow(base: byte, pa: nat)
    requires pa < RAM_SIZE
    ensures FrameAt(base) + 3 <= RAM_SIZE
    ensures FrameAt(base) <= pa < FrameAt(base) + 3 <==> FrameByte(base, pa)
    ensures FrameByte(base, pa) ==> pa - FrameAt(base) == VirtOf(base, pa) - 0x1FD
  {
    hide SpawnTable;
    Rotates(base, 0x1FD);
    Bijective(base, pa, 0x1FD);
  }

  function FrameBytes(entry: word): seq<byte> {
    [0x20, Lo(entry), Hi(entry)]
  }

  lemma {:induction false} FrameLength(entry: word)
    ensures |FrameBytes(entry)| == 3
  {
  }

  /** The RTI frame on the child's stack page: status $20, then the entry point. */
  method WriteFrame(m: Machine, entry: word, base: byte)
    requires m.Core() && m.nprocs < MAX_PROCS && FrameAt(base) + 3 <= PLIST
    requires m.ram[Entry(m.nprocs) + OFF_PPN] == SpawnTable(base)[0]
    modifies m.ram
    ensures m.Core() && m.ram[..] == Blit(old(m.ram[..]), FrameAt(base), FrameBytes(entry))
  {
    var page: nat := m.ram[Entry(m.nprocs) + OFF_PPN];
    var f := page * 1024 + 0x1FD;
    m.ram[f] := 0x20;
    m.ram[f + 1] := Lo(entry);
    m.ram[f + 2] := Hi(entry);
  }

  /** The entry's fields after the table. */
  method WriteFields(m: Machine, lba: nat, nblocks: nat)
    requires m.Core() && m.nprocs < MAX_PROCS
    modifies m.ram
    ensures m.Core() && m.ram[0x7000 + 64 * m.nprocs] == 1 && m.ram[0x700D + 64 * m.nprocs] == 0xFC
    ensures FieldsSet(old(m.ram[..]), m.ram[..], m.nprocs, lba, nblocks)
    ensures forall a :: 0 <= a < RAM_SIZE && !(Entry(m.nprocs) <= a < Entry(m.nprocs) + OFF_PPN) ==>
              m.ram[a] == old(m.ram[a])
  {
    var p := Entry(m.nprocs);
    m.ram[p + OFF_STATE] := WAITING;
    m.ram[p + 1] := 0;
    m.ram[p + 2] := lba % 0x100;
    m.ram[p + 3] := nblocks % 0x100;
    m.ram[p + OFF_SP] := 0xFC;
    m.ram[p + 4] := 0;
  }

  lemma {:induction false} FrameIsSafe(base: byte, n: nat)
    requires LoadSafe(base, n)
    ensures 0x200 <= FrameAt(base) < PLIST - 3
  {
    FrameWindow(base, FrameAt(base));
    FrameWindow(base, FrameAt(base) + 2);
    assert !KernelByte(FrameAt(base)) && !KernelByte(FrameAt(base) + 2);
  }

  /** What spawn_bbx prints. */
  function SpawnMessage(nprocs: nat, open: bool, header: seq<byte>): string {
    if nprocs >= MAX_PROCS then "spawn: too many procs\r\n"
    else if !open then "spawn: read fail\r\n"
    else if !Magic(header) then "spawn: bad BBX magic\r\n"
    else ""
  }

  /** Outside the working bytes the steps of a load compose to the image and the frame over what was there. */
  lemma {:induction false} StepsCompose(start: Ram, filled: Ram, loaded: Ram, after: Ram, j: nat, file: seq<byte>,
      lba: nat, n: nat, base: byte, entry: word, pa: nat)
    requires j < MAX_PROCS && pa < RAM_SIZE && !Working(j, pa) && filled[pa] == start[pa]
    requires Loaded(filled, loaded, file, lba, base, n) && FrameAt(base) + 3 <= RAM_SIZE
    requires after[pa] == Blit(loaded, FrameAt(base), FrameBytes(entry))[pa]
    ensures after[pa] == SpawnByte(start, file, lba, n, base, entry, pa)
  {
    FrameWindow(base, pa);
    hide VirtOf, FrameAt, ImageByte;
  }

  /** spawn_bbx from the copy loop on, the header being in the disk buffer. */
  method Install(m: Machine, lba: nat, nblocks: nat, base: byte, entry: word, ghost start: Ram) returns (err: byte)
    requires m.Valid() && m.nprocs < MAX_PROCS && lba < 0x1_0000_0000 && nblocks <= MAX_BLOCKS
    requires LoadSafe(base, nblocks) && Refused(start, m.ram[..], m.nprocs, base)
    requires m.disk.open && m.ram[..][BLOCK_BUF..BLOCK_BUF + 512] == Disk.Sector(m.disk.file, lba)
    requires entry == EntryPoint(Disk.Sector(m.disk.file, lba))
    modifies m.ram, m.disk, m.disk.buf, m`a, m`x, m`y, m`nprocs
    ensures m.Valid() && err == 0 && m.disk.file == old(m.disk.file) && m.nprocs == old(m.nprocs) + 1
    ensures Spawned(start, m.ram[..], old(m.nprocs), m.disk.file, lba, nblocks, base)
  {
    hide LoadSafe, Loaded, SpawnTable, Spawned, EntryPoint, Refused;
    ghost var j, file, filled := m.nprocs, m.disk.file, m.ram[..];
    PreparedWorking(start, filled, j, base);
    err := LoadBlocks(m, lba, nblocks, base);
    forall a | PLIST <= a < PLIST + 0x100
      ensures m.ram[a] == filled[a]
    {
      LoadKeepsTable(filled, m.ram[..], file, lba, base, nblocks, a);
    }
    if err == 0 {
      Register(m, lba, nblocks, base, entry, start, filled);
    }
  }

  /** Lines 90-104: the frame, the entry and the count. */
  method Register(m: Machine, lba: nat, nblocks: nat, base: byte, entry: word, ghost start: Ram, ghost filled: Ram)
    requires m.Core() && m.nprocs < MAX_PROCS && nblocks <= MAX_BLOCKS
    requires LoadSafe(base, nblocks) && Refused(start, filled, m.nprocs, base)
    requires Loaded(filled, m.ram[..], m.disk.file, lba, base, nblocks)
    requires forall a :: PLIST <= a < PLIST + 0x100 ==> m.ram[a] == filled[a]
    requires entry == EntryPoint(Disk.Sector(m.disk.file, lba))
    modifies m.ram, m`nprocs
    ensures m.Core() && m.nprocs == old(m.nprocs) + 1
    ensures Spawned(start, m.ram[..], old(m.nprocs), m.disk.file, lba, nblocks, base)
  {
    hide LoadSafe, Loaded, SpawnTable, Spawned, FrameAt, EntryPoint, FrameBytes, Refused, FieldsSet;
    ghost var loaded := m.ram[..];
    PreparedWorking(start, filled, m.nprocs, base);
    FrameIsSafe(base, nblocks);
    WriteFrame(m, entry, base);
    ghost var framed := m.ram[..];
    WriteFields(m, lba, nblocks);
    StepsSpawn(start, filled, loaded, framed, m.ram[..], m.nprocs, m.disk.file, lba, nblocks, base);
    m.nprocs := m.nprocs + 1;
  }

  /** Table, image, frame and fields together are a load. */
  lemma {:induction false} StepsSpawn(start: Ram, filled: Ram, loaded: Ram, framed: Ram, after: Ram, j: nat,
      file: seq<byte>, lba: nat, n: nat, base: byte)
    requires j < MAX_PROCS && LoadSafe(base, n) && Refused(start, filled, j, base)
    requires Loaded(filled, loaded, file, lba, base, n) && FrameAt(base) + 3 <= PLIST
    requires forall a :: PLIST <= a < PLIST + 0x100 ==> loaded[a] == filled[a]
    requires framed == Blit(loaded, FrameAt(base), FrameBytes(EntryPoint(Disk.Sector(file, lba))))
    requires StateOf(after, j) == WAITING && SavedSp(after, j) == 0xFC && FieldsSet(framed, after, j, lba, n)
    requires forall a :: 0 <= a < RAM_SIZE && !(Entry(j) <= a < Entry(j) + OFF_PPN) ==> after[a] == framed[a]
    ensures Spawned(start, after, j, file, lba, n, base)
  {
    var entry := EntryPoint(Disk.Sector(file, lba));
    hide LoadSafe, Loaded, SpawnTable, SpawnByte, FrameAt, EntryPoint, FrameBytes, Refused, FieldsSet;
    PreparedWorking(start, filled, j, base);
    FrameLength(entry);
    FieldsOver(start, filled, framed, after, j, lba, n, base);
    forall pa: nat | pa < RAM_SIZE && !Working(j, pa)
      ensures after[pa] == SpawnByte(start, file, lba, n, base, entry, pa)
    {
      StepsCompose(start, filled, loaded, framed, j, file, lba, n, base, entry, pa);
    }
  }

  lemma {:induction false} RefusedFull(ram: Ram, j: nat, base: byte)
    requires j >= MAX_PROCS
    ensures Refused(ram, ram, j, base)
  {
  }

  lemma {:induction false} FieldsOver(start: Ram, filled: Ram, framed: Ram, after: Ram, j: nat, lba: nat, n: nat,
      base: byte)
    requires j < MAX_PROCS && Refused(start, filled, j, base) && FieldsSet(framed, after, j, lba, n)
    requires forall a :: PLIST <= a < PLIST + 0x100 ==> framed[a] == filled[a]
    ensures FieldsSet(start, after, j, lba, n)
  {
    hide SpawnTable;
  }

  /** spawn_bbx up to the copy loop: the new table, and the first sector with its header. */
  method Prepare(m: Machine, lba: nat, base: byte) returns (err: byte, entry: word)
    requires m.Valid() && m.nprocs < MAX_PROCS && lba < 0x1_0000_0000
    modifies m.ram, m.con, m.disk, m.disk.buf, m`a, m`x, m`y
    ensures m.Valid() && m.disk.file == old(m.disk.file)
    ensures var header := Disk.Sector(m.disk.file, lba);
            var text := KernelIo.Shown(SpawnMessage(m.nprocs, m.disk.open, header));
            && err == SpawnError(m.nprocs, m.disk.open, header)
            && KernelIo.Printed(old(m.con.Snap()), m.con.Snap(), text, text)
            && (err == 0 ==> m.ram[..][0x7100..0x7300] == header)
    ensures var h := Disk.Sector(m.disk.file, lba);
            && (err == 0 <==> m.disk.open && h[0] == 0x42 && h[1] == 0x58) && (err == 1 <==> !m.disk.open) && err <= 2
            && (err == 0 ==> entry == h[4] as int + 0x100 * h[5] as int)
    ensures Refused(old(m.ram[..]), m.ram[..], m.nprocs, base)
  {
    hide SpawnTable, KernelIo.Printed;
    ghost var start := m.ram[..];
    entry := 0;
    BuildTable(m, base);
    ghost var set_ := m.ram[..];
    err := Block.BlockRead(m, lba, BLOCK_BUF);
    TableThenBuffer(start, set_, m.ram[..], m.nprocs, base);
    if err != 0 {
      KernelIo.KPrintLiteral(m.con, "spawn: read fail\r\n");
      return;
    }
    ghost var header := m.ram[..][BLOCK_BUF..BLOCK_BUF + 512];
    assert header == Disk.Sector(m.disk.file, lba);
    assert m.ram[BLOCK_BUF] == header[0] && m.ram[BLOCK_BUF + 1] == header[1];
    if m.ram[BLOCK_BUF] != 0x42 || m.ram[BLOCK_BUF + 1] != 0x58 {
      KernelIo.KPrintLiteral(m.con, "spawn: bad BBX magic\r\n");
      return 2, 0;
    }
    entry := Word(m.ram[BLOCK_BUF + 4], m.ram[BLOCK_BUF + 5]);
    assert m.ram[BLOCK_BUF + 4] == header[4] && m.ram[BLOCK_BUF + 5] == header[5];
    ShowNothing(m.con.Snap());
  }

  lemma {:induction false} TableThenBuffer(start: Ram, set_: Ram, after: Ram, j: nat, base: byte)
    requires j < MAX_PROCS && TableSet(start, set_, j, SpawnTable(base))
    requires forall a :: 0 <= a < RAM_SIZE && !InBlockBuf(a) ==> after[a] == set_[a]
    ensures Refused(start, after, j, base)
  {
  }

  lemma {:induction false} ShowNothing(c: Console.Port)
    requires c.Valid()
    ensures KernelIo.Shown("") == [] && KernelIo.Printed(c, c, [], [])
  {
  }

  /** spawn_bbx. The callers keep nblocks within the table (56) and the target clear of the kernel. */
  method SpawnBbx(m: Machine, lba: nat, nblocks: nat, base: byte) returns (err: byte)
    requires m.Valid() && lba < 0x1_0000_0000 && nblocks <= MAX_BLOCKS && LoadSafe(base, nblocks)
    modifies m.ram, m.con, m.disk, m.disk.buf, m`a, m`x, m`y, m`nprocs
    ensures m.Valid() && m.disk.file == old(m.disk.file)
    ensures var h := Disk.Sector(m.disk.file, lba);
            && (err == 0 <==> old(m.nprocs) < 4 && m.disk.open && h[0] == 0x42 && h[1] == 0x58)
            && (err == 1 <==> old(m.nprocs) >= 4 || !m.disk.open) && err <= 2
    ensures var text := KernelIo.Shown(SpawnMessage(old(m.nprocs), m.disk.open, Disk.Sector(m.disk.file, lba)));
            && err == SpawnError(old(m.nprocs), m.disk.open, Disk.Sector(m.disk.file, lba))
            && text == KernelIo.Shown(if old(m.nprocs) >= 4 then "spawn: too many procs\r\n"
                                      else if err == 1 then "spawn: read fail\r\n"
                                      else if err == 2 then "spawn: bad BBX magic\r\n" else "")
            && KernelIo.Printed(old(m.con.Snap()), m.con.Snap(), text, text)
            && m.nprocs == (if err == 0 then old(m.nprocs) + 1 else old(m.nprocs))
            && (err == 0 ==> Spawned(old(m.ram[..]), m.ram[..], old(m.nprocs), m.disk.file, lba, nblocks, base))
            && (err != 0 ==> Refused(old(m.ram[..]), m.ram[..], old(m.nprocs), base))
  {
    hide LoadSafe, Loaded, SpawnTable, Spawned, KernelIo.Printed, KernelIo.Shown, Refused;
    ghost var start := m.ram[..];
    if m.nprocs >= MAX_PROCS {
      KernelIo.KPrintLiteral(m.con, "spawn: too many procs\r\n");
      RefusedFull(start, m.nprocs, base);
      return 1;
    }
    var entry;
    err, entry := Prepare(m, lba, base);
    if err != 0 {
      return;
    }
    err := Install(m, lba, nblocks, base, entry, start);
  }

  lemma {:induction false} PreparedWorking(start: Ram, after: Ram, j: nat, base: byte)
    requires j < MAX_PROCS && Refused(start, after, j, base)
    ensures forall i :: 0 <= i < 32 ==> after[Entry(j) + OFF_PPN + i] == SpawnTable(base)[i]
    ensures forall a :: 0 <= a < RAM_SIZE && !Working(j, a) ==> after[a] == start[a]
  {
  }
}
