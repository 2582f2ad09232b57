/**
 The block driver (sw/kernel/src/block.c) and memcpy512.s, over the machine's RAM and disk controller.
 */
module Block {
  import opened Bytes
  import opened System
  import opened Machine
  import Disk

  /** set_lba: four byte writes, least significant first. */
  method SetLba(d: Disk.Controller, lba: nat)
    requires d.Valid() && lba < 0x1_0000_0000
    modifies d, d.buf
    ensures d.Valid() && Disk.LbaValue(d.lba) == lba
    ensures d.file == old(d.file) && d.dptr == old(d.dptr) && d.err == old(d.err) && d.buf[..] == old(d.buf[..])
  {
    LbaBytes(lba);
    d.Write(0, lba % 0x100);
    d.Write(1, lba / 0x100 % 0x100);
    d.Write(2, lba / 0x1_0000 % 0x100);
    d.Write(3, lba / 0x100_0000);
  }

  lemma {:induction false} LbaBytes(lba: nat)
    requires lba < 0x1_0000_0000
    ensures lba % 0x100 + 0x100 * (lba / 0x100 % 0x100) + 0x1_0000 * (lba / 0x1_0000 % 0x100)
        + 0x100_0000 * (lba / 0x100_0000) == lba
  {
  }

  /** One DATA read stored at dst: LDA $80E6, STA (zp_ptr),Y. */
  method DrainByte(m: Machine, dst: nat)
    requires m.Valid() && dst < RAM_SIZE
    modifies m.ram, m.disk, m`a
    ensures m.Valid() && m.ram[..] == old(m.ram[..])[dst := m.disk.buf[old(m.disk.dptr)]]
    ensures m.disk.file == old(m.disk.file)
    ensures m.disk.dptr == if old(m.disk.dptr) < 511 then old(m.disk.dptr) + 1 else 511
  {
    m.a := m.disk.Read(Disk.REG_DATA);
    m.ram[dst] := m.a;
  }

  lemma {:induction false} BlitGrows(ram: Ram, dst: nat, data: seq<byte>, n: nat)
    requires n < |data| && dst + |data| <= RAM_SIZE
    ensures Blit(ram, dst, data[..n])[dst + n := data[n]] == Blit(ram, dst, data[..n + 1])
  {
  }

  /** The drain loop of block_read: DATA is read 512 times through a pointer whose high byte is bumped
      when Y wraps. */
  method Drain(m: Machine, dst: nat)
    requires m.Valid() && dst + 512 <= RAM_SIZE && m.disk.dptr == 0
    modifies m.ram, m.disk, m`a, m`x, m`y
    ensures m.Valid() && m.ram[..] == Blit(old(m.ram[..]), dst, m.disk.buf[..])
    ensures m.disk.file == old(m.disk.file)
  {
    hide Blit;
    ghost var data := m.disk.buf[..];
    var zpPtr := dst;
    m.y := 0;
    m.x := 2;
    assert Blit(m.ram[..], dst, data[..0]) == m.ram[..] by { BlitNothing(m.ram[..], dst, data[..0]); }
    while true
      invariant m.Valid() && 1 <= m.x <= 2 && zpPtr == dst + 0x100 * (2 - m.x)
      invariant m.disk.dptr == zpPtr - dst + m.y && m.disk.file == old(m.disk.file)
      invariant m.ram[..] == Blit(old(m.ram[..]), dst, data[..m.disk.dptr])
      decreases m.x, 0x100 - m.y
    {
      BlitGrows(old(m.ram[..]), dst, data, m.disk.dptr);
      DrainByte(m, zpPtr + m.y);
      m.y := Wrap(m.y + 1);
      if m.y == 0 {
        zpPtr := zpPtr + 0x100;
        m.x := m.x - 1;
        if m.x == 0 {
          break;
        }
      }
    }
    assert data[..512] == data;
    zpPtr := zpPtr - 0x100;
    zpPtr := zpPtr - 0x100;
  }

  lemma {:induction false} BlitNothing(ram: Ram, dst: nat, data: seq<byte>)
    requires data == []
    ensures Blit(ram, dst, data) == ram
  {
  }

  /** block_read: a whole sector into RAM at dst, or 1 and no change when no image is open. */
  method BlockRead(m: Machine, lba: nat, dst: nat) returns (err: byte)
    requires m.Valid() && lba < 0x1_0000_0000 && dst + 512 <= RAM_SIZE
    modifies m.ram, m.disk, m.disk.buf, m`a, m`x, m`y
    ensures m.Valid() && m.disk.file == old(m.disk.file)
    ensures err == if m.disk.open then 0 else 1
    ensures m.ram[..] == if m.disk.open then Blit(old(m.ram[..]), dst, Disk.Sector(m.disk.file, lba))
        else old(m.ram[..])
  {
    SetLba(m.disk, lba);
    m.disk.Write(Disk.REG_CMD, Disk.CMD_READ);
    var status := m.disk.Read(Disk.REG_STATUS);
    assert status % 2 == 0;  // the transfer is over within the command: the wait ends at its first read
    status := m.disk.Read(Disk.REG_STATUS);
    if Bit(status, 7) {
      return 1;
    }
    m.disk.Write(Disk.REG_DPTR, 0);
    Drain(m, dst);
    return 0;
  }

  /** block_write: DPTR = 0, the 512 bytes from src into the controller's buffer, LBA, then the command. */
  method BlockWrite(m: Machine, lba: nat, src: nat) returns (err: byte)
    requires m.Valid() && lba < 0x1_0000_0000 && src + 512 <= RAM_SIZE
    modifies m.disk, m.disk.buf
    ensures m.Valid() && err == if m.disk.open then 0 else 1
    ensures m.disk.file == if m.disk.open then Disk.WriteSector(old(m.disk.file), lba, m.ram[src..src + 512])
                           else old(m.disk.file)
  {
    m.disk.Write(Disk.REG_DPTR, 0);
    var i := 0;
    while i < 512
      invariant m.Valid() && i <= 512 && m.disk.dptr == (if i < 512 then i else 511)
      invariant m.disk.file == old(m.disk.file)
      invariant forall k :: 0 <= k < i ==> m.disk.buf[k] == m.ram[src + k]
    {
      ghost var before := m.disk.buf[..];
      m.disk.Write(Disk.REG_DATA, m.ram[src + i]);
      assert m.disk.buf[..] == before[i := m.ram[src + i]];
      assert forall k :: 0 <= k < 512 ==> m.disk.buf[k] == m.disk.buf[..][k];
      i := i + 1;
    }
    assert m.disk.buf[..] == m.ram[src..src + 512];
    SetLba(m.disk, lba);
    m.disk.Write(Disk.REG_CMD, Disk.CMD_WRITE);
    var status := m.disk.Read(Disk.REG_STATUS);
    assert status % 2 == 0;
    status := m.disk.Read(Disk.REG_STATUS);
    return if Bit(status, 7) then 1 else 0;
  }

  // ---- memcpy512 ----

  /** Byte by byte from low to high addresses, so that an overlapping copy is covered too. */
  function CopyUp(ram: Ram, dst: nat, src: nat, n: nat): Ram
    requires dst + n <= RAM_SIZE && src + n <= RAM_SIZE
  {
    if n == 0 then ram
    else var r := CopyUp(ram, dst, src, n - 1); r[dst + n - 1 := r[src + n - 1]]
  }

  /** When no byte is overwritten before it is read, it is a block move. */
  lemma {:induction false} CopyUpIsMove(ram: Ram, dst: nat, src: nat, n: nat)
    requires dst + n <= RAM_SIZE && src + n <= RAM_SIZE && (dst <= src || src + n <= dst)
    ensures CopyUp(ram, dst, src, n) == Blit(ram, dst, ram[src..src + n])
  {
    if n > 0 {
      CopyUpIsMove(ram, dst, src, n - 1);
      assert ram[src..src + n][..n - 1] == ram[src..src + n - 1];
    }
  }

  /** _memcpy512: two pages of 256 bytes, both pointers' high bytes bumped in between. */
  method Memcpy512(m: Machine, dst: nat, src: nat)
    requires m.Core() && dst + 512 <= RAM_SIZE && src + 512 <= RAM_SIZE
    modifies m.ram, m`a, m`x, m`y
    ensures m.Core() && m.ram[..] == CopyUp(old(m.ram[..]), dst, src, 512)
  {
    var ptr1, ptr2 := src, dst;
    m.x := 2;
    m.y := 0;
    ghost var n := 0;
    while true
      invariant m.Core() && 1 <= m.x <= 2 && n == 0x100 * (2 - m.x) + m.y
      invariant ptr1 == src + 0x100 * (2 - m.x) && ptr2 == dst + 0x100 * (2 - m.x)
      invariant m.ram[..] == CopyUp(old(m.ram[..]), dst, src, n)
      decreases m.x, 0x100 - m.y
    {
      m.a := m.ram[ptr1 + m.y];
      m.ram[ptr2 + m.y] := m.a;
      n := n + 1;
      m.y := Wrap(m.y + 1);
      if m.y == 0 {
        ptr1 := ptr1 + 0x100;
        ptr2 := ptr2 + 0x100;
        m.x := m.x - 1;
        if m.x == 0 {
          break;
        }
      }
    }
  }

  // ---- Disk contents over any sequence of block calls ----

  datatype DiskOp = ReadOp(lba: nat) | WriteOp(lba: nat, data: seq<byte>)

  /** The image after the operations, and the last sector written at an LBA by their own record. */
  function ImageAfter(file: seq<byte>, ops: seq<DiskOp>): seq<byte> {
    if ops == [] then file
    else
      var f, op := ImageAfter(file, ops[..|ops| - 1]), ops[|ops| - 1];
      if op.WriteOp? then Disk.WriteSector(f, op.lba, op.data) else f
  }

  function LastWritten(file: seq<byte>, ops: seq<DiskOp>, lba: nat): seq<byte> {
    if ops == [] then Disk.Sector(file, lba)
    else
      var op := ops[|ops| - 1];
      if op.WriteOp? && op.lba == lba then op.data else LastWritten(file, ops[..|ops| - 1], lba)
  }

  /** A block read delivers what was last written at its LBA, or the initial image; writes elsewhere,
      and any reads, do not matter. */
  lemma {:induction false} DiskIsAMemory(file: seq<byte>, ops: seq<DiskOp>, lba: nat)
    requires lba < Disk.LBA_LIMIT
    requires forall i :: 0 <= i < |ops| && ops[i].WriteOp? ==> ops[i].lba < Disk.LBA_LIMIT && |ops[i].data| == 512
    ensures Disk.Sector(ImageAfter(file, ops), lba) == LastWritten(file, ops, lba)
  {
    if ops != [] {
      var n := |ops| - 1;
      DiskIsAMemory(file, ops[..n], lba);
      if ops[n].WriteOp? {
        Disk.WriteThenRead(ImageAfter(file, ops[..n]), ops[n].lba, ops[n].data, lba);
      }
    }
  }
}
