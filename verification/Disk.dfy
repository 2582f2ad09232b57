/**
 The disk controller of rtl/tb.v: an LBA register, a 512-byte buffer behind a saturating data
 pointer, and the image file the two commands transfer to and from.
 */
module Disk {
  import opened Bytes

  const SECTOR := 512
  const CMD_READ: byte := 1
  const CMD_WRITE: byte := 2

  const REG_CMD := 4
  const REG_STATUS := 5
  const REG_DATA := 6
  const REG_DPTR := 7

  /** LBAs whose byte offset stays below 2^31, where a C file offset is still positive. */
  const LBA_LIMIT := 0x40_0000

  // ---- The image file ----

  /** Byte i of a file; reads past the end give zero. */
  function At(file: seq<byte>, i: nat): byte {
    if i < |file| then file[i] else 0
  }

  function Zeros(n: nat): (z: seq<byte>)
    ensures |z| == n
  {
    seq(n, _ => 0 as byte)
  }

  /** Writing one byte at position i, extending the file (with zeros before i) when it is shorter. */
  function PutAt(file: seq<byte>, i: nat, b: byte): seq<byte> {
    if i < |file| then file[i := b] else file + Zeros(i - |file|) + [b]
  }

  function WriteBytes(file: seq<byte>, off: nat, data: seq<byte>): seq<byte> {
    if data == [] then file
    else PutAt(WriteBytes(file, off, data[..|data| - 1]), off + |data| - 1, data[|data| - 1])
  }

  lemma {:induction false} WriteBytesAt(file: seq<byte>, off: nat, data: seq<byte>, i: nat)
    ensures At(WriteBytes(file, off, data), i) ==
            if off <= i < off + |data| then data[i - off] else At(file, i)
  {
    if data != [] {
      WriteBytesAt(file, off, data[..|data| - 1], i);
    }
  }

  /** `disk_lba * 512` in the 32 bits of the Verilog expression. */
  function Offset(lba: nat): nat {
    (lba * SECTOR) % 0x1_0000_0000
  }

  function Sector(file: seq<byte>, lba: nat): (d: seq<byte>)
    ensures |d| == SECTOR
  {
    seq<byte>(SECTOR, i requires 0 <= i < SECTOR => At(file, Offset(lba) + i))
  }

  function WriteSector(file: seq<byte>, lba: nat, data: seq<byte>): seq<byte> {
    WriteBytes(file, Offset(lba), data)
  }

  /** From here on an LBA's file offset wraps past the 32 bits of the expression. */
  const OFFSET_LIMIT := 0x80_0000

  lemma {:induction false} OffsetWraps(lba: nat)
    ensures Offset(lba) == 512 * (lba % 0x80_0000)
    ensures lba < OFFSET_LIMIT ==> Offset(lba) == 512 * lba
  {
  }

  /** A sector is the 512 bytes of the file from 512 * lba on, zeros past its end; LBAs that differ in the
      upper nine bits only are the same sector. */
  lemma {:induction false} SectorBytes(file: seq<byte>, lba: nat, i: nat)
    requires i < 512
    ensures var at := 512 * (lba % 0x80_0000) + i; Sector(file, lba)[i] == if at < |file| then file[at] else 0
  {
    OffsetWraps(lba);
    assert Sector(file, lba)[i] == At(file, Offset(lba) + i);
  }

  /** Writing a sector replaces those bytes and no others; past the old end zeros fill the gap. */
  lemma {:induction false} WrittenBytes(file: seq<byte>, lba: nat, data: seq<byte>, k: nat)
    requires |data| == 512
    ensures var after, at := WriteSector(file, lba, data), 512 * (lba % 0x80_0000);
            (if k < |after| then after[k] else 0) ==
            if at <= k < at + 512 then data[k - at] else if k < |file| then file[k] else 0
  {
    OffsetWraps(lba);
    WriteBytesAt(file, Offset(lba), data, k);
  }

  /** A written sector reads back, and no other sector changes. */
  lemma {:induction false} WriteThenRead(file: seq<byte>, lba: nat, data: seq<byte>, other: nat)
    requires |data| == SECTOR && lba < LBA_LIMIT && other < LBA_LIMIT
    ensures Sector(WriteSector(file, lba, data), other) == if other == lba then data else Sector(file, other)
  {
    assert Offset(lba) == lba * SECTOR && Offset(other) == other * SECTOR;
    var after := WriteSector(file, lba, data);
    forall i | 0 <= i < SECTOR
      ensures Sector(after, other)[i] == if other == lba then data[i] else Sector(file, other)[i]
    {
      WriteBytesAt(file, Offset(lba), data, Offset(other) + i);
    }
    assert Sector(after, lba) == Sector(after, lba)[..];
  }

  // ---- The controller ----

  function LbaValue(lba: seq<byte>): nat
    requires |lba| == 4
  {
    lba[0] as nat + 0x100 * lba[1] as nat + 0x1_0000 * lba[2] as nat + 0x100_0000 * lba[3] as nat
  }

  /** Register k of $80E0-$80E3 is byte k of the LBA. */
  lemma {:induction false} LbaDigits(lba: seq<byte>)
    requires |lba| == 4
    ensures var v := LbaValue(lba);
            && v < 0x1_0000_0000 && lba[0] == v % 0x100 && lba[1] == v / 0x100 % 0x100
            && lba[2] == v / 0x1_0000 % 0x100 && lba[3] == v / 0x100_0000
  {
    var b0, b1, b2, b3 := lba[0] as int, lba[1] as int, lba[2] as int, lba[3] as int;
    var v := LbaValue(lba);
    assert v == b0 + 0x100 * (b1 + 0x100 * (b2 + 0x100 * b3));
    assert v / 0x100 == b1 + 0x100 * (b2 + 0x100 * b3);
    assert v / 0x1_0000 == b2 + 0x100 * b3;
  }

  class Controller {
    var lba: seq<byte>      // the four bytes of disk_lba, least significant first
    const buf: array<byte>
    var dptr: nat
    var busy: bool
    var err: bool
    var file: seq<byte>
    const open: bool        // disk_fd is a file

    ghost predicate Valid()
      reads this, buf
    {
      |lba| == 4 && buf.Length == SECTOR && dptr < SECTOR && !busy
    }

    constructor (image: seq<byte>, open: bool)
      ensures Valid() && fresh(buf) && file == image && this.open == open
    {
      lba := [0, 0, 0, 0];
      buf := new byte[SECTOR](_ => 0);
      dptr, busy, err := 0, false, false;
      file := image;
      this.open := open;
    }

    method DoRead()
      requires |lba| == 4 && buf.Length == SECTOR
      modifies this, buf
      ensures Valid() && lba == old(lba) && file == old(file) && dptr == 0
      ensures if open then buf[..] == Sector(file, LbaValue(lba)) && !err else err && buf[..] == old(buf[..])
    {
      if !open {
        err := true;
      } else {
        var pos := Offset(LbaValue(lba));
        for i := 0 to SECTOR
          invariant lba == old(lba) && file == old(file)
          invariant forall k :: 0 <= k < i ==> buf[k] == At(file, pos + k)
        {
          buf[i] := At(file, pos + i);
        }
        err := false;
      }
      busy := false;
      dptr := 0;
    }

    method DoWrite()
      requires |lba| == 4 && buf.Length == SECTOR && dptr < SECTOR
      modifies this
      ensures Valid() && lba == old(lba) && dptr == old(dptr)
      ensures if open then file == WriteSector(old(file), LbaValue(lba), buf[..]) && !err
              else err && file == old(file)
    {
      if !open {
        err := true;
      } else {
        var pos := Offset(LbaValue(lba));
        for i := 0 to SECTOR
          invariant lba == old(lba) && dptr == old(dptr) && buf[..] == old(buf[..])
          invariant file == WriteBytes(old(file), pos, buf[..i])
        {
          assert buf[..i + 1][..i] == buf[..i];
          file := PutAt(file, pos + i, buf[i]);
        }
        assert buf[..SECTOR] == buf[..];
        err := false;
      }
      busy := false;
    }

    /** A bus write of v to $80E0 + reg. */
    method Write(reg: nat, v: byte)
      requires Valid() && reg < 8
      modifies this, buf
      ensures Valid()
      ensures lba == if reg < 4 then old(lba)[reg := v] else old(lba)
      ensures reg != 4 ==> file == old(file) && err == old(err)
      ensures reg == 4 && v == 2 ==>
                (if open then file == WriteSector(old(file), LbaValue(lba), buf[..]) && !err
                 else err && file == old(file))
      ensures reg == 4 && v != 2 ==> file == old(file)
      ensures reg == 4 && v != 1 && v != 2 ==> err == old(err)
      ensures reg == 4 && v == 1 ==> dptr == 0 && (err <==> !open)
      ensures reg == 4 && v != 1 ==> dptr == old(dptr)
      ensures buf[..] ==
              if reg == 6 then old(buf[..])[old(dptr) := v]
              else if reg == 4 && v == 1 && open then Sector(file, LbaValue(lba))
              else old(buf[..])
      ensures reg == 6 ==> dptr == if old(dptr) < 511 then old(dptr) + 1 else 511
      ensures reg == 7 ==> dptr == 0
      ensures reg < 4 || reg == 5 ==> dptr == old(dptr)
    {
      if reg < 4 {
        lba := lba[reg := v];
      } else if reg == REG_CMD {
        busy := true;
        if v == CMD_READ {
          DoRead();
        } else if v == CMD_WRITE {
          DoWrite();
        } else {
          busy := false;
        }
      } else if reg == REG_DATA {
        buf[dptr] := v;
        if dptr < SECTOR - 1 {
          dptr := dptr + 1;
        }
      } else if reg == REG_DPTR {
        dptr := 0;
      }
    }

    /** A bus read of $80E0 + reg. */
    method Read(reg: nat) returns (v: byte)
      requires Valid() && reg < 8
      modifies this
      ensures Valid() && lba == old(lba) && file == old(file) && err == old(err)
      ensures reg < 4 ==> v == lba[reg]
      ensures reg == 5 ==> v == if err then 0x80 else 0
      ensures reg == 6 ==> v == buf[old(dptr)]
      ensures reg == 4 || reg == 7 ==> v == 0xFF
      ensures dptr == if reg == 6 && old(dptr) < 511 then old(dptr) + 1 else old(dptr)
    {
      if reg < 4 {
        v := lba[reg];
      } else if reg == REG_STATUS {
        v := (if err then 0x80 else 0) + (if busy then 1 else 0);
      } else if reg == REG_DATA {
        v := buf[dptr];
        if dptr < SECTOR - 1 {
          dptr := dptr + 1;
        }
      } else {
        v := 0xFF;
      }
    }
  }
}
