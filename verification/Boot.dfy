/**
 The boot ROM (sw/boot/boot.s): the reset path from boot record to kernel, its disk read loop and its
 inline-string printer.
 */
module Boot {
  import opened Bytes
  import opened System
  import opened Machine
  import opened Rotation
  import Disk
  import Block
  import Console
  import KernelIo
  import Loader
  import Yield
  import Trap

  const ZP_PTR := 0
  const ZP_COUNT := 2
  const ZP_LBA := 4
  const BOOT_REC_LBA := 100
  const STAGE_ADDR := 0x200
  const MAX_SECTORS := 63

  // ---- puts_inline ----

  /** RAM outside the pointer cells and the stack page is as before. */
  ghost predicate OnlyPtrAndStack(q: seq<byte>, r: seq<byte>) {
    |q| == |r| == RAM_SIZE && forall a :: 2 <= a < RAM_SIZE && !(0x100 <= a < 0x200) ==> r[a] == q[a]
  }

  method Pha(m: Machine)
    requires m.Core()
    modifies m.ram, m`sp
    ensures m.Core() && m.sp == Wrap(old(m.sp) - 1) && m.ram[..] == old(m.ram[..])[Stack(old(m.sp), 0) := m.a]
  {
    m.ram[0x100 + m.sp] := m.a;
    m.sp := Wrap(m.sp - 1);
  }

  method Pla(m: Machine)
    requires m.Core()
    modifies m`a, m`sp
    ensures m.Core() && m.sp == Wrap(old(m.sp) + 1) && m.a == m.ram[Stack(old(m.sp), 1)]
  {
    m.sp := Wrap(m.sp + 1);
    m.a := m.ram[0x100 + m.sp];
  }

  /** Lines 268-280: one character to both devices, kept on the stack during the two waits. */
  method PutBoth(m: Machine)
    requires m.Valid()
    modifies m.ram, m.con, m`a, m`sp
    ensures m.Valid() && m.sp == old(m.sp) && m.a == old(m.a) && OnlyPtrAndStack(old(m.ram[..]), m.ram[..])
    ensures m.Ptr(ZP_PTR) == old(m.Ptr(ZP_PTR))
    ensures KernelIo.Printed(old(m.con.Snap()), m.con.Snap(), [m.a], [m.a])
  {
    ghost var c := m.a;
    Yield.StackBack(m.sp);
    Pha(m);
    KernelIo.AwaitTx(m.con);
    KernelIo.PrintedNothing(old(m.con.Snap()), m.con.Snap());
    Pla(m);
    ghost var waited := m.con.Snap();
    KernelIo.SendTx(m.con, m.a);
    KernelIo.PrintedThen(old(m.con.Snap()), waited, m.con.Snap(), [], [], [c], []);
    Pha(m);
    ghost var sent := m.con.Snap();
    Pla(m);
    KernelIo.KGputc(m.con, m.a);
    KernelIo.PrintedThen(old(m.con.Snap()), sent, m.con.Snap(), [] + [c], [] + [], [], [c]);
    assert [] + [c] + [] == [c] && [] + [] + [c] == [c];
  }

  /** Lines 281-284: the next character, the pointer's high byte bumped when Y wraps. */
  method NextChar(m: Machine, code: seq<byte>)
    requires m.Core() && m.Ptr(ZP_PTR) + m.y + 1 < |code| <= 0x1_0000
    modifies m.ram, m`a, m`y
    ensures m.Core() && m.Ptr(ZP_PTR) + m.y == old(m.Ptr(ZP_PTR)) + old(m.y) + 1
    ensures m.a == code[m.Ptr(ZP_PTR) + m.y] && OnlyPtrAndStack(old(m.ram[..]), m.ram[..])
  {
    m.y := Wrap(m.y + 1);
    if m.y == 0 {
      m.ram[ZP_PTR + 1] := m.ram[ZP_PTR + 1] + 1;
    }
    m.a := code[m.Ptr(ZP_PTR) + m.y];
  }

  /** JSR puts_inline and its first four instructions. */
  method EnterInline(m: Machine, ret: word)
    requires m.Core()
    modifies m.ram, m`a, m`sp
    ensures m.Core() && m.sp == old(m.sp) && m.Ptr(ZP_PTR) == ret && OnlyPtrAndStack(old(m.ram[..]), m.ram[..])
  {
    Yield.StackBack(m.sp);
    m.Jsr(ret);
    PopReturn(m, ret);
  }

  /** n characters of the string at ret + 1 have been printed, and A holds the next byte. */
  ghost predicate Midway(code: seq<byte>, ret: word, n: nat, ram: Ram, con: Console.Port, ram': Ram, con': Console.Port,
      a: byte, y: byte)
    requires con.Valid() && con'.Valid()
  {
    var text := CString(code, ret + 1);
    && n <= |text| && ret + 1 + |text| < |code| <= 0x1_0000
    && Word(ram'[ZP_PTR], ram'[ZP_PTR + 1]) + y == ret + 1 + n && a == code[ret + 1 + n]
    && OnlyPtrAndStack(ram, ram') && KernelIo.Printed(con, con', text[..n], text[..n])
  }

  lemma {:induction false} MidwayEnds(code: seq<byte>, ret: word, n: nat, ram: Ram, con: Console.Port, ram': Ram,
      con': Console.Port, a: byte, y: byte)
    requires con.Valid() && con'.Valid() && Midway(code, ret, n, ram, con, ram', con', a, y)
    ensures a == 0 <==> n == |CString(code, ret + 1)|
    ensures a != 0 ==> CString(code, ret + 1)[n] == a
    ensures a == 0 ==> CString(code, ret + 1)[..n] == CString(code, ret + 1)
  {
    hide OnlyPtrAndStack, KernelIo.Printed;
    KernelIo.CStringStep(code, ret + 1, ret + 1 + n);
  }

  /** One round of the loop. */
  method PrintOne(m: Machine, code: seq<byte>, ghost ret: word, ghost n: nat, ghost ram: Ram, ghost con: Console.Port)
    requires m.Valid() && con.Valid() && m.a != 0
    requires Midway(code, ret, n, ram, con, m.ram[..], m.con.Snap(), m.a, m.y)
    modifies m.ram, m.con, m`a, m`y, m`sp
    ensures m.Valid() && m.sp == old(m.sp) && Midway(code, ret, n + 1, ram, con, m.ram[..], m.con.Snap(), m.a, m.y)
  {
    hide OnlyPtrAndStack, KernelIo.Printed, CString;
    ghost var text, c := CString(code, ret + 1), m.a;
    MidwayEnds(code, ret, n, ram, con, m.ram[..], m.con.Snap(), m.a, m.y);
    ghost var con1, ram1 := m.con.Snap(), m.ram[..];
    PutBoth(m);
    KernelIo.PrintedThen(con, con1, m.con.Snap(), text[..n], text[..n], [c], [c]);
    assert text[..n] + [c] == text[..n + 1];
    ghost var ram2 := m.ram[..];
    NextChar(m, code);
    OnlyTransitive(ram, ram1, ram2);
    OnlyTransitive(ram, ram2, m.ram[..]);
  }

  /** puts_inline, called with `ret` (the address of the JSR's last byte) on the stack, over the code
      memory `code`: prints the string that starts at ret + 1 and returns behind its NUL, for any
      length, with the stack balanced. */
  method PutsInline(m: Machine, code: seq<byte>, ret: word) returns (pc: word)
    requires m.Valid() && |code| <= 0x1_0000 && ret + 1 + |CString(code, ret + 1)| < |code|
    modifies m.ram, m.con, m`a, m`x, m`y, m`sp
    ensures m.Valid() && m.sp == old(m.sp) && OnlyPtrAndStack(old(m.ram[..]), m.ram[..])
    ensures var text := CString(code, ret + 1);
            KernelIo.Printed(old(m.con.Snap()), m.con.Snap(), text, text) && pc == WrapWord(ret + 1 + |text| + 1)
  {
    hide OnlyPtrAndStack, KernelIo.Printed, CString, Midway;
    ghost var text, n, ram, con := CString(code, ret + 1), 0, m.ram[..], m.con.Snap();
    EnterInline(m, ret);
    KernelIo.PrintedNothing(con, con);
    m.y := 1;
    m.a := code[m.Ptr(ZP_PTR) + m.y];
    MidwayStart(code, ret, ram, con, m.ram[..], m.a, m.y);
    while m.a != 0
      invariant m.Valid() && m.sp == old(m.sp) && n <= |text|
      invariant Midway(code, ret, n, ram, con, m.ram[..], m.con.Snap(), m.a, m.y)
      decreases |text| - n
    {
      MidwayEnds(code, ret, n, ram, con, m.ram[..], m.con.Snap(), m.a, m.y);
      PrintOne(m, code, ret, n, ram, con);
      n := n + 1;
    }
    MidwayEnds(code, ret, n, ram, con, m.ram[..], m.con.Snap(), m.a, m.y);
    MidwayParts(code, ret, n, ram, con, m.ram[..], m.con.Snap(), m.a, m.y);
    ghost var ram1 := m.ram[..];
    pc := PushReturn(m);
    OnlyTransitive(ram, ram1, m.ram[..]);
  }

  lemma {:induction false} MidwayStart(code: seq<byte>, ret: word, ram: Ram, con: Console.Port, ram': Ram, a: byte,
      y: byte)
    requires con.Valid() && ret + 1 + |CString(code, ret + 1)| < |code| <= 0x1_0000 && OnlyPtrAndStack(ram, ram')
    requires Word(ram'[ZP_PTR], ram'[ZP_PTR + 1]) == ret && y == 1 && a == code[ret + 1]
    ensures Midway(code, ret, 0, ram, con, ram', con, a, y)
  {
  }

  lemma {:induction false} MidwayParts(code: seq<byte>, ret: word, n: nat, ram: Ram, con: Console.Port, ram': Ram,
      con': Console.Port, a: byte, y: byte)
    requires con.Valid() && con'.Valid() && Midway(code, ret, n, ram, con, ram', con', a, y)
    ensures Word(ram'[ZP_PTR], ram'[ZP_PTR + 1]) + y == ret + 1 + n < 0x1_0000
    ensures OnlyPtrAndStack(ram, ram')
    ensures KernelIo.Printed(con, con', CString(code, ret + 1)[..n], CString(code, ret + 1)[..n])
  {
  }

  lemma {:induction false} OnlyTransitive(p: Ram, q: Ram, r: Ram)
    requires OnlyPtrAndStack(p, q)
    ensures OnlyPtrAndStack(q, r) ==> OnlyPtrAndStack(p, r)
  {
  }

  /** Lines 259-262. */
  method PopReturn(m: Machine, ghost ret: word)
    requires m.Core() && m.ram[Stack(m.sp, 1)] == Lo(ret) && m.ram[Stack(m.sp, 2)] == Hi(ret)
    modifies m.ram, m`a, m`sp
    ensures m.Core() && m.sp == Wrap(old(m.sp) + 2) && m.Ptr(ZP_PTR) == ret
    ensures OnlyPtrAndStack(old(m.ram[..]), m.ram[..])
  {
    Trap.StackUp(m.sp);
    Pla(m);
    m.ram[ZP_PTR] := m.a;
    Pla(m);
    m.ram[ZP_PTR + 1] := m.a;
  }

  /** Lines 285-297: the address of the NUL as return address, high byte first, and RTS. */
  method PushReturn(m: Machine) returns (pc: word)
    requires m.Core() && m.Ptr(ZP_PTR) + m.y < 0x1_0000
    modifies m.ram, m`a, m`x, m`sp
    ensures m.Core() && m.sp == old(m.sp) && OnlyPtrAndStack(old(m.ram[..]), m.ram[..])
    ensures pc == WrapWord(old(m.Ptr(ZP_PTR)) + m.y + 1)
  {
    Yield.StackBack(m.sp);
    var sum := m.y + m.ram[ZP_PTR];
    var carry := if sum < 0x100 then 0 else 1;
    m.a := Wrap(sum);
    m.x := m.a;
    m.a := m.ram[ZP_PTR + 1];
    m.a := Wrap(m.a + carry);
    Pha(m);
    m.a := m.x;
    Pha(m);
    var ret := m.Rts();
    pc := WrapWord(ret as int + 1);
  }

  // ---- Zero-page arithmetic of the load loop ----

  /** The 32-bit LBA in zero page. */
  function ZpLba(ram: seq<byte>): nat
    requires |ram| == RAM_SIZE
  {
    Disk.LbaValue(ram[ZP_LBA..ZP_LBA + 4])
  }

  /** Lines 158-164: increment with carry through four bytes, stopping at the first that does not wrap. */
  method IncLba(m: Machine)
    requires m.Core()
    modifies m.ram
    ensures m.Core() && ZpLba(m.ram[..]) == (ZpLba(old(m.ram[..])) + 1) % 0x1_0000_0000
    ensures forall a :: 0 <= a < RAM_SIZE && !(ZP_LBA <= a < ZP_LBA + 4) ==> m.ram[a] == old(m.ram[a])
  {
    ghost var q := m.ram[ZP_LBA..ZP_LBA + 4];
    m.ram[ZP_LBA] := Wrap(m.ram[ZP_LBA] as int + 1);
    if m.ram[ZP_LBA] == 0 {
      m.ram[ZP_LBA + 1] := Wrap(m.ram[ZP_LBA + 1] as int + 1);
      if m.ram[ZP_LBA + 1] == 0 {
        m.ram[ZP_LBA + 2] := Wrap(m.ram[ZP_LBA + 2] as int + 1);
        if m.ram[ZP_LBA + 2] == 0 {
          m.ram[ZP_LBA + 3] := Wrap(m.ram[ZP_LBA + 3] as int + 1);
        }
      }
    }
    Incremented(q, m.ram[ZP_LBA..ZP_LBA + 4]);
  }

  /** Little-endian increment. */
  lemma {:induction false} Incremented(q: seq<byte>, r: seq<byte>)
    requires |q| == |r| == 4
    requires r[0] == Wrap(q[0] as int + 1)
    requires r[1] == if r[0] == 0 then Wrap(q[1] as int + 1) else q[1]
    requires r[2] == if r[0] == 0 && r[1] == 0 then Wrap(q[2] as int + 1) else q[2]
    requires r[3] == if r[0] == 0 && r[1] == 0 && r[2] == 0 then Wrap(q[3] as int + 1) else q[3]
    ensures Disk.LbaValue(r) == (Disk.LbaValue(q) + 1) % 0x1_0000_0000
  {
    if Disk.LbaValue(q) == 0xFFFF_FFFF {
      assert Disk.LbaValue(r) == 0;
    } else {
      assert Disk.LbaValue(r) == Disk.LbaValue(q) + 1;
    }
  }

  /** Lines 168-172: 16-bit decrement, the high byte first when the low one is zero. */
  method DecCount(m: Machine)
    requires m.Core() && m.Ptr(ZP_COUNT) > 0
    modifies m.ram
    ensures m.Core() && m.Ptr(ZP_COUNT) == old(m.Ptr(ZP_COUNT)) - 1
    ensures forall a :: 0 <= a < RAM_SIZE && !(ZP_COUNT <= a < ZP_COUNT + 2) ==> m.ram[a] == old(m.ram[a])
  {
    if m.ram[ZP_COUNT] == 0 {
      m.ram[ZP_COUNT + 1] := Wrap(m.ram[ZP_COUNT + 1] as int - 1);
    }
    m.ram[ZP_COUNT] := Wrap(m.ram[ZP_COUNT] as int - 1);
  }

  // ---- The disk read ----

  /** One round of @pg_loop's body: LDA DISK_DATA, STA (ZP_PTR),Y. */
  method StageByte(m: Machine)
    requires m.Valid() && 0x200 <= m.Ptr(ZP_PTR) + m.y < RAM_SIZE
    modifies m.ram, m.disk, m`a
    ensures m.Valid() && m.Ptr(ZP_PTR) == old(m.Ptr(ZP_PTR))
    ensures m.ram[..] == old(m.ram[..])[m.Ptr(ZP_PTR) + m.y := m.disk.buf[old(m.disk.dptr)]]
    ensures m.disk.file == old(m.disk.file) && m.disk.lba == old(m.disk.lba)
    ensures m.disk.dptr == if old(m.disk.dptr) < 511 then old(m.disk.dptr) + 1 else 511
  {
    m.a := m.disk.Read(Disk.REG_DATA);
    m.ram[m.Ptr(ZP_PTR) + m.y] := m.a;
  }

  /** The inner loop: a page of 256 bytes, until Y wraps. */
  method StagePage(m: Machine)
    requires m.Valid() && 0x200 <= m.Ptr(ZP_PTR) && m.Ptr(ZP_PTR) + 0x100 <= RAM_SIZE && m.y == 0
    requires m.disk.dptr + 0x100 <= 512
    modifies m.ram, m.disk, m`a, m`y
    ensures m.Valid() && m.Ptr(ZP_PTR) == old(m.Ptr(ZP_PTR)) && m.disk.file == old(m.disk.file) && m.y == 0
    ensures m.disk.dptr == if old(m.disk.dptr) < 0x100 then old(m.disk.dptr) + 0x100 else 511
    ensures m.ram[..] == Blit(old(m.ram[..]), m.Ptr(ZP_PTR), m.disk.buf[old(m.disk.dptr)..old(m.disk.dptr) + 0x100])
  {
    ghost var start, dst, d := m.ram[..], m.Ptr(ZP_PTR), m.disk.dptr;
    ghost var data := m.disk.buf[d..d + 0x100];
    ghost var n := 0;
    assert m.ram[..] == Blit(start, dst, data[..0]);
    while true
      invariant m.Valid() && m.y == n < 0x100 && m.disk.dptr == d + n && m.Ptr(ZP_PTR) == dst
      invariant m.disk.file == old(m.disk.file)
      invariant m.ram[..] == Blit(start, dst, data[..n])
      decreases 0x100 - n
    {
      StageByte(m);
      Block.BlitGrows(start, dst, data, n);
      n := n + 1;
      m.y := Wrap(m.y + 1);
      if m.y == 0 {
        break;
      }
    }
    assert data[..n] == data;
  }

  method MovePtr(m: Machine, k: int)
    requires m.Valid() && 0 <= m.ram[ZP_PTR + 1] as int + k < 0x100
    modifies m.ram
    ensures m.Valid() && m.ram[..] == old(m.ram[..])[ZP_PTR + 1 := old(m.ram[ZP_PTR + 1]) as int + k]
    ensures m.Ptr(ZP_PTR) == old(m.Ptr(ZP_PTR)) + 0x100 * k
  {
    m.ram[ZP_PTR + 1] := m.ram[ZP_PTR + 1] as int + k;
  }

  /** DEC ZP_PTR+1, twice. */
  method DecTwice(m: Machine)
    requires m.Valid() && 2 <= m.ram[ZP_PTR + 1]
    modifies m.ram
    ensures m.Valid() && m.ram[..] == old(m.ram[..])[ZP_PTR + 1 := old(m.ram[ZP_PTR + 1]) - 2]
    ensures m.Ptr(ZP_PTR) == old(m.Ptr(ZP_PTR)) - 0x200
  {
    MovePtr(m, -1);
    MovePtr(m, -1);
  }

  /** RAM with the first n bytes of a sector staged and the pointer's high byte moved on. */
  function Partly(start: Ram, dst: nat, data: seq<byte>, n: nat, hi: byte): Ram
    requires n <= |data|
  {
    Blit(start, dst, data[..n])[ZP_PTR + 1 := hi]
  }

  lemma {:induction false} OnePageMore(start: Ram, dst: nat, data: seq<byte>, n: nat, hi: byte, hi': byte)
    requires 2 <= dst && n + 0x100 <= |data| && dst + |data| <= RAM_SIZE
    ensures Blit(Partly(start, dst, data, n, hi), dst + n, data[n..n + 0x100])[ZP_PTR + 1 := hi'] ==
            Partly(start, dst, data, n + 0x100, hi')
  {
  }

  lemma {:induction false} PartlyEnds(start: Ram, dst: nat, data: seq<byte>, hi: byte)
    requires 2 <= dst && dst + |data| <= RAM_SIZE
    ensures Partly(start, dst, data, 0, start[ZP_PTR + 1]) == start
    ensures Partly(start, dst, data, |data|, hi)[ZP_PTR + 1 := start[ZP_PTR + 1]] == Blit(start, dst, data)
  {
    assert data[..|data|] == data;
  }

  /** The 512-byte transfer: X counts two pages, the pointer in RAM bumped at each and put back by two
      DECs at the end. */
  method StageSector(m: Machine)
    requires m.Valid() && 0x200 <= m.Ptr(ZP_PTR) && m.Ptr(ZP_PTR) + 512 <= RAM_SIZE && m.disk.dptr == 0
    modifies m.ram, m.disk, m`a, m`x, m`y
    ensures m.Valid() && m.disk.file == old(m.disk.file) && m.Ptr(ZP_PTR) == old(m.Ptr(ZP_PTR))
    ensures m.ram[..] == Blit(old(m.ram[..]), old(m.Ptr(ZP_PTR)), m.disk.buf[..])
  {
    hide Blit, Partly;
    ghost var start, dst, data := m.ram[..], m.Ptr(ZP_PTR), m.disk.buf[..];
    PartlyEnds(start, dst, data, start[ZP_PTR + 1]);
    ghost var n := 0;
    m.y := 0;
    m.x := 2;
    while true
      invariant m.Valid() && 1 <= m.x <= 2 && n == 0x100 * (2 - m.x) && m.y == 0 && m.disk.dptr == n
      invariant m.disk.file == old(m.disk.file) && m.Ptr(ZP_PTR) == dst + n
      invariant m.ram[..] == Partly(start, dst, data, n, m.ram[ZP_PTR + 1])
      decreases m.x
    {
      n := StageOnePage(m, start, dst, data, n);
      m.x := m.x - 1;
      if m.x == 0 {
        break;
      }
    }
    ghost var hi := m.ram[ZP_PTR + 1];
    DecTwice(m);
    PartlyEnds(start, dst, data, hi);
  }

  /** One round of the outer loop: a page, and the pointer's high byte. */
  method StageOnePage(m: Machine, ghost start: Ram, ghost dst: nat, ghost data: seq<byte>, ghost n: nat)
    returns (ghost n': nat)
    requires m.Valid() && 0x200 <= dst && dst + 512 <= RAM_SIZE && m.y == 0 && (n == 0 || n == 0x100)
    requires m.disk.dptr == n
    requires m.Ptr(ZP_PTR) == dst + n && data == m.disk.buf[..]
    requires m.ram[..] == Partly(start, dst, data, n, m.ram[ZP_PTR + 1])
    modifies m.ram, m.disk, m`a, m`y
    ensures m.Valid() && m.disk.file == old(m.disk.file) && m.y == 0 && n' == n + 0x100
    ensures m.Ptr(ZP_PTR) == dst + n' && m.disk.dptr == if n == 0 then n' else 511
    ensures m.ram[..] == Partly(start, dst, data, n', m.ram[ZP_PTR + 1])
  {
    hide Blit, Partly;
    ghost var hi := m.ram[ZP_PTR + 1];
    StagePage(m);
    MovePtr(m, 1);
    n' := n + 0x100;
    assert data[n..n'] == m.disk.buf[n..n'];
    OnePageMore(start, dst, data, n, hi, m.ram[ZP_PTR + 1]);
  }

  // ---- What the ROM can read ----

  /** The image, or with none open the controller's buffer as it is: the ROM does not look at the error
      flag. */
  datatype Medium = Image(file: seq<byte>) | Stale(buf: seq<byte>)

  ghost function MediumOf(c: Disk.Controller): Medium
    reads c, c.buf
  {
    if c.open then Image(c.file) else Stale(c.buf[..])
  }

  function Seen(d: Medium, lba: nat): (sector: seq<byte>)
    ensures |sector| == 512
  {
    match d
    case Image(file) => Disk.Sector(file, lba)
    case Stale(buf) => if |buf| == 512 then buf else Disk.Zeros(512)
  }

  /** Byte off of the sectors from lba on. */
  function ByteAt(d: Medium, lba: nat, off: nat): byte {
    Seen(d, (lba + off / 512) % 0x1_0000_0000)[off % 512]
  }

  /** disk_read_to_ptr: the sector at the controller's LBA, no error check. */
  method DiskReadToPtr(m: Machine)
    requires m.Valid() && 0x200 <= m.Ptr(ZP_PTR) && m.Ptr(ZP_PTR) + 512 <= RAM_SIZE
    modifies m.ram, m.disk, m.disk.buf, m`a, m`x, m`y
    ensures m.Valid() && MediumOf(m.disk) == old(MediumOf(m.disk))
    ensures m.ram[..] == Blit(old(m.ram[..]), old(m.Ptr(ZP_PTR)),
        Seen(MediumOf(m.disk), Disk.LbaValue(old(m.disk.lba))))
  {
    m.disk.Write(Disk.REG_CMD, Disk.CMD_READ);
    m.a := m.disk.Read(Disk.REG_STATUS);
    assert m.a % 2 == 0;  // not busy: the wait ends at its first read
    m.disk.Write(Disk.REG_DPTR, 0);
    StageSector(m);
  }

  // ---- The load loop ----

  /** Zero page above the ROM's own cells is as it was. */
  ghost predicate LowKept(q: seq<byte>, r: seq<byte>) {
    |q| == |r| == RAM_SIZE && forall a :: 8 <= a < 0x100 ==> r[a] == q[a]
  }

  /** The first b sectors are at $0200, and RAM above them is as at the start. */
  ghost predicate Staged(start: Ram, ram: Ram, d: Medium, lba: nat, b: nat) {
    && LowKept(start, ram)
    && forall a :: STAGE_ADDR <= a < RAM_SIZE ==>
      ram[a] == if a < STAGE_ADDR + 512 * b then ByteAt(d, lba, a - STAGE_ADDR) else start[a]
  }

  lemma {:induction false} StagedNext(start: Ram, before: Ram, read: Ram, after: Ram, d: Medium, lba: nat, b: nat)
    requires b < MAX_SECTORS && Staged(start, before, d, lba, b)
    requires read == Blit(before, STAGE_ADDR + 512 * b, Seen(d, (lba + b) % 0x1_0000_0000))
    requires forall a :: 8 <= a < RAM_SIZE ==> after[a] == read[a]
    ensures Staged(start, after, d, lba, b + 1)
  {
    forall a | STAGE_ADDR + 512 * b <= a < STAGE_ADDR + 512 * b + 512
      ensures after[a] == ByteAt(d, lba, a - STAGE_ADDR)
    {
      assert (a - STAGE_ADDR) / 512 == b && (a - STAGE_ADDR) % 512 == a - (STAGE_ADDR + 512 * b);
    }
  }

  /** Lines 141-149: the LBA registers from zero page, then the read. */
  method ReadAtZpLba(m: Machine)
    requires m.Valid() && 0x200 <= m.Ptr(ZP_PTR) && m.Ptr(ZP_PTR) + 512 <= RAM_SIZE
    modifies m.ram, m.disk, m.disk.buf, m`a, m`x, m`y
    ensures m.Valid() && MediumOf(m.disk) == old(MediumOf(m.disk))
    ensures m.ram[..] == Blit(old(m.ram[..]), old(m.Ptr(ZP_PTR)), Seen(MediumOf(m.disk), ZpLba(old(m.ram[..]))))
  {
    m.disk.Write(0, m.ram[ZP_LBA]);
    m.disk.Write(1, m.ram[ZP_LBA + 1]);
    m.disk.Write(2, m.ram[ZP_LBA + 2]);
    m.disk.Write(3, m.ram[ZP_LBA + 3]);
    assert m.disk.lba == m.ram[..][ZP_LBA..ZP_LBA + 4];
    DiskReadToPtr(m);
  }

  /** The three zero-page variables of the loop after b of n rounds. */
  ghost predicate Counters(ram: Ram, lba: nat, n: nat, b: nat) {
    && Word(ram[ZP_PTR], ram[ZP_PTR + 1]) == STAGE_ADDR + 512 * b
    && Word(ram[ZP_COUNT], ram[ZP_COUNT + 1]) == n - b
    && ZpLba(ram) == (lba + b) % 0x1_0000_0000
  }

  /** Lines 152-172: pointer + 512, LBA + 1, count - 1. */
  method Advance(m: Machine, ghost lba: nat, ghost n: nat, ghost b: nat)
    requires m.Valid() && b < n <= MAX_SECTORS && Counters(m.ram[..], lba, n, b)
    modifies m.ram
    ensures m.Valid() && Counters(m.ram[..], lba, n, b + 1)
    ensures forall a :: 8 <= a < RAM_SIZE ==> m.ram[a] == old(m.ram[a])
  {
    ghost var before := m.ram[..];
    NextLba(lba, b);
    MovePtr(m, 2);
    ghost var moved := m.ram[..];
    assert moved[ZP_LBA..ZP_LBA + 4] == before[ZP_LBA..ZP_LBA + 4];
    IncLba(m);
    ghost var inc := m.ram[..];
    DecCount(m);
    assert m.ram[..][ZP_LBA..ZP_LBA + 4] == inc[ZP_LBA..ZP_LBA + 4];
  }

  lemma {:induction false} CountersAfterRead(q: Ram, lba: nat, n: nat, b: nat, data: seq<byte>)
    requires b < n <= MAX_SECTORS && Counters(q, lba, n, b)
    ensures Word(q[ZP_PTR], q[ZP_PTR + 1]) == STAGE_ADDR + 512 * b && ZpLba(q) == (lba + b) % 0x1_0000_0000
    ensures Counters(Blit(q, STAGE_ADDR + 512 * b, data), lba, n, b)
  {
    assert Blit(q, STAGE_ADDR + 512 * b, data)[ZP_LBA..ZP_LBA + 4] == q[ZP_LBA..ZP_LBA + 4];
  }

  /** One round of the loop. */
  method LoadOne(m: Machine, ghost start: Ram, ghost lba: nat, ghost n: nat, ghost b: nat)
    requires m.Valid() && b < n <= MAX_SECTORS && Counters(m.ram[..], lba, n, b)
    requires Staged(start, m.ram[..], MediumOf(m.disk), lba, b)
    modifies m.ram, m.disk, m.disk.buf, m`a, m`x, m`y
    ensures m.Valid() && MediumOf(m.disk) == old(MediumOf(m.disk))
    ensures Counters(m.ram[..], lba, n, b + 1) && Staged(start, m.ram[..], MediumOf(m.disk), lba, b + 1)
  {
    hide Staged, ZpLba, Counters, Blit;
    ghost var before, d := m.ram[..], MediumOf(m.disk);
    CountersAfterRead(before, lba, n, b, Seen(d, (lba + b) % 0x1_0000_0000));
    ReadAtZpLba(m);
    ghost var read := m.ram[..];
    Advance(m, lba, n, b);
    StagedNext(start, before, read, m.ram[..], d, lba, b);
  }

  lemma {:induction false} NextLba(lba: nat, b: nat)
    ensures ((lba + b) % 0x1_0000_0000 + 1) % 0x1_0000_0000 == (lba + b + 1) % 0x1_0000_0000
  {
  }

  lemma {:induction false} NothingStaged(start: Ram, d: Medium, lba: nat)
    ensures Staged(start, start, d, lba, 0)
  {
  }

  lemma {:induction false} CountLeft(ram: Ram, lba: nat, n: nat, b: nat)
    requires Counters(ram, lba, n, b)
    ensures ram[ZP_COUNT] == ram[ZP_COUNT + 1] == 0 <==> b == n
  {
  }

  method LoadLoop(m: Machine, ghost lba: nat, ghost n: nat)
    requires m.Valid() && n <= MAX_SECTORS && Counters(m.ram[..], lba, n, 0)
    modifies m.ram, m.disk, m.disk.buf, m`a, m`x, m`y
    ensures m.Valid() && MediumOf(m.disk) == old(MediumOf(m.disk))
    ensures Staged(old(m.ram[..]), m.ram[..], MediumOf(m.disk), lba, n)
  {
    hide Staged, Counters, ZpLba;
    ghost var b := 0;
    NothingStaged(m.ram[..], MediumOf(m.disk), lba);
    CountLeft(m.ram[..], lba, n, b);
    while m.ram[ZP_COUNT] != 0 || m.ram[ZP_COUNT + 1] != 0
      invariant m.Valid() && b <= n && MediumOf(m.disk) == old(MediumOf(m.disk))
      invariant Counters(m.ram[..], lba, n, b) && Staged(old(m.ram[..]), m.ram[..], MediumOf(m.disk), lba, b)
      invariant m.ram[ZP_COUNT] == m.ram[ZP_COUNT + 1] == 0 <==> b == n
      decreases n - b
    {
      LoadOne(m, old(m.ram[..]), lba, n, b);
      b := b + 1;
      CountLeft(m.ram[..], lba, n, b);
    }
  }

  // ---- reset ----

  datatype Outcome = BadRecord | BadBbx | Jump(entry: word)

  predicate RecordOk(rec: seq<byte>)
    requires |rec| == 512
  {
    rec[0] == 66 && rec[1] == 66 && rec[2] == 66 && rec[3] == 82
  }

  function KernelLba(rec: seq<byte>): nat
    requires |rec| == 512
  {
    Disk.LbaValue(rec[4..8])
  }

  function KernelCount(rec: seq<byte>): nat
    requires |rec| == 512
  {
    Word(rec[8], rec[9])
  }

  function BootRecord(d: Medium): (rec: seq<byte>)
    ensures |rec| == 512
  {
    Seen(d, BOOT_REC_LBA)
  }

  /** The image loaded at $0200, all of it. */
  ghost predicate KernelLoaded(ram: Ram, d: Medium) {
    var rec := BootRecord(d);
    forall off :: 0 <= off < 512 * KernelCount(rec) && STAGE_ADDR + off < RAM_SIZE ==>
      ram[STAGE_ADDR + off] == ByteAt(d, KernelLba(rec), off)
  }

  ghost predicate StageIs(ram: Ram, sector: seq<byte>)
    requires |sector| == 512
  {
    ram[STAGE_ADDR..STAGE_ADDR + 512] == sector
  }

  method Say(m: Machine, s: string)
    requires m.Valid() && |s| < 0x1000
    modifies m.ram, m.con, m`a, m`x, m`y, m`sp
    ensures m.Valid() && m.sp == old(m.sp) && OnlyPtrAndStack(old(m.ram[..]), m.ram[..])
    ensures KernelIo.Printed(old(m.con.Snap()), m.con.Snap(), KernelIo.Shown(s), KernelIo.Shown(s))
  {
    var code := [0x81] + KernelIo.Literal(s);
    KernelIo.CStringEnds(code, 1, |s| + 1);
    KernelIo.CStringBehind(0x81, KernelIo.Literal(s), 0);
    var pc := PutsInline(m, code, 0);
  }

  /** Lines 78-84: the boot record to $0200. */
  method ReadRecord(m: Machine)
    requires m.Valid()
    modifies m.ram, m.disk, m.disk.buf, m`a, m`x, m`y
    ensures m.Valid() && MediumOf(m.disk) == old(MediumOf(m.disk))
    ensures StageIs(m.ram[..], BootRecord(MediumOf(m.disk))) && LowKept(old(m.ram[..]), m.ram[..])
  {
    m.disk.Write(0, BOOT_REC_LBA % 0x100);
    m.disk.Write(1, BOOT_REC_LBA / 0x100);
    m.disk.Write(2, 0);
    m.disk.Write(3, 0);
    assert m.disk.lba == [100, 0, 0, 0] && Disk.LbaValue([100, 0, 0, 0]) == BOOT_REC_LBA;
    DiskReadToStage(m, BootRecord(MediumOf(m.disk)));
  }

  /** disk_read_to_stage. */
  method DiskReadToStage(m: Machine, ghost sector: seq<byte>)
    requires m.Valid() && sector == Seen(MediumOf(m.disk), Disk.LbaValue(m.disk.lba))
    modifies m.ram, m.disk, m.disk.buf, m`a, m`x, m`y
    ensures m.Valid() && MediumOf(m.disk) == old(MediumOf(m.disk))
    ensures StageIs(m.ram[..], sector) && LowKept(old(m.ram[..]), m.ram[..])
  {
    hide StageIs, Blit, Disk.LbaValue, LowKept;
    ghost var start := m.ram[..];
    m.ram[ZP_PTR] := STAGE_ADDR % 0x100;
    m.ram[ZP_PTR + 1] := STAGE_ADDR / 0x100;
    ghost var before := m.ram[..];
    DiskReadToPtr(m);
    BlitStage(start, before, sector);
  }

  lemma {:induction false} BlitStage(start: Ram, ram: Ram, sector: seq<byte>)
    requires |sector| == 512 && forall a :: 8 <= a < 0x100 ==> ram[a] == start[a]
    ensures StageIs(Blit(ram, STAGE_ADDR, sector), sector) && LowKept(start, Blit(ram, STAGE_ADDR, sector))
  {
  }

  /** Lines 109-122: kernel LBA and sector count from the record. */
  method CopyRecord(m: Machine)
    requires m.Core()
    modifies m.ram
    ensures m.Core() && forall a :: 8 <= a < RAM_SIZE ==> m.ram[a] == old(m.ram[a])
    ensures m.ram[..][ZP_LBA..ZP_LBA + 4] == old(m.ram[..])[STAGE_ADDR + 4..STAGE_ADDR + 8]
    ensures m.ram[..][ZP_COUNT..ZP_COUNT + 2] == old(m.ram[..])[STAGE_ADDR + 8..STAGE_ADDR + 10]
  {
    m.ram[ZP_LBA] := m.ram[STAGE_ADDR + 4];
    m.ram[ZP_LBA + 1] := m.ram[STAGE_ADDR + 5];
    m.ram[ZP_LBA + 2] := m.ram[STAGE_ADDR + 6];
    m.ram[ZP_LBA + 3] := m.ram[STAGE_ADDR + 7];
    m.ram[ZP_COUNT] := m.ram[STAGE_ADDR + 8];
    m.ram[ZP_COUNT + 1] := m.ram[STAGE_ADDR + 9];
  }

  lemma {:induction false} RecordCounters(read: Ram, copied: Ram, said: Ram, set_: Ram, rec: seq<byte>)
    requires |rec| == 512 && StageIs(read, rec) && OnlyPtrAndStack(copied, said)
    requires forall a :: 8 <= a < RAM_SIZE ==> copied[a] == read[a]
    requires copied[ZP_LBA..ZP_LBA + 4] == read[STAGE_ADDR + 4..STAGE_ADDR + 8]
    requires copied[ZP_COUNT..ZP_COUNT + 2] == read[STAGE_ADDR + 8..STAGE_ADDR + 10]
    requires set_ == said[ZP_PTR := STAGE_ADDR % 0x100][ZP_PTR + 1 := STAGE_ADDR / 0x100]
    ensures Counters(set_, KernelLba(rec), KernelCount(rec), 0) && StageIs(set_, rec) && LowKept(read, set_)
  {
    assert set_[ZP_LBA..ZP_LBA + 4] == copied[ZP_LBA..ZP_LBA + 4];
    assert rec[4..8] == read[STAGE_ADDR..STAGE_ADDR + 512][4..8] == read[STAGE_ADDR + 4..STAGE_ADDR + 8];
    assert rec[8..10] == read[STAGE_ADDR..STAGE_ADDR + 512][8..10] == read[STAGE_ADDR + 8..STAGE_ADDR + 10];
    var count := copied[ZP_COUNT..ZP_COUNT + 2];
    assert count == rec[8..10];
    assert set_[ZP_COUNT] == count[0] && set_[ZP_COUNT + 1] == count[1];
    assert rec[8..10][0] == rec[8] && rec[8..10][1] == rec[9];
    assert set_[STAGE_ADDR..STAGE_ADDR + 512] == read[STAGE_ADDR..STAGE_ADDR + 512];
  }

  /** Up to the loop: the record's fields, the message, the pointer. */
  method PrepareLoad(m: Machine, ghost rec: seq<byte>)
    requires m.Valid() && |rec| == 512 && StageIs(m.ram[..], rec)
    modifies m.ram, m.con, m`a, m`x, m`y, m`sp
    ensures m.Valid() && m.sp == old(m.sp) && Counters(m.ram[..], KernelLba(rec), KernelCount(rec), 0)
    ensures StageIs(m.ram[..], rec) && LowKept(old(m.ram[..]), m.ram[..])
    ensures KernelIo.Printed(old(m.con.Snap()), m.con.Snap(), KernelIo.Shown("Loading kernel\r\n"),
        KernelIo.Shown("Loading kernel\r\n"))
  {
    hide StageIs, OnlyPtrAndStack, KernelIo.Printed, Counters, KernelIo.Shown, KernelLba, KernelCount;
    ghost var read := m.ram[..];
    CopyRecord(m);
    ghost var copied := m.ram[..];
    Say(m, "Loading kernel\r\n");
    ghost var said := m.ram[..];
    m.ram[ZP_PTR] := STAGE_ADDR % 0x100;
    m.ram[ZP_PTR + 1] := STAGE_ADDR / 0x100;
    RecordCounters(read, copied, said, m.ram[..], rec);
  }

  /** From a good boot record at $0200 to the loaded image. */
  method LoadKernel(m: Machine)
    requires m.Valid() && StageIs(m.ram[..], BootRecord(MediumOf(m.disk)))
    requires KernelCount(BootRecord(MediumOf(m.disk))) <= MAX_SECTORS
    modifies m.ram, m.con, m.disk, m.disk.buf, m`a, m`x, m`y, m`sp
    ensures m.Valid() && m.sp == old(m.sp) && MediumOf(m.disk) == old(MediumOf(m.disk))
    ensures KernelLoaded(m.ram[..], MediumOf(m.disk))
    ensures StageIs(m.ram[..], StageSectorOf(MediumOf(m.disk))) && LowKept(old(m.ram[..]), m.ram[..])
    ensures KernelIo.Printed(old(m.con.Snap()), m.con.Snap(), KernelIo.Shown("Loading kernel\r\n"),
        KernelIo.Shown("Loading kernel\r\n"))
  {
    hide StageIs, KernelIo.Printed, Counters, KernelIo.Shown, KernelLoaded, StageSectorOf, Staged, KernelLba,
        KernelCount, BootRecord;
    ghost var rec := BootRecord(MediumOf(m.disk));
    PrepareLoad(m, rec);
    ghost var start := m.ram[..];
    LoadLoop(m, KernelLba(rec), KernelCount(rec));
    StagedIsLoaded(start, m.ram[..], MediumOf(m.disk));
  }

  /** The sector at $0200 when the header is checked. */
  function StageSectorOf(d: Medium): (sector: seq<byte>)
    ensures |sector| == 512
  {
    var rec := BootRecord(d);
    if KernelCount(rec) == 0 then rec else Seen(d, KernelLba(rec))
  }

  lemma {:induction false} LbaInRange(rec: seq<byte>)
    requires |rec| == 512
    ensures KernelLba(rec) < 0x1_0000_0000
  {
  }

  lemma {:induction false} FirstSector(d: Medium, lba: nat, k: nat)
    requires lba < 0x1_0000_0000 && k < 512
    ensures ByteAt(d, lba, k) == Seen(d, lba)[k]
  {
  }

  lemma {:induction false} StagedIsLoaded(start: Ram, ram: Ram, d: Medium)
    requires KernelCount(BootRecord(d)) <= MAX_SECTORS && StageIs(start, BootRecord(d))
    requires Staged(start, ram, d, KernelLba(BootRecord(d)), KernelCount(BootRecord(d)))
    ensures KernelLoaded(ram, d) && StageIs(ram, StageSectorOf(d)) && LowKept(start, ram)
  {
    hide Loader.ImageByte, KernelLba, KernelCount, BootRecord;
    var rec := BootRecord(d);
    LbaInRange(rec);
    forall k | 0 <= k < 512
      ensures ram[STAGE_ADDR + k] == StageSectorOf(d)[k]
    {
      if KernelCount(rec) > 0 {
        FirstSector(d, KernelLba(rec), k);
      } else {
        StageByteAt(start, rec, k);
      }
    }
    assert ram[STAGE_ADDR..STAGE_ADDR + 512] == StageSectorOf(d);
  }

  /** What a disk image does at reset. */
  function BootOutcome(d: Medium): Outcome {
    if !RecordOk(BootRecord(d)) then BadRecord
    else if !Loader.Magic(StageSectorOf(d)) then BadBbx
    else Jump(Loader.EntryPoint(StageSectorOf(d)))
  }

  /** Everything printed on the way to an outcome. */
  function BootText(out: Outcome): seq<byte> {
    KernelIo.Shown("BB6502 boot ROM\r\n") +
    match out
    case BadRecord => KernelIo.Shown("[ERROR] BAD BOOT RECORD (HALTING)\r\n")
    case BadBbx => KernelIo.Shown("Loading kernel\r\n") + KernelIo.Shown("[ERROR] BAD BBX HEADER (HALTING)\r\n")
    case Jump(_) => KernelIo.Shown("Loading kernel\r\n") + KernelIo.Shown("Jumping to Kernel\r\n")
  }

  /** Lines 62-84: stack, early BRK vector, banner, boot record. */
  method Begin(m: Machine, earlyBrk: word)
    requires m.Valid()
    modifies m, m.ram, m.con, m.disk, m.disk.buf
    ensures m.Valid() && MediumOf(m.disk) == old(MediumOf(m.disk)) && m.sp == 0xFF
    ensures StageIs(m.ram[..], BootRecord(MediumOf(m.disk))) && Trap.Vector(m.ram[..]) == earlyBrk
    ensures KernelIo.Printed(old(m.con.Snap()), m.con.Snap(), KernelIo.Shown("BB6502 boot ROM\r\n"),
        KernelIo.Shown("BB6502 boot ROM\r\n"))
  {
    hide StageIs, OnlyPtrAndStack, KernelIo.Printed, KernelIo.Shown, BootRecord;
    m.x := 0xFF;
    m.sp := m.x;
    m.ram[0xFE] := Lo(earlyBrk);
    m.ram[0xFF] := Hi(earlyBrk);
    ghost var set_ := m.ram[..];
    Say(m, "BB6502 boot ROM\r\n");
    ghost var said := m.ram[..];
    ReadRecord(m);
    VectorStays(set_, said, m.ram[..]);
  }

  lemma {:induction false} VectorStays(q: Ram, r: Ram, s: Ram)
    requires OnlyPtrAndStack(q, r) && LowKept(r, s)
    ensures Trap.Vector(s) == Trap.Vector(q)
  {
  }

  lemma {:induction false} StageByteAt(ram: Ram, sector: seq<byte>, k: nat)
    requires |sector| == 512 && StageIs(ram, sector) && k < 512
    ensures ram[STAGE_ADDR + k] == sector[k]
  {
    assert ram[STAGE_ADDR..STAGE_ADDR + 512][k] == sector[k];
  }

  lemma {:induction false} LoadedKept(q: Ram, r: Ram, d: Medium)
    requires KernelLoaded(q, d) && forall a :: STAGE_ADDR <= a < RAM_SIZE ==> r[a] == q[a]
    ensures KernelLoaded(r, d)
  {
  }

  /** Lines 179-199: the header check, and the jump through ZP_PTR. */
  method Launch(m: Machine, ghost stage: seq<byte>) returns (out: Outcome)
    requires m.Valid() && |stage| == 512 && StageIs(m.ram[..], stage)
    modifies m.ram, m.con, m`a, m`x, m`y, m`sp
    ensures m.Valid() && m.sp == old(m.sp) && forall a :: STAGE_ADDR <= a < RAM_SIZE ==> m.ram[a] == old(m.ram[a])
    ensures LowKept(old(m.ram[..]), m.ram[..])
    ensures out == BadBbx || out.Jump?
    ensures out.Jump? <==> stage[0] == 0x42 && stage[1] == 0x58
    ensures out.Jump? ==> out.entry == stage[4] as int + 0x100 * stage[5] as int
    ensures out == if Loader.Magic(stage) then Jump(Loader.EntryPoint(stage)) else BadBbx
    ensures var text := KernelIo.Shown(if out.Jump? then "Jumping to Kernel\r\n"
                                       else "[ERROR] BAD BBX HEADER (HALTING)\r\n");
            KernelIo.Printed(old(m.con.Snap()), m.con.Snap(), text, text)
  {
    hide StageIs, KernelIo.Printed, KernelIo.Shown;
    StageByteAt(m.ram[..], stage, 0);
    StageByteAt(m.ram[..], stage, 1);
    StageByteAt(m.ram[..], stage, 4);
    StageByteAt(m.ram[..], stage, 5);
    if m.ram[STAGE_ADDR] != 0x42 || m.ram[STAGE_ADDR + 1] != 0x58 {
      Say(m, "[ERROR] BAD BBX HEADER (HALTING)\r\n");
      return BadBbx;
    }
    Say(m, "Jumping to Kernel\r\n");
    m.ram[ZP_PTR] := m.ram[STAGE_ADDR + 4];
    m.ram[ZP_PTR + 1] := m.ram[STAGE_ADDR + 5];
    return Jump(m.Ptr(ZP_PTR));
  }

  lemma {:induction false} PrintKeepsVector(q: Ram, r: Ram)
    requires OnlyPtrAndStack(q, r)
    ensures Trap.Vector(r) == Trap.Vector(q)
  {
  }

  lemma {:induction false} LowKeepsVector(q: Ram, r: Ram, s: Ram)
    requires LowKept(q, r) && LowKept(r, s)
    ensures Trap.Vector(s) == Trap.Vector(q)
  {
  }

  lemma {:induction false} SeenByte(file: seq<byte>, lba: nat, k: nat)
    requires k < 512
    ensures Seen(Image(file), lba)[k] == Disk.At(file, 512 * (lba % 0x80_0000) + k)
  {
    Disk.SectorBytes(file, lba, k);
    hide Disk.Sector;
  }

  /** The boot record in the bytes of an image file, from 51200 on: "BBBR", the kernel's LBA in bytes 4..7
      and its sector count in bytes 8 and 9, least significant first. */
  lemma {:induction false} RecordInBytes(file: seq<byte>)
    ensures var r, rec := (k: nat) => Disk.At(file, 51200 + k) as int, BootRecord(Image(file));
            && KernelLba(rec) == r(4) + 0x100 * r(5) + 0x1_0000 * r(6) + 0x100_0000 * r(7)
            && KernelCount(rec) == r(8) + 0x100 * r(9)
            && (BootOutcome(Image(file)) == BadRecord <==> !(r(0) == r(1) == r(2) == 0x42 && r(3) == 0x52))
  {
    var rec := BootRecord(Image(file));
    forall k: nat | k < 512
      ensures rec[k] == Disk.At(file, 51200 + k)
    {
      SeenByte(file, 100, k);
    }
    assert rec[4..8][0] == rec[4] && rec[4..8][1] == rec[5] && rec[4..8][2] == rec[6] && rec[4..8][3] == rec[7];
    hide BootRecord, Disk.At;
  }

  lemma {:induction false} StageDecides(d: Medium)
    requires BootOutcome(d) != BadRecord
    ensures var h, out := StageSectorOf(d), BootOutcome(d);
            && (out == BadBbx <==> !(h[0] == 0x42 && h[1] == 0x58))
            && (out.Jump? ==> out.entry == h[4] as int + 0x100 * h[5] as int)
  {
    hide BootRecord, StageSectorOf;
  }

  /** What reset does past a good record, in the bytes of the header: the kernel's first sector, or, when
      the count is 0, the boot record itself. */
  lemma {:induction false} OutcomeInBytes(file: seq<byte>)
    ensures var rec, out := BootRecord(Image(file)), BootOutcome(Image(file));
            var at := if KernelCount(rec) == 0 then 51200 else 512 * (KernelLba(rec) % 0x80_0000);
            var h := (k: nat) => Disk.At(file, at + k) as int;
            out != BadRecord ==>
              && (out == BadBbx <==> !(h(0) == 0x42 && h(1) == 0x58))
              && (out.Jump? ==> out.entry == h(4) + 0x100 * h(5))
  {
    hide BootOutcome, Disk.At, KernelLba, KernelCount;
    if BootOutcome(Image(file)) != BadRecord {
      StageDecides(Image(file));
      var rec := BootRecord(Image(file));
      var lba := if KernelCount(rec) == 0 then 100 else KernelLba(rec);
      assert StageSectorOf(Image(file)) == Seen(Image(file), lba);
      SeenByte(file, lba, 0);
      SeenByte(file, lba, 1);
      SeenByte(file, lba, 4);
      SeenByte(file, lba, 5);
    }
  }

  /** The kernel in RAM, in the bytes of the image file. */
  lemma {:induction false} LoadedBytes(ram: Ram, file: seq<byte>, off: nat)
    requires KernelLoaded(ram, Image(file))
    requires var rec := BootRecord(Image(file));
             off < 512 * KernelCount(rec) && 0x200 + off < RAM_SIZE && KernelLba(rec) + off / 512 < Disk.OFFSET_LIMIT
    ensures ram[0x200 + off] == Disk.At(file, 512 * KernelLba(BootRecord(Image(file))) + off)
  {
    hide BootRecord, KernelLba, KernelCount, Disk.Sector;
    var lba := KernelLba(BootRecord(Image(file)));
    Loader.ImageBytes(file, lba, off);
    assert ram[STAGE_ADDR + off] == ByteAt(Image(file), lba, off) == Loader.ImageByte(file, lba, off);
  }

  /** Reset, for every disk whose record, when good, announces at most 63 sectors: exactly one of the
      three outcomes, decided by the disk alone; past a good record the whole kernel is in RAM. */
  method Reset(m: Machine, earlyBrk: word) returns (out: Outcome)
    requires m.Valid() && m.KernelMode()
    requires RecordOk(BootRecord(MediumOf(m.disk))) ==> KernelCount(BootRecord(MediumOf(m.disk))) <= MAX_SECTORS
    modifies m, m.ram, m.con, m.disk, m.disk.buf
    ensures m.Valid() && m.KernelMode() && MediumOf(m.disk) == old(MediumOf(m.disk)) && m.sp == 0xFF
    ensures out == BootOutcome(MediumOf(m.disk))
    ensures out != BadRecord ==> KernelLoaded(m.ram[..], MediumOf(m.disk))
    ensures Trap.Vector(m.ram[..]) == earlyBrk
    ensures KernelIo.Printed(old(m.con.Snap()), m.con.Snap(), BootText(out), BootText(out))
  {
    hide StageIs, OnlyPtrAndStack, KernelIo.Printed, KernelIo.Shown, BootRecord, KernelLoaded, KernelCount,
        StageSectorOf, Loader.Magic, LowKept, Trap.Vector;
    ghost var con, rec := m.con.Snap(), BootRecord(MediumOf(m.disk));
    Begin(m, earlyBrk);
    ghost var con1, begun := m.con.Snap(), m.ram[..];
    StageByteAt(m.ram[..], rec, 0);
    StageByteAt(m.ram[..], rec, 1);
    StageByteAt(m.ram[..], rec, 2);
    StageByteAt(m.ram[..], rec, 3);
    if !(m.ram[STAGE_ADDR] == 66 && m.ram[STAGE_ADDR + 1] == 66 && m.ram[STAGE_ADDR + 2] == 66
        && m.ram[STAGE_ADDR + 3] == 82) {
      Say(m, "[ERROR] BAD BOOT RECORD (HALTING)\r\n");
      ghost var t := KernelIo.Shown("[ERROR] BAD BOOT RECORD (HALTING)\r\n");
      KernelIo.PrintedThen(con, con1, m.con.Snap(), KernelIo.Shown("BB6502 boot ROM\r\n"),
          KernelIo.Shown("BB6502 boot ROM\r\n"), t, t);
      PrintKeepsVector(begun, m.ram[..]);
      return BadRecord;
    }
    LoadKernel(m);
    ghost var con2, ram := m.con.Snap(), m.ram[..];
    out := Launch(m, StageSectorOf(MediumOf(m.disk)));
    LoadedKept(ram, m.ram[..], MediumOf(m.disk));
    LowKeepsVector(begun, ram, m.ram[..]);
    ghost var t1 := KernelIo.Shown("Loading kernel\r\n");
    ghost var t2 := KernelIo.Shown(if out.Jump? then "Jumping to Kernel\r\n"
                                   else "[ERROR] BAD BBX HEADER (HALTING)\r\n");
    KernelIo.PrintedThen(con1, con2, m.con.Snap(), t1, t1, t2, t2);
    KernelIo.PrintedThen(con, con1, m.con.Snap(), KernelIo.Shown("BB6502 boot ROM\r\n"),
        KernelIo.Shown("BB6502 boot ROM\r\n"), t1 + t2, t1 + t2);
  }
}
