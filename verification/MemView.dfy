/**
 The debugger's view of memory (rtl/dbg/bbdbg_vpi.c and the `m` command of debugger.c) beside the read
 mux of rtl/tb.v that the processor sees.
 */
module MemView {
  import opened Bytes
  import Mmu6502

  const RAM_WORDS := 0x8000
  const ROM_BASE: word := 0x8100
  const ROM_WORDS := 0x7F00
  const WIDTH := 16

  /** Everything a read depends on; the data port `dbuf` is the buffer byte under the disk's pointer. */
  datatype Board = Board(mmu: Mmu6502.State, ram: seq<byte>, rom: seq<byte>, rxData: byte, txReady: bool,
                         rxValid: bool, lba: seq<byte>, diskErr: bool, diskBusy: bool, dbuf: byte)
  {
    ghost predicate Valid() {
      mmu.Valid() && |ram| == RAM_WORDS && |rom| == ROM_WORDS && |lba| == 4
    }
  }

  function Flag(b: bool, weight: byte): byte {
    if b then weight else 0
  }

  /** tb.v: what the processor reads. */
  function ReadMux(b: Board, addr: word): byte
    requires b.Valid()
  {
    if addr < 0x8000 then b.ram[Mmu6502.RamAddr(b.mmu, addr)]
    else if Mmu6502.IsCtrl(addr) then Mmu6502.CtrlRead(b.mmu, Mmu6502.RegOff(addr))
    else if addr == 0x8000 then b.rxData
    else if addr == 0x8001 then Flag(b.txReady, 2) + Flag(b.rxValid, 1)
    else if addr == 0x8003 then 1
    else if 0x80E0 <= addr < 0x80E4 then b.lba[addr - 0x80E0]
    else if addr == 0x80E5 then Flag(b.diskErr, 0x80) + Flag(b.diskBusy, 1)
    else if addr == 0x80E6 then b.dbuf
    else if addr >= ROM_BASE then b.rom[addr - ROM_BASE]
    else 0xFF
  }

  datatype Cell = Shown(value: byte) | Hidden

  /** `ppn << 10 | addr & 0x3FF`, and `addr` itself in kernel mode (Bytes.ShiftAndMask). */
  function PhysicalWord(b: Board, addr: word): nat
    requires b.Valid()
  {
    if b.mmu.kernel then addr else b.mmu.ppn[(addr / 1024) % 32] * 1024 + addr % 1024
  }

  /** simReadMem. */
  function SimReadMem(b: Board, addr: word): Cell
    requires b.Valid()
  {
    if addr < 0x8000 then Shown(b.ram[PhysicalWord(b, addr) % RAM_WORDS])
    else if addr >= ROM_BASE then Shown(b.rom[addr - ROM_BASE])
    else Hidden
  }

  /** In either MMU mode the debugger shows what the processor would read, and it hides the I/O window
      and nothing else. */
  lemma {:induction false} ShowsWhatIsRead(b: Board, addr: word)
    requires b.Valid()
    ensures SimReadMem(b, addr).Hidden? <==> 0x8000 <= addr < 0x8100
    ensures SimReadMem(b, addr).Shown? ==> SimReadMem(b, addr).value == ReadMux(b, addr)
    ensures addr >= 0x8100 ==> SimReadMem(b, addr) == Shown(b.rom[addr - 0x8100])
    ensures addr < 0x8000 ==>
              SimReadMem(b, addr) ==
              Shown(b.ram[if b.mmu.kernel then addr else b.mmu.ppn[addr / 1024] * 1024 + addr % 1024])
  {
    if addr < 0x8000 {
      assert addr == Mmu6502.Vpn(addr) * Mmu6502.PAGE + addr % Mmu6502.PAGE;
      assert PhysicalWord(b, addr) == Mmu6502.RamAddr(b.mmu, addr);
    } else if addr >= ROM_BASE {
      assert !Mmu6502.IsCtrl(addr);
    }
  }

  /** What is hidden: the page table from $8080 on, the disk's LBA and data port, and the status registers: in
      the port's bit 1 says that a byte may be sent and bit 0 that one has come, in the disk's bit 7 says
      error and bit 0 busy, and the GPU is always ready. Where nothing answers, the bus reads $FF. */
  lemma {:induction false} HiddenRegisters(b: Board)
    requires b.Valid()
    ensures var port, disk := ReadMux(b, 0x8001), ReadMux(b, 0x80E5);
            && port < 4 && (Bit(port, 1) <==> b.txReady) && (Bit(port, 0) <==> b.rxValid)
            && (Bit(disk, 7) <==> b.diskErr) && (Bit(disk, 0) <==> b.diskBusy)
            && (forall n :: 0 < n < 7 ==> !Bit(disk, n)) && ReadMux(b, 0x8003) == 1
    ensures ReadMux(b, 0x8000) == b.rxData && ReadMux(b, 0x80E6) == b.dbuf
    ensures forall k :: 0 <= k < 4 ==> ReadMux(b, 0x80E0 + k) == b.lba[k]
    ensures forall k :: 0 <= k < 32 ==> ReadMux(b, 0x8080 + k) == b.mmu.ppn[k]
    ensures ReadMux(b, 0x8002) == ReadMux(b, 0x80E4) == ReadMux(b, 0x80E7) == 0xFF
  {
  }

  datatype Entry = Entry(addr: word, cell: Cell)

  datatype Row = Row(addr: word, cells: seq<Entry>)

  /** Addresses first, first + 1, .. (n of them), each with what is to be shown for it. */
  function Listing(b: Board, first: word, n: nat): (l: seq<Entry>)
    requires b.Valid() && first + n <= 0x1_0000
    ensures |l| == n
  {
    seq<Entry>(n, k requires 0 <= k < n => Entry(first + k, SimReadMem(b, first + k)))
  }

  function AllCells(rows: seq<Row>): seq<Entry> {
    if rows == [] then [] else AllCells(rows[..|rows| - 1]) + rows[|rows| - 1].cells
  }

  lemma {:induction false} ListingExtends(b: Board, first: word, n: nat, more: nat)
    requires b.Valid() && first + n < 0x1_0000 && first + n + more <= 0x1_0000
    ensures Listing(b, first, n) + Listing(b, first + n, more) == Listing(b, first, n + more)
  {
  }

  /** The inner loop; `cur` wraps at 16 bits. */
  method ShowRow(b: Board, addr: word, end: word) returns (cells: seq<Entry>)
    requires b.Valid() && addr <= end
    ensures cells == Listing(b, addr, if end - addr < 16 then end - addr + 1 else 16)
  {
    cells := [];
    var offset := 0;
    while offset < WIDTH
      invariant 0 <= offset <= WIDTH && addr + offset <= end + 1
      invariant cells == Listing(b, addr, offset)
    {
      var cur := WrapWord(addr + offset);
      if cur < addr || cur > end {
        break;
      }
      cells := cells + [Entry(cur, SimReadMem(b, cur))];
      offset := offset + 1;
    }
  }

  /** dbgShowMem ends, and its rows list every address from start to end once and in order, sixteen to a
      row; also when end is $FFFF, where the 16-bit row address must not wrap. */
  method ShowMem(b: Board, start: word, end: word) returns (rows: seq<Row>)
    requires b.Valid() && start <= end
    ensures AllCells(rows) == Listing(b, start, end - start + 1)
    ensures |rows| == (end - start) / 16 + 1
    ensures forall i :: 0 <= i < |rows| ==> rows[i].addr == start + 16 * i
    ensures forall i :: 0 <= i < |rows| - 1 ==> |rows[i].cells| == 16
  {
    rows := [];
    var addr := start;
    while true
      invariant start <= addr <= end && addr == start + WIDTH * |rows|
      invariant AllCells(rows) == Listing(b, start, addr - start)
      invariant forall i :: 0 <= i < |rows| ==> rows[i].addr == start + WIDTH * i && |rows[i].cells| == WIDTH
      decreases end - addr
    {
      var cells := ShowRow(b, addr, end);
      ListingExtends(b, start, addr - start, |cells|);
      rows := rows + [Row(addr, cells)];
      assert rows[..|rows| - 1] + [rows[|rows| - 1]] == rows;
      if end < WIDTH || addr > end - WIDTH {
        break;
      }
      addr := WrapWord(addr + WIDTH);
    }
  }
}
