/**
 Kernel console output and input (sw/kernel/src/kernel.c, the getc calls of syscalls.c): polling loops
 against the clocked ports, with any number of cycles between two accesses.
 */
module KernelIo {
  import opened Bytes
  import opened Console
  import opened Rotation

  /** What printing `text` on both devices does to the port: no overrun, nothing taken from the input. */
  ghost predicate Printed(s: Port, t: Port, serial: seq<byte>, screen: seq<byte>)
    requires s.Valid() && t.Valid()
  {
    && t.tx.log == s.tx.log + serial && t.gpu == s.gpu + screen && t.tx.overruns == s.tx.overruns
    && t.rx.returned == s.rx.returned && t.rx.stale == s.rx.stale && s.rx.input <= t.rx.input
    && (ExactlyOnce(s.rx) ==> ExactlyOnce(t.rx))
  }

  lemma {:induction false} PrintedNothing(s: Port, t: Port)
    requires s.Valid() && t.Valid() && Elapsed(s, t)
    ensures Printed(s, t, [], [])
  {
  }

  lemma {:induction false} PrintedThen(s: Port, t: Port, u: Port, a: seq<byte>, b: seq<byte>, c: seq<byte>,
      d: seq<byte>)
    requires s.Valid() && t.Valid() && u.Valid() && Printed(s, t, a, b) && Printed(t, u, c, d)
    ensures Printed(s, u, a + c, b + d)
  {
  }

  /** A write to a ready transmitter or to the GPU. */
  lemma {:induction false} PrintedByte(s: Port, acc: Access)
    requires s.Valid() && (acc.WriteGpu? || (acc.WriteData? && s.tx.ready))
    ensures if acc.WriteGpu? then Printed(s, Next(s, acc), [], [acc.g]) else Printed(s, Next(s, acc), [acc.c], [])
  {
    if ExactlyOnce(s.rx) {
      StepExactlyOnce(s.rx, acc);
    }
  }

  /** A read of $8001, some time later: bit 1 says a byte may be sent, bit 0 that one has arrived. When a
      bit is clear, the wait for it has come strictly nearer to its end. */
  method Status(con: Ports) returns (v: byte)
    requires con.Valid()
    modifies con
    ensures con.Valid() && Elapsed(old(con.Snap()), con.Snap()) && v < 4
    ensures if v / 2 == 1 then con.txReady else con.Snap().tx.Left() < old(con.Snap()).tx.Left()
    ensures if v % 2 == 1 then con.rxValid else !old(con.Snap()).rx.valid
    ensures v % 2 == 0 && old(con.Snap()).rx.KeyAvailable() ==> con.Snap().rx.Left() < old(con.Snap()).rx.Left()
  {
    con.Elsewhere();
    v := (if con.txReady then 2 else 0) + (if con.rxValid then 1 else 0);
    ghost var before := con.Snap();
    con.Cycle(Idle);
    ElapsedIdle(old(con.Snap()), before, []);
    assert before.rx.input + [] == before.rx.input;
  }

  /** The wait for TX ready. It ends because the transmitter's count goes down on every poll. */
  method AwaitTx(con: Ports)
    requires con.Valid()
    modifies con
    ensures con.Valid() && con.txReady && Elapsed(old(con.Snap()), con.Snap())
  {
    var status := Status(con);
    while status / 2 % 2 == 0
      invariant con.Valid() && Elapsed(old(con.Snap()), con.Snap()) && status < 4
      invariant status / 2 == 1 ==> con.txReady
      decreases 1 - status / 2, con.Snap().tx.Left()
    {
      status := Status(con);
    }
  }

  /** A later write of c to a transmitter seen ready. */
  method SendTx(con: Ports, c: byte)
    requires con.Valid() && con.txReady
    modifies con
    ensures con.Valid() && Printed(old(con.Snap()), con.Snap(), [c], [])
  {
    con.Elsewhere();
    PrintedNothing(old(con.Snap()), con.Snap());
    PrintedByte(con.Snap(), WriteData(c));
    con.Cycle(WriteData(c));
  }

  method KPutc(con: Ports, c: byte)
    requires con.Valid()
    modifies con
    ensures con.Valid() && Printed(old(con.Snap()), con.Snap(), [c], [])
  {
    AwaitTx(con);
    PrintedNothing(old(con.Snap()), con.Snap());
    ghost var waited := con.Snap();
    SendTx(con, c);
    PrintedThen(old(con.Snap()), waited, con.Snap(), [], [], [c], []);
  }

  /** The GPU's status always reads $01. */
  method KGputc(con: Ports, c: byte)
    requires con.Valid()
    modifies con
    ensures con.Valid() && Printed(old(con.Snap()), con.Snap(), [], [c])
  {
    con.Elsewhere();
    PrintedNothing(old(con.Snap()), con.Snap());
    PrintedByte(con.Snap(), WriteGpu(c));
    con.Cycle(WriteGpu(c));
  }

  lemma {:induction false} CStringStep(mem: seq<byte>, pa: nat, q: nat)
    requires pa <= q <= pa + |CString(mem, pa)| < |mem|
    ensures CString(mem, pa)[q - pa..] == CString(mem, q)
    ensures mem[q] == 0 <==> q == pa + |CString(mem, pa)|
    ensures q < pa + |CString(mem, pa)| ==> CString(mem, pa)[q - pa] == mem[q]
    decreases q - pa
  {
    if pa < q {
      CStringStep(mem, pa + 1, q);
    }
  }

  lemma {:induction false} CStringEnds(mem: seq<byte>, pa: nat, q: nat)
    requires pa <= q < |mem| && mem[q] == 0
    ensures pa + |CString(mem, pa)| <= q
    decreases q - pa
  {
    if pa < q {
      CStringEnds(mem, pa + 1, q);
    }
  }

  /** A string literal of the kernel: its characters and a NUL. */
  function Literal(s: string): seq<byte> {
    seq<byte>(|s| + 1, i requires 0 <= i <= |s| => if i < |s| then s[i] as int % 0x100 else 0)
  }

  /** What is printed of a string constant. */
  function Shown(s: string): seq<byte> {
    CString(Literal(s), 0)
  }

  /** Of a constant without a NUL that is each character, in order. */
  lemma {:induction false} ShownSpells(s: string)
    requires forall i :: 0 <= i < |s| ==> 0 < s[i] as int < 0x100
    ensures |Shown(s)| == |s| && forall i :: 0 <= i < |s| ==> Shown(s)[i] == s[i] as int
  {
    var mem := Literal(s);
    CStringEnds(mem, 0, |s|);
    forall i | 0 <= i <= |Shown(s)|
      ensures mem[i] == 0 <==> i == |Shown(s)|
      ensures i < |Shown(s)| ==> Shown(s)[i] == mem[i]
    {
      CStringStep(mem, 0, i);
    }
    assert mem[|Shown(s)|] == 0;
  }

  /** The same with a byte of code before the string. */
  lemma {:induction false} CStringBehind(b: byte, mem: seq<byte>, i: nat)
    ensures CString([b] + mem, i + 1) == CString(mem, i)
    decreases |mem| - i
  {
    if i < |mem| {
      CStringBehind(b, mem, i + 1);
    }
  }

  /** k_print of a literal. */
  method KPrintLiteral(con: Ports, s: string)
    requires con.Valid()
    modifies con
    ensures con.Valid() && Printed(old(con.Snap()), con.Snap(), Shown(s), Shown(s))
  {
    CStringEnds(Literal(s), 0, |s|);
    KPrint(con, Literal(s), 0);
  }

  /** k_print: every character up to the NUL goes to both devices, in order, with no overrun. */
  method KPrint(con: Ports, mem: seq<byte>, str: nat)
    requires con.Valid() && str + |CString(mem, str)| < |mem|
    modifies con
    ensures con.Valid() && Printed(old(con.Snap()), con.Snap(), CString(mem, str), CString(mem, str))
  {
    ghost var text := CString(mem, str);
    ghost var n := 0;
    var p := str;
    CStringStep(mem, str, p);
    while mem[p] != 0
      invariant con.Valid() && n <= |text| && p == str + n
      invariant mem[p] == 0 <==> n == |text|
      invariant n < |text| ==> text[n] == mem[p]
      invariant Printed(old(con.Snap()), con.Snap(), text[..n], text[..n])
      decreases |text| - n
    {
      ghost var s0 := con.Snap();
      KPutc(con, mem[p]);
      ghost var s1 := con.Snap();
      KGputc(con, mem[p]);
      PrintedThen(s0, s1, con.Snap(), [mem[p]], [], [], [mem[p]]);
      PrintedThen(old(con.Snap()), s0, con.Snap(), text[..n], text[..n], [mem[p]] + [], [] + [mem[p]]);
      assert text[..n] + ([mem[p]] + []) == text[..n + 1] && text[..n] + ([] + [mem[p]]) == text[..n + 1];
      p := p + 1;
      n := n + 1;
      CStringStep(mem, str, p);
    }
    assert text[..n] == text;
  }

  // ---- The keyboard ----

  /** One key was taken, and it was a valid one, the one that was waiting if there was one; nothing was
      printed. */
  ghost predicate Taken(s: Port, t: Port, c: byte)
    requires s.Valid() && t.Valid()
  {
    && t.rx.returned == s.rx.returned + [c] && t.rx.stale == s.rx.stale && s.rx.input <= t.rx.input
    && (s.rx.valid ==> c == s.rx.data)
    && t.tx.log == s.tx.log && t.gpu == s.gpu && t.tx.overruns == s.tx.overruns
    && (ExactlyOnce(s.rx) ==> ExactlyOnce(t.rx))
  }

  lemma {:induction false} TakenValid(s: Port)
    requires s.Valid() && s.rx.valid
    ensures Taken(s, Next(s, ReadData), s.rx.data)
  {
    if ExactlyOnce(s.rx) {
      StepExactlyOnce(s.rx, ReadData);
    }
  }

  /** Read the data register after status bit 0 was seen set. */
  method TakeKey(con: Ports) returns (c: byte)
    requires con.Valid() && con.rxValid
    modifies con
    ensures con.Valid() && Taken(old(con.Snap()), con.Snap(), c)
  {
    con.Elsewhere();
    TakenValid(con.Snap());
    c := con.rxData;
    con.Cycle(ReadData);
  }

  /** do_getc's wait and read. The wait ends when a key is pending or already in the file. */
  method Getc(con: Ports) returns (c: byte)
    requires con.Valid() && con.Snap().rx.KeyAvailable()
    modifies con
    ensures con.Valid() && Taken(old(con.Snap()), con.Snap(), c)
  {
    var status := Status(con);
    while status % 2 == 0
      invariant con.Valid() && Elapsed(old(con.Snap()), con.Snap())
      invariant status % 2 == 1 ==> con.rxValid
      decreases 1 - status % 2, con.Snap().rx.Left()
    {
      status := Status(con);
    }
    c := TakeKey(con);
  }

  /** do_getc_nb: one look at the status, which does not miss a key that is there. */
  method GetcNb(con: Ports) returns (got: bool, c: byte)
    requires con.Valid()
    modifies con
    ensures con.Valid()
    ensures if got then Taken(old(con.Snap()), con.Snap(), c) else c == 0 && Elapsed(old(con.Snap()), con.Snap())
    ensures old(con.Snap()).rx.valid ==> got
  {
    var status := Status(con);
    got, c := status % 2 == 1, 0;
    if got {
      c := TakeKey(con);
    }
  }
}
