/**
 The serial port and GPU port of rtl/tb.v, one rising clock edge at a time: an ACIA transmitter that
 is busy for 87 cycles after each byte, a receiver that polls an append-only input file every 200
 clocks, and the GPU stream.
 */
module Console {
  import opened Bytes

  const TX_CYCLES := 87
  const POLL := 200

  /** What the CPU does at the port in one cycle; every other bus cycle is Idle. */
  datatype Access = Idle | ReadData | WriteData(c: byte) | WriteGpu(g: byte)

  /** The transmitter; `overruns` counts the "TX overrun" reports. */
  datatype Tx = Tx(ready: bool, count: nat, log: seq<byte>, overruns: nat) {
    predicate Valid() {
      count < TX_CYCLES
    }

    /** Cycles until the transmitter is ready. */
    function Left(): nat {
      if ready then 0 else count + 1
    }
  }

  /** The receiver and its input file; two history variables hold the bytes returned by reads of
      $8000 and the number of those reads that found no valid byte. */
  datatype Rx = Rx(data: byte, valid: bool, poll: nat, pos: nat, input: seq<byte>, returned: seq<byte>, stale: nat) {
    predicate Valid() {
      poll <= POLL && pos <= |input|
    }

    predicate KeyAvailable() {
      valid || pos < |input|
    }

    /** Cycles until a byte is valid, given that the file holds one. */
    function Left(): nat
      requires Valid()
    {
      if valid then 0 else POLL - poll + 1
    }

    function Pending(): seq<byte> {
      if valid then [data] else []
    }
  }

  datatype Port = Port(tx: Tx, rx: Rx, gpu: seq<byte>) {
    predicate Valid() {
      tx.Valid() && rx.Valid()
    }
  }

  function PowerOn(input: seq<byte>): (s: Port)
    ensures s.Valid()
  {
    Port(Tx(true, 0, [], 0), Rx(0, false, 0, 0, input, [], 0), [])
  }

  function NextTx(s: Tx, acc: Access): (t: Tx)
    requires s.Valid()
    ensures t.Valid()
  {
    if acc.WriteData? then
      Tx(false, TX_CYCLES - 1, s.log + [acc.c], if s.ready then s.overruns else s.overruns + 1)
    else if s.ready then s
    else if s.count == 0 then s.(ready := true)
    else s.(count := s.count - 1)
  }

  function NextRx(s: Rx, acc: Access): (t: Rx)
    requires s.Valid()
    ensures t.Valid()
  {
    var read := if !acc.ReadData? then s
                else s.(valid := false, returned := s.returned + [s.data],
                        stale := if s.valid then s.stale else s.stale + 1);
    if s.poll < POLL then read.(poll := s.poll + 1)
    else if s.valid || s.pos >= |s.input| then read.(poll := 0)
    else read.(poll := 0, data := s.input[s.pos], valid := true, pos := s.pos + 1)
  }

  function Next(s: Port, acc: Access): (t: Port)
    requires s.Valid()
    ensures t.Valid()
  {
    Port(NextTx(s.tx, acc), NextRx(s.rx, acc), if acc.WriteGpu? then s.gpu + [acc.g] else s.gpu)
  }

  /** Keys typed by the user land at the end of the input file at any time. */
  datatype Event = Clock(acc: Access) | Typed(keys: seq<byte>)

  function Step(s: Port, e: Event): (t: Port)
    requires s.Valid()
    ensures t.Valid()
  {
    match e
    case Clock(acc) => Next(s, acc)
    case Typed(keys) => s.(rx := s.rx.(input := s.rx.input + keys))
  }

  function Run(s: Port, es: seq<Event>): (t: Port)
    requires s.Valid()
    ensures t.Valid()
  {
    if es == [] then s else Step(Run(s, es[..|es| - 1]), es[|es| - 1])
  }

  /** Each key is returned exactly once and in order, up to the one still waiting. */
  predicate ExactlyOnce(s: Rx)
    requires s.Valid()
  {
    s.returned + s.Pending() == s.input[..s.pos]
  }

  lemma {:induction false} StepCounts(s: Rx, acc: Access)
    requires s.Valid() && |s.returned| + |s.Pending()| == s.pos + s.stale
    ensures var t := NextRx(s, acc); |t.returned| + |t.Pending()| == t.pos + t.stale
  {
  }

  lemma {:induction false} StepExactlyOnce(s: Rx, acc: Access)
    requires s.Valid() && ExactlyOnce(s) && NextRx(s, acc).stale == s.stale
    ensures ExactlyOnce(NextRx(s, acc))
  {
    var t := NextRx(s, acc);
    if t.pos == s.pos + 1 {
      assert t.input[..t.pos] == s.input[..s.pos] + [s.input[s.pos]];
    }
  }

  /** Over any run of cycles and typing, keys are delivered exactly once if and only if every read of
      the data register found a valid byte. */
  lemma {:induction false} KeysExactlyOnce(input: seq<byte>, es: seq<Event>)
    ensures var s := Run(PowerOn(input), es).rx;
            && |s.returned| + |s.Pending()| == s.pos + s.stale
            && (ExactlyOnce(s) <==> s.stale == 0)
  {
    if es != [] {
      var g, e := es[..|es| - 1], es[|es| - 1];
      KeysExactlyOnce(input, g);
      var s := Run(PowerOn(input), g).rx;
      match e
      case Clock(acc) =>
        StepCounts(s, acc);
        if NextRx(s, acc).stale == 0 {
          StepExactlyOnce(s, acc);
        }
      case Typed(keys) =>
        assert (s.input + keys)[..s.pos] == s.input[..s.pos];
    }
  }

  /** k cycles in which the CPU leaves the port alone. */
  function Wait(s: Port, k: nat): (t: Port)
    requires s.Valid()
    ensures t.Valid()
  {
    if k == 0 then s else Next(Wait(s, k - 1), Idle)
  }

  lemma {:induction false} WaitCounts(s: Port, k: nat)
    requires s.Valid()
    ensures Wait(s, k).tx.Left() == if k < s.tx.Left() then s.tx.Left() - k else 0
  {
    if k > 0 {
      WaitCounts(s, k - 1);
    }
  }

  /** After a byte the transmitter is busy for exactly 87 cycles, whatever happened before. */
  lemma {:induction false} BusyFor87(s: Port, c: byte, k: nat)
    requires s.Valid()
    ensures Wait(Next(s, WriteData(c)), k).tx.ready <==> k >= 87
  {
    WaitCounts(Next(s, WriteData(c)), k);
  }

  /** A key in the file is valid when the receiver has polled: at the 201st cycle since its last poll, and
      not before. */
  lemma {:induction false} KeyArrives(s: Port, k: nat)
    requires s.Valid() && !s.rx.valid && s.rx.pos < |s.rx.input|
    ensures Wait(s, k).rx.valid <==> k + s.rx.poll >= 201
    ensures k + s.rx.poll < 201 ==> Wait(s, k).rx == s.rx.(poll := s.rx.poll + k)
    ensures k + s.rx.poll >= 201 ==> Wait(s, k).rx.data == s.rx.input[s.rx.pos]
  {
    if k > 0 {
      KeyArrives(s, k - 1);
    }
  }

  // ---- The transmitter over a run ----

  /** The CPU's accesses cycle by cycle. */
  function Cycles(es: seq<Event>): seq<Access> {
    if es == [] then []
    else
      var before := Cycles(es[..|es| - 1]);
      match es[|es| - 1]
      case Clock(acc) => before + [acc]
      case Typed(_) => before
  }

  function ToSerial(h: seq<Access>): seq<byte> {
    if h == [] then []
    else
      var before := ToSerial(h[..|h| - 1]);
      match h[|h| - 1]
      case WriteData(c) => before + [c]
      case _ => before
  }

  function ToScreen(h: seq<Access>): seq<byte> {
    if h == [] then []
    else
      var before := ToScreen(h[..|h| - 1]);
      match h[|h| - 1]
      case WriteGpu(g) => before + [g]
      case _ => before
  }

  /** Cycle j sends a serial byte with fewer than 87 cycles since the one before. */
  predicate TooEarly(h: seq<Access>, j: nat)
    requires j < |h|
  {
    h[j].WriteData? && exists i :: 0 <= i < j && h[i].WriteData? && j - i - 1 < 87
  }

  function CountEarly(h: seq<Access>): nat {
    if h == [] then 0
    else CountEarly(h[..|h| - 1]) + if TooEarly(h, |h| - 1) then 1 else 0
  }

  /** The cycles left are those since the last byte short of 87. */
  predicate Recent(s: Tx, h: seq<Access>) {
    && s.Left() <= 87
    && (forall i :: 0 <= i < |h| && h[i].WriteData? ==> 87 <= s.Left() + |h| - 1 - i)
    && (s.Left() > 0 ==> 87 - s.Left() < |h| && h[|h| - 1 - (87 - s.Left())].WriteData?)
  }

  lemma {:induction false} StepRecent(s: Tx, h: seq<Access>, acc: Access)
    requires s.Valid() && Recent(s, h)
    ensures Recent(NextTx(s, acc), h + [acc])
    ensures NextTx(s, acc).overruns == s.overruns + CountEarly(h + [acc]) - CountEarly(h)
  {
    var g := h + [acc];
    assert g[..|g| - 1] == h;
  }

  lemma {:induction false} StepPoll(s: Rx, n: nat, acc: Access)
    requires s.Valid() && s.poll == n % 201
    ensures NextRx(s, acc).poll == (n + 1) % 201
  {
  }

  /** What a port has done since power-on, told by the accesses alone: every byte written is sent, in order;
      the overruns are exactly the bytes that come too early; the receiver polls at every 201st cycle. */
  predicate Follows(s: Port, h: seq<Access>) {
    && s.tx.log == ToSerial(h) && s.gpu == ToScreen(h)
    && Recent(s.tx, h) && s.tx.overruns == CountEarly(h) && s.rx.poll == |h| % 201
  }

  lemma {:induction false} StepFollows(s: Port, h: seq<Access>, acc: Access)
    requires s.Valid() && Follows(s, h)
    ensures Follows(Next(s, acc), h + [acc])
  {
    StepRecent(s.tx, h, acc);
    StepPoll(s.rx, |h|, acc);
    assert (h + [acc])[..|h|] == h;
    hide Recent, CountEarly, NextRx;
  }

  /** So it is over any run of cycles and typing. */
  lemma {:induction false} RunFollows(input: seq<byte>, es: seq<Event>)
    ensures Follows(Run(PowerOn(input), es), Cycles(es))
  {
    if es != [] {
      var g := es[..|es| - 1];
      RunFollows(input, g);
      if es[|es| - 1].Clock? {
        StepFollows(Run(PowerOn(input), g), Cycles(g), es[|es| - 1].acc);
      }
    }
  }

  /** There is no overrun if and only if any two serial bytes have 87 cycles between them. */
  lemma {:induction false} NoOverrunIff(h: seq<Access>)
    ensures CountEarly(h) == 0 <==>
            forall i, j :: 0 <= i < j < |h| && h[i].WriteData? && h[j].WriteData? ==> j - i - 1 >= 87
  {
    if h != [] {
      var g := h[..|h| - 1];
      NoOverrunIff(g);
      assert forall i :: 0 <= i < |g| ==> h[i] == g[i];
    }
  }

  // ---- The registers in place ----

  class Ports {
    var txReady: bool
    var txCount: nat
    var log: seq<byte>
    var overruns: nat
    var rxData: byte
    var rxValid: bool
    var poll: nat
    var pos: nat
    var input: seq<byte>
    var returned: seq<byte>
    var stale: nat
    var gpu: seq<byte>

    ghost function Snap(): Port
      reads this
    {
      Port(Tx(txReady, txCount, log, overruns), Rx(rxData, rxValid, poll, pos, input, returned, stale), gpu)
    }

    ghost predicate Valid()
      reads this
    {
      Snap().Valid()
    }

    constructor (input: seq<byte>)
      ensures Valid() && Snap() == PowerOn(input)
    {
      txReady, txCount, log, overruns := true, 0, [], 0;
      rxData, rxValid, poll, pos, returned, stale := 0, false, 0, 0, [], 0;
      this.input := input;
      gpu := [];
    }

    method Transmit(acc: Access)
      requires Valid()
      modifies `txReady, `txCount, `log, `overruns
      ensures Snap().tx == NextTx(old(Snap().tx), acc)
    {
      if acc.WriteData? {
        if !txReady {
          overruns := overruns + 1;
        }
        txCount, txReady := TX_CYCLES - 1, false;
        log := log + [acc.c];
      } else if !txReady {
        if txCount == 0 {
          txReady := true;
        } else {
          txCount := txCount - 1;
        }
      }
    }

    method Receive(acc: Access)
      requires Valid()
      modifies `rxData, `rxValid, `poll, `pos, `returned, `stale
      ensures Snap().rx == NextRx(old(Snap().rx), acc)
    {
      var wasValid := rxValid;
      if acc.ReadData? {
        returned := returned + [rxData];
        if wasValid {
          rxValid := false;
        } else {
          stale := stale + 1;
        }
      }
      if poll < POLL {
        poll := poll + 1;
      } else {
        poll := 0;
        if !wasValid && pos < |input| {
          rxData, rxValid, pos := input[pos], true, pos + 1;
        }
      }
    }

    /** One rising clock edge. */
    method Cycle(acc: Access)
      requires Valid()
      modifies this
      ensures Valid() && Snap() == Next(old(Snap()), acc)
    {
      Transmit(acc);
      Receive(acc);
      if acc.WriteGpu? {
        gpu := gpu + [acc.g];
      }
    }

    /** Any number of cycles spent elsewhere, during which keys may be typed. */
    method Elsewhere()
      requires Valid()
      modifies this
      ensures Valid() && Elapsed(old(Snap()), Snap())
    {
      var n: nat := *;
      while n > 0
        invariant Valid() && Elapsed(old(Snap()), Snap())
      {
        var keys: seq<byte> := *;
        ghost var before := Snap();
        Cycle(Idle);
        input := input + keys;
        ElapsedIdle(old(Snap()), before, keys);
        n := n - 1;
      }
    }
  }

  lemma {:induction false} ElapsedIdle(s: Port, t: Port, keys: seq<byte>)
    requires s.Valid() && t.Valid() && Elapsed(s, t)
    ensures Elapsed(s, Step(Next(t, Idle), Typed(keys)))
  {
    var u := Next(t, Idle);
    if ExactlyOnce(s.rx) {
      StepExactlyOnce(t.rx, Idle);
      assert (u.rx.input + keys)[..u.rx.pos] == u.rx.input[..u.rx.pos];
    }
  }

  /** Time went by: nothing was sent or taken, a ready transmitter or a valid byte stays so, and the
      waits still ahead did not get longer. */
  ghost predicate Elapsed(s: Port, t: Port)
    requires s.Valid() && t.Valid()
  {
    && t.tx.log == s.tx.log && t.tx.overruns == s.tx.overruns && t.gpu == s.gpu
    && t.rx.returned == s.rx.returned && t.rx.stale == s.rx.stale && s.rx.input <= t.rx.input
    && t.tx.Left() <= s.tx.Left()
    && (s.rx.valid ==> t.rx.valid && t.rx.data == s.rx.data && t.rx.pos == s.rx.pos)
    && (s.rx.KeyAvailable() ==> t.rx.KeyAvailable() && t.rx.Left() <= s.rx.Left())
    && (ExactlyOnce(s.rx) ==> ExactlyOnce(t.rx))
  }
}
