/**
 The run-mode machine of rtl/dbg/debugger.c. The simulation calls `OnFetch` before every
 instruction; the instruction runs once the call returns, which it does not do while the user is at
 the prompt.
 */
module Debugger {
  import opened Bytes

  const POLL_INTERVAL := 512
  const COUNTER := 0x1_0000_0000
  const CTRL_C := 3
  const STP: byte := 0xDB

  type Length = n: nat | 1 <= n <= 3 witness 1

  datatype Mode = Stopped | Stepping | Running

  /** A parsed command; `Other` stands for those that only print, and for input that is refused. */
  datatype Command =
    | SetBp(at: word)
    | RemoveBp(at: word)
    | Step(n: int)
    | Continue
    | Restart
    | Quit
    | Other

  /** One instruction boundary: the instruction, the keys typed since the one before, and what the user
      answers if asked there. */
  datatype Fetch = Fetch(pc: word, opcode: byte, length: Length, keys: seq<int>, restart: bool, commands: seq<Command>)

  datatype State = State(mode: Mode, stepsLeft: int, stepFirst: bool, fetchCount: nat, interrupted: bool,
                         quitting: bool, resets: nat, bps: seq<word>, typed: seq<int>, sent: seq<int>)

  // ---- The debugger on values ----

  /** Some breakpoint lies between the two addresses, both included; none does once the end has wrapped. */
  predicate Between(bps: seq<word>, first: word, last: word) {
    exists i :: 0 <= i < |bps| && first <= bps[i] <= last
  }

  predicate AtBp(bps: seq<word>, pc: word, length: nat)
    requires length <= 3
  {
    Between(bps, pc, WrapWord(pc + length))
  }

  function Without(bps: seq<word>, at: word): seq<word> {
    if bps == [] then []
    else
      var rest := Without(bps[..|bps| - 1], at);
      if bps[|bps| - 1] == at then rest else rest + [bps[|bps| - 1]]
  }

  /** A reset is requested of the simulation; `resets` counts the requests. */
  function Reset(s: State): State {
    s.(mode := Stepping, stepsLeft := 0, resets := s.resets + 1)
  }

  function EchoStep(s: State): State {
    s.(stepFirst := false, stepsLeft := s.stepsLeft - 1)
  }

  /** Forwards keys up to the first Ctrl-C. */
  function Poll(s: State): State
    decreases |s.typed|
  {
    if s.typed == [] then s
    else if s.typed[0] == CTRL_C then s.(typed := s.typed[1..], interrupted := true)
    else Poll(s.(typed := s.typed[1..], sent := s.sent + [s.typed[0]]))
  }

  /** The debugger hands control to the user exactly when the result is Stopped. */
  function Judge(s: State, f: Fetch): State {
    if f.opcode == STP then
      if f.restart then Reset(s) else s.(quitting := true, mode := Running)
    else match s.mode
      case Stopped => s
      case Running =>
        var t := if s.fetchCount % POLL_INTERVAL == 0 then Poll(s) else s;
        if t.interrupted then t.(interrupted := false, mode := Stopped)
        else if AtBp(t.bps, f.pc, 0) then t.(mode := Stopped)
        else t
      case Stepping =>
        if s.stepsLeft <= 0 || AtBp(s.bps, f.pc, f.length) then s.(mode := Stopped) else EchoStep(s)
  }

  function Obey(s: State, c: Command): State {
    match c
    case SetBp(a) => s.(bps := s.bps + [a])
    case RemoveBp(a) => s.(bps := Without(s.bps, a))
    case Step(n) => if n < 1 then s else s.(stepsLeft := n, stepFirst := true, mode := Stepping)
    case Continue => s.(interrupted := false, mode := Running)
    case Restart => Reset(s)
    case Quit => s.(quitting := true, mode := Running)
    case Other => s
  }

  /** The prompt, until a command resumes or the user has typed nothing more. */
  function ObeyAll(s: State, cs: seq<Command>): State
    decreases |cs|
  {
    if !s.mode.Stopped? || cs == [] then s else ObeyAll(Obey(s, cs[0]), cs[1..])
  }

  function Counted(s: State): State {
    s.(fetchCount := (s.fetchCount + 1) % COUNTER)
  }

  function OnFetch(s: State, f: Fetch): State {
    if s.quitting then s
    else
      var t := Judge(Counted(s), f);
      if !t.mode.Stopped? then t
      else
        var u := ObeyAll(t, f.commands);
        if u.mode.Stepping? && u.stepsLeft > 0 then EchoStep(u) else u
  }

  /** The keys typed, then the boundary. */
  function Next(s: State, f: Fetch): State {
    OnFetch(s.(typed := s.typed + f.keys), f)
  }

  /** The boundary f brings up the prompt. */
  predicate Stops(s: State, f: Fetch) {
    !s.quitting && Judge(Counted(s.(typed := s.typed + f.keys)), f).mode.Stopped?
  }

  // ---- The debugger as it is: globals, and a list that grows and shrinks in place ----

  class Session {
    var mode: Mode
    var stepsLeft: int
    var stepFirst: bool
    var fetchCount: nat
    var interrupted: bool
    var quitting: bool
    var resets: nat
    var list: array<word>
    var nofBps: nat
    var typed: seq<int>
    var sent: seq<int>

    ghost predicate Valid()
      reads this
    {
      nofBps <= list.Length && fetchCount < COUNTER
    }

    ghost function Snap(): State
      reads this, list
      requires Valid()
    {
      State(mode, stepsLeft, stepFirst, fetchCount, interrupted, quitting, resets, list[..nofBps], typed, sent)
    }

    constructor ()
      ensures Valid() && fresh(list)
      ensures Snap() == State(Stopped, 0, false, 0, false, false, 0, [], [], [])
    {
      mode := Stopped;
      stepsLeft := 0;
      stepFirst := false;
      fetchCount := 0;
      interrupted := false;
      quitting := false;
      resets := 0;
      list := new word[0];
      nofBps := 0;
      typed := [];
      sent := [];
    }

    method CheckIfAtBp(pc: word, length: nat) returns (hit: bool, at: int)
      requires Valid() && length <= 3
      ensures hit == AtBp(list[..nofBps], pc, length)
      ensures hit ==> 0 <= at < nofBps && pc <= list[at] <= WrapWord(pc + length)
      ensures hit ==> !Between(list[..at], pc, WrapWord(pc + length))
    {
      var end := WrapWord(pc + length);
      at := 0;
      while at < nofBps
        invariant 0 <= at <= nofBps
        invariant !Between(list[..at], pc, end)
      {
        if pc <= list[at] <= end {
          assert list[..nofBps][at] == list[at];
          return true, at;
        }
        at := at + 1;
      }
      return false, -1;
    }

    method Add(addr: word)
      requires Valid()
      modifies this`list, this`nofBps, list
      ensures Valid() && (list == old(list) || fresh(list))
      ensures Snap() == Obey(old(Snap()), SetBp(addr))
    {
      if list.Length == 0 {
        list := new word[10];
      }
      if nofBps >= list.Length {
        var wider := new word[list.Length * 2];
        forall k | 0 <= k < nofBps {
          wider[k] := list[k];
        }
        list := wider;
      }
      assert list[..nofBps] == old(list[..nofBps]);
      list[nofBps] := addr;
      nofBps := nofBps + 1;
      assert list[..nofBps] == old(list[..nofBps]) + [addr];
    }

    /** The memmove that closes the gap at i. */
    method CloseGap(i: nat)
      requires Valid() && i < nofBps
      modifies this`nofBps, list
      ensures Valid() && nofBps == old(nofBps) - 1
      ensures list[..i] == old(list[..i]) && list[i..nofBps] == old(list[i + 1..nofBps])
    {
      forall k | i <= k < nofBps - 1 {
        list[k] := list[k + 1];
      }
      nofBps := nofBps - 1;
    }

    method Remove(addr: word) returns (found: bool)
      requires Valid()
      modifies this`nofBps, list
      ensures Valid()
      ensures Snap() == old(Snap()).(bps := Without(old(list[..nofBps]), addr))
      ensures found == (addr in old(list[..nofBps]))
    {
      hide Without;
      ghost var all := list[..nofBps];
      ghost var seen := 0;
      found := false;
      var i := 0;
      assert list[..i] == Without(all[..seen], addr) by {
        WithoutNone(addr);
      }
      while i < nofBps
        invariant 0 <= i <= nofBps <= list.Length && nofBps - i == |all| - seen && 0 <= seen
        invariant list[..i] == Without(all[..seen], addr)
        invariant list[i..nofBps] == all[seen..]
        invariant found == (addr in all[..seen])
        decreases nofBps - i
      {
        assert list[i] == list[i..nofBps][0] == all[seen];
        WithoutNext(all, seen, addr);
        if list[i] != addr {
          assert list[i + 1..nofBps] == list[i..nofBps][1..];
          i := i + 1;
        } else {
          assert list[i + 1..nofBps] == list[i..nofBps][1..];
          CloseGap(i);
          found := true;
        }
        seen := seen + 1;
      }
      assert all[..seen] == all;
    }

    method BackIntoDebugger()
      modifies this`mode
      ensures mode == Stopped
    {
      mode := Stopped;
    }

    method ResetMachine()
      requires Valid()
      modifies this`mode, this`stepsLeft, this`resets
      ensures Valid() && Snap() == Reset(old(Snap()))
    {
      resets := resets + 1;
      mode := Stepping;
      stepsLeft := 0;
    }

    method HandleStp(restart: bool)
      requires Valid()
      modifies this`mode, this`stepsLeft, this`quitting, this`resets
      ensures Valid()
      ensures Snap() == if restart then Reset(old(Snap())) else old(Snap()).(quitting := true, mode := Running)
    {
      BackIntoDebugger();
      if restart {
        ResetMachine();
      } else {
        quitting := true;
        mode := Running;
      }
    }

    method PollTerminal()
      requires Valid()
      modifies this`interrupted, this`typed, this`sent
      ensures Valid() && Snap() == Poll(old(Snap()))
    {
      ghost var was := Snap();
      while typed != []
        invariant Valid() && Poll(Snap()) == Poll(was)
        decreases |typed|
      {
        var k := typed[0];
        typed := typed[1..];
        if k == CTRL_C {
          interrupted := true;
          return;
        }
        sent := sent + [k];
      }
    }

    method Echo()
      requires Valid()
      modifies this`stepFirst, this`stepsLeft
      ensures Valid() && Snap() == EchoStep(old(Snap()))
    {
      stepFirst := false;
      stepsLeft := stepsLeft - 1;
    }

    method ShouldStop(f: Fetch) returns (stop: bool)
      requires Valid()
      modifies this`mode, this`stepsLeft, this`stepFirst, this`interrupted, this`quitting, this`resets, this`typed,
        this`sent
      ensures Valid() && Snap() == Judge(old(Snap()), f)
      ensures stop == mode.Stopped?
    {
      if f.opcode == STP {
        HandleStp(f.restart);
        return false;
      }
      match mode
      case Stopped =>
        return true;
      case Running =>
        if fetchCount % POLL_INTERVAL == 0 {
          PollTerminal();
          PollKeeps(old(Snap()));
        }
        if interrupted {
          interrupted := false;
          BackIntoDebugger();
          return true;
        }
        var hit, _ := CheckIfAtBp(f.pc, 0);
        if hit {
          BackIntoDebugger();
        }
        return hit;
      case Stepping =>
        if stepsLeft <= 0 {
          mode := Stopped;
          return true;
        }
        var hit, _ := CheckIfAtBp(f.pc, f.length);
        if hit {
          mode := Stopped;
          return true;
        }
        Echo();
        return false;
    }

    method RunCommand(c: Command)
      requires Valid()
      modifies this, list
      ensures Valid() && (list == old(list) || fresh(list))
      ensures Snap() == Obey(old(Snap()), c)
    {
      match c
      case SetBp(a) =>
        Add(a);
      case RemoveBp(a) =>
        var _ := Remove(a);
      case Step(n) =>
        if n >= 1 {
          stepsLeft := n;
          stepFirst := true;
          mode := Stepping;
        }
      case Continue =>
        interrupted := false;
        mode := Running;
      case Restart =>
        ResetMachine();
      case Quit =>
        quitting := true;
        mode := Running;
      case Other =>
    }

    method CommandLoop(cs: seq<Command>)
      requires Valid()
      modifies this, list
      ensures Valid() && (list == old(list) || fresh(list))
      ensures Snap() == ObeyAll(old(Snap()), cs)
    {
      ghost var was := Snap();
      var i := 0;
      while mode.Stopped? && i < |cs|
        invariant 0 <= i <= |cs| && Valid() && (list == old(list) || fresh(list))
        invariant ObeyAll(Snap(), cs[i..]) == ObeyAll(was, cs)
      {
        RunCommand(cs[i]);
        assert cs[i..][1..] == cs[i + 1..];
        i := i + 1;
      }
    }

    method Boundary(f: Fetch)
      requires Valid()
      modifies this, list
      ensures Valid() && (list == old(list) || fresh(list))
      ensures Snap() == OnFetch(old(Snap()), f)
    {
      if quitting {
        return;
      }
      fetchCount := (fetchCount + 1) % COUNTER;
      var stop := ShouldStop(f);
      if !stop {
        return;
      }
      CommandLoop(f.commands);
      if mode.Stepping? && stepsLeft > 0 {
        Echo();
      }
    }
  }

  lemma {:induction false} WithoutNone(at: word)
    ensures Without([], at) == []
  {
  }

  lemma {:induction false} WithoutNext(bps: seq<word>, k: nat, at: word)
    requires k < |bps|
    ensures Without(bps[..k + 1], at) == Without(bps[..k], at) + if bps[k] == at then [] else [bps[k]]
    ensures bps[..k + 1] == bps[..k] + [bps[k]]
  {
    assert bps[..k + 1][..k] == bps[..k];
  }

  // ---- Polling ----

  lemma {:induction false} PollKeeps(s: State)
    ensures Poll(s) == s.(typed := Poll(s).typed, sent := Poll(s).sent, interrupted := Poll(s).interrupted)
    ensures Poll(s).interrupted <==> s.interrupted || CTRL_C in s.typed
    ensures CTRL_C !in s.typed ==> Poll(s).typed == []
    decreases |s.typed|
  {
    if s.typed != [] && s.typed[0] != CTRL_C {
      PollKeeps(s.(typed := s.typed[1..], sent := s.sent + [s.typed[0]]));
      assert s.typed == [s.typed[0]] + s.typed[1..];
    }
  }

  function Plain(keys: seq<int>): seq<int> {
    if keys == [] then []
    else if keys[0] == 3 then Plain(keys[1..])
    else [keys[0]] + Plain(keys[1..])
  }

  lemma {:induction false} PlainConcat(a: seq<int>, b: seq<int>)
    ensures Plain(a + b) == Plain(a) + Plain(b)
  {
    if a == [] {
      assert a + b == b;
    } else {
      PlainConcat(a[1..], b);
      assert (a + b)[0] == a[0] && (a + b)[1..] == a[1..] + b;
      assert [a[0]] + Plain(a[1..]) + Plain(b) == [a[0]] + (Plain(a[1..]) + Plain(b));
    }
  }

  lemma {:induction false} PollForwards(s: State)
    ensures Plain(Poll(s).sent + Poll(s).typed) == Plain(s.sent + s.typed)
    ensures CTRL_C !in s.sent ==> CTRL_C !in Poll(s).sent
    decreases |s.typed|
  {
    if s.typed != [] {
      var k, rest := s.typed[0], s.typed[1..];
      if k == CTRL_C {
        PlainConcat(s.sent, s.typed);
        PlainConcat(s.sent, rest);
      } else {
        PollForwards(s.(typed := rest, sent := s.sent + [k]));
        assert s.sent + [k] + rest == s.sent + s.typed;
      }
    }
  }

  lemma {:induction false} PromptKeepsKeys(s: State, cs: seq<Command>)
    ensures ObeyAll(s, cs).typed == s.typed && ObeyAll(s, cs).sent == s.sent
    decreases |cs|
  {
    if s.mode.Stopped? && cs != [] {
      PromptKeepsKeys(Obey(s, cs[0]), cs[1..]);
    }
  }

  lemma {:induction false} BoundaryForwards(s: State, f: Fetch)
    ensures Plain(Next(s, f).sent + Next(s, f).typed) == Plain(s.sent + s.typed) + Plain(f.keys)
    ensures CTRL_C !in s.sent ==> CTRL_C !in Next(s, f).sent
  {
    hide Plain, Poll, ObeyAll, Judge;
    var c := Counted(s.(typed := s.typed + f.keys));
    assert c.sent + c.typed == s.sent + s.typed + f.keys;
    PlainConcat(s.sent + s.typed, f.keys);
    PollForwards(c);
    JudgeKeys(c, f);
    PromptKeepsKeys(Judge(c, f), f.commands);
  }

  lemma {:induction false} JudgeKeys(s: State, f: Fetch)
    ensures var t := Judge(s, f);
            || (t.sent == s.sent && t.typed == s.typed)
            || (t.sent == Poll(s).sent && t.typed == Poll(s).typed)
  {
    hide Poll;
  }

  function Run(s: State, fs: seq<Fetch>): State {
    if fs == [] then s else Next(Run(s, fs[..|fs| - 1]), fs[|fs| - 1])
  }

  function Typed(fs: seq<Fetch>): seq<int> {
    if fs == [] then [] else Typed(fs[..|fs| - 1]) + fs[|fs| - 1].keys
  }

  /** Through any run, with stops, resets and polls anywhere in it, the keys handed to the machine and
      those still waiting are the keys typed, in order, less the Ctrl-Cs; no Ctrl-C is handed over. */
  lemma {:induction false} KeysForwarded(s: State, fs: seq<Fetch>)
    requires s.sent == [] && s.typed == []
    ensures Plain(Run(s, fs).sent + Run(s, fs).typed) == Plain(Typed(fs))
    ensures 3 !in Run(s, fs).sent
  {
    if fs != [] {
      var g, f := fs[..|fs| - 1], fs[|fs| - 1];
      KeysForwarded(s, g);
      BoundaryForwards(Run(s, g), f);
      PlainConcat(Typed(g), f.keys);
      hide Plain, Next;
    }
  }

  // ---- The breakpoint list ----

  /** A step stops on a listed instruction except where the address after it has wrapped past $FFFF;
      continuous execution has no such gap. */
  lemma {:induction false} StepSeesListed(bps: seq<word>, pc: word, length: Length)
    requires pc in bps
    ensures AtBp(bps, pc, length) <==> pc + length < 0x1_0000
    ensures AtBp(bps, pc, 0)
  {
    var i :| 0 <= i < |bps| && bps[i] == pc;
    assert Between(bps, pc, pc);
  }

  /** In general a step stops exactly when that address does not wrap and an address of the instruction,
      or that one, is listed; continuous execution looks at the first address only. */
  lemma {:induction false} StepStopsIff(bps: seq<word>, pc: word, length: Length)
    ensures AtBp(bps, pc, length) <==> pc + length < 0x1_0000 && exists a: word :: a in bps && pc <= a <= pc + length
    ensures AtBp(bps, pc, 0) <==> pc in bps
  {
    if a: word :| a in bps && pc <= a <= pc + length {
      var i :| 0 <= i < |bps| && bps[i] == a;
      assert pc + length < 0x1_0000 ==> Between(bps, pc, WrapWord(pc + length));
    }
    if AtBp(bps, pc, length) {
      var i :| 0 <= i < |bps| && pc <= bps[i] <= WrapWord(pc + length);
      assert bps[i] in bps;
    }
    assert pc in bps ==> Between(bps, pc, pc);
  }

  lemma {:induction false} WithoutRemoves(bps: seq<word>, at: word, a: word)
    ensures a in Without(bps, at) <==> a in bps && a != at
  {
    if bps != [] {
      WithoutRemoves(bps[..|bps| - 1], at, a);
      assert bps == bps[..|bps| - 1] + [bps[|bps| - 1]];
    }
  }

  /** Commands that leave the user at the prompt. */
  predicate Stays(c: Command) {
    c.SetBp? || c.RemoveBp? || c.Other? || (c.Step? && c.n < 1)
  }

  predicate AllStay(cs: seq<Command>) {
    forall k :: 0 <= k < |cs| ==> Stays(cs[k])
  }

  /** The list after the commands cs. */
  function Edited(bps: seq<word>, cs: seq<Command>): seq<word> {
    if cs == [] then bps
    else
      var before := Edited(bps, cs[..|cs| - 1]);
      match cs[|cs| - 1]
      case SetBp(a) => before + [a]
      case RemoveBp(a) => Without(before, a)
      case _ => before
  }

  /** Command k set a breakpoint at a, and no later one of the n removed it. */
  predicate SetForGood(cs: seq<Command>, a: word, k: nat, n: nat)
    requires n <= |cs|
  {
    k < n && cs[k] == SetBp(a) && forall l :: k < l < n ==> cs[l] != RemoveBp(a)
  }

  lemma {:induction false} OneMoreCommand(cs: seq<Command>, a: word, m: nat, n: nat)
    requires m + 1 == n <= |cs|
    ensures (exists k: nat :: SetForGood(cs, a, k, n)) <==>
            cs[m] == SetBp(a) || (cs[m] != RemoveBp(a) && exists k: nat :: SetForGood(cs, a, k, m))
  {
    if k: nat :| SetForGood(cs, a, k, m) {
      assert cs[m] != RemoveBp(a) ==> SetForGood(cs, a, k, n);
    }
    assert cs[m] == SetBp(a) ==> SetForGood(cs, a, m, n);
    if k: nat :| SetForGood(cs, a, k, n) {
      assert k < m ==> SetForGood(cs, a, k, m);
    }
  }

  /** Whatever was set twice or removed in between, an address is listed after a history exactly when it
      has been set since it was last removed. */
  lemma {:induction false} ListedIff(cs: seq<Command>, a: word, n: nat)
    requires n <= |cs|
    ensures a in Edited([], cs[..n]) <==> exists k: nat :: SetForGood(cs, a, k, n)
  {
    if n > 0 {
      ListedIff(cs, a, n - 1);
      assert cs[..n][..n - 1] == cs[..n - 1];
      var before := Edited([], cs[..n - 1]);
      if cs[n - 1].RemoveBp? {
        WithoutRemoves(before, cs[n - 1].at, a);
      }
      OneMoreCommand(cs, a, n - 1, n);
      hide SetForGood, Without;
    }
  }

  /** At the prompt, editing commands change the list only, and the first other one is what resumes. */
  lemma {:induction false} PromptEdits(s: State, edits: seq<Command>, last: Command)
    requires s.mode.Stopped? && AllStay(edits)
    ensures ObeyAll(s, edits + [last]) == Obey(s.(bps := Edited(s.bps, edits)), last)
    decreases |edits|
  {
    if edits == [] {
      assert edits + [last] == [last];
      assert ObeyAll(s, [last]) == ObeyAll(Obey(s, last), []);
    } else {
      var t := Obey(s, edits[0]);
      PromptEdits(t, edits[1..], last);
      assert (edits + [last])[1..] == edits[1..] + [last];
      EditedFront(s.bps, edits);
    }
  }

  lemma {:induction false} EditedFront(bps: seq<word>, cs: seq<Command>)
    requires cs != []
    ensures Edited(bps, cs) == Edited(Edited(bps, cs[..1]), cs[1..])
  {
    if |cs| == 1 {
      assert cs[..1] == cs;
    } else {
      EditedFront(bps, cs[..|cs| - 1]);
      assert cs[..|cs| - 1][..1] == cs[..1];
      assert cs[..|cs| - 1][1..] == cs[1..][..|cs[1..]| - 1];
    }
  }

  /** The state in which the user, stopped at f, gives the resuming command. */
  ghost function Prompted(s: State, f: Fetch, edits: seq<Command>): State {
    Judge(Counted(s.(typed := s.typed + f.keys)), f).(bps := Edited(s.bps, edits))
  }

  lemma {:induction false} AtPrompt(s: State, f: Fetch, edits: seq<Command>, last: Command)
    requires Stops(s, f) && AllStay(edits) && f.commands == edits + [last]
    ensures var p := Prompted(s, f, edits);
            var u := Obey(p, last);
            && p.mode.Stopped? && !p.quitting && p.fetchCount < COUNTER
            && Next(s, f) == if u.mode.Stepping? && u.stepsLeft > 0 then EchoStep(u) else u
  {
    var c := Counted(s.(typed := s.typed + f.keys));
    PollKeeps(c);
    var j := Judge(c, f);
    assert j.bps == s.bps && !j.quitting && j.fetchCount == c.fetchCount;
    PromptEdits(j, edits, last);
  }

  // ---- Whole runs ----

  predicate NoStp(fs: seq<Fetch>) {
    forall i :: 0 <= i < |fs| ==> fs[i].opcode != 0xDB
  }

  /** How many of the instructions fs run before the debugger next stops. */
  function Freely(s: State, fs: seq<Fetch>): (n: nat)
    ensures n <= |fs|
    decreases |fs|
  {
    if fs == [] || Stops(s, fs[0]) then 0 else 1 + Freely(Next(s, fs[0]), fs[1..])
  }

  /** The first of fs with a breakpoint on it, or on the address after its last byte. */
  function FirstMatch(bps: seq<word>, fs: seq<Fetch>): (n: nat)
    ensures n <= |fs|
    ensures forall i :: 0 <= i < n ==> !AtBp(bps, fs[i].pc, fs[i].length)
    ensures n < |fs| ==> AtBp(bps, fs[n].pc, fs[n].length)
  {
    if fs == [] || AtBp(bps, fs[0].pc, fs[0].length) then 0 else 1 + FirstMatch(bps, fs[1..])
  }

  function Min(a: int, b: int): int {
    if a <= b then a else b
  }

  lemma {:induction false} SteppingRuns(s: State, fs: seq<Fetch>)
    requires s.mode.Stepping? && !s.quitting && s.stepsLeft >= 0 && NoStp(fs)
    ensures Freely(s, fs) == Min(s.stepsLeft, FirstMatch(s.bps, fs))
    decreases |fs|
  {
    if fs != [] && !Stops(s, fs[0]) {
      SteppingRuns(Next(s, fs[0]), fs[1..]);
    }
  }

  /** `s n`, after any editing at the prompt: of the instruction stopped at and those after it, the ones
      up to the first with a breakpoint run (the one stopped at runs regardless), and at most n. */
  lemma {:induction false} StepRunsExactly(s: State, f: Fetch, edits: seq<Command>, n: int, fs: seq<Fetch>)
    requires Stops(s, f) && n >= 1 && AllStay(edits) && f.commands == edits + [Step(n)] && NoStp(fs)
    ensures var t := Next(s, f);
            && t.bps == Edited(s.bps, edits)
            && 1 + Freely(t, fs) == Min(n, 1 + FirstMatch(t.bps, fs))
  {
    hide Next, Stops, Freely, FirstMatch, ObeyAll, Edited, NoStp, AllStay, Judge;
    AtPrompt(s, f, edits, Step(n));
    SteppingRuns(Next(s, f), fs);
  }

  /** A Ctrl-C was waiting in s, or has been typed by instruction i. */
  predicate CtrlCBy(s: State, fs: seq<Fetch>, i: nat)
    requires i < |fs|
  {
    3 in s.typed || exists j :: 0 <= j <= i && 3 in fs[j].keys
  }

  /** Instruction i after s is listed, or a Ctrl-C is there when the 512th fetch comes round. */
  predicate HaltsAt(s: State, fs: seq<Fetch>, i: nat)
    requires i < |fs|
  {
    fs[i].pc in s.bps || ((s.fetchCount + i + 1) % 512 == 0 && CtrlCBy(s, fs, i))
  }

  lemma {:induction false} HaltsWhenListed(s: State, fs: seq<Fetch>, i: nat)
    requires i < |fs|
    ensures fs[i].pc in s.bps ==> HaltsAt(s, fs, i)
  {
  }

  predicate Free(s: State) {
    s.mode.Running? && !s.quitting && !s.interrupted && s.fetchCount < COUNTER
  }

  lemma {:induction false} OneRunning(s: State, f: Fetch)
    requires Free(s) && f.opcode != STP
    ensures Stops(s, f) <==> HaltsAt(s, [f], 0)
    ensures !Stops(s, f) ==> Free(Next(s, f)) && Next(s, f).bps == s.bps
    ensures !Stops(s, f) ==> Next(s, f).fetchCount == (s.fetchCount + 1) % COUNTER
    ensures !Stops(s, f) ==> (CTRL_C in Next(s, f).typed <==> CtrlCBy(s, [f], 0))
  {
    var c := Counted(s.(typed := s.typed + f.keys));
    PollKeeps(c);
    assert c.fetchCount % POLL_INTERVAL == (s.fetchCount + 1) % POLL_INTERVAL;
    assert CTRL_C in c.typed <==> CTRL_C in s.typed || CTRL_C in [f][0].keys;
    assert f.pc in s.bps <==> AtBp(s.bps, f.pc, 0);
  }

  lemma {:induction false} HaltsShift(s: State, fs: seq<Fetch>, i: nat)
    requires fs != [] && Free(s) && fs[0].opcode != STP && !Stops(s, fs[0]) && i + 1 < |fs|
    ensures HaltsAt(s, fs, i + 1) <==> HaltsAt(Next(s, fs[0]), fs[1..], i)
  {
    OneRunning(s, fs[0]);
    var t := Next(s, fs[0]);
    assert (t.fetchCount + i + 1) % POLL_INTERVAL == (s.fetchCount + i + 2) % POLL_INTERVAL;
    assert CtrlCBy(t, fs[1..], i) <==> CtrlCBy(s, fs, i + 1) by {
      hide Next, Stops;
      if j :| 0 <= j <= i + 1 && CTRL_C in fs[j].keys {
        if j > 0 {
          assert CTRL_C in fs[1..][j - 1].keys;
        } else {
          assert CTRL_C in [fs[0]][0].keys;
        }
      }
      if j :| 0 <= j <= i && CTRL_C in fs[1..][j].keys {
        assert CTRL_C in fs[j + 1].keys;
      }
    }
  }

  /** Continuous execution stops at exactly the first halting instruction: no listed one runs, and
      nothing else stops it. */
  lemma {:induction false} RunningRuns(s: State, fs: seq<Fetch>)
    requires Free(s) && NoStp(fs)
    ensures forall i :: 0 <= i < Freely(s, fs) ==> !HaltsAt(s, fs, i)
    ensures Freely(s, fs) < |fs| ==> HaltsAt(s, fs, Freely(s, fs))
    decreases |fs|
  {
    if fs != [] {
      OneRunning(s, fs[0]);
      assert HaltsAt(s, [fs[0]], 0) <==> HaltsAt(s, fs, 0);
      if !Stops(s, fs[0]) {
        var n := Freely(s, fs);
        RunningRuns(Next(s, fs[0]), fs[1..]);
        forall i | 0 <= i < n ensures !HaltsAt(s, fs, i) {
          if i > 0 {
            HaltsShift(s, fs, i - 1);
          }
        }
        if n < |fs| {
          HaltsShift(s, fs, n - 1);
        }
      }
    }
  }

  /** `c`, after any editing at the prompt: the instruction stopped at runs, and then those up to the
      first halting one for the edited list. */
  lemma {:induction false} ContinueRunsExactly(s: State, f: Fetch, edits: seq<Command>, fs: seq<Fetch>)
    requires Stops(s, f) && AllStay(edits) && f.commands == edits + [Continue] && NoStp(fs)
    ensures var t, n := Next(s, f), Freely(Next(s, f), fs);
            && t.mode.Running? && t.bps == Edited(s.bps, edits)
            && (forall i :: 0 <= i < n ==> fs[i].pc !in t.bps && !HaltsAt(t, fs, i))
            && (n < |fs| ==> HaltsAt(t, fs, n))
  {
    hide Next, Stops, Freely, ObeyAll, Edited, HaltsAt, NoStp, AllStay, Judge;
    AtPrompt(s, f, edits, Continue);
    RunningRuns(Next(s, f), fs);
    forall i | 0 <= i < Freely(Next(s, f), fs)
      ensures fs[i].pc !in Next(s, f).bps
    {
      HaltsWhenListed(Next(s, f), fs, i);
    }
  }

  // ---- Restart, STP and quit ----

  /** A state in which a reset has been requested: the next boundary brings up the prompt. */
  lemma {:induction false} ResetStops(s: State, fs: seq<Fetch>)
    requires s.mode.Stepping? && s.stepsLeft <= 0 && !s.quitting && NoStp(fs)
    ensures Freely(s, fs) == 0
    ensures fs != [] ==> Stops(s, fs[0])
  {
  }

  /** `reset`, after any editing at the prompt: one reset is requested, and no instruction but the one
      stopped at runs before the prompt is back. */
  lemma {:induction false} RestartStops(s: State, f: Fetch, edits: seq<Command>, fs: seq<Fetch>)
    requires Stops(s, f) && AllStay(edits) && f.commands == edits + [Restart] && NoStp(fs)
    ensures var t := Next(s, f);
            && t.resets == s.resets + 1 && t.bps == Edited(s.bps, edits)
            && Freely(t, fs) == 0 && (fs != [] ==> Stops(t, fs[0]))
  {
    AtPrompt(s, f, edits, Restart);
    PromptResets(s, f);
    hide Freely, Stops, Edited, NoStp;
    ResetStops(Next(s, f), fs);
  }

  lemma {:induction false} PromptResets(s: State, f: Fetch)
    requires Stops(s, f)
    ensures Judge(Counted(s.(typed := s.typed + f.keys)), f).resets == s.resets
  {
    PollKeeps(Counted(s.(typed := s.typed + f.keys)));
  }

  /** STP does not stop in any mode: answered with restart it requests one reset and the prompt comes at
      the next boundary. */
  lemma {:induction false} StpRestarts(s: State, f: Fetch, fs: seq<Fetch>)
    requires !s.quitting && f.opcode == 0xDB && f.restart && NoStp(fs)
    ensures var t := Next(s, f);
            && !Stops(s, f) && t.resets == s.resets + 1 && t.bps == s.bps
            && Freely(t, fs) == 0 && (fs != [] ==> Stops(t, fs[0]))
  {
    ResetStops(Next(s, f), fs);
  }

  /** Once the debugger is quitting nothing stops the machine again and nothing changes but the keys. */
  lemma {:induction false} QuitsForGood(s: State, g: seq<Fetch>)
    requires s.quitting
    ensures Run(s, g) == s.(typed := Run(s, g).typed)
    ensures Freely(s, g) == |g|
    decreases |g|
  {
    if g != [] {
      QuitsForGood(s, g[..|g| - 1]);
      QuitsForGood(Next(s, g[0]), g[1..]);
    }
  }

  /** So it is after STP without restart, in any mode, and after `q`. */
  lemma {:induction false} StpQuits(s: State, f: Fetch, g: seq<Fetch>)
    requires !s.quitting && f.opcode == 0xDB && !f.restart
    ensures var t := Next(s, f); t.quitting && t.resets == s.resets && Freely(t, g) == |g|
  {
    QuitsForGood(Next(s, f), g);
  }

  lemma {:induction false} QuitQuits(s: State, f: Fetch, edits: seq<Command>, g: seq<Fetch>)
    requires Stops(s, f) && AllStay(edits) && f.commands == edits + [Quit]
    ensures var t := Next(s, f); t.quitting && t.resets == s.resets && Freely(t, g) == |g|
  {
    AtPrompt(s, f, edits, Quit);
    PromptResets(s, f);
    hide Freely, Stops;
    QuitsForGood(Next(s, f), g);
  }

  // ---- The list along a session ----

  /** The commands of cs that the prompt obeys. */
  function Obeyed(s: State, cs: seq<Command>): seq<Command>
    decreases |cs|
  {
    if !s.mode.Stopped? || cs == [] then [] else [cs[0]] + Obeyed(Obey(s, cs[0]), cs[1..])
  }

  /** Those obeyed at the boundary f. */
  function ObeyedAt(s: State, f: Fetch): seq<Command> {
    if Stops(s, f) then Obeyed(Judge(Counted(s.(typed := s.typed + f.keys)), f), f.commands) else []
  }

  /** Every command obeyed in a session. */
  function History(s: State, fs: seq<Fetch>): seq<Command> {
    if fs == [] then []
    else
      var g := fs[..|fs| - 1];
      History(s, g) + ObeyedAt(Run(s, g), fs[|fs| - 1])
  }

  lemma {:induction false} EditedThen(bps: seq<word>, a: seq<Command>, b: seq<Command>)
    ensures Edited(bps, a + b) == Edited(Edited(bps, a), b)
  {
    if b == [] {
      assert a + b == a;
    } else {
      EditedThen(bps, a, b[..|b| - 1]);
      assert (a + b)[..|a + b| - 1] == a + b[..|b| - 1];
    }
  }

  lemma {:induction false} OneEdit(s: State, c: Command)
    ensures Obey(s, c).bps == Edited(s.bps, [c])
  {
    assert Edited(s.bps, [c][..0]) == s.bps;
  }

  lemma {:induction false} PromptList(s: State, cs: seq<Command>)
    ensures ObeyAll(s, cs).bps == Edited(s.bps, Obeyed(s, cs))
    decreases |cs|
  {
    hide Obey, Edited;
    if s.mode.Stopped? && cs != [] {
      var t := Obey(s, cs[0]);
      OneEdit(s, cs[0]);
      PromptList(t, cs[1..]);
      EditedThen(s.bps, [cs[0]], Obeyed(t, cs[1..]));
    } else {
      NothingEdited(s.bps);
    }
  }

  lemma {:induction false} NothingEdited(bps: seq<word>)
    ensures Edited(bps, []) == bps
  {
  }

  lemma {:induction false} JudgeKeepsList(s: State, f: Fetch)
    ensures Judge(s, f).bps == s.bps
  {
    PollKeeps(s);
  }

  lemma {:induction false} BoundaryList(s: State, f: Fetch)
    ensures Next(s, f).bps == Edited(s.bps, ObeyedAt(s, f))
  {
    hide Judge, Edited, ObeyAll, Obeyed;
    var c := Counted(s.(typed := s.typed + f.keys));
    JudgeKeepsList(c, f);
    PromptList(Judge(c, f), f.commands);
    NothingEdited(s.bps);
  }

  /** The list at any point of a session is what the commands obeyed so far make of an empty one. */
  lemma {:induction false} ListIsHistory(s: State, fs: seq<Fetch>)
    requires s.bps == []
    ensures Run(s, fs).bps == Edited([], History(s, fs))
  {
    hide Next, Edited, ObeyedAt;
    if fs == [] {
      NothingEdited([]);
    } else {
      var g, f := fs[..|fs| - 1], fs[|fs| - 1];
      ListIsHistory(s, g);
      BoundaryList(Run(s, g), f);
      EditedThen([], History(s, g), ObeyedAt(Run(s, g), f));
    }
  }

  /** Resumed with `c` at f after any session g, the machine runs no instruction whose address has been
      set and not removed since, by any command of the session or of this prompt. */
  lemma {:induction false} NoListedRuns(s: State, g: seq<Fetch>, f: Fetch, edits: seq<Command>, fs: seq<Fetch>, i: nat,
      k: nat)
    requires s.bps == [] && Stops(Run(s, g), f) && AllStay(edits) && f.commands == edits + [Continue] && NoStp(fs)
    requires i < Freely(Next(Run(s, g), f), fs)
    ensures var h := History(s, g) + edits; !SetForGood(h, fs[i].pc, k, |h|)
  {
    hide Stops, Next, Freely, Edited, NoStp, AllStay, HaltsAt, SetForGood, History, Run;
    var h := History(s, g) + edits;
    ListIsHistory(s, g);
    ContinueRunsExactly(Run(s, g), f, edits, fs);
    EditedThen([], History(s, g), edits);
    ListedIff(h, fs[i].pc, |h|);
    assert h[..|h|] == h;
  }

  /** A waiting Ctrl-C ends continuous execution by the next multiple of 512, so within 512 fetches,
      wherever the 32-bit counter stands. */
  lemma {:induction false} CtrlCWithin512(s: State, fs: seq<Fetch>)
    requires Free(s) && NoStp(fs) && 3 in s.typed && |fs| >= 512
    ensures Freely(s, fs) <= 511 - s.fetchCount % 512
  {
    hide Freely;
    RunningRuns(s, fs);
    hide Free, NoStp;
    var i := POLL_INTERVAL - 1 - s.fetchCount % POLL_INTERVAL;
    assert CtrlCBy(s, fs, i);
    assert HaltsAt(s, fs, i);
  }
}
