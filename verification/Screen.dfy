/**
 The monitor's text screen (tools/gpu.c): a 25 x 80 array that scrolls, as the last rows of an
 unbounded sheet of lines.
 */
module Screen {
  import opened Bytes

  const COLS := 80
  const ROWS := 25
  const BLANK: byte := 0
  const SPACE: byte := 32

  type Line = l: seq<byte> | |l| == COLS witness seq<byte>(COLS, _ => BLANK)

  function BlankLine(): Line {
    seq<byte>(COLS, _ => BLANK)
  }

  predicate Printable(c: byte) {
    32 <= c < 127
  }

  // ---- The unbounded sheet ----

  /** All lines since the last form feed; the cursor is in the last one. */
  datatype Sheet = Sheet(lines: seq<Line>, col: nat) {
    predicate Valid() {
      |lines| > 0 && col < COLS
    }

    function Last(): Line
      requires Valid()
    {
      lines[|lines| - 1]
    }

    function NewLine(): Sheet {
      Sheet(lines + [BlankLine()], 0)
    }

    /** b in the cursor's line at column k. */
    function Put(k: nat, b: byte): Sheet
      requires Valid() && k < COLS
    {
      this.(lines := lines[|lines| - 1 := Last()[k := b]])
    }
  }

  function Clean(): (s: Sheet)
    ensures s.Valid()
  {
    Sheet([BlankLine()], 0)
  }

  function Write(s: Sheet, c: byte): (t: Sheet)
    requires s.Valid()
    ensures t.Valid()
  {
    if c == 10 then s.NewLine()
    else if c == 13 then s.(col := 0)
    else if c == 8 then (if s.col > 0 then s.Put(s.col - 1, SPACE).(col := s.col - 1) else s)
    else if c == 12 then Clean()
    else if Printable(c) then
      var t := s.Put(s.col, c);
      if s.col + 1 >= COLS then t.NewLine() else t.(col := s.col + 1)
    else s
  }

  function WriteAll(s: Sheet, cs: seq<byte>): (t: Sheet)
    requires s.Valid()
    ensures t.Valid()
  {
    if cs == [] then s else Write(WriteAll(s, cs[..|cs| - 1]), cs[|cs| - 1])
  }

  /** First line of the sheet that the window shows. */
  function Top(s: Sheet): nat {
    if |s.lines| > ROWS then |s.lines| - ROWS else 0
  }

  /** Row k of a window whose first line is `top`; rows below the cursor's are blank. */
  function WindowRow(s: Sheet, top: nat, k: nat): Line {
    if top + k < |s.lines| then s.lines[top + k] else BlankLine()
  }

  predicate Plain(b: seq<byte>) {
    forall k :: 0 <= k < |b| ==> 32 <= b[k] < 127
  }

  /** Text without control characters fills the sheet in reading order. */
  lemma {:induction false} TextInReadingOrder(cs: seq<byte>)
    requires Plain(cs)
    ensures var s := WriteAll(Clean(), cs);
            && |s.lines| == |cs| / 80 + 1 && s.col == |cs| % 80
            && forall k :: 0 <= k < |cs| ==> s.lines[k / 80][k % 80] == cs[k]
  {
    if cs != [] {
      TextInReadingOrder(cs[..|cs| - 1]);
    }
  }

  // ---- Control characters, anywhere in a text ----

  lemma {:induction false} WriteThen(s: Sheet, a: seq<byte>, b: seq<byte>)
    requires s.Valid()
    ensures WriteAll(s, a + b) == WriteAll(WriteAll(s, a), b)
  {
    if b == [] {
      assert a + b == a;
    } else {
      WriteThen(s, a, b[..|b| - 1]);
      assert (a + b)[..|a + b| - 1] == a + b[..|b| - 1];
    }
  }

  /** The line with b written over it from column c on. */
  function Over(line: Line, c: nat, b: seq<byte>): Line
    requires c + |b| <= COLS
  {
    seq<byte>(COLS, k requires 0 <= k < 80 => if c <= k < c + |b| then b[k - c] else line[k])
  }

  /** Printable text that ends before the last column goes over the cursor's line. */
  lemma {:induction false} WriteOver(s: Sheet, b: seq<byte>)
    requires s.Valid() && Plain(b) && s.col + |b| < 80
    ensures WriteAll(s, b) == Sheet(s.lines[|s.lines| - 1 := Over(s.Last(), s.col, b)], s.col + |b|)
  {
    if b == [] {
      assert Over(s.Last(), s.col, b) == s.Last();
      assert s.lines[|s.lines| - 1 := s.Last()] == s.lines;
    } else {
      WriteOver(s, b[..|b| - 1]);
      assert Over(s.Last(), s.col, b[..|b| - 1])[s.col + |b| - 1 := b[|b| - 1]] == Over(s.Last(), s.col, b);
    }
  }

  /** What has been written after any text cs, whatever characters are in it. */
  function After(cs: seq<byte>): (s: Sheet)
    ensures s.Valid()
  {
    WriteAll(Clean(), cs)
  }

  lemma {:induction false} AfterControl(cs: seq<byte>, c: byte, b: seq<byte>)
    ensures After(cs + [c] + b) == WriteAll(Write(After(cs), c), b)
  {
    WriteThen(Clean(), cs + [c], b);
    WriteThen(Clean(), cs, [c]);
    assert WriteAll(After(cs), [c][..0]) == After(cs);
  }

  /** Line feed: the lines so far stay, and b stands at the beginning of a new one. */
  lemma {:induction false} LineFeed(cs: seq<byte>, b: seq<byte>)
    requires Plain(b) && |b| < 80
    ensures var s, t := After(cs), After(cs + [10] + b);
            && |t.lines| == |s.lines| + 1 && t.lines[..|s.lines|] == s.lines && t.col == |b|
            && forall k :: 0 <= k < 80 ==> t.lines[|s.lines|][k] == if k < |b| then b[k] else 0
  {
    AfterControl(cs, 10, b);
    WriteOver(Write(After(cs), 10), b);
  }

  /** Carriage return: no new line, and b stands over the front of the last one. */
  lemma {:induction false} CarriageReturn(cs: seq<byte>, b: seq<byte>)
    requires Plain(b) && |b| < 80
    ensures var s, t := After(cs), After(cs + [13] + b);
            var n := |s.lines| - 1;
            && |t.lines| == n + 1 && t.lines[..n] == s.lines[..n] && t.col == |b|
            && forall k :: 0 <= k < 80 ==> t.lines[n][k] == if k < |b| then b[k] else s.lines[n][k]
  {
    AfterControl(cs, 13, b);
    WriteOver(Write(After(cs), 13), b);
  }

  /** Backspace: the character before the cursor becomes a space and the cursor goes there; at the
      beginning of a line nothing happens. */
  lemma {:induction false} Backspace(cs: seq<byte>)
    ensures var s, t := After(cs), After(cs + [8]);
            var n := |s.lines| - 1;
            && |t.lines| == n + 1 && t.lines[..n] == s.lines[..n] && t.col == (if s.col > 0 then s.col - 1 else 0)
            && forall k :: 0 <= k < 80 ==> t.lines[n][k] == if k == s.col - 1 then 32 else s.lines[n][k]
  {
    AfterControl(cs, 8, []);
    assert cs + [8] + [] == cs + [8];
  }

  /** Form feed: as if nothing had been written before. */
  lemma {:induction false} FormFeed(cs: seq<byte>, b: seq<byte>)
    ensures After(cs + [12] + b) == After(b)
  {
    AfterControl(cs, 12, b);
  }

  /** Every other byte below 32, 127 and every byte above are as if they were not there. */
  lemma {:induction false} Ignored(cs: seq<byte>, c: byte, b: seq<byte>)
    requires (c < 32 && c != 8 && c != 10 && c != 12 && c != 13) || c >= 127
    ensures After(cs + [c] + b) == After(cs + b)
  {
    AfterControl(cs, c, b);
    WriteThen(Clean(), cs, b);
  }

  /** Two lines of text with a line feed between them. */
  lemma {:induction false} TwoLines(a: seq<byte>, b: seq<byte>)
    requires Plain(a) && Plain(b) && |a| < 80 && |b| < 80
    ensures var t := After(a + [10] + b);
            && |t.lines| == 2 && t.col == |b|
            && forall k :: 0 <= k < 80 ==>
                 && t.lines[0][k] == (if k < |a| then a[k] else 0)
                 && t.lines[1][k] == (if k < |b| then b[k] else 0)
  {
    WriteOver(Clean(), a);
    LineFeed(a, b);
    assert After(a + [10] + b).lines[..1][0] == After(a).lines[0];
  }

  // ---- The monitor ----

  /** The array of rows is updated in place; a row is a value whose cells are replaced one at a time. */
  class Monitor {
    const screen: array<Line>
    var row: nat
    var col: nat

    ghost predicate Valid()
      reads this
    {
      screen.Length == ROWS && row < ROWS && col < COLS
    }

    /** The array is the window from line `top` on; the cursor may be one row below it. */
    ghost predicate Window(s: Sheet, top: int)
      requires s.Valid() && screen.Length == ROWS
      reads this, screen
    {
      top >= 0 && col == s.col && top + row == |s.lines| - 1
      && forall k :: 0 <= k < ROWS ==> screen[k] == WindowRow(s, top, k)
    }

    /** The array and the cursor are the last-rows window onto the sheet. */
    ghost predicate Shows(s: Sheet)
      requires s.Valid()
      reads this, screen
    {
      Valid() && Window(s, Top(s))
    }

    /** Before scroll_if_needed: as Shows, or one blank line further with the window still behind. */
    ghost predicate Pending(s: Sheet)
      requires s.Valid()
      reads this, screen
    {
      && screen.Length == ROWS && row <= ROWS && Window(s, if row < ROWS then Top(s) else Top(s) - 1)
      && (row == ROWS ==> s.Last() == BlankLine())
    }

    constructor ()
      ensures Valid() && Shows(Clean()) && fresh(screen) && screen.Length == 25
    {
      screen := new Line[ROWS](_ => BlankLine());
      row, col := 0, 0;
    }

    /** scroll_if_needed: when the cursor has left the window, every row moves up by one. */
    method ScrollIfNeeded(ghost s: Sheet)
      requires s.Valid() && Pending(s)
      modifies this, screen
      ensures Shows(s)
    {
      if row >= ROWS {
        for k := 0 to ROWS - 1
          invariant row == old(row) && col == old(col)
          invariant forall i :: 0 <= i < k ==> screen[i] == WindowRow(s, Top(s), i)
          invariant forall i :: k <= i < ROWS ==> screen[i] == WindowRow(s, Top(s) - 1, i)
        {
          screen[k] := screen[k + 1];
        }
        screen[ROWS - 1] := BlankLine();
        row := ROWS - 1;
      }
    }

    method PutPrintable(c: byte, ghost s: Sheet)
      requires s.Valid() && Shows(s) && Printable(c)
      modifies this, screen
      ensures Pending(Write(s, c))
    {
      screen[row] := screen[row][col := c];
      col := col + 1;
      if col >= COLS {
        col := 0;
        row := row + 1;
      }
    }

    method Backspace(ghost s: Sheet)
      requires s.Valid() && Shows(s)
      modifies this, screen
      ensures Pending(Write(s, 8))
    {
      if col > 0 {
        col := col - 1;
        screen[row] := screen[row][col := SPACE];
      }
    }

    /** put_char. */
    method PutChar(c: byte, ghost s: Sheet)
      requires s.Valid() && Shows(s)
      modifies this, screen
      ensures Shows(Write(s, c))
    {
      if c == 10 {
        row := row + 1;
        col := 0;
      } else if c == 13 {
        col := 0;
      } else if c == 8 {
        Backspace(s);
      } else if c == 12 {
        forall k | 0 <= k < ROWS {
          screen[k] := BlankLine();
        }
        row, col := 0, 0;
      } else if 32 <= c < 127 {
        PutPrintable(c, s);
      }
      ScrollIfNeeded(Write(s, c));
    }

    /** The read loop of main: a buffer of bytes, one put_char each. The screen is then the last 25 lines of
        the sheet, or all of them with blank rows below, and the cursor is at its end. */
    method PutAll(cs: seq<byte>, ghost s: Sheet)
      requires s.Valid() && Shows(s)
      modifies this, screen
      ensures Shows(WriteAll(s, cs)) && screen.Length == 25
      ensures var t := WriteAll(s, cs);
              var top := if |t.lines| > 25 then |t.lines| - 25 else 0;
              && row == |t.lines| - 1 - top && col == t.col
              && forall k, c :: 0 <= k < 25 && 0 <= c < 80 ==>
                   screen[k][c] == if top + k < |t.lines| then t.lines[top + k][c] else 0
    {
      for i := 0 to |cs|
        invariant Shows(WriteAll(s, cs[..i]))
      {
        PutChar(cs[i], WriteAll(s, cs[..i]));
        assert cs[..i + 1][..i] == cs[..i];
      }
      assert cs[..|cs|] == cs;
    }
  }
}
