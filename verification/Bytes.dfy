/**
 Bytes and 16-bit words as the 65C02 and the kernel's C code use them: unbounded integers with the
 wrap-around written out.
 */
module Bytes {

  type byte = x: int | 0 <= x < 0x100
  type word = x: int | 0 <= x < 0x1_0000

  function Lo(w: word): byte {
    w % 0x100
  }

  function Hi(w: word): byte {
    w / 0x100
  }

  function Word(lo: byte, hi: byte): word {
    lo + 0x100 * hi
  }

  /** Eight-bit wrap-around of a sum or difference of a byte and a small number. */
  function Wrap(x: int): byte
    requires -0x100 <= x < 0x200
  {
    if x < 0 then x + 0x100 else if x < 0x100 then x else x - 0x100
  }

  /** Sixteen-bit wrap-around, for the same purpose. */
  function WrapWord(x: int): word
    requires -0x1_0000 <= x < 0x2_0000
  {
    if x < 0 then x + 0x1_0000 else if x < 0x1_0000 then x else x - 0x1_0000
  }

  lemma {:induction false} WrapIsMod(x: int)
    ensures -0x100 <= x < 0x200 ==> Wrap(x) == x % 0x100
    ensures -0x1_0000 <= x < 0x2_0000 ==> WrapWord(x) == x % 0x1_0000
  {
  }

  /** Bit n of b. */
  predicate Bit(b: byte, n: nat)
    requires n < 8
  {
    match n
    case 0 => b % 2 == 1
    case 1 => b / 2 % 2 == 1
    case 2 => b / 4 % 2 == 1
    case 3 => b / 8 % 2 == 1
    case 4 => b / 16 % 2 == 1
    case 5 => b / 32 % 2 == 1
    case 6 => b / 64 % 2 == 1
    case _ => b / 128 == 1
  }

  /** The flag byte without its two bits (4 and 5) that no flip-flop of the 65C02 holds. */
  function Flags(p: byte): byte {
    p / 0x40 * 0x40 + p % 0x10
  }

  /** What BRK pushes: the flags with the B bit and bit 5 set. */
  function Pushed(p: byte): byte {
    Flags(p) + 0x30
  }

  /** The bits of a byte are those of its two halves. */
  lemma {:induction false} LowBit(b: byte, q: nat, r: nat, n: nat)
    requires b == 16 * q + r && r < 16 && n < 4
    ensures Bit(b, n) <==> Bit(r, n)
  {
    if n == 0 {
    } else if n == 1 {
      assert b / 2 == 8 * q + r / 2;
    } else if n == 2 {
      assert b / 4 == 4 * q + r / 4;
    } else {
      assert b / 8 == 2 * q + r / 8;
    }
  }

  lemma {:induction false} HighBit(b: byte, q: nat, r: nat, n: nat)
    requires b == 16 * q + r && r < 16 && 4 <= n < 8
    ensures Bit(b, n) <==> Bit(q, n - 4)
  {
    if n == 4 {
      assert b / 16 == q;
    } else if n == 5 {
      assert b / 32 == q / 2;
    } else if n == 6 {
      assert b / 64 == q / 4;
    } else {
      assert b / 128 == q / 8 < 2;
    }
  }

  lemma {:induction false} HalfOfBits(r: nat)
    requires r < 16
    ensures r == (if Bit(r, 0) then 1 else 0) + (if Bit(r, 1) then 2 else 0) + (if Bit(r, 2) then 4 else 0)
                 + (if Bit(r, 3) then 8 else 0)
  {
    var h1, h2 := r / 2, r / 4;
    assert r == 2 * h1 + r % 2;
    assert h1 == 2 * h2 + h1 % 2;
    assert h2 == 2 * (r / 8) + h2 % 2;
    assert r / 8 < 2;
  }

  /** A byte is the sum of its bits. */
  lemma {:induction false} ByteOfBits(b: byte)
    ensures b == (if Bit(b, 0) then 1 else 0) + (if Bit(b, 1) then 2 else 0) + (if Bit(b, 2) then 4 else 0)
                 + (if Bit(b, 3) then 8 else 0) + (if Bit(b, 4) then 16 else 0) + (if Bit(b, 5) then 32 else 0)
                 + (if Bit(b, 6) then 64 else 0) + (if Bit(b, 7) then 128 else 0)
  {
    var q, r := b / 16, b % 16;
    assert b == 16 * q + r;
    hide Bit;
    HalfOfBits(r);
    HalfOfBits(q);
    forall n | 0 <= n < 4
      ensures Bit(b, n) <==> Bit(r, n)
      ensures Bit(b, n + 4) <==> Bit(q, n)
    {
      LowBit(b, q, r, n);
      HighBit(b, q, r, n + 4);
    }
    assert Bit(b, 0 + 4) == Bit(q, 0) && Bit(b, 1 + 4) == Bit(q, 1) && Bit(b, 2 + 4) == Bit(q, 2)
        && Bit(b, 3 + 4) == Bit(q, 3);
  }

  lemma {:induction false} WithoutLowPair(q: nat, n: nat)
    requires q < 16 && n < 4
    ensures Bit(q / 4 * 4, n) <==> n >= 2 && Bit(q, n)
  {
    var h := q / 4;
    if n == 1 {
      assert h * 4 / 2 == 2 * h;
    } else if n == 3 {
      assert h * 4 / 8 == h / 2 == q / 8;
    }
  }

  /** Only bits 4 and 5 are dropped. */
  lemma {:induction false} FlagBits(p: byte, n: nat)
    requires n < 8
    ensures Bit(Flags(p), n) <==> n != 4 && n != 5 && Bit(p, n)
  {
    var q, r := p / 16, p % 16;
    assert p == 16 * q + r && p / 64 == q / 4;
    var f := Flags(p);
    assert f == 16 * (q / 4 * 4) + r;
    hide Bit, Flags;
    if n < 4 {
      LowBit(p, q, r, n);
      LowBit(f, q / 4 * 4, r, n);
    } else {
      HighBit(p, q, r, n);
      HighBit(f, q / 4 * 4, r, n);
      WithoutLowPair(q, n - 4);
    }
  }

  lemma {:induction false} FlagsKept(p: byte)
    requires !Bit(p, 4) && !Bit(p, 5)
    ensures Flags(p) == p
  {
  }

  lemma {:induction false} PushedFlags(p: byte)
    ensures Flags(Pushed(p)) == Flags(p)
    ensures Bit(Pushed(p), 4)
  {
  }

  /** The shift-and-mask form in which proc.c and syscalls.c join a page and an offset is the
      multiplication and remainder used throughout this model. */
  lemma {:induction false} ShiftAndMask(page: bv16, va: bv16)
    requires page < 32
    ensures (page << 10) | (va & 0x03FF) == page * 1024 + va % 1024
    ensures (va >> 10) & 31 == (va / 1024) % 32
  {
  }
}
