/**
 The ready-group bitmap: finding its lowest set bit with a table (os/thread.c) and with a loop
 (libc/ffs.c). Words are integers in two's complement, so a C int and its unsigned reading differ
 by a multiple of 2^32.
 */
module Ffs {
  import opened Words

  /** Bit p of v. */
  predicate Bit(v: int, p: nat)
    decreases p
  {
    if p == 0 then v % 2 == 1 else Bit(v / 2, p - 1)
  }

  /** v | (1 << p). */
  function SetBit(v: int, p: nat): int
    decreases p
  {
    if p == 0 then v / 2 * 2 + 1 else v % 2 + 2 * SetBit(v / 2, p - 1)
  }

  /** v & ~(1 << p). */
  function ClearBit(v: int, p: nat): int
    decreases p
  {
    if p == 0 then v / 2 * 2 else v % 2 + 2 * ClearBit(v / 2, p - 1)
  }

  lemma Halves(b: int, h: int)
    requires 0 <= b < 2
    ensures (b + 2 * h) / 2 == h && (b + 2 * h) % 2 == b
  {
  }

  lemma {:induction false} BitAfterSet(v: int, p: nat, q: nat)
    ensures Bit(SetBit(v, p), q) == (q == p || Bit(v, q))
    decreases p
  {
    if p > 0 {
      Halves(v % 2, SetBit(v / 2, p - 1));
      if q > 0 {
        BitAfterSet(v / 2, p - 1, q - 1);
      }
    } else {
      Halves(1, v / 2);
    }
  }

  lemma {:induction false} BitAfterClear(v: int, p: nat, q: nat)
    ensures Bit(ClearBit(v, p), q) == (q != p && Bit(v, q))
    decreases p
  {
    if p > 0 {
      Halves(v % 2, ClearBit(v / 2, p - 1));
      if q > 0 {
        BitAfterClear(v / 2, p - 1, q - 1);
      }
    } else {
      Halves(0, v / 2);
    }
  }

  /** Or-ing in a mask of one bit adds the mask unless the bit is there; clearing takes it away. */
  lemma {:induction false} MaskArithmetic(v: int, p: nat)
    ensures SetBit(v, p) == if Bit(v, p) then v else v + Pow2(p)
    ensures ClearBit(v, p) == if Bit(v, p) then v - Pow2(p) else v
    decreases p
  {
    if p > 0 {
      MaskArithmetic(v / 2, p - 1);
    }
  }

  /** A word stays a word. */
  lemma {:induction false} BitsInWord(v: int, p: nat, n: nat)
    requires 0 <= v < Pow2(n) && p < n
    ensures 0 <= SetBit(v, p) < Pow2(n) && 0 <= ClearBit(v, p) < Pow2(n)
    decreases p
  {
    if p > 0 {
      BitsInWord(v / 2, p - 1, n - 1);
    } else {
      assert Pow2(n) == 2 * Pow2(n - 1);
    }
  }

  lemma {:induction false} SomeBit(v: int, n: nat) returns (p: nat)
    requires 0 < v < Pow2(n)
    ensures p < n && Bit(v, p)
    decreases n
  {
    if v % 2 == 1 {
      p := 0;
    } else {
      p := SomeBit(v / 2, n - 1);
      p := p + 1;
    }
  }

  lemma {:induction false} NoBit(p: nat)
    ensures !Bit(0, p)
  {
    if p > 0 {
      NoBit(p - 1);
    }
  }

  function Abs(v: int): nat {
    if v < 0 then -v else v
  }

  /** The position of the lowest set bit. */
  function LowestSet(v: int): nat
    requires v != 0
    decreases Abs(v)
  {
    if v % 2 == 1 then 0 else 1 + LowestSet(v / 2)
  }

  lemma {:induction false} LowestSetIsLowest(v: int)
    requires v != 0
    ensures Bit(v, LowestSet(v)) && forall q: nat | q < LowestSet(v) :: !Bit(v, q)
    decreases Abs(v)
  {
    if v % 2 == 0 {
      LowestSetIsLowest(v / 2);
      forall q: nat | q < LowestSet(v)
        ensures !Bit(v, q)
      {
        assert q > 0 ==> !Bit(v / 2, q - 1);
      }
    }
  }

  /** ffs, libc/ffs.c lines 40-49. */
  method LoopFfs(mask: int) returns (bit: nat)
    ensures mask == 0 ==> bit == 0
    ensures mask != 0 ==> bit == LowestSet(mask) + 1
  {
    if mask == 0 {
      return 0;
    }
    var m := mask;
    bit := 1;
    while m % 2 == 0
      invariant m != 0 && LowestSet(mask) + 1 == bit + LowestSet(m)
      decreases Abs(m)
    {
      m := m / 2;
      bit := bit + 1;
    }
  }

  // ---------------------------------------------------------------------------
  // The table.

  const ROW_HEADS: seq<nat> := [0, 4, 5, 4, 6, 4, 5, 4, 7, 4, 5, 4, 6, 4, 5, 4]
  const ROW_REST: seq<nat> := [0, 0, 1, 0, 2, 0, 1, 0, 3, 0, 1, 0, 2, 0, 1, 0]

  /** __lowest_bit_bitmap, lines 109-127: sixteen rows that differ in their first entry only. */
  function LowestBitTable(b: nat): nat
    requires b < 256
  {
    if b % 16 == 0 then ROW_HEADS[b / 16] else ROW_REST[b % 16]
  }

  /** Byte k of a word. */
  function ByteOf(v: int, k: nat): (b: nat)
    ensures b < 256
    decreases k
  {
    if k == 0 then v % 256 else ByteOf(v / 256, k - 1)
  }

  /** __rt_ffs, lines 224-238. */
  function TableFfs(value: int): nat {
    if value == 0 then 0
    else if ByteOf(value, 0) != 0 then LowestBitTable(ByteOf(value, 0)) + 1
    else if ByteOf(value, 1) != 0 then LowestBitTable(ByteOf(value, 1)) + 9
    else if ByteOf(value, 2) != 0 then LowestBitTable(ByteOf(value, 2)) + 17
    else LowestBitTable(ByteOf(value, 3)) + 25
  }

  lemma RowRight(x: nat)
    requires 0 < x < 16
    ensures LowestSet(x) == ROW_REST[x] && 4 + LowestSet(x) == ROW_HEADS[x]
  {
    assert LowestSet(1) == 0 && LowestSet(2) == 1 && LowestSet(4) == 2 && LowestSet(8) == 3;
    assert LowestSet(6) == 1 && LowestSet(10) == 1 && LowestSet(14) == 1 && LowestSet(12) == 2;
  }

  /** The lowest set bit lies in the low part unless that is zero. */
  lemma {:induction false} LowPart(v: int, k: nat)
    requires v != 0
    ensures v % Pow2(k) != 0 ==> LowestSet(v % Pow2(k)) == LowestSet(v)
    ensures v % Pow2(k) == 0 ==> v / Pow2(k) != 0 && LowestSet(v) == k + LowestSet(v / Pow2(k))
    decreases k
  {
    if k > 0 {
      HalfSplit(v, Pow2(k - 1));
      if v % 2 == 0 {
        LowPart(v / 2, k - 1);
      }
    }
  }

  lemma HalfSplit(v: int, m: nat)
    requires m > 0
    ensures v % (2 * m) == v % 2 + 2 * (v / 2 % m) && v / (2 * m) == v / 2 / m
  {
    var h := v / 2;
    var q, r := h / m, h % m;
    assert h == m * q + r;
    assert v == (2 * m) * q + (2 * r + v % 2);
    DivModUnique(v, 2 * m, q, 2 * r + v % 2);
  }

  lemma TableRight(b: nat)
    requires 0 < b < 256
    ensures LowestBitTable(b) == LowestSet(b)
  {
    LowPart(b, 4);
    assert Pow2(4) == 16;
    RowRight(if b % 16 != 0 then b % 16 else b / 16);
  }

  /** The lowest set bit of a word lies in its lowest non-zero byte. */
  lemma {:induction false} LowestByte(v: int, k: nat)
    requires v != 0 && ByteOf(v, k) != 0 && forall j: nat | j < k :: ByteOf(v, j) == 0
    ensures LowestSet(v) == 8 * k + LowestBitTable(ByteOf(v, k))
    decreases k
  {
    hide LowestSet, LowestBitTable;
    LowPart(v, 8);
    Pow2Values();
    assert ByteOf(v, 0) == v % 256;
    if k == 0 {
      TableRight(v % 256);
    } else {
      forall j: nat | j < k - 1
        ensures ByteOf(v / 256, j) == 0
      {
        assert ByteOf(v, j + 1) == 0;
      }
      LowestByte(v / 256, k - 1);
    }
  }

  /** A non-zero 32-bit word, signed or unsigned, has a non-zero byte. */
  lemma SomeByte(v: int)
    requires -TWO31 <= v < TWO32 && ByteOf(v, 0) == 0 && ByteOf(v, 1) == 0 && ByteOf(v, 2) == 0 && ByteOf(v, 3) == 0
    ensures v == 0
  {
    assert ByteOf(v, 0) == v % 256;
    var a := v / 256;
    assert ByteOf(v, 1) == ByteOf(a, 0) == a % 256 && ByteOf(v, 2) == ByteOf(a, 1) && ByteOf(v, 3) == ByteOf(a, 2);
    var b := a / 256;
    assert ByteOf(a, 1) == ByteOf(b, 0) == b % 256 && ByteOf(a, 2) == ByteOf(b, 1);
    var c := b / 256;
    assert ByteOf(b, 1) == ByteOf(c, 0) == c % 256;
  }

  /** The table-driven search finds the lowest set bit of any 32-bit word, signed or unsigned. */
  lemma TableFfsRight(v: int)
    requires -TWO31 <= v < TWO32
    ensures TableFfs(v) == if v == 0 then 0 else LowestSet(v) + 1
  {
    hide LowestSet, LowestBitTable, ByteOf;
    if v != 0 {
      if ByteOf(v, 0) != 0 {
        LowestByte(v, 0);
      } else if ByteOf(v, 1) != 0 {
        LowestByte(v, 1);
      } else if ByteOf(v, 2) != 0 {
        LowestByte(v, 2);
      } else if ByteOf(v, 3) != 0 {
        LowestByte(v, 3);
      } else {
        SomeByte(v);
      }
    }
  }

  /** A C int holding the unsigned word g. */
  function AsInt(g: nat): int {
    if g >= TWO31 then g - TWO32 else g
  }

  lemma {:induction false} SameBytes(v: int, w: int, m: int, k: nat, j: nat)
    requires v == w + m * Pow2(8 * k) && j < k
    ensures ByteOf(v, j) == ByteOf(w, j)
    decreases k
  {
    Pow2Add(8, 8 * (k - 1));
    Pow2Values();
    var c := m * Pow2(8 * (k - 1));
    assert v == w + 256 * c;
    if j > 0 {
      assert v / 256 == w / 256 + c;
      SameBytes(v / 256, w / 256, m, k - 1, j - 1);
    }
  }

  /** Reading the group as a signed int does not change what is found. */
  lemma SignIrrelevant(g: nat)
    requires 0 < g < TWO32
    ensures TableFfs(AsInt(g)) == LowestSet(g) + 1
  {
    hide LowestSet, LowestBitTable, ByteOf;
    TableFfsRight(g);
    if g >= TWO31 {
      Pow2Values();
      SameBytes(AsInt(g), g, -1, 4, 0);
      SameBytes(AsInt(g), g, -1, 4, 1);
      SameBytes(AsInt(g), g, -1, 4, 2);
      SameBytes(AsInt(g), g, -1, 4, 3);
    }
  }
}
