/** The allocation table bit by bit, and the marks that end a chain from the masks of os/filesys/fatfs.h. */
module FatTable {
  import opened Base
  import opened Words
  import opened Fat

  // ---------------------------------------------------------------------------
  // Entries as bits.

  function Bit(x: nat, j: nat): nat {
    x / Pow2(j) % 2
  }

  /** The bits of the table, byte after byte, each from its lowest bit. */
  ghost function TableBit(v: Volume, i: nat): nat {
    Bit(TableByte(v, i / 8), i % 8)
  }

  /** How many bits an entry has, and how many of them are not reserved. */
  function Width(kind: FatType): nat {
    match kind case Fat12 => 12 case Fat16 => 16 case Fat32 => 32
  }

  function Significant(kind: FatType): nat {
    match kind case Fat12 => 12 case Fat16 => 16 case Fat32 => 28
  }

  /** The lower digits of a number in base 2^k. */
  lemma LowBit(lo: nat, hi: nat, k: nat, j: nat)
    requires lo < Pow2(k) && j < k
    ensures Bit(lo + Pow2(k) * hi, j) == Bit(lo, j)
  {
    hide Pow2;
    PowSplit(k, j);
    var d, x := Pow2(j), Pow2(k - j - 1);
    assert lo + Pow2(k) * hi == lo + d * (2 * x) * hi;
    DividesLow(lo, hi, d, x);
    Twice(lo / d, x * hi);
  }

  lemma PowSplit(k: nat, j: nat)
    requires j < k
    ensures Pow2(k) == Pow2(j) * (2 * Pow2(k - j - 1))
  {
    Pow2Add(j, k - j);
  }

  lemma DividesLow(lo: nat, hi: nat, d: nat, x: nat)
    requires d > 0
    ensures (lo + d * (2 * x) * hi) / d == lo / d + 2 * (x * hi)
  {
    var q, r := lo / d, lo % d;
    assert lo == d * q + r;
    Regroup(d, x, hi, q);
    DivModUnique(lo + d * (2 * x) * hi, d, q + 2 * (x * hi), r);
  }

  lemma Regroup(d: int, x: int, hi: int, q: int)
    ensures d * (2 * x) * hi == (2 * (x * hi)) * d && d * q + (2 * (x * hi)) * d == (q + 2 * (x * hi)) * d
  {
    assert d * (2 * x) * hi == d * ((2 * x) * hi);
    assert (2 * x) * hi == 2 * (x * hi);
  }

  lemma Twice(q: nat, m: nat)
    ensures (q + 2 * m) % 2 == q % 2
  {
  }

  /** The higher digits. */
  lemma HighBit(lo: nat, hi: nat, k: nat, j: nat)
    requires lo < Pow2(k) && j >= k
    ensures Bit(lo + Pow2(k) * hi, j) == Bit(hi, j - k)
  {
    hide Pow2;
    Pow2Add(k, j - k);
    DividesHigh(lo, hi, Pow2(k), Pow2(j - k));
  }

  lemma DividesHigh(lo: nat, hi: nat, p: nat, d: nat)
    requires lo < p && d > 0
    ensures p * d > 0 && (lo + p * hi) / (p * d) == hi / d
  {
    var q, r := hi / d, hi % d;
    assert hi == d * q + r;
    Distribute(p, d, q, r);
    MulAtMost(p, r + 1, d);
    assert p * (r + 1) == p * r + p;
    DivModUnique(lo + p * hi, p * d, q, p * r + lo);
  }

  lemma Distribute(p: int, d: int, q: int, r: int)
    ensures p * (d * q + r) == q * (p * d) + p * r
  {
    assert p * (d * q) == q * (p * d);
  }

  lemma MulAtMost(p: nat, a: nat, b: nat)
    requires a <= b
    ensures p * a <= p * b
  {
  }

  lemma BytesSmall()
    ensures Pow2(8) == 0x100 && Pow2(4) == 0x10 && Pow2(12) == 0x1000 && Pow2(16) == 0x1_0000
  {
    Pow2Values();
    assert Pow2(4) == 16;
  }

  /** The bits of a little-endian word. */
  lemma WordBits(v: Volume, o: nat, j: nat)
    requires j < 16
    ensures Bit(TableWord(v, o), j) == TableBit(v, 8 * o + j)
  {
    BytesSmall();
    var lo: int, hi: int := TableByte(v, o), TableByte(v, o + 1);
    if j < 8 {
      LowBit(lo, hi, 8, j);
      assert (8 * o + j) / 8 == o && (8 * o + j) % 8 == j;
    } else {
      HighBit(lo, hi, 8, j);
      assert (8 * o + j) / 8 == o + 1 && (8 * o + j) % 8 == j - 8;
    }
  }

  lemma WordSmall(v: Volume, o: nat)
    ensures TableWord(v, o) < 0x1_0000
  {
  }

  /** The entries lie one after the other, Width bits each: bit j of entry n is bit Width * n + j of the table. */
  lemma EntryBits(v: Volume, n: nat, j: nat)
    requires j < Significant(v.kind)
    ensures Bit(Entry(v, n), j) == TableBit(v, Width(v.kind) * n + j)
  {
    hide TableWord, TableBit, Bit, Pow2;
    BytesSmall();
    match v.kind
    case Fat12 =>
      var w, o := TableWord(v, n + n / 2), n + n / 2;
      WordSmall(v, o);
      var h := n / 2;
      if n % 2 == 1 {
        assert n == 2 * h + 1 && 12 * n + j == 8 * o + (j + 4);
        WordBits(v, o, j + 4);
        HighBit(w % 0x10, w / 0x10, 4, j + 4);
      } else {
        assert n == 2 * h && 12 * n + j == 8 * o + j;
        WordBits(v, o, j);
        LowBit(w % 0x1000, w / 0x1000, 12, j);
      }
    case Fat16 =>
      WordBits(v, 2 * n, j);
    case Fat32 =>
      var lo, hi := TableWord(v, 4 * n), TableWord(v, 4 * n + 2);
      WordSmall(v, 4 * n);
      WordSmall(v, 4 * n + 2);
      RawBits(v, n, j);
      var raw := RawEntry32(v, n);
      Pow28();
      LowBit(raw % 0x1000_0000, raw / 0x1000_0000, 28, j);
  }

  lemma Pow28()
    ensures Pow2(28) == 0x1000_0000
  {
    BytesSmall();
    Pow2Add(16, 12);
  }

  lemma RawBits(v: Volume, n: nat, j: nat)
    requires j < 32
    ensures Bit(RawEntry32(v, n), j) == TableBit(v, 32 * n + j)
  {
    hide TableWord, TableBit, Bit, Pow2;
    BytesSmall();
    var lo, hi := TableWord(v, 4 * n), TableWord(v, 4 * n + 2);
    WordSmall(v, 4 * n);
    if j < 16 {
      LowBit(lo, hi, 16, j);
      WordBits(v, 4 * n, j);
      assert 8 * (4 * n) + j == 32 * n + j;
    } else {
      HighBit(lo, hi, 16, j);
      WordBits(v, 4 * n + 2, j - 16);
      assert 8 * (4 * n + 2) + (j - 16) == 32 * n + j;
    }
  }

  // ---------------------------------------------------------------------------
  // Marks.

  const CLUST_EOFE: bv32 := 0xffff_ffff

  /** FAT12_MASK, FAT16_MASK and FAT32_MASK. */
  function Mask(kind: FatType): bv32 {
    match kind case Fat12 => 0xfff case Fat16 => 0xffff case Fat32 => 0xfff_ffff
  }

  /** The comparisons of lines 166, 172, 203 and 209: 2^w - 9 is a bad cluster and 2^w - 8 and above the end, for w bits. */
  lemma MarksOfMasks(kind: FatType)
    ensures
      var w := match kind case Fat12 => 12 case Fat16 => 16 case Fat32 => 28;
      && Significant(kind) == w && Mask(kind) as nat == Pow2(w) - 1
      && (CLUST_EOFE & Mask(kind) & 0xffff_fff7) as nat == BadMark(kind) == Pow2(w) - 9
      && (CLUST_EOFE & Mask(kind) & 0xffff_fff8) as nat == EndMark(kind) == Pow2(w) - 8
  {
    BytesSmall();
    Pow28();
  }

  /**
   A chain in numbers: from each cluster it goes on exactly while the entry is below 2^w - 9; it is bad
   exactly when it gets to 2^w - 9, and complete exactly when it gets to 2^w - 8 or above.
   */
  lemma ChainInNumbers(v: Volume, c: seq<nat>, bad: bool, w: nat)
    requires w == match v.kind case Fat12 => 12 case Fat16 => 16 case Fat32 => 28
    ensures IsChain(v, c, bad) <==>
              && c != [] && c[0] < 0x1000_0000
              && (forall i | 0 <= i < |c| - 1 :: GoesOn(v, c, i, w))
              && (if bad then CodeEntry(v, c[|c| - 1]) == Pow2(w) - 9 else CodeEntry(v, c[|c| - 1]) >= Pow2(w) - 8)
  {
    hide CodeEntry, Pow2;
    MarksOfMasks(v.kind);
    forall i | 0 <= i < |c| - 1
      ensures Linked(v, c, i) <==> GoesOn(v, c, i, w)
    {
    }
  }

  /** The entry of cluster i of c leads to cluster i + 1, and is neither mark for entries of w bits. */
  ghost predicate GoesOn(v: Volume, c: seq<nat>, i: nat, w: nat)
    requires i + 1 < |c|
  {
    CodeEntry(v, c[i]) == c[i + 1] && c[i + 1] < Pow2(w) - 9
  }

  // ---------------------------------------------------------------------------
  // Where the bytes of a file lie.

  /** x cut by sectors and then by clusters is x cut by bytes of a cluster. */
  lemma CutTwice(x: nat, spc: nat)
    requires spc > 0
    ensures spc * SECTORSIZE > 0
    ensures x / SECTORSIZE / spc == x / (spc * SECTORSIZE)
    ensures (x / SECTORSIZE) % spc * SECTORSIZE + x % SECTORSIZE == x % (spc * SECTORSIZE)
  {
    var k, b := x / SECTORSIZE, x % SECTORSIZE;
    var q, r := k / spc, k % spc;
    assert k == spc * q + r;
    MulAtMost(SECTORSIZE, r + 1, spc);
    Distribute(SECTORSIZE, spc, q, r);
    assert spc * SECTORSIZE == SECTORSIZE * spc;
    DivModUnique(x, spc * SECTORSIZE, q, r * SECTORSIZE + b);
  }

  /** The place in its chain of the cluster that holds byte x, and the byte's place in the cluster. */
  function PlaceOf(v: Volume, x: nat): (r: nat)
    ensures r == x / (v.spc * SECTORSIZE)
  {
    CutTwice(x, v.spc);
    x / (v.spc * SECTORSIZE)
  }

  function OffsetOf(v: Volume, x: nat): (r: nat)
    ensures r == x % (v.spc * SECTORSIZE)
  {
    CutTwice(x, v.spc);
    x % (v.spc * SECTORSIZE)
  }

  /** Where byte b of cluster e lies on the disk: clusters follow each other from number 2 on. */
  function ByteAt(v: Volume, e: nat, b: nat): nat
    requires e >= 2
  {
    var c := v.spc * SECTORSIZE;
    ProductNonNegative(e - 2, c);
    (v.start + v.dataBase) * SECTORSIZE + (e - 2) * c + b
  }

  /**
   Clusters lie one behind the other from number 2 on: byte x of a file is byte x mod C of the cluster at
   place x / C of its chain, with C bytes to a cluster.
   */
  lemma FileLayout(v: Volume, chain: seq<nat>, x: nat)
    requires DataChain(v, chain) && x < ChainBytes(v, chain)
    ensures PlaceOf(v, x) < |chain| && chain[PlaceOf(v, x)] >= 2
    ensures FileByte(v, chain, x) == v.disk(ByteAt(v, chain[PlaceOf(v, x)], OffsetOf(v, x)))
  {
    hide IsChain, ChainBytes, ClusterIndex, InCluster, FileByte, PlaceOf, OffsetOf, ByteAt;
    InsideChain(v, chain, x);
    CutTwice(x, v.spc);
    var k := x / SECTORSIZE;
    IndexIs(v, k);
    FileByteIs(v, chain, x, chain[ClusterIndex(v, k)], InCluster(v, k));
  }

  lemma FileByteIs(v: Volume, chain: seq<nat>, x: nat, e: nat, r: nat)
    requires DataChain(v, chain) && ClusterIndex(v, x / SECTORSIZE) < |chain|
    requires e == chain[ClusterIndex(v, x / SECTORSIZE)] && r == InCluster(v, x / SECTORSIZE)
    ensures e >= 2
    ensures FileByte(v, chain, x) == v.disk(ByteAt(v, e, r * SECTORSIZE + x % SECTORSIZE))
  {
    hide IsChain, ClusterIndex, InCluster, ClusterSector;
    SectorNonNegative(v, chain, x / SECTORSIZE);
    SectorIs(v, e, r);
    ByteOf(v, e, r, x % SECTORSIZE);
  }

  lemma IndexIs(v: Volume, k: nat)
    ensures ClusterIndex(v, k) == k / v.spc && InCluster(v, k) == k % v.spc
  {
  }

  lemma SectorIs(v: Volume, e: nat, r: nat)
    ensures ClusterSector(v, e, r) == v.dataBase + (e - 2) * v.spc + r
  {
  }

  lemma ByteOf(v: Volume, e: nat, r: nat, b: nat)
    requires e >= 2
    ensures (v.start + ClusterSector(v, e, r)) * SECTORSIZE + b == ByteAt(v, e, r * SECTORSIZE + b)
  {
    assert ((e - 2) * v.spc) * SECTORSIZE == (e - 2) * (v.spc * SECTORSIZE);
  }
}
