/** The FAT reader of os/filesys/fatfs.c over the block device layer. */
module Fat {
  import opened Base
  import opened Words
  import opened Devfs

  const SECTORSIZE := 512

  datatype FatType = Fat12 | Fat16 | Fat32

  type SectorsPerCluster = n: int | 0 < n < 256 witness 1

  /** What fat_init learns about a volume; start is the partition's first sector. */
  datatype Volume = Volume(disk: nat -> Byte, start: nat, resSectors: nat, kind: FatType, dataBase: nat, spc: SectorsPerCluster)

  // ---------------------------------------------------------------------------
  // The allocation table as the "FAT Data Structure" section of the FAT32 File System
  // Specification defines it.

  /** Byte o of the table. */
  ghost function TableByte(v: Volume, o: nat): Byte {
    v.disk((v.start + v.resSectors) * SECTORSIZE + o)
  }

  /** The little-endian word at byte o of the table. */
  ghost function TableWord(v: Volume, o: nat): nat {
    var lo: int, hi: int := TableByte(v, o), TableByte(v, o + 1);
    lo + 0x100 * hi
  }

  /** The entry of cluster n: 12 packed bits, 16 bits, or 32 bits of which the top four are reserved. */
  ghost function Entry(v: Volume, n: nat): nat {
    match v.kind
    case Fat12 => if n % 2 == 1 then TableWord(v, n + n / 2) / 0x10 else TableWord(v, n + n / 2) % 0x1000
    case Fat16 => TableWord(v, 2 * n)
    case Fat32 => RawEntry32(v, n) % 0x1000_0000
  }

  ghost function RawEntry32(v: Volume, n: nat): nat {
    TableWord(v, 4 * n) + 0x1_0000 * TableWord(v, 4 * n + 2)
  }

  /** What the code uses: it does not mask the reserved bits of a FAT32 entry. */
  ghost function CodeEntry(v: Volume, n: nat): nat {
    if v.kind.Fat32? then RawEntry32(v, n) else Entry(v, n)
  }

  /** The bytes of one table sector, as the cache holds them. */
  ghost function TableSector(v: Volume, k: nat): (s: seq<Byte>)
    ensures |s| == SECTORSIZE
  {
    Bytes(v.disk, (v.start + (v.resSectors + k)) * SECTORSIZE, SECTORSIZE)
  }

  lemma TableSectorByte(v: Volume, k: nat, i: nat)
    requires i < SECTORSIZE
    ensures TableSector(v, k)[i] == TableByte(v, k * SECTORSIZE + i)
  {
    assert (v.start + (v.resSectors + k)) * SECTORSIZE + i == (v.start + v.resSectors) * SECTORSIZE + (k * SECTORSIZE + i);
  }

  // ---------------------------------------------------------------------------
  // Cluster chains.

  function EndMark(kind: FatType): nat {
    match kind case Fat12 => 0xff8 case Fat16 => 0xfff8 case Fat32 => 0xfff_fff8
  }

  function BadMark(kind: FatType): nat {
    EndMark(kind) - 1
  }

  /** Cluster i of c leads to cluster i + 1. */
  ghost predicate Linked(v: Volume, c: seq<nat>, i: nat)
    requires i + 1 < |c|
  {
    CodeEntry(v, c[i]) == c[i + 1] && c[i + 1] < BadMark(v.kind)
  }

  /** c follows the table from its first cluster to an entry that ends it: end-of-chain, or the bad mark. */
  ghost predicate IsChain(v: Volume, c: seq<nat>, bad: bool) {
    && c != [] && c[0] < 0x1000_0000
    && (forall i | 0 <= i < |c| - 1 :: Linked(v, c, i))
    && (if bad then CodeEntry(v, c[|c| - 1]) == BadMark(v.kind) else CodeEntry(v, c[|c| - 1]) >= EndMark(v.kind))
  }

  // The chains of the specification, by the entries without their reserved bits.

  ghost predicate SpecLinked(v: Volume, c: seq<nat>, i: nat)
    requires i + 1 < |c|
  {
    Entry(v, c[i]) == c[i + 1] && c[i + 1] < BadMark(v.kind)
  }

  ghost predicate IsSpecChain(v: Volume, c: seq<nat>, bad: bool) {
    && c != [] && c[0] < 0x1000_0000
    && (forall i | 0 <= i < |c| - 1 :: SpecLinked(v, c, i))
    && (if bad then Entry(v, c[|c| - 1]) == BadMark(v.kind) else Entry(v, c[|c| - 1]) >= EndMark(v.kind))
  }

  /** The reserved bits of the entry of cluster n are zero. */
  ghost predicate Clear(v: Volume, n: nat) {
    v.kind.Fat32? ==> RawEntry32(v, n) < 0x1000_0000
  }

  /**
   A chain of the specification is the one the code follows exactly when the reserved bits are clear
   in every entry but an end-of-chain mark, where they do not matter.
   */
  lemma SpecChainFollowed(v: Volume, c: seq<nat>, bad: bool)
    requires IsSpecChain(v, c, bad)
    ensures IsChain(v, c, bad) <==> (forall i | 0 <= i < |c| - 1 :: Clear(v, c[i])) && (bad ==> Clear(v, c[|c| - 1]))
  {
    hide RawEntry32, TableWord;
    forall i | 0 <= i < |c| - 1
      ensures Linked(v, c, i) <==> Clear(v, c[i])
    {
      assert SpecLinked(v, c, i);
    }
    assert CodeEntry(v, c[|c| - 1]) >= Entry(v, c[|c| - 1]);
  }

  /** A chain that ends never visits a cluster twice. */
  lemma {:induction false} ChainNeverRepeats(v: Volume, c: seq<nat>, i: nat, j: nat)
    requires IsChain(v, c, false) && i < j < |c|
    ensures c[i] != c[j]
    decreases |c| - j
  {
    assert Linked(v, c, i);
    if j + 1 < |c| {
      assert Linked(v, c, j);
      ChainNeverRepeats(v, c, i + 1, j + 1);
    }
  }

  lemma ChainTail(v: Volume, c: seq<nat>, bad: bool)
    requires IsChain(v, c, bad) && |c| > 1
    ensures IsChain(v, c[1..], bad) && CodeEntry(v, c[0]) == c[1] < BadMark(v.kind)
  {
    assert Linked(v, c, 0);
    forall i | 0 <= i < |c[1..]| - 1
      ensures Linked(v, c[1..], i)
    {
      assert Linked(v, c, i + 1);
    }
  }

  /** From one start there is one chain. */
  lemma {:induction false} ChainUnique(v: Volume, c: seq<nat>, bad: bool, c': seq<nat>, bad': bool)
    requires IsChain(v, c, bad) && IsChain(v, c', bad') && c[0] == c'[0]
    ensures c == c' && bad == bad'
  {
    if |c| > 1 {
      ChainTail(v, c, bad);
    }
    if |c'| > 1 {
      ChainTail(v, c', bad');
    }
    if |c| > 1 && |c'| > 1 {
      ChainUnique(v, c[1..], bad, c'[1..], bad');
      assert c == [c[0]] + c[1..] && c' == [c'[0]] + c'[1..];
    }
  }

  // ---------------------------------------------------------------------------
  // File positions.

  /** The volume sector of sector k of a file with this chain, -1 behind its end. */
  ghost function FileSector(v: Volume, chain: seq<nat>, k: nat): int {
    if ClusterIndex(v, k) < |chain| then ClusterSector(v, chain[ClusterIndex(v, k)], InCluster(v, k)) else -1
  }

  /** The position in the chain of file sector k, and its place in that cluster. */
  function ClusterIndex(v: Volume, k: nat): nat {
    ProductNonNegative(k, v.spc);
    k / v.spc
  }

  function InCluster(v: Volume, k: nat): (r: nat)
    ensures r < v.spc
  {
    k % v.spc
  }

  /** Sector r of a cluster; data clusters are numbered from 2. */
  ghost function ClusterSector(v: Volume, cluster: int, r: int): int {
    v.dataBase + (cluster - 2) * v.spc + r
  }

  /** A chain that holds file data. */
  ghost predicate DataChain(v: Volume, chain: seq<nat>) {
    IsChain(v, chain, false) && forall i | 0 <= i < |chain| :: chain[i] >= 2
  }

  /** A chain for a file of this size; that of an empty file may start at the reserved cluster 0. */
  ghost predicate FileChain(v: Volume, chain: seq<nat>, size: nat) {
    IsChain(v, chain, false) && size <= ChainBytes(v, chain) && (size > 0 ==> DataChain(v, chain))
  }

  lemma SectorNonNegative(v: Volume, chain: seq<nat>, k: nat)
    requires DataChain(v, chain) && ClusterIndex(v, k) < |chain|
    ensures FileSector(v, chain, k) >= 0
  {
    hide IsChain, ClusterIndex;
    ProductNonNegative(chain[ClusterIndex(v, k)] - 2, v.spc);
  }

  /** Byte x of a file with this chain. */
  ghost function FileByte(v: Volume, chain: seq<nat>, x: nat): Byte {
    var sector := FileSector(v, chain, x / SECTORSIZE);
    if sector < 0 then 0 else v.disk((v.start + sector) * SECTORSIZE + x % SECTORSIZE)
  }

  /** n clusters from position i on are neighbours on the volume. */
  ghost predicate Contiguous(chain: seq<nat>, i: nat, n: nat) {
    i + n <= |chain| && forall j | i <= j < i + n :: chain[j] == chain[i] + (j - i)
  }

  /** Within neighbouring clusters the file's sectors are neighbours too. */
  lemma RunOfSectors(v: Volume, chain: seq<nat>, k: nat, n: nat, s: nat)
    requires Contiguous(chain, ClusterIndex(v, k), n) && n > 0
    requires s < n * v.spc - InCluster(v, k)
    ensures FileSector(v, chain, k + s) == FileSector(v, chain, k) + s
  {
    hide ClusterSector, ClusterIndex, InCluster;
    var i := ClusterIndex(v, k);
    var j := SectorsOn(v, k, s, n);
    assert chain[i + j] == chain[i] + j;
    SectorAhead(v, chain[i], InCluster(v, k), j, InCluster(v, k + s), s);
  }

  /** s sectors on is j clusters on. */
  lemma SectorsOn(v: Volume, k: nat, s: nat, n: nat) returns (j: nat)
    requires s < n * v.spc - InCluster(v, k)
    ensures j < n && ClusterIndex(v, k + s) == ClusterIndex(v, k) + j
    ensures j * v.spc + InCluster(v, k + s) == InCluster(v, k) + s
  {
    j := SplitIndex(v.spc, k, s);
    QuotientLess(k % v.spc + s, v.spc, n);
  }

  lemma SectorAhead(v: Volume, e: int, r: int, j: int, r': int, s: int)
    requires j * v.spc + r' == r + s
    ensures ClusterSector(v, e + j, r') == ClusterSector(v, e, r) + s
  {
    MulAddsTwo(v.spc, e - 2, j);
  }

  lemma SplitIndex(d: nat, k: nat, s: nat) returns (j: nat)
    requires d > 0
    ensures j == (k % d + s) / d
    ensures (k + s) / d == k / d + j && j * d + (k + s) % d == k % d + s
  {
    var t := k % d + s;
    j := t / d;
    var i, r' := k / d, t % d;
    assert k == d * i + k % d && t == d * j + r';
    MulAddsTwo(d, i, j);
    DivModUnique(k + s, d, i + j, r');
  }

  lemma MulAddsTwo(d: int, a: int, b: int)
    ensures (a + b) * d == d * a + d * b == a * d + b * d
  {
  }

  lemma QuotientLess(t: nat, d: nat, n: nat)
    requires d > 0 && t < n * d
    ensures t / d < n
  {
    var q := t / d;
    assert t >= d * q;
    if q >= n {
      assert d * q >= d * n by { MulAtLeastTimes(d, q, n); }
      assert false;
    }
  }

  lemma MulAtLeastTimes(d: int, q: int, n: int)
    requires d >= 0 && q >= n
    ensures d * q >= d * n
  {
  }

  /** A chain without repetition maps file sectors to different volume sectors. */
  lemma SectorsDiffer(v: Volume, chain: seq<nat>, a: nat, b: nat)
    requires DataChain(v, chain) && FileSector(v, chain, a) == FileSector(v, chain, b) >= 0
    ensures a == b
  {
    hide IsChain, ClusterSector, ClusterIndex, InCluster;
    var i, j := ClusterIndex(v, a), ClusterIndex(v, b);
    SameSector(v, chain[i], InCluster(v, a), chain[j], InCluster(v, b));
    if i < j {
      ChainNeverRepeats(v, chain, i, j);
    } else if j < i {
      ChainNeverRepeats(v, chain, j, i);
    }
    QuotientAndRest(v, a, b);
  }

  lemma SameSector(v: Volume, x: int, r: int, y: int, r': int)
    requires 0 <= r < v.spc && 0 <= r' < v.spc && ClusterSector(v, x, r) == ClusterSector(v, y, r')
    ensures x == y && r == r'
  {
    SameDigits(v.spc, x - 2, r, y - 2, r');
  }

  lemma QuotientAndRest(v: Volume, a: nat, b: nat)
    requires ClusterIndex(v, a) == ClusterIndex(v, b) && InCluster(v, a) == InCluster(v, b)
    ensures a == b
  {
    assert a == v.spc * (a / v.spc) + a % v.spc && b == v.spc * (b / v.spc) + b % v.spc;
  }

  lemma SameDigits(d: int, x: int, r: int, y: int, r': int)
    requires d > 0 && 0 <= r < d && 0 <= r' < d && x * d + r == y * d + r'
    ensures x == y && r == r'
  {
    DivModUnique(x * d + r, d, x, r);
    DivModUnique(x * d + r, d, y, r');
  }

  /** The file bytes [from, from + n). */
  ghost function FileBytes(v: Volume, chain: seq<nat>, from: nat, n: nat): (s: seq<Byte>)
    ensures |s| == n
  {
    seq<Byte>(n, i requires 0 <= i < n => FileByte(v, chain, from + i))
  }

  lemma InsideChain(v: Volume, chain: seq<nat>, x: nat)
    requires x < ChainBytes(v, chain)
    ensures ClusterIndex(v, x / SECTORSIZE) < |chain|
  {
    QuotientLess(x, SECTORSIZE, |chain| * v.spc);
    QuotientLess(x / SECTORSIZE, v.spc, |chain|);
  }

  lemma FileBytesAppend(v: Volume, chain: seq<nat>, from: nat, m: nat, n: nat)
    ensures FileBytes(v, chain, from, m) + FileBytes(v, chain, from + m, n) == FileBytes(v, chain, from, m + n)
  {
    hide FileByte;
  }

  // ---------------------------------------------------------------------------
  // The read buffer.

  /** File sector k and the following ones lie in volume sectors from `sector` on. */
  ghost predicate Run(v: Volume, chain: seq<nat>, k: nat, sector: int, n: nat) {
    forall j | k <= j < k + n :: FileSector(v, chain, j) == sector + (j - k)
  }

  /** The buffer holds n sectors of the file, from file sector `first` and volume sector `last` on. */
  ghost predicate BufferHolds(v: Volume, chain: seq<nat>, bytes: seq<Byte>, first: nat, last: int, n: nat) {
    && last >= 0 && SECTORSIZE * n <= |bytes| && Run(v, chain, first, last, n)
    && bytes[..SECTORSIZE * n] == Bytes(v.disk, (v.start + last) * SECTORSIZE, SECTORSIZE * n)
  }

  /** A sector found in the buffer is the file sector it stands for: no cluster occurs twice in the chain. */
  lemma HitIsSound(v: Volume, chain: seq<nat>, bytes: seq<Byte>, first: nat, last: int, n: nat, k: nat)
    requires DataChain(v, chain) && BufferHolds(v, chain, bytes, first, last, n)
    requires last <= FileSector(v, chain, k) < last + n
    ensures k == first + (FileSector(v, chain, k) - last)
  {
    hide DataChain, Bytes, FileSector;
    var s := FileSector(v, chain, k) - last;
    SectorsDiffer(v, chain, k, first + s);
  }

  /** One byte of the buffer, seen as a byte of the file. */
  lemma BufferByte(v: Volume, chain: seq<nat>, bytes: seq<Byte>, first: nat, last: int, n: nat, b: nat)
    requires BufferHolds(v, chain, bytes, first, last, n) && b < SECTORSIZE * n
    ensures bytes[b] == FileByte(v, chain, first * SECTORSIZE + b)
  {
    hide FileSector;
    var s, x := b / SECTORSIZE, first * SECTORSIZE + b;
    assert x / SECTORSIZE == first + s && x % SECTORSIZE == b % SECTORSIZE;
    assert bytes[b] == bytes[..SECTORSIZE * n][b] == v.disk((v.start + last) * SECTORSIZE + b);
    assert (v.start + last) * SECTORSIZE + b == (v.start + (last + s)) * SECTORSIZE + b % SECTORSIZE;
  }

  /** What fat_read copies out of the buffer is what the file holds at its position. */
  lemma BufferSlice(v: Volume, chain: seq<nat>, bytes: seq<Byte>, first: nat, last: int, n: nat, b: nat, len: nat)
    requires BufferHolds(v, chain, bytes, first, last, n) && b + len <= SECTORSIZE * n
    ensures b + len <= |bytes| && bytes[b..b + len] == FileBytes(v, chain, first * SECTORSIZE + b, len)
  {
    hide FileByte, Run, Bytes;
    var part := bytes[b..b + len];
    forall i | 0 <= i < len
      ensures part[i] == FileBytes(v, chain, first * SECTORSIZE + b, len)[i]
    {
      BufferByte(v, chain, bytes, first, last, n, b + i);
    }
  }

  // ---------------------------------------------------------------------------
  // The reader.

  /** struct fat_sc for one open file; `chain` is the array that fat_getChain filled. */
  class FatFile {
    const vol: Volume
    const dev: Biodev
    const fatBuffer: array<Byte>
    var fatCacheNum: int
    // the open file
    var chain: seq<nat>
    var fileSize: nat
    var posn: int
    // the read buffer
    const buffer: array<Byte>
    var lastSector: int
    var sectorsOfBuffer: nat
    var bytesOfBuffer: nat
    var nextSectors: nat
    var nextBytes: nat
    ghost var first: nat  // the file sector at the start of the buffer

    /** The device belongs to the volume, and the cache holds the table sector it names. */
    ghost predicate Valid()
      reads this, dev, fatBuffer
    {
      && dev.disk == vol.disk && dev.base == 0
      && fatBuffer.Length == SECTORSIZE
      && (fatCacheNum != -1 ==> fatCacheNum >= 0 && fatBuffer[..] == TableSector(vol, fatCacheNum))
    }

    constructor (vol: Volume)
      ensures Valid() && this.vol == vol && fresh(dev) && fresh(fatBuffer) && fresh(buffer)
      ensures fatCacheNum == -1 && lastSector == -1 && posn == 0
      ensures buffer.Length == BufferSize(vol) && buffer != fatBuffer
    {
      this.vol := vol;
      dev := new Biodev(vol.disk);
      fatBuffer := new Byte[SECTORSIZE](_ => 0);
      buffer := new Byte[BufferSize(vol)](_ => 0);
      fatCacheNum, lastSector, posn := -1, -1, 0;
      chain, fileSize, sectorsOfBuffer, bytesOfBuffer, nextSectors, nextBytes, first := [], 0, 0, 0, 0, 0, 0;
    }

    /** readsector, lines 23-33. */
    method ReadSector(sector: nat, count: nat, buffer: array<Byte>) returns (r: int)
      requires dev.disk == vol.disk && dev.base == 0
      requires SECTORSIZE * count <= buffer.Length
      modifies dev, buffer
      ensures r == 1
      ensures buffer[..] == Spliced(old(buffer[..]), 0, Bytes(vol.disk, (vol.start + sector) * SECTORSIZE, SECTORSIZE * count))
      ensures OnlyBlocks(old(dev.requests), dev.requests)
    {
      hide Bytes, Spliced, OnlyBlocks;
      var res := vol.start * SECTORSIZE + SECTORSIZE * sector;
      var _ := dev.Lseek(res, 0);
      res := dev.Read(buffer, 0, SECTORSIZE * count);
      r := if res == SECTORSIZE * count then 1 else -1;
    }

    /** Lines 55-61 and the like: one table sector into the cache. */
    method ReadTable(k: nat)
      requires Valid()
      modifies dev, fatBuffer, `fatCacheNum
      ensures Valid() && fatCacheNum == k
    {
      hide Bytes, Spliced;
      ghost var was := fatBuffer[..];
      var _ := ReadSector(k + vol.resSectors, 1, fatBuffer);
      SplicedAll(was, TableSector(vol, k));
      fatCacheNum := k;
    }

    /** A byte of the cached sector is a byte of the table. */
    method CachedByte(i: nat) returns (b: int)
      requires Valid() && fatCacheNum >= 0 && i < SECTORSIZE
      ensures b == TableByte(vol, fatCacheNum * SECTORSIZE + i)
    {
      TableSectorByte(vol, fatCacheNum, i);
      b := fatBuffer[i];
    }

    /** Lines 47-91: a FAT12 entry may straddle two sectors. fatoffset is a 32-bit unsigned word. */
    method Entry12(entry: nat) returns (r: nat)
      requires Valid() && vol.kind.Fat12? && entry < 0x1000_0000
      modifies dev, fatBuffer, `fatCacheNum
      ensures Valid() && r == Entry(vol, entry)
    {
      hide Valid, Entry, TableByte, TableSector;
      var byteoffset := ((entry - entry % 2) * 3) / 2;
      var fatsect, fatoffset := byteoffset / SECTORSIZE, byteoffset % SECTORSIZE;
      if fatCacheNum != fatsect {
        ReadTable(fatsect);
      }
      var b1 := CachedByte(fatoffset);
      if fatoffset + 1 >= SECTORSIZE {
        ReadTable(fatsect + 1);
        fatoffset := (fatoffset - SECTORSIZE) % TWO32;
      }
      assert fatCacheNum * SECTORSIZE + (fatoffset + 1) % TWO32 == byteoffset + 1;
      var b2 := CachedByte((fatoffset + 1) % TWO32);
      if (fatoffset + 2) % TWO32 >= SECTORSIZE {
        ReadTable(fatsect + 1);
        fatoffset := (fatoffset - SECTORSIZE) % TWO32;
      }
      assert fatCacheNum * SECTORSIZE + (fatoffset + 2) % TWO32 == byteoffset + 2;
      var b3 := CachedByte((fatoffset + 2) % TWO32);
      Packed12(vol, entry);
      r := if entry % 2 == 1 then b3 * 0x10 + b2 / 0x10 else b2 % 0x10 * 0x100 + b1;
    }

    /** getFatEntry, lines 36-129: the cached read is the entry on disk, whatever was read before. */
    method GetFatEntry(entry: nat) returns (r: nat)
      requires Valid() && entry < 0x1000_0000
      modifies dev, fatBuffer, `fatCacheNum
      ensures Valid() && r == CodeEntry(vol, entry)
    {
      hide Valid, TableByte;
      if vol.kind.Fat12? {
        r := Entry12(entry);
        return;
      }
      var byteoffset := if vol.kind.Fat16? then entry * 2 else entry * 4;
      var fatsect, fatoffset := byteoffset / SECTORSIZE, byteoffset % SECTORSIZE;
      if fatCacheNum != fatsect {
        ReadTable(fatsect);
      }
      var b1 := CachedByte(fatoffset);
      var b2 := CachedByte(fatoffset + 1);
      if vol.kind.Fat16? {
        return b1 + b2 * 0x100;
      }
      var b3 := CachedByte(fatoffset + 2);
      var b4 := CachedByte(fatoffset + 3);
      r := b1 + b2 * 0x100 + b3 * 0x1_0000 + b4 * 0x100_0000;
    }

    /**
     fat_getChain, lines 137-215: two passes over the table, the first to count, the second to
     fill the array. c is the chain from start; an endless one would never return.
     */
    method GetChain(start: nat, ghost c: seq<nat>, ghost bad: bool) returns (r: int, entries: array<nat>, count: nat)
      requires Valid() && IsChain(vol, c, bad) && c[0] == start
      modifies dev, fatBuffer, `fatCacheNum
      ensures Valid()
      ensures r == if bad then -1 else 1
      ensures !bad ==> count == |c| && count < entries.Length && entries[..count] == c && fresh(entries)
    {
      hide Valid, CodeEntry;
      var end := EndMark(vol.kind);
      count := 0;
      var flag := start;
      while true
        invariant Valid() && count < |c| && flag == c[count] < 0x1000_0000
        decreases |c| - count
      {
        ghost var here := count;
        var entry := GetFatEntry(flag);
        NextInChain(vol, c, bad, here);
        if entry == BadMark(vol.kind) {
          entries := new nat[0];
          return -1, entries, 0;
        }
        if entry >= end {
          break;
        }
        flag := entry;
        count := count + 1;
      }
      count := count + 1;
      entries := new nat[count + 128](_ => 0);
      entries[0] := start;
      flag := start;
      var i := 0;
      while true
        invariant Valid() && i < |c| == count && flag == c[i] < 0x1000_0000 && fresh(entries)
        invariant entries[..i + 1] == c[..i + 1] && !bad
        decreases |c| - i
      {
        var entry := GetFatEntry(flag);
        NextInChain(vol, c, bad, i);
        entries[i + 1] := entry;
        if entry == BadMark(vol.kind) {
          return -1, entries, count;
        }
        if entry >= end {
          break;
        }
        assert entries[..i + 2] == entries[..i + 1] + [entry];
        flag := entry;
        i := i + 1;
      }
      assert c[..i + 1] == c;
      r := 1;
    }

    /** The open file is covered by a data chain, and the buffer holds what it says. */
    ghost predicate Readable()
      reads this, dev, buffer
    {
      && dev.disk == vol.disk && dev.base == 0
      && FileChain(vol, chain, fileSize)
      && buffer.Length == BufferSize(vol)
      && bytesOfBuffer == sectorsOfBuffer * SECTORSIZE
      && (lastSector != -1 ==> BufferHolds(vol, chain, buffer[..], first, lastSector, sectorsOfBuffer))
    }

    /** fat_findfile's last step, lines 324-325, and lines 626-630: a file whose chain is complete. */
    method OpenFile(entries: array<nat>, count: nat, size: nat)
      requires Valid() && count <= entries.Length && FileChain(vol, entries[..count], size)
      requires buffer.Length == BufferSize(vol)
      modifies this
      ensures Valid() && Readable() && chain == entries[..count] && fileSize == size && posn == 0
    {
      chain, fileSize := entries[..count], size;
      lastSector, bytesOfBuffer, sectorsOfBuffer, posn := -1, 0, 0, 0;
    }

    /** getSectorIndex_read, lines 790-828: the sector of a file sector, and how many follow it on the volume. */
    method GetSectorIndexRead(index: nat, need: nat) returns (sector: int)
      requires DataChain(vol, chain) && ClusterIndex(vol, index) < |chain| && need > 0
      modifies `nextSectors, `nextBytes
      ensures sector == FileSector(vol, chain, index) >= 0
      ensures 1 <= nextSectors <= need && nextSectors * SECTORSIZE <= BufferSize(vol)
      ensures nextBytes == nextSectors * SECTORSIZE
      ensures Run(vol, chain, index, sector, nextSectors)
    {
      hide DataChain, FileSector, Run, Contiguous, ClusterIndex;
      var spc := vol.spc;
      var sectorIndex := InCluster(vol, index);
      var limit := Min((need + spc - 1) / spc, MaxClusters(vol));
      RoundedUp(need, spc);
      var i, entry0 := CountRun(ClusterIndex(vol, index), limit);
      RunLength(i, limit, MaxClusters(vol), spc, sectorIndex);
      nextSectors := Min(i * spc - sectorIndex, need);
      nextBytes := nextSectors * SECTORSIZE;
      sector := vol.dataBase + (entry0 - 2) * spc + sectorIndex;
      FirstSector(vol, chain, index, entry0);
      SectorNonNegative(vol, chain, index);
      RunFrom(vol, chain, index, i, nextSectors);
    }

    /** Lines 800-815: the clusters from clusterIndex on that follow each other on the volume. */
    method CountRun(from: nat, limit: nat) returns (i: nat, entry0: int)
      requires from < |chain| && limit > 0
      ensures 1 <= i <= limit && Contiguous(chain, from, i) && entry0 == chain[from]
    {
      var entry, lastentry, clusterIndex := 0, 0, from;
      i, entry0 := 0, 0;
      while i < limit
        invariant i <= limit && clusterIndex == from + i
        invariant i > 0 ==> entry0 == chain[from] && lastentry == entry0 + i - 1
        invariant Contiguous(chain, from, i)
      {
        if clusterIndex < |chain| {
          entry := chain[clusterIndex];
        } else {
          break;
        }
        if i == 0 {
          entry0 := entry;
        }
        if i != 0 && lastentry + 1 != entry {
          break;
        }
        lastentry := entry;
        i, clusterIndex := i + 1, clusterIndex + 1;
      }
    }

    /** Lines 687-699: make sure the buffer holds the sector at posn. */
    method FillBuffer(len: nat) returns (sector: int)
      requires Readable() && posn >= 0 && len > 0 && posn + len <= fileSize && buffer != fatBuffer
      modifies dev, buffer, `nextSectors, `nextBytes, `sectorsOfBuffer, `bytesOfBuffer, `lastSector, `first
      ensures Readable() && lastSector >= 0
      ensures lastSector <= sector < lastSector + sectorsOfBuffer
      ensures posn / SECTORSIZE == first + (sector - lastSector)
    {
      hide DataChain, IsChain, FileSector, Run, Bytes, BufferSize, ChainBytes, ClusterIndex;
      var sectorIndex := posn / SECTORSIZE;
      InsideChain(vol, chain, posn);
      var need := (len + SECTORSIZE - 1) / SECTORSIZE;
      sector := GetSectorIndexRead(sectorIndex, need);
      if lastSector == -1 || sector < lastSector || sector >= lastSector + sectorsOfBuffer {
        sectorsOfBuffer := nextSectors;
        bytesOfBuffer := nextBytes;
        lastSector := sector;
        first := sectorIndex;
        ghost var was := buffer[..];
        var _ := ReadSector(sector, sectorsOfBuffer, buffer);
        SplicedHead(was, Bytes(vol.disk, (vol.start + sector) * SECTORSIZE, SECTORSIZE * sectorsOfBuffer));
      }
      HitIsSound(vol, chain, buffer[..], first, lastSector, sectorsOfBuffer, sectorIndex);
    }

    /** fat_read, lines 658-729: at or behind the end of the file the answer is -1. */
    method Read(buf: array<Byte>, len: nat) returns (r: int)
      requires Readable() && posn >= 0 && len <= buf.Length
      requires buf != buffer && buf != fatBuffer && buffer != fatBuffer
      modifies dev, buffer, buf, `nextSectors, `nextBytes, `sectorsOfBuffer, `bytesOfBuffer, `lastSector, `first, `posn
      ensures Readable()
      ensures old(posn) >= fileSize ==> r == -1 && posn == old(posn) && buf[..] == old(buf[..])
      ensures old(posn) < fileSize ==>
                && r == Min(len, fileSize - old(posn)) && posn == old(posn) + r
                && buf[..] == Spliced(old(buf[..]), 0, FileBytes(vol, chain, old(posn), r))
    {
      hide Readable, FileBytes, Spliced;
      if posn >= fileSize {
        return -1;
      }
      var left: nat := Min(len, fileSize - posn);
      ghost var was, from: nat := buf[..], posn;
      var total: nat := 0;
      SplicedNothing(was, 0, FileBytes(vol, chain, from, 0));
      while left != 0
        invariant Readable()
        invariant posn == from + total && total + left == Min(len, fileSize - from)
        invariant buf[..] == Spliced(was, 0, FileBytes(vol, chain, from, total))
        decreases left
      {
        var n := ReadPiece(buf, total, left);
        FileBytesAppend(vol, chain, from, total, n);
        SplicedTwice(was, 0, FileBytes(vol, chain, from, total), FileBytes(vol, chain, from + total, n));
        left, total := left - n, total + n;
      }
      r := total;
    }

    /** Lines 687-713: one round of the read loop. */
    method ReadPiece(buf: array<Byte>, at: nat, len: nat) returns (copylen: nat)
      requires Readable() && posn >= 0 && len > 0 && posn + len <= fileSize && at + len <= buf.Length
      requires buf != buffer && buf != fatBuffer && buffer != fatBuffer
      modifies dev, buffer, buf, `nextSectors, `nextBytes, `sectorsOfBuffer, `bytesOfBuffer, `lastSector, `first, `posn
      ensures Readable()
      ensures 0 < copylen <= len && posn == old(posn) + copylen
      ensures buf[..] == Spliced(old(buf[..]), at, FileBytes(vol, chain, old(posn), copylen))
    {
      hide DataChain, FileSector, Run, Bytes, FileBytes, Spliced, BufferHolds, BufferSize, ChainBytes;
      var sector := FillBuffer(len);
      var offset := (sector - lastSector) * SECTORSIZE + posn % SECTORSIZE;
      copylen := len;
      if copylen > bytesOfBuffer - offset {
        copylen := bytesOfBuffer - offset;
      }
      assert first * SECTORSIZE + offset == posn;
      BufferSlice(vol, chain, buffer[..], first, lastSector, sectorsOfBuffer, offset, copylen);
      Memcpy(buf, at, buffer, offset, copylen);
      assert buffer[offset..offset + copylen] == buffer[..][offset..offset + copylen];
      posn := posn + copylen;
    }

    /** fat_lseek, lines 737-768. */
    method Seek(offset: int, whence: int) returns (r: int)
      requires Readable()
      modifies `posn
      ensures Readable()
      ensures
        if whence == 0 then r == posn == offset
        else if whence == 1 then r == posn == old(posn) + offset
        else if whence == 2 then r == posn == fileSize + offset
        else r == -1 && posn == old(posn)
    {
      hide DataChain, BufferHolds, BufferSize, ChainBytes;
      match whence {
        case 0 => posn := offset;
        case 1 => posn := posn + offset;
        case 2 => posn := fileSize + offset;
        case _ => return -1;
      }
      return posn;
    }
  }

  lemma SplicedHead(b: seq<Byte>, s: seq<Byte>)
    requires |s| <= |b|
    ensures Spliced(b, 0, s)[..|s|] == s
  {
  }

  lemma RoundedUp(need: nat, d: nat)
    requires need > 0 && d > 0
    ensures (need + d - 1) / d > 0
  {
    var q := (need + d - 1) / d;
    assert need + d - 1 == d * q + (need + d - 1) % d;
    if q <= 0 {
      MulAtLeastTimes(d, 0, q);
      assert false;
    }
  }

  lemma RunLength(i: nat, limit: nat, most: nat, d: nat, r: nat)
    requires 1 <= i <= limit <= most && r < d
    ensures 1 <= i * d - r <= most * d
  {
    MulAtLeastTimes(d, i, 1);
    MulAtLeastTimes(d, most, i);
  }

  lemma FirstSector(v: Volume, chain: seq<nat>, k: nat, entry0: int)
    requires ClusterIndex(v, k) < |chain| && entry0 == chain[ClusterIndex(v, k)]
    ensures FileSector(v, chain, k) == v.dataBase + (entry0 - 2) * v.spc + k % v.spc
  {
  }

  lemma RunFrom(v: Volume, chain: seq<nat>, k: nat, n: nat, sectors: nat)
    requires Contiguous(chain, ClusterIndex(v, k), n) && n > 0 && sectors <= n * v.spc - InCluster(v, k)
    ensures Run(v, chain, k, FileSector(v, chain, k), sectors)
  {
    hide FileSector, ClusterIndex, InCluster;
    forall j | k <= j < k + sectors
      ensures FileSector(v, chain, j) == FileSector(v, chain, k) + (j - k)
    {
      RunOfSectors(v, chain, k, n, j - k);
    }
  }

  /** Line 487: how many clusters the read buffer holds. */
  function MaxClusters(v: Volume): (n: nat)
    ensures n >= 8
  {
    QuotientAtLeast(0x10_0000, v.spc * SECTORSIZE, 8);
    0x10_0000 / (v.spc * SECTORSIZE)
  }

  lemma QuotientAtLeast(a: nat, d: nat, q: nat)
    requires d > 0 && q * d <= a
    ensures a / d >= q
  {
    var q' := a / d;
    assert a == d * q' + a % d;
    if q' + 1 <= q {
      MulAtLeastTimes(d, q, q' + 1);
      assert false;
    }
  }

  /** Line 489: the size of the read buffer. */
  function BufferSize(v: Volume): nat {
    MaxClusters(v) * v.spc * SECTORSIZE
  }

  /** How many bytes the clusters of a chain hold. */
  function ChainBytes(v: Volume, chain: seq<nat>): nat {
    ProductNonNegative(|chain|, v.spc);
    |chain| * v.spc * SECTORSIZE
  }

  /** What the table says about cluster i of a chain. */
  lemma NextInChain(v: Volume, c: seq<nat>, bad: bool, i: nat)
    requires IsChain(v, c, bad) && i < |c|
    ensures i + 1 < |c| ==> CodeEntry(v, c[i]) == c[i + 1] < BadMark(v.kind) && c[i + 1] < 0x1000_0000
    ensures i + 1 == |c| ==> if bad then CodeEntry(v, c[i]) == BadMark(v.kind) else CodeEntry(v, c[i]) >= EndMark(v.kind)
  {
    if i + 1 < |c| {
      assert Linked(v, c, i);
    }
  }

  /** The halves of a little-endian word at four bits. */
  lemma Cut12(lo: Byte, hi: Byte)
    ensures
      var l: int, h: int := lo, hi;
      (l + 0x100 * h) / 0x10 == h * 0x10 + l / 0x10 && (l + 0x100 * h) % 0x1000 == h % 0x10 * 0x100 + l
  {
    var l: int, h: int := lo, hi;
    DivModUnique(l + 0x100 * h, 0x10, h * 0x10 + l / 0x10, l % 0x10);
    DivModUnique(l + 0x100 * h, 0x1000, h / 0x10, h % 0x10 * 0x100 + l);
  }

  /** Two FAT12 entries share three bytes. */
  lemma Packed12(v: Volume, n: nat)
    requires v.kind.Fat12?
    ensures
      var o := (n - n % 2) * 3 / 2;
      var b1: int, b2: int, b3: int := TableByte(v, o), TableByte(v, o + 1), TableByte(v, o + 2);
      Entry(v, n) == if n % 2 == 1 then b3 * 0x10 + b2 / 0x10 else b2 % 0x10 * 0x100 + b1
  {
    hide TableByte;
    var h := n / 2;
    assert n == 2 * h + n % 2;
    assert (n - n % 2) * 3 / 2 == 3 * h;
    assert n + n / 2 == 3 * h + n % 2;
    Cut12(TableByte(v, 3 * h), TableByte(v, 3 * h + 1));
    Cut12(TableByte(v, 3 * h + 1), TableByte(v, 3 * h + 1 + 1));
    assert 3 * h + 1 + 1 == 3 * h + 2;
  }

  // ---------------------------------------------------------------------------
  // Whole sessions.

  datatype Op = Seek(offset: int, whence: int) | Read(len: nat)

  /** The position after one operation on a file of this size. */
  function PositionAfter(size: nat, posn: int, op: Op): int {
    match op
    case Seek(o, w) => if w == 0 then o else if w == 1 then posn + o else if w == 2 then size + o else posn
    case Read(n) => if 0 <= posn < size then posn + Min(n, size - posn) else posn
  }

  /** What one operation should deliver, read straight off the file. */
  ghost function Output(v: Volume, c: seq<nat>, size: nat, posn: int, op: Op): seq<Byte> {
    if op.Read? && 0 <= posn < size then FileBytes(v, c, posn, Min(op.len, size - posn)) else []
  }

  ghost function Expected(v: Volume, c: seq<nat>, size: nat, posn: int, ops: seq<Op>): seq<seq<Byte>>
    decreases ops
  {
    if ops == [] then []
    else [Output(v, c, size, posn, ops[0])] + Expected(v, c, size, PositionAfter(size, posn, ops[0]), ops[1..])
  }

  lemma ExpectedStep(v: Volume, c: seq<nat>, size: nat, posn: int, ops: seq<Op>, k: nat, outs: seq<seq<Byte>>)
    requires k < |ops|
    ensures outs + Expected(v, c, size, posn, ops[k..]) ==
            (outs + [Output(v, c, size, posn, ops[k])]) + Expected(v, c, size, PositionAfter(size, posn, ops[k]), ops[k + 1..])
  {
    hide Output, PositionAfter;
    assert ops[k..][0] == ops[k] && ops[k..][1..] == ops[k + 1..];
  }

  method Perform(f: FatFile, op: Op) returns (out: seq<Byte>)
    requires f.Readable() && f.buffer != f.fatBuffer
    modifies f, f.dev, f.buffer
    ensures f.Readable() && f.chain == old(f.chain) && f.fileSize == old(f.fileSize)
    ensures f.posn == PositionAfter(f.fileSize, old(f.posn), op)
    ensures out == Output(f.vol, f.chain, f.fileSize, old(f.posn), op)
  {
    hide FileBytes, FatFile.Readable, Spliced;
    out := [];
    match op {
      case Seek(o, w) =>
        var _ := f.Seek(o, w);
      case Read(n) =>
        if f.posn >= 0 {
          var buf := new Byte[n](_ => 0);
          ghost var blank, from := buf[..], f.posn;
          var m := f.Read(buf, n);
          if m >= 0 {
            SplicedHead(blank, FileBytes(f.vol, f.chain, from, m));
            out := buf[..m];
            assert out == buf[..][..m];
          }
        }
    }
  }

  /**
   From the disk to the caller: the chain is built from the table, and any sequence of seeks and
   reads (at positions that are not negative) delivers the file's bytes.
   */
  method Session(v: Volume, start: nat, size: nat, ops: seq<Op>, ghost c: seq<nat>) returns (outs: seq<seq<Byte>>)
    requires FileChain(v, c, size) && c[0] == start
    ensures outs == Expected(v, c, size, 0, ops)
  {
    hide DataChain, ChainBytes, Output, PositionAfter, BufferSize, FatFile.Valid, FatFile.Readable, IsChain;
    var f := new FatFile(v);
    assert IsChain(v, c, false);
    var r, entries, count := f.GetChain(start, c, false);
    f.OpenFile(entries, count, size);
    outs := [];
    ghost var posn := 0;
    assert ops[0..] == ops;
    for k := 0 to |ops|
      invariant fresh(f) && fresh(f.dev) && fresh(f.buffer) && f.vol == v && f.buffer != f.fatBuffer
      invariant f.Readable() && f.chain == c && f.fileSize == size && f.posn == posn
      invariant outs + Expected(v, c, size, posn, ops[k..]) == Expected(v, c, size, 0, ops)
    {
      ExpectedStep(v, c, size, posn, ops, k, outs);
      var out := Perform(f, ops[k]);
      posn := PositionAfter(size, posn, ops[k]);
      outs := outs + [out];
    }
    assert outs + [] == outs;
  }
}
