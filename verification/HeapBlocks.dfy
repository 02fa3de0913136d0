/**
 The block structure of the heap of os/mem.c, as values: how blocks tile the heap, how they are
 split and merged, and that the live blocks alone determine it.
 */
module HeapBlocks {

  const HEADER := 16        // SIZEOF_STRUCT_MEM with 4-byte longs
  const MIN_PAYLOAD := 16   // MIN_SIZE_ALIGNED
  const ALIGN := 8
  const MAGIC := 0x1ea0

  /** A block from its header at `start` to the header at `end`, both offsets from heap_ptr. */
  datatype Block = Block(start: nat, end: nat, used: bool) {
    function Payload(): int {
      end - start - HEADER
    }
  }

  predicate Shaped(b: Block) {
    b.start % ALIGN == 0 && b.end % ALIGN == 0 && b.start + HEADER + ALIGN <= b.end
  }

  /** The blocks follow each other from 0 to the sentinel at `top`. */
  ghost predicate Tiles(bs: seq<Block>, top: nat) {
    && bs != [] && bs[0].start == 0 && bs[|bs| - 1].end == top
    && (forall i | 0 <= i < |bs| :: Shaped(bs[i]))
    && (forall i | 0 < i < |bs| :: bs[i].start == bs[i - 1].end)
  }

  /** Block i and its successor are not both free. */
  predicate Separated(bs: seq<Block>, i: nat) {
    i + 1 < |bs| ==> bs[i].used || bs[i + 1].used
  }

  ghost predicate NoAdjacentFree(bs: seq<Block>) {
    forall i: nat :: Separated(bs, i)
  }

  /** The bytes in used blocks, headers included. */
  function UsedBytes(bs: seq<Block>): int {
    if bs == [] then 0 else (if bs[0].used then bs[0].end - bs[0].start else 0) + UsedBytes(bs[1..])
  }

  lemma {:induction false} UsedBytesAppend(a: seq<Block>, b: seq<Block>)
    ensures UsedBytes(a + b) == UsedBytes(a) + UsedBytes(b)
  {
    if a == [] {
      assert a + b == b;
    } else {
      UsedBytesAppend(a[1..], b);
      assert (a + b)[1..] == a[1..] + b;
    }
  }

  lemma UsedBytesOne(b: Block)
    ensures UsedBytes([b]) == if b.used then b.end - b.start else 0
  {
    assert [b][1..] == [];
  }

  lemma UsedBytesTwo(a: Block, b: Block)
    ensures UsedBytes([a, b]) == (if a.used then a.end - a.start else 0) + (if b.used then b.end - b.start else 0)
  {
    UsedBytesOne(a);
    UsedBytesOne(b);
    assert [a, b] == [a] + [b];
    UsedBytesAppend([a], [b]);
  }

  /** Blocks are ordered by address. */
  lemma {:induction false} Ordered(bs: seq<Block>, top: nat, i: nat, j: nat)
    requires Tiles(bs, top) && i < j < |bs|
    ensures bs[i].end <= bs[j].start
    decreases j - i
  {
    if i + 1 < j {
      Ordered(bs, top, i, j - 1);
    }
  }

  lemma BelowTop(bs: seq<Block>, top: nat, i: nat)
    requires Tiles(bs, top) && i < |bs|
    ensures bs[i].end <= top && (i + 1 < |bs| ==> bs[i].end + HEADER + ALIGN <= top)
  {
    if i + 1 < |bs| {
      if i + 1 < |bs| - 1 {
        Ordered(bs, top, i + 1, |bs| - 1);
      }
    }
  }

  lemma InsideTop(bs: seq<Block>, top: nat, i: nat)
    requires Tiles(bs, top) && i < |bs|
    ensures bs[i].start + HEADER <= bs[i].end <= top
  {
    assert Shaped(bs[i]);
    BelowTop(bs, top, i);
  }

  // ---------------------------------------------------------------------------
  // Replacing a stretch of blocks by another that covers the same bytes.

  /** bs with the n blocks from k on replaced by mid. */
  function Replace(bs: seq<Block>, k: nat, n: nat, mid: seq<Block>): seq<Block>
    requires k + n <= |bs|
  {
    bs[..k] + mid + bs[k + n..]
  }

  /** mid covers exactly the bytes of the n blocks it replaces. */
  ghost predicate Covers(bs: seq<Block>, k: nat, n: nat, mid: seq<Block>) {
    && 0 < n && k + n <= |bs| && mid != []
    && mid[0].start == bs[k].start && mid[|mid| - 1].end == bs[k + n - 1].end
    && (forall i | 0 <= i < |mid| :: Shaped(mid[i]))
    && (forall i | 0 < i < |mid| :: mid[i].start == mid[i - 1].end)
  }

  lemma ReplaceTiles(bs: seq<Block>, top: nat, k: nat, n: nat, mid: seq<Block>)
    requires Tiles(bs, top) && Covers(bs, k, n, mid)
    ensures Tiles(Replace(bs, k, n, mid), top)
  {
    hide Shaped;
    var r, m := Replace(bs, k, n, mid), |mid|;
    forall i | 0 < i < |r|
      ensures r[i].start == r[i - 1].end
    {
      if i < k {
      } else if i == k {
        assert r[i] == mid[0] && r[i - 1] == bs[k - 1];
      } else if i < k + m {
        assert r[i] == mid[i - k] && r[i - 1] == mid[i - k - 1];
      } else if i == k + m {
        assert r[i] == bs[k + n] && r[i - 1] == mid[m - 1];
      } else {
        assert r[i] == bs[i - m + n] && r[i - 1] == bs[i - m + n - 1];
      }
    }
    forall i | 0 <= i < |r|
      ensures Shaped(r[i])
    {
      var b := if i < k then bs[i] else if i < k + m then mid[i - k] else bs[i - m + n];
      assert r[i] == b;
    }
    assert r[0] == if k == 0 then mid[0] else bs[0];
    assert r[|r| - 1] == if k + n == |bs| then mid[m - 1] else bs[|bs| - 1];
  }

  lemma ReplaceUsedBytes(bs: seq<Block>, k: nat, n: nat, mid: seq<Block>)
    requires k + n <= |bs|
    ensures UsedBytes(Replace(bs, k, n, mid)) == UsedBytes(bs) - UsedBytes(bs[k..k + n]) + UsedBytes(mid)
  {
    UsedBytesAppend(bs[..k] + mid, bs[k + n..]);
    UsedBytesAppend(bs[..k], mid);
    assert bs == bs[..k] + bs[k..k + n] + bs[k + n..];
    UsedBytesAppend(bs[..k] + bs[k..k + n], bs[k + n..]);
    UsedBytesAppend(bs[..k], bs[k..k + n]);
  }

  lemma BottomAtZero(bs: seq<Block>, top: nat)
    requires Tiles(bs, top)
    ensures bs[0].start == 0
  {
  }

  /** When everything is free, one block is left and nothing is in use. */
  lemma AllFree(bs: seq<Block>, top: nat)
    requires Tiles(bs, top) && NoAdjacentFree(bs) && forall i | 0 <= i < |bs| :: !bs[i].used
    ensures bs == [Block(0, top, false)] && UsedBytes(bs) == 0
  {
    assert Separated(bs, 0);
    UsedBytesOne(bs[0]);
    assert bs == [bs[0]];
  }

  /** A block cut at offset cut, the second part free. */
  function Cut(b: Block, cut: nat, used: bool): seq<Block> {
    [Block(b.start, cut, used), Block(cut, b.end, false)]
  }

  /** Two blocks made one. */
  function Joined(a: Block, b: Block): seq<Block> {
    [Block(a.start, b.end, a.used)]
  }

  lemma CutCovers(bs: seq<Block>, top: nat, k: nat, cut: nat, used: bool)
    requires Tiles(bs, top) && k < |bs| && cut % ALIGN == 0
    requires bs[k].start + HEADER + ALIGN <= cut && cut + HEADER + ALIGN <= bs[k].end
    ensures Covers(bs, k, 1, Cut(bs[k], cut, used))
  {
  }

  lemma JoinedCovers(bs: seq<Block>, top: nat, k: nat)
    requires Tiles(bs, top) && k + 1 < |bs|
    ensures Covers(bs, k, 2, Joined(bs[k], bs[k + 1]))
  {
  }

  lemma RetaggedCovers(bs: seq<Block>, top: nat, k: nat, used: bool)
    requires Tiles(bs, top) && k < |bs|
    ensures Covers(bs, k, 1, [bs[k].(used := used)])
  {
  }

  // ---------------------------------------------------------------------------
  // The lowest-free pointer and the search.

  /** The header offset of block j, or of the sentinel behind the last block. */
  ghost function StartAt(bs: seq<Block>, top: nat, j: nat): nat
    requires j <= |bs|
  {
    if j == |bs| then top else bs[j].start
  }

  /** lfree is a free block or the sentinel. */
  ghost predicate FreeOrTop(bs: seq<Block>, top: nat, lfree: nat) {
    exists j: nat :: j <= |bs| && StartAt(bs, top, j) == lfree && (j < |bs| ==> !bs[j].used)
  }

  /** Every block below lfree is used. */
  ghost predicate Lowest(bs: seq<Block>, lfree: nat) {
    forall i | 0 <= i < |bs| && bs[i].start < lfree :: bs[i].used
  }

  /** Block i is free and large enough. */
  predicate FitsIn(b: Block, need: nat) {
    !b.used && b.Payload() >= need
  }

  /** The blocks at or above lfree are those from its index on. */
  lemma StartsFrom(bs: seq<Block>, top: nat, from: nat, lfree: nat)
    requires Tiles(bs, top) && from <= |bs| && StartAt(bs, top, from) == lfree
    ensures forall i | 0 <= i < |bs| :: lfree <= bs[i].start <==> from <= i
  {
    forall i | 0 <= i < |bs|
      ensures lfree <= bs[i].start <==> from <= i
    {
      BelowTop(bs, top, i);
      if i < from && from < |bs| {
        Ordered(bs, top, i, from);
      } else if from < i {
        Ordered(bs, top, from, i);
      }
    }
  }

  /** A block behind the search bound that would fit starts exactly at the bound. */
  lemma PassedOver(bs: seq<Block>, top: nat, k: nat, need: nat)
    requires Tiles(bs, top) && k <= |bs| && top - HEADER - need <= StartAt(bs, top, k) && need + HEADER <= top
    ensures forall i | k <= i < |bs| && FitsIn(bs[i], need) :: bs[i].start == top - HEADER - need && bs[i].Payload() == need
  {
    forall i | k <= i < |bs| && FitsIn(bs[i], need)
      ensures bs[i].start == top - HEADER - need && bs[i].Payload() == need
    {
      BelowTop(bs, top, i);
      if k < i {
        Ordered(bs, top, k, i);
      }
    }
  }

  // ---------------------------------------------------------------------------
  // The live blocks.

  ghost function Live(bs: seq<Block>): set<Block> {
    set i | 0 <= i < |bs| && bs[i].used :: bs[i]
  }

  lemma LiveAt(bs: seq<Block>, i: nat)
    requires i < |bs|
    ensures bs[i].used ==> bs[i] in Live(bs)
  {
  }

  lemma LiveInside(bs: seq<Block>, k: nat, n: nat, i: nat)
    requires k <= k + n <= |bs| && i < |bs| && bs[i].used
    ensures k <= i < k + n ==> bs[i] in Live(bs[k..k + n])
  {
    if k <= i < k + n {
      LiveAt(bs[k..k + n], i - k);
    }
  }

  lemma LiveAppend(a: seq<Block>, b: seq<Block>)
    ensures Live(a + b) == Live(a) + Live(b)
  {
    var c := a + b;
    forall x | x in Live(a) + Live(b)
      ensures x in Live(c)
    {
      if x in Live(a) {
        var i :| 0 <= i < |a| && a[i].used && a[i] == x;
        assert c[i] == x;
      } else {
        var i :| 0 <= i < |b| && b[i].used && b[i] == x;
        assert c[|a| + i] == x;
      }
    }
  }

  /** Two different stretches have no live block in common. */
  lemma LiveDisjoint(bs: seq<Block>, top: nat, i: nat, j: nat, k: nat, l: nat)
    requires Tiles(bs, top) && i <= j <= k <= l <= |bs|
    ensures Live(bs[i..j]) !! Live(bs[k..l])
  {
    forall x | x in Live(bs[i..j]) && x in Live(bs[k..l])
      ensures false
    {
      var p :| 0 <= p < j - i && bs[i..j][p] == x;
      var q :| 0 <= q < l - k && bs[k..l][q] == x;
      assert Shaped(bs[i + p]);
      Ordered(bs, top, i + p, k + q);
    }
  }

  lemma ReplaceLive(bs: seq<Block>, top: nat, k: nat, n: nat, mid: seq<Block>)
    requires Tiles(bs, top) && k + n <= |bs|
    ensures Live(Replace(bs, k, n, mid)) == (Live(bs) - Live(bs[k..k + n])) + Live(mid)
  {
    hide Live, Tiles;
    var a, c, d := bs[..k], bs[k..k + n], bs[k + n..];
    assert bs == a + c + d;
    LiveAppend(a + c, d);
    LiveAppend(a, c);
    LiveAppend(a + mid, d);
    LiveAppend(a, mid);
    assert a == bs[0..k] && d == bs[k + n..|bs|];
    LiveDisjoint(bs, top, 0, k, k, k + n);
    LiveDisjoint(bs, top, k, k + n, k + n, |bs|);
  }

  lemma LiveOne(b: Block)
    ensures Live([b]) == if b.used then {b} else {}
  {
    if b.used {
      assert [b][0] in Live([b]);
    }
  }

  lemma LiveTwo(a: Block, b: Block)
    ensures Live([a, b]) == (if a.used then {a} else {}) + (if b.used then {b} else {})
  {
    assert [a, b] == [a] + [b];
    LiveAppend([a], [b]);
    LiveOne(a);
    LiveOne(b);
  }

  /** Live blocks are apart from each other, aligned and inside the heap. */
  lemma LiveApart(bs: seq<Block>, top: nat, a: Block, b: Block)
    requires Tiles(bs, top) && a in Live(bs) && b in Live(bs) && a != b
    ensures a.end <= b.start || b.end <= a.start
    ensures Shaped(a) && (a.start + HEADER) % ALIGN == 0 && a.start + HEADER + ALIGN <= a.end <= top
  {
    var i :| 0 <= i < |bs| && bs[i] == a;
    var j :| 0 <= j < |bs| && bs[j] == b;
    BelowTop(bs, top, i);
    if i < j {
      Ordered(bs, top, i, j);
    } else {
      Ordered(bs, top, j, i);
    }
  }

  /** A live block with the start of block i is block i. */
  lemma SameStart(bs: seq<Block>, top: nat, i: nat, x: Block)
    requires Tiles(bs, top) && i < |bs| && x in Live(bs) && bs[i].start <= x.start < bs[i].end
    ensures x == bs[i]
  {
    var j :| 0 <= j < |bs| && bs[j] == x;
    assert Shaped(bs[j]);
    if i < j {
      Ordered(bs, top, i, j);
    } else if j < i {
      Ordered(bs, top, j, i);
    }
  }

  /** Blocks at the same place in two heaps with the same live blocks: equal if the first ends no later. */
  lemma SameBlock(a: seq<Block>, b: seq<Block>, top: nat, i: nat)
    requires Tiles(a, top) && Tiles(b, top) && NoAdjacentFree(a) && Live(a) == Live(b)
    requires i < |a| && i < |b| && a[i].start == b[i].start && a[i].end <= b[i].end
    ensures a[i] == b[i]
  {
    assert Shaped(a[i]) && Shaped(b[i]);
    if a[i].used {
      SameStart(b, top, i, a[i]);
    } else if b[i].used {
      assert b[i] in Live(b);
      SameStart(a, top, i, b[i]);
    } else if a[i].end < b[i].end {
      BelowTop(b, top, i);
      assert i + 1 < |a|;
      assert Separated(a, i);
      assert a[i + 1] in Live(a) && a[i + 1].start == a[i].end;
      SameStart(b, top, i, a[i + 1]);
    }
  }

  lemma FreshBlocks(top: nat)
    ensures NoAdjacentFree([Block(0, top, false)]) && UsedBytes([Block(0, top, false)]) == 0
  {
    UsedBytesOne(Block(0, top, false));
  }

  /** The live blocks determine where the free ones are. */
  lemma {:induction false} CanonicalUpTo(a: seq<Block>, b: seq<Block>, top: nat, n: nat)
    requires Tiles(a, top) && Tiles(b, top) && NoAdjacentFree(a) && NoAdjacentFree(b) && Live(a) == Live(b)
    requires n <= |a| && n <= |b|
    ensures a[..n] == b[..n]
  {
    hide NoAdjacentFree, Live;
    if n > 0 {
      var i := n - 1;
      CanonicalUpTo(a, b, top, i);
      assert i > 0 ==> a[i - 1] == a[..i][i - 1] == b[..i][i - 1] == b[i - 1];
      if a[i].end <= b[i].end {
        SameBlock(a, b, top, i);
      } else {
        SameBlock(b, a, top, i);
      }
    }
  }

  /** Two heaps of the same size with the same live blocks have the same block list. */
  lemma Canonical(a: seq<Block>, b: seq<Block>, top: nat)
    requires Tiles(a, top) && Tiles(b, top) && NoAdjacentFree(a) && NoAdjacentFree(b) && Live(a) == Live(b)
    ensures a == b
  {
    hide NoAdjacentFree, Live;
    var n := if |a| <= |b| then |a| else |b|;
    CanonicalUpTo(a, b, top, n);
    assert a[n - 1] == a[..n][n - 1] == b[..n][n - 1] == b[n - 1];
    BelowTop(a, top, n - 1);
    BelowTop(b, top, n - 1);
    assert a == a[..n] && b == b[..n];
  }

  /** When nothing is live, one free block is left and nothing is in use. */
  lemma NothingLive(bs: seq<Block>, top: nat)
    requires Tiles(bs, top) && NoAdjacentFree(bs) && Live(bs) == {}
    ensures bs == [Block(0, top, false)] && UsedBytes(bs) == 0
  {
    forall i | 0 <= i < |bs|
      ensures !bs[i].used
    {
      LiveAt(bs, i);
    }
    AllFree(bs, top);
  }

  // ---------------------------------------------------------------------------
  // Keeping free blocks apart.

  /** Only the pairs that block k is part of may be two free blocks. */
  ghost predicate SeparatedBut(bs: seq<Block>, k: nat) {
    forall i: nat :: i != k && i + 1 != k ==> Separated(bs, i)
  }

  lemma ForwardSeparated(bs: seq<Block>, k: nat)
    requires SeparatedBut(bs, k) && k + 1 < |bs| && !bs[k].used && !bs[k + 1].used
    ensures SeparatedBut(Replace(bs, k, 2, Joined(bs[k], bs[k + 1])), k)
    ensures Separated(Replace(bs, k, 2, Joined(bs[k], bs[k + 1])), k)
  {
    var r := Replace(bs, k, 2, Joined(bs[k], bs[k + 1]));
    assert Separated(bs, k + 1);
    forall i: nat | i != k && i + 1 != k
      ensures Separated(r, i)
    {
      assert Separated(bs, if i < k then i else i + 1);
    }
  }

  lemma BackwardSeparated(bs: seq<Block>, k: nat)
    requires SeparatedBut(bs, k) && Separated(bs, k) && 0 < k < |bs| && !bs[k - 1].used && !bs[k].used
    ensures NoAdjacentFree(Replace(bs, k - 1, 2, Joined(bs[k - 1], bs[k])))
  {
    var r := Replace(bs, k - 1, 2, Joined(bs[k - 1], bs[k]));
    forall i: nat
      ensures Separated(r, i)
    {
      assert Separated(bs, if i + 1 < k then i else i + 1);
    }
  }

  lemma NothingToJoin(bs: seq<Block>, k: nat)
    requires SeparatedBut(bs, k) && Separated(bs, k) && k < |bs| && (k > 0 ==> bs[k - 1].used)
    ensures NoAdjacentFree(bs)
  {
    forall i: nat
      ensures Separated(bs, i)
    {
    }
  }

  lemma TakenSeparated(bs: seq<Block>, k: nat, cut: nat)
    requires NoAdjacentFree(bs) && k < |bs| && !bs[k].used
    ensures NoAdjacentFree(Replace(bs, k, 1, [bs[k].(used := true)]))
    ensures NoAdjacentFree(Replace(bs, k, 1, Cut(bs[k], cut, true)))
  {
    var r, c := Replace(bs, k, 1, [bs[k].(used := true)]), Replace(bs, k, 1, Cut(bs[k], cut, true));
    forall i: nat
      ensures Separated(r, i) && Separated(c, i)
    {
      assert Separated(bs, i);
      assert i > 0 ==> Separated(bs, i - 1);
    }
  }

  lemma FreedSeparated(bs: seq<Block>, k: nat, cut: nat)
    requires NoAdjacentFree(bs) && k < |bs| && bs[k].used
    ensures SeparatedBut(Replace(bs, k, 1, [bs[k].(used := false)]), k)
    ensures SeparatedBut(Replace(bs, k, 1, Cut(bs[k], cut, true)), k + 1)
  {
    var r, c := Replace(bs, k, 1, [bs[k].(used := false)]), Replace(bs, k, 1, Cut(bs[k], cut, true));
    forall i: nat
      ensures i != k && i + 1 != k ==> Separated(r, i)
      ensures i != k + 1 && i != k ==> Separated(c, i)
    {
      assert Separated(bs, i);
      assert i > 0 ==> Separated(bs, i - 1);
    }
  }

  // ---------------------------------------------------------------------------
  // The lowest-free pointer under these changes.

  lemma JoinKeepsFree(bs: seq<Block>, top: nat, k: nat, lfree: nat)
    requires Tiles(bs, top) && FreeOrTop(bs, top, lfree) && k + 1 < |bs| && !bs[k].used && !bs[k + 1].used
    ensures
      var r, l := Replace(bs, k, 2, Joined(bs[k], bs[k + 1])), if lfree == bs[k + 1].start then bs[k].start else lfree;
      FreeOrTop(r, top, l) && (Lowest(bs, lfree) ==> Lowest(r, l))
  {
    var j :| 0 <= j <= |bs| && StartAt(bs, top, j) == lfree && (j < |bs| ==> !bs[j].used);
    StartsFrom(bs, top, j, lfree);
    assert Shaped(bs[k]);
    hide Tiles, Shaped, FreeOrTop;
    var r, l := Replace(bs, k, 2, Joined(bs[k], bs[k + 1])), if lfree == bs[k + 1].start then bs[k].start else lfree;
    var j' := if j <= k then j else j - 1;
    assert StartAt(r, top, j') == l && (j' < |r| ==> !r[j'].used);
    FoundFree(r, top, j');
    forall i | 0 <= i < |r|
      ensures Lowest(bs, lfree) && r[i].start < l ==> r[i].used
    {
      assert r[i] == if i < k then bs[i] else if i == k then Joined(bs[k], bs[k + 1])[0] else bs[i + 1];
    }
  }

  /** Taking block k, which lies at or above lfree. */
  lemma TakeKeepsFree(bs: seq<Block>, top: nat, k: nat, mid: seq<Block>, lfree: nat)
    requires Tiles(bs, top) && k < |bs| && FreeOrTop(bs, top, lfree) && lfree <= bs[k].start
    requires mid != [] && mid[0].start == bs[k].start
    requires forall i | 0 <= i < |mid| :: bs[k].start <= mid[i].start
    ensures lfree != bs[k].start ==> FreeOrTop(Replace(bs, k, 1, mid), top, lfree)
    ensures Lowest(bs, lfree) ==> Lowest(Replace(bs, k, 1, mid), lfree)
  {
    var r := Replace(bs, k, 1, mid);
    var j :| 0 <= j <= |bs| && StartAt(bs, top, j) == lfree && (j < |bs| ==> !bs[j].used);
    StartsFrom(bs, top, j, lfree);
    if lfree != bs[k].start {
      assert j < k;
      assert StartAt(r, top, j) == lfree && r[j] == bs[j];
    }
    if Lowest(bs, lfree) {
      forall i | 0 <= i < |r|
        ensures r[i].start < lfree ==> r[i].used
      {
        assert r[i] == if i < k then bs[i] else if i < k + |mid| then mid[i - k] else bs[i - |mid| + 1];
      }
    }
  }

  /** Freeing block k. */
  lemma FreeKeepsFree(bs: seq<Block>, top: nat, k: nat, lfree: nat)
    requires Tiles(bs, top) && FreeOrTop(bs, top, lfree) && k < |bs| && bs[k].used
    ensures
      var r, l := Replace(bs, k, 1, [bs[k].(used := false)]), if bs[k].start < lfree then bs[k].start else lfree;
      FreeOrTop(r, top, l) && (Lowest(bs, lfree) ==> Lowest(r, l))
  {
    var r, l := Replace(bs, k, 1, [bs[k].(used := false)]), if bs[k].start < lfree then bs[k].start else lfree;
    var j :| 0 <= j <= |bs| && StartAt(bs, top, j) == lfree && (j < |bs| ==> !bs[j].used);
    assert r == bs[k := bs[k].(used := false)];
    assert StartAt(r, top, if bs[k].start < lfree then k else j) == l;
  }

  /** Cutting the used block k in two. */
  lemma ShrinkKeepsFree(bs: seq<Block>, top: nat, k: nat, cut: nat, lfree: nat)
    requires Tiles(bs, top) && FreeOrTop(bs, top, lfree) && k < |bs| && bs[k].used
    ensures FreeOrTop(Replace(bs, k, 1, Cut(bs[k], cut, true)), top, lfree)
  {
    var r := Replace(bs, k, 1, Cut(bs[k], cut, true));
    var j :| 0 <= j <= |bs| && StartAt(bs, top, j) == lfree && (j < |bs| ==> !bs[j].used);
    assert StartAt(r, top, if j < k then j else j + 1) == lfree;
  }

  /** plug_holes as far as it joins forward: the blocks and the lowest-free pointer. */
  function JoinedForward(bs: seq<Block>, k: nat): seq<Block>
    requires k < |bs|
  {
    if k + 1 < |bs| && !bs[k + 1].used then Replace(bs, k, 2, Joined(bs[k], bs[k + 1])) else bs
  }

  function LfreeForward(bs: seq<Block>, k: nat, lfree: nat): nat
    requires k < |bs|
  {
    if k + 1 < |bs| && !bs[k + 1].used && lfree == bs[k + 1].start then bs[k].start else lfree
  }

  /** lfree lies below the block, or at the free block right behind it. */
  predicate TailReached(lfree: nat, b: Block, top: nat) {
    lfree < b.start || (lfree == b.end && b.end < top)
  }

  /**
   Shrinking block k frees its tail without lowering lfree, which stays the lowest free block only
   when it lies below, or is moved down because the free block behind is joined.
   */
  lemma ShrinkLowest(bs: seq<Block>, top: nat, k: nat, cut: nat, lfree: nat)
    requires Tiles(bs, top) && FreeOrTop(bs, top, lfree) && Lowest(bs, lfree) && k < |bs| && bs[k].used
    requires bs[k].start < cut < bs[k].end
    ensures
      var r := Replace(bs, k, 1, Cut(bs[k], cut, true));
      k + 1 < |r| && (Lowest(JoinedForward(r, k + 1), LfreeForward(r, k + 1, lfree)) <==> TailReached(lfree, bs[k], top))
  {
    var j :| 0 <= j <= |bs| && StartAt(bs, top, j) == lfree && (j < |bs| ==> !bs[j].used);
    StartsFrom(bs, top, j, lfree);
    BelowTop(bs, top, k);
    assert Shaped(bs[k]);
    if k + 1 < |bs| {
      assert bs[k + 1].start == bs[k].end && Shaped(bs[k + 1]);
    }
    if j < k {
      assert Shaped(bs[j]);
      Ordered(bs, top, j, k);
    } else if j < |bs| {
      Ordered(bs, top, k, j);
    }
    LowestByTail(bs, top, k, cut, lfree, j);
  }

  lemma LowestByTail(bs: seq<Block>, top: nat, k: nat, cut: nat, lfree: nat, j: nat)
    requires j <= |bs| && j != k < |bs| && StartAt(bs, top, j) == lfree && (j < |bs| ==> !bs[j].used) && bs[k].used
    requires forall i | 0 <= i < |bs| :: lfree <= bs[i].start <==> j <= i
    requires if j < k then lfree < bs[k].start else bs[k].end <= lfree
    requires Lowest(bs, lfree) && bs[k].start < cut < bs[k].end <= top
    requires k + 1 < |bs| ==> bs[k + 1].start == bs[k].end < top
    requires k + 1 == |bs| ==> bs[k].end == top
    ensures
      var r := Replace(bs, k, 1, Cut(bs[k], cut, true));
      k + 1 < |r| && (Lowest(JoinedForward(r, k + 1), LfreeForward(r, k + 1, lfree)) <==> TailReached(lfree, bs[k], top))
  {
    var r := Replace(bs, k, 1, Cut(bs[k], cut, true));
    var f, l := JoinedForward(r, k + 1), LfreeForward(r, k + 1, lfree);
    assert f[k + 1].start == cut && !f[k + 1].used;
    if TailReached(lfree, bs[k], top) {
      forall i | 0 <= i < |f|
        ensures f[i].start < l ==> f[i].used
      {
        var joined := |f| < |r|;
        assert f[i] == if i < k then bs[i] else if i == k then Block(bs[k].start, cut, true)
                       else if i == k + 1 then f[k + 1] else if joined then bs[i] else bs[i - 1];
      }
    } else {
      assert l > cut;
    }
  }

  lemma FoundFree(bs: seq<Block>, top: nat, j: nat)
    requires j <= |bs| && (j < |bs| ==> !bs[j].used)
    ensures FreeOrTop(bs, top, StartAt(bs, top, j))
  {
  }

  // ---------------------------------------------------------------------------
  // Taking a block and giving it back.

  /** What becomes of a free block that is given to a request. */
  function Taken(b: Block, need: nat): (r: seq<Block>)
    ensures r != []
  {
    if b.Payload() >= need + HEADER + MIN_PAYLOAD then Cut(b, b.start + HEADER + need, true) else [b.(used := true)]
  }

  /** b is a new live block for a request of `need` bytes at ptr, and the only one. */
  ghost predicate NewBlock(bs: seq<Block>, bs': seq<Block>, b: Block, ptr: nat, need: nat) {
    && ptr == b.start + HEADER && need <= b.Payload() < need + HEADER + MIN_PAYLOAD
    && b !in Live(bs) && Live(bs') == Live(bs) + {b}
  }

  lemma AlignedBlock(bs: seq<Block>, top: nat, k: nat)
    requires Tiles(bs, top) && k < |bs|
    ensures Shaped(bs[k]) && (bs[k].start + HEADER) % ALIGN == 0
  {
  }

  /** The request's block lies where a free block was, so it is a new one. */
  lemma FreeNotLive(bs: seq<Block>, top: nat, k: nat, b: Block)
    requires Tiles(bs, top) && k < |bs| && !bs[k].used && b.start == bs[k].start && b.used
    ensures b !in Live(bs)
  {
    assert Shaped(bs[k]);
    if b in Live(bs) {
      SameStart(bs, top, k, b);
    }
  }

  lemma StartsHere(bs: seq<Block>, top: nat, k: nat, b: Block)
    requires Tiles(bs, top) && k < |bs| && b.start == bs[k].start
    ensures b !in Live(bs) - {bs[k]}
  {
    assert Shaped(bs[k]);
    if b in Live(bs) {
      SameStart(bs, top, k, b);
    }
  }

  lemma TakenStart(bs: seq<Block>, top: nat, k: nat, need: nat)
    requires k < |bs|
    ensures StartAt(Replace(bs, k, 1, Taken(bs[k], need)), top, k) == bs[k].start
    ensures k < |Replace(bs, k, 1, Taken(bs[k], need))|
  {
  }

  lemma TakenCounts(bs: seq<Block>, top: nat, k: nat, need: nat)
    requires Tiles(bs, top) && k < |bs| && !bs[k].used
    ensures
      var b, r := Taken(bs[k], need)[0], Replace(bs, k, 1, Taken(bs[k], need));
      Live(r) == Live(bs) + {b} && UsedBytes(r) == UsedBytes(bs) + b.end - b.start && Live([bs[k]]) == {}
  {
    hide Live, UsedBytes, Tiles, Replace;
    var b, mid := bs[k], Taken(bs[k], need);
    assert bs[k..k + 1] == [b];
    ReplaceLive(bs, top, k, 1, mid);
    ReplaceUsedBytes(bs, k, 1, mid);
    LiveOne(b);
    UsedBytesOne(b);
    if |mid| == 1 {
      LiveOne(mid[0]);
      UsedBytesOne(mid[0]);
    } else {
      LiveTwo(mid[0], mid[1]);
      UsedBytesTwo(mid[0], mid[1]);
    }
  }

  lemma FreedCounts(bs: seq<Block>, top: nat, k: nat)
    requires Tiles(bs, top) && k < |bs| && bs[k].used
    ensures
      var b, r := bs[k], Replace(bs, k, 1, [bs[k].(used := false)]);
      Live(r) == Live(bs) - {b} && UsedBytes(r) == UsedBytes(bs) - (b.end - b.start) && Live([b]) == {b}
  {
    hide Live, UsedBytes, Tiles, Replace;
    var b, f := bs[k], bs[k].(used := false);
    assert bs[k..k + 1] == [b];
    ReplaceLive(bs, top, k, 1, [f]);
    ReplaceUsedBytes(bs, k, 1, [f]);
    LiveOne(b);
    LiveOne(f);
    UsedBytesOne(b);
    UsedBytesOne(f);
  }

  lemma ShrunkCounts(bs: seq<Block>, top: nat, k: nat, cut: nat)
    requires Tiles(bs, top) && k < |bs| && bs[k].used
    ensures
      var b, r := bs[k], Replace(bs, k, 1, Cut(bs[k], cut, true));
      Live(r) == Live(bs) - {b} + {Block(b.start, cut, true)} && UsedBytes(r) == UsedBytes(bs) - (b.end - cut) && Live([b]) == {b}
  {
    hide Live, UsedBytes, Tiles, Replace;
    var b, mid := bs[k], Cut(bs[k], cut, true);
    assert bs[k..k + 1] == [b];
    ReplaceLive(bs, top, k, 1, mid);
    ReplaceUsedBytes(bs, k, 1, mid);
    LiveOne(b);
    LiveTwo(mid[0], mid[1]);
    UsedBytesOne(b);
    UsedBytesTwo(mid[0], mid[1]);
  }

  lemma CutAt(bs: seq<Block>, k: nat, cut: nat)
    requires k < |bs|
    ensures k + 1 < |Replace(bs, k, 1, Cut(bs[k], cut, true))|
    ensures Replace(bs, k, 1, Cut(bs[k], cut, true))[k + 1] == Block(cut, bs[k].end, false)
    ensures Replace(bs, k, 1, Cut(bs[k], cut, true))[k] == Block(bs[k].start, cut, true)
  {
  }

  lemma AtReplaced(bs: seq<Block>, k: nat, b: Block)
    requires k < |bs|
    ensures k < |Replace(bs, k, 1, [b])| && Replace(bs, k, 1, [b])[k] == b
  {
  }

  ghost function IndexOf(bs: seq<Block>, b: Block): (i: nat)
    requires b in Live(bs)
    ensures i < |bs| && bs[i] == b && b.used
  {
    var i :| 0 <= i < |bs| && bs[i].used && bs[i] == b; i
  }

  /** Block k is the first fitting one from lfree on. */
  ghost predicate FirstFit(bs: seq<Block>, lfree: nat, k: nat, need: nat)
    requires k < |bs|
  {
    && FitsIn(bs[k], need) && lfree <= bs[k].start
    && forall i | 0 <= i < k && lfree <= bs[i].start :: !FitsIn(bs[i], need)
  }

  /** From lfree on only a block that ends the heap with exactly this payload can fit. */
  ghost predicate OnlyExactFit(bs: seq<Block>, lfree: nat, size: nat, need: nat) {
    forall i | 0 <= i < |bs| && lfree <= bs[i].start && FitsIn(bs[i], need) ::
      bs[i].start == size - need && bs[i].Payload() == need
  }

  /** When lfree is the lowest free block these speak of all blocks. */
  lemma LowestFit(bs: seq<Block>, top: nat, lfree: nat, k: nat, need: nat)
    requires Tiles(bs, top) && Lowest(bs, lfree)
    ensures k < |bs| && FirstFit(bs, lfree, k, need) ==> forall i | 0 <= i < |bs| && FitsIn(bs[i], need) :: bs[k].start <= bs[i].start
    ensures OnlyExactFit(bs, lfree, top - HEADER, need) ==>
              forall i | 0 <= i < |bs| && FitsIn(bs[i], need) :: bs[i].start == top - HEADER - need && bs[i].Payload() == need
  {
    if k < |bs| && FirstFit(bs, lfree, k, need) {
      forall i | 0 <= i < |bs| && FitsIn(bs[i], need)
        ensures bs[k].start <= bs[i].start
      {
        if k < i {
          Ordered(bs, top, k, i);
        }
      }
    }
  }
}
