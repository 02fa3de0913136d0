/**
 The allocator of os/mem.c, working in place on the heap's words. The heap lock is left out: each
 operation is one step. Pointers are offsets from heap_ptr, and heap_ptr is 8-aligned.
 */
module Heap {
  import opened Base
  import opened HeapBlocks
  import opened HeapWords
  import opened Words

  /** RT_ALIGN(n, 8), for a request that does not wrap. */
  function AlignUp(n: nat): (r: nat)
    ensures n <= r < n + ALIGN && r % ALIGN == 0
  {
    (n + ALIGN - 1) / ALIGN * ALIGN
  }

  function AlignDown(n: nat): (r: nat)
    ensures n - ALIGN < r <= n && r % ALIGN == 0
  {
    n / ALIGN * ALIGN
  }

  /** The payload looked for: aligned, and at least the minimum (lines 256-269). */
  function Need(bytes: nat): nat {
    if AlignUp(bytes) < MIN_PAYLOAD then MIN_PAYLOAD else AlignUp(bytes)
  }

  class Allocator {
    const size: nat  // mem_size_aligned
    const mem: array<nat>
    var lfree: nat
    var usedMem: int
    var maxMem: int
    ghost var bs: seq<Block>

    function Top(): nat {
      size + HEADER
    }

    /** Blocks and memory agree. */
    ghost predicate Sound()
      reads this, mem
    {
      && size % ALIGN == 0 && size >= MIN_PAYLOAD && size + 2 * HEADER < TWO32
      && Tiles(bs, Top()) && Laid(mem[..], bs, Top())
    }

    ghost predicate Valid()
      reads this, mem
    {
      && Sound() && NoAdjacentFree(bs) && usedMem == UsedBytes(bs) <= maxMem
      && FreeOrTop(bs, Top(), lfree) && (lfree < Top() || Live(bs) != {})
    }

    /** rt_system_heap_init, lines 144-218, for a region with at least one minimal block. */
    constructor (beginAddr: nat, endAddr: nat)
      requires endAddr < TWO32 - ALIGN && AlignUp(beginAddr) + 2 * HEADER + MIN_PAYLOAD <= AlignDown(endAddr)
      ensures Valid() && Lowest(bs, lfree) && bs == [Block(0, Top(), false)] && lfree == 0 && fresh(mem)
      ensures size == AlignDown(endAddr) - AlignUp(beginAddr) - 2 * HEADER
    {
      hide AlignUp, AlignDown, Tag, Tiles, Laid, W, UsedBytes, NoAdjacentFree, Live;
      var beginAlign, endAlign := AlignUp(beginAddr), AlignDown(endAddr);
      var n := endAlign - beginAlign - 2 * HEADER;
      var top := n + HEADER;
      WordIndex(top);
      var words := new nat[W(top) + 4](_ => 0);
      words[0], words[1], words[2] := Tag(false), top, 0;
      words[W(top)], words[W(top) + 1], words[W(top) + 2] := Tag(true), top, top;
      size, mem, lfree, usedMem, maxMem := n, words, 0, 0, 0;
      bs := [Block(0, top, false)];
      new;
      FreshLaid(mem[..], Top());
      FreshBlocks(top);
      assert StartAt(bs, Top(), 0) == lfree;
    }

    /** The fields of the header at p. */
    function Next(p: nat): nat
      requires W(p) + 1 < mem.Length
      reads mem
    {
      mem[W(p) + 1]
    }

    function Prev(p: nat): nat
      requires W(p) + 2 < mem.Length
      reads mem
    {
      mem[W(p) + 2]
    }

    function Used(p: nat): bool
      requires W(p) < mem.Length
      reads mem
    {
      mem[W(p)] / 0x1_0000 != 0
    }

    /** What the header of block j says. */
    lemma ReadHeader(j: nat)
      requires Sound() && j <= |bs|
      ensures
        var p := StartAt(bs, Top(), j);
        && p % ALIGN == 0 && W(p) + 3 < mem.Length && mem[W(p)] == Tag(Used(p))
        && (j < |bs| ==> Used(p) == bs[j].used && Next(p) == bs[j].end == StartAt(bs, Top(), j + 1) && p + HEADER + ALIGN <= bs[j].end <= Top()
                         && Prev(p) == PrevOf(bs, j))
        && (j == |bs| ==> Used(p) && Next(p) == p)
    {
      if j < |bs| {
        BelowTop(bs, Top(), j);
        assert Header(mem[..], bs[j], PrevOf(bs, j));
      }
    }

    /**
     Lines 271-278: first fit from lfree. The bound is strict, so a failed search may have passed
     over one block, an exact fit at size - need.
     */
    method FindFit(need: nat) returns (found: Option<nat>, ghost k: nat)
      requires Sound() && FreeOrTop(bs, Top(), lfree) && MIN_PAYLOAD <= need <= size && need % ALIGN == 0
      ensures found.Some? ==> k < |bs| && bs[k].start == found.value && FirstFit(bs, lfree, k, need)
      ensures found.None? <==> OnlyExactFit(bs, lfree, size, need)
    {
      hide NoAdjacentFree, Laid, Tiles;
      k :| k <= |bs| && StartAt(bs, Top(), k) == lfree && (k < |bs| ==> !bs[k].used);
      var ptr := lfree;
      ghost var from := k;
      while ptr < size - need
        invariant from <= k <= |bs| && ptr == StartAt(bs, Top(), k)
        invariant forall i | from <= i < k :: !FitsIn(bs[i], need)
        decreases |bs| - k
      {
        ReadHeader(k);
        if !Used(ptr) && Next(ptr) - (ptr + HEADER) >= need {
          StartsFrom(bs, Top(), from, lfree);
          return Some(ptr), k;
        }
        ptr := Next(ptr);
        k := k + 1;
      }
      StartsFrom(bs, Top(), from, lfree);
      PassedOver(bs, Top(), k, need);
      found := None;
    }

    /** Lines 298-315 and 454-467: a new header at cut, linked in behind the block at p. */
    method WriteSplit(p: nat, cut: nat, used: bool, ghost k: nat)
      requires Sound() && k < |bs| && bs[k].start == p && cut % ALIGN == 0
      requires p + HEADER + ALIGN <= cut && cut + HEADER + ALIGN <= bs[k].end
      modifies mem, `bs
      ensures Sound() && bs == Replace(old(bs), k, 1, Cut(old(bs)[k], cut, used))
      ensures SameOutside(old(mem[..]), mem[..], p, old(bs)[k].end)
      ensures SamePayload(old(mem[..]), mem[..], Block(p, cut, true))
    {
      hide W, Tag, Tiles, Laid, Replace, SameOutside, Shaped, Covers, SamePayload;
      ghost var m, mid, b := mem[..], Cut(bs[k], cut, used), bs[k];
      CutCovers(bs, Top(), k, cut, used);
      HeaderWords(m, bs, Top(), k);
      WordIndex(cut);
      var next := Next(p);
      mem[W(cut)] := Tag(false);
      mem[W(cut) + 1] := next;
      mem[W(cut) + 2] := p;
      mem[W(p) + 1] := cut;
      mem[W(p)] := Tag(used);
      if next != size + HEADER {
        mem[W(next) + 2] := cut;
      }
      assert mem[..] == SplitMem(m, b, cut, used, b.end == Top());
      SplitPayload(m, b, cut, used, b.end == Top());
      SplitLaid(m, bs, Top(), k, cut, used);
      ReplaceTiles(bs, Top(), k, 1, mid);
      bs := Replace(bs, k, 1, mid);
    }

    /** Lines 114-115 and 127-128: the block at p swallows its successor. */
    method WriteJoin(p: nat, ghost k: nat)
      requires Sound() && k + 1 < |bs| && bs[k].start == p
      modifies mem, `bs
      ensures Sound() && bs == Replace(old(bs), k, 2, Joined(old(bs)[k], old(bs)[k + 1]))
      ensures SameOutside(old(mem[..]), mem[..], p, old(bs)[k + 1].end)
    {
      hide W, Tag, Tiles, Laid, Replace, SameOutside, Covers;
      ghost var m, mid := mem[..], Joined(bs[k], bs[k + 1]);
      JoinedCovers(bs, Top(), k);
      HeaderWords(m, bs, Top(), k);
      HeaderWords(m, bs, Top(), k + 1);
      var next := Next(Next(p));
      mem[W(p) + 1] := next;
      mem[W(next) + 2] := p;
      assert mem[..] == JoinMem(m, bs[k], bs[k + 1]);
      JoinLaid(m, bs, Top(), k);
      ReplaceTiles(bs, Top(), k, 2, mid);
      bs := Replace(bs, k, 2, mid);
    }

    /** Lines 331 and 565: only the used flag changes. */
    method Retag(p: nat, used: bool, ghost k: nat)
      requires Sound() && k < |bs| && bs[k].start == p
      modifies mem, `bs
      ensures Sound() && bs == Replace(old(bs), k, 1, [old(bs)[k].(used := used)])
      ensures SameOutside(old(mem[..]), mem[..], p, old(bs)[k].end)
    {
      hide W, Tag, Tiles, Laid, Replace, SameOutside, Covers;
      ghost var m, mid := mem[..], [bs[k].(used := used)];
      RetaggedCovers(bs, Top(), k, used);
      HeaderWords(m, bs, Top(), k);
      mem[W(p)] := Tag(used);
      assert mem[..] == m[W(p) := Tag(used)];
      RetagLaid(m, bs, Top(), k, used);
      ReplaceTiles(bs, Top(), k, 1, mid);
      bs := Replace(bs, k, 1, mid);
    }

    /** Lines 108-115 and 121-128: the free block at p absorbs the free block at q behind it. */
    method Absorb(p: nat, q: nat, ghost k: nat)
      requires Sound() && k + 1 < |bs| && bs[k].start == p && bs[k + 1].start == q && !bs[k].used && !bs[k + 1].used
      requires FreeOrTop(bs, Top(), lfree)
      modifies mem, `bs, `lfree
      ensures Sound() && FreeOrTop(bs, Top(), lfree) && lfree <= old(lfree) && (old(Lowest(bs, lfree)) ==> Lowest(bs, lfree))
      ensures bs == Replace(old(bs), k, 2, Joined(old(bs)[k], old(bs)[k + 1])) && lfree == if old(lfree) == q then p else old(lfree)
      ensures Live(bs) == old(Live(bs)) && UsedBytes(bs) == old(UsedBytes(bs)) && Kept(old(mem[..]), mem[..], Live(bs))
    {
      hide Tiles, Laid, Replace, SameOutside, UsedBytes, Live, Kept, FreeOrTop, Lowest, StartAt;
      ghost var was, m, mid := bs, mem[..], Joined(bs[k], bs[k + 1]);
      BlockWords(bs, Top(), k);
      JoinKeepsFree(bs, Top(), k, lfree);
      if lfree == q {
        lfree := p;
      }
      WriteJoin(p, k);
      assert was[k..k + 2] == [was[k], was[k + 1]];
      ReplaceLive(was, Top(), k, 2, mid);
      assert Live(was) - {} == Live(was) && Live(was) + {} == Live(was);
      LiveTwo(was[k], was[k + 1]);
      LiveOne(mid[0]);
      ReplaceUsedBytes(was, k, 2, mid);
      UsedBytesTwo(was[k], was[k + 1]);
      UsedBytesOne(mid[0]);
      SentinelAbove(m, was, Top());
      OthersKept(m, mem[..], was, Top(), k, 2);
    }

    /** plug_holes, lines 94-131: merges the free block at p with free neighbours. */
    method PlugHoles(p: nat, ghost k: nat)
      requires Sound() && k < |bs| && bs[k].start == p && !bs[k].used && SeparatedBut(bs, k) && FreeOrTop(bs, Top(), lfree)
      modifies mem, `bs, `lfree
      ensures Sound() && FreeOrTop(bs, Top(), lfree) && lfree <= old(lfree) && (old(Lowest(bs, lfree)) ==> Lowest(bs, lfree))
      ensures NoAdjacentFree(bs) && Live(bs) == old(Live(bs)) && UsedBytes(bs) == old(UsedBytes(bs))
      ensures Kept(old(mem[..]), mem[..], Live(bs))
      ensures k > 0 && old(bs)[k - 1].used ==> bs == JoinedForward(old(bs), k) && lfree == LfreeForward(old(bs), k, old(lfree))
    {
      hide Tiles, Laid, UsedBytes, Live, Kept, FreeOrTop, Lowest, NoAdjacentFree, SeparatedBut, Tag, W;
      ghost var m := mem[..];
      KeptSame(m, bs, Top());
      ReadHeader(k);
      ReadHeader(k + 1);
      var nmem := Next(p);
      if p != nmem && !Used(nmem) && nmem != Top() {
        ForwardSeparated(bs, k);
        Absorb(p, nmem, k);
      } else {
        assert Separated(bs, k);
      }
      ghost var m1 := mem[..];
      ReadHeader(k);
      if k > 0 {
        ReadHeader(k - 1);
      } else {
        BottomAtZero(bs, Top());
      }
      var pmem := Prev(p);
      if pmem != p && !Used(pmem) {
        BackwardSeparated(bs, k);
        Absorb(pmem, p, k - 1);
      } else {
        KeptSame(m1, bs, Top());
        NothingToJoin(bs, k);
      }
      KeptTransitive(m, m1, mem[..], Live(bs), Live(bs));
      assert Live(bs) * Live(bs) == Live(bs);
    }

    /** Lines 346-351: the lowest-free pointer moves up to a free block or the sentinel. */
    method AdvanceLfree(ghost from: nat)
      requires Sound() && from <= |bs| && StartAt(bs, Top(), from) == lfree
      modifies `lfree
      ensures FreeOrTop(bs, Top(), lfree) && old(lfree) <= lfree
      ensures old(Lowest(bs, lfree)) ==> Lowest(bs, lfree)
    {
      hide Laid, Tiles, Tag, W, FreeOrTop;
      ghost var j := from;
      StartsFrom(bs, Top(), from, lfree);
      ReadHeader(j);
      while Used(lfree) && lfree != Top()
        invariant from <= j <= |bs| && StartAt(bs, Top(), j) == lfree && old(lfree) <= lfree && W(lfree) < mem.Length
        invariant Used(lfree) == (j == |bs| || bs[j].used) && (j < |bs| ==> lfree < Top())
        invariant forall i | from <= i < j :: bs[i].used
        decreases |bs| - j
      {
        ReadHeader(j);
        lfree := Next(lfree);
        j := j + 1;
        ReadHeader(j);
      }
      StartsFrom(bs, Top(), j, lfree);
      FoundFree(bs, Top(), j);
    }

    /** Lines 281-340: the free block at p is cut to size, or taken whole when the rest would be too small. */
    method Take(p: nat, need: nat, ghost k: nat)
      requires Valid() && k < |bs| && bs[k].start == p && FitsIn(bs[k], need) && need % ALIGN == 0 && need >= MIN_PAYLOAD
      modifies mem, `bs, `usedMem, `maxMem
      ensures Sound() && bs == Replace(old(bs), k, 1, Taken(old(bs)[k], need)) && NoAdjacentFree(bs)
      ensures usedMem == UsedBytes(bs) && maxMem == if old(maxMem) < usedMem then usedMem else old(maxMem)
      ensures Live(bs) == old(Live(bs)) + {Taken(old(bs)[k], need)[0]}
      ensures Kept(old(mem[..]), mem[..], old(Live(bs)))
    {
      hide Tiles, Laid, Replace, SameOutside, UsedBytes, Live, Kept, FreeOrTop, NoAdjacentFree, Tag, W, SamePayload, Shaped;
      ghost var was, m, mid := bs, mem[..], Taken(bs[k], need);
      BlockWords(bs, Top(), k);
      SplitAligned(bs, Top(), k, need);
      ReadHeader(k);
      TakenSeparated(bs, k, p + HEADER + need);
      var next := Next(p);
      var room := next - (p + HEADER);
      if room >= need + HEADER + MIN_PAYLOAD {
        WriteSplit(p, p + HEADER + need, true, k);
        usedMem := usedMem + need + HEADER;
      } else {
        Retag(p, true, k);
        usedMem := usedMem + next - p;
      }
      if maxMem < usedMem {
        maxMem := usedMem;
      }
      assert was[k..k + 1] == [was[k]];
      TakenCounts(was, Top(), k, need);
      assert Live(was) - {} == Live(was);
      SentinelAbove(m, was, Top());
      OthersKept(m, mem[..], was, Top(), k, 1);
    }

    /** malloc, lines 235-387. The result is an offset from heap_ptr, None standing for NULL. */
    method Malloc(bytes: nat) returns (r: Option<nat>, ghost k: nat)
      requires Valid() && bytes + ALIGN <= TWO32
      modifies this, mem
      ensures Valid() && (old(Lowest(bs, lfree)) ==> Lowest(bs, lfree))
      ensures r.None? <==> bytes == 0 || AlignUp(bytes) > size || OnlyExactFit(old(bs), old(lfree), size, Need(bytes))
      ensures r.None? ==>
                && mem[..] == old(mem[..]) && bs == old(bs) && lfree == old(lfree)
                && usedMem == old(usedMem) && maxMem == old(maxMem)
      ensures r.Some? ==>
                && bytes > 0 && k < |old(bs)| && FirstFit(old(bs), old(lfree), k, Need(bytes))
                && bs == Replace(old(bs), k, 1, Taken(old(bs)[k], Need(bytes)))
                && r.value == old(bs)[k].start + HEADER && r.value % ALIGN == 0
                && NewBlock(old(bs), bs, Taken(old(bs)[k], Need(bytes))[0], r.value, Need(bytes)) && bytes <= Need(bytes)
                && Kept(old(mem[..]), mem[..], old(Live(bs)))
                && maxMem == if old(maxMem) < usedMem then usedMem else old(maxMem)
    {
      hide Tiles, Laid, Replace, SameOutside, UsedBytes, Live, Kept, FreeOrTop, NoAdjacentFree, Tag, W, Lowest, StartAt;
      k := 0;
      if bytes == 0 || AlignUp(bytes) > size {
        return None, 0;
      }
      var need := AlignUp(bytes);
      if need < MIN_PAYLOAD {
        need := MIN_PAYLOAD;
      }
      r, k := FindFit(need);
      if r == None {
        return;
      }
      var p := r.value;
      ghost var was := bs;
      AlignedBlock(bs, Top(), k);
      FreeNotLive(bs, Top(), k, Taken(bs[k], need)[0]);
      TakeKeepsFree(bs, Top(), k, Taken(bs[k], need), lfree);
      Take(p, need, k);
      if p == lfree {
        TakenStart(was, Top(), k, need);
        AdvanceLfree(k);
      }
      r := Some(p + HEADER);
    }

    /** free, lines 522-588, of NULL or of a live allocation. */
    method Free(ptr: Option<nat>, ghost b: Block)
      requires Valid() && (ptr.Some? ==> b in Live(bs) && ptr.value == b.start + HEADER)
      modifies this, mem
      ensures Valid() && (old(Lowest(bs, lfree)) ==> Lowest(bs, lfree)) && maxMem == old(maxMem)
      ensures ptr.None? ==> mem[..] == old(mem[..]) && bs == old(bs) && lfree == old(lfree)
      ensures ptr.Some? ==> Live(bs) == old(Live(bs)) - {b} && usedMem == old(usedMem) - (b.end - b.start)
      ensures Kept(old(mem[..]), mem[..], Live(bs))
    {
      hide Tiles, Laid, SameOutside, UsedBytes, Live, Kept, FreeOrTop, NoAdjacentFree, Tag, W, Lowest, SeparatedBut, Replace;
      ghost var m := mem[..];
      KeptSame(m, bs, Top());
      if ptr == None {
        return;
      }
      ghost var was, k := bs, IndexOf(bs, b);
      var p := ptr.value - HEADER;
      FreeKeepsFree(bs, Top(), k, lfree);
      FreedSeparated(bs, k, 0);
      FreedCounts(bs, Top(), k);
      ReadHeader(k);
      var next := Next(p);
      AtReplaced(bs, k, b.(used := false));
      Retag(p, false, k);
      if p < lfree {
        lfree := p;
      }
      usedMem := usedMem - (next - p);
      ghost var m1 := mem[..];
      assert was[k..k + 1] == [b];
      SentinelAbove(m, was, Top());
      OthersKept(m, m1, was, Top(), k, 1);
      PlugHoles(p, k);
      KeptTransitive(m, m1, mem[..], Live(bs), Live(bs));
      assert Live(bs) * Live(bs) == Live(bs);
    }

    /** memcpy between two disjoint runs of words. */
    method CopyWords(dst: nat, src: nat, count: nat)
      requires dst + count <= mem.Length && src + count <= mem.Length && (dst + count <= src || src + count <= dst)
      modifies mem
      ensures mem[dst..dst + count] == old(mem[src..src + count])
      ensures SameBut(old(mem[..]), mem[..], dst, dst + count)
    {
      var i := 0;
      while i < count
        invariant i <= count
        invariant SameBut(old(mem[..]), mem[..], dst, dst + i)
        invariant mem[dst..dst + i] == old(mem[src..src + i])
      {
        assert mem[..][src + i] == old(mem[..])[src + i];
        mem[dst + i] := mem[src + i];
        assert mem[dst..dst + i + 1] == mem[dst..dst + i] + [mem[dst + i]];
        i := i + 1;
      }
    }

    /** Line 480: the first bytes of b's payload go to nb's. */
    method CopyPayload(src: nat, dst: nat, bytes: nat, ghost b: Block, ghost nb: Block)
      requires Sound() && b in Live(bs) && nb in Live(bs) && b != nb && src == b.start + HEADER && dst == nb.start + HEADER
      requires bytes % 4 == 0 && bytes <= b.Payload() && bytes <= nb.Payload()
      modifies mem
      ensures Sound() && SamePrefix(old(mem[..]), b, mem[..], nb, bytes / 4)
      ensures Kept(old(mem[..]), mem[..], Live(bs) - {nb})
    {
      hide Tiles, Laid, Live, SameBut, W;
      ghost var m := mem[..];
      SentinelAbove(m, bs, Top());
      LiveApart(bs, Top(), b, nb);
      LiveApart(bs, Top(), nb, b);
      hide Shaped;
      WordIndex(b.start + HEADER);
      WordIndex(nb.start + HEADER);
      WordIndex(b.end);
      WordIndex(nb.end);
      CopyWords(W(dst), W(src), bytes / 4);
      CopiedPrefix(m, mem[..], b, nb, bytes / 4);
      PayloadWritten(m, mem[..], bs, Top(), nb, W(nb.start + HEADER) + bytes / 4);
    }

    /** Lines 447-474: the tail of the block becomes free. */
    method Shrink(b: Block, bytes: nat)
      requires Valid() && b in Live(bs) && bytes % ALIGN == 0 && 0 < bytes && bytes + HEADER + 12 < b.Payload()
      modifies mem, `bs, `lfree, `usedMem
      ensures Valid() && Live(bs) == old(Live(bs)) - {b} + {Block(b.start, b.start + HEADER + bytes, true)}
      ensures Block(b.start, b.start + HEADER + bytes, true) !in old(Live(bs)) - {b}
      ensures Kept(old(mem[..]), mem[..], old(Live(bs)) - {b})
      ensures SamePayload(old(mem[..]), mem[..], Block(b.start, b.start + HEADER + bytes, true))
      ensures old(Lowest(bs, lfree)) ==> (Lowest(bs, lfree) <==> TailReached(old(lfree), b, Top()))
    {
      hide Tiles, Laid, SameOutside, UsedBytes, Live, FreeOrTop, NoAdjacentFree, Tag, W, Lowest, SeparatedBut, Replace, Kept, SamePayload, Shaped, JoinedForward, LfreeForward, TailReached;
      ghost var was, m, k := bs, mem[..], IndexOf(bs, b);
      var p, cut := b.start, b.start + HEADER + bytes;
      ghost var small := Block(p, cut, true);
      StartsHere(bs, Top(), k, small);
      SplitAligned(bs, Top(), k, bytes);
      ShrinkKeepsFree(bs, Top(), k, cut, lfree);
      FreedSeparated(bs, k, cut);
      ShrunkCounts(bs, Top(), k, cut);
      ReadHeader(k);
      usedMem := usedMem - (b.Payload() - bytes);
      CutAt(bs, k, cut);
      if Lowest(bs, lfree) {
        ShrinkLowest(bs, Top(), k, cut, lfree);
      }
      WriteSplit(p, cut, true, k);
      ghost var m1 := mem[..];
      assert was[k..k + 1] == [b];
      SentinelAbove(m, was, Top());
      OthersKept(m, m1, was, Top(), k, 1);
      KeptWith(m, m1, Live(was) - {b}, small);
      PlugHoles(cut, k + 1);
      KeptTransitive(m, m1, mem[..], Live(bs), Live(bs));
      assert Live(bs) * Live(bs) == Live(bs) && Live(was) - {b} + {small} == Live(bs);
      KeptParts(m, mem[..], Live(was) - {b}, small);
    }

    /** Lines 477-483: a new block, the contents copied, the old block freed. */
    method Move(b: Block, bytes: nat) returns (r: Option<nat>, ghost nb: Block)
      requires Valid() && b in Live(bs) && bytes + ALIGN <= TWO32 && bytes % ALIGN == 0 && 0 < bytes <= size
      modifies this, mem
      ensures Valid() && (old(Lowest(bs, lfree)) ==> Lowest(bs, lfree))
      ensures r.None? <==> OnlyExactFit(old(bs), old(lfree), size, Need(bytes))
      ensures r.None? ==> mem[..] == old(mem[..]) && bs == old(bs)
      ensures r.Some? ==> Moved(old(mem[..]), old(bs), mem[..], bs, b, nb, r.value, bytes)
    {
      hide Tiles, Laid, SameOutside, UsedBytes, FreeOrTop, NoAdjacentFree, Lowest, Tag, W, Live, Kept, SamePayload, SamePrefix, FirstFit, OnlyExactFit, Replace, Taken, AlignUp, Shaped, PayloadWords, Min;
      ghost var m, was := mem[..], bs;
      ghost var k := IndexOf(bs, b);
      AlignedBlock(bs, Top(), k);
      BelowTop(bs, Top(), k);
      SentinelAbove(m, bs, Top());
      PayloadLength(m, b);
      MinAligned(b.Payload(), bytes);
      r, k := Malloc(bytes);
      nb := b;
      if r == None {
        return;
      }
      nb := Taken(was[k], Need(bytes))[0];
      ghost var m1 := mem[..];
      var n := Min(b.Payload(), bytes);
      CopyPayload(b.start + HEADER, r.value, n, b, nb);
      ghost var m2 := mem[..];
      Free(Some(b.start + HEADER), b);
      MovedPrefix(m, m1, m2, mem[..], Live(was), Live(bs), b, nb, n / 4);
    }

    /**
     realloc, lines 398-486, of NULL, of a pointer outside the heap, or of the live block b. nb is
     the block that holds the contents afterwards.
     */
    method Realloc(ptr: Option<int>, bytes: nat, ghost b: Block) returns (r: Option<int>, ghost nb: Block)
      requires Valid() && bytes + ALIGN <= TWO32
      requires Inside(ptr) ==> b in Live(bs) && ptr.value == b.start + HEADER
      requires ptr.Some? && !Inside(ptr) ==> bytes > 0
      modifies this, mem
      ensures Valid()
      ensures r.None? && bytes > 0 ==> mem[..] == old(mem[..]) && bs == old(bs)
      ensures bytes == 0 ==> Live(bs) == old(Live(bs)) - (if ptr.Some? then {b} else {})
      ensures r.None? <==> bytes == 0 || AlignUp(bytes) > size ||
                           (NeedsNewBlock(ptr, b, bytes) && OnlyExactFit(old(bs), old(lfree), size, Need(AlignUp(bytes))))
      ensures r.Some? && !NeedsNewBlock(ptr, b, bytes) ==> r == ptr
      ensures ptr.None? && r.Some? ==> r.value >= 0 && NewBlock(old(bs), bs, nb, r.value, Need(bytes))
      ensures ptr.Some? && !Inside(ptr) && r.Some? ==> r == ptr && bs == old(bs) && mem[..] == old(mem[..])
      ensures Inside(ptr) && r.Some? ==> r.value >= 0 && Moved(old(mem[..]), old(bs), mem[..], bs, b, nb, r.value, AlignUp(bytes))
      ensures Kept(old(mem[..]), mem[..], old(Live(bs)) - (if Inside(ptr) then {b} else {}))
      ensures old(Lowest(bs, lfree)) ==> (Lowest(bs, lfree) <==> !(Inside(ptr) && Shrinks(b, bytes)) || TailReached(old(lfree), b, Top()))
    {
      hide Tiles, Laid, SameOutside, UsedBytes, FreeOrTop, NoAdjacentFree, Lowest, Tag, W, Live, Kept, SamePayload, SamePrefix, FirstFit, OnlyExactFit, Replace, Taken, NewBlock;
      ghost var m, was := mem[..], bs;
      KeptSame(m, bs, Top());
      KeptLess(m, m, Live(bs), b);
      assert Live(bs) - {} == Live(bs);
      nb := b;
      var newsize := AlignUp(bytes);
      if newsize > size {
        r := None;
      } else if newsize == 0 {
        Free(if ptr.None? then None else Some(ptr.value), b);
        r := None;
      } else if ptr == None {
        ghost var k;
        var got;
        AlignTwice(bytes);
        got, k := Malloc(newsize);
        r := if got.None? then None else Some(got.value);
        nb := if got.Some? then Taken(was[k], Need(newsize))[0] else b;
      } else if ptr.value < 0 || ptr.value >= Top() {
        r := ptr;
      } else {
        ghost var k := IndexOf(bs, b);
        ReadHeader(k);
        var p := ptr.value - HEADER;
        AlignedBlock(bs, Top(), k);
        SentinelAbove(m, bs, Top());
        var have := Next(p) - p - HEADER;
        if have == newsize {
          r := ptr;
          StaysPut(m, bs, Top(), b, newsize);
        } else if newsize + HEADER + 12 < have {
          nb := Block(p, p + HEADER + newsize, true);
          Shrink(Block(p, Next(p), true), newsize);
          r := ptr;
          ShrunkInPlace(m, was, mem[..], bs, b, newsize);
        } else {
          var moved;
          moved, nb := Move(Block(p, Next(p), true), newsize);
          r := if moved.None? then None else Some(moved.value);
        }
      }
    }

    /** realloc asks malloc for a block: for NULL, and for any other size that it does not cut off in place. */
    predicate NeedsNewBlock(ptr: Option<int>, b: Block, bytes: nat) {
      ptr.None? || (Inside(ptr) && AlignUp(bytes) != b.Payload() && !Shrinks(b, bytes))
    }

    /** realloc takes the branch of lines 447-474. */
    predicate Shrinks(b: Block, bytes: nat) {
      0 < AlignUp(bytes) <= size && AlignUp(bytes) + HEADER + 12 < b.Payload()
    }

    /** The pointer lies between heap_ptr and heap_end (lines 423-424). */
    predicate Inside(ptr: Option<int>) {
      ptr.Some? && 0 <= ptr.value < Top()
    }
  }

  /** b's contents are now in nb at ptr, large enough, and nothing else changed hands or contents. */
  ghost predicate Moved(m: seq<nat>, bs: seq<Block>, m': seq<nat>, bs': seq<Block>, b: Block, nb: Block, ptr: nat, bytes: nat) {
    && b.Payload() >= 0 && ptr == nb.start + HEADER && ptr % ALIGN == 0 && nb !in Live(bs) - {b} && Live(bs') == Live(bs) - {b} + {nb} && bytes <= nb.Payload()
    && SamePrefix(m, b, m', nb, Min(b.Payload(), bytes) / 4) && Kept(m, m', Live(bs) - {b})
  }

  lemma SplitAligned(bs: seq<Block>, top: nat, k: nat, need: nat)
    requires Tiles(bs, top) && k < |bs| && need % ALIGN == 0
    ensures (bs[k].start + HEADER + need) % ALIGN == 0 && (bs[k].end - bs[k].start - HEADER) % ALIGN == 0
    ensures bs[k].start + HEADER + ALIGN <= bs[k].end && bs[k].end - bs[k].start - HEADER - need > HEADER + 12 ==>
              bs[k].start + HEADER + need + HEADER + ALIGN <= bs[k].end
  {
    AlignedBlock(bs, top, k);
    Multiples(bs[k].start, bs[k].end, need);
  }

  lemma Multiples(a: nat, b: nat, n: nat)
    requires a % ALIGN == 0 && b % ALIGN == 0 && n % ALIGN == 0
    ensures (a + HEADER + n) % ALIGN == 0 && (b - a - HEADER) % ALIGN == 0
    ensures b - a - HEADER - n > HEADER + 12 ==> a + HEADER + n + HEADER + ALIGN <= b
  {
  }

  lemma MinAligned(a: nat, b: nat)
    requires a % 4 == 0 && b % ALIGN == 0
    ensures Min(a, b) % 4 == 0 && 0 <= Min(a, b) <= a && Min(a, b) <= b
  {
  }

  lemma AlignTwice(n: nat)
    ensures AlignUp(AlignUp(n)) == AlignUp(n) && Need(AlignUp(n)) == Need(n)
  {
  }

  lemma StaysPut(m: seq<nat>, bs: seq<Block>, top: nat, b: Block, bytes: nat)
    requires Tiles(bs, top) && Laid(m, bs, top) && b in Live(bs) && b.Payload() == bytes
    ensures Moved(m, bs, m, bs, b, b, b.start + HEADER, bytes)
  {
    hide W, Tag, Kept, Live, Tiles, Laid, Shaped, PayloadWords;
    KeptSame(m, bs, top);
    KeptLess(m, m, Live(bs), b);
    var k := IndexOf(bs, b);
    AlignedBlock(bs, top, k);
    BelowTop(bs, top, k);
    SentinelAbove(m, bs, top);
    PayloadLength(m, b);
    assert Live(bs) - {b} + {b} == Live(bs);
  }

  lemma ShrunkInPlace(m: seq<nat>, bs: seq<Block>, m': seq<nat>, bs': seq<Block>, b: Block, bytes: nat)
    requires b.start % ALIGN == 0 && bytes % ALIGN == 0 && bytes <= b.Payload() && b.end <= 4 * |m| && b.end % ALIGN == 0
    requires Live(bs') == Live(bs) - {b} + {Block(b.start, b.start + HEADER + bytes, true)} && Kept(m, m', Live(bs) - {b})
    requires SamePayload(m, m', Block(b.start, b.start + HEADER + bytes, true))
    requires Block(b.start, b.start + HEADER + bytes, true) !in Live(bs) - {b}
    ensures Moved(m, bs, m', bs', b, Block(b.start, b.start + HEADER + bytes, true), b.start + HEADER, bytes)
  {
    hide W, Kept, Live;
    var e := b.start + HEADER + bytes;
    WordIndex(b.start + HEADER);
    WordIndex(e);
    WordIndex(b.end);
    var x, n := W(b.start + HEADER), bytes / 4;
    assert m[x..W(b.end)][..n] == m[x..x + n] == m[x..W(e)];
    assert m'[x..W(e)][..n] == m'[x..W(e)];
  }

  // ---------------------------------------------------------------------------
  // Whole runs of a program that keeps the pointers it was given.

  datatype Op = Alloc(bytes: nat) | Release(i: nat) | Resize(i: nat, bytes: nat)

  /** Handle i, when not NULL, points to the payload of blocks[i], which is live. */
  ghost predicate Holds(live: set<Block>, ptrs: seq<Option<int>>, blocks: seq<Block>, i: nat)
    requires |ptrs| == |blocks|
  {
    i < |ptrs| && ptrs[i].Some? ==> blocks[i] in live && ptrs[i].value == blocks[i].start + HEADER
  }

  /** The handles point to live blocks, no two to the same, and every live block has a handle. */
  ghost predicate Owned(live: set<Block>, ptrs: seq<Option<int>>, blocks: seq<Block>) {
    && |ptrs| == |blocks|
    && (forall i: nat :: Holds(live, ptrs, blocks, i))
    && (forall i, j | 0 <= i < j < |ptrs| && ptrs[i].Some? && ptrs[j].Some? :: blocks[i] != blocks[j])
    && (forall b | b in live :: exists i :: 0 <= i < |ptrs| && ptrs[i].Some? && blocks[i] == b)
  }

  lemma OwnedNew(live: set<Block>, ptrs: seq<Option<int>>, blocks: seq<Block>, b: Block)
    requires Owned(live, ptrs, blocks) && b !in live
    ensures Owned(live + {b}, ptrs + [Some(b.start + HEADER)], blocks + [b])
  {
    var p', b', l' := ptrs + [Some(b.start + HEADER)], blocks + [b], live + {b};
    forall i: nat
      ensures Holds(l', p', b', i)
    {
      assert Holds(live, ptrs, blocks, i);
    }
    forall i, j | 0 <= i < j < |p'| && p'[i].Some? && p'[j].Some?
      ensures b'[i] != b'[j]
    {
      assert Holds(live, ptrs, blocks, i);
    }
    forall x | x in l'
      ensures exists i :: 0 <= i < |p'| && p'[i].Some? && b'[i] == x
    {
      if x == b {
        assert b'[|ptrs|] == b && p'[|ptrs|].Some?;
      } else {
        var i :| 0 <= i < |ptrs| && ptrs[i].Some? && blocks[i] == x;
        assert b'[i] == x && p'[i].Some?;
      }
    }
  }

  lemma OwnedNone(live: set<Block>, ptrs: seq<Option<int>>, blocks: seq<Block>, b: Block)
    requires Owned(live, ptrs, blocks)
    ensures Owned(live, ptrs + [None], blocks + [b])
  {
    var p', b' := ptrs + [None], blocks + [b];
    forall i: nat
      ensures Holds(live, p', b', i)
    {
      assert Holds(live, ptrs, blocks, i);
    }
    forall x | x in live
      ensures exists i :: 0 <= i < |p'| && p'[i].Some? && b'[i] == x
    {
      var i :| 0 <= i < |ptrs| && ptrs[i].Some? && blocks[i] == x;
      assert b'[i] == x && p'[i].Some?;
    }
  }

  lemma OwnedGone(live: set<Block>, ptrs: seq<Option<int>>, blocks: seq<Block>, k: nat)
    requires Owned(live, ptrs, blocks) && k < |ptrs| && ptrs[k].Some?
    ensures Owned(live - {blocks[k]}, ptrs[k := None], blocks)
  {
    var l' := live - {blocks[k]};
    var p' := ptrs[k := None];
    forall i: nat
      ensures Holds(l', p', blocks, i)
    {
      assert Holds(live, ptrs, blocks, i);
    }
    forall x | x in l'
      ensures exists i :: 0 <= i < |ptrs| && ptrs[k := None][i].Some? && blocks[i] == x
    {
      var i :| 0 <= i < |ptrs| && ptrs[i].Some? && blocks[i] == x;
      assert ptrs[k := None][i].Some?;
    }
  }

  lemma OwnedMoved(live: set<Block>, ptrs: seq<Option<int>>, blocks: seq<Block>, k: nat, nb: Block)
    requires Owned(live, ptrs, blocks) && k < |ptrs| && ptrs[k].Some? && nb !in live - {blocks[k]}
    ensures Owned(live - {blocks[k]} + {nb}, ptrs[k := Some(nb.start + HEADER)], blocks[k := nb])
  {
    var l', p', b' := live - {blocks[k]} + {nb}, ptrs[k := Some(nb.start + HEADER)], blocks[k := nb];
    forall i: nat
      ensures Holds(l', p', b', i)
    {
      assert Holds(live, ptrs, blocks, i);
    }
    forall i, j | 0 <= i < j < |p'| && p'[i].Some? && p'[j].Some?
      ensures b'[i] != b'[j]
    {
      assert Holds(live, ptrs, blocks, i) && Holds(live, ptrs, blocks, j);
    }
    forall x | x in l'
      ensures exists i :: 0 <= i < |p'| && p'[i].Some? && b'[i] == x
    {
      if x == nb {
        assert b'[k] == nb && p'[k].Some?;
      } else {
        var i :| 0 <= i < |ptrs| && ptrs[i].Some? && blocks[i] == x;
        assert b'[i] == x && p'[i].Some?;
      }
    }
  }

  /** One request of the program; it goes through for every state the program can be in. */
  method Perform(heap: Allocator, op: Op, ptrs: seq<Option<int>>, ghost blocks: seq<Block>)
    returns (ptrs': seq<Option<int>>, ghost blocks': seq<Block>)
    requires heap.Valid() && Owned(Live(heap.bs), ptrs, blocks)
    requires !op.Release? ==> op.bytes + ALIGN <= TWO32
    modifies heap, heap.mem
    ensures heap.Valid() && Owned(Live(heap.bs), ptrs', blocks')
  {
    hide Tiles, Laid, UsedBytes, FreeOrTop, NoAdjacentFree, Lowest, Tag, W, Live, Kept, SamePayload, SamePrefix, FirstFit, OnlyExactFit, Replace, Taken, AlignUp, Shaped, Owned;
    ptrs', blocks' := ptrs, blocks;
    if op.Alloc? {
      ghost var was := heap.bs;
      var r, k := heap.Malloc(op.bytes);
      if r.None? {
        ptrs', blocks' := ptrs + [None], blocks + [Block(0, 0, false)];
        OwnedNone(Live(heap.bs), ptrs, blocks, Block(0, 0, false));
      } else {
        ghost var b := Taken(was[k], Need(op.bytes))[0];
        ptrs', blocks' := ptrs + [Some(r.value)], blocks + [b];
        OwnedNew(Live(was), ptrs, blocks, b);
      }
    } else if op.i < |ptrs| && ptrs[op.i].Some? {
      OwnedAt(Live(heap.bs), heap.bs, heap.Top(), ptrs, blocks, op.i);
      ghost var was, b := Live(heap.bs), blocks[op.i];
      if op.Release? {
        heap.Free(Some(ptrs[op.i].value), b);
        ptrs' := ptrs[op.i := None];
        OwnedGone(was, ptrs, blocks, op.i);
      } else {
        var r, nb := heap.Realloc(ptrs[op.i], op.bytes, b);
        if op.bytes == 0 {
          ptrs' := ptrs[op.i := None];
          OwnedGone(was, ptrs, blocks, op.i);
        } else if r.Some? {
          ptrs', blocks' := ptrs[op.i := r], blocks[op.i := nb];
          OwnedMoved(was, ptrs, blocks, op.i, nb);
        }
      }
    }
  }

  lemma OwnedAt(live: set<Block>, bs: seq<Block>, top: nat, ptrs: seq<Option<int>>, blocks: seq<Block>, k: nat)
    requires Owned(live, ptrs, blocks) && k < |ptrs| && ptrs[k].Some? && live == Live(bs) && Tiles(bs, top)
    ensures k < |blocks| && blocks[k] in live && ptrs[k].value == blocks[k].start + HEADER && 0 <= ptrs[k].value < top
  {
    hide Live, Tiles;
    assert Holds(live, ptrs, blocks, k);
    var j := IndexOf(bs, blocks[k]);
    BelowTop(bs, top, j);
    AlignedBlock(bs, top, j);
  }

  /**
   Every run: any requests, in any order, then every pointer still held is freed. What is left is
   the heap as it was set up: one free block, nothing used.
   */
  method Session(beginAddr: nat, endAddr: nat, script: seq<Op>) returns (firstNext: nat, firstUsed: bool, used: int, lowest: nat)
    requires endAddr < TWO32 - ALIGN && AlignUp(beginAddr) + 2 * HEADER + MIN_PAYLOAD <= AlignDown(endAddr)
    requires forall i | 0 <= i < |script| && !script[i].Release? :: script[i].bytes + ALIGN <= TWO32
    ensures firstNext == AlignDown(endAddr) - AlignUp(beginAddr) - HEADER && !firstUsed && used == 0
    ensures lowest == 0
  {
    hide Tiles, Laid, UsedBytes, NoAdjacentFree, Lowest, Tag, W, Live, Shaped, Owned;
    var heap := new Allocator(beginAddr, endAddr);
    var ptrs: seq<Option<int>> := [];
    ghost var blocks: seq<Block> := [];
    LiveOne(heap.bs[0]);
    OwnedEmpty();
    for n := 0 to |script|
      invariant heap.Valid() && Owned(Live(heap.bs), ptrs, blocks) && fresh(heap) && fresh(heap.mem)
    {
      ptrs, blocks := Perform(heap, script[n], ptrs, blocks);
    }
    var n := 0;
    while n < |ptrs|
      invariant n <= |ptrs|
      invariant heap.Valid() && Owned(Live(heap.bs), ptrs, blocks) && fresh(heap) && fresh(heap.mem)
      invariant forall i | 0 <= i < n :: ptrs[i].None?
    {
      if ptrs[n].Some? {
        OwnedAt(Live(heap.bs), heap.bs, heap.Top(), ptrs, blocks, n);
        ghost var was := Live(heap.bs);
        heap.Free(Some(ptrs[n].value), blocks[n]);
        OwnedGone(was, ptrs, blocks, n);
        ptrs := ptrs[n := None];
      }
      n := n + 1;
    }
    NoneOwned(Live(heap.bs), ptrs, blocks);
    NothingLive(heap.bs, heap.Top());
    heap.ReadHeader(0);
    firstNext, firstUsed, used, lowest := heap.Next(0), heap.Used(0), heap.usedMem, heap.lfree;
  }

  /**
   A block of 40 bytes is handed out with the 24 behind it, too few for a block of their own. Asking for
   the same 40 bytes again is then neither the block's size nor small enough to cut it, and fails when
   nothing else is free.
   */
  method SameSizeFails() returns (first: Option<nat>, again: Option<int>)
    ensures first == Some(HEADER) && again == None
  {
    hide Tiles, Laid, UsedBytes, NoAdjacentFree, Lowest, Tag, W, Owned, Shaped;
    var heap := new Allocator(0, 96);
    ghost var k;
    ghost var was := heap.bs;
    assert FitsIn(was[0], 40);
    first, k := heap.Malloc(40);
    ghost var b := Block(0, 80, true);
    assert heap.bs == [b];
    ghost var nb;
    again, nb := heap.Realloc(Some(first.value), 40, b);
  }

  lemma OwnedEmpty()
    ensures Owned({}, [], [])
  {
  }

  lemma NoneOwned(live: set<Block>, ptrs: seq<Option<int>>, blocks: seq<Block>)
    requires Owned(live, ptrs, blocks) && forall i | 0 <= i < |ptrs| :: ptrs[i].None?
    ensures live == {}
  {
  }
}
