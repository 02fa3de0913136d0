/** How the blocks' headers lie in the heap's 32-bit words, and what writing a header changes. */
module HeapWords {
  import opened HeapBlocks

  /** The index of the word at byte offset p. */
  function W(p: nat): nat {
    p / 4
  }

  lemma WordIndex(p: nat)
    requires p % ALIGN == 0
    ensures 4 * W(p) == p
  {
  }

  function Tag(used: bool): nat {
    MAGIC + if used then 0x1_0000 else 0
  }

  /** The header of b lies in memory, with this prev field. */
  ghost predicate Header(m: seq<nat>, b: Block, prev: nat) {
    && W(b.start) + 4 <= |m|
    && m[W(b.start)] == Tag(b.used) && m[W(b.start) + 1] == b.end && m[W(b.start) + 2] == prev
  }

  ghost function PrevOf(bs: seq<Block>, i: nat): nat
    requires i <= |bs|
  {
    if i == 0 then 0 else bs[i - 1].start
  }

  /** Memory holds the headers of all blocks and the sentinel, whose prev field is not used. */
  ghost predicate Laid(m: seq<nat>, bs: seq<Block>, top: nat) {
    && 4 * |m| == top + HEADER && top % ALIGN == 0
    && (forall i | 0 <= i < |bs| :: Header(m, bs[i], PrevOf(bs, i)))
    && m[W(top)] == Tag(true) && m[W(top) + 1] == top
  }

  /** Only words from byte `from` up to the three header words at byte `to` may differ. */
  ghost predicate SameOutside(m: seq<nat>, m': seq<nat>, from: nat, to: nat) {
    |m'| == |m| && forall w | 0 <= w < |m| && (4 * w < from || 4 * w >= to + 12) :: m'[w] == m[w]
  }

  /** The words of a block behind its header. */
  function PayloadWords(m: seq<nat>, b: Block): seq<nat>
    requires b.start + HEADER <= b.end <= 4 * |m|
  {
    m[W(b.start + HEADER)..W(b.end)]
  }

  /** The payload of b is the same in both memories. */
  ghost predicate SamePayload(m: seq<nat>, m': seq<nat>, b: Block) {
    b.start + HEADER <= b.end <= 4 * |m| && |m'| == |m| && PayloadWords(m', b) == PayloadWords(m, b)
  }

  /** A block outside the replaced stretch keeps its header. */
  lemma HeaderKept(m: seq<nat>, m': seq<nat>, b: Block, prev: nat, from: nat, to: nat)
    requires Header(m, b, prev) && SameOutside(m, m', from, to)
    requires b.start % ALIGN == 0 && from % ALIGN == 0 && to % ALIGN == 0
    requires b.start + HEADER <= from || to + HEADER <= b.start
    ensures Header(m', b, prev)
  {
    WordIndex(b.start);
    hide W, Tag;
  }

  ghost function NewPrev(bs: seq<Block>, k: nat, mid: seq<Block>, i: nat): nat
    requires k <= |bs| && i <= |mid|
  {
    if i == 0 then PrevOf(bs, k) else mid[i - 1].start
  }

  /** What the memory must hold for the new blocks. */
  ghost predicate NewHeaders(m': seq<nat>, bs: seq<Block>, k: nat, n: nat, mid: seq<Block>)
    requires Covers(bs, k, n, mid)
  {
    && (forall i | 0 <= i < |mid| :: Header(m', mid[i], NewPrev(bs, k, mid, i)))
    && (k + n < |bs| ==> Header(m', bs[k + n], mid[|mid| - 1].start))
  }

  /** Replacing blocks in memory: new headers for the stretch, everything outside untouched. */
  lemma ReplaceLaid(m: seq<nat>, m': seq<nat>, bs: seq<Block>, top: nat, k: nat, n: nat, mid: seq<Block>)
    requires Tiles(bs, top) && Laid(m, bs, top) && Covers(bs, k, n, mid) && NewHeaders(m', bs, k, n, mid)
    requires SameOutside(m, m', bs[k].start, bs[k + n - 1].end)
    requires m'[W(top)] == m[W(top)] && m'[W(top) + 1] == m[W(top) + 1]
    ensures Laid(m', Replace(bs, k, n, mid), top)
  {
    hide Header, Tiles, NewHeaders, SameOutside, Shaped;
    var r := Replace(bs, k, n, mid);
    forall i | 0 <= i < |r|
      ensures Header(m', r[i], PrevOf(r, i))
    {
      ReplacedHeader(m, m', bs, top, k, n, mid, i);
    }
    SameLength(m, m', bs[k].start, bs[k + n - 1].end);
  }

  lemma SameLength(m: seq<nat>, m': seq<nat>, from: nat, to: nat)
    requires SameOutside(m, m', from, to)
    ensures |m'| == |m|
  {
  }

  lemma ReplacedHeader(m: seq<nat>, m': seq<nat>, bs: seq<Block>, top: nat, k: nat, n: nat, mid: seq<Block>, i: nat)
    requires Tiles(bs, top) && Laid(m, bs, top) && Covers(bs, k, n, mid) && NewHeaders(m', bs, k, n, mid)
    requires SameOutside(m, m', bs[k].start, bs[k + n - 1].end) && i < |Replace(bs, k, n, mid)|
    ensures Header(m', Replace(bs, k, n, mid)[i], PrevOf(Replace(bs, k, n, mid), i))
  {
    hide Header, SameOutside, Tiles, Shaped;
    ReplacedAt(bs, k, n, mid, i);
    if i < k {
      KeptHeader(m, m', bs, top, k, n, i);
    } else if i > k + |mid| {
      KeptHeader(m, m', bs, top, k, n, i - |mid| + n);
    } else if i < k + |mid| {
      assert Header(m', mid[i - k], NewPrev(bs, k, mid, i - k));
    } else {
      assert Header(m', bs[k + n], mid[|mid| - 1].start);
    }
  }

  lemma KeptHeader(m: seq<nat>, m': seq<nat>, bs: seq<Block>, top: nat, k: nat, n: nat, j: nat)
    requires Tiles(bs, top) && Laid(m, bs, top) && 0 < n && k + n <= |bs| && j < |bs| && (j < k || k + n < j)
    requires SameOutside(m, m', bs[k].start, bs[k + n - 1].end)
    ensures Header(m', bs[j], PrevOf(bs, j))
  {
    hide Header, SameOutside;
    if j < k {
      Ordered(bs, top, j, k);
    } else {
      Ordered(bs, top, k + n, j);
    }
    HeaderKept(m, m', bs[j], PrevOf(bs, j), bs[k].start, bs[k + n - 1].end);
  }

  lemma ReplacedAt(bs: seq<Block>, k: nat, n: nat, mid: seq<Block>, i: nat)
    requires Covers(bs, k, n, mid) && i < |Replace(bs, k, n, mid)|
    ensures
      var r, c := Replace(bs, k, n, mid), |mid|;
      if i < k then r[i] == bs[i] && PrevOf(r, i) == PrevOf(bs, i)
      else if i < k + c then r[i] == mid[i - k] && PrevOf(r, i) == NewPrev(bs, k, mid, i - k)
      else r[i] == bs[i - c + n] && PrevOf(r, i) == if i == k + c then mid[c - 1].start else PrevOf(bs, i - c + n)
  {
  }

  /** Payloads outside the replaced stretch keep every word. */
  lemma PayloadKept(m: seq<nat>, m': seq<nat>, from: nat, to: nat, b: Block)
    requires SameOutside(m, m', from, to) && b.start % ALIGN == 0 && b.end % ALIGN == 0
    requires b.start + HEADER <= b.end <= 4 * |m| && from % ALIGN == 0 && to % ALIGN == 0
    requires b.end <= from || to <= b.start
    ensures SamePayload(m, m', b)
  {
    WordIndex(b.start + HEADER);
    WordIndex(b.end);
    hide W;
  }

  // ---------------------------------------------------------------------------
  // One word written: what it does to headers and to the words outside a stretch.

  lemma OtherHeader(m: seq<nat>, b: Block, prev: nat, i: nat, v: nat)
    requires Header(m, b, prev) && i < |m| && (i < W(b.start) || W(b.start) + 2 < i)
    ensures Header(m[i := v], b, prev)
  {
    hide W, Tag;
  }

  lemma NewTag(m: seq<nat>, b: Block, prev: nat, used: bool)
    requires Header(m, b, prev)
    ensures Header(m[W(b.start) := Tag(used)], b.(used := used), prev)
  {
    hide W, Tag;
  }

  lemma NewNext(m: seq<nat>, b: Block, prev: nat, next: nat)
    requires Header(m, b, prev)
    ensures Header(m[W(b.start) + 1 := next], b.(end := next), prev)
  {
    hide W, Tag;
  }

  lemma NewPrevField(m: seq<nat>, b: Block, prev: nat, v: nat)
    requires Header(m, b, prev)
    ensures Header(m[W(b.start) + 2 := v], b, v)
  {
    hide W, Tag;
  }

  lemma WrittenInside(m: seq<nat>, m1: seq<nat>, i: nat, v: nat, from: nat, to: nat)
    requires SameOutside(m, m1, from, to) && i < |m1| && from <= 4 * i < to + 12
    ensures SameOutside(m, m1[i := v], from, to)
  {
  }

  lemma NothingWritten(m: seq<nat>, from: nat, to: nat)
    ensures SameOutside(m, m, from, to)
  {
  }

  /** The three words of a new header. */
  function PutHeader(m: seq<nat>, b: Block, prev: nat): (m': seq<nat>)
    requires W(b.start) + 3 < |m|
    ensures |m'| == |m|
  {
    m[W(b.start) := Tag(b.used)][W(b.start) + 1 := b.end][W(b.start) + 2 := prev]
  }

  lemma PutHeaderWords(m: seq<nat>, b: Block, prev: nat, from: nat, to: nat)
    requires W(b.start) + 3 < |m| && from <= 4 * W(b.start) && 4 * W(b.start) + 8 < to + 12
    ensures Header(PutHeader(m, b, prev), b, prev)
    ensures SameOutside(m, PutHeader(m, b, prev), from, to)
    ensures forall w | 0 <= w < |m| && (w < W(b.start) || W(b.start) + 2 < w) :: PutHeader(m, b, prev)[w] == m[w]
  {
    hide W, Tag;
  }

  lemma PutHeaderOther(m: seq<nat>, b: Block, prev: nat, c: Block, cprev: nat)
    requires W(b.start) + 3 < |m| && Header(m, c, cprev)
    requires W(c.start) + 2 < W(b.start) || W(b.start) + 2 < W(c.start)
    ensures Header(PutHeader(m, b, prev), c, cprev)
  {
    hide W, Tag;
  }

  /** Where block k lies. */
  lemma BlockWords(bs: seq<Block>, top: nat, k: nat)
    requires Tiles(bs, top) && k < |bs|
    ensures bs[k].start + HEADER + ALIGN <= bs[k].end <= top
    ensures 4 * W(bs[k].start) == bs[k].start && 4 * W(bs[k].end) == bs[k].end
    ensures k + 1 < |bs| ==> bs[k + 1].start == bs[k].end && bs[k].end + HEADER + ALIGN <= top
    ensures k + 1 == |bs| ==> bs[k].end == top
  {
    hide W;
    BelowTop(bs, top, k);
    WordIndex(bs[k].start);
    WordIndex(bs[k].end);
  }

  /** What memory holds for block k and its successor. */
  lemma HeaderAt(m: seq<nat>, bs: seq<Block>, top: nat, k: nat)
    requires Laid(m, bs, top) && k < |bs|
    ensures 4 * |m| == top + HEADER && 4 * W(top) == top
    ensures Header(m, bs[k], PrevOf(bs, k)) && m[W(bs[k].start) + 1] == bs[k].end
    ensures k + 1 < |bs| ==> Header(m, bs[k + 1], bs[k].start)
  {
    hide W, Tag;
    WordIndex(top);
    if k + 1 < |bs| {
      assert Header(m, bs[k + 1], PrevOf(bs, k + 1));
    }
  }

  lemma HeaderWords(m: seq<nat>, bs: seq<Block>, top: nat, k: nat)
    requires Tiles(bs, top) && Laid(m, bs, top) && k < |bs|
    ensures 4 * |m| == top + HEADER && 4 * W(top) == top
    ensures bs[k].start + HEADER + ALIGN <= bs[k].end <= top
    ensures 4 * W(bs[k].start) == bs[k].start && 4 * W(bs[k].end) == bs[k].end
    ensures Header(m, bs[k], PrevOf(bs, k)) && m[W(bs[k].start) + 1] == bs[k].end
    ensures k + 1 < |bs| ==> Header(m, bs[k + 1], bs[k].start) && bs[k + 1].start == bs[k].end && bs[k].end + HEADER + ALIGN <= top
    ensures k + 1 == |bs| ==> bs[k].end == top
  {
    hide W, Tag, Tiles, Laid, Header;
    HeaderAt(m, bs, top, k);
    BlockWords(bs, top, k);
  }

  /** Memory after a split. */
  function SplitMem(m: seq<nat>, b: Block, cut: nat, used: bool, last: bool): seq<nat>
    requires W(b.start) + 2 < W(cut) && W(cut) + 2 < W(b.end) && W(b.end) + 2 < |m|
  {
    var m1 := PutHeader(m, Block(cut, b.end, false), b.start)[W(b.start) + 1 := cut][W(b.start) := Tag(used)];
    if last then m1 else m1[W(b.end) + 2 := cut]
  }

  lemma SplitFrame(m: seq<nat>, b: Block, cut: nat, used: bool, last: bool)
    requires W(b.start) + 2 < W(cut) && W(cut) + 2 < W(b.end) && W(b.end) + 2 < |m|
    requires 4 * W(b.start) == b.start && 4 * W(b.end) == b.end
    ensures SameOutside(m, SplitMem(m, b, cut, used, last), b.start, b.end)
    ensures SplitMem(m, b, cut, used, last)[W(b.end)] == m[W(b.end)]
    ensures SplitMem(m, b, cut, used, last)[W(b.end) + 1] == m[W(b.end) + 1]
  {
    hide W, Tag, Header, PutHeader, SameOutside;
    var h := Block(cut, b.end, false);
    var m1 := PutHeader(m, h, b.start);
    PutHeaderWords(m, h, b.start, b.start, b.end);
    WrittenInside(m, m1, W(b.start) + 1, cut, b.start, b.end);
    var m2 := m1[W(b.start) + 1 := cut];
    WrittenInside(m, m2, W(b.start), Tag(used), b.start, b.end);
    WrittenInside(m, m2[W(b.start) := Tag(used)], W(b.end) + 2, cut, b.start, b.end);
  }

  /** The payload of the first part keeps every word. */
  lemma SplitPayload(m: seq<nat>, b: Block, cut: nat, used: bool, last: bool)
    requires W(b.start) + 2 < W(cut) && W(cut) + 2 < W(b.end) && W(b.end) + 2 < |m|
    requires 4 * W(b.start) == b.start && 4 * W(cut) == cut && b.start + HEADER <= cut
    ensures SamePayload(m, SplitMem(m, b, cut, used, last), Block(b.start, cut, true))
  {
    WordIndex'(b.start);
    hide W, Tag;
  }

  lemma WordIndex'(p: nat)
    requires 4 * W(p) == p
    ensures W(p + HEADER) == W(p) + 4
  {
  }

  lemma SplitHeaders(m: seq<nat>, b: Block, prev: nat, cut: nat, used: bool, last: bool)
    requires W(b.start) + 2 < W(cut) && W(cut) + 2 < W(b.end) && W(b.end) + 2 < |m| && Header(m, b, prev)
    ensures Header(SplitMem(m, b, cut, used, last), Block(b.start, cut, used), prev)
    ensures Header(SplitMem(m, b, cut, used, last), Block(cut, b.end, false), b.start)
  {
    hide W, Tag, Header, PutHeader, SameOutside;
    var h := Block(cut, b.end, false);
    var m1 := PutHeader(m, h, b.start);
    PutHeaderOther(m, h, b.start, b, prev);
    PutHeaderWords(m, h, b.start, 0, 4 * |m|);
    NewNext(m1, b, prev, cut);
    OtherHeader(m1, h, b.start, W(b.start) + 1, cut);
    var m2 := m1[W(b.start) + 1 := cut];
    NewTag(m2, b.(end := cut), prev, used);
    OtherHeader(m2, h, b.start, W(b.start), Tag(used));
    var m3 := m2[W(b.start) := Tag(used)];
    OtherHeader(m3, h, b.start, W(b.end) + 2, cut);
    OtherHeader(m3, Block(b.start, cut, used), prev, W(b.end) + 2, cut);
  }

  lemma SplitSuccessor(m: seq<nat>, b: Block, cut: nat, used: bool, nb: Block)
    requires W(b.start) + 2 < W(cut) && W(cut) + 2 < W(b.end) && W(b.end) + 2 < |m|
    requires Header(m, nb, b.start) && nb.start == b.end
    ensures Header(SplitMem(m, b, cut, used, false), nb, cut)
  {
    hide W, Tag, Header, PutHeader, SameOutside;
    var h := Block(cut, b.end, false);
    var m1 := PutHeader(m, h, b.start);
    PutHeaderOther(m, h, b.start, nb, b.start);
    OtherHeader(m1, nb, b.start, W(b.start) + 1, cut);
    var m2 := m1[W(b.start) + 1 := cut];
    OtherHeader(m2, nb, b.start, W(b.start), Tag(used));
    NewPrevField(m2[W(b.start) := Tag(used)], nb, b.start, cut);
  }

  lemma SplitLaid(m: seq<nat>, bs: seq<Block>, top: nat, k: nat, cut: nat, used: bool)
    requires Tiles(bs, top) && Laid(m, bs, top) && k < |bs| && Covers(bs, k, 1, Cut(bs[k], cut, used))
    requires W(bs[k].start) + 2 < W(cut) && W(cut) + 2 < W(bs[k].end) && W(bs[k].end) + 2 < |m|
    ensures
      var m' := SplitMem(m, bs[k], cut, used, bs[k].end == top);
      && Laid(m', Replace(bs, k, 1, Cut(bs[k], cut, used)), top)
      && SameOutside(m, m', bs[k].start, bs[k].end)
  {
    hide W, Tag, Tiles, Laid, Header, Shaped, Covers, SplitMem, Replace, SameOutside;
    var b, mid, last := bs[k], Cut(bs[k], cut, used), bs[k].end == top;
    var m' := SplitMem(m, b, cut, used, last);
    HeaderWords(m, bs, top, k);
    SplitFrame(m, b, cut, used, last);
    SplitHeaders(m, b, PrevOf(bs, k), cut, used, last);
    if !last {
      SplitSuccessor(m, b, cut, used, bs[k + 1]);
    }
    TopKept(m, m', b.start, b.end, top);
    assert NewPrev(bs, k, mid, 0) == PrevOf(bs, k) && NewPrev(bs, k, mid, 1) == b.start;
    ReplaceLaid(m, m', bs, top, k, 1, mid);
  }

  /** The sentinel's words lie outside, or are left alone. */
  lemma TopKept(m: seq<nat>, m': seq<nat>, from: nat, to: nat, top: nat)
    requires SameOutside(m, m', from, to) && 4 * |m| == top + HEADER && 4 * W(top) == top
    requires to + HEADER <= top || (to == top && m'[W(top)] == m[W(top)] && m'[W(top) + 1] == m[W(top) + 1])
    ensures m'[W(top)] == m[W(top)] && m'[W(top) + 1] == m[W(top) + 1]
  {
    hide W;
  }

  /** Memory after a merge. */
  function JoinMem(m: seq<nat>, b: Block, c: Block): seq<nat>
    requires W(b.start) + 2 < W(c.end) && W(c.end) + 2 < |m|
  {
    var m1: seq<nat> := m[W(b.start) + 1 := c.end];
    m1[W(c.end) + 2 := b.start]
  }

  lemma JoinLaid(m: seq<nat>, bs: seq<Block>, top: nat, k: nat)
    requires Tiles(bs, top) && Laid(m, bs, top) && k + 1 < |bs| && Covers(bs, k, 2, Joined(bs[k], bs[k + 1]))
    requires W(bs[k].start) + 2 < W(bs[k + 1].end) && W(bs[k + 1].end) + 2 < |m|
    ensures
      var m' := JoinMem(m, bs[k], bs[k + 1]);
      && Laid(m', Replace(bs, k, 2, Joined(bs[k], bs[k + 1])), top)
      && SameOutside(m, m', bs[k].start, bs[k + 1].end)
  {
    hide W, Tag, Tiles, Laid, Header, Shaped, Covers, Replace, SameOutside;
    var b, c, mid := bs[k], bs[k + 1], Joined(bs[k], bs[k + 1]);
    HeaderWords(m, bs, top, k);
    HeaderWords(m, bs, top, k + 1);
    var m1: seq<nat> := m[W(b.start) + 1 := c.end];
    var m' := JoinMem(m, b, c);
    NothingWritten(m, b.start, c.end);
    WrittenInside(m, m, W(b.start) + 1, c.end, b.start, c.end);
    WrittenInside(m, m1, W(c.end) + 2, b.start, b.start, c.end);
    NewNext(m, b, PrevOf(bs, k), c.end);
    OtherHeader(m1, mid[0], PrevOf(bs, k), W(c.end) + 2, b.start);
    if k + 2 < |bs| {
      OtherHeader(m, bs[k + 2], c.start, W(b.start) + 1, c.end);
      NewPrevField(m1, bs[k + 2], c.start, b.start);
    }
    TopKept(m, m', b.start, c.end, top);
    assert NewPrev(bs, k, mid, 0) == PrevOf(bs, k);
    ReplaceLaid(m, m', bs, top, k, 2, mid);
  }

  lemma RetagLaid(m: seq<nat>, bs: seq<Block>, top: nat, k: nat, used: bool)
    requires Tiles(bs, top) && Laid(m, bs, top) && k < |bs| && Covers(bs, k, 1, [bs[k].(used := used)])
    requires W(bs[k].start) < |m|
    ensures
      var m' := m[W(bs[k].start) := Tag(used)];
      && Laid(m', Replace(bs, k, 1, [bs[k].(used := used)]), top)
      && SameOutside(m, m', bs[k].start, bs[k].end)
  {
    hide W, Tag, Tiles, Laid, Header, Shaped, Covers, Replace, SameOutside;
    var b, mid := bs[k], [bs[k].(used := used)];
    HeaderWords(m, bs, top, k);
    var m' := m[W(b.start) := Tag(used)];
    NothingWritten(m, b.start, b.end);
    WrittenInside(m, m, W(b.start), Tag(used), b.start, b.end);
    NewTag(m, b, PrevOf(bs, k), used);
    if k + 1 < |bs| {
      OtherHeader(m, bs[k + 1], b.start, W(b.start), Tag(used));
    }
    TopKept(m, m', b.start, b.end, top);
    assert NewPrev(bs, k, mid, 0) == PrevOf(bs, k);
    ReplaceLaid(m, m', bs, top, k, 1, mid);
  }

  // ---------------------------------------------------------------------------
  // Payloads.

  /** The payloads of all these blocks are the same in both memories. */
  ghost predicate Kept(m: seq<nat>, m': seq<nat>, live: set<Block>) {
    forall b | b in live :: SamePayload(m, m', b)
  }

  /** Writing inside a stretch keeps the payloads of all other live blocks. */
  lemma OthersKept(m: seq<nat>, m': seq<nat>, bs: seq<Block>, top: nat, k: nat, n: nat)
    requires Tiles(bs, top) && 4 * |m| == top + HEADER && 0 < n && k + n <= |bs|
    requires SameOutside(m, m', bs[k].start, bs[k + n - 1].end)
    ensures Kept(m, m', Live(bs) - Live(bs[k..k + n]))
  {
    hide SameOutside, SamePayload;
    forall b | b in Live(bs) - Live(bs[k..k + n])
      ensures SamePayload(m, m', b)
    {
      var i :| 0 <= i < |bs| && bs[i] == b && bs[i].used;
      LiveInside(bs, k, n, i);
      BelowTop(bs, top, i);
      if i < k {
        Ordered(bs, top, i, k);
      } else {
        Ordered(bs, top, k + n - 1, i);
      }
      PayloadKept(m, m', bs[k].start, bs[k + n - 1].end, b);
    }
  }

  lemma KeptTransitive(m: seq<nat>, m': seq<nat>, m'': seq<nat>, a: set<Block>, b: set<Block>)
    requires Kept(m, m', a) && Kept(m', m'', b)
    ensures Kept(m, m'', a * b)
  {
  }

  lemma KeptWith(m: seq<nat>, m': seq<nat>, live: set<Block>, b: Block)
    requires Kept(m, m', live) && SamePayload(m, m', b)
    ensures Kept(m, m', live + {b})
  {
  }

  lemma KeptParts(m: seq<nat>, m': seq<nat>, live: set<Block>, b: Block)
    requires Kept(m, m', live + {b})
    ensures Kept(m, m', live) && SamePayload(m, m', b)
  {
  }

  /** The first n payload words of b in m are those of b' in m'. */
  ghost predicate SamePrefix(m: seq<nat>, b: Block, m': seq<nat>, b': Block, n: nat) {
    && b.start + HEADER <= b.end <= 4 * |m| && b'.start + HEADER <= b'.end <= 4 * |m'|
    && n <= |PayloadWords(m, b)| && n <= |PayloadWords(m', b')| && PayloadWords(m, b)[..n] == PayloadWords(m', b')[..n]
  }

  /** Only words from `from` up to `to` differ. */
  ghost predicate SameBut(m: seq<nat>, m': seq<nat>, from: nat, to: nat) {
    |m'| == |m| && forall w | 0 <= w < |m| && (w < from || to <= w) :: m'[w] == m[w]
  }

  lemma CopiedPrefix(m: seq<nat>, m': seq<nat>, b: Block, nb: Block, n: nat)
    requires b.start + HEADER <= b.end <= 4 * |m| && nb.start + HEADER <= nb.end <= 4 * |m'|
    requires W(b.start + HEADER) + n <= W(b.end) && W(nb.start + HEADER) + n <= W(nb.end)
    requires m'[W(nb.start + HEADER)..W(nb.start + HEADER) + n] == m[W(b.start + HEADER)..W(b.start + HEADER) + n]
    ensures SamePrefix(m, b, m', nb, n)
  {
    WithinWords(b.end, |m|);
    WithinWords(nb.end, |m'|);
    hide W;
    var x, y := W(b.start + HEADER), W(nb.start + HEADER);
    assert m[x..W(b.end)][..n] == m[x..x + n];
    assert m'[y..W(nb.end)][..n] == m'[y..y + n];
  }

  lemma WithinWords(p: nat, n: nat)
    requires p <= 4 * n
    ensures W(p) <= n
  {
  }

  /** Writing payload words of a live block keeps all headers and the other payloads. */
  lemma PayloadWritten(m: seq<nat>, m': seq<nat>, bs: seq<Block>, top: nat, b: Block, to: nat)
    requires Tiles(bs, top) && Laid(m, bs, top) && b in Live(bs)
    requires SameBut(m, m', W(b.start + HEADER), to) && to <= W(b.end)
    ensures Laid(m', bs, top) && Kept(m, m', Live(bs) - {b})
  {
    hide Header, SameBut, W, Tag, SamePayload, Live, Tiles;
    var k := IndexOf(bs, b);
    WordIndex(top);
    BlockWords(bs, top, k);
    forall i | 0 <= i < |bs|
      ensures Header(m', bs[i], PrevOf(bs, i))
    {
      HeaderOutsidePayload(bs, top, k, i);
      HeaderUntouched(m, m', bs[i], PrevOf(bs, i), W(b.start + HEADER), to);
    }
    SentinelUntouched(m, m', W(b.start + HEADER), to, top);
    forall x | x in Live(bs) - {b}
      ensures SamePayload(m, m', x)
    {
      PayloadOutsidePayload(bs, top, x, b);
      PayloadUntouched(m, m', x, W(b.start + HEADER), to);
    }
  }

  lemma HeaderOutsidePayload(bs: seq<Block>, top: nat, k: nat, i: nat)
    requires Tiles(bs, top) && k < |bs| && i < |bs|
    ensures W(bs[k].end) <= W(bs[i].start) || W(bs[i].start) + 4 <= W(bs[k].start + HEADER)
  {
    hide Tiles, W;
    BlockWords(bs, top, i);
    BlockWords(bs, top, k);
    WordIndex'(bs[k].start);
    if i < k {
      Ordered(bs, top, i, k);
    } else if k < i {
      Ordered(bs, top, k, i);
    }
  }

  lemma PayloadOutsidePayload(bs: seq<Block>, top: nat, x: Block, b: Block)
    requires Tiles(bs, top) && x in Live(bs) && b in Live(bs) && x != b
    ensures W(x.end) <= W(b.start + HEADER) || W(b.end) <= W(x.start + HEADER)
    ensures x.start + HEADER <= x.end <= top
  {
    hide Tiles, W, Live;
    LiveApart(bs, top, x, b);
    BlockWords(bs, top, IndexOf(bs, x));
    BlockWords(bs, top, IndexOf(bs, b));
    WordIndex'(x.start);
    WordIndex'(b.start);
  }

  lemma HeaderUntouched(m: seq<nat>, m': seq<nat>, b: Block, prev: nat, from: nat, to: nat)
    requires Header(m, b, prev) && SameBut(m, m', from, to) && (to <= W(b.start) || W(b.start) + 4 <= from)
    ensures Header(m', b, prev)
  {
    hide W, Tag;
  }

  lemma SentinelUntouched(m: seq<nat>, m': seq<nat>, from: nat, to: nat, top: nat)
    requires SameBut(m, m', from, to) && to <= W(top) && W(top) + 1 < |m|
    ensures |m'| == |m| && m'[W(top)] == m[W(top)] && m'[W(top) + 1] == m[W(top) + 1]
  {
    hide W;
  }

  lemma PayloadUntouched(m: seq<nat>, m': seq<nat>, b: Block, from: nat, to: nat)
    requires SameBut(m, m', from, to) && b.start + HEADER <= b.end <= 4 * |m|
    requires to <= W(b.start + HEADER) || W(b.end) <= from
    ensures SamePayload(m, m', b)
  {
    WithinWords(b.end, |m|);
    WithinWords(b.start + HEADER, |m|);
    if from <= to {
      assert PayloadWords(m', b) == PayloadWords(m, b);
    }
  }

  lemma KeptLess(m: seq<nat>, m': seq<nat>, live: set<Block>, b: Block)
    requires Kept(m, m', live)
    ensures Kept(m, m', live - {b})
  {
  }

  /** Allocating, copying and freeing: nb ends up with b's first words, the others with their own. */
  lemma MovedPrefix(m: seq<nat>, m1: seq<nat>, m2: seq<nat>, m3: seq<nat>, live: set<Block>, live': set<Block>, b: Block, nb: Block, n: nat)
    requires b in live && nb !in live && live' == live + {nb} - {b}
    requires Kept(m, m1, live) && Kept(m1, m2, live) && SamePrefix(m1, b, m2, nb, n) && Kept(m2, m3, live')
    ensures SamePrefix(m, b, m3, nb, n) && Kept(m, m3, live - {b})
  {
    hide PayloadWords;
    assert SamePayload(m, m1, b) && SamePayload(m2, m3, nb);
    forall x | x in live - {b}
      ensures SamePayload(m, m3, x)
    {
      assert SamePayload(m, m1, x) && SamePayload(m1, m2, x) && SamePayload(m2, m3, x);
    }
  }

  lemma PayloadLength(m: seq<nat>, b: Block)
    requires Shaped(b) && b.end <= 4 * |m|
    ensures 4 * |PayloadWords(m, b)| == b.Payload() && b.Payload() % 4 == 0
  {
    hide W;
    AlignedPayload(b.start, b.end);
    WordIndex(b.start + HEADER);
    WordIndex(b.end);
  }

  lemma AlignedPayload(start: nat, end: nat)
    requires start % ALIGN == 0 && end % ALIGN == 0
    ensures (start + HEADER) % ALIGN == 0 && (end - start - HEADER) % 4 == 0
  {
  }

  lemma SentinelAbove(m: seq<nat>, bs: seq<Block>, top: nat)
    requires Laid(m, bs, top)
    ensures 4 * |m| == top + HEADER
  {
  }

  lemma KeptSame(m: seq<nat>, bs: seq<Block>, top: nat)
    requires Tiles(bs, top) && Laid(m, bs, top)
    ensures Kept(m, m, Live(bs))
  {
    hide PayloadWords, Tiles, Laid, Live, Shaped;
    SentinelAbove(m, bs, top);
    forall b | b in Live(bs)
      ensures SamePayload(m, m, b)
    {
      var i := IndexOf(bs, b);
      AlignedBlock(bs, top, i);
      InsideTop(bs, top, i);
    }
  }

  /** A heap with one free block. */
  lemma FreshLaid(m: seq<nat>, top: nat)
    requires 4 * |m| == top + HEADER && top % ALIGN == 0 && top >= HEADER + ALIGN
    requires m[0] == Tag(false) && m[1] == top && m[2] == 0 && m[W(top)] == Tag(true) && m[W(top) + 1] == top
    ensures Tiles([Block(0, top, false)], top) && Laid(m, [Block(0, top, false)], top)
  {
  }
}
