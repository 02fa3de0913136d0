/**
 The message ring of a mailbox (os/thread.c, rt_mb_*): a pool of `size` words with an input and an
 output offset that wrap. `sent` and `received` record what went in and out; the code does not
 read them.
 */
module Mailbox {

  datatype Box = Box(size: nat, pool: seq<nat>, entry: nat, inOffset: nat, outOffset: nat,
                     sent: seq<nat>, received: seq<nat>)

  /** An offset wrapped once round the pool. */
  function Wrap(n: nat, size: nat): nat {
    if n >= size then n - size else n
  }

  /** The queued messages, oldest first. */
  function Contents(b: Box): seq<nat>
    requires Shaped(b)
  {
    seq(b.entry, k requires 0 <= k < b.entry => At(b, k))
  }

  /** The k-th queued message. */
  function At(b: Box, k: nat): nat
    requires Shaped(b) && k < b.entry
  {
    b.pool[Wrap(b.outOffset + k, b.size)]
  }

  predicate Shaped(b: Box) {
    && |b.pool| == b.size < 0x1_0000 && b.entry <= b.size
    && (if b.size == 0 then b.inOffset == b.outOffset == 0 else b.inOffset < b.size && b.outOffset < b.size)
    && b.inOffset == (if b.size == 0 then 0 else Wrap(b.outOffset + b.entry, b.size))
  }

  /** What was sent is what was received followed by what is queued. */
  ghost predicate Valid(b: Box) {
    Shaped(b) && b.sent == b.received + Contents(b)
  }

  /** rt_mb_init, lines 1046-1072. */
  function Fresh(pool: seq<nat>): Box {
    Box(|pool|, pool, 0, 0, 0, [], [])
  }

  /** Lines 1250-1256. */
  function Put(b: Box, v: nat): Box
    requires Shaped(b) && b.entry < b.size
  {
    b.(pool := b.pool[b.inOffset := v],
       inOffset := if b.inOffset + 1 >= b.size then 0 else b.inOffset + 1,
       entry := b.entry + 1, sent := b.sent + [v])
  }

  /** The message to come out next, line 1393. */
  function First(b: Box): nat
    requires Shaped(b) && b.entry > 0
  {
    b.pool[b.outOffset]
  }

  /** Lines 1393-1400. */
  function Get(b: Box): Box
    requires Shaped(b) && b.entry > 0
  {
    b.(outOffset := if b.outOffset + 1 >= b.size then 0 else b.outOffset + 1,
       entry := b.entry - 1, received := b.received + [First(b)])
  }

  lemma FreshIsEmpty(pool: seq<nat>)
    requires |pool| < 0x1_0000
    ensures Valid(Fresh(pool)) && Contents(Fresh(pool)) == []
  {
  }

  /** Putting appends to the queue. */
  lemma PutAppends(b: Box, v: nat)
    requires Valid(b) && b.entry < b.size
    ensures Valid(Put(b, v)) && Contents(Put(b, v)) == Contents(b) + [v]
  {
    var b', q := Put(b, v), Contents(b) + [v];
    forall k | 0 <= k < b'.entry
      ensures Contents(b')[k] == q[k]
    {
      if k < b.entry {
        assert Wrap(b.outOffset + k, b.size) != b.inOffset;
      }
    }
    assert Contents(b') == q;
    assert b'.sent == b'.received + q;
  }

  /** Getting takes the oldest message. */
  lemma GetTakesFirst(b: Box)
    requires Valid(b) && b.entry > 0
    ensures Valid(Get(b)) && Contents(b) == [First(b)] + Contents(Get(b))
  {
    var b' := Get(b);
    forall k | 0 <= k < b'.entry
      ensures At(b', k) == At(b, k + 1)
    {
    }
    assert At(b, 0) == First(b);
    hide At, Get, Wrap, Shaped;
    assert Contents(b) == [First(b)] + Contents(b');
    assert b.received + ([First(b)] + Contents(b')) == b.received + [First(b)] + Contents(b');
  }
}
