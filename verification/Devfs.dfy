/** The block device layer of os/filesys/devfs.c, over a device that transfers whole 512-byte blocks. */
module Devfs {

  import opened Base

  const DEV_BSIZE := 512
  const MAXPHYS := 32 * 1024

  /** A request to the driver: a device offset and a number of bytes. */
  datatype Request = Request(offset: nat, length: nat)

  predicate WholeBlocks(r: Request) {
    r.offset % DEV_BSIZE == 0 && r.length % DEV_BSIZE == 0 && 0 < r.length <= MAXPHYS
  }

  /** The requests in after are those in before, and then only whole blocks. */
  ghost predicate OnlyBlocks(before: seq<Request>, after: seq<Request>) {
    before <= after && forall i | |before| <= i < |after| :: WholeBlocks(after[i])
  }

  lemma NoRequest(before: seq<Request>)
    ensures OnlyBlocks(before, before)
  {
  }

  lemma OneMoreRequest(before: seq<Request>, middle: seq<Request>, after: seq<Request>)
    requires OnlyBlocks(before, middle) && OnlyBlocks(middle, after)
    ensures OnlyBlocks(before, after)
  {
  }

  /** The device bytes [from, from + n). */
  ghost function Bytes(disk: nat -> Byte, from: nat, n: nat): (s: seq<Byte>)
    ensures |s| == n
  {
    seq(n, i requires 0 <= i < n => disk(from + i))
  }

  lemma BytesAppend(disk: nat -> Byte, from: nat, m: nat, n: nat)
    ensures Bytes(disk, from, m) + Bytes(disk, from + m, n) == Bytes(disk, from, m + n)
  {
  }

  lemma BytesOneMore(disk: nat -> Byte, from: nat, n: nat)
    ensures Bytes(disk, from, n) + [disk(from + n)] == Bytes(disk, from, n + 1)
  {
  }

  lemma BytesSlice(disk: nat -> Byte, from: nat, n: nat, k: nat, m: nat)
    requires k + m <= n
    ensures Bytes(disk, from, n)[k..k + m] == Bytes(disk, from + k, m)
  {
  }

  /** b with the bytes of s from position at on. */
  function Spliced(b: seq<Byte>, at: nat, s: seq<Byte>): (r: seq<Byte>)
    requires at + |s| <= |b|
    ensures |r| == |b|
  {
    b[..at] + s + b[at + |s|..]
  }

  lemma SplicedNothing(b: seq<Byte>, at: nat, s: seq<Byte>)
    requires at <= |b| && |s| == 0
    ensures Spliced(b, at, s) == b
  {
  }

  lemma SplicedOneMore(b: seq<Byte>, at: nat, s: seq<Byte>, x: Byte)
    requires at + |s| < |b|
    ensures Spliced(b, at, s)[at + |s| := x] == Spliced(b, at, s + [x])
  {
  }

  lemma SplicedTwice(b: seq<Byte>, at: nat, s: seq<Byte>, t: seq<Byte>)
    requires at + |s| + |t| <= |b|
    ensures Spliced(Spliced(b, at, s), at + |s|, t) == Spliced(b, at, s + t)
  {
    var c := Spliced(b, at, s);
    assert c[..at + |s|] == b[..at] + s;
    assert c[at + |s| + |t|..] == b[at + |s| + |t|..];
  }

  /** struct biodev of an opened USB device, with the requests it has sent to the driver. */
  class Biodev {
    const disk: nat -> Byte
    const base: nat
    var offs: int
    ghost var requests: seq<Request>

    constructor (disk: nat -> Byte)
      ensures this.disk == disk && base == 0 && offs == 0 && requests == []
    {
      this.disk, base, offs, requests := disk, 0, 0, [];
    }

    /** read_device, lines 32-38: the driver reads from the block that holds offs. */
    method ReadDevice(buf: array<Byte>, at: nat, n: nat)
      requires at + n <= buf.Length && offs >= 0
      modifies buf, `requests
      ensures buf[..] == Spliced(old(buf[..]), at, Bytes(disk, offs / DEV_BSIZE * DEV_BSIZE, n))
      ensures requests == old(requests) + [Request(offs / DEV_BSIZE * DEV_BSIZE, n)]
    {
      hide Bytes, Spliced;
      var from: nat := offs / DEV_BSIZE * DEV_BSIZE;
      ghost var was := buf[..];
      SplicedNothing(was, at, Bytes(disk, from, 0));
      for i := 0 to n
        invariant buf[..] == Spliced(was, at, Bytes(disk, from, i))
        modifies buf
      {
        var x := disk(from + i);
        BytesOneMore(disk, from, i);
        SplicedOneMore(was, at, Bytes(disk, from, i), x);
        ghost var next := buf[..][at + i := x];
        buf[at + i] := x;
        assert buf[..] == next;
      }
      requests := requests + [Request(from, n)];
    }

    /** devio_lseek, lines 245-260. */
    method Lseek(offset: int, whence: int) returns (r: int)
      modifies `offs
      ensures offs == if whence == 0 then base + offset else old(offs) + offset
      ensures r == offs - base
    {
      if whence == 0 {
        offs := base + offset;
      } else {
        offs := offs + offset;
      }
      return offs - base;
    }

    /** devio_read, lines 112-188: any offset and any length, block requests only. */
    method Read(buf: array<Byte>, at: nat, blen: nat) returns (r: int)
      requires at + blen <= buf.Length
      modifies buf, `offs, `requests
      ensures old(offs) < base ==> r == -1 && offs == old(offs) && buf[..] == old(buf[..]) && requests == old(requests)
      ensures old(offs) >= base ==>
                && r == blen && offs == old(offs) + blen
                && buf[..] == Spliced(old(buf[..]), at, Bytes(disk, old(offs), blen))
      ensures OnlyBlocks(old(requests), requests)
    {
      hide Bytes, Spliced, OnlyBlocks;
      if offs < base {
        NoRequest(requests);
        return -1;
      }
      ghost var was, from: nat, sent := buf[..], offs, requests;
      NoRequest(sent);
      SplicedNothing(was, at, Bytes(disk, from, 0));
      if blen == 0 {
        return 0;
      }
      var lbuff := new Byte[DEV_BSIZE](_ => 0);
      var leftlen: nat, done: nat := blen, 0;
      while leftlen != 0
        invariant leftlen + done == blen && offs == from + done
        invariant buf[..] == Spliced(was, at, Bytes(disk, from, done))
        invariant OnlyBlocks(sent, requests)
        decreases leftlen
      {
        ghost var sofar := requests;
        var n := ReadChunk(buf, at + done, leftlen, lbuff);
        OneMoreRequest(sent, sofar, requests);
        BytesAppend(disk, from, done, n);
        SplicedTwice(was, at, Bytes(disk, from, done), Bytes(disk, from + done, n));
        leftlen, done := leftlen - n, done + n;
      }
      return blen;
    }

    /** Lines 147-184: one request, through the bounce buffer if it is for part of a block. */
    method ReadChunk(buf: array<Byte>, p: nat, leftlen: nat, lbuff: array<Byte>) returns (n: nat)
      requires offs >= 0 && leftlen > 0 && p + leftlen <= buf.Length
      requires lbuff.Length == DEV_BSIZE && lbuff != buf
      modifies buf, lbuff, `offs, `requests
      ensures 0 < n <= leftlen && offs == old(offs) + n
      ensures buf[..] == Spliced(old(buf[..]), p, Bytes(disk, old(offs), n))
      ensures OnlyBlocks(old(requests), requests)
    {
      hide Bytes, Spliced;
      if offs % DEV_BSIZE != 0 || leftlen < DEV_BSIZE {
        var suboffs := offs % DEV_BSIZE;
        n := if DEV_BSIZE - suboffs < leftlen then DEV_BSIZE - suboffs else leftlen;
        offs := offs - suboffs;
        ghost var scratch := lbuff[..];
        ReadDevice(lbuff, 0, DEV_BSIZE);
        SplicedAll(scratch, Bytes(disk, offs, DEV_BSIZE));
        BytesSlice(disk, offs, DEV_BSIZE, suboffs, n);
        Memcpy(buf, p, lbuff, suboffs, n);
        assert lbuff[suboffs..suboffs + n] == lbuff[..][suboffs..suboffs + n];
        offs := offs + suboffs + n;
      } else {
        var whole := leftlen - leftlen % DEV_BSIZE;
        n := if leftlen % DEV_BSIZE != 0 then Min(whole, MAXPHYS) else Min(leftlen, MAXPHYS);
        ReadDevice(buf, p, n);
        offs := offs + n;
      }
    }
  }

  lemma SplicedAll(b: seq<Byte>, s: seq<Byte>)
    requires |s| == |b|
    ensures Spliced(b, 0, s) == s
  {
  }

  method Memcpy(dst: array<Byte>, to: nat, src: array<Byte>, from: nat, n: nat)
    requires dst != src && to + n <= dst.Length && from + n <= src.Length
    modifies dst
    ensures dst[..] == Spliced(old(dst[..]), to, src[from..from + n])
  {
    hide Spliced;
    ghost var was := dst[..];
    SplicedNothing(was, to, src[from..from]);
    for i := 0 to n
      invariant dst[..] == Spliced(was, to, src[from..from + i])
    {
      var x := src[from + i];
      assert src[from..from + i] + [x] == src[from..from + i + 1];
      SplicedOneMore(was, to, src[from..from + i], x);
      ghost var next := dst[..][to + i := x];
      dst[to + i] := x;
      assert dst[..] == next;
    }
  }
}
