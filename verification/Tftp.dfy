/**
 The TFTP read client of os/filesys/tftplib.c against RFC 1350 servers. The network may drop,
 duplicate and reorder: a packet, once sent, may be delivered any number of times and at any time.
 A script fixes what servers and network do, so a statement over every script covers every run.
 */
module Tftp {

  import opened Base

  // ---------------------------------------------------------------------------
  // The file as RFC 1350 cuts it: blocks 1, 2, ... of 512 bytes, the last one shorter.

  function BlockCount(file: seq<Byte>): (n: nat)
    ensures n >= 1 && (n - 1) * SEGSIZE <= |file| < n * SEGSIZE
  {
    |file| / SEGSIZE + 1
  }

  function Block(file: seq<Byte>, n: nat): (data: seq<Byte>)
    requires 1 <= n <= BlockCount(file)
    ensures |data| <= SEGSIZE && (|data| < SEGSIZE <==> n == BlockCount(file))
  {
    var from := (n - 1) * SEGSIZE;
    if n == BlockCount(file) then file[from..] else file[from..n * SEGSIZE]
  }

  /** The bytes of the first n blocks. */
  function Delivered(file: seq<Byte>, n: nat): nat
    requires n <= BlockCount(file)
  {
    if n == BlockCount(file) then |file| else n * SEGSIZE
  }

  /** The blocks in order make up the file. */
  lemma {:induction false} BlocksMakeFile(file: seq<Byte>, n: nat)
    requires n <= BlockCount(file)
    ensures Concatenated(file, n) == file[..Delivered(file, n)]
  {
    if n > 0 {
      BlocksMakeFile(file, n - 1);
    }
  }

  function Concatenated(file: seq<Byte>, n: nat): seq<Byte>
    requires n <= BlockCount(file)
  {
    if n == 0 then [] else Concatenated(file, n - 1) + Block(file, n)
  }

  // ---------------------------------------------------------------------------
  // Servers and network.

  datatype Data = Data(from: nat, block: nat, bytes: seq<Byte>)

  datatype Ack = Ack(to: nat, block: nat)

  datatype Action =
    | Spawn(tid: nat)                    // a server answers the read request from a new port
    | GetAck(tid: nat, block: nat)       // a server receives an acknowledgement
    | Deliver(packet: Data)              // the client receives a data packet
    | DeliverError(from: nat)            // the client receives an error packet
    | Expire                             // the client's wait times out
    | Fail                               // sendto, select or recvfrom fails

  datatype Event = Packet(packet: Data) | ErrorPacket(from: nat) | Timeout | Failure

  datatype Network = Network(requested: bool, servers: map<nat, nat>, acks: set<Ack>, data: set<Data>)

  /** What a server does, sections 2 and 6 of RFC 1350: it moves on only when its last block is acknowledged. */
  function ServerStep(file: seq<Byte>, net: Network, a: Action): Network {
    match a
    case Spawn(tid) =>
      if net.requested && tid !in net.servers && tid != SERVER_PORT then
        net.(servers := net.servers[tid := 1], data := net.data + {Data(tid, 1, Block(file, 1))})
      else net
    case GetAck(tid, b) =>
      if tid in net.servers && Ack(tid, b) in net.acks && net.servers[tid] == b && 1 <= b < BlockCount(file) then
        net.(servers := net.servers[tid := b + 1], data := net.data + {Data(tid, b + 1, Block(file, b + 1))})
      else net
    case _ => net
  }

  /** Every data packet carries the block it names, and only the block a server has reached. */
  ghost predicate Honest(file: seq<Byte>, net: Network) {
    && (forall d | d in net.data ::
          1 <= d.block <= BlockCount(file) && d.bytes == Block(file, d.block) &&
          d.from in net.servers && d.block <= net.servers[d.from])
    && (forall t | t in net.servers ::
          t != SERVER_PORT && 1 <= net.servers[t] <= BlockCount(file) &&
          (net.servers[t] > 1 ==> Ack(t, net.servers[t] - 1) in net.acks))
  }

  lemma ServerStaysHonest(file: seq<Byte>, net: Network, a: Action)
    requires Honest(file, net)
    ensures Honest(file, ServerStep(file, net, a))
    ensures ServerStep(file, net, a).acks == net.acks
    ensures forall t | t in net.servers :: t in ServerStep(file, net, a).servers
  {
  }

  /**
   The client expects data block `block` from its peer: its acknowledgements name earlier blocks only,
   so no server has gone beyond the block expected.
   */
  ghost predicate InStep(file: seq<Byte>, net: Network, port: nat, block: nat) {
    Honest(file, net) && forall a | a in net.acks :: a.to == port && 1 <= a.block < block
  }

  lemma ServerKeepsStep(file: seq<Byte>, net: Network, a: Action, port: nat, block: nat)
    requires InStep(file, net, port, block)
    ensures InStep(file, ServerStep(file, net, a), port, block)
  {
    ServerStaysHonest(file, net, a);
  }

  /** Until the first block is accepted, nothing was acknowledged and any port may become the peer. */
  lemma PeerChosen(file: seq<Byte>, net: Network, port: nat, port': nat)
    requires InStep(file, net, port, 1)
    ensures InStep(file, net, port', 1)
  {
  }

  /** A data packet with the number expected carries that block of the file, and its server is at that block. */
  lemma BlockAccepted(file: seq<Byte>, net: Network, d: Data, block: nat)
    requires InStep(file, net, d.from, block) && d in net.data && d.block == block
    ensures block <= BlockCount(file) && d.bytes == Block(file, block)
    ensures d.from in net.servers && net.servers[d.from] == block
  {
    var t := net.servers[d.from];
    assert t > 1 ==> Ack(d.from, t - 1) in net.acks;
  }

  /** Waiting for the block after one that has been accepted: client and peer are at most one block apart. */
  lemma NeverMoreThanOneApart(file: seq<Byte>, net: Network, port: nat, accepted: nat)
    requires InStep(file, net, port, accepted + 1) && port in net.servers && accepted <= net.servers[port]
    ensures accepted <= net.servers[port] <= accepted + 1
    ensures forall t | t in net.servers && t != port :: net.servers[t] == 1
  {
    assert forall t | t in net.servers && net.servers[t] > 1 :: Ack(t, net.servers[t] - 1) in net.acks;
  }

  // ---------------------------------------------------------------------------
  // The client's calls as functions of its state and of what servers and network will do.

  datatype Request = ReadRequest | Acknowledge(block: nat)

  /** struct tftpfile with its socket. */
  datatype Reader = Reader(net: Network, script: seq<Action>, port: nat, block: nat, eof: bool,
                           start: nat, end: nat, foffs: nat, buf: seq<Byte>)

  datatype Selected = Selected(ev: Event, net: Network, script: seq<Action>)

  /** n is the result of tftprrq: the length of the new block, 0 at the end of the file, or an error. */
  datatype Got = Got(n: int, c: Reader)

  /** out is what a call of tftpread has put into the caller's buffer, whatever its result. */
  datatype Outcome = Outcome(ok: bool, out: seq<Byte>, c: Reader)

  /** select and recvfrom, lines 178-216: servers and network act until something reaches the client. */
  function SelectRun(file: seq<Byte>, net: Network, script: seq<Action>): (r: Selected)
    ensures |r.script| <= |script| && (r.ev != Failure ==> |r.script| < |script|)
    decreases |script|
  {
    if script == [] then Selected(Failure, net, [])
    else
      var net', rest := ServerStep(file, net, script[0]), script[1..];
      match script[0]
      case Deliver(p) => if p in net'.data then Selected(Packet(p), net', rest) else SelectRun(file, net', rest)
      case DeliverError(from) => Selected(ErrorPacket(from), net', rest)
      case Expire => Selected(Timeout, net', rest)
      case Fail => Selected(Failure, net', rest)
      case _ => SelectRun(file, net', rest)
  }

  /** sendto, line 168: a read request reaches the server port, an acknowledgement the peer. */
  function Sent(c: Reader, req: Request): Network {
    match req
    case ReadRequest => c.net.(requested := c.net.requested || c.port == SERVER_PORT)
    case Acknowledge(b) => c.net.(acks := c.net.acks + {Ack(c.port, b)})
  }

  /** The packet buffer after a packet came in: what lies behind its bytes is left over. */
  function Received(buf: seq<Byte>, bytes: seq<Byte>): (r: seq<Byte>)
    requires |buf| == SEGSIZE
    ensures |r| == SEGSIZE
  {
    if |bytes| <= SEGSIZE then bytes + buf[|bytes|..] else bytes[..SEGSIZE]
  }

  /** What the client does with an event: return, or send once more. */
  datatype Next = Stop(got: Got) | Again(c: Reader, rexmt: nat)

  /** Lines 184-259. */
  function Handle(c: Reader, ev: Event, rexmt: nat): (r: Next)
    requires |c.buf| == SEGSIZE
    ensures
      var c' := if r.Stop? then r.got.c else r.c;
      && c' == c.(port := c'.port, eof := c'.eof, buf := c'.buf) && |c'.buf| == SEGSIZE && (r.Again? ==> c'.eof == c.eof)
      && (r.Stop? ==> r.got.n <= SEGSIZE) && (ev == Failure ==> r.Stop? && r.got.n < 0)
  {
    match ev
    case Failure => Stop(Got(-1, c))
    case Timeout =>
      if rexmt + 1 > MAXREXMT then Stop(Got(-1, c))
      else if rexmt + 1 > 100 then Stop(Got(-2, c))
      else Again(c, rexmt + 1)
    case ErrorPacket(from) =>
      if c.block <= 1 then Stop(Got(-1, c.(port := from)))
      else if from != c.port then Again(c, rexmt)
      else Stop(Got(-1, c))
    case Packet(p) =>
      var c2 := c.(buf := Received(c.buf, p.bytes));
      if c.block > 1 && p.from != c.port then Again(c2, rexmt)
      else
        var c3 := c2.(port := p.from);
        if p.block == c.block then Stop(Got(Min(|p.bytes|, SEGSIZE), c3.(eof := |p.bytes| < SEGSIZE)))
        else if p.block != c.block - 1 then Stop(Got(-1, c3))
        else Again(c3, rexmt)
  }

  /** tftprrq, lines 153-262: send the request until the expected block arrives. */
  function RrqRun(file: seq<Byte>, c: Reader, req: Request, rexmt: nat): (r: Got)
    requires |c.buf| == SEGSIZE
    ensures r.n <= SEGSIZE && |r.c.buf| == SEGSIZE && |r.c.script| <= |c.script| && (!c.eof && r.n >= 0 ==> |r.c.script| < |c.script|)
    ensures r.c == c.(net := r.c.net, script := r.c.script, port := r.c.port, eof := r.c.eof, buf := r.c.buf)
    ensures c.eof ==> r.n == 0 && r.c.eof
    decreases |c.script|
  {
    var sent := Sent(c, req);
    if c.eof then Got(0, c.(net := sent))
    else
      var s := SelectRun(file, sent, c.script);
      match Handle(c.(net := s.net, script := s.script), s.ev, rexmt)
      case Stop(g) => g
      case Again(c1, again) => RrqRun(file, c1, req, again)
  }

  /** Lines 509-524: acknowledge the block the counter names, expect the next one. */
  function RefillRun(file: seq<Byte>, c: Reader): (r: Got)
    requires |c.buf| == SEGSIZE && c.start <= c.end
    ensures r.c.foffs == c.foffs && |r.c.buf| == SEGSIZE && |r.c.script| <= |c.script|
    ensures if r.n < 0 then r.c.start == c.start && r.c.end == c.end else r.c.start == c.end && r.c.end == c.end + r.n
    ensures r.n <= SEGSIZE && (r.n >= 0 ==> |r.c.script| < |c.script| || r.n == 0)
  {
    var g := RrqRun(file, c.(block := (c.block + 1) % 0x1_0000), Acknowledge(c.block), 0);
    if g.n < 0 then g else Got(g.n, g.c.(start := c.end, end := c.end + g.n))
  }

  /** Offsets and packet buffer between calls: the offset never lies below the buffer. */
  predicate InBounds(c: Reader) {
    |c.buf| == SEGSIZE && c.start <= c.end <= c.start + SEGSIZE && c.start <= c.foffs
  }

  /** How many bytes the buffer has at the offset, at most nb (lines 498-503). */
  function Ready(c: Reader, nb: nat): (n: nat)
    requires InBounds(c)
    ensures n <= nb && (if c.foffs < c.end then c.foffs + n <= c.end && (n == nb || c.foffs + n == c.end) else n == 0)
  {
    if c.foffs < c.end then Min(c.end - c.foffs, nb) else 0
  }

  /** These bytes. */
  function Copied(c: Reader, nb: nat): (out: seq<Byte>)
    requires InBounds(c)
    ensures |out| == Ready(c, nb)
  {
    var n := Ready(c, nb);
    if n == 0 then [] else c.buf[c.foffs - c.start..c.foffs - c.start + n]
  }

  /** tftpread, lines 477-528, while nb bytes are still wanted. */
  function ReadRun(file: seq<Byte>, c: Reader, nb: nat): Outcome
    requires InBounds(c)
    decreases |c.script|, if c.start < c.end then 1 else 0, nb
  {
    if nb == 0 || c.start >= c.end then Outcome(true, [], c)
    else
      var out := Copied(c, nb);
      var c1 := c.(foffs := c.foffs + |out|);
      if c1.foffs < c1.end then Outcome(true, out, c1)
      else
        var g := RefillRun(file, c1);
        if g.n < 0 then Outcome(false, out, g.c)
        else Prepend(out, ReadRun(file, g.c, nb - |out|))
  }

  function Prepend(out: seq<Byte>, r: Outcome): Outcome {
    r.(out := out + r.out)
  }

  lemma PrependMore(a: seq<Byte>, b: seq<Byte>, r: Outcome)
    ensures Prepend(a, Prepend(b, r)) == Prepend(a + b, r)
    ensures Prepend(a, r.(out := b)) == r.(out := a + b) && Prepend([], r) == r
  {
    assert a + (b + r.out) == a + b + r.out;
    assert [] + r.out == r.out;
  }

  /** tftplseek on a file open for reading, lines 572-612: no way back behind the buffered block. */
  function SeekRun(c: Reader, offs: int, fromCurrent: bool): Got {
    var target := Target(c, offs, fromCurrent);
    if target < c.start then Got(-1, c) else Got(target, c.(foffs := target))
  }

  function Target(c: Reader, offs: int, fromCurrent: bool): int {
    if fromCurrent then c.foffs + offs else offs
  }

  function FreshReader(script: seq<Action>): Reader {
    Reader(Network(false, map[], {}, {}), script, SERVER_PORT, 1, false, 0, 0, 0, seq(SEGSIZE, _ => 0))
  }

  /** tftpopen, lines 449-459. */
  function OpenRun(file: seq<Byte>, c: Reader): Got
    requires |c.buf| == SEGSIZE
  {
    var g := RrqRun(file, c, ReadRequest, 0);
    if g.n < 0 then Got(-1, g.c) else Got(0, g.c.(end := g.c.start + g.n))
  }

  // ---------------------------------------------------------------------------
  // What the calls keep. `lost` counts the calls of tftpread that returned -1.

  ghost predicate Connected(file: seq<Byte>, c: Reader) {
    |c.buf| == SEGSIZE && 1 <= c.block < 0x1_0000 && InStep(file, c.net, c.port, c.block)
  }

  /** The buffer lies `lost` blocks before the place its block has in the file. */
  predicate Shifted(c: Reader, lost: nat) {
    c.start + SEGSIZE * lost == SEGSIZE * (c.block - 1) && c.start <= c.foffs
  }

  /** The packet buffer holds block c.block of the file. */
  ghost predicate Fresh(file: seq<Byte>, c: Reader, lost: nat) {
    && Connected(file, c) && Shifted(c, lost) && c.block <= BlockCount(file)
    && c.end == c.start + |Block(file, c.block)| && c.buf[..|Block(file, c.block)|] == Block(file, c.block)
    && (c.eof <==> c.block == BlockCount(file))
    && c.port in c.net.servers && c.block <= c.net.servers[c.port]
  }

  /** A refill has failed: the block counter names a block that never arrived. */
  ghost predicate Stale(file: seq<Byte>, c: Reader, lost: nat) {
    && Connected(file, c) && Shifted(c, lost) && !c.eof && lost > 0
    && c.end == c.start + SEGSIZE && c.end <= c.foffs && c.block <= BlockCount(file) + lost
  }

  /** The end of the file has been acknowledged. */
  ghost predicate Done(file: seq<Byte>, c: Reader, lost: nat) {
    && |c.buf| == SEGSIZE && c.eof && c.start == c.end <= c.foffs && c.start + SEGSIZE * lost == |file|
  }

  /** The file is open and `lost` reads have failed so far. */
  ghost predicate Opened(file: seq<Byte>, c: Reader, lost: nat) {
    Fresh(file, c, lost) || Stale(file, c, lost) || Done(file, c, lost)
  }

  lemma {:induction false} SelectKeeps(file: seq<Byte>, net: Network, script: seq<Action>, port: nat, block: nat)
    requires InStep(file, net, port, block)
    ensures
      var r := SelectRun(file, net, script);
      InStep(file, r.net, port, block) && r.net.acks == net.acks && (r.ev.Packet? ==> r.ev.packet in r.net.data)
    decreases |script|
  {
    hide InStep, Honest;
    if script != [] {
      ServerKeepsStep(file, net, script[0], port, block);
      SameAcks(file, net, script[0]);
      SelectKeeps(file, ServerStep(file, net, script[0]), script[1..], port, block);
    }
  }

  lemma SameAcks(file: seq<Byte>, net: Network, a: Action)
    ensures ServerStep(file, net, a).acks == net.acks
  {
  }

  lemma SentKeeps(file: seq<Byte>, c: Reader, req: Request)
    requires Connected(file, c) && (req.Acknowledge? ==> 1 <= req.block < c.block)
    ensures InStep(file, Sent(c, req), c.port, c.block)
  {
    var r := Sent(c, req);
    assert forall a | a in c.net.acks :: a in r.acks;
  }

  /** A block that arrives is the block expected, whatever the network did before. */
  lemma {:induction false} RrqGets(file: seq<Byte>, c: Reader, req: Request, rexmt: nat)
    requires Connected(file, c) && (req.Acknowledge? ==> 1 <= req.block < c.block)
    ensures
      var r := RrqRun(file, c, req, rexmt);
      && Connected(file, r.c) && (r.n < 0 ==> !r.c.eof) && (c.eof ==> r.n == 0)
      && (!c.eof && r.n >= 0 ==>
            && c.block <= BlockCount(file) && r.n == |Block(file, c.block)| && r.c.buf[..r.n] == Block(file, c.block)
            && (r.c.eof <==> c.block == BlockCount(file))
            && r.c.port in r.c.net.servers && r.c.net.servers[r.c.port] == c.block)
    decreases |c.script|
  {
    hide InStep, Block, BlockCount, SelectRun;
    SentKeeps(file, c, req);
    if !c.eof {
      var s := SelectRun(file, Sent(c, req), c.script);
      SelectKeeps(file, Sent(c, req), c.script, c.port, c.block);
      var c1 := c.(net := s.net, script := s.script);
      match s.ev
      case Failure =>
      case Timeout =>
        if rexmt + 1 <= 100 {
          RrqGets(file, c1, req, rexmt + 1);
        }
      case ErrorPacket(from) =>
        if c.block <= 1 {
          PeerChosen(file, c1.net, c.port, from);
        } else if from != c.port {
          RrqGets(file, c1, req, rexmt);
        }
      case Packet(p) =>
        var c2 := c1.(buf := Received(c.buf, p.bytes));
        if c.block > 1 && p.from != c.port {
          RrqGets(file, c2, req, rexmt);
        } else {
          if c.block <= 1 {
            PeerChosen(file, c1.net, c.port, p.from);
          }
          if p.block == c.block {
            BlockAccepted(file, c1.net, p, c.block);
          } else if p.block == c.block - 1 {
            RrqGets(file, c2.(port := p.from), req, rexmt);
          }
        }
    }
  }

  /** Opening gives the first block at offset 0. */
  lemma OpenConnects(file: seq<Byte>, script: seq<Action>)
    ensures
      var g := OpenRun(file, FreshReader(script));
      g.n >= 0 ==> g.n == 0 && Fresh(file, g.c, 0) && g.c.foffs == 0
  {
    hide RrqRun, Block, BlockCount;
    RrqGets(file, FreshReader(script), ReadRequest, 0);
  }

  /** Expecting the next block is in step with a server that the acknowledgement may move on. */
  lemma NextExpected(file: seq<Byte>, c: Reader)
    requires Connected(file, c) && c.block + 1 < 0x1_0000
    ensures Connected(file, c.(block := c.block + 1))
  {
  }

  /**
   A refill: the next block of the counter arrives, or the read fails and one more block is lost. After
   failures the counter has run ahead, so the block taken is not the one after the last accepted.
   */
  lemma RefillMoves(file: seq<Byte>, c: Reader, lost: nat)
    requires Fresh(file, c, lost) || Stale(file, c, lost)
    requires c.end <= c.foffs && c.block + 1 < 0x1_0000
    ensures
      var g := RefillRun(file, c);
      && (g.n < 0 ==> Stale(file, g.c, lost + 1) && g.c.block == c.block + 1)
      && (g.n >= 0 && c.eof ==> Done(file, g.c, lost))
      && (g.n >= 0 && !c.eof ==> Fresh(file, g.c, lost) && g.c.block == c.block + 1)
  {
    hide RrqRun, InStep, Block, BlockCount;
    BlockCountOf(file);
    if c.block <= BlockCount(file) {
      BlockLength(file, c.block);
      BlockEnd(file, c.block);
    }
    NextExpected(file, c);
    RrqGets(file, c.(block := c.block + 1), Acknowledge(c.block), 0);
  }

  lemma BlockCountOf(file: seq<Byte>)
    ensures BlockCount(file) >= 1 && SEGSIZE * (BlockCount(file) - 1) <= |file| < SEGSIZE * BlockCount(file)
  {
  }

  lemma BlockLength(file: seq<Byte>, n: nat)
    requires 1 <= n <= BlockCount(file)
    ensures |Block(file, n)| <= SEGSIZE && (|Block(file, n)| < SEGSIZE <==> n == BlockCount(file))
  {
  }

  /** What a read delivers when it starts at offset `foffs` and `lost` reads have failed before. */
  ghost predicate Delivers(file: seq<Byte>, foffs: nat, lost: nat, out: seq<Byte>) {
    out != [] ==> foffs + SEGSIZE * lost + |out| <= |file| && out == file[foffs + SEGSIZE * lost..][..|out|]
  }

  /** How many of nb bytes the file still has behind offset from. */
  function Available(file: seq<Byte>, from: nat, nb: nat): nat {
    if from >= |file| then 0 else Min(|file| - from, nb)
  }

  /** The bytes copied out of the buffer are the file's bytes behind the blocks lost. */
  lemma CopiesOut(file: seq<Byte>, c: Reader, lost: nat, nb: nat)
    requires Opened(file, c, lost) && InBounds(c) && c.start < c.end
    ensures
      var out := Copied(c, nb);
      && Delivers(file, c.foffs, lost, out)
      && (c.foffs < c.end ==> Fresh(file, c.(foffs := c.foffs + |out|), lost))
  {
    hide InStep, Block, BlockCount;
    if c.foffs < c.end {
      assert Fresh(file, c, lost);
      var n, i, b := Ready(c, nb), c.foffs - c.start, Block(file, c.block);
      assert i + n <= |b|;
      BlockSlice(file, c.block, i, n);
      BufferSlice(c.buf, |b|, i, n);
      var at := c.foffs + SEGSIZE * lost;
      assert at == SEGSIZE * (c.block - 1) + i;
      assert file[at..][..n] == file[at..at + n];
    }
  }

  lemma BufferSlice(s: seq<Byte>, to: nat, i: nat, len: nat)
    requires to <= |s| && i + len <= to
    ensures s[..to][i..i + len] == s[i..i + len]
  {
    assert s[..to] == s[0..to];
    SliceOfSlice(s, 0, to, i, len);
  }

  lemma DeliversMore(file: seq<Byte>, foffs: nat, lost: nat, a: seq<Byte>, b: seq<Byte>)
    requires Delivers(file, foffs, lost, a) && Delivers(file, foffs + |a|, lost, b)
    ensures Delivers(file, foffs, lost, a + b)
  {
    var at := foffs + SEGSIZE * lost;
    if a != [] && b != [] {
      assert file[at..][..|a| + |b|] == file[at..][..|a|] + file[at + |a|..][..|b|];
    } else {
      assert a + b == if a == [] then b else a;
    }
  }

  lemma OpenedInBounds(file: seq<Byte>, c: Reader, lost: nat)
    requires Opened(file, c, lost)
    ensures InBounds(c) && (c.start >= c.end ==> |file| <= c.foffs + SEGSIZE * lost)
    ensures !Done(file, c, lost) ==> c.block <= BlockCount(file) + lost
  {
    hide InStep, Block, BlockCount;
    BlockCountOf(file);
    if Fresh(file, c, lost) {
      BlockLength(file, c.block);
      BlockEnd(file, c.block);
    }
  }

  lemma AvailableSplits(file: seq<Byte>, from: nat, n: nat, nb: nat)
    requires n <= nb && (n > 0 ==> from + n <= |file|)
    ensures Available(file, from, nb) == n + Available(file, from + n, nb - n)
  {
  }

  /** What a call of tftpread may do with nb bytes wanted. */
  ghost predicate Reads(file: seq<Byte>, c: Reader, nb: nat, lost: nat, r: Outcome) {
    && Delivers(file, c.foffs, lost, r.out) && |r.out| <= nb && r.c.foffs == c.foffs + |r.out|
    && (r.ok ==> Opened(file, r.c, lost) && |r.out| == Available(file, c.foffs + SEGSIZE * lost, nb))
    && (!r.ok ==> Stale(file, r.c, lost + 1))
  }

  /** One round of the loop: what is copied, and the refill behind it. */
  lemma ReadRound(file: seq<Byte>, c: Reader, nb: nat, lost: nat)
    requires Opened(file, c, lost) && InBounds(c) && BlockCount(file) + lost < 0xffff && nb > 0 && c.start < c.end
    ensures
      var out := Copied(c, nb);
      var c1 := c.(foffs := c.foffs + |out|);
      && Delivers(file, c.foffs, lost, out) && |out| <= nb
      && (c1.foffs < c1.end ==> Reads(file, c, nb, lost, Outcome(true, out, c1)))
      && (c1.foffs >= c1.end ==>
            var g := RefillRun(file, c1);
            if g.n < 0 then Reads(file, c, nb, lost, Outcome(false, out, g.c)) else Opened(file, g.c, lost) && g.c.foffs == c1.foffs)
  {
    hide InStep, Block, BlockCount, Fresh, Stale, Done, RefillRun, Ready, Copied, Delivers, Connected, Available, Opened;
    EmptyIsOpen(file, c, lost);
    OpenedInBounds(file, c, lost);
    var out := Copied(c, nb);
    var c1 := c.(foffs := c.foffs + |out|);
    CopiesOut(file, c, lost, nb);
    if c1.foffs >= c1.end {
      StillOpen(file, c, lost, |out|);
      RefillMoves(file, c1, lost);
      var g := RefillRun(file, c1);
      if g.n >= 0 {
        IsOpened(file, g.c, lost);
      }
    } else {
      AllWanted(c, nb);
      IsOpened(file, c1, lost);
      DeliveredInside(file, c.foffs, lost, out);
      AvailableSplits(file, c.foffs + SEGSIZE * lost, |out|, nb);
      NoneWanted(file, c.foffs + SEGSIZE * lost + |out|);
    }
  }

  lemma ReadsMore(file: seq<Byte>, c: Reader, nb: nat, lost: nat, out: seq<Byte>, c': Reader, rest: Outcome)
    requires Delivers(file, c.foffs, lost, out) && |out| <= nb && c'.foffs == c.foffs + |out|
    requires Reads(file, c', nb - |out|, lost, rest)
    ensures Reads(file, c, nb, lost, Prepend(out, rest))
  {
    DeliversMore(file, c.foffs, lost, out, rest.out);
    DeliveredInside(file, c.foffs, lost, out);
    AvailableSplits(file, c.foffs + SEGSIZE * lost, |out|, nb);
  }

  /**
   tftpread at offset foffs after `lost` reads that returned -1: what it delivers are the file's bytes
   from foffs + 512 * lost on, as many as asked for and available there; a read that fails loses one
   more block.
   */
  lemma {:induction false} ReadDelivers(file: seq<Byte>, c: Reader, nb: nat, lost: nat)
    requires Opened(file, c, lost) && BlockCount(file) + lost < 0xffff
    ensures InBounds(c) && Reads(file, c, nb, lost, ReadRun(file, c, nb))
    decreases |c.script|, if c.start < c.end then 1 else 0, nb
  {
    hide InStep, Block, BlockCount, Fresh, Stale, Done, RefillRun, Ready, Copied, Delivers, Connected, Available, Opened, Reads, ReadRun, InBounds;
    OpenedInBounds(file, c, lost);
    ReadUnfolds(file, c, nb);
    if nb > 0 && c.start < c.end {
      ReadRound(file, c, nb, lost);
      var out := Copied(c, nb);
      var c1 := c.(foffs := c.foffs + |out|);
      if c1.foffs >= c1.end {
        var g := RefillRun(file, c1);
        if g.n >= 0 {
          OpenedInBounds(file, g.c, lost);
          ReadDelivers(file, g.c, nb - |out|, lost);
          ReadsMore(file, c, nb, lost, out, g.c, ReadRun(file, g.c, nb - |out|));
        }
      }
    } else {
      NothingRead(file, c, nb, lost);
    }
  }

  lemma ReadUnfolds(file: seq<Byte>, c: Reader, nb: nat)
    requires InBounds(c)
    ensures |c.buf| == SEGSIZE && c.start <= c.end
    ensures nb == 0 || c.start >= c.end ==> ReadRun(file, c, nb) == Outcome(true, [], c)
    ensures nb > 0 && c.start < c.end ==>
              var out := Copied(c, nb);
              var c1 := c.(foffs := c.foffs + |out|);
              && |out| <= nb && (c1.foffs < c1.end ==> ReadRun(file, c, nb) == Outcome(true, out, c1))
              && (c1.foffs >= c1.end ==>
                    var g := RefillRun(file, c1);
                    && (g.n < 0 ==> ReadRun(file, c, nb) == Outcome(false, out, g.c))
                    && (g.n >= 0 ==>
                          && InBounds(g.c) && (|g.c.script| < |c.script| || (|g.c.script| == |c.script| && g.c.start == g.c.end))
                          && ReadRun(file, c, nb) == Prepend(out, ReadRun(file, g.c, nb - |out|))))
  {
    hide RefillRun, Ready, Copied;
  }

  lemma NothingRead(file: seq<Byte>, c: Reader, nb: nat, lost: nat)
    requires Opened(file, c, lost) && (nb == 0 || |file| <= c.foffs + SEGSIZE * lost)
    ensures Reads(file, c, nb, lost, Outcome(true, [], c))
  {
    NoneAvailable(file, c.foffs + SEGSIZE * lost, nb);
  }

  lemma IsOpened(file: seq<Byte>, c: Reader, lost: nat)
    requires Fresh(file, c, lost) || Stale(file, c, lost) || Done(file, c, lost)
    ensures Opened(file, c, lost)
  {
  }

  lemma NoneWanted(file: seq<Byte>, from: nat)
    ensures Available(file, from, 0) == 0
  {
  }

  lemma NoneAvailable(file: seq<Byte>, from: nat, nb: nat)
    ensures nb == 0 || |file| <= from ==> Available(file, from, nb) == 0
  {
  }

  lemma NothingDelivered(file: seq<Byte>, foffs: nat, lost: nat)
    ensures Delivers(file, foffs, lost, [])
  {
  }

  lemma DeliveredInside(file: seq<Byte>, foffs: nat, lost: nat, out: seq<Byte>)
    requires Delivers(file, foffs, lost, out)
    ensures out != [] ==> foffs + SEGSIZE * lost + |out| <= |file|
  {
  }

  /** A reader with bytes in its buffer is not done. */
  lemma EmptyIsOpen(file: seq<Byte>, c: Reader, lost: nat)
    requires Opened(file, c, lost) && c.start < c.end
    ensures Fresh(file, c, lost) || Stale(file, c, lost)
    ensures !Done(file, c, lost)
  {
  }

  /** Moving the offset over bytes that were copied. */
  lemma StillOpen(file: seq<Byte>, c: Reader, lost: nat, n: nat)
    requires Fresh(file, c, lost) || Stale(file, c, lost)
    ensures Fresh(file, c, lost) ==> Fresh(file, c.(foffs := c.foffs + n), lost)
    ensures Stale(file, c, lost) ==> Stale(file, c.(foffs := c.foffs + n), lost)
  {
    hide InStep, Block, BlockCount;
  }

  lemma AllWanted(c: Reader, nb: nat)
    requires InBounds(c)
    ensures var n := Ready(c, nb); c.foffs + n < c.end ==> n == nb
  {
  }

  /** A seek keeps the file open; after a failed read it must not go back into the buffer, whose block is gone. */
  lemma SeekKeeps(file: seq<Byte>, c: Reader, lost: nat, offs: int, fromCurrent: bool)
    requires Opened(file, c, lost) && (Stale(file, c, lost) ==> !(c.start <= Target(c, offs, fromCurrent) < c.end))
    ensures InBounds(c) && Opened(file, SeekRun(c, offs, fromCurrent).c, lost)
  {
    hide InStep, Block, BlockCount;
    OpenedInBounds(file, c, lost);
  }

  /**
   Where a seek lands: what is read next are the file's bytes from `at` on, for a seek to `at` from the start
   or by at - offset from the current offset. It is refused below the buffered block, and then nothing moves.
   */
  lemma SeekLands(file: seq<Byte>, c: Reader, at: int, nb: nat)
    requires Opened(file, c, 0) && BlockCount(file) < 0xffff
    ensures SeekRun(c, at, false) == SeekRun(c, at - c.foffs, true)
    ensures at < c.start ==> SeekRun(c, at, false) == Got(-1, c)
    ensures at >= c.start ==>
              && SeekRun(c, at, false).n == at && InBounds(SeekRun(c, at, false).c)
              && var r := ReadRun(file, SeekRun(c, at, false).c, nb);
              && (r.ok ==> |r.out| == Available(file, at, nb)) && (r.out != [] ==> at + |r.out| <= |file| && r.out == file[at..at + |r.out|])
  {
    hide InStep, Block, BlockCount, Fresh, Done, ReadRun, Available;
    if at >= c.start {
      NotStale(file, c);
      SeekKeeps(file, c, 0, at, false);
      var r := ReadRun(file, SeekRun(c, at, false).c, nb);
      ReadDelivers(file, SeekRun(c, at, false).c, nb, 0);
      if r.out != [] {
        assert file[at..][..|r.out|] == file[at..at + |r.out|];
      }
    }
  }

  lemma NotStale(file: seq<Byte>, c: Reader)
    ensures !Stale(file, c, 0)
  {
  }

  // ---------------------------------------------------------------------------
  // Progress: the client sends again until the expected block comes.

  /** Servers and network act by themselves. */
  function ServersRun(file: seq<Byte>, net: Network, script: seq<Action>): Network
    decreases |script|
  {
    if script == [] then net else ServersRun(file, ServerStep(file, net, script[0]), script[1..])
  }

  /**
   What may happen without harm while block `block` is expected from `port`: servers act, time runs out,
   the block before comes again, or something comes from another port.
   */
  predicate Harmless(a: Action, block: nat, port: nat) {
    match a
    case Deliver(p) => block > 1 && (p.from != port || p.block == block - 1)
    case DeliverError(from) => block > 1 && from != port
    case Fail => false
    case _ => true
  }

  ghost predicate AllHarmless(pre: seq<Action>, block: nat, port: nat) {
    forall i | 0 <= i < |pre| :: Harmless(pre[i], block, port)
  }

  function TimeOuts(pre: seq<Action>): nat {
    if pre == [] then 0 else (if pre[0].Expire? then 1 else 0) + TimeOuts(pre[1..])
  }

  lemma HarmlessRest(pre: seq<Action>, block: nat, port: nat)
    requires AllHarmless(pre, block, port) && pre != []
    ensures Harmless(pre[0], block, port) && AllHarmless(pre[1..], block, port)
  {
  }

  /** Sending the same request again changes nothing. */
  lemma SentAgain(file: seq<Byte>, c: Reader, req: Request, a: Action, c': Reader)
    requires c'.net == ServerStep(file, Sent(c, req), a) && c'.port == c.port
    ensures Sent(c', req) == c'.net
  {
    match req
    case ReadRequest =>
    case Acknowledge(b) => assert c'.net.acks == c'.net.acks + {Ack(c.port, b)};
  }

  /** One harmless action: the call goes on as if it had just begun, with the time-outs counted. */
  lemma RrqOneMore(file: seq<Byte>, c: Reader, req: Request, rexmt: nat) returns (c': Reader)
    requires |c.buf| == SEGSIZE && !c.eof && c.script != [] && Harmless(c.script[0], c.block, c.port)
    requires rexmt + TimeOuts(c.script[..1]) <= 100
    ensures |c'.buf| == SEGSIZE && c' == c.(net := ServerStep(file, Sent(c, req), c.script[0]), script := c.script[1..], buf := c'.buf)
    ensures RrqRun(file, c, req, rexmt) == RrqRun(file, c', req, rexmt + TimeOuts(c.script[..1]))
    ensures Sent(c', req) == c'.net
  {
    hide ServerStep, Sent;
    var a := c.script[0];
    assert TimeOuts(c.script[..1]) == if a.Expire? then 1 else 0;
    var net := ServerStep(file, Sent(c, req), a);
    c' := c.(net := net, script := c.script[1..]);
    if a.Deliver? && a.packet in net.data {
      c' := c'.(buf := Received(c.buf, a.packet.bytes));
    }
    SentAgain(file, c, req, a, c');
  }

  /** The same for the first of the harmless actions `pre`. */
  lemma RrqStep(file: seq<Byte>, c: Reader, req: Request, rexmt: nat, pre: seq<Action>, tail: seq<Action>) returns (c': Reader, again: nat)
    requires |c.buf| == SEGSIZE && !c.eof && c.script == pre + tail && pre != []
    requires AllHarmless(pre, c.block, c.port) && rexmt + TimeOuts(pre) <= 100
    ensures |c'.buf| == SEGSIZE && c' == c.(net := c'.net, script := pre[1..] + tail, buf := c'.buf)
    ensures AllHarmless(pre[1..], c.block, c.port) && again + TimeOuts(pre[1..]) == rexmt + TimeOuts(pre)
    ensures RrqRun(file, c, req, rexmt) == RrqRun(file, c', req, again)
    ensures ServersRun(file, Sent(c', req), pre[1..]) == ServersRun(file, Sent(c, req), pre)
  {
    hide ServerStep, Sent, AllHarmless, RrqRun, Harmless;
    HarmlessRest(pre, c.block, c.port);
    assert c.script[0] == pre[0] && c.script[..1] == pre[..1] && c.script[1..] == pre[1..] + tail;
    assert TimeOuts(pre[..1]) == if pre[0].Expire? then 1 else 0;
    c' := RrqOneMore(file, c, req, rexmt);
    again := rexmt + TimeOuts(pre[..1]);
  }

  /**
   tftprrq with the expected block behind harmless actions: with at most 100 time-outs the result is that
   block's length.
   */
  lemma {:induction false} RrqProgress(file: seq<Byte>, c: Reader, req: Request, rexmt: nat, pre: seq<Action>, p: Data, rest: seq<Action>)
    requires |c.buf| == SEGSIZE && !c.eof && c.script == pre + ([Deliver(p)] + rest)
    requires AllHarmless(pre, c.block, c.port) && rexmt + TimeOuts(pre) <= 100
    requires p in ServersRun(file, Sent(c, req), pre).data && p.block == c.block && (c.block > 1 ==> p.from == c.port) && |p.bytes| <= SEGSIZE
    ensures
      var r := RrqRun(file, c, req, rexmt);
      && r.n == |p.bytes| && r.c.buf[..|p.bytes|] == p.bytes && r.c.port == p.from && (r.c.eof <==> |p.bytes| < SEGSIZE)
      && r.c.script == rest && r.c.net == ServersRun(file, Sent(c, req), pre)
    decreases |pre|
  {
    hide Sent, AllHarmless, RrqRun, TimeOuts;
    if pre == [] {
      Arrives(file, c, req, rexmt, p, rest);
    } else {
      var c', again := RrqStep(file, c, req, rexmt, pre, [Deliver(p)] + rest);
      RrqProgress(file, c', req, again, pre[1..], p, rest);
    }
  }

  /** The expected block arrives at once. */
  lemma Arrives(file: seq<Byte>, c: Reader, req: Request, rexmt: nat, p: Data, rest: seq<Action>)
    requires |c.buf| == SEGSIZE && !c.eof && c.script == [] + ([Deliver(p)] + rest)
    requires p in Sent(c, req).data && p.block == c.block && (c.block > 1 ==> p.from == c.port) && |p.bytes| <= SEGSIZE
    ensures
      var r := RrqRun(file, c, req, rexmt);
      && r.n == |p.bytes| && r.c.buf[..|p.bytes|] == p.bytes && r.c.port == p.from && (r.c.eof <==> |p.bytes| < SEGSIZE)
      && r.c.script == rest && r.c.net == Sent(c, req)
  {
    hide Sent, ServerStep;
    assert c.script[0] == Deliver(p) && c.script[1..] == rest;
    DeliveryIdle(file, Sent(c, req), p);
  }

  lemma DeliveryIdle(file: seq<Byte>, net: Network, p: Data)
    ensures ServerStep(file, net, Deliver(p)) == net
  {
  }

  /** At the time-out after the hundredth the client gives up with -2. */
  lemma {:induction false} RrqGivesUp(file: seq<Byte>, c: Reader, req: Request, rexmt: nat, pre: seq<Action>, rest: seq<Action>)
    requires |c.buf| == SEGSIZE && !c.eof && c.script == pre + ([Expire] + rest)
    requires AllHarmless(pre, c.block, c.port) && rexmt + TimeOuts(pre) == 100
    ensures RrqRun(file, c, req, rexmt).n == -2
    decreases |pre|
  {
    if pre == [] {
      assert c.script[0] == Expire;
    } else {
      hide Sent, AllHarmless, RrqRun, TimeOuts;
      var c', again := RrqStep(file, c, req, rexmt, pre, [Expire] + rest);
      RrqGivesUp(file, c', req, again, pre[1..], rest);
    }
  }

  /** What ends a call without the expected block: a failure, an error from the peer, or a block out of order from it. */
  ghost predicate Hopeless(a: Action, block: nat, port: nat, net: Network) {
    match a
    case Fail => true
    case DeliverError(from) => block <= 1 || from == port
    case Deliver(p) => p in net.data && (block <= 1 || p.from == port) && p.block != block && p.block != block - 1
    case _ => false
  }

  lemma {:induction false} RrqFails(file: seq<Byte>, c: Reader, req: Request, rexmt: nat, pre: seq<Action>, a: Action, rest: seq<Action>)
    requires |c.buf| == SEGSIZE && !c.eof && c.script == pre + ([a] + rest)
    requires AllHarmless(pre, c.block, c.port) && rexmt + TimeOuts(pre) <= 100
    requires Hopeless(a, c.block, c.port, ServersRun(file, Sent(c, req), pre))
    ensures RrqRun(file, c, req, rexmt).n == -1
    decreases |pre|
  {
    hide Sent, AllHarmless, RrqRun, TimeOuts;
    if pre == [] {
      Breaks(file, c, req, rexmt, a, rest);
    } else {
      var c', again := RrqStep(file, c, req, rexmt, pre, [a] + rest);
      RrqFails(file, c', req, again, pre[1..], a, rest);
    }
  }

  lemma Breaks(file: seq<Byte>, c: Reader, req: Request, rexmt: nat, a: Action, rest: seq<Action>)
    requires |c.buf| == SEGSIZE && !c.eof && c.script == [] + ([a] + rest) && Hopeless(a, c.block, c.port, Sent(c, req))
    ensures RrqRun(file, c, req, rexmt).n == -1
  {
    hide Sent;
    assert c.script[0] == a && c.script[1..] == rest;
  }

  /** At the end of the file the last block is acknowledged, and nothing is waited for. */
  lemma LastAcknowledged(file: seq<Byte>, c: Reader)
    requires |c.buf| == SEGSIZE && c.start <= c.end && c.eof
    ensures
      var g := RefillRun(file, c);
      g.n == 0 && g.c.script == c.script && g.c.net == c.net.(acks := c.net.acks + {Ack(c.port, c.block)})
  {
  }

  /** A server at block b that receives its acknowledgement sends the next block. */
  lemma {:induction false} ServerAnswers(file: seq<Byte>, net: Network, script: seq<Action>, port: nat, b: nat)
    requires port in net.servers && net.servers[port] == b && Ack(port, b) in net.acks && 1 <= b < BlockCount(file)
    requires GetAck(port, b) in script
    ensures Data(port, b + 1, Block(file, b + 1)) in ServersRun(file, net, script).data
    decreases |script|
  {
    hide Block, BlockCount;
    if script[0] == GetAck(port, b) {
      DataStays(file, ServerStep(file, net, script[0]), script[1..], Data(port, b + 1, Block(file, b + 1)));
    } else {
      ServerAnswers(file, ServerStep(file, net, script[0]), script[1..], port, b);
    }
  }

  /** The server port that a read request reaches answers from a new port with the first block. */
  lemma {:induction false} ServerStarts(file: seq<Byte>, net: Network, script: seq<Action>, t: nat)
    requires net.requested && t !in net.servers && t != SERVER_PORT && Spawn(t) in script
    ensures Data(t, 1, Block(file, 1)) in ServersRun(file, net, script).data
    decreases |script|
  {
    hide Block, BlockCount;
    if script[0] == Spawn(t) {
      DataStays(file, ServerStep(file, net, script[0]), script[1..], Data(t, 1, Block(file, 1)));
    } else {
      ServerStarts(file, ServerStep(file, net, script[0]), script[1..], t);
    }
  }

  lemma {:induction false} DataStays(file: seq<Byte>, net: Network, script: seq<Action>, d: Data)
    requires d in net.data
    ensures d in ServersRun(file, net, script).data
    decreases |script|
  {
    hide Block, BlockCount;
    if script != [] {
      DataStays(file, ServerStep(file, net, script[0]), script[1..], d);
    }
  }

  /**
   A round of a transfer with server t: harmless actions with at most 100 time-outs, among them the one
   by which the server sends block b, and then the delivery of that block.
   */
  ghost predicate RoundOf(file: seq<Byte>, t: nat, b: nat, round: seq<Action>)
    requires 1 <= b <= BlockCount(file)
  {
    && round != [] && round[|round| - 1] == Deliver(Data(t, b, Block(file, b)))
    && var pre := round[..|round| - 1];
    && AllHarmless(pre, b, t) && TimeOuts(pre) <= 100
    && (if b == 1 then t != SERVER_PORT && Spawn(t) in pre else GetAck(t, b - 1) in pre)
  }

  /** The rounds of blocks b and above, in order. */
  ghost predicate FairFrom(file: seq<Byte>, t: nat, script: seq<Action>, b: nat)
    requires b >= 1
    decreases BlockCount(file) + 1 - b
  {
    b > BlockCount(file) ||
    exists n :: 0 < n <= |script| && RoundOf(file, t, b, script[..n]) && FairFrom(file, t, script[n..], b + 1)
  }

  /** The block in the buffer is followed by its rounds, or the end of the file has been reached. */
  ghost predicate GoesWell(file: seq<Byte>, c: Reader) {
    Done(file, c, 0) || (Fresh(file, c, 0) && FairFrom(file, c.port, c.script, c.block + 1))
  }

  /** What a round is made of. */
  lemma RoundParts(file: seq<Byte>, t: nat, b: nat, script: seq<Action>) returns (pre: seq<Action>, p: Data, rest: seq<Action>)
    requires 1 <= b <= BlockCount(file) && FairFrom(file, t, script, b)
    ensures p == Data(t, b, Block(file, b)) && script == pre + ([Deliver(p)] + rest) && FairFrom(file, t, rest, b + 1)
    ensures AllHarmless(pre, b, t) && TimeOuts(pre) <= 100
    ensures if b == 1 then t != SERVER_PORT && Spawn(t) in pre else GetAck(t, b - 1) in pre
  {
    hide Block, BlockCount, AllHarmless, TimeOuts;
    var n :| 0 < n <= |script| && RoundOf(file, t, b, script[..n]) && FairFrom(file, t, script[n..], b + 1);
    pre, p, rest := script[..n][..n - 1], Data(t, b, Block(file, b)), script[n..];
    LastCut(script, n);
  }

  /** The first n actions are n - 1 and one more. */
  lemma LastCut(script: seq<Action>, n: nat)
    requires 0 < n <= |script|
    ensures script[..n][n - 1] == script[n - 1] && script == script[..n][..n - 1] + ([script[n - 1]] + script[n..])
  {
    assert script[..n][..n - 1] == script[..n - 1];
  }

  /** One round: the next block is in the buffer. */
  lemma RoundDelivers(file: seq<Byte>, c: Reader)
    requires Fresh(file, c, 0) && c.end <= c.foffs && c.block + 1 < 0x1_0000 && !c.eof && FairFrom(file, c.port, c.script, c.block + 1)
    ensures var g := RefillRun(file, c); g.n >= 0 && GoesWell(file, g.c)
  {
    hide RrqRun, RefillRun, Fresh, Stale, Done, Block, BlockCount, ServerStep, AllHarmless, FairFrom;
    NotLast(file, c);
    PeerAt(file, c);
    var pre, p, rest := RoundParts(file, c.port, c.block + 1, c.script);
    var c1 := c.(block := c.block + 1);
    ServerAnswers(file, Sent(c1, Acknowledge(c.block)), pre, c.port, c.block);
    BlockLength(file, c.block + 1);
    RrqProgress(file, c1, Acknowledge(c.block), 0, pre, p, rest);
    RefillMoves(file, c, 0);
    RefillIs(file, c);
  }

  lemma RefillIs(file: seq<Byte>, c: Reader)
    requires |c.buf| == SEGSIZE && c.start <= c.end && c.block + 1 < 0x1_0000
    ensures
      var g := RrqRun(file, c.(block := c.block + 1), Acknowledge(c.block), 0);
      RefillRun(file, c).n == g.n && RefillRun(file, c).c.script == g.c.script && RefillRun(file, c).c.port == g.c.port
  {
  }

  lemma NotLast(file: seq<Byte>, c: Reader)
    requires Fresh(file, c, 0) && !c.eof
    ensures 1 <= c.block < BlockCount(file) && |c.buf| == SEGSIZE && c.start <= c.end
  {
    hide InStep, Block, BlockCount;
  }

  lemma PeerAt(file: seq<Byte>, c: Reader)
    requires Fresh(file, c, 0)
    ensures c.port in c.net.servers && c.net.servers[c.port] == c.block
  {
    assert c.net.servers[c.port] > 1 ==> Ack(c.port, c.net.servers[c.port] - 1) in c.net.acks;
  }

  /** tftpread succeeds when every block comes within its 100 time-outs, and the rest of the file stays in reach. */
  lemma {:induction false} ReadSucceeds(file: seq<Byte>, c: Reader, nb: nat)
    requires GoesWell(file, c) && BlockCount(file) < 0xffff
    ensures InBounds(c)
    ensures var r := ReadRun(file, c, nb); r.ok && GoesWell(file, r.c)
    decreases |c.script|, if c.start < c.end then 1 else 0, nb
  {
    hide InStep, Block, BlockCount, RefillRun, Ready, Copied, Connected, ReadRun, InBounds, FairFrom, RoundOf, GoesWell, Done, Fresh;
    WellIsOpened(file, c);
    OpenedInBounds(file, c, 0);
    ReadUnfolds(file, c, nb);
    if nb > 0 && c.start < c.end {
      var c1 := c.(foffs := c.foffs + |Copied(c, nb)|);
      WellAhead(file, c, |Copied(c, nb)|);
      if c1.foffs >= c1.end {
        RefillSucceeds(file, c1);
        ReadSucceeds(file, RefillRun(file, c1).c, nb - |Copied(c, nb)|);
      }
    }
  }

  lemma WellIsOpened(file: seq<Byte>, c: Reader)
    requires GoesWell(file, c)
    ensures Opened(file, c, 0)
  {
  }

  lemma WellAhead(file: seq<Byte>, c: Reader, n: nat)
    requires GoesWell(file, c)
    ensures GoesWell(file, c.(foffs := c.foffs + n))
  {
    hide InStep, Block, BlockCount, FairFrom;
  }

  lemma RefillSucceeds(file: seq<Byte>, c: Reader)
    requires GoesWell(file, c) && c.start < c.end <= c.foffs && BlockCount(file) < 0xffff
    ensures
      var g := RefillRun(file, c);
      g.n >= 0 && GoesWell(file, g.c)
  {
    hide InStep, Block, BlockCount, RefillRun, FairFrom;
    RefillMoves(file, c, 0);
    if c.eof {
      LastAcknowledged(file, c);
    } else {
      RoundDelivers(file, c);
    }
  }

  /** tftpopen succeeds when the first block comes within its 100 time-outs. */
  lemma OpenSucceeds(file: seq<Byte>, t: nat, script: seq<Action>)
    requires FairFrom(file, t, script, 1)
    ensures var g := OpenRun(file, FreshReader(script)); g.n == 0 && GoesWell(file, g.c)
  {
    hide RrqRun, InStep, Block, BlockCount, ServerStep, AllHarmless, FairFrom;
    BlockCountOf(file);
    var pre, p, rest := RoundParts(file, t, 1, script);
    var c := FreshReader(script);
    BlockLength(file, 1);
    AnyPort(pre, t, SERVER_PORT);
    ServerStarts(file, Sent(c, ReadRequest), pre, t);
    RrqProgress(file, c, ReadRequest, 0, pre, p, rest);
    OpenConnects(file, script);
  }

  /** Before the first block no packet is harmless, from whatever port. */
  lemma AnyPort(pre: seq<Action>, t: nat, port: nat)
    requires AllHarmless(pre, 1, t)
    ensures AllHarmless(pre, 1, port)
  {
    assert forall i | 0 <= i < |pre| :: Harmless(pre[i], 1, t) ==> Harmless(pre[i], 1, port);
  }

  // ---------------------------------------------------------------------------
  // A read that fails, and the next one: a block is skipped.

  /** Block 1 arrives; the reply to its acknowledgement is not waited for; the next read acknowledges block 2 unseen. */
  function Impatient(t: nat, a: seq<Byte>, d: seq<Byte>): (s: seq<Action>)
    ensures |s| == 6
  {
    [Spawn(t), Deliver(Data(t, 1, a)), GetAck(t, 1), Fail, GetAck(t, 2), Deliver(Data(t, 3, d))]
  }

  // The network after opening, after the read that fails, and after the next one.

  function NetOpened(t: nat, a: seq<Byte>): Network {
    Network(true, map[t := 1], {}, {Data(t, 1, a)})
  }

  function NetFailed(t: nat, a: seq<Byte>, b: seq<Byte>): Network {
    Network(true, map[t := 2], {Ack(t, 1)}, {Data(t, 1, a), Data(t, 2, b)})
  }

  function NetSkipped(t: nat, a: seq<Byte>, b: seq<Byte>, d: seq<Byte>): Network {
    Network(true, map[t := 3], {Ack(t, 1), Ack(t, 2)}, {Data(t, 1, a), Data(t, 2, b), Data(t, 3, d)})
  }

  lemma ThreeBlocks(a: seq<Byte>, b: seq<Byte>, d: seq<Byte>)
    requires |a| == |b| == SEGSIZE && 0 < |d| < SEGSIZE
    ensures BlockCount(a + b + d) == 3
    ensures Block(a + b + d, 1) == a && Block(a + b + d, 2) == b && Block(a + b + d, 3) == d
  {
    var file := a + b + d;
    assert |file| == 2 * SEGSIZE + |d|;
    assert file[0..SEGSIZE] == a && file[SEGSIZE..2 * SEGSIZE] == b && file[2 * SEGSIZE..] == d;
  }

  lemma OpenSelects(t: nat, a: seq<Byte>, b: seq<Byte>, d: seq<Byte>)
    requires |a| == |b| == SEGSIZE && 0 < |d| < SEGSIZE && t != SERVER_PORT
    ensures SelectRun(a + b + d, Network(true, map[], {}, {}), Impatient(t, a, d))
         == Selected(Packet(Data(t, 1, a)), NetOpened(t, a), Impatient(t, a, d)[2..])
  {
    ThreeBlocks(a, b, d);
    hide Block, BlockCount;
    var s := Impatient(t, a, d);
    assert s[1..][0] == s[1] && s[1..][1..] == s[2..];
    assert ServerStep(a + b + d, Network(true, map[], {}, {}), s[0]) == NetOpened(t, a);
  }

  lemma RefillSelects(t: nat, a: seq<Byte>, b: seq<Byte>, d: seq<Byte>)
    requires |a| == |b| == SEGSIZE && 0 < |d| < SEGSIZE
    ensures SelectRun(a + b + d, NetOpened(t, a).(acks := {Ack(t, 1)}), Impatient(t, a, d)[2..])
         == Selected(Failure, NetFailed(t, a, b), Impatient(t, a, d)[4..])
  {
    ThreeBlocks(a, b, d);
    hide Block, BlockCount;
    var s := Impatient(t, a, d)[2..];
    assert s[0] == GetAck(t, 1) && s[1..][0] == Fail && s[1..][1..] == Impatient(t, a, d)[4..];
    assert ServerStep(a + b + d, NetOpened(t, a).(acks := {Ack(t, 1)}), s[0]) == NetFailed(t, a, b);
  }

  lemma SkipSelects(t: nat, a: seq<Byte>, b: seq<Byte>, d: seq<Byte>)
    requires |a| == |b| == SEGSIZE && 0 < |d| < SEGSIZE
    ensures SelectRun(a + b + d, NetFailed(t, a, b).(acks := {Ack(t, 1), Ack(t, 2)}), Impatient(t, a, d)[4..])
         == Selected(Packet(Data(t, 3, d)), NetSkipped(t, a, b, d), [])
  {
    ThreeBlocks(a, b, d);
    hide Block, BlockCount;
    var s := Impatient(t, a, d)[4..];
    assert s == [GetAck(t, 2), Deliver(Data(t, 3, d))];
    assert s[1..][0] == s[1] && s[1..][1..] == [];
    assert ServerStep(a + b + d, NetFailed(t, a, b).(acks := {Ack(t, 1), Ack(t, 2)}), s[0]) == NetSkipped(t, a, b, d);
  }

  /** The reader after opening, after the failed read of the first block, and after the read behind it. */
  function ReaderOpened(t: nat, a: seq<Byte>, d: seq<Byte>): Reader
    requires |a| == SEGSIZE
  {
    Reader(NetOpened(t, a), Impatient(t, a, d)[2..], t, 1, false, 0, SEGSIZE, 0, a)
  }

  function ReaderFailed(t: nat, a: seq<Byte>, b: seq<Byte>, d: seq<Byte>): Reader
    requires |a| == SEGSIZE
  {
    Reader(NetFailed(t, a, b), Impatient(t, a, d)[4..], t, 2, false, 0, SEGSIZE, SEGSIZE, a)
  }

  lemma OpensFirst(t: nat, a: seq<Byte>, b: seq<Byte>, d: seq<Byte>)
    requires |a| == |b| == SEGSIZE && 0 < |d| < SEGSIZE && t != SERVER_PORT
    ensures OpenRun(a + b + d, FreshReader(Impatient(t, a, d))) == Got(0, ReaderOpened(t, a, d))
  {
    hide SelectRun, Impatient;
    OpenSelects(t, a, b, d);
    var c := FreshReader(Impatient(t, a, d));
    assert Sent(c, ReadRequest) == Network(true, map[], {}, {});
    assert Received(c.buf, a) == a;
  }

  lemma FirstReadFails(t: nat, a: seq<Byte>, b: seq<Byte>, d: seq<Byte>)
    requires |a| == |b| == SEGSIZE && 0 < |d| < SEGSIZE
    ensures ReadRun(a + b + d, ReaderOpened(t, a, d), SEGSIZE) == Outcome(false, a, ReaderFailed(t, a, b, d))
  {
    hide SelectRun, Impatient;
    RefillSelects(t, a, b, d);
    var c := ReaderOpened(t, a, d);
    assert c.buf[0..SEGSIZE] == a;
    assert Copied(c, SEGSIZE) == a;
    var c1 := c.(foffs := SEGSIZE);
    assert Sent(c1.(block := 2), Acknowledge(1)) == NetOpened(t, a).(acks := {Ack(t, 1)});
    assert RrqRun(a + b + d, c1.(block := 2), Acknowledge(1), 0) == Got(-1, ReaderFailed(t, a, b, d));
    assert RefillRun(a + b + d, c1) == Got(-1, ReaderFailed(t, a, b, d));
    hide ReadRun, RefillRun, RrqRun, Copied;
    ReadUnfolds(a + b + d, c, SEGSIZE);
  }

  /** The read behind it takes block 3 for block 2. */
  lemma RefillSkips(t: nat, a: seq<Byte>, b: seq<Byte>, d: seq<Byte>)
    requires |a| == |b| == SEGSIZE && 0 < |d| < SEGSIZE
    ensures
      var g := RefillRun(a + b + d, ReaderFailed(t, a, b, d));
      && g.n == |d| && g.c.eof && g.c.block == 3 && g.c.port == t && g.c.script == [] && g.c.buf[..|d|] == d
      && g.c.start == SEGSIZE == g.c.foffs && g.c.end == SEGSIZE + |d| && g.c.net == NetSkipped(t, a, b, d)
  {
    hide SelectRun, Impatient;
    SkipSelects(t, a, b, d);
    var c := ReaderFailed(t, a, b, d);
    assert Sent(c.(block := 3), Acknowledge(2)) == NetFailed(t, a, b).(acks := {Ack(t, 1), Ack(t, 2)});
    assert Received(c.buf, d)[..|d|] == d;
  }

  /**
   Open and two reads of a file of three blocks. The first delivers block 1 and returns -1; the caller
   that reads on gets block 3 in the place of block 2, and the end of the file.
   */
  lemma SkippedBlock(t: nat, a: seq<Byte>, b: seq<Byte>, d: seq<Byte>)
    requires |a| == |b| == SEGSIZE && 0 < |d| < SEGSIZE && t != SERVER_PORT
    ensures
      var file := a + b + d;
      var o := OpenRun(file, FreshReader(Impatient(t, a, d)));
      && o.n == 0 && InBounds(o.c)
      && var r1 := ReadRun(file, o.c, SEGSIZE);
         && !r1.ok && r1.out == a && InBounds(r1.c)
         && var r2 := ReadRun(file, r1.c, SEGSIZE);
            r2.ok && r2.out == d && r2.c.foffs == SEGSIZE + |d| && r2.c.eof
  {
    var file := a + b + d;
    OpensFirst(t, a, b, d);
    FirstReadFails(t, a, b, d);
    RefillSkips(t, a, b, d);
    hide OpenRun, RrqRun, RefillRun, SelectRun, ReadRun;
    var c := ReaderFailed(t, a, b, d);
    ReadUnfolds(file, c, SEGSIZE);
    var g := RefillRun(file, c);
    LastRead(file, g.c, d);
    assert [] + d == d;
  }

  /** At the end of the file what the buffer has is delivered. */
  lemma LastRead(file: seq<Byte>, c: Reader, d: seq<Byte>)
    requires InBounds(c) && c.eof && c.foffs == c.start == SEGSIZE && c.end == c.start + |d| && 0 < |d| < SEGSIZE && c.buf[..|d|] == d
    ensures
      var r := ReadRun(file, c, SEGSIZE);
      r.ok && r.out == d && r.c.foffs == c.foffs + |d| && r.c.eof
  {
    hide RefillRun, ReadRun;
    ReadUnfolds(file, c, SEGSIZE);
    var c1 := c.(foffs := c.foffs + |d|);
    assert Copied(c, SEGSIZE) == d;
    EndRefills(file, c1);
    var g := RefillRun(file, c1);
    ReadUnfolds(file, g.c, SEGSIZE - |d|);
    assert d + [] == d;
  }

  lemma EndRefills(file: seq<Byte>, c: Reader)
    requires |c.buf| == SEGSIZE && c.start <= c.end && c.eof
    ensures RefillRun(file, c).n == 0 && RefillRun(file, c).c.eof && RefillRun(file, c).c.start == RefillRun(file, c).c.end
  {
  }

  // ---------------------------------------------------------------------------
  // The client working in place.

  class TftpFile {
    const file: seq<Byte>  // what the servers hold
    var net: Network
    var script: seq<Action>
    var port: nat
    var block: nat
    var eof: bool
    var start: nat
    var end: nat
    var foffs: nat
    var buf: seq<Byte>

    function State(): Reader
      reads this
    {
      Reader(net, script, port, block, eof, start, end, foffs, buf)
    }

    constructor (file: seq<Byte>, script: seq<Action>)
      ensures this.file == file && State() == FreshReader(script)
    {
      this.file, this.script := file, script;
      net := Network(false, map[], {}, {});
      port, block, eof, start, end, foffs, buf := SERVER_PORT, 1, false, 0, 0, 0, seq(SEGSIZE, _ => 0);
    }

    /** select and recvfrom, lines 178-216. */
    method Select() returns (ev: Event)
      modifies `net, `script
      ensures SelectRun(file, old(net), old(script)) == Selected(ev, net, script)
    {
      ghost var r := SelectRun(file, net, script);
      while script != []
        invariant SelectRun(file, net, script) == r
        decreases |script|
      {
        var a := script[0];
        net, script := ServerStep(file, net, a), script[1..];
        match a
        case Deliver(p) =>
          if p in net.data {
            return Packet(p);
          }
        case DeliverError(from) => return ErrorPacket(from);
        case Expire => return Timeout;
        case Fail => return Failure;
        case _ =>
      }
      return Failure;
    }

    /** Lines 184-259; n is the result when there is nothing more to send. */
    method HandleEvent(ev: Event, rexmt: nat) returns (stop: bool, n: int, again: nat)
      requires |buf| == SEGSIZE
      modifies `port, `eof, `buf
      ensures Handle(old(State()), ev, rexmt) == if stop then Stop(Got(n, State())) else Again(State(), again)
    {
      stop, n, again := true, -1, rexmt;
      match ev
      case Failure =>
      case Timeout =>
        again := again + 1;
        if again <= MAXREXMT {
          if again > 100 {
            n := -2;
          } else {
            stop := false;
          }
        }
      case ErrorPacket(from) =>
        if block <= 1 {
          port := from;
        } else if from != port {
          stop := false;
        }
      case Packet(p) =>
        buf := Received(buf, p.bytes);
        if block <= 1 {
          port := p.from;
        } else if p.from != port {
          stop := false;
          return;
        }
        if p.block == block {
          n := Min(|p.bytes|, SEGSIZE);
          eof := n < SEGSIZE;
        } else if p.block == block - 1 {
          stop := false;
        }
    }

    /** tftprrq, lines 153-262. */
    method Rrq(req: Request) returns (n: int)
      requires |buf| == SEGSIZE
      modifies `net, `script, `port, `eof, `buf
      ensures RrqRun(file, old(State()), req, 0) == Got(n, State())
    {
      hide SelectRun, Handle;
      ghost var r := RrqRun(file, State(), req, 0);
      var rexmt: nat := 0;
      while true
        invariant |buf| == SEGSIZE && RrqRun(file, State(), req, rexmt) == r
        decreases |script|
      {
        match req {
          case ReadRequest => net := net.(requested := net.requested || port == SERVER_PORT);
          case Acknowledge(b) => net := net.(acks := net.acks + {Ack(port, b)});
        }
        if eof {
          return 0;
        }
        var ev := Select();
        var stop;
        stop, n, rexmt := HandleEvent(ev, rexmt);
        if stop {
          return;
        }
      }
    }

    /** tftpopen, lines 449-459. */
    method Open() returns (r: int)
      requires |buf| == SEGSIZE
      modifies `net, `script, `port, `eof, `buf, `end
      ensures OpenRun(file, old(State())) == Got(r, State())
    {
      var size := Rrq(ReadRequest);
      if size < 0 {
        return -1;
      }
      end := start + size;
      return 0;
    }

    /** Lines 509-524. */
    method Refill() returns (n: int)
      requires |buf| == SEGSIZE && start <= end
      modifies `net, `script, `port, `eof, `buf, `block, `start, `end
      ensures RefillRun(file, old(State())) == Got(n, State())
    {
      var ack := Acknowledge(block);
      block := (block + 1) % 0x1_0000;
      n := Rrq(ack);
      if n >= 0 {
        start := end;
        end := start + n;
      }
    }

    /** tftpread, lines 477-528. */
    method Read(nread: nat) returns (r: int, out: seq<Byte>)
      requires InBounds(State())
      modifies this
      ensures ReadRun(file, old(State()), nread) == Outcome(r >= 0, out, State())
      ensures r == if r >= 0 then |out| else -1
    {
      hide RefillRun, RrqRun, Copied, ReadRun, Prepend;
      var nb: nat := nread;
      out := [];
      ghost var run := ReadRun(file, State(), nread);
      PrependMore([], [], run);
      while nb != 0 && start < end
        invariant InBounds(State()) && nb == nread - |out|
        invariant run == Prepend(out, ReadRun(file, State(), nb))
        decreases |script|, if start < end then 1 else 0, nb
      {
        ReadUnfolds(file, State(), nb);
        ghost var c := State();
        var piece := Copied(State(), nb);
        foffs := foffs + |piece|;
        ghost var c1 := State();
        assert c1 == c.(foffs := c.foffs + |piece|);
        if foffs < end {
          PrependMore(out, piece, Outcome(true, [], c1));
          return nread - nb + |piece|, out + piece;
        }
        var n := Refill();
        if n < 0 {
          PrependMore(out, piece, Outcome(false, [], State()));
          return -1, out + piece;
        }
        nb := nb - |piece|;
        PrependMore(out, piece, ReadRun(file, State(), nb));
        out := out + piece;
      }
      ReadUnfolds(file, State(), nb);
      PrependMore(out, [], Outcome(true, [], State()));
      assert out + [] == out;
      r := nread - nb;
    }

    /** tftplseek on a file open for reading, lines 572-612. */
    method Seek(offs: int, fromCurrent: bool) returns (r: int)
      modifies `foffs
      ensures SeekRun(old(State()), offs, fromCurrent) == Got(r, State())
    {
      var noffs := if fromCurrent then foffs + offs else offs;
      if noffs < start {
        return -1;
      }
      foffs := noffs;
      return foffs;
    }
  }

  // ---------------------------------------------------------------------------
  // Callers.

  /**
   The download loop of os/filesys/filesys.c:250-280, which stops at the first failed read: a completed
   download is the file, and a broken one is a prefix of it. It is completed when every block comes within
   its 100 time-outs.
   */
  method Download(file: seq<Byte>, script: seq<Action>, chunk: nat) returns (ok: bool, got: seq<Byte>)
    requires BlockCount(file) < 0xffff && chunk > 0
    ensures got <= file && (ok ==> got == file)
    ensures (exists t :: FairFrom(file, t, script, 1)) ==> ok
  {
    hide Block, BlockCount, Opened, ReadRun, OpenRun, RrqRun, Stale, FairFrom, GoesWell;
    var f := new TftpFile(file, script);
    OpenConnects(file, script);
    ghost var fair := exists t :: FairFrom(file, t, script, 1);
    if fair {
      var t :| FairFrom(file, t, script, 1);
      OpenSucceeds(file, t, script);
    }
    got := [];
    var r := f.Open();
    if r < 0 {
      return false, [];
    }
    IsOpened(file, f.State(), 0);
    while true
      invariant Opened(file, f.State(), 0) && f.file == file && fresh(f)
      invariant f.foffs == |got| && got <= file
      invariant fair ==> GoesWell(file, f.State())
      decreases |file| - |got|
    {
      if fair {
        ReadSucceeds(file, f.State(), chunk);
      }
      ReadDelivers(file, f.State(), chunk, 0);
      var n, piece := f.Read(chunk);
      if piece != [] {
        assert file[|got|..][..|piece|] == file[|got|..|got| + |piece|];
      }
      got := got + piece;
      if n < 0 {
        return false, got;
      }
      if n < 1 {
        return true, got;
      }
    }
  }

  /** One call of tftpread: its result, the offset it began at, how many reads had failed before, what it delivered. */
  datatype Answer = Answer(result: int, at: nat, lost: nat, out: seq<Byte>)

  /** How many of the answers are failures. */
  function Failures(rs: seq<Answer>): nat {
    if rs == [] then 0 else Failures(rs[..|rs| - 1]) + if rs[|rs| - 1].result == -1 then 1 else 0
  }

  ghost predicate Placed(file: seq<Byte>, sizes: seq<nat>, rs: seq<Answer>, k: nat)
    requires |rs| <= |sizes|
  {
    k < |rs| ==>
      && rs[k].lost == Failures(rs[..k]) && Delivers(file, rs[k].at, rs[k].lost, rs[k].out)
      && rs[k].at == (if k == 0 then 0 else rs[k - 1].at + |rs[k - 1].out|)
      && (rs[k].result == -1 || rs[k].result == |rs[k].out| == Available(file, rs[k].at + SEGSIZE * rs[k].lost, sizes[k]))
  }

  /**
   A caller that reads on whatever the results are. Each read delivers the file's bytes from its offset
   plus 512 for every earlier read that returned -1: in their place exactly as long as none has.
   */
  method ReadOn(file: seq<Byte>, script: seq<Action>, sizes: seq<nat>) returns (isOpen: bool, rs: seq<Answer>)
    requires BlockCount(file) + |sizes| < 0xffff
    ensures |rs| == if isOpen then |sizes| else 0
    ensures forall k: nat :: Placed(file, sizes, rs, k)
  {
    hide Block, BlockCount, Opened, ReadRun, OpenRun, RrqRun, Stale, Fresh, Available, Delivers;
    var f := new TftpFile(file, script);
    OpenConnects(file, script);
    rs := [];
    var o := f.Open();
    isOpen := o >= 0;
    if !isOpen {
      return;
    }
    IsOpened(file, f.State(), 0);
    BeforeReads(file, f.State());
    var lost: nat := 0;
    for k := 0 to |sizes|
      invariant |rs| == k && lost <= k && lost == Failures(rs) && fresh(f) && f.file == file
      invariant Opened(file, f.State(), lost)
      invariant f.foffs == if k == 0 then 0 else rs[k - 1].at + |rs[k - 1].out|
      invariant forall j: nat :: Placed(file, sizes, rs, j)
    {
      ReadDelivers(file, f.State(), sizes[k], lost);
      ghost var before, was := rs, f.State();
      var at := f.foffs;
      var n, out := f.Read(sizes[k]);
      AfterRead(file, was, sizes[k], lost);
      var a := Answer(n, at, lost, out);
      rs := rs + [a];
      assert rs[..k] == before;
      forall j: nat
        ensures Placed(file, sizes, rs, j)
      {
        assert Placed(file, sizes, before, j);
        if j < k {
          assert rs[..j] == before[..j];
        }
      }
      if n == -1 {
        lost := lost + 1;
      }
    }
  }

  lemma BeforeReads(file: seq<Byte>, c: Reader)
    requires Fresh(file, c, 0)
    ensures InBounds(c)
  {
    OpenedInBounds(file, c, 0);
  }

  lemma AfterRead(file: seq<Byte>, c: Reader, nb: nat, lost: nat)
    requires InBounds(c) && Reads(file, c, nb, lost, ReadRun(file, c, nb))
    ensures
      var r := ReadRun(file, c, nb);
      && Delivers(file, c.foffs, lost, r.out) && Opened(file, r.c, if r.ok then lost else lost + 1)
      && r.c.foffs == c.foffs + |r.out| && (r.ok ==> |r.out| == Available(file, c.foffs + SEGSIZE * lost, nb))
  {
  }

  /** A slice of a block is the corresponding slice of the file. */
  lemma BlockSlice(file: seq<Byte>, n: nat, i: nat, len: nat)
    requires 1 <= n <= BlockCount(file) && i + len <= |Block(file, n)|
    ensures (n - 1) * SEGSIZE + i + len <= |file|
    ensures Block(file, n)[i..i + len] == file[(n - 1) * SEGSIZE + i..(n - 1) * SEGSIZE + i + len]
  {
    var from, b := (n - 1) * SEGSIZE, Block(file, n);
    assert b == file[from..from + |b|];
    SliceOfSlice(file, from, from + |b|, i, len);
  }

  lemma SliceOfSlice(s: seq<Byte>, from: nat, to: nat, i: nat, len: nat)
    requires from <= to <= |s| && i + len <= to - from
    ensures s[from..to][i..i + len] == s[from + i..from + i + len]
  {
    var a, b := s[from..to][i..i + len], s[from + i..from + i + len];
    forall k | 0 <= k < len
      ensures a[k] == b[k]
    {
    }
    assert |a| == |b|;
  }

  /** Where a block ends. */
  lemma BlockEnd(file: seq<Byte>, n: nat)
    requires 1 <= n <= BlockCount(file)
    ensures (n - 1) * SEGSIZE + |Block(file, n)| == if n == BlockCount(file) then |file| else n * SEGSIZE
  {
  }
}
