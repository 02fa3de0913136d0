/**
 The TFTP write client of os/filesys/tftplib.c against RFC 1350 servers, over a network that may
 drop, duplicate and reorder. A script fixes what servers and network do.
 */
module TftpWrite {

  import opened Base

  // ---------------------------------------------------------------------------
  // Servers and network.

  datatype Data = Data(to: nat, block: nat, bytes: seq<Byte>)

  datatype Ack = Ack(from: nat, block: nat)

  /** A server's end of the transfer: the last block it took, what it stored, whether that was the end. */
  datatype Server = Server(last: nat, stored: seq<Byte>, done: bool)

  datatype Network = Network(requested: bool, servers: map<nat, Server>, data: set<Data>, acks: set<Ack>)

  datatype Action =
    | Spawn(tid: nat)                    // a server answers the write request from a new port
    | GetData(packet: Data)              // a server receives a data packet
    | Deliver(ack: Ack)                  // the client receives an acknowledgement
    | DeliverError(from: nat)            // the client receives an error packet
    | Expire                             // the client's wait times out
    | Fail                               // sendto, select or recvfrom fails

  datatype Event = Acked(ack: Ack) | ErrorPacket(from: nat) | Timeout | Failure

  /** Sections 2 and 6 of RFC 1350: a server takes the next block only, and a short block ends the transfer. */
  function ServerStep(net: Network, a: Action): Network {
    match a
    case Spawn(tid) =>
      if net.requested && tid !in net.servers && tid != SERVER_PORT then
        net.(servers := net.servers[tid := Server(0, [], false)], acks := net.acks + {Ack(tid, 0)})
      else net
    case GetData(d) =>
      if d in net.data && d.to in net.servers && d.block == net.servers[d.to].last + 1 && !net.servers[d.to].done then
        var s := net.servers[d.to];
        net.(servers := net.servers[d.to := Server(d.block, s.stored + d.bytes, |d.bytes| < SEGSIZE)],
             acks := net.acks + {Ack(d.to, d.block)})
      else net
    case _ => net
  }

  // ---------------------------------------------------------------------------
  // The blocks the client has sent, and what the servers made of them.

  function Concat(blocks: seq<seq<Byte>>): seq<Byte> {
    if blocks == [] then [] else Concat(blocks[..|blocks| - 1]) + blocks[|blocks| - 1]
  }

  lemma {:induction false} ConcatPrefix(blocks: seq<seq<Byte>>, n: nat)
    requires n <= |blocks|
    ensures Concat(blocks[..n]) <= Concat(blocks)
    decreases |blocks|
  {
    if n < |blocks| {
      var rest := blocks[..|blocks| - 1];
      ConcatPrefix(rest, n);
      assert rest[..n] == blocks[..n];
    } else {
      assert blocks[..n] == blocks;
    }
  }

  /** Server t took a prefix of the blocks; only the peer took any; it is done when it took a short one. */
  predicate TookPrefix(net: Network, port: nat, blocks: seq<seq<Byte>>, t: nat) {
    t in net.servers ==>
      var s := net.servers[t];
      && t != SERVER_PORT && s.last <= |blocks| && s.stored == Concat(blocks[..s.last]) && (t != port ==> s.last == 0)
      && (s.done <==> s.last > 0 && |blocks[s.last - 1]| < SEGSIZE)
  }

  ghost predicate InStep(net: Network, port: nat, blocks: seq<seq<Byte>>) {
    && (forall d | d in net.data :: d.to == port && 1 <= d.block <= |blocks| && d.bytes == blocks[d.block - 1])
    && (forall t :: TookPrefix(net, port, blocks, t))
    && (forall a | a in net.acks :: a.from in net.servers && a.block <= net.servers[a.from].last)
  }

  lemma ServerKeepsStep(net: Network, a: Action, port: nat, blocks: seq<seq<Byte>>)
    requires InStep(net, port, blocks)
    ensures InStep(ServerStep(net, a), port, blocks)
    ensures ServerStep(net, a).data == net.data
    ensures forall t | t in net.servers :: t in ServerStep(net, a).servers && ServerStep(net, a).servers[t].last >= net.servers[t].last
  {
    var r := ServerStep(net, a);
    forall t
      ensures TookPrefix(r, port, blocks, t)
    {
      assert TookPrefix(net, port, blocks, t);
      if a.GetData? && a.packet.to == t && r != net {
        var n := net.servers[t].last;
        assert blocks[..n + 1][..n] == blocks[..n];
      } else if a.Spawn? && a.tid == t && r != net {
        assert blocks[..0] == [];
      }
    }
  }

  /** Before anything was sent any port may become the peer. */
  lemma PeerChosen(net: Network, port: nat, port': nat)
    requires InStep(net, port, []) && net.data == {}
    ensures InStep(net, port', [])
  {
    forall t
      ensures TookPrefix(net, port', [], t)
    {
      assert TookPrefix(net, port, [], t);
    }
  }

  /** A new block is on its way. */
  lemma BlockAdded(net: Network, port: nat, blocks: seq<seq<Byte>>, b: seq<Byte>)
    requires InStep(net, port, blocks)
    ensures InStep(net, port, blocks + [b])
  {
    forall t
      ensures TookPrefix(net, port, blocks + [b], t)
    {
      assert TookPrefix(net, port, blocks, t);
      if t in net.servers {
        assert (blocks + [b])[..net.servers[t].last] == blocks[..net.servers[t].last];
      }
    }
  }

  lemma BlockSent(net: Network, port: nat, blocks: seq<seq<Byte>>)
    requires InStep(net, port, blocks) && blocks != []
    ensures InStep(net.(data := net.data + {Data(port, |blocks|, blocks[|blocks| - 1])}), port, blocks)
  {
    var r := net.(data := net.data + {Data(port, |blocks|, blocks[|blocks| - 1])});
    forall t
      ensures TookPrefix(r, port, blocks, t)
    {
      assert TookPrefix(net, port, blocks, t);
    }
  }

  /** The peer has taken every block sent. */
  predicate AllTaken(net: Network, port: nat, blocks: seq<seq<Byte>>) {
    port in net.servers && net.servers[port].last == |blocks|
  }

  /** An acknowledgement of the last block means that everything sent is stored. */
  lemma AckMeansStored(net: Network, port: nat, blocks: seq<seq<Byte>>, a: Ack)
    requires InStep(net, port, blocks) && a in net.acks && a.from == port && a.block == |blocks|
    ensures AllTaken(net, port, blocks) && net.servers[port].stored == Concat(blocks)
  {
    assert TookPrefix(net, port, blocks, port);
    assert blocks[..|blocks|] == blocks;
  }

  /** What a server stores is always a prefix of what was sent. */
  lemma StoredIsPrefix(net: Network, port: nat, blocks: seq<seq<Byte>>, t: nat)
    requires InStep(net, port, blocks) && t in net.servers
    ensures net.servers[t].stored <= Concat(blocks)
  {
    assert TookPrefix(net, port, blocks, t);
    ConcatPrefix(blocks, net.servers[t].last);
  }

  /** Client and peer are at most one block apart once all blocks but the last are known to be taken. */
  lemma AtMostOneApart(net: Network, port: nat, blocks: seq<seq<Byte>>, b: seq<Byte>)
    requires InStep(net, port, blocks + [b]) && port in net.servers && net.servers[port].last >= |blocks|
    ensures |blocks| <= net.servers[port].last <= |blocks| + 1
    ensures forall t | t in net.servers && t != port :: net.servers[t].stored == []
  {
    assert TookPrefix(net, port, blocks + [b], port);
    forall t | t in net.servers && t != port
      ensures net.servers[t].stored == []
    {
      assert TookPrefix(net, port, blocks + [b], t);
      assert (blocks + [b])[..0] == [];
    }
  }

  // ---------------------------------------------------------------------------
  // The client's calls as functions of its state and of what servers and network will do.

  /** struct tftpfile with its socket; `blocks` records the blocks sent so far. */
  datatype Client = Client(net: Network, script: seq<Action>, port: nat, block: nat, end: nat, foffs: nat,
                           buf: seq<Byte>, blocks: seq<seq<Byte>>)

  datatype Selected = Selected(ev: Event, net: Network, script: seq<Action>)

  datatype Outcome = Outcome(ok: bool, c: Client)

  /** select and recvfrom, lines 288-315: servers and network act until something reaches the client. */
  function SelectRun(net: Network, script: seq<Action>): (r: Selected)
    ensures |r.script| <= |script| && (r.ev != Failure ==> |r.script| < |script|)
    decreases |script|
  {
    if script == [] then Selected(Failure, net, [])
    else
      var net', rest := ServerStep(net, script[0]), script[1..];
      match script[0]
      case Deliver(k) => if k in net'.acks then Selected(Acked(k), net', rest) else SelectRun(net', rest)
      case DeliverError(from) => Selected(ErrorPacket(from), net', rest)
      case Expire => Selected(Timeout, net', rest)
      case Fail => Selected(Failure, net', rest)
      case _ => SelectRun(net', rest)
  }

  /** sendto, line 282: the write request, or the current block. */
  function Sent(c: Client, size: nat): Network
    requires size <= |c.buf|
  {
    if c.block == 0 then c.net.(requested := c.net.requested || c.port == SERVER_PORT)
    else c.net.(data := c.net.data + {Data(c.port, c.block, c.buf[..size])})
  }

  /** tftpwrq, lines 266-356: send until the block is acknowledged. */
  function WrqRun(c: Client, size: nat, rexmt: nat): (r: Outcome)
    requires size <= |c.buf|
    ensures r.c == c.(net := r.c.net, script := r.c.script, port := r.c.port) && (c.block > 0 ==> r.c.port == c.port)
    decreases |c.script|
  {
    var s := SelectRun(Sent(c, size), c.script);
    var c1 := c.(net := s.net, script := s.script);
    match s.ev
    case Failure => Outcome(false, c1)
    case Timeout => if rexmt + 1 > MAXREXMT then Outcome(false, c1) else WrqRun(c1, size, rexmt + 1)
    case ErrorPacket(from) =>
      if c.block == 0 then Outcome(false, c1.(port := from))
      else if from != c.port then WrqRun(c1, size, rexmt)
      else Outcome(false, c1)
    case Acked(k) =>
      if c.block > 0 && k.from != c.port then WrqRun(c1, size, rexmt)
      else
        var c2 := c1.(port := k.from);
        if k.block == c.block then Outcome(true, c2)
        else if k.block != c.block - 1 then Outcome(false, c2)
        else WrqRun(c2, size, rexmt)
  }

  /** Lines 560-563, 636-639 and 643-646: the first bytes of the buffer go out as the next block. */
  function FlushRun(c: Client, size: nat): (r: Outcome)
    requires size <= |c.buf|
  {
    WrqRun(c.(block := (c.block + 1) % 0x1_0000, blocks := c.blocks + [c.buf[..size]]), size, 0)
  }

  /** Bytes copied in behind the end. */
  function Filled(c: Client, data: seq<Byte>): Client
    requires c.end + |data| <= |c.buf|
  {
    c.(buf := c.buf[..c.end] + data + c.buf[c.end + |data|..], end := c.end + |data|, foffs := c.foffs + |data|)
  }

  /** How much of the data one round of tftpwrite takes, lines 549-550. */
  function Piece(c: Client, data: seq<Byte>): (n: nat)
    requires c.end <= SEGSIZE
    ensures n <= |data| && c.end + n <= SEGSIZE
  {
    Min(SEGSIZE - c.end, |data|)
  }

  /** tftpwrite, lines 530-570. */
  function WriteRun(c: Client, data: seq<Byte>): Outcome
    requires |c.buf| == SEGSIZE && c.end <= SEGSIZE
    decreases |data|, c.end
  {
    if data == [] then Outcome(true, c)
    else
      var n := Piece(c, data);
      var c1 := Filled(c, data[..n]);
      if c1.end < SEGSIZE then WriteRun(c1, data[n..])
      else
        var f := FlushRun(c1, SEGSIZE);
        if f.ok then WriteRun(f.c.(end := 0), data[n..]) else f
  }

  /** tftpclose of a file open for writing, lines 632-648; its result is 0 whatever becomes of the blocks. */
  function CloseRun(c: Client): Outcome
    requires |c.buf| == SEGSIZE && c.end <= SEGSIZE
  {
    var f := FlushRun(c, c.end);
    if f.ok && c.end == SEGSIZE then Outcome(true, FlushRun(f.c, 0).c) else f
  }

  function FreshClient(script: seq<Action>): Client {
    Client(Network(false, map[], {}, {}), script, SERVER_PORT, 0, 0, 0, seq(SEGSIZE, _ => 0), [])
  }

  // ---------------------------------------------------------------------------
  // What the calls keep.

  /** The blocks on their way are known to the network; block counts them. */
  ghost predicate Connected(c: Client) {
    && |c.buf| == SEGSIZE && c.end <= SEGSIZE && c.block == |c.blocks| <= 0xffff && InStep(c.net, c.port, c.blocks)
    && (c.block == 0 ==> c.net.data == {})
  }

  predicate FullBlocks(blocks: seq<seq<Byte>>) {
    forall i | 0 <= i < |blocks| :: |blocks[i]| == SEGSIZE
  }

  /** No call has failed: all blocks are full and taken, and the buffer holds the rest of what was written. */
  ghost predicate Valid(c: Client, written: seq<Byte>) {
    && Connected(c) && AllTaken(c.net, c.port, c.blocks) && FullBlocks(c.blocks)
    && c.end < SEGSIZE && c.foffs == |written| && written == Concat(c.blocks) + c.buf[..c.end]
  }

  /** What a failed tftpwrite leaves: the last block is still in the buffer, taken by the peer or not. */
  ghost predicate Failed(c: Client, written: seq<Byte>) {
    && Connected(c) && FullBlocks(c.blocks) && c.end == SEGSIZE && c.blocks != [] && c.blocks[|c.blocks| - 1] == c.buf
    && c.port in c.net.servers && c.foffs == |written| && written == Concat(c.blocks)
  }

  /** Servers are never forgotten. */
  predicate Grows(net: Network, net': Network) {
    forall t | t in net.servers :: t in net'.servers
  }

  lemma {:induction false} SelectKeeps(net: Network, script: seq<Action>, port: nat, blocks: seq<seq<Byte>>)
    requires InStep(net, port, blocks)
    ensures
      var r := SelectRun(net, script);
      InStep(r.net, port, blocks) && r.net.data == net.data && Grows(net, r.net) && (r.ev.Acked? ==> r.ev.ack in r.net.acks)
    decreases |script|
  {
    hide InStep;
    if script != [] {
      ServerKeepsStep(net, script[0], port, blocks);
      SelectKeeps(ServerStep(net, script[0]), script[1..], port, blocks);
    }
  }

  lemma SentKeeps(c: Client, size: nat)
    requires Connected(c) && size <= |c.buf| && (c.block > 0 ==> c.blocks[c.block - 1] == c.buf[..size])
    ensures InStep(Sent(c, size), c.port, c.blocks) && Sent(c, size).servers == c.net.servers
    ensures c.block == 0 ==> Sent(c, size).data == {}
  {
    hide InStep;
    if c.block == 0 {
      RequestKeepsStep(c.net, c.port, c.blocks);
    } else {
      BlockSent(c.net, c.port, c.blocks);
    }
  }

  /** A block reported as sent has been taken by the peer. */
  lemma {:induction false} WrqKeeps(c: Client, size: nat, rexmt: nat)
    requires Connected(c) && size <= |c.buf| && (c.block > 0 ==> c.blocks[c.block - 1] == c.buf[..size])
    ensures
      var r := WrqRun(c, size, rexmt);
      Connected(r.c) && Grows(c.net, r.c.net) && (r.ok ==> AllTaken(r.c.net, r.c.port, r.c.blocks))
    decreases |c.script|
  {
    hide InStep, AllTaken, SelectRun;
    var s := SelectRun(Sent(c, size), c.script);
    var c1 := c.(net := s.net, script := s.script);
    SentKeeps(c, size);
    SelectKeeps(Sent(c, size), c.script, c.port, c.blocks);
    match s.ev
    case Failure =>
    case Timeout => WrqKeeps(c1, size, rexmt + 1);
    case ErrorPacket(from) =>
      if c.block == 0 {
        PeerChosen(c1.net, c.port, from);
      } else if from != c.port {
        WrqKeeps(c1, size, rexmt);
      }
    case Acked(k) =>
      if c.block > 0 && k.from != c.port {
        WrqKeeps(c1, size, rexmt);
      } else {
        var c2 := c1.(port := k.from);
        if c.block == 0 {
          PeerChosen(c1.net, c.port, k.from);
        }
        if k.block == c.block {
          AckMeansStored(c2.net, c2.port, c2.blocks, k);
        } else {
          WrqKeeps(c2, size, rexmt);
        }
      }
  }

  lemma FlushKeeps(c: Client, size: nat)
    requires Connected(c) && c.block < 0xffff && size <= SEGSIZE
    ensures
      var r := FlushRun(c, size);
      && Connected(r.c) && r.c.blocks == c.blocks + [c.buf[..size]] && r.c.buf == c.buf && r.c.end == c.end && r.c.foffs == c.foffs
      && r.c.port == c.port && Grows(c.net, r.c.net) && (r.ok ==> AllTaken(r.c.net, r.c.port, r.c.blocks))
  {
    hide InStep, WrqRun, AllTaken;
    var c1 := c.(block := (c.block + 1) % 0x1_0000, blocks := c.blocks + [c.buf[..size]]);
    BlockAdded(c.net, c.port, c.blocks, c.buf[..size]);
    WrqKeeps(c1, size, 0);
  }

  /** tftpopen for writing: a peer is chosen and nothing is written yet. */
  lemma OpenKeeps(script: seq<Action>)
    ensures
      var r := WrqRun(FreshClient(script), 0, 0);
      Connected(r.c) && r.c.blocks == [] && (r.ok ==> Valid(r.c, []))
  {
    hide WrqRun;
    var c := FreshClient(script);
    assert forall t :: TookPrefix(c.net, c.port, c.blocks, t);
    WrqKeeps(c, 0, 0);
  }

  lemma FilledBehind(c: Client, data: seq<Byte>)
    requires c.end + |data| <= |c.buf|
    ensures var c1 := Filled(c, data); |c1.buf| == |c.buf| && c1.buf[..c1.end] == c.buf[..c.end] + data
  {
  }

  /** Each round of tftpwrite: the state is in order, or the write has failed with all bytes taken so far sent. */
  lemma PieceKeeps(c: Client, data: seq<Byte>, written: seq<Byte>)
    requires Valid(c, written) && data != [] && |written| + |data| < LIMIT
    ensures
      var n := Piece(c, data);
      var c1 := Filled(c, data[..n]);
      && n > 0
      && (c1.end < SEGSIZE ==> Valid(c1, written + data[..n]))
      && (c1.end == SEGSIZE ==>
            var f := FlushRun(c1, SEGSIZE);
            if f.ok then Valid(f.c.(end := 0), written + data[..n]) else Failed(f.c, written + data[..n]))
  {
    hide InStep, FlushRun, Concat;
    var n := Piece(c, data);
    var c1 := Filled(c, data[..n]);
    FilledBehind(c, data[..n]);
    assert written + data[..n] == Concat(c.blocks) + c1.buf[..c1.end];
    if c1.end == SEGSIZE {
      RoomLeft(c.blocks, written);
      FlushKeeps(c1, SEGSIZE);
      assert c1.buf[..SEGSIZE] == c1.buf;
      ConcatSnoc(c.blocks, c1.buf);
    }
  }

  /** tftpwrite takes everything, or fails with a part of the data sent. */
  lemma {:induction false} WriteKeeps(c: Client, data: seq<Byte>, written: seq<Byte>)
    requires Valid(c, written) && |written| + |data| < LIMIT
    ensures
      var r := WriteRun(c, data);
      if r.ok then Valid(r.c, written + data)
      else r.c.foffs <= |written + data| && Failed(r.c, (written + data)[..r.c.foffs])
    decreases |data|
  {
    hide Valid, Failed, FlushRun;
    if data == [] {
      assert written + data == written;
    } else {
      InOrder(c, written);
      var n := Piece(c, data);
      var c1 := Filled(c, data[..n]);
      PieceKeeps(c, data, written);
      assert written + data[..n] + data[n..] == written + data;
      if c1.end < SEGSIZE {
        WriteKeeps(c1, data[n..], written + data[..n]);
      } else {
        var f := FlushRun(c1, SEGSIZE);
        if f.ok {
          WriteKeeps(f.c.(end := 0), data[n..], written + data[..n]);
        } else {
          FailedPart(f.c, written + data[..n], written + data);
        }
      }
    }
  }

  lemma InOrder(c: Client, written: seq<Byte>)
    requires Valid(c, written)
    ensures |c.buf| == SEGSIZE && c.end < SEGSIZE
  {
  }

  lemma FailedPart(c: Client, part: seq<Byte>, whole: seq<Byte>)
    requires Failed(c, part) && part <= whole
    ensures c.foffs <= |whole| && Failed(c, whole[..c.foffs])
  {
  }

  /** The bytes and the number of blocks that the peer has. */
  function PeerOf(net: Network, port: nat): Server {
    if port in net.servers then net.servers[port] else Server(0, [], false)
  }

  lemma PeerPrefix(c: Client)
    requires Connected(c)
    ensures PeerOf(c.net, c.port).last <= |c.blocks| && PeerOf(c.net, c.port).stored == Concat(c.blocks[..PeerOf(c.net, c.port).last]) && PeerOf(c.net, c.port).stored <= Concat(c.blocks)
  {
    if c.port in c.net.servers {
      StoredIsPrefix(c.net, c.port, c.blocks, c.port);
    } else {
      assert c.blocks[..0] == [];
    }
    assert TookPrefix(c.net, c.port, c.blocks, c.port);
  }

  /** Closing when no write has failed: a prefix in any case, everything when the last block was acknowledged. */
  lemma CloseInOrder(c: Client, written: seq<Byte>)
    requires Valid(c, written) && |written| < LIMIT
    ensures
      var r := CloseRun(c);
      PeerOf(r.c.net, r.c.port).stored <= written && (r.ok ==> PeerOf(r.c.net, r.c.port) == Server(|c.blocks| + 1, written, true))
  {
    hide InStep, FlushRun, Concat;
    RoomLeft(c.blocks, written);
    FlushKeeps(c, c.end);
    ConcatSnoc(c.blocks, c.buf[..c.end]);
    var f := FlushRun(c, c.end);
    PeerPrefix(f.c);
    if f.ok {
      TakenIsStored(f.c.net, f.c.port, f.c.blocks);
    }
  }

  /**
   Closing after a failed write sends the last block once more, under the next number. What the peer
   stores stays a prefix of what was written exactly when it does not take that number; otherwise
   it has the block twice.
   */
  lemma CloseAfterFailure(c: Client, written: seq<Byte>)
    requires Failed(c, written) && |written| < LIMIT
    ensures
      var p := PeerOf(CloseRun(c).c.net, CloseRun(c).c.port);
      && (p.stored <= written <==> p.last <= |c.blocks|)
      && (p.last > |c.blocks| ==> p.stored == written + c.blocks[|c.blocks| - 1])
  {
    hide InStep, FlushRun, Concat, WrqRun;
    RoomLeft(c.blocks, written);
    FlushKeeps(c, c.end);
    assert c.buf[..c.end] == c.buf;
    var f := FlushRun(c, c.end);
    if f.ok {
      FlushKeeps(f.c, 0);
      assert f.c.buf[..0] == [];
    }
    var r := CloseRun(c).c;
    PeerPrefix(r);
    PrefixBlocks(c.blocks, c.buf, r.blocks, PeerOf(r.net, r.port).last);
  }

  lemma PrefixBlocks(blocks: seq<seq<Byte>>, b: seq<Byte>, more: seq<seq<Byte>>, n: nat)
    requires |b| == SEGSIZE && (more == blocks + [b] || more == blocks + [b] + [[]]) && n <= |more|
    ensures Concat(more[..n]) <= Concat(blocks) <==> n <= |blocks|
    ensures n > |blocks| ==> Concat(more[..n]) == Concat(blocks) + b
  {
    if n <= |blocks| {
      assert more[..n] == blocks[..n];
      ConcatPrefix(blocks, n);
    } else {
      ConcatSnoc(blocks, b);
      ConcatSnoc(blocks + [b], []);
      assert more[..n] == blocks + [b] || more[..n] == blocks + [b] + [[]];
    }
  }

  const LIMIT := 0xfffd * SEGSIZE

  lemma {:induction false} ConcatFull(blocks: seq<seq<Byte>>)
    requires forall i | 0 <= i < |blocks| :: |blocks[i]| == SEGSIZE
    ensures |Concat(blocks)| == SEGSIZE * |blocks|
    decreases |blocks|
  {
    if blocks != [] {
      ConcatFull(blocks[..|blocks| - 1]);
    }
  }

  lemma ConcatSnoc(blocks: seq<seq<Byte>>, b: seq<Byte>)
    ensures Concat(blocks + [b]) == Concat(blocks) + b
  {
    assert (blocks + [b])[..|blocks|] == blocks;
  }

  /** Within the limit the 16-bit block number does not wrap. */
  lemma RoomLeft(blocks: seq<seq<Byte>>, written: seq<Byte>)
    requires (forall i | 0 <= i < |blocks| :: |blocks[i]| == SEGSIZE) && |Concat(blocks)| <= |written| < LIMIT
    ensures |blocks| + 1 < 0xffff
  {
    ConcatFull(blocks);
  }

  lemma TakenIsStored(net: Network, port: nat, blocks: seq<seq<Byte>>)
    requires InStep(net, port, blocks) && AllTaken(net, port, blocks) && blocks != []
    ensures net.servers[port] == Server(|blocks|, Concat(blocks), |blocks[|blocks| - 1]| < SEGSIZE)
  {
    assert TookPrefix(net, port, blocks, port);
    assert blocks[..|blocks|] == blocks;
  }

  lemma RequestKeepsStep(net: Network, port: nat, blocks: seq<seq<Byte>>)
    requires InStep(net, port, blocks)
    ensures InStep(net.(requested := true), port, blocks)
  {
    forall t
      ensures TookPrefix(net.(requested := true), port, blocks, t)
    {
      assert TookPrefix(net, port, blocks, t);
    }
  }

  // ---------------------------------------------------------------------------
  // Going on after a failed write.

  /**
   The first failed write left the blocks `first`, the last of them in the buffer. Whatever is called
   afterwards, the next block sent is that one again.
   */
  ghost predicate AfterFailure(c: Client, first: seq<seq<Byte>>) {
    && Connected(c) && FullBlocks(first) && first != [] && c.port in c.net.servers
    && |first| <= |c.blocks| && c.blocks[..|first|] == first
    && (if |c.blocks| == |first| then c.end == SEGSIZE && c.buf == first[|first| - 1] else c.blocks[|first|] == first[|first| - 1])
  }

  lemma FailedIsAfter(c: Client, written: seq<Byte>)
    requires Failed(c, written)
    ensures AfterFailure(c, c.blocks)
  {
    assert c.blocks[..|c.blocks|] == c.blocks;
  }

  /** One more block goes out. */
  lemma FlushAfter(c: Client, size: nat, first: seq<seq<Byte>>, end: nat)
    requires AfterFailure(c, first) && c.block < 0xffff && size <= SEGSIZE && end <= SEGSIZE
    requires |c.blocks| == |first| ==> size == SEGSIZE
    ensures AfterFailure(FlushRun(c, size).c.(end := end), first) && FlushRun(c, size).c.block == c.block + 1
    ensures AfterFailure(FlushRun(c, size).c, first)
  {
    hide InStep, FlushRun;
    FlushKeeps(c, size);
    assert c.buf[..SEGSIZE] == c.buf;
    var d := FlushRun(c, size).c;
    assert d.blocks[..|first|] == c.blocks[..|first|];
  }

  /** The blocks a write can send: each takes 512 bytes, and a failed one is one more. */
  lemma {:induction false} WriteAfter(c: Client, data: seq<Byte>, first: seq<seq<Byte>>)
    requires AfterFailure(c, first) && SEGSIZE * c.block + c.end + |data| + SEGSIZE < SEGSIZE * 0xffff
    ensures
      var r := WriteRun(c, data).c;
      AfterFailure(r, first) && SEGSIZE * r.block + r.end <= SEGSIZE * c.block + c.end + |data| + SEGSIZE
    decreases |data|, c.end
  {
    hide AfterFailure, FlushRun, Filled;
    AfterBounds(c, first);
    if data != [] {
      var n := Piece(c, data);
      var c1 := Filled(c, data[..n]);
      FilledAfter(c, data[..n], first);
      if c1.end < SEGSIZE {
        WriteAfter(c1, data[n..], first);
      } else {
        FlushAfter(c1, SEGSIZE, first, 0);
        FlushFrame(c1, SEGSIZE);
        var f := FlushRun(c1, SEGSIZE);
        if f.ok {
          WriteAfter(f.c.(end := 0), data[n..], first);
        }
      }
    }
  }

  lemma AfterBounds(c: Client, first: seq<seq<Byte>>)
    requires AfterFailure(c, first)
    ensures |c.buf| == SEGSIZE && c.end <= SEGSIZE
  {
  }

  lemma FilledAfter(c: Client, data: seq<Byte>, first: seq<seq<Byte>>)
    requires AfterFailure(c, first) && c.end + |data| <= SEGSIZE
    ensures
      var d := Filled(c, data);
      AfterFailure(d, first) && d.end == c.end + |data| && |d.buf| == SEGSIZE && d.block == c.block
      && (|d.blocks| == |first| ==> d.end == SEGSIZE)
  {
    hide InStep;
    if |c.blocks| == |first| {
      assert data == [];
      assert c.buf[..c.end] + data + c.buf[c.end..] == c.buf;
    }
  }

  lemma CloseAfter(c: Client, first: seq<seq<Byte>>)
    requires AfterFailure(c, first) && c.block + 1 < 0xffff
    ensures AfterFailure(CloseRun(c).c, first)
  {
    hide FlushRun, InStep;
    FlushAfter(c, c.end, first, c.end);
    FlushFrame(c, c.end);
    var f := FlushRun(c, c.end);
    if f.ok && c.end == SEGSIZE {
      FlushKeeps(c, c.end);
      FlushAfter(f.c, 0, first, f.c.end);
    }
  }

  /**
   After any calls that followed a failed write: what the peer stores is a prefix of what had been written
   until then exactly when it has not taken the block sent again; otherwise it has that block twice.
   */
  lemma PeerAfterFailure(c: Client, first: seq<seq<Byte>>)
    requires AfterFailure(c, first)
    ensures
      var p := PeerOf(c.net, c.port);
      && (p.stored <= Concat(first) <==> p.last <= |first|)
      && (p.last > |first| ==> Concat(first) + first[|first| - 1] <= p.stored)
  {
    hide InStep, Concat, FullBlocks;
    PeerPrefix(c);
    PrefixAfter(c.blocks, first, PeerOf(c.net, c.port).last);
  }

  lemma LastFull(blocks: seq<seq<Byte>>)
    requires FullBlocks(blocks) && blocks != []
    ensures |blocks[|blocks| - 1]| == SEGSIZE
  {
  }

  lemma PrefixAfter(blocks: seq<seq<Byte>>, first: seq<seq<Byte>>, n: nat)
    requires FullBlocks(first) && first != [] && n <= |blocks| && |first| <= |blocks| && blocks[..|first|] == first
    requires |blocks| > |first| ==> blocks[|first|] == first[|first| - 1]
    ensures Concat(blocks[..n]) <= Concat(first) <==> n <= |first|
    ensures n > |first| ==> Concat(first) + first[|first| - 1] <= Concat(blocks[..n])
  {
    hide Concat, FullBlocks;
    if n <= |first| {
      assert blocks[..n] == first[..n];
      ConcatPrefix(first, n);
    } else {
      LastFull(first);
      OneMoreBlock(blocks[..n], first, first[|first| - 1]);
    }
  }

  lemma OneMoreBlock(b: seq<seq<Byte>>, first: seq<seq<Byte>>, x: seq<Byte>)
    requires |first| < |b| && b[..|first|] == first && b[|first|] == x && |x| == SEGSIZE
    ensures Concat(first) + x <= Concat(b) && !(Concat(b) <= Concat(first))
  {
    hide Concat;
    assert b[..|first| + 1] == first + [x];
    ConcatPrefix(b, |first| + 1);
    ConcatSnoc(first, x);
  }

  // ---------------------------------------------------------------------------
  // Progress: the client sends a block again until it is acknowledged.

  /** Servers and network act by themselves. */
  function ServersRun(net: Network, script: seq<Action>): Network
    decreases |script|
  {
    if script == [] then net else ServersRun(ServerStep(net, script[0]), script[1..])
  }

  /**
   What may happen without harm while the acknowledgement of `block` is expected from `port`: servers
   act, time runs out, the acknowledgement before comes again, or something comes from another port.
   */
  predicate Harmless(a: Action, block: nat, port: nat) {
    match a
    case Deliver(k) => block > 0 && (k.from != port || k.block == block - 1)
    case DeliverError(from) => block > 0 && from != port
    case Fail => false
    case _ => true
  }

  ghost predicate AllHarmless(pre: seq<Action>, block: nat, port: nat) {
    forall i | 0 <= i < |pre| :: Harmless(pre[i], block, port)
  }

  function TimeOuts(pre: seq<Action>): nat {
    if pre == [] then 0 else (if pre[0].Expire? then 1 else 0) + TimeOuts(pre[1..])
  }

  lemma HarmlessRest(pre: seq<Action>, block: nat, port: nat)
    requires AllHarmless(pre, block, port) && pre != []
    ensures Harmless(pre[0], block, port) && AllHarmless(pre[1..], block, port)
  {
  }

  /** Sending the same again changes nothing. */
  lemma SentAgain(c: Client, size: nat, a: Action, c': Client)
    requires size <= |c.buf| && c' == c.(net := ServerStep(Sent(c, size), a), script := c'.script)
    ensures Sent(c', size) == c'.net
  {
    if c.block != 0 {
      assert c'.net.data == c'.net.data + {Data(c.port, c.block, c.buf[..size])};
    }
  }

  /** One harmless action: the call goes on as if it had just begun, with the time-outs counted. */
  lemma WrqOneMore(c: Client, size: nat, rexmt: nat) returns (c': Client)
    requires size <= |c.buf| && c.script != [] && Harmless(c.script[0], c.block, c.port)
    requires rexmt + TimeOuts(c.script[..1]) <= MAXREXMT
    ensures c' == c.(net := ServerStep(Sent(c, size), c.script[0]), script := c.script[1..])
    ensures WrqRun(c, size, rexmt) == WrqRun(c', size, rexmt + TimeOuts(c.script[..1]))
    ensures Sent(c', size) == c'.net
  {
    hide ServerStep, Sent;
    var a := c.script[0];
    assert TimeOuts(c.script[..1]) == if a.Expire? then 1 else 0;
    c' := c.(net := ServerStep(Sent(c, size), a), script := c.script[1..]);
    SentAgain(c, size, a, c');
  }

  /** The same for the first of the harmless actions `pre`. */
  lemma WrqStep(c: Client, size: nat, rexmt: nat, pre: seq<Action>, tail: seq<Action>) returns (c': Client, again: nat)
    requires size <= |c.buf| && c.script == pre + tail && pre != []
    requires AllHarmless(pre, c.block, c.port) && rexmt + TimeOuts(pre) <= MAXREXMT
    ensures c' == c.(net := c'.net, script := pre[1..] + tail)
    ensures AllHarmless(pre[1..], c.block, c.port) && again + TimeOuts(pre[1..]) == rexmt + TimeOuts(pre)
    ensures WrqRun(c, size, rexmt) == WrqRun(c', size, again)
    ensures ServersRun(Sent(c', size), pre[1..]) == ServersRun(Sent(c, size), pre)
  {
    hide ServerStep, Sent, AllHarmless, WrqRun, Harmless;
    HarmlessRest(pre, c.block, c.port);
    assert c.script[0] == pre[0] && c.script[..1] == pre[..1] && c.script[1..] == pre[1..] + tail;
    assert TimeOuts(pre[..1]) == if pre[0].Expire? then 1 else 0;
    c' := WrqOneMore(c, size, rexmt);
    again := rexmt + TimeOuts(pre[..1]);
  }

  /** tftpwrq with the acknowledgement expected behind harmless actions: the block is reported as sent. */
  lemma {:induction false} WrqProgress(c: Client, size: nat, rexmt: nat, pre: seq<Action>, k: Ack, rest: seq<Action>)
    requires size <= |c.buf| && c.script == pre + ([Deliver(k)] + rest)
    requires AllHarmless(pre, c.block, c.port) && rexmt + TimeOuts(pre) <= MAXREXMT
    requires k in ServersRun(Sent(c, size), pre).acks && k.block == c.block && (c.block > 0 ==> k.from == c.port)
    ensures WrqRun(c, size, rexmt) == Outcome(true, c.(net := ServersRun(Sent(c, size), pre), script := rest, port := k.from))
    decreases |pre|
  {
    hide Sent, AllHarmless, WrqRun, TimeOuts;
    if pre == [] {
      Arrives(c, size, rexmt, k, rest);
    } else {
      var c', again := WrqStep(c, size, rexmt, pre, [Deliver(k)] + rest);
      WrqProgress(c', size, again, pre[1..], k, rest);
    }
  }

  /** The acknowledgement arrives at once. */
  lemma Arrives(c: Client, size: nat, rexmt: nat, k: Ack, rest: seq<Action>)
    requires size <= |c.buf| && c.script == [] + ([Deliver(k)] + rest)
    requires k in Sent(c, size).acks && k.block == c.block && (c.block > 0 ==> k.from == c.port)
    ensures WrqRun(c, size, rexmt) == Outcome(true, c.(net := Sent(c, size), script := rest, port := k.from))
  {
    hide Sent, ServerStep;
    assert c.script[0] == Deliver(k) && c.script[1..] == rest;
    DeliveryIdle(Sent(c, size), k);
  }

  lemma DeliveryIdle(net: Network, k: Ack)
    ensures ServerStep(net, Deliver(k)) == net
  {
  }

  /** It gives up at the time-out after the last it counts, and not before. */
  lemma {:induction false} WrqGivesUp(c: Client, size: nat, rexmt: nat, pre: seq<Action>, rest: seq<Action>)
    requires size <= |c.buf| && c.script == pre + ([Expire] + rest)
    requires AllHarmless(pre, c.block, c.port) && rexmt + TimeOuts(pre) == MAXREXMT
    ensures !WrqRun(c, size, rexmt).ok
    decreases |pre|
  {
    if pre == [] {
      assert c.script[0] == Expire;
    } else {
      hide Sent, AllHarmless, WrqRun, TimeOuts;
      var c', again := WrqStep(c, size, rexmt, pre, [Expire] + rest);
      WrqGivesUp(c', size, again, pre[1..], rest);
    }
  }

  /** What ends a call without the acknowledgement: a failure, an error from the peer, or one out of order from it. */
  ghost predicate Hopeless(a: Action, block: nat, port: nat, net: Network) {
    match a
    case Fail => true
    case DeliverError(from) => block == 0 || from == port
    case Deliver(k) => k in net.acks && (block == 0 || k.from == port) && k.block != block && k.block != block - 1
    case _ => false
  }

  lemma {:induction false} WrqFails(c: Client, size: nat, rexmt: nat, pre: seq<Action>, a: Action, rest: seq<Action>)
    requires size <= |c.buf| && c.script == pre + ([a] + rest)
    requires AllHarmless(pre, c.block, c.port) && rexmt + TimeOuts(pre) <= MAXREXMT
    requires Hopeless(a, c.block, c.port, ServersRun(Sent(c, size), pre))
    ensures !WrqRun(c, size, rexmt).ok
    decreases |pre|
  {
    hide Sent, AllHarmless, WrqRun, TimeOuts;
    if pre == [] {
      Breaks(c, size, rexmt, a, rest);
    } else {
      var c', again := WrqStep(c, size, rexmt, pre, [a] + rest);
      WrqFails(c', size, again, pre[1..], a, rest);
    }
  }

  lemma Breaks(c: Client, size: nat, rexmt: nat, a: Action, rest: seq<Action>)
    requires size <= |c.buf| && c.script == [] + ([a] + rest) && Hopeless(a, c.block, c.port, Sent(c, size))
    ensures !WrqRun(c, size, rexmt).ok
  {
    hide Sent;
    assert c.script[0] == a && c.script[1..] == rest;
  }

  /** A server that expects block b and receives it acknowledges it. */
  lemma {:induction false} ServerTakes(net: Network, script: seq<Action>, d: Data)
    requires d.to in net.servers && !net.servers[d.to].done && net.servers[d.to].last + 1 == d.block && d in net.data
    requires GetData(d) in script
    ensures Ack(d.to, d.block) in ServersRun(net, script).acks
    decreases |script|
  {
    var net' := ServerStep(net, script[0]);
    if Ack(d.to, d.block) in net'.acks {
      AckStays(net', script[1..], Ack(d.to, d.block));
    } else if d.to in net'.servers && net'.servers[d.to] == net.servers[d.to] {
      ServerTakes(net', script[1..], d);
    }
  }

  lemma {:induction false} ServerStarts(net: Network, script: seq<Action>, t: nat)
    requires net.requested && t !in net.servers && t != SERVER_PORT && Spawn(t) in script
    ensures Ack(t, 0) in ServersRun(net, script).acks
    decreases |script|
  {
    if script[0] == Spawn(t) {
      AckStays(ServerStep(net, script[0]), script[1..], Ack(t, 0));
    } else {
      ServerStarts(ServerStep(net, script[0]), script[1..], t);
    }
  }

  lemma {:induction false} AckStays(net: Network, script: seq<Action>, k: Ack)
    requires k in net.acks
    ensures k in ServersRun(net, script).acks
    decreases |script|
  {
    if script != [] {
      AckStays(ServerStep(net, script[0]), script[1..], k);
    }
  }

  /** Block b of the data as RFC 1350 cuts it: 512 bytes, the last one shorter. */
  function DataBlock(data: seq<Byte>, b: nat): seq<Byte>
    requires 1 <= b <= |data| / SEGSIZE + 1
  {
    data[(b - 1) * SEGSIZE..Min(|data|, b * SEGSIZE)]
  }

  /**
   A round of a transfer to server t: harmless actions, among them the one by which the server gets block
   b, and then the delivery of its acknowledgement.
   */
  ghost predicate RoundOf(data: seq<Byte>, t: nat, b: nat, round: seq<Action>)
    requires b <= |data| / SEGSIZE + 1
  {
    && round != [] && round[|round| - 1] == Deliver(Ack(t, b))
    && var pre := round[..|round| - 1];
    && AllHarmless(pre, b, t) && TimeOuts(pre) <= MAXREXMT
    && (if b == 0 then t != SERVER_PORT && Spawn(t) in pre else GetData(Data(t, b, DataBlock(data, b))) in pre)
  }

  /** The rounds of blocks b and above, in order. */
  ghost predicate FairFrom(data: seq<Byte>, t: nat, script: seq<Action>, b: nat)
    decreases |data| / SEGSIZE + 2 - b
  {
    b > |data| / SEGSIZE + 1 ||
    exists n :: 0 < n <= |script| && RoundOf(data, t, b, script[..n]) && FairFrom(data, t, script[n..], b + 1)
  }

  lemma RoundParts(data: seq<Byte>, t: nat, b: nat, script: seq<Action>) returns (pre: seq<Action>, rest: seq<Action>)
    requires b <= |data| / SEGSIZE + 1 && FairFrom(data, t, script, b)
    ensures script == pre + ([Deliver(Ack(t, b))] + rest) && FairFrom(data, t, rest, b + 1)
    ensures AllHarmless(pre, b, t) && TimeOuts(pre) <= MAXREXMT
    ensures if b == 0 then t != SERVER_PORT && Spawn(t) in pre else GetData(Data(t, b, DataBlock(data, b))) in pre
  {
    hide AllHarmless, DataBlock, TimeOuts;
    var n :| 0 < n <= |script| && RoundOf(data, t, b, script[..n]) && FairFrom(data, t, script[n..], b + 1);
    pre, rest := script[..n][..n - 1], script[n..];
    LastCut(script, n);
  }

  /** The first n actions are n - 1 and one more. */
  lemma LastCut(script: seq<Action>, n: nat)
    requires 0 < n <= |script|
    ensures script[..n][n - 1] == script[n - 1] && script == script[..n][..n - 1] + ([script[n - 1]] + script[n..])
  {
    assert script[..n][..n - 1] == script[..n - 1];
  }

  /** The first i bytes of the data are written, and the rounds of the blocks to come follow. */
  ghost predicate GoesWell(c: Client, data: seq<Byte>, i: nat) {
    i <= |data| < LIMIT && Valid(c, data[..i]) && FairFrom(data, c.port, c.script, c.block + 1)
  }

  /** One round: the block in the buffer is taken and acknowledged. */
  lemma RoundTakes(c: Client, size: nat, data: seq<Byte>)
    requires Connected(c) && size <= SEGSIZE && c.block + 1 < 0xffff && AllTaken(c.net, c.port, c.blocks) && FullBlocks(c.blocks)
    requires c.block <= |data| / SEGSIZE && c.buf[..size] == DataBlock(data, c.block + 1) && FairFrom(data, c.port, c.script, c.block + 1)
    ensures
      var r := FlushRun(c, size);
      r.ok && r.c.port == c.port && FairFrom(data, c.port, r.c.script, c.block + 2)
  {
    hide InStep, WrqRun, ServerStep, AllHarmless, FairFrom, DataBlock;
    NotDone(c);
    var pre, rest := RoundParts(data, c.port, c.block + 1, c.script);
    var c1 := c.(block := c.block + 1, blocks := c.blocks + [c.buf[..size]]);
    ServerTakes(Sent(c1, size), pre, Data(c.port, c.block + 1, c.buf[..size]));
    WrqProgress(c1, size, 0, pre, Ack(c.port, c.block + 1), rest);
  }

  lemma NotDone(c: Client)
    requires Connected(c) && AllTaken(c.net, c.port, c.blocks) && FullBlocks(c.blocks)
    ensures !c.net.servers[c.port].done && c.net.servers[c.port].last == c.block
  {
    assert TookPrefix(c.net, c.port, c.blocks, c.port);
  }

  /** The buffer holds the bytes behind the blocks that were sent. */
  lemma BufferIsBlock(c: Client, data: seq<Byte>, i: nat)
    requires FullBlocks(c.blocks) && c.block == |c.blocks| && c.end <= SEGSIZE == |c.buf| && i <= |data| && data[..i] == Concat(c.blocks) + c.buf[..c.end]
    requires c.end == SEGSIZE || i == |data|
    ensures c.block <= |data| / SEGSIZE && (c.end < SEGSIZE ==> c.block == |data| / SEGSIZE)
    ensures c.buf[..c.end] == DataBlock(data, c.block + 1)
  {
    ConcatFull(c.blocks);
    var from := SEGSIZE * c.block;
    assert |data[..i]| == from + c.end;
    assert data[from..from + c.end] == data[..i][from..from + c.end] == c.buf[..c.end];
  }

  lemma {:induction false} WriteSucceeds(c: Client, d: seq<Byte>, data: seq<Byte>, i: nat)
    requires GoesWell(c, data, i) && i + |d| <= |data| && d == data[i..i + |d|]
    ensures |c.buf| == SEGSIZE && c.end <= SEGSIZE
    ensures var r := WriteRun(c, d); r.ok && GoesWell(r.c, data, i + |d|)
    decreases |d|
  {
    hide Valid, FlushRun, FairFrom;
    InOrder(c, data[..i]);
    if d != [] {
      var n := Piece(c, d);
      var c1 := Filled(c, d[..n]);
      assert data[..i] + d[..n] == data[..i + n];
      PieceKeeps(c, d, data[..i]);
      assert d[n..] == data[i + n..i + n + |d[n..]|];
      if c1.end < SEGSIZE {
        WriteSucceeds(c1, d[n..], data, i + n);
      } else {
        FullPiece(c, d[..n], data, i);
        var f := FlushRun(c1, SEGSIZE);
        WriteSucceeds(f.c.(end := 0), d[n..], data, i + n);
      }
    }
  }

  /** A full buffer goes out in its round. */
  lemma FullPiece(c: Client, d: seq<Byte>, data: seq<Byte>, i: nat)
    requires GoesWell(c, data, i) && i + |d| <= |data| && d == data[i..i + |d|] && |c.buf| == SEGSIZE == c.end + |d|
    ensures
      var f := FlushRun(Filled(c, d), SEGSIZE);
      f.ok && FairFrom(data, f.c.port, f.c.script, f.c.block + 1)
  {
    hide InStep, FairFrom, DataBlock, WrqRun;
    var c1 := Filled(c, d);
    assert data[..i] + d == data[..i + |d|] && c1.buf[..c1.end] == c.buf[..c.end] + d;
    assert data[..i + |d|] == Concat(c.blocks) + c1.buf[..c1.end];
    RoomLeft(c.blocks, data[..i]);
    BufferIsBlock(c1, data, i + |d|);
    RoundTakes(c1, SEGSIZE, data);
  }

  /** Closing sends the last, shorter block in its round. */
  lemma CloseSucceeds(c: Client, data: seq<Byte>)
    requires GoesWell(c, data, |data|)
    ensures CloseRun(c).ok
  {
    hide InStep, FairFrom, DataBlock, FlushRun;
    assert data[..|data|] == data;
    RoomLeft(c.blocks, data);
    BufferIsBlock(c, data, |data|);
    RoundTakes(c, c.end, data);
  }

  lemma OpenSucceeds(data: seq<Byte>, t: nat, script: seq<Action>)
    requires FairFrom(data, t, script, 0) && |data| < LIMIT
    ensures var r := WrqRun(FreshClient(script), 0, 0); r.ok && GoesWell(r.c, data, 0)
  {
    hide InStep, FairFrom, WrqRun, ServerStep, AllHarmless;
    var pre, rest := RoundParts(data, t, 0, script);
    var c := FreshClient(script);
    AnyPort(pre, t, SERVER_PORT);
    ServerStarts(Sent(c, 0), pre, t);
    WrqProgress(c, 0, 0, pre, Ack(t, 0), rest);
    OpenKeeps(script);
    assert data[..0] == [];
  }

  /** Before a peer is chosen no packet is harmless, from whatever port. */
  lemma AnyPort(pre: seq<Action>, t: nat, port: nat)
    requires AllHarmless(pre, 0, t)
    ensures AllHarmless(pre, 0, port)
  {
    assert forall i | 0 <= i < |pre| :: Harmless(pre[i], 0, t) ==> Harmless(pre[i], 0, port);
  }

  // ---------------------------------------------------------------------------
  // The run that stores a block twice.

  /** A server answers; it takes block 1 and its acknowledgement is lost; it takes the resent block as block 2. */
  function LostAck(t: nat, x: seq<Byte>): (s: seq<Action>)
    ensures |s| == 5
  {
    [Spawn(t), Deliver(Ack(t, 0)), GetData(Data(t, 1, x)), Fail, GetData(Data(t, 2, x))]
  }

  // The network after opening, after the failed write, and after the close.

  function NetOpened(t: nat): Network {
    Network(true, map[t := Server(0, [], false)], {}, {Ack(t, 0)})
  }

  function NetFailed(t: nat, x: seq<Byte>): Network {
    Network(true, map[t := Server(1, x, false)], {Data(t, 1, x)}, {Ack(t, 0), Ack(t, 1)})
  }

  lemma OpenSelects(t: nat, x: seq<Byte>)
    requires t != SERVER_PORT
    ensures SelectRun(Network(true, map[], {}, {}), LostAck(t, x)) == Selected(Acked(Ack(t, 0)), NetOpened(t), LostAck(t, x)[2..])
  {
    var s := LostAck(t, x);
    assert s[1..][0] == s[1] && s[1..][1..] == s[2..];
    assert ServerStep(Network(true, map[], {}, {}), s[0]) == NetOpened(t);
  }

  lemma WriteSelects(t: nat, x: seq<Byte>)
    requires |x| == SEGSIZE
    ensures SelectRun(NetOpened(t).(data := {Data(t, 1, x)}), LostAck(t, x)[2..]) == Selected(Failure, NetFailed(t, x), LostAck(t, x)[4..])
  {
    var s := LostAck(t, x)[2..];
    assert s[0] == GetData(Data(t, 1, x)) && s[1..][0] == Fail && s[1..][1..] == LostAck(t, x)[4..];
    assert [] + x == x;
    assert ServerStep(NetOpened(t).(data := {Data(t, 1, x)}), s[0]) == NetFailed(t, x);
  }

  lemma CloseSelects(t: nat, x: seq<Byte>)
    requires |x| == SEGSIZE
    ensures
      var r := SelectRun(NetFailed(t, x).(data := {Data(t, 1, x), Data(t, 2, x)}), LostAck(t, x)[4..]);
      r.ev == Failure && t in r.net.servers && r.net.servers[t].stored == x + x
  {
    var s := LostAck(t, x)[4..];
    assert s == [GetData(Data(t, 2, x))];
    assert s[1..] == [];
  }

  /** Open, one write that fails, close: the server ends up with the block twice. */
  lemma StoredTwice(t: nat, x: seq<Byte>)
    requires |x| == SEGSIZE && t != SERVER_PORT
    ensures
      var linked := WrqRun(FreshClient(LostAck(t, x)), 0, 0);
      && linked.ok && |linked.c.buf| == SEGSIZE && linked.c.end <= SEGSIZE
      && var wrote := WriteRun(linked.c, x);
         !wrote.ok && |wrote.c.buf| == SEGSIZE && wrote.c.end <= SEGSIZE && PeerOf(CloseRun(wrote.c).c.net, CloseRun(wrote.c).c.port).stored == x + x
  {
    hide SelectRun, LostAck, WrqRun, WriteRun, CloseRun;
    var c1 := FreshClient(LostAck(t, x)).(net := NetOpened(t), script := LostAck(t, x)[2..], port := t);
    OpensOnce(t, x, c1);
    var c2 := c1.(net := NetFailed(t, x), script := LostAck(t, x)[4..], block := 1, end := SEGSIZE, foffs := SEGSIZE, buf := x, blocks := [x]);
    WriteFails(t, x, c1, c2);
    ClosesTwice(t, x, c2);
  }

  lemma OpensOnce(t: nat, x: seq<Byte>, c1: Client)
    requires |x| == SEGSIZE && t != SERVER_PORT
    requires c1 == FreshClient(LostAck(t, x)).(net := NetOpened(t), script := LostAck(t, x)[2..], port := t)
    ensures WrqRun(FreshClient(LostAck(t, x)), 0, 0) == Outcome(true, c1)
  {
    hide SelectRun, LostAck;
    OpenSelects(t, x);
    assert Sent(FreshClient(LostAck(t, x)), 0) == Network(true, map[], {}, {});
  }

  lemma ClosesTwice(t: nat, x: seq<Byte>, c2: Client)
    requires |x| == SEGSIZE == |c2.buf| && c2.end == SEGSIZE && c2.buf == x && c2.blocks == [x] && c2.block == 1 && c2.port == t
    requires c2.net == NetFailed(t, x) && c2.script == LostAck(t, x)[4..]
    ensures PeerOf(CloseRun(c2).c.net, CloseRun(c2).c.port).stored == x + x
  {
    hide SelectRun, LostAck;
    CloseSelects(t, x);
    assert c2.buf[..SEGSIZE] == x;
    assert Sent(c2.(block := 2, blocks := [x, x]), SEGSIZE) == NetFailed(t, x).(data := {Data(t, 1, x), Data(t, 2, x)});
    assert c2.blocks + [c2.buf[..SEGSIZE]] == [x, x];
  }

  lemma WriteFails(t: nat, x: seq<Byte>, c1: Client, c2: Client)
    requires |x| == SEGSIZE && c1 == FreshClient(LostAck(t, x)).(net := NetOpened(t), script := LostAck(t, x)[2..], port := t)
    requires c2 == c1.(net := NetFailed(t, x), script := LostAck(t, x)[4..], block := 1, end := SEGSIZE, foffs := SEGSIZE, buf := x, blocks := [x])
    ensures WriteRun(c1, x) == Outcome(false, c2)
  {
    hide SelectRun, LostAck, FlushRun, Filled;
    assert x[..SEGSIZE] == x;
    var f := Filled(c1, x);
    FilledBlock(c1, x);
    FlushFails(t, x, f, c2);
  }

  lemma FilledBlock(c: Client, x: seq<Byte>)
    requires |x| == SEGSIZE == |c.buf| && c.end == 0
    ensures Filled(c, x) == c.(buf := x, end := SEGSIZE, foffs := c.foffs + SEGSIZE)
  {
    assert c.buf[..0] + x + c.buf[SEGSIZE..] == x;
  }

  lemma FlushFails(t: nat, x: seq<Byte>, f: Client, c2: Client)
    requires |x| == SEGSIZE && f.buf == x && f.net == NetOpened(t) && f.script == LostAck(t, x)[2..] && f.port == t && f.block == 0 && f.blocks == []
    requires c2 == f.(net := NetFailed(t, x), script := LostAck(t, x)[4..], block := 1, blocks := [x])
    ensures FlushRun(f, SEGSIZE) == Outcome(false, c2)
  {
    hide SelectRun, LostAck;
    WriteSelects(t, x);
    var g := f.(block := 1, blocks := [x]);
    assert f.buf[..SEGSIZE] == x && f.blocks + [x] == [x];
    assert Sent(g, SEGSIZE) == NetOpened(t).(data := {Data(t, 1, x)});
    assert WrqRun(g, SEGSIZE, 0) == Outcome(false, c2);
  }

  // ---------------------------------------------------------------------------
  // The client working in place.

  class Upload {
    var net: Network
    var script: seq<Action>
    var port: nat
    var block: nat
    var end: nat
    var foffs: nat
    const buf: array<Byte>
    ghost var blocks: seq<seq<Byte>>

    ghost function State(): Client
      reads this, buf
    {
      Client(net, script, port, block, end, foffs, buf[..], blocks)
    }

    ghost predicate InBounds()
      reads this
    {
      buf.Length == SEGSIZE && end <= SEGSIZE
    }

    constructor (script: seq<Action>)
      ensures InBounds() && State() == FreshClient(script) && fresh(buf)
    {
      this.script := script;
      net := Network(false, map[], {}, {});
      buf := new Byte[SEGSIZE](_ => 0);
      port, block, end, foffs, blocks := SERVER_PORT, 0, 0, 0, [];
      new;
      assert State().buf == FreshClient(script).buf;
    }

    /** What the server at the peer port has. */
    function Peer(): Server
      reads this
    {
      PeerOf(net, port)
    }

    /** select and recvfrom, lines 288-315. */
    method Select() returns (ev: Event)
      modifies `net, `script
      ensures SelectRun(old(net), old(script)) == Selected(ev, net, script)
    {
      ghost var r := SelectRun(net, script);
      while script != []
        invariant SelectRun(net, script) == r
        decreases |script|
      {
        var a := script[0];
        net, script := ServerStep(net, a), script[1..];
        match a
        case Deliver(k) =>
          if k in net.acks {
            return Acked(k);
          }
        case DeliverError(from) => return ErrorPacket(from);
        case Expire => return Timeout;
        case Fail => return Failure;
        case _ =>
      }
      return Failure;
    }

    /** tftpwrq, lines 266-356. */
    method Wrq(size: nat) returns (n: int)
      requires InBounds() && size <= SEGSIZE
      modifies `net, `script, `port
      ensures WrqRun(old(State()), size, 0) == Outcome(n >= 0, State()) && (n >= 0 ==> n == size)
    {
      hide SelectRun;
      ghost var r := WrqRun(State(), size, 0);
      var rexmt := 0;
      while true
        invariant 0 <= rexmt && WrqRun(State(), size, rexmt) == r
        decreases |script|
      {
        if block == 0 {
          net := net.(requested := net.requested || port == SERVER_PORT);
        } else {
          net := net.(data := net.data + {Data(port, block, buf[..size])});
        }
        assert buf[..size] == buf[..][..size];
        ghost var sent := net;
        var ev := Select();
        match ev
        case Failure => return -1;
        case Timeout =>
          rexmt := rexmt + 1;
          if rexmt > MAXREXMT {
            return -1;
          }
          continue;
        case ErrorPacket(from) =>
          if block == 0 {
            port := from;
          } else if from != port {
            continue;
          }
          return -1;
        case Acked(k) =>
          if block == 0 {
            port := k.from;
          } else if k.from != port {
            continue;
          }
          if k.block == block {
            return size;
          }
          if k.block != block - 1 {
            return -1;
          }
      }
    }

    /** tftpopen for writing, lines 460-468. */
    method Open() returns (r: int)
      requires InBounds()
      modifies `net, `script, `port
      ensures WrqRun(old(State()), 0, 0) == Outcome(r == 0, State()) && (r == 0 || r == -1)
    {
      var size := Wrq(0);
      return if size >= 0 then 0 else -1;
    }

    /** Lines 560-563, 636-639 and 643-646. */
    method Flush(size: nat) returns (n: int)
      requires InBounds() && size <= SEGSIZE
      modifies `net, `script, `port, `block, `blocks
      ensures FlushRun(old(State()), size) == Outcome(n >= 0, State())
    {
      assert buf[..size] == buf[..][..size];
      blocks := blocks + [buf[..size]];
      block := (block + 1) % 0x1_0000;
      n := Wrq(size);
    }

    /** memcpy, line 551, with the two lines behind it. */
    method CopyIn(data: seq<Byte>)
      requires InBounds() && end + |data| <= SEGSIZE
      modifies this`end, this`foffs, buf
      ensures InBounds() && State() == Filled(old(State()), data)
    {
      ghost var was := buf[..];
      var i := 0;
      while i < |data|
        invariant 0 <= i <= |data| && end == old(end) && foffs == old(foffs)
        invariant buf[..] == was[..end] + data[..i] + was[end + i..]
      {
        buf[end + i] := data[i];
        assert data[..i + 1] == data[..i] + [data[i]];
        i := i + 1;
      }
      assert data[..i] == data;
      end := end + |data|;
      foffs := foffs + |data|;
    }

    /** tftpwrite, lines 530-570. */
    method Write(data: seq<Byte>) returns (r: int)
      requires InBounds()
      modifies this, buf
      ensures InBounds() && WriteRun(old(State()), data) == Outcome(r >= 0, State()) && (r == |data| || r == -1)
    {
      hide FlushRun, Filled;
      ghost var run := WriteRun(State(), data);
      var rest := data;
      while rest != []
        invariant InBounds() && WriteRun(State(), rest) == run
        decreases |rest|, end
      {
        var n := Min(SEGSIZE - end, |rest|);
        Fills(State(), rest[..n]);
        CopyIn(rest[..n]);
        rest := rest[n..];
        if end == SEGSIZE {
          FlushFrame(State(), SEGSIZE);
          var k := Flush(end);
          if k < 0 {
            return -1;
          }
          end := 0;
        }
      }
      return |data|;
    }

    /** tftpclose of a file open for writing, lines 632-648. */
    method Close() returns (r: int, flushed: bool)
      requires InBounds()
      modifies `net, `script, `port, `block, `blocks
      ensures CloseRun(old(State())) == Outcome(flushed, State()) && r == 0
    {
      hide FlushRun;
      FlushFrame(State(), end);
      var n := Flush(end);
      flushed := n >= 0;
      if n >= 0 && end == SEGSIZE {
        var _ := Flush(0);
      }
      r := 0;
    }
  }

  lemma NothingSent()
    ensures Concat([]) == []
  {
  }

  lemma Fills(c: Client, data: seq<Byte>)
    requires c.end + |data| <= |c.buf|
    ensures Filled(c, data).end == c.end + |data| && |Filled(c, data).buf| == |c.buf|
  {
  }

  lemma FlushFrame(c: Client, size: nat)
    requires size <= |c.buf|
    ensures FlushRun(c, size).c.buf == c.buf && FlushRun(c, size).c.end == c.end
  {
  }

  /**
   A whole upload in pieces of at most `chunk` bytes: `failed` says whether a write failed, `taken`
   is what the write calls had taken from the data when the first one failed or all had been called,
   `before` the number of blocks sent until then, `peer` what the chosen server ends up with.
   */
  datatype Report = Report(connected: bool, failed: bool, flushed: bool, taken: seq<Byte>, before: nat, peer: Server)

  /**
   A caller that goes on writing after a failed write, or one that does not; the file is closed in any
   case. What the server stores is a prefix of what was written exactly when no write had failed or the
   server did not take the block that was sent again; in particular, without a failed write it always
   is, and all of the data when the last block was acknowledged. When every block is acknowledged within
   its time-outs no call fails.
   */
  method Store(data: seq<Byte>, script: seq<Action>, chunk: nat, goOn: bool) returns (r: Report)
    requires chunk > 0 && |data| < LIMIT && (goOn ==> |data| + SEGSIZE * (|data| / chunk + 2) < LIMIT)
    ensures r.taken <= data && (r.connected && !r.failed ==> r.taken == data)
    ensures r.peer.stored <= r.taken <==> !r.failed || r.peer.last <= r.before
    ensures r.connected && !r.failed && r.flushed ==> r.peer.stored == data && r.peer.done
    ensures (exists t :: FairFrom(data, t, script, 0)) ==> r.connected && !r.failed && r.flushed
  {
    hide InStep, AllTaken, Concat, WrqRun, WriteRun, CloseRun, PeerOf, AfterFailure, Valid, Failed, Rounds, FairFrom, Going;
    ghost var fair := exists t :: FairFrom(data, t, script, 0);
    if fair {
      var t :| FairFrom(data, t, script, 0);
      OpenSucceeds(data, t, script);
    }
    OpenGoes(data, script, fair);
    RoundsStart(chunk, |data|);
    var f := new Upload(script);
    OpenKeeps(script);
    var o := f.Open();
    PeerPrefix(f.State());
    if o < 0 {
      NothingSent();
      var none := f.Peer();
      return Report(false, false, false, [], 0, none);
    }
    var i, calls, failed := 0, 0, false;
    var taken, before := [], 0;
    ghost var first: seq<seq<Byte>> := [];
    assert data[..0] == [];
    while i < |data| && (goOn || !failed)
      invariant 0 <= i <= |data| && fresh(f) && fresh(f.buf) && f.InBounds()
      invariant 0 <= calls && Rounds(calls, chunk, i, |data|)
      invariant !failed ==> Going(f.State(), data, i, fair)
      invariant failed ==>
                  && !fair
                  && AfterFailure(f.State(), first) && Concat(first) == taken <= data && before == |first|
                  && SEGSIZE * f.block + f.end <= i + SEGSIZE * (calls + 1) && (!goOn ==> SEGSIZE * f.block <= |data|)
      decreases |data| - i
    {
      var n := if chunk < |data| - i then chunk else |data| - i;
      assert data[..i] + data[i..i + n] == data[..i + n] <= data;
      if failed {
        RoundsBound(calls, chunk, i, |data|);
        WriteAfter(f.State(), data[i..i + n], first);
        var _ := f.Write(data[i..i + n]);
      } else {
        GoesOn(f.State(), data, i, n, fair);
        var w := f.Write(data[i..i + n]);
        failed := w < 0;
        if failed {
          taken, before, first := data[..f.foffs], f.block, f.blocks;
        }
      }
      RoundsStep(calls, chunk, i, |data|);
      i := i + n;
      calls := calls + 1;
    }
    if failed {
      RoundsBound(calls, chunk, i, |data|);
      CloseAfter(f.State(), first);
    } else {
      assert data[..i] == data;
      taken, before := data, f.block;
      GoneWell(f.State(), data, fair);
    }
    var _, flushed := f.Close();
    var peer := f.Peer();
    if failed {
      PeerAfterFailure(f.State(), first);
    }
    r := Report(true, failed, flushed, taken, before, peer);
  }

  /** No write has failed, and none will when the script is fair. */
  ghost predicate Going(c: Client, data: seq<Byte>, i: nat, fair: bool) {
    i <= |data| && Valid(c, data[..i]) && (fair ==> GoesWell(c, data, i))
  }

  lemma OpenGoes(data: seq<Byte>, script: seq<Action>, fair: bool)
    requires fair ==> var r := WrqRun(FreshClient(script), 0, 0); r.ok && GoesWell(r.c, data, 0)
    ensures var r := WrqRun(FreshClient(script), 0, 0); r.ok ==> Going(r.c, data, 0, fair)
  {
    hide WrqRun, Valid, GoesWell;
    OpenKeeps(script);
    assert data[..0] == [];
  }

  /** One write call of an upload that has not failed yet. */
  lemma GoesOn(c: Client, data: seq<Byte>, i: nat, n: nat, fair: bool)
    requires Going(c, data, i, fair) && i + n <= |data| < LIMIT
    ensures |c.buf| == SEGSIZE && c.end <= SEGSIZE
    ensures
      var r := WriteRun(c, data[i..i + n]);
      if r.ok then Going(r.c, data, i + n, fair)
      else
        && !fair && r.c.foffs <= i + n && AfterFailure(r.c, r.c.blocks) && Concat(r.c.blocks) == data[..r.c.foffs]
        && r.c.block == |r.c.blocks| && SEGSIZE * r.c.block == r.c.foffs && r.c.end == SEGSIZE
  {
    hide Valid, Failed, AfterFailure, GoesWell, WriteRun, Concat;
    InOrder(c, data[..i]);
    assert data[..i] + data[i..i + n] == data[..i + n];
    WriteKeeps(c, data[i..i + n], data[..i]);
    if fair {
      WriteSucceeds(c, data[i..i + n], data, i);
    }
    var r := WriteRun(c, data[i..i + n]);
    if !r.ok {
      assert data[..i + n][..r.c.foffs] == data[..r.c.foffs];
      FailedIsAfter(r.c, data[..r.c.foffs]);
      FailedSize(r.c, data[..r.c.foffs]);
    }
  }

  /** Closing an upload that has not failed. */
  lemma GoneWell(c: Client, data: seq<Byte>, fair: bool)
    requires Going(c, data, |data|, fair) && |data| < LIMIT
    ensures |c.buf| == SEGSIZE && c.end <= SEGSIZE
    ensures
      var r := CloseRun(c);
      var p := PeerOf(r.c.net, r.c.port);
      p.stored <= data && (r.ok ==> p.stored == data && p.done) && (fair ==> r.ok)
  {
    hide Valid, GoesWell, CloseRun, PeerOf;
    assert data[..|data|] == data;
    InOrder(c, data);
    CloseInOrder(c, data);
    if fair {
      CloseSucceeds(c, data);
    }
  }

  lemma FailedSize(c: Client, written: seq<Byte>)
    requires Failed(c, written)
    ensures Concat(c.blocks) == written && c.block == |c.blocks| && SEGSIZE * c.block == |written| && c.end == SEGSIZE
  {
    ConcatFull(c.blocks);
  }

  /** How often a loop in steps of `chunk` has gone round when it is at i. */
  predicate Rounds(calls: nat, chunk: nat, i: nat, size: nat) {
    i <= size && if i < size then calls * chunk == i else calls == 0 || (calls - 1) * chunk <= size
  }

  lemma RoundsStart(chunk: nat, size: nat)
    ensures Rounds(0, chunk, 0, size)
  {
  }

  lemma RoundsStep(calls: nat, chunk: nat, i: nat, size: nat)
    requires chunk > 0 && i < size && Rounds(calls, chunk, i, size)
    ensures Rounds(calls + 1, chunk, i + if chunk < size - i then chunk else size - i, size)
  {
    assert (calls + 1) * chunk == calls * chunk + chunk;
  }

  lemma RoundsBound(calls: nat, chunk: nat, i: nat, size: nat)
    requires chunk > 0 && Rounds(calls, chunk, i, size)
    ensures calls <= size / chunk + 1 && (i < size ==> calls <= size / chunk)
  {
    if i < size && calls > size / chunk {
      MulLessEq(size / chunk + 1, calls, chunk);
    }
    if i == size && calls > size / chunk + 1 {
      MulLessEq(size / chunk + 1, calls - 1, chunk);
    }
  }

  lemma MulLessEq(a: nat, b: nat, c: nat)
    requires a <= b
    ensures a * c <= b * c
  {
  }
}
