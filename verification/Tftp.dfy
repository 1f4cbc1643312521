/** The TFTP download client of the `tftp` command, run against an honest server
    over a network that drops, duplicates, delays and reorders datagrams
    (RFC 1350, sections 2, 5 and 6). */
module Tftp {
  import opened Bytes

  const OPCODE_RRQ: U16 := 1
  const OPCODE_DATA: U16 := 3
  const OPCODE_ACK: U16 := 4
  const OPCODE_ERROR: U16 := 5
  const BLOCK_SIZE: nat := 512
  const MAX_RETRIES: nat := 3
  /** `b"octet"`. */
  const MODE_OCTET: seq<Byte> := [111, 99, 116, 101, 116]

  datatype Address = Address(host: string, port: nat)

  /** How the client's deferred has fired; the port is closed once it has. */
  datatype Outcome = Pending | Success | Failure

  datatype Datagram = Datagram(bytes: seq<Byte>, dest: Address)

  /** Where the client connects to and what it asks for. */
  datatype Request = Request(server: Address, filename: seq<Byte>)

  datatype Client = Client(
    currentBlock: U16,
    bytesReceived: nat,
    retryCount: nat,
    timerArmed: bool,
    serverTid: Option<Address>,
    lastPacket: seq<Byte>,
    artifact: seq<Byte>,
    outcome: Outcome)

  const NewClient := Client(0, 0, 0, false, None, [], [], Pending)

  function RrqPacket(req: Request): seq<Byte> {
    PackU16(OPCODE_RRQ) + req.filename + [0] + MODE_OCTET + [0]
  }

  function AckPacket(block: U16): seq<Byte> {
    PackU16(OPCODE_ACK) + PackU16(block)
  }

  function Opcode(d: seq<Byte>): U16
    requires |d| >= 2
  {
    UnpackU16(d[..2])
  }

  function BlockNumber(d: seq<Byte>): U16
    requires |d| >= 4
  {
    UnpackU16(d[2..4])
  }

  // ---- What each handler does to the client --------------------------------

  function AfterRrq(req: Request, c: Client): (Client, seq<Datagram>) {
    (c.(timerArmed := true), [Datagram(RrqPacket(req), req.server)])
  }

  function AfterAck(req: Request, c: Client, block: U16): (Client, seq<Datagram>) {
    var dest := if c.serverTid.Some? then c.serverTid.value else req.server;
    (c.(lastPacket := AckPacket(block), timerArmed := true), [Datagram(AckPacket(block), dest)])
  }

  function AfterData(req: Request, c: Client, d: seq<Byte>): (Client, seq<Datagram>)
    requires |d| >= 4
  {
    var block, data := BlockNumber(d), d[4..];
    if block == c.currentBlock as int + 1 then
      var c1 := c.(currentBlock := block,
                   bytesReceived := c.bytesReceived + |data|,
                   artifact := c.artifact + data);
      var (c2, sent) := AfterAck(req, c1, block);
      if |data| < BLOCK_SIZE
      then (c2.(timerArmed := false, outcome := Success), sent)
      else (c2, sent)
    else if block == c.currentBlock then
      AfterAck(req, c, block)
    else
      (c, [])
  }

  function AfterError(c: Client, d: seq<Byte>): Client {
    if |d| < 5 then c else c.(timerArmed := false, outcome := Failure)
  }

  function AfterDatagram(req: Request, c: Client, d: seq<Byte>, from: Address): (Client, seq<Datagram>) {
    if |d| < 4 then
      (c, [])
    else
      var c1 := c.(serverTid := if c.serverTid.None? then Some(from) else c.serverTid,
                   timerArmed := false,
                   retryCount := 0);
      if Opcode(d) == OPCODE_DATA then
        AfterData(req, c1, d)
      else if Opcode(d) == OPCODE_ERROR then
        (AfterError(c1, d), [])
      else
        (c1, [])
  }

  function AfterTimeout(req: Request, c: Client): (Client, seq<Datagram>)
  {
    var c1 := c.(retryCount := c.retryCount + 1, timerArmed := false);
    if c1.retryCount >= MAX_RETRIES then
      (c1.(outcome := Failure), [])
    else if c1.currentBlock == 0 then
      AfterRrq(req, c1)
    else
      AfterAck(req, c1, c1.currentBlock)
  }

  // ---- The client object ---------------------------------------------------

  class TftpClient {
    const req: Request
    var currentBlock: U16
    var lastPacket: seq<Byte>
    var retryCount: nat
    var timerArmed: bool
    var bytesReceived: nat
    var serverTid: Option<Address>
    var artifact: seq<Byte>
    var outcome: Outcome

    function State(): Client
      reads this
    {
      Client(currentBlock, bytesReceived, retryCount, timerArmed, serverTid, lastPacket, artifact, outcome)
    }

    constructor (req: Request)
      ensures this.req == req && State() == NewClient
    {
      this.req := req;
      currentBlock, lastPacket, retryCount, timerArmed := 0, [], 0, false;
      bytesReceived, serverTid, artifact, outcome := 0, None, [], Pending;
    }

    method StartProtocol() returns (sent: seq<Datagram>)
      modifies this
      ensures (State(), sent) == AfterRrq(req, old(State()))
    {
      sent := SendRrq();
    }

    method SendRrq() returns (sent: seq<Datagram>)
      modifies this
      ensures (State(), sent) == AfterRrq(req, old(State()))
    {
      sent := [Datagram(RrqPacket(req), req.server)];
      timerArmed := true;
    }

    method SendAck(block: U16) returns (sent: seq<Datagram>)
      modifies this
      ensures (State(), sent) == AfterAck(req, old(State()), block)
    {
      var packet := PackU16(OPCODE_ACK) + PackU16(block);
      if serverTid.Some? {
        sent := [Datagram(packet, serverTid.value)];
      } else {
        sent := [Datagram(packet, req.server)];
      }
      lastPacket := packet;
      timerArmed := true;
    }

    method DatagramReceived(d: seq<Byte>, from: Address) returns (sent: seq<Datagram>)
      modifies this
      ensures (State(), sent) == AfterDatagram(req, old(State()), d, from)
    {
      if |d| < 4 {
        return [];
      }
      var opcode := UnpackU16(d[..2]);
      if serverTid.None? {
        serverTid := Some(from);
      }
      timerArmed := false;
      retryCount := 0;
      if opcode == OPCODE_DATA {
        sent := HandleData(d);
      } else if opcode == OPCODE_ERROR {
        HandleError(d);
        sent := [];
      } else {
        sent := [];
      }
    }

    method HandleData(d: seq<Byte>) returns (sent: seq<Datagram>)
      requires |d| >= 4
      modifies this
      ensures (State(), sent) == AfterData(req, old(State()), d)
    {
      var block, data := UnpackU16(d[2..4]), d[4..];
      if block == currentBlock as int + 1 {
        currentBlock := block;
        bytesReceived := bytesReceived + |data|;
        artifact := artifact + data;
        sent := SendAck(block);
        if |data| < BLOCK_SIZE {
          timerArmed := false;
          outcome := Success;
        }
      } else if block == currentBlock {
        sent := SendAck(block);
      } else {
        sent := [];
      }
    }

    method HandleError(d: seq<Byte>)
      modifies this
      ensures State() == AfterError(old(State()), d)
    {
      if |d| < 5 {
        return;
      }
      timerArmed := false;
      outcome := Failure;
    }

    method HandleTimeout() returns (sent: seq<Datagram>)
      modifies this
      ensures (State(), sent) == AfterTimeout(req, old(State()))
    {
      timerArmed := false;
      retryCount := retryCount + 1;
      if retryCount >= MAX_RETRIES {
        outcome := Failure;
        return [];
      }
      if currentBlock == 0 {
        sent := SendRrq();
      } else {
        sent := SendAck(currentBlock);
      }
    }
  }

  // ---- The honest server and the network -----------------------------------

  /** The file takes this many blocks; the last one is shorter than 512 bytes, possibly empty. */
  function LastBlock(file: seq<Byte>): nat {
    |file| / 512 + 1
  }

  /** The first `k` blocks of the file. */
  function Blocks(file: seq<Byte>, k: nat): seq<Byte> {
    file[..Min(512 * k, |file|)]
  }

  function Block(file: seq<Byte>, k: nat): seq<Byte>
    requires 1 <= k <= LastBlock(file)
  {
    file[512 * (k - 1)..Min(512 * k, |file|)]
  }

  /** The packets as the standard lays them out (section 5 of RFC 1350): a read request in octet mode, an
      acknowledgement, and block `k`, which the server counts without bound and numbers modulo 2^16. */
  function ReadRequest(filename: seq<Byte>): seq<Byte> {
    [0, 1] + filename + [0] + [111, 99, 116, 101, 116] + [0]
  }

  function Acknowledgement(n: U16): seq<Byte> {
    [0, 4, n / 0x100, n % 0x100]
  }

  function DataPacket(file: seq<Byte>, k: nat): seq<Byte>
    requires 1 <= k <= LastBlock(file)
  {
    var n := k % 0x1_0000;
    [0, 3, n / 0x100, n % 0x100] + Block(file, k)
  }

  /** The server has sent block `block` from the transfer identifier `tid`. */
  datatype Serving = Serving(tid: Address, block: nat)

  datatype Packet = Packet(bytes: seq<Byte>, from: Address)

  /** Every datagram ever sent stays in flight: any may arrive at any time, any number of times, or never. */
  datatype World = World(
    client: Client,
    served: set<Serving>,
    toServer: set<Datagram>,
    toClient: set<Packet>)

  function Sent(sent: seq<Datagram>): set<Datagram> {
    set d | d in sent
  }

  ghost predicate Init(req: Request, w: World) {
    w == World(AfterRrq(req, NewClient).0, {}, Sent(AfterRrq(req, NewClient).1), {})
  }

  /** Block 1 answers a read request that reached the server's port, from any transfer identifier; block k answers an
      acknowledgement of block k-1 sent to that identifier. */
  ghost predicate ServerStep(req: Request, file: seq<Byte>, w: World, w': World, tid: Address, k: nat) {
    && 1 <= k <= LastBlock(file)
    && (if k == 1
        then Datagram(ReadRequest(req.filename), req.server) in w.toServer
        else Serving(tid, k - 1) in w.served && Datagram(Acknowledgement((k - 1) % 0x1_0000), tid) in w.toServer)
    && w' == w.(served := w.served + {Serving(tid, k)}, toClient := w.toClient + {Packet(DataPacket(file, k), tid)})
  }

  /** A datagram that anyone may inject: not a DATA packet. */
  predicate Stray(d: seq<Byte>) {
    |d| < 4 || d[..2] != [0, 3]
  }

  ghost predicate DeliverStep(req: Request, w: World, w': World, d: seq<Byte>, from: Address) {
    && w.client.outcome.Pending?
    && (Packet(d, from) in w.toClient || Stray(d))
    && var (c, sent) := AfterDatagram(req, w.client, d, from);
       w' == w.(client := c, toServer := w.toServer + Sent(sent))
  }

  ghost predicate TimeoutStep(req: Request, w: World, w': World) {
    && w.client.outcome.Pending?
    && w.client.timerArmed
    && var (c, sent) := AfterTimeout(req, w.client);
       w' == w.(client := c, toServer := w.toServer + Sent(sent))
  }

  ghost predicate Step(req: Request, file: seq<Byte>, w: World, w': World) {
    || (exists tid, k :: ServerStep(req, file, w, w', tid, k))
    || (exists d, from :: DeliverStep(req, w, w', d, from))
    || TimeoutStep(req, w, w')
  }

  ghost predicate Run(req: Request, file: seq<Byte>, run: seq<World>) {
    && |run| > 0
    && Init(req, run[0])
    && forall i :: 0 <= i < |run| - 1 ==> Step(req, file, run[i], run[i + 1])
  }

  // ---- Safety --------------------------------------------------------------

  /** What the client holds: exactly the blocks it has acknowledged. */
  ghost predicate ClientSafe(file: seq<Byte>, c: Client) {
    && c.currentBlock <= LastBlock(file)
    && c.artifact == Blocks(file, c.currentBlock)
    && c.bytesReceived == |c.artifact|
    && (c.outcome.Success? <==> c.currentBlock == LastBlock(file))
  }

  ghost predicate IsBlock(file: seq<Byte>, w: World, p: Packet) {
    exists s :: s in w.served && 1 <= s.block <= LastBlock(file) && p == Packet(DataPacket(file, s.block), s.tid)
  }

  /** The server is never more than one block ahead of the client. */
  ghost predicate NetworkSafe(req: Request, file: seq<Byte>, w: World) {
    && (forall s :: s in w.served ==> 1 <= s.block <= LastBlock(file) && s.block <= w.client.currentBlock as int + 1)
    && (forall p :: p in w.toClient ==> IsBlock(file, w, p))
    && (forall d, n: U16 :: d in w.toServer && d.bytes == Acknowledgement(n) ==> 1 <= n <= w.client.currentBlock)
  }

  ghost predicate Safe(req: Request, file: seq<Byte>, w: World) {
    ClientSafe(file, w.client) && NetworkSafe(req, file, w)
  }

  lemma BlocksGrow(file: seq<Byte>, k: nat)
    requires 1 <= k <= LastBlock(file)
    ensures Blocks(file, k - 1) + Block(file, k) == Blocks(file, k)
    ensures |Block(file, k)| < BLOCK_SIZE <==> k == LastBlock(file)
    ensures |Block(file, k)| <= BLOCK_SIZE
  {
  }

  lemma DataPacketParses(file: seq<Byte>, k: nat)
    requires 1 <= k <= LastBlock(file)
    ensures var d := DataPacket(file, k);
            |d| >= 4 && Opcode(d) == OPCODE_DATA && BlockNumber(d) == k % 0x1_0000 && d[4..] == Block(file, k)
  {
    var d := DataPacket(file, k);
    var n := k % 0x1_0000;
    assert d[..2] == PackU16(OPCODE_DATA) && d[2..4] == PackU16(n);
    U16RoundTrip(OPCODE_DATA);
    U16RoundTrip(n);
  }

  /** The client's packets are those of the standard. */
  lemma PacketsOnWire(req: Request, n: U16)
    ensures RrqPacket(req) == ReadRequest(req.filename) && AckPacket(n) == Acknowledgement(n)
  {
    assert PackU16(OPCODE_RRQ) == [0, 1] && PackU16(OPCODE_ACK) == [0, 4];
  }

  lemma AcksDiffer(m: U16, n: U16, filename: seq<Byte>)
    ensures Acknowledgement(m) == Acknowledgement(n) ==> m == n
    ensures Acknowledgement(m) != ReadRequest(filename)
  {
    var a, b := Acknowledgement(m), Acknowledgement(n);
    if a == b {
      assert a[2] == b[2] && a[3] == b[3];
    }
    assert a[1] == 4 && ReadRequest(filename)[1] == 1;
  }

  lemma InitSafe(req: Request, file: seq<Byte>, w: World)
    requires Init(req, w)
    ensures Safe(req, file, w)
  {
    PacketsOnWire(req, 0);
    forall d, n: U16 | d in w.toServer && d.bytes == Acknowledgement(n) ensures false {
      AcksDiffer(n, n, req.filename);
    }
  }

  lemma ServerStepSafe(req: Request, file: seq<Byte>, w: World, w': World, tid: Address, k: nat)
    requires Safe(req, file, w) && ServerStep(req, file, w, w', tid, k)
    ensures Safe(req, file, w')
  {
    forall p | p in w'.toClient
      ensures IsBlock(file, w', p)
    {
      if p in w.toClient {
        var s :| s in w.served && 1 <= s.block <= LastBlock(file) && p == Packet(DataPacket(file, s.block), s.tid);
        assert s in w'.served;
      } else {
        assert Serving(tid, k) in w'.served;
      }
    }
    if k > 1 {
      assert Datagram(Acknowledgement((k - 1) % 0x1_0000), tid) in w.toServer;
    }
  }

  /** Acknowledging a block the client already holds keeps the network invariant. */
  lemma AckSafe(req: Request, file: seq<Byte>, w: World, w': World, block: U16, dest: Address)
    requires NetworkSafe(req, file, w)
    requires w'.served == w.served && w'.toClient == w.toClient
    requires w'.client.currentBlock >= w.client.currentBlock
    requires 1 <= block <= w'.client.currentBlock
    requires w'.toServer == w.toServer + {Datagram(AckPacket(block), dest)}
    ensures NetworkSafe(req, file, w')
  {
    PacketsOnWire(req, block);
    forall d, n: U16 | d in w'.toServer && d.bytes == Acknowledgement(n) ensures 1 <= n <= w'.client.currentBlock {
      AcksDiffer(n, block, []);
    }
    forall p | p in w'.toClient
      ensures IsBlock(file, w', p)
    {
      assert IsBlock(file, w, p);
    }
  }

  /** Nothing new on the network. */
  lemma SilentSafe(req: Request, file: seq<Byte>, w: World, w': World)
    requires NetworkSafe(req, file, w)
    requires w'.served == w.served && w'.toClient == w.toClient && w'.toServer == w.toServer
    requires w'.client.currentBlock >= w.client.currentBlock
    ensures NetworkSafe(req, file, w')
  {
    forall p | p in w'.toClient
      ensures IsBlock(file, w', p)
    {
      assert IsBlock(file, w, p);
    }
  }

  /** What a DATA packet does: the expected block is added, and it or a repeated one is acknowledged to the server's
      identifier, which the first datagram shows. */
  lemma DataReaction(req: Request, c: Client, d: seq<Byte>, from: Address)
    requires |d| >= 4 && Opcode(d) == OPCODE_DATA
    ensures var (c', sent) := AfterDatagram(req, c, d, from);
            var block, data, dest := BlockNumber(d), d[4..], Identifier(c, from);
            && c'.serverTid == Some(dest)
            && if block == c.currentBlock as int + 1 then
                 && sent == [Datagram(AckPacket(block), dest)]
                 && c'.currentBlock == block && c'.artifact == c.artifact + data
                 && c'.bytesReceived == c.bytesReceived + |data|
                 && c'.outcome == if |data| < 512 then Success else c.outcome
               else
                 && c'.currentBlock == c.currentBlock && c'.artifact == c.artifact
                 && c'.bytesReceived == c.bytesReceived && c'.outcome == c.outcome
                 && sent == if block == c.currentBlock then [Datagram(AckPacket(block), dest)] else []
  {
  }

  function Identifier(c: Client, from: Address): Address {
    if c.serverTid.Some? then c.serverTid.value else from
  }

  lemma DeliverDataSafe(req: Request, file: seq<Byte>, w: World, w': World, k: nat, from: Address)
    requires Safe(req, file, w) && Serving(from, k) in w.served
    requires w.client.outcome.Pending?
    requires 1 <= k <= LastBlock(file)
    requires DeliverStep(req, w, w', DataPacket(file, k), from)
    ensures Safe(req, file, w')
  {
    var d := DataPacket(file, k);
    DataPacketParses(file, k);
    BlocksGrow(file, k);
    DataReaction(req, w.client, d, from);
    var block, dest := BlockNumber(d), Identifier(w.client, from);
    if block == w.client.currentBlock as int + 1 || block == w.client.currentBlock {
      assert k == block;
      SentOne(Datagram(AckPacket(block), dest));
      BlockTaken(file, w.client, w'.client, k);
      AckSafe(req, file, w, w', block, dest);
    } else {
      assert w'.toServer == w.toServer;
      SilentSafe(req, file, w, w');
    }
  }

  lemma BlockTaken(file: seq<Byte>, c: Client, c': Client, k: nat)
    requires ClientSafe(file, c) && 1 <= k <= LastBlock(file) && c.outcome.Pending?
    requires if k == c.currentBlock as int + 1 then
               && c'.currentBlock == k && c'.artifact == c.artifact + Block(file, k)
               && c'.bytesReceived == c.bytesReceived + |Block(file, k)|
               && c'.outcome == if |Block(file, k)| < 512 then Success else c.outcome
             else
               && c'.currentBlock == c.currentBlock && c'.artifact == c.artifact
               && c'.bytesReceived == c.bytesReceived && c'.outcome == c.outcome
    ensures ClientSafe(file, c')
  {
    BlocksGrow(file, k);
  }

  lemma SentOne(d: Datagram)
    ensures Sent([d]) == {d}
  {
  }

  lemma DeliverStepSafe(req: Request, file: seq<Byte>, w: World, w': World, d: seq<Byte>, from: Address)
    requires Safe(req, file, w) && DeliverStep(req, w, w', d, from)
    ensures Safe(req, file, w')
  {
    if Packet(d, from) in w.toClient {
      assert IsBlock(file, w, Packet(d, from));
      var s :| s in w.served && 1 <= s.block <= LastBlock(file) && Packet(d, from) == Packet(DataPacket(file, s.block), s.tid);
      assert s == Serving(from, s.block);
      DeliverDataSafe(req, file, w, w', s.block, from);
    } else {
      StrayIsNoData(d);
      assert w'.toServer == w.toServer;
      SilentSafe(req, file, w, w');
    }
  }

  lemma StrayIsNoData(d: seq<Byte>)
    requires Stray(d)
    ensures |d| >= 4 ==> Opcode(d) != OPCODE_DATA
  {
    if |d| >= 4 {
      assert d[..2] == [d[0], d[1]];
    }
  }

  lemma TimeoutStepSafe(req: Request, file: seq<Byte>, w: World, w': World)
    requires Safe(req, file, w) && TimeoutStep(req, w, w')
    ensures Safe(req, file, w')
  {
    var c := w.client;
    var sent := AfterTimeout(req, c).1;
    if c.retryCount + 1 >= MAX_RETRIES {
      assert w'.toServer == w.toServer;
      SilentSafe(req, file, w, w');
    } else if c.currentBlock == 0 {
      assert Sent(sent) == {Datagram(RrqPacket(req), req.server)};
      PacketsOnWire(req, 0);
      forall d, n: U16 | d in w'.toServer && d.bytes == Acknowledgement(n) ensures 1 <= n <= w.client.currentBlock {
        AcksDiffer(n, n, req.filename);
      }
      forall p | p in w'.toClient
        ensures IsBlock(file, w', p)
      {
        assert IsBlock(file, w, p);
      }
    } else {
      assert sent == [Datagram(AckPacket(c.currentBlock), sent[0].dest)] && Sent(sent) == {sent[0]};
      AckSafe(req, file, w, w', c.currentBlock, sent[0].dest);
    }
  }

  /** In every state of every run the artifact is the prefix of the file that the
      client has acknowledged, and success means the whole file. */
  lemma {:induction false} TransferSafe(req: Request, file: seq<Byte>, run: seq<World>, i: nat)
    requires Run(req, file, run) && i < |run|
    ensures Safe(req, file, run[i])
  {
    if i == 0 {
      InitSafe(req, file, run[0]);
    } else {
      TransferSafe(req, file, run, i - 1);
      var w, w' := run[i - 1], run[i];
      assert Step(req, file, run[i - 1], run[i - 1 + 1]);
      if tid, k :| ServerStep(req, file, w, w', tid, k) {
        ServerStepSafe(req, file, w, w', tid, k);
      } else if d, from :| DeliverStep(req, w, w', d, from) {
        DeliverStepSafe(req, file, w, w', d, from);
      } else {
        TimeoutStepSafe(req, file, w, w');
      }
    }
  }

  /** Some run succeeds in which the server serves from `tid` only. */
  ghost predicate CanSucceed(req: Request, file: seq<Byte>, tid: Address) {
    exists run: seq<World> :: Run(req, file, run) && run[|run| - 1].client.outcome.Success? && ServedFrom(run[|run| - 1], tid)
  }

  ghost predicate ServedFrom(w: World, tid: Address) {
    forall s :: s in w.served ==> s.tid == tid
  }

  lemma RunExtends(req: Request, file: seq<Byte>, run: seq<World>, w: World)
    requires Run(req, file, run) && Step(req, file, run[|run| - 1], w)
    ensures Run(req, file, run + [w])
  {
    var longer := run + [w];
    forall i | 0 <= i < |longer| - 1 ensures Step(req, file, longer[i], longer[i + 1]) {
      if i < |run| - 1 {
        assert Step(req, file, run[i], run[i + 1]);
      }
    }
  }

  /** Block `k` is acknowledged and its acknowledgement is on its way to the server; block 0 stands for the read request. */
  ghost predicate Reached(req: Request, w: World, tid: Address, k: nat) {
    && w.client.currentBlock == k
    && !w.client.outcome.Failure?
    && ServedFrom(w, tid)
    && (if k == 0
        then Datagram(ReadRequest(req.filename), req.server) in w.toServer && w.client.serverTid.None?
        else Serving(tid, k) in w.served && Datagram(Acknowledgement(k), tid) in w.toServer && w.client.serverTid == Some(tid))
  }

  /** The server answers and its answer arrives. */
  lemma NextBlock(req: Request, file: seq<Byte>, w: World, tid: Address, k: nat) returns (w1: World, w2: World)
    requires 1 <= k <= LastBlock(file) && k < 0x1_0000
    requires ClientSafe(file, w.client) && Reached(req, w, tid, k - 1)
    ensures Step(req, file, w, w1) && Step(req, file, w1, w2) && Reached(req, w2, tid, k)
  {
    var d := DataPacket(file, k);
    DataPacketParses(file, k);
    PacketsOnWire(req, k);
    w1 := w.(served := w.served + {Serving(tid, k)}, toClient := w.toClient + {Packet(d, tid)});
    assert ServerStep(req, file, w, w1, tid, k);
    DataReaction(req, w.client, d, tid);
    var (c, sent) := AfterDatagram(req, w1.client, d, tid);
    assert sent == [Datagram(Acknowledgement(k), tid)];
    SentOne(sent[0]);
    w2 := w1.(client := c, toServer := w1.toServer + Sent(sent));
    assert DeliverStep(req, w1, w2, d, tid);
  }

  lemma FirstWorld(req: Request) returns (w: World)
    ensures Init(req, w) && Datagram(ReadRequest(req.filename), req.server) in w.toServer
    ensures w.client.currentBlock == 0 && w.client.outcome.Pending? && w.client.serverTid.None? && w.served == {}
  {
    var (c, sent) := AfterRrq(req, NewClient);
    w := World(c, {}, Sent(sent), {});
    PacketsOnWire(req, 0);
    assert sent[0] in sent;
  }

  /** With no losses the client reaches every block, whatever identifier the server chooses. */
  lemma {:induction false} ReachBlock(req: Request, file: seq<Byte>, tid: Address, k: nat) returns (run: seq<World>)
    requires k <= LastBlock(file) && k < 0x1_0000
    ensures Run(req, file, run) && Reached(req, run[|run| - 1], tid, k)
  {
    if k == 0 {
      var w := FirstWorld(req);
      run := [w];
    } else {
      run := ReachBlock(req, file, tid, k - 1);
      TransferSafe(req, file, run, |run| - 1);
      var w1, w2 := NextBlock(req, file, run[|run| - 1], tid, k);
      RunExtends(req, file, run, w1);
      RunExtends(req, file, run + [w1], w2);
      run := run + [w1] + [w2];
    }
  }

  /** Whatever transfer identifier the server serves from, a transfer can succeed exactly when the file fits in 65535
      blocks, as the client's expected block number never wraps; every success delivers the whole file. */
  lemma SuccessExactlyWhenFileFits(req: Request, file: seq<Byte>, tid: Address)
    ensures CanSucceed(req, file, tid) <==> |file| < 512 * 0xFFFF
    ensures forall run: seq<World> :: Run(req, file, run) && run[|run| - 1].client.outcome.Success? ==>
              run[|run| - 1].client.artifact == file && run[|run| - 1].client.bytesReceived == |file|
  {
    forall run: seq<World> | Run(req, file, run) && run[|run| - 1].client.outcome.Success?
      ensures |file| < 512 * 0xFFFF && run[|run| - 1].client.artifact == file && run[|run| - 1].client.bytesReceived == |file|
    {
      TransferSafe(req, file, run, |run| - 1);
    }
    if |file| < 512 * 0xFFFF {
      var run := ReachBlock(req, file, tid, LastBlock(file));
      TransferSafe(req, file, run, |run| - 1);
    }
  }

  // ---- Progress ------------------------------------------------------------

  predicate Waiting(c: Client) {
    c.outcome.Pending? && c.timerArmed
  }

  /** The datagrams after which a waiting client has neither finished nor a timer left to retransmit. */
  predicate LosesTimer(c: Client, d: seq<Byte>) {
    && |d| >= 4
    && match Opcode(d)
       case 3 => BlockNumber(d) != c.currentBlock && BlockNumber(d) != c.currentBlock as int + 1
       case 5 => |d| == 4
       case _ => true
  }

  /** Retransmission survives a datagram exactly when the datagram is not one of these. */
  lemma TimerLostExactlyWhen(req: Request, c: Client, d: seq<Byte>, from: Address)
    requires Waiting(c)
    ensures var c' := AfterDatagram(req, c, d, from).0;
            c'.outcome.Pending? && !c'.timerArmed <==> LosesTimer(c, d)
  {
    if |d| >= 4 {
      var c1 := c.(serverTid := if c.serverTid.None? then Some(from) else c.serverTid,
                   timerArmed := false, retryCount := 0);
      assert AfterDatagram(req, c, d, from) ==
        (if Opcode(d) == OPCODE_DATA then AfterData(req, c1, d)
         else if Opcode(d) == OPCODE_ERROR then (AfterError(c1, d), []) else (c1, []));
    }
  }

  // ---- The timer over whole runs ---------------------------------------------

  datatype Input = Received(d: seq<Byte>, from: Address) | TimedOut

  function Reaction(req: Request, c: Client, input: Input): Client {
    match input
    case Received(d, from) => AfterDatagram(req, c, d, from).0
    case TimedOut => AfterTimeout(req, c).0
  }

  /** The client after its first request and then these inputs. */
  function ClientAfter(req: Request, inputs: seq<Input>): Client {
    if inputs == [] then AfterRrq(req, NewClient).0
    else Reaction(req, ClientAfter(req, inputs[..|inputs| - 1]), inputs[|inputs| - 1])
  }

  /** Inputs come while the transfer is pending, and a time-out only from a timer that is set. */
  predicate Plays(req: Request, inputs: seq<Input>) {
    inputs != [] ==>
      var c := ClientAfter(req, inputs[..|inputs| - 1]);
      Plays(req, inputs[..|inputs| - 1]) && c.outcome.Pending? && (inputs[|inputs| - 1].TimedOut? ==> c.timerArmed)
  }

  /** The `k`th input took the timer away, and only datagrams too short to be looked at came after it. */
  predicate TookTimer(req: Request, inputs: seq<Input>, k: nat)
    requires k < |inputs|
  {
    && inputs[k].Received?
    && LosesTimer(ClientAfter(req, inputs[..k]), inputs[k].d)
    && forall j :: k < j < |inputs| ==> inputs[j].Received? && |inputs[j].d| < 4
  }

  lemma TimerAfterInput(req: Request, c: Client, input: Input)
    requires c.outcome.Pending? && (input.TimedOut? ==> c.timerArmed)
    ensures var c' := Reaction(req, c, input);
            c'.outcome.Pending? && !c'.timerArmed <==>
            input.Received? && (LosesTimer(c, input.d) || (|input.d| < 4 && !c.timerArmed))
  {
  }

  /** In every history of a client its transfer is pending without a timer exactly when, of the inputs since its
      last packet, the last that it looked at was a datagram that takes the timer away. */
  lemma {:induction false} TimerGoneExactlyWhen(req: Request, inputs: seq<Input>)
    requires Plays(req, inputs) && ClientAfter(req, inputs).outcome.Pending?
    ensures !ClientAfter(req, inputs).timerArmed <==> exists k :: 0 <= k < |inputs| && TookTimer(req, inputs, k)
    decreases |inputs|
  {
    if inputs != [] {
      var n := |inputs| - 1;
      var before, last := inputs[..n], inputs[n];
      var c := ClientAfter(req, before);
      TimerAfterInput(req, c, last);
      TimerGoneExactlyWhen(req, before);
      if last.Received? && LosesTimer(c, last.d) {
        assert TookTimer(req, inputs, n);
      } else if last.Received? && |last.d| < 4 {
        forall k | 0 <= k < n
          ensures TookTimer(req, inputs, k) <==> TookTimer(req, before, k)
        {
          assert inputs[..k] == before[..k];
        }
      }
    }
  }

  // ---- What the client sends, and how it ends ------------------------------

  function Reply(req: Request, c: Client, input: Input): seq<Datagram> {
    match input
    case Received(d, from) => AfterDatagram(req, c, d, from).1
    case TimedOut => AfterTimeout(req, c).1
  }

  /** Who sent the first datagram of at least four bytes. */
  function FirstSender(inputs: seq<Input>): Option<Address> {
    if inputs == [] then None
    else
      var before, last := FirstSender(inputs[..|inputs| - 1]), inputs[|inputs| - 1];
      if before.None? && last.Received? && |last.d| >= 4 then Some(last.from) else before
  }

  /** How often the timer has run out since the last such datagram. */
  function TimeoutsInARow(inputs: seq<Input>): nat {
    if inputs == [] then 0
    else
      var before, last := TimeoutsInARow(inputs[..|inputs| - 1]), inputs[|inputs| - 1];
      if last.TimedOut? then before + 1 else if |last.d| >= 4 then 0 else before
  }

  lemma {:induction false} ClientRemembers(req: Request, inputs: seq<Input>)
    requires Plays(req, inputs)
    ensures var c := ClientAfter(req, inputs);
            && c.serverTid == FirstSender(inputs)
            && (c.serverTid.None? ==> c.currentBlock == 0)
            && c.retryCount == TimeoutsInARow(inputs)
  {
    if inputs != [] {
      ClientRemembers(req, inputs[..|inputs| - 1]);
    }
  }

  predicate IsData(input: Input, block: nat) {
    input.Received? && |input.d| >= 4 && input.d[..2] == [0, 3] && input.d[2] as int * 0x100 + input.d[3] as int == block
  }

  lemma DataIs(d: seq<Byte>)
    requires |d| >= 4
    ensures Opcode(d) == d[0] as int * 0x100 + d[1] as int
    ensures BlockNumber(d) == d[2] as int * 0x100 + d[3] as int
    ensures Opcode(d) == OPCODE_DATA <==> d[..2] == [0, 3]
    ensures Opcode(d) == OPCODE_ERROR <==> d[..2] == [0, 5]
  {
    assert d[..2] == [d[0], d[1]];
  }

  /** In every history an input is answered by at most one packet: an acknowledgement of the block then held, to the
      sender of the first datagram, in answer to that block or its predecessor's successor, or when a first or second
      timer runs out after a block is held; or the read request, to the server's port, when one runs out before. */
  lemma RepliesGo(req: Request, inputs: seq<Input>, input: Input)
    requires Plays(req, inputs + [input])
    ensures var c, held := ClientAfter(req, inputs), ClientAfter(req, inputs + [input]).currentBlock;
            var all := inputs + [input];
            Reply(req, c, input) ==
            if input.TimedOut? && TimeoutsInARow(all) < 3 && held == 0 then [Datagram(ReadRequest(req.filename), req.server)]
            else if (input.TimedOut? && TimeoutsInARow(all) < 3) || IsData(input, c.currentBlock) || IsData(input, c.currentBlock as int + 1)
            then (if FirstSender(all).Some? then [Datagram(Acknowledgement(held), FirstSender(all).value)] else [])
            else []
  {
    var all := inputs + [input];
    assert all[..|inputs|] == inputs;
    ClientRemembers(req, inputs);
    ClientRemembers(req, all);
    PacketsOnWire(req, ClientAfter(req, all).currentBlock);
    if input.Received? && |input.d| >= 4 {
      DataIs(input.d);
    }
  }

  /** In every history an input ends the transfer exactly so: it succeeds by the expected block with less than 512 bytes
      of data, and fails by the third time-out in a row or an error packet of at least five bytes. */
  lemma EndsExactlyWhen(req: Request, inputs: seq<Input>, input: Input)
    requires Plays(req, inputs + [input])
    ensures var c, c' := ClientAfter(req, inputs), ClientAfter(req, inputs + [input]);
            && c.outcome.Pending?
            && (c'.outcome.Success? <==> IsData(input, c.currentBlock as int + 1) && |input.d| < 516)
            && (c'.outcome.Failure? <==> TimeoutsInARow(inputs + [input]) == 3
                                         || (input.Received? && |input.d| >= 5 && input.d[..2] == [0, 5]))
            && (if IsData(input, c.currentBlock as int + 1)
                then c'.artifact == c.artifact + input.d[4..] && c'.currentBlock == c.currentBlock as int + 1
                else c'.artifact == c.artifact && c'.currentBlock == c.currentBlock)
            && c'.bytesReceived - c.bytesReceived == |c'.artifact| - |c.artifact|
            && (c'.timerArmed ==> c'.outcome.Pending?)
  {
    var all := inputs + [input];
    assert all[..|inputs|] == inputs;
    ClientRemembers(req, inputs);
    if input.Received? && |input.d| >= 4 {
      DataIs(input.d);
    }
    PendingRetries(req, inputs);
  }

  lemma {:induction false} PendingRetries(req: Request, inputs: seq<Input>)
    requires Plays(req, inputs) && ClientAfter(req, inputs).outcome.Pending?
    ensures ClientAfter(req, inputs).retryCount < 3
  {
    if inputs != [] {
      PendingRetries(req, inputs[..|inputs| - 1]);
    }
  }

  /** Every run of the whole system gives its client such a history. */
  lemma {:induction false} RunPlays(req: Request, file: seq<Byte>, run: seq<World>) returns (inputs: seq<Input>)
    requires Run(req, file, run)
    ensures Plays(req, inputs) && ClientAfter(req, inputs) == run[|run| - 1].client
    decreases |run|
  {
    inputs := [];
    if |run| > 1 {
      var n := |run| - 1;
      inputs := RunPlays(req, file, run[..n]);
      var w, w' := run[n - 1], run[n];
      assert Step(req, file, w, w');
      if !(exists tid, k :: ServerStep(req, file, w, w', tid, k)) {
        var input := ClientStep(req, file, w, w');
        var before := inputs;
        inputs := before + [input];
        assert inputs[..|before|] == before;
      }
    }
  }

  lemma ClientStep(req: Request, file: seq<Byte>, w: World, w': World) returns (input: Input)
    requires Step(req, file, w, w') && !(exists tid, k :: ServerStep(req, file, w, w', tid, k))
    ensures w.client.outcome.Pending? && (input.TimedOut? ==> w.client.timerArmed)
    ensures w'.client == Reaction(req, w.client, input)
  {
    if d, from :| DeliverStep(req, w, w', d, from) {
      input := Received(d, from);
    } else {
      input := TimedOut;
    }
  }

  /** So progress is not promised: one datagram with an unknown opcode leaves a client that
      never retransmits, although the server has not answered yet. */
  lemma ProgressCanStop(req: Request, file: seq<Byte>) returns (run: seq<World>)
    ensures Run(req, file, run)
    ensures var w := run[|run| - 1];
            w.client.outcome.Pending? && !w.client.timerArmed && w.client.currentBlock == 0 && w.toClient == {}
  {
    var w0 := FirstWorld(req);
    var d := [0, 4, 0, 0];
    assert d[..2] == [0, 4];
    var (c, sent) := AfterDatagram(req, w0.client, d, req.server);
    var w1 := w0.(client := c, toServer := w0.toServer + Sent(sent));
    assert DeliverStep(req, w0, w1, d, req.server);
    run := [w0];
    RunExtends(req, file, run, w1);
    run := run + [w1];
  }
}
