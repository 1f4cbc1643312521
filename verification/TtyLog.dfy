/** The tty session log: the 24-byte little-endian record headers its writers append, and the
    reader that hashes what the attacker typed. */
module TtyLog {
  import opened Bytes

  const OP_OPEN := 1
  const OP_CLOSE := 2
  const OP_WRITE := 3
  const TYPE_OUTPUT := 2

  const HEADER_SIZE := 24

  type I32 = x: int | -0x8000_0000 <= x < 0x8000_0000

  type U32 = x: int | 0 <= x < 0x1_0000_0000

  // ---- The header format, `struct` code "<iLiiLL" ---------------------------

  datatype Header = Header(op: int, tty: int, length: int, direction: int, sec: int, usec: int)

  /** Little-endian, as two 16-bit halves. */
  function PackHalf(n: U16): (b: seq<Byte>)
    ensures |b| == 2
  {
    [n % 0x100, n / 0x100]
  }

  function UnpackHalf(b: seq<Byte>): U16
    requires |b| == 2
  {
    b[0] as int + 0x100 * b[1] as int
  }

  function PackU32(n: U32): (b: seq<Byte>)
    ensures |b| == 4
  {
    PackHalf(n % 0x1_0000) + PackHalf(n / 0x1_0000)
  }

  function UnpackU32(b: seq<Byte>): U32
    requires |b| == 4
  {
    UnpackHalf(b[..2]) + 0x1_0000 * UnpackHalf(b[2..])
  }

  /** Two's complement. */
  function PackI32(n: I32): (b: seq<Byte>)
    ensures |b| == 4
  {
    PackU32(if n < 0 then n + 0x1_0000_0000 else n)
  }

  function UnpackI32(b: seq<Byte>): I32
    requires |b| == 4
  {
    var u := UnpackU32(b);
    if u >= 0x8000_0000 then u - 0x1_0000_0000 else u
  }

  /** What `struct.pack` accepts; on anything else it raises. */
  predicate Fits(h: Header) {
    && -0x8000_0000 <= h.op < 0x8000_0000
    && 0 <= h.tty < 0x1_0000_0000
    && -0x8000_0000 <= h.length < 0x8000_0000
    && -0x8000_0000 <= h.direction < 0x8000_0000
    && 0 <= h.sec < 0x1_0000_0000
    && 0 <= h.usec < 0x1_0000_0000
  }

  function Pack(h: Header): (b: seq<Byte>)
    requires Fits(h)
    ensures |b| == HEADER_SIZE
  {
    PackI32(h.op) + PackU32(h.tty) + PackI32(h.length) + PackI32(h.direction) + PackU32(h.sec) + PackU32(h.usec)
  }

  function Unpack(b: seq<Byte>): (h: Header)
    requires |b| == HEADER_SIZE
    ensures Fits(h)
  {
    Header(UnpackI32(b[0..4]), UnpackU32(b[4..8]), UnpackI32(b[8..12]),
           UnpackI32(b[12..16]), UnpackU32(b[16..20]), UnpackU32(b[20..24]))
  }

  lemma HalfRoundTrip(n: U16)
    ensures UnpackHalf(PackHalf(n)) == n
  {
  }

  lemma HalfBytes(b: seq<Byte>)
    requires |b| == 2
    ensures PackHalf(UnpackHalf(b)) == b
  {
    var low, high := b[0] as int, b[1] as int;
    assert (low + 0x100 * high) % 0x100 == low && (low + 0x100 * high) / 0x100 == high;
  }

  lemma WordHalves(low: U16, high: U16)
    ensures (low + 0x1_0000 * high) % 0x1_0000 == low && (low + 0x1_0000 * high) / 0x1_0000 == high
  {
  }

  lemma U32RoundTrip(n: U32)
    ensures UnpackU32(PackU32(n)) == n
  {
    var low, high := n % 0x1_0000, n / 0x1_0000;
    var b := PackU32(n);
    assert b[..2] == PackHalf(low) && b[2..] == PackHalf(high);
    HalfRoundTrip(low);
    HalfRoundTrip(high);
  }

  lemma U32Bytes(b: seq<Byte>)
    requires |b| == 4
    ensures PackU32(UnpackU32(b)) == b
  {
    var low, high := UnpackHalf(b[..2]), UnpackHalf(b[2..]);
    WordHalves(low, high);
    HalfBytes(b[..2]);
    HalfBytes(b[2..]);
    assert b == b[..2] + b[2..];
  }

  lemma I32RoundTrip(n: I32)
    ensures UnpackI32(PackI32(n)) == n
  {
    U32RoundTrip(if n < 0 then n + 0x1_0000_0000 else n);
  }

  lemma I32Bytes(b: seq<Byte>)
    requires |b| == 4
    ensures PackI32(UnpackI32(b)) == b
  {
    U32Bytes(b);
  }

  /** Reading back a header that was written gives that header. */
  lemma HeaderRoundTrip(h: Header)
    requires Fits(h)
    ensures Unpack(Pack(h)) == h
  {
    var b := Pack(h);
    assert b[0..4] == PackI32(h.op) && b[4..8] == PackU32(h.tty) && b[8..12] == PackI32(h.length);
    assert b[12..16] == PackI32(h.direction) && b[16..20] == PackU32(h.sec) && b[20..24] == PackU32(h.usec);
    I32RoundTrip(h.op);
    U32RoundTrip(h.tty);
    I32RoundTrip(h.length);
    I32RoundTrip(h.direction);
    U32RoundTrip(h.sec);
    U32RoundTrip(h.usec);
  }

  /** Every 24 bytes are the header of exactly one record. */
  lemma HeaderBytes(b: seq<Byte>)
    requires |b| == HEADER_SIZE
    ensures Pack(Unpack(b)) == b
  {
    I32Bytes(b[0..4]);
    U32Bytes(b[4..8]);
    I32Bytes(b[8..12]);
    I32Bytes(b[12..16]);
    U32Bytes(b[16..20]);
    U32Bytes(b[20..24]);
    assert b == b[0..4] + b[4..8] + b[8..12] + b[12..16] + b[16..20] + b[20..24];
  }

  /** Four bytes of a header as a number, the least significant first. */
  function LittleEndian(b: seq<Byte>, i: nat): int
    requires i + 4 <= |b|
  {
    b[i] as int + 0x100 * (b[i + 1] as int) + 0x1_0000 * (b[i + 2] as int) + 0x100_0000 * (b[i + 3] as int)
  }

  /** The six numbers stand four bytes apart, negative ones as their two's complement. */
  lemma HeaderLayout(h: Header)
    requires Fits(h)
    ensures var b := Pack(h);
            && |b| == 24
            && LittleEndian(b, 0) == (if h.op < 0 then h.op + 0x1_0000_0000 else h.op)
            && LittleEndian(b, 4) == h.tty
            && LittleEndian(b, 8) == (if h.length < 0 then h.length + 0x1_0000_0000 else h.length)
            && LittleEndian(b, 12) == (if h.direction < 0 then h.direction + 0x1_0000_0000 else h.direction)
            && LittleEndian(b, 16) == h.sec
            && LittleEndian(b, 20) == h.usec
  {
    var b := Pack(h);
    assert b[0..4] == PackI32(h.op) && b[4..8] == PackU32(h.tty) && b[8..12] == PackI32(h.length);
    assert b[12..16] == PackI32(h.direction) && b[16..20] == PackU32(h.sec) && b[20..24] == PackU32(h.usec);
    U32Layout(b, 0, if h.op < 0 then h.op + 0x1_0000_0000 else h.op);
    U32Layout(b, 4, h.tty);
    U32Layout(b, 8, if h.length < 0 then h.length + 0x1_0000_0000 else h.length);
    U32Layout(b, 12, if h.direction < 0 then h.direction + 0x1_0000_0000 else h.direction);
    U32Layout(b, 16, h.sec);
    U32Layout(b, 20, h.usec);
  }

  lemma U32Layout(b: seq<Byte>, i: nat, n: U32)
    requires i + 4 <= |b| && b[i..i + 4] == PackU32(n)
    ensures LittleEndian(b, i) == n
  {
    var low, high := n % 0x1_0000, n / 0x1_0000;
    assert b[i] == b[i..i + 4][0] && b[i + 1] == b[i..i + 4][1] && b[i + 2] == b[i..i + 4][2] && b[i + 3] == b[i..i + 4][3];
    assert PackU32(n) == [low % 0x100, low / 0x100, high % 0x100, high / 0x100];
  }

  // ---- Time stamps -----------------------------------------------------------

  /** `int(x)`: truncation toward zero. */
  function Trunc(x: real): int {
    if x >= 0.0 then x.Floor else -(-x).Floor
  }

  function Sec(stamp: real): int {
    Trunc(stamp)
  }

  function Usec(stamp: real): int {
    Trunc(1000000.0 * (stamp - Trunc(stamp) as real))
  }

  predicate StampFits(stamp: real) {
    0 <= Sec(stamp) < 0x1_0000_0000 && 0 <= Usec(stamp) < 0x1_0000_0000
  }

  /** A stamp can be written exactly when it lies less than a microsecond before the epoch or later, and
      before the 32-bit end of time. */
  lemma StampFitsExactlyWhen(stamp: real)
    ensures StampFits(stamp) <==> -1.0 < 1000000.0 * stamp && stamp < 4294967296.0
  {
    if stamp <= -1.0 {
      assert (-stamp).Floor >= 1;
    } else if stamp < 0.0 {
      assert (-stamp).Floor == 0;
      assert Usec(stamp) == -(-(1000000.0 * stamp)).Floor;
    } else {
      var fraction := stamp - stamp.Floor as real;
      assert 0.0 <= 1000000.0 * fraction < 1000000.0;
    }
  }

  /** The two stored numbers are the stamp in whole microseconds. */
  lemma StampIsMicroseconds(stamp: real)
    requires 0.0 <= stamp
    ensures 0 <= Usec(stamp) < 1000000
    ensures 1000000 * Sec(stamp) + Usec(stamp) == (1000000.0 * stamp).Floor
  {
    var fraction := stamp - stamp.Floor as real;
    assert 0.0 <= 1000000.0 * fraction < 1000000.0;
    assert 1000000.0 * stamp == 1000000.0 * fraction + (1000000 * stamp.Floor) as real;
    FloorShift(1000000.0 * fraction, 1000000 * stamp.Floor);
  }

  lemma FloorShift(x: real, n: int)
    ensures (x + n as real).Floor == x.Floor + n
  {
  }

  // ---- The writers -----------------------------------------------------------

  datatype Call =
    | Open(stamp: real)
    | Write(length: int, direction: int, stamp: real, data: seq<Byte>)
    | Close(stamp: real)

  function HeaderOf(c: Call): Header {
    match c
    case Open(stamp) => Header(OP_OPEN, 0, 0, 0, Sec(stamp), Usec(stamp))
    case Write(length, direction, stamp, _) => Header(OP_WRITE, 0, length, direction, Sec(stamp), Usec(stamp))
    case Close(stamp) => Header(OP_CLOSE, 0, 0, 0, Sec(stamp), Usec(stamp))
  }

  function Payload(c: Call): seq<Byte> {
    if c.Write? then c.data else []
  }

  /** The bytes a call appends; none when its header cannot be packed. */
  function Appended(c: Call): seq<Byte> {
    if Fits(HeaderOf(c)) then Pack(HeaderOf(c)) + Payload(c) else []
  }

  /** What a call appends, byte by byte: its kind, its length and direction, its stamp, and its data. */
  lemma RecordLayout(c: Call)
    requires Fits(HeaderOf(c))
    ensures var b := Appended(c);
            && |b| == 24 + |Payload(c)| && b[24..] == (if c.Write? then c.data else [])
            && LittleEndian(b, 0) == (match c case Open(_) => 1 case Write(_, _, _, _) => 3 case Close(_) => 2)
            && LittleEndian(b, 4) == 0
            && (c.Write? && c.length >= 0 ==> LittleEndian(b, 8) == c.length)
            && (c.Write? && c.direction >= 0 ==> LittleEndian(b, 12) == c.direction)
            && (!c.Write? ==> LittleEndian(b, 8) == 0 && LittleEndian(b, 12) == 0)
            && LittleEndian(b, 16) == Sec(c.stamp) && LittleEndian(b, 20) == Usec(c.stamp)
  {
    var header, b := Pack(HeaderOf(c)), Appended(c);
    HeaderLayout(HeaderOf(c));
    assert forall i :: 0 <= i < 24 ==> b[i] == header[i];
  }

  class LogFile {
    var content: seq<Byte>

    constructor ()
      ensures content == []
    {
      content := [];
    }

    /** Appends one record; `ok` is false where the original raises `struct.error`. */
    method AppendRecord(h: Header, data: seq<Byte>) returns (ok: bool)
      modifies this
      ensures ok <==> Fits(h)
      ensures content == old(content) + if Fits(h) then Pack(h) + data else []
    {
      ok := Fits(h);
      if ok {
        content := content + Pack(h);
        content := content + data;
      }
    }

    method TtylogOpen(stamp: real) returns (ok: bool)
      modifies this
      ensures ok <==> StampFits(stamp)
      ensures content == old(content) + Appended(Open(stamp))
    {
      ok := AppendRecord(Header(OP_OPEN, 0, 0, 0, Sec(stamp), Usec(stamp)), []);
    }

    method TtylogWrite(length: int, direction: int, stamp: real, data: seq<Byte>) returns (ok: bool)
      modifies this
      ensures ok <==> Fits(HeaderOf(Write(length, direction, stamp, data)))
      ensures content == old(content) + Appended(Write(length, direction, stamp, data))
    {
      ok := AppendRecord(Header(OP_WRITE, 0, length, direction, Sec(stamp), Usec(stamp)), data);
    }

    method TtylogClose(stamp: real) returns (ok: bool)
      modifies this
      ensures ok <==> StampFits(stamp)
      ensures content == old(content) + Appended(Close(stamp))
    {
      ok := AppendRecord(Header(OP_CLOSE, 0, 0, 0, Sec(stamp), Usec(stamp)), []);
    }

    /** What `ttylog_inputhash` feeds to SHA-256; `None` where `read` rejects a length below -1. */
    method ReadInput() returns (inputbytes: Option<seq<Byte>>)
      ensures inputbytes == InputBytes(content)
    {
      var found: seq<Byte> := [];
      var position := 0;
      assert content[position..] == content;
      while position + HEADER_SIZE <= |content|
        invariant 0 <= position <= |content|
        invariant Scanned(content) == After(found, Scanned(content[position..]))
      {
        RecordAt(content, position);
        var h := Unpack(content[position..position + HEADER_SIZE]);
        if h.length < -1 {
          return None;
        }
        var next, hashed := Next(content, position), Hashed(content, position);
        AfterTwice(found, hashed, Scanned(content[next..]));
        found := found + hashed;
        position := next;
      }
      assert found + [] == found;
      return Some(found);
    }
  }

  // ---- The reader ------------------------------------------------------------

  /** How much `fd.read(length)` returns of `left` bytes; -1 asks for everything, and less raises. */
  function ReadSize(length: int, left: nat): (size: nat)
    ensures size <= left
  {
    if length < 0 || length > left then left else length
  }

  predicate IsOutput(h: Header) {
    h.op == OP_WRITE && h.direction == TYPE_OUTPUT
  }

  /** What was collected to be hashed, and whether the reader then raised. */
  datatype Scan = Scan(bytes: seq<Byte>, raised: bool)

  function After(before: seq<Byte>, s: Scan): Scan {
    Scan(before + s.bytes, s.raised)
  }

  /** The bytes of a record's data that are hashed. */
  function Kept(h: Header, data: seq<Byte>): seq<Byte> {
    if IsOutput(h) then [] else data
  }

  /** The data of every record but the output ones; a header cut short ends the log, and a length below -1
      makes the reader raise. */
  function Scanned(log: seq<Byte>): Scan
    decreases |log|
  {
    if |log| < HEADER_SIZE then Scan([], false)
    else
      var h, rest := Unpack(log[..HEADER_SIZE]), log[HEADER_SIZE..];
      if h.length < -1 then Scan([], true)
      else
        var size := ReadSize(h.length, |rest|);
        After(Kept(h, rest[..size]), Scanned(rest[size..]))
  }

  function InputBytes(log: seq<Byte>): Option<seq<Byte>> {
    if Scanned(log).raised then None else Some(Scanned(log).bytes)
  }

  /** The headers the reader meets. */
  function HeadersMet(log: seq<Byte>): seq<Header>
    decreases |log|
  {
    if |log| < HEADER_SIZE then []
    else
      var h, rest := Unpack(log[..HEADER_SIZE]), log[HEADER_SIZE..];
      [h] + if h.length < -1 then [] else HeadersMet(rest[ReadSize(h.length, |rest|)..])
  }

  /** The log a run of calls leaves behind. */
  function Log(calls: seq<Call>): seq<Byte> {
    if calls == [] then [] else Appended(calls[0]) + Log(calls[1..])
  }

  /** What was typed: the data of the accepted records that are not output. */
  function Typed(calls: seq<Call>): seq<Byte> {
    if calls == [] then []
    else (if Accepted(calls[0]) then TypedBy(calls[0]) else []) + Typed(calls[1..])
  }

  /** Only writes carry data, and those of direction 2 are output. */
  function TypedBy(c: Call): seq<Byte> {
    match c
    case Write(_, direction, _, data) => if direction == 2 then [] else data
    case _ => []
  }

  /** The stamp is later than a microsecond before the epoch and within 32 bits, as are the other numbers. */
  predicate Accepted(c: Call) {
    && -1.0 < 1000000.0 * c.stamp && c.stamp < 4294967296.0
    && (c.Write? ==> -0x8000_0000 <= c.length < 0x8000_0000 && -0x8000_0000 <= c.direction < 0x8000_0000)
  }

  lemma AcceptedMeans(c: Call)
    ensures Accepted(c) <==> Fits(HeaderOf(c))
    ensures Kept(HeaderOf(c), Payload(c)) == TypedBy(c)
  {
    StampFitsExactlyWhen(c.stamp);
  }

  /** The record states its own size, as every caller of `ttylog_write` does. */
  predicate StatesSize(c: Call) {
    c.Write? ==> c.length == |c.data|
  }

  // ---- Reading record by record ----------------------------------------------

  lemma AfterTwice(a: seq<Byte>, b: seq<Byte>, s: Scan)
    ensures After(a, After(b, s)) == After(a + b, s)
  {
    assert a + (b + s.bytes) == a + b + s.bytes;
  }

  /** Where the record at `position` ends, and which of its bytes are hashed. */
  function Next(log: seq<Byte>, position: nat): (next: nat)
    requires position + HEADER_SIZE <= |log|
    ensures position < next <= |log|
  {
    var body := position + HEADER_SIZE;
    body + ReadSize(Unpack(log[position..body]).length, |log| - body)
  }

  function Hashed(log: seq<Byte>, position: nat): seq<Byte>
    requires position + HEADER_SIZE <= |log|
  {
    var body := position + HEADER_SIZE;
    Kept(Unpack(log[position..body]), log[body..Next(log, position)])
  }

  /** The first record of a log, given its header and the bytes behind it. */
  lemma FirstRecord(log: seq<Byte>, header: seq<Byte>, rest: seq<Byte>)
    requires |header| == HEADER_SIZE && log == header + rest
    ensures var h := Unpack(header);
            if h.length < -1 then Scanned(log) == Scan([], true)
            else
              var size := ReadSize(h.length, |rest|);
              Scanned(log) == After(Kept(h, rest[..size]), Scanned(rest[size..]))
  {
    assert log[..HEADER_SIZE] == header && log[HEADER_SIZE..] == rest;
  }

  lemma RecordAt(log: seq<Byte>, position: nat)
    requires position + HEADER_SIZE <= |log|
    ensures if Unpack(log[position..position + HEADER_SIZE]).length < -1 then Scanned(log[position..]) == Scan([], true)
            else Scanned(log[position..]) == After(Hashed(log, position), Scanned(log[Next(log, position)..]))
  {
    var body := position + HEADER_SIZE;
    var header, rest := log[position..body], log[body..];
    assert log[position..] == header + rest;
    FirstRecord(log[position..], header, rest);
    Resliced(log, body, ReadSize(Unpack(header).length, |rest|));
  }

  lemma Resliced(log: seq<Byte>, body: nat, size: nat)
    requires body + size <= |log|
    ensures log[body..][..size] == log[body..body + size] && log[body..][size..] == log[body + size..]
  {
  }

  /** An accepted record in front of `rest`: its data runs as far as its length says, into `rest` if need be. */
  lemma RecordReads(c: Call, rest: seq<Byte>)
    requires Fits(HeaderOf(c)) && HeaderOf(c).length >= |Payload(c)|
    ensures var h := HeaderOf(c);
            var k := Min(h.length - |Payload(c)|, |rest|);
            Scanned(Appended(c) + rest) == After(Kept(h, Payload(c) + rest[..k]), Scanned(rest[k..]))
  {
    var header := PackedHeader(c);
    StoredReads(header, HeaderOf(c), Payload(c), rest);
  }

  lemma PackedHeader(c: Call) returns (header: seq<Byte>)
    requires Fits(HeaderOf(c))
    ensures |header| == HEADER_SIZE && Unpack(header) == HeaderOf(c) && Appended(c) == header + Payload(c)
  {
    header := Pack(HeaderOf(c));
    HeaderRoundTrip(HeaderOf(c));
  }

  lemma StoredReads(header: seq<Byte>, h: Header, data: seq<Byte>, rest: seq<Byte>)
    requires |header| == HEADER_SIZE && Unpack(header) == h && h.length >= |data|
    ensures var k := Min(h.length - |data|, |rest|);
            Scanned(header + data + rest) == After(Kept(h, data + rest[..k]), Scanned(rest[k..]))
  {
    var k := Min(h.length - |data|, |rest|);
    Recut(header, data, rest, k);
    DataReads(header, h, data + rest[..k], rest[k..]);
  }

  lemma Recut(header: seq<Byte>, data: seq<Byte>, rest: seq<Byte>, k: nat)
    requires k <= |rest|
    ensures header + data + rest == header + (data + rest[..k] + rest[k..])
  {
    assert rest == rest[..k] + rest[k..];
  }

  lemma DataReads(header: seq<Byte>, h: Header, front: seq<Byte>, tail: seq<Byte>)
    requires |header| == HEADER_SIZE && Unpack(header) == h && h.length >= -1
    requires ReadSize(h.length, |front| + |tail|) == |front|
    ensures Scanned(header + (front + tail)) == After(Kept(h, front), Scanned(tail))
  {
    var body := front + tail;
    FirstRecord(header + body, header, body);
    assert body[..|front|] == front && body[|front|..] == tail;
  }

  /** Calls that state their sizes, in front of `rest`. */
  lemma {:induction false} FaithfulReads(calls: seq<Call>, rest: seq<Byte>)
    requires forall c :: c in calls ==> StatesSize(c)
    ensures Scanned(Log(calls) + rest) == After(Typed(calls), Scanned(rest))
    decreases |calls|
  {
    if calls == [] {
      assert Log(calls) + rest == rest && [] + Scanned(rest).bytes == Scanned(rest).bytes;
    } else {
      var c, more := calls[0], Log(calls[1..]) + rest;
      assert Log(calls) + rest == Appended(c) + more;
      FaithfulReads(calls[1..], rest);
      AcceptedMeans(c);
      if Fits(HeaderOf(c)) {
        FaithfulRecord(c, more);
        AfterTwice(Kept(HeaderOf(c), Payload(c)), Typed(calls[1..]), Scanned(rest));
      } else {
        assert [] + more == more && [] + Typed(calls[1..]) == Typed(calls[1..]);
      }
    }
  }

  lemma FaithfulRecord(c: Call, rest: seq<Byte>)
    requires StatesSize(c) && Fits(HeaderOf(c))
    ensures Scanned(Appended(c) + rest) == After(Kept(HeaderOf(c), Payload(c)), Scanned(rest))
  {
    RecordReads(c, rest);
    assert Payload(c) + rest[..0] == Payload(c) && rest[0..] == rest;
  }

  // ---- What is hashed --------------------------------------------------------

  /** Over any run of calls that state their sizes the reader hashes exactly what was typed, in order. */
  lemma HashesWhatWasTyped(calls: seq<Call>)
    requires forall c :: c in calls ==> StatesSize(c)
    ensures InputBytes(Log(calls)) == Some(Typed(calls))
  {
    FaithfulReads(calls, []);
    assert Log(calls) + [] == Log(calls) && Typed(calls) + [] == Typed(calls);
  }

  /** A record that overstates its size swallows the bytes that follow it, headers included, as its own data;
      reading goes on behind them. */
  lemma OverstatedSizeSwallows(before: seq<Call>, c: Call, rest: seq<Byte>)
    requires forall b :: b in before ==> StatesSize(b)
    requires c.Write? && Fits(HeaderOf(c)) && c.length > |c.data|
    ensures var k := Min(c.length - |c.data|, |rest|);
            Scanned(Log(before) + (Appended(c) + rest))
            == After(Typed(before) + Kept(HeaderOf(c), c.data + rest[..k]), Scanned(rest[k..]))
  {
    FaithfulReads(before, Appended(c) + rest);
    RecordReads(c, rest);
    var k := Min(c.length - |c.data|, |rest|);
    AfterTwice(Typed(before), Kept(HeaderOf(c), c.data + rest[..k]), Scanned(rest[k..]));
  }

  /** An output record that overstates its size by all that follows leaves nothing of it to be hashed. */
  lemma OverstatedOutputHides(before: seq<Call>, c: Call, more: seq<Call>)
    requires forall b :: b in before ==> StatesSize(b)
    requires c.Write? && Fits(HeaderOf(c)) && c.direction == 2 && c.length >= |c.data| + |Log(more)|
    requires c.length > |c.data|
    ensures InputBytes(Log(before) + (Appended(c) + Log(more))) == Some(Typed(before))
  {
    OverstatedSizeSwallows(before, c, Log(more));
    assert Log(more)[|Log(more)|..] == [];
    assert Typed(before) + [] + [] == Typed(before);
  }

  /** Reading fails exactly when a header that the reader meets has a length below -1. */
  lemma {:induction false} RaisesExactlyWhen(log: seq<Byte>)
    ensures InputBytes(log).None? <==> exists h :: h in HeadersMet(log) && h.length < -1
    decreases |log|
  {
    if |log| >= HEADER_SIZE {
      var h, rest := Unpack(log[..HEADER_SIZE]), log[HEADER_SIZE..];
      if h.length < -1 {
        assert HeadersMet(log) == [h];
      } else {
        var left := rest[ReadSize(h.length, |rest|)..];
        RaisesExactlyWhen(left);
        assert HeadersMet(log) == [h] + HeadersMet(left);
        assert forall g :: g in HeadersMet(log) <==> g == h || g in HeadersMet(left);
      }
    }
  }

  // ---- Truncation ------------------------------------------------------------

  /** `cut` collects a prefix of what `whole` does, and raises only if `whole` does. */
  predicate Precedes(cut: Scan, whole: Scan) {
    cut.bytes <= whole.bytes && (cut.raised ==> whole.raised)
  }

  /** The cut falls into the data of the first record. */
  lemma CutInData(header: seq<Byte>, rest: seq<Byte>, n: nat)
    requires |header| == HEADER_SIZE && n <= |rest|
    requires Unpack(header).length < -1 || n <= ReadSize(Unpack(header).length, |rest|)
    ensures Precedes(Scanned(header + rest[..n]), Scanned(header + rest))
  {
    var h := Unpack(header);
    FirstRecord(header + rest[..n], header, rest[..n]);
    FirstRecord(header + rest, header, rest);
    if h.length >= -1 {
      var size := ReadSize(h.length, |rest|);
      assert ReadSize(h.length, n) == n;
      assert rest[..n][..n] == rest[..n] && rest[..n][n..] == [];
      assert Kept(h, rest[..n]) <= Kept(h, rest[..size]);
      assert Kept(h, rest[..n]) + [] == Kept(h, rest[..n]);
    }
  }

  /** The cut falls behind the first record. */
  lemma CutBehind(header: seq<Byte>, rest: seq<Byte>, n: nat)
    requires |header| == HEADER_SIZE && Unpack(header).length >= -1
    requires ReadSize(Unpack(header).length, |rest|) <= n <= |rest|
    requires var size := ReadSize(Unpack(header).length, |rest|);
             Precedes(Scanned(rest[size..][..n - size]), Scanned(rest[size..]))
    ensures Precedes(Scanned(header + rest[..n]), Scanned(header + rest))
  {
    var h := Unpack(header);
    var size := ReadSize(h.length, |rest|);
    FirstRecord(header + rest[..n], header, rest[..n]);
    FirstRecord(header + rest, header, rest);
    assert ReadSize(h.length, n) == size;
    assert rest[..n][..size] == rest[..size] && rest[..n][size..] == rest[size..][..n - size];
  }

  /** A log cut off anywhere, whatever bytes it holds: the reader collects a prefix of what it collects from
      the whole log, and raises only if it does there. */
  lemma {:induction false} TruncationCollectsPrefix(log: seq<Byte>, n: nat)
    requires n <= |log|
    ensures Precedes(Scanned(log[..n]), Scanned(log))
    decreases |log|
  {
    if n >= HEADER_SIZE {
      var header, rest := log[..HEADER_SIZE], log[HEADER_SIZE..];
      var m := n - HEADER_SIZE;
      assert log == header + rest && log[..n] == header + rest[..m];
      var length := Unpack(header).length;
      if length < -1 || m <= ReadSize(length, |rest|) {
        CutInData(header, rest, m);
      } else {
        var size := ReadSize(length, |rest|);
        TruncationCollectsPrefix(rest[size..], m - size);
        CutBehind(header, rest, m);
      }
    }
  }

  /** So a log that can be hashed can be hashed when cut off anywhere, and then hashes a prefix. */
  lemma TruncationHashesPrefix(log: seq<Byte>, n: nat)
    requires n <= |log| && InputBytes(log).Some?
    ensures InputBytes(log[..n]).Some? && InputBytes(log[..n]).value <= InputBytes(log).value
  {
    TruncationCollectsPrefix(log, n);
  }
}
