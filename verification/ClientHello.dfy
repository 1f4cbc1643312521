/** The TLS ClientHello parser behind the JA4 fingerprint, against the encoding of RFC 8446,
    sections 4.1.2, 4.2 and 4.2.3, and of RFC 7301, section 3.1. */
module ClientHello {
  import opened Bytes

  const EXT_SERVER_NAME: U16 := 0x0000
  const EXT_ALPN: U16 := 0x0010
  const EXT_SIGNATURE_ALGORITHMS: U16 := 0x000D

  /** What the parser reports. */
  datatype Hello = Hello(
    tlsVersion: U16,
    ciphers: seq<U16>,
    extensions: seq<U16>,
    hasSni: bool,
    alpn: Option<string>,
    signatureAlgorithms: Option<seq<U16>>)

  /** What the extension loop has gathered. */
  datatype Gathered = Gathered(extensions: seq<U16>, hasSni: bool, alpn: Option<string>, signatureAlgorithms: Option<seq<U16>>)

  const Nothing := Gathered([], false, None, None)

  function U16At(data: seq<Byte>, off: nat): U16
    requires off + 2 <= |data|
  {
    UnpackU16(data[off..off + 2])
  }

  /** `decode("ascii", errors="ignore")`. */
  function AsciiOnly(bytes: seq<Byte>): string {
    if bytes == [] then ""
    else AsciiOnly(bytes[..|bytes| - 1]) + if bytes[|bytes| - 1] < 0x80 then [bytes[|bytes| - 1] as char] else []
  }

  // ---- What the parser computes --------------------------------------------

  /** The `count`-byte list of 16-bit values at `off`; a value that runs past the data fails the parse. */
  function ReadList(data: seq<Byte>, off: nat, count: nat): Option<seq<U16>>
    decreases count
  {
    if count == 0 then Some([])
    else if off + 2 > |data| then None
    else
      var rest := ReadList(data, off + 2, if count >= 2 then count - 2 else 0);
      if rest.None? then None else Some([U16At(data, off)] + rest.value)
  }

  /** The same, but values that run past the data are passed over. */
  function ReadWithin(data: seq<Byte>, off: nat, count: nat): seq<U16>
    decreases count
  {
    if count == 0 || off + 2 > |data| then []
    else [U16At(data, off)] + ReadWithin(data, off + 2, if count >= 2 then count - 2 else 0)
  }

  /** The first protocol name of an ALPN extension whose body is at `off`. */
  function ReadAlpn(data: seq<Byte>, off: nat): Option<string>
    requires off + 2 <= |data|
  {
    var length := U16At(data, off);
    if length > 1 && off + 2 + length <= |data| then
      var nameLength := data[off + 2] as int;
      if nameLength > 0 && length >= 1 + nameLength
      then Some(AsciiOnly(data[off + 3..off + 3 + nameLength]))
      else None
    else None
  }

  function ReadSignatureAlgorithms(data: seq<Byte>, off: nat): Option<seq<U16>>
    requires off + 2 <= |data|
  {
    var length := U16At(data, off);
    if length > 0 && off + 2 + length <= |data| then Some(ReadWithin(data, off + 2, length)) else None
  }

  /** One extension of type `t` whose body of `length` bytes is at `off`. */
  function Gather(data: seq<Byte>, off: nat, t: U16, length: U16, g: Gathered): Gathered
    requires off + length <= |data|
  {
    var g1 := g.(extensions := g.extensions + [t]);
    if t == EXT_SERVER_NAME then g1.(hasSni := true)
    else if t == EXT_ALPN && length > 2 then
      var name := ReadAlpn(data, off);
      if name.Some? then g1.(alpn := name) else g1
    else if t == EXT_SIGNATURE_ALGORITHMS && length > 2 then
      var algorithms := ReadSignatureAlgorithms(data, off);
      if algorithms.Some? then g1.(signatureAlgorithms := algorithms) else g1
    else g1
  }

  function ReadExtensions(data: seq<Byte>, off: nat, end: nat, g: Gathered): Gathered
    decreases |data| - off
  {
    if off >= end || off + 4 > |data| then g
    else
      var t, length := U16At(data, off), U16At(data, off + 2);
      if off + 4 + length > |data| then g
      else ReadExtensions(data, off + 4 + length, end, Gather(data, off + 4, t, length, g))
  }

  function ParseTail(data: seq<Byte>, off: nat, version: U16, ciphers: seq<U16>): Option<Hello> {
    if |data| < off + 1 then None
    else
      var extOff := off + 1 + data[off] as int;
      if |data| < extOff + 2 then None
      else
        var g := ReadExtensions(data, extOff + 2, extOff + 2 + U16At(data, extOff), Nothing);
        Some(Hello(version, ciphers, g.extensions, g.hasSni, g.alpn, g.signatureAlgorithms))
  }

  function Parse(data: seq<Byte>): Option<Hello> {
    if |data| < 44 || data[0] != 0x16 || data[5] != 0x01 then None
    else
      var off := 44 + data[43] as int;
      if |data| < off + 2 then None
      else
        var length := U16At(data, off);
        if |data| < off + 2 + length then None
        else
          var ciphers := ReadList(data, off + 2, length);
          if ciphers.None? then None
          else ParseTail(data, off + 2 + length, U16At(data, 9), ciphers.value)
  }

  // ---- The parser ----------------------------------------------------------

  function Prepend(front: seq<U16>, rest: Option<seq<U16>>): Option<seq<U16>> {
    if rest.None? then None else Some(front + rest.value)
  }

  lemma PrependLaws(front: seq<U16>, u: U16, rest: Option<seq<U16>>)
    ensures Prepend([], rest) == rest
    ensures Prepend(front, Prepend([u], rest)) == Prepend(front + [u], rest)
  {
    if rest.Some? {
      assert [] + rest.value == rest.value;
      assert front + ([u] + rest.value) == front + [u] + rest.value;
    }
  }

  method ReadCiphers(data: seq<Byte>, off: nat, length: nat) returns (ciphers: Option<seq<U16>>)
    ensures ciphers == ReadList(data, off, length)
  {
    var found: seq<U16> := [];
    var i := 0;
    PrependLaws([], 0, ReadList(data, off, length));
    while i < length
      invariant ReadList(data, off, length) == Prepend(found, ReadList(data, off + i, Max(0, length - i)))
      decreases length - i
    {
      if off + i + 2 > |data| {
        return None;
      }
      PrependLaws(found, U16At(data, off + i), ReadList(data, off + i + 2, Max(0, length - i - 2)));
      found := found + [U16At(data, off + i)];
      i := i + 2;
    }
    assert found + [] == found;
    return Some(found);
  }

  method ReadAlgorithms(data: seq<Byte>, off: nat, length: nat) returns (algorithms: seq<U16>)
    ensures algorithms == ReadWithin(data, off, length)
  {
    algorithms := [];
    var i := 0;
    while i < length
      invariant ReadWithin(data, off, length) == algorithms + ReadWithin(data, off + i, Max(0, length - i))
      decreases length - i
    {
      if off + i + 2 <= |data| {
        algorithms := algorithms + [U16At(data, off + i)];
      }
      i := i + 2;
    }
  }

  method ParseTlsClientHello(data: seq<Byte>) returns (hello: Option<Hello>)
    ensures hello == Parse(data)
  {
    if |data| < 43 || data[0] != 0x16 || data[5] != 0x01 {
      return None;
    }
    var offset := 9;
    if |data| < offset + 35 {
      return None;
    }
    var tlsVersion := U16At(data, offset);
    offset := offset + 2 + 32;
    offset := offset + 1 + data[offset] as int;
    if |data| < offset + 2 {
      return None;
    }
    var cipherSuitesLength := U16At(data, offset);
    offset := offset + 2;
    if |data| < offset + cipherSuitesLength {
      return None;
    }
    var ciphers := ReadCiphers(data, offset, cipherSuitesLength);
    if ciphers.None? {
      return None;
    }
    hello := ParseRest(data, offset + cipherSuitesLength, tlsVersion, ciphers.value);
  }

  /** The compression methods and the extension loop. */
  method ParseRest(data: seq<Byte>, start: nat, tlsVersion: U16, ciphers: seq<U16>) returns (hello: Option<Hello>)
    ensures hello == ParseTail(data, start, tlsVersion, ciphers)
  {
    var offset := start;
    if |data| < offset + 1 {
      return None;
    }
    offset := offset + 1 + data[offset] as int;
    if |data| < offset + 2 {
      return None;
    }
    var extensionsLength := U16At(data, offset);
    offset := offset + 2;
    var extEnd := offset + extensionsLength;
    var g := Nothing;
    ghost var all := ReadExtensions(data, offset, extEnd, Nothing);
    while offset < extEnd && offset + 4 <= |data|
      invariant ReadExtensions(data, offset, extEnd, g) == all
      decreases |data| - offset
    {
      var extType, extLength := U16At(data, offset), U16At(data, offset + 2);
      offset := offset + 4;
      if offset + extLength > |data| {
        break;
      }
      g := ReadExtension(data, offset, extType, extLength, g);
      offset := offset + extLength;
    }
    hello := Some(Hello(tlsVersion, ciphers, g.extensions, g.hasSni, g.alpn, g.signatureAlgorithms));
  }

  lemma SliceOfSlice(data: seq<Byte>, a: nat, b: nat, i: nat, j: nat)
    requires a <= b <= |data| && i <= j <= b - a
    ensures data[a..b][i..j] == data[a + i..a + j]
  {
    var slice, part := data[a..b], data[a + i..a + j];
    assert forall k :: 0 <= k < j - i ==> slice[i..j][k] == slice[i + k] == data[a + (i + k)] == part[k];
  }

  method ReadExtension(data: seq<Byte>, offset: nat, extType: U16, extLength: U16, before: Gathered) returns (g: Gathered)
    requires offset + extLength <= |data|
    ensures g == Gather(data, offset, extType, extLength, before)
  {
    g := before.(extensions := before.extensions + [extType]);
    if extType == EXT_SERVER_NAME {
      g := g.(hasSni := true);
    } else if extType == EXT_ALPN && extLength > 2 {
      var alpnLength := U16At(data, offset);
      if alpnLength > 0 && offset + 2 + alpnLength <= |data| {
        var alpnData := data[offset + 2..offset + 2 + alpnLength];
        if |alpnData| > 1 {
          var protoLength := alpnData[0] as int;
          if protoLength > 0 && |alpnData| >= 1 + protoLength {
            SliceOfSlice(data, offset + 2, offset + 2 + alpnLength, 1, 1 + protoLength);
            g := g.(alpn := Some(AsciiOnly(alpnData[1..1 + protoLength])));
          }
        }
      }
    } else if extType == EXT_SIGNATURE_ALGORITHMS && extLength > 2 {
      var sigAlgLength := U16At(data, offset);
      if sigAlgLength > 0 && offset + 2 + sigAlgLength <= |data| {
        var algorithms := ReadAlgorithms(data, offset + 2, sigAlgLength);
        g := g.(signatureAlgorithms := Some(algorithms));
      }
    }
  }

  // ---- The encoding --------------------------------------------------------

  datatype Extension =
    | ServerName(body: seq<Byte>)
    | Alpn(names: seq<seq<Byte>>)
    | SignatureAlgorithms(algorithms: seq<U16>)
    | Unread(t: U16, body: seq<Byte>)

  datatype Message = Message(
    recordVersion: U16,
    version: U16,
    random: seq<Byte>,
    sessionId: seq<Byte>,
    ciphers: seq<U16>,
    compression: seq<Byte>,
    extensions: seq<Extension>)

  function EncodeList(us: seq<U16>): seq<Byte> {
    if us == [] then [] else PackU16(us[0]) + EncodeList(us[1..])
  }

  predicate NamesFit(names: seq<seq<Byte>>) {
    names != [] ==> 1 <= |names[0]| <= 0xFF && NamesFit(names[1..])
  }

  function EncodeNames(names: seq<seq<Byte>>): seq<Byte>
    requires NamesFit(names)
  {
    if names == [] then [] else [|names[0]|] + (names[0] + EncodeNames(names[1..]))
  }

  /** A well-formed extension: no empty name, no empty list, every length in its field. */
  predicate WellFormedExtension(e: Extension) {
    match e
    case ServerName(body) => |body| <= 0xFFFF
    case Alpn(names) => names != [] && NamesFit(names) && |EncodeNames(names)| + 2 <= 0xFFFF
    case SignatureAlgorithms(algorithms) => algorithms != [] && |EncodeList(algorithms)| + 2 <= 0xFFFF
    case Unread(t, body) => t !in {0, 16, 13} && |body| <= 0xFFFF
  }

  function TypeOf(e: Extension): U16 {
    match e
    case ServerName(_) => 0
    case Alpn(_) => 16
    case SignatureAlgorithms(_) => 13
    case Unread(t, _) => t
  }

  function Body(e: Extension): (b: seq<Byte>)
    requires WellFormedExtension(e)
    ensures |b| <= 0xFFFF
  {
    match e
    case ServerName(body) => body
    case Alpn(names) => PackU16(|EncodeNames(names)|) + EncodeNames(names)
    case SignatureAlgorithms(algorithms) => PackU16(|EncodeList(algorithms)|) + EncodeList(algorithms)
    case Unread(_, body) => body
  }

  function EncodeExtension(e: Extension): seq<Byte>
    requires WellFormedExtension(e)
  {
    PackU16(TypeOf(e)) + (PackU16(|Body(e)|) + Body(e))
  }

  predicate AllWellFormed(es: seq<Extension>) {
    es != [] ==> WellFormedExtension(es[0]) && AllWellFormed(es[1..])
  }

  function EncodeExtensions(es: seq<Extension>): seq<Byte>
    requires AllWellFormed(es)
  {
    if es == [] then []
    else EncodeExtension(es[0]) + EncodeExtensions(es[1..])
  }

  predicate WellFormed(m: Message) {
    && |m.random| == 32
    && |m.sessionId| <= 0xFF
    && |m.ciphers| <= 0x7FFF
    && |m.compression| <= 0xFF
    && AllWellFormed(m.extensions)
    && |EncodeExtensions(m.extensions)| <= 0xFFFF
  }

  /** The parts of a message behind each other, with `exts` for its extensions, which may be cut short. */
  function EncodeCompression(m: Message, exts: seq<Byte>): seq<Byte>
    requires WellFormed(m)
  {
    [|m.compression|] + (m.compression + (PackU16(|EncodeExtensions(m.extensions)|) + exts))
  }

  function EncodeCiphers(m: Message, exts: seq<Byte>): seq<Byte>
    requires WellFormed(m)
  {
    PackU16(2 * |m.ciphers|) + (EncodeList(m.ciphers) + EncodeCompression(m, exts))
  }

  function EncodeBody(m: Message, exts: seq<Byte>): seq<Byte>
    requires WellFormed(m)
  {
    PackU16(m.version) + (m.random + ([|m.sessionId|] + (m.sessionId + EncodeCiphers(m, exts))))
  }

  /** The record and handshake headers; the parser does not read their lengths. */
  function Framed(m: Message, recordLength: U16, handshakeLength: seq<Byte>, exts: seq<Byte>): seq<Byte>
    requires WellFormed(m) && |handshakeLength| == 3
  {
    ([0x16] + PackU16(m.recordVersion) + PackU16(recordLength) + [0x01] + handshakeLength) + EncodeBody(m, exts)
  }

  function Encode(m: Message, recordLength: U16, handshakeLength: seq<Byte>): seq<Byte>
    requires WellFormed(m) && |handshakeLength| == 3
  {
    Framed(m, recordLength, handshakeLength, EncodeExtensions(m.extensions))
  }

  // ---- What a message means ------------------------------------------------

  function Types(es: seq<Extension>): seq<U16> {
    seq(|es|, i requires 0 <= i < |es| => TypeOf(es[i]))
  }

  /** The first name of the last ALPN extension; section 4.2 of RFC 8446 allows only one. */
  function AlpnOf(es: seq<Extension>): Option<string> {
    if es == [] then None
    else
      var e := es[|es| - 1];
      if e.Alpn? && e.names != [] then Some(AsciiOnly(e.names[0])) else AlpnOf(es[..|es| - 1])
  }

  function AlgorithmsOf(es: seq<Extension>): Option<seq<U16>> {
    if es == [] then None
    else
      var e := es[|es| - 1];
      if e.SignatureAlgorithms? then Some(e.algorithms) else AlgorithmsOf(es[..|es| - 1])
  }

  /** Some extension is a server name. */
  predicate NamesServer(es: seq<Extension>) {
    es != [] && (es[|es| - 1].ServerName? || NamesServer(es[..|es| - 1]))
  }

  function Meaning(es: seq<Extension>): Gathered {
    Gathered(Types(es), NamesServer(es), AlpnOf(es), AlgorithmsOf(es))
  }

  function Fields(m: Message): Hello {
    Hello(m.version, m.ciphers, Types(m.extensions), NamesServer(m.extensions), AlpnOf(m.extensions), AlgorithmsOf(m.extensions))
  }

  lemma {:induction false} ListReads(data: seq<Byte>, off: nat, us: seq<U16>)
    requires At(data, off, EncodeList(us))
    ensures |EncodeList(us)| == 2 * |us|
    ensures ReadList(data, off, 2 * |us|) == Some(us)
    ensures ReadWithin(data, off, 2 * |us|) == us
    decreases |us|
  {
    if us != [] {
      AtSplit(data, off, PackU16(us[0]), EncodeList(us[1..]));
      AtU16(data, off, us[0]);
      ListReads(data, off + 2, us[1..]);
      assert us == [us[0]] + us[1..];
    }
  }

  lemma AlpnReads(data: seq<Byte>, off: nat, e: Extension)
    requires WellFormedExtension(e) && e.Alpn? && At(data, off, Body(e))
    ensures |Body(e)| > 2 && ReadAlpn(data, off) == Some(AsciiOnly(e.names[0]))
  {
    var name, rest := e.names[0], EncodeNames(e.names[1..]);
    var list := EncodeNames(e.names);
    AtSplit(data, off, PackU16(|list|), list);
    AtU16(data, off, |list|);
    AtSplit(data, off + 2, [|name|], name + rest);
    AtByte(data, off + 2, |name|);
    AtSplit(data, off + 3, name, rest);
    AtSlice(data, off + 3, name);
  }

  lemma AlgorithmsRead(data: seq<Byte>, off: nat, e: Extension)
    requires WellFormedExtension(e) && e.SignatureAlgorithms? && At(data, off, Body(e))
    ensures |Body(e)| > 2 && ReadSignatureAlgorithms(data, off) == Some(e.algorithms)
  {
    var list := EncodeList(e.algorithms);
    AtSplit(data, off, PackU16(|list|), list);
    AtU16(data, off, |list|);
    ListReads(data, off + 2, e.algorithms);
  }

  /** What one extension adds. */
  function Add(g: Gathered, e: Extension): Gathered {
    Gathered(g.extensions + [TypeOf(e)],
             g.hasSni || e.ServerName?,
             if e.Alpn? && e.names != [] then Some(AsciiOnly(e.names[0])) else g.alpn,
             if e.SignatureAlgorithms? then Some(e.algorithms) else g.signatureAlgorithms)
  }

  function AddAll(g: Gathered, es: seq<Extension>): Gathered
    decreases |es|
  {
    if es == [] then g else AddAll(Add(g, es[0]), es[1..])
  }

  lemma GatherIsAdd(data: seq<Byte>, off: nat, e: Extension, g: Gathered)
    requires WellFormedExtension(e) && At(data, off, Body(e))
    ensures Gather(data, off, TypeOf(e), |Body(e)|, g) == Add(g, e)
  {
    match e
    case Alpn(_) => AlpnReads(data, off, e);
    case SignatureAlgorithms(_) => AlgorithmsRead(data, off, e);
    case _ =>
  }

  /** Adding an extension to the meaning of those before it. */
  lemma AddMeans(before: seq<Extension>, e: Extension)
    ensures Add(Meaning(before), e) == Meaning(before + [e])
  {
    var all := before + [e];
    assert all[..|all| - 1] == before && all[|all| - 1] == e;
    assert Types(all) == Types(before) + [TypeOf(e)];
  }

  lemma {:induction false} AddAllMeans(before: seq<Extension>, es: seq<Extension>)
    ensures AddAll(Meaning(before), es) == Meaning(before + es)
    decreases |es|
  {
    if es == [] {
      assert before + es == before;
    } else {
      AddMeans(before, es[0]);
      AddAllMeans(before + [es[0]], es[1..]);
      assert before + [es[0]] + es[1..] == before + es;
    }
  }

  lemma HeaderReads(data: seq<Byte>, off: nat, e: Extension)
    requires WellFormedExtension(e) && At(data, off, EncodeExtension(e))
    ensures |EncodeExtension(e)| == 4 + |Body(e)| && off + 4 + |Body(e)| <= |data|
    ensures U16At(data, off) == TypeOf(e) && U16At(data, off + 2) == |Body(e)|
    ensures At(data, off + 4, Body(e))
  {
    AtSplit(data, off, PackU16(TypeOf(e)), PackU16(|Body(e)|) + Body(e));
    AtU16(data, off, TypeOf(e));
    AtSplit(data, off + 2, PackU16(|Body(e)|), Body(e));
    AtU16(data, off + 2, |Body(e)|);
  }

  /** One turn of the loop adds the extension encoded at its offset. */
  lemma ExtensionReads(data: seq<Byte>, off: nat, e: Extension, end: nat, g: Gathered)
    requires WellFormedExtension(e) && At(data, off, EncodeExtension(e)) && off < end
    ensures ReadExtensions(data, off, end, g) == ReadExtensions(data, off + |EncodeExtension(e)|, end, Add(g, e))
  {
    HeaderReads(data, off, e);
    GatherIsAdd(data, off + 4, e, g);
  }

  lemma FirstExtension(data: seq<Byte>, off: nat, es: seq<Extension>)
    requires AllWellFormed(es) && At(data, off, EncodeExtensions(es)) && es != []
    ensures |EncodeExtension(es[0])| > 0 && At(data, off, EncodeExtension(es[0]))
    ensures |EncodeExtensions(es)| == |EncodeExtension(es[0])| + |EncodeExtensions(es[1..])|
    ensures At(data, off + |EncodeExtension(es[0])|, EncodeExtensions(es[1..]))
  {
    AtSplit(data, off, EncodeExtension(es[0]), EncodeExtensions(es[1..]));
  }

  /** The loop ends at `off`. */
  ghost predicate Stops(data: seq<Byte>, off: nat, end: nat) {
    forall g :: ReadExtensions(data, off, end, g) == g
  }

  /** The loop adds the encoded extensions one after the other. */
  lemma {:induction false} ExtensionsRead(data: seq<Byte>, off: nat, es: seq<Extension>, end: nat, g: Gathered)
    requires AllWellFormed(es) && At(data, off, EncodeExtensions(es))
    requires off + |EncodeExtensions(es)| <= end && Stops(data, off + |EncodeExtensions(es)|, end)
    ensures ReadExtensions(data, off, end, g) == AddAll(g, es)
    decreases |es|
  {
    if es != [] {
      FirstExtension(data, off, es);
      ExtensionReads(data, off, es[0], end, g);
      ExtensionsRead(data, off + |EncodeExtension(es[0])|, es[1..], end, Add(g, es[0]));
    }
  }

  lemma AddAllToNothing(es: seq<Extension>)
    ensures AddAll(Nothing, es) == Meaning(es)
  {
    assert Meaning([]) == Nothing;
    AddAllMeans([], es);
    assert [] + es == es;
  }

  lemma AllExtensionsRead(data: seq<Byte>, off: nat, es: seq<Extension>, end: nat)
    requires AllWellFormed(es) && At(data, off, EncodeExtensions(es)) && end == off + |EncodeExtensions(es)|
    ensures ReadExtensions(data, off, end, Nothing) == Meaning(es)
  {
    ExtensionsRead(data, off, es, end, Nothing);
    AddAllToNothing(es);
  }

  /** A block of bytes behind its own length. */
  lemma BlockReads(data: seq<Byte>, off: nat, block: seq<Byte>, rest: seq<Byte>)
    requires |block| <= 0xFF && At(data, off, [|block|] + (block + rest))
    ensures off < |data| && data[off] == |block| && At(data, off + 1 + |block|, rest)
  {
    AtSplit(data, off, [|block|], block + rest);
    AtByte(data, off, |block|);
    AtSplit(data, off + 1, block, rest);
  }

  /** The extensions behind the length of them all. */
  lemma ExtensionsBlock(data: seq<Byte>, off: nat, total: U16, exts: seq<Byte>)
    requires At(data, off, PackU16(total) + exts)
    ensures off + 2 <= |data| && U16At(data, off) == total && At(data, off + 2, exts)
  {
    AtSplit(data, off, PackU16(total), exts);
    AtU16(data, off, total);
  }

  /** Behind the ciphers: the compression methods, then the extensions. */
  lemma CompressionLayout(data: seq<Byte>, off: nat, compression: seq<Byte>, total: U16, exts: seq<Byte>)
    requires |compression| <= 0xFF
    requires At(data, off, [|compression|] + (compression + (PackU16(total) + exts)))
    ensures off + 3 + |compression| <= |data| && data[off] == |compression|
    ensures U16At(data, off + 1 + |compression|) == total && At(data, off + 3 + |compression|, exts)
  {
    BlockReads(data, off, compression, PackU16(total) + exts);
    ExtensionsBlock(data, off + 1 + |compression|, total, exts);
  }

  lemma TailIs(data: seq<Byte>, off: nat, version: U16, ciphers: seq<U16>, c: nat, n: nat, g: Gathered)
    requires off + 3 + c <= |data| && data[off] == c && U16At(data, off + 1 + c) == n
    requires ReadExtensions(data, off + 3 + c, off + 3 + c + n, Nothing) == g
    ensures ParseTail(data, off, version, ciphers) == Some(With(version, ciphers, g))
  {
  }

  function With(version: U16, ciphers: seq<U16>, g: Gathered): Hello {
    Hello(version, ciphers, g.extensions, g.hasSni, g.alpn, g.signatureAlgorithms)
  }

  lemma PrefixReads(data: seq<Byte>, m: Message, exts: seq<Byte>)
    requires WellFormed(m) && At(data, 9, EncodeBody(m, exts))
    ensures U16At(data, 9) == m.version
    ensures At(data, 43, [|m.sessionId|] + (m.sessionId + EncodeCiphers(m, exts)))
  {
    var sid := [|m.sessionId|] + (m.sessionId + EncodeCiphers(m, exts));
    AtSplit(data, 9, PackU16(m.version), m.random + sid);
    AtU16(data, 9, m.version);
    AtSplit(data, 11, m.random, sid);
  }

  lemma CiphersRead(data: seq<Byte>, off: nat, m: Message, exts: seq<Byte>)
    requires WellFormed(m) && At(data, off, EncodeCiphers(m, exts))
    ensures off + 2 + 2 * |m.ciphers| <= |data| && U16At(data, off) == 2 * |m.ciphers|
    ensures ReadList(data, off + 2, 2 * |m.ciphers|) == Some(m.ciphers)
    ensures At(data, off + 2 + 2 * |m.ciphers|, EncodeCompression(m, exts))
  {
    AtSplit(data, off, PackU16(2 * |m.ciphers|), EncodeList(m.ciphers) + EncodeCompression(m, exts));
    AtU16(data, off, 2 * |m.ciphers|);
    AtSplit(data, off + 2, EncodeList(m.ciphers), EncodeCompression(m, exts));
    ListReads(data, off + 2, m.ciphers);
  }

  /** Where the extensions of a message begin. */
  function StartOf(m: Message): nat {
    49 + |m.sessionId| + 2 * |m.ciphers| + |m.compression|
  }

  lemma ParseIs(data: seq<Byte>, s: nat, n: nat, ciphers: seq<U16>)
    requires |data| >= 46 + s + n && data[0] == 0x16 && data[5] == 0x01 && data[43] == s
    requires U16At(data, 44 + s) == n && ReadList(data, 46 + s, n) == Some(ciphers)
    ensures Parse(data) == ParseTail(data, 46 + s + n, U16At(data, 9), ciphers)
  {
  }

  /** What the parser meets of the fixed part of a message, up to the length of its extensions. */
  predicate Head(data: seq<Byte>, m: Message, total: U16) {
    var s, n, c := |m.sessionId|, 2 * |m.ciphers|, |m.compression|;
    && |data| >= 49 + s + n + c
    && data[43] == s && U16At(data, 9) == m.version
    && U16At(data, 44 + s) == n && ReadList(data, 46 + s, n) == Some(m.ciphers)
    && data[46 + s + n] == c && U16At(data, 47 + s + n + c) == total
  }

  lemma HeadParses(data: seq<Byte>, m: Message, total: U16, g: Gathered)
    requires Head(data, m, total) && data[0] == 0x16 && data[5] == 0x01
    requires g == ReadExtensions(data, StartOf(m), StartOf(m) + total, Nothing)
    ensures Parse(data) == Some(With(m.version, m.ciphers, g))
  {
    var off := 46 + |m.sessionId| + 2 * |m.ciphers|;
    ParseIs(data, |m.sessionId|, 2 * |m.ciphers|, m.ciphers);
    TailIs(data, off, m.version, m.ciphers, |m.compression|, total, g);
  }

  /** Behind the session id come the ciphers, the compression methods and the extensions. */
  lemma SessionReads(data: seq<Byte>, m: Message, exts: seq<Byte>)
    requires WellFormed(m) && At(data, 43, [|m.sessionId|] + (m.sessionId + EncodeCiphers(m, exts)))
    requires U16At(data, 9) == m.version
    ensures Head(data, m, |EncodeExtensions(m.extensions)|) && At(data, StartOf(m), exts)
  {
    BlockReads(data, 43, m.sessionId, EncodeCiphers(m, exts));
    CiphersRead(data, 44 + |m.sessionId|, m, exts);
    CompressionReads(data, 46 + |m.sessionId| + 2 * |m.ciphers|, m, exts);
  }

  lemma CompressionReads(data: seq<Byte>, off: nat, m: Message, exts: seq<Byte>)
    requires WellFormed(m) && At(data, off, EncodeCompression(m, exts))
    ensures off + 3 + |m.compression| <= |data| && data[off] == |m.compression|
    ensures U16At(data, off + 1 + |m.compression|) == |EncodeExtensions(m.extensions)|
    ensures At(data, off + 3 + |m.compression|, exts)
  {
    CompressionLayout(data, off, m.compression, |EncodeExtensions(m.extensions)|, exts);
  }

  /** The fixed part of a message is read, and the extensions are found at their place. */
  lemma HeadReads(data: seq<Byte>, m: Message, exts: seq<Byte>)
    requires WellFormed(m) && At(data, 9, EncodeBody(m, exts))
    ensures Head(data, m, |EncodeExtensions(m.extensions)|) && At(data, StartOf(m), exts)
  {
    PrefixReads(data, m, exts);
    SessionReads(data, m, exts);
  }

  lemma FramedAt(m: Message, recordLength: U16, handshakeLength: seq<Byte>, exts: seq<Byte>, rest: seq<Byte>)
    requires WellFormed(m) && |handshakeLength| == 3
    ensures var data := Framed(m, recordLength, handshakeLength, exts) + rest;
            |data| >= 9 && At(data, 9, EncodeBody(m, exts)) && data[0] == 0x16 && data[5] == 0x01
  {
    var data, body := Framed(m, recordLength, handshakeLength, exts) + rest, EncodeBody(m, exts);
    assert data[9..9 + |body|] == body;
  }

  /** Parsing the encoding of any well-formed ClientHello, whatever follows it, returns exactly its fields. */
  lemma RoundTrip(m: Message, recordLength: U16, handshakeLength: seq<Byte>, rest: seq<Byte>)
    requires WellFormed(m) && |handshakeLength| == 3
    ensures Parse(Encode(m, recordLength, handshakeLength) + rest) == Some(Fields(m))
  {
    FramedAt(m, recordLength, handshakeLength, EncodeExtensions(m.extensions), rest);
    WholeReads(Encode(m, recordLength, handshakeLength) + rest, m);
  }

  lemma WholeReads(data: seq<Byte>, m: Message)
    requires WellFormed(m) && At(data, 9, EncodeBody(m, EncodeExtensions(m.extensions))) && data[0] == 0x16 && data[5] == 0x01
    ensures Parse(data) == Some(Fields(m))
  {
    var exts, end := EncodeExtensions(m.extensions), StartOf(m) + |EncodeExtensions(m.extensions)|;
    HeadReads(data, m, exts);
    AllExtensionsRead(data, StartOf(m), m.extensions, end);
    WholeParses(data, m, |exts|, Meaning(m.extensions));
  }

  lemma WholeParses(data: seq<Byte>, m: Message, total: U16, g: Gathered)
    requires Head(data, m, total) && data[0] == 0x16 && data[5] == 0x01
    requires g == ReadExtensions(data, StartOf(m), StartOf(m) + total, Nothing) && g == Meaning(m.extensions)
    ensures Parse(data) == Some(Fields(m))
  {
    HeadParses(data, m, total, g);
  }

  // ---- What the fields are ---------------------------------------------------

  lemma {:induction false} AsciiSum(a: seq<Byte>, b: seq<Byte>)
    ensures AsciiOnly(a + b) == AsciiOnly(a) + AsciiOnly(b)
  {
    if b == [] {
      assert a + b == a;
    } else {
      AsciiSum(a, b[..|b| - 1]);
      assert (a + b)[..|a + b| - 1] == a + b[..|b| - 1];
    }
  }

  predicate AllAscii(bytes: seq<Byte>) {
    forall i :: 0 <= i < |bytes| ==> bytes[i] < 0x80
  }

  /** ASCII text is read character by character; every other byte is passed over. */
  lemma {:induction false} AsciiMeans(bytes: seq<Byte>)
    requires AllAscii(bytes)
    ensures |AsciiOnly(bytes)| == |bytes| && forall i :: 0 <= i < |bytes| ==> AsciiOnly(bytes)[i] as int == bytes[i]
  {
    if bytes != [] {
      AsciiMeans(bytes[..|bytes| - 1]);
    }
  }

  lemma AsciiOne(b: Byte)
    ensures AsciiOnly([b]) == if b < 0x80 then [b as char] else []
  {
    assert [b][..0] == [];
  }

  /** `i` is the last extension of its kind. */
  predicate LastOf(es: seq<Extension>, i: nat) {
    i < |es| && forall j :: i < j < |es| ==> TypeOf(es[j]) != TypeOf(es[i])
  }

  lemma {:induction false} AlpnIsLast(es: seq<Extension>, i: nat)
    requires AllWellFormed(es) && LastOf(es, i) && es[i].Alpn?
    ensures es[i].names != [] && AlpnOf(es) == Some(AsciiOnly(es[i].names[0]))
  {
    WellFormedAt(es, i);
    if i < |es| - 1 {
      WellFormedAt(es, |es| - 1);
      WellFormedFront(es);
      assert TypeOf(es[|es| - 1]) != TypeOf(es[i]);
      AlpnIsLast(es[..|es| - 1], i);
    }
  }

  lemma {:induction false} AlgorithmsAreLast(es: seq<Extension>, i: nat)
    requires LastOf(es, i) && es[i].SignatureAlgorithms?
    ensures AlgorithmsOf(es) == Some(es[i].algorithms)
  {
    if i < |es| - 1 {
      assert TypeOf(es[|es| - 1]) != TypeOf(es[i]);
      AlgorithmsAreLast(es[..|es| - 1], i);
    }
  }

  lemma {:induction false} NoneOfKind(es: seq<Extension>)
    ensures NamesServer(es) <==> exists e :: e in es && e.ServerName?
    ensures (forall e :: e in es ==> !e.Alpn?) ==> AlpnOf(es) == None
    ensures (forall e :: e in es ==> !e.SignatureAlgorithms?) ==> AlgorithmsOf(es) == None
  {
    if es != [] {
      NoneOfKind(es[..|es| - 1]);
      assert es == es[..|es| - 1] + [es[|es| - 1]];
    }
  }

  lemma {:induction false} WellFormedAt(es: seq<Extension>, i: nat)
    requires AllWellFormed(es) && i < |es|
    ensures WellFormedExtension(es[i])
  {
    if i > 0 {
      WellFormedAt(es[1..], i - 1);
    }
  }

  lemma {:induction false} WellFormedFront(es: seq<Extension>)
    requires AllWellFormed(es) && es != []
    ensures AllWellFormed(es[..|es| - 1])
  {
    if |es| > 1 {
      WellFormedFront(es[1..]);
      assert es[..|es| - 1][1..] == es[1..][..|es| - 2];
    }
  }

  /** What is reported of a message, field by field: versions, ciphers and extension types in order, whether a server is
      named, and the last list of signature algorithms and the first name of the last ALPN list, where there is one. */
  lemma FieldsMean(m: Message)
    requires WellFormed(m)
    ensures var f := Fields(m);
            && f.tlsVersion == m.version && f.ciphers == m.ciphers
            && |f.extensions| == |m.extensions|
            && (forall i :: 0 <= i < |m.extensions| ==>
                  f.extensions[i] == match m.extensions[i]
                                     case ServerName(_) => 0x0000
                                     case Alpn(_) => 0x0010
                                     case SignatureAlgorithms(_) => 0x000D
                                     case Unread(t, _) => t)
            && (f.hasSni <==> exists e :: e in m.extensions && e.ServerName?)
            && (f.alpn.Some? <==> exists e :: e in m.extensions && e.Alpn?)
            && (f.signatureAlgorithms.Some? <==> exists e :: e in m.extensions && e.SignatureAlgorithms?)
    ensures forall i: nat :: LastOf(m.extensions, i) && m.extensions[i].SignatureAlgorithms? ==>
              Fields(m).signatureAlgorithms == Some(m.extensions[i].algorithms)
    ensures forall i: nat :: LastOf(m.extensions, i) && m.extensions[i].Alpn? && IsAscii(m.extensions[i].names) ==>
              SpellsOut(Fields(m).alpn, m.extensions[i].names)
  {
    var es := m.extensions;
    NoneOfKind(es);
    forall i: nat | LastOf(es, i) && es[i].SignatureAlgorithms?
      ensures AlgorithmsOf(es) == Some(es[i].algorithms)
    {
      AlgorithmsAreLast(es, i);
    }
    forall i: nat | LastOf(es, i) && es[i].Alpn? && IsAscii(es[i].names)
      ensures SpellsOut(AlpnOf(es), es[i].names)
    {
      AlpnIsLast(es, i);
      AsciiMeans(es[i].names[0]);
    }
    if e :| e in es && e.Alpn? {
      SomeOfKind(es, e);
    }
    if e :| e in es && e.SignatureAlgorithms? {
      SomeOfKind(es, e);
    }
  }

  predicate IsAscii(names: seq<seq<Byte>>) {
    names != [] && AllAscii(names[0])
  }

  /** The text is the first name, character by character. */
  predicate SpellsOut(text: Option<string>, names: seq<seq<Byte>>) {
    && names != [] && text.Some? && |text.value| == |names[0]|
    && forall i :: 0 <= i < |names[0]| ==> text.value[i] as int == names[0][i]
  }

  lemma {:induction false} SomeOfKind(es: seq<Extension>, e: Extension)
    requires AllWellFormed(es) && e in es
    ensures e.Alpn? ==> AlpnOf(es).Some?
    ensures e.SignatureAlgorithms? ==> AlgorithmsOf(es).Some?
  {
    var last := es[|es| - 1];
    WellFormedAt(es, |es| - 1);
    if e != last {
      WellFormedFront(es);
      assert es == es[..|es| - 1] + [last];
      SomeOfKind(es[..|es| - 1], e);
    }
  }

  // ---- Messages cut short ----------------------------------------------------

  /** An extension that is cut short ends the loop. */
  lemma CutStops(data: seq<Byte>, off: nat, e: Extension, end: nat, g: Gathered)
    requires WellFormedExtension(e) && off <= |data| < off + |EncodeExtension(e)|
    requires data[off..] == EncodeExtension(e)[..|data| - off]
    ensures ReadExtensions(data, off, end, g) == g
  {
    if off < end && off + 4 <= |data| {
      var code := EncodeExtension(e);
      assert code[2..4] == PackU16(|Body(e)|);
      assert data[off + 2..off + 4] == data[off..][2..4] == code[..|data| - off][2..4] == code[2..4];
      U16RoundTrip(|Body(e)|);
    }
  }

  lemma {:induction false} WellFormedSum(a: seq<Extension>, b: seq<Extension>)
    requires AllWellFormed(a) && AllWellFormed(b)
    ensures AllWellFormed(a + b)
  {
    if a == [] {
      assert a + b == b;
    } else {
      WellFormedSum(a[1..], b);
      assert (a + b)[1..] == a[1..] + b;
    }
  }

  lemma {:induction false} EncodeSum(a: seq<Extension>, b: seq<Extension>)
    requires AllWellFormed(a) && AllWellFormed(b) && AllWellFormed(a + b)
    ensures EncodeExtensions(a + b) == EncodeExtensions(a) + EncodeExtensions(b)
  {
    if a == [] {
      assert a + b == b;
    } else {
      var rest := a[1..];
      assert (a + b)[1..] == rest + b && (a + b)[0] == a[0];
      EncodeSum(rest, b);
    }
  }

  /** A message cut off behind some whole extensions, or within the next one, is reported with these alone. */
  lemma CutReads(m: Message, recordLength: U16, handshakeLength: seq<Byte>,
                 whole: seq<Extension>, e: Extension, others: seq<Extension>, part: seq<Byte>)
    requires WellFormed(m) && |handshakeLength| == 3 && m.extensions == whole + ([e] + others)
    requires AllWellFormed(whole) && WellFormedExtension(e) && AllWellFormed(others)
    requires part < EncodeExtension(e)
    ensures EncodeExtensions(whole) + part <= EncodeExtensions(m.extensions)
    ensures Parse(Framed(m, recordLength, handshakeLength, EncodeExtensions(whole) + part))
         == Some(With(m.version, m.ciphers, Meaning(whole)))
  {
    var exts := EncodeExtensions(whole) + part;
    CutIsPrefix(m.extensions, whole, e, others, part);
    FramedHead(m, recordLength, handshakeLength, exts);
    CutParses(Framed(m, recordLength, handshakeLength, exts), m, |EncodeExtensions(m.extensions)|, whole, e, part, exts);
  }

  lemma FramedHead(m: Message, recordLength: U16, handshakeLength: seq<Byte>, exts: seq<Byte>)
    requires WellFormed(m) && |handshakeLength| == 3
    ensures var data := Framed(m, recordLength, handshakeLength, exts);
            && |data| == StartOf(m) + |exts| && data[0] == 0x16 && data[5] == 0x01
            && Head(data, m, |EncodeExtensions(m.extensions)|) && At(data, StartOf(m), exts)
  {
    var data := Framed(m, recordLength, handshakeLength, exts);
    FramedAt(m, recordLength, handshakeLength, exts, []);
    FramedSize(m, recordLength, handshakeLength, exts);
    assert data + [] == data;
    HeadReads(data, m, exts);
  }

  lemma CutParses(data: seq<Byte>, m: Message, total: U16, whole: seq<Extension>, e: Extension, part: seq<Byte>, exts: seq<Byte>)
    requires AllWellFormed(whole) && WellFormedExtension(e) && part < EncodeExtension(e)
    requires exts == EncodeExtensions(whole) + part && |exts| < total
    requires Head(data, m, total) && data[0] == 0x16 && data[5] == 0x01
    requires At(data, StartOf(m), exts) && |data| == StartOf(m) + |exts|
    ensures Parse(data) == Some(With(m.version, m.ciphers, Meaning(whole)))
  {
    PartReads(data, StartOf(m), StartOf(m) + total, whole, e, part);
    HeadParses(data, m, total, Meaning(whole));
  }

  lemma CutIsPrefix(es: seq<Extension>, whole: seq<Extension>, e: Extension, others: seq<Extension>, part: seq<Byte>)
    requires es == whole + ([e] + others) && AllWellFormed(whole) && WellFormedExtension(e) && AllWellFormed(others)
    requires part < EncodeExtension(e)
    ensures AllWellFormed(es) && EncodeExtensions(whole) + part <= EncodeExtensions(es)
    ensures |EncodeExtensions(whole)| + |part| < |EncodeExtensions(es)|
  {
    assert ([e] + others)[1..] == others;
    WellFormedSum(whole, [e] + others);
    EncodeSum(whole, [e] + others);
    var code := EncodeExtension(e);
    assert code == part + code[|part|..];
  }

  lemma PartReads(data: seq<Byte>, off: nat, end: nat, whole: seq<Extension>, e: Extension, part: seq<Byte>)
    requires AllWellFormed(whole) && WellFormedExtension(e) && part < EncodeExtension(e)
    requires At(data, off, EncodeExtensions(whole) + part) && |data| == off + |EncodeExtensions(whole)| + |part| <= end
    ensures ReadExtensions(data, off, end, Nothing) == Meaning(whole)
  {
    var middle := off + |EncodeExtensions(whole)|;
    AtSplit(data, off, EncodeExtensions(whole), part);
    assert data[middle..] == part;
    forall g
      ensures ReadExtensions(data, middle, end, g) == g
    {
      CutStops(data, middle, e, end, g);
    }
    ExtensionsRead(data, off, whole, end, Nothing);
    AddAllToNothing(whole);
  }

  lemma {:induction false} ListSize(us: seq<U16>)
    ensures |EncodeList(us)| == 2 * |us|
  {
    if us != [] {
      ListSize(us[1..]);
    }
  }

  lemma FramedSize(m: Message, recordLength: U16, handshakeLength: seq<Byte>, exts: seq<Byte>)
    requires WellFormed(m) && |handshakeLength| == 3
    ensures |Framed(m, recordLength, handshakeLength, exts)| == StartOf(m) + |exts|
  {
    ListSize(m.ciphers);
  }

  /** A message cut off before its extensions is refused. */
  lemma ShortIsRefused(m: Message, recordLength: U16, handshakeLength: seq<Byte>, n: nat)
    requires WellFormed(m) && |handshakeLength| == 3 && n < StartOf(m)
    ensures |Framed(m, recordLength, handshakeLength, [])| == StartOf(m)
    ensures Parse(Framed(m, recordLength, handshakeLength, [])[..n]) == None
  {
    FramedHead(m, recordLength, handshakeLength, []);
    ShortParses(Framed(m, recordLength, handshakeLength, []), m, |EncodeExtensions(m.extensions)|, n);
  }

  lemma ShortParses(data: seq<Byte>, m: Message, total: U16, n: nat)
    requires Head(data, m, total) && n < StartOf(m) <= |data|
    ensures Parse(data[..n]) == None
  {
    var short := data[..n];
    forall off | 0 <= off && off + 2 <= n
      ensures U16At(short, off) == U16At(data, off)
    {
      assert short[off..off + 2] == data[off..off + 2];
    }
  }

  // ---- Lists of any length ---------------------------------------------------

  /** A list is read in steps of two bytes; the last value of an odd list reaches one byte beyond it. Where that is
      beyond the data the ciphers fail, and the signature algorithms are read as far as they go. */
  lemma {:induction false} ListsMean(data: seq<Byte>, off: nat, count: nat)
    ensures var steps, left := (count + 1) / 2, if off <= |data| then (|data| - off) / 2 else 0;
            && (ReadList(data, off, count).Some? <==> steps <= left)
            && (ReadList(data, off, count).Some? ==> ReadList(data, off, count).value == ReadWithin(data, off, count))
            && |ReadWithin(data, off, count)| == Min(steps, left)
            && forall i :: 0 <= i < |ReadWithin(data, off, count)| ==>
                 ReadWithin(data, off, count)[i] == data[off + 2 * i] as int * 0x100 + data[off + 2 * i + 1] as int
    decreases count
  {
    if count > 0 && off + 2 <= |data| {
      var rest := if count >= 2 then count - 2 else 0;
      ListsMean(data, off + 2, rest);
      var tail := ReadWithin(data, off + 2, rest);
      forall i | 0 <= i < 1 + |tail|
        ensures ReadWithin(data, off, count)[i] == data[off + 2 * i] as int * 0x100 + data[off + 2 * i + 1] as int
      {
        if i > 0 {
          assert ReadWithin(data, off, count)[i] == tail[i - 1];
        }
      }
    }
  }

  // ---- Extensions with any body ------------------------------------------------

  /** The length that a list states in its first two bytes. */
  function Stated(data: seq<Byte>, off: nat): int
    requires off + 2 <= |data|
  {
    data[off] as int * 0x100 + data[off + 1] as int
  }

  /** A list of names within the data whose first name is not empty and fits in it. */
  predicate NamesProtocol(data: seq<Byte>, off: nat) {
    && off + 2 <= |data|
    && Stated(data, off) >= 2 && off + 2 + Stated(data, off) <= |data|
    && 1 <= data[off + 2] as int <= Stated(data, off) - 1
  }

  predicate ListsAlgorithms(data: seq<Byte>, off: nat) {
    off + 2 <= |data| && Stated(data, off) >= 1 && off + 2 + Stated(data, off) <= |data|
  }

  /** What an extension adds whatever its body holds: its type; that a server is named; its first protocol name, or its
      algorithms, where its body has more than two bytes and states a list that lies within the data. */
  lemma AnyBodyGathers(data: seq<Byte>, off: nat, t: U16, length: U16, g: Gathered)
    requires off + length <= |data|
    ensures var g' := Gather(data, off, t, length, g);
            && g'.extensions == g.extensions + [t]
            && (g'.hasSni <==> g.hasSni || t == 0)
            && g'.alpn == (if t == 16 && length > 2 && NamesProtocol(data, off)
                           then Some(AsciiOnly(data[off + 3..off + 3 + data[off + 2] as int])) else g.alpn)
            && g'.signatureAlgorithms == (if t == 13 && length > 2 && ListsAlgorithms(data, off)
                                          then Some(ReadWithin(data, off + 2, Stated(data, off))) else g.signatureAlgorithms)
  {
    if length > 2 {
      assert U16At(data, off) == Stated(data, off);
    }
  }
}
