/** Frames of the Fluent forward protocol, as decoded from msgpack. */
module Forward {
  import opened Bytes

  /** The decoder accepts only text and byte strings as map keys. */
  datatype Key = Text(text: string) | Raw(raw: seq<Byte>)

  datatype Entry = Entry(key: Key, value: Value)

  /** A decoded value; a map lists its entries in insertion order. `NonFinite` is a float that is no number or
      infinite. `Ext` arrives as a tuple of code and data, `Stamp` as the decoder's time stamp object. */
  datatype Value =
    | Nil
    | Bool(b: bool)
    | Num(n: real)
    | NonFinite
    | Str(s: string)
    | Bin(bytes: seq<Byte>)
    | Ext(code: int, data: seq<Byte>)
    | Stamp(time: real)
    | List(items: seq<Value>)
    | Map(entries: seq<Entry>)

  /** UTF-8 with surrogate escapes, and whether text has none of these, as the msgpack encoder demands; the msgpack
      decoder of a whole stream, and gzip, which may fail. */
  datatype Codec = Codec(
    decode: seq<Byte> -> string,
    encode: string -> seq<Byte>,
    strict: string -> bool,
    unpack: seq<Byte> -> Option<seq<Value>>,
    gunzip: seq<Byte> -> Option<seq<Byte>>)

  // ---- Maps ------------------------------------------------------------------

  function IndexOf(entries: seq<Entry>, key: Key): (i: nat)
    ensures i <= |entries|
    ensures i < |entries| ==> entries[i].key == key
    ensures forall j :: 0 <= j < i ==> entries[j].key != key
  {
    if entries == [] then 0 else if entries[0].key == key then 0 else 1 + IndexOf(entries[1..], key)
  }

  function Get(entries: seq<Entry>, name: string): Option<Value> {
    var i := IndexOf(entries, Text(name));
    if i < |entries| then Some(entries[i].value) else None
  }

  /** Assigning to a key keeps its place; a new key comes last. */
  function Put(entries: seq<Entry>, key: Key, value: Value): seq<Entry> {
    var i := IndexOf(entries, key);
    if i < |entries| then entries[i := Entry(key, value)] else entries + [Entry(key, value)]
  }

  /** What a dict comprehension over these entries leaves: of equal keys the last value wins. */
  function Merged(entries: seq<Entry>): seq<Entry> {
    if entries == [] then []
    else
      var last := entries[|entries| - 1];
      Put(Merged(entries[..|entries| - 1]), last.key, last.value)
  }

  predicate DistinctKeys(entries: seq<Entry>) {
    forall i, j :: 0 <= i < j < |entries| ==> entries[i].key != entries[j].key
  }

  // ---- Normalising -----------------------------------------------------------

  function KeyText(codec: Codec, key: Key): Key {
    match key
    case Text(_) => key
    case Raw(raw) => Text(codec.decode(raw))
  }

  function Normalize(codec: Codec, v: Value): Value {
    match v
    case Map(entries) =>
      Map(Merged(seq(|entries|, i requires 0 <= i < |entries| =>
        Entry(KeyText(codec, entries[i].key), Normalize(codec, entries[i].value)))))
    case List(items) => List(seq(|items|, i requires 0 <= i < |items| => Normalize(codec, items[i])))
    case Ext(code, data) => List([Num(code as real), Str(codec.decode(data))])
    case Bin(bytes) => Str(codec.decode(bytes))
    case _ => v
  }

  /** No bytes anywhere, neither as a key nor as a value, and no key twice. */
  predicate Clean(v: Value) {
    match v
    case Map(entries) =>
      DistinctKeys(entries) && forall i :: 0 <= i < |entries| ==> entries[i].key.Text? && Clean(entries[i].value)
    case List(items) => forall i :: 0 <= i < |items| ==> Clean(items[i])
    case Bin(_) => false
    case Ext(_, _) => false
    case _ => true
  }

  predicate CleanEntries(entries: seq<Entry>) {
    forall i :: 0 <= i < |entries| ==> entries[i].key.Text? && Clean(entries[i].value)
  }

  lemma {:induction false} MergedIsClean(entries: seq<Entry>)
    requires CleanEntries(entries)
    ensures CleanEntries(Merged(entries)) && DistinctKeys(Merged(entries))
  {
    if entries != [] {
      MergedIsClean(entries[..|entries| - 1]);
    }
  }

  lemma {:induction false} MergedKeepsDistinct(entries: seq<Entry>)
    requires DistinctKeys(entries)
    ensures Merged(entries) == entries
  {
    if entries != [] {
      MergedKeepsDistinct(entries[..|entries| - 1]);
    }
  }

  /** After normalising no bytes are left. */
  lemma {:induction false} NormalizeCleans(codec: Codec, v: Value)
    ensures Clean(Normalize(codec, v))
    decreases v
  {
    match v
    case Map(entries) =>
      var normal := seq(|entries|, i requires 0 <= i < |entries| =>
        Entry(KeyText(codec, entries[i].key), Normalize(codec, entries[i].value)));
      forall i | 0 <= i < |entries|
        ensures normal[i].key.Text? && Clean(normal[i].value)
      {
        NormalizeCleans(codec, entries[i].value);
      }
      MergedIsClean(normal);
    case List(items) =>
      forall i | 0 <= i < |items|
        ensures Clean(Normalize(codec, items[i]))
      {
        NormalizeCleans(codec, items[i]);
      }
    case _ =>
  }

  /** What holds no bytes is forwarded verbatim. */
  lemma {:induction false} NormalizeKeepsClean(codec: Codec, v: Value)
    requires Clean(v)
    ensures Normalize(codec, v) == v
    decreases v
  {
    match v
    case Map(entries) =>
      var normal := seq(|entries|, i requires 0 <= i < |entries| =>
        Entry(KeyText(codec, entries[i].key), Normalize(codec, entries[i].value)));
      forall i | 0 <= i < |entries|
        ensures normal[i] == entries[i]
      {
        NormalizeKeepsClean(codec, entries[i].value);
      }
      assert normal == entries;
      MergedKeepsDistinct(entries);
    case List(items) =>
      forall i | 0 <= i < |items|
        ensures Normalize(codec, items[i]) == items[i]
      {
        NormalizeKeepsClean(codec, items[i]);
      }
    case _ =>
  }

  lemma {:induction false} IndexIsFirst(entries: seq<Entry>, key: Key, i: nat)
    requires i < |entries| && entries[i].key == key && forall j :: 0 <= j < i ==> entries[j].key != key
    ensures IndexOf(entries, key) == i
  {
  }

  /** Of the entries with one key the last decides. */
  lemma {:induction false} MergedTakesLast(entries: seq<Entry>, i: nat, name: string)
    requires i < |entries| && entries[i].key == Text(name)
    requires forall j :: i < j < |entries| ==> entries[j].key != Text(name)
    ensures Get(Merged(entries), name) == Some(entries[i].value)
    decreases |entries|
  {
    var front, last := entries[..|entries| - 1], entries[|entries| - 1];
    var merged := Merged(front);
    var k := IndexOf(merged, last.key);
    var put := Put(merged, last.key, last.value);
    if i == |entries| - 1 {
      IndexIsFirst(put, last.key, k);
    } else {
      MergedTakesLast(front, i, name);
      IndexIsFirst(put, Text(name), IndexOf(merged, Text(name)));
    }
  }

  /** What normalising makes of a value: bytes become their text, an extension the list of its code and its text; lists
      are normalised item by item, and maps value by value, each under the text of its key. */
  lemma NormalizeMeans(codec: Codec, v: Value, i: nat, name: string)
    ensures v.Bin? ==> Normalize(codec, v) == Str(codec.decode(v.bytes))
    ensures v.Ext? ==> Normalize(codec, v) == List([Num(v.code as real), Str(codec.decode(v.data))])
    ensures v.List? && i < |v.items| ==>
              && Normalize(codec, v).List? && |Normalize(codec, v).items| == |v.items|
              && Normalize(codec, v).items[i] == Normalize(codec, v.items[i])
    ensures v.Map? && i < |v.entries| && Names(codec, v.entries[i].key, name)
            && (forall j :: i < j < |v.entries| ==> !Names(codec, v.entries[j].key, name)) ==>
              Normalize(codec, v).Map? && Get(Normalize(codec, v).entries, name) == Some(Normalize(codec, v.entries[i].value))
    ensures !v.Bin? && !v.Ext? && !v.List? && !v.Map? ==> Normalize(codec, v) == v
  {
    if v.Map? && i < |v.entries| && Names(codec, v.entries[i].key, name)
       && forall j :: i < j < |v.entries| ==> !Names(codec, v.entries[j].key, name) {
      var normal := seq(|v.entries|, k requires 0 <= k < |v.entries| =>
        Entry(KeyText(codec, v.entries[k].key), Normalize(codec, v.entries[k].value)));
      MergedTakesLast(normal, i, name);
    }
  }

  /** A key is the text `name`, or bytes that stand for it. */
  predicate Names(codec: Codec, key: Key, name: string) {
    match key
    case Text(text) => text == name
    case Raw(raw) => codec.decode(raw) == name
  }

  // ---- Frames ----------------------------------------------------------------

  datatype Tagged = Tagged(tag: string, record: Value)

  /** The records of a frame, and its option map where it has one. */
  datatype Frame = Frame(records: seq<Tagged>, option: Option<seq<Entry>>)

  predicate IsRecord(entry: Value) {
    entry.List? && |entry.items| >= 2 && entry.items[1].Map?
  }

  /** The records among the `[time, record]` entries; anything else is skipped. */
  function RecordsOf(codec: Codec, tag: string, entries: seq<Value>): seq<Tagged> {
    if entries == [] then []
    else
      var last := entries[|entries| - 1];
      RecordsOf(codec, tag, entries[..|entries| - 1])
      + if IsRecord(last) then [Tagged(tag, Normalize(codec, last.items[1]))] else []
  }

  function OptionAt(items: seq<Value>, k: nat): Option<seq<Entry>> {
    if k < |items| && items[k].Map? then Some(items[k].entries) else None
  }

  function AsBytes(codec: Codec, blob: Value): seq<Byte>
    requires blob.Bin? || blob.Str?
  {
    if blob.Bin? then blob.bytes else codec.encode(blob.s)
  }

  predicate Compressed(option: Option<seq<Entry>>) {
    option.Some? && Get(option.value, "compressed") == Some(Str("gzip"))
  }

  function Unpacked(codec: Codec, blob: Value, option: Option<seq<Entry>>): Option<seq<Value>>
    requires blob.Bin? || blob.Str?
  {
    var data := AsBytes(codec, blob);
    if Compressed(option) then
      var plain := codec.gunzip(data);
      if plain.None? then None else codec.unpack(plain.value)
    else codec.unpack(data)
  }

  const NoFrame := Frame([], None)

  /** `None` where the original raises. */
  function Parsed(codec: Codec, msg: Value): Option<Frame> {
    if !msg.List? || |msg.items| < 2 || !msg.items[0].Str? then Some(NoFrame)
    else
      var items, tag, second := msg.items, msg.items[0].s, msg.items[1];
      if second.List? then
        Some(Frame(RecordsOf(codec, tag, second.items), OptionAt(items, 2)))
      else if second.Bin? || second.Str? then
        var entries := Unpacked(codec, second, OptionAt(items, 2));
        if entries.None? then None else Some(Frame(RecordsOf(codec, tag, entries.value), OptionAt(items, 2)))
      else if |items| >= 3 && items[2].Map? then
        Some(Frame([Tagged(tag, Normalize(codec, items[2]))], OptionAt(items, 3)))
      else Some(NoFrame)
  }

  method CollectRecords(codec: Codec, tag: string, entries: seq<Value>) returns (records: seq<Tagged>)
    ensures records == RecordsOf(codec, tag, entries)
  {
    records := [];
    for i := 0 to |entries|
      invariant records == RecordsOf(codec, tag, entries[..i])
    {
      assert entries[..i + 1][..i] == entries[..i];
      if entries[i].List? && |entries[i].items| >= 2 && entries[i].items[1].Map? {
        records := records + [Tagged(tag, Normalize(codec, entries[i].items[1]))];
      }
    }
    assert entries[..|entries|] == entries;
  }

  method ParseFrame(codec: Codec, msg: Value) returns (frame: Option<Frame>)
    ensures frame == Parsed(codec, msg)
  {
    if !msg.List? || |msg.items| < 2 || !msg.items[0].Str? {
      return Some(NoFrame);
    }
    var tag, second := msg.items[0].s, msg.items[1];
    var records: seq<Tagged> := [];
    var option: Option<seq<Entry>> := None;
    if second.List? {
      records := CollectRecords(codec, tag, second.items);
      if |msg.items| >= 3 && msg.items[2].Map? {
        option := Some(msg.items[2].entries);
      }
    } else if second.Bin? || second.Str? {
      if |msg.items| >= 3 && msg.items[2].Map? {
        option := Some(msg.items[2].entries);
      }
      var data := AsBytes(codec, second);
      if option.Some? && option.value != [] && Get(option.value, "compressed") == Some(Str("gzip")) {
        var plain := codec.gunzip(data);
        if plain.None? {
          return None;
        }
        data := plain.value;
      }
      var entries := codec.unpack(data);
      if entries.None? {
        return None;
      }
      records := CollectRecords(codec, tag, entries.value);
    } else if |msg.items| >= 3 && msg.items[2].Map? {
      records := [Tagged(tag, Normalize(codec, msg.items[2]))];
      if |msg.items| >= 4 && msg.items[3].Map? {
        option := Some(msg.items[3].entries);
      }
    }
    return Some(Frame(records, option));
  }

  // ---- What can be packed again ------------------------------------------------

  /** The encoder accepts the value: text with a surrogate escape raises wherever it stands. */
  predicate Packable(codec: Codec, v: Value) {
    match v
    case Str(s) => codec.strict(s)
    case Map(entries) =>
      forall i :: 0 <= i < |entries| ==>
        (entries[i].key.Text? ==> codec.strict(entries[i].key.text)) && Packable(codec, entries[i].value)
    case List(items) => forall i :: 0 <= i < |items| ==> Packable(codec, items[i])
    case _ => true
  }

  /** `u` is `v` or stands in it at some depth. */
  ghost predicate Contains(v: Value, u: Value)
    decreases v
  {
    u == v || match v
              case Map(entries) => exists i :: 0 <= i < |entries| && Contains(entries[i].value, u)
              case List(items) => exists i :: 0 <= i < |items| && Contains(items[i], u)
              case _ => false
  }

  /** A value can be packed exactly if every text in it, keys included, is free of surrogate escapes. */
  lemma {:induction false} PackableExactlyWhen(codec: Codec, v: Value)
    ensures Packable(codec, v) <==> forall u :: Contains(v, u) ==> PacksItself(codec, u)
    decreases v
  {
    assert Contains(v, v);
    match v
    case Map(entries) =>
      forall i | 0 <= i < |entries|
        ensures Packable(codec, entries[i].value) <==> forall u :: Contains(entries[i].value, u) ==> PacksItself(codec, u)
      {
        PackableExactlyWhen(codec, entries[i].value);
      }
    case List(items) =>
      forall i | 0 <= i < |items|
        ensures Packable(codec, items[i]) <==> forall u :: Contains(items[i], u) ==> PacksItself(codec, u)
      {
        PackableExactlyWhen(codec, items[i]);
      }
    case _ =>
  }

  predicate PacksItself(codec: Codec, u: Value) {
    && (u.Str? ==> codec.strict(u.s))
    && (u.Map? ==> forall e :: e in u.entries && e.key.Text? ==> codec.strict(e.key.text))
  }

  /** The bytes that the second byte of a character may be, given its first (section 4 of RFC 3629). */
  predicate Follows(lead: Byte, second: Byte) {
    if lead == 0xE0 then 0xA0 <= second <= 0xBF
    else if lead == 0xED then 0x80 <= second <= 0x9F
    else if lead == 0xF0 then 0x90 <= second <= 0xBF
    else if lead == 0xF4 then 0x80 <= second <= 0x8F
    else 0x80 <= second <= 0xBF
  }

  /** The length of a character by its first byte; 0 where no character starts so. */
  function CharLength(lead: Byte): nat {
    if lead <= 0x7F then 1
    else if 0xC2 <= lead <= 0xDF then 2
    else if 0xE0 <= lead <= 0xEF then 3
    else if 0xF0 <= lead <= 0xF4 then 4
    else 0
  }

  predicate Utf8(bytes: seq<Byte>)
    decreases |bytes|
  {
    bytes != [] ==>
      var n := CharLength(bytes[0]);
      && 0 < n <= |bytes|
      && (n > 1 ==> Follows(bytes[0], bytes[1]))
      && (forall i :: 2 <= i < n ==> 0x80 <= bytes[i] <= 0xBF)
      && Utf8(bytes[n..])
  }

  /** Surrogate escapes come from bytes that are not UTF-8, and from nothing else. */
  ghost predicate EscapesTheRest(codec: Codec) {
    forall bytes :: codec.strict(codec.decode(bytes)) <==> Utf8(bytes)
  }

  // ---- The carrier modes -----------------------------------------------------

  /** One event on the sender's side. */
  datatype Sent = Sent(time: Value, record: seq<Entry>)

  function Pairs(events: seq<Sent>): seq<Value> {
    seq(|events|, i requires 0 <= i < |events| => List([events[i].time, Map(events[i].record)]))
  }

  /** What is to arrive. */
  function Records(codec: Codec, tag: string, events: seq<Sent>): seq<Tagged> {
    seq(|events|, i requires 0 <= i < |events| => Tagged(tag, Normalize(codec, Map(events[i].record))))
  }

  function ForwardFrame(tag: string, events: seq<Sent>, option: seq<Entry>): Value {
    List([Str(tag), List(Pairs(events)), Map(option)])
  }

  /** The blob as bytes, or as the text the decoder makes of it. */
  function PackedFrame(codec: Codec, tag: string, blob: seq<Byte>, asText: bool, option: seq<Entry>): Value {
    List([Str(tag), if asText then Str(codec.decode(blob)) else Bin(blob), Map(option)])
  }

  function MessageFrame(tag: string, event: Sent, option: seq<Entry>): Value {
    List([Str(tag), event.time, Map(event.record), Map(option)])
  }

  /** The records the frames of a sequence carry, in order. */
  function ParsedAll(codec: Codec, frames: seq<Value>): Option<seq<Tagged>> {
    if frames == [] then Some([])
    else
      var before, last := ParsedAll(codec, frames[..|frames| - 1]), Parsed(codec, frames[|frames| - 1]);
      if before.None? || last.None? then None else Some(before.value + last.value.records)
  }

  lemma {:induction false} PairsArrive(codec: Codec, tag: string, events: seq<Sent>)
    ensures RecordsOf(codec, tag, Pairs(events)) == Records(codec, tag, events)
    decreases |events|
  {
    if events != [] {
      var n := |events| - 1;
      PairsArrive(codec, tag, events[..n]);
      assert Pairs(events)[..n] == Pairs(events[..n]);
      RecordsSplit(codec, tag, events);
    }
  }

  lemma RecordsSplit(codec: Codec, tag: string, events: seq<Sent>)
    requires events != []
    ensures var n := |events| - 1;
            Records(codec, tag, events) == Records(codec, tag, events[..n]) + [Tagged(tag, Normalize(codec, Map(events[n].record)))]
  {
  }

  /** Forward mode delivers the events and the option. */
  lemma ForwardArrives(codec: Codec, tag: string, events: seq<Sent>, option: seq<Entry>)
    ensures Parsed(codec, ForwardFrame(tag, events, option)) == Some(Frame(Records(codec, tag, events), Some(option)))
  {
    PairsArrive(codec, tag, events);
  }

  /** So does packed mode, whether the blob arrives as bytes or as text and whether or not it is compressed. */
  lemma PackedArrives(codec: Codec, tag: string, events: seq<Sent>, blob: seq<Byte>, asText: bool, option: seq<Entry>)
    requires codec.encode(codec.decode(blob)) == blob
    requires if Get(option, "compressed") == Some(Str("gzip"))
             then codec.gunzip(blob).Some? && codec.unpack(codec.gunzip(blob).value) == Some(Pairs(events))
             else codec.unpack(blob) == Some(Pairs(events))
    ensures Parsed(codec, PackedFrame(codec, tag, blob, asText, option))
         == Some(Frame(Records(codec, tag, events), Some(option)))
  {
    PairsArrive(codec, tag, events);
  }

  lemma MessageArrives(codec: Codec, tag: string, event: Sent, option: seq<Entry>)
    requires !event.time.Str? && !event.time.Bin? && !event.time.List?
    ensures Parsed(codec, MessageFrame(tag, event, option))
         == Some(Frame([Tagged(tag, Normalize(codec, Map(event.record)))], Some(option)))
  {
  }

  /** And so do single messages, one frame per event, when the time is not itself text, bytes or a list. */
  lemma {:induction false} MessagesArrive(codec: Codec, tag: string, events: seq<Sent>, options: seq<seq<Entry>>, frames: seq<Value>)
    requires |frames| == |options| == |events|
    requires forall i :: 0 <= i < |events| ==> frames[i] == MessageFrame(tag, events[i], options[i])
    requires forall i :: 0 <= i < |events| ==> !events[i].time.Str? && !events[i].time.Bin? && !events[i].time.List?
    ensures ParsedAll(codec, frames) == Some(Records(codec, tag, events))
    decreases |events|
  {
    if events != [] {
      var n := |events| - 1;
      MessagesArrive(codec, tag, events[..n], options[..n], frames[..n]);
      MessageArrives(codec, tag, events[n], options[n]);
      RecordsSplit(codec, tag, events);
    } else {
      assert Records(codec, tag, events) == [];
    }
  }

  /** The shorter frames: a frame may come without an option, and what is not a frame carries nothing. */
  lemma ShortFrames(codec: Codec, tag: string, events: seq<Sent>, blob: seq<Byte>, event: Sent, other: Value)
    requires !event.time.List? && !event.time.Bin? && !event.time.Str?
    ensures Parsed(codec, List([Str(tag), List(Pairs(events))])) == Some(Frame(Records(codec, tag, events), None))
    ensures Parsed(codec, List([Str(tag), Bin(blob)]))
         == (if codec.unpack(blob).None? then None else Some(Frame(RecordsOf(codec, tag, codec.unpack(blob).value), None)))
    ensures Parsed(codec, List([Str(tag), event.time, Map(event.record)]))
         == Some(Frame([Tagged(tag, Normalize(codec, Map(event.record)))], None))
    ensures Parsed(codec, List([Str(tag), event.time])) == Some(Frame([], None))
    ensures Parsed(codec, List([Str(tag)])) == Some(Frame([], None)) && Parsed(codec, List([])) == Some(Frame([], None))
    ensures !other.List? || other.items == [] || !other.items[0].Str? ==> Parsed(codec, other) == Some(Frame([], None))
  {
    PairsArrive(codec, tag, events);
  }
}
