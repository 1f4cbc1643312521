/** Handling received records, and the acknowledgement of a frame only after all of them were stored. */
module Ingest {
  import opened Bytes
  import opened Forward

  const ENRICHABLE := "stingar.enrichable."

  /** A session document to store, with the ledger rows that go with it. */
  datatype Enriched = Enriched(session: seq<Entry>, rows: seq<seq<Entry>>)

  /** What the server is started with: the codec, and extraction and enrichment of one record, which may fail. */
  datatype Config = Config(codec: Codec, process: seq<Entry> -> Option<Enriched>)

  // ---- The fallback document -------------------------------------------------

  function WithoutKey(entries: seq<Entry>, key: Key): (r: seq<Entry>)
    ensures forall e :: e in r <==> e in entries && e.key != key
  {
    if entries == [] then []
    else
      var last := entries[|entries| - 1];
      assert entries == entries[..|entries| - 1] + [last];
      WithoutKey(entries[..|entries| - 1], key) + if last.key == key then [] else [last]
  }

  const CONTENT := Text("content_b64")

  function StrippedFile(f: Value): Value {
    if f.Map? then Map(WithoutKey(f.entries, CONTENT)) else f
  }

  /** A false value, which `or ()` replaces by nothing to loop over. */
  predicate Falsy(v: Value) {
    match v
    case Nil => true
    case Bool(b) => !b
    case Num(n) => n == 0.0
    case Str(s) => s == ""
    case Bin(bytes) => bytes == []
    case List(items) => items == []
    case Map(entries) => entries == []
    case _ => false
  }

  /** A true value that a `for` loop cannot go over. */
  predicate NotIterable(v: Value) {
    (v.Bool? && v.b) || (v.Num? && v.n != 0.0) || v.NonFinite? || v.Stamp?
  }

  /** The `files` of a record with an `hp_data` map. */
  function FilesOf(record: seq<Entry>): Option<Value> {
    var hp := Get(record, "hp_data");
    if hp.Some? && hp.value.Map? then Get(hp.value.entries, "files") else None
  }

  function StrippedFiles(files: seq<Value>): seq<Value> {
    seq(|files|, i requires 0 <= i < |files| => StrippedFile(files[i]))
  }

  /** The record with the contents taken out of its files; `None` where the original raises. */
  function Stripped(record: seq<Entry>): Option<seq<Entry>> {
    var files := FilesOf(record);
    if files.None? || Falsy(files.value) then Some(record)
    else if NotIterable(files.value) then None
    else if files.value.List? then
      Some(Put(record, Text("hp_data"),
               Map(Put(Get(record, "hp_data").value.entries, Text("files"), List(StrippedFiles(files.value.items))))))
    else Some(record)
  }

  method StripBytes(raw: seq<Entry>) returns (doc: Option<seq<Entry>>)
    ensures doc == Stripped(raw)
  {
    var hp := Get(raw, "hp_data");
    if hp.None? || !hp.value.Map? {
      return Some(raw);
    }
    var files := Get(hp.value.entries, "files");
    if files.None? || Falsy(files.value) {
      return Some(raw);
    }
    if NotIterable(files.value) {
      return None;
    }
    if !files.value.List? {
      return Some(raw);
    }
    var items := files.value.items;
    var k := 0;
    while k < |items|
      invariant 0 <= k <= |items| == |files.value.items|
      invariant items[..k] == StrippedFiles(files.value.items)[..k] && items[k..] == files.value.items[k..]
    {
      assert items[k] == items[k..][0] == files.value.items[k];
      if items[k].Map? {
        items := items[k := Map(WithoutKey(items[k].entries, CONTENT))];
      }
      assert items[..k + 1] == items[..k] + [items[k]];
      k := k + 1;
    }
    assert items == StrippedFiles(files.value.items);
    return Some(Put(raw, Text("hp_data"), Map(Put(hp.value.entries, Text("files"), List(items)))));
  }

  /** Stripping fails exactly on a `files` value that is true and cannot be looped over. */
  lemma StripFailsExactlyWhen(record: seq<Entry>)
    ensures Stripped(record).None? <==> FilesOf(record).Some? && NotIterable(FilesOf(record).value)
  {
  }

  lemma PutThenGet(entries: seq<Entry>, name: string, v: Value)
    ensures Get(Put(entries, Text(name), v), name) == Some(v)
    ensures forall other: string :: other != name ==> Get(Put(entries, Text(name), v), other) == Get(entries, other)
  {
    var put := Put(entries, Text(name), v);
    var i := IndexOf(entries, Text(name));
    assert put[i] == Entry(Text(name), v) && forall j :: 0 <= j < i ==> put[j] == entries[j];
    IndexIs(put, Text(name), i);
    forall other: string | other != name
      ensures Get(put, other) == Get(entries, other)
    {
      OtherIndex(entries, put, Text(other), i);
    }
  }

  lemma IndexIs(entries: seq<Entry>, key: Key, i: nat)
    requires i <= |entries| && (i < |entries| ==> entries[i].key == key) && forall j :: 0 <= j < i ==> entries[j].key != key
    ensures IndexOf(entries, key) == i
  {
  }

  lemma OtherIndex(entries: seq<Entry>, put: seq<Entry>, key: Key, i: nat)
    requires i <= |entries| && i < |put| && |entries| <= |put| <= Max(i + 1, |entries|)
    requires put[i].key != key && (i < |entries| ==> entries[i].key != key)
    requires forall j :: 0 <= j < |entries| && j != i ==> put[j] == entries[j]
    ensures var k := IndexOf(entries, key);
            if k < |entries| then IndexOf(put, key) == k && put[k] == entries[k] else IndexOf(put, key) == |put|
  {
    var k := IndexOf(entries, key);
    IndexIs(put, key, if k < |entries| then k else |put|);
  }

  /** The stripped record holds no file contents; its other fields and the other data of each file are kept. */
  lemma StrippedMeans(record: seq<Entry>)
    requires Stripped(record).Some? && FilesOf(record).Some? && FilesOf(record).value.List?
    ensures var files := FilesOf(record).value.items;
            var doc := Stripped(record).value;
            && FilesOf(doc) == Some(List(StrippedFiles(files)))
            && (forall i :: 0 <= i < |files| && files[i].Map? ==>
                  forall e :: e in StrippedFiles(files)[i].entries <==> e in files[i].entries && e.key != CONTENT)
            && (forall i :: 0 <= i < |files| && !files[i].Map? ==> StrippedFiles(files)[i] == files[i])
            && (forall other: string :: other != "hp_data" ==> Get(doc, other) == Get(record, other))
  {
    var files := FilesOf(record).value;
    if files.items == [] {
      assert StrippedFiles([]) == [];
    } else {
      var hp := Put(Get(record, "hp_data").value.entries, Text("files"), List(StrippedFiles(files.items)));
      PutThenGet(Get(record, "hp_data").value.entries, "files", List(StrippedFiles(files.items)));
      PutThenGet(record, "hp_data", Map(hp));
    }
  }

  // ---- Storing ---------------------------------------------------------------

  datatype Doc = Session(entries: seq<Entry>) | Row(entries: seq<Entry>)

  /** A write that raised may have reached the store all the same. */
  datatype Outcome = Done | Lost | DoneButRaised

  /** What is stored, in order, and how many writes were tried. */
  datatype Store = Store(docs: seq<Doc>, calls: nat)

  /** The storage backend: how the `n`th write goes, given its document. */
  type Backend = (nat, Doc) -> Outcome

  /** What `json.dumps` accepts: text keys, and no bytes, extension or time stamp object at any depth. */
  predicate Serializable(v: Value) {
    match v
    case Map(entries) => forall i :: 0 <= i < |entries| ==> entries[i].key.Text? && Serializable(entries[i].value)
    case List(items) => forall i :: 0 <= i < |items| ==> Serializable(items[i])
    case Bin(_) => false
    case Ext(_, _) => false
    case Stamp(_) => false
    case _ => true
  }

  /** `json.dumps` accepts a document exactly if nothing in it is bytes, an extension or a time stamp object, and every
      key is text. */
  lemma {:induction false} SerializableExactlyWhen(v: Value)
    ensures Serializable(v) <==> forall u :: Contains(v, u) ==> SerializesItself(u)
    decreases v
  {
    assert Contains(v, v);
    match v
    case Map(entries) =>
      forall i | 0 <= i < |entries|
        ensures Serializable(entries[i].value) <==> forall u :: Contains(entries[i].value, u) ==> SerializesItself(u)
      {
        SerializableExactlyWhen(entries[i].value);
      }
    case List(items) =>
      forall i | 0 <= i < |items|
        ensures Serializable(items[i]) <==> forall u :: Contains(items[i], u) ==> SerializesItself(u)
      {
        SerializableExactlyWhen(items[i]);
      }
    case _ =>
  }

  predicate SerializesItself(u: Value) {
    !u.Bin? && !u.Ext? && !u.Stamp? && (u.Map? ==> forall e :: e in u.entries ==> e.key.Text?)
  }

  /** The seconds since the epoch that lie in the years 1 to 9999, which is as far as `datetime` goes. */
  const FIRST_SECOND := -62135596800.0
  const END_OF_TIME := 253402300800.0

  /** The value that dates a document: the first true one of three fields, or else the last. */
  function TimeOf(doc: seq<Entry>): Option<Value> {
    var ended, at := Get(doc, "end_time"), Get(doc, "@timestamp");
    if ended.Some? && !Falsy(ended.value) then ended
    else if at.Some? && !Falsy(at.value) then at
    else Get(doc, "ts")
  }

  /** The name of the daily index can be built: a number must be a date, anything else will do. */
  predicate Datable(doc: seq<Entry>) {
    match TimeOf(doc)
    case Some(Num(n)) => FIRST_SECOND <= n < END_OF_TIME
    case Some(NonFinite) => false
    case _ => true
  }

  predicate NumberOutOfTime(v: Value) {
    v.NonFinite? || (v.Num? && (v.n < -62135596800.0 || v.n >= 253402300800.0))
  }

  predicate IsNothing(v: Value) {
    v == Nil || v == Bool(false) || v == Num(0.0) || v == Str("") || v == Bin([]) || v == List([]) || v == Map([])
  }

  /** A document is dated by its end time, or else its time stamp, or else `ts`, passing over the first two while they
      are missing or nothing; it cannot be only by a number beyond the years 1 to 9999. */
  lemma DatableExactlyWhen(doc: seq<Entry>, ended: Option<Value>, at: Option<Value>, ts: Option<Value>)
    requires ended == Get(doc, "end_time") && at == Get(doc, "@timestamp") && ts == Get(doc, "ts")
    ensures Datable(doc) <==>
            if ended.Some? && !IsNothing(ended.value) then !NumberOutOfTime(ended.value)
            else if at.Some? && !IsNothing(at.value) then !NumberOutOfTime(at.value)
            else ts.Some? ==> !NumberOutOfTime(ts.value)
  {
  }

  /** The writer gets as far as sending the document. */
  predicate Writable(doc: Doc) {
    Datable(doc.entries) && Serializable(Map(doc.entries))
  }

  function WithTag(doc: seq<Entry>, tag: string): seq<Entry> {
    if tag == "" then doc else Put(doc, Text("fluentd_tag"), Str(tag))
  }

  /** A document carries the tag of its frame, if that has one, and is otherwise as it was. */
  lemma TagMeans(doc: seq<Entry>, tag: string, name: string)
    ensures tag == "" ==> WithTag(doc, tag) == doc
    ensures tag != "" ==> Get(WithTag(doc, tag), "fluentd_tag") == Some(Str(tag))
    ensures name != "fluentd_tag" ==> Get(WithTag(doc, tag), name) == Get(doc, name)
  {
    PutThenGet(doc, "fluentd_tag", Str(tag));
  }

  predicate Enrichable(tag: string) {
    ENRICHABLE <= tag
  }

  function SessionAndRows(cfg: Config, record: seq<Entry>): Option<Enriched> {
    var enriched := cfg.process(record);
    if enriched.Some? then enriched
    else
      var stripped := Stripped(record);
      if stripped.None? then None else Some(Enriched(stripped.value, []))
  }

  function Rows(tag: string, rows: seq<seq<Entry>>): seq<Doc> {
    seq(|rows|, i requires 0 <= i < |rows| => Row(WithTag(rows[i], tag)))
  }

  /** What has to be stored for a record; `None` where not even the fallback can be built. */
  function DocsOf(cfg: Config, t: Tagged): Option<seq<Doc>>
    requires t.record.Map?
  {
    if !Enrichable(t.tag) then Some([])
    else
      var e := SessionAndRows(cfg, t.record.entries);
      if e.None? then None else Some([Session(WithTag(e.value.session, t.tag))] + Rows(t.tag, e.value.rows))
  }

  predicate AllMaps(records: seq<Tagged>) {
    forall i :: 0 <= i < |records| ==> records[i].record.Map?
  }

  /** What a frame writes when no write fails, and whether it then gets to its end. */
  datatype Plan = Plan(docs: seq<Doc>, completes: bool)

  function PlanOf(cfg: Config, records: seq<Tagged>): Plan
    requires AllMaps(records)
  {
    if records == [] then Plan([], true)
    else
      var docs := DocsOf(cfg, records[0]);
      if docs.None? then Plan([], false)
      else var rest := PlanOf(cfg, records[1..]); Plan(docs.value + rest.docs, rest.completes)
  }

  /** The session document of a record comes first, and then its ledger rows in their order. */
  lemma DocsInOrder(cfg: Config, t: Tagged, i: nat)
    requires t.record.Map? && Enrichable(t.tag) && DocsOf(cfg, t).Some?
    ensures var docs, e := DocsOf(cfg, t).value, SessionAndRows(cfg, t.record.entries).value;
            && |docs| == 1 + |e.rows| && docs[0] == Session(WithTag(e.session, t.tag))
            && (i < |e.rows| ==> docs[1 + i] == Row(WithTag(e.rows[i], t.tag)))
  {
  }

  /** What is enriched is stored as such, and else the record without the contents of its files and no rows. */
  lemma SessionMeans(cfg: Config, record: seq<Entry>)
    ensures cfg.process(record).Some? ==> SessionAndRows(cfg, record) == cfg.process(record)
    ensures cfg.process(record).None? ==>
              SessionAndRows(cfg, record) == if Stripped(record).Some? then Some(Enriched(Stripped(record).value, [])) else None
  {
  }

  /** The records of a frame are written one after the other. */
  lemma {:induction false} PlanInOrder(cfg: Config, a: seq<Tagged>, b: seq<Tagged>)
    requires AllMaps(a) && AllMaps(b)
    ensures AllMaps(a + b)
    ensures var first, rest := PlanOf(cfg, a), PlanOf(cfg, b);
            PlanOf(cfg, a + b) == if first.completes then Plan(first.docs + rest.docs, rest.completes) else first
  {
    if a == [] {
      assert a + b == b;
    } else {
      assert (a + b)[1..] == a[1..] + b;
      PlanInOrder(cfg, a[1..], b);
      var docs := DocsOf(cfg, a[0]);
      if docs.Some? {
        Regrouped(docs.value, PlanOf(cfg, a[1..]).docs, PlanOf(cfg, b).docs);
      }
    }
  }

  lemma Regrouped(a: seq<Doc>, b: seq<Doc>, c: seq<Doc>)
    ensures a + (b + c) == a + b + c
  {
  }

  function Written(s: Store, doc: Doc, outcome: Outcome): Store {
    Store(if outcome == Lost then s.docs else s.docs + [doc], s.calls + 1)
  }

  /** Writes one after the other, up to the first that raises; one that is not writable raises unsent. */
  function WriteAll(backend: Backend, s: Store, docs: seq<Doc>): (Store, bool)
    decreases |docs|
  {
    if docs == [] then (s, true)
    else if !Writable(docs[0]) then (s, false)
    else
      var outcome := backend(s.calls, docs[0]);
      if outcome != Done then (Written(s, docs[0], outcome), false)
      else WriteAll(backend, Written(s, docs[0], outcome), docs[1..])
  }

  lemma {:induction false} WriteAllOfSum(backend: Backend, s: Store, a: seq<Doc>, b: seq<Doc>)
    ensures var first := WriteAll(backend, s, a);
            WriteAll(backend, s, a + b) == if first.1 then WriteAll(backend, first.0, b) else first
    decreases |a|
  {
    if a == [] {
      assert a + b == b;
    } else {
      assert (a + b)[1..] == a[1..] + b;
      if Writable(a[0]) && backend(s.calls, a[0]) == Done {
        WriteAllOfSum(backend, Written(s, a[0], Done), a[1..], b);
      }
    }
  }

  function Handled(backend: Backend, s: Store, plan: Plan): (Store, bool) {
    var written := WriteAll(backend, s, plan.docs);
    (written.0, written.1 && plan.completes)
  }

  class EsWriter {
    const backend: Backend
    var docs: seq<Doc>
    var calls: nat

    ghost function Now(): Store
      reads this
    {
      Store(docs, calls)
    }

    constructor (backend: Backend)
      ensures this.backend == backend && Now() == Store([], 0)
    {
      this.backend := backend;
      docs := [];
      calls := 0;
    }

    /** `ok` is false where the original raises. */
    method Index(doc: Doc) returns (ok: bool)
      modifies this
      ensures (Now(), ok) == WriteAll(backend, old(Now()), [doc])
    {
      if !Writable(doc) {
        return false;
      }
      var outcome := backend(calls, doc);
      calls := calls + 1;
      if outcome != Lost {
        docs := docs + [doc];
      }
      ok := outcome == Done;
    }

    method WriteSession(doc: seq<Entry>, tag: string) returns (ok: bool)
      modifies this
      ensures (Now(), ok) == WriteAll(backend, old(Now()), [Session(WithTag(doc, tag))])
    {
      ok := Index(Session(WithTag(doc, tag)));
    }

    method WriteObservations(rows: seq<seq<Entry>>, tag: string) returns (ok: bool)
      modifies this
      ensures (Now(), ok) == WriteAll(backend, old(Now()), Rows(tag, rows))
    {
      ghost var all := WriteAll(backend, Now(), Rows(tag, rows));
      ok := true;
      var k := 0;
      while k < |rows|
        invariant 0 <= k <= |rows|
        invariant all == WriteAll(backend, Now(), Rows(tag, rows)[k..])
      {
        assert Rows(tag, rows)[k..][1..] == Rows(tag, rows)[k + 1..];
        ok := Index(Row(WithTag(rows[k], tag)));
        if !ok {
          return;
        }
        k := k + 1;
      }
    }
  }

  /** Ignores other tags; falls back to the stripped record; leaves storage failures to the caller. */
  method HandleRecord(cfg: Config, es: EsWriter, t: Tagged) returns (ok: bool)
    requires t.record.Map?
    modifies es
    ensures (es.Now(), ok) == (if DocsOf(cfg, t).None? then (old(es.Now()), false)
                               else WriteAll(es.backend, old(es.Now()), DocsOf(cfg, t).value))
  {
    if !(ENRICHABLE <= t.tag) {
      return true;
    }
    var record := t.record.entries;
    var session, rows := [], [];
    var enriched := cfg.process(record);
    if enriched.Some? {
      session, rows := enriched.value.session, enriched.value.rows;
    } else {
      var stripped := StripBytes(record);
      if stripped.None? {
        return false;
      }
      session := stripped.value;
    }
    WriteAllOfSum(es.backend, es.Now(), [Session(WithTag(session, t.tag))], Rows(t.tag, rows));
    ok := es.WriteSession(session, t.tag);
    if ok && rows != [] {
      ok := es.WriteObservations(rows, t.tag);
    }
  }

  datatype Reply = NoReply | Pong(tag: Value, time: Value) | Ack(chunk: Value)

  predicate IsPing(msg: Value) {
    msg.List? && msg.items != [] && msg.items[0] == Str("PING")
  }

  /** The answer to a ping repeats its tag and time. */
  function PongOf(ping: seq<Value>): Reply {
    Pong(if |ping| > 1 then ping[1] else Str(""), if |ping| > 2 then ping[2] else Num(0.0))
  }

  /** The chunk a frame asks to have acknowledged. */
  function ChunkOf(frame: Frame): Option<Value> {
    if frame.option.Some? then Get(frame.option.value, "chunk") else None
  }

  function AckOf(frame: Frame): Reply {
    var chunk := ChunkOf(frame);
    if chunk.Some? then Ack(chunk.value) else NoReply
  }

  /** The tag and the time of a ping, or the chunk of a frame, can be packed into the reply. */
  predicate Answerable(codec: Codec, msg: Value) {
    if IsPing(msg) then
      (|msg.items| > 1 ==> Packable(codec, msg.items[1])) && (|msg.items| > 2 ==> Packable(codec, msg.items[2]))
    else
      var frame := Parsed(codec, msg);
      frame.Some? && ChunkOf(frame.value).Some? ==> Packable(codec, ChunkOf(frame.value).value)
  }

  /** What a message leads to: the reply, the store after it, and whether the connection stays open. A reply that
      cannot be packed closes it. */
  function Dispatched(cfg: Config, backend: Backend, s: Store, msg: Value): (Reply, Store, bool) {
    if IsPing(msg) then
      if Answerable(cfg.codec, msg) then (PongOf(msg.items), s, true) else (NoReply, s, false)
    else
      var frame := Parsed(cfg.codec, msg);
      if frame.None? then (NoReply, s, false)
      else
        ParsedMaps(cfg.codec, msg);
        var handled := Handled(backend, s, PlanOf(cfg, frame.value.records));
        if handled.1 && Answerable(cfg.codec, msg) then (AckOf(frame.value), handled.0, true)
        else (NoReply, handled.0, false)
  }

  lemma {:induction false} RecordsAreMaps(codec: Codec, tag: string, entries: seq<Value>)
    ensures AllMaps(RecordsOf(codec, tag, entries))
  {
    if entries != [] {
      RecordsAreMaps(codec, tag, entries[..|entries| - 1]);
    }
  }

  lemma ParsedMaps(codec: Codec, msg: Value)
    ensures Parsed(codec, msg).Some? ==> AllMaps(Parsed(codec, msg).value.records)
  {
    if msg.List? && |msg.items| >= 2 && msg.items[0].Str? {
      var tag, second := msg.items[0].s, msg.items[1];
      if second.List? {
        RecordsAreMaps(codec, tag, second.items);
      } else if second.Bin? || second.Str? {
        var entries := Unpacked(codec, second, OptionAt(msg.items, 2));
        if entries.Some? {
          RecordsAreMaps(codec, tag, entries.value);
        }
      }
    }
  }

  method HandleRecords(cfg: Config, es: EsWriter, records: seq<Tagged>) returns (ok: bool)
    requires AllMaps(records)
    modifies es
    ensures (es.Now(), ok) == Handled(es.backend, old(es.Now()), PlanOf(cfg, records))
  {
    ok := true;
    var k := 0;
    ghost var all := Handled(es.backend, es.Now(), PlanOf(cfg, records));
    while k < |records|
      invariant 0 <= k <= |records|
      invariant all == Handled(es.backend, es.Now(), PlanOf(cfg, records[k..]))
    {
      ghost var rest := records[k..];
      assert rest[1..] == records[k + 1..] && rest[0] == records[k];
      ghost var docs := DocsOf(cfg, records[k]);
      if docs.Some? {
        WriteAllOfSum(es.backend, es.Now(), docs.value, PlanOf(cfg, rest[1..]).docs);
      }
      ok := HandleRecord(cfg, es, records[k]);
      if !ok {
        return;
      }
      k := k + 1;
    }
  }

  /** A ping is answered with its tag and time, which may be missing; what stands behind them is ignored. If one of the
      two cannot be packed the connection is closed. */
  lemma PingMeans(cfg: Config, backend: Backend, s: Store, tag: Value, time: Value, rest: seq<Value>)
    ensures Dispatched(cfg, backend, s, List([Str("PING")])) == (Pong(Str(""), Num(0.0)), s, true)
    ensures Dispatched(cfg, backend, s, List([Str("PING"), tag]))
         == if Packable(cfg.codec, tag) then (Pong(tag, Num(0.0)), s, true) else (NoReply, s, false)
    ensures Dispatched(cfg, backend, s, List([Str("PING"), tag, time] + rest))
         == if Packable(cfg.codec, tag) && Packable(cfg.codec, time) then (Pong(tag, time), s, true) else (NoReply, s, false)
  {
    var ping := [Str("PING"), tag, time] + rest;
    assert ping[0] == Str("PING") && ping[1] == tag && ping[2] == time;
  }

  method PongResponse(codec: Codec, ping: seq<Value>) returns (reply: Reply, ok: bool)
    requires IsPing(List(ping))
    ensures ok == Answerable(codec, List(ping)) && reply == if ok then PongOf(ping) else NoReply
  {
    var tag := if |ping| > 1 then ping[1] else Str("");
    var time := if |ping| > 2 then ping[2] else Num(0.0);
    if (|ping| > 1 && !Packable(codec, tag)) || (|ping| > 2 && !Packable(codec, time)) {
      return NoReply, false;
    }
    return Pong(tag, time), true;
  }

  /** The acknowledgement is sent only after every record was handled. */
  method Dispatch(cfg: Config, es: EsWriter, msg: Value) returns (reply: Reply, open: bool)
    modifies es
    ensures (reply, es.Now(), open) == Dispatched(cfg, es.backend, old(es.Now()), msg)
  {
    if msg.List? && msg.items != [] && msg.items[0] == Str("PING") {
      reply, open := PongResponse(cfg.codec, msg.items);
      return;
    }
    var frame := ParseFrame(cfg.codec, msg);
    if frame.None? {
      return NoReply, false;
    }
    ParsedMaps(cfg.codec, msg);
    reply := NoReply;
    open := HandleRecords(cfg, es, frame.value.records);
    if open && frame.value.option.Some? {
      var chunk := Get(frame.value.option.value, "chunk");
      if chunk.Some? {
        if !Packable(cfg.codec, chunk.value) {
          return NoReply, false;
        }
        reply := Ack(chunk.value);
      }
    }
  }
}
