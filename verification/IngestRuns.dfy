/** Whole runs of the ingest server: any number of connections whose writes interleave, storage failures, and
    frames sent again. */
module IngestRuns {
  import opened Bytes
  import opened Forward
  import opened Ingest

  /** A connection at work on a frame, with what is still to be written. */
  datatype Conn = Working(msg: Value, left: seq<Doc>, completes: bool)

  datatype World = World(docs: seq<Doc>, conns: map<nat, Conn>, received: seq<Value>, acked: seq<Value>)

  datatype Event =
    | Receive(c: nat, msg: Value)
    | Write(c: nat, outcome: Outcome)
    | Finish(c: nat)

  const Initial := World([], map[], [], [])

  /** The records of a message, none when it is a ping or cannot be parsed. */
  function RecordsIn(cfg: Config, msg: Value): (records: seq<Tagged>)
    ensures AllMaps(records)
  {
    ParsedMaps(cfg.codec, msg);
    if IsPing(msg) || Parsed(cfg.codec, msg).None? then [] else Parsed(cfg.codec, msg).value.records
  }

  function PlanFor(cfg: Config, msg: Value): Plan {
    PlanOf(cfg, RecordsIn(cfg, msg))
  }

  /** The frame asks for an acknowledgement, and that can be packed. */
  predicate CanBeAcked(cfg: Config, msg: Value) {
    && !IsPing(msg) && Parsed(cfg.codec, msg).Some? && ChunkOf(Parsed(cfg.codec, msg).value).Some?
    && Answerable(cfg.codec, msg)
  }

  predicate Possible(w: World, e: Event) {
    match e
    case Receive(c, _) => c !in w.conns
    case Write(c, _) => c in w.conns && w.conns[c].left != []
    case Finish(c) => c in w.conns && w.conns[c].left == []
  }

  /** A write that raises closes the connection, and one that is not writable raises unsent; a frame that got to
      its end is acknowledged if it asks for it in a way that can be answered. */
  function Next(cfg: Config, w: World, e: Event): World
    requires Possible(w, e)
  {
    match e
    case Receive(c, msg) =>
      var heard := w.(received := w.received + [msg]);
      if IsPing(msg) || Parsed(cfg.codec, msg).None? then heard
      else heard.(conns := w.conns[c := Working(msg, PlanFor(cfg, msg).docs, PlanFor(cfg, msg).completes)])
    case Write(c, outcome) =>
      var conn := w.conns[c];
      if !Writable(conn.left[0]) then w.(conns := w.conns - {c})
      else World(
            if outcome == Lost then w.docs else w.docs + [conn.left[0]],
            if outcome == Done then w.conns[c := conn.(left := conn.left[1..])] else w.conns - {c},
            w.received, w.acked)
    case Finish(c) =>
      var conn := w.conns[c];
      w.(conns := w.conns - {c},
         acked := if conn.completes && CanBeAcked(cfg, conn.msg) then w.acked + [conn.msg] else w.acked)
  }

  function After(cfg: Config, run: seq<Event>): World
    requires PossibleRun(cfg, run)
    decreases |run|, 1
  {
    if run == [] then Initial else Next(cfg, After(cfg, run[..|run| - 1]), run[|run| - 1])
  }

  predicate PossibleRun(cfg: Config, run: seq<Event>)
    decreases |run|, 0
  {
    run != [] ==> PossibleRun(cfg, run[..|run| - 1]) && Possible(After(cfg, run[..|run| - 1]), run[|run| - 1])
  }

  // ---- What every run keeps --------------------------------------------------

  predicate Has(docs: seq<Doc>, part: seq<Doc>) {
    forall d :: d in part ==> d in docs
  }

  /** What the connection has written so far is stored. */
  predicate ConnSound(cfg: Config, w: World, conn: Conn) {
    var plan := PlanFor(cfg, conn.msg);
    && conn.msg in w.received
    && conn.completes == plan.completes
    && |conn.left| <= |plan.docs|
    && conn.left == plan.docs[|plan.docs| - |conn.left|..]
    && Has(w.docs, plan.docs[..|plan.docs| - |conn.left|])
  }

  predicate AckSound(cfg: Config, w: World, msg: Value) {
    msg in w.received && CanBeAcked(cfg, msg) && PlanFor(cfg, msg).completes && Has(w.docs, PlanFor(cfg, msg).docs)
  }

  predicate Derived(cfg: Config, w: World, d: Doc) {
    exists msg :: msg in w.received && d in PlanFor(cfg, msg).docs
  }

  ghost predicate Sound(cfg: Config, w: World) {
    && (forall c :: c in w.conns ==> ConnSound(cfg, w, w.conns[c]))
    && (forall msg :: msg in w.acked ==> AckSound(cfg, w, msg))
    && (forall d :: d in w.docs ==> Derived(cfg, w, d))
  }

  /** More stored and more received. */
  predicate Grown(w: World, w': World) {
    Has(w'.docs, w.docs) && forall msg :: msg in w.received ==> msg in w'.received
  }

  lemma GrownStaysSound(cfg: Config, w: World, w': World)
    requires Grown(w, w')
    ensures forall conn :: ConnSound(cfg, w, conn) ==> ConnSound(cfg, w', conn)
    ensures forall msg :: AckSound(cfg, w, msg) ==> AckSound(cfg, w', msg)
    ensures forall d :: Derived(cfg, w, d) ==> Derived(cfg, w', d)
  {
  }

  lemma ReceiveIsSound(cfg: Config, w: World, e: Event)
    requires Sound(cfg, w) && e.Receive? && Possible(w, e)
    ensures Sound(cfg, Next(cfg, w, e))
  {
    var w' := Next(cfg, w, e);
    GrownStaysSound(cfg, w, w');
    var plan := PlanFor(cfg, e.msg);
    assert plan.docs[|plan.docs| - |plan.docs|..] == plan.docs && plan.docs[..0] == [];
  }

  lemma WriteAdvances(cfg: Config, w: World, w': World, conn: Conn)
    requires ConnSound(cfg, w, conn) && conn.left != []
    requires w' == w.(docs := w.docs + [conn.left[0]], conns := w'.conns)
    ensures ConnSound(cfg, w', conn.(left := conn.left[1..]))
    ensures Derived(cfg, w', conn.left[0])
  {
    var docs := PlanFor(cfg, conn.msg).docs;
    var k := |docs| - |conn.left|;
    assert conn.left[0] == docs[k] && conn.left[1..] == docs[k + 1..];
    assert docs[..k + 1] == docs[..k] + [docs[k]];
  }

  lemma WriteIsSound(cfg: Config, w: World, e: Event)
    requires Sound(cfg, w) && e.Write? && Possible(w, e)
    ensures Sound(cfg, Next(cfg, w, e))
  {
    var w' := Next(cfg, w, e);
    GrownStaysSound(cfg, w, w');
    assert ConnSound(cfg, w, w.conns[e.c]);
    if Writable(w.conns[e.c].left[0]) && e.outcome != Lost {
      WriteAdvances(cfg, w, w', w.conns[e.c]);
    }
  }

  lemma FinishIsSound(cfg: Config, w: World, e: Event)
    requires Sound(cfg, w) && e.Finish? && Possible(w, e)
    ensures Sound(cfg, Next(cfg, w, e))
  {
    var w' := Next(cfg, w, e);
    GrownStaysSound(cfg, w, w');
    var conn := w.conns[e.c];
    assert ConnSound(cfg, w, conn);
    var docs := PlanFor(cfg, conn.msg).docs;
    assert docs[..|docs|] == docs;
  }

  lemma {:induction false} RunsAreSound(cfg: Config, run: seq<Event>)
    requires PossibleRun(cfg, run)
    ensures Sound(cfg, After(cfg, run))
    decreases |run|
  {
    if run != [] {
      var before, e := run[..|run| - 1], run[|run| - 1];
      RunsAreSound(cfg, before);
      match e
      case Receive(_, _) => ReceiveIsSound(cfg, After(cfg, before), e);
      case Write(_, _) => WriteIsSound(cfg, After(cfg, before), e);
      case Finish(_) => FinishIsSound(cfg, After(cfg, before), e);
    }
  }

  lemma {:induction false} PlanCovers(cfg: Config, records: seq<Tagged>, t: Tagged)
    requires AllMaps(records) && PlanOf(cfg, records).completes && t in records
    ensures DocsOf(cfg, t).Some? && Has(PlanOf(cfg, records).docs, DocsOf(cfg, t).value)
  {
    if t != records[0] {
      assert records == [records[0]] + records[1..];
      PlanCovers(cfg, records[1..], t);
    }
  }

  lemma {:induction false} PlanIsDerived(cfg: Config, records: seq<Tagged>, d: Doc) returns (t: Tagged)
    requires AllMaps(records) && d in PlanOf(cfg, records).docs
    ensures t in records && DocsOf(cfg, t).Some? && d in DocsOf(cfg, t).value
  {
    if d in DocsOf(cfg, records[0]).value {
      t := records[0];
    } else {
      t := PlanIsDerived(cfg, records[1..], d);
    }
  }

  /** In every run, once a frame is acknowledged the session document of each of its enrichable records and
      all the ledger rows that go with it are stored. */
  lemma AckedIsStored(cfg: Config, run: seq<Event>, msg: Value, t: Tagged)
    requires PossibleRun(cfg, run) && msg in After(cfg, run).acked
    requires t in RecordsIn(cfg, msg) && Enrichable(t.tag)
    ensures var e := SessionAndRows(cfg, t.record.entries);
            && e.Some?
            && Session(WithTag(e.value.session, t.tag)) in After(cfg, run).docs
            && forall row :: row in e.value.rows ==> Row(WithTag(row, t.tag)) in After(cfg, run).docs
  {
    RunsAreSound(cfg, run);
    var w := After(cfg, run);
    assert AckSound(cfg, w, msg);
    PlanCovers(cfg, RecordsIn(cfg, msg), t);
    assert Has(w.docs, DocsOf(cfg, t).value);
    DocsInclude(cfg, t, w.docs);
  }

  /** What a record's documents are. */
  lemma DocsInclude(cfg: Config, t: Tagged, stored: seq<Doc>)
    requires t.record.Map? && Enrichable(t.tag) && DocsOf(cfg, t).Some? && Has(stored, DocsOf(cfg, t).value)
    ensures var e := SessionAndRows(cfg, t.record.entries);
            && e.Some?
            && Session(WithTag(e.value.session, t.tag)) in stored
            && forall row :: row in e.value.rows ==> Row(WithTag(row, t.tag)) in stored
  {
    var e, docs := SessionAndRows(cfg, t.record.entries), DocsOf(cfg, t).value;
    assert docs[0] in docs;
    forall row | row in e.value.rows
      ensures Row(WithTag(row, t.tag)) in stored
    {
      var i :| 0 <= i < |e.value.rows| && e.value.rows[i] == row;
      assert docs[1 + i] == Row(WithTag(row, t.tag));
      assert docs[1 + i] in docs;
    }
  }

  /** Everything stored comes from an enrichable record of a received frame. */
  lemma StoredIsDerived(cfg: Config, run: seq<Event>, d: Doc) returns (msg: Value, t: Tagged)
    requires PossibleRun(cfg, run) && d in After(cfg, run).docs
    ensures msg in After(cfg, run).received && t in RecordsIn(cfg, msg) && Enrichable(t.tag)
    ensures DocsOf(cfg, t).Some? && d in DocsOf(cfg, t).value
  {
    RunsAreSound(cfg, run);
    assert Derived(cfg, After(cfg, run), d);
    msg :| msg in After(cfg, run).received && d in PlanFor(cfg, msg).docs;
    t := PlanIsDerived(cfg, RecordsIn(cfg, msg), d);
  }

  /** Sending an acknowledged frame again only adds further copies of what is stored. */
  lemma RetryOnlyDuplicates(cfg: Config, run: seq<Event>, e: Event)
    requires PossibleRun(cfg, run) && e.Write? && Possible(After(cfg, run), e)
    requires After(cfg, run).conns[e.c].msg in After(cfg, run).acked
    ensures forall d :: d in Next(cfg, After(cfg, run), e).docs <==> d in After(cfg, run).docs
  {
    RunsAreSound(cfg, run);
    var w := After(cfg, run);
    var conn := w.conns[e.c];
    assert ConnSound(cfg, w, conn) && AckSound(cfg, w, conn.msg);
    var docs := PlanFor(cfg, conn.msg).docs;
    assert conn.left[0] == docs[|docs| - |conn.left|];
    assert conn.left[0] in docs;
  }

  // ---- One connection left alone ---------------------------------------------

  /** The connection works on, undisturbed, as the backend lets it. */
  function Alone(cfg: Config, w: World, c: nat, backend: Backend, calls: nat): World
    decreases if c in w.conns then 1 + |w.conns[c].left| else 0
  {
    if c !in w.conns then w
    else if w.conns[c].left == [] then Next(cfg, w, Finish(c))
    else Alone(cfg, Next(cfg, w, Write(c, backend(calls, w.conns[c].left[0]))), c, backend, calls + 1)
  }

  lemma {:induction false} AloneWrites(cfg: Config, w: World, c: nat, backend: Backend, calls: nat)
    requires c in w.conns
    ensures var conn, end := w.conns[c], Alone(cfg, w, c, backend, calls);
            var written := WriteAll(backend, Store(w.docs, calls), conn.left);
            && end.docs == written.0.docs
            && end.acked == (if written.1 && conn.completes && CanBeAcked(cfg, conn.msg) then w.acked + [conn.msg] else w.acked)
    decreases |w.conns[c].left|
  {
    if w.conns[c].left != [] && Writable(w.conns[c].left[0]) && backend(calls, w.conns[c].left[0]) == Done {
      AloneWrites(cfg, Next(cfg, w, Write(c, Done)), c, backend, calls + 1);
    }
  }

  /** Undisturbed, a connection stores and acknowledges what `Dispatch` does. */
  lemma AloneIsDispatch(cfg: Config, w: World, c: nat, msg: Value, backend: Backend, calls: nat)
    requires c !in w.conns
    ensures var end := Alone(cfg, Next(cfg, w, Receive(c, msg)), c, backend, calls);
            var (reply, store, open) := Dispatched(cfg, backend, Store(w.docs, calls), msg);
            end.docs == store.docs && end.acked == (if reply.Ack? then w.acked + [msg] else w.acked)
  {
    if !IsPing(msg) && Parsed(cfg.codec, msg).Some? {
      AloneWrites(cfg, Next(cfg, w, Receive(c, msg)), c, backend, calls);
    }
  }

  // ---- Records that can never be handled -------------------------------------

  /** Neither enrichment nor the fallback yields documents that can all be written. */
  predicate Poison(cfg: Config, t: Tagged)
    requires t.record.Map?
  {
    DocsOf(cfg, t).None? || exists d :: d in DocsOf(cfg, t).value && !Writable(d)
  }

  /** A store that answers each document always the same way. */
  function Steady(accepts: Doc -> bool): Backend {
    (n: nat, d: Doc) => if accepts(d) then Done else Lost
  }

  /** All these documents can be written, and the store accepts them. */
  predicate AllAccepted(accepts: Doc -> bool, docs: seq<Doc>) {
    forall d :: d in docs ==> Writable(d) && accepts(d)
  }

  /** A record of which something can be stored, all of it accepted. */
  predicate Storable(cfg: Config, accepts: Doc -> bool, t: Tagged)
    requires t.record.Map?
  {
    DocsOf(cfg, t).Some? && AllAccepted(accepts, DocsOf(cfg, t).value)
  }

  lemma AcceptedSum(accepts: Doc -> bool, a: seq<Doc>, b: seq<Doc>)
    ensures AllAccepted(accepts, a + b) <==> AllAccepted(accepts, a) && AllAccepted(accepts, b)
  {
    assert forall d :: d in a + b <==> d in a || d in b;
  }

  lemma {:induction false} SteadyWritesAll(accepts: Doc -> bool, s: Store, docs: seq<Doc>)
    ensures WriteAll(Steady(accepts), s, docs).1 <==> AllAccepted(accepts, docs)
    decreases |docs|
  {
    if docs != [] {
      SteadyWritesAll(accepts, Written(s, docs[0], Done), docs[1..]);
      AcceptedSum(accepts, [docs[0]], docs[1..]);
      assert docs == [docs[0]] + docs[1..];
    }
  }

  predicate AllStorable(cfg: Config, accepts: Doc -> bool, records: seq<Tagged>)
    requires AllMaps(records)
  {
    forall t :: t in records ==> Storable(cfg, accepts, t)
  }

  lemma {:induction false} PlanStorableExactlyWhen(cfg: Config, accepts: Doc -> bool, records: seq<Tagged>)
    requires AllMaps(records)
    ensures var plan := PlanOf(cfg, records);
            plan.completes && AllAccepted(accepts, plan.docs) <==> AllStorable(cfg, accepts, records)
  {
    if records != [] {
      var first, rest := records[0], records[1..];
      PlanStorableExactlyWhen(cfg, accepts, rest);
      assert AllStorable(cfg, accepts, records) <==> Storable(cfg, accepts, first) && AllStorable(cfg, accepts, rest) by {
        assert forall t :: t in records <==> t == first || t in rest;
      }
      if DocsOf(cfg, first).Some? {
        AcceptedSum(accepts, DocsOf(cfg, first).value, PlanOf(cfg, rest).docs);
      }
    }
  }

  /** A message is handled, by a store that answers each document always the same way, if and only if it parses,
      every document of every record can be written and is accepted, and the reply can be packed; with the store
      up, if and only if it parses, no record is poison and the reply can be packed. */
  lemma HandledExactlyWhen(cfg: Config, accepts: Doc -> bool, s: Store, msg: Value)
    ensures Dispatched(cfg, Steady(accepts), s, msg).2 <==>
            (IsPing(msg) || Parsed(cfg.codec, msg).Some?)
            && AllStorable(cfg, accepts, RecordsIn(cfg, msg)) && Answerable(cfg.codec, msg)
    ensures (forall d :: accepts(d)) ==>
              (Dispatched(cfg, Steady(accepts), s, msg).2 <==>
               && (IsPing(msg) || Parsed(cfg.codec, msg).Some?)
               && (forall t :: t in RecordsIn(cfg, msg) ==> !Poison(cfg, t))
               && Answerable(cfg.codec, msg))
  {
    var records := RecordsIn(cfg, msg);
    PlanStorableExactlyWhen(cfg, accepts, records);
    SteadyWritesAll(accepts, s, PlanOf(cfg, records).docs);
  }

  lemma {:induction false} UnwritableStops(backend: Backend, s: Store, docs: seq<Doc>)
    requires exists d :: d in docs && !Writable(d)
    ensures !WriteAll(backend, s, docs).1
    decreases |docs|
  {
    if Writable(docs[0]) && backend(s.calls, docs[0]) == Done {
      assert forall d :: d in docs <==> d == docs[0] || d in docs[1..];
      UnwritableStops(backend, Written(s, docs[0], Done), docs[1..]);
    }
  }

  /** A frame with a poison record is refused whatever the store does, so its sender retries it for ever. */
  lemma PoisonIsRefused(cfg: Config, backend: Backend, s: Store, msg: Value, t: Tagged)
    requires t in RecordsIn(cfg, msg) && Poison(cfg, t)
    ensures !Dispatched(cfg, backend, s, msg).2 && !Dispatched(cfg, backend, s, msg).0.Ack?
  {
    var plan := PlanFor(cfg, msg);
    if plan.completes {
      PlanCovers(cfg, RecordsIn(cfg, msg), t);
      var d :| d in DocsOf(cfg, t).value && !Writable(d);
      assert d in plan.docs;
      UnwritableStops(backend, s, plan.docs);
    }
  }

  // ---- Replies that cannot be packed -----------------------------------------

  lemma {:induction false} WrittenAreStored(backend: Backend, s: Store, docs: seq<Doc>)
    ensures WriteAll(backend, s, docs).1 ==> WriteAll(backend, s, docs).0.docs == s.docs + docs
    decreases |docs|
  {
    if docs != [] && Writable(docs[0]) && backend(s.calls, docs[0]) == Done {
      WrittenAreStored(backend, Written(s, docs[0], Done), docs[1..]);
    }
  }

  /** A frame whose chunk cannot be packed is refused whatever the store does; where all its records are handled, all
      its documents are stored once more every time its sender retries it. */
  lemma UnpackableChunkIsRefused(cfg: Config, backend: Backend, s: Store, msg: Value)
    requires !Answerable(cfg.codec, msg)
    ensures !Dispatched(cfg, backend, s, msg).2 && Dispatched(cfg, backend, s, msg).0.NoReply?
    ensures !IsPing(msg) && Handled(backend, s, PlanFor(cfg, msg)).1 ==>
              Dispatched(cfg, backend, s, msg).1.docs == s.docs + PlanFor(cfg, msg).docs
  {
    WrittenAreStored(backend, s, PlanFor(cfg, msg).docs);
  }

  /** A chunk that arrives as text of these bytes can be acknowledged exactly if they are UTF-8. */
  lemma ChunkPackableExactlyWhen(cfg: Config, tag: string, entries: seq<Value>, chunk: seq<Byte>)
    requires EscapesTheRest(cfg.codec)
    ensures var msg := List([Str(tag), List(entries), Map([Entry(Text("chunk"), Str(cfg.codec.decode(chunk)))])]);
            tag != "PING" ==> (Answerable(cfg.codec, msg) <==> Utf8(chunk))
  {
    var option := [Entry(Text("chunk"), Str(cfg.codec.decode(chunk)))];
    assert Get(option, "chunk") == Some(Str(cfg.codec.decode(chunk)));
  }

  /** One byte suffices: the frame without records whose chunk is the byte 255 is refused for ever. */
  lemma UnpackableChunkExample(cfg: Config, backend: Backend, s: Store)
    requires EscapesTheRest(cfg.codec)
    ensures var msg := List([Str("t"), List([]), Map([Entry(Text("chunk"), Str(cfg.codec.decode([0xFF])))])]);
            RecordsIn(cfg, msg) == [] && Dispatched(cfg, backend, s, msg) == (NoReply, s, false)
  {
    ChunkPackableExactlyWhen(cfg, "t", [], [0xFF]);
    assert !Utf8([0xFF]);
  }

  // ---- Which records are poison ----------------------------------------------

  /** When enrichment fails, a record is poison exactly when its files are a true value that cannot be looped over,
      or what is left without their contents cannot be dated or serialised. */
  lemma PoisonExactlyWhen(cfg: Config, t: Tagged)
    requires t.record.Map? && Enrichable(t.tag) && cfg.process(t.record.entries).None?
    ensures Poison(cfg, t) <==>
            || (FilesOf(t.record.entries).Some? && NotIterable(FilesOf(t.record.entries).value))
            || (var doc := WithTag(Stripped(t.record.entries).value, t.tag); !Datable(doc) || !Serializable(Map(doc)))
  {
    StripFailsExactlyWhen(t.record.entries);
    if Stripped(t.record.entries).Some? {
      var doc := Session(WithTag(Stripped(t.record.entries).value, t.tag));
      assert Rows(t.tag, []) == [] && DocsOf(cfg, t).value == [doc];
      assert [doc][0] in [doc];
    }
  }

  /** Enrichment fails, and the files of the record are a true value that cannot be looped over. */
  lemma BadFilesArePoison(cfg: Config, t: Tagged)
    requires t.record.Map? && Enrichable(t.tag) && cfg.process(t.record.entries).None?
    requires FilesOf(t.record.entries).Some? && NotIterable(FilesOf(t.record.entries).value)
    ensures Poison(cfg, t)
  {
    StripFailsExactlyWhen(t.record.entries);
  }

  /** The session document, enriched or stripped, cannot be dated or serialised. */
  lemma UnwritableSessionIsPoison(cfg: Config, t: Tagged)
    requires t.record.Map? && Enrichable(t.tag)
    requires var e := SessionAndRows(cfg, t.record.entries);
             e.Some? && !Writable(Session(WithTag(e.value.session, t.tag)))
    ensures Poison(cfg, t)
  {
    var docs := DocsOf(cfg, t).value;
    assert docs[0] in docs;
  }

  lemma GetIsEntry(entries: seq<Entry>, name: string)
    requires Get(entries, name).Some?
    ensures Entry(Text(name), Get(entries, name).value) in entries
  {
  }

  lemma UnserializableEntry(entries: seq<Entry>, name: string)
    requires Get(entries, name).Some? && !Serializable(Get(entries, name).value)
    ensures !Serializable(Map(entries))
  {
    GetIsEntry(entries, name);
    var i :| 0 <= i < |entries| && entries[i] == Entry(Text(name), Get(entries, name).value);
    assert !Serializable(entries[i].value);
  }

  /** What stripping and tagging leave of the other fields. */
  lemma FallbackKeeps(record: seq<Entry>, tag: string, name: string)
    requires Stripped(record).Some? && name != "hp_data" && name != "fluentd_tag"
    ensures Get(WithTag(Stripped(record).value, tag), name) == Get(record, name)
  {
    var doc := Stripped(record).value;
    if FilesOf(record).Some? && FilesOf(record).value.List? {
      StrippedMeans(record);
    }
    PutThenGet(doc, "fluentd_tag", Str(tag));
  }

  /** Enrichment fails, and some field holds a time stamp object, bytes or an extension at any depth. */
  lemma TimeStampIsPoison(cfg: Config, t: Tagged, name: string)
    requires t.record.Map? && Enrichable(t.tag) && cfg.process(t.record.entries).None?
    requires name != "hp_data" && name != "fluentd_tag"
    requires Get(t.record.entries, name).Some? && !Serializable(Get(t.record.entries, name).value)
    ensures Poison(cfg, t)
  {
    var record := t.record.entries;
    if Stripped(record).Some? {
      FallbackKeeps(record, t.tag, name);
      UnserializableEntry(WithTag(Stripped(record).value, t.tag), name);
      UnwritableSessionIsPoison(cfg, t);
    }
  }

  /** Enrichment fails, and the end of the session is a number beyond the year 9999 or before the year 1. */
  lemma FarTimeIsPoison(cfg: Config, t: Tagged, n: real)
    requires t.record.Map? && Enrichable(t.tag) && cfg.process(t.record.entries).None?
    requires Get(t.record.entries, "end_time") == Some(Num(n)) && !(FIRST_SECOND <= n < END_OF_TIME)
    ensures Poison(cfg, t)
  {
    var record := t.record.entries;
    if Stripped(record).Some? {
      FallbackKeeps(record, t.tag, "end_time");
      FarTimeHasNoDate(WithTag(Stripped(record).value, t.tag), n);
      UnwritableSessionIsPoison(cfg, t);
    }
  }

  lemma FarTimeHasNoDate(doc: seq<Entry>, n: real)
    requires Get(doc, "end_time") == Some(Num(n)) && !(FIRST_SECOND <= n < END_OF_TIME)
    ensures !Datable(doc)
  {
    assert TimeOf(doc) == Some(Num(n));
  }

  /** Three such records: files that are a number, a time stamp object, and a time in milliseconds. */
  lemma PoisonExamples(cfg: Config, time: real)
    requires forall record :: cfg.process(record).None?
    ensures Poison(cfg, Tagged(ENRICHABLE, Map([Entry(Text("hp_data"), Map([Entry(Text("files"), Num(5.0))]))])))
    ensures Poison(cfg, Tagged(ENRICHABLE, Map([Entry(Text("end_time"), Stamp(time))])))
    ensures Poison(cfg, Tagged(ENRICHABLE, Map([Entry(Text("end_time"), Num(1700000000000.0))])))
  {
    var files := Entry(Text("files"), Num(5.0));
    var hpData := Entry(Text("hp_data"), Map([files]));
    assert Get([files], "files") == Some(Num(5.0)) && Get([hpData], "hp_data") == Some(Map([files]));
    BadFilesArePoison(cfg, Tagged(ENRICHABLE, Map([hpData])));
    TimeStampIsPoison(cfg, Tagged(ENRICHABLE, Map([Entry(Text("end_time"), Stamp(time))])), "end_time");
    FarTimeIsPoison(cfg, Tagged(ENRICHABLE, Map([Entry(Text("end_time"), Num(1700000000000.0))])), 1700000000000.0);
  }
}
