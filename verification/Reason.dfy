/** The reason job: each pass rolls the append-only evidence ledger up into the
    entity index and lets old entities decay. Times are in milliseconds. */
module Reason {
  import opened Bytes
  import opened Entities
  import opened Search
  import opened Times
  import Intel
  import Vt

  const RETENTION: int := 30 * DAY
  const PAGE_SIZE: nat := 500

  /** One row of the ledger, with the fields the job aggregates. */
  datatype Row = Row(
    ts: int,
    host: string,
    rank: nat,
    sensor: string,
    srcIp: string,
    sha: Option<string>,
    family: Option<string>,
    hassh: Option<string>,
    url: Option<string>,
    resolvedIp: Option<string>)

  /** One bucket of the aggregation by host. */
  datatype Bucket = Bucket(
    host: string,
    firstSeen: int,
    lastSeen: int,
    count: nat,
    sensors: set<string>,
    srcIps: set<string>,
    maxRank: nat,
    families: set<string>,
    shas: set<string>,
    hasshes: set<string>,
    urls: set<string>,
    resolvedIps: set<string>)

  datatype Entity = Entity(
    host: string,
    firstSeen: int,
    lastSeen: int,
    sightingCount: nat,
    sensorCount: nat,
    srcIpCount: nat,
    distinctFiles: nat,
    maxEvidenceRank: nat,
    overlay: Overlay,
    updatedAt: int)

  type Index = map<string, Entity>

  /** The circumstances of a pass. Each host is looked up once in it, so what VirusTotal says about it is a function
      of the host and its files; what intel says is one of what is asked. */
  datatype Setting = Setting(
    now: int,
    knownShas: set<string>,
    toolkitOf: map<string, string>,
    minMalicious: int,
    vt: (string, set<string>) -> Vt.Summary,
    intel: Intel.Query -> Intel.Match)

  function Since(now: int): int {
    Stamp(now - RETENTION)
  }

  /** The retention limit is 30 days ago, to the second. */
  lemma SinceMeans(now: int)
    ensures Since(now) % 1000 == 0 && Since(now) <= now - 2_592_000_000 < Since(now) + 1000
  {
  }

  // ---- The overlay ---------------------------------------------------------

  function RankToStage(rank: nat): Stage {
    if rank >= 2 then Stage2C2 else if rank == 1 then Stage1Serving else Unconfirmed
  }

  function ComputeOverlay(b: Bucket, s: Setting): Overlay {
    var known := exists sha :: sha in b.shas && Intel.Lower(sha) in s.knownShas;
    var toolkits :=
      set h | h in b.hasshes && Intel.Lower(h) in s.toolkitOf && s.toolkitOf[Intel.Lower(h)] != "" :: s.toolkitOf[Intel.Lower(h)];
    Overlay(
      RankToStage(b.maxRank),
      (if b.maxRank >= 2 then {"callback_in_malware"} else {})
      + (if known then {"known_malware"} else {})
      + (if toolkits != {} then {"hassh_toolkit"} else {}),
      (set f | f in b.families && f != ""),
      toolkits, None, {}, {}, {})
  }

  function FullOverlay(b: Bucket, s: Setting): Overlay {
    Intel.Apply(Vt.Apply(ComputeOverlay(b, s), s.vt(b.host, b.shas), s.minMalicious),
                s.intel(Intel.Query(b.host, b.resolvedIps, b.urls, b.shas)))
  }

  /** Evidence alone sets the stage: no VirusTotal, toolkit or intel finding moves it, and each only adds signals. */
  lemma OverlayKeepsStage(b: Bucket, s: Setting)
    ensures FullOverlay(b, s).stage == RankToStage(b.maxRank)
    ensures ComputeOverlay(b, s).signals <= FullOverlay(b, s).signals
    ensures "callback_in_malware" in ComputeOverlay(b, s).signals <==> FullOverlay(b, s).stage.Stage2C2?
  {
  }

  // ---- The aggregation -----------------------------------------------------

  /** The ledger rows of a host that are not older than `since`. */
  function Sightings(ledger: seq<Row>, since: int, host: string): seq<Row> {
    if ledger == [] then []
    else
      var r := ledger[|ledger| - 1];
      Sightings(ledger[..|ledger| - 1], since, host) + if r.host == host && r.ts >= since then [r] else []
  }

  predicate Sighted(ledger: seq<Row>, since: int, r: Row) {
    r in ledger && r.ts >= since
  }

  function Hosts(ledger: seq<Row>, since: int): set<string> {
    set r | r in ledger && r.ts >= since :: r.host
  }

  function FirstTs(rows: seq<Row>): int {
    if rows == [] then 0
    else if |rows| == 1 then rows[0].ts
    else Min(FirstTs(rows[..|rows| - 1]), rows[|rows| - 1].ts)
  }

  function LastTs(rows: seq<Row>): int {
    if rows == [] then 0
    else if |rows| == 1 then rows[0].ts
    else Max(LastTs(rows[..|rows| - 1]), rows[|rows| - 1].ts)
  }

  function TopRank(rows: seq<Row>): nat {
    if rows == [] then 0 else Max(TopRank(rows[..|rows| - 1]), rows[|rows| - 1].rank)
  }

  function Values(os: set<Option<string>>): set<string> {
    set o | o in os && o.Some? :: o.value
  }

  function Rows(rows: seq<Row>): set<Row> {
    set r | r in rows
  }

  function BucketOf(host: string, rows: seq<Row>): Bucket {
    Bucket(
      host, FirstTs(rows), LastTs(rows), |rows|,
      set r | r in rows :: r.sensor,
      set r | r in rows :: r.srcIp,
      TopRank(rows),
      Values(set r | r in rows :: r.family),
      Values(set r | r in rows :: r.sha),
      Values(set r | r in rows :: r.hassh),
      Values(set r | r in rows :: r.url),
      Values(set r | r in rows :: r.resolvedIp))
  }

  function EntityOf(b: Bucket, s: Setting): Entity {
    Entity(b.host, b.firstSeen, b.lastSeen, b.count, |b.sensors|, |b.srcIps|, |b.shas|, b.maxRank,
           FullOverlay(b, s), Stamp(s.now))
  }

  lemma {:induction false} SightingsMean(ledger: seq<Row>, since: int, host: string)
    ensures forall r :: r in Sightings(ledger, since, host) <==> r in ledger && r.host == host && r.ts >= since
  {
    if ledger != [] {
      SightingsMean(ledger[..|ledger| - 1], since, host);
      assert ledger == ledger[..|ledger| - 1] + [ledger[|ledger| - 1]];
    }
  }

  lemma HostHasSightings(ledger: seq<Row>, since: int, host: string)
    ensures host in Hosts(ledger, since) <==> Sightings(ledger, since, host) != []
  {
    SightingsMean(ledger, since, host);
    if Sightings(ledger, since, host) != [] {
      assert Sightings(ledger, since, host)[0] in ledger;
    }
    if host in Hosts(ledger, since) {
      var r :| r in ledger && r.ts >= since && r.host == host;
      assert r in Sightings(ledger, since, host);
    }
  }

  /** The document that a pass writes for a host: its bucket with the overlay. */
  function DocOf(ledger: seq<Row>, s: Setting, host: string): Entity {
    EntityOf(BucketOf(host, Sightings(ledger, Since(s.now), host)), s)
  }

  /** The direct group-by of the ledger at a pass: one entity for each host sighted in the retention window. */
  ghost function GroupBy(ledger: seq<Row>, s: Setting): Index {
    Tabulate(Hosts(ledger, Since(s.now)), DocFor(ledger, s))
  }

  function DocFor(ledger: seq<Row>, s: Setting): string -> Entity {
    host => DocOf(ledger, s, host)
  }

  ghost function Tabulate(hosts: set<string>, docOf: string -> Entity): Index {
    map h | h in hosts :: docOf(h)
  }

  lemma {:induction false} RowsBounded(rows: seq<Row>)
    requires rows != []
    ensures forall r :: r in rows ==> FirstTs(rows) <= r.ts <= LastTs(rows) && r.rank <= TopRank(rows)
  {
    var before, last := rows[..|rows| - 1], rows[|rows| - 1];
    assert rows == before + [last];
    if before != [] {
      RowsBounded(before);
    }
  }

  /** Rows at which the bounds are attained. */
  lemma RowsAttain(rows: seq<Row>) returns (a: Row, b: Row, c: Row)
    requires rows != []
    ensures a in rows && a.ts == FirstTs(rows)
    ensures b in rows && b.ts == LastTs(rows)
    ensures c in rows && c.rank == TopRank(rows)
  {
    a := FirstAttained(rows);
    b := LastAttained(rows);
    c := TopAttained(rows);
  }

  lemma {:induction false} FirstAttained(rows: seq<Row>) returns (r: Row)
    requires rows != []
    ensures r in rows && r.ts == FirstTs(rows)
  {
    r := rows[|rows| - 1];
    if |rows| > 1 && FirstTs(rows) != r.ts {
      r := FirstAttained(rows[..|rows| - 1]);
    }
  }

  lemma {:induction false} LastAttained(rows: seq<Row>) returns (r: Row)
    requires rows != []
    ensures r in rows && r.ts == LastTs(rows)
  {
    r := rows[|rows| - 1];
    if |rows| > 1 && LastTs(rows) != r.ts {
      r := LastAttained(rows[..|rows| - 1]);
    }
  }

  lemma {:induction false} TopAttained(rows: seq<Row>) returns (r: Row)
    requires rows != []
    ensures r in rows && r.rank == TopRank(rows)
  {
    r := rows[|rows| - 1];
    if |rows| > 1 && TopRank(rows) != r.rank {
      r := TopAttained(rows[..|rows| - 1]);
    }
  }

  function Positions(ledger: seq<Row>, since: int, host: string): set<nat> {
    set i | 0 <= i < |ledger| && ledger[i].host == host && ledger[i].ts >= since
  }

  lemma {:induction false} SightingsCount(ledger: seq<Row>, since: int, host: string)
    ensures |Sightings(ledger, since, host)| == |Positions(ledger, since, host)|
  {
    if ledger != [] {
      var n := |ledger| - 1;
      SightingsCount(ledger[..n], since, host);
      var here := if ledger[n].host == host && ledger[n].ts >= since then {n} else {};
      assert Positions(ledger, since, host) == Positions(ledger[..n], since, host) + here;
    }
  }

  /** What an entity of the group-by says, in terms of the ledger alone. */
  ghost predicate Summarises(e: Entity, ledger: seq<Row>, since: int, host: string) {
    && e.host == host
    && (forall r :: r in ledger && r.host == host && r.ts >= since ==>
          e.firstSeen <= r.ts <= e.lastSeen && r.rank <= e.maxEvidenceRank)
    && (exists r :: r in ledger && r.host == host && r.ts == e.firstSeen >= since)
    && (exists r :: r in ledger && r.host == host && r.ts == e.lastSeen >= since)
    && (exists r :: r in ledger && r.host == host && r.ts >= since && r.rank == e.maxEvidenceRank)
    && e.sightingCount == |Positions(ledger, since, host)|
    && e.overlay.stage ==
       (if e.maxEvidenceRank == 0 then Unconfirmed else if e.maxEvidenceRank == 1 then Stage1Serving else Stage2C2)
  }

  /** A retained row of the host. */
  predicate IsSighting(ledger: seq<Row>, since: int, host: string, r: Row) {
    r in ledger && r.host == host && r.ts >= since
  }

  datatype Column = Sensor | SrcIp | Sha | Family | Hassh | Url | ResolvedIp

  function Cell(column: Column, r: Row): Option<string> {
    match column
    case Sensor => Some(r.sensor)
    case SrcIp => Some(r.srcIp)
    case Sha => r.sha
    case Family => r.family
    case Hassh => r.hassh
    case Url => r.url
    case ResolvedIp => r.resolvedIp
  }

  /** The distinct values of a column in the retained rows of a host. */
  ghost predicate Collects(values: set<string>, ledger: seq<Row>, since: int, host: string, column: Column) {
    forall v :: v in values <==> exists r :: IsSighting(ledger, since, host, r) && Cell(column, r) == Some(v)
  }

  ghost predicate CountsDistinct(n: nat, ledger: seq<Row>, since: int, host: string, column: Column) {
    exists values :: Collects(values, ledger, since, host, column) && |values| == n
  }

  /** What else an entity counts: the distinct sensors, source addresses and files. */
  ghost predicate Counts(e: Entity, ledger: seq<Row>, since: int, host: string) {
    && CountsDistinct(e.sensorCount, ledger, since, host, Sensor)
    && CountsDistinct(e.srcIpCount, ledger, since, host, SrcIp)
    && CountsDistinct(e.distinctFiles, ledger, since, host, Sha)
  }

  ghost predicate KnownMalware(ledger: seq<Row>, s: Setting, host: string) {
    exists r :: IsSighting(ledger, Since(s.now), host, r) && r.sha.Some? && Intel.Lower(r.sha.value) in s.knownShas
  }

  /** Some retained row of the host carries the key of this toolkit. */
  ghost predicate UsesToolkit(ledger: seq<Row>, s: Setting, host: string, toolkit: string) {
    && toolkit != ""
    && exists r :: IsSighting(ledger, Since(s.now), host, r) && r.hassh.Some?
                   && Intel.Lower(r.hassh.value) in s.toolkitOf && s.toolkitOf[Intel.Lower(r.hassh.value)] == toolkit
  }

  /** What an overlay says, given what VirusTotal and intel say: `m` about the host, its files, URLs and addresses. */
  ghost predicate Explains(o: Overlay, ledger: seq<Row>, s: Setting, host: string, vt: Vt.Summary, m: Intel.Match) {
    && (forall f :: f in o.families <==>
          f != "" && exists r :: IsSighting(ledger, Since(s.now), host, r) && r.family == Some(f))
    && (forall t :: t in o.toolkits <==> UsesToolkit(ledger, s, host, t))
    && (forall x :: x in o.signals <==>
          || (x == "callback_in_malware" && exists r :: IsSighting(ledger, Since(s.now), host, r) && r.rank >= 2)
          || (x == "known_malware" && KnownMalware(ledger, s, host))
          || (x == "hassh_toolkit" && exists t :: UsesToolkit(ledger, s, host, t))
          || (x == "virustotal" && vt.Summary? && vt.maxMalicious >= s.minMalicious)
          || x in m.sources)
    && o.maxVtRatio == (if vt.Summary? then Some(vt.maxRatio) else None)
    && o.vtFamilies == (if vt.Summary? then vt.families else {})
    && o.intelSources == m.sources
    && o.intelMalware == (if m.sources == {} then {} else m.malware)
  }

  /** The overlay is explained by what VirusTotal says about the host's files, and intel about all that was seen. */
  ghost predicate OverlayMeans(o: Overlay, ledger: seq<Row>, s: Setting, host: string) {
    exists shas, urls, ips ::
      && Collects(shas, ledger, Since(s.now), host, Sha)
      && Collects(urls, ledger, Since(s.now), host, Url)
      && Collects(ips, ledger, Since(s.now), host, ResolvedIp)
      && Explains(o, ledger, s, host, s.vt(host, shas), s.intel(Intel.Query(host, ips, urls, shas)))
  }

  lemma BucketSummarises(ledger: seq<Row>, since: int, host: string, rows: seq<Row>, e: Entity)
    requires rows == Sightings(ledger, since, host) != []
    requires e.host == host && e.firstSeen == FirstTs(rows) && e.lastSeen == LastTs(rows)
    requires e.maxEvidenceRank == TopRank(rows) && e.sightingCount == |rows|
    requires e.overlay.stage == RankToStage(e.maxEvidenceRank)
    ensures Summarises(e, ledger, since, host)
  {
    SightingsMean(ledger, since, host);
    SightingsCount(ledger, since, host);
    RowsBounded(rows);
    var a, b, c := RowsAttain(rows);
    assert a in ledger && b in ledger && c in ledger;
  }

  lemma ValuesCollect(ledger: seq<Row>, since: int, host: string, column: Column)
    ensures Collects(Values(set r | r in Sightings(ledger, since, host) :: Cell(column, r)), ledger, since, host, column)
  {
    SightingsMean(ledger, since, host);
    var all := set r | r in Sightings(ledger, since, host) :: Cell(column, r);
    forall v
      ensures v in Values(all) <==> exists r :: IsSighting(ledger, since, host, r) && Cell(column, r) == Some(v)
    {
      if v in Values(all) {
        var r :| r in Sightings(ledger, since, host) && Cell(column, r) == Some(v);
        assert IsSighting(ledger, since, host, r);
      }
      if r :| IsSighting(ledger, since, host, r) && Cell(column, r) == Some(v) {
        assert r in Sightings(ledger, since, host) && Cell(column, r) in all;
      }
    }
  }

  lemma SetsAgree(rows: seq<Row>, values: set<string>, column: Column)
    requires forall v :: v in values <==> exists r :: r in rows && Cell(column, r) == Some(v)
    ensures values == Values(set r | r in rows :: Cell(column, r))
  {
    var all := set r | r in rows :: Cell(column, r);
    forall v
      ensures v in values <==> v in Values(all)
    {
      if v in values {
        var r :| r in rows && Cell(column, r) == Some(v);
        assert Cell(column, r) in all;
      }
    }
  }

  lemma CountsMean(ledger: seq<Row>, s: Setting, host: string)
    ensures Counts(DocOf(ledger, s, host), ledger, Since(s.now), host)
  {
    var rows, since := Sightings(ledger, Since(s.now), host), Since(s.now);
    var b := BucketOf(host, rows);
    SightingsMean(ledger, since, host);
    ValuesCollect(ledger, since, host, Sensor);
    ValuesCollect(ledger, since, host, SrcIp);
    assert b.sensors == Values(set r | r in rows :: Cell(Sensor, r)) by {
      SetsAgree(rows, b.sensors, Sensor);
    }
    assert b.srcIps == Values(set r | r in rows :: Cell(SrcIp, r)) by {
      SetsAgree(rows, b.srcIps, SrcIp);
    }
    ValuesCollect(ledger, since, host, Sha);
    assert Collects(b.shas, ledger, since, host, Sha);
  }

  /** The top rank of a host in terms of its retained rows. */
  lemma RankMeans(ledger: seq<Row>, since: int, host: string)
    requires Sightings(ledger, since, host) != []
    ensures TopRank(Sightings(ledger, since, host)) >= 2 <==> exists r :: IsSighting(ledger, since, host, r) && r.rank >= 2
  {
    var rows := Sightings(ledger, since, host);
    SightingsMean(ledger, since, host);
    RowsBounded(rows);
    var top := TopAttained(rows);
    assert IsSighting(ledger, since, host, top);
    if r :| IsSighting(ledger, since, host, r) && r.rank >= 2 {
      assert r in rows;
    }
  }

  lemma KnownMeans(ledger: seq<Row>, s: Setting, host: string, shas: set<string>)
    requires Collects(shas, ledger, Since(s.now), host, Sha)
    ensures (exists sha :: sha in shas && Intel.Lower(sha) in s.knownShas) <==> KnownMalware(ledger, s, host)
  {
    if sha :| sha in shas && Intel.Lower(sha) in s.knownShas {
      var r :| IsSighting(ledger, Since(s.now), host, r) && r.sha == Some(sha);
    }
    if r :| IsSighting(ledger, Since(s.now), host, r) && r.sha.Some? && Intel.Lower(r.sha.value) in s.knownShas {
      assert r.sha.value in shas;
    }
  }

  lemma ToolkitsMean(ledger: seq<Row>, s: Setting, host: string, hasshes: set<string>, t: string)
    requires Collects(hasshes, ledger, Since(s.now), host, Hassh)
    ensures (exists h :: h in hasshes && Intel.Lower(h) in s.toolkitOf && s.toolkitOf[Intel.Lower(h)] == t != "")
            <==> UsesToolkit(ledger, s, host, t)
  {
    if h :| h in hasshes && Intel.Lower(h) in s.toolkitOf && s.toolkitOf[Intel.Lower(h)] == t != "" {
      var r :| IsSighting(ledger, Since(s.now), host, r) && r.hassh == Some(h);
    }
    if UsesToolkit(ledger, s, host, t) {
      var r :| IsSighting(ledger, Since(s.now), host, r) && r.hassh.Some?
               && Intel.Lower(r.hassh.value) in s.toolkitOf && s.toolkitOf[Intel.Lower(r.hassh.value)] == t;
      assert r.hassh.value in hasshes;
    }
  }

  /** The overlay in terms of the bucket's values. */
  ghost predicate Follows(o: Overlay, b: Bucket, s: Setting, vt: Vt.Summary, m: Intel.Match) {
    && (forall f :: f in o.families <==> f != "" && f in b.families)
    && (forall t :: t in o.toolkits <==>
          exists h :: h in b.hasshes && Intel.Lower(h) in s.toolkitOf && s.toolkitOf[Intel.Lower(h)] == t != "")
    && (forall x :: x in o.signals <==>
          || (x == "callback_in_malware" && b.maxRank >= 2)
          || (x == "known_malware" && exists sha :: sha in b.shas && Intel.Lower(sha) in s.knownShas)
          || (x == "hassh_toolkit" && o.toolkits != {})
          || (x == "virustotal" && vt.Summary? && vt.maxMalicious >= s.minMalicious)
          || x in m.sources)
    && o.maxVtRatio == (if vt.Summary? then Some(vt.maxRatio) else None)
    && o.vtFamilies == (if vt.Summary? then vt.families else {})
    && o.intelSources == m.sources
    && o.intelMalware == (if m.sources == {} then {} else m.malware)
  }

  lemma OverlayFollows(b: Bucket, s: Setting)
    ensures Follows(FullOverlay(b, s), b, s, s.vt(b.host, b.shas), s.intel(Intel.Query(b.host, b.resolvedIps, b.urls, b.shas)))
  {
  }

  lemma FollowsExplains(o: Overlay, ledger: seq<Row>, s: Setting, b: Bucket, vt: Vt.Summary, m: Intel.Match)
    requires Follows(o, b, s, vt, m) && Sightings(ledger, Since(s.now), b.host) != []
    requires b.maxRank == TopRank(Sightings(ledger, Since(s.now), b.host))
    requires Collects(b.families, ledger, Since(s.now), b.host, Family)
    requires Collects(b.hasshes, ledger, Since(s.now), b.host, Hassh)
    requires Collects(b.shas, ledger, Since(s.now), b.host, Sha)
    ensures Explains(o, ledger, s, b.host, vt, m)
  {
    RankMeans(ledger, Since(s.now), b.host);
    KnownMeans(ledger, s, b.host, b.shas);
    forall t
      ensures t in o.toolkits <==> UsesToolkit(ledger, s, b.host, t)
    {
      ToolkitsMean(ledger, s, b.host, b.hasshes, t);
    }
    assert o.toolkits != {} <==> exists t :: UsesToolkit(ledger, s, b.host, t) by {
      assert o.toolkits != {} <==> exists t :: t in o.toolkits;
    }
    forall f
      ensures f in o.families <==> f != "" && exists r :: IsSighting(ledger, Since(s.now), b.host, r) && r.family == Some(f)
    {
      assert f in b.families <==> exists r :: IsSighting(ledger, Since(s.now), b.host, r) && r.family == Some(f);
    }
  }

  /** The sets of a bucket in terms of the retained rows of its host. */
  ghost predicate BucketCollects(b: Bucket, ledger: seq<Row>, since: int) {
    && Collects(b.families, ledger, since, b.host, Family)
    && Collects(b.hasshes, ledger, since, b.host, Hassh)
    && Collects(b.shas, ledger, since, b.host, Sha)
    && Collects(b.urls, ledger, since, b.host, Url)
    && Collects(b.resolvedIps, ledger, since, b.host, ResolvedIp)
  }

  lemma BucketMeans(ledger: seq<Row>, since: int, host: string)
    ensures BucketCollects(BucketOf(host, Sightings(ledger, since, host)), ledger, since)
  {
    var rows := Sightings(ledger, since, host);
    var b := BucketOf(host, rows);
    ValuesCollect(ledger, since, host, Family);
    assert b.families == Values(set r | r in rows :: Cell(Family, r));
    ValuesCollect(ledger, since, host, Hassh);
    assert b.hasshes == Values(set r | r in rows :: Cell(Hassh, r));
    ValuesCollect(ledger, since, host, Sha);
    assert b.shas == Values(set r | r in rows :: Cell(Sha, r));
    ValuesCollect(ledger, since, host, Url);
    assert b.urls == Values(set r | r in rows :: Cell(Url, r));
    ValuesCollect(ledger, since, host, ResolvedIp);
    assert b.resolvedIps == Values(set r | r in rows :: Cell(ResolvedIp, r));
  }

  lemma OverlayExplained(ledger: seq<Row>, s: Setting, host: string)
    requires host in Hosts(ledger, Since(s.now))
    ensures OverlayMeans(DocOf(ledger, s, host).overlay, ledger, s, host)
  {
    var b := BucketOf(host, Sightings(ledger, Since(s.now), host));
    HostHasSightings(ledger, Since(s.now), host);
    BucketMeans(ledger, Since(s.now), host);
    BucketExplains(ledger, s, b);
  }

  lemma BucketExplains(ledger: seq<Row>, s: Setting, b: Bucket)
    requires BucketCollects(b, ledger, Since(s.now)) && Sightings(ledger, Since(s.now), b.host) != []
    requires b.maxRank == TopRank(Sightings(ledger, Since(s.now), b.host))
    ensures OverlayMeans(FullOverlay(b, s), ledger, s, b.host)
  {
    OverlayFollows(b, s);
    FollowsExplains(FullOverlay(b, s), ledger, s, b, s.vt(b.host, b.shas), s.intel(Intel.Query(b.host, b.resolvedIps, b.urls, b.shas)));
  }

  lemma EntitySummarises(ledger: seq<Row>, s: Setting, host: string)
    requires host in Hosts(ledger, Since(s.now))
    ensures Summarises(GroupBy(ledger, s)[host], ledger, Since(s.now), host)
  {
    var rows := Sightings(ledger, Since(s.now), host);
    HostHasSightings(ledger, Since(s.now), host);
    OverlayKeepsStage(BucketOf(host, rows), s);
    BucketSummarises(ledger, Since(s.now), host, rows, EntityOf(BucketOf(host, rows), s));
  }

  /** Every field of an entity of the group-by, in terms of the retained ledger rows of its host and of what VirusTotal
      and intel say about what these hold. */
  lemma EntityMeans(ledger: seq<Row>, s: Setting, host: string)
    requires host in Hosts(ledger, Since(s.now))
    ensures var e := GroupBy(ledger, s)[host];
            && Summarises(e, ledger, Since(s.now), host)
            && Counts(e, ledger, Since(s.now), host)
            && OverlayMeans(e.overlay, ledger, s, host)
            && e.updatedAt == Stamp(s.now)
  {
    EntitySummarises(ledger, s, host);
    CountsMean(ledger, s, host);
    OverlayExplained(ledger, s, host);
  }

  // ---- A pass --------------------------------------------------------------

  /** `delete_by_query` on `last_seen < since`. */
  function Decayed(index: Index, since: int): Index {
    map h | h in index && index[h].lastSeen >= since :: index[h]
  }

  ghost function AfterPass(index: Index, ledger: seq<Row>, s: Setting): Index {
    Decayed(index + GroupBy(ledger, s), Since(s.now))
  }

  ghost function HostKeys(hosts: set<string>): set<Key> {
    set h | h in hosts :: [h]
  }

  /** Every entity's last sighting is a row of the ledger. */
  ghost predicate RowBacked(index: Index, ledger: seq<Row>) {
    forall h :: h in index ==> exists r :: r in ledger && r.host == h && r.ts == index[h].lastSeen
  }

  lemma GroupByBacked(ledger: seq<Row>, s: Setting)
    ensures RowBacked(GroupBy(ledger, s), ledger)
    ensures forall h :: h in GroupBy(ledger, s) ==> GroupBy(ledger, s)[h].lastSeen >= Since(s.now)
  {
    forall h | h in GroupBy(ledger, s)
      ensures GroupBy(ledger, s)[h].lastSeen >= Since(s.now)
      ensures exists r :: r in ledger && r.host == h && r.ts == GroupBy(ledger, s)[h].lastSeen
    {
      EntitySummarises(ledger, s, h);
    }
  }

  /** On an index that only holds row-backed entities a pass leaves exactly the group-by. */
  lemma PassIsGroupBy(index: Index, ledger: seq<Row>, s: Setting)
    requires RowBacked(index, ledger)
    ensures AfterPass(index, ledger, s) == GroupBy(ledger, s)
  {
    GroupByBacked(ledger, s);
    forall h | h in index ensures h in GroupBy(ledger, s) || index[h].lastSeen < Since(s.now) {
      var r :| r in ledger && r.host == h && r.ts == index[h].lastSeen;
      assert r.ts >= Since(s.now) ==> h in Hosts(ledger, Since(s.now));
    }
  }

  function HostOf(k: Key): string {
    if k == [] then "" else k[0]
  }

  /** `index` after upserting the documents of the hosts under `keys`. */
  ghost function Upserted(index: Index, docOf: string -> Entity, keys: seq<Key>): Index
  {
    if keys == [] then index
    else
      var h := HostOf(keys[|keys| - 1]);
      Upserted(index, docOf, keys[..|keys| - 1])[h := docOf(h)]
  }

  lemma {:induction false} UpsertedAt(index: Index, docOf: string -> Entity, keys: seq<Key>, h: string)
    requires forall i :: 0 <= i < |keys| ==> |keys[i]| == 1
    ensures var after := Upserted(index, docOf, keys);
            if [h] in keys then h in after && after[h] == docOf(h)
            else (h in after <==> h in index) && (h in index ==> after[h] == index[h])
  {
    if keys != [] {
      UpsertedAt(index, docOf, keys[..|keys| - 1], h);
      assert keys == keys[..|keys| - 1] + [keys[|keys| - 1]];
      assert keys[|keys| - 1] == [keys[|keys| - 1][0]];
    }
  }

  /** The aggregation keys of the retained hosts, in order. */
  ghost function OrderedHosts(hosts: set<string>): seq<Key> {
    InOrder(HostKeys(hosts))
  }

  lemma OrderedHostsSound(hosts: set<string>)
    ensures forall k :: k in OrderedHosts(hosts) <==> |k| == 1 && k[0] in hosts
    ensures |OrderedHosts(hosts)| == |hosts|
  {
    var keys, all := HostKeys(hosts), OrderedHosts(hosts);
    InOrderSound(keys);
    forall k ensures k in all <==> |k| == 1 && k[0] in hosts {
      assert k in Elements(all) <==> k in keys;
      assert |k| == 1 ==> k == [k[0]];
    }
    HostKeysCount(hosts);
  }

  /** Upserting every retained host once is adding the group-by. */
  lemma UpsertedHosts(index: Index, docOf: string -> Entity, hosts: set<string>)
    ensures Upserted(index, docOf, OrderedHosts(hosts)) == index + Tabulate(hosts, docOf)
  {
    var after, sum := Upserted(index, docOf, OrderedHosts(hosts)), index + Tabulate(hosts, docOf);
    OrderedHostsSound(hosts);
    assert forall i :: 0 <= i < |OrderedHosts(hosts)| ==> OrderedHosts(hosts)[i] in OrderedHosts(hosts);
    forall h: string ensures (h in after <==> h in sum) && (h in after ==> after[h] == sum[h]) {
      UpsertedAt(index, docOf, OrderedHosts(hosts), h);
      assert [h][0] == h;
    }
  }

  lemma {:induction false} HostKeysCount(hosts: set<string>)
    ensures |HostKeys(hosts)| == |hosts|
    decreases |hosts|
  {
    if hosts != {} {
      var h :| h in hosts;
      HostKeysCount(hosts - {h});
      assert HostKeys(hosts) == HostKeys(hosts - {h}) + {[h]};
      assert [h] !in HostKeys(hosts - {h}) by {
        forall g | g in hosts - {h} ensures [g] != [h] {
          assert [g][0] != [h][0];
        }
      }
    }
  }

  // ---- Page after page -------------------------------------------------------

  /** The ledger as the next page reads it, and at the end of the pass. */
  function Grown(ledger: seq<Row>, arrivals: seq<seq<Row>>): seq<Row> {
    if arrivals == [] then ledger else ledger + arrivals[0]
  }

  function Later(arrivals: seq<seq<Row>>): seq<seq<Row>> {
    if arrivals == [] then [] else arrivals[1..]
  }

  function Final(ledger: seq<Row>, arrivals: seq<seq<Row>>): (final: seq<Row>)
    ensures forall r :: r in ledger ==> r in final
    decreases |arrivals|
  {
    if arrivals == [] then ledger else Final(ledger + arrivals[0], arrivals[1..])
  }

  lemma FinalStays(ledger: seq<Row>, arrivals: seq<seq<Row>>)
    ensures Final(Grown(ledger, arrivals), Later(arrivals)) == Final(ledger, arrivals)
  {
  }

  /** The ledger as page `k` reads it. */
  function LedgerAt(ledger: seq<Row>, arrivals: seq<seq<Row>>, k: nat): seq<Row>
    decreases k
  {
    if k == 0 then ledger else LedgerAt(Grown(ledger, arrivals), Later(arrivals), k - 1)
  }

  /** The keys of the hosts that come after `after`, and the first page of them. */
  ghost function KeysBeyond(ledger: seq<Row>, s: Setting, after: Option<Key>): set<Key> {
    After(HostKeys(Hosts(ledger, Since(s.now))), after)
  }

  ghost function PageAt(ledger: seq<Row>, s: Setting, after: Option<Key>): seq<Key> {
    Take(InOrder(KeysBeyond(ledger, s, after)), PAGE_SIZE)
  }

  /** What a page holds, and what lies behind it. */
  lemma PageMeans(ledger: seq<Row>, s: Setting, after: Option<Key>)
    ensures var page, keys := PageAt(ledger, s, after), KeysBeyond(ledger, s, after);
            && (page == [] ==> keys == {})
            && (forall k :: k in page ==> k in keys && |k| == 1)
            && (page != [] ==>
                  var last := page[|page| - 1];
                  && last in keys && !KeyLess(last, last)
                  && (forall k :: k in page ==> !KeyLess(last, k))
                  && (forall k :: k in keys && k !in page ==> KeyLess(last, k)))
  {
    var keys := KeysBeyond(ledger, s, after);
    var all, page := InOrder(keys), PageAt(ledger, s, after);
    InOrderSound(keys);
    assert forall k :: k in page ==> k in Elements(all);
    if page != [] {
      PageEnds(all, page, keys);
    }
  }

  lemma PageEnds(all: seq<Key>, page: seq<Key>, keys: set<Key>)
    requires page != [] && page <= all && Ascending(all) && Elements(all) == keys
    requires page == all || |page| == PAGE_SIZE
    ensures var last := page[|page| - 1];
            && last in keys && !KeyLess(last, last)
            && (forall k :: k in page ==> !KeyLess(last, k))
            && (forall k :: k in keys && k !in page ==> KeyLess(last, k))
  {
    var n := |page| - 1;
    var last := page[n];
    KeyOrder(last, last);
    assert last == all[n] && all[n] in Elements(all);
    forall k | k in page
      ensures !KeyLess(last, k)
    {
      var i :| 0 <= i < |page| && page[i] == k;
      assert all[i] == k;
      KeyOrder(last, k);
    }
    forall k | k in keys && k !in page
      ensures KeyLess(last, k)
    {
      var i :| 0 <= i < |all| && all[i] == k;
      assert i > n;
    }
  }

  /** The pages of a pass end: each leaves fewer keys of the final ledger behind it. */
  lemma PageAdvances(ledger: seq<Row>, arrivals: seq<seq<Row>>, s: Setting, after: Option<Key>)
    requires PageAt(ledger, s, after) != []
    ensures var page, final := PageAt(ledger, s, after), Final(Grown(ledger, arrivals), Later(arrivals));
            |KeysBeyond(final, s, Some(page[|page| - 1]))| < |KeysBeyond(Final(ledger, arrivals), s, after)|
  {
    var page, final := PageAt(ledger, s, after), Final(ledger, arrivals);
    FinalStays(ledger, arrivals);
    var last := page[|page| - 1];
    var a, b := KeysBeyond(final, s, Some(last)), KeysBeyond(final, s, after);
    PageMeans(ledger, s, after);
    assert last in b && last !in a;
    forall k | k in a
      ensures k in b
    {
      if after.Some? {
        KeyTransitive(after.value, last, k);
      }
    }
    Smaller(a, b, last);
  }

  lemma Smaller(a: set<Key>, b: set<Key>, k: Key)
    requires a <= b && k in b && k !in a
    ensures |a| < |b|
  {
    assert a <= b - {k} && |b - {k}| == |b| - 1;
    assert |(b - {k}) - a| == |b - {k}| - |a|;
  }

  /** The index after the pages that follow `after`. */
  ghost function Paged(index: Index, ledger: seq<Row>, arrivals: seq<seq<Row>>, s: Setting, after: Option<Key>): Index
    decreases |KeysBeyond(Final(ledger, arrivals), s, after)|
  {
    var page := PageAt(ledger, s, after);
    if page == [] then index
    else
      PageAdvances(ledger, arrivals, s, after);
      var last := Some(page[|page| - 1]);
      assert |KeysBeyond(Final(Grown(ledger, arrivals), Later(arrivals)), s, last)| < |KeysBeyond(Final(ledger, arrivals), s, after)|;
      Paged(Upserted(index, DocFor(ledger, s), page), Grown(ledger, arrivals), Later(arrivals), s, last)
  }

  /** The keys that these pages upsert, in order. */
  ghost function Reached(ledger: seq<Row>, arrivals: seq<seq<Row>>, s: Setting, after: Option<Key>): seq<Key>
    decreases |KeysBeyond(Final(ledger, arrivals), s, after)|
  {
    var page := PageAt(ledger, s, after);
    if page == [] then []
    else
      PageAdvances(ledger, arrivals, s, after);
      var last := Some(page[|page| - 1]);
      assert |KeysBeyond(Final(Grown(ledger, arrivals), Later(arrivals)), s, last)| < |KeysBeyond(Final(ledger, arrivals), s, after)|;
      page + Reached(Grown(ledger, arrivals), Later(arrivals), s, last)
  }

  ghost function Passed(index: Index, ledger: seq<Row>, arrivals: seq<seq<Row>>, s: Setting): Index {
    Decayed(Paged(index, ledger, arrivals, s, None), Since(s.now))
  }

  predicate SameEntity(a: Index, b: Index, h: string) {
    if h in a then h in b && a[h] == b[h] else h !in b
  }

  /** The entity is the group-by of the ledger as one of the pages read it. */
  ghost predicate ReadByPage(index: Index, ledger: seq<Row>, arrivals: seq<seq<Row>>, s: Setting, h: string) {
    h in index && exists k: nat :: IsRead(index[h], LedgerAt(ledger, arrivals, k), s, h)
  }

  ghost predicate IsRead(e: Entity, ledger: seq<Row>, s: Setting, h: string) {
    h in Hosts(ledger, Since(s.now)) && e == GroupBy(ledger, s)[h]
  }

  predicate IsBeyond(h: string, after: Option<Key>) {
    after.None? || KeyLess(after.value, [h])
  }

  /** What the pages beyond `after` do to one host. */
  ghost predicate PagesHandle(index: Index, r: Index, ledger: seq<Row>, arrivals: seq<seq<Row>>, s: Setting, after: Option<Key>, h: string) {
    if !IsBeyond(h, after) then SameEntity(index, r, h)
    else
      || ReadByPage(r, ledger, arrivals, s, h)
      || (h !in Hosts(ledger, Since(s.now)) && SameEntity(index, r, h))
  }

  lemma ReadLaterIsRead(r: Index, ledger: seq<Row>, arrivals: seq<seq<Row>>, s: Setting, h: string)
    requires ReadByPage(r, Grown(ledger, arrivals), Later(arrivals), s, h)
    ensures ReadByPage(r, ledger, arrivals, s, h)
  {
    var k: nat :| IsRead(r[h], LedgerAt(Grown(ledger, arrivals), Later(arrivals), k), s, h);
    assert LedgerAt(ledger, arrivals, k + 1) == LedgerAt(Grown(ledger, arrivals), Later(arrivals), k);
  }

  lemma {:induction false} PagedMeans(index: Index, ledger: seq<Row>, arrivals: seq<seq<Row>>, s: Setting, after: Option<Key>, h: string)
    ensures PagesHandle(index, Paged(index, ledger, arrivals, s, after), ledger, arrivals, s, after, h)
    decreases |KeysBeyond(Final(ledger, arrivals), s, after)|
  {
    var page := PageAt(ledger, s, after);
    PageMeans(ledger, s, after);
    InKeys(ledger, s, after, h);
    if page != [] {
      var next, last := Upserted(index, DocFor(ledger, s), page), Some(page[|page| - 1]);
      PageAdvances(ledger, arrivals, s, after);
      PagedMeans(next, Grown(ledger, arrivals), Later(arrivals), s, last, h);
      OnePageHandles(index, Paged(index, ledger, arrivals, s, after), ledger, arrivals, s, after, page, h);
    }
  }

  lemma InKeys(ledger: seq<Row>, s: Setting, after: Option<Key>, h: string)
    ensures [h] in KeysBeyond(ledger, s, after) <==> h in Hosts(ledger, Since(s.now)) && IsBeyond(h, after)
  {
    if [h] in KeysBeyond(ledger, s, after) {
      var g :| g in Hosts(ledger, Since(s.now)) && [g] == [h];
      assert [g][0] == [h][0];
    }
  }

  lemma OnePageHandles(index: Index, r: Index, ledger: seq<Row>, arrivals: seq<seq<Row>>, s: Setting, after: Option<Key>, page: seq<Key>, h: string)
    requires page == PageAt(ledger, s, after) != []
    requires PagesHandle(Upserted(index, DocFor(ledger, s), page), r, Grown(ledger, arrivals), Later(arrivals), s, Some(page[|page| - 1]), h)
    ensures PagesHandle(index, r, ledger, arrivals, s, after, h)
  {
    var next, last := Upserted(index, DocFor(ledger, s), page), page[|page| - 1];
    PageMeans(ledger, s, after);
    InKeys(ledger, s, after, h);
    UpsertedAt(index, DocFor(ledger, s), page, h);
    if [h] in page {
      assert LedgerAt(ledger, arrivals, 0) == ledger;
      assert IsRead(r[h], LedgerAt(ledger, arrivals, 0), s, h);
    } else if KeyLess(last, [h]) {
      if after.Some? {
        KeyTransitive(after.value, last, [h]);
      }
      if ReadByPage(r, Grown(ledger, arrivals), Later(arrivals), s, h) {
        ReadLaterIsRead(r, ledger, arrivals, s, h);
      }
    }
  }

  lemma {:induction false} LedgerAtIsPart(ledger: seq<Row>, arrivals: seq<seq<Row>>, k: nat)
    ensures forall r :: r in LedgerAt(ledger, arrivals, k) ==> r in Final(ledger, arrivals)
    decreases k
  {
    FinalStays(ledger, arrivals);
    if k > 0 {
      LedgerAtIsPart(Grown(ledger, arrivals), Later(arrivals), k - 1);
    }
  }

  /** The hosts retained at the start of a pass stay, and no others than those retained at its end; each entity is
      the group-by of the ledger as one of the pages read it. */
  lemma PassedMeans(index: Index, ledger: seq<Row>, arrivals: seq<seq<Row>>, s: Setting)
    requires RowBacked(index, ledger)
    ensures var after := Passed(index, ledger, arrivals, s);
            && Hosts(ledger, Since(s.now)) <= after.Keys <= Hosts(Final(ledger, arrivals), Since(s.now))
            && forall h :: h in after ==> ReadByPage(after, ledger, arrivals, s, h)
  {
    var r, after := Paged(index, ledger, arrivals, s, None), Passed(index, ledger, arrivals, s);
    forall h
      ensures h in Hosts(ledger, Since(s.now)) ==> h in after
      ensures h in after ==> ReadByPage(after, ledger, arrivals, s, h) && h in Hosts(Final(ledger, arrivals), Since(s.now))
    {
      PagedMeans(index, ledger, arrivals, s, None, h);
      if ReadByPage(r, ledger, arrivals, s, h) {
        var k: nat :| IsRead(r[h], LedgerAt(ledger, arrivals, k), s, h);
        GroupByBacked(LedgerAt(ledger, arrivals, k), s);
        LedgerAtIsPart(ledger, arrivals, k);
        assert IsRead(after[h], LedgerAt(ledger, arrivals, k), s, h);
      } else {
        OldEntitiesDecay(index, r, ledger, s, h);
      }
    }
  }

  lemma OldEntitiesDecay(index: Index, r: Index, ledger: seq<Row>, s: Setting, h: string)
    requires RowBacked(index, ledger) && h !in Hosts(ledger, Since(s.now)) && SameEntity(index, r, h)
    ensures h !in Decayed(r, Since(s.now))
  {
    if h in index {
      var row :| row in ledger && row.host == h && row.ts == index[h].lastSeen;
      assert row.ts >= Since(s.now) ==> h in Hosts(ledger, Since(s.now));
    }
  }

  lemma ReadIsBacked(e: Entity, ledger: seq<Row>, final: seq<Row>, s: Setting, h: string)
    requires IsRead(e, ledger, s, h) && forall r :: r in ledger ==> r in final
    ensures exists r :: r in final && r.host == h && r.ts == e.lastSeen
  {
    GroupByBacked(ledger, s);
    var r :| r in ledger && r.host == h && r.ts == e.lastSeen;
    assert r in final;
  }

  lemma PassedBacked(index: Index, ledger: seq<Row>, arrivals: seq<seq<Row>>, s: Setting)
    requires RowBacked(index, ledger)
    ensures RowBacked(Passed(index, ledger, arrivals, s), Final(ledger, arrivals))
  {
    var after, final := Passed(index, ledger, arrivals, s), Final(ledger, arrivals);
    PassedMeans(index, ledger, arrivals, s);
    forall h | h in after
      ensures exists r :: r in final && r.host == h && r.ts == after[h].lastSeen
    {
      assert ReadByPage(after, ledger, arrivals, s, h);
      var k: nat :| IsRead(after[h], LedgerAt(ledger, arrivals, k), s, h);
      LedgerAtIsPart(ledger, arrivals, k);
      ReadIsBacked(after[h], LedgerAt(ledger, arrivals, k), final, s, h);
    }
  }

  lemma {:induction false} LedgerStays(ledger: seq<Row>, k: nat)
    ensures LedgerAt(ledger, [], k) == ledger
  {
    if k > 0 {
      LedgerStays(ledger, k - 1);
    }
  }

  lemma QuietHost(index: Index, ledger: seq<Row>, s: Setting, r: Index, h: string)
    requires PagesHandle(index, r, ledger, [], s, None, h)
    ensures SameEntity(index + GroupBy(ledger, s), r, h)
  {
    if ReadByPage(r, ledger, [], s, h) {
      var k: nat :| IsRead(r[h], LedgerAt(ledger, [], k), s, h);
      LedgerStays(ledger, k);
    }
  }

  lemma SameMaps(a: Index, b: Index)
    requires forall h :: SameEntity(a, b, h)
    ensures a == b
  {
    forall h
      ensures h in a <==> h in b
      ensures h in a ==> a[h] == b[h]
    {
      assert SameEntity(a, b, h);
    }
  }

  /** While no rows arrive, the pages add the whole group-by. */
  lemma QuietPages(index: Index, ledger: seq<Row>, s: Setting)
    ensures Paged(index, ledger, [], s, None) == index + GroupBy(ledger, s)
  {
    var r := Paged(index, ledger, [], s, None);
    forall h
      ensures SameEntity(index + GroupBy(ledger, s), r, h)
    {
      PagedMeans(index, ledger, [], s, None, h);
      QuietHost(index, ledger, s, r, h);
    }
    SameMaps(index + GroupBy(ledger, s), r);
  }

  lemma QuietPass(index: Index, ledger: seq<Row>, s: Setting)
    ensures Passed(index, ledger, [], s) == AfterPass(index, ledger, s)
    ensures Final(ledger, []) == ledger
  {
    QuietPages(index, ledger, s);
  }

  lemma {:induction false} QuietReached(ledger: seq<Row>, s: Setting, after: Option<Key>)
    ensures Reached(ledger, [], s, after) == InOrder(KeysBeyond(ledger, s, after))
    decreases |KeysBeyond(ledger, s, after)|
  {
    var all, page := InOrder(KeysBeyond(ledger, s, after)), PageAt(ledger, s, after);
    if page != [] {
      var last := page[|page| - 1];
      PageAdvances(ledger, [], s, after);
      QuietReached(ledger, s, Some(last));
      RestBeyond(ledger, s, after, |page| - 1);
      assert all == page + all[|page|..];
    }
  }

  lemma RestBeyond(ledger: seq<Row>, s: Setting, after: Option<Key>, i: nat)
    requires i < |InOrder(KeysBeyond(ledger, s, after))|
    ensures var all := InOrder(KeysBeyond(ledger, s, after));
            InOrder(KeysBeyond(ledger, s, Some(all[i]))) == all[i + 1..]
  {
    var keys := KeysBeyond(ledger, s, after);
    var key := InOrder(keys)[i];
    AfterIsRest(keys, i);
    InOrderSound(keys);
    assert key in Elements(InOrder(keys));
    forall k
      ensures k in After(keys, Some(key)) <==> k in KeysBeyond(ledger, s, Some(key))
    {
      if after.Some? && KeyLess(key, k) {
        KeyTransitive(after.value, key, k);
      }
    }
    assert After(keys, Some(key)) == KeysBeyond(ledger, s, Some(key));
  }

  /** Without arrivals as many keys are upserted as hosts are retained. */
  lemma QuietCount(ledger: seq<Row>, s: Setting)
    ensures |Reached(ledger, [], s, None)| == |Hosts(ledger, Since(s.now))|
  {
    QuietReached(ledger, s, None);
    var hosts := Hosts(ledger, Since(s.now));
    assert KeysBeyond(ledger, s, None) == HostKeys(hosts);
    InOrderSound(HostKeys(hosts));
    HostKeysCount(hosts);
  }

  lemma AscendingSum(a: seq<Key>, b: seq<Key>)
    requires a != [] && Ascending(a) && Ascending(b) && forall k :: k in b ==> KeyLess(a[|a| - 1], k)
    ensures Ascending(a + b)
  {
    forall i, j | 0 <= i < |a| && 0 <= j < |b|
      ensures KeyLess(a[i], b[j])
    {
      assert b[j] in b;
      if i < |a| - 1 {
        KeyTransitive(a[i], a[|a| - 1], b[j]);
      }
    }
  }

  lemma PageAscends(ledger: seq<Row>, s: Setting, after: Option<Key>)
    ensures Ascending(PageAt(ledger, s, after))
  {
    InOrderSound(KeysBeyond(ledger, s, after));
  }

  ghost predicate AllBeyond(keys: seq<Key>, after: Option<Key>) {
    forall k :: k in keys ==> after.None? || KeyLess(after.value, k)
  }

  lemma BeyondLast(keys: seq<Key>, after: Option<Key>, last: Key)
    requires AllBeyond(keys, Some(last)) && (after.Some? ==> KeyLess(after.value, last))
    ensures AllBeyond(keys, after)
  {
    forall k | k in keys
      ensures after.None? || KeyLess(after.value, k)
    {
      if after.Some? {
        KeyTransitive(after.value, last, k);
      }
    }
  }

  lemma PageIsBeyond(ledger: seq<Row>, s: Setting, after: Option<Key>)
    ensures AllBeyond(PageAt(ledger, s, after), after)
  {
    PageMeans(ledger, s, after);
  }

  /** No host is upserted twice in a pass, whatever arrives. */
  lemma {:induction false} ReachedOnce(ledger: seq<Row>, arrivals: seq<seq<Row>>, s: Setting, after: Option<Key>)
    ensures Ascending(Reached(ledger, arrivals, s, after)) && AllBeyond(Reached(ledger, arrivals, s, after), after)
    decreases |KeysBeyond(Final(ledger, arrivals), s, after)|
  {
    var page := PageAt(ledger, s, after);
    if page != [] {
      var last := page[|page| - 1];
      PageIsBeyond(ledger, s, after);
      PageAscends(ledger, s, after);
      PageAdvances(ledger, arrivals, s, after);
      var rest := Reached(Grown(ledger, arrivals), Later(arrivals), s, Some(last));
      ReachedOnce(Grown(ledger, arrivals), Later(arrivals), s, Some(last));
      AscendingSum(page, rest);
      assert last in page;
      BeyondLast(rest, after, last);
    }
  }

  // ---- Any run -------------------------------------------------------------

  /** The ledger grows, or a whole pass runs while `arrivals` come in between its pages, or, step by step, a page of a
      pass upserts some hosts from the ledger as it then is, and the end of a pass drops what is too old. A pass that
      fails has no end. */
  datatype Event =
    | Append(rows: seq<Row>)
    | Pass(setting: Setting, arrivals: seq<seq<Row>>)
    | PageOf(setting: Setting, hosts: set<string>)
    | Expire(setting: Setting)

  datatype World = World(ledger: seq<Row>, index: Index)

  /** The entities of some hosts upserted. */
  function Merged(index: Index, entities: Index, hosts: set<string>): Index {
    index + map h | h in entities && h in hosts :: entities[h]
  }

  lemma MergedAt(index: Index, entities: Index, hosts: set<string>, h: string)
    ensures if h in entities && h in hosts then h in Merged(index, entities, hosts) && Merged(index, entities, hosts)[h] == entities[h]
            else if h in index then h in Merged(index, entities, hosts) && Merged(index, entities, hosts)[h] == index[h]
            else h !in Merged(index, entities, hosts)
  {
  }

  ghost function Step(w: World, e: Event): World {
    match e
    case Append(rows) => w.(ledger := w.ledger + rows)
    case Pass(s, arrivals) => World(Final(w.ledger, arrivals), Passed(w.index, w.ledger, arrivals, s))
    case PageOf(s, hosts) =>
      w.(index := Merged(w.index, GroupBy(w.ledger, s), hosts))
    case Expire(s) => w.(index := Decayed(w.index, Since(s.now)))
  }

  ghost function AfterRun(events: seq<Event>): World {
    if events == [] then World([], map[]) else Step(AfterRun(events[..|events| - 1]), events[|events| - 1])
  }

  lemma StepBacked(w: World, e: Event)
    requires RowBacked(w.index, w.ledger)
    ensures RowBacked(Step(w, e).index, Step(w, e).ledger)
  {
    match e
    case Append(rows) =>
      forall h | h in w.index ensures exists r :: r in w.ledger + rows && r.host == h && r.ts == w.index[h].lastSeen {
        var r :| r in w.ledger && r.host == h && r.ts == w.index[h].lastSeen;
        assert r in w.ledger + rows;
      }
    case Pass(s, arrivals) =>
      PassedMeans(w.index, w.ledger, arrivals, s);
      PassedBacked(w.index, w.ledger, arrivals, s);
    case PageOf(s, hosts) =>
      GroupByBacked(w.ledger, s);
    case Expire(_) =>
  }

  lemma {:induction false} RunBacked(events: seq<Event>)
    ensures RowBacked(AfterRun(events).index, AfterRun(events).ledger)
  {
    if events != [] {
      RunBacked(events[..|events| - 1]);
      StepBacked(AfterRun(events[..|events| - 1]), events[|events| - 1]);
    }
  }

  /** In any run of appends and passes, with appends between the pages of a pass and passes that break off, every
      pass during which the ledger does not grow leaves the index equal to the direct group-by of the retained rows. */
  lemma IndexIsGroupBy(events: seq<Event>, s: Setting)
    ensures AfterRun(events + [Pass(s, [])]).index == GroupBy(AfterRun(events).ledger, s)
    ensures AfterRun(events + [Pass(s, [])]).ledger == AfterRun(events).ledger
  {
    assert (events + [Pass(s, [])])[..|events|] == events;
    RunBacked(events);
    QuietPass(AfterRun(events).index, AfterRun(events).ledger, s);
    PassIsGroupBy(AfterRun(events).index, AfterRun(events).ledger, s);
  }

  /** In any such run a pass during which rows arrive leaves every host that was retained when it began, and no host
      that is not when it ends; each entity is the group-by of the ledger as one of its pages read it. */
  lemma IndexFollowsPages(events: seq<Event>, s: Setting, arrivals: seq<seq<Row>>)
    ensures var w, w' := AfterRun(events), AfterRun(events + [Pass(s, arrivals)]);
            && w'.ledger == Final(w.ledger, arrivals)
            && Hosts(w.ledger, Since(s.now)) <= w'.index.Keys <= Hosts(w'.ledger, Since(s.now))
            && forall h :: h in w'.index ==> ReadByPage(w'.index, w.ledger, arrivals, s, h)
  {
    assert (events + [Pass(s, arrivals)])[..|events|] == events;
    RunBacked(events);
    PassedMeans(AfterRun(events).index, AfterRun(events).ledger, arrivals, s);
  }

  /** What may follow a page until the end of its pass without touching host `h`: appends, pages of other hosts, and
      the end of the pass. */
  predicate LeavesAlone(e: Event, s: Setting, h: string) {
    match e
    case Append(_) => true
    case Pass(_, _) => false
    case PageOf(_, hosts) => h !in hosts
    case Expire(t) => t.now == s.now
  }

  lemma StepLeavesEntity(w: World, e: Event, s: Setting, h: string)
    requires LeavesAlone(e, s, h) && h in w.index && w.index[h].lastSeen >= Since(s.now)
    ensures h in Step(w, e).index && Step(w, e).index[h] == w.index[h]
  {
  }

  lemma PageUpserts(w: World, s: Setting, hosts: set<string>, h: string)
    requires h in hosts && h in GroupBy(w.ledger, s)
    ensures var index := Step(w, PageOf(s, hosts)).index; h in index && index[h] == GroupBy(w.ledger, s)[h]
  {
    MergedAt(w.index, GroupBy(w.ledger, s), hosts, h);
  }

  lemma AfterSnoc(run: seq<Event>, e: Event)
    ensures AfterRun(run + [e]) == Step(AfterRun(run), e)
  {
    assert (run + [e])[..|run|] == run;
  }

  lemma {:induction false} EntityStays(run: seq<Event>, s: Setting, later: seq<Event>, h: string)
    requires h in AfterRun(run).index && AfterRun(run).index[h].lastSeen >= Since(s.now)
    requires forall e :: e in later ==> LeavesAlone(e, s, h)
    ensures var index := AfterRun(run + later).index; h in index && index[h] == AfterRun(run).index[h]
    decreases |later|
  {
    if later == [] {
      assert run + later == run;
    } else {
      var n := |later| - 1;
      assert later[n] in later;
      EntityStays(run, s, later[..n], h);
      assert run + later == (run + later[..n]) + [later[n]];
      AfterSnoc(run + later[..n], later[n]);
      StepLeavesEntity(AfterRun(run + later[..n]), later[n], s, h);
    }
  }

  /** With appends between the pages of a pass, each entity is the group-by of the ledger as its own page read it,
      and stays so to the end of the pass. */
  lemma PageReadsItsLedger(before: seq<Event>, s: Setting, hosts: set<string>, later: seq<Event>, h: string)
    requires h in hosts && h in GroupBy(AfterRun(before).ledger, s)
    requires forall e :: e in later ==> LeavesAlone(e, s, h)
    ensures var index := AfterRun(before + [PageOf(s, hosts)] + later).index;
            h in index && index[h] == GroupBy(AfterRun(before).ledger, s)[h]
  {
    AfterSnoc(before, PageOf(s, hosts));
    PageUpserts(AfterRun(before), s, hosts, h);
    GroupByBacked(AfterRun(before).ledger, s);
    EntityStays(before + [PageOf(s, hosts)], s, later, h);
  }

  // ---- The job object ------------------------------------------------------

  class ReasonJob {
    var entities: Index

    constructor ()
      ensures entities == map[]
    {
      entities := map[];
    }

    /** One request of the composite aggregation by host: the keys of the page. */
    method SearchPage(ledger: seq<Row>, s: Setting, after: Option<Key>) returns (page: seq<Key>)
      ensures page == PageAt(ledger, s, after)
    {
      var keys := set h | h in Hosts(ledger, Since(s.now)) :: [h];
      assert keys == HostKeys(Hosts(ledger, Since(s.now)));
      page := Page(keys, after, PAGE_SIZE);
    }

    /** Upserts the documents of one page. */
    method UpsertPage(docOf: string -> Entity, page: seq<Key>)
      modifies this
      ensures entities == Upserted(old(entities), docOf, page)
    {
      for i := 0 to |page|
        invariant entities == Upserted(old(entities), docOf, page[..i])
      {
        assert page[..i + 1][..i] == page[..i];
        var host := HostOf(page[i]);
        entities := entities[host := docOf(host)];
      }
      assert page[..|page|] == page;
    }

    /** Page after page until there are no more buckets; counts the upserts. Page `k` reads the ledger as it is after
        the first `k` of the `arrivals`. */
    method UpsertHosts(ledger: seq<Row>, arrivals: seq<seq<Row>>, s: Setting) returns (updated: nat)
      modifies this
      ensures entities == Paged(old(entities), ledger, arrivals, s, None)
      ensures updated == |Reached(ledger, arrivals, s, None)|
    {
      updated := 0;
      var after: Option<Key> := None;
      var now, coming := ledger, arrivals;
      while true
        invariant Paged(entities, now, coming, s, after) == Paged(old(entities), ledger, arrivals, s, None)
        invariant updated + |Reached(now, coming, s, after)| == |Reached(ledger, arrivals, s, None)|
        decreases |KeysBeyond(Final(now, coming), s, after)|
      {
        var page := SearchPage(now, s, after);
        if page == [] {
          break;
        }
        PageAdvances(now, coming, s, after);
        UpsertPage(DocFor(now, s), page);
        updated := updated + |page|;
        after := Some(page[|page| - 1]);
        now, coming := Grown(now, coming), Later(coming);
      }
    }

    method RunOnce(ledger: seq<Row>, arrivals: seq<seq<Row>>, s: Setting) returns (updated: nat)
      modifies this
      ensures entities == Passed(old(entities), ledger, arrivals, s)
      ensures updated == |Reached(ledger, arrivals, s, None)|
      ensures arrivals == [] ==> entities == AfterPass(old(entities), ledger, s) && updated == |Hosts(ledger, Since(s.now))|
    {
      QuietPass(entities, ledger, s);
      QuietCount(ledger, s);
      updated := UpsertHosts(ledger, arrivals, s);
      DeleteExpired(Since(s.now));
    }

    method DeleteExpired(since: int)
      modifies this
      ensures entities == Decayed(old(entities), since)
    {
      entities := map h | h in entities && entities[h].lastSeen >= since :: entities[h];
    }
  }
}
