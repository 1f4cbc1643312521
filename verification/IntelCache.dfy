/** The intel cache over time: refreshes that replace a feed's generation, and the
    paged load of the in-memory indexes. */
module IntelCache {
  import opened Bytes
  import opened Search
  import opened Intel
  import opened Times

  // ---- Document ids --------------------------------------------------------

  predicate NoColon(s: string) {
    forall i :: 0 <= i < |s| ==> s[i] != ':'
  }

  function DocId(source: string, value: string): string {
    source + ":" + value
  }

  lemma DocIdInjective(s1: string, v1: string, s2: string, v2: string)
    requires NoColon(s1) && NoColon(s2) && DocId(s1, v1) == DocId(s2, v2)
    ensures s1 == s2 && v1 == v2
  {
    var id := DocId(s1, v1);
    assert id[|s1|] == ':' && id[|s2|] == ':';
    assert forall i :: 0 <= i < |s1| ==> id[i] == s1[i];
    assert forall i :: 0 <= i < |s2| ==> id[i] == s2[i];
    assert |s1| == |s2|;
    assert id[..|s1|] == s1 && id[..|s2|] == s2;
    assert id[|s1| + 1..] == v1 && id[|s2| + 1..] == v2;
  }

  /** Every document is filed under the id of its indicator. */
  ghost predicate Filed(cache: Cache) {
    forall id :: id in cache ==> NoColon(cache[id].ioc.source) && id == DocId(cache[id].ioc.source, cache[id].ioc.value)
  }

  /** The indicators the cache holds for a feed. */
  ghost function CachedFrom(cache: Cache, source: string): set<Ioc> {
    set id | id in cache && cache[id].ioc.source == source :: cache[id].ioc
  }

  // ---- Storing a download --------------------------------------------------

  /** A bulk write; of two documents with one id the later wins. */
  function Bulk(cache: Cache, source: string, recs: seq<Ioc>, stamp: int): Cache {
    if recs == [] then cache
    else
      var r := recs[|recs| - 1];
      Bulk(cache, source, recs[..|recs| - 1], stamp)[DocId(source, r.value) := Doc(r, stamp)]
  }

  /** The bulk write, then a delete of what the feed left behind with another stamp. */
  function Stored(cache: Cache, source: string, recs: seq<Ioc>, stamp: int): Cache {
    var all := Bulk(cache, source, recs, stamp);
    map id | id in all && !(all[id].ioc.source == source && all[id].fetchedAt != stamp) :: all[id]
  }

  /** A feed's parser labels its indicators with the feed. */
  ghost predicate FromFeed(source: string, recs: seq<Ioc>) {
    NoColon(source) && forall r :: r in recs ==> r.source == source
  }

  /** The last indicator listed for `value`. */
  function LastListed(recs: seq<Ioc>, value: string): (r: Option<Ioc>)
    ensures r.Some? ==> r.value in recs && r.value.value == value
    ensures r.None? ==> forall q :: q in recs ==> q.value != value
  {
    if recs == [] then None
    else if recs[|recs| - 1].value == value then Some(recs[|recs| - 1])
    else
      assert recs == recs[..|recs| - 1] + [recs[|recs| - 1]];
      LastListed(recs[..|recs| - 1], value)
  }

  lemma {:induction false} LastListedIsLast(recs: seq<Ioc>, i: nat)
    requires i < |recs| && forall j :: i < j < |recs| ==> recs[j].value != recs[i].value
    ensures LastListed(recs, recs[i].value) == Some(recs[i])
    decreases |recs|
  {
    if i < |recs| - 1 {
      LastListedIsLast(recs[..|recs| - 1], i);
    }
  }

  /** What a download amounts to: for each value its last indicator. */
  ghost function Contents(recs: seq<Ioc>): set<Ioc> {
    set r | r in recs && LastListed(recs, r.value) == Some(r)
  }

  function Entry(cache: Cache, source: string, value: string): Option<Doc> {
    var id := DocId(source, value);
    if id in cache then Some(cache[id]) else None
  }

  lemma {:induction false} BulkFiled(cache: Cache, source: string, recs: seq<Ioc>, stamp: int)
    requires Filed(cache) && FromFeed(source, recs)
    ensures Filed(Bulk(cache, source, recs, stamp))
  {
    if recs != [] {
      BulkFiled(cache, source, recs[..|recs| - 1], stamp);
    }
  }

  lemma {:induction false} BulkMeans(cache: Cache, source: string, recs: seq<Ioc>, stamp: int, s: string, v: string)
    requires FromFeed(source, recs) && NoColon(s)
    ensures Entry(Bulk(cache, source, recs, stamp), s, v) ==
            if s == source && LastListed(recs, v).Some? then Some(Doc(LastListed(recs, v).value, stamp)) else Entry(cache, s, v)
  {
    if recs != [] {
      BulkMeans(cache, source, recs[..|recs| - 1], stamp, s, v);
      if DocId(source, recs[|recs| - 1].value) == DocId(s, v) {
        DocIdInjective(source, recs[|recs| - 1].value, s, v);
      }
    }
  }

  /** The entry of any feed and value after storing a download. */
  lemma StoredMeans(cache: Cache, source: string, recs: seq<Ioc>, stamp: int, s: string, v: string)
    requires Filed(cache) && FromFeed(source, recs) && NoColon(s)
    ensures Filed(Stored(cache, source, recs, stamp))
    ensures Entry(Stored(cache, source, recs, stamp), s, v) ==
            if s != source then Entry(cache, s, v)
            else if LastListed(recs, v).Some? then Some(Doc(LastListed(recs, v).value, stamp))
            else if Entry(cache, s, v).Some? && Entry(cache, s, v).value.fetchedAt == stamp then Entry(cache, s, v)
            else None
  {
    var all := Bulk(cache, source, recs, stamp);
    BulkFiled(cache, source, recs, stamp);
    BulkMeans(cache, source, recs, stamp, s, v);
    if Entry(all, s, v).Some? {
      var d := all[DocId(s, v)];
      DocIdInjective(s, v, d.ioc.source, d.ioc.value);
    }
  }

  /** A document of the feed that carries the new stamp already and was not downloaded again. */
  ghost predicate Leftover(cache: Cache, source: string, recs: seq<Ioc>, stamp: int, id: string) {
    id in cache && cache[id].ioc.source == source && cache[id].fetchedAt == stamp && LastListed(recs, cache[id].ioc.value).None?
  }

  lemma CachedAt(cache: Cache, source: string, r: Ioc)
    requires Filed(cache) && NoColon(source)
    ensures r in CachedFrom(cache, source) <==> (r.source == source && Entry(cache, source, r.value).Some? && Entry(cache, source, r.value).value.ioc == r)
  {
  }

  /** Storing a download replaces the feed's generation by it, exactly when no document with
      the same stamp is left over; other feeds keep their documents. */
  lemma StoreReplacesExactlyWhen(cache: Cache, source: string, recs: seq<Ioc>, stamp: int)
    requires Filed(cache) && FromFeed(source, recs)
    ensures CachedFrom(Stored(cache, source, recs, stamp), source) == Contents(recs)
            <==> forall id :: !Leftover(cache, source, recs, stamp, id)
    ensures forall s :: NoColon(s) && s != source ==> CachedFrom(Stored(cache, source, recs, stamp), s) == CachedFrom(cache, s)
  {
    var after := Stored(cache, source, recs, stamp);
    StoredMeans(cache, source, recs, stamp, source, "");
    forall r ensures r in CachedFrom(after, source) <==>
        r in Contents(recs) || (Leftover(cache, source, recs, stamp, DocId(source, r.value)) && cache[DocId(source, r.value)].ioc == r)
    {
      CachedAt(after, source, r);
      StoredMeans(cache, source, recs, stamp, source, r.value);
    }
    if id :| Leftover(cache, source, recs, stamp, id) {
      var r := cache[id].ioc;
      assert r in CachedFrom(after, source);
      assert r !in Contents(recs);
    }
    forall s | NoColon(s) && s != source ensures CachedFrom(after, s) == CachedFrom(cache, s) {
      forall r ensures r in CachedFrom(after, s) <==> r in CachedFrom(cache, s) {
        CachedAt(after, s, r);
        CachedAt(cache, s, r);
        StoredMeans(cache, source, recs, stamp, s, r.value);
      }
    }
  }

  // ---- Loading the indexes -------------------------------------------------

  /** The sort key of a document, also its identity. */
  function KeyOf(r: Ioc): Key {
    [r.value, r.source]
  }

  ghost function Keys(cache: Cache): set<Key> {
    set id | id in cache :: KeyOf(cache[id].ioc)
  }

  predicate FiledKey(cache: Cache, k: Key) {
    |k| == 2 && DocId(k[1], k[0]) in cache && KeyOf(cache[DocId(k[1], k[0])].ioc) == k
  }

  predicate FiledKeys(cache: Cache, keys: seq<Key>) {
    forall i :: 0 <= i < |keys| ==> FiledKey(cache, keys[i])
  }

  /** The indicator filed under a sort key. */
  function Fetch(cache: Cache, k: Key): Ioc
    requires FiledKey(cache, k)
  {
    cache[DocId(k[1], k[0])].ioc
  }

  /** The indicators filed under `keys`, in that order. */
  ghost function FetchAll(cache: Cache, keys: seq<Key>): (r: seq<Ioc>)
    requires FiledKeys(cache, keys)
    ensures |r| == |keys|
  {
    if keys == [] then [] else FetchAll(cache, keys[..|keys| - 1]) + [Fetch(cache, keys[|keys| - 1])]
  }

  lemma KeysInOrder(cache: Cache)
    requires Filed(cache)
    ensures FiledKeys(cache, InOrder(Keys(cache))) && Ascending(InOrder(Keys(cache)))
    ensures forall k :: k in InOrder(Keys(cache)) <==> k in Keys(cache)
  {
    var all := InOrder(Keys(cache));
    InOrderSound(Keys(cache));
    forall k ensures k in all <==> k in Keys(cache) {
      assert k in Elements(all) <==> k in Keys(cache);
    }
    forall i | 0 <= i < |all| ensures FiledKey(cache, all[i]) {
      assert all[i] in Keys(cache);
    }
  }

  /** The keys that a load reads: all of them, up to the cap, by value and then by feed. */
  ghost function LoadKeys(cache: Cache): seq<Key> {
    Take(InOrder(Keys(cache)), LOAD_CAP)
  }

  /** What a load reads. */
  ghost function LoadOrder(cache: Cache): seq<Ioc> {
    if Filed(cache) then KeysInOrder(cache); FetchAll(cache, LoadKeys(cache)) else []
  }

  lemma {:induction false} FetchAllAt(cache: Cache, keys: seq<Key>, i: nat)
    requires FiledKeys(cache, keys) && i < |keys|
    ensures FetchAll(cache, keys)[i] == Fetch(cache, keys[i])
  {
    if i < |keys| - 1 {
      FetchAllAt(cache, keys[..|keys| - 1], i);
    }
  }

  ghost predicate AllWellFormed(hostName: HostName, cache: Cache) {
    forall id :: id in cache ==> WellFormed(hostName, cache[id].ioc)
  }

  lemma LoadedAt(cache: Cache, i: nat)
    requires Filed(cache) && i < |LoadOrder(cache)|
    ensures |LoadKeys(cache)| == |LoadOrder(cache)|
    ensures KeyOf(LoadOrder(cache)[i]) == LoadKeys(cache)[i]
    ensures exists id :: id in cache && cache[id].ioc == LoadOrder(cache)[i]
  {
    KeysInOrder(cache);
    var k := LoadKeys(cache)[i];
    assert k in InOrder(Keys(cache));
    FetchAllAt(cache, LoadKeys(cache), i);
    assert DocId(k[1], k[0]) in cache;
  }

  /** What is loaded is fit for matching. */
  lemma LoadedIsServed(hostName: HostName, cache: Cache)
    requires Filed(cache) && AllWellFormed(hostName, cache)
    ensures Served(hostName, LoadOrder(cache))
  {
    var iocs := LoadOrder(cache);
    forall r | r in iocs ensures WellFormed(hostName, r) {
      var i :| 0 <= i < |iocs| && iocs[i] == r;
      LoadedAt(cache, i);
    }
    KeysInOrder(cache);
    forall i, j | 0 <= i < j < |iocs| && iocs[i].value == iocs[j].value ensures iocs[i].source != iocs[j].source {
      LoadedAt(cache, i);
      LoadedAt(cache, j);
      KeyOrder(LoadKeys(cache)[i], LoadKeys(cache)[j]);
    }
  }

  /** A load reads as many indicators as there are, up to the cap; below the cap it reads every one. */
  lemma LoadIsComplete(cache: Cache)
    requires Filed(cache)
    ensures |LoadOrder(cache)| == Min(|cache|, LOAD_CAP)
    ensures |cache| <= LOAD_CAP ==> forall id :: id in cache ==> cache[id].ioc in LoadOrder(cache)
  {
    KeysInOrder(cache);
    KeysCount(cache);
    InOrderSound(Keys(cache));
    if |cache| <= LOAD_CAP {
      forall id | id in cache ensures cache[id].ioc in LoadOrder(cache) {
        assert KeyOf(cache[id].ioc) in LoadKeys(cache);
        var i :| 0 <= i < |LoadKeys(cache)| && LoadKeys(cache)[i] == KeyOf(cache[id].ioc);
        FetchAllAt(cache, LoadKeys(cache), i);
      }
    }
  }

  lemma KeysWithout(cache: Cache, id: string)
    requires id in cache
    ensures Keys(cache) == Keys(cache - {id}) + {KeyOf(cache[id].ioc)}
  {
    var rest, k := cache - {id}, KeyOf(cache[id].ioc);
    forall j
      ensures j in Keys(cache) <==> j in Keys(rest) + {k}
    {
      if j in Keys(cache) && j != k {
        var i :| i in cache && KeyOf(cache[i].ioc) == j;
        assert i in rest;
      }
    }
  }

  lemma {:induction false} KeysCount(cache: Cache)
    requires Filed(cache)
    ensures |Keys(cache)| == |cache|
    decreases |cache|
  {
    if cache != map[] {
      var id :| id in cache;
      var rest := cache - {id};
      assert rest.Keys == cache.Keys - {id};
      KeysCount(rest);
      var k := KeyOf(cache[id].ioc);
      KeysWithout(cache, id);
      assert k !in Keys(rest);
    }
  }

  // ---- Stores and loads that fail --------------------------------------------

  /** How a search for a feed's newest stamp goes: it answers, it is refused, which counts as no stamp, or it
      raises and ends the refresh. */
  datatype StampSearch = Answered | Refused | Broken

  /** How storing a download goes. A bulk write that raises may have reached the documents `landed`, a delete
      that raises may have deleted those of `purged`. */
  datatype Storing = Completed | BulkRaised(landed: set<string>) | PurgeRaised(purged: set<string>)

  /** How the searches of a load go: all answer, or the one after `pages` pages is refused, which ends the load, or
      raises, which ends the refresh. */
  datatype Loading = AllAnswered | RefusedAfter(pages: nat) | BrokenAfter(pages: nat)

  /** The cache after a store, whole or not. */
  function StoredBy(cache: Cache, source: string, recs: seq<Ioc>, stamp: int, storing: Storing): Cache {
    var all := Bulk(cache, source, recs, stamp);
    match storing
    case Completed => Stored(cache, source, recs, stamp)
    case BulkRaised(landed) =>
      map id | id in all && (id in landed || id in cache) :: if id in landed then all[id] else cache[id]
    case PurgeRaised(purged) =>
      map id | id in all && !(all[id].ioc.source == source && all[id].fetchedAt != stamp && id in purged) :: all[id]
  }

  lemma StoredByFiled(cache: Cache, source: string, recs: seq<Ioc>, stamp: int, storing: Storing)
    requires Filed(cache) && FromFeed(source, recs)
    ensures Filed(StoredBy(cache, source, recs, stamp, storing))
  {
    BulkFiled(cache, source, recs, stamp);
    StoredMeans(cache, source, recs, stamp, source, "");
  }

  /** What stays of the feed's old generation when the delete raises. */
  ghost predicate Stays(cache: Cache, source: string, recs: seq<Ioc>, stamp: int, purged: set<string>, id: string) {
    && id in cache && cache[id].ioc.source == source
    && LastListed(recs, cache[id].ioc.value).None?
    && (cache[id].fetchedAt == stamp || id !in purged)
  }

  /** A delete that raises after the bulk write mixes two generations: the feed's documents are then the download
      and all that was not listed again and not yet deleted. */
  lemma FailedPurgeMixes(cache: Cache, source: string, recs: seq<Ioc>, stamp: int, purged: set<string>, r: Ioc)
    requires Filed(cache) && FromFeed(source, recs)
    ensures var after := StoredBy(cache, source, recs, stamp, PurgeRaised(purged));
            r in CachedFrom(after, source) <==>
            r in Contents(recs)
            || (r.source == source && Stays(cache, source, recs, stamp, purged, DocId(source, r.value))
                && cache[DocId(source, r.value)].ioc == r)
  {
    var after := StoredBy(cache, source, recs, stamp, PurgeRaised(purged));
    StoredByFiled(cache, source, recs, stamp, PurgeRaised(purged));
    CachedAt(after, source, r);
    BulkFiled(cache, source, recs, stamp);
    BulkMeans(cache, source, recs, stamp, source, r.value);
    if Entry(cache, source, r.value).Some? {
      var d := cache[DocId(source, r.value)];
      DocIdInjective(source, r.value, d.ioc.source, d.ioc.value);
    }
    if r in Contents(recs) {
      assert LastListed(recs, r.value) == Some(r);
    }
  }

  /** What a load has read after some pages. */
  ghost function LoadPart(cache: Cache, pages: nat): seq<Ioc> {
    if Filed(cache) then KeysInOrder(cache); FetchAll(cache, Take(LoadKeys(cache), pages * LOAD_PAGE)) else []
  }

  /** A load does another search after so many pages. */
  ghost predicate Reaches(cache: Cache, pages: nat) {
    pages * LOAD_PAGE < LOAD_CAP && pages * LOAD_PAGE <= |LoadKeys(cache)|
  }

  // ---- Rounds of refreshes -------------------------------------------------

  /** The outcome of downloading a feed: nothing this time, a rejected key, a text the parser raises on, or its
      indicators. */
  datatype Fetched = Skipped | Unauthorized | Garbled | Downloaded(recs: seq<Ioc>)

  datatype Config = Config(feeds: seq<string>, ttlHours: int)

  /** One refresh at time `now`; feed `i` would answer `fetched(i)`, its stamp is searched for with outcome
      `stamps(i)`, and its download is stored with outcome `stores(i)`. */
  datatype Round = Round(now: int, fetched: nat -> Fetched, stamps: nat -> StampSearch, stores: nat -> Storing, load: Loading)

  /** The matcher. `changed` is whether the last refresh stored a download, `raised` whether it raised; `last`
      records each feed's last download that was stored. */
  datatype State = State(
    cache: Cache,
    enabled: bool,
    indexes: Indexes,
    loaded: bool,
    changed: bool,
    raised: bool,
    last: map<string, set<Ioc>>)

  const Initial := State(map[], true, EmptyIndexes, false, false, false, map[])

  function LastDownload(s: State, source: string): set<Ioc> {
    if source in s.last then s.last[source] else {}
  }

  /** The newest document of the feed is at least as old as the time to live; so is one without documents. */
  ghost predicate IsStale(cache: Cache, source: string, now: int, ttlHours: int) {
    forall id :: id in cache && cache[id].ioc.source == source ==> now - cache[id].fetchedAt >= ttlHours * HOUR
  }

  /** One feed; after a raise nothing more happens. */
  ghost function FeedStep(s: State, source: string, now: int, ttlHours: int, search: StampSearch, fetched: Fetched, storing: Storing): State {
    if s.raised then s
    else if search.Broken? then s.(raised := true)
    else if search.Answered? && !IsStale(s.cache, source, now, ttlHours) then s
    else
      match fetched
      case Skipped => s
      case Unauthorized => s.(enabled := false)
      case Garbled => s.(raised := true)
      case Downloaded(recs) =>
        var stored := s.(cache := StoredBy(s.cache, source, recs, Stamp(now), storing));
        if storing.Completed? then stored.(changed := true, last := s.last[source := Contents(recs)])
        else stored.(raised := true)
  }

  ghost function FeedAt(s: State, cfg: Config, r: Round, i: nat): State
    requires i < |cfg.feeds|
  {
    FeedStep(s, cfg.feeds[i], r.now, cfg.ttlHours, r.stamps(i), r.fetched(i), r.stores(i))
  }

  /** The first `n` feeds of a refresh. */
  ghost function FeedSteps(s: State, cfg: Config, r: Round, n: nat): State
    requires n <= |cfg.feeds|
  {
    if n == 0 then s.(changed := false, raised := false)
    else FeedAt(FeedSteps(s, cfg, r, n - 1), cfg, r, n - 1)
  }

  ghost function Load(s: State, load: Loading): State {
    match load
    case AllAnswered => s.(indexes := Build(LoadOrder(s.cache)), loaded := true)
    case RefusedAfter(pages) => s.(indexes := Build(LoadPart(s.cache, pages)), loaded := true)
    case BrokenAfter(pages) =>
      if Reaches(s.cache, pages) then s.(indexes := Build(LoadPart(s.cache, pages)), raised := true)
      else s.(indexes := Build(LoadOrder(s.cache)), loaded := true)
  }

  ghost function RefreshStep(s: State, cfg: Config, r: Round): State
  {
    if !s.enabled then s
    else
      var s1 := FeedSteps(s, cfg, r, |cfg.feeds|);
      if s1.raised then s1
      else if s1.changed || !s1.loaded then Load(s1, r.load)
      else s1
  }

  ghost predicate ValidFetch(hostName: HostName, source: string, fetched: Fetched) {
    fetched.Downloaded? ==> FromFeed(source, fetched.recs) && forall q :: q in fetched.recs ==> WellFormed(hostName, q)
  }

  ghost predicate ValidRound(hostName: HostName, cfg: Config, r: Round) {
    forall i: nat :: i < |cfg.feeds| ==> ValidFetch(hostName, cfg.feeds[i], r.fetched(i))
  }

  ghost function After(cfg: Config, rounds: seq<Round>): State
  {
    if rounds == [] then Initial
    else RefreshStep(After(cfg, rounds[..|rounds| - 1]), cfg, rounds[|rounds| - 1])
  }

  /** The cache is, feed by feed, the last stored download. */
  ghost predicate CacheCoherent(s: State) {
    forall source :: NoColon(source) ==> CachedFrom(s.cache, source) == LastDownload(s, source)
  }

  ghost predicate Sound(hostName: HostName, s: State) {
    Filed(s.cache) && AllWellFormed(hostName, s.cache)
  }

  /** The indexes in memory, once loaded, are built from the cache. */
  ghost predicate MemoryCoherent(s: State) {
    s.loaded ==> s.indexes == Build(LoadOrder(s.cache))
  }

  lemma {:induction false} BulkWellFormed(hostName: HostName, cache: Cache, source: string, recs: seq<Ioc>, stamp: int)
    requires AllWellFormed(hostName, cache) && forall q :: q in recs ==> WellFormed(hostName, q)
    ensures AllWellFormed(hostName, Bulk(cache, source, recs, stamp))
  {
    if recs != [] {
      BulkWellFormed(hostName, cache, source, recs[..|recs| - 1], stamp);
    }
  }

  lemma StoredByWellFormed(hostName: HostName, cache: Cache, source: string, recs: seq<Ioc>, stamp: int, storing: Storing)
    requires AllWellFormed(hostName, cache) && forall q :: q in recs ==> WellFormed(hostName, q)
    ensures AllWellFormed(hostName, StoredBy(cache, source, recs, stamp, storing))
  {
    BulkWellFormed(hostName, cache, source, recs, stamp);
  }

  lemma FeedStepSound(hostName: HostName, s: State, cfg: Config, r: Round, i: nat)
    requires Sound(hostName, s) && i < |cfg.feeds| && ValidFetch(hostName, cfg.feeds[i], r.fetched(i))
    ensures Sound(hostName, FeedAt(s, cfg, r, i))
  {
    if r.fetched(i).Downloaded? {
      StoredByFiled(s.cache, cfg.feeds[i], r.fetched(i).recs, Stamp(r.now), r.stores(i));
      StoredByWellFormed(hostName, s.cache, cfg.feeds[i], r.fetched(i).recs, Stamp(r.now), r.stores(i));
    }
  }

  lemma {:induction false} FeedStepsSound(hostName: HostName, s: State, cfg: Config, r: Round, n: nat)
    requires Sound(hostName, s) && ValidRound(hostName, cfg, r) && n <= |cfg.feeds|
    ensures Sound(hostName, FeedSteps(s, cfg, r, n))
  {
    if n > 0 {
      FeedStepsSound(hostName, s, cfg, r, n - 1);
      FeedStepSound(hostName, FeedSteps(s, cfg, r, n - 1), cfg, r, n - 1);
    }
  }

  /** Loading the indexes leaves the cache and the records alone. */
  lemma RefreshCacheIs(s: State, s1: State, cfg: Config, r: Round)
    requires s.enabled && s1 == FeedSteps(s, cfg, r, |cfg.feeds|)
    ensures RefreshStep(s, cfg, r).cache == s1.cache && RefreshStep(s, cfg, r).last == s1.last
  {
  }

  lemma SameCacheSound(hostName: HostName, s: State, s': State)
    requires Sound(hostName, s) && s'.cache == s.cache
    ensures Sound(hostName, s')
  {
  }

  lemma SameCacheCoherent(s: State, s': State)
    requires CacheCoherent(s) && s'.cache == s.cache && s'.last == s.last
    ensures CacheCoherent(s')
  {
    forall source | NoColon(source)
      ensures CachedFrom(s'.cache, source) == LastDownload(s', source)
    {
      assert CachedFrom(s.cache, source) == LastDownload(s, source);
    }
  }

  lemma RefreshSound(hostName: HostName, s: State, cfg: Config, r: Round)
    requires Sound(hostName, s) && ValidRound(hostName, cfg, r)
    ensures Sound(hostName, RefreshStep(s, cfg, r))
  {
    if s.enabled {
      ghost var s1 := FeedSteps(s, cfg, r, |cfg.feeds|);
      FeedStepsSound(hostName, s, cfg, r, |cfg.feeds|);
      RefreshCacheIs(s, s1, cfg, r);
      SameCacheSound(hostName, s1, RefreshStep(s, cfg, r));
    }
  }

  ghost predicate ValidRounds(hostName: HostName, cfg: Config, rounds: seq<Round>) {
    forall r :: r in rounds ==> ValidRound(hostName, cfg, r)
  }

  /** Whatever fails, the cache holds well-formed indicators, filed under their ids. */
  lemma {:induction false} RunsAreSound(hostName: HostName, cfg: Config, rounds: seq<Round>)
    requires ValidRounds(hostName, cfg, rounds)
    ensures Sound(hostName, After(cfg, rounds))
  {
    if rounds != [] {
      var n := |rounds| - 1;
      assert rounds[n] in rounds;
      RunsAreSound(hostName, cfg, rounds[..n]);
      RefreshSound(hostName, After(cfg, rounds[..n]), cfg, rounds[n]);
    }
  }

  // ---- Which runs stay coherent ----------------------------------------------

  /** What may happen to a run: a started store may raise; a refused stamp search may lead to a second download
      within one second; a stamp search or a parser may raise; a load may fail. */
  datatype Faults = Faults(stores: bool, restamps: bool, breaks: bool, loads: bool)

  const NO_FAULTS := Faults(false, false, false, false)

  ghost predicate Unstamped(cache: Cache, source: string, stamp: int) {
    forall id :: id in cache && cache[id].ioc.source == source ==> cache[id].fetchedAt != stamp
  }

  /** Feed `i` meets only permitted faults. */
  ghost predicate FeedPermitted(s: State, cfg: Config, r: Round, i: nat, faults: Faults)
    requires i < |cfg.feeds|
  {
    && (faults.stores || r.stores(i).Completed?)
    && (faults.breaks || (!r.stamps(i).Broken? && !r.fetched(i).Garbled?))
    && (faults.restamps || (r.stamps(i).Refused? ==> Unstamped(s.cache, cfg.feeds[i], Stamp(r.now))))
  }

  ghost predicate RoundPermitted(s: State, cfg: Config, r: Round, faults: Faults) {
    && (faults.loads || r.load.AllAnswered?)
    && forall i: nat :: i < |cfg.feeds| ==> FeedPermitted(FeedSteps(s, cfg, r, i), cfg, r, i, faults)
  }

  ghost predicate Permitted(cfg: Config, rounds: seq<Round>, faults: Faults) {
    rounds != [] ==>
      var before, r := rounds[..|rounds| - 1], rounds[|rounds| - 1];
      Permitted(cfg, before, faults) && RoundPermitted(After(cfg, before), cfg, r, faults)
  }

  lemma FreshStampDiffers(cache: Cache, source: string, recs: seq<Ioc>, now: int, ttlHours: int)
    requires Unstamped(cache, source, Stamp(now)) || (IsStale(cache, source, now, ttlHours) && ttlHours > 0)
    ensures forall id :: !Leftover(cache, source, recs, Stamp(now), id)
  {
  }

  lemma StoreCoherent(s: State, source: string, recs: seq<Ioc>, stamp: int)
    requires Filed(s.cache) && CacheCoherent(s) && FromFeed(source, recs)
    requires forall id :: !Leftover(s.cache, source, recs, stamp, id)
    ensures CacheCoherent(s.(cache := Stored(s.cache, source, recs, stamp), changed := true, last := s.last[source := Contents(recs)]))
  {
    StoreReplacesExactlyWhen(s.cache, source, recs, stamp);
  }

  /** The feed is found stale, or its stamp cannot be found, and it is downloaded. */
  ghost predicate Downloads(s: State, cfg: Config, r: Round, i: nat)
    requires i < |cfg.feeds|
  {
    && !s.raised && !r.stamps(i).Broken? && r.fetched(i).Downloaded?
    && (r.stamps(i).Refused? || IsStale(s.cache, cfg.feeds[i], r.now, cfg.ttlHours))
  }

  lemma FeedStepCoherent(s: State, cfg: Config, r: Round, i: nat, faults: Faults)
    requires Filed(s.cache) && CacheCoherent(s) && cfg.ttlHours > 0 && i < |cfg.feeds|
    requires !faults.stores && !faults.restamps && FeedPermitted(s, cfg, r, i, faults)
    requires r.fetched(i).Downloaded? ==> FromFeed(cfg.feeds[i], r.fetched(i).recs)
    ensures CacheCoherent(FeedAt(s, cfg, r, i))
  {
    if Downloads(s, cfg, r, i) {
      var source, recs := cfg.feeds[i], r.fetched(i).recs;
      FreshStampDiffers(s.cache, source, recs, r.now, cfg.ttlHours);
      StoreCoherent(s, source, recs, Stamp(r.now));
    } else {
      assert FeedAt(s, cfg, r, i).cache == s.cache && FeedAt(s, cfg, r, i).last == s.last;
    }
  }

  lemma NextStepCoherent(hostName: HostName, s: State, before: State, cfg: Config, r: Round, n: nat, faults: Faults)
    requires n < |cfg.feeds| && before == FeedSteps(s, cfg, r, n)
    requires Sound(hostName, before) && CacheCoherent(before) && cfg.ttlHours > 0 && ValidRound(hostName, cfg, r)
    requires !faults.stores && !faults.restamps && RoundPermitted(s, cfg, r, faults)
    ensures CacheCoherent(FeedSteps(s, cfg, r, n + 1))
  {
    assert FeedPermitted(before, cfg, r, n, faults);
    FeedStepCoherent(before, cfg, r, n, faults);
  }

  lemma {:induction false} FeedStepsCoherent(hostName: HostName, s: State, cfg: Config, r: Round, n: nat, faults: Faults)
    requires Sound(hostName, s) && CacheCoherent(s) && cfg.ttlHours > 0
    requires ValidRound(hostName, cfg, r) && n <= |cfg.feeds|
    requires !faults.stores && !faults.restamps && RoundPermitted(s, cfg, r, faults)
    ensures CacheCoherent(FeedSteps(s, cfg, r, n))
  {
    if n == 0 {
      SameCacheCoherent(s, FeedSteps(s, cfg, r, 0));
    } else {
      FeedStepsSound(hostName, s, cfg, r, n - 1);
      FeedStepsCoherent(hostName, s, cfg, r, n - 1, faults);
      NextStepCoherent(hostName, s, FeedSteps(s, cfg, r, n - 1), cfg, r, n - 1, faults);
    }
  }

  lemma RefreshCoherent(hostName: HostName, s: State, cfg: Config, r: Round, faults: Faults)
    requires Sound(hostName, s) && CacheCoherent(s) && cfg.ttlHours > 0 && ValidRound(hostName, cfg, r)
    requires !faults.stores && !faults.restamps && RoundPermitted(s, cfg, r, faults)
    ensures CacheCoherent(RefreshStep(s, cfg, r))
  {
    if s.enabled {
      ghost var s1 := FeedSteps(s, cfg, r, |cfg.feeds|);
      FeedStepsCoherent(hostName, s, cfg, r, |cfg.feeds|, faults);
      RefreshCacheIs(s, s1, cfg, r);
      SameCacheCoherent(s1, RefreshStep(s, cfg, r));
    }
  }

  /** With a positive time to live, and when every started store completes and no refused stamp search leads to a
      second download within one second, each feed's cached documents are exactly its last stored download. */
  lemma {:induction false} CacheIsLastDownload(hostName: HostName, cfg: Config, rounds: seq<Round>, faults: Faults)
    requires cfg.ttlHours > 0 && ValidRounds(hostName, cfg, rounds)
    requires !faults.stores && !faults.restamps && Permitted(cfg, rounds, faults)
    ensures CacheCoherent(After(cfg, rounds))
  {
    if rounds != [] {
      var n := |rounds| - 1;
      assert rounds[n] in rounds;
      CacheIsLastDownload(hostName, cfg, rounds[..n], faults);
      RunsAreSound(hostName, cfg, rounds[..n]);
      RefreshCoherent(hostName, After(cfg, rounds[..n]), cfg, rounds[n], faults);
    }
  }

  /** Nothing raises, and the cache and the memory change only together with the flag. */
  lemma {:induction false} FeedStepsFlag(s: State, cfg: Config, r: Round, n: nat, faults: Faults)
    requires !faults.stores && !faults.breaks && RoundPermitted(s, cfg, r, faults) && n <= |cfg.feeds|
    ensures var s' := FeedSteps(s, cfg, r, n);
            && !s'.raised && s'.indexes == s.indexes && s'.loaded == s.loaded
            && (!s'.changed ==> s'.cache == s.cache)
  {
    if n > 0 {
      FeedStepsFlag(s, cfg, r, n - 1, faults);
      assert FeedPermitted(FeedSteps(s, cfg, r, n - 1), cfg, r, n - 1, faults);
    }
  }

  /** When no store, stamp search, parser or load fails, the indexes in memory are those of the present cache,
      whatever the time to live. */
  lemma {:induction false} MemoryFollowsCache(cfg: Config, rounds: seq<Round>, faults: Faults)
    requires !faults.stores && !faults.breaks && !faults.loads && Permitted(cfg, rounds, faults)
    ensures MemoryCoherent(After(cfg, rounds))
    ensures rounds != [] && After(cfg, rounds[..|rounds| - 1]).enabled ==> After(cfg, rounds).loaded
  {
    if rounds != [] {
      var n := |rounds| - 1;
      MemoryFollowsCache(cfg, rounds[..n], faults);
      FeedStepsFlag(After(cfg, rounds[..n]), cfg, rounds[n], |cfg.feeds|, faults);
    }
  }

  ghost predicate AlwaysCoherent(hostName: HostName, ttlHours: int, faults: Faults) {
    forall feeds, rounds: seq<Round> ::
      ValidRounds(hostName, Config(feeds, ttlHours), rounds) && Permitted(Config(feeds, ttlHours), rounds, faults) ==>
        CacheCoherent(After(Config(feeds, ttlHours), rounds))
  }

  ghost predicate AlwaysRemembers(hostName: HostName, ttlHours: int, faults: Faults) {
    forall feeds, rounds: seq<Round> ::
      ValidRounds(hostName, Config(feeds, ttlHours), rounds) && Permitted(Config(feeds, ttlHours), rounds, faults) ==>
        MemoryCoherent(After(Config(feeds, ttlHours), rounds))
  }

  // ---- Runs that do not stay coherent ----------------------------------------

  lemma OneFeedSteps(s: State, cfg: Config, r: Round)
    requires |cfg.feeds| >= 1
    ensures FeedSteps(s, cfg, r, 0) == s.(changed := false, raised := false)
    ensures FeedSteps(s, cfg, r, 1) == FeedAt(s.(changed := false, raised := false), cfg, r, 0)
  {
  }

  lemma AfterTwo(cfg: Config, r1: Round, r2: Round)
    ensures After(cfg, []) == Initial && After(cfg, [r1]) == RefreshStep(Initial, cfg, r1)
    ensures After(cfg, [r1, r2]) == RefreshStep(RefreshStep(Initial, cfg, r1), cfg, r2)
  {
    assert [r1][..0] == [];
    assert After(cfg, [r1]) == RefreshStep(After(cfg, []), cfg, r1);
    assert [r1, r2][..1] == [r1];
  }

  lemma PermittedTwo(cfg: Config, r1: Round, r2: Round, faults: Faults)
    requires RoundPermitted(Initial, cfg, r1, faults) && RoundPermitted(RefreshStep(Initial, cfg, r1), cfg, r2, faults)
    ensures Permitted(cfg, [r1], faults) && Permitted(cfg, [r1, r2], faults)
  {
    AfterTwo(cfg, r1, r2);
    assert [r1][..0] == [] && [r1, r2][..1] == [r1];
    assert Permitted(cfg, [], faults);
    assert Permitted(cfg, [r1], faults);
  }

  /** A round in which every search answers, every store completes and feed `i` answers `fetched(i)`. */
  function Smooth(now: int, fetched: nat -> Fetched): Round {
    Round(now, fetched, _ => Answered, _ => Completed, AllAnswered)
  }

  lemma StoreOne(source: string, a: Ioc, stamp: int, storing: Storing)
    requires NoColon(source) && a.source == source && (storing.Completed? || storing == PurgeRaised({}))
    ensures StoredBy(map[], source, [a], stamp, storing) == map[DocId(source, a.value) := Doc(a, stamp)]
  {
    assert [a][..0] == [];
    assert Bulk(map[], source, [a], stamp) == map[DocId(source, a.value) := Doc(a, stamp)];
  }

  /** Two downloads with one stamp are both kept. */
  lemma SameStampKeepsBoth(a: Ioc, b: Ioc)
    requires NoColon(a.source) && a.source == b.source && a.value != b.value
    ensures a in CachedFrom(Stored(Stored(map[], a.source, [a], 0), a.source, [b], 0), a.source)
    ensures a !in Contents([b])
  {
    var one := Stored(map[], a.source, [a], 0);
    StoredMeans(map[], a.source, [a], 0, a.source, a.value);
    StoredMeans(one, a.source, [b], 0, a.source, a.value);
    CachedAt(Stored(one, a.source, [b], 0), a.source, a);
  }

  /** Two downloads of one feed within one second, which the second stamp search does not prevent. */
  lemma TwoDownloads(cfg: Config, r1: Round, r2: Round, a: Ioc, b: Ioc)
    requires cfg.feeds == ["feodo"] && (cfg.ttlHours <= 0 || r2.stamps(0).Refused?)
    requires a.source == b.source == "feodo" && a.value != b.value
    requires r1.now == r2.now == 0 && r1.fetched(0) == Downloaded([a]) && r2.fetched(0) == Downloaded([b])
    requires r1.stamps(0).Answered? && !r2.stamps(0).Broken? && r1.stores(0).Completed? && r2.stores(0).Completed?
    requires r1.load.AllAnswered? && r2.load.AllAnswered?
    ensures !CacheCoherent(RefreshStep(RefreshStep(Initial, cfg, r1), cfg, r2))
    ensures RefreshStep(Initial, cfg, r1).enabled
  {
    OneFeedSteps(Initial, cfg, r1);
    StoreOne("feodo", a, 0, Completed);
    var s1 := RefreshStep(Initial, cfg, r1);
    assert s1.cache == map[DocId("feodo", a.value) := Doc(a, 0)];
    OneFeedSteps(s1, cfg, r2);
    SameStampKeepsBoth(a, b);
    var s2 := RefreshStep(s1, cfg, r2);
    assert s2.cache == Stored(s1.cache, "feodo", [b], 0) && LastDownload(s2, "feodo") == Contents([b]);
  }

  const A := Ioc("feodo", Hash, "a", "", {}, {})
  const B := Ioc("feodo", Hash, "b", "", {}, {})

  lemma ExamplesAreWellFormed(hostName: HostName)
    ensures WellFormed(hostName, A) && WellFormed(hostName, B)
    ensures FromFeed("feodo", [A]) && FromFeed("feodo", [B])
  {
    assert Lower("a") == "a" && Lower("b") == "b";
  }

  /** Without a time to live, or when a refused stamp search leads to another download in the same second, the
      first one's indicators stay. */
  lemma SameStampStays(hostName: HostName, ttlHours: int, faults: Faults)
    requires ttlHours <= 0 || faults.restamps
    ensures !AlwaysCoherent(hostName, ttlHours, faults)
  {
    ExamplesAreWellFormed(hostName);
    var cfg := Config(["feodo"], ttlHours);
    var r1 := Smooth(0, _ => Downloaded([A]));
    var r2 := Smooth(0, _ => Downloaded([B])).(stamps := _ => if ttlHours <= 0 then Answered else Refused);
    assert ValidRounds(hostName, cfg, [r1, r2]);
    PermittedTwo(cfg, r1, r2, faults);
    TwoDownloads(cfg, r1, r2, A, B);
    AfterTwo(cfg, r1, r2);
  }

  /** A store that raises leaves indicators in the cache that belong to no stored download. */
  lemma RaisedStoreShows(hostName: HostName, ttlHours: int, faults: Faults)
    requires faults.stores
    ensures !AlwaysCoherent(hostName, ttlHours, faults)
  {
    ExamplesAreWellFormed(hostName);
    var cfg := Config(["feodo"], ttlHours);
    var r1, r2 := Smooth(0, _ => Skipped), RaisedRound();
    assert ValidRounds(hostName, cfg, [r1, r2]);
    QuietRound(cfg, r1);
    PermittedTwo(cfg, r1, r2, faults);
    RaisedRoundStops(cfg, r2);
    AfterTwo(cfg, r1, r2);
    var s := After(cfg, [r1, r2]);
    assert A in CachedFrom(s.cache, "feodo") by {
      assert s.cache[DocId("feodo", "a")].ioc == A;
    }
    assert LastDownload(s, "feodo") == {};
  }

  /** The delete after the bulk write raises. */
  function RaisedRound(): Round {
    Smooth(0, _ => Downloaded([A])).(stores := _ => PurgeRaised({}))
  }

  /** The state after a first round that downloads nothing. */
  const Empty := Initial.(loaded := true)

  lemma QuietRound(cfg: Config, r: Round)
    requires forall i: nat :: r.fetched(i).Skipped? && r.stamps(i).Answered?
    requires r.load.AllAnswered?
    ensures RefreshStep(Initial, cfg, r) == Empty
  {
    NothingFetched(cfg, r, |cfg.feeds|);
    assert LoadOrder(map[]) == [] by {
      LoadIsComplete(map[]);
    }
  }

  lemma {:induction false} NothingFetched(cfg: Config, r: Round, n: nat)
    requires (forall i: nat :: r.fetched(i).Skipped? && r.stamps(i).Answered?) && n <= |cfg.feeds|
    ensures FeedSteps(Initial, cfg, r, n) == Initial
  {
    if n > 0 {
      NothingFetched(cfg, r, n - 1);
    }
  }

  /** The cache holds just the example; nothing of it is in memory. */
  ghost predicate Unremembered(s: State) {
    s.cache == map[DocId("feodo", "a") := Doc(A, 0)] && s.loaded && s.indexes == EmptyIndexes
  }

  lemma UnrememberedIsIncoherent(s: State)
    requires Unremembered(s)
    ensures !MemoryCoherent(s)
  {
    var id := DocId("feodo", "a");
    assert Filed(s.cache) && |s.cache| == 1;
    LoadIsComplete(s.cache);
    assert s.cache[id].ioc in LoadOrder(s.cache);
    BuildMeans(LoadOrder(s.cache));
    assert "a" in Build(LoadOrder(s.cache)).hashes;
  }

  lemma RaisedRoundStops(cfg: Config, r: Round)
    requires cfg.feeds == ["feodo"] && r == RaisedRound()
    ensures Unremembered(RefreshStep(Empty, cfg, r)) && RefreshStep(Empty, cfg, r).last == map[]
  {
    OneFeedSteps(Empty, cfg, r);
    StoreOne("feodo", A, 0, PurgeRaised({}));
  }

  /** The first feed is stored, the stamp search for the second raises. */
  function BrokenRound(): Round {
    Smooth(0, i => if i == 0 then Downloaded([A]) else Skipped).(stamps := i => if i == 0 then Answered else Broken)
  }

  lemma BrokenRoundForgets(cfg: Config, r: Round)
    requires cfg.feeds == ["feodo", "urlhaus"] && r == BrokenRound()
    ensures Unremembered(RefreshStep(Empty, cfg, r))
  {
    OneFeedSteps(Empty, cfg, r);
    StoreOne("feodo", A, 0, Completed);
    assert FeedSteps(Empty, cfg, r, 2) == FeedAt(FeedSteps(Empty, cfg, r, 1), cfg, r, 1);
  }

  /** The feed is stored, the first search of the load is refused. */
  function UnloadedRound(): Round {
    Smooth(0, _ => Downloaded([A])).(load := RefusedAfter(0))
  }

  lemma UnloadedRoundForgets(cfg: Config, r: Round)
    requires cfg.feeds == ["feodo"] && r == UnloadedRound()
    ensures Unremembered(RefreshStep(Empty, cfg, r))
  {
    OneFeedSteps(Empty, cfg, r);
    StoreOne("feodo", A, 0, Completed);
    var s1 := FeedSteps(Empty, cfg, r, 1);
    assert Filed(s1.cache);
    KeysInOrder(s1.cache);
    assert Take(LoadKeys(s1.cache), 0) == [];
    assert LoadPart(s1.cache, 0) == [];
  }

  lemma QuietIsPermitted(hostName: HostName, cfg: Config, r: Round, faults: Faults)
    requires r == Smooth(0, _ => Skipped)
    ensures ValidRound(hostName, cfg, r) && RoundPermitted(Initial, cfg, r, faults)
  {
    forall i: nat | i < |cfg.feeds|
      ensures FeedPermitted(FeedSteps(Initial, cfg, r, i), cfg, r, i, faults)
    {
    }
  }

  lemma RunForgets(hostName: HostName, cfg: Config, rounds: seq<Round>, faults: Faults)
    requires ValidRounds(hostName, cfg, rounds) && Permitted(cfg, rounds, faults) && !MemoryCoherent(After(cfg, rounds))
    ensures !AlwaysRemembers(hostName, cfg.ttlHours, faults)
  {
    assert cfg == Config(cfg.feeds, cfg.ttlHours);
  }

  /** A quiet round and then one that leaves the example unremembered. */
  lemma TwoRoundsForget(hostName: HostName, cfg: Config, r: Round, faults: Faults)
    requires ValidRound(hostName, cfg, r) && RoundPermitted(Empty, cfg, r, faults)
    requires Unremembered(RefreshStep(Empty, cfg, r))
    ensures !AlwaysRemembers(hostName, cfg.ttlHours, faults)
  {
    var quiet := Smooth(0, _ => Skipped);
    QuietRound(cfg, quiet);
    QuietIsPermitted(hostName, cfg, quiet, faults);
    PermittedTwo(cfg, quiet, r, faults);
    AfterTwo(cfg, quiet, r);
    UnrememberedIsIncoherent(After(cfg, [quiet, r]));
    RunForgets(hostName, cfg, [quiet, r], faults);
  }

  /** Any of the three faults leaves old indexes in memory. */
  lemma FaultForgets(hostName: HostName, ttlHours: int, faults: Faults)
    requires faults.stores || faults.breaks || faults.loads
    ensures !AlwaysRemembers(hostName, ttlHours, faults)
  {
    ExamplesAreWellFormed(hostName);
    var one, two := Config(["feodo"], ttlHours), Config(["feodo", "urlhaus"], ttlHours);
    if faults.stores {
      RaisedRoundStops(one, RaisedRound());
      TwoRoundsForget(hostName, one, RaisedRound(), faults);
    } else if faults.loads {
      UnloadedRoundForgets(one, UnloadedRound());
      TwoRoundsForget(hostName, one, UnloadedRound(), faults);
    } else {
      BrokenRoundForgets(two, BrokenRound());
      TwoRoundsForget(hostName, two, BrokenRound(), faults);
    }
  }

  /** Over all rounds with the permitted faults the cache of every feed is its last stored download, if and only if
      the time to live is positive, every started store completes, and no refused stamp search leads to a second
      download within one second. */
  lemma CoherentExactlyWhen(hostName: HostName, ttlHours: int, faults: Faults)
    ensures AlwaysCoherent(hostName, ttlHours, faults) <==> ttlHours > 0 && !faults.stores && !faults.restamps
  {
    if ttlHours <= 0 || faults.restamps {
      SameStampStays(hostName, ttlHours, faults);
    } else if faults.stores {
      RaisedStoreShows(hostName, ttlHours, faults);
    } else {
      forall feeds, rounds: seq<Round> |
        ValidRounds(hostName, Config(feeds, ttlHours), rounds) && Permitted(Config(feeds, ttlHours), rounds, faults)
        ensures CacheCoherent(After(Config(feeds, ttlHours), rounds))
      {
        CacheIsLastDownload(hostName, Config(feeds, ttlHours), rounds, faults);
      }
    }
  }

  /** Over all such rounds the indexes in memory are those of the present cache, if and only if every started store
      completes, no stamp search or parser raises, and every load completes. */
  lemma RemembersExactlyWhen(hostName: HostName, ttlHours: int, faults: Faults)
    ensures AlwaysRemembers(hostName, ttlHours, faults) <==> !faults.stores && !faults.breaks && !faults.loads
  {
    if faults.stores || faults.breaks || faults.loads {
      FaultForgets(hostName, ttlHours, faults);
    } else {
      forall feeds, rounds: seq<Round> |
        ValidRounds(hostName, Config(feeds, ttlHours), rounds) && Permitted(Config(feeds, ttlHours), rounds, faults)
        ensures MemoryCoherent(After(Config(feeds, ttlHours), rounds))
      {
        MemoryFollowsCache(Config(feeds, ttlHours), rounds, faults);
      }
    }
  }

  // ---- After a store that raised ---------------------------------------------

  /** The documents of a feed. */
  function FeedPart(cache: Cache, source: string): Cache {
    map id | id in cache && cache[id].ioc.source == source :: cache[id]
  }

  lemma {:induction false} BulkLeavesOthers(cache: Cache, other: string, recs: seq<Ioc>, stamp: int, source: string)
    requires Filed(cache) && FromFeed(other, recs) && NoColon(source) && source != other
    ensures FeedPart(Bulk(cache, other, recs, stamp), source) == FeedPart(cache, source)
  {
    if recs != [] {
      var front, r := recs[..|recs| - 1], recs[|recs| - 1];
      BulkLeavesOthers(cache, other, front, stamp, source);
      BulkFiled(cache, other, front, stamp);
      PutLeavesOthers(Bulk(cache, other, front, stamp), DocId(other, r.value), Doc(r, stamp), source);
    }
  }

  lemma PutLeavesOthers(cache: Cache, id: string, d: Doc, source: string)
    requires Filed(cache) && NoColon(d.ioc.source) && id == DocId(d.ioc.source, d.ioc.value) && source != d.ioc.source
    ensures FeedPart(cache[id := d], source) == FeedPart(cache, source)
  {
    if id in cache {
      DocIdInjective(cache[id].ioc.source, cache[id].ioc.value, d.ioc.source, d.ioc.value);
    }
  }

  /** Storing the download of one feed, whole or not, leaves the documents of the others. */
  lemma OtherFeedsStay(cache: Cache, other: string, recs: seq<Ioc>, stamp: int, storing: Storing, source: string)
    requires Filed(cache) && FromFeed(other, recs) && NoColon(source) && source != other
    ensures FeedPart(StoredBy(cache, other, recs, stamp, storing), source) == FeedPart(cache, source)
  {
    var all, after := Bulk(cache, other, recs, stamp), StoredBy(cache, other, recs, stamp, storing);
    BulkLeavesOthers(cache, other, recs, stamp, source);
    forall id
      ensures id in FeedPart(after, source) <==> id in FeedPart(cache, source)
      ensures id in FeedPart(after, source) ==> after[id] == cache[id]
    {
      assert id in FeedPart(all, source) <==> id in FeedPart(cache, source);
      assert id in FeedPart(all, source) ==> FeedPart(all, source)[id] == FeedPart(cache, source)[id];
    }
  }

  /** Some document of the feed is younger than the time to live at time `now`. */
  ghost predicate LooksFresh(cache: Cache, source: string, now: int, ttlHours: int) {
    exists id :: id in FeedPart(cache, source) && now - cache[id].fetchedAt < ttlHours * HOUR
  }

  /** Every stamp search for the feed answers. */
  ghost predicate StampSeen(cfg: Config, r: Round, source: string) {
    forall j: nat :: j < |cfg.feeds| && cfg.feeds[j] == source ==> r.stamps(j).Answered?
  }

  lemma {:induction false} FreshFeedStays(s: State, cfg: Config, r: Round, source: string, n: nat)
    requires Filed(s.cache) && NoColon(source) && n <= |cfg.feeds| && StampSeen(cfg, r, source)
    requires LooksFresh(s.cache, source, r.now, cfg.ttlHours)
    requires forall j: nat :: j < |cfg.feeds| && r.fetched(j).Downloaded? ==> FromFeed(cfg.feeds[j], r.fetched(j).recs)
    ensures var s' := FeedSteps(s, cfg, r, n);
            Filed(s'.cache) && FeedPart(s'.cache, source) == FeedPart(s.cache, source)
  {
    if n == 0 {
      assert FeedSteps(s, cfg, r, 0).cache == s.cache;
    } else {
      FreshFeedStays(s, cfg, r, source, n - 1);
      FreshFeedStep(FeedSteps(s, cfg, r, n - 1), s.cache, cfg, r, source, n - 1);
    }
  }

  lemma FreshFeedStep(s: State, cache: Cache, cfg: Config, r: Round, source: string, i: nat)
    requires Filed(s.cache) && NoColon(source) && i < |cfg.feeds| && StampSeen(cfg, r, source)
    requires LooksFresh(cache, source, r.now, cfg.ttlHours) && FeedPart(s.cache, source) == FeedPart(cache, source)
    requires r.fetched(i).Downloaded? ==> FromFeed(cfg.feeds[i], r.fetched(i).recs)
    ensures var s' := FeedAt(s, cfg, r, i);
            Filed(s'.cache) && FeedPart(s'.cache, source) == FeedPart(cache, source)
  {
    if Downloads(s, cfg, r, i) && cfg.feeds[i] != source {
      var recs := r.fetched(i).recs;
      StoredByFiled(s.cache, cfg.feeds[i], recs, Stamp(r.now), r.stores(i));
      OtherFeedsStay(s.cache, cfg.feeds[i], recs, Stamp(r.now), r.stores(i), source);
    } else {
      assert FeedAt(s, cfg, r, i).cache == s.cache;
    }
  }

  lemma FreshRoundStays(hostName: HostName, s: State, cfg: Config, r: Round, source: string)
    requires Filed(s.cache) && NoColon(source) && ValidRound(hostName, cfg, r) && StampSeen(cfg, r, source)
    requires LooksFresh(s.cache, source, r.now, cfg.ttlHours)
    ensures FeedPart(RefreshStep(s, cfg, r).cache, source) == FeedPart(s.cache, source)
  {
    if s.enabled {
      FreshFeedStays(s, cfg, r, source, |cfg.feeds|);
      RefreshCacheIs(s, FeedSteps(s, cfg, r, |cfg.feeds|), cfg, r);
    }
  }

  lemma AfterOneMore(cfg: Config, rounds: seq<Round>, r: Round)
    ensures After(cfg, rounds + [r]) == RefreshStep(After(cfg, rounds), cfg, r)
  {
    assert (rounds + [r])[..|rounds|] == rounds;
  }

  /** In round `r` the download of feed `i` is stored up to a delete that raises. */
  ghost predicate PurgeFails(s: State, cfg: Config, r: Round, i: nat) {
    && s.enabled && i < |cfg.feeds|
    && Downloads(FeedSteps(s, cfg, r, i), cfg, r, i)
    && r.stores(i).PurgeRaised? && r.fetched(i).recs != []
  }

  /** Such a round ends there; what it leaves mixed looks as fresh as the download. */
  lemma PurgeFailureLeaves(hostName: HostName, s: State, cfg: Config, r: Round, i: nat, now: int)
    requires Sound(hostName, s) && ValidRound(hostName, cfg, r) && PurgeFails(s, cfg, r, i)
    requires now - Stamp(r.now) < cfg.ttlHours * HOUR
    ensures var source, recs := cfg.feeds[i], r.fetched(i).recs;
            var before, mixed := FeedSteps(s, cfg, r, i).cache, RefreshStep(s, cfg, r);
            && mixed.raised
            && mixed.cache == StoredBy(before, source, recs, Stamp(r.now), r.stores(i))
            && LooksFresh(mixed.cache, source, now, cfg.ttlHours)
  {
    var source, recs, stamp := cfg.feeds[i], r.fetched(i).recs, Stamp(r.now);
    var before := FeedSteps(s, cfg, r, i);
    RaisedStays(s, cfg, r, i + 1);
    RefreshCacheIs(s, FeedSteps(s, cfg, r, |cfg.feeds|), cfg, r);
    var last := recs[|recs| - 1];
    var id, after := DocId(source, last.value), StoredBy(before.cache, source, recs, stamp, r.stores(i));
    assert Bulk(before.cache, source, recs, stamp)[id] == Doc(last, stamp);
    assert id in FeedPart(after, source) && after[id].fetchedAt == stamp;
  }

  /** After a delete that raised the feed looks fresh: until the time to live ends, no rounds in which its stamp
      searches answer touch its mixed generations again, whatever it would answer and whatever else fails. */
  lemma {:induction false} MixedGenerationsStay(hostName: HostName, cfg: Config, before: seq<Round>, r: Round, i: nat, later: seq<Round>)
    requires ValidRounds(hostName, cfg, before + [r] + later) && PurgeFails(After(cfg, before), cfg, r, i)
    requires forall q :: q in later ==> q.now - Stamp(r.now) < cfg.ttlHours * HOUR && StampSeen(cfg, q, cfg.feeds[i])
    ensures FeedPart(After(cfg, before + [r] + later).cache, cfg.feeds[i])
         == FeedPart(After(cfg, before + [r]).cache, cfg.feeds[i])
    decreases |later|
  {
    var run, source := before + [r], cfg.feeds[i];
    if later == [] {
      assert run + later == run;
    } else {
      var n := |later| - 1;
      var front, q := later[..n], later[n];
      assert run + later == (run + front) + [q] && q in later && q in run + later;
      assert forall p :: p in run + front ==> p in run + later;
      MixedGenerationsStay(hostName, cfg, before, r, i, front);
      RunsAreSound(hostName, cfg, run + front);
      MixedLooksFresh(hostName, cfg, before, r, i, q.now);
      var mixed, s := After(cfg, run), After(cfg, run + front);
      StaysFresh(mixed.cache, s.cache, source, q.now, cfg.ttlHours);
      FreshRoundStays(hostName, s, cfg, q, source);
      AfterOneMore(cfg, run + front, q);
    }
  }

  lemma StaysFresh(a: Cache, b: Cache, source: string, now: int, ttlHours: int)
    requires LooksFresh(a, source, now, ttlHours) && FeedPart(a, source) == FeedPart(b, source)
    ensures LooksFresh(b, source, now, ttlHours)
  {
    var id :| id in FeedPart(a, source) && now - a[id].fetchedAt < ttlHours * HOUR;
    assert FeedPart(b, source)[id] == FeedPart(a, source)[id];
  }

  lemma MixedLooksFresh(hostName: HostName, cfg: Config, before: seq<Round>, r: Round, i: nat, now: int)
    requires ValidRounds(hostName, cfg, before + [r]) && PurgeFails(After(cfg, before), cfg, r, i)
    requires now - Stamp(r.now) < cfg.ttlHours * HOUR
    ensures NoColon(cfg.feeds[i]) && After(cfg, before + [r]).raised
    ensures LooksFresh(After(cfg, before + [r]).cache, cfg.feeds[i], now, cfg.ttlHours)
  {
    assert r in before + [r];
    assert forall p :: p in before ==> p in before + [r];
    RunsAreSound(hostName, cfg, before);
    AfterOneMore(cfg, before, r);
    PurgeFailureLeaves(hostName, After(cfg, before), cfg, r, i, now);
  }

  /** End to end: in a run without faults, or with stamp searches refused only while the stamps differ, the loaded
      indexes answer every query from the feeds' last downloads, as long as the cache fits under the cap and hides
      no indicator. */
  lemma MatchesLastDownloads(hostName: HostName, cfg: Config, rounds: seq<Round>, q: Query, r: Ioc)
    requires CaseBlind(hostName) && cfg.ttlHours > 0 && ValidRounds(hostName, cfg, rounds)
    requires Permitted(cfg, rounds, NO_FAULTS)
    requires var s := After(cfg, rounds);
             s.loaded && |s.cache| <= LOAD_CAP && forall i, j :: !Hides(LoadOrder(s.cache), i, j)
    ensures var s := After(cfg, rounds);
            r in Hits(hostName, s.indexes, q) <==>
            NoColon(r.source) && r in LastDownload(s, r.source) && Corroborates(hostName, r, q)
  {
    MemoryFollowsCache(cfg, rounds, NO_FAULTS);
    CacheIsLastDownload(hostName, cfg, rounds, NO_FAULTS);
    RunsAreSound(hostName, cfg, rounds);
    CoherentMatches(hostName, After(cfg, rounds), q, r);
  }

  lemma CoherentMatches(hostName: HostName, s: State, q: Query, r: Ioc)
    requires CaseBlind(hostName) && Sound(hostName, s) && CacheCoherent(s) && MemoryCoherent(s) && s.loaded
    requires |s.cache| <= LOAD_CAP && forall i, j :: !Hides(LoadOrder(s.cache), i, j)
    ensures r in Hits(hostName, s.indexes, q) <==>
            NoColon(r.source) && r in LastDownload(s, r.source) && Corroborates(hostName, r, q)
  {
    LoadedIsServed(hostName, s.cache);
    LoadIsComplete(s.cache);
    var iocs := LoadOrder(s.cache);
    HitsCorroborate(hostName, iocs, q);
    if r in iocs {
      var i :| 0 <= i < |iocs| && iocs[i] == r;
      LoadedAt(s.cache, i);
      assert r in CachedFrom(s.cache, r.source);
      if Corroborates(hostName, r, q) {
        ScanIsHit(hostName, iocs, q, i);
      }
    }
    if NoColon(r.source) && r in CachedFrom(s.cache, r.source) {
      var id :| id in s.cache && s.cache[id].ioc == r;
    }
  }

  /** The indexes of the documents under `keys`. */
  ghost function IndexesOf(cache: Cache, keys: seq<Key>): Indexes {
    if keys == [] then EmptyIndexes
    else
      var before, k := IndexesOf(cache, keys[..|keys| - 1]), keys[|keys| - 1];
      if FiledKey(cache, k) then AddIoc(before, Fetch(cache, k)) else before
  }

  lemma {:induction false} IndexesOfIsBuild(cache: Cache, keys: seq<Key>)
    requires FiledKeys(cache, keys)
    ensures IndexesOf(cache, keys) == Build(FetchAll(cache, keys))
  {
    if keys != [] {
      IndexesOfIsBuild(cache, keys[..|keys| - 1]);
      var iocs := FetchAll(cache, keys);
      assert iocs[..|iocs| - 1] == FetchAll(cache, keys[..|keys| - 1]);
    }
  }

  /** After how many pages a load fails; the cap when it does not. */
  function FailsAfter(load: Loading): nat {
    match load
    case AllAnswered => LOAD_CAP / LOAD_PAGE
    case RefusedAfter(pages) => pages
    case BrokenAfter(pages) => pages
  }

  /** The search continues after the `count`th key. */
  predicate AtCursor(all: seq<Key>, after: Option<Key>, count: nat) {
    count <= |all| && after == if count == 0 then None else Some(all[count - 1])
  }

  lemma CursorRest(cache: Cache, all: seq<Key>, after: Option<Key>, count: nat)
    requires all == InOrder(Keys(cache)) && AtCursor(all, after, count)
    ensures InOrder(Search.After(Keys(cache), after)) == all[count..]
  {
    if count == 0 {
      assert Search.After(Keys(cache), None) == Keys(cache) && all[0..] == all;
    } else {
      AfterIsRest(Keys(cache), count - 1);
    }
  }

  /** What a load has read when it comes to the failing search, and that it misses nothing when it does not. */
  lemma LoadParts(cache: Cache, all: seq<Key>, pages: nat)
    requires Filed(cache) && all == InOrder(Keys(cache))
    ensures Reaches(cache, pages) <==> pages * LOAD_PAGE < LOAD_CAP && pages * LOAD_PAGE <= |all|
    ensures FiledKeys(cache, all) && FiledKeys(cache, Take(all, LOAD_CAP))
    ensures Build(LoadOrder(cache)) == IndexesOf(cache, Take(all, LOAD_CAP))
    ensures Reaches(cache, pages) ==> Build(LoadPart(cache, pages)) == IndexesOf(cache, all[..pages * LOAD_PAGE])
    ensures !Reaches(cache, pages) ==> LoadPart(cache, pages) == LoadOrder(cache)
  {
    KeysInOrder(cache);
    var keys := LoadKeys(cache);
    IndexesOfIsBuild(cache, keys);
    if Reaches(cache, pages) {
      assert Take(keys, pages * LOAD_PAGE) == all[..pages * LOAD_PAGE];
      IndexesOfIsBuild(cache, all[..pages * LOAD_PAGE]);
    } else {
      assert Take(keys, pages * LOAD_PAGE) == keys;
    }
  }

  /** How many documents a load reads at most. */
  function StopsAt(load: Loading): nat {
    Min(FailsAfter(load) * LOAD_PAGE, LOAD_CAP)
  }

  /** A load in terms of the keys in sort order. */
  lemma LoadMeans(s: State, load: Loading, all: seq<Key>)
    requires Filed(s.cache) && all == InOrder(Keys(s.cache))
    ensures var ok := !(StopsAt(load) <= |all| && load.BrokenAfter? && StopsAt(load) < LOAD_CAP);
            Load(s, load) == s.(indexes := IndexesOf(s.cache, Take(all, StopsAt(load))),
                                loaded := s.loaded || ok,
                                raised := if ok then s.raised else true)
  {
    LoadParts(s.cache, all, FailsAfter(load));
  }

  lemma {:induction false} RaisedStays(s: State, cfg: Config, r: Round, i: nat)
    requires i <= |cfg.feeds| && FeedSteps(s, cfg, r, i).raised
    ensures FeedSteps(s, cfg, r, |cfg.feeds|) == FeedSteps(s, cfg, r, i)
    decreases |cfg.feeds| - i
  {
    if i < |cfg.feeds| {
      assert FeedSteps(s, cfg, r, i + 1) == FeedSteps(s, cfg, r, i);
      RaisedStays(s, cfg, r, i + 1);
    }
  }

  // ---- The matcher object --------------------------------------------------

  class IntelMatcher {
    const hostName: HostName
    const cfg: Config
    var cache: Cache
    var enabled: bool
    var urls: map<string, Ioc>
    var hosts: map<string, seq<Ioc>>
    var hashes: map<string, Ioc>
    var loaded: bool
    var changed: bool
    var raised: bool
    ghost var last: map<string, set<Ioc>>

    ghost function Current(): State
      reads this
    {
      State(cache, enabled, Indexes(urls, hosts, hashes), loaded, changed, raised, last)
    }

    constructor (hostName: HostName, cfg: Config)
      ensures this.hostName == hostName && this.cfg == cfg && Current() == Initial
    {
      this.hostName, this.cfg := hostName, cfg;
      cache, enabled, loaded, changed, raised, last := map[], true, false, false, false, map[];
      urls, hosts, hashes := map[], map[], map[];
    }

    /** The newest `fetched_at` among the feed's documents; none too when the search is refused. `ok` is false
        where the search raises. */
    method LatestFetched(source: string, search: StampSearch) returns (latest: Option<int>, ok: bool)
      ensures ok <==> !search.Broken?
      ensures latest.None? <==> !search.Answered? || forall id :: id in cache ==> cache[id].ioc.source != source
      ensures latest.Some? ==> exists id :: id in cache && cache[id].ioc.source == source && cache[id].fetchedAt == latest.value
      ensures latest.Some? ==> forall id :: id in cache && cache[id].ioc.source == source ==> cache[id].fetchedAt <= latest.value
    {
      latest, ok := None, !search.Broken?;
      if !search.Answered? {
        return;
      }
      var todo := cache.Keys;
      while todo != {}
        invariant todo <= cache.Keys
        invariant latest.None? <==> forall id :: id in cache && id !in todo ==> cache[id].ioc.source != source
        invariant latest.Some? ==> exists id :: id in cache && cache[id].ioc.source == source && cache[id].fetchedAt == latest.value
        invariant latest.Some? ==> forall id :: id in cache && id !in todo && cache[id].ioc.source == source ==> cache[id].fetchedAt <= latest.value
        decreases todo
      {
        var id :| id in todo;
        if cache[id].ioc.source == source && (latest.None? || latest.value < cache[id].fetchedAt) {
          latest := Some(cache[id].fetchedAt);
        }
        todo := todo - {id};
      }
    }

    /** `ok` is false where a write raises. */
    method Store(source: string, recs: seq<Ioc>, now: int, storing: Storing) returns (ok: bool)
      modifies this`cache
      ensures ok <==> storing.Completed?
      ensures cache == StoredBy(old(cache), source, recs, Stamp(now), storing)
    {
      var all := Bulk(cache, source, recs, Stamp(now));
      if storing.BulkRaised? {
        cache := map id | id in all && (id in storing.landed || id in cache) :: if id in storing.landed then all[id] else cache[id];
        return false;
      }
      cache := all;
      if storing.PurgeRaised? {
        cache := map id | id in all && !(all[id].ioc.source == source && all[id].fetchedAt != Stamp(now) && id in storing.purged) :: all[id];
        return false;
      }
      cache := map id | id in all && !(all[id].ioc.source == source && all[id].fetchedAt != Stamp(now)) :: all[id];
      ok := true;
    }

    /** Files one hit in the three dictionaries. */
    method AddHit(r: Ioc)
      modifies this`urls, this`hosts, this`hashes
      ensures Indexes(urls, hosts, hashes) == AddIoc(old(Indexes(urls, hosts, hashes)), r)
    {
      if r.iocType.Url? {
        urls := urls[r.value := r];
      } else if r.iocType.Hash? {
        hashes := hashes[r.value := r];
      }
      if r.host != "" {
        hosts := hosts[r.host := Under(hosts, r.host) + [r]];
      }
    }

    /** The indexes hold the documents under `keys`. */
    ghost predicate Holds(keys: seq<Key>)
      reads this
    {
      Indexes(urls, hosts, hashes) == IndexesOf(cache, keys)
    }

    method AddHits(keys: seq<Key>, ghost before: seq<Key>)
      requires Holds(before) && FiledKeys(cache, keys)
      modifies this`urls, this`hosts, this`hashes
      ensures Holds(before + keys)
    {
      assert before + keys[..0] == before;
      for i := 0 to |keys|
        invariant Holds(before + keys[..i])
      {
        ghost var done, longer := before + keys[..i], before + keys[..i + 1];
        assert longer == done + [keys[i]] && longer[..|done|] == done;
        AddHit(Fetch(cache, keys[i]));
      }
      assert keys[..|keys|] == keys;
    }

    /** `all` are the keys in sort order. */
    ghost predicate Lists(all: seq<Key>)
      reads this
    {
      all == InOrder(Keys(cache)) && FiledKeys(cache, all)
    }

    /** Searches for one page of documents in sort order. */
    method SearchPage(after: Option<Key>, size: nat, ghost all: seq<Key>, ghost count: nat) returns (page: seq<Key>)
      requires Lists(all) && AtCursor(all, after, count)
      ensures |page| == Min(size, |all| - count) && page == all[count..count + |page|]
      ensures page != [] ==> AtCursor(all, Some(page[|page| - 1]), count + |page|)
    {
      var keys := set id | id in cache :: KeyOf(cache[id].ioc);
      assert keys == Keys(cache);
      page := Page(keys, after, size);
      ghost var k := Min(size, |all| - count);
      CursorRest(cache, all, after, count);
      ghost var rest := all[count..];
      assert page == Take(rest, size) == rest[..k];
      assert rest[..k] == all[count..count + k];
    }

    /** `ok` is false where a search raises. */
    method LoadIndexes(load: Loading) returns (ok: bool)
      requires Filed(cache)
      modifies this`urls, this`hosts, this`hashes, this`loaded
      ensures Load(old(Current()), load) == Current().(raised := if ok then raised else true)
    {
      urls, hosts, hashes := map[], map[], map[];
      ghost var all := InOrder(Keys(cache));
      KeysInOrder(cache);
      LoadMeans(old(Current()), load, all);
      var more := ReadPages(all, StopsAt(load));
      ok := !(more && load.BrokenAfter? && StopsAt(load) < LOAD_CAP);
      loaded := loaded || ok;
    }

    /** Reads page after page until `cap` documents or the last; tells whether it would have searched on. */
    method ReadPages(ghost all: seq<Key>, cap: nat) returns (more: bool)
      requires Lists(all) && Holds([])
      modifies this`urls, this`hosts, this`hashes
      ensures Holds(Take(all, cap)) && (more <==> cap <= |all|)
    {
      var after: Option<Key> := None;
      var count := 0;
      assert all[..0] == [];
      while count < cap
        invariant count <= cap && Lists(all) && AtCursor(all, after, count) && Holds(all[..count])
        decreases cap - count
      {
        var size := Min(LOAD_PAGE, cap - count);
        var page := LoadPage(after, size, all, count);
        if page == [] {
          break;
        }
        count := count + |page|;
        after := Some(page[|page| - 1]);
        if |page| < size {
          break;
        }
      }
      assert all[..count] == Take(all, cap);
      more := count == cap;
    }

    /** Searches for one page and adds its documents to the indexes. */
    method LoadPage(after: Option<Key>, size: nat, ghost all: seq<Key>, ghost count: nat) returns (page: seq<Key>)
      requires Lists(all) && AtCursor(all, after, count) && Holds(all[..count])
      modifies this`urls, this`hosts, this`hashes
      ensures |page| == Min(size, |all| - count) && Holds(all[..count + |page|])
      ensures page != [] ==> AtCursor(all, Some(page[|page| - 1]), count + |page|)
    {
      page := SearchPage(after, size, all, count);
      AddHits(page, all[..count]);
      assert all[..count] + page == all[..count + |page|];
    }

    /** `raised` tells whether the refresh raised, which ends the pass. */
    method Refresh(r: Round)
      requires Filed(cache) && ValidRound(hostName, cfg, r)
      modifies this
      ensures Current() == RefreshStep(old(Current()), cfg, r)
    {
      if !enabled {
        return;
      }
      RefreshFeeds(r);
      if raised {
        return;
      }
      if changed || !loaded {
        var ok := LoadIndexes(r.load);
        raised := !ok;
      }
    }

    /** The loop over the feeds, up to one that raises. */
    method RefreshFeeds(r: Round)
      requires Filed(cache) && ValidRound(hostName, cfg, r)
      modifies this`cache, this`enabled, this`changed, this`raised, this`last
      ensures Filed(cache) && Current() == FeedSteps(old(Current()), cfg, r, |cfg.feeds|)
    {
      ghost var s0 := Current();
      changed, raised := false, false;
      var i := 0;
      while i < |cfg.feeds|
        invariant i <= |cfg.feeds| && Filed(cache) && !raised
        invariant Current() == FeedSteps(s0, cfg, r, i)
      {
        RefreshFeed(cfg.feeds[i], r.now, r.stamps(i), r.fetched(i), r.stores(i));
        i := i + 1;
        if raised {
          RaisedStays(s0, cfg, r, i);
          return;
        }
      }
    }

    method RefreshFeed(source: string, now: int, search: StampSearch, fetched: Fetched, storing: Storing)
      requires Filed(cache) && !raised && (fetched.Downloaded? ==> FromFeed(source, fetched.recs))
      modifies this`cache, this`enabled, this`changed, this`raised, this`last
      ensures Filed(cache)
      ensures Current() == FeedStep(old(Current()), source, now, cfg.ttlHours, search, fetched, storing)
    {
      var latest, ok := LatestFetched(source, search);
      if !ok {
        raised := true;
        return;
      }
      if latest.Some? && now - latest.value < cfg.ttlHours * HOUR {
        return;
      }
      match fetched
      case Skipped =>
      case Unauthorized => enabled := false;
      case Garbled => raised := true;
      case Downloaded(recs) =>
        StoredByFiled(cache, source, recs, Stamp(now), storing);
        ok := Store(source, recs, now, storing);
        if !ok {
          raised := true;
          return;
        }
        last := last[source := Contents(recs)];
        changed := true;
    }

    method MatchEntity(q: Query) returns (m: Match)
      ensures m == Aggregate(Hits(hostName, Indexes(urls, hosts, hashes), q))
    {
      var hits: set<Ioc> := {};
      var todo := q.urls;
      while todo != {}
        invariant todo <= q.urls
        invariant hits == set u | u in q.urls - todo && Lower(u) in urls :: urls[Lower(u)]
        decreases todo
      {
        var u :| u in todo;
        if Lower(u) in urls {
          hits := hits + {urls[Lower(u)]};
        }
        todo := todo - {u};
      }
      assert q.urls - todo == q.urls;
      var byHost := HostHits(CandidateHosts(hostName, q));
      var byHash := HashHits(q.shas);
      hits := hits + byHost + byHash;
      m := Aggregate(hits);
    }

    method HostHits(candidates: set<string>) returns (hits: set<Ioc>)
      ensures hits == set h, r | h in candidates && r in Under(hosts, h) :: r
    {
      hits := {};
      var todo := candidates;
      while todo != {}
        invariant todo <= candidates
        invariant hits == set h, r | h in candidates - todo && r in Under(hosts, h) :: r
        decreases todo
      {
        var h :| h in todo;
        hits := hits + set r | r in Under(hosts, h);
        todo := todo - {h};
      }
      assert candidates - todo == candidates;
    }

    method HashHits(shas: set<string>) returns (hits: set<Ioc>)
      ensures hits == set s | s in shas && Lower(s) in hashes :: hashes[Lower(s)]
    {
      hits := {};
      var todo := shas;
      while todo != {}
        invariant todo <= shas
        invariant hits == set s | s in shas - todo && Lower(s) in hashes :: hashes[Lower(s)]
        decreases todo
      {
        var s :| s in todo;
        if Lower(s) in hashes {
          hits := hits + {hashes[Lower(s)]};
        }
        todo := todo - {s};
      }
      assert shas - todo == shas;
    }
  }
}
