/** What one refresh of the intel matcher does to each feed, and what a match then says. */
module IntelRefresh {
  import opened Bytes
  import opened Times
  import opened Search
  import opened Intel
  import opened IntelCache

  // ---- When a feed is downloaded -----------------------------------------------

  /** A feed is stale when its newest document is at least the time to live old, counted in whole hours of 3 600 000
      milliseconds, or when it has none. */
  lemma StaleExactlyWhen(cache: Cache, source: string, now: int, ttlHours: int, newest: string)
    requires newest in cache && cache[newest].ioc.source == source
    requires forall id :: id in cache && cache[id].ioc.source == source ==> cache[id].fetchedAt <= cache[newest].fetchedAt
    ensures IsStale(cache, source, now, ttlHours) <==> now - cache[newest].fetchedAt >= ttlHours * 3_600_000
    ensures IsStale(map[], source, now, ttlHours)
  {
  }

  lemma PartDecidesStale(a: Cache, b: Cache, source: string, now: int, ttlHours: int)
    requires FeedPart(a, source) == FeedPart(b, source)
    ensures IsStale(a, source, now, ttlHours) <==> IsStale(b, source, now, ttlHours)
  {
    forall id
      ensures id in a && a[id].ioc.source == source <==> id in b && b[id].ioc.source == source
      ensures id in a && a[id].ioc.source == source ==> a[id] == b[id]
    {
      assert id in FeedPart(a, source) <==> id in FeedPart(b, source);
      assert id in FeedPart(a, source) ==> FeedPart(a, source)[id] == FeedPart(b, source)[id];
    }
  }

  lemma PartDecidesContents(a: Cache, b: Cache, source: string)
    requires FeedPart(a, source) == FeedPart(b, source)
    ensures CachedFrom(a, source) == CachedFrom(b, source)
  {
    forall r
      ensures r in CachedFrom(a, source) <==> r in CachedFrom(b, source)
    {
      if r in CachedFrom(a, source) {
        var id :| id in a && a[id].ioc.source == source && a[id].ioc == r;
        assert id in FeedPart(a, source) && FeedPart(b, source)[id] == a[id];
      }
      if r in CachedFrom(b, source) {
        var id :| id in b && b[id].ioc.source == source && b[id].ioc == r;
        assert id in FeedPart(b, source) && FeedPart(a, source)[id] == b[id];
      }
    }
  }

  predicate ListedOnce(feeds: seq<string>, i: nat)
    requires i < |feeds|
  {
    forall j :: 0 <= j < |feeds| && j != i ==> feeds[j] != feeds[i]
  }

  /** Handling other feeds leaves this one's documents. */
  lemma {:induction false} OtherStepsStay(hostName: HostName, s: State, cfg: Config, r: Round, source: string, a: nat, b: nat)
    requires Sound(hostName, s) && ValidRound(hostName, cfg, r) && NoColon(source) && a <= b <= |cfg.feeds|
    requires forall j :: a <= j < b ==> cfg.feeds[j] != source
    ensures FeedPart(FeedSteps(s, cfg, r, b).cache, source) == FeedPart(FeedSteps(s, cfg, r, a).cache, source)
    decreases b
  {
    if a < b {
      OtherStepsStay(hostName, s, cfg, r, source, a, b - 1);
      StepsFiled(hostName, s, cfg, r, b - 1);
      OtherStepStays(FeedSteps(s, cfg, r, b - 1), cfg, r, b - 1, source);
      StepsTo(s, cfg, r, b - 1);
    }
  }

  lemma StepsFiled(hostName: HostName, s: State, cfg: Config, r: Round, n: nat)
    requires Sound(hostName, s) && ValidRound(hostName, cfg, r) && n <= |cfg.feeds|
    ensures Filed(FeedSteps(s, cfg, r, n).cache)
  {
    FeedStepsSound(hostName, s, cfg, r, n);
  }

  lemma StepsTo(s: State, cfg: Config, r: Round, n: nat)
    requires n < |cfg.feeds|
    ensures FeedSteps(s, cfg, r, n + 1) == FeedAt(FeedSteps(s, cfg, r, n), cfg, r, n)
  {
  }

  lemma OtherStepStays(s: State, cfg: Config, r: Round, j: nat, source: string)
    requires Filed(s.cache) && j < |cfg.feeds| && cfg.feeds[j] != source && NoColon(source)
    requires r.fetched(j).Downloaded? ==> FromFeed(cfg.feeds[j], r.fetched(j).recs)
    ensures FeedPart(FeedAt(s, cfg, r, j).cache, source) == FeedPart(s.cache, source)
  {
    if Downloads(s, cfg, r, j) {
      OtherFeedsStay(s.cache, cfg.feeds[j], r.fetched(j).recs, Stamp(r.now), r.stores(j), source);
    } else {
      assert FeedAt(s, cfg, r, j).cache == s.cache;
    }
  }

  lemma {:induction false} NothingRaised(s: State, cfg: Config, r: Round, n: nat)
    requires RoundPermitted(s, cfg, r, NO_FAULTS) && n <= |cfg.feeds|
    ensures !FeedSteps(s, cfg, r, n).raised
  {
    if n > 0 {
      NothingRaised(s, cfg, r, n - 1);
      assert FeedPermitted(FeedSteps(s, cfg, r, n - 1), cfg, r, n - 1, NO_FAULTS);
    }
  }

  lemma StepKeepsChanged(s: State, cfg: Config, r: Round, i: nat)
    requires i < |cfg.feeds| && s.changed
    ensures FeedAt(s, cfg, r, i).changed
  {
  }

  lemma {:induction false} ChangedStays(s: State, cfg: Config, r: Round, a: nat, b: nat)
    requires a <= b <= |cfg.feeds| && FeedSteps(s, cfg, r, a).changed
    ensures FeedSteps(s, cfg, r, b).changed
    decreases b
  {
    if a < b {
      ChangedStays(s, cfg, r, a, b - 1);
      StepsTo(s, cfg, r, b - 1);
      StepKeepsChanged(FeedSteps(s, cfg, r, b - 1), cfg, r, b - 1);
    }
  }

  /** In a refresh without faults a feed that is stale, or whose stamp search is refused, and that can be downloaded is
      replaced by its download, and the dictionaries in memory are rebuilt from the whole cache. */
  lemma StaleFeedIsReplaced(hostName: HostName, s: State, cfg: Config, r: Round, i: nat)
    requires Sound(hostName, s) && ValidRound(hostName, cfg, r) && cfg.ttlHours > 0
    requires s.enabled && RoundPermitted(s, cfg, r, NO_FAULTS)
    requires i < |cfg.feeds| && ListedOnce(cfg.feeds, i) && r.fetched(i).Downloaded?
    requires r.stamps(i).Refused? || IsStale(s.cache, cfg.feeds[i], r.now, cfg.ttlHours)
    ensures var s' := RefreshStep(s, cfg, r);
            && CachedFrom(s'.cache, cfg.feeds[i]) == Contents(r.fetched(i).recs)
            && s'.indexes == Build(LoadOrder(s'.cache)) && s'.loaded && !s'.raised
  {
    StaleFeedIsStored(hostName, s, cfg, r, cfg.feeds[i], i);
    NothingRaised(s, cfg, r, |cfg.feeds|);
    LoadsChanged(s, FeedSteps(s, cfg, r, |cfg.feeds|), cfg, r);
  }

  lemma LoadsChanged(s: State, s1: State, cfg: Config, r: Round)
    requires s.enabled && s1 == FeedSteps(s, cfg, r, |cfg.feeds|) && !s1.raised && s1.changed && r.load.AllAnswered?
    ensures var s' := RefreshStep(s, cfg, r);
            s'.cache == s1.cache && s'.indexes == Build(LoadOrder(s1.cache)) && s'.loaded && !s'.raised
  {
  }

  lemma StaleFeedIsStored(hostName: HostName, s: State, cfg: Config, r: Round, source: string, i: nat)
    requires Sound(hostName, s) && ValidRound(hostName, cfg, r) && cfg.ttlHours > 0
    requires RoundPermitted(s, cfg, r, NO_FAULTS)
    requires i < |cfg.feeds| && ListedOnce(cfg.feeds, i) && source == cfg.feeds[i] && r.fetched(i).Downloaded?
    requires r.stamps(i).Refused? || IsStale(s.cache, source, r.now, cfg.ttlHours)
    ensures var s1 := FeedSteps(s, cfg, r, |cfg.feeds|);
            s1.changed && CachedFrom(s1.cache, source) == Contents(r.fetched(i).recs)
  {
    NothingRaised(s, cfg, r, i);
    FeedStepsSound(hostName, s, cfg, r, i);
    OtherStepsStay(hostName, s, cfg, r, source, 0, i);
    StaleIsReplacedAt(s, FeedSteps(s, cfg, r, i), cfg, r, source, i);
    StepsTo(s, cfg, r, i);
    LaterStepsKeep(hostName, s, cfg, r, source, i + 1);
  }

  lemma LaterStepsKeep(hostName: HostName, s: State, cfg: Config, r: Round, source: string, a: nat)
    requires Sound(hostName, s) && ValidRound(hostName, cfg, r) && NoColon(source) && a <= |cfg.feeds|
    requires (forall j :: a <= j < |cfg.feeds| ==> cfg.feeds[j] != source) && FeedSteps(s, cfg, r, a).changed
    ensures FeedSteps(s, cfg, r, |cfg.feeds|).changed
    ensures CachedFrom(FeedSteps(s, cfg, r, |cfg.feeds|).cache, source) == CachedFrom(FeedSteps(s, cfg, r, a).cache, source)
  {
    OtherStepsStay(hostName, s, cfg, r, source, a, |cfg.feeds|);
    PartDecidesContents(FeedSteps(s, cfg, r, |cfg.feeds|).cache, FeedSteps(s, cfg, r, a).cache, source);
    ChangedStays(s, cfg, r, a, |cfg.feeds|);
  }

  lemma StaleIsReplacedAt(s: State, before: State, cfg: Config, r: Round, source: string, i: nat)
    requires i < |cfg.feeds| && source == cfg.feeds[i] && before == FeedSteps(s, cfg, r, i)
    requires RoundPermitted(s, cfg, r, NO_FAULTS) && cfg.ttlHours > 0
    requires Filed(before.cache) && !before.raised && FeedPart(before.cache, source) == FeedPart(s.cache, source)
    requires r.fetched(i).Downloaded? && FromFeed(source, r.fetched(i).recs)
    requires r.stamps(i).Refused? || IsStale(s.cache, source, r.now, cfg.ttlHours)
    ensures CachedFrom(FeedAt(before, cfg, r, i).cache, source) == Contents(r.fetched(i).recs)
    ensures FeedAt(before, cfg, r, i).changed
  {
    PartDecidesStale(before.cache, s.cache, source, r.now, cfg.ttlHours);
    assert FeedPermitted(before, cfg, r, i, NO_FAULTS);
    DownloadReplaces(before, cfg, r, i);
  }

  lemma DownloadReplaces(s: State, cfg: Config, r: Round, i: nat)
    requires Filed(s.cache) && cfg.ttlHours > 0 && i < |cfg.feeds| && !s.raised
    requires FeedPermitted(s, cfg, r, i, NO_FAULTS) && Downloads(s, cfg, r, i)
    requires FromFeed(cfg.feeds[i], r.fetched(i).recs)
    ensures CachedFrom(FeedAt(s, cfg, r, i).cache, cfg.feeds[i]) == Contents(r.fetched(i).recs)
    ensures FeedAt(s, cfg, r, i).changed
  {
    FreshStampDiffers(s.cache, cfg.feeds[i], r.fetched(i).recs, r.now, cfg.ttlHours);
    StoreReplacesExactlyWhen(s.cache, cfg.feeds[i], r.fetched(i).recs, Stamp(r.now));
  }

  // ---- A rejected key ----------------------------------------------------------

  /** Feed `i` is asked for in this refresh, and its server rejects the key. */
  ghost predicate Rejects(s: State, cfg: Config, r: Round, i: nat) {
    && i < |cfg.feeds| && r.fetched(i).Unauthorized?
    && var before := FeedSteps(s, cfg, r, i);
       && !before.raised && !r.stamps(i).Broken?
       && (r.stamps(i).Refused? || IsStale(before.cache, cfg.feeds[i], r.now, cfg.ttlHours))
  }

  lemma StepEnabled(s: State, cfg: Config, r: Round, n: nat)
    requires n < |cfg.feeds|
    ensures FeedSteps(s, cfg, r, n + 1).enabled <==> FeedSteps(s, cfg, r, n).enabled && !Rejects(s, cfg, r, n)
  {
    StepsTo(s, cfg, r, n);
  }

  lemma {:induction false} StaysDisabled(s: State, cfg: Config, r: Round, a: nat, b: nat)
    requires a <= b <= |cfg.feeds| && !FeedSteps(s, cfg, r, a).enabled
    ensures !FeedSteps(s, cfg, r, b).enabled
    decreases b
  {
    if a < b {
      StaysDisabled(s, cfg, r, a, b - 1);
      StepEnabled(s, cfg, r, b - 1);
    }
  }

  lemma {:induction false} SomeRejected(s: State, cfg: Config, r: Round, n: nat) returns (i: nat)
    requires n <= |cfg.feeds| && s.enabled && !FeedSteps(s, cfg, r, n).enabled
    ensures i < n && Rejects(s, cfg, r, i)
  {
    StepEnabled(s, cfg, r, n - 1);
    if FeedSteps(s, cfg, r, n - 1).enabled {
      i := n - 1;
    } else {
      i := SomeRejected(s, cfg, r, n - 1);
    }
  }

  /** Refreshes go on until some server rejects the key; from then on nothing changes any more. */
  lemma EnabledExactlyWhen(s: State, cfg: Config, r: Round)
    ensures RefreshStep(s, cfg, r).enabled <==> s.enabled && forall i: nat :: !Rejects(s, cfg, r, i)
    ensures !s.enabled ==> RefreshStep(s, cfg, r) == s
  {
    if s.enabled {
      RefreshEnabled(s, cfg, r);
      if !FeedSteps(s, cfg, r, |cfg.feeds|).enabled {
        var i := SomeRejected(s, cfg, r, |cfg.feeds|);
      } else if i: nat :| Rejects(s, cfg, r, i) {
        StepEnabled(s, cfg, r, i);
        StaysDisabled(s, cfg, r, i + 1, |cfg.feeds|);
      }
    }
  }

  lemma RefreshEnabled(s: State, cfg: Config, r: Round)
    requires s.enabled
    ensures RefreshStep(s, cfg, r).enabled == FeedSteps(s, cfg, r, |cfg.feeds|).enabled
  {
  }

  // ---- A refresh that raises -----------------------------------------------------

  /** The refresh comes to feed `i`, and its stamp search, its parser or its store raises. */
  ghost predicate Fails(s: State, cfg: Config, r: Round, i: nat) {
    && i < |cfg.feeds|
    && var before := FeedSteps(s, cfg, r, i);
       && !before.raised
       && (r.stamps(i).Broken?
           || ((r.stamps(i).Refused? || IsStale(before.cache, cfg.feeds[i], r.now, cfg.ttlHours))
               && (r.fetched(i).Garbled? || (r.fetched(i).Downloaded? && !r.stores(i).Completed?))))
  }

  lemma StepRaises(s: State, cfg: Config, r: Round, n: nat)
    requires n < |cfg.feeds|
    ensures FeedSteps(s, cfg, r, n + 1).raised <==> FeedSteps(s, cfg, r, n).raised || Fails(s, cfg, r, n)
  {
    StepsTo(s, cfg, r, n);
  }

  lemma {:induction false} SomeFails(s: State, cfg: Config, r: Round, n: nat) returns (i: nat)
    requires 0 < n <= |cfg.feeds| && FeedSteps(s, cfg, r, n).raised
    ensures i < n && Fails(s, cfg, r, i)
  {
    StepRaises(s, cfg, r, n - 1);
    if Fails(s, cfg, r, n - 1) {
      i := n - 1;
    } else {
      NotAtOnce(s, cfg, r);
      i := SomeFails(s, cfg, r, n - 1);
    }
  }

  lemma NotAtOnce(s: State, cfg: Config, r: Round)
    ensures !FeedSteps(s, cfg, r, 0).raised
  {
  }

  /** The part of a refresh before the load raises exactly if for some feed it comes to the stamp search, the parser or
      the store does; the load is then left out. */
  lemma RaisesExactlyWhen(s: State, cfg: Config, r: Round)
    requires s.enabled
    ensures FeedSteps(s, cfg, r, |cfg.feeds|).raised <==> exists i: nat :: Fails(s, cfg, r, i)
    ensures (exists i: nat :: Fails(s, cfg, r, i)) ==>
              RefreshStep(s, cfg, r).raised && RefreshStep(s, cfg, r).indexes == s.indexes && RefreshStep(s, cfg, r).loaded == s.loaded
  {
    var n := |cfg.feeds|;
    NotAtOnce(s, cfg, r);
    if FeedSteps(s, cfg, r, n).raised {
      var i := SomeFails(s, cfg, r, n);
      MemoryWaits(s, cfg, r, n);
      RaisedRefresh(s, cfg, r);
    } else if i: nat :| Fails(s, cfg, r, i) {
      StepRaises(s, cfg, r, i);
      RaisedStays(s, cfg, r, i + 1);
    }
  }

  lemma RaisedRefresh(s: State, cfg: Config, r: Round)
    requires s.enabled && FeedSteps(s, cfg, r, |cfg.feeds|).raised
    ensures RefreshStep(s, cfg, r) == FeedSteps(s, cfg, r, |cfg.feeds|)
  {
  }

  /** The feeds leave the dictionaries alone. */
  lemma {:induction false} MemoryWaits(s: State, cfg: Config, r: Round, n: nat)
    requires n <= |cfg.feeds|
    ensures FeedSteps(s, cfg, r, n).indexes == s.indexes && FeedSteps(s, cfg, r, n).loaded == s.loaded
  {
    if n == 0 {
      assert FeedSteps(s, cfg, r, 0) == s.(changed := false, raised := false);
    } else {
      MemoryWaits(s, cfg, r, n - 1);
      StepsTo(s, cfg, r, n - 1);
      StepKeepsMemory(FeedSteps(s, cfg, r, n - 1), cfg, r, n - 1);
    }
  }

  lemma StepKeepsMemory(s: State, cfg: Config, r: Round, i: nat)
    requires i < |cfg.feeds|
    ensures FeedAt(s, cfg, r, i).indexes == s.indexes && FeedAt(s, cfg, r, i).loaded == s.loaded
  {
  }

  // ---- The order of a load -----------------------------------------------------

  lemma PairLess(a: string, b: string, c: string, d: string)
    requires KeyLess([a, b], [c, d])
    ensures StringLess(a, c) || (a == c && StringLess(b, d))
  {
    if !StringLess(a, c) {
      assert [a, b][1..] == [b] && [c, d][1..] == [d];
      assert KeyLess([b], [d]);
      assert [b][1..] == [] && [d][1..] == [];
      assert !KeyLess([], []);
    }
  }

  /** Indicators are loaded by value, and those of one value by feed. */
  lemma LoadIsOrdered(cache: Cache, i: nat, j: nat)
    requires Filed(cache) && i < j < |LoadOrder(cache)|
    ensures var a, b := LoadOrder(cache)[i], LoadOrder(cache)[j];
            StringLess(a.value, b.value) || (a.value == b.value && StringLess(a.source, b.source))
  {
    LoadedAt(cache, i);
    LoadedAt(cache, j);
    KeysInOrder(cache);
    var a, b := LoadOrder(cache)[i], LoadOrder(cache)[j];
    PairLess(a.value, a.source, b.value, b.source);
    assert KeyLess(KeyOf(a), KeyOf(b));
  }

  // ---- What a match says -------------------------------------------------------

  /** `r` is in its feed's last download and corroborates the entity. */
  ghost predicate Vouches(hostName: HostName, s: State, q: Query, r: Ioc) {
    NoColon(r.source) && r in LastDownload(s, r.source) && Corroborates(hostName, r, q)
  }

  /** End to end: a match names the feeds whose last download corroborates the entity, and just their malware names
      and tags for it. */
  lemma MatchSays(hostName: HostName, cfg: Config, rounds: seq<Round>, q: Query)
    requires CaseBlind(hostName) && cfg.ttlHours > 0 && ValidRounds(hostName, cfg, rounds)
    requires Permitted(cfg, rounds, NO_FAULTS)
    requires var s := IntelCache.After(cfg, rounds);
             s.loaded && |s.cache| <= LOAD_CAP && forall i, j :: !Hides(LoadOrder(s.cache), i, j)
    ensures var s := IntelCache.After(cfg, rounds);
            var m := Aggregate(Hits(hostName, s.indexes, q));
            && (forall f :: f in m.sources <==> exists r :: Vouches(hostName, s, q, r) && r.source == f)
            && (forall n :: n in m.malware <==> exists r :: Vouches(hostName, s, q, r) && n in r.malware)
            && (forall t :: t in m.tags <==> exists r :: Vouches(hostName, s, q, r) && t in r.tags)
  {
    var s := IntelCache.After(cfg, rounds);
    var hits := Hits(hostName, s.indexes, q);
    forall r
      ensures r in hits <==> Vouches(hostName, s, q, r)
    {
      MatchesLastDownloads(hostName, cfg, rounds, q, r);
    }
    AggregateMeans(hits);
  }

  lemma AggregateMeans(hits: set<Ioc>)
    ensures var m := Aggregate(hits);
            && (forall f :: f in m.sources <==> exists r :: r in hits && r.source == f)
            && (forall n :: n in m.malware <==> exists r :: r in hits && n in r.malware)
            && (forall t :: t in m.tags <==> exists r :: r in hits && t in r.tags)
  {
  }
}
