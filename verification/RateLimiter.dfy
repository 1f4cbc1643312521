/** The sliding-window limiter on outbound requests. */
module RateLimiter {
  import opened Bytes

  type Key = string

  type Tracker = map<Key, seq<real>>

  datatype Config = Config(enabled: bool, maxRequests: int, window: real, maxKeys: int)

  datatype State = State(tracker: Tracker, lastCleanup: real)

  /** The timestamps still inside the window at `now`. */
  function Recent(ts: seq<real>, now: real, window: real): (r: seq<real>)
    ensures |r| <= |ts|
  {
    if ts == [] then []
    else (if now - ts[0] < window then [ts[0]] else []) + Recent(ts[1..], now, window)
  }

  /** A `defaultdict(list)` lookup. */
  function Entries(tr: Tracker, key: Key): seq<real> {
    if key in tr then tr[key] else []
  }

  function Cleaned(tr: Tracker, now: real, window: real): Tracker {
    map k | k in tr && Recent(tr[k], now, window) != [] :: Recent(tr[k], now, window)
  }

  /** Most recent activity; 0 for a key without timestamps. */
  function Latest(ts: seq<real>): real {
    if ts == [] then 0.0
    else if |ts| == 1 then ts[0]
    else var rest := Latest(ts[1..]); if rest < ts[0] then ts[0] else rest
  }

  function EvictCount(n: nat): nat {
    Max(1, n / 10)
  }

  /** `gone` is a least recently active tenth of the keys; which of several equally old keys go is left open. */
  ghost predicate Evicts(tr: Tracker, gone: set<Key>) {
    && gone <= tr.Keys
    && |gone| == EvictCount(|tr|)
    && forall k, j :: k in gone && j in tr && j !in gone ==> Latest(tr[k]) <= Latest(tr[j])
  }

  function Tidied(cfg: Config, s: State, now: real): State {
    if now - s.lastCleanup > cfg.window then State(Cleaned(s.tracker, now, cfg.window), now) else s
  }

  /** The tracker after the clean-ups of `check`, before any eviction. */
  function Observed(cfg: Config, s: State, key: Key, now: real): Tracker {
    var tr := Tidied(cfg, s, now).tracker;
    tr[key := Recent(Entries(tr, key), now, cfg.window)]
  }

  /** The record of `key` after a decision; reading it re-creates an evicted key. */
  function Recorded(cfg: Config, tr: Tracker, key: Key, now: real): seq<real> {
    var mine := Entries(tr, key);
    if |mine| < cfg.maxRequests then mine + [now] else mine
  }

  /** One call of `check(key)` at time `now` that evicts the keys `gone`. */
  ghost predicate CheckStep(cfg: Config, s: State, key: Key, now: real, gone: set<Key>, s': State, granted: bool) {
    if !cfg.enabled then
      granted && s' == s && gone == {}
    else
      var tr := Observed(cfg, s, key, now);
      && (if |tr| > cfg.maxKeys then Evicts(tr, gone) else gone == {})
      && granted == (|Entries(tr - gone, key)| < cfg.maxRequests)
      && s' == State((tr - gone)[key := Recorded(cfg, tr - gone, key, now)], Tidied(cfg, s, now).lastCleanup)
  }

  // ---- The limiter object --------------------------------------------------

  lemma LeastActiveExists(keys: set<Key>, latest: map<Key, real>) returns (least: Key)
    requires keys != {} && keys <= latest.Keys
    ensures least in keys && forall j :: j in keys ==> latest[least] <= latest[j]
  {
    least :| least in keys;
    if keys != {least} {
      assert keys - {least} < keys;
      var other := LeastActiveExists(keys - {least}, latest);
      if latest[other] < latest[least] {
        least := other;
      }
    }
  }

  lemma MapMinusSize(m: Tracker, gone: set<Key>)
    requires gone <= m.Keys
    ensures |m - gone| == |m| - |gone|
  {
    assert (m - gone).Keys == m.Keys - gone;
    assert |m.Keys - gone| == |m.Keys| - |gone|;
  }

  lemma SubsetSize(a: set<Key>, b: set<Key>)
    requires a <= b
    ensures |a| <= |b|
  {
    assert |b - a| == |b| - |a|;
  }

  function First(keys: seq<Key>, n: nat): set<Key>
    requires n <= |keys|
  {
    set i | 0 <= i < n :: keys[i]
  }

  /** All keys of `latest` once, least recent first. */
  ghost predicate ByActivity(latest: map<Key, real>, sorted: seq<Key>) {
    && (forall k :: k in sorted <==> k in latest)
    && (forall i, j :: 0 <= i < j < |sorted| ==> sorted[i] != sorted[j])
    && (forall i, j :: 0 <= i < j < |sorted| ==> latest[sorted[i]] <= latest[sorted[j]])
  }

  lemma {:induction false} FirstSize(keys: seq<Key>, n: nat)
    requires n <= |keys| && forall i, j :: 0 <= i < j < |keys| ==> keys[i] != keys[j]
    ensures |First(keys, n)| == n
  {
    if n > 0 {
      FirstSize(keys, n - 1);
      assert First(keys, n) == First(keys, n - 1) + {keys[n - 1]};
    }
  }

  lemma SortedSize(latest: map<Key, real>, sorted: seq<Key>)
    requires ByActivity(latest, sorted)
    ensures |sorted| == |latest|
  {
    FirstSize(sorted, |sorted|);
    assert First(sorted, |sorted|) == latest.Keys;
  }

  lemma SortedPrefixEvicts(tr: Tracker, latest: map<Key, real>, sorted: seq<Key>, n: nat)
    requires latest.Keys == tr.Keys && forall k :: k in tr ==> latest[k] == Latest(tr[k])
    requires ByActivity(latest, sorted)
    requires n == EvictCount(|tr|) <= |sorted|
    ensures Evicts(tr, First(sorted, n))
  {
    FirstSize(sorted, n);
    var gone := First(sorted, n);
    forall k | k in gone ensures k in tr {
      assert k in sorted;
    }
    forall k, j | k in gone && j in tr && j !in gone ensures Latest(tr[k]) <= Latest(tr[j]) {
      var a :| 0 <= a < n && sorted[a] == k;
      assert j in sorted;
      var b :| 0 <= b < |sorted| && sorted[b] == j;
    }
  }

  class RateLimiter {
    const enabled: bool
    const maxRequests: int
    const window: real
    const maxKeys: int
    var requestTracker: Tracker
    var lastCleanup: real

    function Cfg(): Config {
      Config(enabled, maxRequests, window, maxKeys)
    }

    function Current(): State
      reads this
    {
      State(requestTracker, lastCleanup)
    }

    constructor (enabled: bool, maxRequests: int, window: real, maxKeys: int, now: real)
      ensures Cfg() == Config(enabled, maxRequests, window, maxKeys)
      ensures Current() == State(map[], now)
    {
      this.enabled, this.maxRequests, this.window, this.maxKeys := enabled, maxRequests, window, maxKeys;
      requestTracker, lastCleanup := map[], now;
    }

    method Check(key: Key, now: real) returns (granted: bool, ghost gone: set<Key>)
      modifies this
      ensures CheckStep(Cfg(), old(Current()), key, now, gone, Current(), granted)
    {
      gone := {};
      if !enabled {
        return true, {};
      }
      Tidy(now);
      requestTracker := requestTracker[key := Recent(Entries(requestTracker, key), now, window)];
      ghost var tr := requestTracker;
      assert tr == Observed(Cfg(), old(Current()), key, now);
      if |requestTracker| > maxKeys {
        gone := RemoveOldestKeys();
      }
      assert requestTracker == tr - gone;
      granted := Decide(key, now);
    }

    /** The periodic global clean-up. */
    method Tidy(now: real)
      modifies this
      ensures Current() == Tidied(Cfg(), old(Current()), now)
    {
      if now - lastCleanup > window {
        CleanupAll(now);
        lastCleanup := now;
      }
    }

    /** Compares the record of `key` with the limit and records a grant. */
    method Decide(key: Key, now: real) returns (granted: bool)
      modifies this`requestTracker
      ensures granted == (|Entries(old(requestTracker), key)| < maxRequests)
      ensures requestTracker == old(requestTracker)[key := Recorded(Cfg(), old(requestTracker), key, now)]
    {
      var mine := Entries(requestTracker, key);
      requestTracker := requestTracker[key := mine];
      if |mine| >= maxRequests {
        return false;
      }
      requestTracker := requestTracker[key := mine + [now]];
      return true;
    }

    method CleanupAll(now: real)
      modifies this`requestTracker
      ensures requestTracker == Cleaned(old(requestTracker), now, window)
    {
      var todo, emptyKeys := requestTracker.Keys, {};
      ghost var was := requestTracker;
      while todo != {}
        invariant todo <= requestTracker.Keys == was.Keys
        invariant forall k :: k in todo ==> requestTracker[k] == was[k]
        invariant forall k :: k in was && k !in todo ==> requestTracker[k] == Recent(was[k], now, window)
        invariant forall k :: k in emptyKeys <==> k in was && k !in todo && requestTracker[k] == []
        decreases todo
      {
        var k :| k in todo;
        requestTracker := requestTracker[k := Recent(requestTracker[k], now, window)];
        if requestTracker[k] == [] {
          emptyKeys := emptyKeys + {k};
        }
        todo := todo - {k};
      }
      requestTracker := requestTracker - emptyKeys;
    }

    method RemoveOldestKeys() returns (ghost gone: set<Key>)
      requires requestTracker != map[]
      modifies this`requestTracker
      ensures Evicts(old(requestTracker), gone)
      ensures requestTracker == old(requestTracker) - gone
    {
      var latest := map k | k in requestTracker :: Latest(requestTracker[k]);
      assert latest.Keys == requestTracker.Keys;
      var sorted := SortedByActivity(latest);
      SortedSize(latest, sorted);
      var n := EvictCount(|sorted|);
      gone := First(sorted, n);
      SortedPrefixEvicts(requestTracker, latest, sorted, n);
      DeleteFirst(sorted, n);
    }

    method DeleteFirst(keys: seq<Key>, n: nat)
      requires n <= |keys|
      modifies this`requestTracker
      ensures requestTracker == old(requestTracker) - First(keys, n)
    {
      for i := 0 to n
        invariant requestTracker == old(requestTracker) - First(keys, i)
      {
        requestTracker := requestTracker - {keys[i]};
        assert First(keys, i + 1) == First(keys, i) + {keys[i]};
      }
    }

    /** `sorted(latest.items(), key=...)`. */
    method SortedByActivity(latest: map<Key, real>) returns (sorted: seq<Key>)
      ensures ByActivity(latest, sorted)
    {
      sorted := [];
      var rest := latest.Keys;
      while rest != {}
        invariant rest <= latest.Keys
        invariant forall k :: k in latest <==> k in sorted || k in rest
        invariant forall k :: k in sorted ==> k !in rest
        invariant forall i, j :: 0 <= i < j < |sorted| ==> sorted[i] != sorted[j]
        invariant forall i, j :: 0 <= i < j < |sorted| ==> latest[sorted[i]] <= latest[sorted[j]]
        invariant forall k, j :: k in sorted && j in rest ==> latest[k] <= latest[j]
        decreases rest
      {
        ghost var first := LeastActiveExists(rest, latest);
        var least :| least in rest && forall j :: j in rest ==> latest[least] <= latest[j];
        sorted := sorted + [least];
        rest := rest - {least};
      }
    }
  }

  // ---- Runs and their history ----------------------------------------------

  datatype Event = Event(key: Key, now: real, gone: set<Key>, granted: bool)

  /** The `i`th event of a run is one call of `check`. */
  ghost predicate StepAt(cfg: Config, states: seq<State>, events: seq<Event>, i: nat)
    requires i + 1 < |states| && i < |events|
  {
    var e := events[i];
    CheckStep(cfg, states[i], e.key, e.now, e.gone, states[i + 1], e.granted)
  }

  /** A run under a clock that never goes back. */
  ghost predicate Run(cfg: Config, states: seq<State>, events: seq<Event>) {
    && |states| == |events| + 1
    && states[0].tracker == map[]
    && (forall i :: 0 <= i < |events| ==> StepAt(cfg, states, events, i))
    && (forall i, j :: 0 <= i < j < |events| ==> events[i].now <= events[j].now)
  }

  /** What a limiter with an unbounded memory would have on record: every grant to `key`. */
  function Grants(events: seq<Event>, key: Key): seq<real> {
    if events == [] then []
    else
      var before, e := Grants(events[..|events| - 1], key), events[|events| - 1];
      if e.key == key && e.granted then before + [e.now] else before
  }

  /** `key` was evicted at time `from` or later. */
  ghost predicate EvictedSince(events: seq<Event>, key: Key, from: real) {
    exists j :: 0 <= j < |events| && key in events[j].gone && from <= events[j].now
  }

  ghost predicate Sorted(ts: seq<real>) {
    forall i, j :: 0 <= i < j < |ts| ==> ts[i] <= ts[j]
  }

  lemma {:induction false} RecentAll(ts: seq<real>, now: real, window: real)
    requires forall i :: 0 <= i < |ts| ==> now - ts[i] < window
    ensures Recent(ts, now, window) == ts
  {
    if ts != [] {
      RecentAll(ts[1..], now, window);
    }
  }

  /** On sorted timestamps the filter drops a prefix. */
  lemma {:induction false} RecentCuts(ts: seq<real>, now: real, window: real) returns (cut: nat)
    requires Sorted(ts)
    ensures cut <= |ts| && Recent(ts, now, window) == ts[cut..]
    ensures forall i :: 0 <= i < cut ==> now - ts[i] >= window
    ensures forall i :: cut <= i < |ts| ==> now - ts[i] < window
  {
    cut := 0;
    if ts != [] {
      if now - ts[0] < window {
        RecentAll(ts, now, window);
      } else {
        var rest := RecentCuts(ts[1..], now, window);
        cut := rest + 1;
        assert ts[1..][rest..] == ts[cut..];
        forall i | 0 <= i < |ts|
          ensures i < cut ==> now - ts[i] >= window
          ensures i >= cut ==> now - ts[i] < window
        {
          if i > 0 {
            assert ts[i] == ts[1..][i - 1];
          }
        }
      }
    }
  }

  lemma {:induction false} RecentTwice(ts: seq<real>, now: real, later: real, window: real)
    requires now <= later
    ensures Recent(Recent(ts, now, window), later, window) == Recent(ts, later, window)
  {
    if ts != [] {
      RecentTwice(ts[1..], now, later, window);
      var kept := Recent(ts[1..], now, window);
      if now - ts[0] < window {
        assert ([ts[0]] + kept)[1..] == kept;
      } else {
        assert [] + kept == kept;
      }
    }
  }

  /** The periodic cleanup changes no decision: every key has the same live timestamps afterwards. */
  lemma CleanupInvisible(tr: Tracker, now: real, window: real, key: Key, later: real)
    requires now <= later
    ensures Recent(Entries(Cleaned(tr, now, window), key), later, window) == Recent(Entries(tr, key), later, window)
  {
    RecentTwice(Entries(tr, key), now, later, window);
  }

  /** The clean-up comes when more than a window has passed since the last one, and only then. */
  lemma TidiedExactlyWhen(cfg: Config, s: State, now: real)
    ensures Tidied(cfg, s, now).lastCleanup == if now > s.lastCleanup + cfg.window then now else s.lastCleanup
    ensures now <= s.lastCleanup + cfg.window ==> Tidied(cfg, s, now).tracker == s.tracker
  {
  }

  lemma GrantsSorted(cfg: Config, states: seq<State>, events: seq<Event>, key: Key)
    requires Run(cfg, states, events)
    ensures Sorted(Grants(events, key))
    ensures forall i :: 0 <= i < |Grants(events, key)| ==> |events| > 0 && Grants(events, key)[i] <= events[|events| - 1].now
  {
    if events != [] {
      RunPrefix(cfg, states, events);
      GrantsSorted(cfg, states[..|events|], events[..|events| - 1], key);
    }
  }

  lemma RunPrefix(cfg: Config, states: seq<State>, events: seq<Event>)
    requires Run(cfg, states, events) && events != []
    ensures Run(cfg, states[..|events|], events[..|events| - 1])
  {
    var n := |events| - 1;
    var states0, events0 := states[..n + 1], events[..n];
    forall i | 0 <= i < n
      ensures StepAt(cfg, states0, events0, i)
    {
      assert StepAt(cfg, states, events, i);
    }
  }

  /** Grants the limiter no longer remembers. */
  function Forgotten(s: State, events: seq<Event>, key: Key): int {
    |Grants(events, key)| - |Entries(s.tracker, key)|
  }

  /** The record of a key is a suffix of its grants; what is missing is expired or was evicted. */
  ghost predicate Remembers(cfg: Config, s: State, events: seq<Event>, key: Key, now: real) {
    var g, lost := Grants(events, key), Forgotten(s, events, key);
    && 0 <= lost
    && Entries(s.tracker, key) == g[lost..]
    && forall i :: 0 <= i < lost ==> now - g[i] >= cfg.window || EvictedSince(events, key, g[i])
  }

  /** Dropping the expired timestamps of one key. */
  lemma PruneRemembers(cfg: Config, s: State, s': State, events: seq<Event>, key: Key, now: real)
    requires Sorted(Grants(events, key)) && Remembers(cfg, s, events, key, now)
    requires Entries(s'.tracker, key) == Recent(Entries(s.tracker, key), now, cfg.window)
    ensures Remembers(cfg, s', events, key, now)
  {
    var g, lost := Grants(events, key), Forgotten(s, events, key);
    var cut := RecentCuts(g[lost..], now, cfg.window);
    assert Entries(s'.tracker, key) == g[lost..][cut..] == g[lost + cut..];
    forall i | 0 <= i < lost + cut
      ensures now - g[i] >= cfg.window || EvictedSince(events, key, g[i])
    {
      if i >= lost {
        assert g[i] == g[lost..][i - lost];
      }
    }
  }

  lemma EvictedSinceExtends(events: seq<Event>, e: Event, key: Key, from: real)
    ensures EvictedSince(events, key, from) ==> EvictedSince(events + [e], key, from)
    ensures key in e.gone && from <= e.now ==> EvictedSince(events + [e], key, from)
  {
    if EvictedSince(events, key, from) {
      var j :| 0 <= j < |events| && key in events[j].gone && from <= events[j].now;
      assert (events + [e])[j] == events[j];
    }
    assert (events + [e])[|events|] == e;
  }

  /** The tidying that precedes a decision keeps the record of every key. */
  lemma ObserveRemembers(cfg: Config, s: State, events: seq<Event>, key: Key, of: Key, now: real)
    requires Sorted(Grants(events, of)) && Remembers(cfg, s, events, of, now)
    ensures Remembers(cfg, s.(tracker := Observed(cfg, s, key, now)), events, of, now)
    ensures key == of ==> Entries(Observed(cfg, s, key, now), of) == Recent(Entries(s.tracker, of), now, cfg.window)
  {
    RecentTwice(Entries(s.tracker, of), now, now, cfg.window);
    var s1, s2 := Tidied(cfg, s, now), s.(tracker := Observed(cfg, s, key, now));
    if s1 != s {
      PruneRemembers(cfg, s, s1, events, of, now);
    }
    if key == of {
      PruneRemembers(cfg, s1, s2, events, of, now);
    }
  }

  /** What a check that evicts `gone` decides from. */
  function Base(cfg: Config, s: State, e: Event, of: Key): seq<real> {
    if of in e.gone then [] else Entries(Observed(cfg, s, e.key, e.now), of)
  }

  lemma CheckEntries(cfg: Config, s: State, s': State, e: Event, of: Key)
    requires cfg.enabled && CheckStep(cfg, s, e.key, e.now, e.gone, s', e.granted)
    ensures Entries(s'.tracker, of) == if of == e.key && e.granted then Base(cfg, s, e, of) + [e.now] else Base(cfg, s, e, of)
    ensures of == e.key ==> (e.granted <==> |Base(cfg, s, e, of)| < cfg.maxRequests)
  {
    var tr := Observed(cfg, s, e.key, e.now);
    assert Entries(tr - e.gone, of) == Base(cfg, s, e, of);
  }

  /** One more check keeps the record, and its decision compares what is left of the record with the limit. */
  lemma CheckRemembers(cfg: Config, s: State, s': State, events: seq<Event>, e: Event, of: Key)
    requires cfg.enabled && CheckStep(cfg, s, e.key, e.now, e.gone, s', e.granted)
    requires Sorted(Grants(events, of)) && forall i :: 0 <= i < |Grants(events, of)| ==> Grants(events, of)[i] <= e.now
    requires Remembers(cfg, s, events, of, e.now)
    ensures Remembers(cfg, s', events + [e], of, e.now)
    ensures of == e.key && of !in e.gone ==> (e.granted <==> |Recent(Entries(s.tracker, of), e.now, cfg.window)| < cfg.maxRequests)
    ensures of == e.key && of in e.gone ==> (e.granted <==> 0 < cfg.maxRequests)
  {
    ObserveRemembers(cfg, s, events, e.key, of, e.now);
    CheckEntries(cfg, s, s', e, of);
    var observed := s.(tracker := Observed(cfg, s, e.key, e.now));
    StepRemembers(cfg, observed, s', events, e, of, Base(cfg, s, e, of));
  }

  lemma StepRemembers(cfg: Config, s: State, s': State, events: seq<Event>, e: Event, of: Key, base: seq<real>)
    requires Remembers(cfg, s, events, of, e.now)
    requires forall i :: 0 <= i < |Grants(events, of)| ==> Grants(events, of)[i] <= e.now
    requires base == if of in e.gone then [] else Entries(s.tracker, of)
    requires Entries(s'.tracker, of) == if of == e.key && e.granted then base + [e.now] else base
    ensures Remembers(cfg, s', events + [e], of, e.now)
  {
    var g, g' := Grants(events, of), Grants(events + [e], of);
    assert (events + [e])[..|events|] == events;
    assert g' == if of == e.key && e.granted then g + [e.now] else g;
    var lost := |g| - |base|;
    assert base == g[lost..] && Forgotten(s', events + [e], of) == lost;
    assert Entries(s'.tracker, of) == g'[lost..];
    forall i | 0 <= i < lost
      ensures e.now - g'[i] >= cfg.window || EvictedSince(events + [e], of, g'[i])
    {
      assert g'[i] == g[i];
      EvictedSinceExtends(events, e, of, g[i]);
    }
  }

  lemma RemembersLater(cfg: Config, s: State, events: seq<Event>, key: Key, now: real, later: real)
    requires Remembers(cfg, s, events, key, now) && now <= later
    ensures Remembers(cfg, s, events, key, later)
  {
    var g := Grants(events, key);
    forall i | 0 <= i < Forgotten(s, events, key)
      ensures later - g[i] >= cfg.window || EvictedSince(events, key, g[i])
    {
      assert now - g[i] >= cfg.window || EvictedSince(events, key, g[i]);
    }
  }

  lemma {:induction false} RunRemembers(cfg: Config, states: seq<State>, events: seq<Event>, key: Key, now: real)
    requires cfg.enabled && Run(cfg, states, events)
    requires events != [] ==> events[|events| - 1].now <= now
    ensures Remembers(cfg, states[|events|], events, key, now)
  {
    if events != [] {
      var n := |events| - 1;
      var before, e := events[..n], events[n];
      RunPrefix(cfg, states, events);
      LastStep(cfg, states, events);
      RunRemembers(cfg, states[..n + 1], before, key, e.now);
      GrantsSorted(cfg, states[..n + 1], before, key);
      CheckRemembers(cfg, states[n], states[n + 1], before, e, key);
      RemembersLater(cfg, states[n + 1], before + [e], key, e.now, now);
      assert before + [e] == events;
    }
  }

  lemma LastStep(cfg: Config, states: seq<State>, events: seq<Event>)
    requires Run(cfg, states, events) && events != []
    ensures var n, e := |events| - 1, events[|events| - 1];
            && CheckStep(cfg, states[n], e.key, e.now, e.gone, states[n + 1], e.granted)
            && (n > 0 ==> events[..n][n - 1].now <= e.now)
            && states[..n + 1][n] == states[n]
  {
    assert StepAt(cfg, states, events, |events| - 1);
    assert |events| > 1 ==> events[|events| - 2].now <= events[|events| - 1].now;
  }

  /** No eviction of `key` happened within the window that ends at `now`. */
  ghost predicate KeptInWindow(cfg: Config, events: seq<Event>, key: Key, now: real) {
    forall j :: 0 <= j < |events| && key in events[j].gone ==> now - events[j].now >= cfg.window
  }

  lemma {:induction false} RecentOfSuffix(ts: seq<real>, lost: nat, now: real, window: real)
    requires lost <= |ts|
    ensures |Recent(ts[lost..], now, window)| <= |Recent(ts, now, window)|
    ensures (forall i :: 0 <= i < lost ==> now - ts[i] >= window) ==> Recent(ts[lost..], now, window) == Recent(ts, now, window)
  {
    if lost == 0 {
      assert ts[lost..] == ts;
    } else {
      RecentOfSuffix(ts[1..], lost - 1, now, window);
      assert ts[1..][lost - 1..] == ts[lost..];
      assert forall i :: 1 <= i < |ts| ==> ts[1..][i - 1] == ts[i];
    }
  }

  lemma LiveGrants(cfg: Config, s: State, events: seq<Event>, key: Key, now: real)
    requires Remembers(cfg, s, events, key, now)
    ensures |Recent(Entries(s.tracker, key), now, cfg.window)| <= |Recent(Grants(events, key), now, cfg.window)|
    ensures KeptInWindow(cfg, events, key, now) ==>
              Recent(Entries(s.tracker, key), now, cfg.window) == Recent(Grants(events, key), now, cfg.window)
  {
    var g, lost := Grants(events, key), Forgotten(s, events, key);
    RecentOfSuffix(g, lost, now, cfg.window);
    if KeptInWindow(cfg, events, key, now) {
      forall i | 0 <= i < lost ensures now - g[i] >= cfg.window {
        if EvictedSince(events, key, g[i]) {
          var j :| 0 <= j < |events| && key in events[j].gone && g[i] <= events[j].now;
          assert now - events[j].now >= cfg.window;
        }
      }
    }
  }

  /** The limiter against a full history. A denial is always justified; and a key that has kept its
      record through the window is granted exactly when fewer than `maxRequests` of all
      its earlier grants lie inside the window. */
  lemma CheckRefinesFullHistory(cfg: Config, states: seq<State>, events: seq<Event>, e: Event, s': State)
    requires cfg.enabled && Run(cfg, states + [s'], events + [e])
    ensures !e.granted ==> |Recent(Grants(events, e.key), e.now, cfg.window)| >= cfg.maxRequests
    ensures KeptInWindow(cfg, events, e.key, e.now) && e.key !in e.gone ==>
              (e.granted <==> |Recent(Grants(events, e.key), e.now, cfg.window)| < cfg.maxRequests)
  {
    RunPrefix(cfg, states + [s'], events + [e]);
    assert (states + [s'])[..|events| + 1] == states && (events + [e])[..|events|] == events;
    var n := |events|;
    assert (states + [s'])[n] == states[n] && (states + [s'])[n + 1] == s' && (events + [e])[n] == e;
    LastStep(cfg, states + [s'], events + [e]);
    RunRemembers(cfg, states, events, e.key, e.now);
    GrantsSorted(cfg, states, events, e.key);
    CheckRemembers(cfg, states[n], s', events, e, e.key);
    LiveGrants(cfg, states[n], events, e.key, e.now);
  }

  /** A grant that would put `maxRequests + 1` grants in one window is only made after an eviction. */
  lemma GrantBound(cfg: Config, s: State, s': State, events: seq<Event>, e: Event, i: nat)
    requires cfg.enabled && CheckStep(cfg, s, e.key, e.now, e.gone, s', e.granted) && e.granted
    requires Sorted(Grants(events, e.key)) && forall j :: 0 <= j < |Grants(events, e.key)| ==> Grants(events, e.key)[j] <= e.now
    requires Remembers(cfg, s, events, e.key, e.now)
    requires i + cfg.maxRequests == |Grants(events, e.key)| && cfg.maxRequests > 0
    ensures e.now - Grants(events, e.key)[i] >= cfg.window || EvictedSince(events + [e], e.key, Grants(events, e.key)[i])
  {
    var g, lost := Grants(events, e.key), Forgotten(s, events, e.key);
    CheckRemembers(cfg, s, s', events, e, e.key);
    EvictedSinceExtends(events, e, e.key, g[i]);
    var cut := RecentCuts(g[lost..], e.now, cfg.window);
    if i >= lost && e.key !in e.gone {
      assert g[lost..][i - lost] == g[i];
      assert |g[lost..][cut..]| < cfg.maxRequests;
    }
  }

  /** `key` was evicted at a time between `from` and `until`. */
  ghost predicate EvictedBetween(events: seq<Event>, key: Key, from: real, until: real) {
    exists j :: 0 <= j < |events| && key in events[j].gone && from <= events[j].now <= until
  }

  lemma EvictedBetweenExtends(events: seq<Event>, e: Event, key: Key, from: real, until: real)
    requires EvictedBetween(events, key, from, until)
    ensures EvictedBetween(events + [e], key, from, until)
  {
    var j :| 0 <= j < |events| && key in events[j].gone && from <= events[j].now <= until;
    assert (events + [e])[j] == events[j];
  }

  /** Any `maxRequests + 1` successive grants to a key span at least the window, unless
      the key was evicted between the first of them and the last. */
  lemma {:induction false} WindowBound(cfg: Config, states: seq<State>, events: seq<Event>, key: Key, i: nat)
    requires cfg.enabled && cfg.maxRequests > 0 && Run(cfg, states, events)
    requires i + cfg.maxRequests < |Grants(events, key)|
    ensures var g := Grants(events, key);
            g[i + cfg.maxRequests] - g[i] >= cfg.window || EvictedBetween(events, key, g[i], g[i + cfg.maxRequests])
  {
    var n := |events| - 1;
    var before, e := events[..n], events[n];
    RunPrefix(cfg, states, events);
    assert before + [e] == events;
    var g0 := Grants(before, key);
    if i + cfg.maxRequests < |g0| {
      WindowBound(cfg, states[..n + 1], before, key, i);
      if EvictedBetween(before, key, g0[i], g0[i + cfg.maxRequests]) {
        EvictedBetweenExtends(before, e, key, g0[i], g0[i + cfg.maxRequests]);
      }
    } else {
      LastStep(cfg, states, events);
      GrantsSorted(cfg, states[..n + 1], before, key);
      RunRemembers(cfg, states[..n + 1], before, key, e.now);
      GrantBound(cfg, states[n], states[n + 1], before, e, i);
      EvictedByNow(cfg, states, events, key, g0[i]);
    }
  }

  lemma EvictedByNow(cfg: Config, states: seq<State>, events: seq<Event>, key: Key, from: real)
    requires Run(cfg, states, events) && events != []
    ensures EvictedSince(events, key, from) ==> EvictedBetween(events, key, from, events[|events| - 1].now)
  {
    if j :| 0 <= j < |events| && key in events[j].gone && from <= events[j].now {
      assert events[j].now <= events[|events| - 1].now;
    }
  }

  // ---- An eviction lifts the bound -------------------------------------------

  lemma {:induction false} OldestExist(tr: Tracker, n: nat) returns (gone: set<Key>)
    requires n <= |tr|
    ensures gone <= tr.Keys && |gone| == n
    ensures forall k, j :: k in gone && j in tr && j !in gone ==> Latest(tr[k]) <= Latest(tr[j])
  {
    gone := {};
    if n > 0 {
      gone := OldestExist(tr, n - 1);
      var rest, latest := tr.Keys - gone, map k | k in tr :: Latest(tr[k]);
      assert |rest| == |tr| - |gone| && latest.Keys == tr.Keys;
      var least := LeastActiveExists(rest, latest);
      gone := gone + {least};
    }
  }

  /** A check is possible in every state. */
  lemma CheckPossible(cfg: Config, s: State, key: Key, now: real) returns (e: Event, s': State)
    requires cfg.enabled
    ensures e.key == key && e.now == now && CheckStep(cfg, s, key, now, e.gone, s', e.granted)
  {
    var tr := Observed(cfg, s, key, now);
    var gone: set<Key> := {};
    if |tr| > cfg.maxKeys {
      assert key in tr.Keys && |tr| > 0;
      gone := OldestExist(tr, EvictCount(|tr|));
    }
    e := Event(key, now, gone, |Entries(tr - gone, key)| < cfg.maxRequests);
    s' := State((tr - gone)[key := Recorded(cfg, tr - gone, key, now)], Tidied(cfg, s, now).lastCleanup);
  }

  lemma StepExtends(cfg: Config, states: seq<State>, events: seq<Event>, e: Event, s': State, i: nat)
    requires |states| == |events| + 1 && i < |events| && StepAt(cfg, states, events, i)
    ensures StepAt(cfg, states + [s'], events + [e], i)
  {
    assert (states + [s'])[i] == states[i] && (states + [s'])[i + 1] == states[i + 1] && (events + [e])[i] == events[i];
  }

  lemma NewStep(cfg: Config, states: seq<State>, events: seq<Event>, e: Event, s': State)
    requires |states| == |events| + 1 && CheckStep(cfg, states[|events|], e.key, e.now, e.gone, s', e.granted)
    ensures StepAt(cfg, states + [s'], events + [e], |events|)
  {
    var n := |events|;
    assert (states + [s'])[n] == states[n] && (states + [s'])[n + 1] == s' && (events + [e])[n] == e;
  }

  lemma TimesExtend(events: seq<Event>, e: Event)
    requires forall i, j :: 0 <= i < j < |events| ==> events[i].now <= events[j].now
    requires events != [] ==> events[|events| - 1].now <= e.now
    ensures forall i, j :: 0 <= i < j < |events + [e]| ==> (events + [e])[i].now <= (events + [e])[j].now
  {
    forall i | 0 <= i < |events|
      ensures events[i].now <= e.now
    {
      assert events[i].now <= events[|events| - 1].now;
    }
  }

  lemma RunExtends(cfg: Config, states: seq<State>, events: seq<Event>, e: Event, s': State)
    requires Run(cfg, states, events) && CheckStep(cfg, states[|events|], e.key, e.now, e.gone, s', e.granted)
    requires events != [] ==> events[|events| - 1].now <= e.now
    ensures Run(cfg, states + [s'], events + [e])
  {
    forall i | 0 <= i < |events + [e]|
      ensures StepAt(cfg, states + [s'], events + [e], i)
    {
      if i < |events| {
        StepExtends(cfg, states, events, e, s', i);
      } else {
        NewStep(cfg, states, events, e, s');
      }
    }
    TimesExtend(events, e);
  }

  lemma GrantsExtend(events: seq<Event>, e: Event, key: Key)
    ensures Grants(events + [e], key) == if key == e.key && e.granted then Grants(events, key) + [e.now] else Grants(events, key)
  {
    assert (events + [e])[..|events|] == events;
  }

  function Ones(m: nat): seq<real> {
    seq(m, _ => 1.0)
  }

  /** Half a window after time 1. */
  function Soon(cfg: Config): real {
    1.0 + cfg.window / 2.0
  }

  /** Only `Name(0)` is tracked, granted at time 1 only. */
  function Alone(m: nat): Tracker {
    if m == 0 then map[] else map[Name(0) := Ones(m)]
  }

  predicate Usual(cfg: Config) {
    cfg.enabled && cfg.maxRequests > 0 && cfg.window > 0.0
  }

  lemma AloneStep(cfg: Config, m: nat) returns (gone: set<Key>, m': nat)
    requires Usual(cfg) && m < cfg.maxRequests
    ensures 0 < m' <= m + 1
    ensures CheckStep(cfg, State(Alone(m), 1.0), Name(0), 1.0, gone, State(Alone(m'), 1.0), true)
  {
    var key, s := Name(0), State(Alone(m), 1.0);
    RecentAll(Ones(m), 1.0, cfg.window);
    assert Entries(Alone(m), key) == Ones(m);
    var tr := map[key := Ones(m)];
    assert Observed(cfg, s, key, 1.0) == tr;
    if cfg.maxKeys < 1 {
      gone, m' := {key}, 1;
      assert Entries(tr - gone, key) == [] && [] + [1.0] == Ones(1);
    } else {
      gone, m' := {}, m + 1;
      assert tr - gone == tr && Ones(m) + [1.0] == Ones(m + 1);
    }
    assert (tr - gone)[key := Ones(m')] == Alone(m');
  }

  /** The first requests of a key are all granted. */
  lemma {:induction false} FirstGrants(cfg: Config, n: nat) returns (states: seq<State>, events: seq<Event>, m: nat)
    requires Usual(cfg) && n <= cfg.maxRequests
    ensures Run(cfg, states, events) && |events| == n && states[n] == State(Alone(m), 1.0)
    ensures m <= n && (n > 0 ==> m > 0) && Grants(events, Name(0)) == Ones(n)
    ensures events != [] ==> events[|events| - 1].now == 1.0
  {
    if n == 0 {
      return [State(map[], 1.0)], [], 0;
    }
    var states0, events0, m0 := FirstGrants(cfg, n - 1);
    var gone, m1 := AloneStep(cfg, m0);
    var e := Event(Name(0), 1.0, gone, true);
    RunExtends(cfg, states0, events0, e, State(Alone(m1), 1.0));
    GrantsExtend(events0, e, Name(0));
    assert Ones(n - 1) + [1.0] == Ones(n);
    states, events, m := states0 + [State(Alone(m1), 1.0)], events0 + [e], m1;
  }

  /** `Name(0)` and `n - 1` keys that were granted later. */
  function Crowd(cfg: Config, m: nat, n: nat): Tracker {
    map k | k in Names(n) :: if k == Name(0) then Ones(m) else [Soon(cfg)]
  }

  lemma CrowdGrows(cfg: Config, m: nat, n: nat)
    requires n > 0
    ensures |Crowd(cfg, m, n)| == n && Name(n) !in Crowd(cfg, m, n) && Name(0) in Crowd(cfg, m, n)
    ensures Crowd(cfg, m, n + 1) == Crowd(cfg, m, n)[Name(n) := [Soon(cfg)]]
  {
    FullSize(n);
    assert Crowd(cfg, m, n).Keys == Full(n).Keys;
    assert Name(0) in Names(n);
    assert Names(n + 1) == Names(n) + {Name(n)} && Name(n) != Name(0) by {
      assert |Name(n)| != |Name(0)|;
    }
  }

  /** How many keys it takes. */
  function Enough(cfg: Config): int {
    Max(cfg.maxKeys, SMALL)
  }

  /** A fresh key that overflows a small tracker is the one evicted. */
  lemma NewcomerGoes(cfg: Config, m: nat, n: nat)
    requires Usual(cfg) && 0 < n < SMALL
    ensures Evicts(Crowd(cfg, m, n)[Name(n) := []], {Name(n)})
  {
    var crowd := Crowd(cfg, m, n);
    CrowdGrows(cfg, m, n);
    LatestSoon(cfg, m, n);
    PutSize(crowd, Name(n), []);
    var tr := crowd[Name(n) := []];
    forall j | j in tr && j != Name(n)
      ensures Latest(tr[Name(n)]) <= Latest(tr[j])
    {
      assert tr[j] == crowd[j];
    }
  }

  lemma CrowdStep(cfg: Config, m: nat, n: nat) returns (gone: set<Key>)
    requires Usual(cfg) && 0 < n < Enough(cfg)
    ensures CheckStep(cfg, State(Crowd(cfg, m, n), 1.0), Name(n), Soon(cfg), gone, State(Crowd(cfg, m, n + 1), 1.0), true)
  {
    var key, crowd := Name(n), Crowd(cfg, m, n);
    CrowdGrows(cfg, m, n);
    PutSize(crowd, key, []);
    gone := {};
    if n + 1 > cfg.maxKeys {
      gone := {key};
      NewcomerGoes(cfg, m, n);
    }
    NewcomerStep(cfg, crowd, key, gone);
  }

  lemma NewcomerStep(cfg: Config, crowd: Tracker, key: Key, gone: set<Key>)
    requires Usual(cfg) && key !in crowd && gone <= {key}
    requires if |crowd[key := []]| > cfg.maxKeys then Evicts(crowd[key := []], gone) else gone == {}
    ensures CheckStep(cfg, State(crowd, 1.0), key, Soon(cfg), gone, State(crowd[key := [Soon(cfg)]], 1.0), true)
  {
    var tr := crowd[key := []];
    assert Observed(cfg, State(crowd, 1.0), key, Soon(cfg)) == tr;
    assert Entries(tr - gone, key) == [];
    assert Recorded(cfg, tr - gone, key, Soon(cfg)) == [Soon(cfg)];
    assert (tr - gone)[key := [Soon(cfg)]] == crowd[key := [Soon(cfg)]];
  }

  lemma {:induction false} LatestOnes(m: nat)
    requires m > 0
    ensures Latest(Ones(m)) == 1.0
  {
    if m > 1 {
      assert Ones(m)[1..] == Ones(m - 1);
      LatestOnes(m - 1);
    }
  }

  lemma LatestSoon(cfg: Config, m: nat, n: nat)
    ensures forall k :: k in Crowd(cfg, m, n) ==>
              Latest(Crowd(cfg, m, n)[k]) == if k != Name(0) then Soon(cfg) else if m > 0 then 1.0 else 0.0
  {
    if m > 0 {
      LatestOnes(m);
    }
  }

  /** When the tracker is full, a fresh key drives out the first one, whatever goes with it. */
  lemma FirstIsEvicted(cfg: Config, m: nat, e: Event, s': State)
    requires Usual(cfg) && m > 0 && e.key == Name(Enough(cfg)) && e.now == Soon(cfg)
    requires CheckStep(cfg, State(Crowd(cfg, m, Enough(cfg)), 1.0), e.key, e.now, e.gone, s', e.granted)
    ensures Name(0) in e.gone && Name(0) !in s'.tracker && s'.lastCleanup == 1.0
  {
    var n := Enough(cfg);
    var crowd := Crowd(cfg, m, n);
    CrowdGrows(cfg, m, n);
    LatestSoon(cfg, m, n);
    var tr := crowd[e.key := []];
    assert Observed(cfg, State(crowd, 1.0), e.key, e.now) == tr;
    PutSize(crowd, e.key, []);
    if Name(0) !in e.gone {
      forall k | k in e.gone
        ensures k == e.key
      {
        assert Latest(tr[k]) <= Latest(tr[Name(0)]) == 1.0;
      }
      SubsetSize(e.gone, {e.key});
    }
  }

  lemma {:induction false} CrowdRun(cfg: Config, n: nat) returns (states: seq<State>, events: seq<Event>, m: nat)
    requires Usual(cfg) && 0 < n <= Enough(cfg)
    ensures Run(cfg, states, events) && events != [] && states[|events|] == State(Crowd(cfg, m, n), 1.0)
    ensures m > 0 && Grants(events, Name(0)) == Ones(cfg.maxRequests) && events[|events| - 1].now <= Soon(cfg)
    decreases n
  {
    if n == 1 {
      states, events, m := FirstGrants(cfg, cfg.maxRequests);
      assert Names(1) == {Name(0)};
      assert Alone(m) == Crowd(cfg, m, 1);
    } else {
      var states0, events0, m0 := CrowdRun(cfg, n - 1);
      var gone := CrowdStep(cfg, m0, n - 1);
      var e, s := Event(Name(n - 1), Soon(cfg), gone, true), State(Crowd(cfg, m0, n), 1.0);
      RunExtends(cfg, states0, events0, e, s);
      GrantsExtend(events0, e, Name(0));
      assert |Name(n - 1)| != |Name(0)|;
      states, events, m := states0 + [s], events0 + [e], m0;
    }
  }

  /** The exception to the bound occurs under every configuration: once enough fresh keys have come, the first key
      is granted one request too many within half a window. */
  lemma EvictionLiftsBound(cfg: Config) returns (states: seq<State>, events: seq<Event>)
    requires cfg.enabled && cfg.maxRequests > 0 && cfg.window > 0.0
    ensures Run(cfg, states, events)
    ensures var g := Grants(events, Name(0));
            |g| == cfg.maxRequests + 1 && g[cfg.maxRequests] - g[0] < cfg.window
  {
    var m: nat;
    states, events, m := CrowdRun(cfg, Enough(cfg));
    var newcomer, s := CheckPossible(cfg, states[|events|], Name(Enough(cfg)), Soon(cfg));
    FirstIsEvicted(cfg, m, newcomer, s);
    RunExtends(cfg, states, events, newcomer, s);
    GrantsExtend(events, newcomer, Name(0));
    assert |Name(Enough(cfg))| != |Name(0)|;
    states, events := states + [s], events + [newcomer];
    var again, s' := CheckPossible(cfg, s, Name(0), Soon(cfg));
    ForgottenIsGranted(cfg, s, again, s');
    RunExtends(cfg, states, events, again, s');
    GrantsExtend(events, again, Name(0));
    states, events := states + [s'], events + [again];
  }

  lemma ForgottenIsGranted(cfg: Config, s: State, e: Event, s': State)
    requires cfg.enabled && cfg.maxRequests > 0 && e.key !in s.tracker
    requires CheckStep(cfg, s, e.key, e.now, e.gone, s', e.granted)
    ensures e.granted
  {
    assert Entries(Tidied(cfg, s, e.now).tracker, e.key) == [];
  }

  // ---- The bound on tracked keys -------------------------------------------

  /** Below 20 keys an eviction removes one key, and that may be the key that is put back at once. */
  const SMALL: nat := 19

  lemma PutSize(tr: Tracker, key: Key, ts: seq<real>)
    ensures |tr[key := ts]| == if key in tr then |tr| else |tr| + 1
  {
    assert tr[key := ts].Keys == tr.Keys + {key};
  }

  lemma ObservedSize(cfg: Config, s: State, key: Key, now: real)
    ensures |Observed(cfg, s, key, now)| <= |s.tracker| + 1
  {
    var tr := Tidied(cfg, s, now).tracker;
    SubsetSize(tr.Keys, s.tracker.Keys);
    PutSize(tr, key, Recent(Entries(tr, key), now, cfg.window));
  }

  lemma CheckKeepsBound(cfg: Config, s: State, key: Key, now: real, gone: set<Key>, s': State, granted: bool)
    requires CheckStep(cfg, s, key, now, gone, s', granted)
    requires |s.tracker| <= Max(cfg.maxKeys, SMALL)
    ensures |s'.tracker| <= Max(cfg.maxKeys, SMALL)
  {
    if cfg.enabled {
      var tr := Observed(cfg, s, key, now);
      ObservedSize(cfg, s, key, now);
      MapMinusSize(tr, gone);
      PutSize(tr - gone, key, s'.tracker[key]);
      if gone == {} {
        assert s'.tracker.Keys == tr.Keys;
      }
    }
  }

  lemma {:induction false} RunKeepsBound(cfg: Config, states: seq<State>, events: seq<Event>)
    requires Run(cfg, states, events)
    ensures |states[|events|].tracker| <= Max(cfg.maxKeys, SMALL)
  {
    if events != [] {
      var n := |events| - 1;
      RunPrefix(cfg, states, events);
      LastStep(cfg, states, events);
      RunKeepsBound(cfg, states[..n + 1], events[..n]);
      var e := events[n];
      CheckKeepsBound(cfg, states[n], e.key, e.now, e.gone, states[n + 1], e.granted);
    }
  }

  ghost predicate NeverOverMaxKeys(cfg: Config) {
    forall states: seq<State>, events: seq<Event> :: Run(cfg, states, events) ==> |states[|events|].tracker| <= cfg.maxKeys
  }

  function Name(i: nat): Key {
    seq(i, _ => 'a')
  }

  function Names(n: nat): set<Key> {
    set i | 0 <= i < n :: Name(i)
  }

  /** `n` keys `Name(0)`, ..., `Name(n - 1)`, each granted once at time 1. */
  function Full(n: nat): Tracker {
    map k | k in Names(n) :: [1.0]
  }

  lemma {:induction false} FullSize(n: nat)
    ensures |Full(n)| == n
    ensures Name(n) !in Full(n)
    ensures Full(n + 1) == Full(n)[Name(n) := [1.0]]
  {
    assert Names(n + 1) == Names(n) + {Name(n)};
    assert forall i :: 0 <= i < n ==> |Name(i)| != |Name(n)|;
    if n > 0 {
      FullSize(n - 1);
    }
  }

  /** A fresh key that overflows the limit is itself evicted, and put back. */
  lemma FreshKeyStays(cfg: Config, n: nat) returns (gone: set<Key>)
    requires cfg.enabled && cfg.maxRequests > 0 && cfg.window > 0.0 && n < SMALL
    ensures CheckStep(cfg, State(Full(n), 1.0), Name(n), 1.0, gone, State(Full(n + 1), 1.0), true)
  {
    var key, s := Name(n), State(Full(n), 1.0);
    FullSize(n);
    var tr := Full(n)[key := []];
    assert Observed(cfg, s, key, 1.0) == tr;
    PutSize(Full(n), key, []);
    gone := if n + 1 > cfg.maxKeys then {key} else {};
    assert Entries(tr - gone, key) == [];
    assert Recorded(cfg, tr - gone, key, 1.0) == [1.0];
    assert (tr - gone)[key := [1.0]] == Full(n + 1);
  }

  /** Fresh keys that arrive in the same instant fill the tracker with 19 keys. */
  lemma {:induction false} GrowsTo(cfg: Config, n: nat) returns (states: seq<State>, events: seq<Event>)
    requires cfg.enabled && cfg.maxRequests > 0 && cfg.window > 0.0 && n <= SMALL
    ensures Run(cfg, states, events) && |events| == n && states[n] == State(Full(n), 1.0)
    ensures forall i :: 0 <= i < n ==> events[i].now == 1.0
  {
    if n == 0 {
      return [State(map[], 1.0)], [];
    }
    var states0, events0 := GrowsTo(cfg, n - 1);
    var gone := FreshKeyStays(cfg, n - 1);
    states, events := states0 + [State(Full(n), 1.0)], events0 + [Event(Name(n - 1), 1.0, gone, true)];
    forall i | 0 <= i < n
      ensures StepAt(cfg, states, events, i)
    {
      if i < n - 1 {
        assert StepAt(cfg, states0, events0, i);
      }
    }
  }

  /** The documented limit on tracked keys holds exactly when it is at least 19. */
  lemma MaxKeysHoldsExactlyWhen(cfg: Config)
    requires cfg.enabled && cfg.maxRequests > 0 && cfg.window > 0.0
    ensures NeverOverMaxKeys(cfg) <==> cfg.maxKeys >= SMALL
  {
    if cfg.maxKeys >= SMALL {
      forall states: seq<State>, events: seq<Event> | Run(cfg, states, events)
        ensures |states[|events|].tracker| <= cfg.maxKeys
      {
        RunKeepsBound(cfg, states, events);
      }
    } else {
      var states, events := GrowsTo(cfg, SMALL);
      FullSize(SMALL);
    }
  }
}
