/** The AbuseIPDB output with a tolerance of at least two: an address is reported once it was seen often
    enough within the window, and again only after a pause. */
module AbuseIpdb {
  import opened Bytes

  type Ip = string

  datatype Settings = Settings(tolerance: nat, window: real, rereportAfter: real)

  /** With a tolerance of 0 or 1 the other observer is used. */
  type Config = c: Settings | c.tolerance >= 2 witness Settings(2, 0.0, 0.0)

  /** A deque of sightings, or the tuple `(None, at)` of a reported address. */
  datatype Entry = Deque(ts: seq<real>) | Reported(at: real)

  type Book = map<Ip, Entry>

  datatype Report = Report(ip: Ip, first: real, last: real)

  /** `deque.append` with `maxlen` set. */
  function Append(cfg: Config, ts: seq<real>, t: real): seq<real> {
    if |ts| < cfg.tolerance then ts + [t] else ts[1..] + [t]
  }

  function Unexpired(ts: seq<real>, limit: real): (r: seq<real>)
    ensures |r| <= |ts|
  {
    if ts == [] || ts[0] == 0.0 || ts[0] >= limit then ts else Unexpired(ts[1..], limit)
  }

  /** A deque of fewer than two sightings raises `IndexError`, which counts as yes. */
  predicate CanRereport(cfg: Config, e: Entry, t: real) {
    match e
    case Deque(ts) => |ts| < 2 || t > ts[1] + cfg.rereportAfter
    case Reported(at) => t > at + cfg.rereportAfter
  }

  /** The sightings of a deque after another at `t`. */
  function Seen(cfg: Config, ts: seq<real>, t: real): seq<real> {
    Unexpired(Append(cfg, ts, t), t - cfg.window)
  }

  /** The entry is a deque whose first element counts as true. */
  predicate Counting(e: Entry) {
    e.Deque? && e.ts != [] && e.ts[0] != 0.0
  }

  /** An entry after a sighting at `t`. */
  function Advanced(cfg: Config, e: Entry, t: real): Entry {
    if e == Deque([]) then Deque([t])
    else if Counting(e) then
      var ts := Seen(cfg, e.ts, t);
      if |ts| >= cfg.tolerance then Reported(ts[|ts| - 1]) else Deque(ts)
    else if CanRereport(cfg, e, t) then Deque([t])
    else e
  }

  function ReportFrom(cfg: Config, e: Entry, ip: Ip, t: real): Option<Report> {
    if Counting(e) then
      var ts := Seen(cfg, e.ts, t);
      if |ts| >= cfg.tolerance then Some(Report(ip, ts[0], ts[|ts| - 1])) else None
    else None
  }

  function Observed(cfg: Config, book: Book, ip: Ip, t: real): Entry {
    if ip in book then Advanced(cfg, book[ip], t) else Deque([t])
  }

  function ReportOf(cfg: Config, book: Book, ip: Ip, t: real): Option<Report> {
    if ip in book then ReportFrom(cfg, book[ip], ip, t) else None
  }

  function CleanEntry(cfg: Config, e: Entry, t: real): Entry {
    if e.Deque? then Deque(Unexpired(e.ts, t - cfg.window)) else e
  }

  predicate Kept(cfg: Config, e: Entry, t: real) {
    !CanRereport(cfg, e, t) && CleanEntry(cfg, e, t) != Deque([])
  }

  function Cleaned(cfg: Config, book: Book, t: real): Book {
    map ip | ip in book && Kept(cfg, book[ip], t) :: CleanEntry(cfg, book[ip], t)
  }

  /** All entries but those `left` have been expired. */
  ghost predicate Expiring(cfg: Config, before: Book, now: real, book: Book, left: set<Ip>) {
    && book.Keys == before.Keys
    && forall ip :: ip in book ==> book[ip] == if ip in left then before[ip] else CleanEntry(cfg, before[ip], now)
  }

  class LogBook {
    const cfg: Config
    var book: Book

    constructor (cfg: Config)
      ensures this.cfg == cfg && book == map[]
    {
      this.cfg := cfg;
      book := map[];
    }

    method CleanExpiredTimestamps(ip: Ip, now: real)
      requires ip in book
      modifies this`book
      ensures book == old(book)[ip := CleanEntry(cfg, old(book)[ip], now)]
    {
      if book[ip].Deque? {
        ghost var before := book;
        while book[ip].ts != [] && book[ip].ts[0] != 0.0 && book[ip].ts[0] < now - cfg.window
          invariant ip in book && book[ip].Deque? && book == before[ip := book[ip]]
          invariant Unexpired(book[ip].ts, now - cfg.window) == Unexpired(before[ip].ts, now - cfg.window)
          decreases |book[ip].ts|
        {
          book := book[ip := Deque(book[ip].ts[1..])];
        }
      } else {
        assert book == book[ip := book[ip]];
      }
    }

    method ReportIpMultiple(ip: Ip) returns (report: Report)
      requires ip in book && book[ip].Deque? && |book[ip].ts| >= 2
      modifies this`book
      ensures var ts := old(book)[ip].ts;
              report == Report(ip, ts[0], ts[|ts| - 1]) && book == old(book)[ip := Reported(ts[|ts| - 1])]
    {
      var ts := book[ip].ts;
      var last := ts[|ts| - 1];
      var first := ts[..|ts| - 1][0];
      book := book[ip := Reported(last)];
      report := Report(ip, first, last);
    }

    method TolerantObserver(ip: Ip, t: real) returns (report: Option<Report>)
      modifies this`book
      ensures book == old(book)[ip := Observed(cfg, old(book), ip, t)]
      ensures report == ReportOf(cfg, old(book), ip, t)
    {
      report := None;
      if ip in book {
        var e := book[ip];
        if e == Deque([]) {
          book := book[ip := Deque([t])];
        } else if Counting(e) {
          book := book[ip := Deque(Append(cfg, e.ts, t))];
          CleanExpiredTimestamps(ip, t);
          if |book[ip].ts| >= cfg.tolerance {
            var r := ReportIpMultiple(ip);
            report := Some(r);
          }
        } else if CanRereport(cfg, e, t) {
          book := book[ip := Deque([t])];
        } else {
          assert book == book[ip := e];
        }
      } else {
        book := book[ip := Deque([t])];
      }
    }

    method CleanupAndDumpState(now: real)
      modifies this`book
      ensures book == Cleaned(cfg, old(book), now)
    {
      var deleteMe := ExpireAndCollect(now);
      book := book - deleteMe;
      FindAndDeleteEmptyEntries();
    }

    /** The loop over the entries: expires their sightings and collects the keys to delete. */
    method ExpireAndCollect(now: real) returns (deleteMe: set<Ip>)
      modifies this`book
      ensures book == map ip | ip in old(book) :: CleanEntry(cfg, old(book)[ip], now)
      ensures deleteMe == set ip | ip in old(book) && CanRereport(cfg, old(book)[ip], now)
    {
      ghost var before := book;
      deleteMe := {};
      var left := book.Keys;
      while left != {}
        invariant left <= book.Keys && Expiring(cfg, before, now, book, left)
        invariant deleteMe == set ip | ip in before && ip !in left && CanRereport(cfg, before[ip], now)
        decreases |left|
      {
        var ip :| ip in left;
        if CanRereport(cfg, book[ip], now) {
          deleteMe := deleteMe + {ip};
        }
        CleanExpiredTimestamps(ip, now);
        left := left - {ip};
      }
    }

    method FindAndDeleteEmptyEntries()
      modifies this`book
      ensures book == map ip | ip in old(book) && old(book)[ip] != Deque([]) :: old(book)[ip]
    {
      var deleteMe := set ip | ip in book && book[ip] == Deque([]);
      book := book - deleteMe;
    }
  }

  // ---- Whole runs ------------------------------------------------------------

  datatype Event = Sighting(ip: Ip, t: real) | Cleanup(t: real)

  function NextBook(cfg: Config, book: Book, e: Event): Book {
    match e
    case Sighting(ip, t) => book[ip := Observed(cfg, book, ip, t)]
    case Cleanup(t) => Cleaned(cfg, book, t)
  }

  function BookAfter(cfg: Config, run: seq<Event>): Book {
    if run == [] then map[] else NextBook(cfg, BookAfter(cfg, run[..|run| - 1]), run[|run| - 1])
  }

  /** The clock is positive and never runs backwards. */
  predicate Clocked(run: seq<Event>) {
    && (forall i :: 0 <= i < |run| ==> run[i].t > 0.0)
    && forall i, j :: 0 <= i < j < |run| ==> run[i].t <= run[j].t
  }

  /** Every time `ip` was seen. */
  function Sightings(run: seq<Event>, ip: Ip): seq<real> {
    if run == [] then []
    else
      var e := run[|run| - 1];
      Sightings(run[..|run| - 1], ip) + if e.Sighting? && e.ip == ip then [e.t] else []
  }

  predicate Reporting(cfg: Config, run: seq<Event>, k: nat)
    requires k < |run|
  {
    run[k].Sighting? && ReportOf(cfg, BookAfter(cfg, run[..k]), run[k].ip, run[k].t).Some?
  }

  /** The times `ip` was seen since its present deque was created; meaningful while it has one. */
  function Since(cfg: Config, run: seq<Event>, ip: Ip): seq<real> {
    if run == [] then []
    else
      var before, e := run[..|run| - 1], run[|run| - 1];
      if e.Sighting? && e.ip == ip then
        var book := BookAfter(cfg, before);
        if ip in book && book[ip].Deque? then Since(cfg, before, ip) + [e.t] else [e.t]
      else Since(cfg, before, ip)
  }

  /** The last `n` sightings all lie at or after `limit`. */
  predicate LastWithin(ts: seq<real>, n: nat, limit: real) {
    n <= |ts| && forall i :: |ts| - n <= i < |ts| ==> ts[i] >= limit
  }

  predicate Sorted(ts: seq<real>, end: real) {
    && (forall i :: 0 <= i < |ts| ==> 0.0 < ts[i] <= end)
    && forall i, j :: 0 <= i < j < |ts| ==> ts[i] <= ts[j]
  }

  /** `ts` is what is left of `since` when some sightings expired by `now` were dropped. */
  predicate Remains(cfg: Config, ts: seq<real>, since: seq<real>, now: real) {
    && |ts| < cfg.tolerance
    && |ts| <= |since|
    && ts == since[|since| - |ts|..]
    && forall i :: 0 <= i < |since| - |ts| ==> since[i] < now - cfg.window
  }

  lemma {:induction false} UnexpiredRemains(ts: seq<real>, limit: real, end: real)
    requires Sorted(ts, end)
    ensures var r := Unexpired(ts, limit);
            && r == ts[|ts| - |r|..]
            && (forall i :: 0 <= i < |ts| - |r| ==> ts[i] < limit)
            && (forall i :: |ts| - |r| <= i < |ts| ==> ts[i] >= limit)
  {
    if ts != [] && ts[0] < limit {
      UnexpiredRemains(ts[1..], limit, end);
    }
  }

  /** What a sighting leaves of the sightings since creation: exactly those in the window. */
  lemma SeenIsWindow(cfg: Config, ts: seq<real>, since: seq<real>, now: real, t: real)
    requires Sorted(since, now) && 0.0 < now <= t && Remains(cfg, ts, since, now)
    ensures var seen, all := Seen(cfg, ts, t), since + [t];
            && |seen| <= |ts| + 1 <= |all|
            && seen == all[|all| - |seen|..]
            && (forall i :: 0 <= i < |all| - |seen| ==> all[i] < t - cfg.window)
            && (forall i :: |all| - |seen| <= i < |all| ==> all[i] >= t - cfg.window)
  {
    var seen, all, appended := Seen(cfg, ts, t), since + [t], ts + [t];
    var gone, dropped := |since| - |ts|, |all| - |seen|;
    assert appended == all[gone..];
    UnexpiredRemains(appended, t - cfg.window, t);
    forall i | 0 <= i < |all|
      ensures if i < dropped then all[i] < t - cfg.window else all[i] >= t - cfg.window
    {
      if i >= gone {
        assert all[i] == appended[i - gone];
      }
    }
  }

  /** A sighting fills the deque exactly when the last `tolerance` sightings since its creation are in the
      window; otherwise the deque still holds what remains of them. */
  lemma SeenMeans(cfg: Config, ts: seq<real>, since: seq<real>, now: real, t: real)
    requires Sorted(since, now) && 0.0 < now <= t && Remains(cfg, ts, since, now)
    ensures var seen, all := Seen(cfg, ts, t), since + [t];
            if LastWithin(all, cfg.tolerance, t - cfg.window)
            then seen == all[|all| - cfg.tolerance..]
            else Remains(cfg, seen, all, t)
  {
    SeenIsWindow(cfg, ts, since, now, t);
    var all := since + [t];
    var dropped := |all| - |Seen(cfg, ts, t)|;
    assert dropped == 0 || !(all[dropped - 1] >= t - cfg.window);
  }

  /** The same for a deque that a clean-up at `t` goes over. */
  lemma CleaningRemains(cfg: Config, ts: seq<real>, since: seq<real>, now: real, t: real)
    requires Sorted(since, now) && 0.0 < now <= t && Remains(cfg, ts, since, now)
    ensures Remains(cfg, Unexpired(ts, t - cfg.window), since, t)
  {
    var gone := |since| - |ts|;
    UnexpiredRemains(ts, t - cfg.window, t);
    var dropped := |since| - |Unexpired(ts, t - cfg.window)|;
    forall i | 0 <= i < dropped
      ensures since[i] < t - cfg.window
    {
      if i >= gone {
        assert since[i] == ts[i - gone];
      }
    }
  }

  /** What is known of one entry at time `now`. */
  predicate EntrySound(cfg: Config, e: Entry, since: seq<real>, now: real) {
    match e
    case Deque(ts) => Sorted(since, now) && Remains(cfg, ts, since, now)
    case Reported(at) => 0.0 < at <= now
  }

  lemma NoneLeft(cfg: Config, since: seq<real>, now: real, t: real)
    requires Remains(cfg, [], since, now) && now <= t
    ensures !LastWithin(since + [t], cfg.tolerance, t - cfg.window)
    ensures Remains(cfg, [t], since + [t], t)
  {
    var all := since + [t];
    assert |all| >= 2 ==> all[|all| - 2] == since[|since| - 1];
  }

  lemma IsCounting(cfg: Config, ts: seq<real>, since: seq<real>, now: real)
    requires Sorted(since, now) && Remains(cfg, ts, since, now) && ts != []
    ensures Counting(Deque(ts))
  {
    assert ts[0] == since[|since| - |ts|];
  }

  lemma SortedGrows(since: seq<real>, now: real, t: real)
    requires Sorted(since, now) && 0.0 < now <= t
    ensures Sorted(since + [t], t)
  {
  }

  /** A sighting keeps an entry sound, and reports exactly when the last sightings are in the window. */
  lemma DequeAdvances(cfg: Config, ts: seq<real>, ip: Ip, since: seq<real>, now: real, t: real)
    requires 0.0 < now <= t && Sorted(since, now) && Remains(cfg, ts, since, now)
    ensures var e, all := Deque(ts), since + [t];
            && EntrySound(cfg, Advanced(cfg, e, t), all, t)
            && ReportFrom(cfg, e, ip, t)
               == (if LastWithin(all, cfg.tolerance, t - cfg.window) then Some(Report(ip, all[|all| - cfg.tolerance], t)) else None)
            && (ReportFrom(cfg, e, ip, t).Some? ==> Advanced(cfg, e, t) == Reported(t))
  {
    SortedGrows(since, now, t);
    if ts == [] {
      NoneLeft(cfg, since, now, t);
    } else {
      IsCounting(cfg, ts, since, now);
      SeenMeans(cfg, ts, since, now, t);
    }
  }

  lemma ObservedIsSound(cfg: Config, book: Book, ip: Ip, since: seq<real>, now: real, t: real)
    requires 0.0 < now <= t && (ip in book ==> EntrySound(cfg, book[ip], since, now))
    ensures var all := if ip in book && book[ip].Deque? then since + [t] else [t];
            && EntrySound(cfg, Observed(cfg, book, ip, t), all, t)
            && ReportOf(cfg, book, ip, t)
               == (if LastWithin(all, cfg.tolerance, t - cfg.window) then Some(Report(ip, all[|all| - cfg.tolerance], t)) else None)
            && (ReportOf(cfg, book, ip, t).Some? ==> Observed(cfg, book, ip, t) == Reported(t))
  {
    if ip in book && book[ip].Deque? {
      DequeAdvances(cfg, book[ip].ts, ip, since, now, t);
    }
  }

  predicate UpTo(run: seq<Event>, now: real) {
    now > 0.0 && forall i :: 0 <= i < |run| ==> run[i].t <= now
  }

  lemma PrefixClocked(run: seq<Event>, n: nat)
    requires Clocked(run) && n < |run|
    ensures Clocked(run[..n]) && UpTo(run[..n], run[n].t)
  {
    forall i | 0 <= i < n
      ensures 0.0 < run[..n][i].t <= run[n].t
    {
      assert run[..n][i] == run[i];
    }
  }

  lemma LaterIsSound(cfg: Config, e: Entry, since: seq<real>, now: real, later: real)
    requires EntrySound(cfg, e, since, now) && now <= later
    ensures EntrySound(cfg, e, since, later)
  {
  }

  lemma StepIsSound(cfg: Config, run: seq<Event>, ip: Ip, now: real)
    requires run != [] && Clocked(run) && now == run[|run| - 1].t
    requires var before := run[..|run| - 1];
             ip in BookAfter(cfg, before) ==> EntrySound(cfg, BookAfter(cfg, before)[ip], Since(cfg, before, ip), now)
    ensures ip in BookAfter(cfg, run) ==> EntrySound(cfg, BookAfter(cfg, run)[ip], Since(cfg, run, ip), now)
  {
    var before, e := run[..|run| - 1], run[|run| - 1];
    var book, since := BookAfter(cfg, before), Since(cfg, before, ip);
    match e
    case Sighting(other, t) =>
      if other == ip {
        ObservedIsSound(cfg, book, ip, since, now, now);
      }
    case Cleanup(t) =>
      if ip in book {
        CleanedIsSound(cfg, book[ip], since, now);
      }
  }

  lemma CleanedIsSound(cfg: Config, e: Entry, since: seq<real>, now: real)
    requires 0.0 < now && EntrySound(cfg, e, since, now)
    ensures EntrySound(cfg, CleanEntry(cfg, e, now), since, now)
  {
    if e.Deque? {
      CleaningRemains(cfg, e.ts, since, now, now);
    }
  }

  lemma {:induction false} RunsAreSound(cfg: Config, run: seq<Event>, ip: Ip, now: real)
    requires Clocked(run) && UpTo(run, now)
    ensures ip in BookAfter(cfg, run) ==> EntrySound(cfg, BookAfter(cfg, run)[ip], Since(cfg, run, ip), now)
  {
    if run != [] {
      var t := run[|run| - 1].t;
      PrefixClocked(run, |run| - 1);
      RunsAreSound(cfg, run[..|run| - 1], ip, t);
      StepIsSound(cfg, run, ip, t);
      if ip in BookAfter(cfg, run) {
        LaterIsSound(cfg, BookAfter(cfg, run)[ip], Since(cfg, run, ip), t, now);
      }
    }
  }

  lemma SinceSighting(cfg: Config, before: seq<Event>, ip: Ip, t: real)
    ensures Since(cfg, before + [Sighting(ip, t)], ip)
         == var book := BookAfter(cfg, before);
            if ip in book && book[ip].Deque? then Since(cfg, before, ip) + [t] else [t]
  {
    assert (before + [Sighting(ip, t)])[..|before|] == before;
  }

  /** In any run with a clock that never runs backwards, a sighting is reported if and only if the last
      `tolerance` sightings since the entry was created, itself included, lie within the window. */
  lemma ReportsExactlyWhen(cfg: Config, run: seq<Event>, k: nat, ip: Ip, t: real)
    requires Clocked(run) && k < |run| && run[k] == Sighting(ip, t)
    ensures Reporting(cfg, run, k) <==> LastWithin(Since(cfg, run[..k + 1], ip), cfg.tolerance, t - cfg.window)
    ensures Reporting(cfg, run, k) ==>
              var since := Since(cfg, run[..k + 1], ip);
              && ReportOf(cfg, BookAfter(cfg, run[..k]), ip, t).value == Report(ip, since[|since| - cfg.tolerance], t)
              && Observed(cfg, BookAfter(cfg, run[..k]), ip, t) == Reported(t)
  {
    var before := run[..k];
    assert run[..k + 1] == before + [Sighting(ip, t)];
    SinceSighting(cfg, before, ip, t);
    PrefixClocked(run, k);
    RunsAreSound(cfg, before, ip, t);
    var book, since := BookAfter(cfg, before), Since(cfg, before, ip);
    assert Reporting(cfg, run, k) <==> ReportOf(cfg, book, ip, t).Some?;
    ReportedFrom(cfg, book, since, ip, t, Since(cfg, run[..k + 1], ip));
  }

  lemma ReportedFrom(cfg: Config, book: Book, since: seq<real>, ip: Ip, t: real, all: seq<real>)
    requires t > 0.0 && (ip in book ==> EntrySound(cfg, book[ip], since, t))
    requires all == if ip in book && book[ip].Deque? then since + [t] else [t]
    ensures ReportOf(cfg, book, ip, t).Some? <==> LastWithin(all, cfg.tolerance, t - cfg.window)
    ensures ReportOf(cfg, book, ip, t).Some? ==>
              && ReportOf(cfg, book, ip, t).value == Report(ip, all[|all| - cfg.tolerance], t)
              && Observed(cfg, book, ip, t) == Reported(t)
  {
    ObservedIsSound(cfg, book, ip, since, t, t);
  }

  lemma {:induction false} SinceIsSuffix(cfg: Config, run: seq<Event>, ip: Ip)
    ensures var since, all := Since(cfg, run, ip), Sightings(run, ip);
            |since| <= |all| && since == all[|all| - |since|..]
  {
    if run != [] {
      SinceIsSuffix(cfg, run[..|run| - 1], ip);
    }
  }

  /** Whatever the clean-ups did, no address is reported that was not seen often enough in the window. */
  lemma ReportsAreJustified(cfg: Config, run: seq<Event>, k: nat, ip: Ip, t: real)
    requires Clocked(run) && k < |run| && run[k] == Sighting(ip, t) && Reporting(cfg, run, k)
    ensures LastWithin(Sightings(run[..k + 1], ip), cfg.tolerance, t - cfg.window)
  {
    ReportsExactlyWhen(cfg, run, k, ip, t);
    SinceIsSuffix(cfg, run[..k + 1], ip);
  }

  /** After a report the entry stays reported until the pause is over. */
  lemma {:induction false} PausesAfterReport(cfg: Config, run: seq<Event>, i: nat, m: nat, ip: Ip)
    requires Clocked(run) && i < m <= |run| && run[i].Sighting? && run[i].ip == ip && Reporting(cfg, run, i)
    ensures var book := BookAfter(cfg, run[..m]);
            || (ip in book && book[ip] == Reported(run[i].t))
            || run[m - 1].t > run[i].t + cfg.rereportAfter
    decreases m
  {
    var before, e := run[..m - 1], run[m - 1];
    assert run[..m][..m - 1] == before && run[..m][m - 1] == e;
    assert BookAfter(cfg, run[..m]) == NextBook(cfg, BookAfter(cfg, before), e);
    if m == i + 1 {
      ReportsExactlyWhen(cfg, run, i, ip, run[i].t);
    } else {
      PausesAfterReport(cfg, run, i, m - 1, ip);
      if run[m - 2].t <= run[i].t + cfg.rereportAfter {
        ReportedStays(cfg, BookAfter(cfg, before), ip, run[i].t, e);
      } else {
        assert run[m - 2].t <= e.t;
      }
    }
  }

  lemma ReportedStays(cfg: Config, book: Book, ip: Ip, at: real, e: Event)
    requires ip in book && book[ip] == Reported(at)
    ensures var next := NextBook(cfg, book, e);
            || (ip in next && next[ip] == Reported(at))
            || e.t > at + cfg.rereportAfter
  {
  }

  /** Two reports of one address are always more than `rereport_after` apart, across any clean-ups. */
  lemma ReportsFarApart(cfg: Config, run: seq<Event>, i: nat, j: nat)
    requires Clocked(run) && i < j < |run| && Reporting(cfg, run, i) && Reporting(cfg, run, j)
    requires run[i].ip == run[j].ip
    ensures run[j].t > run[i].t + cfg.rereportAfter
  {
    PausesAfterReport(cfg, run, i, j, run[i].ip);
    assert run[j - 1].t <= run[j].t;
  }

  /** A run followed by `m` sightings of an address at one time. */
  function Followed(start: seq<Event>, ip: Ip, t: real, m: nat): (run: seq<Event>)
    ensures |run| == |start| + m
  {
    if m == 0 then start else Followed(start, ip, t, m - 1) + [Sighting(ip, t)]
  }

  function Times(t: real, m: nat): seq<real> {
    seq(m, _ => t)
  }

  predicate Counted(book: Book, ip: Ip, t: real, m: nat) {
    ip in book && book[ip] == Deque(Times(t, m))
  }

  /** After a start that leaves no entry, fewer sightings than tolerated are all counted. */
  lemma {:induction false} FollowedCount(cfg: Config, start: seq<Event>, ip: Ip, t: real, m: nat)
    requires ip !in BookAfter(cfg, start) && t > 0.0 && cfg.window >= 0.0 && 1 <= m < cfg.tolerance
    ensures Counted(BookAfter(cfg, Followed(start, ip, t, m)), ip, t, m)
    decreases m
  {
    var run := Followed(start, ip, t, m - 1);
    BookAfterOneMore(cfg, run, Sighting(ip, t));
    if m > 1 {
      FollowedCount(cfg, start, ip, t, m - 1);
    }
    OneMoreCounts(cfg, BookAfter(cfg, run), ip, t, m - 1);
  }

  lemma BookAfterOneMore(cfg: Config, run: seq<Event>, e: Event)
    ensures BookAfter(cfg, run + [e]) == NextBook(cfg, BookAfter(cfg, run), e)
    ensures Reporting(cfg, run + [e], |run|) <==>
            e.Sighting? && ReportOf(cfg, BookAfter(cfg, run), e.ip, e.t).Some?
  {
    assert (run + [e])[..|run|] == run;
  }

  lemma OneMoreCounts(cfg: Config, book: Book, ip: Ip, t: real, m: nat)
    requires t > 0.0 && cfg.window >= 0.0 && m < cfg.tolerance
    requires if m == 0 then ip !in book else Counted(book, ip, t, m)
    ensures m + 1 < cfg.tolerance ==> Counted(NextBook(cfg, book, Sighting(ip, t)), ip, t, m + 1)
    ensures ReportOf(cfg, book, ip, t).Some? <==> m + 1 == cfg.tolerance
  {
    if m == 0 {
      assert Times(t, 1) == [t];
    } else {
      assert Append(cfg, Times(t, m), t) == Times(t, m + 1);
    }
  }

  /** And the next one is reported exactly if it fills the tolerance. */
  lemma NextReports(cfg: Config, start: seq<Event>, ip: Ip, t: real, m: nat)
    requires ip !in BookAfter(cfg, start) && t > 0.0 && cfg.window >= 0.0 && m < cfg.tolerance
    ensures Reporting(cfg, Followed(start, ip, t, m + 1), |start| + m) <==> m + 1 == cfg.tolerance
  {
    var run := Followed(start, ip, t, m);
    BookAfterOneMore(cfg, run, Sighting(ip, t));
    if m > 0 {
      FollowedCount(cfg, start, ip, t, m);
    }
    OneMoreCounts(cfg, BookAfter(cfg, run), ip, t, m);
  }

  lemma SingleIsForgotten(cfg: Config, ip: Ip, t: real)
    requires t > 0.0
    ensures ip !in BookAfter(cfg, [Sighting(ip, t), Cleanup(t)])
  {
    BookAfterOneMore(cfg, [], Sighting(ip, t));
    BookAfterOneMore(cfg, [Sighting(ip, t)], Cleanup(t));
    assert [] + [Sighting(ip, t)] == [Sighting(ip, t)];
    assert [Sighting(ip, t)] + [Cleanup(t)] == [Sighting(ip, t), Cleanup(t)];
  }

  /** A clean-up forgets every address seen only once, however recently: for every tolerance, as many sightings in
      one moment are reported, but go unreported when a clean-up runs right after the first of them. */
  lemma CleanupForgetsSingles(cfg: Config, ip: Ip, t: real)
    requires cfg.window >= 0.0 && t > 0.0
    ensures ip !in BookAfter(cfg, [Sighting(ip, t), Cleanup(t)])
    ensures Reporting(cfg, Followed([], ip, t, cfg.tolerance), cfg.tolerance - 1)
    ensures !Reporting(cfg, Followed([Sighting(ip, t), Cleanup(t)], ip, t, cfg.tolerance - 1), cfg.tolerance)
  {
    NextReports(cfg, [], ip, t, cfg.tolerance - 1);
    SingleIsForgotten(cfg, ip, t);
    var cleaned := [Sighting(ip, t), Cleanup(t)];
    NextReports(cfg, cleaned, ip, t, cfg.tolerance - 2);
  }

  // ---- Counting again, and what a clean-up leaves --------------------------------

  /** A reported address is counted again exactly from the first sighting after the pause on. */
  lemma CountsAgainExactlyWhen(cfg: Config, book: Book, ip: Ip, at: real, t: real)
    requires ip in book && book[ip] == Reported(at)
    ensures var next := NextBook(cfg, book, Sighting(ip, t));
            ip in next && next[ip] == if t > at + cfg.rereportAfter then Deque([t]) else Reported(at)
    ensures ReportOf(cfg, book, ip, t) == None
  {
  }

  lemma {:induction false} UnexpiredIsSuffix(ts: seq<real>, limit: real, end: real) returns (k: nat)
    requires Sorted(ts, end)
    ensures k <= |ts| && Unexpired(ts, limit) == ts[k..]
    ensures (forall i :: 0 <= i < k ==> ts[i] < limit) && (forall i :: k <= i < |ts| ==> ts[i] >= limit)
  {
    k := 0;
    if ts != [] && ts[0] < limit {
      assert forall i :: 0 <= i < |ts[1..]| ==> ts[1..][i] == ts[i + 1];
      var m := UnexpiredIsSuffix(ts[1..], limit, end);
      k := m + 1;
      forall i | 0 <= i < |ts|
        ensures i < k ==> ts[i] < limit
        ensures i >= k ==> ts[i] >= limit
      {
        if i > 0 {
          assert ts[i] == ts[1..][i - 1];
        }
      }
    }
  }

  /** A clean-up at `t` drops a reported address after its pause, and any other unless it was seen twice, the second
      time within the pause, and last within the window; what it keeps of that are the sightings in the window. */
  lemma CleanupMeans(cfg: Config, book: Book, ip: Ip, t: real) returns (k: nat)
    requires ip in book && (book[ip].Deque? ==> Sorted(book[ip].ts, t))
    ensures var next := NextBook(cfg, book, Cleanup(t));
            match book[ip]
            case Reported(at) =>
              && (ip in next <==> t <= at + cfg.rereportAfter)
              && (ip in next ==> next[ip] == Reported(at))
            case Deque(ts) =>
              && (ip in next <==> |ts| >= 2 && t <= ts[1] + cfg.rereportAfter && ts[|ts| - 1] >= t - cfg.window)
              && (ip in next ==>
                    && k < |ts| && next[ip] == Deque(ts[k..])
                    && forall i :: 0 <= i < |ts| ==> (i >= k <==> ts[i] >= t - cfg.window))
  {
    k := 0;
    if book[ip].Deque? {
      k := UnexpiredIsSuffix(book[ip].ts, t - cfg.window, t);
    }
  }
}
