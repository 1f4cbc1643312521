/** The blocklist feed over the entity index. Times are in milliseconds. */
module Feed {
  import opened Bytes
  import opened Entities
  import opened Reason
  import opened Times

  const MAX_LIMIT: int := 10000
  const DEFAULT_WINDOW: string := "7d"

  function StageRank(s: Stage): nat {
    match s
    case Unconfirmed => 0
    case Stage1Serving => 1
    case Stage2C2 => 2
  }

  function StagesAtOrAbove(minRank: int): set<Stage> {
    set s | s in {Unconfirmed, Stage1Serving, Stage2C2} && StageRank(s) >= minRank
  }

  // ---- Parameters ----------------------------------------------------------

  predicate IsDigit(c: char) {
    '0' <= c <= '9'
  }

  /** One or more digits, then one of `s`, `m`, `h`, `d`. */
  predicate ValidWindow(w: string) {
    |w| >= 2 && w[|w| - 1] in {'s', 'm', 'h', 'd'} && forall i :: 0 <= i < |w| - 1 ==> IsDigit(w[i])
  }

  function Number(digits: string): nat
    requires forall i :: 0 <= i < |digits| ==> IsDigit(digits[i])
  {
    if digits == "" then 0
    else
      assert IsDigit(digits[|digits| - 1]);
      10 * Number(digits[..|digits| - 1]) + (digits[|digits| - 1] as int - '0' as int)
  }

  function UnitMillis(unit: char): nat {
    if unit == 's' then SECOND
    else if unit == 'm' then 60 * SECOND
    else if unit == 'h' then HOUR
    else DAY
  }

  /** Without a final newline, which the pattern for windows overlooks. */
  function Chomped(w: string): string {
    if w != "" && w[|w| - 1] == '\n' then w[..|w| - 1] else w
  }

  predicate Matches(w: string) {
    ValidWindow(Chomped(w))
  }

  /** The window that the index is asked for; one that does not match falls back to the default. */
  function PassedOn(w: string): (v: string)
    ensures Matches(v)
  {
    if Matches(w) then w else DEFAULT_WINDOW
  }

  function WindowMillis(w: string): nat
    requires Matches(w)
  {
    var v := Chomped(w);
    Number(v[..|v| - 1]) * UnitMillis(v[|v| - 1])
  }

  /** A well-formed window with a newline behind it is not replaced by the default: the index gets it as it is. */
  lemma NewlineIsPassedOn(w: string)
    requires ValidWindow(w)
    ensures !ValidWindow(w + "\n") && PassedOn(w + "\n") == w + "\n" && WindowMillis(w + "\n") == WindowMillis(w)
  {
    assert Chomped(w + "\n") == w && Chomped(w) == w;
  }

  /** A number is read digit by digit, the most significant first. */
  lemma NumberMeans(digits: string, c: char)
    requires (forall i :: 0 <= i < |digits| ==> IsDigit(digits[i])) && IsDigit(c)
    ensures (forall i :: 0 <= i < |digits + [c]| ==> IsDigit((digits + [c])[i]))
    ensures Number(digits + [c]) == 10 * Number(digits) + (c as int - '0' as int) && Number("") == 0
  {
    assert (digits + [c])[..|digits|] == digits;
  }

  lemma UnitWindow(digits: string, unit: char)
    requires digits != "" && (forall i :: 0 <= i < |digits| ==> IsDigit(digits[i])) && unit in {'s', 'm', 'h', 'd'}
    ensures Matches(digits + [unit]) && WindowMillis(digits + [unit]) == Number(digits) * UnitMillis(unit)
  {
    var w := digits + [unit];
    assert Chomped(w) == w && w[..|digits|] == digits;
  }

  /** A window is so many seconds, minutes, hours or days; without a well-formed one it is seven days. */
  lemma WindowMeans(digits: string, w: string)
    requires digits != "" && forall i :: 0 <= i < |digits| ==> IsDigit(digits[i])
    ensures Matches(digits + "s") && WindowMillis(digits + "s") == Number(digits) * 1_000
    ensures Matches(digits + "m") && WindowMillis(digits + "m") == Number(digits) * 60_000
    ensures Matches(digits + "h") && WindowMillis(digits + "h") == Number(digits) * 3_600_000
    ensures Matches(digits + "d") && WindowMillis(digits + "d") == Number(digits) * 86_400_000
    ensures Matches(w) ==> PassedOn(w) == w
    ensures !Matches(w) ==> PassedOn(w) == "7d"
  {
    UnitWindow(digits, 's');
    UnitWindow(digits, 'm');
    UnitWindow(digits, 'h');
    UnitWindow(digits, 'd');
  }

  lemma SevenDays()
    ensures Matches("7d") && WindowMillis("7d") == 604_800_000
  {
    NumberMeans("", '7');
    assert "" + ['7'] == "7" && "7" + "d" == "7d";
    WindowMeans("7", "7d");
  }

  /** A request at time `now`, before its parameters are clamped. */
  datatype Query = Query(minStage: int, window: string, limit: int, now: int)

  function MinStage(q: Query): int {
    Max(0, Min(q.minStage, 2))
  }

  function Limit(q: Query): nat {
    Max(1, Min(q.limit, MAX_LIMIT))
  }

  function From(q: Query): int {
    q.now - WindowMillis(PassedOn(q.window))
  }

  /** Stages above 2 and below 0, and limits beyond 1 and 10000, are clamped; stages are asked for by rank. */
  lemma ParametersMean(q: Query)
    ensures MinStage(q) == if q.minStage <= 0 then 0 else if q.minStage == 1 then 1 else 2
    ensures Limit(q) == if q.limit < 1 then 1 else if q.limit > 10_000 then 10_000 else q.limit
    ensures StagesAtOrAbove(0) == {Unconfirmed, Stage1Serving, Stage2C2}
    ensures StagesAtOrAbove(1) == {Stage1Serving, Stage2C2} && StagesAtOrAbove(2) == {Stage2C2}
    ensures q.window == "7d" ==> From(q) == q.now - 604_800_000
  {
    SevenDays();
  }

  // ---- The search ----------------------------------------------------------

  predicate Qualifies(e: Entity, q: Query) {
    e.overlay.stage in StagesAtOrAbove(MinStage(q)) && e.lastSeen >= From(q)
  }

  function Qualifying(index: Index, q: Query): set<string> {
    set h | h in index && Qualifies(index[h], q)
  }

  function LastSeen(index: Index, host: string): int {
    if host in index then index[host].lastSeen else 0
  }

  /** Different hosts, the most recently seen first. */
  ghost predicate NewestFirst(index: Index, hosts: seq<string>) {
    && (forall i, j :: 0 <= i < j < |hosts| ==> hosts[i] != hosts[j])
    && (forall i, j :: 0 <= i < j < |hosts| ==> LastSeen(index, hosts[i]) >= LastSeen(index, hosts[j]))
  }

  /** A correct answer to the search: the newest qualifying entities, newest first, up to the limit. */
  ghost predicate Answers(index: Index, q: Query, hits: seq<string>) {
    && (forall h :: h in hits ==> h in Qualifying(index, q))
    && NewestFirst(index, hits)
    && (forall g, h :: g in hits && h in Qualifying(index, q) && h !in hits ==> LastSeen(index, g) >= LastSeen(index, h))
    && |hits| == Min(Limit(q), |Qualifying(index, q)|)
  }

  ghost predicate IsNewest(index: Index, hosts: set<string>, h: string) {
    h in hosts && forall g :: g in hosts ==> LastSeen(index, h) >= LastSeen(index, g)
  }

  lemma {:induction false} NewestExists(index: Index, hosts: set<string>)
    requires hosts != {}
    ensures exists h :: IsNewest(index, hosts, h)
    decreases |hosts|
  {
    var h :| h in hosts;
    if hosts == {h} {
      assert IsNewest(index, hosts, h);
    } else {
      NewestExists(index, hosts - {h});
      var n :| IsNewest(index, hosts - {h}, n);
      var best := if LastSeen(index, n) >= LastSeen(index, h) then n else h;
      assert IsNewest(index, hosts, best);
    }
  }

  /** `accepts` tells which windows the index takes; the search raises on others, such as those with a newline. */
  method SearchEntities(index: Index, q: Query, accepts: string -> bool) returns (hits: seq<string>, ok: bool)
    ensures ok == accepts(PassedOn(q.window))
    ensures ok ==> Answers(index, q, hits)
  {
    if !accepts(PassedOn(q.window)) {
      return [], false;
    }
    ok := true;
    ghost var all := Qualifying(index, q);
    var rest := Qualifying(index, q);
    hits := [];
    while |hits| < Limit(q) && rest != {}
      invariant forall h :: h in all <==> h in hits || h in rest
      invariant forall h :: h in hits ==> h !in rest
      invariant NewestFirst(index, hits)
      invariant forall g, h :: g in hits && h in rest ==> LastSeen(index, g) >= LastSeen(index, h)
      invariant |hits| + |rest| == |all| && |hits| <= Limit(q)
      decreases |rest|
    {
      NewestExists(index, rest);
      ghost var newest :| IsNewest(index, rest, newest);
      var h :| h in rest && forall g :: g in rest ==> LastSeen(index, h) >= LastSeen(index, g);
      hits := hits + [h];
      rest := rest - {h};
    }
  }

  // ---- The feed ------------------------------------------------------------

  datatype Feed = Feed(minStage: int, count: nat, ips: seq<string>, entities: seq<Entity>)

  /** The hits that have a host. */
  function Named(hits: seq<string>): (r: seq<string>)
    ensures forall h :: h in r <==> h in hits && h != ""
    ensures |r| <= |hits|
  {
    if hits == [] then []
    else
      var h := hits[|hits| - 1];
      assert hits == hits[..|hits| - 1] + [h];
      Named(hits[..|hits| - 1]) + if h == "" then [] else [h]
  }

  /** The addresses among them. */
  function Addresses(hosts: seq<string>, isIp: string -> bool): (r: seq<string>)
    ensures forall h :: h in r <==> h in hosts && isIp(h)
  {
    if hosts == [] then []
    else
      var h := hosts[|hosts| - 1];
      assert hosts == hosts[..|hosts| - 1] + [h];
      Addresses(hosts[..|hosts| - 1], isIp) + if isIp(h) then [h] else []
  }

  function EntitiesOf(index: Index, hosts: seq<string>): seq<Entity>
    requires forall h :: h in hosts ==> h in index
  {
    seq(|hosts|, i requires 0 <= i < |hosts| => index[hosts[i]])
  }

  /** `isIp` is the library's address parser. The feed lists the hits of the search that have a host, one by one
      and in their order, and separately the addresses among them; there is none where the search raises. */
  method BuildFeed(index: Index, q: Query, accepts: string -> bool, isIp: string -> bool)
    returns (built: Option<Feed>, ghost hits: seq<string>)
    requires forall h :: h in index ==> index[h].host == h
    ensures built.Some? <==> accepts(PassedOn(q.window))
    ensures built.Some? ==> Answers(index, q, hits) && Lists(built.value, index, q, isIp, hits)
  {
    var found, ok := SearchEntities(index, q, accepts);
    hits := found;
    if !ok {
      return None, hits;
    }
    var entities, ips := Collect(index, found, isIp);
    if |Qualifying(index, q)| <= Limit(q) {
      AllHit(index, q, hits);
      forall h | h in Qualifying(index, q) && h != ""
        ensures index[h] in entities
      {
        var i :| 0 <= i < |Named(hits)| && Named(hits)[i] == h;
        assert entities[i] == index[h];
      }
    }
    built := Some(Feed(MinStage(q), |entities|, ips, entities));
  }

  /** The feed is made of these hits, in their order; none left out is newer, and within the limit none is left out. */
  ghost predicate Lists(feed: Feed, index: Index, q: Query, isIp: string -> bool, hits: seq<string>)
    requires forall h :: h in hits ==> h in index
  {
    && feed.minStage == MinStage(q)
    && feed.entities == EntitiesOf(index, Named(hits)) && feed.count == |Named(hits)|
    && feed.ips == Addresses(Named(hits), isIp)
    && NewestFirst(index, Named(hits)) && NewestFirst(index, feed.ips)
    && (|Qualifying(index, q)| <= Limit(q) ==>
          forall h :: h in Qualifying(index, q) && h != "" ==> index[h] in feed.entities && (isIp(h) ==> h in feed.ips))
    && (forall h, g :: h in Qualifying(index, q) && h != "" && h !in Named(hits) && g in Named(hits) ==>
          LastSeen(index, g) >= LastSeen(index, h))
  }

  /** The loop over the hits. */
  method Collect(index: Index, hits: seq<string>, isIp: string -> bool) returns (entities: seq<Entity>, ips: seq<string>)
    requires forall h :: h in index ==> index[h].host == h
    requires NewestFirst(index, hits) && forall h :: h in hits ==> h in index
    ensures entities == EntitiesOf(index, Named(hits)) && ips == Addresses(Named(hits), isIp)
    ensures NewestFirst(index, Named(hits)) && NewestFirst(index, ips)
  {
    entities, ips := [], [];
    var seenIp: set<string> := {};
    for i := 0 to |hits|
      invariant Collected(index, hits[..i], isIp, entities, ips)
      invariant forall h :: h in seenIp <==> h in ips
    {
      NextIsNew(index, hits, i);
      NextHit(index, hits[..i], hits[i], isIp, entities, ips);
      var src := index[hits[i]];
      var host := src.host;
      if host == "" {
        continue;
      }
      entities := entities + [src];
      if isIp(host) && host !in seenIp {
        seenIp := seenIp + {host};
        ips := ips + [host];
      }
    }
    assert hits[..|hits|] == hits;
    NamedNewest(index, hits);
    AddressesNewest(index, Named(hits), isIp);
  }

  /** What the loop has made of the hits so far. */
  ghost predicate Collected(index: Index, hits: seq<string>, isIp: string -> bool, entities: seq<Entity>, ips: seq<string>) {
    && (forall h :: h in hits ==> h in index)
    && entities == EntitiesOf(index, Named(hits))
    && ips == Addresses(Named(hits), isIp)
  }

  lemma NextIsNew(index: Index, hits: seq<string>, i: nat)
    requires i < |hits| && NewestFirst(index, hits)
    ensures hits[i] in hits && hits[i] !in hits[..i] && hits[..i + 1] == hits[..i] + [hits[i]]
  {
    assert forall j :: 0 <= j < i ==> hits[j] != hits[i];
  }

  lemma NamedSnoc(before: seq<string>, h: string)
    ensures Named(before + [h]) == if h == "" then Named(before) else Named(before) + [h]
  {
    assert (before + [h])[..|before|] == before;
  }

  lemma AddressesSnoc(named: seq<string>, h: string, isIp: string -> bool)
    ensures Addresses(named + [h], isIp) == if isIp(h) then Addresses(named, isIp) + [h] else Addresses(named, isIp)
  {
    assert (named + [h])[..|named|] == named;
  }

  lemma EntitiesSnoc(index: Index, named: seq<string>, h: string)
    requires h in index && forall g :: g in named ==> g in index
    ensures EntitiesOf(index, named + [h]) == EntitiesOf(index, named) + [index[h]]
  {
  }

  /** What the next hit adds; it was not seen before. */
  lemma NextHit(index: Index, before: seq<string>, h: string, isIp: string -> bool, entities: seq<Entity>, ips: seq<string>)
    requires h in index && h !in before && Collected(index, before, isIp, entities, ips)
    ensures h !in ips
    ensures Collected(index, before + [h], isIp,
                      if h == "" then entities else entities + [index[h]],
                      if h == "" || !isIp(h) then ips else ips + [h])
  {
    NamedSnoc(before, h);
    if h != "" {
      AddressesSnoc(Named(before), h, isIp);
      EntitiesSnoc(index, Named(before), h);
    }
  }

  lemma {:induction false} NamedNewest(index: Index, hits: seq<string>)
    requires NewestFirst(index, hits)
    ensures NewestFirst(index, Named(hits))
  {
    if hits != [] {
      NamedNewest(index, hits[..|hits| - 1]);
      NewestSnoc(index, hits[..|hits| - 1], Named(hits[..|hits| - 1]), hits[|hits| - 1]);
    }
  }

  lemma {:induction false} AddressesNewest(index: Index, hosts: seq<string>, isIp: string -> bool)
    requires NewestFirst(index, hosts)
    ensures NewestFirst(index, Addresses(hosts, isIp))
  {
    if hosts != [] {
      AddressesNewest(index, hosts[..|hosts| - 1], isIp);
      NewestSnoc(index, hosts[..|hosts| - 1], Addresses(hosts[..|hosts| - 1], isIp), hosts[|hosts| - 1]);
    }
  }

  /** What may follow a list may follow a selection from it. */
  lemma NewestSnoc(index: Index, all: seq<string>, some: seq<string>, h: string)
    requires NewestFirst(index, all + [h]) && NewestFirst(index, some) && forall g :: g in some ==> g in all
    ensures NewestFirst(index, some + [h])
  {
    forall i | 0 <= i < |some|
      ensures some[i] != h && LastSeen(index, some[i]) >= LastSeen(index, h)
    {
      assert some[i] in some;
      var j :| 0 <= j < |all| && all[j] == some[i];
      assert (all + [h])[j] == some[i] && (all + [h])[|all|] == h;
    }
  }

  /** Below the limit the search returns everything that qualifies. */
  lemma AllHit(index: Index, q: Query, hits: seq<string>)
    requires Answers(index, q, hits) && |hits| == |Qualifying(index, q)|
    ensures forall h :: h in hits <==> h in Qualifying(index, q)
  {
    var found := set h | h in hits;
    DistinctCount(hits);
    assert found <= Qualifying(index, q);
    if found != Qualifying(index, q) {
      assert |Qualifying(index, q) - found| == |Qualifying(index, q)| - |found|;
    }
  }

  lemma {:induction false} DistinctCount(s: seq<string>)
    requires forall i, j :: 0 <= i < j < |s| ==> s[i] != s[j]
    ensures |set h | h in s| == |s|
  {
    if s != [] {
      var before, last := s[..|s| - 1], s[|s| - 1];
      DistinctCount(before);
      assert (set h | h in s) == (set h | h in before) + {last};
    }
  }

  // ---- From the ledger to the blocklist ------------------------------------

  /** What qualifies a host, in terms of the retained ledger rows alone. */
  ghost predicate EvidenceQualifies(ledger: seq<Row>, since: int, q: Query, host: string) {
    && (exists r :: Sighted(ledger, since, r) && r.host == host
                   && r.rank >= (if q.minStage <= 0 then 0 else if q.minStage == 1 then 1 else 2))
    && (exists r :: Sighted(ledger, since, r) && r.host == host && r.ts >= From(q))
  }

  /** After any run that ends with a completed pass, a host qualifies for the feed exactly by its own
      retained evidence: one row of high enough rank and one recent enough. VirusTotal verdicts, toolkits
      and intel matches, which `s` holds, appear on neither side. */
  lemma FeedFollowsEvidence(events: seq<Event>, s: Setting, q: Query, host: string)
    ensures var w := AfterRun(events + [Pass(s, [])]);
            && (forall h :: h in w.index ==> w.index[h].host == h)
            && (host in Qualifying(w.index, q) <==> EvidenceQualifies(w.ledger, Since(s.now), q, host))
  {
    var w := AfterRun(events + [Pass(s, [])]);
    IndexIsGroupBy(events, s);
    forall h | h in w.index ensures w.index[h].host == h {
      EntitySummarises(w.ledger, s, h);
    }
    if host in Hosts(w.ledger, Since(s.now)) {
      EntitySummarises(w.ledger, s, host);
      SummaryQualifies(w.index[host], w.ledger, Since(s.now), q, host);
    }
  }

  lemma SummaryQualifies(e: Entity, ledger: seq<Row>, since: int, q: Query, host: string)
    requires Summarises(e, ledger, since, host)
    ensures Qualifies(e, q) <==> EvidenceQualifies(ledger, since, q, host)
  {
    var top :| top in ledger && top.host == host && top.ts >= since && top.rank == e.maxEvidenceRank;
    var last :| last in ledger && last.host == host && last.ts == e.lastSeen >= since;
    assert Sighted(ledger, since, top) && Sighted(ledger, since, last);
  }

  /** Two passes that differ only in what third parties say list the same hosts. */
  lemma ThirdPartiesMoveNothing(events: seq<Event>, s1: Setting, s2: Setting, q: Query)
    requires s1.now == s2.now
    ensures Qualifying(AfterRun(events + [Pass(s1, [])]).index, q) == Qualifying(AfterRun(events + [Pass(s2, [])]).index, q)
  {
    IndexIsGroupBy(events, s1);
    IndexIsGroupBy(events, s2);
    forall host ensures host in Qualifying(AfterRun(events + [Pass(s1, [])]).index, q)
                        <==> host in Qualifying(AfterRun(events + [Pass(s2, [])]).index, q) {
      FeedFollowsEvidence(events, s1, q, host);
      FeedFollowsEvidence(events, s2, q, host);
    }
  }
}
