/** abuse.ch intel: the fleet-wide IOC cache with its refreshes, the in-memory
    indexes that are paged in from it, and the matcher. Times are in milliseconds. */
module Intel {
  import opened Bytes
  import opened Entities
  import opened Search

  const LOAD_CAP: nat := 100_000
  const LOAD_PAGE: nat := 5_000

  datatype IocType = Ip | Domain | Url | Hash

  /** A normalized indicator; `host` is empty when it has none. */
  datatype Ioc = Ioc(source: string, iocType: IocType, value: string, host: string, malware: set<string>, tags: set<string>)

  datatype Doc = Doc(ioc: Ioc, fetchedAt: int)

  /** The cache index, by document id. */
  type Cache = map<string, Doc>

  // ---- Normalization -------------------------------------------------------

  function LowerChar(c: char): char {
    if 'A' <= c <= 'Z' then c - 'A' + 'a' else c
  }

  function Lower(s: string): (r: string)
    ensures |r| == |s|
  {
    seq(|s|, i requires 0 <= i < |s| => LowerChar(s[i]))
  }

  /** Capital letters become small, and nothing else changes. */
  lemma LowerMeans(s: string)
    ensures var r := Lower(s);
            && |r| == |s|
            && forall i :: 0 <= i < |s| ==>
                 !('A' <= r[i] <= 'Z') && (r[i] == s[i] || ('A' <= s[i] <= 'Z' && r[i] as int == s[i] as int + 32))
  {
  }

  predicate IsSpace(c: char) {
    c == ' ' || '\t' <= c <= '\r'
  }

  function Strip(s: string): (r: string)
    ensures r != "" ==> !IsSpace(r[0]) && !IsSpace(r[|r| - 1])
  {
    if s == "" then s
    else if IsSpace(s[0]) then Strip(s[1..])
    else if IsSpace(s[|s| - 1]) then Strip(s[..|s| - 1])
    else s
  }

  predicate Blank(s: string) {
    forall i :: 0 <= i < |s| ==> s[i] in {' ', '\t', '\n', '\r'}
  }

  /** White space around a text that neither begins nor ends with it is what stripping removes. */
  lemma {:induction false} StripPadded(a: string, s: string, b: string)
    requires Blank(a) && Blank(b) && (s != "" ==> !IsSpace(s[0]) && !IsSpace(s[|s| - 1]))
    ensures Strip(a + s + b) == s
    decreases |a| + |b|
  {
    var t := a + s + b;
    if a != "" {
      assert t[1..] == a[1..] + s + b && t[0] == a[0];
      StripPadded(a[1..], s, b);
    } else if b != "" {
      assert t == s + b && t[|t| - 1] == b[|b| - 1];
      if s == "" {
        assert t[1..] == "" + s + b[1..];
        StripPadded("", s, b[1..]);
      } else {
        assert t[..|t| - 1] == "" + s + b[..|b| - 1];
        StripPadded("", s, b[..|b| - 1]);
      }
    } else {
      assert t == s;
    }
  }

  /** The text before the first colon. */
  function UpToColon(s: string): (r: string)
    ensures |r| <= |s| && r == s[..|r|] && ':' !in r && (|r| == |s| || s[|r|] == ':')
  {
    if s == "" || s[0] == ':' then "" else [s[0]] + UpToColon(s[1..])
  }

  /** `urlsplit(...).hostname`, empty for none: part of Python's library, so a parameter. */
  type HostName = string -> string

  /** The host that a value matches on. */
  function HostOf(hostName: HostName, value: string, t: IocType): string {
    match t
    case Url => Lower(hostName(value))
    case Ip => Lower(Strip(UpToColon(value)))
    case Domain => Lower(Strip(value))
    case Hash => ""
  }

  function Clean(items: set<string>): set<string> {
    set s | s in items && Strip(s) != "" && Lower(Strip(s)) != "none" :: Strip(s)
  }

  function MakeIoc(hostName: HostName, source: string, t: IocType, raw: string, malware: set<string>, tags: set<string>): Ioc {
    var value := if t.Ip? then Strip(raw) else Lower(Strip(raw));
    Ioc(source, t, value, HostOf(hostName, value, t), Clean(malware), Clean(tags))
  }

  /** What `MakeIoc` produces and the cache holds. */
  predicate WellFormed(hostName: HostName, r: Ioc) {
    r.host == HostOf(hostName, r.value, r.iocType) && (r.iocType.Ip? || Lower(r.value) == r.value)
  }

  lemma LowerTwice(s: string)
    ensures Lower(Lower(s)) == Lower(s)
  {
  }

  lemma MakeIocWellFormed(hostName: HostName, source: string, t: IocType, raw: string, malware: set<string>, tags: set<string>)
    ensures WellFormed(hostName, MakeIoc(hostName, source, t, raw, malware, tags))
  {
    LowerTwice(Strip(raw));
  }

  /** A text without white space and colons. */
  predicate Plain(s: string) {
    s != "" && forall c :: c in s ==> c != ':' && !IsSpace(c)
  }

  lemma PlainEnds(s: string)
    requires Plain(s)
    ensures !IsSpace(s[0]) && !IsSpace(s[|s| - 1])
  {
    assert s[0] in s && s[|s| - 1] in s;
  }

  lemma PlainStrips(s: string)
    requires Plain(s)
    ensures Strip(s) == s && Strip(" " + s + " ") == s
  {
    PlainEnds(s);
    StripPadded("", s, "");
    assert "" + s + "" == s;
    StripPadded(" ", s, " ");
  }

  lemma LowerIsPlain(s: string)
    requires Plain(s)
    ensures Plain(Lower(s))
  {
    var lower := Lower(s);
    forall c | c in lower
      ensures c != ':' && !IsSpace(c)
    {
      var i :| 0 <= i < |lower| && lower[i] == c;
      assert s[i] in s;
    }
  }

  lemma WithPort(text: string, port: string)
    requires Plain(text) && (port == "" || Plain(port))
    ensures Strip(text + ":" + port) == text + ":" + port && UpToColon(text + ":" + port) == text && UpToColon(text) == text
  {
    var whole := text + ":" + port;
    assert text[0] in text && whole[0] == text[0];
    assert port != "" ==> port[|port| - 1] in port;
    StripPadded("", whole, "");
    assert "" + whole + "" == whole;
    assert whole[..|text|] == text && whole[|text|] == ':';
    BeforeColon(whole, text);
    BeforeColon(text, text);
  }

  /** What an indicator is found by: an address without its port, a domain, or the host of a URL, in lower case; and
      its own value, in lower case unless it is an address. */
  lemma MakeIocMeans(hostName: HostName, source: string, text: string, port: string, t: IocType, malware: set<string>, tags: set<string>)
    requires Plain(text) && (port == "" || Plain(port))
    ensures MakeIoc(hostName, source, Ip, text + ":" + port, malware, tags).host == Lower(text)
    ensures var r := MakeIoc(hostName, source, t, " " + text + " ", malware, tags);
            && r.source == source && r.iocType == t && r.malware == Clean(malware) && r.tags == Clean(tags)
            && r.value == (if t.Ip? then text else Lower(text))
            && r.host == (if t.Url? then Lower(hostName(Lower(text))) else if t.Hash? then "" else Lower(text))
  {
    PlainStrips(text);
    LowerIsPlain(text);
    PlainStrips(Lower(text));
    WithPort(text, port);
    LowerTwice(text);
  }

  lemma BeforeColon(s: string, text: string)
    requires |text| <= |s| && s[..|text|] == text && ':' !in text && (|text| == |s| || s[|text|] == ':')
    ensures UpToColon(s) == text
  {
  }

  /** Malware names and tags lose blanks around them; empty ones and "none" are dropped. */
  lemma CleanMeans(items: set<string>, text: string)
    requires Plain(text)
    ensures text in Clean(items) <==> Lower(text) != "none" && exists s :: s in items && Strip(s) == text
    ensures " " + text + " " in items && Lower(text) != "none" ==> text in Clean(items)
    ensures "" !in Clean(items)
  {
    PlainStrips(text);
  }

  // ---- The in-memory indexes -----------------------------------------------

  datatype Indexes = Indexes(urls: map<string, Ioc>, hosts: map<string, seq<Ioc>>, hashes: map<string, Ioc>)

  const EmptyIndexes := Indexes(map[], map[], map[])

  function Under(hosts: map<string, seq<Ioc>>, host: string): seq<Ioc> {
    if host in hosts then hosts[host] else []
  }

  function AddIoc(ix: Indexes, r: Ioc): Indexes {
    Indexes(if r.iocType.Url? then ix.urls[r.value := r] else ix.urls,
            if r.host != "" then ix.hosts[r.host := Under(ix.hosts, r.host) + [r]] else ix.hosts,
            if r.iocType.Hash? then ix.hashes[r.value := r] else ix.hashes)
  }

  function Build(iocs: seq<Ioc>): Indexes {
    if iocs == [] then EmptyIndexes else AddIoc(Build(iocs[..|iocs| - 1]), iocs[|iocs| - 1])
  }

  /** `r` is the last indicator of its type and value. */
  ghost predicate LastOf(iocs: seq<Ioc>, t: IocType, value: string, r: Ioc) {
    exists i :: 0 <= i < |iocs| && iocs[i] == r && r.iocType == t && r.value == value
                && forall j :: i < j < |iocs| ==> iocs[j].iocType != t || iocs[j].value != value
  }

  /** A dictionary by value holds, for each value of its type, the last indicator. */
  ghost predicate ValuesMean(iocs: seq<Ioc>, t: IocType, byValue: map<string, Ioc>) {
    && (forall r :: r in iocs && r.iocType == t ==> r.value in byValue)
    && (forall v :: v in byValue ==> LastOf(iocs, t, v, byValue[v]))
  }

  ghost predicate HostsMean(iocs: seq<Ioc>, hosts: map<string, seq<Ioc>>) {
    forall h, r :: r in Under(hosts, h) <==> r in iocs && r.host == h && h != ""
  }

  ghost predicate IndexesMean(iocs: seq<Ioc>, ix: Indexes) {
    && ValuesMean(iocs, Url, ix.urls)
    && ValuesMean(iocs, Hash, ix.hashes)
    && HostsMean(iocs, ix.hosts)
  }

  lemma LastOfExtends(iocs: seq<Ioc>, r: Ioc, t: IocType, value: string, last: Ioc)
    ensures LastOf(iocs, t, value, last) && (r.iocType != t || r.value != value) ==> LastOf(iocs + [r], t, value, last)
    ensures r.iocType == t && r.value == value ==> LastOf(iocs + [r], t, value, r)
  {
    assert (iocs + [r])[|iocs|] == r;
    if LastOf(iocs, t, value, last) && (r.iocType != t || r.value != value) {
      var i :| 0 <= i < |iocs| && iocs[i] == last && last.iocType == t && last.value == value
               && forall j :: i < j < |iocs| ==> iocs[j].iocType != t || iocs[j].value != value;
      assert (iocs + [r])[i] == last;
    }
  }

  lemma AddValueMeans(iocs: seq<Ioc>, t: IocType, byValue: map<string, Ioc>, r: Ioc)
    requires ValuesMean(iocs, t, byValue)
    ensures ValuesMean(iocs + [r], t, if r.iocType == t then byValue[r.value := r] else byValue)
  {
    var after := if r.iocType == t then byValue[r.value := r] else byValue;
    forall v | v in after
      ensures LastOf(iocs + [r], t, v, after[v])
    {
      LastOfExtends(iocs, r, t, v, if v in byValue then byValue[v] else r);
      if v in byValue && !(r.iocType == t && r.value == v) {
        assert LastOf(iocs, t, v, byValue[v]);
      }
    }
  }

  lemma AddIocMeans(iocs: seq<Ioc>, ix: Indexes, r: Ioc)
    requires IndexesMean(iocs, ix)
    ensures IndexesMean(iocs + [r], AddIoc(ix, r))
  {
    AddValueMeans(iocs, Url, ix.urls, r);
    AddValueMeans(iocs, Hash, ix.hashes, r);
    AddHostMeans(iocs, ix.hosts, r);
  }

  lemma AddHostMeans(iocs: seq<Ioc>, hosts: map<string, seq<Ioc>>, r: Ioc)
    requires HostsMean(iocs, hosts)
    ensures HostsMean(iocs + [r], if r.host != "" then hosts[r.host := Under(hosts, r.host) + [r]] else hosts)
  {
    var all, after := iocs + [r], if r.host != "" then hosts[r.host := Under(hosts, r.host) + [r]] else hosts;
    forall h, q
      ensures q in Under(after, h) <==> q in all && q.host == h && h != ""
    {
      assert q in Under(hosts, h) <==> q in iocs && q.host == h && h != "";
      assert Under(after, h) == if r.host != "" && h == r.host then Under(hosts, h) + [r] else Under(hosts, h);
      assert q in all <==> q in iocs || q == r;
    }
  }

  lemma {:induction false} BuildMeans(iocs: seq<Ioc>)
    ensures IndexesMean(iocs, Build(iocs))
  {
    if iocs != [] {
      BuildMeans(iocs[..|iocs| - 1]);
      AddIocMeans(iocs[..|iocs| - 1], Build(iocs[..|iocs| - 1]), iocs[|iocs| - 1]);
      assert iocs == iocs[..|iocs| - 1] + [iocs[|iocs| - 1]];
    }
  }

  // ---- Matching ------------------------------------------------------------

  /** An entity to corroborate. */
  datatype Query = Query(host: string, resolvedIps: set<string>, urls: set<string>, shas: set<string>)

  datatype Match = Match(sources: set<string>, malware: set<string>, tags: set<string>)

  function Aggregate(hits: set<Ioc>): Match {
    Match(set r | r in hits :: r.source,
          set r, m | r in hits && m in r.malware :: m,
          set r, t | r in hits && t in r.tags :: t)
  }

  function CandidateHosts(hostName: HostName, q: Query): set<string> {
    (if q.host != "" then {Lower(q.host)} else {})
    + (set ip | ip in q.resolvedIps && ip != "" :: Lower(ip))
    + (set u | u in q.urls && Lower(hostName(u)) != "" :: Lower(hostName(u)))
  }

  /** The indicators that the three lookups find. */
  function Hits(hostName: HostName, ix: Indexes, q: Query): set<Ioc> {
    (set u | u in q.urls && Lower(u) in ix.urls :: ix.urls[Lower(u)])
    + (set h, r | h in CandidateHosts(hostName, q) && r in Under(ix.hosts, h) :: r)
    + (set s | s in q.shas && Lower(s) in ix.hashes :: ix.hashes[Lower(s)])
  }

  /** The plain meaning of a match, indicator by indicator. */
  ghost predicate Corroborates(hostName: HostName, r: Ioc, q: Query) {
    || (r.iocType.Url? && exists u :: u in q.urls && Lower(u) == r.value)
    || (r.iocType.Hash? && exists s :: s in q.shas && Lower(s) == r.value)
    || (r.host != ""
        && ((q.host != "" && Lower(q.host) == r.host)
            || (exists ip :: ip in q.resolvedIps && ip != "" && Lower(ip) == r.host)
            || (exists u :: u in q.urls && Lower(hostName(u)) == r.host)))
  }

  lemma CandidatesMean(hostName: HostName, q: Query, host: string)
    requires host != ""
    ensures host in CandidateHosts(hostName, q) <==>
            || (q.host != "" && Lower(q.host) == host)
            || (exists ip :: ip in q.resolvedIps && ip != "" && Lower(ip) == host)
            || (exists u :: u in q.urls && Lower(hostName(u)) == host)
  {
  }

  ghost function Scan(hostName: HostName, iocs: seq<Ioc>, q: Query): set<Ioc> {
    set r | r in iocs && Corroborates(hostName, r, q)
  }

  /** The host of a URL does not depend on letter case. */
  ghost predicate CaseBlind(hostName: HostName) {
    forall u :: Lower(hostName(Lower(u))) == Lower(hostName(u))
  }

  /** Indicators as the cache serves them: well formed, and no feed repeats a value. */
  ghost predicate Served(hostName: HostName, iocs: seq<Ioc>) {
    && (forall r :: r in iocs ==> WellFormed(hostName, r))
    && (forall i, j :: 0 <= i < j < |iocs| && iocs[i].value == iocs[j].value ==> iocs[i].source != iocs[j].source)
  }

  /** Some URL or hash is listed again later and has no host to be found by. */
  ghost predicate Hides(iocs: seq<Ioc>, i: nat, j: nat) {
    && i < j < |iocs|
    && iocs[i].iocType == iocs[j].iocType
    && (iocs[i].iocType.Url? || iocs[i].iocType.Hash?)
    && iocs[i].value == iocs[j].value
    && iocs[i].host == ""
  }

  lemma LastIsListed(iocs: seq<Ioc>, t: IocType, value: string, r: Ioc)
    requires LastOf(iocs, t, value, r)
    ensures r in iocs && r.iocType == t && r.value == value
  {
  }

  lemma HitsCorroborate(hostName: HostName, iocs: seq<Ioc>, q: Query)
    ensures Hits(hostName, Build(iocs), q) <= Scan(hostName, iocs, q)
  {
    var ix := Build(iocs);
    BuildMeans(iocs);
    forall u | u in q.urls && Lower(u) in ix.urls ensures ix.urls[Lower(u)] in Scan(hostName, iocs, q) {
      LastIsListed(iocs, Url, Lower(u), ix.urls[Lower(u)]);
      assert Corroborates(hostName, ix.urls[Lower(u)], q);
    }
    forall s | s in q.shas && Lower(s) in ix.hashes ensures ix.hashes[Lower(s)] in Scan(hostName, iocs, q) {
      LastIsListed(iocs, Hash, Lower(s), ix.hashes[Lower(s)]);
      assert Corroborates(hostName, ix.hashes[Lower(s)], q);
    }
    forall h, r | h in CandidateHosts(hostName, q) && r in Under(ix.hosts, h) ensures r in Scan(hostName, iocs, q) {
      CandidatesMean(hostName, q, h);
      assert Corroborates(hostName, r, q);
    }
  }

  /** A URL is found through its host, or else as the last one of its value. */
  lemma UrlIsHit(hostName: HostName, iocs: seq<Ioc>, q: Query, i: nat, u: string)
    requires CaseBlind(hostName) && i < |iocs| && WellFormed(hostName, iocs[i]) && iocs[i].iocType.Url?
    requires u in q.urls && Lower(u) == iocs[i].value && forall j :: !Hides(iocs, i, j)
    ensures iocs[i] in Hits(hostName, Build(iocs), q)
  {
    var r, ix := iocs[i], Build(iocs);
    BuildMeans(iocs);
    assert r in iocs;
    if r.host == "" {
      LastUnlessHidden(iocs, i, ix.urls[r.value]);
    } else {
      assert Lower(hostName(Lower(u))) == Lower(hostName(u));
      CandidatesMean(hostName, q, r.host);
      assert r in Under(ix.hosts, r.host);
    }
  }

  lemma HashIsHit(hostName: HostName, iocs: seq<Ioc>, q: Query, i: nat, s: string)
    requires i < |iocs| && WellFormed(hostName, iocs[i]) && iocs[i].iocType.Hash?
    requires s in q.shas && Lower(s) == iocs[i].value && forall j :: !Hides(iocs, i, j)
    ensures iocs[i] in Hits(hostName, Build(iocs), q)
  {
    BuildMeans(iocs);
    assert iocs[i] in iocs;
    LastUnlessHidden(iocs, i, Build(iocs).hashes[iocs[i].value]);
  }

  lemma ScanIsHit(hostName: HostName, iocs: seq<Ioc>, q: Query, i: nat)
    requires CaseBlind(hostName) && Served(hostName, iocs) && i < |iocs|
    requires Corroborates(hostName, iocs[i], q) && forall j :: !Hides(iocs, i, j)
    ensures iocs[i] in Hits(hostName, Build(iocs), q)
  {
    var r := iocs[i];
    assert r in iocs;
    if r.iocType.Url? && exists u :: u in q.urls && Lower(u) == r.value {
      var u :| u in q.urls && Lower(u) == r.value;
      UrlIsHit(hostName, iocs, q, i, u);
    } else if r.iocType.Hash? && exists s :: s in q.shas && Lower(s) == r.value {
      var s :| s in q.shas && Lower(s) == r.value;
      HashIsHit(hostName, iocs, q, i, s);
    } else {
      BuildMeans(iocs);
      CandidatesMean(hostName, q, r.host);
      assert r in Under(Build(iocs).hosts, r.host);
    }
  }

  lemma LastUnlessHidden(iocs: seq<Ioc>, i: nat, last: Ioc)
    requires i < |iocs| && iocs[i].host == "" && (iocs[i].iocType.Url? || iocs[i].iocType.Hash?)
    requires LastOf(iocs, iocs[i].iocType, iocs[i].value, last)
    requires forall j :: !Hides(iocs, i, j)
    ensures last == iocs[i]
  {
    var k :| 0 <= k < |iocs| && iocs[k] == last && last.iocType == iocs[i].iocType && last.value == iocs[i].value
             && forall j :: k < j < |iocs| ==> iocs[j].iocType != iocs[i].iocType || iocs[j].value != iocs[i].value;
    assert !Hides(iocs, i, k);
  }

  /** A hidden indicator is missed by the query for its own value: its feed is not among the sources. */
  lemma HiddenIsMissed(hostName: HostName, iocs: seq<Ioc>, i: nat, j: nat) returns (q: Query)
    requires CaseBlind(hostName) && Served(hostName, iocs) && Hides(iocs, i, j)
    ensures iocs[i].source !in Aggregate(Hits(hostName, Build(iocs), q)).sources
    ensures iocs[i].source in Aggregate(Scan(hostName, iocs, q)).sources
  {
    var r, ix := iocs[i], Build(iocs);
    BuildMeans(iocs);
    assert r in iocs && WellFormed(hostName, r);
    q := if r.iocType.Url? then Query("", {}, {r.value}, {}) else Query("", {}, {}, {r.value});
    var last := OnlyHit(hostName, ix, r, q);
    LastIsNotHidden(iocs, i, j, last);
    assert Corroborates(hostName, r, q);
    assert r in Scan(hostName, iocs, q);
  }

  /** A query for the value of an indicator without a host looks it up once. */
  lemma OnlyHit(hostName: HostName, ix: Indexes, r: Ioc, q: Query) returns (last: Ioc)
    requires WellFormed(hostName, r) && r.host == ""
    requires if r.iocType.Url? then r.value in ix.urls else r.iocType.Hash? && r.value in ix.hashes
    requires q == if r.iocType.Url? then Query("", {}, {r.value}, {}) else Query("", {}, {}, {r.value})
    ensures Hits(hostName, ix, q) == {last}
    ensures last == if r.iocType.Url? then ix.urls[r.value] else ix.hashes[r.value]
  {
    assert CandidateHosts(hostName, q) == {};
    last := if r.iocType.Url? then ix.urls[r.value] else ix.hashes[r.value];
  }

  lemma LastIsNotHidden(iocs: seq<Ioc>, i: nat, j: nat, last: Ioc)
    requires forall i, j :: 0 <= i < j < |iocs| && iocs[i].value == iocs[j].value ==> iocs[i].source != iocs[j].source
    requires Hides(iocs, i, j) && LastOf(iocs, iocs[i].iocType, iocs[i].value, last)
    ensures last.source != iocs[i].source
  {
    var k :| 0 <= k < |iocs| && iocs[k] == last && last.iocType == iocs[i].iocType && last.value == iocs[i].value
             && forall m :: k < m < |iocs| ==> iocs[m].iocType != iocs[i].iocType || iocs[m].value != iocs[i].value;
    assert k >= j;
  }

  /** The three dictionaries answer every query as a scan of all the indicators would, exactly
      when no URL without a host and no hash is listed by two feeds. */
  lemma MatchIsScanExactlyWhen(hostName: HostName, iocs: seq<Ioc>)
    requires CaseBlind(hostName) && Served(hostName, iocs)
    ensures (forall q :: Aggregate(Hits(hostName, Build(iocs), q)) == Aggregate(Scan(hostName, iocs, q)))
            <==> (forall i, j :: !Hides(iocs, i, j))
  {
    if forall i, j :: !Hides(iocs, i, j) {
      forall q ensures Hits(hostName, Build(iocs), q) == Scan(hostName, iocs, q) {
        HitsCorroborate(hostName, iocs, q);
        forall r | r in Scan(hostName, iocs, q) ensures r in Hits(hostName, Build(iocs), q) {
          var i :| 0 <= i < |iocs| && iocs[i] == r;
          ScanIsHit(hostName, iocs, q, i);
        }
      }
    } else {
      var i, j :| Hides(iocs, i, j);
      var q := HiddenIsMissed(hostName, iocs, i, j);
    }
  }

  /** Intel annotates an entity and never moves its stage. */
  function Apply(o: Overlay, m: Match): Overlay {
    if m.sources == {} then o
    else
      o.(intelSources := m.sources,
         intelMalware := if m.malware != {} then m.malware else o.intelMalware,
         signals := o.signals + m.sources)
  }
}
