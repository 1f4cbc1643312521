/** VirusTotal verdicts: a persistent cache with a time to live, a memo for one
    pass, and a budget of live lookups. Times are in milliseconds. */
module Vt {
  import opened Bytes
  import opened Entities
  import opened Times

  const TTL: int := 30 * DAY

  datatype Verdict = Verdict(
    sha256: string,
    found: bool,
    malicious: int,
    ratio: real,
    families: set<string>,
    checkedAt: int)

  /** A live lookup: an answer, a miss that is retried in a later pass, or a rejected key
      that disables the client for the process. */
  datatype Answer = Report(malicious: int, ratio: real, families: set<string>) | NotFound | Skip | Unauthorized

  type Cache = map<string, Verdict>

  type Memo = map<string, Option<Verdict>>

  predicate IsFresh(now: int, v: Verdict) {
    now - v.checkedAt < TTL
  }

  /** The verdict a live answer gives. */
  function ToVerdict(a: Answer, sha: string, checkedAt: int): Option<Verdict> {
    match a
    case Report(malicious, ratio, families) => Some(Verdict(sha, true, malicious, ratio, families, checkedAt))
    case NotFound => Some(Verdict(sha, false, 0, 0.0, {}, checkedAt))
    case Skip => None
    case Unauthorized => None
  }

  /** How the cache search of a request goes: it answers, it is refused, which the resolver takes for an empty
      cache, or it raises and ends the pass. */
  datatype Read = Answers | Refused | Broken

  /** How storing a verdict goes; all but the first raise and end the pass. */
  datatype Put = Stored | Lost | StoredButRaised

  /** What a pass meets: the time, the service's answers and how storing each verdict goes. */
  datatype World = World(now: int, answers: string -> Answer, puts: string -> Put)

  /** A live lookup: whether it was made without seeing the cache, and whether its verdict reached it. */
  datatype Lookup = Lookup(sha: string, blind: bool, stored: bool)

  /** The state of a resolver during a pass. `looked` is the log of live lookups. */
  datatype Pass = Pass(cache: Cache, memo: Memo, enabled: bool, budget: int, lookedUp: nat, looked: seq<Lookup>, raised: bool)

  /** Resolves one hash that is not in the memo yet; `blind` is whether the cache search was refused. */
  function Resolve(p: Pass, w: World, sha: string, blind: bool): Pass {
    if p.raised then p
    else if !blind && sha in p.cache && IsFresh(w.now, p.cache[sha]) then
      p.(memo := p.memo[sha := Some(p.cache[sha])])
    else if !p.enabled || p.budget <= 0 then
      p.(memo := p.memo[sha := None])
    else
      var v := ToVerdict(w.answers(sha), sha, Stamp(w.now));
      var stored, raised := v.Some? && w.puts(sha) != Lost, v.Some? && w.puts(sha) != Stored;
      Pass(if stored then p.cache[sha := v.value] else p.cache,
           if raised then p.memo else p.memo[sha := v],
           p.enabled && !w.answers(sha).Unauthorized?,
           p.budget - 1,
           p.lookedUp + 1,
           p.looked + [Lookup(sha, blind, stored)],
           raised)
  }

  /** A request for the verdicts of `shas`, one hash at a time; repeated and empty ones are passed over. */
  function ResolveAll(p: Pass, w: World, shas: seq<string>, blind: bool): Pass {
    if shas == [] then p
    else
      var p0 := ResolveAll(p, w, shas[..|shas| - 1], blind);
      var sha := shas[|shas| - 1];
      if sha == "" || sha in p0.memo then p0 else Resolve(p0, w, sha, blind)
  }

  datatype Request = Request(shas: seq<string>, read: Read)

  /** The cache is searched only when some hash is wanted. */
  function Requested(p: Pass, w: World, r: Request): Pass {
    if !p.raised && r.read.Broken? && Wanted(p.memo, r.shas) != [] then p.(raised := true)
    else ResolveAll(p, w, r.shas, r.read.Refused?)
  }

  /** The verdicts at hand for `shas`, in their order. */
  function Known(memo: Memo, shas: seq<string>): seq<Verdict> {
    if shas == [] then []
    else
      var sha := shas[|shas| - 1];
      Known(memo, shas[..|shas| - 1]) + if sha in memo && memo[sha].Some? then [memo[sha].value] else []
  }

  // ---- The resolver object -------------------------------------------------

  /** `shas` without repetitions, empty strings and hashes already in the memo. */
  function Wanted(memo: Memo, shas: seq<string>): (want: seq<string>)
    ensures forall s :: s in want <==> s in shas && s != "" && s !in memo
    ensures forall i, j :: 0 <= i < j < |want| ==> want[i] != want[j]
  {
    if shas == [] then []
    else
      var before, s := Wanted(memo, shas[..|shas| - 1]), shas[|shas| - 1];
      assert shas == shas[..|shas| - 1] + [s];
      if s == "" || s in memo || s in before then before else before + [s]
  }

  /** Resolves distinct hashes in order. */
  function ResolveEach(p: Pass, w: World, want: seq<string>, blind: bool): Pass {
    if want == [] then p
    else Resolve(ResolveEach(p, w, want[..|want| - 1], blind), w, want[|want| - 1], blind)
  }

  lemma {:induction false} ResolveEachMemo(p: Pass, w: World, want: seq<string>, blind: bool)
    ensures var p' := ResolveEach(p, w, want, blind);
            p'.raised || p'.memo.Keys == p.memo.Keys + set s | s in want
  {
    if want != [] {
      ResolveEachMemo(p, w, want[..|want| - 1], blind);
      assert want == want[..|want| - 1] + [want[|want| - 1]];
    }
  }

  /** Looking at each request only once is the same as looking at all of them. */
  lemma {:induction false} ResolveWanted(p: Pass, w: World, shas: seq<string>, blind: bool)
    ensures ResolveAll(p, w, shas, blind) == ResolveEach(p, w, Wanted(p.memo, shas), blind)
  {
    if shas != [] {
      var before, s := shas[..|shas| - 1], shas[|shas| - 1];
      ResolveWanted(p, w, before, blind);
      var want := Wanted(p.memo, before);
      ResolveEachMemo(p, w, want, blind);
      if !(s == "" || s in p.memo || s in want) {
        assert (want + [s])[..|want|] == want;
      }
    }
  }

  predicate SameEntry(a: Cache, b: Cache, sha: string) {
    if sha in a then sha in b && a[sha] == b[sha] else sha !in b
  }

  /** The same pass; once it has raised, nothing reads the memo any more. */
  predicate SamePass(a: Pass, b: Pass) {
    a.raised == b.raised && a.(memo := map[]) == b.(memo := map[]) && (!a.raised ==> a.memo == b.memo)
  }

  /** `mem` holds, beyond `memo`, the fresh cached verdicts of the hashes still to come. */
  ghost predicate MemoAhead(now: int, blind: bool, cache: Cache, mem: Memo, memo: Memo, live: map<string, Verdict>, rest: seq<string>) {
    && (forall s :: s in mem <==> s in memo || (s in live && s in rest))
    && (forall s :: s in memo ==> mem[s] == memo[s])
    && (forall s :: s in rest ==> s !in memo && (s in live ==> mem[s] == Some(live[s])))
    && (forall s :: s in rest ==>
          (s in live <==> !blind && s in cache && IsFresh(now, cache[s])) && (s in live ==> live[s] == cache[s]))
  }

  /** The next hash is in `mem` exactly if it is cached. */
  lemma NextCached(now: int, blind: bool, cache: Cache, mem: Memo, memo: Memo, live: map<string, Verdict>, sha: string, rest: seq<string>)
    requires MemoAhead(now, blind, cache, mem, memo, live, [sha] + rest) && sha !in rest
    ensures sha !in memo && (sha in mem <==> !blind && sha in cache && IsFresh(now, cache[sha]))
    ensures sha in mem ==> mem[sha] == Some(cache[sha]) && MemoAhead(now, blind, cache, mem, memo[sha := mem[sha]], live, rest)
  {
    assert forall s :: s in [sha] + rest <==> s == sha || s in rest;
  }

  /** Otherwise whatever becomes of it leaves the rest alone. */
  lemma NextSettled(now: int, blind: bool, cache: Cache, cache': Cache, mem: Memo, memo: Memo, live: map<string, Verdict>,
                    sha: string, v: Option<Verdict>, rest: seq<string>)
    requires MemoAhead(now, blind, cache, mem, memo, live, [sha] + rest) && sha !in rest && sha !in mem
    requires forall s :: s != sha ==> SameEntry(cache', cache, s)
    ensures MemoAhead(now, blind, cache', mem[sha := v], memo[sha := v], live, rest)
  {
    assert forall s :: s in [sha] + rest <==> s == sha || s in rest;
    forall s | s in rest
      ensures SameEntry(cache', cache, s)
    {
    }
  }

  class VtResolver {
    const world: World
    var cache: Cache
    var mem: Memo
    var enabled: bool
    var budget: int
    var lookedUp: nat
    var raised: bool
    ghost var looked: seq<Lookup>

    ghost function State(): Pass
      reads this
    {
      Pass(cache, mem, enabled, budget, lookedUp, looked, raised)
    }

    constructor (world: World, cache: Cache, enabled: bool, maxPerRun: int)
      ensures this.world == world
      ensures State() == Pass(cache, map[], enabled, maxPerRun, 0, [], false)
    {
      this.world, this.cache, this.enabled := world, cache, enabled;
      mem, budget, lookedUp, looked, raised := map[], maxPerRun, 0, [], false;
    }

    /** The fresh verdicts; none when the search is refused. */
    method ReadCache(shas: seq<string>, blind: bool) returns (live: map<string, Verdict>)
      ensures forall s :: s in live <==> !blind && s in shas && s in cache && IsFresh(world.now, cache[s])
      ensures forall s :: s in live ==> live[s] == cache[s]
    {
      live := map[];
      if blind {
        return;
      }
      for i := 0 to |shas|
        invariant forall s :: s in live <==> s in shas[..i] && s in cache && IsFresh(world.now, cache[s])
        invariant forall s :: s in live ==> live[s] == cache[s]
      {
        if shas[i] in cache && IsFresh(world.now, cache[shas[i]]) {
          live := live[shas[i] := cache[shas[i]]];
        }
      }
      assert shas[..|shas|] == shas;
    }

    /** Asks the service about one hash and stores its verdict. */
    method LookUp(sha: string, ghost blind: bool)
      requires !raised && sha !in mem && enabled && budget > 0
      requires blind || sha !in cache || !IsFresh(world.now, cache[sha])
      modifies this
      ensures State() == Resolve(old(State()), world, sha, blind)
    {
      var v := ToVerdict(world.answers(sha), sha, Stamp(world.now));
      enabled := !world.answers(sha).Unauthorized?;
      budget := budget - 1;
      lookedUp := lookedUp + 1;
      looked := looked + [Lookup(sha, blind, v.Some? && world.puts(sha) != Lost)];
      if v.Some? {
        if world.puts(sha) != Lost {
          cache := cache[sha := v.value];
        }
        if world.puts(sha) != Stored {
          raised := true;
          return;
        }
      }
      mem := mem[sha := v];
    }

    /** The memo holds, beyond that of `p`, the fresh cached verdicts of the hashes still to come. */
    ghost predicate Ahead(p: Pass, live: map<string, Verdict>, rest: seq<string>, blind: bool)
      reads this
    {
      State() == p.(memo := mem) && MemoAhead(world.now, blind, cache, mem, p.memo, live, rest)
    }

    /** One round of the loop over the wanted hashes. */
    method Settle(sha: string, ghost p: Pass, live: map<string, Verdict>, ghost rest: seq<string>, ghost blind: bool)
      requires !raised && Ahead(p, live, [sha] + rest, blind) && sha !in rest
      modifies this
      ensures State() == Resolve(p, world, sha, blind).(memo := mem)
      ensures !raised ==> Ahead(Resolve(p, world, sha, blind), live, rest, blind)
    {
      ghost var cache0, mem0 := cache, mem;
      NextCached(world.now, blind, cache, mem, p.memo, live, sha, rest);
      if sha in mem {
        return;
      }
      if !enabled || budget <= 0 {
        NextSettled(world.now, blind, cache, cache, mem, p.memo, live, sha, None, rest);
        mem := mem[sha := None];
        return;
      }
      LookUp(sha, blind);
      if !raised {
        NextSettled(world.now, blind, cache0, cache, mem0, p.memo, live, sha, mem[sha], rest);
      }
    }

    method SettleAll(want: seq<string>, ghost p0: Pass, live: map<string, Verdict>, ghost blind: bool)
      requires !raised && Ahead(p0, live, want, blind) && forall i, j :: 0 <= i < j < |want| ==> want[i] != want[j]
      modifies this
      ensures SamePass(State(), ResolveEach(p0, world, want, blind))
    {
      assert want[0..] == want && want[..0] == [];
      ghost var p := p0;
      for i := 0 to |want|
        invariant p == ResolveEach(p0, world, want[..i], blind)
        invariant !raised && Ahead(p, live, want[i..], blind)
      {
        NextWanted(want, i);
        Settle(want[i], p, live, want[i + 1..], blind);
        p := Resolve(p, world, want[i], blind);
        if raised {
          RaisedStays(p0, world, want, i + 1, blind);
          return;
        }
      }
      assert want[..|want|] == want && want[|want|..] == [];
      NothingAhead(p, live, blind);
    }

    lemma NextWanted(want: seq<string>, i: nat)
      requires i < |want| && forall i, j :: 0 <= i < j < |want| ==> want[i] != want[j]
      ensures |want[..i + 1]| == i + 1 && want[..i + 1][..i] == want[..i] && want[..i + 1][i] == want[i]
      ensures want[i..] == [want[i]] + want[i + 1..] && want[i] !in want[i + 1..]
    {
    }

    lemma NothingAhead(p: Pass, live: map<string, Verdict>, blind: bool)
      requires Ahead(p, live, [], blind)
      ensures State() == p
    {
      assert mem == p.memo;
    }

    /** Takes what the cache search gives, then goes through the hashes. */
    method ResolveWants(want: seq<string>, blind: bool)
      requires !raised && forall i, j :: 0 <= i < j < |want| ==> want[i] != want[j]
      requires forall s :: s in want ==> s !in mem
      modifies this
      ensures SamePass(State(), ResolveEach(old(State()), world, want, blind))
    {
      ghost var p0 := State();
      var live := ReadCache(want, blind);
      mem := mem + map s | s in live :: Some(live[s]);
      SettleAll(want, p0, live, blind);
    }

    /** `ok` is false where the original raises. */
    method VerdictsFor(r: Request) returns (verdicts: seq<Verdict>, ok: bool)
      requires !raised
      modifies this
      ensures SamePass(State(), Requested(old(State()), world, r))
      ensures ok == !raised && (ok ==> verdicts == Known(mem, r.shas))
    {
      ghost var p0 := State();
      ghost var blind := r.read.Refused?;
      var want := Wanted(mem, r.shas);
      ResolveWanted(p0, world, r.shas, blind);
      if want != [] {
        if r.read.Broken? {
          raised := true;
          return [], false;
        }
        ResolveWants(want, r.read.Refused?);
        if raised {
          return [], false;
        }
      }
      ok := true;
      verdicts := Collect(r.shas);
    }

    method Collect(shas: seq<string>) returns (verdicts: seq<Verdict>)
      ensures verdicts == Known(mem, shas)
    {
      verdicts := [];
      for i := 0 to |shas|
        invariant verdicts == Known(mem, shas[..i])
      {
        assert shas[..i + 1][..i] == shas[..i];
        if shas[i] in mem && mem[shas[i]].Some? {
          verdicts := verdicts + [mem[shas[i]].value];
        }
      }
      assert shas[..|shas|] == shas;
    }
  }

  /** After raising, the rest of a request changes nothing. */
  lemma {:induction false} RaisedStays(p: Pass, w: World, want: seq<string>, k: nat, blind: bool)
    requires k <= |want| && ResolveEach(p, w, want[..k], blind).raised
    ensures ResolveEach(p, w, want, blind) == ResolveEach(p, w, want[..k], blind)
  {
    if k < |want| {
      assert want[..|want| - 1][..k] == want[..k];
      RaisedStays(p, w, want[..|want| - 1], k, blind);
    } else {
      assert want[..k] == want;
    }
  }

  // ---- One pass ------------------------------------------------------------

  predicate LookedUp(looked: seq<Lookup>, sha: string) {
    exists l :: l in looked && l.sha == sha
  }

  /** The budget accounts for the lookups, and they are of different hashes. */
  ghost predicate Accounted(p: Pass, budget0: int) {
    && p.budget + p.lookedUp == budget0
    && p.lookedUp <= Max(0, budget0)
    && p.lookedUp == |p.looked|
    && (forall i, j :: 0 <= i < j < |p.looked| ==> p.looked[i].sha != p.looked[j].sha)
    && (forall l :: l in p.looked ==> l.sha != "" && (l.sha in p.memo || p.raised))
  }

  /** Every verdict in the memo is the stored one and fresh. */
  ghost predicate MemoStored(p: Pass, now: int) {
    && (forall s :: s in p.memo && p.memo[s].Some? ==> s in p.cache && p.cache[s] == p.memo[s].value && IsFresh(now, p.cache[s]))
    && (forall l :: l in p.looked && l.sha in p.memo && p.memo[l.sha].Some? ==> l.stored)
  }

  /** Every lookup that saw the cache was of a hash without a fresh verdict. */
  ghost predicate SeenStale(p: Pass, now: int, cache0: Cache) {
    forall l :: l in p.looked && !l.blind && l.sha in cache0 ==> !IsFresh(now, cache0[l.sha])
  }

  /** A verdict says about a hash what the service answered at time `now`. */
  predicate SaysAnswer(v: Verdict, a: Answer, sha: string, now: int) {
    && v.sha256 == sha && v.checkedAt == Stamp(now)
    && match a
       case Report(malicious, ratio, families) => v.found && v.malicious == malicious && v.ratio == ratio && v.families == families
       case NotFound => !v.found && v.malicious == 0 && v.ratio == 0.0 && v.families == {}
       case Skip => false
       case Unauthorized => false
  }

  /** A verdict is fresh for less than 30 days. */
  lemma FreshExactlyWhen(now: int, v: Verdict)
    ensures IsFresh(now, v) <==> now < v.checkedAt + 2_592_000_000
  {
  }

  lemma VerdictSaysAnswer(a: Answer, sha: string, now: int)
    ensures var v := ToVerdict(a, sha, Stamp(now));
            (v.Some? <==> GivesVerdict(a)) && (v.Some? ==> SaysAnswer(v.value, a, sha, now))
  {
  }

  ghost predicate StoredNow(p: Pass, w: World) {
    forall l :: l in p.looked && l.stored ==> l.sha in p.cache && SaysAnswer(p.cache[l.sha], w.answers(l.sha), l.sha, w.now)
  }

  /** Only lookups change the store, by verdicts of now. */
  ghost predicate OnlyLookups(p: Pass, now: int, cache0: Cache) {
    forall s :: SameEntry(p.cache, cache0, s) || (LookedUp(p.looked, s) && s in p.cache && p.cache[s].checkedAt == Stamp(now))
  }

  ghost predicate Coherent(p: Pass, w: World, cache0: Cache) {
    MemoStored(p, w.now) && SeenStale(p, w.now, cache0) && StoredNow(p, w) && OnlyLookups(p, w.now, cache0)
  }

  predicate Rejected(looked: seq<Lookup>, w: World) {
    exists l :: l in looked && w.answers(l.sha).Unauthorized?
  }

  /** The service is asked while its client is enabled, and no more after it rejects the key. */
  ghost predicate AskedWhileEnabled(p: Pass, w: World, enabled0: bool) {
    && (p.enabled <==> enabled0 && !Rejected(p.looked, w))
    && (p.looked != [] ==> enabled0 && !Rejected(p.looked[..|p.looked| - 1], w))
  }

  /** A hash is without a verdict only if the service gave none, or may not be asked any more. */
  ghost predicate SkippedForReason(p: Pass, w: World) {
    forall s :: s in p.memo && p.memo[s].None? ==>
      (LookedUp(p.looked, s) && !GivesVerdict(w.answers(s))) || p.budget <= 0 || !p.enabled
  }

  /** A verdict reaches the store exactly when the service gives one and the write is not lost. */
  ghost predicate StoresKept(p: Pass, w: World) {
    forall l :: l in p.looked ==> (l.stored <==> GivesVerdict(w.answers(l.sha)) && w.puts(l.sha) != Lost)
  }

  predicate GivesVerdict(a: Answer) {
    a.Report? || a.NotFound?
  }

  /** What holds all through a pass that starts with `cache0` and `budget0`. */
  ghost predicate PassInvariant(p: Pass, w: World, cache0: Cache, budget0: int, enabled0: bool) {
    && Accounted(p, budget0) && Coherent(p, w, cache0) && StoresKept(p, w)
    && AskedWhileEnabled(p, w, enabled0) && SkippedForReason(p, w)
  }

  lemma ResolveKeepsAccounted(p: Pass, w: World, sha: string, blind: bool, budget0: int)
    requires Accounted(p, budget0) && sha !in p.memo && sha != ""
    ensures Accounted(Resolve(p, w, sha, blind), budget0)
  {
  }

  lemma FreshIsStamped(now: int)
    ensures 0 <= now - Stamp(now) < SECOND
  {
  }

  /** The entry of a hash that was not looked up is still that of the start. */
  lemma ResolveKeepsCoherent(p: Pass, w: World, sha: string, blind: bool, cache0: Cache)
    requires Coherent(p, w, cache0) && sha !in p.memo && (p.raised || !LookedUp(p.looked, sha))
    ensures Coherent(Resolve(p, w, sha, blind), w, cache0)
  {
    var p' := Resolve(p, w, sha, blind);
    if p'.looked != p.looked {
      var l := p'.looked[|p.looked|];
      assert p'.looked == p.looked + [l] && l.sha == sha;
      LookedUpGrows(p.looked, l);
      assert SameEntry(p.cache, cache0, sha);
      VerdictSaysAnswer(w.answers(sha), sha, w.now);
      LookupKeepsCoherent(p, p', w, l, cache0);
    }
  }

  lemma ResolveKeepsAsked(p: Pass, w: World, sha: string, blind: bool, enabled0: bool)
    requires AskedWhileEnabled(p, w, enabled0) && SkippedForReason(p, w) && sha !in p.memo
    ensures var p' := Resolve(p, w, sha, blind); AskedWhileEnabled(p', w, enabled0) && SkippedForReason(p', w)
  {
    var p' := Resolve(p, w, sha, blind);
    if p'.looked != p.looked {
      var l := p'.looked[|p.looked|];
      assert p'.looked == p.looked + [l] && l.sha == sha;
      VerdictSaysAnswer(w.answers(sha), sha, w.now);
      RejectedGrows(p.looked, l, w);
      LookedUpGrows(p.looked, l);
      LookupKeepsReasons(p, p', w, l);
    }
  }

  lemma RejectedGrows(looked: seq<Lookup>, l: Lookup, w: World)
    ensures Rejected(looked + [l], w) <==> Rejected(looked, w) || w.answers(l.sha).Unauthorized?
    ensures (looked + [l])[..|looked|] == looked
  {
    assert forall k :: k in looked + [l] <==> k in looked || k == l;
  }

  lemma LookupKeepsReasons(p: Pass, p': Pass, w: World, l: Lookup)
    requires SkippedForReason(p, w) && p'.looked == p.looked + [l]
    requires p.budget > 0 && p.enabled
    requires forall s :: s in p'.memo && s != l.sha ==> s in p.memo && p'.memo[s] == p.memo[s]
    requires l.sha in p'.memo && p'.memo[l.sha].None? ==> !GivesVerdict(w.answers(l.sha))
    ensures SkippedForReason(p', w)
  {
    LookedUpGrows(p.looked, l);
  }

  lemma LookedUpGrows(looked: seq<Lookup>, l: Lookup)
    ensures forall s :: LookedUp(looked + [l], s) <==> LookedUp(looked, s) || s == l.sha
  {
    assert l in looked + [l];
    forall s | LookedUp(looked, s)
      ensures LookedUp(looked + [l], s)
    {
      var k :| k in looked && k.sha == s;
      assert k in looked + [l];
    }
  }

  /** A lookup touches the entry of its own hash only. */
  lemma LookupKeepsCoherent(p: Pass, p': Pass, w: World, l: Lookup, cache0: Cache)
    requires Coherent(p, w, cache0) && l.sha !in p.memo && !LookedUp(p.looked, l.sha)
    requires p'.looked == p.looked + [l] && SameEntry(p.cache, cache0, l.sha)
    requires !l.blind && l.sha in cache0 ==> !IsFresh(w.now, cache0[l.sha])
    requires forall s :: s != l.sha ==> SameEntry(p'.cache, p.cache, s)
    requires if l.stored then l.sha in p'.cache && SaysAnswer(p'.cache[l.sha], w.answers(l.sha), l.sha, w.now) else SameEntry(p'.cache, p.cache, l.sha)
    requires forall s :: s in p'.memo && s != l.sha ==> s in p.memo && p'.memo[s] == p.memo[s]
    requires l.sha in p'.memo && p'.memo[l.sha].Some? ==> l.stored && p'.cache[l.sha] == p'.memo[l.sha].value
    ensures Coherent(p', w, cache0)
  {
    var now := w.now;
    LookedUpGrows(p.looked, l);
    FreshIsStamped(now);
    forall s | s in p'.memo && p'.memo[s].Some?
      ensures s in p'.cache && p'.cache[s] == p'.memo[s].value && IsFresh(now, p'.cache[s])
    {
      assert s != l.sha ==> SameEntry(p'.cache, p.cache, s);
    }
    forall k | k in p'.looked && k != l
      ensures k in p.looked && SameEntry(p'.cache, p.cache, k.sha)
    {
      assert k in p.looked + [l];
      assert LookedUp(p.looked, k.sha);
    }
    forall s
      ensures SameEntry(p'.cache, cache0, s) || (LookedUp(p'.looked, s) && s in p'.cache && p'.cache[s].checkedAt == Stamp(now))
    {
      assert s != l.sha ==> SameEntry(p'.cache, p.cache, s);
      assert SameEntry(p.cache, cache0, s) || (LookedUp(p.looked, s) && s in p.cache && p.cache[s].checkedAt == Stamp(now));
    }
  }

  lemma ResolveKeepsInvariant(p: Pass, w: World, sha: string, blind: bool, cache0: Cache, budget0: int, enabled0: bool)
    requires PassInvariant(p, w, cache0, budget0, enabled0) && sha != "" && sha !in p.memo
    ensures PassInvariant(Resolve(p, w, sha, blind), w, cache0, budget0, enabled0)
  {
    ResolveKeepsAccounted(p, w, sha, blind, budget0);
    ResolveKeepsCoherent(p, w, sha, blind, cache0);
    ResolveKeepsAsked(p, w, sha, blind, enabled0);
    ResolveKeepsStores(p, w, sha, blind);
  }

  lemma ResolveKeepsStores(p: Pass, w: World, sha: string, blind: bool)
    requires StoresKept(p, w)
    ensures StoresKept(Resolve(p, w, sha, blind), w)
  {
  }

  /** The budget bounds the lookups, no hash is looked up twice, or while its stored verdict is fresh unless the
      cache could not be seen, and every verdict in the memo is the stored one and fresh. */
  lemma {:induction false} RequestKeepsInvariant(p: Pass, w: World, shas: seq<string>, blind: bool, cache0: Cache, budget0: int, enabled0: bool)
    requires PassInvariant(p, w, cache0, budget0, enabled0)
    ensures PassInvariant(ResolveAll(p, w, shas, blind), w, cache0, budget0, enabled0)
  {
    if shas != [] {
      RequestKeepsInvariant(p, w, shas[..|shas| - 1], blind, cache0, budget0, enabled0);
      var p0, sha := ResolveAll(p, w, shas[..|shas| - 1], blind), shas[|shas| - 1];
      if sha != "" && sha !in p0.memo {
        ResolveKeepsInvariant(p0, w, sha, blind, cache0, budget0, enabled0);
      }
    }
  }

  // ---- Any sequence of passes ----------------------------------------------

  /** The circumstances of one pass and the requests made in it. */
  datatype Setting = Setting(world: World, enabled: bool, maxPerRun: int, requests: seq<Request>)

  function AfterRequests(p: Pass, w: World, requests: seq<Request>): Pass {
    if requests == [] then p
    else Requested(AfterRequests(p, w, requests[..|requests| - 1]), w, requests[|requests| - 1])
  }

  function Start(cache: Cache, s: Setting): Pass {
    Pass(cache, map[], s.enabled, s.maxPerRun, 0, [], false)
  }

  function AfterPass(cache: Cache, s: Setting): Pass {
    AfterRequests(Start(cache, s), s.world, s.requests)
  }

  /** The cache after all of `passes`. */
  function CacheAfter(cache: Cache, passes: seq<Setting>): Cache {
    if passes == [] then cache
    else AfterPass(CacheAfter(cache, passes[..|passes| - 1]), passes[|passes| - 1]).cache
  }

  lemma {:induction false} RequestsKeepInvariant(p: Pass, w: World, requests: seq<Request>, cache0: Cache, budget0: int, enabled0: bool)
    requires PassInvariant(p, w, cache0, budget0, enabled0)
    ensures PassInvariant(AfterRequests(p, w, requests), w, cache0, budget0, enabled0)
  {
    if requests != [] {
      var before, r := requests[..|requests| - 1], requests[|requests| - 1];
      RequestsKeepInvariant(p, w, before, cache0, budget0, enabled0);
      RequestKeepsInvariant(AfterRequests(p, w, before), w, r.shas, r.read.Refused?, cache0, budget0, enabled0);
    }
  }

  /** Whatever is asked in a pass, and wherever it ends, its budget and its memo keep their promises. */
  lemma PassKeepsPromises(cache: Cache, s: Setting)
    ensures PassInvariant(AfterPass(cache, s), s.world, cache, s.maxPerRun, s.enabled)
  {
    RequestsKeepInvariant(Start(cache, s), s.world, s.requests, cache, s.maxPerRun, s.enabled);
  }

  // ---- What a request returns ----------------------------------------------

  /** No request forgets or changes what is in the memo. */
  ghost predicate MemoGrows(p: Pass, p': Pass) {
    forall s :: s in p.memo ==> s in p'.memo && p'.memo[s] == p.memo[s]
  }

  /** Without a raise every hash asked for is in the memo afterwards, and a fresh stored verdict is used where the
      store can be searched. */
  lemma {:induction false} AskedIsKnown(p: Pass, w: World, shas: seq<string>, blind: bool, sha: string)
    requires !ResolveAll(p, w, shas, blind).raised
    ensures var p' := ResolveAll(p, w, shas, blind);
            && MemoGrows(p, p') && !p.raised
            && (sha in p'.memo <==> sha in p.memo || (sha in shas && sha != ""))
            && (sha !in p'.memo ==> SameEntry(p'.cache, p.cache, sha))
            && (sha in p'.memo && !blind && sha !in p.memo && sha in p.cache && IsFresh(w.now, p.cache[sha]) ==>
                  p'.memo[sha] == Some(p.cache[sha]))
  {
    if shas != [] {
      var before, last := shas[..|shas| - 1], shas[|shas| - 1];
      assert shas == before + [last];
      AskedIsKnown(p, w, before, blind, sha);
      var p0 := ResolveAll(p, w, before, blind);
      if last != "" && last !in p0.memo {
        ResolvedIsKnown(p0, w, last, blind, sha);
      }
    }
  }

  lemma ResolvedIsKnown(p: Pass, w: World, last: string, blind: bool, sha: string)
    requires last !in p.memo && !Resolve(p, w, last, blind).raised
    ensures var p' := Resolve(p, w, last, blind);
            && MemoGrows(p, p')
            && (sha in p'.memo <==> sha in p.memo || sha == last)
            && (sha != last ==> SameEntry(p'.cache, p.cache, sha) && (sha in p.memo ==> p'.memo[sha] == p.memo[sha]))
            && (sha == last && !blind && sha in p.cache && IsFresh(w.now, p.cache[sha]) ==> p'.memo[sha] == Some(p.cache[sha]))
  {
  }

  /** Of some hashes after others, the verdicts come in the same order. */
  lemma {:induction false} KnownInOrder(memo: Memo, a: seq<string>, b: seq<string>)
    ensures Known(memo, a + b) == Known(memo, a) + Known(memo, b)
  {
    if b == [] {
      assert a + b == a;
    } else {
      KnownInOrder(memo, a, b[..|b| - 1]);
      assert (a + b)[..|a + b| - 1] == a + b[..|b| - 1];
    }
  }

  lemma KnownOne(memo: Memo, sha: string)
    ensures Known(memo, [sha]) == if sha in memo && memo[sha].Some? then [memo[sha].value] else []
  {
    assert [sha][..0] == [];
  }

  /** What a hash stands for after a pass: what the service answered if it was asked, and else the fresh stored
      verdict; nothing only if it gave no verdict or may not be asked. */
  ghost predicate MemoSays(p: Pass, w: World, cache0: Cache, sha: string)
    requires sha in p.memo
  {
    match p.memo[sha]
    case Some(v) =>
      if LookedUp(p.looked, sha) then SaysAnswer(v, w.answers(sha), sha, w.now)
      else sha in cache0 && v == cache0[sha] && IsFresh(w.now, v)
    case None => (LookedUp(p.looked, sha) && !GivesVerdict(w.answers(sha))) || p.budget <= 0 || !p.enabled
  }

  lemma MemoMeans(p: Pass, w: World, cache0: Cache, budget0: int, enabled0: bool, sha: string)
    requires PassInvariant(p, w, cache0, budget0, enabled0) && sha in p.memo
    ensures MemoSays(p, w, cache0, sha)
  {
    if p.memo[sha].Some? {
      if l :| l in p.looked && l.sha == sha {
        assert LookedUp(p.looked, sha) && l.stored;
      } else {
        assert SameEntry(p.cache, cache0, sha);
      }
    }
  }

  /** In any pass, wherever it stands, each asked hash has its verdict once the request returns; what is returned are
      those, in the order asked. */
  lemma VerdictsMean(cache: Cache, s: Setting, r: Request, sha: string)
    requires !Requested(AfterPass(cache, s), s.world, r).raised && sha in r.shas && sha != ""
    ensures var p, p' := AfterPass(cache, s), Requested(AfterPass(cache, s), s.world, r);
            && sha in p'.memo && MemoSays(p', s.world, cache, sha)
            && (r.read.Answers? && sha !in p.memo && sha in p.cache && IsFresh(s.world.now, p.cache[sha]) ==>
                  p'.memo[sha] == Some(p.cache[sha]))
            && (forall v :: v in Known(p'.memo, r.shas) <==> exists t :: t in r.shas && t in p'.memo && p'.memo[t] == Some(v))
  {
    var p, w := AfterPass(cache, s), s.world;
    var p' := Requested(p, w, r);
    PassKeepsPromises(cache, s);
    RequestKeepsInvariant(p, w, r.shas, r.read.Refused?, cache, s.maxPerRun, s.enabled);
    BrokenNotNeeded(p, w, r);
    AskedIsKnown(p, w, r.shas, r.read.Refused?, sha);
    MemoMeans(p', w, cache, s.maxPerRun, s.enabled, sha);
    KnownMeans(p'.memo, r.shas);
  }

  predicate StoreRaises(w: World, l: Lookup) {
    GivesVerdict(w.answers(l.sha)) && w.puts(l.sha) != Stored
  }

  ghost predicate SomeStoreRaises(w: World, looked: seq<Lookup>) {
    exists l :: l in looked && StoreRaises(w, l)
  }

  lemma {:induction false} ResolvingRaises(p: Pass, w: World, shas: seq<string>, blind: bool)
    requires !p.raised
    ensures var p' := ResolveAll(p, w, shas, blind);
            p.looked <= p'.looked && (p'.raised <==> SomeStoreRaises(w, p'.looked[|p.looked|..]))
  {
    if shas != [] {
      var p0, sha := ResolveAll(p, w, shas[..|shas| - 1], blind), shas[|shas| - 1];
      ResolvingRaises(p, w, shas[..|shas| - 1], blind);
      if sha != "" && sha !in p0.memo {
        OneRaises(p0, w, sha, blind, |p.looked|);
      }
    }
  }

  lemma OneRaises(p: Pass, w: World, sha: string, blind: bool, n: nat)
    requires n <= |p.looked| && (p.raised <==> SomeStoreRaises(w, p.looked[n..]))
    ensures var p' := Resolve(p, w, sha, blind);
            p.looked <= p'.looked && (p'.raised <==> SomeStoreRaises(w, p'.looked[n..]))
  {
    var p' := Resolve(p, w, sha, blind);
    if p'.looked != p.looked {
      var l := p'.looked[|p.looked|];
      VerdictSaysAnswer(w.answers(sha), sha, w.now);
      assert p'.looked[n..] == p.looked[n..] + [l] && (p'.raised <==> StoreRaises(w, l));
      assert forall k :: k in p'.looked[n..] <==> k in p.looked[n..] || k == l;
    }
  }

  /** A request raises exactly if its cache search breaks while some hash is not known yet, or storing one of the
      verdicts it gets raises. */
  lemma RequestRaisesExactlyWhen(p: Pass, w: World, r: Request)
    requires !p.raised
    ensures var p' := Requested(p, w, r);
            p.looked <= p'.looked
            && (p'.raised <==>
                if r.read.Broken? && exists s :: s in r.shas && s != "" && s !in p.memo then true
                else SomeStoreRaises(w, p'.looked[|p.looked|..]))
  {
    ResolvingRaises(p, w, r.shas, r.read.Refused?);
    assert Wanted(p.memo, r.shas) != [] <==> exists s :: s in r.shas && s != "" && s !in p.memo by {
      if Wanted(p.memo, r.shas) != [] {
        assert Wanted(p.memo, r.shas)[0] in Wanted(p.memo, r.shas);
      }
    }
  }

  lemma BrokenNotNeeded(p: Pass, w: World, r: Request)
    requires !Requested(p, w, r).raised
    ensures Requested(p, w, r) == ResolveAll(p, w, r.shas, r.read.Refused?)
  {
  }

  lemma {:induction false} KnownMeans(memo: Memo, shas: seq<string>)
    ensures forall v :: v in Known(memo, shas) <==> exists t :: t in shas && t in memo && memo[t] == Some(v)
  {
    if shas != [] {
      KnownMeans(memo, shas[..|shas| - 1]);
      assert shas == shas[..|shas| - 1] + [shas[|shas| - 1]];
    }
  }

  ghost predicate ClockForward(passes: seq<Setting>) {
    forall i, j :: 0 <= i < j < |passes| ==> passes[i].world.now <= passes[j].world.now
  }

  function LookedUpIn(cache: Cache, passes: seq<Setting>, i: nat): seq<Lookup>
    requires i < |passes|
  {
    AfterPass(CacheAfter(cache, passes[..i]), passes[i]).looked
  }

  /** Once pass `i` has stored a verdict for a hash, later passes keep one that is at least as recent. */
  lemma {:induction false} VerdictStays(cache: Cache, passes: seq<Setting>, i: nat, j: nat, l: Lookup)
    requires i < j <= |passes| && ClockForward(passes)
    requires l in LookedUpIn(cache, passes, i) && l.stored
    ensures var c := CacheAfter(cache, passes[..j]); l.sha in c && c[l.sha].checkedAt >= Stamp(passes[i].world.now)
  {
    var before := CacheAfter(cache, passes[..j - 1]);
    assert passes[..j][..j - 1] == passes[..j - 1] && passes[..j][j - 1] == passes[j - 1];
    PassKeepsPromises(before, passes[j - 1]);
    if i < j - 1 {
      VerdictStays(cache, passes, i, j - 1, l);
      assert passes[i].world.now <= passes[j - 1].world.now;
      StampsInOrder(passes[i].world.now, passes[j - 1].world.now);
      var after := AfterPass(before, passes[j - 1]);
      assert SameEntry(after.cache, before, l.sha) || after.cache[l.sha].checkedAt == Stamp(passes[j - 1].world.now);
    }
  }

  lemma StampsInOrder(a: int, b: int)
    requires a <= b
    ensures Stamp(a) <= Stamp(b)
  {
  }

  /** Over any sequence of passes, a hash for which the service gave a verdict is not looked up again before that
      verdict's time to live has ended, unless the verdict was lost on the way to the store or the later lookup
      could not see the store. */
  lemma LookupsFarApart(cache: Cache, passes: seq<Setting>, i: nat, j: nat, first: Lookup, again: Lookup)
    requires i < j < |passes| && ClockForward(passes) && first.sha == again.sha
    requires first in LookedUpIn(cache, passes, i) && GivesVerdict(passes[i].world.answers(first.sha))
    requires again in LookedUpIn(cache, passes, j)
    ensures || passes[j].world.now - Stamp(passes[i].world.now) >= 30 * 24 * 3_600_000
            || passes[i].world.puts(first.sha) == Lost
            || again.blind
  {
    PassKeepsPromises(CacheAfter(cache, passes[..i]), passes[i]);
    if first.stored {
      VerdictStays(cache, passes, i, j, first);
      PassKeepsPromises(CacheAfter(cache, passes[..j]), passes[j]);
    }
  }

  /** A pass that asks for one hash. */
  predicate AsksFor(s: Setting, sha: string, read: Read) {
    s.enabled && s.maxPerRun > 0 && sha != "" && s.requests == [Request([sha], read)]
  }

  lemma AskedIsResolved(cache: Cache, s: Setting, sha: string, read: Read)
    requires AsksFor(s, sha, read) && !read.Broken?
    ensures AfterPass(cache, s) == Resolve(Start(cache, s), s.world, sha, read.Refused?)
  {
    assert s.requests[..0] == [] && [sha][..0] == [];
    assert AfterRequests(Start(cache, s), s.world, []) == Start(cache, s);
    assert ResolveAll(Start(cache, s), s.world, [], read.Refused?) == Start(cache, s);
  }

  /** Both exceptions occur: when the search is refused a hash is looked up whatever the store holds, and a
      lost verdict leaves the store as it was, so that the next pass looks the hash up again. */
  lemma LooksUpTooEarly(cache: Cache, s: Setting, sha: string)
    ensures AsksFor(s, sha, Refused) ==>
              exists l :: l in AfterPass(cache, s).looked && l.sha == sha && l.blind
    ensures AsksFor(s, sha, Answers) && (sha !in cache || !IsFresh(s.world.now, cache[sha]))
            && GivesVerdict(s.world.answers(sha)) && s.world.puts(sha) == Lost ==>
              && AfterPass(cache, s).cache == cache
              && exists l :: l in AfterPass(AfterPass(cache, s).cache, s).looked && l.sha == sha && !l.blind
  {
    if AsksFor(s, sha, Refused) {
      AskedIsResolved(cache, s, sha, Refused);
      var looked := AfterPass(cache, s).looked;
      assert |looked| == 1 && looked[0] in looked;
    }
    if AsksFor(s, sha, Answers) && (sha !in cache || !IsFresh(s.world.now, cache[sha])) {
      AskedIsResolved(cache, s, sha, Answers);
      var looked := AfterPass(cache, s).looked;
      assert |looked| == 1 && looked[0] in looked;
    }
  }

  // ---- The entity overlay --------------------------------------------------

  datatype Summary = Nothing | Summary(maxRatio: real, maxMalicious: int, families: set<string>)

  function FoundOnly(verdicts: seq<Verdict>): seq<Verdict> {
    if verdicts == [] then []
    else (if verdicts[0].found then [verdicts[0]] else []) + FoundOnly(verdicts[1..])
  }

  function Folded(known: seq<Verdict>): (r: Summary)
    requires known != []
    ensures r.Summary?
  {
    var v := known[0];
    if |known| == 1 then Summary(v.ratio, v.malicious, v.families)
    else
      var rest := Folded(known[1..]);
      Summary(if rest.maxRatio < v.ratio then v.ratio else rest.maxRatio,
              Max(v.malicious, rest.maxMalicious),
              v.families + rest.families)
  }

  function Summarize(verdicts: seq<Verdict>): Summary {
    var known := FoundOnly(verdicts);
    if known == [] then Nothing else Folded(known)
  }

  lemma {:induction false} FoundOnlyMeans(verdicts: seq<Verdict>)
    ensures forall v :: v in FoundOnly(verdicts) <==> v in verdicts && v.found
  {
    if verdicts != [] {
      FoundOnlyMeans(verdicts[1..]);
      assert verdicts == [verdicts[0]] + verdicts[1..];
    }
  }

  lemma {:induction false} FoldedMeans(known: seq<Verdict>)
    requires known != []
    ensures var s := Folded(known);
            && (forall v :: v in known ==> v.ratio <= s.maxRatio && v.malicious <= s.maxMalicious)
            && (exists v :: v in known && v.ratio == s.maxRatio)
            && (exists v :: v in known && v.malicious == s.maxMalicious)
            && (forall f :: f in s.families <==> exists v :: v in known && f in v.families)
  {
    assert known[0] in known && known == [known[0]] + known[1..];
    if |known| > 1 {
      FoldedMeans(known[1..]);
      var rest := Folded(known[1..]);
      var a :| a in known[1..] && a.ratio == rest.maxRatio;
      var b :| b in known[1..] && b.malicious == rest.maxMalicious;
      assert a in known && b in known;
    }
  }

  /** The rollup is that of the verdicts that VirusTotal knows: their greatest ratio and count, each attained,
      and all their families. */
  lemma SummarizeMeans(verdicts: seq<Verdict>)
    ensures Summarize(verdicts).Nothing? <==> forall v :: v in verdicts ==> !v.found
    ensures Summarize(verdicts).Summary? ==>
              var s := Summarize(verdicts);
              && (forall v :: v in verdicts && v.found ==> v.ratio <= s.maxRatio && v.malicious <= s.maxMalicious)
              && (exists v :: v in verdicts && v.found && v.ratio == s.maxRatio)
              && (exists v :: v in verdicts && v.found && v.malicious == s.maxMalicious)
              && (forall f :: f in s.families <==> exists v :: v in verdicts && v.found && f in v.families)
  {
    FoundOnlyMeans(verdicts);
    var known := FoundOnly(verdicts);
    if known != [] {
      FoldedMeans(known);
      assert known[0] in known;
    }
  }

  function Apply(o: Overlay, summary: Summary, minMalicious: int): Overlay {
    if summary.Nothing? then o
    else
      o.(maxVtRatio := Some(summary.maxRatio),
         vtFamilies := if summary.families != {} then summary.families else o.vtFamilies,
         signals := if summary.maxMalicious >= minMalicious then o.signals + {"virustotal"} else o.signals)
  }
}
