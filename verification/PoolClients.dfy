/** Which clients a guest serves, and which guests an id names, over whole runs of the pool. */
module PoolClients {
  import opened Bytes
  import opened PoolService
  import opened PoolRuns

  // ---- Who gets a guest ------------------------------------------------------

  /** A request is granted if and only if a busy guest serves the client already, a guest is available, or
      guests are shared and one is busy; a client that is served already gets a guest that serves it. */
  lemma GrantedExactlyWhen(p: Pool, ip: string)
    ensures Choose(p, ip) < |p.guests| <==>
            exists g :: g in p.guests && (Serves(ip)(g) || g.stage == Available || (p.share && Busy(g)))
    ensures (exists g :: g in p.guests && Serves(ip)(g)) ==>
              Choose(p, ip) < |p.guests| && Serves(ip)(p.guests[Choose(p, ip)])
  {
    var i := Choose(p, ip);
    if i < |p.guests| {
      assert p.guests[i] in p.guests;
    }
    if g :| g in p.guests && Serves(ip)(g) {
      var j :| 0 <= j < |p.guests| && p.guests[j] == g;
      assert First(p.guests, Serves(ip)) <= j;
    } else if g :| g in p.guests && (g.stage == Available || (p.share && Busy(g))) {
      var j :| 0 <= j < |p.guests| && p.guests[j] == g;
      assert g.stage == Available ==> First(p.guests, IsAvailable()) <= j;
    }
  }

  // ---- One client per guest --------------------------------------------------

  /** Whether guests may be shared when they are requested, and handed back for reuse. */
  datatype Uses = Uses(sharing: bool, reuse: bool)

  predicate StepPermitted(w: World, e: Event, uses: Uses) {
    && (e.ReuseVm? ==> uses.reuse)
    && (e.RequestVm? && w.pool.share ==> uses.sharing)
  }

  predicate Permitted(run: seq<Event>, uses: Uses) {
    run != [] ==>
      var before, e := run[..|run| - 1], run[|run| - 1];
      Permitted(before, uses) && StepPermitted(After(before), e, uses)
  }

  /** Sharing is off at every request, and no guest is handed back for reuse. */
  predicate Unshared(run: seq<Event>) {
    Permitted(run, Uses(false, false))
  }

  predicate OneClient(g: Guest) {
    forall a, b :: a in g.clientIps && b in g.clientIps ==> a == b
  }

  predicate Unused(g: Guest) {
    g.connected <= 0 && g.clientIps == []
  }

  predicate Exclusive(g: Guest) {
    OneClient(g) && (g.stage == Created || g.stage == Available ==> Unused(g))
  }

  predicate Distinct(ips: seq<string>) {
    forall i, j :: 0 <= i < j < |ips| ==> ips[i] != ips[j]
  }

  /** The addresses still to be checked belong to guests that are still booting. */
  predicate MarkingSound(w: World) {
    w.phase.MarkEach? ==>
      && Distinct(w.phase.todo)
      && forall g :: g in w.pool.guests && g.guestIp in w.phase.todo ==> g.stage == Created
  }

  predicate AllExclusive(w: World) {
    (forall g :: g in w.pool.guests ==> Exclusive(g)) && MarkingSound(w)
  }

  lemma {:induction false} ListedDistinct(guests: seq<Guest>, stage: Stage)
    requires DistinctIps(guests)
    ensures Distinct(Listed(guests, stage))
  {
    if guests != [] {
      var n := |guests| - 1;
      var front, g := guests[..n], guests[n];
      ListedDistinct(front, stage);
      forall h | h in front
        ensures h.guestIp != g.guestIp
      {
        var i :| 0 <= i < n && guests[i] == h;
      }
      var ips := Listed(front, stage);
      assert g.guestIp !in ips;
      assert Distinct(ips + [g.guestIp]);
    }
  }

  lemma DistinctTail(ips: seq<string>)
    requires Distinct(ips) && ips != []
    ensures Distinct(ips[1..]) && ips[0] !in ips[1..]
  {
    var rest := ips[1..];
    assert forall i :: 0 <= i < |rest| ==> rest[i] == ips[1 + i];
  }

  lemma RequestIsExclusive(p: Pool, ip: string)
    requires !p.share && forall g :: g in p.guests ==> Exclusive(g)
    ensures forall g :: g in Request(p, ip).guests ==> Exclusive(g)
  {
    var i := Choose(p, ip);
    if i < |p.guests| {
      assert p.guests[i] in p.guests;
      assert Exclusive(Serving(p.guests[i], ip));
    }
  }

  lemma FreeIsExclusive(p: Pool, id: int, now: real)
    requires forall g :: g in p.guests ==> Exclusive(g)
    ensures forall g :: g in Free(p, id, now).guests ==> Exclusive(g)
  {
    var i := First(p.guests, HasId(id));
    if i < |p.guests| {
      assert p.guests[i] in p.guests;
      assert Exclusive(Freed(p.guests[i], now));
    }
  }

  /** A request or a release never touches the stage of a guest that is still booting. */
  lemma BootingIsLeftAlone(w: World, e: Event)
    requires AllExclusive(w) && (e.RequestVm? || e.FreeVm?)
    ensures MarkingSound(Next(w, e))
  {
    var a, b := w.pool.guests, Next(w, e).pool.guests;
    forall g | w.phase.MarkEach? && g in b && g.guestIp in w.phase.todo
      ensures g.stage == Created
    {
      var i :| 0 <= i < |b| && b[i] == g;
      assert a[i] in a && a[i].guestIp == g.guestIp;
    }
  }

  /** Steps that move guests to other stages than `Available`. */
  lemma StagingIsExclusive(w: World, e: Event)
    requires AllExclusive(w) && e.Produce?
    requires w.phase.MarkTimedOut? || w.phase.DestroyEach? || w.phase.CheckHealth?
    ensures AllExclusive(Next(w, e))
  {
    var a, b := w.pool.guests, Next(w, e).pool.guests;
    forall g | g in b
      ensures Exclusive(g)
    {
      var i :| 0 <= i < |b| && b[i] == g;
      assert a[i] in a && a[i].clientIps == g.clientIps;
    }
  }

  lemma MarkingIsExclusive(w: World, e: Event)
    requires AllExclusive(w) && e.Produce? && w.phase.MarkEach?
    ensures AllExclusive(Next(w, e))
  {
    var a, b, todo := w.pool.guests, Next(w, e).pool.guests, w.phase.todo;
    if todo != [] {
      DistinctTail(todo);
      forall g | g in b
        ensures Exclusive(g)
        ensures g.guestIp in todo[1..] ==> g.stage == Created
      {
        var i :| 0 <= i < |b| && b[i] == g;
        assert a[i] in a && a[i].clientIps == g.clientIps && a[i].guestIp == g.guestIp;
        assert todo == [todo[0]] + todo[1..];
        if g.guestIp in todo[1..] {
          var j :| 0 <= j < |todo[1..]| && todo[1..][j] == g.guestIp;
          assert todo[1 + j] == g.guestIp;
        }
      }
    }
  }

  lemma ListCreatedIsExclusive(w: World, e: Event)
    requires AllExclusive(w) && DistinctIps(w.pool.guests) && e.Produce? && w.phase.ListCreated?
    ensures AllExclusive(Next(w, e))
  {
    var guests := w.pool.guests;
    ListedDistinct(guests, Created);
    forall g | g in guests && g.guestIp in Listed(guests, Created)
      ensures g.stage == Created
    {
      SameGuest(guests, g, Created);
    }
  }

  lemma StepIsExclusive(w: World, e: Event)
    requires AllExclusive(w) && DistinctIps(w.pool.guests) && Possible(w, e)
    requires !e.ReuseVm? && (e.RequestVm? ==> !w.pool.share)
    ensures AllExclusive(Next(w, e))
  {
    if e.RequestVm? {
      RequestIsExclusive(w.pool, e.ip);
      BootingIsLeftAlone(w, e);
    } else if e.FreeVm? {
      FreeIsExclusive(w.pool, e.id, e.now);
      BootingIsLeftAlone(w, e);
    } else if e.Produce? {
      match w.phase
      case MarkEach(_) => MarkingIsExclusive(w, e);
      case ListCreated => ListCreatedIsExclusive(w, e);
      case RemoveEach(todo) => if todo != [] { WithoutMeans(w.pool.guests, todo[0]); }
      case MarkTimedOut => StagingIsExclusive(w, e);
      case DestroyEach(_) => StagingIsExclusive(w, e);
      case CheckHealth => StagingIsExclusive(w, e);
      case _ =>
    }
  }

  lemma {:induction false} RunsAreExclusive(run: seq<Event>)
    requires PossibleRun(run) && Unshared(run)
    ensures AllExclusive(After(run))
  {
    if run != [] {
      var before := run[..|run| - 1];
      RunsAreExclusive(before);
      RunsAreSound(before);
      StepIsExclusive(After(before), run[|run| - 1]);
    }
  }

  /** With sharing off at every request and no reuse, no guest ever serves two clients. */
  lemma NoTwoClients(run: seq<Event>, g: Guest, a: string, b: string)
    requires PossibleRun(run) && Unshared(run)
    requires g in After(run).pool.guests && a in g.clientIps && b in g.clientIps
    ensures a == b
  {
    RunsAreExclusive(run);
    assert Exclusive(g);
  }

  /** Reuse breaks this: handing back a guest that a first request took undoes that request, except that
      the client stays on record; the next new client is then given the same guest. */
  lemma ReuseMixesClients(p: Pool, a: string, b: string)
    requires Choose(p, a) < |p.guests|
    requires var g := p.guests[Choose(p, a)];
             && g.stage == Available && g.connected == 0
             && First(p.guests, HasId(g.id)) == Choose(p, a)
    requires First(p.guests, Serves(b)) == |p.guests|
    ensures var i := Choose(p, a);
            var g := p.guests[i];
            var back := Reuse(Request(p, a), g.id);
            && back == p.(guests := p.guests[i := g.(clientIps := g.clientIps + [a], prevStage := NoStage)])
            && Choose(back, b) == i
            && Request(back, b).guests[i].clientIps == g.clientIps + [a, b]
  {
    var i := Choose(p, a);
    ReuseUndoes(p, a);
    StillFirst(p, i, p.guests[i].clientIps + [a], b);
  }

  lemma ReuseUndoes(p: Pool, a: string)
    requires Choose(p, a) < |p.guests|
    requires var g := p.guests[Choose(p, a)];
             && g.stage == Available && g.connected == 0
             && First(p.guests, HasId(g.id)) == Choose(p, a)
    ensures var i := Choose(p, a);
            var g := p.guests[i];
            Reuse(Request(p, a), g.id)
            == p.(guests := p.guests[i := g.(clientIps := g.clientIps + [a], prevStage := NoStage)])
  {
    var i := Choose(p, a);
    var g := p.guests[i];
    var requested := Request(p, a).guests;
    assert forall j :: 0 <= j < i ==> requested[j] == p.guests[j] && !HasId(g.id)(requested[j]);
    FirstIs(requested, HasId(g.id), i);
  }

  /** A guest that was available first still is when only its records changed. */
  lemma StillFirst(p: Pool, i: nat, clientIps: seq<string>, b: string)
    requires i < |p.guests| && First(p.guests, IsAvailable()) == i
    requires First(p.guests, Serves(b)) == |p.guests|
    ensures Choose(p.(guests := p.guests[i := p.guests[i].(clientIps := clientIps, prevStage := NoStage)]), b) == i
  {
    var guests := p.guests[i := p.guests[i].(clientIps := clientIps, prevStage := NoStage)];
    assert forall j :: 0 <= j < i ==> !IsAvailable()(p.guests[j]);
    FirstIs(guests, IsAvailable(), i);
    forall j | 0 <= j < |guests|
      ensures !Serves(b)(guests[j])
    {
      assert !Serves(b)(p.guests[j]);
    }
    NoneWanted(guests, Serves(b));
  }

  lemma FirstIs(guests: seq<Guest>, wanted: Guest -> bool, i: nat)
    requires i < |guests| && wanted(guests[i]) && forall j :: 0 <= j < i ==> !wanted(guests[j])
    ensures First(guests, wanted) == i
  {
  }

  lemma NoneWanted(guests: seq<Guest>, wanted: Guest -> bool)
    requires forall j :: 0 <= j < |guests| ==> !wanted(guests[j])
    ensures First(guests, wanted) == |guests|
  {
  }

  // ---- Ids -------------------------------------------------------------------

  predicate Creates(w: World, e: Event) {
    e.Produce? && w.phase.CreateEach? && w.phase.left > 0 && e.answer.Some?
  }

  function Creations(run: seq<Event>): nat {
    if run == [] then 0
    else
      var before := run[..|run| - 1];
      Creations(before) + if Creates(After(before), run[|run| - 1]) then 1 else 0
  }

  /** For each listed guest, how many guests were created before it; `n` have been created so far. */
  function NextSerials(w: World, e: Event, serials: seq<nat>, n: nat): seq<nat> {
    if Creates(w, e) then serials + [n]
    else if e.Produce? && w.phase.RemoveEach? && w.phase.todo != [] then
      var i := First(w.pool.guests, HasIp(w.phase.todo[0]));
      if i < |serials| then serials[..i] + serials[i + 1..] else serials
    else serials
  }

  function Serials(run: seq<Event>): seq<nat> {
    if run == [] then []
    else
      var before, e := run[..|run| - 1], run[|run| - 1];
      NextSerials(After(before), e, Serials(before), Creations(before))
  }

  /** `n` guests were created so far and those listed carry these numbers; ids are the numbers modulo 252. */
  predicate Numbered(p: Pool, serials: seq<nat>, n: nat) {
    && p.guestId == n % ID_LIMIT
    && |serials| == |p.guests|
    && (forall i :: 0 <= i < |serials| ==> serials[i] < n && p.guests[i].id == serials[i] % ID_LIMIT)
    && forall i, j :: 0 <= i < j < |serials| ==> serials[i] < serials[j]
  }

  /** A step that leaves the ids and the addresses alone. */
  predicate KeepsIds(p: Pool, p': Pool) {
    && p'.guestId == p.guestId
    && |p'.guests| == |p.guests|
    && forall i :: 0 <= i < |p.guests| ==> p'.guests[i].id == p.guests[i].id && p'.guests[i].guestIp == p.guests[i].guestIp
  }

  lemma ConsumersKeepIds(w: World, e: Event)
    requires !e.Produce?
    ensures KeepsIds(w.pool, Next(w, e).pool)
  {
  }

  lemma ProducerKeepsIds(w: World, e: Event)
    requires e.Produce? && !Creates(w, e) && !w.phase.RemoveEach?
    ensures KeepsIds(w.pool, Next(w, e).pool)
  {
  }

  lemma OtherStepsNumber(p: Pool, p': Pool, serials: seq<nat>, n: nat)
    requires Numbered(p, serials, n) && KeepsIds(p, p')
    ensures Numbered(p', serials, n)
  {
  }

  lemma Successor(n: nat)
    ensures (n + 1) % ID_LIMIT == if n % ID_LIMIT + 1 == ID_LIMIT then 0 else n % ID_LIMIT + 1
  {
  }

  lemma CreationNumbers(p: Pool, ip: string, serials: seq<nat>, n: nat)
    requires Numbered(p, serials, n)
    ensures Numbered(Create(p, Some(ip)), serials + [n], n + 1)
  {
    Successor(n);
  }

  lemma RemovalNumbersAt(p: Pool, i: nat, serials: seq<nat>, n: nat)
    requires Numbered(p, serials, n) && i < |serials|
    ensures Numbered(p.(guests := p.guests[..i] + p.guests[i + 1..]), serials[..i] + serials[i + 1..], n)
  {
    var guests, rest := p.guests[..i] + p.guests[i + 1..], serials[..i] + serials[i + 1..];
    assert forall k :: 0 <= k < |rest| ==>
      var was := if k < i then k else k + 1; rest[k] == serials[was] && guests[k] == p.guests[was];
  }

  lemma RemovalNumbers(p: Pool, ip: string, serials: seq<nat>, n: nat)
    requires Numbered(p, serials, n)
    ensures var i := First(p.guests, HasIp(ip));
            Numbered(p.(guests := Without(p.guests, ip)), if i < |serials| then serials[..i] + serials[i + 1..] else serials, n)
  {
    var i := First(p.guests, HasIp(ip));
    if i < |serials| {
      RemovalNumbersAt(p, i, serials, n);
    }
  }

  lemma RemoveStepNumbers(w: World, e: Event, serials: seq<nat>, n: nat)
    requires Numbered(w.pool, serials, n) && e.Produce? && w.phase.RemoveEach?
    ensures Numbered(Next(w, e).pool, NextSerials(w, e, serials, n), n)
  {
    if w.phase.todo == [] {
      assert Next(w, e).pool == w.pool && NextSerials(w, e, serials, n) == serials;
    } else {
      var ip := w.phase.todo[0];
      var i := First(w.pool.guests, HasIp(ip));
      assert Next(w, e).pool == w.pool.(guests := Without(w.pool.guests, ip));
      assert NextSerials(w, e, serials, n) == if i < |serials| then serials[..i] + serials[i + 1..] else serials;
      RemovalNumbers(w.pool, ip, serials, n);
    }
  }

  lemma StepNumbers(w: World, e: Event, serials: seq<nat>, n: nat)
    requires Numbered(w.pool, serials, n)
    ensures Numbered(Next(w, e).pool, NextSerials(w, e, serials, n), if Creates(w, e) then n + 1 else n)
  {
    if !e.Produce? {
      ConsumersKeepIds(w, e);
      OtherStepsNumber(w.pool, Next(w, e).pool, serials, n);
    } else if Creates(w, e) {
      CreationNumbers(w.pool, e.answer.value, serials, n);
    } else if w.phase.RemoveEach? {
      RemoveStepNumbers(w, e, serials, n);
    } else {
      ProducerKeepsIds(w, e);
      OtherStepsNumber(w.pool, Next(w, e).pool, serials, n);
    }
  }

  lemma Unrolled(run: seq<Event>)
    requires run != []
    ensures var before, e := run[..|run| - 1], run[|run| - 1];
            var w, n := After(before), Creations(before);
            && After(run) == Next(w, e)
            && Serials(run) == NextSerials(w, e, Serials(before), n)
            && Creations(run) == if Creates(w, e) then n + 1 else n
  {
  }

  lemma {:induction false} RunsNumberGuests(run: seq<Event>)
    ensures Numbered(After(run).pool, Serials(run), Creations(run))
  {
    if run != [] {
      var before := run[..|run| - 1];
      var w, e, serials, n := After(before), run[|run| - 1], Serials(before), Creations(before);
      RunsNumberGuests(before);
      StepNumbers(w, e, serials, n);
      Unrolled(run);
    }
  }

  lemma SameRemainder(a: nat, b: nat)
    requires a <= b
    ensures a % ID_LIMIT == b % ID_LIMIT <==> (b - a) % ID_LIMIT == 0
  {
    var q, r := (b - a) / ID_LIMIT, (b - a) % ID_LIMIT;
    assert b == a / ID_LIMIT * ID_LIMIT + a % ID_LIMIT + q * ID_LIMIT + r;
  }

  lemma SameIdExactlyWhen(p: Pool, serials: seq<nat>, n: nat, i: nat, j: nat)
    requires Numbered(p, serials, n) && i < j < |p.guests|
    ensures serials[i] < serials[j] < n
    ensures p.guests[i].id == p.guests[j].id <==> (serials[j] - serials[i]) % ID_LIMIT == 0
  {
    SameRemainder(serials[i], serials[j]);
  }

  /** Two listed guests share an id exactly when their places in the order of creation differ by a multiple
      of 252. */
  lemma IdsClashExactlyWhen(run: seq<Event>, guests: seq<Guest>, serials: seq<nat>, i: nat, j: nat)
    requires guests == After(run).pool.guests && serials == Serials(run) && i < j < |guests|
    ensures |serials| == |guests| && serials[i] < serials[j] < Creations(run)
    ensures guests[i].id == guests[j].id <==> (serials[j] - serials[i]) % ID_LIMIT == 0
  {
    RunsNumberGuests(run);
    SameIdExactlyWhen(After(run).pool, serials, Creations(run), i, j);
  }

  /** Freeing the id of the guest that a request for `ip` grants reaches that guest. */
  predicate FreesGranted(p: Pool, ip: string, now: real)
    requires Choose(p, ip) < |p.guests|
  {
    var i := Choose(p, ip);
    Free(Request(p, ip), p.guests[i].id, now).guests == p.guests[i := Freed(Serving(p.guests[i], ip), now)]
  }

  lemma FreesGrantedExactlyWhen(p: Pool, ip: string, now: real)
    requires Choose(p, ip) < |p.guests|
    ensures FreesGranted(p, ip, now) <==> forall j :: 0 <= j < Choose(p, ip) ==> p.guests[j].id != p.guests[Choose(p, ip)].id
  {
    var i := Choose(p, ip);
    var id, requested := p.guests[i].id, Request(p, ip).guests;
    var k := First(requested, HasId(id));
    assert HasId(id)(requested[i]) && k <= i;
    if k == i {
      forall j | 0 <= j < i
        ensures p.guests[j].id != id
      {
        assert !HasId(id)(requested[j]);
      }
    } else {
      assert p.guests[k].id == id;
      assert Free(Request(p, ip), id, now).guests[i] == Serving(p.guests[i], ip);
    }
  }

  lemma FreeFinds(p: Pool, serials: seq<nat>, n: nat, ip: string, now: real)
    requires Numbered(p, serials, n) && Choose(p, ip) < |p.guests|
    ensures var i := Choose(p, ip);
            FreesGranted(p, ip, now) <==> forall j :: 0 <= j < i ==> (serials[i] - serials[j]) % ID_LIMIT != 0
  {
    var i := Choose(p, ip);
    FreesGrantedExactlyWhen(p, ip, now);
    forall j | 0 <= j < i
      ensures p.guests[j].id == p.guests[i].id <==> (serials[i] - serials[j]) % ID_LIMIT == 0
    {
      SameIdExactlyWhen(p, serials, n, j, i);
    }
  }

  /** Freeing the id a request returned releases the very guest it granted exactly when no guest listed before
      it was created a multiple of 252 creations earlier. */
  lemma FreeFindsItsGuest(run: seq<Event>, p: Pool, serials: seq<nat>, ip: string, now: real)
    requires p == After(run).pool && serials == Serials(run) && Choose(p, ip) < |p.guests|
    ensures |serials| == |p.guests|
    ensures var i := Choose(p, ip);
            FreesGranted(p, ip, now) <==> forall j :: 0 <= j < i ==> (serials[i] - serials[j]) % ID_LIMIT != 0
  {
    RunsNumberGuests(run);
    FreeFinds(p, serials, Creations(run), ip, now);
  }

  /** So it always does while no more than 252 guests have been created. */
  lemma FreeFindsEarly(run: seq<Event>, ip: string, now: real)
    requires Creations(run) <= ID_LIMIT && Choose(After(run).pool, ip) < |After(run).pool.guests|
    ensures FreesGranted(After(run).pool, ip, now)
  {
    RunsNumberGuests(run);
    FewFindsGranted(After(run).pool, Serials(run), Creations(run), ip, now);
  }

  lemma FewFindsGranted(p: Pool, serials: seq<nat>, n: nat, ip: string, now: real)
    requires Numbered(p, serials, n) && n <= ID_LIMIT && Choose(p, ip) < |p.guests|
    ensures FreesGranted(p, ip, now)
  {
    FreeFinds(p, serials, n, ip, now);
    var i := Choose(p, ip);
    forall j | 0 <= j < i
      ensures (serials[i] - serials[j]) % ID_LIMIT != 0
    {
      assert 0 < serials[i] - serials[j] < ID_LIMIT;
    }
  }

  // ---- Freeing later -----------------------------------------------------------

  /** Each guest of `p'` was created after the first `n`, or is one of `p`'s at its old address. */
  ghost predicate Inherits(p: Pool, serials: seq<nat>, p': Pool, serials': seq<nat>, n: nat) {
    && |serials| == |p.guests| && |serials'| == |p'.guests|
    && forall j :: 0 <= j < |serials'| && serials'[j] < n ==>
         exists i :: 0 <= i < |serials| && serials[i] == serials'[j] && p.guests[i].guestIp == p'.guests[j].guestIp
  }

  lemma KeptIsInherited(p: Pool, p': Pool, serials: seq<nat>, n: nat)
    requires |serials| == |p.guests| && KeepsIds(p, p')
    ensures Inherits(p, serials, p', serials, n)
  {
    forall j | 0 <= j < |serials|
      ensures exists i :: 0 <= i < |serials| && serials[i] == serials[j] && p.guests[i].guestIp == p'.guests[j].guestIp
    {
      assert p.guests[j].guestIp == p'.guests[j].guestIp;
    }
  }

  lemma CreationInherits(p: Pool, ip: string, serials: seq<nat>, n: nat)
    requires |serials| == |p.guests|
    ensures Inherits(p, serials, Create(p, Some(ip)), serials + [n], n)
  {
    var p' := Create(p, Some(ip));
    assert forall j :: 0 <= j < |serials| ==> p'.guests[j] == p.guests[j] && (serials + [n])[j] == serials[j];
  }

  lemma RemovalInherits(p: Pool, i: nat, serials: seq<nat>, n: nat)
    requires |serials| == |p.guests| && i < |serials|
    ensures Inherits(p, serials, p.(guests := p.guests[..i] + p.guests[i + 1..]), serials[..i] + serials[i + 1..], n)
  {
    var guests, rest := p.guests[..i] + p.guests[i + 1..], serials[..i] + serials[i + 1..];
    forall j | 0 <= j < |rest|
      ensures exists k :: 0 <= k < |serials| && serials[k] == rest[j] && p.guests[k].guestIp == guests[j].guestIp
    {
      var was := if j < i then j else j + 1;
      assert serials[was] == rest[j] && p.guests[was] == guests[j];
    }
  }

  lemma StepInherits(w: World, e: Event, serials: seq<nat>, n: nat)
    requires |serials| == |w.pool.guests|
    ensures Inherits(w.pool, serials, Next(w, e).pool, NextSerials(w, e, serials, n), n)
  {
    if !e.Produce? {
      ConsumersKeepIds(w, e);
      KeptIsInherited(w.pool, Next(w, e).pool, serials, n);
    } else if Creates(w, e) {
      CreationInherits(w.pool, e.answer.value, serials, n);
    } else if w.phase.RemoveEach? && w.phase.todo != [] && First(w.pool.guests, HasIp(w.phase.todo[0])) < |serials| {
      RemovalInherits(w.pool, First(w.pool.guests, HasIp(w.phase.todo[0])), serials, n);
    } else {
      assert w.phase.RemoveEach? ==> Next(w, e).pool == w.pool;
      assert !w.phase.RemoveEach? ==> KeepsIds(w.pool, Next(w, e).pool) by {
        if !w.phase.RemoveEach? {
          ProducerKeepsIds(w, e);
        }
      }
      KeptIsInherited(w.pool, Next(w, e).pool, serials, n);
    }
  }

  lemma InheritsOnward(p1: Pool, s1: seq<nat>, p2: Pool, s2: seq<nat>, p3: Pool, s3: seq<nat>, n: nat, m: nat)
    requires Inherits(p1, s1, p2, s2, n) && Inherits(p2, s2, p3, s3, m) && n <= m
    ensures Inherits(p1, s1, p3, s3, n)
  {
    forall j | 0 <= j < |s3| && s3[j] < n
      ensures exists i :: 0 <= i < |s1| && s1[i] == s3[j] && p1.guests[i].guestIp == p3.guests[j].guestIp
    {
      var k :| 0 <= k < |s2| && s2[k] == s3[j] && p2.guests[k].guestIp == p3.guests[j].guestIp;
    }
  }

  /** As a run goes on, no guest comes back, and a guest keeps its address. */
  lemma {:induction false} RunInherits(run: seq<Event>, more: seq<Event>)
    ensures Inherits(After(run).pool, Serials(run), After(run + more).pool, Serials(run + more), Creations(run))
    ensures Creations(run) <= Creations(run + more)
    decreases |more|
  {
    RunsNumberGuests(run);
    if more == [] {
      assert run + more == run;
      KeptIsInherited(After(run).pool, After(run).pool, Serials(run), Creations(run));
    } else {
      var longer, front := run + more, more[..|more| - 1];
      var before := run + front;
      assert longer[..|longer| - 1] == before && longer[|longer| - 1] == more[|more| - 1];
      RunInherits(run, front);
      RunsNumberGuests(before);
      Unrolled(longer);
      StepInherits(After(before), longer[|longer| - 1], Serials(before), Creations(before));
      InheritsOnward(After(run).pool, Serials(run), After(before).pool, Serials(before),
                     After(longer).pool, Serials(longer), Creations(run), Creations(before));
    }
  }

  /** The guest that freeing an id releases. */
  predicate Releases(p: Pool, serials: seq<nat>, id: int, serial: nat)
    requires |serials| == |p.guests|
  {
    var k := First(p.guests, HasId(id));
    k < |serials| && serials[k] == serial
  }

  /** No guest listed before was created a multiple of 252 creations earlier. */
  predicate Unclashed(serials: seq<nat>, serial: nat) {
    forall t :: t in serials && t < serial ==> (serial - t) % ID_LIMIT != 0
  }

  lemma ReleasesExactlyWhen(p: Pool, serials: seq<nat>, n: nat, serial: nat)
    requires Numbered(p, serials, n)
    ensures Releases(p, serials, serial % ID_LIMIT, serial) <==> serial in serials && Unclashed(serials, serial)
  {
    var k := First(p.guests, HasId(serial % ID_LIMIT));
    if serial in serials {
      var m :| 0 <= m < |serials| && serials[m] == serial;
      assert HasId(serial % ID_LIMIT)(p.guests[m]) && k <= m;
      if k < m {
        SameRemainder(serials[k], serial);
        assert serials[k] in serials;
      } else {
        forall t | t in serials && t < serial
          ensures (serial - t) % ID_LIMIT != 0
        {
          var j :| 0 <= j < |serials| && serials[j] == t;
          assert j < m && !HasId(serial % ID_LIMIT)(p.guests[j]);
          SameRemainder(t, serial);
        }
      }
    }
  }

  /** A guest that is still listed when it clashed with none at its request clashes with none. */
  lemma StaysUnclashed(p: Pool, serials: seq<nat>, q: Pool, listed: seq<nat>, n: nat, serial: nat)
    requires Inherits(p, serials, q, listed, n) && serial < n && Unclashed(serials, serial)
    ensures Unclashed(listed, serial)
  {
    forall t | t in listed && t < serial
      ensures (serial - t) % ID_LIMIT != 0
    {
      var j :| 0 <= j < |listed| && listed[j] == t;
      var i :| 0 <= i < |serials| && serials[i] == listed[j] && p.guests[i].guestIp == q.guests[j].guestIp;
      assert serials[i] in serials;
    }
  }

  lemma KeepsItsAddress(p: Pool, serials: seq<nat>, q: Pool, listed: seq<nat>, n: nat, i: nat, k: nat)
    requires Numbered(p, serials, n) && Inherits(p, serials, q, listed, n)
    requires i < |serials| && k < |listed| && listed[k] == serials[i]
    ensures q.guests[k].guestIp == p.guests[i].guestIp
  {
    var j :| 0 <= j < |serials| && serials[j] == listed[k] && p.guests[j].guestIp == q.guests[k].guestIp;
    assert j == i;
  }

  /** Freeing the id that a request returned, after any further events, releases the granted guest exactly when
      that is still listed and no guest listed before it was created a multiple of 252 creations earlier; so it
      does if none such was listed at the request and the guest still is. When the guest is gone, another one is
      released exactly when one with the same id is listed. */
  lemma FreeLaterFinds(run: seq<Event>, ip: string, more: seq<Event>, p: Pool, serials: seq<nat>, q: Pool, listed: seq<nat>)
    requires p == After(run).pool && serials == Serials(run) && Choose(p, ip) < |p.guests|
    requires q == After(run + ([RequestVm(ip)] + more)).pool && listed == Serials(run + ([RequestVm(ip)] + more))
    ensures |serials| == |p.guests| && |listed| == |q.guests|
    ensures var granted, serial := p.guests[Choose(p, ip)], serials[Choose(p, ip)];
            && (Releases(q, listed, granted.id, serial) <==> serial in listed && Unclashed(listed, serial))
            && (serial in listed && Unclashed(serials, serial) ==> Releases(q, listed, granted.id, serial))
            && (Releases(q, listed, granted.id, serial) ==>
                  q.guests[First(q.guests, HasId(granted.id))].guestIp == granted.guestIp)
            && (serial !in listed ==>
                  (First(q.guests, HasId(granted.id)) < |q.guests| <==> exists t :: t in listed && t % ID_LIMIT == serial % ID_LIMIT))
  {
    var longer := run + ([RequestVm(ip)] + more);
    RunsNumberGuests(run);
    RunsNumberGuests(longer);
    RunInherits(run, [RequestVm(ip)] + more);
    var i, n, m := Choose(p, ip), Creations(run), Creations(longer);
    LaterFree(p, serials, n, q, listed, m, i);
  }

  lemma LaterFree(p: Pool, serials: seq<nat>, n: nat, q: Pool, listed: seq<nat>, m: nat, i: nat)
    requires Numbered(p, serials, n) && Numbered(q, listed, m) && Inherits(p, serials, q, listed, n) && i < |serials|
    ensures var id, serial := p.guests[i].id, serials[i];
            && (Releases(q, listed, id, serial) <==> serial in listed && Unclashed(listed, serial))
            && (serial in listed && Unclashed(serials, serial) ==> Releases(q, listed, id, serial))
            && (Releases(q, listed, id, serial) ==> q.guests[First(q.guests, HasId(id))].guestIp == p.guests[i].guestIp)
            && (First(q.guests, HasId(id)) < |q.guests| <==> exists t :: t in listed && t % ID_LIMIT == serial % ID_LIMIT)
  {
    var id, serial := p.guests[i].id, serials[i];
    ReleasesExactlyWhen(q, listed, m, serial);
    SomeHasId(q, listed, m, id);
    if Unclashed(serials, serial) {
      StaysUnclashed(p, serials, q, listed, n, serial);
    }
    if Releases(q, listed, id, serial) {
      KeepsItsAddress(p, serials, q, listed, n, i, First(q.guests, HasId(id)));
    }
  }

  lemma SomeHasId(p: Pool, serials: seq<nat>, n: nat, id: nat)
    requires Numbered(p, serials, n)
    ensures First(p.guests, HasId(id)) < |p.guests| <==> exists t :: t in serials && t % ID_LIMIT == id
  {
    var k := First(p.guests, HasId(id));
    if k < |p.guests| {
      assert serials[k] in serials && serials[k] % ID_LIMIT == id;
    }
    if t :| t in serials && t % ID_LIMIT == id {
      var j :| 0 <= j < |serials| && serials[j] == t;
      assert HasId(id)(p.guests[j]);
    }
  }
}
