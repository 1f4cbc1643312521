/** A run of the pool in which an id is handed out twice, and freeing it releases the wrong guest. */
module PoolIds {
  import opened Bytes
  import opened PoolService
  import opened PoolRuns
  import opened PoolClients

  /** One more than there are ids. */
  const SIZE := ID_LIMIT + 1

  function Name(k: nat): string {
    seq(k, _ => 'a')
  }

  function Names(n: nat): seq<string> {
    seq(n, k requires 0 <= k < n => Name(k))
  }

  /** The first `n` guests ever created, still booting. */
  function Fresh(n: nat): (guests: seq<Guest>)
    ensures |guests| == n
    ensures forall k :: 0 <= k < n ==> guests[k] == NewGuest(k % ID_LIMIT, Name(k))
  {
    seq(n, k requires 0 <= k < n => NewGuest(k % ID_LIMIT, Name(k)))
  }

  function Filled(n: nat): Pool {
    Pool(Fresh(n), n % ID_LIMIT, SIZE, 600.0, false, false)
  }

  /** A step of the producer in which only the last guest answers. */
  function Step(answer: Option<string>): Event {
    Produce(_ => 0.0, (ip: string) => ip == Name(ID_LIMIT), answer)
  }

  /** A set of worlds that holds the first one and is closed under the producer's steps and new configurations. */
  ghost predicate Closed(reached: World -> bool) {
    && reached(Initial)
    && forall w, e :: reached(w) && Possible(w, e) && (e.Produce? || e.SetConfigs?) ==> reached(Next(w, e))
  }

  /** A step of the producer that creates nothing. */
  lemma Advance(reached: World -> bool, w: World, next: World)
    requires Closed(reached) && reached(w) && next == Next(w, Step(None))
    ensures reached(next)
  {
    assert Possible(w, Step(None));
  }

  lemma EmptyPoolCreates(reached: World -> bool, p: Pool)
    requires Closed(reached) && reached(World(p, Start)) && p.guests == []
    ensures reached(World(p, CreateEach(p.maxVm)))
  {
    Advance(reached, World(p, Start), World(p, CheckHealth));
    assert Checked(p.guests, Step(None).ok) == p.guests;
    Advance(reached, World(p, CheckHealth), World(p, ListDestroyed));
    Advance(reached, World(p, ListDestroyed), World(p, RemoveEach([])));
    Advance(reached, World(p, RemoveEach([])), World(p, CountMissing));
    Advance(reached, World(p, CountMissing), World(p, CreateEach(p.maxVm)));
  }

  lemma CreationReached(reached: World -> bool)
    requires Closed(reached)
    ensures reached(World(Filled(0), CreateEach(SIZE)))
  {
    var e := SetConfigs(SIZE, 600.0, false);
    assert Possible(Initial, e) && Next(Initial, e) == World(Filled(0), Start);
    EmptyPoolCreates(reached, Filled(0));
  }

  lemma {:induction false} FilledReached(reached: World -> bool, n: nat)
    requires Closed(reached) && n <= SIZE
    ensures reached(World(Filled(n), CreateEach(SIZE - n)))
    decreases n
  {
    if n == 0 {
      CreationReached(reached);
    } else {
      FilledReached(reached, n - 1);
      NameIsFree(n - 1);
      OneMore(n - 1);
      var w, e := World(Filled(n - 1), CreateEach(SIZE - n + 1)), Step(Some(Name(n - 1)));
      assert Possible(w, e) && Next(w, e) == World(Filled(n), CreateEach(SIZE - n));
    }
  }

  lemma OneMore(n: nat)
    ensures Create(Filled(n), Some(Name(n))) == Filled(n + 1)
  {
    Successor(n);
    assert Fresh(n + 1) == Fresh(n) + [NewGuest(n % ID_LIMIT, Name(n))];
  }

  lemma NameIsFree(n: nat)
    ensures IpFree(Fresh(n), Name(n))
  {
    forall g | g in Fresh(n)
      ensures g.guestIp != Name(n)
    {
      var k :| 0 <= k < n && Fresh(n)[k] == g;
      assert |g.guestIp| == k;
    }
  }

  lemma {:induction false} FreshListed(n: nat)
    ensures Listed(Fresh(n), Created) == Names(n)
  {
    if n > 0 {
      FreshListed(n - 1);
      assert Fresh(n)[..n - 1] == Fresh(n - 1);
      assert Names(n) == Names(n - 1) + [Name(n - 1)];
    }
  }

  lemma {:induction false} MarkingReached(reached: World -> bool, m: nat)
    requires Closed(reached) && m <= ID_LIMIT
    ensures reached(World(Filled(SIZE), MarkEach(Names(SIZE)[m..])))
    decreases m
  {
    var p := Filled(SIZE);
    if m == 0 {
      FilledReached(reached, SIZE);
      Advance(reached, World(p, CreateEach(0)), World(p, ListCreated));
      FreshListed(SIZE);
      Advance(reached, World(p, ListCreated), World(p, MarkEach(Names(SIZE))));
      assert Names(SIZE)[0..] == Names(SIZE);
    } else {
      MarkingReached(reached, m - 1);
      NotTheLast(m - 1);
      Advance(reached, World(p, MarkEach(Names(SIZE)[m - 1..])), World(p, MarkEach(Names(SIZE)[m..])));
    }
  }

  lemma NotTheLast(k: nat)
    requires k < ID_LIMIT
    ensures var todo := Names(SIZE)[k..];
            todo != [] && todo[0] == Name(k) != Name(ID_LIMIT) && todo[1..] == Names(SIZE)[k + 1..]
  {
    assert |Name(k)| == k && |Name(ID_LIMIT)| == ID_LIMIT;
  }

  /** All guests are booting but the last, which is available. */
  function Ready(): Pool {
    Filled(SIZE).(guests := SetStage(Fresh(SIZE), Name(ID_LIMIT), Available), anyVmUp := true)
  }

  lemma ReadyGuests(k: nat)
    requires k < SIZE
    ensures Ready().guests[k] == if k == ID_LIMIT then NewGuest(0, Name(k)).(stage := Available) else NewGuest(k, Name(k))
  {
    assert |Name(k)| == k && |Name(ID_LIMIT)| == ID_LIMIT;
  }

  lemma ReadyIs(ip: string, k: nat)
    requires k < SIZE
    ensures var g := Ready().guests[k]; !Serves(ip)(g) && (IsAvailable()(g) <==> k == ID_LIMIT)
  {
    ReadyGuests(k);
  }

  lemma ChoosesAvailable(p: Pool, ip: string, i: nat)
    requires i < |p.guests|
    requires forall k :: 0 <= k < |p.guests| ==> !Serves(ip)(p.guests[k]) && (IsAvailable()(p.guests[k]) <==> k == i)
    ensures Choose(p, ip) == i
  {
    NoneWanted(p.guests, Serves(ip));
    FirstIs(p.guests, IsAvailable(), i);
  }

  lemma ReadyChooses(ip: string)
    ensures Choose(Ready(), ip) == ID_LIMIT
  {
    var p := Ready();
    forall k | 0 <= k < |p.guests|
      ensures !Serves(ip)(p.guests[k]) && (IsAvailable()(p.guests[k]) <==> k == ID_LIMIT)
    {
      ReadyIs(ip, k);
    }
    ChoosesAvailable(p, ip, ID_LIMIT);
  }

  lemma ReadyReached(reached: World -> bool)
    requires Closed(reached)
    ensures reached(World(Ready(), MarkEach([])))
  {
    MarkingReached(reached, ID_LIMIT);
    var todo := Names(SIZE)[ID_LIMIT..];
    assert todo == [Name(ID_LIMIT)] && todo[1..] == [];
    Advance(reached, World(Filled(SIZE), MarkEach(todo)), World(Ready(), MarkEach([])));
  }

  /** Freeing the id that a request returned releases the first guest and not the one granted. */
  lemma ReadyFreesWrong(ip: string, now: real)
    ensures var p := Ready();
            && Choose(p, ip) == ID_LIMIT < |p.guests|
            && !FreesGranted(p, ip, now)
            && var requested := Request(p, ip);
               Free(requested, p.guests[ID_LIMIT].id, now).guests
               == requested.guests[0 := Freed(requested.guests[0], now)]
  {
    ReadyChooses(ip);
    ReadyGuests(0);
    ReadyGuests(ID_LIMIT);
    FreesGrantedExactlyWhen(Ready(), ip, now);
    FirstIs(Request(Ready(), ip).guests, HasId(0), 0);
  }

  ghost predicate Reachable(w: World) {
    exists run :: PossibleRun(run) && After(run) == w
  }

  lemma StepReachable(w: World, e: Event)
    requires Reachable(w) && Possible(w, e)
    ensures Reachable(Next(w, e))
  {
    var run :| PossibleRun(run) && After(run) == w;
    var longer := run + [e];
    assert longer[..|longer| - 1] == run;
    assert PossibleRun(longer) && After(longer) == Next(w, e);
  }

  /** Some run ends with 253 guests of which a request grants the last one, and freeing the id it returned
      releases the first. */
  lemma WrongGuestFreed(ip: string, now: real)
    ensures exists run :: PossibleRun(run) && After(run).pool == Ready()
    ensures Choose(Ready(), ip) < |Ready().guests| && !FreesGranted(Ready(), ip, now)
    ensures var i, requested := Choose(Ready(), ip), Request(Ready(), ip);
            i > 0 && Free(requested, requested.guests[i].id, now).guests
                     == requested.guests[0 := Freed(requested.guests[0], now)]
  {
    var reached := (w: World) => Reachable(w);
    assert Reachable(Initial) by {
      assert PossibleRun([]) && After([]) == Initial;
    }
    forall w, e | Reachable(w) && Possible(w, e)
      ensures Reachable(Next(w, e))
    {
      StepReachable(w, e);
    }
    ReadyReached(reached);
    assert Reachable(World(Ready(), MarkEach([])));
    ReadyFreesWrong(ip, now);
  }
}
