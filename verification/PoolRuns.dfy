/** Whole runs of the pool: the producer's steps, with consumers' calls and new configurations between
    any two of them. */
module PoolRuns {
  import opened Bytes
  import opened PoolService

  /** Where the producer thread is in its loop; `todo` and `left` are its loop variables. */
  datatype Phase =
    | Start
    | MarkTimedOut
    | ListUnavailable
    | DestroyEach(todo: seq<string>)
    | CheckHealth
    | ListDestroyed
    | RemoveEach(todo: seq<string>)
    | CountMissing
    | CreateEach(left: int)
    | ListCreated
    | MarkEach(todo: seq<string>)

  datatype World = World(pool: Pool, phase: Phase)

  datatype Event =
    | Produce(clock: nat -> real, ok: string -> bool, answer: Option<string>)
    | RequestVm(ip: string)
    | FreeVm(id: int, now: real)
    | ReuseVm(id: int)
    | SetConfigs(maxVm: int, timeout: real, share: bool)

  const Initial := World(Pool([], 0, 2, 600.0, true, false), Start)

  /** The next step of the producer. `ok` answers connection checks and domain destructions. */
  function Produced(w: World, e: Event): World
    requires e.Produce?
  {
    var p := w.pool;
    match w.phase
    case Start => World(p, if Existing(p.guests) > 1 then MarkTimedOut else CheckHealth)
    case MarkTimedOut => World(p.(guests := TimedOut(p.guests, p.timeout, e.clock)), ListUnavailable)
    case ListUnavailable => World(p, DestroyEach(Listed(p.guests, Unavailable)))
    case DestroyEach(todo) =>
      if todo == [] then World(p, CheckHealth)
      else World(if e.ok(todo[0]) then p.(guests := SetStage(p.guests, todo[0], Destroyed)) else p, DestroyEach(todo[1..]))
    case CheckHealth => World(p.(guests := Checked(p.guests, e.ok)), ListDestroyed)
    case ListDestroyed => World(p, RemoveEach(Listed(p.guests, Destroyed)))
    case RemoveEach(todo) =>
      if todo == [] then World(p, CountMissing)
      else World(p.(guests := Without(p.guests, todo[0])), RemoveEach(todo[1..]))
    case CountMissing => World(p, CreateEach(Missing(p)))
    case CreateEach(left) =>
      if left <= 0 then World(p, ListCreated) else World(Create(p, e.answer), CreateEach(left - 1))
    case ListCreated => World(p, MarkEach(Listed(p.guests, Created)))
    case MarkEach(todo) =>
      if todo == [] then World(p, Start)
      else
        World(if e.ok(todo[0]) then p.(guests := SetStage(p.guests, todo[0], Available), anyVmUp := true) else p,
              MarkEach(todo[1..]))
  }

  function Next(w: World, e: Event): World {
    match e
    case Produce(_, _, _) => Produced(w, e)
    case RequestVm(ip) => w.(pool := Request(w.pool, ip))
    case FreeVm(id, now) => w.(pool := Free(w.pool, id, now))
    case ReuseVm(id) => w.(pool := Reuse(w.pool, id))
    case SetConfigs(maxVm, timeout, share) => w.(pool := w.pool.(maxVm := maxVm, timeout := timeout, share := share))
  }

  /** The backend creates guests only at addresses its tester calls free. */
  predicate Possible(w: World, e: Event) {
    e.Produce? && w.phase.CreateEach? && e.answer.Some? ==> IpFree(w.pool.guests, e.answer.value)
  }

  function After(run: seq<Event>): World {
    if run == [] then Initial else Next(After(run[..|run| - 1]), run[|run| - 1])
  }

  predicate PossibleRun(run: seq<Event>) {
    run != [] ==> PossibleRun(run[..|run| - 1]) && Possible(After(run[..|run| - 1]), run[|run| - 1])
  }

  /** The largest `max_vm` configured so far; the service starts with 2. */
  function LargestMaxVm(run: seq<Event>): int {
    if run == [] then 2
    else
      var e, before := run[|run| - 1], LargestMaxVm(run[..|run| - 1]);
      if e.SetConfigs? then Max(before, e.maxVm) else before
  }

  // ---- Addresses and size ----------------------------------------------------

  predicate PhaseSound(w: World, bound: int) {
    match w.phase
    case RemoveEach(todo) => forall g :: g in w.pool.guests && g.stage == Destroyed ==> g.guestIp in todo
    case CountMissing => NoneIn(w.pool.guests, Destroyed)
    case CreateEach(left) => |w.pool.guests| + Max(left, 0) <= bound
    case _ => true
  }

  predicate Sound(w: World, bound: int) {
    && DistinctIps(w.pool.guests)
    && w.pool.maxVm <= bound
    && |w.pool.guests| <= bound
    && (forall g :: g in w.pool.guests ==> g.prevStage != Destroyed)
    && PhaseSound(w, bound)
  }

  /** No consumer call changes an address or the length, and none makes a guest destroyed. */
  predicate KeepsList(before: seq<Guest>, after: seq<Guest>) {
    && |after| == |before|
    && forall i :: 0 <= i < |before| ==>
      && after[i].guestIp == before[i].guestIp
      && (after[i].stage == Destroyed ==> before[i].stage == Destroyed)
      && (after[i].prevStage == Destroyed ==> before[i].prevStage == Destroyed)
  }

  lemma KeepingIsSound(w: World, w': World, bound: int, bound': int)
    requires Sound(w, bound) && KeepsList(w.pool.guests, w'.pool.guests) && w'.phase == w.phase
    requires bound <= bound' && w'.pool.maxVm <= bound'
    ensures Sound(w', bound')
  {
    var a, b := w.pool.guests, w'.pool.guests;
    forall g | g in b
      ensures g.prevStage != Destroyed
      ensures g.stage == Destroyed ==> exists h :: h in a && h.stage == Destroyed && h.guestIp == g.guestIp
    {
      var i :| 0 <= i < |b| && b[i] == g;
      assert a[i] in a;
    }
  }

  lemma UpdateKeepsList(guests: seq<Guest>, i: nat, g: Guest)
    requires i < |guests| && g.guestIp == guests[i].guestIp
    requires (g.stage == Destroyed ==> guests[i].stage == Destroyed) && (g.prevStage == Destroyed ==> guests[i].prevStage == Destroyed)
    ensures KeepsList(guests, guests[i := g])
  {
  }

  lemma ConsumersKeepList(w: World, e: Event)
    requires !e.Produce? && (forall g :: g in w.pool.guests ==> g.prevStage != Destroyed)
    ensures KeepsList(w.pool.guests, Next(w, e).pool.guests)
  {
    var guests := w.pool.guests;
    match e
    case RequestVm(ip) =>
      var i := Choose(w.pool, ip);
      if i < |guests| { UpdateKeepsList(guests, i, Serving(guests[i], ip)); }
    case FreeVm(id, now) =>
      var i := First(guests, HasId(id));
      if i < |guests| { UpdateKeepsList(guests, i, Freed(guests[i], now)); }
    case ReuseVm(id) =>
      var i := First(guests, HasId(id));
      if i < |guests| { UpdateKeepsList(guests, i, Reverted(guests[i])); }
    case SetConfigs(_, _, _) =>
  }

  lemma RemovedMembers(guests: seq<Guest>, i: nat, g: Guest)
    requires i < |guests| && DistinctIps(guests)
    ensures g in guests[..i] + guests[i + 1..] <==> g in guests && g.guestIp != guests[i].guestIp
  {
    var r := guests[..i] + guests[i + 1..];
    if g in r {
      var j :| 0 <= j < |r| && r[j] == g;
      assert g == guests[if j < i then j else j + 1];
    }
    if g in guests && g.guestIp != guests[i].guestIp {
      var j :| 0 <= j < |guests| && guests[j] == g;
      assert g == r[if j < i then j else j - 1];
    }
  }

  lemma RemovedDistinct(guests: seq<Guest>, i: nat)
    requires i < |guests| && DistinctIps(guests)
    ensures DistinctIps(guests[..i] + guests[i + 1..])
  {
    var r := guests[..i] + guests[i + 1..];
    assert forall j :: 0 <= j < |r| ==> r[j] == guests[if j < i then j else j + 1];
  }

  lemma WithoutMeans(guests: seq<Guest>, ip: string)
    requires DistinctIps(guests)
    ensures DistinctIps(Without(guests, ip))
    ensures forall g :: g in Without(guests, ip) <==> g in guests && g.guestIp != ip
  {
    var i := First(guests, HasIp(ip));
    if i < |guests| {
      RemovedDistinct(guests, i);
      forall g
        ensures g in Without(guests, ip) <==> g in guests && g.guestIp != ip
      {
        RemovedMembers(guests, i, g);
      }
    } else {
      forall g | g in guests
        ensures g.guestIp != ip
      {
        var j :| 0 <= j < |guests| && guests[j] == g;
      }
    }
  }

  /** One pass over the listed guests sets exactly the stages the backend agreed to. */
  lemma {:induction false} SetEachMeans(guests: seq<Guest>, todo: seq<string>, ok: string -> bool, stage: Stage)
    ensures |SetEach(guests, todo, ok, stage)| == |guests|
    ensures forall i :: 0 <= i < |guests| ==>
      SetEach(guests, todo, ok, stage)[i]
      == (if guests[i].guestIp in todo && ok(guests[i].guestIp) then guests[i].(stage := stage) else guests[i])
    decreases |todo|
  {
    if todo != [] {
      SetEachMeans(if ok(todo[0]) then SetStage(guests, todo[0], stage) else guests, todo[1..], ok, stage);
      assert todo == [todo[0]] + todo[1..];
    }
  }

  lemma {:induction false} WithoutEachMeans(guests: seq<Guest>, todo: seq<string>)
    requires DistinctIps(guests)
    ensures forall g :: g in WithoutEach(guests, todo) <==> g in guests && g.guestIp !in todo
    decreases |todo|
  {
    if todo != [] {
      var first, rest := todo[0], todo[1..];
      WithoutMeans(guests, first);
      WithoutEachMeans(Without(guests, first), rest);
      forall g: Guest
        ensures g.guestIp in todo <==> g.guestIp == first || g.guestIp in rest
      {
        assert todo == [first] + rest;
      }
    }
  }

  /** An undisturbed removal pass keeps exactly the guests that are not destroyed. */
  lemma RemovalLeavesTheRest(guests: seq<Guest>)
    requires DistinctIps(guests)
    ensures forall g :: g in WithoutEach(guests, Listed(guests, Destroyed)) <==> g in guests && g.stage != Destroyed
  {
    WithoutEachMeans(guests, Listed(guests, Destroyed));
    forall g | g in guests
      ensures g.guestIp in Listed(guests, Destroyed) <==> g.stage == Destroyed
    {
      var i :| 0 <= i < |guests| && guests[i] == g;
      if g.stage == Destroyed {
        assert Lists(guests, g.guestIp, Destroyed);
      } else if g.guestIp in Listed(guests, Destroyed) {
        SameGuest(guests, g, Destroyed);
      }
    }
  }

  lemma SameGuest(guests: seq<Guest>, g: Guest, stage: Stage)
    requires DistinctIps(guests) && g in guests && Lists(guests, g.guestIp, stage)
    ensures g.stage == stage
  {
    var h :| h in guests && h.guestIp == g.guestIp && h.stage == stage;
    var i, j :| 0 <= i < |guests| && guests[i] == g && 0 <= j < |guests| && guests[j] == h;
    assert !(i < j) && !(j < i);
  }

  lemma RemovingIsSound(w: World, e: Event, bound: int)
    requires Sound(w, bound) && e.Produce? && w.phase.RemoveEach?
    ensures Sound(Next(w, e), bound)
  {
    var todo := w.phase.todo;
    if todo != [] {
      WithoutMeans(w.pool.guests, todo[0]);
      assert todo == [todo[0]] + todo[1..];
    }
  }

  lemma ListingIsSound(w: World, e: Event, bound: int)
    requires Sound(w, bound) && e.Produce? && w.phase.ListDestroyed?
    ensures Sound(Next(w, e), bound)
  {
    var guests := w.pool.guests;
    forall g | g in guests && g.stage == Destroyed
      ensures g.guestIp in Listed(guests, Destroyed)
    {
      assert Lists(guests, g.guestIp, Destroyed);
    }
  }

  lemma CreatingIsSound(w: World, e: Event, bound: int)
    requires Sound(w, bound) && e.Produce? && w.phase.CreateEach? && Possible(w, e)
    ensures Sound(Next(w, e), bound)
  {
    var before, after := w.pool.guests, Next(w, e).pool.guests;
    if w.phase.left > 0 && e.answer.Some? {
      assert after == before + [NewGuest(w.pool.guestId, e.answer.value)];
      forall i, j | 0 <= i < j < |after|
        ensures after[i].guestIp != after[j].guestIp
      {
        assert after[i] in before;
      }
    }
  }

  /** The other steps of the producer change only the stages of the guests in the list. */
  lemma StagingIsSound(w: World, e: Event, bound: int)
    requires Sound(w, bound) && e.Produce?
    requires w.phase.Start? || w.phase.MarkTimedOut? || w.phase.ListUnavailable? || w.phase.DestroyEach? || w.phase.CheckHealth?
          || w.phase.ListCreated? || w.phase.MarkEach?
    ensures Sound(Next(w, e), bound)
  {
    var before, after := w.pool.guests, Next(w, e).pool.guests;
    assert |after| == |before| && forall i :: 0 <= i < |before| ==>
      after[i].guestIp == before[i].guestIp && after[i].prevStage == before[i].prevStage;
    forall g | g in after
      ensures g.prevStage != Destroyed
    {
      var i :| 0 <= i < |after| && after[i] == g;
      assert before[i] in before;
    }
  }

  lemma StepIsSound(w: World, e: Event, bound: int, bound': int)
    requires Sound(w, bound) && Possible(w, e)
    requires bound' == if e.SetConfigs? then Max(bound, e.maxVm) else bound
    ensures Sound(Next(w, e), bound')
  {
    if !e.Produce? {
      ConsumersKeepList(w, e);
      KeepingIsSound(w, Next(w, e), bound, bound');
    } else if w.phase.RemoveEach? {
      RemovingIsSound(w, e, bound);
    } else if w.phase.ListDestroyed? {
      ListingIsSound(w, e, bound);
    } else if w.phase.CreateEach? {
      CreatingIsSound(w, e, bound);
    } else if !w.phase.CountMissing? {
      StagingIsSound(w, e, bound);
    }
  }

  /** In every reachable state no two listed guests share an address, and the list is never longer than
      the largest `max_vm` configured so far. */
  lemma {:induction false} RunsAreSound(run: seq<Event>)
    requires PossibleRun(run)
    ensures Sound(After(run), LargestMaxVm(run))
    ensures DistinctIps(After(run).pool.guests) && |After(run).pool.guests| <= LargestMaxVm(run)
  {
    if run != [] {
      var before := run[..|run| - 1];
      RunsAreSound(before);
      StepIsSound(After(before), run[|run| - 1], LargestMaxVm(before), LargestMaxVm(run));
    }
  }
}
