/** One undisturbed turn of the producer in small steps, and what the consumers' calls leave on record. */
module PoolLoop {
  import opened Bytes
  import opened PoolService
  import opened PoolRuns
  import opened PoolClients

  // ---- A whole turn ----------------------------------------------------------

  /** The producer alone comes from one world to the other. */
  ghost predicate Leads(w: World, w': World) {
    exists steps :: Produces(w, steps, w')
  }

  predicate Moves(w: World, e: Event, w': World) {
    e.Produce? && Possible(w, e) && w' == Next(w, e)
  }

  ghost predicate Produces(w: World, steps: seq<Event>, w': World)
    decreases |steps|
  {
    if steps == [] then w == w'
    else exists mid :: Moves(w, steps[0], mid) && Produces(mid, steps[1..], w')
  }

  lemma {:induction false} ProducesOn(a: World, s: seq<Event>, b: World, t: seq<Event>, c: World)
    requires Produces(a, s, b) && Produces(b, t, c)
    ensures Produces(a, s + t, c)
    decreases |s|
  {
    if s == [] {
      assert s + t == t;
    } else {
      var mid :| Moves(a, s[0], mid) && Produces(mid, s[1..], b);
      ProducesOn(mid, s[1..], b, t, c);
      ProducesFrom(a, s[0], mid, s[1..] + t, c);
      assert [s[0]] + (s[1..] + t) == s + t;
    }
  }

  lemma ProducesFrom(a: World, e: Event, mid: World, rest: seq<Event>, c: World)
    requires Moves(a, e, mid) && Produces(mid, rest, c)
    ensures Produces(a, [e] + rest, c)
  {
    assert ([e] + rest)[0] == e && ([e] + rest)[1..] == rest;
  }

  lemma LeadsOn(a: World, b: World, c: World)
    requires Leads(a, b) && Leads(b, c)
    ensures Leads(a, c)
  {
    var s :| Produces(a, s, b);
    var t :| Produces(b, t, c);
    ProducesOn(a, s, b, t, c);
  }

  lemma OneStep(w: World, e: Event, w': World)
    requires e.Produce? && Possible(w, e) && w' == Next(w, e)
    ensures Leads(w, w')
  {
    assert Produces(w', [], w');
    ProducesFrom(w, e, w', [], w');
    assert Produces(w, [e] + [], w');
  }

  function Asks(ok: string -> bool): Event {
    Produce(_ => 0.0, ok, None)
  }

  lemma {:induction false} DestroyingLeads(p: Pool, todo: seq<string>, ok: string -> bool)
    ensures Leads(World(p, DestroyEach(todo)), World(p.(guests := SetEach(p.guests, todo, ok, Destroyed)), CheckHealth))
    decreases |todo|
  {
    var w := World(p, DestroyEach(todo));
    OneStep(w, Asks(ok), Next(w, Asks(ok)));
    if todo != [] {
      var p' := Next(w, Asks(ok)).pool;
      DestroyingLeads(p', todo[1..], ok);
      assert p'.(guests := SetEach(p'.guests, todo[1..], ok, Destroyed)) == p.(guests := SetEach(p.guests, todo, ok, Destroyed));
      LeadsOn(w, World(p', DestroyEach(todo[1..])), World(p.(guests := SetEach(p.guests, todo, ok, Destroyed)), CheckHealth));
    }
  }

  lemma {:induction false} RemovingLeads(p: Pool, todo: seq<string>)
    ensures Leads(World(p, RemoveEach(todo)), World(p.(guests := WithoutEach(p.guests, todo)), CountMissing))
    decreases |todo|
  {
    var w, e := World(p, RemoveEach(todo)), Asks(_ => false);
    OneStep(w, e, Next(w, e));
    if todo != [] {
      var p' := Next(w, e).pool;
      RemovingLeads(p', todo[1..]);
      LeadsOn(w, World(p', RemoveEach(todo[1..])), World(p.(guests := WithoutEach(p.guests, todo)), CountMissing));
    }
  }

  lemma {:induction false} CreatingLeads(p: Pool, left: int, answers: seq<Option<string>>)
    requires |answers| == Max(0, left) && AnswersFree(p, answers)
    ensures Leads(World(p, CreateEach(left)), World(CreateAll(p, answers), ListCreated))
    decreases |answers|
  {
    var w := World(p, CreateEach(left));
    var e := Produce(_ => 0.0, _ => false, if answers == [] then None else answers[0]);
    OneStep(w, e, Next(w, e));
    if answers != [] {
      CreatingLeads(Create(p, answers[0]), left - 1, answers[1..]);
      LeadsOn(w, World(Create(p, answers[0]), CreateEach(left - 1)), World(CreateAll(p, answers), ListCreated));
    }
  }

  /** The pool while its guests are marked. */
  function Marked(p: Pool, todo: seq<string>, ok: string -> bool): Pool {
    p.(guests := SetEach(p.guests, todo, ok, Available), anyVmUp := p.anyVmUp || exists ip :: ip in todo && ok(ip))
  }

  lemma {:induction false} MarkingLeads(p: Pool, todo: seq<string>, ok: string -> bool)
    ensures Leads(World(p, MarkEach(todo)), World(Marked(p, todo, ok), Start))
    decreases |todo|
  {
    var w := World(p, MarkEach(todo));
    OneStep(w, Asks(ok), Next(w, Asks(ok)));
    if todo != [] {
      var p' := Next(w, Asks(ok)).pool;
      MarkingLeads(p', todo[1..], ok);
      assert todo == [todo[0]] + todo[1..];
      assert Marked(p', todo[1..], ok) == Marked(p, todo, ok);
      LeadsOn(w, World(p', MarkEach(todo[1..])), World(Marked(p, todo, ok), Start));
    }
  }

  lemma CullingLeads(p: Pool, clock: nat -> real, destroyed: string -> bool)
    ensures Leads(World(p, Start), World(Culled(p, clock, destroyed), CheckHealth))
  {
    var w, idle := World(p, Start), Asks(_ => false);
    OneStep(w, idle, Next(w, idle));
    if Existing(p.guests) > 1 {
      var timed := p.(guests := TimedOut(p.guests, p.timeout, clock));
      var read := Produce(clock, _ => false, None);
      var todo := Listed(timed.guests, Unavailable);
      OneStep(World(p, MarkTimedOut), read, World(timed, ListUnavailable));
      OneStep(World(timed, ListUnavailable), idle, World(timed, DestroyEach(todo)));
      DestroyingLeads(timed, todo, destroyed);
      LeadsOn(World(timed, ListUnavailable), World(timed, DestroyEach(todo)), World(Culled(p, clock, destroyed), CheckHealth));
      LeadsOn(World(p, MarkTimedOut), World(timed, ListUnavailable), World(Culled(p, clock, destroyed), CheckHealth));
      LeadsOn(w, World(p, MarkTimedOut), World(Culled(p, clock, destroyed), CheckHealth));
    }
  }

  lemma SweepingLeads(p: Pool, up: string -> bool)
    ensures Leads(World(p, CheckHealth), World(Swept(p, up), CountMissing))
  {
    var checked := p.(guests := Checked(p.guests, up));
    var todo := Listed(checked.guests, Destroyed);
    OneStep(World(p, CheckHealth), Asks(up), World(checked, ListDestroyed));
    OneStep(World(checked, ListDestroyed), Asks(up), World(checked, RemoveEach(todo)));
    RemovingLeads(checked, todo);
    LeadsOn(World(checked, ListDestroyed), World(checked, RemoveEach(todo)), World(Swept(p, up), CountMissing));
    LeadsOn(World(p, CheckHealth), World(checked, ListDestroyed), World(Swept(p, up), CountMissing));
  }

  lemma FillingLeads(p: Pool, answers: seq<Option<string>>, booted: string -> bool)
    requires |answers| == Max(0, Missing(p)) && AnswersFree(p, answers)
    ensures Leads(World(p, CountMissing), World(Booted(CreateAll(p, answers), booted), Start))
  {
    var full := CreateAll(p, answers);
    var todo, idle := Listed(full.guests, Created), Asks(_ => false);
    OneStep(World(p, CountMissing), idle, World(p, CreateEach(Missing(p))));
    CreatingLeads(p, Missing(p), answers);
    OneStep(World(full, ListCreated), idle, World(full, MarkEach(todo)));
    MarkingLeads(full, todo, booted);
    LeadsOn(World(full, ListCreated), World(full, MarkEach(todo)), World(Booted(full, booted), Start));
    LeadsOn(World(p, CreateEach(Missing(p))), World(full, ListCreated), World(Booted(full, booted), Start));
    LeadsOn(World(p, CountMissing), World(p, CreateEach(Missing(p))), World(Booted(full, booted), Start));
  }

  /** The small steps of an undisturbed turn lead to what the loop does: more than one guest, and the timed-out and
      unavailable ones are destroyed; those without connectivity are marked, the destroyed ones removed, the missing
      ones created, and the booted ones marked. */
  lemma TurnIsLoop(p: Pool, clock: nat -> real, destroyed: string -> bool, up: string -> bool, booted: string -> bool,
                   answers: seq<Option<string>>)
    requires var swept := Swept(Culled(p, clock, destroyed), up);
             |answers| == Max(0, Missing(swept)) && AnswersFree(swept, answers)
    ensures var swept := Swept(Culled(p, clock, destroyed), up);
            Leads(World(p, Start), World(Booted(CreateAll(swept, answers), booted), Start))
  {
    var culled := Culled(p, clock, destroyed);
    var swept := Swept(culled, up);
    var end := World(Booted(CreateAll(swept, answers), booted), Start);
    CullingLeads(p, clock, destroyed);
    SweepingLeads(culled, up);
    FillingLeads(swept, answers, booted);
    LeadsOn(World(culled, CheckHealth), World(swept, CountMissing), end);
    LeadsOn(World(p, Start), World(culled, CheckHealth), end);
  }

  // ---- What each guest has on record -------------------------------------------

  /** How often a guest was granted and not given back, for whom, and when it was last freed. */
  datatype Record = Record(connected: int, clientIps: seq<string>, freed: real)

  /** The creation number of the guest at `i`. */
  function SerialAt(serials: seq<nat>, i: nat): Option<nat> {
    if i < |serials| then Some(serials[i]) else None
  }

  /** The record of the guest created as number `serial`, from the calls that reached it. */
  function RecordOf(run: seq<Event>, serial: nat): Record {
    if run == [] then Record(0, [], -1.0)
    else
      var before, e := run[..|run| - 1], run[|run| - 1];
      var r, p, serials := RecordOf(before, serial), After(before).pool, Serials(before);
      match e
      case RequestVm(ip) =>
        if SerialAt(serials, Choose(p, ip)) == Some(serial) then Record(r.connected + 1, r.clientIps + [ip], r.freed) else r
      case FreeVm(id, now) =>
        if SerialAt(serials, First(p.guests, HasId(id))) == Some(serial) then Record(r.connected - 1, r.clientIps, now) else r
      case ReuseVm(id) =>
        if SerialAt(serials, First(p.guests, HasId(id))) == Some(serial) then r.(connected := r.connected - 1) else r
      case _ => r
  }

  predicate HasRecord(g: Guest, r: Record) {
    g.connected == r.connected && g.clientIps == r.clientIps && g.freed == r.freed
  }

  ghost predicate Recorded(run: seq<Event>) {
    var p, serials := After(run).pool, Serials(run);
    && |serials| == |p.guests|
    && (forall i :: 0 <= i < |serials| ==> HasRecord(p.guests[i], RecordOf(run, serials[i])))
    && forall s :: s >= Creations(run) ==> RecordOf(run, s) == Record(0, [], -1.0)
  }

  /** Steps of the producer leave the records of the guests that stay. */
  lemma ProducerKeepsRecords(w: World, e: Event, i: nat)
    requires e.Produce? && !w.phase.RemoveEach? && i < |w.pool.guests|
    ensures |Next(w, e).pool.guests| >= |w.pool.guests|
    ensures var g, g' := w.pool.guests[i], Next(w, e).pool.guests[i];
            g'.connected == g.connected && g'.clientIps == g.clientIps && g'.freed == g.freed
  {
  }

  lemma RemovalKeepsRecords(run: seq<Event>, serials: seq<nat>, w: World, e: Event)
    requires e.Produce? && w.phase.RemoveEach? && |serials| == |w.pool.guests| && !Creates(w, e)
    requires forall i :: 0 <= i < |serials| ==> HasRecord(w.pool.guests[i], RecordOf(run, serials[i]))
    ensures var serials', p' := NextSerials(w, e, serials, Creations(run)), Next(w, e).pool;
            && |serials'| == |p'.guests|
            && forall i :: 0 <= i < |serials'| ==> HasRecord(p'.guests[i], RecordOf(run, serials'[i]))
  {
  }

  lemma UntouchedRecords(run: seq<Event>, e: Event, s: nat)
    requires e.Produce? || e.SetConfigs?
    ensures RecordOf(run + [e], s) == RecordOf(run, s)
  {
    assert (run + [e])[..|run|] == run;
  }

  lemma ProducerRecords(run: seq<Event>, e: Event)
    requires Recorded(run) && (e.Produce? || e.SetConfigs?)
    ensures Recorded(run + [e])
  {
    var w, serials := After(run), Serials(run);
    assert (run + [e])[..|run|] == run;
    Unrolled(run + [e]);
    RunsNumberGuests(run + [e]);
    var serials', p' := Serials(run + [e]), After(run + [e]).pool;
    if e.Produce? && w.phase.RemoveEach? {
      RemovalKeepsRecords(run, serials, w, e);
    }
    forall i | 0 <= i < |serials'|
      ensures HasRecord(p'.guests[i], RecordOf(run + [e], serials'[i]))
    {
      UntouchedRecords(run, e, serials'[i]);
      if e.Produce? && !w.phase.RemoveEach? && i < |serials| {
        ProducerKeepsRecords(w, e, i);
      }
    }
    forall s | s >= Creations(run + [e])
      ensures RecordOf(run + [e], s) == Record(0, [], -1.0)
    {
      UntouchedRecords(run, e, s);
    }
  }

  lemma ConsumerRecords(run: seq<Event>, e: Event)
    requires Recorded(run) && (e.RequestVm? || e.FreeVm? || e.ReuseVm?)
    ensures Recorded(run + [e])
  {
    var w, serials := After(run), Serials(run);
    assert (run + [e])[..|run|] == run;
    Unrolled(run + [e]);
    RunsNumberGuests(run);
    var p' := After(run + [e]).pool;
    assert Serials(run + [e]) == serials && Creations(run + [e]) == Creations(run);
    forall i | 0 <= i < |serials|
      ensures HasRecord(p'.guests[i], RecordOf(run + [e], serials[i]))
    {
      OneRecord(run, e, i);
    }
  }

  lemma OneRecord(run: seq<Event>, e: Event, i: nat)
    requires Numbered(After(run).pool, Serials(run), Creations(run)) && i < |Serials(run)|
    requires e.RequestVm? || e.FreeVm? || e.ReuseVm?
    requires HasRecord(After(run).pool.guests[i], RecordOf(run, Serials(run)[i]))
    ensures |Next(After(run), e).pool.guests| == |Serials(run)|
    ensures HasRecord(Next(After(run), e).pool.guests[i], RecordOf(run + [e], Serials(run)[i]))
  {
    var w, serials := After(run), Serials(run);
    assert (run + [e])[..|run|] == run && (run + [e])[|run|] == e;
    var k := match e
             case RequestVm(ip) => Choose(w.pool, ip)
             case FreeVm(id, _) => First(w.pool.guests, HasId(id))
             case ReuseVm(id) => First(w.pool.guests, HasId(id));
    assert SerialAt(serials, k) == Some(serials[i]) <==> k == i;
  }

  /** In every run the connections, clients and release time of each listed guest are those of the grants and releases
      that reached it. */
  lemma {:induction false} RecordsAreKept(run: seq<Event>)
    ensures Recorded(run)
  {
    if run == [] {
      NothingRecorded();
    } else {
      Rejoined(run);
      RecordsAreKept(run[..|run| - 1]);
      RecordedOn(run[..|run| - 1], run[|run| - 1]);
    }
  }

  lemma Rejoined(run: seq<Event>)
    requires run != []
    ensures run[..|run| - 1] + [run[|run| - 1]] == run
  {
  }

  lemma NothingRecorded()
    ensures Recorded([])
  {
  }

  lemma RecordedOn(run: seq<Event>, e: Event)
    requires Recorded(run)
    ensures Recorded(run + [e])
  {
    if e.Produce? || e.SetConfigs? {
      ProducerRecords(run, e);
    } else {
      ConsumerRecords(run, e);
    }
  }

  // ---- Choices and stages ------------------------------------------------------

  /** Who gets which guest: the first busy one that serves the client, else the first available one, else, where guests
      are shared, the first busy one with the fewest connections. */
  lemma ChoiceMeans(p: Pool, ip: string)
    ensures var i, gs := Choose(p, ip), p.guests;
            if exists g :: g in gs && Busy(g) && ip in g.clientIps then
              && i < |gs| && Busy(gs[i]) && ip in gs[i].clientIps
              && forall j :: 0 <= j < i ==> !(Busy(gs[j]) && ip in gs[j].clientIps)
            else if exists g :: g in gs && g.stage == Available then
              i < |gs| && gs[i].stage == Available && forall j :: 0 <= j < i ==> gs[j].stage != Available
            else if p.share then LeastBusy(gs, i)
            else i == |gs|
  {
    SomeOrNone(p.guests, Serves(ip));
    SomeOrNone(p.guests, IsAvailable());
    var mine := First(p.guests, Serves(ip));
    assert mine < |p.guests| <==> exists g :: g in p.guests && Busy(g) && ip in g.clientIps by {
      assert forall g :: Serves(ip)(g) <==> Busy(g) && ip in g.clientIps;
    }
    assert First(p.guests, IsAvailable()) < |p.guests| <==> exists g :: g in p.guests && g.stage == Available by {
      assert forall g :: IsAvailable()(g) <==> g.stage == Available;
    }
  }

  lemma SomeOrNone(guests: seq<Guest>, wanted: Guest -> bool)
    ensures First(guests, wanted) < |guests| <==> exists g :: g in guests && wanted(g)
  {
    if g :| g in guests && wanted(g) {
      var j :| 0 <= j < |guests| && guests[j] == g;
    }
  }

  /** What the calls and the checks do to the stage of a guest. */
  lemma StagesMean(p: Pool, i: nat, ip: string, id: int, now: real, clock: nat -> real, up: string -> bool)
    requires i < |p.guests|
    ensures var g := p.guests[i];
            && Request(p, ip).guests[i].stage == (if i == Choose(p, ip) then Using else g.stage)
            && Request(p, ip).guests[i].prevStage == (if i == Choose(p, ip) then g.stage else g.prevStage)
            && Free(p, id, now).guests[i].stage
               == (if i == First(p.guests, HasId(id)) && g.connected == 1 then Used else g.stage)
            && Reuse(p, id).guests[i].stage
               == (if i == First(p.guests, HasId(id)) && g.connected == 1 then g.prevStage else g.stage)
            && TimedOut(p.guests, p.timeout, clock)[i]
               == (if g.stage == Used && clock(i) > g.freed + p.timeout then g.(stage := Unavailable) else g)
            && Checked(p.guests, up)[i]
               == (if g.stage in {Available, Using, Used} && !up(g.guestIp) then g.(stage := Unavailable) else g)
  {
  }
}
