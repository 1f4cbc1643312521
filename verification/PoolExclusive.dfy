/** Over which runs of the pool every guest serves one client only. */
module PoolExclusive {
  import opened Bytes
  import opened PoolService
  import opened PoolRuns
  import opened PoolClients
  import opened PoolIds

  ghost predicate AlwaysExclusive(uses: Uses) {
    forall run, g :: PossibleRun(run) && Permitted(run, uses) && g in After(run).pool.guests ==> OneClient(g)
  }

  /** Some run of this kind ends so. */
  ghost predicate ReachableBy(uses: Uses, w: World) {
    exists run :: PossibleRun(run) && Permitted(run, uses) && After(run) == w
  }

  lemma StepReachableBy(uses: Uses, w: World, e: Event)
    requires ReachableBy(uses, w) && Possible(w, e) && StepPermitted(w, e, uses)
    ensures ReachableBy(uses, Next(w, e))
  {
    var run :| PossibleRun(run) && Permitted(run, uses) && After(run) == w;
    var longer := run + [e];
    assert longer[..|longer| - 1] == run;
    assert PossibleRun(longer) && Permitted(longer, uses) && After(longer) == Next(w, e);
  }

  lemma RequestReachable(uses: Uses, p: Pool, phase: Phase, ip: string)
    requires ReachableBy(uses, World(p, phase)) && (p.share ==> uses.sharing)
    ensures ReachableBy(uses, World(Request(p, ip), phase))
  {
    StepReachableBy(uses, World(p, phase), RequestVm(ip));
  }

  lemma ReuseReachable(uses: Uses, p: Pool, phase: Phase, id: int)
    requires ReachableBy(uses, World(p, phase)) && uses.reuse
    ensures ReachableBy(uses, World(Reuse(p, id), phase))
  {
    StepReachableBy(uses, World(p, phase), ReuseVm(id));
  }

  lemma ReachableIsClosed(uses: Uses) returns (reached: World -> bool)
    ensures Closed(reached) && forall w :: reached(w) <==> ReachableBy(uses, w)
  {
    reached := w => ReachableBy(uses, w);
    assert ReachableBy(uses, Initial) by {
      assert PossibleRun([]) && Permitted([], uses) && After([]) == Initial;
    }
    forall w, e | ReachableBy(uses, w) && Possible(w, e) && (e.Produce? || e.SetConfigs?)
      ensures ReachableBy(uses, Next(w, e))
    {
      StepReachableBy(uses, w, e);
    }
  }

  /** A pool of one guest that nobody has used. */
  function Single(share: bool): Pool {
    Pool([NewGuest(0, "").(stage := Available)], 1, 1, 600.0, share, true)
  }

  function Empty(share: bool): Pool {
    Pool([], 0, 1, 600.0, share, false)
  }

  function Booting(share: bool): Pool {
    Pool([NewGuest(0, "")], 1, 1, 600.0, share, false)
  }

  lemma SingleReached(uses: Uses, share: bool)
    ensures ReachableBy(uses, World(Single(share), MarkEach([])))
  {
    EmptyReached(uses, share);
    CreationStarts(uses, share);
    OneCreated(uses, share);
    OneToMark(uses, share);
    OneMarked(uses, share);
  }

  lemma CreationStarts(uses: Uses, share: bool)
    requires ReachableBy(uses, World(Empty(share), Start))
    ensures ReachableBy(uses, World(Empty(share), CreateEach(1)))
  {
    var reached := ReachableIsClosed(uses);
    EmptyPoolCreates(reached, Empty(share));
  }

  lemma OneToMark(uses: Uses, share: bool)
    requires ReachableBy(uses, World(Booting(share), CreateEach(0)))
    ensures ReachableBy(uses, World(Booting(share), MarkEach([""])))
  {
    OneListed(NewGuest(0, ""));
    StepReachableBy(uses, World(Booting(share), CreateEach(0)), Step(None));
    StepReachableBy(uses, World(Booting(share), ListCreated), Step(None));
  }

  lemma EmptyReached(uses: Uses, share: bool)
    ensures ReachableBy(uses, World(Empty(share), Start))
  {
    assert ReachableBy(uses, Initial) by {
      assert PossibleRun([]) && Permitted([], uses) && After([]) == Initial;
    }
    StepReachableBy(uses, Initial, SetConfigs(1, 600.0, share));
  }

  lemma OneCreated(uses: Uses, share: bool)
    requires ReachableBy(uses, World(Empty(share), CreateEach(1)))
    ensures ReachableBy(uses, World(Booting(share), CreateEach(0)))
  {
    var w, e := World(Empty(share), CreateEach(1)), Step(Some(""));
    assert [] + [NewGuest(0, "")] == [NewGuest(0, "")];
    assert Create(Empty(share), Some("")) == Booting(share);
    assert Next(w, e) == World(Booting(share), CreateEach(0));
    StepReachableBy(uses, w, e);
  }

  lemma OneMarked(uses: Uses, share: bool)
    requires ReachableBy(uses, World(Booting(share), MarkEach([""])))
    ensures ReachableBy(uses, World(Single(share), MarkEach([])))
  {
    var w, e := World(Booting(share), MarkEach([""])), Produce(_ => 0.0, _ => true, None);
    assert [""][1..] == [];
    assert SetStage(Booting(share).guests, "", Available) == Single(share).guests;
    assert Next(w, e) == World(Single(share), MarkEach([]));
    StepReachableBy(uses, w, e);
  }

  lemma OneListed(g: Guest)
    ensures Listed([g], g.stage) == [g.guestIp]
  {
    assert [g][..0] == [];
    assert Listed([], g.stage) == [];
  }

  lemma NotExclusive(uses: Uses, w: World, a: string, b: string)
    requires ReachableBy(uses, w) && a != b
    requires |w.pool.guests| == 1 && w.pool.guests[0].clientIps == [a, b]
    ensures !AlwaysExclusive(uses)
  {
    var g := w.pool.guests[0];
    assert g in w.pool.guests;
    TwoClients(g, a, b);
    RefutesExclusive(uses, w, g);
  }

  lemma TwoClients(g: Guest, a: string, b: string)
    requires g.clientIps == [a, b] && a != b
    ensures !OneClient(g)
  {
    assert g.clientIps[0] == a && g.clientIps[1] == b;
    assert a in g.clientIps && b in g.clientIps;
  }

  lemma RefutesExclusive(uses: Uses, w: World, g: Guest)
    requires ReachableBy(uses, w) && g in w.pool.guests && !OneClient(g)
    ensures !AlwaysExclusive(uses)
  {
    var run :| PossibleRun(run) && Permitted(run, uses) && After(run) == w;
    assert g in After(run).pool.guests;
  }

  /** Two clients share the only guest. */
  lemma SharingMixesClients(uses: Uses)
    requires uses.sharing
    ensures !AlwaysExclusive(uses)
  {
    var p := Single(true);
    SingleReached(uses, true);
    SharedTwice(p, "a", "b");
    RequestReachable(uses, p, MarkEach([]), "a");
    RequestReachable(uses, Request(p, "a"), MarkEach([]), "b");
    NotExclusive(uses, World(Request(Request(p, "a"), "b"), MarkEach([])), "a", "b");
  }

  lemma SharedTwice(p: Pool, a: string, b: string)
    requires p == Single(true) && a != b
    ensures var twice := Request(Request(p, a), b); |twice.guests| == 1 && twice.guests[0].clientIps == [a, b]
  {
    ChoosesAvailable(p, a, 0);
    var g := Serving(p.guests[0], a);
    var once := Request(p, a);
    assert once.guests == [g];
    NoneWanted(once.guests, Serves(b));
    NoneWanted(once.guests, IsAvailable());
    assert FewestConnections(once.guests) == 0;
  }

  /** The only guest is handed back by one client and granted to the next. */
  lemma ReuseIsNotExclusive(uses: Uses)
    requires uses.reuse
    ensures !AlwaysExclusive(uses)
  {
    var p := Single(false);
    SingleReached(uses, false);
    ReusedTwice(p, "a", "b");
    RequestReachable(uses, p, MarkEach([]), "a");
    ReuseReachable(uses, Request(p, "a"), MarkEach([]), 0);
    RequestReachable(uses, Reuse(Request(p, "a"), 0), MarkEach([]), "b");
    NotExclusive(uses, World(Request(Reuse(Request(p, "a"), 0), "b"), MarkEach([])), "a", "b");
  }

  lemma ReusedTwice(p: Pool, a: string, b: string)
    requires p == Single(false) && a != b
    ensures !Request(p, a).share && !Reuse(Request(p, a), 0).share
    ensures var twice := Request(Reuse(Request(p, a), 0), b); |twice.guests| == 1 && twice.guests[0].clientIps == [a, b]
  {
    ChoosesAvailable(p, a, 0);
    NoneWanted(p.guests, Serves(b));
    FirstIs(p.guests, HasId(0), 0);
    ReuseMixesClients(p, a, b);
  }

  /** Every guest always serves one client only, over all runs of a kind, if and only if these neither share guests
      nor hand them back for reuse. */
  lemma ExclusiveExactlyWhen(uses: Uses)
    ensures AlwaysExclusive(uses) <==> !uses.sharing && !uses.reuse
  {
    if uses.sharing {
      SharingMixesClients(uses);
    } else if uses.reuse {
      ReuseIsNotExclusive(uses);
    } else {
      forall run, g | PossibleRun(run) && Permitted(run, uses) && g in After(run).pool.guests
        ensures OneClient(g)
      {
        RunsAreExclusive(run);
        assert Exclusive(g);
      }
    }
  }
}
