/** The pool of backend VMs: a producer loop that creates, checks and destroys guests, and consumers
    that request and free them in between. */
module PoolService {
  import opened Bytes

  datatype Stage = Created | Available | Using | Used | Unavailable | Destroyed | NoStage

  /** `prevStage` is `NoStage` where the original holds `None`. */
  datatype Guest = Guest(
    id: nat,
    clientIps: seq<string>,
    connected: int,
    stage: Stage,
    prevStage: Stage,
    freed: real,
    guestIp: string)

  datatype Pool = Pool(guests: seq<Guest>, guestId: nat, maxVm: int, timeout: real, share: bool, anyVmUp: bool)

  const ID_LIMIT := 252

  // ---- The list of guests ----------------------------------------------------

  predicate DistinctIps(guests: seq<Guest>) {
    forall i, j :: 0 <= i < j < |guests| ==> guests[i].guestIp != guests[j].guestIp
  }

  predicate IpFree(guests: seq<Guest>, ip: string) {
    forall g :: g in guests ==> g.guestIp != ip
  }

  predicate Lists(guests: seq<Guest>, ip: string, stage: Stage) {
    exists g :: g in guests && g.guestIp == ip && g.stage == stage
  }

  /** The addresses of the guests in one stage, in list order. */
  function Listed(guests: seq<Guest>, stage: Stage): (ips: seq<string>)
    ensures forall ip :: ip in ips <==> Lists(guests, ip, stage)
  {
    if guests == [] then []
    else
      var front, g := guests[..|guests| - 1], guests[|guests| - 1];
      var ips := Listed(front, stage) + if g.stage == stage then [g.guestIp] else [];
      assert guests == front + [g];
      ips
  }

  /** How many guests are not destroyed. */
  function Existing(guests: seq<Guest>): (n: nat)
    ensures n <= |guests|
    ensures NoneIn(guests, Destroyed) ==> n == |guests|
  {
    if guests == [] then 0
    else Existing(guests[..|guests| - 1]) + if guests[|guests| - 1].stage != Destroyed then 1 else 0
  }

  predicate NoneIn(guests: seq<Guest>, stage: Stage) {
    forall g :: g in guests ==> g.stage != stage
  }

  /** The first guest that is wanted; the number of guests when none is. */
  function First(guests: seq<Guest>, wanted: Guest -> bool): (i: nat)
    ensures i <= |guests|
    ensures i < |guests| ==> wanted(guests[i])
    ensures forall j :: 0 <= j < i ==> !wanted(guests[j])
  {
    if guests == [] then 0 else if wanted(guests[0]) then 0 else 1 + First(guests[1..], wanted)
  }

  predicate Busy(g: Guest) {
    g.stage == Using || g.stage == Used
  }

  function Serves(ip: string): Guest -> bool {
    (g: Guest) => Busy(g) && ip in g.clientIps
  }

  function HasIp(ip: string): Guest -> bool {
    (g: Guest) => g.guestIp == ip
  }

  function HasId(id: int): Guest -> bool {
    (g: Guest) => g.id == id
  }

  function IsAvailable(): Guest -> bool {
    (g: Guest) => g.stage == Available
  }

  /** `i` is the first busy guest with the fewest connections; the number of guests when none is busy. */
  predicate LeastBusy(guests: seq<Guest>, i: nat) {
    if i < |guests| then
      && Busy(guests[i])
      && (forall j :: 0 <= j < |guests| && Busy(guests[j]) ==> guests[i].connected <= guests[j].connected)
      && (forall j :: 0 <= j < i && Busy(guests[j]) ==> guests[i].connected < guests[j].connected)
    else
      i == |guests| && forall j :: 0 <= j < |guests| ==> !Busy(guests[j])
  }

  function FewestConnections(guests: seq<Guest>): (i: nat)
    ensures LeastBusy(guests, i)
  {
    if guests == [] then 0
    else
      var n := |guests| - 1;
      var front, g := guests[..n], guests[n];
      var i := FewestConnections(front);
      assert guests == front + [g];
      if !Busy(g) then (if i == n then n + 1 else i)
      else if i < n && front[i].connected <= g.connected then i
      else n
  }

  // ---- What the producer does to the list ------------------------------------

  /** `clock` gives the time read at each position of the list. */
  function TimedOut(guests: seq<Guest>, timeout: real, clock: nat -> real): seq<Guest> {
    seq(|guests|, (i: int) requires 0 <= i < |guests| =>
      if guests[i].stage == Used && guests[i].freed + timeout < clock(i)
      then guests[i].(stage := Unavailable) else guests[i])
  }

  function Checked(guests: seq<Guest>, up: string -> bool): seq<Guest> {
    seq(|guests|, (i: int) requires 0 <= i < |guests| =>
      if (guests[i].stage == Available || Busy(guests[i])) && !up(guests[i].guestIp)
      then guests[i].(stage := Unavailable) else guests[i])
  }

  function SetStage(guests: seq<Guest>, ip: string, stage: Stage): (r: seq<Guest>)
    ensures |r| == |guests|
    ensures forall i :: 0 <= i < |guests| ==>
      r[i] == if guests[i].guestIp == ip then guests[i].(stage := stage) else guests[i]
  {
    seq(|guests|, (i: int) requires 0 <= i < |guests| =>
      if guests[i].guestIp == ip then guests[i].(stage := stage) else guests[i])
  }

  /** The listed guests one after the other, where the backend agrees. */
  function SetEach(guests: seq<Guest>, todo: seq<string>, ok: string -> bool, stage: Stage): seq<Guest>
    decreases |todo|
  {
    if todo == [] then guests
    else SetEach(if ok(todo[0]) then SetStage(guests, todo[0], stage) else guests, todo[1..], ok, stage)
  }

  function Without(guests: seq<Guest>, ip: string): (r: seq<Guest>)
    ensures |r| <= |guests|
  {
    var i := First(guests, HasIp(ip));
    if i < |guests| then guests[..i] + guests[i + 1..] else guests
  }

  function WithoutEach(guests: seq<Guest>, todo: seq<string>): seq<Guest>
    decreases |todo|
  {
    if todo == [] then guests else WithoutEach(Without(guests, todo[0]), todo[1..])
  }

  function NewGuest(id: nat, ip: string): Guest {
    Guest(id, [], 0, Created, NoStage, -1.0, ip)
  }

  /** One turn of the creation loop; the backend may fail. */
  function Create(p: Pool, answer: Option<string>): Pool {
    if answer.None? then p
    else
      p.(guests := p.guests + [NewGuest(p.guestId, answer.value)],
         guestId := if p.guestId + 1 == ID_LIMIT then 0 else p.guestId + 1)
  }

  function CreateAll(p: Pool, answers: seq<Option<string>>): Pool
    decreases |answers|
  {
    if answers == [] then p else CreateAll(Create(p, answers[0]), answers[1..])
  }

  /** The backend hands out only addresses its tester calls free. */
  predicate AnswersFree(p: Pool, answers: seq<Option<string>>)
    decreases |answers|
  {
    answers != [] ==>
      (answers[0].Some? ==> IpFree(p.guests, answers[0].value)) && AnswersFree(Create(p, answers[0]), answers[1..])
  }

  function Missing(p: Pool): int {
    p.maxVm - Existing(p.guests)
  }

  // ---- What the consumers do to it -------------------------------------------

  /** The guest a request for `ip` gets; the number of guests when there is none. */
  function Choose(p: Pool, ip: string): (i: nat)
    ensures i <= |p.guests|
    ensures i < |p.guests| ==> Busy(p.guests[i]) || p.guests[i].stage == Available
  {
    var mine := First(p.guests, Serves(ip));
    if mine < |p.guests| then mine
    else
      var idle := First(p.guests, IsAvailable());
      if idle < |p.guests| then idle
      else if p.share then FewestConnections(p.guests)
      else |p.guests|
  }

  function Serving(g: Guest, ip: string): Guest {
    g.(prevStage := g.stage, stage := Using, connected := g.connected + 1, clientIps := g.clientIps + [ip])
  }

  function Request(p: Pool, ip: string): Pool {
    var i := Choose(p, ip);
    if i < |p.guests| then p.(guests := p.guests[i := Serving(p.guests[i], ip)]) else p
  }

  function Freed(g: Guest, now: real): Guest {
    g.(freed := now, connected := g.connected - 1, stage := if g.connected == 1 then Used else g.stage)
  }

  function Free(p: Pool, id: int, now: real): Pool {
    var i := First(p.guests, HasId(id));
    if i < |p.guests| then p.(guests := p.guests[i := Freed(p.guests[i], now)]) else p
  }

  function Reverted(g: Guest): Guest {
    if g.connected == 1 then g.(connected := 0, stage := g.prevStage, prevStage := NoStage)
    else g.(connected := g.connected - 1)
  }

  function Reuse(p: Pool, id: int): Pool {
    var i := First(p.guests, HasId(id));
    if i < |p.guests| then p.(guests := p.guests[i := Reverted(p.guests[i])]) else p
  }

  /** One turn of the producer, undisturbed: `clock` is read for each timed guest, `destroyed` answers the backend,
      `up` and `booted` the two rounds of connection checks, and `answers` the creations. */
  function Culled(p: Pool, clock: nat -> real, destroyed: string -> bool): Pool {
    if Existing(p.guests) > 1 then
      var timed := TimedOut(p.guests, p.timeout, clock);
      p.(guests := SetEach(timed, Listed(timed, Unavailable), destroyed, Destroyed))
    else p
  }

  function Swept(p: Pool, up: string -> bool): Pool {
    var checked := Checked(p.guests, up);
    p.(guests := WithoutEach(checked, Listed(checked, Destroyed)))
  }

  function Booted(p: Pool, booted: string -> bool): Pool {
    p.(guests := SetEach(p.guests, Listed(p.guests, Created), booted, Available),
       anyVmUp := p.anyVmUp || exists ip :: ip in Listed(p.guests, Created) && booted(ip))
  }

  // ---- The service -----------------------------------------------------------

  class Service {
    var guests: seq<Guest>
    var guestId: nat
    var maxVm: int
    var vmUnusedTimeout: real
    var shareGuests: bool
    var anyVmUp: bool

    ghost predicate Valid()
      reads this
    {
      DistinctIps(guests)
    }

    function State(): Pool
      reads this
    {
      Pool(guests, guestId, maxVm, vmUnusedTimeout, shareGuests, anyVmUp)
    }

    constructor ()
      ensures Valid() && State() == Pool([], 0, 2, 600.0, true, false)
    {
      guests := [];
      guestId := 0;
      maxVm := 2;
      vmUnusedTimeout := 600.0;
      shareGuests := true;
      anyVmUp := false;
    }

    method SetConfigs(maxVm: int, vmUnusedTimeout: real, shareGuests: bool)
      modifies this
      ensures State() == old(State()).(maxVm := maxVm, timeout := vmUnusedTimeout, share := shareGuests)
    {
      this.maxVm := maxVm;
      this.vmUnusedTimeout := vmUnusedTimeout;
      this.shareGuests := shareGuests;
    }

    method MarkTimedOut(clock: nat -> real)
      modifies this`guests
      ensures guests == TimedOut(old(guests), vmUnusedTimeout, clock)
    {
      ghost var before := guests;
      var i := 0;
      while i < |guests|
        invariant 0 <= i <= |guests| == |before|
        invariant guests[..i] == TimedOut(before, vmUnusedTimeout, clock)[..i]
        invariant guests[i..] == before[i..]
      {
        assert guests[i] == guests[i..][0] == before[i];
        if guests[i].stage == Used && guests[i].freed + vmUnusedTimeout < clock(i) {
          guests := guests[i := guests[i].(stage := Unavailable)];
        }
        assert guests[..i + 1] == guests[..i] + [guests[i]];
        i := i + 1;
      }
    }

    method CheckHealth(up: string -> bool)
      modifies this`guests
      ensures guests == Checked(old(guests), up)
    {
      ghost var before := guests;
      var i := 0;
      while i < |guests|
        invariant 0 <= i <= |guests| == |before|
        invariant guests[..i] == Checked(before, up)[..i]
        invariant guests[i..] == before[i..]
      {
        assert guests[i] == guests[i..][0] == before[i];
        if (guests[i].stage == Available || Busy(guests[i])) && !up(guests[i].guestIp) {
          guests := guests[i := guests[i].(stage := Unavailable)];
        }
        assert guests[..i + 1] == guests[..i] + [guests[i]];
        i := i + 1;
      }
    }

    method FindFirst(wanted: Guest -> bool) returns (i: nat)
      ensures i == First(guests, wanted)
    {
      i := 0;
      while i < |guests| && !wanted(guests[i])
        invariant i <= |guests|
        invariant First(guests, wanted) == i + First(guests[i..], wanted)
      {
        i := i + 1;
      }
    }

    /** `guest.state = stage` for the listed guest at `ip`. */
    method Assign(ip: string, stage: Stage)
      requires Valid()
      modifies this`guests
      ensures Valid() && guests == SetStage(old(guests), ip, stage)
    {
      var i := FindFirst(HasIp(ip));
      if i < |guests| {
        guests := guests[i := guests[i].(stage := stage)];
      }
    }

    method DestroyTimedOut(destroyed: string -> bool)
      requires Valid()
      modifies this`guests
      ensures Valid() && guests == SetEach(old(guests), Listed(old(guests), Unavailable), destroyed, Destroyed)
    {
      var todo := Listed(guests, Unavailable);
      ghost var end := SetEach(guests, todo, destroyed, Destroyed);
      while todo != []
        invariant Valid() && end == SetEach(guests, todo, destroyed, Destroyed)
        decreases |todo|
      {
        if destroyed(todo[0]) {
          Assign(todo[0], Destroyed);
        }
        todo := todo[1..];
      }
    }

    /** `self.guests.remove(guest)` for the guest at `ip`. */
    method Remove(ip: string)
      requires Valid()
      modifies this`guests
      ensures Valid() && guests == Without(old(guests), ip)
    {
      var i := FindFirst(HasIp(ip));
      if i < |guests| {
        guests := guests[..i] + guests[i + 1..];
      }
    }

    method RemoveDestroyed()
      requires Valid()
      modifies this`guests
      ensures Valid() && guests == WithoutEach(old(guests), Listed(old(guests), Destroyed))
    {
      var todo := Listed(guests, Destroyed);
      ghost var end := WithoutEach(guests, todo);
      while todo != []
        invariant Valid() && end == WithoutEach(guests, todo)
        decreases |todo|
      {
        Remove(todo[0]);
        todo := todo[1..];
      }
    }

    /** `answers` is what the backend returns, call by call. */
    method CreateGuests(answers: seq<Option<string>>)
      requires Valid() && |answers| == Max(0, Missing(State())) && AnswersFree(State(), answers)
      modifies this`guests, this`guestId
      ensures Valid() && State() == CreateAll(old(State()), answers)
    {
      ghost var end := CreateAll(State(), answers);
      var toCreate := maxVm - Existing(guests);
      var k := 0;
      while k < toCreate
        invariant 0 <= k <= |answers| == Max(0, toCreate)
        invariant Valid() && end == CreateAll(State(), answers[k..]) && AnswersFree(State(), answers[k..])
      {
        var answer := answers[k];
        assert answers[k..][1..] == answers[k + 1..];
        if answer.Some? {
          guests := guests + [NewGuest(guestId, answer.value)];
          guestId := guestId + 1;
          if guestId == ID_LIMIT {
            guestId := 0;
          }
        }
        k := k + 1;
      }
    }

    method MarkAvailable(up: string -> bool)
      requires Valid()
      modifies this`guests, this`anyVmUp
      ensures Valid() && guests == SetEach(old(guests), Listed(old(guests), Created), up, Available)
      ensures anyVmUp <==> old(anyVmUp) || exists ip :: ip in Listed(old(guests), Created) && up(ip)
    {
      var todo := Listed(guests, Created);
      ghost var all := todo;
      ghost var end := SetEach(guests, todo, up, Available);
      var k := 0;
      while k < |todo|
        invariant 0 <= k <= |todo|
        invariant Valid() && end == SetEach(guests, todo[k..], up, Available)
        invariant anyVmUp <==> old(anyVmUp) || exists j :: 0 <= j < k && up(todo[j])
      {
        assert todo[k..][1..] == todo[k + 1..];
        if up(todo[k]) {
          anyVmUp := true;
          Assign(todo[k], Available);
        }
        k := k + 1;
      }
    }

    /** `answers` gives what the backend returns to so many creations. */
    method ProducerLoop(clock: nat -> real, destroyed: string -> bool, up: string -> bool, booted: string -> bool,
                        answers: Pool -> seq<Option<string>>)
      requires Valid()
      requires forall p :: |answers(p)| == Max(0, Missing(p)) && AnswersFree(p, answers(p))
      modifies this
      ensures Valid()
      ensures var swept := Swept(Culled(old(State()), clock, destroyed), up);
              State() == Booted(CreateAll(swept, answers(swept)), booted)
    {
      Cull(clock, destroyed);
      Sweep(up);
      CreateGuests(answers(State()));
      MarkAvailable(booted);
    }

    /** Does not let the pool shrink to nothing. */
    method Cull(clock: nat -> real, destroyed: string -> bool)
      requires Valid()
      modifies this`guests
      ensures Valid() && State() == Culled(old(State()), clock, destroyed)
    {
      if Existing(guests) > 1 {
        MarkTimedOut(clock);
        DestroyTimedOut(destroyed);
      }
    }

    method Sweep(up: string -> bool)
      requires Valid()
      modifies this`guests
      ensures Valid() && State() == Swept(old(State()), up)
    {
      CheckHealth(up);
      RemoveDestroyed();
    }

    method MinConnected() returns (i: nat)
      ensures i == FewestConnections(guests)
    {
      i := 0;
      var n := 0;
      assert guests[..0] == [];
      while n < |guests|
        invariant n <= |guests| && i == FewestConnections(guests[..n])
      {
        ghost var front := guests[..n + 1];
        assert front[..n] == guests[..n];
        if Busy(guests[n]) {
          if i == n || guests[n].connected < guests[i].connected {
            i := n;
          }
        } else if i == n {
          i := n + 1;
        }
        n := n + 1;
      }
      assert guests[..n] == guests;
    }

    /** The guest serving `srcIp` already, or an available one, or any other if guests are shared. */
    method ChooseGuest(srcIp: string) returns (i: nat)
      ensures i == Choose(State(), srcIp)
    {
      i := FindFirst(Serves(srcIp));
      if i == |guests| {
        i := FindFirst(IsAvailable());
      }
      if i == |guests| && shareGuests {
        i := MinConnected();
      }
    }

    /** The id and address of the guest granted; `None` where the original raises `NoAvailableVMs`. */
    method RequestVm(srcIp: string) returns (r: Option<(nat, string)>)
      modifies this`guests
      ensures State() == Request(old(State()), srcIp)
      ensures var i := Choose(old(State()), srcIp);
              r == if i < |old(guests)| then Some((old(guests)[i].id, old(guests)[i].guestIp)) else None
    {
      var i := ChooseGuest(srcIp);
      if i == |guests| {
        return None;
      }
      var g := guests[i];
      g := g.(prevStage := g.stage);
      g := g.(stage := Using);
      g := g.(connected := g.connected + 1);
      g := g.(clientIps := g.clientIps + [srcIp]);
      guests := guests[i := g];
      return Some((g.id, g.guestIp));
    }

    method FreeVm(id: int, now: real)
      modifies this`guests
      ensures State() == Free(old(State()), id, now)
    {
      var i := FindFirst(HasId(id));
      if i < |guests| {
        var g := guests[i];
        g := g.(freed := now);
        g := g.(connected := g.connected - 1);
        if g.connected == 0 {
          g := g.(stage := Used);
        }
        guests := guests[i := g];
      }
    }

    method ReuseVm(id: int)
      modifies this`guests
      ensures State() == Reuse(old(State()), id)
    {
      var i := FindFirst(HasId(id));
      if i < |guests| {
        var g := guests[i];
        g := g.(connected := g.connected - 1);
        if g.connected == 0 {
          g := g.(stage := g.prevStage);
          g := g.(prevStage := NoStage);
        }
        guests := guests[i := g];
      }
    }
  }
}
