/** The Discord output: a queue with one request in flight, and retries for what may pass. */
module Discord {
  import opened Bytes

  /** `id` numbers the written events. */
  datatype Entry = Entry(id: nat, attempts: nat)

  datatype Config = Config(defaultDelay: real, retryDelay: real, maxRetries: int)

  /** `requests` counts the POSTs issued; `inFlight` holds those not yet answered; `timers` holds the delays
      of the pending calls of `_process_queue`. */
  datatype State = State(
    queue: seq<Entry>,
    sending: bool,
    stopped: bool,
    inFlight: seq<Entry>,
    timers: seq<real>,
    requests: nat)

  const Started := State([], false, false, [], [], 0)

  const TOO_MANY_REQUESTS := 429

  function Process(s: State): State {
    if s.stopped || s.sending || s.queue == [] then s
    else s.(sending := true, queue := s.queue[1..], inFlight := s.inFlight + [s.queue[0]], requests := s.requests + 1)
  }

  function Written(s: State, id: nat): State {
    if s.stopped then s else Process(s.(queue := s.queue + [Entry(id, 0)]))
  }

  function Halted(s: State): State {
    s.(stopped := true, sending := false, queue := [])
  }

  function Without<T>(xs: seq<T>, k: nat): seq<T>
    requires k < |xs|
  {
    xs[..k] + xs[k + 1..]
  }

  /** What becomes of an answered entry. */
  datatype Fate = Again | Later | Done

  /** A status code, or `None` for a failed request. */
  function FateOf(cfg: Config, entry: Entry, status: Option<int>): Fate {
    if status == Some(TOO_MANY_REQUESTS) then Again
    else if (status.None? || status.value >= 500) && entry.attempts < cfg.maxRetries then Later
    else Done
  }

  function DelayAfter(cfg: Config, fate: Fate, retryAfter: Option<real>): real {
    match fate
    case Again => if retryAfter.Some? then retryAfter.value else cfg.retryDelay
    case Later => cfg.retryDelay
    case Done => cfg.defaultDelay
  }

  /** The answer to the `k`-th request in flight arrives. */
  function Answered(cfg: Config, s: State, k: nat, status: Option<int>, retryAfter: Option<real>): State
    requires k < |s.inFlight|
  {
    var entry := s.inFlight[k];
    var fate := FateOf(cfg, entry, status);
    var queue := match fate
      case Again => [entry] + s.queue
      case Later => s.queue + [entry.(attempts := entry.attempts + 1)]
      case Done => s.queue;
    s.(inFlight := Without(s.inFlight, k), queue := queue, sending := false,
       timers := s.timers + [DelayAfter(cfg, fate, retryAfter)])
  }

  function Fired(s: State, k: nat): State
    requires k < |s.timers|
  {
    Process(s.(timers := Without(s.timers, k)))
  }

  class Output {
    const cfg: Config
    var queue: seq<Entry>
    var sending: bool
    var stopped: bool
    var inFlight: seq<Entry>
    var timers: seq<real>
    var requests: nat

    ghost function Now(): State
      reads this
    {
      State(queue, sending, stopped, inFlight, timers, requests)
    }

    constructor (cfg: Config)
      ensures this.cfg == cfg && Now() == Started
    {
      this.cfg := cfg;
      queue := [];
      sending := false;
      stopped := false;
      inFlight := [];
      timers := [];
      requests := 0;
    }

    method Stop()
      modifies this
      ensures Now() == Halted(old(Now()))
    {
      stopped := true;
      sending := false;
      queue := [];
    }

    method ProcessQueue()
      modifies this
      ensures Now() == Process(old(Now()))
    {
      if stopped || sending || queue == [] {
        return;
      }
      sending := true;
      var entry := queue[0];
      queue := queue[1..];
      inFlight := inFlight + [entry];
      requests := requests + 1;
    }

    method Write(id: nat)
      modifies this
      ensures Now() == Written(old(Now()), id)
    {
      if stopped {
        return;
      }
      queue := queue + [Entry(id, 0)];
      ProcessQueue();
    }

    method Schedule(delay: real)
      modifies this`timers
      ensures timers == old(timers) + [delay]
    {
      timers := timers + [delay];
    }

    method AfterResult(k: nat, statusCode: int, retryAfter: Option<real>)
      requires k < |inFlight|
      modifies this
      ensures Now() == Answered(cfg, old(Now()), k, Some(statusCode), retryAfter)
    {
      var entry := inFlight[k];
      inFlight := inFlight[..k] + inFlight[k + 1..];
      var attempts := entry.attempts;
      var delay;
      if statusCode == TOO_MANY_REQUESTS {
        queue := [entry] + queue;
        delay := if retryAfter.Some? then retryAfter.value else cfg.retryDelay;
      } else if statusCode >= 500 && attempts < cfg.maxRetries {
        queue := queue + [entry.(attempts := attempts + 1)];
        delay := cfg.retryDelay;
      } else {
        delay := cfg.defaultDelay;
      }
      sending := false;
      Schedule(delay);
    }

    method AfterError(k: nat)
      requires k < |inFlight|
      modifies this
      ensures Now() == Answered(cfg, old(Now()), k, None, None)
    {
      var entry := inFlight[k];
      inFlight := inFlight[..k] + inFlight[k + 1..];
      var attempts := entry.attempts;
      var delay;
      if attempts < cfg.maxRetries {
        queue := queue + [entry.(attempts := attempts + 1)];
        delay := cfg.retryDelay;
      } else {
        delay := cfg.defaultDelay;
      }
      sending := false;
      Schedule(delay);
    }

    /** The reactor runs the `k`-th pending call. */
    method FireTimer(k: nat)
      requires k < |timers|
      modifies this
      ensures Now() == Fired(old(Now()), k)
    {
      timers := timers[..k] + timers[k + 1..];
      ProcessQueue();
    }
  }

  // ---- Whole runs ------------------------------------------------------------

  datatype Event =
    | Write
    | Answer(k: nat, status: Option<int>, retryAfter: Option<real>)
    | Timer(k: nat)
    | Stop

  /** The state, how many events were written, which were finished with, in order, and for each written event
      how many of its answers were not 429. */
  datatype World = World(s: State, written: nat, finished: seq<nat>, tries: seq<nat>)

  const Initial := World(Started, 0, [], [])

  predicate Possible(w: World, e: Event) {
    match e
    case Answer(k, _, _) => k < |w.s.inFlight|
    case Timer(k) => k < |w.s.timers|
    case _ => true
  }

  function Counted(tries: seq<nat>, id: nat): (r: seq<nat>)
    ensures |r| == |tries|
  {
    if id < |tries| then tries[id := tries[id] + 1] else tries
  }

  function Next(cfg: Config, w: World, e: Event): World
    requires Possible(w, e)
  {
    match e
    case Write => if w.s.stopped then w else World(Written(w.s, w.written), w.written + 1, w.finished, w.tries + [0])
    case Timer(k) => w.(s := Fired(w.s, k))
    case Stop => w.(s := Halted(w.s))
    case Answer(k, status, retryAfter) =>
      var entry := w.s.inFlight[k];
      var fate := FateOf(cfg, entry, status);
      w.(s := Answered(cfg, w.s, k, status, retryAfter),
         finished := if fate.Done? then w.finished + [entry.id] else w.finished,
         tries := if fate.Again? then w.tries else Counted(w.tries, entry.id))
  }

  predicate Run(cfg: Config, run: seq<World>, events: seq<Event>) {
    && |run| == |events| + 1
    && run[0] == Initial
    && forall i :: 0 <= i < |events| ==> Possible(run[i], events[i]) && run[i + 1] == Next(cfg, run[i], events[i])
  }

  function Ids(entries: seq<Entry>): (ids: seq<nat>)
    ensures |ids| == |entries|
  {
    seq(|entries|, i requires 0 <= i < |entries| => entries[i].id)
  }

  /** Every event that was not dropped, in the order in which events finish when none is retried. */
  function Held(w: World): seq<nat> {
    w.finished + Ids(w.s.inFlight) + Ids(w.s.queue)
  }

  function Range(n: nat): (r: seq<nat>)
    ensures |r| == n
  {
    seq(n, i => i)
  }

  /** At most one request is in flight, exactly while `_sending` is set; a non-empty idle queue has a timer
      pending, so no wake-up is lost. */
  predicate Controlled(s: State) {
    && |s.inFlight| <= 1
    && (s.stopped ==> !s.sending)
    && (!s.stopped ==> |s.inFlight| == (if s.sending then 1 else 0))
    && (!s.stopped && !s.sending && s.queue != [] ==> s.timers != [])
  }

  /** Every written event is queued, in flight or finished, exactly once; stopping may drop some. */
  predicate Conserved(w: World) {
    if w.s.stopped then multiset(Held(w)) <= multiset(Range(w.written))
    else multiset(Held(w)) == multiset(Range(w.written))
  }

  function RetryLimit(cfg: Config): nat {
    Max(0, cfg.maxRetries)
  }

  predicate Tried(cfg: Config, w: World, entry: Entry) {
    entry.id < |w.tries| && w.tries[entry.id] == entry.attempts <= RetryLimit(cfg)
  }

  /** The attempts an entry carries are its answers so far that were not 429, and no event gets more than
      one answer beyond the retries. */
  predicate Bounded(cfg: Config, w: World) {
    && |w.tries| == w.written
    && (forall i :: 0 <= i < |w.tries| ==> w.tries[i] <= RetryLimit(cfg) + 1)
    && (forall e :: e in w.s.inFlight ==> Tried(cfg, w, e))
    && (forall e :: e in w.s.queue ==> Tried(cfg, w, e))
  }

  predicate Sound(cfg: Config, w: World) {
    Controlled(w.s) && Conserved(w) && Bounded(cfg, w)
  }

  lemma ControlStep(cfg: Config, w: World, e: Event)
    requires Controlled(w.s) && Possible(w, e)
    ensures Controlled(Next(cfg, w, e).s)
  {
  }

  lemma {:induction false} RangeCounts(n: nat, x: nat)
    ensures multiset(Range(n))[x] == if x < n then 1 else 0
    decreases n
  {
    if n > 0 {
      RangeCounts(n - 1, x);
      assert Range(n) == Range(n - 1) + [n - 1];
    }
  }

  lemma IdsOf(a: seq<Entry>, b: seq<Entry>)
    ensures Ids(a + b) == Ids(a) + Ids(b)
  {
  }

  /** Handing the head of the queue to the agent moves no event. */
  lemma ProcessKeeps(w: World)
    requires !w.s.stopped && !w.s.sending ==> w.s.inFlight == []
    ensures Held(w.(s := Process(w.s))) == Held(w)
  {
    var q := w.s.queue;
    if !w.s.stopped && !w.s.sending && q != [] {
      assert q == [q[0]] + q[1..];
      IdsOf([q[0]], q[1..]);
      assert [] + [q[0]] == [q[0]];
    }
  }

  lemma WriteConserves(cfg: Config, w: World)
    requires Controlled(w.s) && !w.s.stopped
    ensures Held(Next(cfg, w, Write)) == Held(w) + [w.written]
  {
    var queued := World(w.s.(queue := w.s.queue + [Entry(w.written, 0)]), w.written + 1, w.finished, w.tries + [0]);
    ProcessKeeps(queued);
    IdsOf(w.s.queue, [Entry(w.written, 0)]);
    assert Held(queued) == Held(w) + [w.written];
  }

  lemma AnswerParts(cfg: Config, w: World, e: Event)
    requires Controlled(w.s) && e.Answer? && Possible(w, e)
    ensures |w.s.inFlight| == 1 && w.s.inFlight == [w.s.inFlight[0]]
    ensures var w', id, fate := Next(cfg, w, e), w.s.inFlight[0].id, FateOf(cfg, w.s.inFlight[0], e.status);
            && w'.s.inFlight == []
            && w'.finished == (if fate.Done? then w.finished + [id] else w.finished)
            && Ids(w'.s.queue) == (match fate
                                   case Again => [id] + Ids(w.s.queue)
                                   case Later => Ids(w.s.queue) + [id]
                                   case Done => Ids(w.s.queue))
  {
    var entry := w.s.inFlight[0];
    assert Without(w.s.inFlight, 0) == [];
    IdsOf([entry], w.s.queue);
    IdsOf(w.s.queue, [entry.(attempts := entry.attempts + 1)]);
  }

  /** What is held while nothing is in flight. */
  lemma HeldIdle(w: World, finished: seq<nat>, queue: seq<nat>)
    requires w.s.inFlight == [] && w.finished == finished && Ids(w.s.queue) == queue
    ensures Held(w) == finished + queue
  {
    assert Ids([]) == [] && finished + [] == finished;
  }

  lemma Associates(a: seq<nat>, b: seq<nat>, c: seq<nat>)
    ensures a + (b + c) == a + b + c
  {
  }

  /** What an answer does to the events held. */
  lemma AnswerMoves(cfg: Config, w: World, e: Event)
    requires Controlled(w.s) && e.Answer? && Possible(w, e)
    ensures w.s.inFlight == [w.s.inFlight[0]] && Next(cfg, w, e).s.inFlight == []
    ensures var id, fate := w.s.inFlight[0].id, FateOf(cfg, w.s.inFlight[0], e.status);
            Held(Next(cfg, w, e))
            == if fate.Later? then w.finished + Ids(w.s.queue) + [id] else w.finished + [id] + Ids(w.s.queue)
  {
    AnswerParts(cfg, w, e);
    var id, w' := w.s.inFlight[0].id, Next(cfg, w, e);
    HeldIdle(w', w'.finished, Ids(w'.s.queue));
    Associates(w.finished, [id], Ids(w.s.queue));
    Associates(w.finished, Ids(w.s.queue), [id]);
  }

  lemma AnswerConserves(cfg: Config, w: World, e: Event)
    requires Controlled(w.s) && e.Answer? && Possible(w, e)
    ensures multiset(Held(Next(cfg, w, e))) == multiset(Held(w))
  {
    AnswerMoves(cfg, w, e);
    assert Ids(w.s.inFlight) == [w.s.inFlight[0].id];
  }

  lemma TimerKeeps(cfg: Config, w: World, k: nat)
    requires Controlled(w.s) && k < |w.s.timers|
    ensures Held(Next(cfg, w, Timer(k))) == Held(w)
  {
    ProcessKeeps(w.(s := w.s.(timers := Without(w.s.timers, k))));
  }

  lemma TimerConserves(cfg: Config, w: World, k: nat)
    requires Controlled(w.s) && k < |w.s.timers| && Conserved(w)
    ensures Conserved(Next(cfg, w, Timer(k)))
  {
    TimerKeeps(cfg, w, k);
  }

  lemma WriteStep(cfg: Config, w: World)
    requires Controlled(w.s) && !w.s.stopped && Conserved(w)
    ensures Conserved(Next(cfg, w, Write))
  {
    WriteConserves(cfg, w);
    assert Range(w.written + 1) == Range(w.written) + [w.written];
  }

  lemma StopConserves(cfg: Config, w: World)
    requires Conserved(w)
    ensures Conserved(Next(cfg, w, Stop))
  {
    assert Held(w) == Held(Next(cfg, w, Stop)) + Ids(w.s.queue);
  }

  lemma AnswerStep(cfg: Config, w: World, e: Event)
    requires Controlled(w.s) && e.Answer? && Possible(w, e) && Conserved(w)
    ensures Conserved(Next(cfg, w, e))
  {
    AnswerConserves(cfg, w, e);
  }

  lemma ConserveStep(cfg: Config, w: World, e: Event)
    requires Controlled(w.s) && Conserved(w) && Possible(w, e)
    ensures Conserved(Next(cfg, w, e))
  {
    match e
    case Write => if !w.s.stopped { WriteStep(cfg, w); }
    case Timer(k) => TimerConserves(cfg, w, k);
    case Answer(_, _, _) => AnswerStep(cfg, w, e);
    case Stop => StopConserves(cfg, w);
  }

  /** The entry in flight is not also queued. */
  lemma HeldOnce(w: World, q: Entry)
    requires Conserved(w) && |w.s.inFlight| == 1 && q in w.s.queue
    ensures q.id != w.s.inFlight[0].id
  {
    var id := w.s.inFlight[0].id;
    var i :| 0 <= i < |w.s.queue| && w.s.queue[i] == q;
    assert Ids(w.s.queue)[i] == q.id && Ids(w.s.inFlight)[0] == id;
    assert multiset(Held(w)) == multiset(w.finished) + multiset(Ids(w.s.inFlight)) + multiset(Ids(w.s.queue));
    RangeCounts(w.written, id);
  }

  lemma AnswerIsBounded(cfg: Config, w: World, e: Event)
    requires Sound(cfg, w) && e.Answer? && Possible(w, e)
    ensures Bounded(cfg, Next(cfg, w, e))
  {
    AnswerMoves(cfg, w, e);
    var w' := Next(cfg, w, e);
    var entry := w.s.inFlight[0];
    assert Tried(cfg, w, entry);
    forall q | q in w.s.queue
      ensures Tried(cfg, w', q)
    {
      HeldOnce(w, q);
      assert Tried(cfg, w, q);
    }
  }

  lemma ProcessIsBounded(cfg: Config, w: World)
    requires Bounded(cfg, w)
    ensures Bounded(cfg, w.(s := Process(w.s)))
  {
    var w' := w.(s := Process(w.s));
    forall q | q in w'.s.inFlight || q in w'.s.queue
      ensures Tried(cfg, w', q)
    {
      assert q in w.s.inFlight || q in w.s.queue;
      assert Tried(cfg, w, q);
    }
  }

  lemma WriteIsBounded(cfg: Config, w: World)
    requires Bounded(cfg, w) && !w.s.stopped
    ensures Bounded(cfg, Next(cfg, w, Write))
  {
    var entry := Entry(w.written, 0);
    var queued := World(w.s.(queue := w.s.queue + [entry]), w.written + 1, w.finished, w.tries + [0]);
    forall q | q in queued.s.inFlight || q in queued.s.queue
      ensures Tried(cfg, queued, q)
    {
      assert q != entry ==> Tried(cfg, w, q);
    }
    ProcessIsBounded(cfg, queued);
  }

  lemma BoundStep(cfg: Config, w: World, e: Event)
    requires Sound(cfg, w) && Possible(w, e)
    ensures Bounded(cfg, Next(cfg, w, e))
  {
    match e
    case Answer(_, _, _) => AnswerIsBounded(cfg, w, e);
    case Write => if !w.s.stopped { WriteIsBounded(cfg, w); }
    case Timer(k) => ProcessIsBounded(cfg, w.(s := w.s.(timers := Without(w.s.timers, k))));
    case Stop => assert forall q :: Tried(cfg, Next(cfg, w, e), q) <==> Tried(cfg, w, q);
  }

  lemma StepIsSound(cfg: Config, w: World, e: Event)
    requires Sound(cfg, w) && Possible(w, e)
    ensures Sound(cfg, Next(cfg, w, e))
  {
    ControlStep(cfg, w, e);
    ConserveStep(cfg, w, e);
    BoundStep(cfg, w, e);
  }

  /** In every run at most one request is in flight, no wake-up is lost, no event is lost or held twice, and
      no event gets more than `max_retries + 1` answers other than 429. */
  lemma {:induction false} RunsAreSound(cfg: Config, run: seq<World>, events: seq<Event>, i: nat)
    requires Run(cfg, run, events) && i < |run|
    ensures Sound(cfg, run[i])
    decreases i
  {
    if i == 0 {
      assert Held(Initial) == [] == Range(0);
    } else {
      RunsAreSound(cfg, run, events, i - 1);
      StepIsSound(cfg, run[i - 1], events[i - 1]);
    }
  }

  /** Once stopped, nothing more is sent. */
  lemma {:induction false} NothingAfterStop(cfg: Config, run: seq<World>, events: seq<Event>, i: nat, j: nat)
    requires Run(cfg, run, events) && i <= j < |run| && run[i].s.stopped
    ensures run[j].s.stopped && run[j].s.requests == run[i].s.requests
    decreases j
  {
    if i < j {
      NothingAfterStop(cfg, run, events, i, j - 1);
      assert run[j] == Next(cfg, run[j - 1], events[j - 1]);
    }
  }

  /** The answer sends its event to the back of the queue. */
  predicate Retries(cfg: Config, w: World, e: Event)
    requires Possible(w, e)
  {
    e.Answer? && FateOf(cfg, w.s.inFlight[e.k], e.status).Later?
  }

  lemma OrderStep(cfg: Config, w: World, e: Event)
    requires Controlled(w.s) && Possible(w, e) && !Retries(cfg, w, e) && !e.Stop?
    requires !w.s.stopped && Held(w) == Range(w.written)
    ensures Held(Next(cfg, w, e)) == Range(Next(cfg, w, e).written)
  {
    match e
    case Write => WriteConserves(cfg, w);
    case Timer(k) => TimerKeeps(cfg, w, k);
    case Answer(_, _, _) =>
      AnswerMoves(cfg, w, e);
      assert Ids(w.s.inFlight) == [w.s.inFlight[0].id];
  }

  /** While every answer is final or 429, events finish in the order in which they were written. */
  lemma {:induction false} FinishInOrder(cfg: Config, run: seq<World>, events: seq<Event>, i: nat)
    requires Run(cfg, run, events) && i < |run| && !run[i].s.stopped
    requires forall j :: 0 <= j < i ==> !Retries(cfg, run[j], events[j])
    ensures Held(run[i]) == Range(run[i].written) && run[i].finished <= Range(run[i].written)
    decreases i
  {
    if i > 0 {
      RunsAreSound(cfg, run, events, i - 1);
      FinishInOrder(cfg, run, events, i - 1);
      OrderStep(cfg, run[i - 1], events[i - 1]);
    }
  }

  /** The delay of the call that an answer leaves pending. */
  predicate Schedules(s: State, s': State, delay: real) {
    s'.timers == s.timers + [delay] && !s'.sending && s'.requests == s.requests && s'.stopped == s.stopped
  }

  /** In every reachable state the fate of an answered event follows from the answer and from how many answers other
      than 429 it got before: 429 puts it back first, to wait as long as the answer says or else the retry delay; a
      server error, or none at all, puts it last while it has retries left; anything else finishes it. */
  lemma AnswerDecides(cfg: Config, run: seq<World>, events: seq<Event>, i: nat)
    requires Run(cfg, run, events) && i < |events| && events[i].Answer?
    ensures |run[i].s.inFlight| == 1 && run[i].s.inFlight[0].id < |run[i].tries|
    ensures var w, w', e := run[i], run[i + 1], events[i];
            var id := w.s.inFlight[0].id;
            var waiting := Ids(w.s.queue);
            && w'.s.inFlight == [] && w'.written == w.written
            && if e.status == Some(429) then
                 && Ids(w'.s.queue) == [id] + waiting && w'.finished == w.finished && w'.tries == w.tries
                 && Schedules(w.s, w'.s, if e.retryAfter.Some? then e.retryAfter.value else cfg.retryDelay)
               else
                 && w'.tries == w.tries[id := w.tries[id] + 1]
                 && if (e.status == None || e.status.value >= 500) && w.tries[id] < cfg.maxRetries then
                      && Ids(w'.s.queue) == waiting + [id] && w'.finished == w.finished
                      && Schedules(w.s, w'.s, cfg.retryDelay)
                    else
                      && Ids(w'.s.queue) == waiting && w'.finished == w.finished + [id]
                      && Schedules(w.s, w'.s, cfg.defaultDelay)
  {
    RunsAreSound(cfg, run, events, i);
    var w, e := run[i], events[i];
    assert w.s.inFlight == [w.s.inFlight[0]] && w.s.inFlight[0] in w.s.inFlight;
    AnswerOne(cfg, w, e);
  }

  lemma AnswerOne(cfg: Config, w: World, e: Event)
    requires Sound(cfg, w) && e.Answer? && Possible(w, e) && Tried(cfg, w, w.s.inFlight[0])
    ensures var w', entry := Next(cfg, w, e), w.s.inFlight[0];
            var waiting := Ids(w.s.queue);
            && w'.s.inFlight == [] && w'.written == w.written
            && if e.status == Some(429) then
                 && Ids(w'.s.queue) == [entry.id] + waiting && w'.finished == w.finished && w'.tries == w.tries
                 && Schedules(w.s, w'.s, if e.retryAfter.Some? then e.retryAfter.value else cfg.retryDelay)
               else
                 && w'.tries == w.tries[entry.id := w.tries[entry.id] + 1]
                 && if (e.status == None || e.status.value >= 500) && w.tries[entry.id] < cfg.maxRetries then
                      && Ids(w'.s.queue) == waiting + [entry.id] && w'.finished == w.finished
                      && Schedules(w.s, w'.s, cfg.retryDelay)
                    else
                      && Ids(w'.s.queue) == waiting && w'.finished == w.finished + [entry.id]
                      && Schedules(w.s, w'.s, cfg.defaultDelay)
  {
    var entry := w.s.inFlight[0];
    assert Without(w.s.inFlight, 0) == [];
    IdsOf([entry], w.s.queue);
    IdsOf(w.s.queue, [entry.(attempts := entry.attempts + 1)]);
  }

  function Answers(events: seq<Event>): nat {
    if events == [] then 0 else Answers(events[..|events| - 1]) + if events[|events| - 1].Answer? then 1 else 0
  }

  /** Every request sent was answered or is in flight. */
  lemma {:induction false} RequestsCounted(cfg: Config, run: seq<World>, events: seq<Event>, i: nat)
    requires Run(cfg, run, events) && i < |run|
    ensures run[i].s.requests == Answers(events[..i]) + |run[i].s.inFlight|
    decreases i
  {
    if i > 0 {
      RequestsCounted(cfg, run, events, i - 1);
      assert run[i] == Next(cfg, run[i - 1], events[i - 1]);
      assert events[..i][..i - 1] == events[..i - 1];
    }
  }

  /** A stop empties the queue and leaves what is in flight and pending. */
  lemma StopMeans(cfg: Config, w: World)
    ensures var w' := Next(cfg, w, Stop);
            && w'.s.queue == [] && w'.s.stopped && !w'.s.sending
            && w'.s.inFlight == w.s.inFlight && w'.s.timers == w.s.timers && w'.finished == w.finished
  {
  }
}
