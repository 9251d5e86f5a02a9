/**
 AsyncIoScheduler of src/io/scheduler.cpp: a bounded queue shared by producers, workers, drain and
 stop. Each step is one critical section; waiting on a condition variable releases the lock and
 sleeps atomically, notify_one wakes some sleeper if there is one, and any sleeper may wake for no
 reason.
 */
module Scheduler {
  import opened Options
  import opened Arithmetic

  type Task = nat

  // ---------- the shared fields ----------

  datatype Shared = Shared(queue: seq<Task>, active: nat, stopping: bool)

  datatype Offered = MustWait | Rejected | Accepted

  datatype Taken = MustSleep | Leave | Took(task: Task)

  function OfferOf(s: Shared, depth: nat): Offered {
    if s.stopping then Rejected else if |s.queue| < depth then Accepted else MustWait
  }

  function TakeOf(s: Shared): Taken {
    if s.queue != [] then Took(s.queue[0]) else if s.stopping then Leave else MustSleep
  }

  predicate Idle(s: Shared) { s.queue == [] && s.active == 0 }

  /** The fields the mutex guards, and the body of every critical section. */
  class SharedQueue {
    const depth: nat
    var queue: seq<Task>
    var active: nat
    var stopping: bool

    constructor (workers: nat, queueDepth: nat)
      ensures depth >= 1 && depth >= workers && depth >= queueDepth && (depth == 1 || depth == workers || depth == queueDepth)
      ensures Value() == Shared([], 0, false)
    {
      var w := if workers == 0 then 1 else workers;
      depth := if queueDepth < w then w else queueDepth;
      queue, active, stopping := [], 0, false;
    }

    function Value(): Shared
      reads this
    {
      Shared(queue, active, stopping)
    }

    method Offer(task: Task) returns (r: Offered)
      modifies this
      ensures r == OfferOf(old(Value()), depth)
      ensures (r == Rejected <==> old(stopping)) && (r == MustWait <==> !old(stopping) && |old(queue)| >= depth)
      ensures queue == if r == Accepted then old(queue) + [task] else old(queue)
      ensures Value() == if r == Accepted then old(Value()).(queue := old(queue) + [task]) else old(Value())
    {
      if !(stopping || |queue| < depth) { return MustWait; }
      if stopping { return Rejected; }
      queue := queue + [task];
      r := Accepted;
    }

    method Take() returns (r: Taken)
      modifies this
      ensures r == TakeOf(old(Value()))
      ensures (r == Leave <==> old(stopping) && old(queue) == []) && (r == MustSleep <==> !old(stopping) && old(queue) == [])
      ensures r.Took? ==> old(queue) == [r.task] + queue && active == old(active) + 1
      ensures Value() == if r.Took? then Shared(old(queue)[1..], old(active) + 1, old(stopping)) else old(Value())
    {
      if !(stopping || queue != []) { return MustSleep; }
      if stopping && queue == [] { return Leave; }
      r := Took(queue[0]);
      queue := queue[1..];
      active := active + 1;
    }

    method Finish() returns (wakeDrain: bool)
      requires active > 0
      modifies this
      ensures Value() == old(Value()).(active := old(active) - 1)
      ensures wakeDrain <==> queue == [] && active == 0
    {
      active := active - 1;
      wakeDrain := queue == [] && active == 0;
    }

    method BeginStop() returns (first: bool)
      modifies this
      ensures first == !old(stopping) && Value() == old(Value()).(stopping := true)
    {
      if stopping { return false; }
      stopping := true;
      first := true;
    }
  }

  // ---------- all threads ----------

  datatype Stopper = NotStarted | Flagged | WorkersNotified | Joining | Returned

  /**
   Threads by what they will do next. Workers: `ready` check the queue, `asleep` wait on it,
   `running` hold the ticket they run, `exited` are gone. Producers: `trying` will offer their
   task, `waiting` sleep until there is space. A ticket is a position in `dequeued`.
   */
  datatype State = State(
    depth: nat, shared: Shared, workers: set<nat>,
    ready: set<nat>, asleep: set<nat>, running: map<nat, nat>, exited: set<nat>,
    trying: map<nat, Task>, waiting: map<nat, Task>,
    drainReady: set<nat>, drainWaiting: set<nat>, stopper: Stopper,
    accepted: seq<Task>, dequeued: seq<Task>, finished: set<nat>)

  function Initial(workers: set<nat>, depth: nat): State {
    State(depth, Shared([], 0, false), workers, workers, {}, map[], {}, map[], map[], {}, {}, NotStarted, [], [], {})
  }

  datatype Event =
    | Arrive(p: nat, task: Task)
    | Offer(p: nat, woken: Option<nat>)
    | Take(w: nat, woken: Option<nat>)
    | Finish(w: nat)
    | CallDrain(d: nat)
    | CheckDrain(d: nat)
    | SetStop
    | StopAgain
    | NotifyWorkers
    | NotifyProducers
    | Join
    | WakeWorker(w: nat)
    | WakeProducer(p: nat)
    | WakeDrain(d: nat)

  /** notify_one. */
  predicate NotifyOne(sleepers: set<nat>, woken: Option<nat>) {
    if sleepers == {} then woken == None else woken.Some? && woken.value in sleepers
  }

  function WokenSet(woken: Option<nat>): set<nat> {
    if woken.Some? then {woken.value} else {}
  }

  ghost predicate Enabled(s: State, e: Event) {
    match e
    case Arrive(p, _) => p !in s.trying && p !in s.waiting
    case Offer(p, woken) =>
      p in s.trying && (if OfferOf(s.shared, s.depth) == Accepted then NotifyOne(s.asleep, woken) else woken == None)
    case Take(w, woken) =>
      w in s.ready && (if TakeOf(s.shared).Took? then NotifyOne(s.waiting.Keys, woken) else woken == None)
    case Finish(w) => w in s.running
    case CallDrain(d) => d !in s.drainReady && d !in s.drainWaiting
    case CheckDrain(d) => d in s.drainReady
    case SetStop => !s.shared.stopping
    case StopAgain => s.shared.stopping
    case NotifyWorkers => s.stopper == Flagged
    case NotifyProducers => s.stopper == WorkersNotified
    case Join => s.stopper == Joining && s.exited == s.workers
    case WakeWorker(w) => w in s.asleep
    case WakeProducer(p) => p in s.waiting
    case WakeDrain(d) => d in s.drainWaiting
  }

  function AfterOffer(s: State, p: nat, woken: Option<nat>): State
    requires p in s.trying
  {
    match OfferOf(s.shared, s.depth)
    case MustWait => s.(trying := s.trying - {p}, waiting := s.waiting[p := s.trying[p]])
    case Rejected => s.(trying := s.trying - {p})
    case Accepted =>
      s.(shared := s.shared.(queue := s.shared.queue + [s.trying[p]]), trying := s.trying - {p},
         accepted := s.accepted + [s.trying[p]], asleep := s.asleep - WokenSet(woken), ready := s.ready + WokenSet(woken))
  }

  function AfterTake(s: State, w: nat, woken: Option<nat>): State {
    match TakeOf(s.shared)
    case MustSleep => s.(ready := s.ready - {w}, asleep := s.asleep + {w})
    case Leave => s.(ready := s.ready - {w}, exited := s.exited + {w})
    case Took(task) =>
      var t := s.(shared := Shared(s.shared.queue[1..], s.shared.active + 1, s.shared.stopping), ready := s.ready - {w},
                  running := s.running[w := |s.dequeued|], dequeued := s.dequeued + [task]);
      if woken.Some? && woken.value in s.waiting
      then t.(waiting := s.waiting - {woken.value}, trying := s.trying[woken.value := s.waiting[woken.value]]) else t
  }

  function AfterFinish(s: State, w: nat): State
    requires w in s.running
  {
    var shared := s.shared.(active := if s.shared.active > 0 then s.shared.active - 1 else 0);
    var t := s.(shared := shared, running := s.running - {w}, ready := s.ready + {w}, finished := s.finished + {s.running[w]});
    if Idle(shared) then t.(drainReady := s.drainReady + s.drainWaiting, drainWaiting := {}) else t
  }

  function AfterWake(s: State, w: nat): State {
    s.(asleep := s.asleep - {w}, ready := s.ready + {w})
  }

  ghost function After(s: State, e: Event): State
    requires Enabled(s, e)
  {
    match e
    case Arrive(p, task) => s.(trying := s.trying[p := task])
    case Offer(p, woken) => AfterOffer(s, p, woken)
    case Take(w, woken) => AfterTake(s, w, woken)
    case Finish(w) => AfterFinish(s, w)
    case CallDrain(d) => s.(drainReady := s.drainReady + {d})
    case CheckDrain(d) =>
      if Idle(s.shared) then s.(drainReady := s.drainReady - {d})
      else s.(drainReady := s.drainReady - {d}, drainWaiting := s.drainWaiting + {d})
    case SetStop => s.(shared := s.shared.(stopping := true), stopper := Flagged)
    case StopAgain => s
    case NotifyWorkers => s.(asleep := {}, ready := s.ready + s.asleep, stopper := WorkersNotified)
    case NotifyProducers => s.(waiting := map[], trying := s.trying + s.waiting, stopper := Joining)
    case Join => s.(stopper := Returned)
    case WakeWorker(w) => AfterWake(s, w)
    case WakeProducer(p) => s.(waiting := s.waiting - {p}, trying := s.trying[p := s.waiting[p]])
    case WakeDrain(d) => s.(drainWaiting := s.drainWaiting - {d}, drainReady := s.drainReady + {d})
  }

  // ---------- the invariant ----------

  /** Every worker is in exactly one state. */
  ghost predicate Partitioned(s: State) {
    && s.workers != {} && s.depth >= 1
    && s.ready + s.asleep + s.running.Keys + s.exited == s.workers
    && s.ready !! s.asleep && s.ready !! s.running.Keys && s.ready !! s.exited
    && s.asleep !! s.running.Keys && s.asleep !! s.exited && s.running.Keys !! s.exited
    && s.trying.Keys !! s.waiting.Keys && s.drainReady !! s.drainWaiting
  }

  /** First in, first out: what was accepted is what was dequeued followed by the queue. */
  ghost predicate Fifo(s: State) {
    |s.shared.queue| <= s.depth && s.accepted == s.dequeued + s.shared.queue
  }

  /** Every dequeued task is finished or in the hands of exactly one worker. */
  ghost predicate Once(s: State) {
    Tickets(s.running, |s.dequeued|, s.finished, s.shared.active)
  }

  /** The `n` tickets are split between the workers, one each, and the finished ones. */
  ghost predicate Tickets(running: map<nat, nat>, n: nat, finished: set<nat>, active: nat) {
    && active == Count(running.Keys) && Current(running, n, finished) && OneEach(running) && AllHeld(running, n, finished)
    && (forall t :: t in finished ==> t < n)
  }

  ghost predicate Current(running: map<nat, nat>, n: nat, finished: set<nat>) {
    forall w :: w in running ==> running[w] < n && running[w] !in finished
  }

  ghost predicate OneEach(running: map<nat, nat>) {
    forall v, w :: v in running && w in running && v != w ==> running[v] != running[w]
  }

  ghost predicate AllHeld(running: map<nat, nat>, n: nat, finished: set<nat>) {
    forall t: nat :: t < n ==> t in finished || HasTicket(running, t)
  }

  ghost predicate HasTicket(running: map<nat, nat>, t: nat) {
    exists w :: w in running && running[w] == t
  }

  /** The size of a set of threads. */
  function Count(x: set<nat>): nat { |x| }

  lemma CountNone(x: set<nat>)
    ensures Count(x) == 0 <==> x == {}
  {
  }

  function Drainers(s: State): nat { Count(s.drainReady) + Count(s.drainWaiting) }

  /** How many threads are where: drains, trying and waiting producers, queue, running and ready workers, drains to check. */
  datatype Sizes = Sizes(d: nat, t: nat, w: nat, q: nat, r: nat, y: nat, k: nat, all: nat, stopper: Stopper)

  function SizesOf(s: State): Sizes {
    Sizes(Drainers(s), Count(s.trying.Keys), Count(s.waiting.Keys), |s.shared.queue|, Count(s.running.Keys), Count(s.ready), Count(s.drainReady), Count(s.workers), s.stopper)
  }

  /** No wakeup is lost. */
  ghost predicate Awake(s: State) {
    var z := SizesOf(s);
    && (s.asleep != {} ==> z.q <= z.y)
    && (s.waiting != map[] && !s.shared.stopping ==> s.depth - z.q <= z.t)
    && (s.drainWaiting != {} ==> !Idle(s.shared))
  }

  /** How far a stop has come. */
  ghost predicate StopOrder(s: State) {
    && (s.stopper == NotStarted <==> !s.shared.stopping)
    && (s.stopper == WorkersNotified || s.stopper == Joining || s.stopper == Returned ==> s.asleep == {})
    && (s.stopper == Joining || s.stopper == Returned ==> s.waiting == map[])
    && (s.exited != {} ==> s.shared.stopping && s.shared.queue == [])
    && (s.stopper == Returned ==> s.exited == s.workers)
  }

  ghost predicate Inv(s: State) {
    Partitioned(s) && Fifo(s) && Once(s) && Awake(s) && StopOrder(s)
  }

  lemma InitialInv(workers: set<nat>, depth: nat)
    requires workers != {} && depth >= 1
    ensures Inv(Initial(workers, depth))
  {
  }

  // ---------- every step keeps it ----------

  lemma StepPartitioned(s: State, e: Event)
    requires Partitioned(s) && Enabled(s, e)
    ensures Partitioned(After(s, e))
  {
    hide Partitioned, AfterOffer, AfterTake, AfterFinish, AfterWake, NotifyOne;
    match e
    case Offer(p, woken) => OfferPartitioned(s, p, woken);
    case Take(w, woken) => TakePartitioned(s, w, woken);
    case Finish(w) => FinishPartitioned(s, w);
    case WakeWorker(w) => WakePartitioned(s, w);
    case NotifyWorkers => NotifyPartitioned(s, e);
    case NotifyProducers => NotifyPartitioned(s, e);
    case Arrive(p, _) => ProducersPartitioned(s, e);
    case WakeProducer(p) => ProducersPartitioned(s, e);
    case _ => DrainsPartitioned(s, e);
  }

  lemma OfferPartitioned(s: State, p: nat, woken: Option<nat>)
    requires Partitioned(s) && Enabled(s, Offer(p, woken))
    ensures Partitioned(AfterOffer(s, p, woken))
  {
  }

  lemma TakePartitioned(s: State, w: nat, woken: Option<nat>)
    requires Partitioned(s) && Enabled(s, Take(w, woken))
    ensures Partitioned(AfterTake(s, w, woken))
  {
    var t := AfterTake(s, w, woken);
    if TakeOf(s.shared).Took? {
      assert t.running.Keys == s.running.Keys + {w};
    }
  }

  lemma FinishPartitioned(s: State, w: nat)
    requires Partitioned(s) && w in s.running
    ensures Partitioned(AfterFinish(s, w))
  {
    assert AfterFinish(s, w).running.Keys == s.running.Keys - {w};
  }

  lemma WakePartitioned(s: State, w: nat)
    requires Partitioned(s) && w in s.asleep
    ensures Partitioned(AfterWake(s, w))
  {
  }

  lemma NotifyPartitioned(s: State, e: Event)
    requires Partitioned(s) && Enabled(s, e) && (e == NotifyWorkers || e == NotifyProducers)
    ensures Partitioned(After(s, e))
  {
    assert (s.trying + s.waiting).Keys == s.trying.Keys + s.waiting.Keys;
  }

  lemma ProducersPartitioned(s: State, e: Event)
    requires Partitioned(s) && Enabled(s, e) && (e.Arrive? || e.WakeProducer?)
    ensures Partitioned(After(s, e))
  {
  }

  lemma DrainsPartitioned(s: State, e: Event)
    requires Partitioned(s) && Enabled(s, e)
    requires e.CallDrain? || e.CheckDrain? || e.WakeDrain? || e.SetStop? || e.StopAgain? || e.Join?
    ensures Partitioned(After(s, e))
  {
  }

  lemma StepFifo(s: State, e: Event)
    requires Fifo(s) && Enabled(s, e)
    ensures Fifo(After(s, e))
  {
    hide Count, AfterOffer, AfterTake, AfterFinish, AfterWake;
    match e
    case Offer(p, woken) => OfferFifo(s, p, woken);
    case Take(w, woken) => TakeFifo(s, w, woken);
    case Finish(w) => FinishFifo(s, w);
    case WakeWorker(w) => WakeFields(s, w);
    case _ =>
  }

  lemma OfferFifo(s: State, p: nat, woken: Option<nat>)
    requires Fifo(s) && p in s.trying
    ensures Fifo(AfterOffer(s, p, woken))
  {
    assert s.accepted + [s.trying[p]] == s.dequeued + (s.shared.queue + [s.trying[p]]);
  }

  lemma TakeFifo(s: State, w: nat, woken: Option<nat>)
    requires Fifo(s)
    ensures Fifo(AfterTake(s, w, woken))
  {
    if s.shared.queue != [] {
      assert s.shared.queue == [s.shared.queue[0]] + s.shared.queue[1..];
    }
  }

  lemma FinishFifo(s: State, w: nat)
    requires Fifo(s) && w in s.running
    ensures Fifo(AfterFinish(s, w))
  {
  }

  lemma WakeFields(s: State, w: nat)
    ensures var t := AfterWake(s, w); t.shared == s.shared && t.depth == s.depth && t.accepted == s.accepted && t.dequeued == s.dequeued
  {
  }

  lemma StepOnce(s: State, e: Event)
    requires Partitioned(s) && Once(s) && Enabled(s, e)
    ensures Once(After(s, e))
  {
    hide Count, Tickets, Partitioned, AfterTake, AfterFinish, AfterOffer, NotifyOne;
    if e.Take? {
      BusyIsNotReady(s, e.w);
      TakeOnce(s, e.w, e.woken);
    } else if e.Finish? {
      TicketDone(s.running, |s.dequeued|, s.finished, s.shared.active, e.w);
      FinishFields(s, e.w);
    } else {
      TicketsAlone(s, e);
    }
  }

  lemma TakeOnce(s: State, w: nat, woken: Option<nat>)
    requires Once(s) && w !in s.running
    ensures Once(AfterTake(s, w, woken))
  {
    hide Count, Tickets;
    if s.shared.queue != [] { TicketTaken(s.running, |s.dequeued|, s.finished, s.shared.active, w); }
  }

  lemma FinishFields(s: State, w: nat)
    requires w in s.running && s.shared.active > 0
    ensures var t := AfterFinish(s, w);
      && t.running == s.running - {w} && t.dequeued == s.dequeued && t.finished == s.finished + {s.running[w]}
      && t.shared.active == s.shared.active - 1
  {
    hide Count;
  }

  lemma TicketsAlone(s: State, e: Event)
    requires Enabled(s, e) && !e.Take? && !e.Finish?
    ensures var t := After(s, e);
      t.running == s.running && t.dequeued == s.dequeued && t.finished == s.finished && t.shared.active == s.shared.active
  {
    hide Count, Idle, NotifyOne, WokenSet;
  }

  lemma BusyIsNotReady(s: State, w: nat)
    requires Partitioned(s)
    ensures w in s.ready ==> w !in s.running && w !in s.asleep
    ensures w in s.asleep ==> w !in s.running
  {
    hide Count;
  }

  lemma TicketTaken(running: map<nat, nat>, n: nat, finished: set<nat>, active: nat, w: nat)
    requires Tickets(running, n, finished, active) && w !in running
    ensures Tickets(running[w := n], n + 1, finished, active + 1)
  {
    hide Count, HasTicket;
    MapGrows(running, w, n);
    forall k: nat | k < n + 1 ensures k in finished || HasTicket(running[w := n], k) {
      TicketKept(running, n, finished, w, k);
    }
    assert AllHeld(running[w := n], n + 1, finished);
    hide AllHeld;
    OneMore(running, n, finished, w);
  }

  lemma OneMore(running: map<nat, nat>, n: nat, finished: set<nat>, w: nat)
    requires Current(running, n, finished) && OneEach(running) && w !in running && n !in finished
    ensures Current(running[w := n], n + 1, finished) && OneEach(running[w := n])
  {
  }

  lemma TicketKept(running: map<nat, nat>, n: nat, finished: set<nat>, w: nat, k: nat)
    requires w !in running && k < n + 1 && (k < n ==> k in finished || HasTicket(running, k))
    ensures k in finished || HasTicket(running[w := n], k)
  {
    var after := running[w := n];
    if k == n {
      assert after[w] == k;
    } else if k !in finished {
      var v :| v in running && running[v] == k;
      assert v in after && after[v] == k;
    }
  }

  lemma TicketDone(running: map<nat, nat>, n: nat, finished: set<nat>, active: nat, w: nat)
    requires Tickets(running, n, finished, active) && w in running
    ensures active > 0 && Tickets(running - {w}, n, finished + {running[w]}, active - 1)
  {
    hide Count;
    var after := running - {w};
    MapShrinks(running, w);
    forall k: nat | k < n ensures k in finished + {running[w]} || HasTicket(after, k) {
      if k !in finished && k != running[w] {
        assert HasTicket(running, k);
        var v :| v in running && running[v] == k;
        assert v in after && after[v] == k;
      }
    }
  }

  lemma StepAwake(s: State, e: Event)
    requires Partitioned(s) && Fifo(s) && Awake(s) && StopOrder(s) && Enabled(s, e)
    ensures Awake(After(s, e))
  {
    hide Count, Fifo, Partitioned, StopOrder, Awake, AfterTake, AfterFinish, AfterOffer, AfterWake, NotifyOne, SizesOf;
    match e
    case Arrive(p, task) => ArriveAwake(s, p, task);
    case Offer(p, woken) => OfferAwake(s, p, woken);
    case Take(w, woken) => TakeAwake(s, w, woken);
    case Finish(w) => FinishAwake(s, w);
    case WakeWorker(w) =>
      BusyIsNotReady(s, w);
      WakeAwake(s, w);
    case WakeProducer(p) => WakeProducerAwake(s, p);
    case NotifyProducers => NotifyAwake(s, e);
    case NotifyWorkers => NotifyAwake(s, e);
    case SetStop => NotifyAwake(s, e);
    case _ => QuietAwake(s, e);
  }

  lemma ArriveAwake(s: State, p: nat, task: Task)
    requires Awake(s) && Enabled(s, Arrive(p, task))
    ensures Awake(After(s, Arrive(p, task)))
  {
    hide Count;
    MapGrows(s.trying, p, task);
  }

  lemma WakeAwake(s: State, w: nat)
    requires Awake(s) && w in s.asleep && w !in s.ready
    ensures Awake(AfterWake(s, w))
  {
    hide Count;
    SetGrows(s.ready, w);
    assert SizesOf(AfterWake(s, w)) == SizesOf(s).(y := Count(s.ready) + 1);
    hide SizesOf;
  }

  lemma WakeProducerAwake(s: State, p: nat)
    requires Awake(s) && p in s.waiting
    ensures Awake(After(s, WakeProducer(p)))
  {
    hide Count;
    MapGrows(s.trying, p, s.waiting[p]);
  }

  lemma NotifyAwake(s: State, e: Event)
    requires Awake(s) && Enabled(s, e) && (e == NotifyProducers || e == NotifyWorkers || e == SetStop)
    ensures Awake(After(s, e))
  {
    hide Count;
  }

  lemma QuietAwake(s: State, e: Event)
    requires Awake(s) && Enabled(s, e)
    requires e.CallDrain? || e.CheckDrain? || e.StopAgain? || e.Join? || e.WakeDrain?
    ensures Awake(After(s, e))
  {
    hide Count;
  }

  lemma SetGrows(x: set<nat>, k: nat)
    ensures Count(x + {k}) == Count(x) + if k in x then 0 else 1
    ensures Count(x - {k}) == Count(x) - if k in x then 1 else 0
  {
    if k in x { assert x + {k} == x; } else { assert x - {k} == x; }
  }

  lemma MapGrows(m: map<nat, nat>, k: nat, v: nat)
    ensures m[k := v].Keys == m.Keys + {k}
    ensures Count(m[k := v].Keys) == Count(m.Keys) + if k in m then 0 else 1
  {
    hide Count;
    SetGrows(m.Keys, k);
  }

  lemma MapShrinks(m: map<nat, nat>, k: nat)
    requires k in m
    ensures (m - {k}).Keys == m.Keys - {k}
    ensures Count((m - {k}).Keys) == Count(m.Keys) - 1
  {
    hide Count;
    SetGrows(m.Keys, k);
  }

  lemma OfferAwake(s: State, p: nat, woken: Option<nat>)
    requires Partitioned(s) && Fifo(s) && Awake(s) && Enabled(s, Offer(p, woken))
    ensures Awake(AfterOffer(s, p, woken))
  {
    hide Count;
    ProducerApart(s, p);
    OfferSizes(s, p, woken);
    if woken.Some? {
      BusyIsNotReady(s, woken.value);
      SetGrows(s.ready, woken.value);
    }
    hide Partitioned;
  }

  lemma TakeAwake(s: State, w: nat, woken: Option<nat>)
    requires Partitioned(s) && Awake(s) && Enabled(s, Take(w, woken)) && StopOrder(s)
    ensures Awake(AfterTake(s, w, woken))
  {
    hide Count;
    BusyIsNotReady(s, w);
    if woken.Some? { ProducerApart(s, woken.value); }
    TakeSizes(s, w, woken);
    hide Partitioned, SizesOf;
    if TakeOf(s.shared).Took? && woken == None { assert s.waiting.Keys == {}; }
  }

  lemma FinishAwake(s: State, w: nat)
    requires Partitioned(s) && Awake(s) && w in s.running
    ensures Awake(AfterFinish(s, w))
  {
    hide Count;
    BusyIsNotReady(s, w);
    assert s.drainReady !! s.drainWaiting;
    FinishSizes(s, w);
    hide Partitioned, SizesOf;
  }

  lemma StepStopOrder(s: State, e: Event)
    requires Partitioned(s) && StopOrder(s) && Enabled(s, e)
    ensures StopOrder(After(s, e))
  {
    hide Count, StopOrder, Partitioned, AfterOffer, AfterTake, AfterFinish, NotifyOne;
    match e
    case Offer(p, woken) => OfferStopOrder(s, p, woken);
    case Take(w, woken) => TakeStopOrder(s, w, woken);
    case Finish(w) => FinishStopOrder(s, w);
    case _ => OtherStopOrder(s, e);
  }

  lemma OfferStopOrder(s: State, p: nat, woken: Option<nat>)
    requires StopOrder(s) && p in s.trying
    ensures StopOrder(AfterOffer(s, p, woken))
  {
  }

  lemma TakeStopOrder(s: State, w: nat, woken: Option<nat>)
    requires Partitioned(s) && StopOrder(s) && w in s.ready
    ensures StopOrder(AfterTake(s, w, woken))
  {
  }

  lemma FinishStopOrder(s: State, w: nat)
    requires StopOrder(s) && w in s.running
    ensures StopOrder(AfterFinish(s, w))
  {
  }

  lemma OtherStopOrder(s: State, e: Event)
    requires StopOrder(s) && Enabled(s, e) && !e.Offer? && !e.Take? && !e.Finish?
    ensures StopOrder(After(s, e))
  {
  }

  lemma InvStep(s: State, e: Event)
    requires Inv(s) && Enabled(s, e)
    ensures Inv(After(s, e))
  {
    hide Enabled, After, Partitioned, Fifo, Once, Awake, StopOrder;
    StepPartitioned(s, e);
    StepFifo(s, e);
    StepOnce(s, e);
    StepAwake(s, e);
    StepStopOrder(s, e);
  }

  // ---------- runs ----------

  ghost predicate Run(ss: seq<State>, es: seq<Event>, workers: set<nat>, depth: nat) {
    && |ss| == |es| + 1 && ss[0] == Initial(workers, depth)
    && forall i :: 0 <= i < |es| ==> Enabled(ss[i], es[i]) && ss[i + 1] == After(ss[i], es[i])
  }

  lemma {:induction false} RunInv(ss: seq<State>, es: seq<Event>, workers: set<nat>, depth: nat, i: nat)
    requires Run(ss, es, workers, depth) && workers != {} && depth >= 1 && i < |ss|
    ensures Inv(ss[i]) && ss[i].workers == workers && ss[i].depth == depth
    decreases i
  {
    hide Count, Inv;
    if i == 0 {
      InitialInv(workers, depth);
    } else {
      hide Enabled, After, Run;
      RunInv(ss, es, workers, depth, i - 1);
      RunStep(ss, es, workers, depth, i - 1);
      InvStep(ss[i - 1], es[i - 1]);
      SameMachine(ss[i - 1], es[i - 1]);
    }
  }

  lemma RunStep(ss: seq<State>, es: seq<Event>, workers: set<nat>, depth: nat, i: nat)
    requires Run(ss, es, workers, depth) && i < |es|
    ensures |ss| == |es| + 1 && Enabled(ss[i], es[i]) && ss[i + 1] == After(ss[i], es[i])
  {
    hide Enabled, After;
  }

  lemma SameMachine(s: State, e: Event)
    requires Enabled(s, e)
    ensures After(s, e).workers == s.workers && After(s, e).depth == s.depth
  {
    hide NotifyOne, WokenSet;
  }

  /** What holds at every point of every interleaving. */
  lemma EveryInterleaving(ss: seq<State>, es: seq<Event>, workers: set<nat>, depth: nat, i: nat)
    requires Run(ss, es, workers, depth) && workers != {} && depth >= 1 && i < |ss|
    ensures |ss[i].shared.queue| <= depth
    ensures ss[i].accepted == ss[i].dequeued + ss[i].shared.queue
    ensures Once(ss[i])
    ensures ss[i].shared.queue != [] ==> exists w :: w in workers && w !in ss[i].asleep && w !in ss[i].exited
    ensures ss[i].drainWaiting != {} ==> !Idle(ss[i].shared)
  {
    hide After, Enabled;
    var s := ss[i];
    RunInv(ss, es, workers, depth, i);
    if s.shared.queue != [] {
      assert s.exited == {};
      if s.asleep != {} {
        assert s.ready != {};
        var w :| w in s.ready;
        assert w in workers && w !in s.asleep;
      } else {
        var w :| w in s.workers;
      }
    }
  }

  /** When the call that set the flag returns from stop, every accepted task has run. */
  lemma NothingLeftAfterStop(ss: seq<State>, es: seq<Event>, workers: set<nat>, depth: nat, i: nat)
    requires Run(ss, es, workers, depth) && workers != {} && depth >= 1 && i < |ss| && ss[i].stopper == Returned
    ensures ss[i].shared.queue == [] && ss[i].running == map[]
    ensures ss[i].dequeued == ss[i].accepted
    ensures forall t: nat :: t < |ss[i].accepted| <==> t in ss[i].finished
  {
    hide After, Enabled;
    var s := ss[i];
    RunInv(ss, es, workers, depth, i);
    assert s.running.Keys == {};
    forall t: nat | t < |s.dequeued| ensures t in s.finished { assert !HasTicket(s.running, t); }
  }

  /** drain returns only when nothing is queued and nothing runs: everything accepted so far is finished. */
  lemma DrainReturnsIdle(ss: seq<State>, es: seq<Event>, workers: set<nat>, depth: nat, i: nat, d: nat)
    requires Run(ss, es, workers, depth) && workers != {} && depth >= 1 && i < |es|
    requires es[i] == CheckDrain(d) && d !in ss[i + 1].drainWaiting
    ensures ss[i].shared.queue == [] && ss[i].running == map[]
    ensures forall t: nat :: t < |ss[i].accepted| <==> t in ss[i].finished
  {
    var s := ss[i];
    RunInv(ss, es, workers, depth, i);
    assert Idle(s.shared);
    assert s.running.Keys == {};
    forall t: nat | t < |s.dequeued| ensures t in s.finished { assert !HasTicket(s.running, t); }
  }

  /** Accepted tasks are dequeued in order and never dropped, and finished ones stay finished. */
  lemma StepMonotone(s: State, e: Event)
    requires Enabled(s, e)
    ensures s.accepted <= After(s, e).accepted && s.dequeued <= After(s, e).dequeued && s.finished <= After(s, e).finished
    ensures forall t :: t in After(s, e).finished && t !in s.finished ==> e.Finish? && s.running[e.w] == t
  {
    hide NotifyOne, WokenSet;
    if !e.Take? && !e.Finish? { TicketsAlone(s, e); }
    if e.Offer? { OfferAccepts(s, e.p, e.woken); } else { hide AfterOffer; }
  }

  lemma OfferAccepts(s: State, p: nat, woken: Option<nat>)
    requires p in s.trying
    ensures s.accepted <= AfterOffer(s, p, woken).accepted
  {
  }

  // ---------- progress ----------

  /** Steps the threads take on their own, without new calls and without spurious wakeups. */
  predicate Internal(e: Event) {
    e.Offer? || e.Take? || e.Finish? || e.CheckDrain? || e.NotifyWorkers? || e.NotifyProducers? || e.Join?
  }

  function StopCost(z: Sizes): nat {
    match z.stopper
    case NotStarted => 0
    case Flagged => z.all + z.w + 3
    case WorkersNotified => z.w + 2
    case Joining => 1
    case Returned => 0
  }

  /** Offers outweigh waiting, waiting outweighs the queue, the queue outweighs running. */
  function Cost(z: Sizes): nat {
    (z.d + 5) * z.t + (z.d + 4) * z.w + (z.d + 3) * z.q + (z.d + 2) * z.r + z.y + z.k + StopCost(z)
  }

  /** A bound on the steps the threads can still take on their own. */
  function Work(s: State): nat { Cost(SizesOf(s)) }

  lemma OfferSizes(s: State, p: nat, woken: Option<nat>)
    requires p in s.trying && p !in s.waiting
    ensures var a, b := SizesOf(s), SizesOf(AfterOffer(s, p, woken));
      match OfferOf(s.shared, s.depth)
      case MustWait => b == a.(t := a.t - 1, w := a.w + 1)
      case Rejected => b == a.(t := a.t - 1)
      case Accepted => b == a.(t := a.t - 1, q := a.q + 1, y := b.y) && b.y <= a.y + 1
  {
    hide Count, WokenSet;
    KeysLess(s.trying, p);
    KeysMore(s.waiting, p, s.trying[p]);
    WokenCard(s.ready, woken);
  }

  lemma WokenCard(x: set<nat>, woken: Option<nat>)
    ensures Count(x + WokenSet(woken)) <= Count(x) + 1
  {
    hide Count;
    if woken.Some? { SetGrows(x, woken.value); } else { assert x + {} == x; }
  }

  lemma KeysLess(m: map<nat, nat>, k: nat)
    requires k in m
    ensures Count((m - {k}).Keys) == Count(m.Keys) - 1
  {
    hide Count;
    MapShrinks(m, k);
  }

  lemma KeysMore(m: map<nat, nat>, k: nat, v: nat)
    requires k !in m
    ensures Count(m[k := v].Keys) == Count(m.Keys) + 1
  {
    hide Count;
    MapGrows(m, k, v);
  }

  lemma OfferCosts(a: Sizes, b: Sizes)
    requires a.t > 0
    requires (b == a.(t := a.t - 1, w := a.w + 1) && a.stopper == NotStarted) || b == a.(t := a.t - 1) || (b == a.(t := a.t - 1, q := a.q + 1, y := b.y) && b.y <= a.y + 1)
    ensures Cost(b) < Cost(a)
  {
    hide Count;
    var t := a.t - 1;
    assert (a.d + 5) * a.t == (a.d + 5) * t + a.d + 5;
    assert (a.d + 4) * (a.w + 1) == (a.d + 4) * a.w + a.d + 4;
    assert (a.d + 3) * (a.q + 1) == (a.d + 3) * a.q + a.d + 3;
  }

  lemma OfferWorks(s: State, p: nat, woken: Option<nat>)
    requires Partitioned(s) && StopOrder(s) && Enabled(s, Offer(p, woken))
    ensures Work(AfterOffer(s, p, woken)) < Work(s)
  {
    hide Count, Partitioned, Cost, AfterOffer, NotifyOne;
    ProducerApart(s, p);
    OfferSizes(s, p, woken);
    MapShrinks(s.trying, p);
    OfferCosts(SizesOf(s), SizesOf(AfterOffer(s, p, woken)));
  }

  lemma ProducerApart(s: State, p: nat)
    requires Partitioned(s)
    ensures p in s.trying ==> p !in s.waiting
  {
    hide Count;
  }

  lemma TakeSizes(s: State, w: nat, woken: Option<nat>)
    requires w in s.ready && w !in s.running && (woken.Some? && woken.value in s.waiting ==> woken.value !in s.trying)
    ensures var a, b := SizesOf(s), SizesOf(AfterTake(s, w, woken));
      if TakeOf(s.shared).Took? then
        b == (if woken.Some? && woken.value in s.waiting then a.(t := a.t + 1, w := a.w - 1) else a).(q := a.q - 1, r := a.r + 1, y := a.y - 1)
      else b == a.(y := a.y - 1)
  {
    hide Count;
    SetGrows(s.ready, w);
    if TakeOf(s.shared).Took? {
      KeysMore(s.running, w, |s.dequeued|);
      if woken.Some? && woken.value in s.waiting {
        KeysLess(s.waiting, woken.value);
        KeysMore(s.trying, woken.value, s.waiting[woken.value]);
      }
    }
  }

  lemma TakeCosts(a: Sizes, b: Sizes)
    requires a.y > 0
    requires || b == a.(y := a.y - 1)
      || (a.q > 0 && b == a.(q := a.q - 1, r := a.r + 1, y := a.y - 1))
      || (a.q > 0 && a.w > 0 && b == a.(t := a.t + 1, w := a.w - 1, q := a.q - 1, r := a.r + 1, y := a.y - 1))
    ensures Cost(b) < Cost(a)
  {
    hide Count;
    var q := a.q - 1;
    assert (a.d + 5) * (a.t + 1) == (a.d + 5) * a.t + a.d + 5;
    assert (a.d + 4) * (a.w - 1) == (a.d + 4) * a.w - a.d - 4;
    assert (a.d + 3) * q == (a.d + 3) * a.q - a.d - 3;
    assert (a.d + 2) * (a.r + 1) == (a.d + 2) * a.r + a.d + 2;
  }

  lemma TakeWorks(s: State, w: nat, woken: Option<nat>)
    requires Partitioned(s) && Enabled(s, Take(w, woken))
    ensures Work(AfterTake(s, w, woken)) < Work(s)
  {
    hide Count, Partitioned, Cost, AfterTake, NotifyOne;
    BusyIsNotReady(s, w);
    if woken.Some? {
      ProducerApart(s, woken.value);
      if woken.value in s.waiting { MapShrinks(s.waiting, woken.value); }
    }
    TakeSizes(s, w, woken);
    SetGrows(s.ready, w);
    TakeCosts(SizesOf(s), SizesOf(AfterTake(s, w, woken)));
  }

  lemma FinishSizes(s: State, w: nat)
    requires w in s.running && w !in s.ready && s.drainReady !! s.drainWaiting
    ensures var a, b := SizesOf(s), SizesOf(AfterFinish(s, w));
      b == a.(r := a.r - 1, y := a.y + 1, k := b.k) && b.k <= a.d
  {
    hide Count;
    MapShrinks(s.running, w);
    SetGrows(s.ready, w);
    UnionCard(s.drainReady, s.drainWaiting);
    CountNone({});
  }

  lemma FinishCosts(a: Sizes, b: Sizes)
    requires a.r > 0 && b == a.(r := a.r - 1, y := a.y + 1, k := b.k) && b.k <= a.d
    ensures Cost(b) < Cost(a)
  {
    hide Count;
    assert (a.d + 2) * (a.r - 1) == (a.d + 2) * a.r - a.d - 2;
  }

  lemma FinishWorks(s: State, w: nat)
    requires Partitioned(s) && w in s.running
    ensures Work(AfterFinish(s, w)) < Work(s)
  {
    hide Count;
    BusyIsNotReady(s, w);
    MapShrinks(s.running, w);
    FinishSizes(s, w);
    hide Partitioned, Cost, AfterFinish;
    FinishCosts(SizesOf(s), SizesOf(AfterFinish(s, w)));
  }

  lemma DrainSizes(s: State, d: nat)
    requires d in s.drainReady && d !in s.drainWaiting
    ensures var a, b := SizesOf(s), SizesOf(After(s, CheckDrain(d)));
      a.k > 0 && a.d > 0 && b == (if Idle(s.shared) then a.(k := a.k - 1, d := a.d - 1) else a.(k := a.k - 1))
  {
    hide Count;
    SetGrows(s.drainReady, d);
    SetGrows(s.drainWaiting, d);
  }

  lemma DrainCosts(a: Sizes, b: Sizes)
    requires a.k > 0 && a.d > 0 && (b == a.(k := a.k - 1, d := a.d - 1) || b == a.(k := a.k - 1))
    ensures Cost(b) < Cost(a)
  {
    hide Count;
    var d := a.d - 1;
    assert (a.d + 5) * a.t == (d + 5) * a.t + a.t;
    assert (a.d + 4) * a.w == (d + 4) * a.w + a.w;
    assert (a.d + 3) * a.q == (d + 3) * a.q + a.q;
    assert (a.d + 2) * a.r == (d + 2) * a.r + a.r;
  }

  lemma DrainWorks(s: State, d: nat)
    requires Partitioned(s) && d in s.drainReady
    ensures Work(After(s, CheckDrain(d))) < Work(s)
  {
    hide Count;
    assert d !in s.drainWaiting;
    hide Partitioned, Cost, After;
    DrainSizes(s, d);
    DrainCosts(SizesOf(s), SizesOf(After(s, CheckDrain(d))));
  }

  lemma NotifyWorkersSizes(s: State)
    requires s.ready !! s.asleep && s.asleep <= s.workers && s.stopper == Flagged
    ensures var a, b := SizesOf(s), SizesOf(After(s, NotifyWorkers)); b == a.(y := b.y, stopper := WorkersNotified) && b.y <= a.y + a.all
  {
    SubsetSize(s.asleep, s.workers);
    assert Count(s.asleep) <= Count(s.workers);
    hide Count;
    UnionCard(s.ready, s.asleep);
  }

  lemma NotifyProducersSizes(s: State)
    requires s.trying.Keys !! s.waiting.Keys && s.stopper == WorkersNotified
    ensures var a, b := SizesOf(s), SizesOf(After(s, NotifyProducers)); b == a.(t := a.t + a.w, w := 0, stopper := Joining)
  {
    hide Count;
    UnionCard(s.trying.Keys, s.waiting.Keys);
    KeysUnion(s.trying, s.waiting);
    CountNone({});
    var t := After(s, NotifyProducers);
    assert t.waiting.Keys == {};
    assert t.trying.Keys == s.trying.Keys + s.waiting.Keys;
  }

  lemma KeysUnion(a: map<nat, nat>, b: map<nat, nat>)
    ensures (a + b).Keys == a.Keys + b.Keys
  {
  }

  lemma UnionCard(a: set<nat>, b: set<nat>)
    requires a !! b
    ensures Count(a + b) == Count(a) + Count(b)
  {
  }

  lemma NotifyCosts(a: Sizes, b: Sizes)
    requires || (a.stopper == Flagged && b == a.(y := b.y, stopper := WorkersNotified) && b.y <= a.y + a.all)
      || (a.stopper == WorkersNotified && b == a.(t := a.t + a.w, w := 0, stopper := Joining))
    ensures Cost(b) < Cost(a)
  {
    hide Count;
    assert (a.d + 5) * (a.t + a.w) == (a.d + 5) * a.t + (a.d + 4) * a.w + a.w;
  }

  lemma NotifyWorks(s: State, e: Event)
    requires Partitioned(s) && (e == NotifyWorkers || e == NotifyProducers) && Enabled(s, e)
    ensures Work(After(s, e)) < Work(s)
  {
    hide Count;
    assert s.ready !! s.asleep && s.asleep <= s.workers && s.trying.Keys !! s.waiting.Keys;
    hide Partitioned;
    if e == NotifyWorkers { NotifyWorkersSizes(s); } else { NotifyProducersSizes(s); }
    hide Partitioned, Cost, After;
    NotifyCosts(SizesOf(s), SizesOf(After(s, e)));
  }

  /** Every step a thread takes on its own uses up work. */
  lemma InternalWorks(s: State, e: Event)
    requires Inv(s) && Enabled(s, e) && Internal(e)
    ensures Work(After(s, e)) < Work(s)
  {
    hide Count, Partitioned, Fifo, Once, Awake, AfterOffer, AfterTake, AfterFinish, NotifyOne;
    match e
    case Offer(p, woken) => OfferWorks(s, p, woken);
    case Take(w, woken) => TakeWorks(s, w, woken);
    case Finish(w) => FinishWorks(s, w);
    case CheckDrain(d) => DrainWorks(s, d);
    case NotifyWorkers => NotifyWorks(s, e);
    case NotifyProducers => NotifyWorks(s, e);
    case Join =>
  }

  ghost predicate InternalRun(ss: seq<State>, es: seq<Event>) {
    && |ss| == |es| + 1
    && forall i :: 0 <= i < |es| ==> Internal(es[i]) && Enabled(ss[i], es[i]) && ss[i + 1] == After(ss[i], es[i])
  }

  /** So without new calls and spurious wakeups no run goes on for ever. */
  lemma {:induction false} BoundedProgress(ss: seq<State>, es: seq<Event>)
    requires InternalRun(ss, es) && Inv(ss[0])
    ensures Inv(ss[|es|]) && |es| + Work(ss[|es|]) <= Work(ss[0])
    decreases |es|
  {
    hide Inv, Enabled, After, Work;
    if es != [] {
      var n := |es| - 1;
      BoundedProgress(ss[..n + 1], es[..n]);
      InvStep(ss[n], es[n]);
      InternalWorks(ss[n], es[n]);
    }
  }

  /**
   And where it ends, nothing is stuck: the queue is empty, no task is running, no producer and no
   drain is left waiting, and a stop that was begun has returned.
   */
  lemma QuietMeansDone(s: State)
    requires Inv(s) && Quiet(s)
    ensures s.shared.queue == [] && s.running == map[]
    ensures s.trying == map[] && s.waiting == map[] && s.drainReady == {} && s.drainWaiting == {}
    ensures s.stopper == NotStarted || s.stopper == Returned
    ensures forall t: nat :: t < |s.accepted| ==> t in s.finished
  {
    hide Inv, Quiet;
    forall p ensures p !in s.trying { NoOffer(s, p); }
    forall w ensures w !in s.ready { NoTake(s, w); }
    forall w ensures w !in s.running { NoFinish(s, w); }
    forall d ensures d !in s.drainReady { NoDrain(s, d); }
    NoStop(s);
    QuietState(s);
  }

  /** No thread can take a step on its own. */
  ghost predicate Quiet(s: State) {
    forall e :: Internal(e) ==> !Enabled(s, e)
  }

  lemma NoFinish(s: State, w: nat)
    requires Quiet(s)
    ensures w !in s.running
  {
    assert !Enabled(s, Finish(w));
  }

  lemma NoDrain(s: State, d: nat)
    requires Quiet(s)
    ensures d !in s.drainReady
  {
    assert !Enabled(s, CheckDrain(d));
  }

  lemma NoStop(s: State)
    requires Quiet(s)
    ensures s.stopper != Flagged && s.stopper != WorkersNotified && !(s.stopper == Joining && s.exited == s.workers)
  {
    assert !Enabled(s, NotifyWorkers) && !Enabled(s, NotifyProducers) && !Enabled(s, Join);
  }

  lemma QuietState(s: State)
    requires Inv(s) && s.trying == map[] && s.ready == {} && s.running == map[]
    requires s.stopper != Flagged && s.stopper != WorkersNotified && !(s.stopper == Joining && s.exited == s.workers)
    ensures s.shared.queue == [] && s.waiting == map[] && s.drainWaiting == {}
    ensures s.stopper == NotStarted || s.stopper == Returned
    ensures forall t: nat :: t < |s.accepted| ==> t in s.finished
  {
    assert s.exited == {} ==> s.asleep == s.workers;
    forall t: nat | t < |s.dequeued| ensures t in s.finished { assert !HasTicket(s.running, t); }
  }

  lemma NoOffer(s: State, p: nat)
    requires Quiet(s)
    ensures p !in s.trying
  {
    if OfferOf(s.shared, s.depth) == Accepted && s.asleep != {} {
      var w :| w in s.asleep;
      assert !Enabled(s, Offer(p, Some(w)));
    } else {
      assert !Enabled(s, Offer(p, None));
    }
  }

  lemma NoTake(s: State, w: nat)
    requires Quiet(s)
    ensures w !in s.ready
  {
    if TakeOf(s.shared).Took? && s.waiting.Keys != {} {
      var p :| p in s.waiting.Keys;
      assert !Enabled(s, Take(w, Some(p)));
    } else {
      assert !Enabled(s, Take(w, None));
    }
  }

  // ---------- a second caller of stop ----------

  /**
   A stop that finds the flag set returns at once. Over every run, nothing accepted is left unfinished
   at that moment exactly when the queue is empty and no worker is active.
   */
  lemma StopAgainLeavesNothingIff(ss: seq<State>, es: seq<Event>, workers: set<nat>, depth: nat, i: nat)
    requires Run(ss, es, workers, depth) && workers != {} && depth >= 1 && i < |es| && es[i] == StopAgain
    ensures ss[i + 1] == ss[i]
    ensures (forall t: nat :: t < |ss[i].accepted| ==> t in ss[i].finished) <==> Idle(ss[i].shared)
    ensures Idle(ss[i].shared) <==> ss[i].shared.queue == [] && ss[i].running == map[]
  {
    hide Enabled, Count;
    var s := ss[i];
    RunInv(ss, es, workers, depth, i);
    RunStep(ss, es, workers, depth, i);
    CountNone(s.running.Keys);
    assert s.running.Keys == {} <==> s.running == map[];
    if Idle(s.shared) {
      forall t: nat | t < |s.accepted| ensures t in s.finished { assert !HasTicket(s.running, t); }
    } else if s.shared.queue != [] {
      assert |s.dequeued| < |s.accepted| && |s.dequeued| !in s.finished;
    } else {
      var w :| w in s.running;
      assert s.running[w] < |s.accepted| && s.running[w] !in s.finished;
    }
  }

  /** A second concurrent stop returns while an accepted task is still queued: it does not join. */
  lemma SecondStopReturnsEarly(task: Task) returns (ss: seq<State>, es: seq<Event>)
    ensures Run(ss, es, {0}, 1) && |es| == 4 && es[3] == StopAgain
    ensures ss[4].shared.queue == [task] && ss[4].finished == {}
  {
    var s0 := Initial({0}, 1);
    var s1 := After(s0, Arrive(7, task));
    var s2 := After(s1, Offer(7, None));
    var s3 := After(s2, SetStop);
    ss := [s0, s1, s2, s3, s3];
    es := [Arrive(7, task), Offer(7, None), SetStop, StopAgain];
    assert s2.shared.queue == [task];
    assert Enabled(s0, es[0]) && Enabled(s1, es[1]) && Enabled(s2, es[2]) && Enabled(s3, es[3]);
  }
}
