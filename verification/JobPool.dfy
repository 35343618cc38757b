/** `threaded_worker`: a producer, its workers and `finish`, as atomic steps. */
module JobPool {
  import opened Wrappers

  /** Where a worker is in `handle_jobs_internal`.  `Parking` is the gap between
      releasing the queue's lock and starting to wait. */
  datatype Worker<T> = Fetching | Parking | Waiting | Handling(ticket: nat, item: T) | Terminated

  /** Where `finish` is; `notified` says whether it has called `notify_all` for
      the worker it is about to join. */
  datatype Finisher = Idle | Joining(next: nat, notified: bool) | Returned

  /** `submitted`, `taken` and `handled` are history: every job ever queued, how
      many have left the queue, and the tickets of finished jobs in order.  A
      job's ticket is its place in `submitted`. */
  datatype Pool<T> = Pool(
    queue: seq<T>,
    finished: bool,
    workers: seq<Worker<T>>,
    finisher: Finisher,
    submitted: seq<T>,
    taken: nat,
    handled: seq<nat>,
    beforeFinish: nat)

  datatype Step<T> =
    | Spawn
    | QueueJob(item: T, woken: Option<nat>)
    | Fetch(w: nat)
    | Park(w: nat)
    | SpuriousWake(w: nat)
    | Handle(w: nat)
    | Finish
    | NotifyAll
    | Join

  function Init<T>(): Pool<T> {
    Pool([], false, [], Idle, [], 0, [], 0)
  }

  function WakeAll<T>(workers: seq<Worker<T>>): (r: seq<Worker<T>>)
    ensures |r| == |workers|
  {
    seq(|workers|, i requires 0 <= i < |workers| => if workers[i].Waiting? then Fetching else workers[i])
  }

  /** `notify_one` wakes one waiting worker if there is one. */
  predicate Notifies<T>(workers: seq<Worker<T>>, woken: Option<nat>) {
    match woken
    case Some(w) => w < |workers| && workers[w].Waiting?
    case None => forall i | 0 <= i < |workers| :: !workers[i].Waiting?
  }

  /** One pass through the locked part of `fetch_job_block`. */
  function FetchStep<T>(p: Pool<T>, w: nat): Pool<T>
    requires w < |p.workers|
  {
    if p.queue == [] then
      p.(workers := p.workers[w := if p.finished then Terminated else Parking])
    else
      p.(workers := p.workers[w := Handling(p.taken, p.queue[0])], queue := p.queue[1..], taken := p.taken + 1)
  }

  /** The pool after a step, if the step can be taken. */
  function Do<T>(p: Pool<T>, step: Step<T>): Option<Pool<T>> {
    match step
    case Spawn =>
      if p.finisher.Idle? then Some(p.(workers := p.workers + [Fetching])) else None
    case QueueJob(item, woken) =>
      if Notifies(p.workers, woken) then
        Some(p.(queue := p.queue + [item], submitted := p.submitted + [item],
                workers := if woken.Some? then p.workers[woken.value := Fetching] else p.workers))
      else None
    case Fetch(w) =>
      if w < |p.workers| && p.workers[w].Fetching? then Some(FetchStep(p, w)) else None
    case Park(w) =>
      if w < |p.workers| && p.workers[w].Parking? then Some(p.(workers := p.workers[w := Waiting])) else None
    case SpuriousWake(w) =>
      if w < |p.workers| && p.workers[w].Waiting? then Some(p.(workers := p.workers[w := Fetching])) else None
    case Handle(w) =>
      if w < |p.workers| && p.workers[w].Handling? then
        Some(p.(workers := p.workers[w := Fetching], handled := p.handled + [p.workers[w].ticket]))
      else None
    case Finish =>
      if p.finisher.Idle? then
        Some(p.(finished := true, finisher := Joining(0, false), beforeFinish := |p.submitted|))
      else None
    case NotifyAll =>
      if p.finisher.Joining? && !p.finisher.notified && p.finisher.next < |p.workers| then
        Some(p.(workers := WakeAll(p.workers), finisher := p.finisher.(notified := true)))
      else None
    case Join =>
      if !p.finisher.Joining? then None
      else if p.finisher.next == |p.workers| then Some(p.(finisher := Returned))
      else if p.finisher.next < |p.workers| && p.finisher.notified && p.workers[p.finisher.next].Terminated? then
        Some(p.(finisher := Joining(p.finisher.next + 1, false)))
      else None
  }

  /** The pool after all of `steps`, if each can be taken in turn. */
  function Run<T>(p: Pool<T>, steps: seq<Step<T>>): Option<Pool<T>>
    decreases |steps|
  {
    if steps == [] then Some(p)
    else
      match Do(p, steps[0])
      case None => None
      case Some(q) => Run(q, steps[1..])
  }

  // ----- what every step keeps

  /** Tickets of the jobs being handled. */
  function InFlight<T>(workers: seq<Worker<T>>): multiset<nat> {
    if workers == [] then multiset{}
    else (if workers[0].Handling? then multiset{workers[0].ticket} else multiset{}) + InFlight(workers[1..])
  }

  function Tickets(n: nat): (s: seq<nat>)
    ensures |s| == n
  {
    seq(n, i requires 0 <= i => i)
  }

  ghost predicate AllTerminated<T>(workers: seq<Worker<T>>, n: nat) {
    n <= |workers| && forall i | 0 <= i < n :: workers[i].Terminated?
  }

  /** FIFO: what is queued is what was submitted and not yet taken. */
  ghost predicate InOrder<T>(p: Pool<T>) {
    p.taken <= |p.submitted| && p.queue == p.submitted[p.taken..]
  }

  /** Conservation: every ticket taken is in flight or handled, exactly once. */
  ghost predicate Conserved<T>(p: Pool<T>) {
    multiset(p.handled) + InFlight(p.workers) == multiset(Tickets(p.taken))
  }

  /** Workers hold the jobs their tickets name. */
  ghost predicate HoldTheirJobs<T>(p: Pool<T>) {
    forall i | 0 <= i < |p.workers| && p.workers[i].Handling? ::
      p.workers[i].ticket < p.taken <= |p.submitted| && p.workers[i].item == p.submitted[p.workers[i].ticket]
  }

  /** No worker leaves before everything queued before `finish` is taken, and
      `finish` joins only workers that have left. */
  ghost predicate LeaveLate<T>(p: Pool<T>) {
    && (p.finished <==> !p.finisher.Idle?)
    && (if p.finished then p.beforeFinish <= |p.submitted| else p.beforeFinish == 0)
    && (forall i | 0 <= i < |p.workers| && p.workers[i].Terminated? :: p.finished && p.beforeFinish <= p.taken)
    && (p.finisher.Joining? ==> AllTerminated(p.workers, p.finisher.next))
    && (p.finisher.Returned? ==> AllTerminated(p.workers, |p.workers|))
  }

  ghost predicate Inv<T>(p: Pool<T>) {
    InOrder(p) && Conserved(p) && HoldTheirJobs(p) && LeaveLate(p)
  }

  function One<T>(x: Worker<T>): multiset<nat> {
    if x.Handling? then multiset{x.ticket} else multiset{}
  }

  lemma {:induction false} InFlightUpdate<T>(workers: seq<Worker<T>>, w: nat, x: Worker<T>)
    requires w < |workers|
    ensures InFlight(workers[w := x]) + One(workers[w]) == InFlight(workers) + One(x)
  {
    var after := workers[w := x];
    var head, rest := One(workers[0]), InFlight(workers[1..]);
    if w == 0 {
      assert after[1..] == workers[1..];
    } else {
      assert after[1..] == workers[1..][w - 1 := x];
      InFlightUpdate(workers[1..], w - 1, x);
      Regroup(head, InFlight(after[1..]), One(workers[w]), rest, One(x));
    }
  }

  lemma Regroup(a: multiset<nat>, b: multiset<nat>, c: multiset<nat>, d: multiset<nat>, e: multiset<nat>)
    requires b + c == d + e
    ensures (a + b) + c == (a + d) + e
  {
    assert (a + b) + c == a + (b + c);
    assert (a + d) + e == a + (d + e);
  }

  /** Conservation across a step that changes one worker. */
  lemma ConservedUpdate<T>(p: Pool<T>, q: Pool<T>, w: nat)
    requires Conserved(p) && w < |p.workers| == |q.workers| && q.workers == p.workers[w := q.workers[w]]
    requires multiset(q.handled) + One(q.workers[w]) + multiset(Tickets(p.taken))
          == multiset(p.handled) + One(p.workers[w]) + multiset(Tickets(q.taken))
    ensures Conserved(q)
  {
    InFlightUpdate(p.workers, w, q.workers[w]);
    Cancel(multiset(p.handled), InFlight(p.workers), One(p.workers[w]), multiset(Tickets(p.taken)),
           multiset(q.handled), InFlight(q.workers), One(q.workers[w]), multiset(Tickets(q.taken)));
  }

  lemma Cancel(h: multiset<nat>, i: multiset<nat>, o: multiset<nat>, t: multiset<nat>,
               h': multiset<nat>, i': multiset<nat>, o': multiset<nat>, t': multiset<nat>)
    requires h + i == t && i' + o == i + o' && h' + o' + t == h + o + t'
    ensures h' + i' == t'
  {
    forall x: nat ensures (h' + i')[x] == t'[x] {
      assert (h + i)[x] == t[x];
      assert (i' + o)[x] == (i + o')[x];
      assert (h' + o' + t)[x] == (h + o + t')[x];
    }
  }

  lemma {:induction false} InFlightAppend<T>(workers: seq<Worker<T>>, x: Worker<T>)
    ensures InFlight(workers + [x]) == InFlight(workers) + One(x)
  {
    if workers == [] {
      assert ([] + [x])[1..] == [];
    } else {
      assert (workers + [x])[1..] == workers[1..] + [x];
      InFlightAppend(workers[1..], x);
    }
  }

  lemma {:induction false} InFlightWakeAll<T>(workers: seq<Worker<T>>)
    ensures InFlight(WakeAll(workers)) == InFlight(workers)
  {
    if workers != [] {
      assert WakeAll(workers)[1..] == WakeAll(workers[1..]);
      InFlightWakeAll(workers[1..]);
    }
  }

  lemma {:induction false} NoneInFlight<T>(workers: seq<Worker<T>>)
    requires forall i | 0 <= i < |workers| :: !workers[i].Handling?
    ensures InFlight(workers) == multiset{}
  {
    if workers != [] { NoneInFlight(workers[1..]); }
  }

  lemma {:induction false} ConservedStep<T>(p: Pool<T>, step: Step<T>)
    requires Conserved(p) && Do(p, step).Some?
    ensures Conserved(Do(p, step).value)
  {
    match step
    case Spawn => ConservedSpawn(p);
    case QueueJob(item, woken) => ConservedQueue(p, item, woken);
    case Fetch(w) => ConservedFetch(p, w);
    case Park(w) => ConservedPark(p, w);
    case SpuriousWake(w) => ConservedWake(p, w);
    case Handle(w) => ConservedHandle(p, w);
    case Finish =>
    case NotifyAll => ConservedNotify(p);
    case Join =>
  }

  lemma {:induction false} ConservedSpawn<T>(p: Pool<T>)
    requires Conserved(p) && Do(p, Spawn).Some?
    ensures Conserved(Do(p, Spawn).value)
  {
    InFlightAppend(p.workers, Fetching);
  }

  lemma {:induction false} ConservedNotify<T>(p: Pool<T>)
    requires Conserved(p) && Do(p, NotifyAll).Some?
    ensures Conserved(Do(p, NotifyAll).value)
  {
    InFlightWakeAll(p.workers);
  }

  lemma {:induction false} ConservedWake<T>(p: Pool<T>, w: nat)
    requires Conserved(p) && Do(p, SpuriousWake(w)).Some?
    ensures Conserved(Do(p, SpuriousWake(w)).value)
  {
    ConservedMove(p, w, Fetching);
  }

  /** A worker moves without taking or finishing a job. */
  lemma ConservedMove<T>(p: Pool<T>, w: nat, x: Worker<T>)
    requires Conserved(p) && w < |p.workers| && !p.workers[w].Handling? && !x.Handling?
    ensures Conserved(p.(workers := p.workers[w := x]))
  {
    ConservedUpdate(p, p.(workers := p.workers[w := x]), w);
  }

  lemma {:induction false} ConservedPark<T>(p: Pool<T>, w: nat)
    requires Conserved(p) && Do(p, Park(w)).Some?
    ensures Conserved(Do(p, Park(w)).value)
  {
    ConservedMove(p, w, Waiting);
  }

  lemma {:induction false} ConservedQueue<T>(p: Pool<T>, item: T, woken: Option<nat>)
    requires Conserved(p) && Do(p, QueueJob(item, woken)).Some?
    ensures Conserved(Do(p, QueueJob(item, woken)).value)
  {
    if woken.Some? {
      ConservedMove(p, woken.value, Fetching);
    }
  }

  lemma ConservedHandle<T>(p: Pool<T>, w: nat)
    requires Conserved(p) && w < |p.workers| && p.workers[w].Handling?
    ensures Conserved(Do(p, Handle(w)).value)
  {
    var q, ticket := Do(p, Handle(w)).value, p.workers[w].ticket;
    assert multiset(q.handled) == multiset(p.handled) + multiset{ticket};
    ConservedUpdate(p, q, w);
  }

  lemma ConservedFetch<T>(p: Pool<T>, w: nat)
    requires Conserved(p) && w < |p.workers| && p.workers[w].Fetching?
    ensures Conserved(FetchStep(p, w))
  {
    var q := FetchStep(p, w);
    if p.queue != [] {
      assert Tickets(q.taken) == Tickets(p.taken) + [p.taken];
      assert multiset(Tickets(q.taken)) == multiset(Tickets(p.taken)) + multiset{p.taken};
    }
    ConservedUpdate(p, q, w);
  }

  lemma InvStep<T>(p: Pool<T>, step: Step<T>)
    requires Inv(p) && Do(p, step).Some?
    ensures Inv(Do(p, step).value)
  {
    ConservedStep(p, step);
    OrderStep(p, step);
    LeaveStep(p, step);
  }

  lemma OrderStep<T>(p: Pool<T>, step: Step<T>)
    requires InOrder(p) && HoldTheirJobs(p) && Do(p, step).Some?
    ensures InOrder(Do(p, step).value) && HoldTheirJobs(Do(p, step).value)
  {
    match step
    case QueueJob(item, _) =>
      assert (p.submitted + [item])[p.taken..] == p.submitted[p.taken..] + [item];
    case _ =>
  }

  lemma LeaveStep<T>(p: Pool<T>, step: Step<T>)
    requires InOrder(p) && LeaveLate(p) && Do(p, step).Some?
    ensures LeaveLate(Do(p, step).value)
  {
  }

  lemma InvInit<T>()
    ensures Inv(Init<T>())
  {
    assert Tickets(0) == [];
  }

  lemma {:induction false} InvRun<T>(p: Pool<T>, steps: seq<Step<T>>)
    requires Inv(p) && Run(p, steps).Some?
    ensures Inv(Run(p, steps).value)
    decreases |steps|
  {
    if steps != [] {
      InvStep(p, steps[0]);
      InvRun(Do(p, steps[0]).value, steps[1..]);
    }
  }

  // ----- main results

  /** Every interleaving: no job is lost, duplicated or overtaken. */
  lemma Conservation<T>(steps: seq<Step<T>>)
    requires Run(Init<T>(), steps).Some?
    ensures var p := Run(Init<T>(), steps).value;
            && p.taken <= |p.submitted|
            && p.submitted == p.submitted[..p.taken] + p.queue
            && multiset(p.handled) + InFlight(p.workers) == multiset(Tickets(p.taken))
  {
    InvInit<T>();
    InvRun(Init<T>(), steps);
  }

  /** Once `finish` has returned with at least one worker started, every job
      queued before `finish` has been handled exactly once, and so has every
      later job that was taken; the rest stay queued. */
  lemma FinishedMeansHandled<T>(steps: seq<Step<T>>)
    requires Run(Init<T>(), steps).Some?
    requires var p := Run(Init<T>(), steps).value; p.finisher.Returned? && p.workers != []
    ensures var p := Run(Init<T>(), steps).value;
            && p.beforeFinish <= p.taken <= |p.submitted|
            && (forall ticket: nat :: multiset(p.handled)[ticket] == if ticket < p.taken then 1 else 0)
            && p.queue == p.submitted[p.taken..]
  {
    InvInit<T>();
    InvRun(Init<T>(), steps);
    var p := Run(Init<T>(), steps).value;
    assert p.workers[0].Terminated?;
    NoneInFlight(p.workers);
    assert multiset(p.handled) == multiset(Tickets(p.taken));
    forall ticket: nat ensures multiset(p.handled)[ticket] == if ticket < p.taken then 1 else 0 {
      TicketOnce(p.taken, ticket);
    }
  }

  lemma {:induction false} TicketOnce(n: nat, ticket: nat)
    ensures multiset(Tickets(n))[ticket] == if ticket < n then 1 else 0
  {
    if n > 0 {
      assert Tickets(n) == Tickets(n - 1) + [n - 1];
      TicketOnce(n - 1, ticket);
    }
  }

  // ----- when a queued job is not slept on

  /** Some worker is about to look at the queue. */
  ghost predicate SomeUp<T>(p: Pool<T>) {
    exists i :: 0 <= i < |p.workers| && (p.workers[i].Fetching? || p.workers[i].Handling?)
  }

  /** While a job is queued, some worker is about to look at the queue, unless all have
      left. */
  ghost predicate Attended<T>(p: Pool<T>) {
    p.queue != [] ==> SomeUp(p) || AllTerminated(p.workers, |p.workers|)
  }

  /** No worker is between looking at the queue and waiting. */
  ghost predicate NoneParking<T>(p: Pool<T>) {
    forall i | 0 <= i < |p.workers| :: !p.workers[i].Parking?
  }

  /** No job is queued while a worker is in that gap. */
  ghost predicate QueuedInTime<T>(p: Pool<T>, steps: seq<Step<T>>)
    decreases |steps|
  {
    steps != [] && Do(p, steps[0]).Some? ==>
      && (steps[0].QueueJob? ==> NoneParking(p))
      && QueuedInTime(Do(p, steps[0]).value, steps[1..])
  }

  lemma {:induction false} UpAt<T>(p: Pool<T>, i: nat)
    requires i < |p.workers| && (p.workers[i].Fetching? || p.workers[i].Handling?)
    ensures SomeUp(p)
  {
  }

  lemma {:induction false} AttendedQueue<T>(p: Pool<T>, item: T, woken: Option<nat>)
    requires NoneParking(p) && Do(p, QueueJob(item, woken)).Some?
    ensures Attended(Do(p, QueueJob(item, woken)).value)
  {
    var q := Do(p, QueueJob(item, woken)).value;
    if woken.Some? {
      UpAt(q, woken.value);
    } else if i: nat :| i < |p.workers| && !p.workers[i].Terminated? {
      UpAt(q, i);
    }
  }

  lemma {:induction false} AttendedStep<T>(p: Pool<T>, step: Step<T>)
    requires Attended(p) && Do(p, step).Some? && (step.QueueJob? ==> NoneParking(p))
    ensures Attended(Do(p, step).value)
  {
    var q := Do(p, step).value;
    match step
    case Spawn => UpAt(q, |p.workers|);
    case QueueJob(item, woken) => AttendedQueue(p, item, woken);
    case Fetch(w) => if p.queue != [] { UpAt(q, w); }
    case Handle(w) => UpAt(q, w);
    case SpuriousWake(w) => UpAt(q, w);
    case Park(w) => if p.queue != [] { StaysUp(p, q, w); }
    case NotifyAll => if SomeUp(p) { StillUp(p, q); }
    case _ => if SomeUp(p) { StillUp(p, q); }
  }

  lemma {:induction false} StillUp<T>(p: Pool<T>, q: Pool<T>)
    requires SomeUp(p) && |q.workers| == |p.workers|
    requires forall i | 0 <= i < |p.workers| && !p.workers[i].Waiting? :: q.workers[i] == p.workers[i]
    ensures SomeUp(q)
  {
    var i: nat :| i < |p.workers| && (p.workers[i].Fetching? || p.workers[i].Handling?);
    UpAt(q, i);
  }

  lemma {:induction false} StaysUp<T>(p: Pool<T>, q: Pool<T>, w: nat)
    requires w < |p.workers| && p.workers[w].Parking? && q.workers == p.workers[w := Waiting]
    requires SomeUp(p) || AllTerminated(p.workers, |p.workers|)
    ensures SomeUp(q)
  {
    var i: nat :| i < |p.workers| && (p.workers[i].Fetching? || p.workers[i].Handling?);
    UpAt(q, i);
  }

  lemma {:induction false} AttendedRun<T>(p: Pool<T>, steps: seq<Step<T>>)
    requires Attended(p) && QueuedInTime(p, steps) && Run(p, steps).Some?
    ensures Attended(Run(p, steps).value)
    decreases |steps|
  {
    if steps != [] {
      AttendedStep(p, steps[0]);
      AttendedRun(Do(p, steps[0]).value, steps[1..]);
    }
  }

  /** The wake-up of a new job is enough as long as no job is queued in the gap between
      looking at the queue and waiting: wherever such a run leads, while a job is queued
      some worker has a step to take that looks at the queue or ends with looking at it,
      unless all workers have left or none was started. */
  lemma {:induction false} JobsAttended<T>(steps: seq<Step<T>>) returns (next: Step<T>)
    requires Run(Init<T>(), steps).Some? && QueuedInTime(Init<T>(), steps)
    requires var p := Run(Init<T>(), steps).value; p.queue != [] && !AllTerminated(p.workers, |p.workers|)
    ensures (next.Fetch? || next.Handle?) && Do(Run(Init<T>(), steps).value, next).Some?
  {
    AttendedRun(Init<T>(), steps);
    var p := Run(Init<T>(), steps).value;
    var i: nat :| i < |p.workers| && (p.workers[i].Fetching? || p.workers[i].Handling?);
    next := if p.workers[i].Fetching? then Fetch(i) else Handle(i);
  }

  // ----- liveness is not kept

  /** Nothing can move without a new job or a spurious wake-up. */
  ghost predicate Stuck<T(!new)>(p: Pool<T>) {
    forall step: Step<T> {:trigger Do(p, step)} ::
      Do(p, step).Some? ==> step.QueueJob? || step.SpuriousWake?
  }

  /** While `finish` waits for a worker, exactly this is a deadlock: that worker
      waits, and every other one waits or has terminated. */
  lemma StuckWhileJoining<T(!new)>(p: Pool<T>)
    requires p.finisher.Joining? && p.finisher.notified && p.finisher.next < |p.workers|
    ensures Stuck(p) <==>
              p.workers[p.finisher.next].Waiting? &&
              forall i | 0 <= i < |p.workers| :: p.workers[i].Waiting? || p.workers[i].Terminated?
  {
    if Stuck(p) {
      assert Do(p, Join).None?;
      forall i | 0 <= i < |p.workers| ensures p.workers[i].Waiting? || p.workers[i].Terminated? {
        assert Do(p, Fetch(i)).None? && Do(p, Park(i)).None? && Do(p, Handle(i)).None?;
      }
    }
  }

  /** While `finish` waits for worker `k` it will see it leave, unless `k` is
      parking or waiting itself. */
  ghost predicate Awake<T>(p: Pool<T>, k: nat) {
    && p.finished && p.finisher == Joining(k, true) && k < |p.workers|
    && (p.workers[k].Fetching? || p.workers[k].Handling? || p.workers[k].Terminated?)
  }

  lemma AwakeStep<T>(p: Pool<T>, step: Step<T>, k: nat)
    requires Awake(p, k) && Do(p, step).Some?
    ensures Awake(Do(p, step).value, k) || !(Do(p, step).value.finisher == Joining(k, true))
    ensures Do(p, step).value.finisher == Joining(k, true) || Left(Do(p, step).value, k)
  {
  }

  /** `finish` has gone past worker `k`. */
  ghost predicate Left<T>(p: Pool<T>, k: nat) {
    p.finisher.Returned? || (p.finisher.Joining? && p.finisher.next > k)
  }

  lemma LeftStep<T>(p: Pool<T>, step: Step<T>, k: nat)
    requires Left(p, k) && Do(p, step).Some?
    ensures Left(Do(p, step).value, k)
  {
  }

  lemma {:induction false} LeftRun<T>(p: Pool<T>, steps: seq<Step<T>>, k: nat)
    requires Left(p, k) && Run(p, steps).Some?
    ensures Left(Run(p, steps).value, k)
    decreases |steps|
  {
    if steps != [] {
      LeftStep(p, steps[0], k);
      LeftRun(Do(p, steps[0]).value, steps[1..], k);
    }
  }

  lemma {:induction false} AwakeRun<T>(p: Pool<T>, steps: seq<Step<T>>, k: nat)
    requires Awake(p, k) && Run(p, steps).Some?
    ensures Awake(Run(p, steps).value, k) || Left(Run(p, steps).value, k)
    decreases |steps|
  {
    if steps != [] {
      var q := Do(p, steps[0]).value;
      AwakeStep(p, steps[0], k);
      if q.finisher == Joining(k, true) {
        AwakeRun(q, steps[1..], k);
      } else {
        LeftRun(q, steps[1..], k);
      }
    }
  }

  /** `finish` is blocked on worker `k` for good, short of a new job or a spurious
      wake-up. */
  ghost predicate Hung<T(!new)>(p: Pool<T>, k: nat) {
    Stuck(p) && p.finisher == Joining(k, true)
  }

  lemma AwakeNotHung<T(!new)>(p: Pool<T>, k: nat)
    requires Awake(p, k)
    ensures !Hung(p, k)
  {
    if p.workers[k].Fetching? {
      assert Do(p, Fetch(k)).Some?;
    } else if p.workers[k].Handling? {
      assert Do(p, Handle(k)).Some?;
    } else {
      assert Do(p, Join).Some?;
    }
  }

  /** Steps still to come from one worker. */
  function Rank<T>(x: Worker<T>): nat {
    match x
    case Fetching => 1
    case Parking => 1
    case Handling(_, _) => 2
    case _ => 0
  }

  function Ranks<T>(workers: seq<Worker<T>>): nat {
    if workers == [] then 0 else Rank(workers[0]) + Ranks(workers[1..])
  }

  lemma {:induction false} RanksUpdate<T>(workers: seq<Worker<T>>, w: nat, x: Worker<T>)
    requires w < |workers|
    ensures Ranks(workers[w := x]) == Ranks(workers) - Rank(workers[w]) + Rank(x)
    decreases |workers|
  {
    if w > 0 {
      RanksUpdate(workers[1..], w - 1, x);
      assert workers[w := x][1..] == workers[1..][w - 1 := x];
    } else {
      assert workers[0 := x][1..] == workers[1..];
    }
  }

  /** A step of the pool itself: no new job and no spurious wake-up. */
  predicate OwnStep<T>(step: Step<T>) {
    !step.QueueJob? && !step.SpuriousWake?
  }

  ghost predicate Asleep<T>(p: Pool<T>, k: nat) {
    && p.finished && p.finisher == Joining(k, true) && k < |p.workers|
    && (p.workers[k].Parking? || p.workers[k].Waiting?)
  }

  /** Some worker has a step to take; it uses up work and does not rouse `k`. */
  lemma AsleepStep<T>(p: Pool<T>, k: nat, w: nat) returns (step: Step<T>)
    requires Asleep(p, k) && w < |p.workers| && !p.workers[w].Waiting? && !p.workers[w].Terminated?
    ensures OwnStep(step) && Do(p, step).Some? && Asleep(Do(p, step).value, k)
    ensures var q := Do(p, step).value; 2 * |q.queue| + Ranks(q.workers) < 2 * |p.queue| + Ranks(p.workers)
  {
    step := match p.workers[w]
      case Fetching => Fetch(w)
      case Parking => Park(w)
      case _ => Handle(w);
    RanksUpdate(p.workers, w, Do(p, step).value.workers[w]);
  }

  /** With worker `k` asleep, the pool's own steps end with `finish` hung on it. */
  lemma {:induction false} AsleepHangs<T(!new)>(p: Pool<T>, k: nat) returns (steps: seq<Step<T>>)
    requires Asleep(p, k)
    ensures (forall step | step in steps :: OwnStep(step)) && Run(p, steps).Some? && Hung(Run(p, steps).value, k)
    decreases 2 * |p.queue| + Ranks(p.workers)
  {
    if w: nat :| w < |p.workers| && !p.workers[w].Waiting? && !p.workers[w].Terminated? {
      var step := AsleepStep(p, k, w);
      var rest := AsleepHangs(Do(p, step).value, k);
      steps := [step] + rest;
      assert steps[1..] == rest;
    } else {
      steps := [];
      StuckWhileJoining(p);
    }
  }

  /** Some run, of the pool's own steps or with new jobs and spurious wake-ups,
      ends with `finish` hung on worker `k`. */
  ghost predicate MayHang<T(!new)>(p: Pool<T>, k: nat, alone: bool) {
    exists steps: seq<Step<T>> ::
      && Run(p, steps).Some? && Hung(Run(p, steps).value, k)
      && (alone ==> forall step | step in steps :: OwnStep(step))
  }

  /** When `finish` hangs.  At the moment it calls `notify_all` before joining
      worker `k`, in any reachable pool, it can come to hang on `k` if and only if
      `k` is then in the gap between releasing the queue's lock and waiting; and
      if so, the pool's own steps are enough to get there. */
  lemma FinishHangsIff<T(!new)>(before: seq<Step<T>>, k: nat)
    requires Run(Init<T>(), before).Some?
    requires var p := Run(Init<T>(), before).value; p.finisher == Joining(k, false) && k < |p.workers|
    ensures var p := Run(Init<T>(), before).value;
            && Do(p, NotifyAll).Some?
            && (MayHang(Do(p, NotifyAll).value, k, false) <==> p.workers[k].Parking?)
            && (MayHang(Do(p, NotifyAll).value, k, true) <==> p.workers[k].Parking?)
  {
    InvInit<T>();
    InvRun(Init<T>(), before);
    var p := Run(Init<T>(), before).value;
    var q := Do(p, NotifyAll).value;
    if p.workers[k].Parking? {
      var steps := AsleepHangs(q, k);
    } else {
      forall steps: seq<Step<T>> | Run(q, steps).Some?
        ensures !Hung(Run(q, steps).value, k)
      {
        AwakeRun(q, steps, k);
        if Awake(Run(q, steps).value, k) {
          AwakeNotHung(Run(q, steps).value, k);
        }
      }
    }
  }

  /** The run calls `notify_all` for worker `k` while `k` is parking. */
  ghost predicate MissesOut<T>(p: Pool<T>, steps: seq<Step<T>>, k: nat)
    decreases |steps|
  {
    && steps != [] && Do(p, steps[0]).Some?
    && ((steps[0].NotifyAll? && p.finisher == Joining(k, false) && k < |p.workers| && p.workers[k].Parking?)
        || MissesOut(Do(p, steps[0]).value, steps[1..], k))
  }

  lemma {:induction false} AwakeOrMissed<T>(p: Pool<T>, step: Step<T>, k: nat)
    requires LeaveLate(p) && Do(p, step).Some? && (p.finisher == Joining(k, true) ==> Awake(p, k))
    ensures var q := Do(p, step).value;
            q.finisher == Joining(k, true) ==> Awake(q, k) || (step.NotifyAll? && p.workers[k].Parking?)
  {
    if p.finisher == Joining(k, true) { AwakeStep(p, step, k); }
  }

  lemma {:induction false} HungMissedOut<T(!new)>(p: Pool<T>, steps: seq<Step<T>>, k: nat)
    requires Inv(p) && Run(p, steps).Some? && (p.finisher == Joining(k, true) ==> Awake(p, k))
    requires Hung(Run(p, steps).value, k)
    ensures MissesOut(p, steps, k)
    decreases |steps|
  {
    if steps == [] {
      AwakeNotHung(p, k);
    } else {
      var q := Do(p, steps[0]).value;
      InvStep(p, steps[0]);
      AwakeOrMissed(p, steps[0], k);
      if q.finisher == Joining(k, true) ==> Awake(q, k) {
        HungMissedOut(q, steps[1..], k);
      }
    }
  }

  /** In every run: if `finish` hangs on worker `k`, then `notify_all` was called for
      `k` in this run, as it is for every worker before it is joined, and `k` was
      parking at that moment. */
  lemma {:induction false} HangsOnlyIfParked<T(!new)>(steps: seq<Step<T>>, k: nat)
    requires Run(Init<T>(), steps).Some? && Hung(Run(Init<T>(), steps).value, k)
    ensures MissesOut(Init<T>(), steps, k)
  {
    InvInit<T>();
    HungMissedOut(Init<T>(), steps, k);
  }

  /** The wait does not look at the queue again, so a wake-up sent in the gap
      before it is lost: with one worker, one job and `finish`, this run ends
      with the job queued, the worker asleep and `finish` blocked on it. */
  lemma MissedWakeup<T(!new)>(item: T)
    ensures var p := Run(Init<T>(), [Spawn, Fetch(0), QueueJob(item, None), Finish, NotifyAll, Park(0)]);
            p.Some? && Stuck(p.value) && p.value.queue == [item] && p.value.finisher == Joining(0, true)
  {
    var p0 := Init<T>();
    var p1 := p0.(workers := [Fetching]);
    var p2 := p1.(workers := [Parking]);
    var p3 := p2.(queue := [item], submitted := [item]);
    var p4 := p3.(finished := true, finisher := Joining(0, false), beforeFinish := 1);
    var p5 := p4.(finisher := Joining(0, true));
    var p6 := p5.(workers := [Waiting]);
    var q := Do(p0, Spawn).value;
    assert q == p1 by { assert p0.workers + [Fetching] == [Fetching]; }
    assert Do(p1, Fetch(0)).value == p2 by { assert p1.workers[0 := Parking] == [Parking]; }
    assert Do(p2, QueueJob(item, None)).value == p3 by { assert [] + [item] == [item]; }
    assert Do(p3, Finish).value == p4;
    assert Do(p4, NotifyAll).value == p5 by { assert WakeAll(p4.workers) == p4.workers; }
    assert Do(p5, Park(0)).value == p6 by { assert p5.workers[0 := Waiting] == [Waiting]; }
    StuckWhileJoining(p6);
    var steps := [Spawn, Fetch(0), QueueJob(item, None), Finish, NotifyAll, Park(0)];
    RunFirst(p5, steps[5..]);
    RunFirst(p4, steps[4..]);
    RunFirst(p3, steps[3..]);
    RunFirst(p2, steps[2..]);
    RunFirst(p1, steps[1..]);
    RunFirst(p0, steps);
  }

  lemma RunFirst<T>(p: Pool<T>, steps: seq<Step<T>>)
    requires steps != [] && Do(p, steps[0]).Some?
    ensures Run(p, steps) == Run(Do(p, steps[0]).value, steps[1..])
    ensures |steps| == 1 ==> Run(p, steps) == Do(p, steps[0])
  {
  }
}
