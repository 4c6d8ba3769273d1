/** The in-memory send queue (src/queue/MailQueue.ts). Each operation is one step between two awaits; an
    attempt that ends and the clean-up after it are one step. */
module MailQueue {
  import opened Text
  import RateLimiter

  datatype Priority = Critical | High | Normal | Low

  const TIERS := 4

  /** Position in PRIORITY_ORDER. */
  function Rank(p: Priority): (t: nat)
    ensures t < TIERS
  {
    match p
    case Critical => 0
    case High => 1
    case Normal => 2
    case Low => 3
  }

  datatype Status = Pending | Scheduled | Running | Success | Dead | Cancelled

  /** A job. `errors` counts the errors recorded so far, `notBefore` matters while the job is scheduled;
      `key` and `cost` are what the rate limiter makes of it. `starts` and `interrupts` count the attempts
      that began and those that were taken back. */
  datatype Job = Job(
    id: string, priority: Priority, status: Status, attempts: int, errors: nat, notBefore: int,
    key: string, cost: nat, starts: nat, interrupts: nat)

  datatype Reason = Cancel | Interrupt | Abort

  datatype Config = Config(concurrency: nat, maxRetries: nat, windows: seq<RateLimiter.Window>)

  /** The queue. Jobs are numbered in the order they were accepted; `pending` has a list for each tier,
      `scheduled` is in insertion order, `reasons` tells which running jobs were asked to stop, and `timer`
      is when promoteDue will be called, unless a shutdown cleared it for good (`halted`). `dead` counts
      every job that ever died. */
  datatype Queue = Queue(
    jobs: seq<Job>, pending: seq<seq<nat>>, scheduled: seq<nat>, running: set<nat>,
    reasons: map<nat, Reason>, throttled: set<nat>, timer: Option<int>, clock: int,
    paused: bool, closed: bool, halted: bool, ready: bool,
    succeeded: nat, cancelled: nat, dead: nat, limiter: RateLimiter.Run, config: Config)

  function Created(config: Config, clock: int): (q: Queue)
    ensures |q.jobs| == 0 && q.config == config
  {
    Queue([], [[], [], [], []], [], {}, map[], {}, None, clock, false, false, false, false, 0, 0, 0,
          RateLimiter.FRESH, config)
  }

  // ---- Taking a job off its list -----------------------------------------------------

  predicate Refs(s: seq<nat>, n: nat) {
    forall k :: 0 <= k < |s| ==> s[k] < n
  }

  /** Every reference is to an accepted job. */
  predicate RefsOk(q: Queue) {
    && |q.pending| == TIERS
    && (forall t :: 0 <= t < TIERS ==> Refs(q.pending[t], |q.jobs|))
    && Refs(q.scheduled, |q.jobs|)
    && (forall r :: r in q.running ==> r < |q.jobs|)
  }

  function Cut(s: seq<nat>, k: nat): (s': seq<nat>)
    requires k < |s|
    ensures |s'| == |s| - 1
    ensures forall n: nat :: Refs(s, n) ==> Refs(s', n)
  {
    s[..k] + s[k + 1..]
  }

  function TakePending(q: Queue, t: nat, k: nat): (q': Queue)
    requires RefsOk(q) && t < TIERS && k < |q.pending[t]|
    ensures RefsOk(q') && q'.config == q.config && q'.jobs == q.jobs && q.pending[t][k] < |q.jobs|
  {
    q.(pending := q.pending[t := Cut(q.pending[t], k)])
  }

  function TakeScheduled(q: Queue, k: nat): (q': Queue)
    requires RefsOk(q) && k < |q.scheduled|
    ensures RefsOk(q') && q'.config == q.config && q'.jobs == q.jobs && q.scheduled[k] < |q.jobs|
  {
    q.(scheduled := Cut(q.scheduled, k))
  }

  function TakeRunning(q: Queue, r: nat): (q': Queue)
    requires RefsOk(q) && r in q.running
    ensures RefsOk(q') && q'.config == q.config && q'.jobs == q.jobs && r < |q.jobs|
  {
    q.(running := q.running - {r}, reasons := q.reasons - {r})
  }

  // ---- Putting it somewhere ----------------------------------------------------------

  /** `j` is the job as it is from now on. */
  function PutBack(q: Queue, r: nat, j: Job): (q': Queue)
    requires RefsOk(q) && r < |q.jobs|
    ensures RefsOk(q') && q'.config == q.config && |q'.jobs| == |q.jobs|
  {
    var t := Rank(j.priority);
    q.(jobs := q.jobs[r := j.(status := Pending)], pending := q.pending[t := q.pending[t] + [r]])
  }

  function PutFront(q: Queue, r: nat, j: Job): (q': Queue)
    requires RefsOk(q) && r < |q.jobs|
    ensures RefsOk(q') && q'.config == q.config && |q'.jobs| == |q.jobs|
  {
    var t := Rank(j.priority);
    q.(jobs := q.jobs[r := j.(status := Pending)], pending := q.pending[t := [r] + q.pending[t]])
  }

  function PutScheduled(q: Queue, r: nat, j: Job, notBefore: int): (q': Queue)
    requires RefsOk(q) && r < |q.jobs|
    ensures RefsOk(q') && q'.config == q.config && |q'.jobs| == |q.jobs|
  {
    q.(jobs := q.jobs[r := j.(status := Scheduled, notBefore := notBefore)], scheduled := q.scheduled + [r])
  }

  /** An attempt begins, with a controller of its own. */
  function Begin(q: Queue, r: nat): (q': Queue)
    requires RefsOk(q) && r < |q.jobs|
    ensures RefsOk(q') && q'.config == q.config && |q'.jobs| == |q.jobs|
  {
    var j := q.jobs[r];
    q.(jobs := q.jobs[r := j.(status := Running, attempts := j.attempts + 1, starts := j.starts + 1)],
       running := q.running + {r}, reasons := q.reasons - {r})
  }

  function Succeed(q: Queue, r: nat): (q': Queue)
    requires RefsOk(q) && r < |q.jobs|
    ensures RefsOk(q') && q'.config == q.config && |q'.jobs| == |q.jobs|
  {
    q.(jobs := q.jobs[r := q.jobs[r].(status := Success)], succeeded := q.succeeded + 1)
  }

  function Die(q: Queue, r: nat): (q': Queue)
    requires RefsOk(q) && r < |q.jobs|
    ensures RefsOk(q') && q'.config == q.config && |q'.jobs| == |q.jobs|
  {
    var j := q.jobs[r];
    q.(jobs := q.jobs[r := j.(status := Dead, errors := j.errors + 1)], dead := q.dead + 1)
  }

  /** markCancelled */
  function MarkCancelled(q: Queue, r: nat): (q': Queue)
    requires RefsOk(q) && r < |q.jobs|
    ensures RefsOk(q') && q'.config == q.config && |q'.jobs| == |q.jobs|
  {
    q.(jobs := q.jobs[r := q.jobs[r].(status := Cancelled)], throttled := q.throttled - {r},
       cancelled := q.cancelled + 1)
  }

  // ---- The timer ---------------------------------------------------------------------

  const MAX_DELAY := 0x7FFF_FFFF

  function Earliest(jobs: seq<Job>, scheduled: seq<nat>): (at: int)
    requires scheduled != [] && Refs(scheduled, |jobs|)
    ensures forall i :: 0 <= i < |scheduled| ==> at <= jobs[scheduled[i]].notBefore
  {
    var n := |scheduled| - 1;
    var last := jobs[scheduled[n]].notBefore;
    if n == 0 then last
    else
      var at := Earliest(jobs, scheduled[..n]);
      assert forall i :: 0 <= i < n ==> scheduled[i] == scheduled[..n][i];
      if last < at then last else at
  }

  /** armSchedule: at the earliest due time, at most MAX_DELAY from now. */
  function Armed(q: Queue): (q': Queue)
    requires RefsOk(q)
    ensures RefsOk(q') && q'.config == q.config && q'.jobs == q.jobs && q'.scheduled == q.scheduled && q'.pending == q.pending
  {
    if q.scheduled == [] then q.(timer := None)
    else
      var next := Earliest(q.jobs, q.scheduled);
      var delay := if next < q.clock then 0 else if next - q.clock > MAX_DELAY then MAX_DELAY else next - q.clock;
      q.(timer := Some(q.clock + delay))
  }

  // ---- The scheduler -----------------------------------------------------------------

  /** First tier with a pending job, TIERS if there is none. */
  function FirstTier(pending: seq<seq<nat>>, from: nat): (t: nat)
    requires |pending| == TIERS && from <= TIERS
    ensures from <= t <= TIERS && (t < TIERS ==> pending[t] != [])
    ensures forall u :: from <= u < t ==> pending[u] == []
    decreases TIERS - from
  {
    if from == TIERS || pending[from] != [] then from else FirstTier(pending, from + 1)
  }

  /** All pending jobs, in the order they will start. */
  function Line(pending: seq<seq<nat>>): seq<nat>
    requires |pending| == TIERS
  {
    pending[0] + pending[1] + pending[2] + pending[3]
  }

  /** What the limiter answers; without windows there is no limiter. */
  function WaitFor(q: Queue, r: nat): (wait: int)
    requires r < |q.jobs|
    ensures wait >= 0
  {
    if q.config.windows == [] then 0
    else
      var used := RateLimiter.Prune(RateLimiter.Of(q.limiter.uses, q.jobs[r].key),
                                    q.clock - RateLimiter.Longest(q.config.windows));
      RateLimiter.Wait(used, q.config.windows, q.jobs[r].cost, q.clock)
  }

  /** The limiter after it was asked about `r`, which is recorded if it may start. */
  function Asked(q: Queue, r: nat): (q': Queue)
    requires RefsOk(q) && r < |q.jobs|
    ensures RefsOk(q') && q'.config == q.config && |q'.jobs| == |q.jobs| && q' == q.(limiter := q'.limiter)
  {
    if q.config.windows == [] then q
    else
      var j := q.jobs[r];
      q.(limiter := RateLimiter.Attempt(q.limiter, q.config.windows,
                                        RateLimiter.Request(j.key, j.cost, q.clock, q.clock)))
  }

  /** Over the limit: wait in `scheduled`, no attempt counted. */
  function Throttle(q: Queue, r: nat, wait: int): (q': Queue)
    requires RefsOk(q) && r < |q.jobs|
    ensures RefsOk(q') && q'.config == q.config && |q'.jobs| == |q.jobs|
  {
    var q1 := PutScheduled(q, r, q.jobs[r], q.clock + wait);
    Armed(q1.(throttled := q1.throttled + {r}))
  }

  /** One turn of tick's loop: the first job of the first tier with one. */
  function StartNext(q: Queue, t: nat): (q': Queue)
    requires RefsOk(q) && t < TIERS && q.pending[t] != []
    ensures RefsOk(q') && q'.config == q.config && |q'.jobs| == |q.jobs| && q'.pending == TakePending(q, t, 0).pending
            && q'.ready == q.ready
  {
    var r := q.pending[t][0];
    var q1 := Asked(TakePending(q, t, 0), r);
    if WaitFor(q, r) > 0 then Throttle(q1, r, WaitFor(q, r)) else Begin(q1, r)
  }

  lemma LineCut(pending: seq<seq<nat>>, t: nat)
    requires |pending| == TIERS && t == FirstTier(pending, 0) && t < TIERS
    ensures Line(pending) == [pending[t][0]] + Line(pending[t := Cut(pending[t], 0)])
  {
    var rest := pending[t := Cut(pending[t], 0)];
    assert pending[t] == [pending[t][0]] + rest[t];
  }

  predicate MayStart(q: Queue) { q.ready && !q.paused && |q.running| < q.config.concurrency }

  /** tick: start pending jobs while there are free slots. */
  function Tick(q: Queue): (q': Queue)
    requires RefsOk(q)
    ensures RefsOk(q') && q'.config == q.config && |q'.jobs| == |q.jobs|
    decreases |Line(q.pending)|
  {
    if !MayStart(q) then q
    else
      var t := FirstTier(q.pending, 0);
      if t == TIERS then q
      else
        LineCut(q.pending, t);
        Tick(StartNext(q, t))
  }

  /** promoteDue takes a due job off `scheduled`: a throttled one goes to the front of its tier. */
  function Promote(q: Queue, k: nat): (q': Queue)
    requires RefsOk(q) && k < |q.scheduled|
    ensures RefsOk(q') && q'.config == q.config && |q'.jobs| == |q.jobs| && |q'.scheduled| == |q.scheduled| - 1
  {
    var r := q.scheduled[k];
    var q1 := TakeScheduled(q, k).(throttled := q.throttled - {r});
    if r in q.throttled then PutFront(q1, r, q.jobs[r]) else PutBack(q1, r, q.jobs[r])
  }

  /** promoteDue's pass over `scheduled`, from position `k` on. */
  function PromoteFrom(q: Queue, k: nat): (q': Queue)
    requires RefsOk(q)
    ensures RefsOk(q') && q'.config == q.config && |q'.jobs| == |q.jobs|
    decreases |q.scheduled| - k
  {
    if k >= |q.scheduled| then q
    else if q.jobs[q.scheduled[k]].notBefore > q.clock then PromoteFrom(q, k + 1)
    else PromoteFrom(Promote(q, k), k)
  }

  function PromoteDue(q: Queue): (q': Queue)
    requires RefsOk(q)
    ensures RefsOk(q') && q'.config == q.config && |q'.jobs| == |q.jobs|
  {
    Tick(Armed(PromoteFrom(q.(timer := None), 0)))
  }

  // ---- Lookup ------------------------------------------------------------------------

  predicate Unfinished(s: Status) { s.Pending? || s.Scheduled? || s.Running? }

  /** Position in a list of the job with an id, -1 if there is none. */
  function FindIn(jobs: seq<Job>, refs: seq<nat>, id: string, from: nat): (k: int)
    requires Refs(refs, |jobs|)
    ensures k == -1 || (from <= k < |refs| && jobs[refs[k]].id == id)
    decreases |refs| - from
  {
    if from >= |refs| then -1
    else if jobs[refs[from]].id == id then from
    else FindIn(jobs, refs, id, from + 1)
  }

  /** First tier that holds a job with this id, TIERS if none does. */
  function TierOf(q: Queue, id: string, from: nat): (t: nat)
    requires RefsOk(q) && from <= TIERS
    ensures from <= t <= TIERS && (t < TIERS ==> FindIn(q.jobs, q.pending[t], id, 0) >= 0)
    decreases TIERS - from
  {
    if from == TIERS || FindIn(q.jobs, q.pending[from], id, 0) >= 0 then from else TierOf(q, id, from + 1)
  }

  /** find: some running, scheduled or pending job has this id. */
  predicate Known(q: Queue, id: string)
    requires RefsOk(q)
  {
    || (exists r :: r in q.running && q.jobs[r].id == id)
    || FindIn(q.jobs, q.scheduled, id, 0) >= 0
    || TierOf(q, id, 0) < TIERS
  }

  // ---- Steps -------------------------------------------------------------------------

  /** How an attempt came out: sent, or failed with an error of the one kind or the other. */
  datatype Outcome = Sent | Failed(retryable: bool)

  datatype Event =
    | Enqueue(id: string, priority: Priority, sendAt: Option<int>, key: string, cost: nat)
    | AttemptEnds(job: nat, outcome: Outcome, delay: nat)
    | TimerFires
    | CancelJob(id: string)
    | CancelAll
    | StopJob(id: string, reason: Reason)
    | StopAll(reason: Reason)
    | Pause
    | Resume
    | SetSendFn
    | Close
    | Halt
    | Clock(to: int)

  function NewJob(e: Event): Job
    requires e.Enqueue?
  {
    Job(e.id, e.priority, Pending, 0, 0, 0, e.key, e.cost, 0, 0)
  }

  /** enqueue: refused when the queue is closed or an unfinished job has the id. */
  function Accept(q: Queue, e: Event): (q': Queue)
    requires RefsOk(q) && e.Enqueue?
    ensures RefsOk(q') && q'.config == q.config && |q'.jobs| <= |q.jobs| + (if e.Enqueue? then 1 else 0)
  {
    if q.closed || Known(q, e.id) then q
    else
      var r, j := |q.jobs|, NewJob(e);
      var q1 := q.(jobs := q.jobs + [j]);
      if e.sendAt.Some? && e.sendAt.value > q.clock then Armed(PutScheduled(q1, r, j, e.sendAt.value))
      else Tick(PutBack(q1, r, j))
  }

  /** What becomes of an attempt: a stop request comes first, then the result. */
  function Settle(q: Queue, r: nat, reason: Option<Reason>, o: Outcome, delay: nat): (q': Queue)
    requires RefsOk(q) && r < |q.jobs|
    ensures RefsOk(q') && q'.config == q.config && |q'.jobs| == |q.jobs|
  {
    var j := q.jobs[r];
    if reason == Some(Cancel) then MarkCancelled(q, r)
    else if reason == Some(Interrupt) then
      PutFront(q, r, j.(attempts := j.attempts - 1, interrupts := j.interrupts + 1))
    else if reason == None && o.Sent? then Succeed(q, r)
    else if j.attempts > q.config.maxRetries || (reason == None && o.Failed? && !o.retryable) then Die(q, r)
    else Armed(PutScheduled(q, r, j.(errors := j.errors + 1), q.clock + delay))
  }

  function Ends(q: Queue, r: nat, o: Outcome, delay: nat): (q': Queue)
    requires RefsOk(q)
    ensures RefsOk(q') && q'.config == q.config && |q'.jobs| == |q.jobs|
  {
    if r !in q.running then q
    else
      var reason := if r in q.reasons then Some(q.reasons[r]) else None;
      Tick(Settle(TakeRunning(q, r), r, reason, o, delay))
  }

  /** Ask the running jobs in `who` to stop. The first request wins. */
  function Stop(q: Queue, who: set<nat>, reason: Reason): Queue {
    q.(reasons := map r | r in q.reasons.Keys + who :: if r in q.reasons then q.reasons[r] else reason)
  }

  function RunningWith(q: Queue, id: string): set<nat>
    requires RefsOk(q)
  {
    set r | r in q.running && q.jobs[r].id == id
  }

  function CancelById(q: Queue, id: string): (q': Queue)
    requires RefsOk(q)
    ensures RefsOk(q') && q'.config == q.config && |q'.jobs| == |q.jobs|
  {
    var k := FindIn(q.jobs, q.scheduled, id, 0);
    if k >= 0 then MarkCancelled(Armed(TakeScheduled(q, k)), q.scheduled[k])
    else
      var t := TierOf(q, id, 0);
      if t < TIERS then
        var i := FindIn(q.jobs, q.pending[t], id, 0);
        MarkCancelled(TakePending(q, t, i), q.pending[t][i])
      else Stop(q, RunningWith(q, id), Cancel)
  }

  function CancelRefs(q: Queue, refs: seq<nat>): (q': Queue)
    requires RefsOk(q) && Refs(refs, |q.jobs|)
    ensures RefsOk(q') && q'.config == q.config && |q'.jobs| == |q.jobs|
    decreases |refs|
  {
    if refs == [] then q else CancelRefs(MarkCancelled(q, refs[0]), refs[1..])
  }

  /** waitingJobs, in order. */
  function WaitingRefs(q: Queue): (refs: seq<nat>)
    requires RefsOk(q)
    ensures Refs(refs, |q.jobs|)
  {
    Line(q.pending) + q.scheduled
  }

  function Emptied(q: Queue): (q': Queue)
    requires RefsOk(q)
    ensures RefsOk(q') && q'.config == q.config && q'.jobs == q.jobs
  {
    Armed(q.(pending := [[], [], [], []], scheduled := []))
  }

  function CancelWaiting(q: Queue): (q': Queue)
    requires RefsOk(q)
    ensures RefsOk(q') && q'.config == q.config && |q'.jobs| == |q.jobs|
  {
    CancelRefs(Emptied(q), WaitingRefs(q))
  }

  /** Pausing, resuming, shutting down, and the clock. */
  function Switched(q: Queue, e: Event): (q': Queue)
    requires RefsOk(q)
    ensures RefsOk(q') && q'.config == q.config && |q'.jobs| == |q.jobs|
  {
    match e
    case Pause => q.(paused := true)
    case Resume => if q.closed then q else q.(paused := false)
    case SetSendFn => q.(ready := true)
    case Close => q.(paused := true, closed := true)
    case Halt => if q.closed then q.(timer := None, halted := true) else q
    case Clock(to) => if to < q.clock then q else q.(clock := to)
    case _ => q
  }

  function Step(q: Queue, e: Event): (q': Queue)
    requires RefsOk(q)
    ensures RefsOk(q') && q'.config == q.config && |q'.jobs| <= |q.jobs| + (if e.Enqueue? then 1 else 0)
  {
    match e
    case Enqueue(_, _, _, _, _) => Accept(q, e)
    case AttemptEnds(r, o, delay) => Ends(q, r, o, delay)
    case TimerFires => if q.timer.None? then q else PromoteDue(q)
    case CancelJob(id) => CancelById(q, id)
    case CancelAll => CancelWaiting(q)
    case StopJob(id, reason) => Stop(q, RunningWith(q, id), reason)
    case StopAll(reason) => Stop(q, q.running, reason)
    case Resume => if q.closed then q else Tick(Switched(q, e))
    case SetSendFn => Tick(Switched(q, e))
    case _ => Switched(q, e)
  }

  lemma RefsAt(s: seq<nat>, n: nat, k: nat)
    requires Refs(s, n) && k < |s|
    ensures s[k] < n
  {
  }

  lemma RefsMore(q: Queue, q': Queue)
    requires RefsOk(q) && |q.jobs| <= |q'.jobs|
    requires q'.pending == q.pending && q'.scheduled == q.scheduled && q'.running == q.running
    ensures RefsOk(q')
  {
  }

  /** What promoting one job changes. */
  lemma PromoteIs(q: Queue, k: nat)
    requires RefsOk(q) && k < |q.scheduled|
    ensures q.scheduled[k] < |q.jobs|
    ensures var r := q.scheduled[k];
            var t := Rank(q.jobs[r].priority);
            Promote(q, k) == q.(jobs := q.jobs[r := q.jobs[r].(status := Pending)], scheduled := Cut(q.scheduled, k),
                                throttled := q.throttled - {r},
                                pending := q.pending[t := if r in q.throttled then [r] + q.pending[t] else q.pending[t] + [r]])
  {
    hide Cut, Rank;
  }

  lemma WaitSame(q: Queue, q': Queue, r: nat)
    requires r < |q.jobs| && q'.jobs == q.jobs && q'.limiter == q.limiter && q'.config == q.config && q'.clock == q.clock
    ensures WaitFor(q', r) == WaitFor(q, r)
  {
  }

  // ---- The queue object --------------------------------------------------------------

  class SendQueue {
    /** Every accepted job. */
    var jobs: seq<Job>
    var pending: seq<seq<nat>>
    var scheduled: seq<nat>
    var running: set<nat>
    var reasons: map<nat, Reason>
    var throttled: set<nat>
    var timer: Option<int>
    var clock: int
    var paused: bool
    var closed: bool
    var halted: bool
    var ready: bool
    var succeeded: nat
    var cancelled: nat
    var dead: nat
    const limiter: RateLimiter.Limiter
    const config: Config
    /** Every start the limiter was told of. */
    ghost var starts: map<string, seq<RateLimiter.Use>>

    ghost function State(): Queue
      reads this, limiter
    {
      Queue(jobs, pending, scheduled, running, reasons, throttled, timer, clock, paused, closed, halted, ready,
            succeeded, cancelled, dead, RateLimiter.Run(limiter.uses, starts), config)
    }

    ghost predicate Valid()
      reads this, limiter
    {
      RefsOk(State()) && limiter.windows == config.windows
    }

    constructor (config: Config, clock: int)
      ensures Valid() && fresh(limiter) && State() == Created(config, clock)
    {
      this.config, this.clock := config, clock;
      limiter := new RateLimiter.Limiter(config.windows);
      starts := map[];
      jobs, pending, scheduled, running, reasons, throttled := [], [[], [], [], []], [], {}, map[], {};
      timer, paused, closed, halted, ready := None, false, false, false, false;
      succeeded, cancelled, dead := 0, 0, 0;
    }

    method EarliestDue() returns (next: int)
      requires scheduled != [] && Refs(scheduled, |jobs|)
      ensures next == Earliest(jobs, scheduled)
    {
      next := jobs[scheduled[0]].notBefore;
      for i := 1 to |scheduled|
        invariant next == Earliest(jobs, scheduled[..i])
      {
        assert scheduled[..i + 1][..i] == scheduled[..i];
        var at := jobs[scheduled[i]].notBefore;
        if at < next { next := at; }
      }
      assert scheduled[..|scheduled|] == scheduled;
    }

    method ArmSchedule()
      requires Valid()
      modifies this`timer
      ensures Valid() && State() == Armed(old(State()))
    {
      hide Refs, Earliest;
      timer := None;
      if scheduled == [] { return; }
      var next := EarliestDue();
      var delay := next - clock;
      if delay < 0 { delay := 0; }
      if delay > MAX_DELAY { delay := MAX_DELAY; }
      timer := Some(clock + delay);
    }

    /** The tier whose head starts next, TIERS if nothing is pending. */
    method NextTier() returns (t: nat)
      requires |pending| == TIERS
      ensures t == FirstTier(pending, 0)
    {
      t := 0;
      while t < TIERS
        invariant t <= TIERS && FirstTier(pending, 0) == FirstTier(pending, t)
      {
        if |pending[t]| > 0 { return; }
        t := t + 1;
      }
    }

    /** Asks the limiter, and records the start if it may begin. */
    method AskLimiter(r: nat) returns (wait: int)
      requires Valid() && r < |jobs|
      modifies this`starts, limiter
      ensures Valid() && State() == Asked(old(State()), r) && wait == WaitFor(old(State()), r)
    {
      hide Refs, RateLimiter.Prune, RateLimiter.Wait, RateLimiter.Longest;
      wait := 0;
      if |config.windows| > 0 {
        var j := jobs[r];
        wait := limiter.WaitFor(j.key, j.cost, clock);
        if wait == 0 {
          limiter.Record(j.key, j.cost, clock);
          starts := starts[j.key := RateLimiter.Of(starts, j.key) + [RateLimiter.Use(clock, j.cost)]];
        }
      }
    }

    /** The start of execute. */
    method BeginJob(r: nat)
      requires Valid() && r < |jobs|
      modifies this
      ensures Valid() && State() == Begin(old(State()), r)
    {
      hide Refs;
      var j := jobs[r];
      jobs := jobs[r := j.(status := Running, attempts := j.attempts + 1, starts := j.starts + 1)];
      reasons := reasons - {r};
      running := running + {r};
    }

    method ThrottleJob(r: nat, wait: int)
      requires Valid() && r < |jobs|
      modifies this
      ensures Valid() && State() == Throttle(old(State()), r, wait)
    {
      hide Refs, Armed;
      ghost var put := PutScheduled(State(), r, jobs[r], clock + wait);
      jobs := jobs[r := jobs[r].(status := Scheduled, notBefore := clock + wait)];
      throttled := throttled + {r};
      scheduled := scheduled + [r];
      assert State() == put.(throttled := throttled);
      ArmSchedule();
    }

    method StartHead(t: nat)
      requires Valid() && t < TIERS && pending[t] != []
      modifies this, limiter
      ensures Valid() && State() == StartNext(old(State()), t)
    {
      hide Refs, Cut, Begin, Throttle, WaitFor, Asked;
      ghost var was := State();
      var r := pending[t][0];
      pending := pending[t := Cut(pending[t], 0)];
      assert State() == TakePending(was, t, 0);
      WaitSame(was, State(), r);
      var wait := AskLimiter(r);
      if wait > 0 {
        ThrottleJob(r, wait);
      } else {
        BeginJob(r);
      }
    }

    method RunTick()
      requires Valid()
      modifies this, limiter
      ensures Valid() && State() == Tick(old(State()))
    {
      hide Refs, StartNext, Cut;
      if !ready { return; }
      while !paused && |running| < config.concurrency
        invariant Valid() && ready && Tick(State()) == Tick(old(State()))
        decreases |Line(pending)|
      {
        var t := NextTier();
        if t == TIERS { return; }
        LineCut(pending, t);
        StartHead(t);
      }
    }

    /** Takes one job off `scheduled`, and says whether it was throttled. */
    method Unschedule(k: nat) returns (r: nat, wasThrottled: bool)
      requires Valid() && k < |scheduled|
      modifies this`scheduled, this`jobs, this`throttled
      ensures r == old(scheduled[k]) && r < |old(jobs)| && (wasThrottled <==> r in old(throttled))
      ensures scheduled == Cut(old(scheduled), k) && throttled == old(throttled) - {r}
      ensures jobs == old(jobs)[r := old(jobs)[r].(status := Pending)]
    {
      hide Cut;
      r := scheduled[k];
      RefsAt(scheduled, |jobs|, k);
      scheduled := Cut(scheduled, k);
      jobs := jobs[r := jobs[r].(status := Pending)];
      wasThrottled := r in throttled;
      throttled := throttled - {r};
    }

    method PromoteJob(k: nat)
      requires Valid() && k < |scheduled|
      modifies this
      ensures Valid() && State() == Promote(old(State()), k)
    {
      hide Refs, Cut, Rank, Promote;
      PromoteIs(State(), k);
      assert |pending| == TIERS;
      hide RefsOk;
      var r, wasThrottled := Unschedule(k);
      var t := Rank(jobs[r].priority);
      if wasThrottled {
        pending := pending[t := [r] + pending[t]];
      } else {
        pending := pending[t := pending[t] + [r]];
      }
    }

    method PromoteDueJobs()
      requires Valid()
      modifies this, limiter
      ensures Valid() && State() == PromoteDue(old(State()))
    {
      hide Refs, Promote, Armed, Tick;
      timer := None;
      ghost var was := State();
      var k := 0;
      while k < |scheduled|
        invariant Valid() && PromoteFrom(State(), k) == PromoteFrom(was, 0)
        decreases |scheduled| - k
      {
        RefsAt(scheduled, |jobs|, k);
        if jobs[scheduled[k]].notBefore > clock {
          k := k + 1;
        } else {
          PromoteJob(k);
        }
      }
      ArmSchedule();
      RunTick();
    }

    // -- Lookup --

    method IndexOf(refs: seq<nat>, id: string) returns (k: int)
      requires Refs(refs, |jobs|)
      ensures k == FindIn(jobs, refs, id, 0)
    {
      k := 0;
      while k < |refs|
        invariant 0 <= k <= |refs| && FindIn(jobs, refs, id, 0) == FindIn(jobs, refs, id, k)
      {
        if jobs[refs[k]].id == id { return; }
        k := k + 1;
      }
      k := -1;
    }

    method TierWith(id: string) returns (t: nat)
      requires Valid()
      ensures t == TierOf(State(), id, 0)
    {
      t := 0;
      while t < TIERS
        invariant t <= TIERS && TierOf(State(), id, 0) == TierOf(State(), id, t)
      {
        var k := IndexOf(pending[t], id);
        if k >= 0 { return; }
        t := t + 1;
      }
    }

    method IsKnown(id: string) returns (known: bool)
      requires Valid()
      ensures known == Known(State(), id)
    {
      hide Refs, FindIn, TierOf;
      if exists r :: r in running && jobs[r].id == id { return true; }
      assert Refs(scheduled, |jobs|);
      var k := IndexOf(scheduled, id);
      if k >= 0 { return true; }
      var t := TierWith(id);
      known := t < TIERS;
    }

    // -- Operations --

    /** Refused with an error when the queue is shut down or has an unfinished job with the id. */
    method EnqueueJob(e: Event) returns (accepted: bool)
      requires Valid() && e.Enqueue?
      modifies this, limiter
      ensures Valid() && State() == Accept(old(State()), e)
      ensures accepted == (!old(closed) && !old(Known(State(), e.id)))
    {
      hide Refs, Known, Armed, Tick, Rank;
      if closed { return false; }
      var known := IsKnown(e.id);
      if known { return false; }
      var r := |jobs|;
      ghost var was := State();
      jobs := jobs + [NewJob(e)];
      RefsMore(was, State());
      if e.sendAt.Some? && e.sendAt.value > clock {
        ghost var put := PutScheduled(State(), r, NewJob(e), e.sendAt.value);
        jobs := jobs[r := jobs[r].(status := Scheduled, notBefore := e.sendAt.value)];
        scheduled := scheduled + [r];
        assert State() == put;
        ArmSchedule();
      } else {
        PlaceLast(r, jobs[r]);
        RunTick();
      }
      accepted := true;
    }

    method PlaceLast(r: nat, j: Job)
      requires Valid() && r < |jobs|
      modifies this
      ensures Valid() && State() == PutBack(old(State()), r, j)
    {
      hide Refs, Rank;
      var t := Rank(j.priority);
      jobs := jobs[r := j.(status := Pending)];
      pending := pending[t := pending[t] + [r]];
      assert State() == PutBack(old(State()), r, j);
    }

    method PlaceFirst(r: nat, j: Job)
      requires Valid() && r < |jobs|
      modifies this
      ensures Valid() && State() == PutFront(old(State()), r, j)
    {
      hide Refs, Rank;
      var t := Rank(j.priority);
      jobs := jobs[r := j.(status := Pending)];
      pending := pending[t := [r] + pending[t]];
      assert State() == PutFront(old(State()), r, j);
    }

    method MarkJobCancelled(r: nat)
      requires Valid() && r < |jobs|
      modifies this
      ensures Valid() && State() == MarkCancelled(old(State()), r)
    {
      hide Refs;
      throttled := throttled - {r};
      jobs := jobs[r := jobs[r].(status := Cancelled)];
      cancelled := cancelled + 1;
    }

    method MarkJobDead(r: nat)
      requires Valid() && r < |jobs|
      modifies this
      ensures Valid() && State() == Die(old(State()), r)
    {
      hide Refs;
      var j := jobs[r];
      jobs := jobs[r := j.(status := Dead, errors := j.errors + 1)];
      dead := dead + 1;
    }

    method ScheduleRetry(r: nat, delay: nat)
      requires Valid() && r < |jobs|
      modifies this
      ensures Valid()
      ensures var j := old(jobs)[r];
              State() == Armed(PutScheduled(old(State()), r, j.(errors := j.errors + 1), old(clock) + delay))
    {
      hide Refs, Armed;
      var j := jobs[r];
      jobs := jobs[r := j.(errors := j.errors + 1, status := Scheduled, notBefore := clock + delay)];
      scheduled := scheduled + [r];
      assert State() == PutScheduled(old(State()), r, j.(errors := j.errors + 1), clock + delay);
      ArmSchedule();
    }

    /** The rest of execute: what becomes of the attempt. */
    method SettleJob(r: nat, reason: Option<Reason>, o: Outcome, delay: nat)
      requires Valid() && r < |jobs|
      modifies this
      ensures Valid() && State() == Settle(old(State()), r, reason, o, delay)
    {
      hide Refs, Armed, MarkCancelled, PutFront, PutScheduled, Die;
      var j := jobs[r];
      if reason == Some(Cancel) {
        MarkJobCancelled(r);
        return;
      }
      if reason == Some(Interrupt) {
        PlaceFirst(r, j.(attempts := j.attempts - 1, interrupts := j.interrupts + 1));
        return;
      }
      if reason == None && o.Sent? {
        jobs := jobs[r := j.(status := Success)];
        succeeded := succeeded + 1;
        return;
      }
      assert reason == None || reason.value.Abort?;
      var retryable := reason == Some(Abort) || o.Sent? || o.retryable;
      if j.attempts > config.maxRetries || !retryable {
        MarkJobDead(r);
      } else {
        ScheduleRetry(r, delay);
      }
    }

    method EndAttempt(r: nat, o: Outcome, delay: nat)
      requires Valid()
      modifies this, limiter
      ensures Valid() && State() == Ends(old(State()), r, o, delay)
    {
      hide Refs, Settle, Tick;
      if r !in running { return; }
      var reason := if r in reasons then Some(reasons[r]) else None;
      running := running - {r};
      reasons := reasons - {r};
      SettleJob(r, reason, o, delay);
      RunTick();
    }

    method CancelScheduled(k: nat)
      requires Valid() && k < |scheduled|
      modifies this
      ensures Valid() && State() == MarkCancelled(Armed(TakeScheduled(old(State()), k)), old(scheduled)[k])
    {
      hide Refs, Cut, Armed, MarkCancelled;
      ghost var was := State();
      var r := scheduled[k];
      scheduled := Cut(scheduled, k);
      assert State() == TakeScheduled(was, k);
      ArmSchedule();
      MarkJobCancelled(r);
    }

    method CancelPending(t: nat, i: nat)
      requires Valid() && t < TIERS && i < |pending[t]|
      modifies this
      ensures Valid() && State() == MarkCancelled(TakePending(old(State()), t, i), old(pending)[t][i])
    {
      hide Refs, Cut, MarkCancelled;
      ghost var was := State();
      var r := pending[t][i];
      pending := pending[t := Cut(pending[t], i)];
      assert State() == TakePending(was, t, i);
      MarkJobCancelled(r);
    }

    /** cancel. Returns false if no unfinished job has the id. */
    method CancelOne(id: string) returns (found: bool)
      requires Valid()
      modifies this
      ensures Valid() && State() == CancelById(old(State()), id)
      ensures found == old(Known(State(), id))
    {
      hide Refs, FindIn, TierOf, Armed, MarkCancelled, TakeScheduled, TakePending;
      assert Refs(scheduled, |jobs|);
      var k := IndexOf(scheduled, id);
      if k >= 0 {
        CancelScheduled(k);
        return true;
      }
      var t := TierWith(id);
      if t < TIERS {
        assert Refs(pending[t], |jobs|);
        var i := IndexOf(pending[t], id);
        CancelPending(t, i);
        return true;
      }
      found := StopOne(id, Cancel);
    }

    /** cancel, interrupt and abort of a running job. Returns false if no running job has the id. */
    method StopOne(id: string, reason: Reason) returns (found: bool)
      requires Valid()
      modifies this`reasons
      ensures Valid() && State() == Stop(old(State()), RunningWith(old(State()), id), reason)
      ensures found == exists r :: r in running && jobs[r].id == id
    {
      hide Refs;
      var who := set r | r in running && jobs[r].id == id;
      found := exists r :: r in running && jobs[r].id == id;
      StopSome(who, reason);
    }

    /** trigger, on the controllers of these jobs. */
    method StopSome(who: set<nat>, reason: Reason)
      requires Valid()
      modifies this`reasons
      ensures Valid() && State() == Stop(old(State()), who, reason)
    {
      hide Refs;
      reasons := map r | r in reasons.Keys + who :: if r in reasons then reasons[r] else reason;
    }

    method CancelAllWaiting() returns (count: nat)
      requires Valid()
      modifies this
      ensures Valid() && State() == CancelWaiting(old(State()))
      ensures count == |Line(old(pending))| + |old(scheduled)|
    {
      hide Armed, MarkCancelled, Line;
      ghost var was := State();
      var refs := Line(pending) + scheduled;
      assert refs == WaitingRefs(was);
      pending, scheduled := [[], [], [], []], [];
      ArmSchedule();
      ghost var empty := State();
      for i := 0 to |refs|
        invariant Valid() && |jobs| == |was.jobs|
        invariant CancelRefs(empty, refs) == CancelRefs(State(), refs[i..])
      {
        assert refs[i..][0] == refs[i] && refs[i..][1..] == refs[i + 1..];
        MarkJobCancelled(refs[i]);
      }
      count := |refs|;
    }

    method PauseQueue()
      requires Valid()
      modifies this`paused
      ensures Valid() && State() == Step(old(State()), Pause)
    {
      hide Refs;
      paused := true;
    }

    method ResumeQueue()
      requires Valid()
      modifies this, limiter
      ensures Valid() && State() == Step(old(State()), Resume)
    {
      hide Refs, Tick;
      if closed { return; }
      paused := false;
      RunTick();
    }

    method MakeReady()
      requires Valid()
      modifies this, limiter
      ensures Valid() && State() == Step(old(State()), SetSendFn)
    {
      hide Refs, Tick;
      ready := true;
      RunTick();
    }
  }
}
