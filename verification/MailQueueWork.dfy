/** How much the send queue works: attempts are bounded by what it was asked (src/queue/MailQueue.ts). */
module MailQueueWork {
  import opened Text
  import opened MailQueue
  import opened MailQueueSafety
  import RateLimiter

  // ---- Interrupts asked for ----------------------------------------------------------

  /** How many attempts an event may ask to be taken back. */
  function InterruptsAsked(e: Event, concurrency: nat): nat {
    match e
    case StopJob(_, reason) => if reason == Interrupt then 1 else 0
    case StopAll(reason) => if reason == Interrupt then concurrency else 0
    case _ => 0
  }

  function AllInterruptsAsked(events: seq<Event>, concurrency: nat): nat {
    if events == [] then 0 else InterruptsAsked(events[0], concurrency) + AllInterruptsAsked(events[1..], concurrency)
  }

  /** The running jobs that were asked to go back. */
  ghost function GoingBack(reasons: map<nat, Reason>): set<nat> {
    set r | r in reasons && reasons[r] == Interrupt
  }

  /** Attempts taken back, and those that will be. */
  ghost function Owed(q: Queue): nat {
    Interrupts(q.jobs) + |GoingBack(q.reasons)|
  }

  predicate SameTallies(jobs: seq<Job>, jobs': seq<Job>) {
    && |jobs| <= |jobs'|
    && (forall r :: 0 <= r < |jobs| ==> jobs'[r].interrupts == jobs[r].interrupts)
    && (forall r :: |jobs| <= r < |jobs'| ==> jobs'[r].interrupts == 0)
  }

  predicate Fewer(reasons: map<nat, Reason>, reasons': map<nat, Reason>) {
    forall r :: r in reasons' ==> r in reasons && reasons'[r] == reasons[r]
  }

  /** No attempt is taken back and no job is newly asked to stop. */
  predicate Calm(q: Queue, q': Queue) {
    SameTallies(q.jobs, q'.jobs) && Fewer(q.reasons, q'.reasons)
  }

  lemma CalmTwice(q: Queue, q1: Queue, q2: Queue)
    requires Calm(q, q1) && Calm(q1, q2)
    ensures Calm(q, q2)
  {
  }

  lemma {:induction false} TalliesSum(jobs: seq<Job>, jobs': seq<Job>)
    requires SameTallies(jobs, jobs')
    ensures Interrupts(jobs') == Interrupts(jobs)
    decreases |jobs'|
  {
    if jobs' != [] {
      var n := |jobs'| - 1;
      if |jobs| == |jobs'| {
        TalliesSum(jobs[..n], jobs'[..n]);
      } else {
        TalliesSum(jobs, jobs'[..n]);
      }
    }
  }

  lemma Subset(a: set<nat>, b: set<nat>)
    requires a <= b
    ensures |a| <= |b|
  {
    assert b == a + (b - a);
  }

  lemma CalmOwes(q: Queue, q': Queue)
    requires Calm(q, q')
    ensures Owed(q') <= Owed(q)
  {
    TalliesSum(q.jobs, q'.jobs);
    Subset(GoingBack(q'.reasons), GoingBack(q.reasons));
  }

  // ---- Calm steps --------------------------------------------------------------------

  lemma StartNextCalm(q: Queue, t: nat)
    requires RefsOk(q) && t < TIERS && q.pending[t] != []
    ensures Calm(q, StartNext(q, t))
  {
    hide Refs, Cut, WaitFor, RateLimiter.Attempt;
    var r := q.pending[t][0];
    var q1 := Asked(TakePending(q, t, 0), r);
    if WaitFor(q, r) > 0 {
      ThrottleCalm(q1, r, WaitFor(q, r));
    }
  }

  lemma ThrottleCalm(q: Queue, r: nat, wait: int)
    requires RefsOk(q) && r < |q.jobs|
    ensures Calm(q, Throttle(q, r, wait))
  {
    hide Refs, Armed;
    var q1 := PutScheduled(q, r, q.jobs[r], q.clock + wait);
    ArmedKeeps(q1.(throttled := q1.throttled + {r}));
  }

  lemma {:induction false} TickCalm(q: Queue)
    requires RefsOk(q)
    ensures Calm(q, Tick(q))
    decreases |Line(q.pending)|
  {
    hide Refs, StartNext, Line, Cut;
    var t := FirstTier(q.pending, 0);
    if MayStart(q) && t < TIERS {
      StartNextCalm(q, t);
      LineCut(q.pending, t);
      TickCalm(StartNext(q, t));
      CalmTwice(q, StartNext(q, t), Tick(q));
    }
  }

  lemma PromoteCalm(q: Queue, k: nat)
    requires RefsOk(q) && k < |q.scheduled|
    ensures Calm(q, Promote(q, k))
  {
    hide Refs, Rank;
  }

  lemma {:induction false} PromoteFromCalm(q: Queue, k: nat)
    requires RefsOk(q)
    ensures Calm(q, PromoteFrom(q, k))
    decreases |q.scheduled| - k
  {
    hide Promote;
    if k < |q.scheduled| {
      if q.jobs[q.scheduled[k]].notBefore > q.clock {
        PromoteFromCalm(q, k + 1);
      } else {
        PromoteCalm(q, k);
        PromoteFromCalm(Promote(q, k), k);
        CalmTwice(q, Promote(q, k), PromoteFrom(q, k));
      }
    }
  }

  lemma ArmedCalm(q: Queue)
    requires RefsOk(q)
    ensures Calm(q, Armed(q))
  {
    ArmedKeeps(q);
    hide Armed;
  }

  lemma PromoteDueCalm(q: Queue)
    requires RefsOk(q)
    ensures Calm(q, PromoteDue(q))
  {
    hide Refs, PromoteFrom, Tick, Armed;
    var q0 := q.(timer := None);
    var q1 := PromoteFrom(q0, 0);
    PromoteFromCalm(q0, 0);
    ArmedCalm(q1);
    TickCalm(Armed(q1));
    CalmTwice(q0, q1, Armed(q1));
    CalmTwice(q0, Armed(q1), PromoteDue(q));
  }

  lemma AcceptCalm(q: Queue, e: Event)
    requires RefsOk(q) && e.Enqueue?
    ensures Calm(q, Accept(q, e))
  {
    hide Refs, Tick, Armed, Known, Rank;
    var r, j := |q.jobs|, NewJob(e);
    var q1 := q.(jobs := q.jobs + [j]);
    RefsMore(q, q1);
    PutsCalm(q, q1, r, j, if e.sendAt.Some? then e.sendAt.value else 0);
    hide PutScheduled, PutBack, Calm;
    if e.sendAt.Some? && e.sendAt.value > q.clock {
      var q2 := PutScheduled(q1, r, j, e.sendAt.value);
      ArmedCalm(q2);
      CalmTwice(q, q2, Armed(q2));
    } else {
      var q2 := PutBack(q1, r, j);
      TickCalm(q2);
      CalmTwice(q, q2, Tick(q2));
    }
    CalmOnce(q);
  }

  lemma CalmOnce(q: Queue)
    ensures Calm(q, q)
  {
  }

  lemma PutsCalm(q: Queue, q1: Queue, r: nat, j: Job, notBefore: int)
    requires RefsOk(q1) && r == |q.jobs| && q1 == q.(jobs := q.jobs + [j]) && j.interrupts == 0
    ensures Calm(q, PutScheduled(q1, r, j, notBefore)) && Calm(q, PutBack(q1, r, j))
  {
    hide Refs, Rank;
  }

  lemma {:induction false} CancelRefsCalm(q: Queue, refs: seq<nat>)
    requires RefsOk(q) && Refs(refs, |q.jobs|)
    ensures Calm(q, CancelRefs(q, refs))
    decreases |refs|
  {
    hide RefsOk;
    if refs != [] {
      var q1 := MarkCancelled(q, refs[0]);
      assert Calm(q, q1);
      CancelRefsCalm(q1, refs[1..]);
      CalmTwice(q, q1, CancelRefs(q, refs));
    }
  }

  lemma CancelWaitingCalm(q: Queue)
    requires RefsOk(q)
    ensures Calm(q, CancelWaiting(q))
  {
    hide Armed, CancelRefs;
    var q1 := q.(pending := [[], [], [], []], scheduled := []);
    ArmedCalm(q1);
    CancelRefsCalm(Emptied(q), WaitingRefs(q));
    CalmTwice(q, Emptied(q), CancelWaiting(q));
  }

  lemma SwitchedCalm(q: Queue, e: Event)
    requires RefsOk(q)
    ensures Calm(q, Switched(q, e))
  {
    hide Refs;
  }

  // ---- Stopping and settling ---------------------------------------------------------

  lemma StopOwes(q: Queue, who: set<nat>, reason: Reason)
    ensures Owed(Stop(q, who, reason)) <= Owed(q) + (if reason == Interrupt then |who| else 0)
  {
    var a, b := GoingBack(q.reasons), GoingBack(Stop(q, who, reason).reasons);
    if reason == Interrupt {
      assert b <= a + who;
      Subset(b, a + who);
    } else {
      assert b <= a;
      Subset(b, a);
    }
  }

  /** No two running jobs have the same id. */
  lemma RunningOnce(q: Queue, id: string)
    requires Good(q) && RefsOk(q)
    ensures |RunningWith(q, id)| <= 1
  {
    hide Limited, TiersOk, ScheduledOk, HandOk, JobsOk, CountsOk, Refs;
    var who := RunningWith(q, id);
    if who != {} {
      var r :| r in who;
      forall s | s in who ensures s == r {
        assert r in In(q.jobs, Running) && s in In(q.jobs, Running);
      }
      assert who == {r};
    }
  }

  lemma CancelByIdOwes(q: Queue, id: string)
    requires RefsOk(q)
    ensures Owed(CancelById(q, id)) <= Owed(q)
  {
    hide Refs, Armed, Owed, Cut, Stop, TierOf, FindIn;
    var k, t := FindIn(q.jobs, q.scheduled, id, 0), TierOf(q, id, 0);
    if k >= 0 {
      var q1 := TakeScheduled(q, k);
      ArmedCalm(q1);
      CalmTwice(q, q1, Armed(q1));
      CalmTwice(q, Armed(q1), CancelById(q, id));
      CalmOwes(q, CancelById(q, id));
    } else if t < TIERS {
      CalmOwes(q, CancelById(q, id));
    } else {
      StopOwes(q, RunningWith(q, id), Cancel);
    }
  }

  lemma {:induction false} InterruptsUpdate(jobs: seq<Job>, r: nat, j: Job)
    requires r < |jobs|
    ensures Interrupts(jobs[r := j]) + jobs[r].interrupts == Interrupts(jobs) + j.interrupts
  {
    var n := |jobs| - 1;
    if r == n {
      assert jobs[r := j][..n] == jobs[..n];
    } else {
      assert jobs[r := j][..n] == jobs[..n][r := j];
      InterruptsUpdate(jobs[..n], r, j);
    }
  }

  lemma InterruptedOwes(q: Queue, r: nat, o: Outcome, delay: nat)
    requires RefsOk(q) && r in q.running && r in q.reasons && q.reasons[r] == Interrupt
    ensures r < |q.jobs| && Owed(Settle(TakeRunning(q, r), r, Some(Interrupt), o, delay)) <= Owed(q)
  {
    hide Refs, Rank, Armed;
    var j := q.jobs[r];
    InterruptsUpdate(q.jobs, r, j.(status := Pending, attempts := j.attempts - 1, interrupts := j.interrupts + 1));
    assert GoingBack(q.reasons - {r}) == GoingBack(q.reasons) - {r};
  }

  lemma SettleCalm(q: Queue, r: nat, reason: Option<Reason>, o: Outcome, delay: nat)
    requires RefsOk(q) && r < |q.jobs| && reason != Some(Interrupt)
    ensures Calm(q, Settle(q, r, reason, o, delay))
  {
    hide Refs, Armed, Rank;
    var j := q.jobs[r];
    var q1 := PutScheduled(q, r, j.(errors := j.errors + 1), q.clock + delay);
    ArmedCalm(q1);
    CalmTwice(q, q1, Armed(q1));
  }

  lemma EndsOwes(q: Queue, r: nat, o: Outcome, delay: nat)
    requires RefsOk(q)
    ensures Owed(Ends(q, r, o, delay)) <= Owed(q)
  {
    hide Refs, Tick, Settle, Owed;
    if r in q.running {
      var reason := if r in q.reasons then Some(q.reasons[r]) else None;
      var q0 := TakeRunning(q, r);
      var q1 := Settle(q0, r, reason, o, delay);
      if reason == Some(Interrupt) {
        InterruptedOwes(q, r, o, delay);
      } else {
        assert Calm(q, q0);
        SettleCalm(q0, r, reason, o, delay);
        CalmTwice(q, q0, q1);
        CalmOwes(q, q1);
      }
      TickCalm(q1);
      CalmOwes(q1, Tick(q1));
    }
  }

  lemma StepOwes(q: Queue, e: Event)
    requires Good(q) && RefsOk(q)
    ensures Owed(Step(q, e)) <= Owed(q) + InterruptsAsked(e, q.config.concurrency)
  {
    hide Good, Refs, Owed, Calm, Accept, Ends, PromoteDue, CancelById, CancelWaiting, Stop, RunningWith, Tick, Switched;
    match e {
      case Enqueue(_, _, _, _, _) => AcceptCalm(q, e); CalmOwes(q, Accept(q, e));
      case AttemptEnds(r, o, delay) => EndsOwes(q, r, o, delay);
      case TimerFires => PromoteDueCalm(q); CalmOwes(q, PromoteDue(q));
      case CancelJob(id) => CancelByIdOwes(q, id);
      case CancelAll => CancelWaitingCalm(q); CalmOwes(q, CancelWaiting(q));
      case StopJob(id, reason) => StopOwes(q, RunningWith(q, id), reason); RunningOnce(q, id);
      case StopAll(reason) => StopOwes(q, q.running, reason); ThrottledWait(q);
      case _ =>
        var q1 := Switched(q, e);
        SwitchedCalm(q, e);
        CalmOwes(q, q1);
        TickCalm(q1);
        CalmOwes(q1, Tick(q1));
    }
  }

  lemma {:induction false} RunOwes(q: Queue, events: seq<Event>)
    requires Good(q) && RefsOk(q)
    ensures Owed(Run(q, events)) <= Owed(q) + AllInterruptsAsked(events, q.config.concurrency)
    decreases |events|
  {
    hide Good, RefsOk, Step, Owed, InterruptsAsked;
    if events != [] {
      StepGood(q, events[0]);
      StepOwes(q, events[0]);
      RunOwes(Step(q, events[0]), events[1..]);
    }
  }

  // ---- Every run ---------------------------------------------------------------------

  function Enqueues(events: seq<Event>): nat {
    if events == [] then 0 else One(events[0].Enqueue?) + Enqueues(events[1..])
  }

  lemma {:induction false} AcceptedAtMost(q: Queue, events: seq<Event>)
    requires RefsOk(q)
    ensures |Run(q, events).jobs| <= |q.jobs| + Enqueues(events)
    decreases |events|
  {
    hide RefsOk, Step;
    if events != [] {
      AcceptedAtMost(Step(q, events[0]), events[1..]);
    }
  }

  lemma MoreTimes(a: nat, b: nat, c: nat)
    requires a <= b
    ensures a * c <= b * c
  {
  }

  lemma StartsWithin(q: Queue, n: nat)
    requires Good(q) && |q.jobs| <= n
    ensures Starts(q.jobs) <= n * (q.config.maxRetries + 1) + Interrupts(q.jobs)
  {
    hide Placed, CountsOk, Marked, JobsOk, IdsApart, Limited, Starts, Interrupts;
    StartsSum(q.jobs, q.config.maxRetries);
    MoreTimes(|q.jobs|, n, q.config.maxRetries + 1);
  }

  lemma NothingOwed(config: Config, clock: int)
    ensures Owed(Created(config, clock)) == 0
  {
    assert GoingBack(map[]) == {};
  }

  /** Finitely many enqueues and interrupts make finitely many starts, whatever the attempts come to: an
      enqueue pays for maxRetries + 1 of them, interrupt for one and interruptAll for as many as may run at
      once. And the queue neither idles next to pending jobs nor forgets to wake up for scheduled ones. */
  lemma BoundedAndBusy(config: Config, clock: int, events: seq<Event>)
    ensures RefsOk(Created(config, clock))
    ensures var q := Run(Created(config, clock), events);
            && Starts(q.jobs) <= Enqueues(events) * (config.maxRetries + 1) + AllInterruptsAsked(events, config.concurrency)
            && Interrupts(q.jobs) <= AllInterruptsAsked(events, config.concurrency)
            && (forall r :: 0 <= r < |q.jobs| ==> q.jobs[r].starts <= config.maxRetries + 1 + q.jobs[r].interrupts)
            && Busy(q) && TimerOk(q)
  {
    hide Good, Refs, RefsOk, Run, TimerOk, Busy, Created, Starts, Interrupts, Enqueues, AllInterruptsAsked;
    var q0 := Created(config, clock);
    Reachable(config, clock, events);
    CreatedGood(config, clock);
    NothingOwed(config, clock);
    RunOwes(q0, events);
    var q := Run(q0, events);
    AcceptedAtMost(q0, events);
    StartsWithin(q, Enqueues(events));
    forall r | 0 <= r < |q.jobs| ensures q.jobs[r].starts <= config.maxRetries + 1 + q.jobs[r].interrupts {
      StartsBounded(q, r);
    }
  }
}
