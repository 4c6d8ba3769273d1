/** What becomes of the jobs of the send queue, and why (src/queue/MailQueue.ts). */
module MailQueueFate {
  import opened Text
  import opened MailQueue
  import opened MailQueueSafety
  import opened MailQueueOrder
  import opened MailQueueUrgency

  // ---- Reasons -----------------------------------------------------------------------

  /** The running attempt of the job comes to its end. */
  predicate AttemptOver(q: Queue, e: Event, r: nat) { e.AttemptEnds? && e.job == r && r in q.running }

  /** The mail was sent and nobody asked the job to stop. */
  predicate Delivered(q: Queue, e: Event, r: nat) { AttemptOver(q, e, r) && r !in q.reasons && e.outcome == Sent }

  /** The attempt failed, which an abort makes of any outcome. */
  predicate FailedAttempt(q: Queue, e: Event, r: nat) {
    AttemptOver(q, e, r) && if r in q.reasons then q.reasons[r] == Abort else e.outcome.Failed?
  }

  predicate Hopeless(q: Queue, e: Event, r: nat) {
    FailedAttempt(q, e, r) && r !in q.reasons && e.outcome == Failed(false)
  }

  /** It failed for good, or was the last attempt the policy allows. */
  predicate GivenUp(q: Queue, e: Event, r: nat)
    requires r < |q.jobs|
  {
    FailedAttempt(q, e, r) && (Hopeless(q, e, r) || q.jobs[r].attempts > q.config.maxRetries)
  }

  /** A cancelled attempt is over, or the job is cancelled while it waits. */
  predicate Withdrawn(q: Queue, e: Event, r: nat)
    requires r < |q.jobs|
  {
    || (AttemptOver(q, e, r) && r in q.reasons && q.reasons[r] == Cancel)
    || (q.jobs[r].status in {Pending, Scheduled} && (e == CancelAll || e == CancelJob(q.jobs[r].id)))
  }

  /** A job ends the step as a success, dead or cancelled exactly for these reasons. */
  predicate Judged(q: Queue, e: Event, q': Queue, r: nat)
    requires r < |q.jobs| && r < |q'.jobs|
  {
    && (q'.jobs[r].status == Success <==> Delivered(q, e, r))
    && (q'.jobs[r].status == Dead <==> GivenUp(q, e, r))
    && (q'.jobs[r].status == Cancelled <==> Withdrawn(q, e, r))
  }

  // ---- Ticking -----------------------------------------------------------------------

  lemma {:induction false} TickUnfinished(q: Queue, r: nat)
    requires Good(q) && RefsOk(q) && r < |q.jobs| && !IsFinished(q, r)
    ensures !IsFinished(Tick(q), r)
    decreases |Line(q.pending)|
  {
    hide Good, Refs, Line, StartNext;
    var t := FirstTier(q.pending, 0);
    if MayStart(q) && t < TIERS {
      FrontChanges(q, t);
      hide Tick;
      TickUnfinished(StartNext(q, t), r);
    }
  }

  /** Ticking finishes no job and revives none. */
  lemma TickJudged(q: Queue, e: Event, q1: Queue, r: nat)
    requires RefsOk(q1) && Good(q1) && r < |q.jobs| && r < |q1.jobs| && Judged(q, e, q1, r)
    ensures Judged(q, e, Tick(q1), r)
  {
    hide Good, Refs, Tick;
    if IsFinished(q1, r) { TickOthers(q1, r); } else { TickUnfinished(q1, r); }
    hide Delivered, GivenUp, Withdrawn;
  }

  lemma UnfinishedStatus(q: Queue, r: nat)
    requires Good(q) && r < |q.jobs| && !IsFinished(q, r)
    ensures r in q.running <==> q.jobs[r].status == Running
  {
    hide TiersOk, ScheduledOk, Limited, CountsOk, JobsOk, IdsApart;
    assert r in In(q.jobs, Running) - {} <==> q.jobs[r].status == Running;
  }

  // ---- Operations --------------------------------------------------------------------

  /** Nothing finishes in an operation that neither ends an attempt nor cancels. */
  lemma NothingEnds(q: Queue, e: Event, q1: Queue, r: nat)
    requires r < |q.jobs| && r < |q1.jobs| && !IsFinished(q, r) && !IsFinished(q1, r)
    requires !e.AttemptEnds? && !e.CancelJob? && !e.CancelAll?
    ensures Judged(q, e, q1, r)
  {
  }

  /** Why the job was asked to stop. */
  function Why(q: Queue, r: nat): Option<Reason> { if r in q.reasons then Some(q.reasons[r]) else None }

  function FailedJob(q: Queue, e: Event, r: nat): Job
    requires r < |q.jobs| && e.AttemptEnds?
  {
    var j := q.jobs[r].(errors := q.jobs[r].errors + 1);
    if GivenUp(q, e, r) then j.(status := Dead) else j.(status := Scheduled, notBefore := q.clock + e.delay)
  }

  lemma SettledAs(q: Queue, q0: Queue, e: Event, r: nat)
    requires r < |q.jobs| && AttemptOver(q, e, r) && q.jobs[r].status == Running
    requires q0.config == q.config && q0.clock == q.clock
    ensures var j := SettledJob(q0, q.jobs[r], Why(q, r), e.outcome, e.delay);
            && (j.status == Success <==> Delivered(q, e, r))
            && (j.status == Dead <==> GivenUp(q, e, r))
            && (j.status == Cancelled <==> Withdrawn(q, e, r))
            && (FailedAttempt(q, e, r) ==> j == FailedJob(q, e, r))
  {
  }

  lemma SettleJudged(q: Queue, e: Event, r: nat)
    requires Good(q) && RefsOk(q) && e.AttemptEnds? && e.job in q.running && r < |q.jobs| && !IsFinished(q, r)
    ensures var q1 := Settle(TakeRunning(q, e.job), e.job, Why(q, e.job), e.outcome, e.delay);
            && r < |q1.jobs| && Judged(q, e, q1, r) && (FailedAttempt(q, e, r) ==> q1.jobs[r] == FailedJob(q, e, r))
  {
    hide Good, Refs, Landed, SettledJob, Delivered, GivenUp, Withdrawn, FailedJob;
    UnfinishedStatus(q, r);
    RunningStatus(q, e.job);
    ClosedPaused(q);
    var q0 := TakeRunning(q, e.job);
    SettleLands(q0, e.job, Why(q, e.job), e.outcome, e.delay);
    LandedJobs(q0, e.job, SettledJob(q0, q.jobs[e.job], Why(q, e.job), e.outcome, e.delay),
               Settle(q0, e.job, Why(q, e.job), e.outcome, e.delay));
    hide Settle, TakeRunning, Why;
    if e.job == r { SettledAs(q, q0, e, r); } else { NotOver(q, e, r); }
  }

  lemma OneCancelled(q: Queue, q0: Queue, id: string, w: nat, r: nat)
    requires RefsOk(q0) && q0.jobs == q.jobs && r < |q.jobs| && !IsFinished(q, r)
    requires w < |q.jobs| && q.jobs[w].id == id && q.jobs[w].status in {Pending, Scheduled}
    requires q.jobs[r].id == id <==> r == w
    ensures Judged(q, CancelJob(id), MarkCancelled(q0, w), r)
  {
    hide Refs;
  }

  lemma CancelledJudged(q: Queue, id: string, r: nat)
    requires Good(q) && RefsOk(q) && r < |q.jobs| && !IsFinished(q, r)
    ensures Judged(q, CancelJob(id), CancelById(q, id), r)
  {
    hide Good, Refs, FindIn, TierOf, Cut, Stop, MarkCancelled, Armed, Judged;
    var k, t := FindIn(q.jobs, q.scheduled, id, 0), TierOf(q, id, 0);
    if k >= 0 {
      ScheduledStatus(q, k);
      ArmedKeeps(TakeScheduled(q, k));
      OneWithId(q, q.scheduled[k], r);
      OneCancelled(q, Armed(TakeScheduled(q, k)), id, q.scheduled[k], r);
    } else if t < TIERS {
      var i := FindIn(q.jobs, q.pending[t], id, 0);
      TierStatus(q, t, i);
      OneWithId(q, q.pending[t][i], r);
      OneCancelled(q, TakePending(q, t, i), id, q.pending[t][i], r);
    } else {
      StopJobs(q, RunningWith(q, id), Cancel);
      if q.jobs[r].id == id { FoundExact(q, id, r); }
      NoneCancelled(q, id, CancelById(q, id), r);
    }
  }

  lemma NoneCancelled(q: Queue, id: string, q': Queue, r: nat)
    requires q'.jobs == q.jobs && r < |q.jobs| && !IsFinished(q, r)
    requires q.jobs[r].id == id ==> q.jobs[r].status !in {Pending, Scheduled}
    ensures Judged(q, CancelJob(id), q', r)
  {
  }

  lemma StopJobs(q: Queue, who: set<nat>, reason: Reason)
    ensures Stop(q, who, reason).jobs == q.jobs
  {
  }

  lemma OneWithId(q: Queue, r: nat, r': nat)
    requires Good(q) && r < |q.jobs| && r' < |q.jobs| && !IsFinished(q, r) && !IsFinished(q, r')
    ensures q.jobs[r].id == q.jobs[r'].id <==> r == r'
  {
    hide Placed, Limited, CountsOk, JobsOk;
  }

  /** A waiting job is found by its id. */
  lemma FoundExact(q: Queue, id: string, r: nat)
    requires Good(q) && RefsOk(q) && r < |q.jobs| && q.jobs[r].id == id
    ensures q.jobs[r].status == Scheduled ==> FindIn(q.jobs, q.scheduled, id, 0) >= 0
    ensures q.jobs[r].status == Pending ==> TierOf(q, id, 0) < TIERS
  {
    hide Lists, Refs, IdsApart, JobsOk, CountsOk, FindIn, TierOf, Limited, Rank;
    if q.jobs[r].status == Scheduled && FindIn(q.jobs, q.scheduled, id, 0) < 0 {
      assert r in In(q.jobs, Scheduled) - {};
      Unlisted(q.jobs, q.scheduled, In(q.jobs, Scheduled) - {}, id, r);
    }
    if q.jobs[r].status == Pending && TierOf(q, id, 0) == TIERS {
      var t := Rank(q.jobs[r].priority);
      assert r in InTier(q.jobs, t) - {};
      NoTier(q, id, 0, t);
      Unlisted(q.jobs, q.pending[t], InTier(q.jobs, t) - {}, id, r);
    }
  }

  lemma AllCancelledJudged(q: Queue, r: nat)
    requires Good(q) && RefsOk(q) && r < |q.jobs| && !IsFinished(q, r)
    ensures Judged(q, CancelAll, CancelWaiting(q), r)
  {
    hide Good, Refs, WaitingRefs, Distinct, Emptied, CancelRefs;
    CancelRefsJobs(Emptied(q), WaitingRefs(q));
    WaitingAre(q);
    assert r in WaitingRefs(q) <==> q.jobs[r].status == Pending || q.jobs[r].status == Scheduled;
  }

  lemma WaitingAre(q: Queue)
    requires Good(q) && RefsOk(q)
    ensures forall r: nat :: r < |q.jobs| ==> (r in WaitingRefs(q) <==> q.jobs[r].status == Pending || q.jobs[r].status == Scheduled)
  {
    hide Limited, Refs, Placed, CountsOk, JobsOk, IdsApart, WaitingRefs, Distinct;
    WaitingListed(q);
  }

  // ---- Every step --------------------------------------------------------------------

  /** In every step a job becomes a success exactly when its attempt sent the mail and nobody had asked it to
      stop, dead exactly when its attempt failed for good or was the last one, and cancelled exactly when it
      was cancelled while it waited or before its attempt was over. */
  lemma StepJudged(q: Queue, e: Event, r: nat)
    requires Good(q) && RefsOk(q) && r < |q.jobs| && !IsFinished(q, r)
    ensures r < |Step(q, e).jobs| && Judged(q, e, Step(q, e), r)
  {
    hide Good, Refs, Judged, Settle, Known, Tick, CancelById, CancelWaiting, Stop, Armed, PromoteFrom, PutBack, PutScheduled;
    match e {
      case Enqueue(id, _, sendAt, _, _) =>
        EnqueueJudged(q, e, r);
      case AttemptEnds(job, o, delay) =>
        if job in q.running {
          var q1 := Settle(TakeRunning(q, job), job, Why(q, job), o, delay);
          PreparesEnds(q, job, o, delay);
          PreparedStarts(q, q1, r);
          SettleJudged(q, e, r);
          TickJudged(q, e, q1, r);
        } else {
          NotOver(q, e, r);
        }
      case TimerFires =>
        if q.timer.Some? {
          var q1 := Armed(PromoteFrom(q.(timer := None), 0));
          PreparesDue(q);
          PreparedStarts(q, q1, r);
          DueUnfinished(q, r);
          NothingEnds(q, e, q1, r);
          TickJudged(q, e, q1, r);
        } else {
          NothingEnds(q, e, q, r);
        }
      case CancelJob(id) => CancelledJudged(q, id, r);
      case CancelAll => AllCancelledJudged(q, r);
      case StopJob(id, reason) =>
        StopJobs(q, RunningWith(q, id), reason);
        NothingEnds(q, e, Step(q, e), r);
      case StopAll(reason) =>
        StopJobs(q, q.running, reason);
        NothingEnds(q, e, Step(q, e), r);
      case _ =>
        var q1 := Switched(q, e);
        SwitchedGood(q, e);
        NothingEnds(q, e, q1, r);
        TickJudged(q, e, q1, r);
    }
  }

  lemma NotOver(q: Queue, e: Event, r: nat)
    requires e.AttemptEnds? && !AttemptOver(q, e, r) && r < |q.jobs| && !IsFinished(q, r)
    ensures Judged(q, e, q, r)
    ensures !FailedAttempt(q, e, r) && !Delivered(q, e, r) && !GivenUp(q, e, r) && !Withdrawn(q, e, r)
  {
  }

  lemma DueUnfinished(q: Queue, r: nat)
    requires Good(q) && RefsOk(q) && r < |q.jobs| && !IsFinished(q, r)
    ensures r < |Armed(PromoteFrom(q.(timer := None), 0)).jobs| && !IsFinished(Armed(PromoteFrom(q.(timer := None), 0)), r)
  {
    hide Good, Refs, PromoteFrom, Armed;
    GoodTimer(q, None);
    PromoteFromUnfinished(q.(timer := None), 0, r);
    ArmedKeeps(PromoteFrom(q.(timer := None), 0));
  }

  lemma {:induction false} PromoteFromUnfinished(q: Queue, k: nat, r: nat)
    requires RefsOk(q) && r < |q.jobs| && !IsFinished(q, r)
    ensures !IsFinished(PromoteFrom(q, k), r)
    decreases |q.scheduled| - k
  {
    hide Refs, Promote;
    if k < |q.scheduled| {
      RefsAt(q.scheduled, |q.jobs|, k);
      if q.jobs[q.scheduled[k]].notBefore > q.clock {
        PromoteFromUnfinished(q, k + 1, r);
      } else {
        PromoteIs(q, k);
        PromoteFromUnfinished(Promote(q, k), k, r);
      }
    }
  }

  lemma EnqueueJudged(q: Queue, e: Event, r: nat)
    requires Good(q) && RefsOk(q) && e.Enqueue? && r < |q.jobs| && !IsFinished(q, r)
    ensures r < |Step(q, e).jobs| && Judged(q, e, Step(q, e), r)
  {
    hide Good, Refs, Judged, Known, Tick, Armed;
    if q.closed || Known(q, e.id) {
      NothingEnds(q, e, q, r);
    } else {
      var q0 := q.(jobs := q.jobs + [NewJob(e)]);
      PreparesAccepted(q, e);
      if e.sendAt.Some? && e.sendAt.value > q.clock {
        ArmedKeeps(PutScheduled(q0, |q.jobs|, NewJob(e), e.sendAt.value));
        NothingEnds(q, e, Step(q, e), r);
      } else {
        var q1 := PutBack(q0, |q.jobs|, NewJob(e));
        PreparedStarts(q, q1, r);
        NothingEnds(q, e, q1, r);
        TickJudged(q, e, q1, r);
      }
    }
  }

  /** In every run: what a step makes of each job, and that a finished job stays as it is. */
  lemma JudgedInEveryRun(config: Config, clock: int, events: seq<Event>, e: Event, r: nat)
    ensures RefsOk(Created(config, clock))
    ensures var q := Run(Created(config, clock), events);
            r < |q.jobs| ==>
              && r < |Step(q, e).jobs|
              && if IsFinished(q, r) then Step(q, e).jobs[r] == q.jobs[r] else Judged(q, e, Step(q, e), r)
  {
    hide Good, Refs, Run, Step, Busy, TimerOk, Judged, Created;
    Reachable(config, clock, events);
    var q := Run(Created(config, clock), events);
    if r < |q.jobs| {
      if IsFinished(q, r) { FinishedStays(q, e, r); } else { StepJudged(q, e, r); }
    }
  }

  /** A job that dies of an error worth another try has had every attempt the policy allows, and each failed. */
  lemma DiesAtTheEnd(q: Queue, e: Event, r: nat)
    requires Good(q) && RefsOk(q) && r < |q.jobs| && !IsFinished(q, r) && GivenUp(q, e, r) && !Hopeless(q, e, r)
    ensures q.jobs[r].attempts == q.config.maxRetries + 1 && q.jobs[r].errors == q.config.maxRetries
  {
    hide Placed, Limited, CountsOk, IdsApart;
    UnfinishedStatus(q, r);
    assert JobOk(q.jobs[r], q.config.maxRetries);
  }

  /** A failed attempt that is not the last is followed by another, the asked delay later at the earliest. */
  lemma RetriedLater(q: Queue, e: Event, r: nat)
    requires Good(q) && RefsOk(q) && r < |q.jobs| && !IsFinished(q, r) && FailedAttempt(q, e, r) && !GivenUp(q, e, r)
    ensures Step(q, e).jobs[r] == q.jobs[r].(errors := q.jobs[r].errors + 1, status := Scheduled, notBefore := q.clock + e.delay)
  {
    hide Good, Refs, Settle, Tick, Judged;
    var q1 := Settle(TakeRunning(q, r), r, Why(q, r), e.outcome, e.delay);
    PreparesEnds(q, r, e.outcome, e.delay);
    PreparedStarts(q, q1, r);
    SettleJudged(q, e, r);
    TickOthers(q1, r);
  }

  // ---- Stop requests -----------------------------------------------------------------

  /** What an event asks of a running job. */
  function StopAsked(q: Queue, e: Event, r: nat): Option<Reason>
    requires r < |q.jobs|
  {
    match e
    case StopAll(reason) => Some(reason)
    case StopJob(id, reason) => if id == q.jobs[r].id then Some(reason) else None
    case CancelJob(id) => if id == q.jobs[r].id then Some(Cancel) else None
    case _ => None
  }

  lemma FrontReasons(q: Queue, t: nat, r: nat)
    requires Good(q) && RefsOk(q) && t < TIERS && q.pending[t] != [] && r in q.running
    ensures r in StartNext(q, t).running && Why(StartNext(q, t), r) == Why(q, r)
  {
    hide Good, Refs, Cut, WaitFor, Asked, Armed;
    FrontOfTier(q, t);
    var w := q.pending[t][0];
    AskedTaken(q, t, 0, w);
    if WaitFor(q, w) > 0 {
      var q1 := Asked(TakePending(q, t, 0), w);
      var q2 := PutScheduled(q1, w, q1.jobs[w], q1.clock + WaitFor(q, w));
      ArmedKeeps(q2.(throttled := q2.throttled + {w}));
    }
  }

  lemma {:induction false} TickReasons(q: Queue, r: nat)
    requires Good(q) && RefsOk(q) && r in q.running
    ensures r in Tick(q).running && Why(Tick(q), r) == Why(q, r)
    decreases |Line(q.pending)|
  {
    hide Good, Refs, Line, StartNext, Why;
    var t := FirstTier(q.pending, 0);
    if MayStart(q) && t < TIERS {
      FrontChanges(q, t);
      FrontReasons(q, t, r);
      hide Tick;
      TickReasons(StartNext(q, t), r);
    }
  }

  lemma {:induction false} PromoteFromReasons(q: Queue, k: nat)
    requires RefsOk(q)
    ensures PromoteFrom(q, k).running == q.running && PromoteFrom(q, k).reasons == q.reasons
    decreases |q.scheduled| - k
  {
    hide Refs, Promote;
    if k < |q.scheduled| {
      RefsAt(q.scheduled, |q.jobs|, k);
      if q.jobs[q.scheduled[k]].notBefore > q.clock {
        PromoteFromReasons(q, k + 1);
      } else {
        PromoteIs(q, k);
        PromoteFromReasons(Promote(q, k), k);
      }
    }
  }

  lemma SettleReasons(q: Queue, w: nat, reason: Option<Reason>, o: Outcome, delay: nat, r: nat)
    requires RefsOk(q) && w < |q.jobs| && r != w && r in q.running
    ensures var q1 := Settle(q, w, reason, o, delay); r in q1.running && Why(q1, r) == Why(q, r)
  {
    hide Refs, Armed, Rank;
    var j := q.jobs[w].(errors := q.jobs[w].errors + 1);
    ArmedKeeps(PutScheduled(q, w, j, q.clock + delay));
  }

  lemma {:induction false} CancelRefsReasons(q: Queue, refs: seq<nat>)
    requires RefsOk(q) && Refs(refs, |q.jobs|)
    ensures CancelRefs(q, refs).running == q.running && CancelRefs(q, refs).reasons == q.reasons
    decreases |refs|
  {
    hide RefsOk;
    if refs != [] { CancelRefsReasons(MarkCancelled(q, refs[0]), refs[1..]); }
  }

  lemma SameWhy(q: Queue, q': Queue, r: nat)
    requires q'.reasons == q.reasons
    ensures Why(q', r) == Why(q, r)
  {
  }

  lemma StopWhy(q: Queue, who: set<nat>, reason: Reason, r: nat)
    ensures var q' := Stop(q, who, reason);
            q'.running == q.running && Why(q', r) == if Why(q, r) == None && r in who then Some(reason) else Why(q, r)
  {
  }

  lemma MarkedReasons(q: Queue, w: nat)
    requires RefsOk(q) && w < |q.jobs|
    ensures MarkCancelled(q, w).running == q.running && MarkCancelled(q, w).reasons == q.reasons
  {
  }

  lemma CancelJobReasons(q: Queue, id: string, r: nat)
    requires Good(q) && RefsOk(q) && r in q.running
    ensures r < |q.jobs| && var q' := CancelById(q, id);
            && r in q'.running
            && Why(q', r) == if Why(q, r) == None && id == q.jobs[r].id then Some(Cancel) else Why(q, r)
  {
    hide Good, Refs, FindIn, TierOf, Cut, Armed, MarkCancelled, Stop, Why;
    RunningStatus(q, r);
    var k, t := FindIn(q.jobs, q.scheduled, id, 0), TierOf(q, id, 0);
    if k >= 0 {
      ScheduledStatus(q, k);
      ArmedKeeps(TakeScheduled(q, k));
      OneWithId(q, q.scheduled[k], r);
      MarkedReasons(Armed(TakeScheduled(q, k)), q.scheduled[k]);
      SameWhy(q, CancelById(q, id), r);
    } else if t < TIERS {
      var i := FindIn(q.jobs, q.pending[t], id, 0);
      TierStatus(q, t, i);
      OneWithId(q, q.pending[t][i], r);
      MarkedReasons(TakePending(q, t, i), q.pending[t][i]);
      SameWhy(q, CancelById(q, id), r);
    } else {
      StopWhy(q, RunningWith(q, id), Cancel, r);
    }
  }

  lemma AcceptReasons(q: Queue, e: Event, r: nat)
    requires Good(q) && RefsOk(q) && e.Enqueue? && r in q.running
    ensures r in Accept(q, e).running && Why(Accept(q, e), r) == Why(q, r)
  {
    hide Good, Refs, Known, Tick, Armed, Rank;
    if !q.closed && !Known(q, e.id) {
      var q0 := q.(jobs := q.jobs + [NewJob(e)]);
      PreparesAccepted(q, e);
      if e.sendAt.Some? && e.sendAt.value > q.clock {
        ArmedKeeps(PutScheduled(q0, |q.jobs|, NewJob(e), e.sendAt.value));
      } else {
        PreparedStarts(q, PutBack(q0, |q.jobs|, NewJob(e)), r);
        TickReasons(PutBack(q0, |q.jobs|, NewJob(e)), r);
      }
    }
  }

  lemma EndsReasons(q: Queue, e: Event, r: nat)
    requires Good(q) && RefsOk(q) && e.AttemptEnds? && r in q.running && e.job != r
    ensures var q' := Ends(q, e.job, e.outcome, e.delay); r in q'.running && Why(q', r) == Why(q, r)
  {
    hide Good, Refs, Settle, Tick, Prepares;
    if e.job in q.running {
      var q0 := TakeRunning(q, e.job);
      var q1 := Settle(q0, e.job, Why(q, e.job), e.outcome, e.delay);
      PreparesEnds(q, e.job, e.outcome, e.delay);
      PreparedStarts(q, q1, r);
      SettleReasons(q0, e.job, Why(q, e.job), e.outcome, e.delay, r);
      TickReasons(q1, r);
    }
  }

  lemma DueReasons(q: Queue, r: nat)
    requires Good(q) && RefsOk(q) && r in q.running
    ensures r in PromoteDue(q).running && Why(PromoteDue(q), r) == Why(q, r)
  {
    hide Good, Refs, PromoteFrom, Tick, Armed, Prepares;
    var q0 := q.(timer := None);
    var q1 := Armed(PromoteFrom(q0, 0));
    PreparesDue(q);
    PreparedStarts(q, q1, r);
    PromoteFromReasons(q0, 0);
    ArmedKeeps(PromoteFrom(q0, 0));
    TickReasons(q1, r);
  }

  lemma CancelAllReasons(q: Queue)
    requires RefsOk(q)
    ensures CancelWaiting(q).running == q.running && CancelWaiting(q).reasons == q.reasons
  {
    hide Refs, Armed, CancelRefs;
    CancelRefsReasons(Emptied(q), WaitingRefs(q));
    RefsNone(q);
    ArmedKeeps(q.(pending := [[], [], [], []], scheduled := []));
  }

  /** A running job that goes on running is asked to stop by those events only that are meant for it, and the
      first request stands. */
  lemma FirstRequestStands(q: Queue, e: Event, r: nat)
    requires Good(q) && RefsOk(q) && r in q.running && !AttemptOver(q, e, r)
    ensures r < |q.jobs| && var q' := Step(q, e);
            r in q'.running && Why(q', r) == if Why(q, r) == None then StopAsked(q, e, r) else Why(q, r)
  {
    hide Good, Refs, Accept, Ends, PromoteDue, Tick, CancelById, CancelWaiting;
    RunningStatus(q, r);
    match e {
      case Enqueue(id, _, sendAt, _, _) =>
        AcceptReasons(q, e, r);
      case AttemptEnds(job, o, delay) =>
        EndsReasons(q, e, r);
      case TimerFires =>
        if q.timer.Some? { DueReasons(q, r); }
      case CancelJob(id) => CancelJobReasons(q, id, r);
      case CancelAll => CancelAllReasons(q);
      case StopJob(id, reason) =>
      case StopAll(reason) =>
      case _ =>
        SwitchedGood(q, e);
        TickReasons(Switched(q, e), r);
    }
  }
}
