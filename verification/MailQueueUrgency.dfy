/** Which jobs go first: the more urgent, and of those of one priority the one that came first
    (src/queue/MailQueue.ts). */
module MailQueueUrgency {
  import opened Text
  import opened MailQueue
  import opened MailQueueSafety
  import opened MailQueueOrder

  /** Critical before high before normal before low. */
  predicate MoreUrgent(a: Priority, b: Priority) {
    || (a == Critical && b != Critical)
    || (a == High && (b == Normal || b == Low))
    || (a == Normal && b == Low)
  }

  lemma UrgentRank(a: Priority, b: Priority)
    ensures MoreUrgent(a, b) <==> Rank(a) < Rank(b)
    ensures a == b <==> Rank(a) == Rank(b)
  {
  }

  // ---- One before the other ----------------------------------------------------------

  ghost predicate Ahead(s: seq<nat>, x: nat, y: nat) {
    exists i, j :: 0 <= i < j < |s| && s[i] == x && s[j] == y
  }

  lemma AheadConcat(a: seq<nat>, b: seq<nat>, x: nat, y: nat)
    ensures Ahead(a + b, x, y) <==> Ahead(a, x, y) || Ahead(b, x, y) || (x in a && y in b)
  {
    var s := a + b;
    if Ahead(s, x, y) {
      var i, j :| 0 <= i < j < |s| && s[i] == x && s[j] == y;
      if j < |a| {
        assert a[i] == x && a[j] == y;
      } else if |a| <= i {
        assert b[i - |a|] == x && b[j - |a|] == y;
      }
    }
    if i, j :| 0 <= i < j < |a| && a[i] == x && a[j] == y { assert s[i] == x && s[j] == y; }
    if i, j :| 0 <= i < j < |b| && b[i] == x && b[j] == y { assert s[i + |a|] == x && s[j + |a|] == y; }
    if x in a && y in b {
      var i :| 0 <= i < |a| && a[i] == x;
      var j :| 0 <= j < |b| && b[j] == y;
      assert s[i] == x && s[j + |a|] == y;
    }
  }

  /** `x` is pending before `y`. */
  ghost predicate Before(q: Queue, x: nat, y: nat)
    requires |q.pending| == TIERS
  {
    Ahead(Line(q.pending), x, y)
  }

  /** What `a` has of `x` and `y`, `b` has in the same order. */
  ghost predicate Keeps(a: seq<nat>, b: seq<nat>, x: nat, y: nat) {
    (x in a ==> x in b) && (y in a ==> y in b) && (Ahead(a, x, y) ==> Ahead(b, x, y))
  }

  lemma KeepsConcat(a: seq<nat>, b: seq<nat>, a': seq<nat>, b': seq<nat>, x: nat, y: nat)
    requires Keeps(a, a', x, y) && Keeps(b, b', x, y)
    ensures Keeps(a + b, a' + b', x, y)
  {
    hide Ahead;
    AheadConcat(a, b, x, y);
    AheadConcat(a', b', x, y);
  }

  lemma LineKeeps(p: seq<seq<nat>>, p': seq<seq<nat>>, x: nat, y: nat)
    requires |p| == TIERS && |p'| == TIERS && forall t :: 0 <= t < TIERS ==> Keeps(p[t], p'[t], x, y)
    ensures Keeps(Line(p), Line(p'), x, y)
  {
    hide Keeps;
    KeepsConcat(p[0], p[1], p'[0], p'[1], x, y);
    KeepsConcat(p[0] + p[1], p[2], p'[0] + p'[1], p'[2], x, y);
    KeepsConcat(p[0] + p[1] + p[2], p[3], p'[0] + p'[1] + p'[2], p'[3], x, y);
  }

  lemma KeepsSelf(a: seq<nat>, x: nat, y: nat)
    ensures Keeps(a, a, x, y)
  {
  }

  /** Jobs may come before and after. */
  lemma KeepsAround(front: seq<nat>, a: seq<nat>, back: seq<nat>, x: nat, y: nat)
    ensures Keeps(a, front + a + back, x, y)
  {
    hide Ahead;
    AheadConcat(front, a, x, y);
    AheadConcat(front + a, back, x, y);
  }

  lemma KeepsCut(a: seq<nat>, k: nat, x: nat, y: nat)
    requires k < |a| && a[k] != x && a[k] != y
    ensures Keeps(a, Cut(a, k), x, y)
  {
    hide Ahead;
    assert a == a[..k] + ([a[k]] + a[k + 1..]);
    AheadConcat(a[..k], [a[k]] + a[k + 1..], x, y);
    AheadConcat([a[k]], a[k + 1..], x, y);
    AheadConcat(a[..k], a[k + 1..], x, y);
    AheadOne(a[k], x, y);
  }

  lemma AheadOne(z: nat, x: nat, y: nat)
    ensures !Ahead([z], x, y)
  {
  }

  lemma AheadTiers(p: seq<seq<nat>>, s: nat, t: nat, x: nat, y: nat)
    requires |p| == TIERS && s < t < TIERS && x in p[s] && y in p[t]
    ensures Ahead(Line(p), x, y)
  {
    hide Ahead;
    AheadConcat(p[0], p[1], x, y);
    AheadConcat(p[0] + p[1], p[2], x, y);
    AheadConcat(p[0] + p[1] + p[2], p[3], x, y);
  }

  lemma AheadTier(p: seq<seq<nat>>, t: nat, x: nat, y: nat)
    requires |p| == TIERS && t < TIERS && Ahead(p[t], x, y)
    ensures Ahead(Line(p), x, y)
  {
    hide Ahead;
    AheadConcat(p[0], p[1], x, y);
    AheadConcat(p[0] + p[1], p[2], x, y);
    AheadConcat(p[0] + p[1] + p[2], p[3], x, y);
  }

  lemma AheadOnce(s: seq<nat>, x: nat, y: nat)
    requires Distinct(s) && Ahead(s, x, y)
    ensures !Ahead(s, y, x) && x != y
  {
  }

  // ---- The line is in order of urgency -----------------------------------------------

  predicate IsPending(q: Queue, r: nat) { r < |q.jobs| && q.jobs[r].status == Pending }

  predicate IsFinished(q: Queue, r: nat) { r < |q.jobs| && !Unfinished(q.jobs[r].status) }

  lemma PendingInTier(q: Queue, r: nat)
    requires Good(q) && IsPending(q, r)
    ensures |q.pending| == TIERS && r in q.pending[Rank(q.jobs[r].priority)]
  {
    hide Limited, Refs, CountsOk, JobsOk, IdsApart, Rank, Distinct;
    assert r in InTier(q.jobs, Rank(q.jobs[r].priority)) - {};
  }

  lemma LineIsPending(q: Queue)
    requires Good(q) && RefsOk(q)
    ensures Distinct(Line(q.pending)) && forall r :: r in Line(q.pending) <==> IsPending(q, r)
  {
    hide TiersOk, ScheduledOk, Limited, Refs, CountsOk, JobsOk, IdsApart, Line, Distinct;
    LineListed(q);
  }

  /** More urgent jobs stand before less urgent ones. */
  lemma UrgentBefore(q: Queue, x: nat, y: nat)
    requires Good(q) && RefsOk(q) && IsPending(q, x) && IsPending(q, y)
    requires MoreUrgent(q.jobs[x].priority, q.jobs[y].priority)
    ensures Before(q, x, y)
  {
    hide Good, Refs, Line, Ahead, MoreUrgent, Rank;
    PendingInTier(q, x);
    PendingInTier(q, y);
    UrgentRank(q.jobs[x].priority, q.jobs[y].priority);
    AheadTiers(q.pending, Rank(q.jobs[x].priority), Rank(q.jobs[y].priority), x, y);
  }

  lemma BeforeBoth(q: Queue, x: nat, y: nat)
    requires Good(q) && RefsOk(q) && Before(q, x, y)
    ensures IsPending(q, x) && IsPending(q, y) && x != y
  {
    hide Good, Refs, Line, Distinct;
    LineIsPending(q);
    var line := Line(q.pending);
    var i, j :| 0 <= i < j < |line| && line[i] == x && line[j] == y;
    assert line[i] in line && line[j] in line;
    AheadOnce(line, x, y);
  }

  predicate ByUrgency(jobs: seq<Job>, refs: seq<nat>)
    requires Refs(refs, |jobs|)
  {
    forall i, j :: 0 <= i < j < |refs| ==> !MoreUrgent(jobs[refs[j]].priority, jobs[refs[i]].priority)
  }

  lemma LineByUrgency(q: Queue)
    requires Good(q) && RefsOk(q)
    ensures Refs(Line(q.pending), |q.jobs|) && ByUrgency(q.jobs, Line(q.pending))
  {
    hide Good, Line, MoreUrgent, Distinct;
    LineRefs(q);
    LineIsPending(q);
    var line := Line(q.pending);
    forall i, j | 0 <= i < j < |line| ensures !MoreUrgent(q.jobs[line[j]].priority, q.jobs[line[i]].priority) {
      var x, y := line[i], line[j];
      assert x in line && y in line;
      assert Ahead(line, x, y);
      AheadOnce(line, x, y);
      if MoreUrgent(q.jobs[y].priority, q.jobs[x].priority) { UrgentBefore(q, y, x); }
    }
  }

  // ---- A tick ------------------------------------------------------------------------

  /** The first of the line changes, no other job does. */
  lemma FrontChanges(q: Queue, t: nat)
    requires Good(q) && RefsOk(q) && MayStart(q) && t == FirstTier(q.pending, 0) && t < TIERS
    ensures var q', line := StartNext(q, t), Line(q.pending);
            && Good(q') && Tick(q) == Tick(q') && line != [] && line == [line[0]] + Line(q'.pending)
            && IsPending(q, line[0]) && !IsPending(q', line[0]) && !IsFinished(q', line[0])
            && forall r :: 0 <= r < |q.jobs| && r != line[0] ==> q'.jobs[r] == q.jobs[r]
  {
    hide Good, Refs, Line, Cut, WaitFor, Asked, Throttle;
    FrontOfTier(q, t);
    FrontOfLine(q, t);
    LineCut(q.pending, t);
    var r := q.pending[t][0];
    AskedTaken(q, t, 0, r);
    if WaitFor(q, r) > 0 { ThrottleKeeps(Asked(TakePending(q, t, 0), r), r, WaitFor(q, r)); }
    hide Tick;
  }

  /** A tick changes pending jobs only. */
  lemma {:induction false} TickOthers(q: Queue, r: nat)
    requires Good(q) && RefsOk(q) && r < |q.jobs| && !IsPending(q, r)
    ensures Tick(q).jobs[r] == q.jobs[r]
    decreases |Line(q.pending)|
  {
    hide Good, Refs, Line, StartNext;
    var t := FirstTier(q.pending, 0);
    if MayStart(q) && t < TIERS {
      FrontChanges(q, t);
      hide Tick;
      TickOthers(StartNext(q, t), r);
    }
  }

  lemma AheadFront(z: nat, rest: seq<nat>, x: nat, y: nat)
    requires Ahead([z] + rest, x, y) && Distinct([z] + rest)
    ensures z != y && (z != x ==> Ahead(rest, x, y))
  {
    AheadConcat([z], rest, x, y);
    AheadOne(z, x, y);
    assert y in rest by { if i, j :| 0 <= i < j < |rest| && rest[i] == x && rest[j] == y {} }
    var s := [z] + rest;
    var j :| 0 <= j < |rest| && rest[j] == y;
    assert s[0] == z && s[j + 1] == y && (x in [z] ==> x == z);
  }

  /** While the first of two pending jobs is not served, the other is not touched. */
  lemma {:induction false} TickAhead(q: Queue, x: nat, y: nat)
    requires Good(q) && RefsOk(q) && Before(q, x, y)
    ensures x < |q.jobs| && y < |q.jobs|
    ensures IsPending(Tick(q), x) ==> Tick(q).jobs[y] == q.jobs[y] && Before(Tick(q), x, y)
    decreases |Line(q.pending)|
  {
    hide Good, Refs, Line, StartNext, Ahead, Distinct;
    BeforeBoth(q, x, y);
    var t := FirstTier(q.pending, 0);
    if MayStart(q) && t < TIERS {
      FrontChanges(q, t);
      var q1, z := StartNext(q, t), Line(q.pending)[0];
      LineIsPending(q);
      AheadFront(z, Line(q1.pending), x, y);
      hide Tick;
      if z == x {
        TickOthers(q1, x);
      } else {
        TickAhead(q1, x, y);
      }
    }
  }

  // ---- A step ------------------------------------------------------------------------

  /** `q1` is the queue after an operation did its part, before it ticks. */
  ghost predicate Prepares(q: Queue, q1: Queue)
    requires RefsOk(q) && RefsOk(q1)
  {
    && Good(q1) && |q.jobs| <= |q1.jobs|
    && (forall r :: 0 <= r < |q.jobs| ==> q1.jobs[r].starts == q.jobs[r].starts)
    && (forall r :: |q.jobs| <= r < |q1.jobs| ==> q1.jobs[r].starts == 0)
    && (forall x: nat :: IsPending(q, x) ==> q1.jobs[x] == q.jobs[x] || q1.jobs[x].status == Cancelled)
    && (forall x: nat :: IsFinished(q, x) ==> q1.jobs[x] == q.jobs[x])
    && (forall x: nat, y: nat :: Before(q, x, y) && IsPending(q1, x) && IsPending(q1, y) ==> Before(q1, x, y))
  }

  lemma PreparesKept(q: Queue, q1: Queue)
    requires RefsOk(q) && RefsOk(q1) && Good(q1)
    requires q1.jobs == q.jobs && q1.pending == q.pending
    ensures Prepares(q, q1)
  {
    hide Good, Refs, Line;
  }

  /** No tier lost a job but cancelled ones, and each has the others in the same order. */
  lemma PreparesTiers(q: Queue, q1: Queue)
    requires Good(q) && RefsOk(q) && RefsOk(q1) && Good(q1) && |q.jobs| <= |q1.jobs|
    requires forall r :: 0 <= r < |q.jobs| ==> q1.jobs[r].starts == q.jobs[r].starts
    requires forall r :: |q.jobs| <= r < |q1.jobs| ==> q1.jobs[r].starts == 0
    requires forall x: nat :: IsPending(q, x) ==> q1.jobs[x] == q.jobs[x] || q1.jobs[x].status == Cancelled
    requires forall x: nat :: IsFinished(q, x) ==> q1.jobs[x] == q.jobs[x]
    requires forall t: nat, x: nat, y: nat :: t < TIERS && IsPending(q1, x) && IsPending(q1, y)
                                              ==> Keeps(q.pending[t], q1.pending[t], x, y)
    ensures Prepares(q, q1)
  {
    hide Good, Refs, Line, Keeps;
    forall x: nat, y: nat | Before(q, x, y) && IsPending(q1, x) && IsPending(q1, y) ensures Before(q1, x, y) {
      LineKeeps(q.pending, q1.pending, x, y);
      KeepsAhead(Line(q.pending), Line(q1.pending), x, y);
    }
  }

  lemma KeepsAhead(a: seq<nat>, b: seq<nat>, x: nat, y: nat)
    requires Keeps(a, b, x, y) && Ahead(a, x, y)
    ensures Ahead(b, x, y)
  {
  }

  /** One job that was not pending joins a tier, or none does. */
  lemma PreparesLanded(q: Queue, q0: Queue, r: nat, j: Job, q1: Queue)
    requires Good(q) && RefsOk(q) && RefsOk(q1) && Good(q1)
    requires |q.jobs| <= |q0.jobs| && q0.pending == q.pending && r < |q0.jobs| && Landed(q0, r, j, q1)
    requires !IsPending(q, r) && !IsFinished(q, r) && q0.jobs[..|q.jobs|] == q.jobs
    requires j.starts == (if r < |q.jobs| then q.jobs[r].starts else 0)
    requires |q0.jobs| <= |q.jobs| + (if r == |q.jobs| then 1 else 0)
    ensures Prepares(q, q1)
  {
    hide Good, Refs, Line, Keeps, Rank;
    forall t: nat, x: nat, y: nat | t < TIERS && IsPending(q1, x) && IsPending(q1, y)
      ensures Keeps(q.pending[t], q1.pending[t], x, y)
    {
      KeepsSelf(q.pending[t], x, y);
      KeepsAround([r], q.pending[t], [], x, y);
      KeepsAround([], q.pending[t], [r], x, y);
      assert [r] + q.pending[t] + [] == [r] + q.pending[t];
      assert [] + q.pending[t] + [r] == q.pending[t] + [r];
    }
    forall i | 0 <= i < |q.jobs| ensures q0.jobs[i] == q.jobs[i] {
      assert q0.jobs[i] == q0.jobs[..|q.jobs|][i];
    }
    PreparesTiers(q, q1);
  }

  lemma PreparesAccepted(q: Queue, e: Event)
    requires Good(q) && RefsOk(q) && e.Enqueue? && !q.closed && !Known(q, e.id)
    ensures var q0 := q.(jobs := q.jobs + [NewJob(e)]);
            && RefsOk(q0) && Prepares(q, PutBack(q0, |q.jobs|, NewJob(e)))
            && (e.sendAt.Some? ==> Prepares(q, Armed(PutScheduled(q0, |q.jobs|, NewJob(e), e.sendAt.value))))
  {
    hide Good, Core, Limited, Refs, Known, Tick, Armed, Rank, Prepares;
    var r, j := |q.jobs|, NewJob(e);
    var q0 := q.(jobs := q.jobs + [j]);
    AppendGood(q, e);
    ClosedPaused(q);
    NewJobGood(q0, r, j, 0);
    PreparesLanded(q, q0, r, j, PutBack(q0, r, j));
    if e.sendAt.Some? {
      var at := e.sendAt.value;
      NewJobGood(q0, r, j, at);
      var q1 := PutScheduled(q0, r, j, at);
      ArmedGood(q1);
      ArmedKeeps(q1);
      PreparesLanded(q, q0, r, j.(status := Scheduled, notBefore := at), Armed(q1));
    }
  }

  lemma ClosedPaused(q: Queue)
    requires Good(q)
    ensures q.closed ==> q.paused
  {
    hide Placed, Limited, CountsOk, JobsOk, IdsApart;
  }

  lemma PreparesEnds(q: Queue, r: nat, o: Outcome, delay: nat)
    requires Good(q) && RefsOk(q) && r in q.running
    ensures var reason := if r in q.reasons then Some(q.reasons[r]) else None;
            r < |q.jobs| && Prepares(q, Settle(TakeRunning(q, r), r, reason, o, delay))
  {
    hide Core, LimitOk, Refs, Settle, Landed, Prepares;
    var reason := if r in q.reasons then Some(q.reasons[r]) else None;
    var q0 := TakeRunning(q, r);
    TakeRunningCore(q, {}, r);
    assert {} + {r} == {r};
    SettleGood(q0, r, reason, o, delay);
    ClosedPaused(q);
    RunningStatus(q, r);
    SettleLands(q0, r, reason, o, delay);
    assert q0.jobs[..|q.jobs|] == q.jobs;
    PreparesLanded(q, q0, r, SettledJob(q0, q.jobs[r], reason, o, delay), Settle(q0, r, reason, o, delay));
  }

  lemma RunningStatus(q: Queue, r: nat)
    requires Good(q) && r in q.running
    ensures r < |q.jobs| && q.jobs[r].status == Running && r !in q.throttled
  {
    hide TiersOk, ScheduledOk, Limited, CountsOk, JobsOk, IdsApart;
    assert r in In(q.jobs, Running) - {};
    NotThrottled(q, r);
  }

  lemma ScheduledStatus(q: Queue, k: nat)
    requires Good(q) && RefsOk(q) && k < |q.scheduled|
    ensures q.jobs[q.scheduled[k]].status == Scheduled
  {
    hide TiersOk, RunningOk, Limited, CountsOk, JobsOk, IdsApart, Refs, Distinct;
    assert q.scheduled[k] in q.scheduled;
    assert q.scheduled[k] in In(q.jobs, Scheduled) - {};
  }

  /** Promotion leaves the pending jobs alone and starts none. */
  lemma {:induction false} PromoteFromJobs(q: Queue, k: nat)
    requires Good(q) && RefsOk(q)
    ensures var q' := PromoteFrom(q, k);
            forall r :: 0 <= r < |q.jobs| ==>
              q'.jobs[r].starts == q.jobs[r].starts && (IsPending(q, r) || IsFinished(q, r) ==> q'.jobs[r] == q.jobs[r])
    decreases |q.scheduled| - k
  {
    hide Good, Refs, Promote;
    if k < |q.scheduled| {
      RefsAt(q.scheduled, |q.jobs|, k);
      if q.jobs[q.scheduled[k]].notBefore > q.clock {
        PromoteFromJobs(q, k + 1);
      } else {
        PromoteGood(q, k);
        PromoteIs(q, k);
        ScheduledStatus(q, k);
        PromoteFromJobs(Promote(q, k), k);
      }
    }
  }

  lemma PreparesDue(q: Queue)
    requires Good(q) && RefsOk(q)
    ensures Prepares(q, Armed(PromoteFrom(q.(timer := None), 0)))
  {
    hide Good, Refs, PromoteFrom, Prepares, Keeps, Reversed, Due, NotDue, Distinct;
    var q0 := q.(timer := None);
    GoodTimer(q, None);
    ScheduledOnce(q0);
    PromoteFromGood(q0, 0);
    PromoteFromJobs(q0, 0);
    ArmedGood(PromoteFrom(q0, 0));
    var q1 := Armed(PromoteFrom(q0, 0));
    ArmedKeeps(PromoteFrom(q0, 0));
    hide Armed;
    forall t: nat, x: nat, y: nat | t < TIERS && IsPending(q1, x) && IsPending(q1, y)
      ensures Keeps(q.pending[t], q1.pending[t], x, y)
    {
      PromotionOrder(q0, 0, t);
      var refs := q0.scheduled[0..];
      KeepsAround(Reversed(Due(q0, t, true, refs)), q.pending[t], Due(q0, t, false, refs), x, y);
    }
    PreparesTiers(q, q1);
  }

  lemma TierStatus(q: Queue, t: nat, i: nat)
    requires Good(q) && RefsOk(q) && t < TIERS && i < |q.pending[t]|
    ensures IsPending(q, q.pending[t][i])
  {
    hide ScheduledOk, RunningOk, Limited, CountsOk, JobsOk, IdsApart, Refs, Distinct, Rank;
    assert q.pending[t][i] in q.pending[t];
    assert q.pending[t][i] in InTier(q.jobs, t) - {};
  }

  lemma PreparesCancelled(q: Queue, q0: Queue, r: nat)
    requires Good(q) && RefsOk(q) && RefsOk(q0) && q0.jobs == q.jobs && r < |q.jobs| && !IsFinished(q, r)
    requires Good(MarkCancelled(q0, r))
    requires forall t: nat, x: nat, y: nat :: t < TIERS && x != r && y != r ==> Keeps(q.pending[t], q0.pending[t], x, y)
    ensures Prepares(q, MarkCancelled(q0, r))
  {
    hide Good, Refs, Prepares, Keeps;
    PreparesTiers(q, MarkCancelled(q0, r));
  }

  lemma PreparesCancelJob(q: Queue, id: string)
    requires Good(q) && RefsOk(q)
    ensures Prepares(q, CancelById(q, id))
  {
    hide Good, Refs, Prepares, Keeps, MarkCancelled, FindIn, TierOf, Cut;
    CancelByIdGood(q, id);
    var k, t := FindIn(q.jobs, q.scheduled, id, 0), TierOf(q, id, 0);
    if k >= 0 {
      var q0 := Armed(TakeScheduled(q, k));
      ArmedKeeps(TakeScheduled(q, k));
      forall u: nat, x: nat, y: nat | u < TIERS ensures Keeps(q.pending[u], q0.pending[u], x, y) {
        KeepsSelf(q.pending[u], x, y);
      }
      hide Armed;
      ScheduledStatus(q, k);
      PreparesCancelled(q, q0, q.scheduled[k]);
    } else if t < TIERS {
      var i := FindIn(q.jobs, q.pending[t], id, 0);
      var q0, r := TakePending(q, t, i), q.pending[t][i];
      forall u: nat, x: nat, y: nat | u < TIERS && x != r && y != r ensures Keeps(q.pending[u], q0.pending[u], x, y) {
        KeepsSelf(q.pending[u], x, y);
        KeepsCut(q.pending[t], i, x, y);
      }
      TierStatus(q, t, i);
      PreparesCancelled(q, q0, r);
    } else {
      PreparesKept(q, CancelById(q, id));
    }
  }

  lemma {:induction false} CancelRefsJobs(q: Queue, refs: seq<nat>)
    requires RefsOk(q) && Refs(refs, |q.jobs|)
    ensures var q' := CancelRefs(q, refs);
            && q'.pending == q.pending
            && forall r :: 0 <= r < |q.jobs| ==>
                 q'.jobs[r] == if r in refs then q.jobs[r].(status := Cancelled) else q.jobs[r]
    decreases |refs|
  {
    hide RefsOk;
    if refs != [] {
      CancelRefsJobs(MarkCancelled(q, refs[0]), refs[1..]);
    }
  }

  lemma PreparesCancelAll(q: Queue)
    requires Good(q) && RefsOk(q)
    ensures Prepares(q, CancelWaiting(q))
  {
    hide Good, Refs, Prepares, Keeps, Line, Armed, CancelRefs;
    CancelWaitingGood(q);
    CancelRefsJobs(Emptied(q), WaitingRefs(q));
    LineIsPending(q);
    var q1 := CancelWaiting(q);
    EmptiedTiers(q);
    NonePending(q1);
    assert forall x: nat :: IsPending(q, x) ==> x in Line(q.pending);
    WaitingUnfinished(q);
    PreparesTiers(q, q1);
  }

  lemma NonePending(q: Queue)
    requires Good(q) && RefsOk(q) && Line(q.pending) == []
    ensures forall x: nat :: !IsPending(q, x)
  {
    hide Good, Refs, Line;
    LineIsPending(q);
    assert forall x: nat :: x !in Line(q.pending);
  }

  lemma WaitingUnfinished(q: Queue)
    requires Good(q) && RefsOk(q)
    ensures forall r :: r in WaitingRefs(q) ==> !IsFinished(q, r)
  {
    hide Limited, Refs, Placed, CountsOk, JobsOk, IdsApart, WaitingRefs, Distinct;
    WaitingListed(q);
  }

  lemma EmptiedTiers(q: Queue)
    requires RefsOk(q)
    ensures Line(Emptied(q).pending) == []
  {
    hide Refs;
    var pending: seq<seq<nat>> := [[], [], [], []];
    var q0 := q.(pending := pending, scheduled := []);
    RefsNone(q);
    ArmedKeeps(q0);
    hide Armed;
  }

  /** Every operation does its part and then ticks, or does not tick. */
  lemma StepPrepared(q: Queue, e: Event) returns (q1: Queue)
    requires Good(q) && RefsOk(q)
    ensures RefsOk(q1) && Prepares(q, q1) && (Step(q, e) == q1 || Step(q, e) == Tick(q1))
  {
    hide Good, Refs, Prepares, Settle, Known, Tick, CancelById, CancelWaiting, Stop, Armed, PromoteFrom, PutBack, PutScheduled;
    match e {
      case Enqueue(id, _, sendAt, _, _) =>
        if q.closed || Known(q, id) {
          q1 := q;
          PreparesKept(q, q1);
        } else {
          PreparesAccepted(q, e);
          var q0 := q.(jobs := q.jobs + [NewJob(e)]);
          if sendAt.Some? && sendAt.value > q.clock {
            q1 := Armed(PutScheduled(q0, |q.jobs|, NewJob(e), sendAt.value));
          } else {
            q1 := PutBack(q0, |q.jobs|, NewJob(e));
          }
        }
      case AttemptEnds(r, o, delay) =>
        if r in q.running {
          PreparesEnds(q, r, o, delay);
          q1 := Settle(TakeRunning(q, r), r, if r in q.reasons then Some(q.reasons[r]) else None, o, delay);
        } else {
          q1 := q;
          PreparesKept(q, q1);
        }
      case TimerFires =>
        if q.timer.Some? {
          PreparesDue(q);
          q1 := Armed(PromoteFrom(q.(timer := None), 0));
        } else {
          q1 := q;
          PreparesKept(q, q1);
        }
      case CancelJob(id) =>
        q1 := CancelById(q, id);
        PreparesCancelJob(q, id);
      case CancelAll =>
        q1 := CancelWaiting(q);
        PreparesCancelAll(q);
      case StopJob(id, reason) => q1 := PreparesStop(q, RunningWith(q, id), reason);
      case StopAll(reason) => q1 := PreparesStop(q, q.running, reason);
      case _ =>
        q1 := Switched(q, e);
        SwitchedGood(q, e);
        PreparesKept(q, q1);
    }
  }

  lemma PreparesStop(q: Queue, who: set<nat>, reason: Reason) returns (q1: Queue)
    requires Good(q) && RefsOk(q) && who <= q.running
    ensures q1 == Stop(q, who, reason) && RefsOk(q1) && Prepares(q, q1)
  {
    q1 := Stop(q, who, reason);
    StopGood(q, who, reason);
    hide Good, Refs, Prepares;
    PreparesKept(q, q1);
  }

  // ---- Nobody is overtaken -----------------------------------------------------------

  /** The number of attempts of a job that began; none of a job not yet accepted. */
  function StartsOf(q: Queue, r: nat): nat {
    if r < |q.jobs| then q.jobs[r].starts else 0
  }

  /** Whenever a tick begins an attempt, no more urgent job is left pending. */
  lemma TickUrgent(q: Queue, x: nat, r: nat)
    requires Good(q) && RefsOk(q) && r < |q.jobs|
    requires IsPending(Tick(q), x) && Tick(q).jobs[r].starts != q.jobs[r].starts
    ensures IsPending(q, x) && !MoreUrgent(Tick(q).jobs[x].priority, Tick(q).jobs[r].priority)
  {
    hide Good, Refs, Line, Tick, Ahead;
    if !IsPending(q, x) { TickOthers(q, x); }
    if !IsPending(q, r) { TickOthers(q, r); }
    TickPriorities(q);
    if MoreUrgent(q.jobs[x].priority, q.jobs[r].priority) {
      UrgentBefore(q, x, r);
      TickAhead(q, x, r);
    }
  }

  lemma {:induction false} TickPriorities(q: Queue)
    requires Good(q) && RefsOk(q)
    ensures forall r :: 0 <= r < |q.jobs| ==> Tick(q).jobs[r].priority == q.jobs[r].priority
    decreases |Line(q.pending)|
  {
    hide Good, Refs, Line;
    var t := FirstTier(q.pending, 0);
    if MayStart(q) && t < TIERS {
      FrontChanges(q, t);
      FrontPriority(q, t);
      hide Tick, StartNext;
      TickPriorities(StartNext(q, t));
    }
  }

  lemma FrontPriority(q: Queue, t: nat)
    requires Good(q) && RefsOk(q) && t < TIERS && q.pending[t] != []
    ensures forall r :: 0 <= r < |q.jobs| ==> StartNext(q, t).jobs[r].priority == q.jobs[r].priority
  {
    hide Good, Refs, Cut, WaitFor, Asked, Throttle;
    FrontOfTier(q, t);
    var r := q.pending[t][0];
    AskedTaken(q, t, 0, r);
    if WaitFor(q, r) > 0 { ThrottleKeeps(Asked(TakePending(q, t, 0), r), r, WaitFor(q, r)); }
  }

  /** In every run: when an operation begins an attempt, no more urgent job is left pending. */
  lemma UrgentFirst(config: Config, clock: int, events: seq<Event>, e: Event, r: nat, x: nat)
    ensures RefsOk(Created(config, clock))
    ensures var q := Run(Created(config, clock), events);
            var q' := Step(q, e);
            StartsOf(q', r) != StartsOf(q, r) && IsPending(q', x) ==>
              r < |q'.jobs| && !MoreUrgent(q'.jobs[x].priority, q'.jobs[r].priority)
  {
    hide Good, Refs, Run, Step, Tick, Busy, TimerOk, MoreUrgent, Line, Created;
    Reachable(config, clock, events);
    var q := Run(Created(config, clock), events);
    var q1 := StepPrepared(q, e);
    PreparedStarts(q, q1, r);
    if Step(q, e) == Tick(q1) && StartsOf(Tick(q1), r) != StartsOf(q, r) && IsPending(Tick(q1), x) {
      TickUrgent(q1, x, r);
    }
  }

  lemma PreparedStarts(q: Queue, q1: Queue, r: nat)
    requires RefsOk(q) && RefsOk(q1) && Prepares(q, q1)
    ensures Good(q1) && StartsOf(q1, r) == StartsOf(q, r)
  {
    hide Good, Refs, Line, Ahead;
  }

  /** While the first of two pending jobs stays pending, the other stays behind it and begins no attempt. */
  lemma StepAhead(q: Queue, e: Event, x: nat, y: nat)
    requires Good(q) && RefsOk(q) && Before(q, x, y)
    ensures var q' := Step(q, e);
            IsPending(q', x) ==>
              && StartsOf(q', y) == StartsOf(q, y) && y < |q'.jobs|
              && (q'.jobs[y].status == Cancelled || Before(q', x, y))
  {
    hide Good, Refs, Step, Tick, Line, Ahead;
    BeforeBoth(q, x, y);
    var q1 := StepPrepared(q, e);
    if IsPending(Step(q, e), x) {
      if Step(q, e) == Tick(q1) && !IsPending(q1, x) { TickOthers(q1, x); }
      if q1.jobs[y].status == Cancelled {
        if Step(q, e) == Tick(q1) { TickOthers(q1, y); }
      } else if Step(q, e) == Tick(q1) {
        TickAhead(q1, x, y);
      }
    }
  }

  /** `x` is pending now and after each of the events. */
  predicate StaysPending(q: Queue, events: seq<Event>, x: nat)
    requires RefsOk(q)
    decreases |events|
  {
    IsPending(q, x) && (events != [] ==> StaysPending(Step(q, events[0]), events[1..], x))
  }

  /** A finished job never changes. */
  lemma FinishedStays(q: Queue, e: Event, y: nat)
    requires Good(q) && RefsOk(q) && IsFinished(q, y)
    ensures y < |Step(q, e).jobs| && Step(q, e).jobs[y] == q.jobs[y]
  {
    hide Good, Refs, Step, Tick, Line, Ahead;
    var q1 := StepPrepared(q, e);
    TickOthers(q1, y);
  }

  lemma {:induction false} FinishedForGood(q: Queue, events: seq<Event>, y: nat)
    requires Good(q) && RefsOk(q) && IsFinished(q, y)
    ensures y < |Run(q, events).jobs| && Run(q, events).jobs[y] == q.jobs[y]
    decreases |events|
  {
    hide Good, Refs, Step;
    if events != [] {
      FinishedStays(q, events[0], y);
      StepGood(q, events[0]);
      FinishedForGood(Step(q, events[0]), events[1..], y);
    }
  }

  /** In every run: of two pending jobs, the one behind begins no attempt while the other stays pending. */
  lemma {:induction false} NotOvertaken(q: Queue, events: seq<Event>, x: nat, y: nat)
    requires Good(q) && RefsOk(q) && Before(q, x, y) && StaysPending(q, events, x)
    ensures StartsOf(Run(q, events), y) == StartsOf(q, y)
    decreases |events|
  {
    hide Good, Refs, Step, Line, Ahead;
    if events != [] {
      var e := events[0];
      StepAhead(q, e, x, y);
      StepGood(q, e);
      if Before(Step(q, e), x, y) {
        NotOvertaken(Step(q, e), events[1..], x, y);
      } else {
        FinishedForGood(Step(q, e), events[1..], y);
      }
    }
  }

  predicate AtOnce(q: Queue, e: Event) {
    e.Enqueue? && (e.sendAt.None? || e.sendAt.value <= q.clock)
  }

  /** A new job comes to stand behind every pending one that is not less urgent. */
  lemma NewJobBehind(q: Queue, e: Event, x: nat)
    requires Good(q) && RefsOk(q) && AtOnce(q, e) && !q.closed && !Known(q, e.id)
    requires IsPending(q, x) && !MoreUrgent(e.priority, q.jobs[x].priority)
    ensures var q0 := q.(jobs := q.jobs + [NewJob(e)]);
            RefsOk(q0) && Before(PutBack(q0, |q.jobs|, NewJob(e)), x, |q.jobs|)
  {
    hide Good, Refs, Known, Line, Ahead, MoreUrgent, Rank, Prepares;
    PreparesAccepted(q, e);
    PendingInTier(q, x);
    UrgentRank(e.priority, q.jobs[x].priority);
    UrgentRank(q.jobs[x].priority, e.priority);
    var r, q0, s, t := |q.jobs|, q.(jobs := q.jobs + [NewJob(e)]), Rank(q.jobs[x].priority), Rank(e.priority);
    var q1 := PutBack(q0, r, NewJob(e));
    if s == t {
      AheadConcat(q.pending[t], [r], x, r);
      AheadTier(q1.pending, t, x, r);
    } else {
      AheadTiers(q1.pending, s, t, x, r);
    }
  }

  lemma ArrivesBehind(q: Queue, e: Event, x: nat)
    requires Good(q) && RefsOk(q) && AtOnce(q, e) && |Step(q, e).jobs| > |q.jobs|
    requires IsPending(q, x) && !MoreUrgent(e.priority, q.jobs[x].priority) && IsPending(Step(q, e), x)
    ensures Before(Step(q, e), x, |q.jobs|) && StartsOf(Step(q, e), |q.jobs|) == 0
  {
    hide Good, Refs, Known, Line, Ahead, MoreUrgent, PutBack, Prepares, Tick;
    NewJobBehind(q, e, x);
    PreparesAccepted(q, e);
    var q1 := PutBack(q.(jobs := q.jobs + [NewJob(e)]), |q.jobs|, NewJob(e));
    PreparedStarts(q, q1, |q.jobs|);
    TickAhead(q1, x, |q.jobs|);
  }

  /** In every run: a job that is enqueued begins no attempt as long as a job stays pending that came before
      it and is not less urgent. */
  lemma OrderOfArrival(config: Config, clock: int, events: seq<Event>, e: Event, more: seq<Event>, x: nat)
    ensures RefsOk(Created(config, clock))
    ensures var q := Run(Created(config, clock), events);
            AtOnce(q, e) && |Step(q, e).jobs| > |q.jobs| && IsPending(q, x) && StaysPending(Step(q, e), more, x)
            && !MoreUrgent(e.priority, q.jobs[x].priority) ==>
              StartsOf(Run(Step(q, e), more), |q.jobs|) == 0
  {
    hide Good, Refs, Run, Step, Busy, TimerOk, MoreUrgent, Line, Ahead, Created;
    Reachable(config, clock, events);
    var q := Run(Created(config, clock), events);
    if AtOnce(q, e) && |Step(q, e).jobs| > |q.jobs| && IsPending(q, x) && StaysPending(Step(q, e), more, x)
       && !MoreUrgent(e.priority, q.jobs[x].priority) {
      ArrivesBehind(q, e, x);
      StepGood(q, e);
      NotOvertaken(Step(q, e), more, x, |q.jobs|);
    }
  }

  // ---- The jobs one tick serves ------------------------------------------------------

  lemma {:induction false} DealtMembers(line: seq<nat>, a: seq<nat>, b: seq<nat>)
    requires Dealt(line, a, b)
    ensures forall r :: r in a || r in b ==> r in line
    decreases |line|
  {
    if line != [] {
      if a != [] && a[0] == line[0] && Dealt(line[1..], a[1..], b) {
        DealtMembers(line[1..], a[1..], b);
        assert a == [a[0]] + a[1..];
      } else {
        DealtMembers(line[1..], a, b[1..]);
        assert b == [b[0]] + b[1..];
      }
      assert line == [line[0]] + line[1..];
    }
  }

  lemma UrgencyTail(jobs: seq<Job>, refs: seq<nat>)
    requires Refs(refs, |jobs|) && ByUrgency(jobs, refs) && refs != []
    ensures Refs(refs[1..], |jobs|) && ByUrgency(jobs, refs[1..])
    ensures forall r :: r in refs[1..] ==> r < |jobs| && !MoreUrgent(jobs[r].priority, jobs[refs[0]].priority)
  {
    hide MoreUrgent;
    assert forall i :: 0 <= i < |refs| - 1 ==> refs[1..][i] == refs[i + 1];
  }

  lemma UrgencyCons(jobs: seq<Job>, r: nat, refs: seq<nat>)
    requires r < |jobs| && Refs(refs, |jobs|) && ByUrgency(jobs, refs)
    requires forall x :: x in refs ==> !MoreUrgent(jobs[x].priority, jobs[r].priority)
    ensures Refs([r] + refs, |jobs|) && ByUrgency(jobs, [r] + refs)
  {
    hide MoreUrgent;
    var s := [r] + refs;
    forall i, j | 0 <= i < j < |s| ensures !MoreUrgent(jobs[s[j]].priority, jobs[s[i]].priority) {
      assert s[j] == refs[j - 1] && refs[j - 1] in refs;
    }
  }

  /** What is dealt out from jobs in order of urgency is in order of urgency. */
  lemma {:induction false} DealtByUrgency(jobs: seq<Job>, line: seq<nat>, a: seq<nat>, b: seq<nat>)
    requires Refs(line, |jobs|) && ByUrgency(jobs, line) && Dealt(line, a, b)
    ensures Refs(a, |jobs|) && Refs(b, |jobs|) && ByUrgency(jobs, a) && ByUrgency(jobs, b)
    decreases |line|
  {
    hide ByUrgency, MoreUrgent, Refs;
    if line == [] {
      UrgencyNone(jobs);
    } else {
      UrgencyTail(jobs, line);
      LineFirst(jobs, line);
      if a != [] && a[0] == line[0] && Dealt(line[1..], a[1..], b) {
        DealtByUrgency(jobs, line[1..], a[1..], b);
        DealtMembers(line[1..], a[1..], b);
        UrgencyCons(jobs, a[0], a[1..]);
        assert [a[0]] + a[1..] == a;
      } else {
        DealtByUrgency(jobs, line[1..], a, b[1..]);
        DealtMembers(line[1..], a, b[1..]);
        UrgencyCons(jobs, b[0], b[1..]);
        assert [b[0]] + b[1..] == b;
      }
    }
  }

  lemma UrgencyNone(jobs: seq<Job>)
    ensures Refs([], |jobs|) && ByUrgency(jobs, [])
  {
  }

  lemma LineFirst(jobs: seq<Job>, line: seq<nat>)
    requires Refs(line, |jobs|) && line != []
    ensures line[0] < |jobs|
  {
  }

  /** The jobs a tick starts, and those it throttles, are served in order of urgency, and none that stays
      pending is more urgent than one of them. */
  lemma ServedByUrgency(q: Queue)
    requires Good(q) && RefsOk(q) && q.ready && !q.paused
    ensures var line := Line(q.pending);
            Refs(line, |q.jobs|)
            && var s := Serve(q, line, Free(q));
            && ServedAs(ListsOf(q), ListsOf(Tick(q)), s)
            && Refs(s.started, |q.jobs|) && ByUrgency(q.jobs, s.started)
            && Refs(s.held, |q.jobs|) && ByUrgency(q.jobs, s.held)
            && forall r, x :: (r in s.started || r in s.held) && x in Line(Tick(q).pending) ==>
                 r < |q.jobs| && x < |q.jobs| && !MoreUrgent(q.jobs[x].priority, q.jobs[r].priority)
  {
    hide Good, Line, Tick, Serve, Dealt, Free, MoreUrgent;
    StartsInOrder(q);
    LineByUrgency(q);
    var line := Line(q.pending);
    var s := Serve(q, line, Free(q));
    var n := Count(s);
    var front := line[..n];
    assert forall i :: 0 <= i < |front| ==> front[i] == line[i];
    DealtByUrgency(q.jobs, front, s.started, s.held);
    DealtMembers(front, s.started, s.held);
    forall r, x | (r in s.started || r in s.held) && x in Line(Tick(q).pending)
      ensures r < |q.jobs| && x < |q.jobs| && !MoreUrgent(q.jobs[x].priority, q.jobs[r].priority)
    {
      assert r in front && x in line[n..];
      var i :| 0 <= i < n && front[i] == r;
      var j :| 0 <= j < |line| - n && line[n..][j] == x;
      assert line[i] == r && line[n + j] == x;
    }
  }
}
