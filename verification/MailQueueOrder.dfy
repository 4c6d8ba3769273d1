/** The order in which the jobs of the send queue start, and how places are given back
    (src/queue/MailQueue.ts). */
module MailQueueOrder {
  import opened Text
  import opened MailQueue
  import opened MailQueueSafety
  import RateLimiter

  /** The job at the head of a tier is pending, of that tier, and nowhere else. */
  lemma FrontOfTier(q: Queue, t: nat)
    requires Good(q) && RefsOk(q) && t < TIERS && q.pending[t] != []
    ensures var r := q.pending[t][0];
            && r < |q.jobs| && q.jobs[r].status == Pending && Rank(q.jobs[r].priority) == t
            && r !in q.running && r !in q.reasons && r !in q.throttled
  {
    hide Limited, Refs, CountsOk, JobsOk, IdsApart, Rank;
    assert q.pending[t][0] in q.pending[t];
    assert q.pending[t][0] in InTier(q.jobs, t) - {};
  }

  // ---- Starting ----------------------------------------------------------------------

  /** The jobs that start and those that are throttled, each in the order they asked. */
  datatype Served = Served(started: seq<nat>, held: seq<nat>)

  /** What becomes of the jobs in a line that ask the limiter one after the other, while `free` slots last. */
  function Serve(q: Queue, line: seq<nat>, free: nat): Served
    requires RefsOk(q) && Refs(line, |q.jobs|)
    decreases |line|
  {
    if line == [] || free == 0 then Served([], [])
    else
      var asked := Asked(q, line[0]);
      if WaitFor(q, line[0]) > 0 then
        var s := Serve(asked, line[1..], free);
        s.(held := [line[0]] + s.held)
      else
        var s := Serve(asked, line[1..], free - 1);
        s.(started := [line[0]] + s.started)
  }

  /** The line was dealt out to `a` and `b` without changing the order. */
  predicate Dealt(line: seq<nat>, a: seq<nat>, b: seq<nat>) {
    if line == [] then a == [] && b == []
    else
      || (a != [] && a[0] == line[0] && Dealt(line[1..], a[1..], b))
      || (b != [] && b[0] == line[0] && Dealt(line[1..], a, b[1..]))
  }

  function Count(s: Served): nat { |s.started| + |s.held| }

  lemma {:induction false} ServedInOrder(q: Queue, line: seq<nat>, free: nat)
    requires RefsOk(q) && Refs(line, |q.jobs|)
    ensures var s := Serve(q, line, free);
            && Count(s) <= |line| && Dealt(line[..Count(s)], s.started, s.held)
            && |s.started| <= free && (|s.started| < free ==> Count(s) == |line|)
    decreases |line|
  {
    hide RefsOk, Asked, WaitFor;
    var s := Serve(q, line, free);
    if line != [] && free > 0 {
      var asked := Asked(q, line[0]);
      var rest := Serve(asked, line[1..], if WaitFor(q, line[0]) > 0 then free else free - 1);
      ServedInOrder(asked, line[1..], if WaitFor(q, line[0]) > 0 then free else free - 1);
      var front := line[..Count(s)];
      assert front[0] == line[0] && front[1..] == line[1..][..Count(s) - 1];
      hide Serve;
      if WaitFor(q, line[0]) > 0 {
        assert s.held[1..] == rest.held;
      } else {
        assert s.started[1..] == rest.started;
      }
    }
  }

  /** Without a limiter nobody is throttled. */
  lemma {:induction false} ServedUnlimited(q: Queue, line: seq<nat>, free: nat)
    requires RefsOk(q) && Refs(line, |q.jobs|) && q.config.windows == []
    ensures Serve(q, line, free) == Served(line[..if free < |line| then free else |line|], [])
    decreases |line|
  {
    hide RefsOk;
    if line != [] && free > 0 {
      ServedUnlimited(q, line[1..], free - 1);
      assert [line[0]] + line[1..][..(if free - 1 < |line| - 1 then free - 1 else |line| - 1)]
             == line[..if free < |line| then free else |line|];
    }
  }

  /** What the limiter knows of the jobs is the same. */
  predicate SameAsking(q: Queue, q': Queue) {
    && q'.config == q.config && q'.clock == q.clock && |q'.jobs| == |q.jobs|
    && forall r :: 0 <= r < |q.jobs| ==> q'.jobs[r].key == q.jobs[r].key && q'.jobs[r].cost == q.jobs[r].cost
  }

  lemma AskedAlike(q: Queue, q': Queue, r: nat)
    requires RefsOk(q) && RefsOk(q') && r < |q.jobs| && SameAsking(q, q') && q'.limiter == q.limiter
    ensures WaitFor(q', r) == WaitFor(q, r)
    ensures Asked(q', r).limiter == Asked(q, r).limiter && SameAsking(Asked(q, r), Asked(q', r))
  {
    hide RefsOk, RateLimiter.Attempt;
  }

  lemma {:induction false} ServedAlike(q: Queue, q': Queue, line: seq<nat>, free: nat)
    requires RefsOk(q) && RefsOk(q') && Refs(line, |q.jobs|) && SameAsking(q, q') && q'.limiter == q.limiter
    ensures Serve(q', line, free) == Serve(q, line, free)
    decreases |line|
  {
    hide RefsOk, Asked, WaitFor, SameAsking;
    assert |q'.jobs| == |q.jobs| by { SameNumber(q, q'); }
    if line != [] && free > 0 {
      AskedAlike(q, q', line[0]);
      ServedAlike(Asked(q, line[0]), Asked(q', line[0]), line[1..], if WaitFor(q, line[0]) > 0 then free else free - 1);
    }
  }

  lemma SameNumber(q: Queue, q': Queue)
    requires SameAsking(q, q')
    ensures |q'.jobs| == |q.jobs|
  {
  }

  ghost function SetOf(s: seq<nat>): set<nat> { set r | r in s }

  /** The first of the line was throttled or started, and everything else about the line is the same. */
  ghost predicate FrontServed(q: Queue, q': Queue, r: nat)
    requires RefsOk(q) && r < |q.jobs|
  {
    && SameAsking(Asked(q, r), q') && q'.limiter == Asked(q, r).limiter
    && q'.ready == q.ready && q'.paused == q.paused
    && if WaitFor(q, r) > 0 then
         q'.running == q.running && q'.scheduled == q.scheduled + [r] && q'.throttled == q.throttled + {r}
       else
         r !in q.running && q'.running == q.running + {r} && q'.scheduled == q.scheduled && q'.throttled == q.throttled
  }

  lemma AskedTaken(q: Queue, t: nat, k: nat, r: nat)
    requires RefsOk(q) && t < TIERS && k < |q.pending[t]| && r < |q.jobs|
    ensures Asked(TakePending(q, t, k), r) == Asked(q, r).(pending := TakePending(q, t, k).pending)
  {
    hide Refs, Cut, RateLimiter.Attempt;
  }

  lemma ThrottledFront(q: Queue, r: nat, wait: int)
    requires RefsOk(q) && r < |q.jobs|
    ensures var q' := Throttle(q, r, wait);
            && q'.scheduled == q.scheduled + [r] && q'.throttled == q.throttled + {r} && q'.pending == q.pending
            && q'.running == q.running && q'.ready == q.ready && q'.paused == q.paused && q'.limiter == q.limiter
            && SameAsking(q, q')
  {
    hide Refs, Armed;
    var q1 := PutScheduled(q, r, q.jobs[r], q.clock + wait);
    ArmedKeeps(q1.(throttled := q1.throttled + {r}));
  }

  lemma StartNextServes(q: Queue, t: nat)
    requires Good(q) && RefsOk(q) && t < TIERS && q.pending[t] != []
    ensures q.pending[t][0] < |q.jobs| && FrontServed(q, StartNext(q, t), q.pending[t][0])
  {
    hide Good, Refs, Cut, WaitFor, Asked, Throttle;
    FrontOfTier(q, t);
    var r := q.pending[t][0];
    AskedTaken(q, t, 0, r);
    if WaitFor(q, r) > 0 {
      ThrottledFront(Asked(TakePending(q, t, 0), r), r, WaitFor(q, r));
    }
  }

  /** The first turn of tick's loop. */
  lemma FrontOfLine(q: Queue, t: nat)
    requires Good(q) && RefsOk(q) && MayStart(q) && t == FirstTier(q.pending, 0) && t < TIERS
    ensures var q', line := StartNext(q, t), Line(q.pending);
            && Good(q') && Tick(q) == Tick(q') && line != [] && line[0] < |q.jobs|
            && Line(q'.pending) == line[1..] && FrontServed(q, q', line[0])
  {
    hide Good, Refs, Line, Cut, FrontServed;
    StartNextGood(q, t);
    StartNextServes(q, t);
    LineCut(q.pending, t);
    hide StartNext;
  }

  /** The lists of the queue that tick changes; `line` is all of `pending`. */
  datatype QueueLists = QueueLists(line: seq<nat>, running: set<nat>, scheduled: seq<nat>, throttled: set<nat>)

  function ListsOf(q: Queue): QueueLists
    requires RefsOk(q)
  {
    QueueLists(Line(q.pending), q.running, q.scheduled, q.throttled)
  }

  /** The front of the line was served as `s` says: those started run, those held are scheduled. */
  ghost predicate ServedAs(l: QueueLists, l': QueueLists, s: Served) {
    && Count(s) <= |l.line| && l'.line == l.line[Count(s)..]
    && l'.running == l.running + SetOf(s.started)
    && l'.scheduled == l.scheduled + s.held && l'.throttled == l.throttled + SetOf(s.held)
  }

  lemma ServedNone(l: QueueLists)
    ensures ServedAs(l, l, Served([], []))
  {
    assert SetOf([]) == {};
    assert l.line == l.line[0..];
  }

  lemma SetOfFront(r: nat, s: seq<nat>)
    ensures SetOf([r] + s) == {r} + SetOf(s)
  {
  }

  lemma HeldFirst(l: QueueLists, l': QueueLists, s: Served)
    requires l.line != []
    requires var r := l.line[0];
             ServedAs(l.(line := l.line[1..], scheduled := l.scheduled + [r], throttled := l.throttled + {r}), l', s)
    ensures ServedAs(l, l', s.(held := [l.line[0]] + s.held))
  {
    SetOfFront(l.line[0], s.held);
    hide SetOf;
    assert l.line[1..][Count(s)..] == l.line[Count(s) + 1..];
  }

  lemma StartedFirst(l: QueueLists, l': QueueLists, s: Served)
    requires l.line != []
    requires ServedAs(l.(line := l.line[1..], running := l.running + {l.line[0]}), l', s)
    ensures ServedAs(l, l', s.(started := [l.line[0]] + s.started))
  {
    SetOfFront(l.line[0], s.started);
    hide SetOf;
    assert l.line[1..][Count(s)..] == l.line[Count(s) + 1..];
  }

  function Free(q: Queue): nat {
    if |q.running| < q.config.concurrency then q.config.concurrency - |q.running| else 0
  }

  lemma LineRefs(q: Queue)
    requires RefsOk(q)
    ensures Refs(Line(q.pending), |q.jobs|)
  {
  }

  lemma ServeNone(q: Queue, line: seq<nat>, free: nat)
    requires RefsOk(q) && Refs(line, |q.jobs|) && (free == 0 || line == [])
    ensures Serve(q, line, free) == Served([], [])
  {
  }

  lemma NoRoom(q: Queue)
    requires RefsOk(q) && q.ready && !q.paused && (MayStart(q) ==> FirstTier(q.pending, 0) == TIERS)
    ensures Tick(q) == q && (Free(q) == 0 || Line(q.pending) == [])
  {
    hide Refs;
  }

  function FreeAfter(q: Queue, r: nat): nat
    requires r < |q.jobs| && Free(q) > 0
  {
    if WaitFor(q, r) > 0 then Free(q) else Free(q) - 1
  }

  /** The slots left after the first job of the line. */
  lemma FrontSlots(q: Queue, q1: Queue, r: nat)
    requires RefsOk(q) && r < |q.jobs| && Free(q) > 0 && FrontServed(q, q1, r)
    ensures Free(q1) == FreeAfter(q, r)
  {
    hide Refs, Asked, WaitFor;
  }

  function AfterFront(q: Queue, r: nat, s: Served): Served
    requires r < |q.jobs|
  {
    if WaitFor(q, r) > 0 then s.(held := [r] + s.held) else s.(started := [r] + s.started)
  }

  lemma ServeFront(q: Queue, q1: Queue, line: seq<nat>)
    requires RefsOk(q) && RefsOk(q1) && Refs(line, |q.jobs|) && |q1.jobs| == |q.jobs|
    requires Free(q) > 0 && line != [] && FrontServed(q, q1, line[0])
    ensures Refs(line[1..], |q1.jobs|)
    ensures Serve(q, line, Free(q)) == AfterFront(q, line[0], Serve(q1, line[1..], FreeAfter(q, line[0])))
  {
    hide RefsOk, WaitFor, SameAsking, Free;
    ServedAlike(Asked(q, line[0]), q1, line[1..], FreeAfter(q, line[0]));
    hide Asked;
  }

  /** Serving the rest of the line after its first job. */
  lemma TickedFront(q: Queue, q1: Queue, l: QueueLists)
    requires RefsOk(q) && RefsOk(q1) && |q1.jobs| == |q.jobs| && Free(q) > 0
    requires var line := Line(q.pending);
             line != [] && line[0] < |q.jobs| && Line(q1.pending) == line[1..] && FrontServed(q, q1, line[0])
    requires Refs(Line(q1.pending), |q.jobs|) && ServedAs(ListsOf(q1), l, Serve(q1, Line(q1.pending), Free(q1)))
    ensures Refs(Line(q.pending), |q.jobs|) && ServedAs(ListsOf(q), l, Serve(q, Line(q.pending), Free(q)))
  {
    LineRefs(q);
    var line := Line(q.pending);
    FrontSlots(q, q1, line[0]);
    ServeFront(q, q1, line);
    hide Refs, Line, Asked, WaitFor, SameAsking, Serve, ServedAs, Free;
    var s1 := Serve(q1, line[1..], Free(q1));
    if WaitFor(q, line[0]) > 0 {
      HeldFirst(ListsOf(q), l, s1);
    } else {
      StartedFirst(ListsOf(q), l, s1);
    }
  }

  /** tick serves the line, critical jobs first and each tier in order: the jobs at its front ask the limiter
      one after the other, those it admits start, the others are throttled, until the slots or the jobs run
      out. Without a limiter the jobs at the front start. */
  lemma StartsInOrder(q: Queue)
    requires Good(q) && RefsOk(q) && q.ready && !q.paused
    ensures Refs(Line(q.pending), |q.jobs|)
    ensures var line := Line(q.pending);
            var s := Serve(q, line, Free(q));
            && ServedAs(ListsOf(q), ListsOf(Tick(q)), s)
            && Dealt(line[..Count(s)], s.started, s.held)
            && |s.started| <= Free(q) && (|s.started| < Free(q) ==> Line(Tick(q).pending) == [])
            && (q.config.windows == [] ==> s == Served(line[..if Free(q) < |line| then Free(q) else |line|], []))
  {
    hide Good, Refs, Line, Tick, StartNext, Serve, Dealt, Free;
    LineRefs(q);
    TickServes(q);
    ServedInOrder(q, Line(q.pending), Free(q));
    if q.config.windows == [] { ServedUnlimited(q, Line(q.pending), Free(q)); }
  }

  lemma {:induction false} TickServes(q: Queue)
    requires Good(q) && RefsOk(q) && q.ready && !q.paused
    ensures Refs(Line(q.pending), |q.jobs|) && ServedAs(ListsOf(q), ListsOf(Tick(q)), Serve(q, Line(q.pending), Free(q)))
    decreases |Line(q.pending)|
  {
    hide Good, Refs, Line, StartNext, Serve, ServedAs, Tick, FrontServed;
    LineRefs(q);
    var t := FirstTier(q.pending, 0);
    if MayStart(q) && t < TIERS {
      FrontOfLine(q, t);
      assert StartNext(q, t).ready && !StartNext(q, t).paused by { FrontSwitches(q, StartNext(q, t), Line(q.pending)[0]); }
      TickServes(StartNext(q, t));
      TickedFront(q, StartNext(q, t), ListsOf(Tick(q)));
    } else {
      NoRoom(q);
      ServeNone(q, Line(q.pending), Free(q));
      ServedNone(ListsOf(q));
    }
  }

  lemma FrontSwitches(q: Queue, q': Queue, r: nat)
    requires RefsOk(q) && r < |q.jobs| && FrontServed(q, q', r)
    ensures q'.ready == q.ready && q'.paused == q.paused
  {
  }

  // ---- Promotion ---------------------------------------------------------------------

  predicate IsDue(q: Queue, r: nat)
    requires r < |q.jobs|
  {
    q.jobs[r].notBefore <= q.clock
  }

  /** The jobs of a tier that are due among `refs`: the throttled ones or the others. */
  function Due(q: Queue, t: nat, throttled: bool, refs: seq<nat>): seq<nat>
    requires Refs(refs, |q.jobs|)
  {
    if refs == [] then []
    else
      var r := refs[0];
      (if IsDue(q, r) && Rank(q.jobs[r].priority) == t && (r in q.throttled) == throttled then [r] else [])
      + Due(q, t, throttled, refs[1..])
  }

  function NotDue(q: Queue, refs: seq<nat>): seq<nat>
    requires Refs(refs, |q.jobs|)
  {
    if refs == [] then []
    else (if IsDue(q, refs[0]) then [] else [refs[0]]) + NotDue(q, refs[1..])
  }

  function Reversed(s: seq<nat>): seq<nat> {
    if s == [] then [] else Reversed(s[1..]) + [s[0]]
  }

  /** The jobs in `refs` are as before. */
  predicate Untouched(q: Queue, q': Queue, refs: seq<nat>) {
    && q'.clock == q.clock && |q'.jobs| == |q.jobs| && Refs(refs, |q.jobs|)
    && forall i :: 0 <= i < |refs| ==> q'.jobs[refs[i]] == q.jobs[refs[i]] && (refs[i] in q'.throttled <==> refs[i] in q.throttled)
  }

  lemma {:induction false} DueAlike(q: Queue, q': Queue, t: nat, throttled: bool, refs: seq<nat>)
    requires Untouched(q, q', refs)
    ensures Due(q', t, throttled, refs) == Due(q, t, throttled, refs) && NotDue(q', refs) == NotDue(q, refs)
  {
    if refs != [] {
      assert q'.jobs[refs[0]] == q.jobs[refs[0]] && (refs[0] in q'.throttled <==> refs[0] in q.throttled);
      assert Untouched(q, q', refs[1..]);
      DueAlike(q, q', t, throttled, refs[1..]);
    }
  }

  /** What promoteDue makes of a tier, from position `k` of `scheduled` on. */
  function Promoted(q: Queue, t: nat, refs: seq<nat>): seq<nat>
    requires RefsOk(q) && t < TIERS && Refs(refs, |q.jobs|)
  {
    Reversed(Due(q, t, true, refs)) + q.pending[t] + Due(q, t, false, refs)
  }

  lemma PromoteKeeps(q: Queue, k: nat)
    requires RefsOk(q) && Distinct(q.scheduled) && k < |q.scheduled|
    ensures var q', rest := Promote(q, k), q.scheduled[k + 1..];
            && q'.scheduled == q.scheduled[..k] + rest && q'.scheduled[k..] == rest && Distinct(q'.scheduled)
            && Untouched(q, q', rest)
  {
    hide Rank;
    var q', rest := Promote(q, k), q.scheduled[k + 1..];
    assert q'.scheduled == q.scheduled[..k] + rest;
    forall i | 0 <= i < |rest| ensures rest[i] == q.scheduled[k + 1 + i] && rest[i] != q.scheduled[k] {
    }
  }

  lemma PromoteTier(q: Queue, k: nat, t: nat)
    requires RefsOk(q) && k < |q.scheduled| && t < TIERS
    ensures var r := q.scheduled[k];
            var here := Rank(q.jobs[r].priority) == t;
            Promote(q, k).pending[t] == (if here && r in q.throttled then [r] else []) + q.pending[t]
                                        + (if here && r !in q.throttled then [r] else [])
  {
    hide Refs;
    assert [] + q.pending[t] + [] == q.pending[t];
  }

  lemma RefsTail(s: seq<nat>, n: nat, k: nat)
    requires Refs(s, n) && k <= |s|
    ensures Refs(s[k..], n)
  {
  }

  /** One list around a tier grows by `front` at its front or `back` at its back. */
  lemma Around(front: seq<nat>, before: seq<nat>, tier: seq<nat>, back: seq<nat>, after: seq<nat>)
    requires |front| <= 1
    ensures Reversed(before) + (front + tier + back) + after == Reversed(front + before) + tier + (back + after)
  {
    if front == [] {
      assert front + before == before;
    } else {
      assert (front + before)[1..] == before;
    }
    assert Reversed(front + before) == Reversed(before) + front;
  }

  lemma DueFirst(q: Queue, t: nat, throttled: bool, refs: seq<nat>)
    requires Refs(refs, |q.jobs|) && refs != []
    ensures var r := refs[0];
            Due(q, t, throttled, refs)
            == (if IsDue(q, r) && Rank(q.jobs[r].priority) == t && (r in q.throttled) == throttled then [r] else [])
               + Due(q, t, throttled, refs[1..])
    ensures NotDue(q, refs) == (if IsDue(q, refs[0]) then [] else [refs[0]]) + NotDue(q, refs[1..])
  {
  }

  /** Promoting a due job, then the rest. */
  lemma PromotedStep(q: Queue, k: nat, t: nat)
    requires RefsOk(q) && Distinct(q.scheduled) && k < |q.scheduled| && t < TIERS && IsDue(q, q.scheduled[k])
    ensures Refs(q.scheduled[k..], |q.jobs|) && Refs(Promote(q, k).scheduled[k..], |q.jobs|)
    ensures Promoted(Promote(q, k), t, Promote(q, k).scheduled[k..]) == Promoted(q, t, q.scheduled[k..])
    ensures NotDue(Promote(q, k), Promote(q, k).scheduled[k..]) == NotDue(q, q.scheduled[k..])
  {
    var q', r, refs, rest := Promote(q, k), q.scheduled[k], q.scheduled[k..], q.scheduled[k + 1..];
    PromoteKeeps(q, k);
    PromoteTier(q, k, t);
    RefsTail(q.scheduled, |q.jobs|, k);
    assert Refs(rest, |q.jobs|) by { RefsTail(q.scheduled, |q.jobs|, k + 1); }
    hide Promote, Refs, Rank, Untouched, Due, NotDue, Reversed, IsDue, Distinct;
    assert refs[0] == r && refs[1..] == rest;
    DueAlike(q, q', t, true, rest);
    DueAlike(q, q', t, false, rest);
    DueFirst(q, t, true, refs);
    DueFirst(q, t, false, refs);
    Around(if Rank(q.jobs[r].priority) == t && r in q.throttled then [r] else [], Due(q, t, true, rest), q.pending[t],
           if Rank(q.jobs[r].priority) == t && r !in q.throttled then [r] else [], Due(q, t, false, rest));
  }

  lemma PromotedSkip(q: Queue, k: nat, t: nat)
    requires RefsOk(q) && k < |q.scheduled| && t < TIERS && !IsDue(q, q.scheduled[k])
    ensures Refs(q.scheduled[k..], |q.jobs|) && Refs(q.scheduled[k + 1..], |q.jobs|)
    ensures Promoted(q, t, q.scheduled[k..]) == Promoted(q, t, q.scheduled[k + 1..])
    ensures NotDue(q, q.scheduled[k..]) == [q.scheduled[k]] + NotDue(q, q.scheduled[k + 1..])
  {
    RefsTail(q.scheduled, |q.jobs|, k);
    RefsTail(q.scheduled, |q.jobs|, k + 1);
    assert q.scheduled[k..][1..] == q.scheduled[k + 1..];
    DueFirst(q, t, true, q.scheduled[k..]);
    DueFirst(q, t, false, q.scheduled[k..]);
    hide Due, NotDue, Refs;
    assert Due(q, t, true, q.scheduled[k..]) == Due(q, t, true, q.scheduled[k + 1..]);
    assert Due(q, t, false, q.scheduled[k..]) == Due(q, t, false, q.scheduled[k + 1..]);
  }

  lemma PromotedEnd(q: Queue, t: nat)
    requires RefsOk(q) && t < TIERS
    ensures Refs([], |q.jobs|) && Promoted(q, t, []) == q.pending[t] && NotDue(q, []) == []
  {
    assert [] + q.pending[t] + [] == q.pending[t];
  }

  /** What promoteDue does to a tier: the throttled jobs that are due go to its front, each before those
      promoted earlier, and the other due jobs to its back in order; jobs not yet due stay scheduled. So a
      throttled job comes to stand before every job that was pending in its tier. */
  lemma {:induction false} PromotionOrder(q: Queue, k: nat, t: nat)
    requires RefsOk(q) && Distinct(q.scheduled) && k <= |q.scheduled| && t < TIERS
    ensures Refs(q.scheduled[k..], |q.jobs|)
    ensures PromoteFrom(q, k).pending[t] == Promoted(q, t, q.scheduled[k..])
    ensures PromoteFrom(q, k).scheduled == q.scheduled[..k] + NotDue(q, q.scheduled[k..])
    decreases |q.scheduled| - k
  {
    hide Promote, Promoted, NotDue, Untouched, Distinct;
    RefsTail(q.scheduled, |q.jobs|, k);
    if k == |q.scheduled| {
      PromotedEnd(q, t);
      assert q.scheduled[k..] == [];
    } else if IsDue(q, q.scheduled[k]) {
      PromotedStep(q, k, t);
      PromoteKeeps(q, k);
      PromotionOrder(Promote(q, k), k, t);
      assert Promote(q, k).scheduled[..k] == q.scheduled[..k];
    } else {
      PromotedSkip(q, k, t);
      PromotionOrder(q, k + 1, t);
      assert q.scheduled[..k + 1] == q.scheduled[..k] + [q.scheduled[k]];
    }
  }

  lemma {:induction false} DueExact(q: Queue, t: nat, throttled: bool, refs: seq<nat>)
    requires Refs(refs, |q.jobs|)
    ensures forall r :: r in Due(q, t, throttled, refs)
                        <==> r in refs && IsDue(q, r) && Rank(q.jobs[r].priority) == t && (r in q.throttled) == throttled
    ensures Distinct(refs) ==> Distinct(Due(q, t, throttled, refs))
  {
    hide Rank, IsDue;
    if refs != [] {
      DueExact(q, t, throttled, refs[1..]);
      assert refs == [refs[0]] + refs[1..];
      var rest := Due(q, t, throttled, refs[1..]);
      if Distinct(refs) {
        assert refs[0] !in refs[1..];
        assert Due(q, t, throttled, refs) == rest || Due(q, t, throttled, refs) == [refs[0]] + rest;
      }
    }
  }

  lemma {:induction false} ReversedLast(s: seq<nat>)
    ensures |Reversed(s)| == |s| && (s != [] ==> Reversed(s)[|s| - 1] == s[0])
  {
    if s != [] {
      ReversedLast(s[1..]);
    }
  }

  lemma ReversedSame(s: seq<nat>)
    requires Distinct(s)
    ensures Reversed(s) == s <==> |s| <= 1
  {
    ReversedLast(s);
    if |s| == 1 {
      assert Reversed(s[1..]) == [];
    }
  }

  lemma SameFront(a: seq<nat>, b: seq<nat>, rest: seq<nat>)
    requires |a| == |b|
    ensures a + rest == b + rest <==> a == b
  {
    if a + rest == b + rest {
      assert (a + rest)[..|a|] == a && (b + rest)[..|a|] == b;
    }
  }

  /** A promotion keeps the order of the throttled jobs of a tier exactly when at most one of them is due. */
  lemma PlacesKeptExact(q: Queue, t: nat)
    requires RefsOk(q) && Distinct(q.scheduled) && t < TIERS
    ensures PromoteFrom(q, 0).pending[t] == Due(q, t, true, q.scheduled) + q.pending[t] + Due(q, t, false, q.scheduled)
            <==> |Due(q, t, true, q.scheduled)| <= 1
  {
    hide Due, Reversed, Refs, PromoteFrom, IsDue, Rank;
    assert q.scheduled[0..] == q.scheduled;
    PromotionOrder(q, 0, t);
    DueExact(q, t, true, q.scheduled);
    var front, rest := Due(q, t, true, q.scheduled), q.pending[t] + Due(q, t, false, q.scheduled);
    ReversedSame(front);
    ReversedLast(front);
    SameFront(Reversed(front), front, rest);
    assert Reversed(front) + q.pending[t] + Due(q, t, false, q.scheduled) == Reversed(front) + rest;
    assert front + q.pending[t] + Due(q, t, false, q.scheduled) == front + rest;
  }

  lemma {:induction false} ReversedMembers(s: seq<nat>)
    ensures forall r :: r in Reversed(s) <==> r in s
  {
    if s != [] {
      ReversedMembers(s[1..]);
    }
  }

  lemma ScheduledOnce(q: Queue)
    requires Good(q)
    ensures Distinct(q.scheduled)
  {
    hide Limited, TiersOk, RunningOk, HandOk, JobsOk, IdsApart, CountsOk;
  }

  /** In every run, when a throttled job is due the timer brings it before all jobs then pending in its tier,
      and before it come only other throttled jobs that are due. */
  lemma ThrottledGoFirst(config: Config, clock: int, events: seq<Event>, r: nat)
    ensures RefsOk(Created(config, clock))
    ensures var q := Run(Created(config, clock), events);
            r in q.throttled ==> r < |q.jobs|
    ensures var q := Run(Created(config, clock), events);
            r in q.throttled && IsDue(q, r) ==>
              var t := Rank(q.jobs[r].priority);
              exists before, after ::
                && PromoteFrom(q.(timer := None), 0).pending[t] == before + q.pending[t] + after
                && r in before && forall x :: x in before ==> x in q.throttled && IsDueAt(q, x)
  {
    hide Refs, Run, Rank, TimerOk, Busy, Created;
    Reachable(config, clock, events);
    var q := Run(Created(config, clock), events);
    ThrottledWait(q);
    ScheduledOnce(q);
    assert r in q.throttled ==> r < |q.jobs|;
    hide Good, Distinct, PromoteFrom, IsDue, IsDueAt;
    if r in q.throttled && IsDue(q, r) {
      SameDue(q, None);
      GoesFirst(q.(timer := None), r);
    }
  }

  lemma GoesFirst(q: Queue, r: nat)
    requires RefsOk(q) && Distinct(q.scheduled) && r < |q.jobs| && r in q.throttled && r in q.scheduled && IsDue(q, r)
    ensures var t := Rank(q.jobs[r].priority);
            exists before, after ::
              && PromoteFrom(q, 0).pending[t] == before + q.pending[t] + after
              && r in before && forall x :: x in before ==> x in q.throttled && IsDueAt(q, x)
  {
    hide Rank;
    var t := Rank(q.jobs[r].priority);
    assert forall x :: x in q.scheduled ==> x < |q.jobs|;
    assert q.scheduled[0..] == q.scheduled;
    PromotionOrder(q, 0, t);
    DueExact(q, t, true, q.scheduled);
    var due := Due(q, t, true, q.scheduled);
    ReversedMembers(due);
    hide Due, PromoteFrom, Distinct;
    assert r in Reversed(due);
    assert forall x :: x in Reversed(due) ==> x in q.throttled && IsDueAt(q, x);
  }

  lemma SameDue(q: Queue, timer: Option<int>)
    ensures forall x :: IsDueAt(q.(timer := timer), x) <==> IsDueAt(q, x)
    ensures forall x :: 0 <= x < |q.jobs| ==> (IsDue(q.(timer := timer), x) <==> IsDue(q, x))
  {
  }

  predicate IsDueAt(q: Queue, r: nat) { r < |q.jobs| && IsDue(q, r) }

  // ---- A later job goes first --------------------------------------------------------

  /** One start in a second. */
  const ONE_PER_SECOND := Config(3, 0, [RateLimiter.Window(1000, 1)])

  function Waiting(id: string, s: Status, notBefore: int): Job {
    Job(id, Normal, s, 0, 0, notBefore, "", 1, 0, 0)
  }

  function Sending(id: string): Job {
    Job(id, Normal, Running, 1, 0, 0, "", 1, 1, 0)
  }

  /** One job was sent at time 0. */
  const SENT_ONE :=
    Queue([Sending("a")], [[], [], [], []], [], {0}, map[], {}, None, 0, false, false, false, true, 0, 0, 0,
          RateLimiter.Run(ONCE, ONCE), ONE_PER_SECOND)

  /** Another comes right after it. */
  function Held(q: Queue, id: string): Queue {
    q.(jobs := q.jobs + [Waiting(id, Scheduled, 1000)], scheduled := q.scheduled + [|q.jobs|],
       throttled := q.throttled + {|q.jobs|}, timer := Some(1000))
  }

  /** Nothing happened since but that jobs were throttled. */
  predicate Filling(q: Queue) {
    && RefsOk(q) && MayStart(q) && !q.closed && q.pending == [[], [], [], []]
    && q.config == ONE_PER_SECOND && q.limiter == RateLimiter.Run(ONCE, ONCE) && q.clock == 0
    && forall i :: 0 <= i < |q.scheduled| ==> q.jobs[q.scheduled[i]].notBefore == 1000
  }

  /** What becomes of a new job when none is pending and a slot is free. */
  function Alone(q: Queue, r: nat): Queue
    requires RefsOk(q) && r < |q.jobs|
  {
    if WaitFor(q, r) > 0 then Throttle(Asked(q, r), r, WaitFor(q, r)) else Begin(Asked(q, r), r)
  }

  lemma EnqueuedAlone(q: Queue, e: Event)
    requires RefsOk(q) && MayStart(q) && !q.closed && q.pending == [[], [], [], []]
    requires e.Enqueue? && e.priority == Normal && e.sendAt == None && !Known(q, e.id)
    ensures RefsOk(q.(jobs := q.jobs + [NewJob(e)]))
    ensures Step(q, e) == Alone(q.(jobs := q.jobs + [NewJob(e)]), |q.jobs|)
  {
    var r := |q.jobs|;
    var q1 := q.(jobs := q.jobs + [NewJob(e)]);
    RefsMore(q, q1);
    var q2 := PutBack(q1, r, NewJob(e));
    assert q1.jobs[r := NewJob(e)] == q1.jobs;
    assert [] + [r] == [r];
    assert q2 == q1.(pending := [[], [], [r], []]);
    assert Cut([r], 0) == [];
    assert TakePending(q2, 2, 0) == q1;
    WaitSame(q2, q1, r);
    assert FirstTier(q2.pending, 0) == 2;
    assert StartNext(q2, 2) == Alone(q1, r);
    assert Tick(q2) == Tick(Alone(q1, r));
    AloneRests(q1, r);
  }

  lemma AloneRests(q: Queue, r: nat)
    requires RefsOk(q) && r < |q.jobs| && q.pending == [[], [], [], []]
    ensures Tick(Alone(q, r)) == Alone(q, r)
  {
    hide Refs, Asked, WaitFor, Tick, Throttle;
    if WaitFor(q, r) > 0 {
      ThrottledFront(Asked(q, r), r, WaitFor(q, r));
    }
    NothingToStart(Alone(q, r));
  }

  lemma NothingToStart(q: Queue)
    requires RefsOk(q) && q.pending == [[], [], [], []]
    ensures Tick(q) == q
  {
    hide Refs;
    assert FirstTier(q.pending, 0) == TIERS;
  }

  lemma AskTwice()
    ensures var w, u := [RateLimiter.Window(1000, 1)], [RateLimiter.Use(0, 1)];
            && RateLimiter.Longest(w) == 1000 && RateLimiter.Prune(u, -1000) == u && RateLimiter.Prune(u, 0) == []
            && RateLimiter.Wait([], w, 1, 0) == 0 && RateLimiter.Wait(u, w, 1, 0) == 1000
            && RateLimiter.Wait([], w, 1, 1000) == 0
  {
    var w, u := [RateLimiter.Window(1000, 1)], [RateLimiter.Use(0, 1)];
    assert w[..0] == [];
    assert u[1..] == [];
    assert RateLimiter.UsedAfter(u, -1000) == 1;
    assert RateLimiter.Expiry(u, 1, -1000) == Some(0);
  }

  const ONCE := map["" := [RateLimiter.Use(0, 1)]]

  lemma AskFirst(q: Queue, r: nat)
    requires RefsOk(q) && r < |q.jobs| && q.jobs[r].key == "" && q.jobs[r].cost == 1
    requires q.config == ONE_PER_SECOND && q.limiter == RateLimiter.FRESH && q.clock == 0
    ensures WaitFor(q, r) == 0 && Asked(q, r) == q.(limiter := RateLimiter.Run(ONCE, ONCE))
  {
    hide Refs, RateLimiter.Wait, RateLimiter.Longest;
    AskTwice();
    assert [] + [RateLimiter.Use(0, 1)] == [RateLimiter.Use(0, 1)];
    assert RateLimiter.FRESH.uses["" := []]["" := [RateLimiter.Use(0, 1)]] == ONCE;
  }

  lemma AskAgain(q: Queue, r: nat)
    requires RefsOk(q) && r < |q.jobs| && q.jobs[r].key == "" && q.jobs[r].cost == 1
    requires q.config == ONE_PER_SECOND && q.limiter == RateLimiter.Run(ONCE, ONCE) && q.clock == 0
    ensures WaitFor(q, r) == 1000 && Asked(q, r) == q
  {
    hide Refs, RateLimiter.Wait, RateLimiter.Longest, RateLimiter.Prune;
    AskTwice();
    assert ONCE["" := [RateLimiter.Use(0, 1)]] == ONCE;
  }

  lemma SendFirst()
    ensures Step(Step(Created(ONE_PER_SECOND, 0), SetSendFn), Enqueue("a", Normal, None, "", 1)) == SENT_ONE
  {
    ReadyFirst();
    FirstAlone();
    hide Step, Tick, Known, WaitFor, Asked, Alone, RateLimiter.Attempt;
    NothingKnown();
    var q, e := Created(ONE_PER_SECOND, 0).(ready := true), Enqueue("a", Normal, None, "", 1);
    assert q.jobs + [NewJob(e)] == [NewJob(e)];
    EnqueuedAlone(q, e);
  }

  lemma ReadyFirst()
    ensures Step(Created(ONE_PER_SECOND, 0), SetSendFn) == Created(ONE_PER_SECOND, 0).(ready := true)
  {
  }

  lemma NothingKnown()
    ensures var q := Created(ONE_PER_SECOND, 0).(ready := true); RefsOk(q) && MayStart(q) && !Known(q, "a")
  {
  }

  /** The first job starts at once. */
  lemma FirstAlone()
    ensures var q := Created(ONE_PER_SECOND, 0).(ready := true, jobs := [NewJob(Enqueue("a", Normal, None, "", 1))]);
            RefsOk(q) && Alone(q, 0) == SENT_ONE
  {
    var q := Created(ONE_PER_SECOND, 0).(ready := true, jobs := [NewJob(Enqueue("a", Normal, None, "", 1))]);
    AskFirst(q, 0);
    hide Step, Tick, WaitFor, Asked, RateLimiter.Attempt, RateLimiter.Wait;
    assert q.jobs[0 := Sending("a")] == [Sending("a")];
  }

  lemma NewId(q: Queue, id: string)
    requires RefsOk(q) && forall r :: 0 <= r < |q.jobs| ==> q.jobs[r].id != id
    ensures !Known(q, id)
  {
  }

  lemma {:induction false} EarliestSame(jobs: seq<Job>, scheduled: seq<nat>, at: int)
    requires scheduled != [] && Refs(scheduled, |jobs|)
    requires forall i :: 0 <= i < |scheduled| ==> jobs[scheduled[i]].notBefore == at
    ensures Earliest(jobs, scheduled) == at
  {
    if |scheduled| > 1 {
      EarliestSame(jobs, scheduled[..|scheduled| - 1], at);
    }
  }

  lemma ThrottledAt(q: Queue, r: nat)
    requires RefsOk(q) && r < |q.jobs| && q.clock == 0
    requires forall i :: 0 <= i < |q.scheduled| ==> q.jobs[q.scheduled[i]].notBefore == 1000
    ensures Throttle(q, r, 1000)
            == q.(jobs := q.jobs[r := q.jobs[r].(status := Scheduled, notBefore := 1000)],
                  scheduled := q.scheduled + [r], throttled := q.throttled + {r}, timer := Some(1000))
  {
    var q1 := PutScheduled(q, r, q.jobs[r], 1000);
    hide Refs, Earliest;
    EarliestSame(q1.jobs, q1.scheduled, 1000);
  }

  lemma HeldFilling(q: Queue, id: string)
    requires Filling(q)
    ensures Filling(Held(q, id))
  {
  }

  lemma HeldAlone(q: Queue, id: string)
    requires Filling(q)
    ensures var q1 := q.(jobs := q.jobs + [NewJob(Enqueue(id, Normal, None, "", 1))]);
            RefsOk(q1) && Alone(q1, |q.jobs|) == Held(q, id)
  {
    var r := |q.jobs|;
    var q1 := q.(jobs := q.jobs + [NewJob(Enqueue(id, Normal, None, "", 1))]);
    RefsMore(q, q1);
    AskAgain(q1, r);
    ThrottledAt(q1, r);
    hide WaitFor, Asked, Throttle, RefsOk;
    assert q1.jobs[r := Waiting(id, Scheduled, 1000)] == Held(q, id).jobs;
  }

  lemma HoldNext(q: Queue, id: string)
    requires Filling(q) && forall r :: 0 <= r < |q.jobs| ==> q.jobs[r].id != id
    ensures Step(q, Enqueue(id, Normal, None, "", 1)) == Held(q, id) && Filling(Held(q, id))
  {
    NewId(q, id);
    HeldFilling(q, id);
    HeldAlone(q, id);
    hide Known, Step, WaitFor, Asked, Throttle, Alone, Refs;
    EnqueuedAlone(q, Enqueue(id, Normal, None, "", 1));
  }

  lemma PromoteSame(q: Queue, k: nat)
    requires RefsOk(q) && k < |q.scheduled|
    ensures var q' := Promote(q, k);
            SameAsking(q, q') && q'.limiter == q.limiter && q'.running == q.running && q'.ready == q.ready && q'.paused == q.paused
  {
    hide Refs, Rank;
  }

  lemma SameAskingSelf(q: Queue)
    ensures SameAsking(q, q)
  {
  }

  lemma SameAskingTwice(q: Queue, q1: Queue, q2: Queue)
    requires SameAsking(q, q1) && SameAsking(q1, q2)
    ensures SameAsking(q, q2)
  {
  }

  /** Promotion is about `scheduled`, `pending` and `throttled`. */
  lemma {:induction false} PromoteFromSame(q: Queue, k: nat)
    requires RefsOk(q)
    ensures var q' := PromoteFrom(q, k);
            SameAsking(q, q') && q'.limiter == q.limiter && q'.running == q.running && q'.ready == q.ready && q'.paused == q.paused
    decreases |q.scheduled| - k
  {
    hide Promote, SameAsking;
    SameAskingSelf(q);
    if k < |q.scheduled| {
      if q.jobs[q.scheduled[k]].notBefore > q.clock {
        PromoteFromSame(q, k + 1);
      } else {
        PromoteSame(q, k);
        PromoteFromSame(Promote(q, k), k);
        SameAskingTwice(q, Promote(q, k), PromoteFrom(q, k));
      }
    }
  }

  /** Two throttled jobs are due and nothing else waits. */
  predicate BothDue(q: Queue) {
    && RefsOk(q) && q.ready && !q.paused && q.pending == [[], [], [], []] && q.running == {0}
    && q.scheduled == [1, 2] && q.throttled == {1, 2} && |q.jobs| == 3
    && (forall r :: 1 <= r < 3 ==> q.jobs[r] == Waiting(q.jobs[r].id, Scheduled, 1000))
    && q.config == ONE_PER_SECOND && q.limiter == RateLimiter.Run(ONCE, ONCE) && q.clock == 1000
  }

  lemma BothDueIn(q: Queue, t: nat)
    requires BothDue(q) && t < TIERS
    ensures Refs([1, 2], |q.jobs|)
    ensures Due(q, t, true, [1, 2]) == (if t == 2 then [1, 2] else []) && Due(q, t, false, [1, 2]) == []
    ensures NotDue(q, [1, 2]) == []
  {
    var both, last := [1, 2], [2];
    assert both[1..] == last && last[1..] == [];
    DueFirst(q, t, true, both);
    DueFirst(q, t, false, both);
    DueFirst(q, t, true, last);
    DueFirst(q, t, false, last);
    assert [1] + [2] == both;
    hide Refs, Due, NotDue;
    assert q.jobs[1].priority == Normal && q.jobs[2].priority == Normal;
  }

  lemma TwoReversed()
    ensures Reversed([1, 2]) == [2, 1] && Reversed([]) == []
  {
    assert [1, 2][1..] == [2] && [2][1..] == [];
  }

  lemma BothTier(q: Queue, t: nat)
    requires BothDue(q) && t < TIERS
    ensures PromoteFrom(q, 0).pending[t] == (if t == 2 then [2, 1] else []) && PromoteFrom(q, 0).scheduled == []
  {
    hide PromoteFrom, Due, NotDue, Refs;
    BothDueIn(q, t);
    TwoReversed();
    assert q.scheduled[0..] == [1, 2] && q.scheduled[..0] == [];
    PromotionOrder(q, 0, t);
    hide Reversed;
  }

  lemma BothReversed(q: Queue)
    requires BothDue(q)
    ensures Line(PromoteFrom(q, 0).pending) == [2, 1] && PromoteFrom(q, 0).scheduled == []
  {
    BothTier(q, 0);
    BothTier(q, 1);
    BothTier(q, 2);
    BothTier(q, 3);
    hide PromoteFrom, Line, Refs;
    NormalOnly(PromoteFrom(q, 0).pending);
  }

  lemma NormalOnly(pending: seq<seq<nat>>)
    requires |pending| == TIERS && pending[0] == [] && pending[1] == [] && pending[3] == []
    ensures Line(pending) == pending[2]
  {
  }

  lemma AskLater()
    ensures var w, u := [RateLimiter.Window(1000, 1)], [RateLimiter.Use(1000, 1)];
            && RateLimiter.Prune(u, 0) == u && RateLimiter.Wait(u, w, 1, 1000) > 0
  {
    var w, u := [RateLimiter.Window(1000, 1)], [RateLimiter.Use(1000, 1)];
    assert w[..0] == [];
    assert u[1..] == [];
    assert RateLimiter.UsedAfter(u, 0) == 1;
    assert RateLimiter.Expiry(u, 1, 0) == Some(1000);
  }

  predicate SmallNormal(q: Queue, r: nat) {
    r < |q.jobs| && q.jobs[r].key == "" && q.jobs[r].cost == 1 && q.config == ONE_PER_SECOND && q.clock == 1000
  }

  lemma AskAfterSecond(q: Queue, r: nat)
    requires RefsOk(q) && SmallNormal(q, r) && q.limiter == RateLimiter.Run(ONCE, ONCE)
    ensures WaitFor(q, r) == 0 && RateLimiter.Of(Asked(q, r).limiter.uses, "") == [RateLimiter.Use(1000, 1)]
    ensures Asked(q, r) == q.(limiter := Asked(q, r).limiter)
  {
    hide Refs, RateLimiter.Wait, RateLimiter.Longest, RateLimiter.Prune;
    AskTwice();
  }

  lemma AskFull(q: Queue, r: nat)
    requires RefsOk(q) && SmallNormal(q, r) && RateLimiter.Of(q.limiter.uses, "") == [RateLimiter.Use(1000, 1)]
    ensures WaitFor(q, r) > 0
  {
    hide Refs, RateLimiter.Wait, RateLimiter.Longest, RateLimiter.Prune;
    AskTwice();
    AskLater();
  }

  lemma LastHeld(q: Queue, r: nat, free: nat)
    requires RefsOk(q) && r < |q.jobs| && WaitFor(q, r) > 0 && free > 0
    ensures Refs([r], |q.jobs|) && Serve(q, [r], free) == Served([], [r])
  {
    hide RefsOk, Asked, WaitFor;
    assert [r][1..] == [];
  }

  lemma ThirdServed(q: Queue)
    requires RefsOk(q) && |q.jobs| == 3 && q.limiter == RateLimiter.Run(ONCE, ONCE)
    requires SmallNormal(q, 1) && SmallNormal(q, 2)
    ensures Refs([2, 1], |q.jobs|) && Serve(q, [2, 1], 2) == Served([2], [1])
  {
    AskAfterSecond(q, 2);
    hide Asked, WaitFor, RefsOk;
    AskFull(Asked(q, 2), 1);
    LastHeld(Asked(q, 2), 1, 1);
    assert [2, 1][1..] == [1];
  }

  /** The third job starts, the second is throttled again. */
  lemma ThirdStarts(q: Queue)
    requires Good(q) && BothDue(q)
    ensures 2 in PromoteDue(q).running && 1 !in PromoteDue(q).running
  {
    hide Good, PromoteFrom, Serve, Refs, Tick, Line, SmallNormal;
    var q0 := q.(timer := None);
    GoodTimer(q, None);
    var q1 := PromoteFrom(q0, 0);
    var q2 := Armed(q1);
    BothReversed(q0);
    PromoteFromSame(q0, 0);
    PromoteFromGood(q0, 0);
    ArmedGood(q1);
    ArmedKeeps(q1);
    hide Armed;
    BothSmall(q0, q2);
    ThirdServed(q2);
    TickServes(q2);
  }

  lemma BothSmall(q: Queue, q': Queue)
    requires BothDue(q) && SameAsking(q, q')
    ensures SmallNormal(q', 1) && SmallNormal(q', 2)
  {
    hide RefsOk;
  }

  function Mail(id: string): Event { Enqueue(id, Normal, None, "", 1) }

  lemma SentFilling()
    ensures Filling(SENT_ONE)
  {
  }

  lemma TwoHeld()
    ensures Filling(SENT_ONE) && Filling(Held(SENT_ONE, "b"))
    ensures Step(SENT_ONE, Mail("b")) == Held(SENT_ONE, "b")
    ensures Step(Held(SENT_ONE, "b"), Mail("c")) == Held(Held(SENT_ONE, "b"), "c")
  {
    SentFilling();
    hide Filling, Step;
    HoldNext(SENT_ONE, "b");
    HoldNext(Held(SENT_ONE, "b"), "c");
  }

  lemma SecondPasses()
    ensures var q := Held(Held(SENT_ONE, "b"), "c");
            RefsOk(q) && BothDue(Step(q, Clock(1000))) && Step(q, Clock(1000)).timer.Some? && |q.jobs| == 3 && q.running == {0}
  {
    var q := Held(Held(SENT_ONE, "b"), "c");
    assert Step(q, Clock(1000)) == q.(clock := 1000);
  }

  /** So a later job can overtake an earlier one of the same priority: of two throttled together, the one
      that came last starts first when both are due. */
  lemma LaterGoesFirst()
    ensures RefsOk(Created(ONE_PER_SECOND, 0))
    ensures var sent := Step(Step(Created(ONE_PER_SECOND, 0), SetSendFn), Mail("a"));
            var both := Step(Step(sent, Mail("b")), Mail("c"));
            var q := Step(Step(both, Clock(1000)), TimerFires);
            |both.jobs| == 3 && both.running == {0} && 2 in q.running && 1 !in q.running
  {
    SendFirst();
    TwoHeld();
    SecondPasses();
    var q0, q4 := Created(ONE_PER_SECOND, 0), Held(Held(SENT_ONE, "b"), "c");
    CreatedGood(ONE_PER_SECOND, 0);
    hide Step, Good, Filling, BothDue, Refs, Held, Created;
    StepGood(q0, SetSendFn);
    StepGood(Step(q0, SetSendFn), Mail("a"));
    StepGood(SENT_ONE, Mail("b"));
    StepGood(Held(SENT_ONE, "b"), Mail("c"));
    StepGood(q4, Clock(1000));
    TimerStarts(Step(q4, Clock(1000)));
  }

  lemma TimerStarts(q: Queue)
    requires Good(q) && BothDue(q) && q.timer.Some?
    ensures var q' := Step(q, TimerFires); 2 in q'.running && 1 !in q'.running
  {
    hide Good, PromoteDue;
    ThirdStarts(q);
  }

  // ---- Interrupts --------------------------------------------------------------------

  lemma PutBackInPlace(pending: seq<seq<nat>>, t: nat)
    requires t < |pending| && pending[t] != []
    ensures var cut := Cut(pending[t], 0); pending[t := cut][t := [pending[t][0]] + cut] == pending
  {
    assert [pending[t][0]] + Cut(pending[t], 0) == pending[t];
  }

  function Ran(j: Job): Job {
    j.(status := Running, attempts := j.attempts + 1, starts := j.starts + 1)
  }

  lemma StartedAndTaken(q: Queue, r: nat)
    requires RefsOk(q) && r < |q.jobs| && r !in q.running && r !in q.reasons
    ensures r in Begin(q, r).running && TakeRunning(Begin(q, r), r) == q.(jobs := q.jobs[r := Ran(q.jobs[r])])
  {
    hide Refs;
    assert q.running + {r} - {r} == q.running;
    assert q.reasons - {r} - {r} == q.reasons;
  }

  lemma InterruptedFirst(q: Queue, r: nat, o: Outcome, delay: nat)
    requires RefsOk(q) && r < |q.jobs|
    ensures var j, t := q.jobs[r], Rank(q.jobs[r].priority);
            Settle(q, r, Some(Interrupt), o, delay)
            == q.(jobs := q.jobs[r := j.(status := Pending, attempts := j.attempts - 1, interrupts := j.interrupts + 1)],
                  pending := q.pending[t := [r] + q.pending[t]])
  {
    hide Refs, Rank, Armed;
  }

  /** Interrupting an attempt undoes its start: the job is first in line again, with no attempt counted, and
      everything else is as it was, but for two things: the job's two tallies tell, and the limiter keeps the
      use that was recorded. */
  lemma InterruptUndoesStart(q: Queue, t: nat, o: Outcome, delay: nat)
    requires Good(q) && RefsOk(q) && t < TIERS && q.pending[t] != []
    ensures q.pending[t][0] < |q.jobs|
    ensures var r := q.pending[t][0];
            var began := StartNext(q, t);
            var j := q.jobs[r].(starts := q.jobs[r].starts + 1, interrupts := q.jobs[r].interrupts + 1);
            WaitFor(q, r) == 0 ==>
              && r in began.running
              && Settle(TakeRunning(began, r), r, Some(Interrupt), o, delay)
                 == q.(jobs := q.jobs[r := j], limiter := Asked(q, r).limiter)
  {
    hide Good, Refs, Cut, Rank, Settle, Begin, TakeRunning, Asked, WaitFor;
    var r := q.pending[t][0];
    FrontOfTier(q, t);
    if WaitFor(q, r) == 0 {
      AskedTaken(q, t, 0, r);
      var q0 := Asked(TakePending(q, t, 0), r);
      assert q0 == q.(pending := TakePending(q, t, 0).pending, limiter := Asked(q, r).limiter);
      assert StartNext(q, t) == Begin(q0, r);
      hide StartNext, TakePending;
      StartedAndTaken(q0, r);
      InterruptedFirst(q0.(jobs := q.jobs[r := Ran(q.jobs[r])]), r, o, delay);
      PutBackInPlace(q.pending, t);
      var j := q.jobs[r].(starts := q.jobs[r].starts + 1, interrupts := q.jobs[r].interrupts + 1);
      assert q.jobs[r := Ran(q.jobs[r])][r := j] == q.jobs[r := j];
    }
  }
}
