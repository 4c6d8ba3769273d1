/** The bridge between an external queue and the send queue (src/queue/MailWorker.ts). Each operation is one
    step between two awaits. Deliveries are the messages that dequeue returned, numbered as they came. */
module MailWorker {
  import opened Text

  /** What has become of a job of the send queue. */
  datatype Fate = Open | Sent | Died | Dropped

  /** What the driver is told about a delivery. */
  datatype Answer = Ack | Nack | Cancel | Release

  /** The answer a finished job calls for. */
  function AnswerFor(f: Fate): Answer
    requires f != Open
  {
    match f
    case Sent => Ack
    case Died => Nack
    case Dropped => Cancel
  }

  /** Why a delivery was answered: its job finished, it was a copy of a message whose job is known, or it
      was not started. */
  datatype Cause = Of(job: nat) | CopyOf(original: nat) | Unstarted

  /** One call to the driver. */
  datatype Entry = Entry(delivery: nat, answer: Answer, cause: Cause)

  /** A delivery that has not been answered, and the job it became. */
  datatype Held = Held(job: nat, delivery: nat)

  /** Where the consuming loop is: about to test its condition, at one of its awaits, or ended. */
  datatype Phase = AtHead | Full | Dequeuing | Sleeping | Releasing | Ended

  datatype Stage = Up | Stopping | Draining | Down

  /** The worker. `held` is idMap in insertion order; `chained` counts loops that start when the one before
      them ends, `awaited` those that shutdown still waits for: the ones there were when it was called.
      `jobs`, `closed`: the send queue's jobs and whether it is shut down. `log` holds the driver calls,
      `given` counts deliveries, and `lost` those that enqueue refused. */
  datatype Worker = Worker(
    consuming: bool, started: bool, phase: Phase, chained: nat, awaited: nat, held: seq<Held>, stage: Stage,
    jobs: seq<Fate>, closed: bool, log: seq<Entry>, given: nat, lost: set<nat>, maxHeld: nat)

  function Created(maxHeld: nat): Worker {
    Worker(false, false, Ended, 0, 0, [], Up, [], false, [], 0, {}, maxHeld)
  }

  // ---- idMap -------------------------------------------------------------------------

  /** Position of a job in idMap, -1 if it is not there. */
  function HeldAt(held: seq<Held>, job: nat, from: nat): (i: int)
    ensures i == -1 || (from <= i < |held| && held[i].job == job)
    ensures i == -1 ==> forall k :: from <= k < |held| ==> held[k].job != job
    decreases |held| - from
  {
    if from >= |held| then -1 else if held[from].job == job then from else HeldAt(held, job, from + 1)
  }

  function Without(held: seq<Held>, i: nat): seq<Held>
    requires i < |held|
  {
    held[..i] + held[i + 1..]
  }

  // ---- Steps -------------------------------------------------------------------------

  /** What enqueue makes of a message: a new job, or the one its idempotency key belongs to, or an exception
      because its data is missing or its priority is unknown. */
  datatype Lookup = Fresh | Existing(job: nat) | Faulty

  datatype Event =
    | Start
    | Pause
    | LoopHead
    | Dequeued(message: Option<Lookup>)
    | DequeueFails
    | SleepEnds
    | ReleaseReturns
    | NextLoop
    | JobEnds(job: nat, fate: Fate)
    | AppEnqueues
    | Shutdown
    | LoopAwaited
    | QueueDown

  /** wakeSlot */
  function Woken(w: Worker): Worker {
    if w.phase == Full || w.phase == Sleeping then w.(phase := AtHead) else w
  }

  /** startLoop */
  function LoopStarted(w: Worker): Worker {
    if w.consuming then w
    else if w.started then w.(consuming := true, chained := w.chained + 1)
    else w.(consuming := true, started := true, phase := AtHead)
  }

  /** A loop comes to its end. */
  function LoopDone(w: Worker): Worker {
    w.(phase := Ended, awaited := if w.awaited > 0 then w.awaited - 1 else 0)
  }

  /** Loops that have not ended. */
  function LoopsLeft(w: Worker): nat {
    w.chained + (if w.phase == Ended then 0 else 1)
  }

  /** The loop's condition and the test for room. */
  function Head(w: Worker): Worker {
    if !w.consuming then LoopDone(w)
    else if |w.held| >= w.maxHeld then w.(phase := Full)
    else w.(phase := Dequeuing)
  }

  /** A message arrived, delivery number `given`. */
  function Arrived(w: Worker, m: Lookup): Worker {
    var d := w.given;
    var w1 := w.(given := d + 1);
    if !w.consuming then w1.(log := w.log + [Entry(d, Release, Unstarted)], phase := Releasing)
    else if w.closed || m.Faulty? then w1.(lost := w.lost + {d}, phase := Sleeping)
    else match m
      case Fresh => w1.(jobs := w.jobs + [Open], held := w.held + [Held(|w.jobs|, d)], phase := AtHead)
      case Existing(r) =>
        if r >= |w.jobs| then w
        else if HeldAt(w.held, r, 0) >= 0 || w.jobs[r] != Open
        then w1.(log := w.log + [Entry(d, Ack, CopyOf(r))], phase := AtHead)
        else w1.(held := w.held + [Held(r, d)], phase := AtHead)
  }

  /** settle */
  function Settled(w: Worker, r: nat, answer: Answer): Worker {
    var i := HeldAt(w.held, r, 0);
    if i == -1 then w
    else Woken(w.(held := Without(w.held, i), log := w.log + [Entry(w.held[i].delivery, answer, Of(r))]))
  }

  function Finished(w: Worker, r: nat, f: Fate): Worker {
    if r >= |w.jobs| || w.jobs[r] != Open || f == Open then w
    else Settled(w.(jobs := w.jobs[r := f]), r, AnswerFor(f))
  }

  /** The releases at the end of shutdown, in order. */
  function Releases(held: seq<Held>): seq<Entry> {
    if held == [] then []
    else Releases(held[..|held| - 1]) + [Entry(held[|held| - 1].delivery, Release, Unstarted)]
  }

  function Step(w: Worker, e: Event): Worker {
    match e
    case Start => LoopStarted(w)
    case Pause => Woken(w.(consuming := false))
    case LoopHead => if w.phase == AtHead then Head(w) else w
    case Dequeued(m) =>
      if w.phase != Dequeuing then w
      else if m.Some? then Arrived(w, m.value)
      else if !w.consuming then LoopDone(w)
      else w.(phase := Sleeping)
    case DequeueFails => if w.phase == Dequeuing then w.(phase := Sleeping) else w
    case SleepEnds => if w.phase == Sleeping then w.(phase := AtHead) else w
    case ReleaseReturns => if w.phase == Releasing then LoopDone(w) else w
    case NextLoop => if w.phase == Ended && w.chained > 0 then w.(phase := AtHead, chained := w.chained - 1) else w
    case JobEnds(r, f) => Finished(w, r, f)
    case AppEnqueues => if w.closed then w else w.(jobs := w.jobs + [Open])
    case Shutdown =>
      if w.stage == Up then Woken(w.(consuming := false, stage := Stopping, awaited := LoopsLeft(w))) else w
    case LoopAwaited =>
      if w.stage == Stopping && w.awaited == 0 then w.(stage := Draining, closed := true) else w
    case QueueDown =>
      if w.stage == Draining then w.(stage := Down, held := [], log := w.log + Releases(w.held)) else w
  }

  function Run(w: Worker, events: seq<Event>): Worker
    decreases |events|
  {
    if events == [] then w else Run(Step(w, events[0]), events[1..])
  }

  // ---- Counting answers --------------------------------------------------------------

  function One(b: bool): nat { if b then 1 else 0 }

  /** How often the driver was given an answer for a delivery. */
  function Answers(log: seq<Entry>, d: nat): nat {
    if log == [] then 0 else Answers(log[..|log| - 1], d) + One(log[|log| - 1].delivery == d)
  }

  function Holds(held: seq<Held>, d: nat): nat {
    if held == [] then 0 else Holds(held[..|held| - 1], d) + One(held[|held| - 1].delivery == d)
  }

  lemma AnswersPush(log: seq<Entry>, e: Entry, d: nat)
    ensures Answers(log + [e], d) == Answers(log, d) + One(e.delivery == d)
  {
    assert (log + [e])[..|log|] == log;
  }

  lemma HoldsPush(held: seq<Held>, h: Held, d: nat)
    ensures Holds(held + [h], d) == Holds(held, d) + One(h.delivery == d)
  {
    assert (held + [h])[..|held|] == held;
  }

  lemma {:induction false} HoldsWithout(held: seq<Held>, i: nat, d: nat)
    requires i < |held|
    ensures Holds(Without(held, i), d) == Holds(held, d) - One(held[i].delivery == d)
  {
    var n := |held| - 1;
    if i == n {
      assert Without(held, i) == held[..n];
    } else {
      HoldsWithout(held[..n], i, d);
      assert Without(held, i) == Without(held[..n], i) + [held[n]];
      HoldsPush(Without(held[..n], i), held[n], d);
    }
  }

  lemma {:induction false} ReleasesAnswer(log: seq<Entry>, held: seq<Held>, d: nat)
    ensures Answers(log + Releases(held), d) == Answers(log, d) + Holds(held, d)
  {
    if held == [] {
      assert log + Releases(held) == log;
    } else {
      var n := |held| - 1;
      var last := Entry(held[n].delivery, Release, Unstarted);
      ReleasesAnswer(log, held[..n], d);
      assert log + Releases(held) == log + Releases(held[..n]) + [last];
      AnswersPush(log + Releases(held[..n]), last, d);
    }
  }

  // ---- The invariant -----------------------------------------------------------------

  /** Each delivery was answered once, or is held once, or enqueue refused it. */
  ghost predicate EachOnce(w: Worker) {
    OnceAmong(w.log, w.held, w.lost, w.given)
  }

  ghost predicate OnceAmong(log: seq<Entry>, held: seq<Held>, lost: set<nat>, given: nat) {
    forall d: nat :: Answers(log, d) + Holds(held, d) + One(d in lost) == One(d < given)
  }

  /** Held jobs are different and unfinished. */
  predicate HeldOk(w: Worker) {
    HeldAmong(w.held, w.jobs)
  }

  predicate HeldAmong(held: seq<Held>, jobs: seq<Fate>) {
    && (forall i, j :: 0 <= i < j < |held| ==> held[i].job != held[j].job)
    && (forall i :: 0 <= i < |held| ==> held[i].job < |jobs| && jobs[held[i].job] == Open)
  }

  /** The driver was told what became of the job, and a copy was acknowledged only while another delivery
      of the message was in hand or after its job finished. */
  predicate Truthful(w: Worker) {
    AllTrue(w.log, w.jobs, w.held, w.stage == Down)
  }

  predicate AllTrue(log: seq<Entry>, jobs: seq<Fate>, held: seq<Held>, down: bool) {
    forall i :: 0 <= i < |log| ==> IsTrue(log[i], jobs, held, down)
  }

  predicate IsTrue(e: Entry, jobs: seq<Fate>, held: seq<Held>, down: bool) {
    match e.cause
    case Of(r) =>
      && r < |jobs| && jobs[r] != Open && e.answer != Release
      && (e.answer == Ack <==> jobs[r] == Sent) && (e.answer == Nack <==> jobs[r] == Died)
      && (e.answer == Cancel <==> jobs[r] == Dropped)
    case CopyOf(r) => r < |jobs| && e.answer == Ack && (jobs[r] != Open || HeldAt(held, r, 0) >= 0 || down)
    case Unstarted => e.answer == Release
  }

  /** Backpressure, and no missed wake-up: the loop waits for room only while there is none. */
  predicate Bounded(w: Worker) {
    && |w.held| <= w.maxHeld
    && (w.phase == Dequeuing ==> |w.held| < w.maxHeld)
    && (w.phase == Full ==> w.consuming && (|w.held| >= w.maxHeld || w.stage == Down))
    && (w.stage == Up || w.stage == Stopping ==> !w.closed)
    && (w.stage == Draining || w.stage == Down ==> w.closed)
    && (w.stage == Down ==> w.held == [])
  }

  /** A loop that may consume is there or to come; shutdown waits for loops that have not ended. */
  predicate LoopsOk(w: Worker) {
    && (w.consuming ==> w.started)
    && (w.consuming && (w.phase == Ended || w.phase == Releasing) ==> w.chained > 0)
    && w.awaited <= LoopsLeft(w)
    && (!w.started ==> w.phase == Ended && w.chained == 0)
    && (w.stage == Draining || w.stage == Down ==> w.awaited == 0)
  }

  ghost predicate Inv(w: Worker) {
    EachOnce(w) && HeldOk(w) && Truthful(w) && Bounded(w) && LoopsOk(w)
  }

  lemma ArrivedOnce(w: Worker, m: Lookup)
    requires EachOnce(w)
    ensures EachOnce(Arrived(w, m))
  {
    hide HeldAt, Answers, Holds;
    var w' := Arrived(w, m);
    forall d: nat ensures Answers(w'.log, d) + Holds(w'.held, d) + One(d in w'.lost) == One(d < w'.given) {
      AnswersPush(w.log, Entry(w.given, Release, Unstarted), d);
      HoldsPush(w.held, Held(|w.jobs|, w.given), d);
      if m.Existing? {
        AnswersPush(w.log, Entry(w.given, Ack, CopyOf(m.job)), d);
        HoldsPush(w.held, Held(m.job, w.given), d);
      }
      assert d == w.given ==> Answers(w.log, d) + Holds(w.held, d) + One(d in w.lost) == 0;
    }
  }

  lemma SettledOnce(w: Worker, r: nat, answer: Answer)
    requires EachOnce(w)
    ensures EachOnce(Settled(w, r, answer))
  {
    hide Answers, Holds, Without;
    var w', i := Settled(w, r, answer), HeldAt(w.held, r, 0);
    if i >= 0 {
      forall d: nat ensures Answers(w'.log, d) + Holds(w'.held, d) + One(d in w'.lost) == One(d < w'.given) {
        AnswersPush(w.log, Entry(w.held[i].delivery, answer, Of(r)), d);
        HoldsWithout(w.held, i, d);
      }
    }
  }

  lemma ReleasedOnce(w: Worker)
    requires EachOnce(w)
    ensures EachOnce(w.(stage := Down, held := [], log := w.log + Releases(w.held)))
  {
    hide Answers, Releases;
    forall d: nat
      ensures Answers(w.log + Releases(w.held), d) + Holds([], d) + One(d in w.lost) == One(d < w.given)
    {
      ReleasesAnswer(w.log, w.held, d);
    }
  }

  lemma StepOnce(w: Worker, e: Event)
    requires EachOnce(w)
    ensures EachOnce(Step(w, e))
  {
    hide OnceAmong, Releases, Arrived, Settled;
    if e.Dequeued? && e.message.Some? {
      ArrivedOnce(w, e.message.value);
    } else if e.JobEnds? {
      if e.job < |w.jobs| && w.jobs[e.job] == Open && e.fate != Open {
        SettledOnce(w.(jobs := w.jobs[e.job := e.fate]), e.job, AnswerFor(e.fate));
      }
    } else if e.QueueDown? {
      ReleasedOnce(w);
    }
  }

  lemma ArrivedHeld(w: Worker, m: Lookup)
    requires HeldOk(w)
    ensures HeldOk(Arrived(w, m))
  {
    hide HeldAt;
  }

  /** The job at position `i` is settled. */
  lemma HeldWithout(held: seq<Held>, jobs: seq<Fate>, i: nat, f: Fate)
    requires HeldAmong(held, jobs) && i < |held|
    ensures HeldAmong(Without(held, i), jobs[held[i].job := f])
  {
    var held' := Without(held, i);
    forall k | 0 <= k < |held'| ensures held'[k] == held[if k < i then k else k + 1] {
    }
    hide Without;
  }

  lemma HeldOthers(held: seq<Held>, jobs: seq<Fate>, r: nat, f: Fate)
    requires HeldAmong(held, jobs) && r < |jobs| && HeldAt(held, r, 0) == -1
    ensures HeldAmong(held, jobs[r := f])
  {
    hide HeldAt;
  }

  lemma FinishedHeld(w: Worker, r: nat, f: Fate)
    requires HeldOk(w)
    ensures HeldOk(Finished(w, r, f))
  {
    hide AnswerFor, HeldAt, Without, HeldAmong;
    if r < |w.jobs| && w.jobs[r] == Open && f != Open {
      var i := HeldAt(w.held, r, 0);
      if i >= 0 {
        HeldWithout(w.held, w.jobs, i, f);
      } else {
        HeldOthers(w.held, w.jobs, r, f);
      }
    }
  }

  lemma StepHeld(w: Worker, e: Event)
    requires HeldOk(w)
    ensures HeldOk(Step(w, e))
  {
    hide Releases, Arrived, Finished;
    if e.Dequeued? && e.message.Some? {
      ArrivedHeld(w, e.message.value);
    } else if e.JobEnds? {
      FinishedHeld(w, e.job, e.fate);
    }
  }

  lemma ArrivedTruthful(w: Worker, m: Lookup)
    requires Truthful(w)
    ensures Truthful(Arrived(w, m))
  {
    hide AnswerFor;
    forall r | HeldAt(w.held, r, 0) >= 0 ensures HeldAt(w.held + [Held(|w.jobs|, w.given)], r, 0) >= 0 {
      FindPush(w.held, Held(|w.jobs|, w.given), r);
    }
    if m.Existing? {
      forall r | HeldAt(w.held, r, 0) >= 0 ensures HeldAt(w.held + [Held(m.job, w.given)], r, 0) >= 0 {
        FindPush(w.held, Held(m.job, w.given), r);
      }
    }
    hide HeldAt;
  }

  lemma FindPush(held: seq<Held>, h: Held, r: nat)
    requires HeldAt(held, r, 0) >= 0
    ensures HeldAt(held + [h], r, 0) >= 0
  {
    hide HeldAt;
    assert (held + [h])[HeldAt(held, r, 0)].job == r;
  }

  lemma FindWithout(held: seq<Held>, i: nat, r: nat)
    requires i < |held| && HeldAt(held, r, 0) >= 0 && held[i].job != r
    ensures HeldAt(Without(held, i), r, 0) >= 0
  {
    hide HeldAt;
    var k := HeldAt(held, r, 0);
    assert Without(held, i)[if k < i then k else k - 1].job == r;
  }

  lemma TrueLater(e: Entry, jobs: seq<Fate>, held: seq<Held>, down: bool, i: nat, f: Fate)
    requires IsTrue(e, jobs, held, down) && i < |held| && held[i].job < |jobs|
    requires jobs[held[i].job] == Open && f != Open
    ensures IsTrue(e, jobs[held[i].job := f], Without(held, i), down)
  {
    hide AnswerFor, Without, HeldAt;
    if e.cause.CopyOf? && HeldAt(held, e.cause.original, 0) >= 0 && e.cause.original != held[i].job {
      FindWithout(held, i, e.cause.original);
    }
  }

  lemma AnswerFits(f: Fate)
    requires f != Open
    ensures var a := AnswerFor(f);
            a != Release && (a == Ack <==> f == Sent) && (a == Nack <==> f == Died) && (a == Cancel <==> f == Dropped)
  {
  }

  lemma FinishedTruthful(w: Worker, r: nat, f: Fate)
    requires Truthful(w)
    ensures Truthful(Finished(w, r, f))
  {
    hide HeldAt, AnswerFor, Without;
    var i := HeldAt(w.held, r, 0);
    if r < |w.jobs| && w.jobs[r] == Open && f != Open {
      if i >= 0 {
        forall k | 0 <= k < |w.log|
          ensures IsTrue(w.log[k], w.jobs[r := f], Without(w.held, i), w.stage == Down)
        {
          TrueLater(w.log[k], w.jobs, w.held, w.stage == Down, i, f);
        }
        AnswerFits(f);
        assert IsTrue(Entry(w.held[i].delivery, AnswerFor(f), Of(r)), w.jobs[r := f], Without(w.held, i), w.stage == Down);
        hide IsTrue;
      } else {
        forall k | 0 <= k < |w.log| ensures IsTrue(w.log[k], w.jobs[r := f], w.held, w.stage == Down) {
          assert IsTrue(w.log[k], w.jobs, w.held, w.stage == Down);
        }
      }
    }
  }

  lemma StepTruthful(w: Worker, e: Event)
    requires Truthful(w)
    ensures Truthful(Step(w, e))
  {
    hide HeldAt, Releases, AnswerFor, Finished, Arrived;
    if e.Dequeued? && e.message.Some? {
      ArrivedTruthful(w, e.message.value);
    } else if e.JobEnds? {
      FinishedTruthful(w, e.job, e.fate);
    } else if e.QueueDown? {
      ReleasesTrue(w.held);
    }
  }

  lemma {:induction false} ReleasesTrue(held: seq<Held>)
    ensures forall i :: 0 <= i < |Releases(held)| ==> Releases(held)[i].cause == Unstarted && Releases(held)[i].answer == Release
  {
    if held != [] {
      ReleasesTrue(held[..|held| - 1]);
    }
  }

  lemma StepBounded(w: Worker, e: Event)
    requires Bounded(w)
    ensures Bounded(Step(w, e))
  {
    hide Releases, HeldAt, AnswerFor;
  }

  lemma StepLoops(w: Worker, e: Event)
    requires LoopsOk(w)
    ensures LoopsOk(Step(w, e))
  {
    hide Releases, HeldAt, AnswerFor, Without;
  }

  lemma StepInv(w: Worker, e: Event)
    requires Inv(w)
    ensures Inv(Step(w, e))
  {
    hide Step, EachOnce, HeldOk, Truthful, Bounded, LoopsOk;
    StepLoops(w, e);
    StepOnce(w, e);
    StepHeld(w, e);
    StepTruthful(w, e);
    StepBounded(w, e);
  }

  lemma {:induction false} RunInv(w: Worker, events: seq<Event>)
    requires Inv(w)
    ensures Inv(Run(w, events))
    decreases |events|
  {
    hide Inv, Step;
    if events != [] {
      StepInv(w, events[0]);
      RunInv(Step(w, events[0]), events[1..]);
    }
  }

  // ---- Whole runs --------------------------------------------------------------------

  /** What becomes of a job: the first end that is reported of it. */
  function FateAfter(f: Fate, r: nat, events: seq<Event>): Fate
    decreases |events|
  {
    if f != Open || events == [] then f
    else if events[0].JobEnds? && events[0].job == r then FateAfter(events[0].fate, r, events[1..])
    else FateAfter(f, r, events[1..])
  }

  lemma StepFate(w: Worker, e: Event, r: nat)
    requires r < |w.jobs|
    ensures r < |Step(w, e).jobs|
    ensures Step(w, e).jobs[r] == if w.jobs[r] == Open && e.JobEnds? && e.job == r then e.fate else w.jobs[r]
  {
    hide HeldAt, Releases, AnswerFor, Without;
  }

  /** The worker knows of each job what the queue reported first. */
  lemma {:induction false} FateExact(w: Worker, events: seq<Event>, r: nat)
    requires r < |w.jobs|
    ensures r < |Run(w, events).jobs| && Run(w, events).jobs[r] == FateAfter(w.jobs[r], r, events)
    decreases |events|
  {
    hide Step;
    if events == [] {
    } else {
      StepFate(w, events[0], r);
      FateExact(Step(w, events[0]), events[1..], r);
      FateSettled(w.jobs[r], r, events[1..]);
    }
  }

  lemma FateSettled(f: Fate, r: nat, events: seq<Event>)
    ensures f != Open ==> FateAfter(f, r, events) == f
  {
  }

  /** start and resume are not called once shutdown was. */
  predicate NoRestart(events: seq<Event>, down: bool) {
    events == []
    || ((down ==> !events[0].Start?) && NoRestart(events[1..], down || events[0].Shutdown?))
  }

  /** No loop that shutdown waits for will test its condition again: the last one is past its test or has
      ended. */
  predicate AwaitedDone(w: Worker) {
    w.awaited == 0 || (w.awaited == 1 && w.phase == Releasing)
  }

  /** start and resume are not called once shutdown was and its loops are done. */
  predicate NoLateStart(w: Worker, events: seq<Event>)
    decreases |events|
  {
    events == []
    || ((events[0].Start? && w.stage != Up ==> !AwaitedDone(w)) && NoLateStart(Step(w, events[0]), events[1..]))
  }

  /** No message is faulty. */
  predicate Sound(events: seq<Event>) {
    forall i :: 0 <= i < |events| ==> events[i] != Dequeued(Some(Faulty))
  }

  /** Nothing was lost since `lost`, nor will be while the loop goes on. */
  ghost predicate NoneLost(w: Worker, lost: set<nat>) {
    w.lost == lost && (w.stage != Up && AwaitedDone(w) ==> !w.consuming)
  }

  lemma StepLosesNone(w: Worker, e: Event, lost: set<nat>)
    requires Bounded(w) && LoopsOk(w) && NoneLost(w, lost) && (e.Start? && w.stage != Up ==> !AwaitedDone(w))
    requires e != Dequeued(Some(Faulty))
    ensures NoneLost(Step(w, e), lost)
  {
    hide HeldAt, Releases, AnswerFor, Without;
  }

  lemma {:induction false} NothingLost(w: Worker, events: seq<Event>, lost: set<nat>)
    requires Inv(w) && NoneLost(w, lost) && NoLateStart(w, events) && Sound(events)
    ensures NoneLost(Run(w, events), lost)
    decreases |events|
  {
    hide EachOnce, HeldOk, Truthful, NoneLost, Step, AwaitedDone;
    if events != [] {
      StepInv(w, events[0]);
      StepLosesNone(w, events[0], lost);
      assert forall i :: 0 <= i < |events| - 1 ==> events[1..][i] == events[i + 1];
      NothingLost(Step(w, events[0]), events[1..], lost);
    }
  }

  lemma StepStage(w: Worker, e: Event)
    ensures Step(w, e).stage != Up <==> w.stage != Up || e.Shutdown?
  {
    hide HeldAt, Releases, AnswerFor, Without;
  }

  lemma {:induction false} NoRestartIsNotLate(w: Worker, events: seq<Event>)
    requires NoRestart(events, w.stage != Up)
    ensures NoLateStart(w, events)
    decreases |events|
  {
    hide Step, AwaitedDone;
    if events != [] {
      StepStage(w, events[0]);
      NoRestartIsNotLate(Step(w, events[0]), events[1..]);
    }
  }

  /** success is acknowledged, death is reported as such, and so is cancellation. */
  predicate AnswersFate(e: Entry, jobs: seq<Fate>)
    requires e.cause.Of?
  {
    && e.cause.job < |jobs|
    && ((jobs[e.cause.job] == Sent && e.answer == Ack) || (jobs[e.cause.job] == Died && e.answer == Nack)
        || (jobs[e.cause.job] == Dropped && e.answer == Cancel))
  }

  lemma TruthfulAnswers(w: Worker)
    requires Truthful(w)
    ensures forall i :: 0 <= i < |w.log| && w.log[i].cause.Of? ==> AnswersFate(w.log[i], w.jobs)
  {
    forall i | 0 <= i < |w.log| && w.log[i].cause.Of? ensures AnswersFate(w.log[i], w.jobs) {
      assert IsTrue(w.log[i], w.jobs, w.held, w.stage == Down);
    }
  }

  lemma CreatedInv(maxHeld: nat)
    ensures Inv(Created(maxHeld)) && NoneLost(Created(maxHeld), {})
  {
  }

  /** Nothing that may still happen answers the delivery. */
  ghost predicate Unanswerable(w: Worker, d: nat) {
    forall events: seq<Event> :: Answers(Run(w, events).log, d) == 0
  }

  lemma StepLost(w: Worker, e: Event)
    ensures w.lost <= Step(w, e).lost
  {
    hide HeldAt, Releases, AnswerFor, Without;
  }

  lemma {:induction false} LostStays(w: Worker, events: seq<Event>)
    ensures w.lost <= Run(w, events).lost
    decreases |events|
  {
    hide Step;
    if events != [] {
      StepLost(w, events[0]);
      LostStays(Step(w, events[0]), events[1..]);
    }
  }

  lemma {:induction false} HoldsOne(held: seq<Held>, d: nat) returns (i: nat)
    requires Holds(held, d) > 0
    ensures i < |held| && held[i].delivery == d
  {
    var n := |held| - 1;
    if held[n].delivery == d {
      i := n;
    } else {
      i := HoldsOne(held[..n], d);
    }
  }

  /** The success of its job answers a held delivery. */
  lemma HeldIsAnswered(w: Worker, i: nat)
    requires HeldOk(w) && i < |w.held|
    ensures Answers(Step(w, JobEnds(w.held[i].job, Sent)).log, w.held[i].delivery) > 0
  {
    hide Answers, Without;
    var h := w.held[i];
    assert HeldAt(w.held, h.job, 0) == i;
    AnswersPush(w.log, Entry(h.delivery, Ack, Of(h.job)), h.delivery);
  }

  lemma RunOne(w: Worker, e: Event)
    ensures Run(w, [e]) == Step(w, e)
  {
    hide Step;
    assert [e][1..] == [];
  }

  /** The deliveries that nothing will ever answer are those that enqueue refused. */
  lemma LostExact(w: Worker, d: nat)
    requires Inv(w) && d < w.given
    ensures d in w.lost <==> Unanswerable(w, d)
  {
    hide Run, Step, Answers, Holds, HeldOk, Truthful, Bounded, LoopsOk;
    if d in w.lost {
      forall events: seq<Event> ensures Answers(Run(w, events).log, d) == 0 {
        RunInv(w, events);
        LostStays(w, events);
        assert OnceAmong(Run(w, events).log, Run(w, events).held, Run(w, events).lost, Run(w, events).given);
      }
    } else if Answers(w.log, d) > 0 {
      RunNone(w);
      assert Answers(Run(w, []).log, d) > 0;
    } else {
      var i := HoldsOne(w.held, d);
      HeldIsAnswered(w, i);
      RunOne(w, JobEnds(w.held[i].job, Sent));
      assert Answers(Run(w, [JobEnds(w.held[i].job, Sent)]).log, d) > 0;
    }
  }

  lemma RunNone(w: Worker)
    ensures Run(w, []) == w
  {
  }

  /** A message is never answered exactly when it comes to a consuming loop and enqueue throws. */
  lemma RefusedExact(w: Worker, m: Lookup)
    requires Inv(w) && w.phase == Dequeuing && (m.Existing? ==> m.job < |w.jobs|)
    ensures Step(w, Dequeued(Some(m))).given == w.given + 1
    ensures Unanswerable(Step(w, Dequeued(Some(m))), w.given) <==> w.consuming && (w.closed || m == Faulty)
  {
    hide Inv, Unanswerable;
    var w' := Step(w, Dequeued(Some(m)));
    StepInv(w, Dequeued(Some(m)));
    ArrivedGiven(w, m);
    NotYetLost(w);
    hide Step;
    LostExact(w', w.given);
  }

  lemma ArrivedGiven(w: Worker, m: Lookup)
    requires m.Existing? ==> m.job < |w.jobs|
    ensures var w' := Arrived(w, m);
            w'.given == w.given + 1
            && w'.lost == w.lost + (if w.consuming && (w.closed || m == Faulty) then {w.given} else {})
  {
    hide HeldAt;
  }

  lemma NotYetLost(w: Worker)
    requires Inv(w)
    ensures w.given !in w.lost
  {
    hide Answers, Holds, HeldOk, Truthful, Bounded, LoopsOk;
    assert Answers(w.log, w.given) + Holds(w.held, w.given) + One(w.given in w.lost) == One(w.given < w.given);
  }

  /** Exactly one settlement: no message is answered twice, and when shutdown is through, each message that
      dequeue ever returned got exactly one ack, nack, cancel or release, or nothing ever answers it; the
      latter does not happen unless a message is faulty or start or resume is called after shutdown, when its
      loops are done. The answers match what became of the jobs. */
  lemma OneSettlement(maxHeld: nat, events: seq<Event>)
    ensures var w := Run(Created(maxHeld), events);
            && |w.held| <= maxHeld
            && Truthful(w)
            && (forall i :: 0 <= i < |w.log| && w.log[i].cause.Of? ==> AnswersFate(w.log[i], w.jobs))
            && (forall d: nat :: d < w.given ==> Answers(w.log, d) <= 1)
            && (w.stage == Down ==> forall d: nat :: d < w.given ==> (Answers(w.log, d) == 1 <==> !Unanswerable(w, d)))
            && (NoLateStart(Created(maxHeld), events) && Sound(events) ==> forall d: nat :: d < w.given ==> !Unanswerable(w, d))
            && (NoRestart(events, false) ==> NoLateStart(Created(maxHeld), events))
  {
    hide Run, Answers, Truthful, HeldOk, NoLateStart, LoopsOk, Unanswerable, Sound;
    var w0 := Created(maxHeld);
    CreatedInv(maxHeld);
    RunInv(w0, events);
    RunMax(w0, events);
    if NoRestart(events, false) { NoRestartIsNotLate(w0, events); }
    if NoLateStart(w0, events) && Sound(events) { NothingLost(w0, events, {}); }
    var w := Run(w0, events);
    TruthfulAnswers(w);
    forall d: nat | d < w.given ensures d in w.lost <==> Unanswerable(w, d) {
      LostExact(w, d);
    }
  }

  lemma {:induction false} RunMax(w: Worker, events: seq<Event>)
    ensures Run(w, events).maxHeld == w.maxHeld
    decreases |events|
  {
    hide HeldAt, Without, Releases, AnswerFor;
    if events != [] {
      RunMax(Step(w, events[0]), events[1..]);
    }
  }

  // ---- A start after shutdown ---------------------------------------------------------

  predicate NoStart(events: seq<Event>) {
    forall i :: 0 <= i < |events| ==> !events[i].Start?
  }

  /** Without another start, a message that is not faulty may be dequeued that nothing will ever answer. */
  ghost predicate MayLose(w: Worker) {
    exists events: seq<Event>, d: nat ::
      NoStart(events) && Sound(events) && w.given <= d < Run(w, events).given && Unanswerable(Run(w, events), d)
  }

  /** The last release returns, the queue shuts down, and the loop asks for the next message and gets it. */
  const QUEUE_ENDS := [ReleaseReturns, LoopAwaited, QueueDown]

  const ONE_MORE := [SleepEnds, NextLoop, LoopHead, Dequeued(Some(Fresh))]

  /** The loop started late is on its way to dequeue when the queue is shut down. */
  predicate Stranded(w: Worker) {
    && w.stage == Down && w.closed && w.consuming && w.held == []
    && w.phase != Full && w.phase != Releasing && (w.phase == Ended ==> w.chained > 0)
  }

  lemma {:induction false} RunSplit(w: Worker, a: seq<Event>, b: seq<Event>)
    ensures Run(w, a + b) == Run(Run(w, a), b)
    decreases |a|
  {
    hide Step;
    if a == [] {
      assert a + b == b;
    } else {
      assert (a + b)[1..] == a[1..] + b;
      RunSplit(Step(w, a[0]), a[1..], b);
    }
  }

  lemma RunThree(w: Worker, a: Event, b: Event, c: Event)
    ensures Run(w, [a, b, c]) == Step(Step(Step(w, a), b), c)
  {
    hide Step, Run;
    RunOne(w, a);
    RunOne(Step(w, a), b);
    RunOne(Step(Step(w, a), b), c);
    RunSplit(w, [a], [b]);
    RunSplit(w, [a] + [b], [c]);
    assert [a] + [b] + [c] == [a, b, c];
  }

  lemma LateStartStrands(w: Worker)
    requires Bounded(w) && LoopsOk(w) && w.stage != Up && !w.consuming && AwaitedDone(w)
    ensures var w' := Run(Step(w, Start), QUEUE_ENDS);
            Stranded(w') && w'.maxHeld == w.maxHeld && w'.given == w.given
  {
    hide Run, Releases;
    RunThree(Step(w, Start), ReleaseReturns, LoopAwaited, QueueDown);
  }

  lemma StrandedLoses(w: Worker)
    requires Stranded(w) && w.maxHeld > 0
    ensures var w' := Run(w, ONE_MORE); w'.given == w.given + 1 && w.given in w'.lost
  {
    hide Run, HeldAt, Releases, Finished, AnswerFor, LoopStarted;
    RunThree(w, SleepEnds, NextLoop, LoopHead);
    var w3 := Run(w, [SleepEnds, NextLoop, LoopHead]);
    RunOne(w3, Dequeued(Some(Fresh)));
    RunSplit(w, [SleepEnds, NextLoop, LoopHead], [Dequeued(Some(Fresh))]);
    assert [SleepEnds, NextLoop, LoopHead] + [Dequeued(Some(Fresh))] == ONE_MORE;
  }

  lemma {:induction false} NoStartIsNotLate(w: Worker, events: seq<Event>)
    requires NoStart(events)
    ensures NoLateStart(w, events)
    decreases |events|
  {
    hide Step, AwaitedDone;
    if events != [] {
      NoStartIsNotLate(Step(w, events[0]), events[1..]);
    }
  }

  lemma AwaitingLosesNone(w: Worker)
    requires Bounded(w) && LoopsOk(w) && w.stage != Up && !AwaitedDone(w)
    ensures NoneLost(w, w.lost)
  {
  }

  lemma LostSoFar(w: Worker)
    requires Inv(w)
    ensures forall d: nat :: d in w.lost ==> d < w.given
  {
    hide Answers, Holds, HeldOk, Truthful, Bounded, LoopsOk;
    forall d: nat | d in w.lost ensures d < w.given {
      assert Answers(w.log, d) + Holds(w.held, d) + One(d in w.lost) == One(d < w.given);
    }
  }

  /** A start or resume after shutdown, from any state the worker can be in: it may cost a message exactly
      when no loop that shutdown waits for will see it. */
  lemma LateStartExact(w: Worker)
    requires Inv(w) && w.stage != Up && !w.consuming && w.maxHeld > 0
    ensures AwaitedDone(w) <==> MayLose(Step(w, Start))
  {
    hide Run, Step, EachOnce, HeldOk, Truthful, Unanswerable, AwaitedDone;
    var w1 := Step(w, Start);
    StepInv(w, Start);
    LateStartEvents(w);
    if AwaitedDone(w) {
      var w2 := Run(w1, QUEUE_ENDS);
      var events := QUEUE_ENDS + ONE_MORE;
      LateStartStrands(w);
      StrandedLoses(w2);
      RunSplit(w1, QUEUE_ENDS, ONE_MORE);
      RunInv(w1, events);
      LostExact(Run(w1, events), w.given);
      assert NoStart(events) && Sound(events) && w1.given <= w.given < Run(w1, events).given;
    } else {
      AwaitingLosesNone(w);
      StepLosesNone(w, Start, w.lost);
      LostSoFar(w);
      forall events: seq<Event>, d: nat | NoStart(events) && Sound(events) && w1.given <= d < Run(w1, events).given
        ensures !Unanswerable(Run(w1, events), d)
      {
        NoStartIsNotLate(w1, events);
        NothingLost(w1, events, w.lost);
        assert d !in w.lost;
        RunInv(w1, events);
        LostExact(Run(w1, events), d);
      }
    }
  }

  /** A short run: shutdown is called during the first dequeue, which returns nothing and ends the loop,
      before resume. */
  lemma RestartLoses()
    ensures MayLose(Run(Created(1), [Start, LoopHead, Shutdown, Dequeued(None), Start]))
  {
    var w, stop := Created(1).(started := true, stage := Stopping), [Start, LoopHead, Shutdown, Dequeued(None)];
    StopSteps();
    hide Step, Run, MayLose, Inv;
    CreatedInv(1);
    RunInv(Created(1), stop);
    RunThree(Created(1), Start, LoopHead, Shutdown);
    RunOne(Run(Created(1), [Start, LoopHead, Shutdown]), Dequeued(None));
    RunSplit(Created(1), [Start, LoopHead, Shutdown], [Dequeued(None)]);
    assert [Start, LoopHead, Shutdown] + [Dequeued(None)] == stop;
    RunOne(w, Start);
    RunSplit(Created(1), stop, [Start]);
    assert stop + [Start] == [Start, LoopHead, Shutdown, Dequeued(None), Start];
    LateStartExact(w);
  }

  lemma StopSteps()
    ensures Step(Step(Step(Step(Created(1), Start), LoopHead), Shutdown), Dequeued(None))
            == Created(1).(started := true, stage := Stopping)
  {
    hide Arrived, Finished, Releases;
  }

  lemma LateStartEvents(w: Worker)
    ensures NoStart(QUEUE_ENDS + ONE_MORE) && Sound(QUEUE_ENDS + ONE_MORE) && Step(w, Start).given == w.given
  {
  }

  // ---- Shutdown gets through ---------------------------------------------------------

  /** What the loops still have to do once `consuming` is false. */
  function LoopWork(w: Worker): nat {
    4 * w.chained
    + match w.phase
      case Ended => 0
      case AtHead => 1
      case Releasing => 1
      case Full => 2
      case Sleeping => 2
      case Dequeuing => 3
  }

  /** The event the loop waits for. */
  predicate Moves(w: Worker, e: Event) {
    match w.phase
    case AtHead => e.LoopHead?
    case Full => false
    case Dequeuing => (e.Dequeued? && (e.message.Some? && e.message.value.Existing? ==> e.message.value.job < |w.jobs|)) || e.DequeueFails?
    case Sleeping => e.SleepEnds?
    case Releasing => e.ReleaseReturns?
    case Ended => e.NextLoop?
  }

  /** After shutdown was called the loop only winds down, and it never waits for a slot: each answer of the
      driver and each timer brings it closer to its end, and at the end shutdown goes on. */
  lemma WindsDown(w: Worker, e: Event)
    requires Bounded(w) && LoopsOk(w) && w.stage != Up && !w.consuming && !e.Start?
    ensures w.phase != Full && !Step(w, e).consuming && LoopWork(Step(w, e)) <= LoopWork(w)
    ensures Moves(w, e) && LoopWork(w) > 0 ==> LoopWork(Step(w, e)) < LoopWork(w)
    ensures LoopWork(w) == 0 && w.stage == Stopping && e == LoopAwaited ==> Step(w, e).stage == Draining
    ensures w.stage == Draining && e == QueueDown ==> Step(w, e).stage == Down
  {
    hide Releases, HeldAt, AnswerFor;
  }

  // ---- The worker object -------------------------------------------------------------

  class Consumer {
    var consuming: bool
    var started: bool
    var phase: Phase
    var chained: nat
    /** Loops that the running shutdown waits for. */
    var awaited: nat
    /** idMap */
    var held: seq<Held>
    var stage: Stage
    var jobs: seq<Fate>
    var closed: bool
    /** The calls to the driver. */
    var log: seq<Entry>
    var given: nat
    ghost var lost: set<nat>
    const maxHeld: nat

    ghost function State(): Worker
      reads this
    {
      Worker(consuming, started, phase, chained, awaited, held, stage, jobs, closed, log, given, lost, maxHeld)
    }

    constructor (maxHeld: nat)
      ensures State() == Created(maxHeld)
    {
      this.maxHeld := maxHeld;
      consuming, started, phase, chained, awaited, held, stage := false, false, Ended, 0, 0, [], Up;
      jobs, closed, log, given, lost := [], false, [], 0, {};
    }

    method WakeSlot()
      modifies this`phase
      ensures State() == Woken(old(State()))
    {
      if phase == Full || phase == Sleeping { phase := AtHead; }
    }

    method StartLoop()
      modifies this`consuming, this`started, this`phase, this`chained
      ensures State() == Step(old(State()), Start)
    {
      if consuming { return; }
      consuming := true;
      if started {
        chained := chained + 1;
      } else {
        started := true;
        phase := AtHead;
      }
    }

    method PauseConsuming()
      modifies this`consuming, this`phase
      ensures State() == Step(old(State()), Pause)
    {
      consuming := false;
      WakeSlot();
    }

    /** The loop's promise resolves. */
    method EndLoop()
      modifies this`phase, this`awaited
      ensures State() == LoopDone(old(State()))
    {
      phase := Ended;
      if awaited > 0 { awaited := awaited - 1; }
    }

    /** The loop's condition and the test for room, up to the next await. */
    method TestCondition()
      modifies this`phase, this`awaited
      ensures State() == Step(old(State()), LoopHead)
    {
      if phase != AtHead { return; }
      if !consuming {
        EndLoop();
      } else if |held| >= maxHeld {
        phase := Full;
      } else {
        phase := Dequeuing;
      }
    }

    method IndexOf(job: nat) returns (i: int)
      ensures i == HeldAt(held, job, 0)
    {
      i := 0;
      while i < |held|
        invariant 0 <= i <= |held| && HeldAt(held, job, 0) == HeldAt(held, job, i)
      {
        if held[i].job == job { return; }
        i := i + 1;
      }
      i := -1;
    }

    /** dequeue returned a message; `m` is what enqueue will make of it. */
    method TakeMessage(m: Lookup)
      requires phase == Dequeuing && (m.Existing? ==> m.job < |jobs|)
      modifies this
      ensures State() == Step(old(State()), Dequeued(Some(m)))
    {
      hide HeldAt;
      var d := given;
      given := given + 1;
      if !consuming {
        log := log + [Entry(d, Release, Unstarted)];
        phase := Releasing;
        return;
      }
      if closed || m == Faulty {
        lost := lost + {d};
        phase := Sleeping;
        return;
      }
      var job := |jobs|;
      if m.Existing? {
        job := m.job;
      } else {
        jobs := jobs + [Open];
      }
      var i := IndexOf(job);
      if m.Existing? && (i >= 0 || jobs[job] != Open) {
        log := log + [Entry(d, Ack, CopyOf(job))];
      } else {
        held := held + [Held(job, d)];
      }
      phase := AtHead;
    }

    method Settle(job: nat, answer: Answer)
      modifies this`held, this`log, this`phase
      ensures State() == Settled(old(State()), job, answer)
    {
      var i := IndexOf(job);
      if i == -1 { return; }
      log := log + [Entry(held[i].delivery, answer, Of(job))];
      held := Without(held, i);
      WakeSlot();
    }

    /** The queue's success, dead and cancelled events. */
    method JobFinished(job: nat, fate: Fate)
      requires job < |jobs| && jobs[job] == Open && fate != Open
      modifies this`jobs, this`held, this`log, this`phase
      ensures State() == Step(old(State()), JobEnds(job, fate))
    {
      hide Settled;
      jobs := jobs[job := fate];
      Settle(job, AnswerFor(fate));
    }

    /** shutdown, up to waiting for the loop. */
    method BeginShutdown()
      modifies this`consuming, this`stage, this`phase, this`awaited
      ensures State() == Step(old(State()), Shutdown)
    {
      hide Arrived, Finished, Releases, Head;
      if stage != Up { return; }
      awaited := chained + if phase == Ended then 0 else 1;
      consuming := false;
      stage := Stopping;
      WakeSlot();
    }

    /** shutdown, from the end of the queue's own shutdown on. */
    method ReleaseHeld()
      requires stage == Draining
      modifies this`held, this`log, this`stage
      ensures State() == Step(old(State()), QueueDown)
    {
      for i := 0 to |held|
        invariant unchanged(`held) && unchanged(`stage) && log == old(log) + Releases(held[..i])
      {
        assert held[..i + 1][..i] == held[..i];
        log := log + [Entry(held[i].delivery, Release, Unstarted)];
      }
      assert held[..|held|] == held;
      held := [];
      stage := Down;
    }
  }
}
