/** What every step of the send queue keeps (src/queue/MailQueue.ts). */
module MailQueueSafety {
  import opened Text
  import opened MailQueue
  import RateLimiter

  // ---- Where a job is ----------------------------------------------------------------

  ghost function In(jobs: seq<Job>, s: Status): set<nat> {
    set r: nat | r < |jobs| && jobs[r].status == s
  }

  ghost function InTier(jobs: seq<Job>, t: nat): set<nat> {
    set r: nat | r < |jobs| && jobs[r].status == Pending && Rank(jobs[r].priority) == t
  }

  predicate Distinct(s: seq<nat>) {
    forall i, j :: 0 <= i < j < |s| ==> s[i] != s[j]
  }

  /** The list holds the members of `m`, each once. */
  ghost predicate Lists(s: seq<nat>, m: set<nat>) {
    Distinct(s) && forall r :: r in s <==> r in m
  }

  lemma ListsBack(s: seq<nat>, m: set<nat>, r: nat)
    requires Lists(s, m) && r !in m
    ensures Lists(s + [r], m + {r})
  {
  }

  lemma ListsFront(s: seq<nat>, m: set<nat>, r: nat)
    requires Lists(s, m) && r !in m
    ensures Lists([r] + s, m + {r})
  {
  }

  lemma ListsCut(s: seq<nat>, m: set<nat>, k: nat)
    requires Lists(s, m) && k < |s|
    ensures Lists(Cut(s, k), m - {s[k]})
  {
    var c := Cut(s, k);
    forall i | 0 <= i < |c| ensures c[i] == s[if i < k then i else i + 1] {
    }
    forall r | r in s && r != s[k] ensures r in c {
      var i :| 0 <= i < |s| && s[i] == r;
      assert c[if i < k then i else i - 1] == r;
    }
  }

  lemma ListsMember(s: seq<nat>, m: set<nat>, k: nat)
    requires Lists(s, m) && k < |s|
    ensures s[k] in m
  {
    assert s[k] in s;
  }

  lemma ListsRefs(s: seq<nat>, m: set<nat>, n: nat)
    requires Lists(s, m) && forall r :: r in m ==> r < n
    ensures Refs(s, n)
  {
    forall k | 0 <= k < |s| ensures s[k] < n {
      assert s[k] in s;
    }
  }

  ghost predicate TiersOk(pending: seq<seq<nat>>, jobs: seq<Job>, hand: set<nat>) {
    |pending| == TIERS && forall t: nat :: t < TIERS ==> Lists(pending[t], InTier(jobs, t) - hand)
  }

  ghost predicate ScheduledOk(scheduled: seq<nat>, jobs: seq<Job>, hand: set<nat>) {
    Lists(scheduled, In(jobs, Scheduled) - hand)
  }

  ghost predicate RunningOk(running: set<nat>, jobs: seq<Job>, hand: set<nat>) {
    running == In(jobs, Running) - hand
  }

  ghost predicate HandOk(jobs: seq<Job>, hand: set<nat>) {
    forall r :: r in hand ==> r < |jobs| && Unfinished(jobs[r].status)
  }

  /** Every unfinished job outside `hand` is on exactly one list, the one its status names. */
  ghost predicate Placed(q: Queue, hand: set<nat>) {
    && TiersOk(q.pending, q.jobs, hand)
    && ScheduledOk(q.scheduled, q.jobs, hand)
    && RunningOk(q.running, q.jobs, hand)
    && HandOk(q.jobs, hand)
  }

  ghost predicate CountsOk(q: Queue) {
    && q.succeeded == |In(q.jobs, Success)|
    && q.cancelled == |In(q.jobs, Cancelled)|
    && q.dead == |In(q.jobs, Dead)|
  }

  ghost predicate Marked(q: Queue) {
    && q.throttled <= In(q.jobs, Scheduled)
    && q.reasons.Keys <= q.running
    && |q.running| <= q.config.concurrency
    && (q.closed ==> q.paused)
  }

  /** Every attempt that came out is an error, except the last one of a sent job, and no job is tried more
      often than the retry policy allows. */
  predicate JobOk(j: Job, maxRetries: nat) {
    && j.starts == j.attempts + j.interrupts
    && match j.status
       case Pending | Scheduled => j.attempts == j.errors && j.errors <= maxRetries
       case Running | Success => j.attempts == j.errors + 1 && j.errors <= maxRetries
       case Dead => j.attempts == j.errors && j.errors <= maxRetries + 1
       case Cancelled => j.errors <= j.attempts <= maxRetries + 1
  }

  ghost predicate JobsOk(jobs: seq<Job>, maxRetries: nat) {
    forall r :: 0 <= r < |jobs| ==> JobOk(jobs[r], maxRetries)
  }

  /** No two unfinished jobs have the same id. */
  ghost predicate IdsApart(jobs: seq<Job>) {
    forall r, r' :: 0 <= r < r' < |jobs| && Unfinished(jobs[r].status) && Unfinished(jobs[r'].status)
                    ==> jobs[r].id != jobs[r'].id
  }

  ghost predicate Core(q: Queue, hand: set<nat>) {
    Placed(q, hand) && CountsOk(q) && Marked(q) && JobsOk(q.jobs, q.config.maxRetries) && IdsApart(q.jobs)
  }

  lemma CoreRefs(q: Queue, hand: set<nat>)
    requires Placed(q, hand)
    ensures RefsOk(q)
  {
    hide Lists, Refs;
    forall t | 0 <= t < TIERS ensures Refs(q.pending[t], |q.jobs|) {
      ListsRefs(q.pending[t], InTier(q.jobs, t) - hand, |q.jobs|);
    }
    ListsRefs(q.scheduled, In(q.jobs, Scheduled) - hand, |q.jobs|);
  }

  // ---- Taking ------------------------------------------------------------------------

  lemma TiersTake(pending: seq<seq<nat>>, jobs: seq<Job>, hand: set<nat>, t: nat, k: nat)
    requires TiersOk(pending, jobs, hand) && t < TIERS && k < |pending[t]|
    ensures var r := pending[t][k];
            && TiersOk(pending[t := Cut(pending[t], k)], jobs, hand + {r})
            && r !in hand && r < |jobs| && jobs[r].status == Pending
  {
    hide Lists, Cut, Rank;
    var r := pending[t][k];
    ListsMember(pending[t], InTier(jobs, t) - hand, k);
    ListsCut(pending[t], InTier(jobs, t) - hand, k);
    forall u: nat | u < TIERS ensures Lists(pending[t := Cut(pending[t], k)][u], InTier(jobs, u) - (hand + {r})) {
      if u == t {
        assert InTier(jobs, u) - (hand + {r}) == InTier(jobs, u) - hand - {r};
      } else {
        assert InTier(jobs, u) - (hand + {r}) == InTier(jobs, u) - hand;
      }
    }
  }

  lemma TiersStay(pending: seq<seq<nat>>, jobs: seq<Job>, hand: set<nat>, r: nat)
    requires TiersOk(pending, jobs, hand) && r < |jobs| && jobs[r].status != Pending
    ensures TiersOk(pending, jobs, hand + {r})
  {
    hide Lists, Rank;
    forall u: nat | u < TIERS ensures Lists(pending[u], InTier(jobs, u) - (hand + {r})) {
      assert InTier(jobs, u) - (hand + {r}) == InTier(jobs, u) - hand;
    }
  }

  lemma ScheduledTake(scheduled: seq<nat>, jobs: seq<Job>, hand: set<nat>, k: nat)
    requires ScheduledOk(scheduled, jobs, hand) && k < |scheduled|
    ensures var r := scheduled[k];
            && ScheduledOk(Cut(scheduled, k), jobs, hand + {r})
            && r !in hand && r < |jobs| && jobs[r].status == Scheduled
  {
    hide Lists, Cut;
    var r := scheduled[k];
    ListsMember(scheduled, In(jobs, Scheduled) - hand, k);
    ListsCut(scheduled, In(jobs, Scheduled) - hand, k);
    assert In(jobs, Scheduled) - (hand + {r}) == In(jobs, Scheduled) - hand - {r};
  }

  lemma ScheduledStay(scheduled: seq<nat>, jobs: seq<Job>, hand: set<nat>, r: nat)
    requires ScheduledOk(scheduled, jobs, hand) && r < |jobs| && jobs[r].status != Scheduled
    ensures ScheduledOk(scheduled, jobs, hand + {r})
  {
    hide Lists;
    assert In(jobs, Scheduled) - (hand + {r}) == In(jobs, Scheduled) - hand;
  }

  lemma RunningStay(running: set<nat>, jobs: seq<Job>, hand: set<nat>, r: nat)
    requires RunningOk(running, jobs, hand) && r < |jobs| && jobs[r].status != Running
    ensures RunningOk(running, jobs, hand + {r})
  {
  }

  lemma TakePendingCore(q: Queue, hand: set<nat>, t: nat, k: nat)
    requires Core(q, hand) && RefsOk(q) && t < TIERS && k < |q.pending[t]|
    ensures var r := q.pending[t][k];
            Core(TakePending(q, t, k), hand + {r}) && r !in hand && q.jobs[r].status == Pending
  {
    hide TiersOk, ScheduledOk, RunningOk, In, JobsOk, IdsApart, Cut, Refs;
    var r := q.pending[t][k];
    TiersTake(q.pending, q.jobs, hand, t, k);
    ScheduledStay(q.scheduled, q.jobs, hand, r);
    RunningStay(q.running, q.jobs, hand, r);
  }

  lemma TakeScheduledCore(q: Queue, hand: set<nat>, k: nat)
    requires Core(q, hand) && RefsOk(q) && k < |q.scheduled|
    ensures var r := q.scheduled[k];
            Core(TakeScheduled(q, k), hand + {r}) && r !in hand && q.jobs[r].status == Scheduled
  {
    hide TiersOk, ScheduledOk, RunningOk, In, JobsOk, IdsApart, Cut, Refs;
    var r := q.scheduled[k];
    ScheduledTake(q.scheduled, q.jobs, hand, k);
    TiersStay(q.pending, q.jobs, hand, r);
    RunningStay(q.running, q.jobs, hand, r);
  }

  lemma IsRunning(running: set<nat>, jobs: seq<Job>, hand: set<nat>, r: nat)
    requires RunningOk(running, jobs, hand) && r in running
    ensures r !in hand && r < |jobs| && jobs[r].status == Running
  {
  }

  lemma TakeRunningCore(q: Queue, hand: set<nat>, r: nat)
    requires Core(q, hand) && RefsOk(q) && r in q.running
    ensures Core(TakeRunning(q, r), hand + {r}) && r !in hand && q.jobs[r].status == Running
  {
    hide TiersOk, ScheduledOk, In, JobsOk, IdsApart, Refs;
    IsRunning(q.running, q.jobs, hand, r);
    TiersStay(q.pending, q.jobs, hand, r);
    ScheduledStay(q.scheduled, q.jobs, hand, r);
    assert In(q.jobs, Running) - (hand + {r}) == In(q.jobs, Running) - hand - {r};
    assert q.running - {r} <= q.running;
    assert |q.running - {r}| == |q.running| - 1;
  }

  // ---- Putting -----------------------------------------------------------------------

  lemma TiersPut(pending: seq<seq<nat>>, jobs: seq<Job>, hand: set<nat>, r: nat, j: Job)
    requires TiersOk(pending, jobs, hand) && HandOk(jobs, hand) && r in hand && j.status == Pending
    ensures var t := Rank(j.priority);
            && TiersOk(pending[t := pending[t] + [r]], jobs[r := j], hand - {r})
            && TiersOk(pending[t := [r] + pending[t]], jobs[r := j], hand - {r})
  {
    hide Lists, Rank;
    var t := Rank(j.priority);
    ListsBack(pending[t], InTier(jobs, t) - hand, r);
    ListsFront(pending[t], InTier(jobs, t) - hand, r);
    assert InTier(jobs[r := j], t) - (hand - {r}) == InTier(jobs, t) - hand + {r};
    forall u: nat | u < TIERS && u != t ensures Lists(pending[u], InTier(jobs[r := j], u) - (hand - {r})) {
      assert InTier(jobs[r := j], u) - (hand - {r}) == InTier(jobs, u) - hand;
    }
  }

  lemma TiersKeep(pending: seq<seq<nat>>, jobs: seq<Job>, hand: set<nat>, r: nat, j: Job)
    requires TiersOk(pending, jobs, hand) && HandOk(jobs, hand) && r in hand && j.status != Pending
    ensures TiersOk(pending, jobs[r := j], hand - {r})
  {
    hide Lists, Rank;
    forall u: nat | u < TIERS ensures Lists(pending[u], InTier(jobs[r := j], u) - (hand - {r})) {
      assert InTier(jobs[r := j], u) - (hand - {r}) == InTier(jobs, u) - hand;
    }
  }

  lemma ScheduledPut(scheduled: seq<nat>, jobs: seq<Job>, hand: set<nat>, r: nat, j: Job)
    requires ScheduledOk(scheduled, jobs, hand) && HandOk(jobs, hand) && r in hand
    ensures ScheduledOk(if j.status == Scheduled then scheduled + [r] else scheduled, jobs[r := j], hand - {r})
  {
    hide Lists;
    if j.status == Scheduled {
      ListsBack(scheduled, In(jobs, Scheduled) - hand, r);
      assert In(jobs[r := j], Scheduled) - (hand - {r}) == In(jobs, Scheduled) - hand + {r};
    } else {
      assert In(jobs[r := j], Scheduled) - (hand - {r}) == In(jobs, Scheduled) - hand;
    }
  }

  lemma RunningPut(running: set<nat>, jobs: seq<Job>, hand: set<nat>, r: nat, j: Job)
    requires RunningOk(running, jobs, hand) && HandOk(jobs, hand) && r in hand
    ensures RunningOk(if j.status == Running then running + {r} else running, jobs[r := j], hand - {r})
    ensures r !in running
  {
  }

  /** Only the finished set that gains the job grows. */
  lemma Tallied(jobs: seq<Job>, r: nat, j: Job, s: Status)
    requires r < |jobs| && Unfinished(jobs[r].status) && !Unfinished(s)
    ensures |In(jobs[r := j], s)| == |In(jobs, s)| + (if j.status == s then 1 else 0)
  {
    InUpdate(jobs, r, j, s);
    hide In;
    if j.status == s {
      assert In(jobs[r := j], s) == In(jobs, s) + {r};
    } else {
      assert In(jobs[r := j], s) == In(jobs, s);
    }
  }

  lemma InUpdate(jobs: seq<Job>, r: nat, j: Job, s: Status)
    requires r < |jobs| && jobs[r].status != s
    ensures r !in In(jobs, s)
    ensures forall x :: x in In(jobs[r := j], s) <==> x in In(jobs, s) || (x == r && j.status == s)
  {
  }

  lemma StillApart(jobs: seq<Job>, r: nat, j: Job)
    requires IdsApart(jobs) && r < |jobs| && Unfinished(jobs[r].status) && j.id == jobs[r].id
    ensures IdsApart(jobs[r := j])
  {
  }

  /** The other scheduled jobs stay scheduled. */
  lemma StillScheduled(throttled: set<nat>, jobs: seq<Job>, r: nat, j: Job)
    requires r < |jobs| && throttled - {r} <= In(jobs, Scheduled) && (r in throttled ==> j.status == Scheduled)
    ensures throttled <= In(jobs[r := j], Scheduled)
  {
    forall x | x in throttled ensures x < |jobs| && jobs[r := j][x].status == Scheduled {
      assert x != r ==> x in In(jobs, Scheduled);
    }
  }

  /** The job in hand may become `j`: who it is does not change. */
  predicate Becomes(q: Queue, hand: set<nat>, r: nat, j: Job) {
    && r in hand && r < |q.jobs|
    && j.id == q.jobs[r].id && j.priority == q.jobs[r].priority
    && JobOk(j, q.config.maxRetries)
  }

  /** The queue with job `r` recorded as `j`, on the list its status names. */
  predicate Landed(q: Queue, r: nat, j: Job, q': Queue)
    requires r < |q.jobs| && |q.pending| == TIERS
  {
    && q'.jobs == q.jobs[r := j] && q'.config == q.config
    && (if j.status == Pending then
          var t := Rank(j.priority);
          q'.pending == q.pending[t := q.pending[t] + [r]] || q'.pending == q.pending[t := [r] + q.pending[t]]
        else q'.pending == q.pending)
    && q'.scheduled == (if j.status == Scheduled then q.scheduled + [r] else q.scheduled)
    && q'.running == (if j.status == Running then q.running + {r} else q.running)
    && q'.throttled <= q.throttled + {r} && (r in q'.throttled ==> j.status == Scheduled)
    && q'.reasons.Keys <= q.reasons.Keys
    && (q'.closed ==> q'.paused)
    && q'.succeeded == q.succeeded + (if j.status == Success then 1 else 0)
    && q'.cancelled == q.cancelled + (if j.status == Cancelled then 1 else 0)
    && q'.dead == q.dead + (if j.status == Dead then 1 else 0)
  }

  lemma LandedJobs(q: Queue, r: nat, j: Job, q': Queue)
    requires r < |q.jobs| && |q.pending| == TIERS && Landed(q, r, j, q')
    ensures q'.jobs == q.jobs[r := j] && q'.config == q.config
  {
  }

  lemma LandedCounts(q: Queue, r: nat, j: Job, q': Queue)
    requires CountsOk(q) && r < |q.jobs| && Unfinished(q.jobs[r].status) && |q.pending| == TIERS && Landed(q, r, j, q')
    ensures CountsOk(q')
  {
    hide In;
    Tallied(q.jobs, r, j, Success);
    Tallied(q.jobs, r, j, Cancelled);
    Tallied(q.jobs, r, j, Dead);
  }

  lemma FourTiers(pending: seq<seq<nat>>, jobs: seq<Job>, hand: set<nat>)
    requires TiersOk(pending, jobs, hand)
    ensures |pending| == TIERS
  {
  }

  lemma LandedCore(q: Queue, hand: set<nat>, r: nat, j: Job, q': Queue)
    requires Core(q, hand) && Becomes(q, hand, r, j) && Landed(q, r, j, q')
    requires j.status == Running ==> |q.running| < q.config.concurrency
    ensures Core(q', hand - {r})
  {
    hide TiersOk, ScheduledOk, RunningOk, In, IdsApart, Rank, CountsOk;
    FourTiers(q.pending, q.jobs, hand);
    LandedCounts(q, r, j, q');
    if j.status == Pending {
      TiersPut(q.pending, q.jobs, hand, r, j);
    } else {
      TiersKeep(q.pending, q.jobs, hand, r, j);
    }
    ScheduledPut(q.scheduled, q.jobs, hand, r, j);
    RunningPut(q.running, q.jobs, hand, r, j);
    StillApart(q.jobs, r, j);
    StillScheduled(q'.throttled, q.jobs, r, j);
  }

  // ---- The rate limiter --------------------------------------------------------------

  /** How many attempts of jobs with this key began. */
  function KeyStarts(jobs: seq<Job>, key: string): nat {
    if jobs == [] then 0
    else
      var j := jobs[|jobs| - 1];
      KeyStarts(jobs[..|jobs| - 1], key) + (if j.key == key then j.starts else 0)
  }

  lemma {:induction false} KeyStartsUpdate(jobs: seq<Job>, r: nat, j: Job, key: string)
    requires r < |jobs| && j.key == jobs[r].key
    ensures KeyStarts(jobs[r := j], key)
            == KeyStarts(jobs, key) + (if j.key == key then j.starts - jobs[r].starts else 0)
  {
    var n := |jobs| - 1;
    if r == n {
      assert jobs[r := j][..n] == jobs[..n];
    } else {
      assert jobs[r := j][..n] == jobs[..n][r := j];
      KeyStartsUpdate(jobs[..n], r, j, key);
    }
  }

  predicate CostsFit(jobs: seq<Job>, windows: seq<RateLimiter.Window>) {
    forall r, i :: 0 <= r < |jobs| && 0 <= i < |windows| ==> jobs[r].cost <= windows[i].limit
  }

  /** The limiter has recorded every start; and if every job could fit the windows, they are respected. */
  ghost predicate LimitOk(limiter: RateLimiter.Run, jobs: seq<Job>, windows: seq<RateLimiter.Window>, clock: int) {
    && (windows != [] ==> forall key :: |RateLimiter.Of(limiter.starts, key)| == KeyStarts(jobs, key))
    && (Limiting(jobs, windows) ==> RateLimiter.Inv(limiter, windows, clock))
  }

  /** There are windows, and no job is too large for one. */
  predicate Limiting(jobs: seq<Job>, windows: seq<RateLimiter.Window>) {
    windows != [] && RateLimiter.Longest(windows) > 0 && CostsFit(jobs, windows)
  }

  ghost predicate Limited(q: Queue) {
    LimitOk(q.limiter, q.jobs, q.config.windows, q.clock)
  }

  lemma LimitKeep(limiter: RateLimiter.Run, jobs: seq<Job>, windows: seq<RateLimiter.Window>, clock: int, r: nat, j: Job)
    requires LimitOk(limiter, jobs, windows, clock) && r < |jobs|
    requires j.key == jobs[r].key && j.cost == jobs[r].cost && j.starts == jobs[r].starts
    ensures LimitOk(limiter, jobs[r := j], windows, clock)
  {
    hide RateLimiter.Inv, RateLimiter.Longest, RateLimiter.Of, KeyStarts, CostsFit;
    forall key ensures KeyStarts(jobs[r := j], key) == KeyStarts(jobs, key) {
      KeyStartsUpdate(jobs, r, j, key);
    }
    SameCosts(jobs, windows, r, j);
  }

  lemma SameCosts(jobs: seq<Job>, windows: seq<RateLimiter.Window>, r: nat, j: Job)
    requires r < |jobs| && j.cost == jobs[r].cost
    ensures CostsFit(jobs[r := j], windows) ==> CostsFit(jobs, windows)
  {
    if CostsFit(jobs[r := j], windows) {
      forall x, i | 0 <= x < |jobs| && 0 <= i < |windows| ensures jobs[x].cost <= windows[i].limit {
        assert jobs[r := j][x].cost <= windows[i].limit;
      }
    }
  }

  lemma LimitAppend(limiter: RateLimiter.Run, jobs: seq<Job>, windows: seq<RateLimiter.Window>, clock: int, j: Job)
    requires LimitOk(limiter, jobs, windows, clock) && j.starts == 0
    ensures LimitOk(limiter, jobs + [j], windows, clock)
  {
    hide RateLimiter.Inv, RateLimiter.Longest, RateLimiter.Of, CostsFit;
    var jobs' := jobs + [j];
    assert jobs'[..|jobs|] == jobs && jobs'[|jobs|] == j;
    forall key ensures KeyStarts(jobs', key) == KeyStarts(jobs, key) {
      assert KeyStarts(jobs'[..|jobs'| - 1], key) == KeyStarts(jobs, key);
    }
    CostsPrefix(jobs, windows, j);
  }

  lemma CostsPrefix(jobs: seq<Job>, windows: seq<RateLimiter.Window>, j: Job)
    ensures CostsFit(jobs + [j], windows) ==> CostsFit(jobs, windows)
  {
    if CostsFit(jobs + [j], windows) {
      forall x, i | 0 <= x < |jobs| && 0 <= i < |windows| ensures jobs[x].cost <= windows[i].limit {
        assert (jobs + [j])[x].cost <= windows[i].limit;
      }
    }
  }

  lemma CostsAt(jobs: seq<Job>, windows: seq<RateLimiter.Window>, r: nat)
    requires CostsFit(jobs, windows) && r < |jobs|
    ensures forall i :: 0 <= i < |windows| ==> jobs[r].cost <= windows[i].limit
  {
  }

  lemma LimitLater(limiter: RateLimiter.Run, jobs: seq<Job>, windows: seq<RateLimiter.Window>, clock: int, clock': int)
    requires LimitOk(limiter, jobs, windows, clock) && clock <= clock'
    ensures LimitOk(limiter, jobs, windows, clock')
  {
    hide RateLimiter.KeyInv, RateLimiter.Longest, KeyStarts, CostsFit;
    if Limiting(jobs, windows) {
      forall key
        ensures RateLimiter.KeyInv(RateLimiter.Of(limiter.uses, key), RateLimiter.Of(limiter.starts, key), windows, clock')
      {
        RateLimiter.KeyInvLater(RateLimiter.Of(limiter.uses, key), RateLimiter.Of(limiter.starts, key), windows, clock, clock');
      }
    }
  }

  /** Asking about a job records a start exactly when the job then begins. */
  lemma LimitAsked(q: Queue, r: nat, j: Job)
    requires Limited(q) && RefsOk(q) && r < |q.jobs|
    requires j.key == q.jobs[r].key && j.cost == q.jobs[r].cost
    requires j.starts == q.jobs[r].starts + (if WaitFor(q, r) > 0 then 0 else 1)
    ensures LimitOk(Asked(q, r).limiter, q.jobs[r := j], q.config.windows, q.clock)
  {
    hide RateLimiter.Inv, RateLimiter.Longest, KeyStarts, RateLimiter.Wait, RateLimiter.Prune, Refs, RefsOk, CostsFit;
    if q.config.windows != [] {
      var ask := RateLimiter.Request(j.key, j.cost, q.clock, q.clock);
      forall key
        ensures |RateLimiter.Of(Asked(q, r).limiter.starts, key)| == KeyStarts(q.jobs[r := j], key)
      {
        KeyStartsUpdate(q.jobs, r, j, key);
      }
      SameCosts(q.jobs, q.config.windows, r, j);
      if Limiting(q.jobs[r := j], q.config.windows) {
        CostsAt(q.jobs[r := j], q.config.windows, r);
        RateLimiter.AttemptKeepsInv(q.limiter, q.config.windows, ask, q.clock);
      }
    }
  }

  // ---- Starting jobs -----------------------------------------------------------------

  ghost predicate Good(q: Queue) {
    Core(q, {}) && Limited(q)
  }

  lemma ArmedKeeps(q: Queue)
    requires RefsOk(q)
    ensures Armed(q) == q.(timer := Armed(q).timer)
  {
    hide Refs, Earliest;
  }

  lemma ArmedCore(q: Queue, hand: set<nat>)
    requires Core(q, hand) && RefsOk(q)
    ensures Core(Armed(q), hand)
  {
    hide TiersOk, ScheduledOk, RunningOk, HandOk, In, IdsApart, JobsOk, Refs, Earliest;
  }

  lemma NotThrottled(q: Queue, r: nat)
    requires q.throttled <= In(q.jobs, Scheduled) && (r < |q.jobs| ==> q.jobs[r].status != Scheduled)
    ensures r !in q.throttled
  {
  }

  lemma ThrottleCore(q: Queue, r: nat, wait: int)
    requires Core(q, {r}) && RefsOk(q) && r < |q.jobs| && q.jobs[r].status == Pending
    ensures Core(Throttle(q, r, wait), {})
  {
    hide TiersOk, ScheduledOk, RunningOk, CountsOk, In, IdsApart, Refs, Earliest;
    var j := q.jobs[r].(status := Scheduled, notBefore := q.clock + wait);
    var q1 := PutScheduled(q, r, q.jobs[r], q.clock + wait);
    var q2 := q1.(throttled := q1.throttled + {r});
    assert Landed(q, r, j, q2);
    hide PutScheduled;
    LandedCore(q, {r}, r, j, q2);
    assert {r} - {r} == {};
    ArmedCore(q2, {});
  }

  lemma BeginCore(q: Queue, r: nat)
    requires Core(q, {r}) && RefsOk(q) && r < |q.jobs| && q.jobs[r].status == Pending && MayStart(q)
    ensures Core(Begin(q, r), {})
  {
    hide TiersOk, ScheduledOk, RunningOk, CountsOk, In, IdsApart, Refs;
    var old' := q.jobs[r];
    var j := old'.(status := Running, attempts := old'.attempts + 1, starts := old'.starts + 1);
    NotThrottled(q, r);
    LandedCore(q, {r}, r, j, Begin(q, r));
    assert {r} - {r} == {};
  }

  lemma StartNextCore(q: Queue, t: nat)
    requires Core(q, {}) && RefsOk(q) && MayStart(q) && t < TIERS && q.pending[t] != []
    ensures Core(StartNext(q, t), {})
  {
    hide Core, Refs, WaitFor, Cut, Begin, Throttle;
    var r := q.pending[t][0];
    TakePendingCore(q, {}, t, 0);
    assert {} + {r} == {r};
    var q0 := TakePending(q, t, 0);
    AskedCore(q0, r);
    assert MayStart(q0);
    hide Asked, TakePending;
    if WaitFor(q, r) > 0 {
      ThrottleCore(Asked(q0, r), r, WaitFor(q, r));
    } else {
      BeginCore(Asked(q0, r), r);
    }
  }

  lemma ThrottleKeeps(q: Queue, r: nat, wait: int)
    requires RefsOk(q) && r < |q.jobs|
    ensures var q' := Throttle(q, r, wait);
            && q'.jobs == q.jobs[r := q.jobs[r].(status := Scheduled, notBefore := q.clock + wait)]
            && q'.limiter == q.limiter && q'.clock == q.clock
  {
    hide Refs, Armed;
    var q1 := PutScheduled(q, r, q.jobs[r], q.clock + wait);
    ArmedKeeps(q1.(throttled := q1.throttled + {r}));
  }

  lemma StartNextLimited(q: Queue, t: nat)
    requires Limited(q) && RefsOk(q) && t < TIERS && q.pending[t] != []
    ensures Limited(StartNext(q, t))
  {
    hide LimitOk, Refs, WaitFor, Cut, Armed, Asked;
    var r := q.pending[t][0];
    var q0 := TakePending(q, t, 0);
    var j := q.jobs[r];
    WaitSame(q, q0, r);
    if WaitFor(q, r) > 0 {
      ThrottleKeeps(Asked(q0, r), r, WaitFor(q, r));
      hide Throttle;
      LimitAsked(q0, r, j.(status := Scheduled, notBefore := q.clock + WaitFor(q, r)));
    } else {
      LimitAsked(q0, r, j.(status := Running, attempts := j.attempts + 1, starts := j.starts + 1));
    }
  }

  lemma StartNextGood(q: Queue, t: nat)
    requires Good(q) && RefsOk(q) && MayStart(q) && t < TIERS && q.pending[t] != []
    ensures Good(StartNext(q, t))
  {
    hide Core, Limited, StartNext;
    StartNextCore(q, t);
    StartNextLimited(q, t);
  }

  lemma AskedCore(q: Queue, r: nat)
    requires Core(q, {r}) && RefsOk(q) && r < |q.jobs|
    ensures Core(Asked(q, r), {r})
  {
    hide TiersOk, ScheduledOk, RunningOk, HandOk, In, IdsApart, JobsOk, Refs;
    var q' := Asked(q, r);
    hide Asked;
    assert q' == q.(limiter := q'.limiter);
  }

  lemma {:induction false} TickGood(q: Queue)
    requires Good(q) && RefsOk(q)
    ensures Good(Tick(q))
    decreases |Line(q.pending)|
  {
    hide Good, Refs, StartNext, Line, Cut;
    var t := FirstTier(q.pending, 0);
    if MayStart(q) && t < TIERS {
      StartNextGood(q, t);
      LineCut(q.pending, t);
      TickGood(StartNext(q, t));
    }
  }

  // ---- Promotion ---------------------------------------------------------------------

  lemma JobOkAt(jobs: seq<Job>, maxRetries: nat, r: nat)
    requires JobsOk(jobs, maxRetries) && r < |jobs|
    ensures JobOk(jobs[r], maxRetries)
  {
  }

  lemma PromoteLands(q: Queue, k: nat)
    requires RefsOk(q) && k < |q.scheduled| && (q.closed ==> q.paused)
    ensures var r := q.scheduled[k];
            && r < |q.jobs|
            && Landed(TakeScheduled(q, k), r, q.jobs[r].(status := Pending), Promote(q, k))
            && Promote(q, k).limiter == q.limiter && Promote(q, k).clock == q.clock
  {
    hide Refs, Rank, Cut;
    var q0 := TakeScheduled(q, k);
    assert q0 == q.(scheduled := q0.scheduled);
    hide TakeScheduled;
    assert q.scheduled[k] !in Promote(q, k).throttled;
  }

  lemma PromoteGood(q: Queue, k: nat)
    requires Good(q) && RefsOk(q) && k < |q.scheduled|
    ensures Good(Promote(q, k))
  {
    hide Placed, CountsOk, In, IdsApart, JobsOk, Refs, LimitOk, TakeScheduled, Promote, Landed;
    var r := q.scheduled[k];
    TakeScheduledCore(q, {}, k);
    var j := q.jobs[r].(status := Pending);
    assert {} + {r} == {r} && {r} - {r} == {};
    JobOkAt(q.jobs, q.config.maxRetries, r);
    PromoteLands(q, k);
    LandedCore(TakeScheduled(q, k), {r}, r, j, Promote(q, k));
    LimitKeep(q.limiter, q.jobs, q.config.windows, q.clock, r, j);
    LandedJobs(TakeScheduled(q, k), r, j, Promote(q, k));
  }

  lemma {:induction false} PromoteFromGood(q: Queue, k: nat)
    requires Good(q) && RefsOk(q)
    ensures Good(PromoteFrom(q, k))
    decreases |q.scheduled| - k
  {
    hide Good, Refs, Promote;
    if k < |q.scheduled| {
      RefsAt(q.scheduled, |q.jobs|, k);
      if q.jobs[q.scheduled[k]].notBefore > q.clock {
        PromoteFromGood(q, k + 1);
      } else {
        PromoteGood(q, k);
        PromoteFromGood(Promote(q, k), k);
      }
    }
  }

  lemma ArmedGood(q: Queue)
    requires Good(q) && RefsOk(q)
    ensures Good(Armed(q))
  {
    hide Core, LimitOk, Refs, RefsOk, Earliest;
    ArmedCore(q, {});
  }

  lemma GoodTimer(q: Queue, timer: Option<int>)
    requires Good(q)
    ensures Good(q.(timer := timer))
  {
    hide TiersOk, ScheduledOk, RunningOk, HandOk, In, IdsApart, JobsOk, LimitOk;
  }

  lemma PromoteDueGood(q: Queue)
    requires Good(q) && RefsOk(q)
    ensures Good(PromoteDue(q))
  {
    hide Good, Refs, PromoteFrom, Tick, Armed;
    var q0 := q.(timer := None);
    GoodTimer(q, None);
    PromoteFromGood(q0, 0);
    ArmedGood(PromoteFrom(q0, 0));
    TickGood(Armed(PromoteFrom(q0, 0)));
  }

  // ---- An attempt ends ---------------------------------------------------------------

  /** The job as Settle leaves it. */
  function SettledJob(q: Queue, j: Job, reason: Option<Reason>, o: Outcome, delay: nat): Job {
    if reason == Some(Cancel) then j.(status := Cancelled)
    else if reason == Some(Interrupt) then
      j.(attempts := j.attempts - 1, interrupts := j.interrupts + 1, status := Pending)
    else if reason == None && o.Sent? then j.(status := Success)
    else if j.attempts > q.config.maxRetries || (reason == None && o.Failed? && !o.retryable) then
      j.(status := Dead, errors := j.errors + 1)
    else j.(errors := j.errors + 1, status := Scheduled, notBefore := q.clock + delay)
  }

  lemma RetryLands(q: Queue, r: nat, delay: nat)
    requires RefsOk(q) && r < |q.jobs| && r !in q.throttled && (q.closed ==> q.paused)
    ensures var j := q.jobs[r].(errors := q.jobs[r].errors + 1);
            var q' := Armed(PutScheduled(q, r, j, q.clock + delay));
            && Landed(q, r, j.(status := Scheduled, notBefore := q.clock + delay), q')
            && q'.limiter == q.limiter && q'.clock == q.clock
  {
    hide Refs, Rank, Armed;
    ArmedKeeps(PutScheduled(q, r, q.jobs[r].(errors := q.jobs[r].errors + 1), q.clock + delay));
  }

  lemma SettleLands(q: Queue, r: nat, reason: Option<Reason>, o: Outcome, delay: nat)
    requires RefsOk(q) && r < |q.jobs| && r !in q.throttled && (q.closed ==> q.paused)
    ensures Landed(q, r, SettledJob(q, q.jobs[r], reason, o, delay), Settle(q, r, reason, o, delay))
    ensures var q' := Settle(q, r, reason, o, delay); q'.limiter == q.limiter && q'.clock == q.clock
  {
    hide Refs, Rank, Armed, PutScheduled;
    var j := SettledJob(q, q.jobs[r], reason, o, delay);
    if j.status == Scheduled {
      RetryLands(q, r, delay);
    }
  }

  /** Whatever becomes of the attempt, the queue stays good. */
  lemma SettleGood(q: Queue, r: nat, reason: Option<Reason>, o: Outcome, delay: nat)
    requires Core(q, {r}) && Limited(q) && RefsOk(q) && r < |q.jobs| && q.jobs[r].status == Running
    ensures Good(Settle(q, r, reason, o, delay))
  {
    hide Placed, CountsOk, In, IdsApart, Refs, LimitOk, Settle, Landed;
    var j := SettledJob(q, q.jobs[r], reason, o, delay);
    assert {r} - {r} == {};
    NotThrottled(q, r);
    assert JobOk(q.jobs[r], q.config.maxRetries);
    SettleLands(q, r, reason, o, delay);
    LandedCore(q, {r}, r, j, Settle(q, r, reason, o, delay));
    LimitKeep(q.limiter, q.jobs, q.config.windows, q.clock, r, j);
    LandedJobs(q, r, j, Settle(q, r, reason, o, delay));
  }

  lemma EndsGood(q: Queue, r: nat, o: Outcome, delay: nat)
    requires Good(q) && RefsOk(q)
    ensures Good(Ends(q, r, o, delay))
  {
    hide Core, LimitOk, Refs, Settle, Tick;
    if r in q.running {
      TakeRunningCore(q, {}, r);
      assert {} + {r} == {r};
      var reason := if r in q.reasons then Some(q.reasons[r]) else None;
      SettleGood(TakeRunning(q, r), r, reason, o, delay);
      TickGood(Settle(TakeRunning(q, r), r, reason, o, delay));
    }
  }

  // ---- Enqueue -----------------------------------------------------------------------

  lemma {:induction false} NotFound(jobs: seq<Job>, refs: seq<nat>, id: string, from: nat, i: nat)
    requires Refs(refs, |jobs|) && FindIn(jobs, refs, id, from) == -1 && from <= i < |refs|
    ensures jobs[refs[i]].id != id
    decreases |refs| - from
  {
    if from < i {
      NotFound(jobs, refs, id, from + 1, i);
    }
  }

  lemma {:induction false} NoTier(q: Queue, id: string, from: nat, t: nat)
    requires RefsOk(q) && from <= t < TIERS && TierOf(q, id, from) == TIERS
    ensures FindIn(q.jobs, q.pending[t], id, 0) == -1
    decreases TIERS - from
  {
    hide Refs, FindIn;
    if from < t {
      NoTier(q, id, from + 1, t);
    }
  }

  lemma Unlisted(jobs: seq<Job>, refs: seq<nat>, m: set<nat>, id: string, r: nat)
    requires Refs(refs, |jobs|) && Lists(refs, m) && FindIn(jobs, refs, id, 0) == -1 && r in m && r < |jobs|
    ensures jobs[r].id != id
  {
    assert r in refs;
    var i :| 0 <= i < |refs| && refs[i] == r;
    NotFound(jobs, refs, id, 0, i);
  }

  /** enqueue's search finds every unfinished job with the id. */
  lemma KnownExact(q: Queue, id: string)
    requires Core(q, {}) && RefsOk(q)
    ensures Known(q, id) <==> exists r :: 0 <= r < |q.jobs| && Unfinished(q.jobs[r].status) && q.jobs[r].id == id
  {
    hide Lists, Refs, IdsApart, JobsOk, Marked, CountsOk, FindIn, TierOf;
    if !Known(q, id) {
      forall r | 0 <= r < |q.jobs| && Unfinished(q.jobs[r].status) ensures q.jobs[r].id != id {
        if q.jobs[r].status == Pending {
          var t := Rank(q.jobs[r].priority);
          assert r in InTier(q.jobs, t) - {};
          NoTier(q, id, 0, t);
          Unlisted(q.jobs, q.pending[t], InTier(q.jobs, t) - {}, id, r);
        } else if q.jobs[r].status == Scheduled {
          Unlisted(q.jobs, q.scheduled, In(q.jobs, Scheduled) - {}, id, r);
        } else {
          assert r in q.running;
        }
      }
    } else {
      FoundListed(q, id);
    }
  }

  lemma FoundListed(q: Queue, id: string)
    requires Core(q, {}) && RefsOk(q) && Known(q, id)
    ensures exists r :: 0 <= r < |q.jobs| && Unfinished(q.jobs[r].status) && q.jobs[r].id == id
  {
    hide Refs, IdsApart, JobsOk, Marked, CountsOk, Rank, FindIn, Distinct;
    if r :| r in q.running && q.jobs[r].id == id {
      assert r in In(q.jobs, Running);
    } else if FindIn(q.jobs, q.scheduled, id, 0) >= 0 {
      var r := q.scheduled[FindIn(q.jobs, q.scheduled, id, 0)];
      assert r in q.scheduled;
      assert r in In(q.jobs, Scheduled) - {};
    } else {
      var t := TierOf(q, id, 0);
      var r := q.pending[t][FindIn(q.jobs, q.pending[t], id, 0)];
      assert r in InTier(q.jobs, t) - {};
    }
  }

  lemma SetsAppend(jobs: seq<Job>, j: Job)
    ensures forall s :: In(jobs + [j], s) - {|jobs|} == In(jobs, s)
    ensures forall s :: j.status != s ==> In(jobs + [j], s) == In(jobs, s)
    ensures forall t :: InTier(jobs + [j], t) - {|jobs|} == InTier(jobs, t)
  {
    var jobs' := jobs + [j];
    assert forall r :: 0 <= r < |jobs| ==> jobs'[r] == jobs[r];
  }

  lemma AppendPlaced(q: Queue, j: Job)
    requires Placed(q, {}) && j.status == Pending
    ensures Placed(q.(jobs := q.jobs + [j]), {|q.jobs|})
  {
    hide Lists, In, InTier;
    SetsAppend(q.jobs, j);
    forall t: nat | t < TIERS ensures Lists(q.pending[t], InTier(q.jobs + [j], t) - {|q.jobs|}) {
      assert InTier(q.jobs, t) - {} == InTier(q.jobs, t);
    }
    assert In(q.jobs, Scheduled) - {} == In(q.jobs, Scheduled);
    assert In(q.jobs, Running) - {} == In(q.jobs, Running);
  }

  lemma AppendCore(q: Queue, j: Job)
    requires Core(q, {}) && RefsOk(q) && !Known(q, j.id)
    requires j.status == Pending && JobOk(j, q.config.maxRetries)
    ensures Core(q.(jobs := q.jobs + [j]), {|q.jobs|})
  {
    hide Placed, Refs, RefsOk, In, Known, JobOk;
    AppendPlaced(q, j);
    SetsAppend(q.jobs, j);
    KnownExact(q, j.id);
    assert In(q.jobs + [j], Scheduled) == In(q.jobs, Scheduled);
  }

  lemma AppendGood(q: Queue, e: Event)
    requires Good(q) && RefsOk(q) && e.Enqueue? && !Known(q, e.id)
    ensures var q1 := q.(jobs := q.jobs + [NewJob(e)]);
            Core(q1, {|q.jobs|}) && Limited(q1) && RefsOk(q1) && |q.jobs| !in q1.throttled
  {
    hide Placed, CountsOk, In, IdsApart, JobsOk, Refs, LimitOk, Known;
    AppendCore(q, NewJob(e));
    LimitAppend(q.limiter, q.jobs, q.config.windows, q.clock, NewJob(e));
    NotThrottled(q, |q.jobs|);
    RefsMore(q, q.(jobs := q.jobs + [NewJob(e)]));
  }

  /** A new job goes on the list its date asks for. */
  lemma NewJobGood(q: Queue, r: nat, j: Job, notBefore: int)
    requires Core(q, {r}) && Limited(q) && RefsOk(q) && r < |q.jobs| && r !in q.throttled && q.jobs[r] == j
    requires j.status == Pending
    ensures Good(PutScheduled(q, r, j, notBefore)) && Good(PutBack(q, r, j))
  {
    hide Placed, CountsOk, In, IdsApart, Refs, LimitOk, Rank;
    var j' := j.(status := Scheduled, notBefore := notBefore);
    assert {r} - {r} == {};
    assert JobOk(j, q.config.maxRetries);
    LandedCore(q, {r}, r, j', PutScheduled(q, r, j, notBefore));
    LimitKeep(q.limiter, q.jobs, q.config.windows, q.clock, r, j');
    LandedCore(q, {r}, r, j, PutBack(q, r, j));
    LimitKeep(q.limiter, q.jobs, q.config.windows, q.clock, r, j);
  }

  lemma AcceptGood(q: Queue, e: Event)
    requires Good(q) && RefsOk(q) && e.Enqueue?
    ensures Good(Accept(q, e))
  {
    hide Good, Core, Limited, Refs, Known, Tick, Armed, PutScheduled, PutBack;
    if !q.closed && !Known(q, e.id) {
      var r, j := |q.jobs|, NewJob(e);
      var q1 := q.(jobs := q.jobs + [j]);
      AppendGood(q, e);
      if e.sendAt.Some? && e.sendAt.value > q.clock {
        NewJobGood(q1, r, j, e.sendAt.value);
        ArmedGood(PutScheduled(q1, r, j, e.sendAt.value));
      } else {
        NewJobGood(q1, r, j, 0);
        TickGood(PutBack(q1, r, j));
      }
    }
  }

  // ---- Cancelling --------------------------------------------------------------------

  lemma MarkCancelledCore(q: Queue, hand: set<nat>, r: nat)
    requires Core(q, hand) && RefsOk(q) && Limited(q) && r in hand && r < |q.jobs|
    ensures Core(MarkCancelled(q, r), hand - {r}) && Limited(MarkCancelled(q, r))
  {
    hide TiersOk, ScheduledOk, RunningOk, CountsOk, In, IdsApart, Refs, LimitOk, Rank;
    var j := q.jobs[r].(status := Cancelled);
    assert JobOk(q.jobs[r], q.config.maxRetries);
    LandedCore(q, hand, r, j, MarkCancelled(q, r));
    LimitKeep(q.limiter, q.jobs, q.config.windows, q.clock, r, j);
  }

  lemma StopGood(q: Queue, who: set<nat>, reason: Reason)
    requires Good(q) && who <= q.running
    ensures Good(Stop(q, who, reason))
  {
    hide TiersOk, ScheduledOk, RunningOk, HandOk, In, IdsApart, JobsOk, LimitOk;
  }

  lemma CancelByIdGood(q: Queue, id: string)
    requires Good(q) && RefsOk(q)
    ensures Good(CancelById(q, id))
  {
    hide Core, LimitOk, Refs, FindIn, TierOf, MarkCancelled, Cut, Stop;
    var k := FindIn(q.jobs, q.scheduled, id, 0);
    if k >= 0 {
      var r := q.scheduled[k];
      TakeScheduledCore(q, {}, k);
      assert {} + {r} == {r} && {r} - {r} == {};
      ArmedCore(TakeScheduled(q, k), {r});
      MarkCancelledCore(Armed(TakeScheduled(q, k)), {r}, r);
    } else if TierOf(q, id, 0) < TIERS {
      var t := TierOf(q, id, 0);
      var i := FindIn(q.jobs, q.pending[t], id, 0);
      var r := q.pending[t][i];
      TakePendingCore(q, {}, t, i);
      assert {} + {r} == {r} && {r} - {r} == {};
      MarkCancelledCore(TakePending(q, t, i), {r}, r);
    } else {
      StopGood(q, RunningWith(q, id), Cancel);
    }
  }

  lemma {:induction false} CancelRefsGood(q: Queue, hand: set<nat>, refs: seq<nat>)
    requires Core(q, hand) && Limited(q) && RefsOk(q) && Refs(refs, |q.jobs|) && Lists(refs, hand)
    ensures Good(CancelRefs(q, refs))
    decreases |refs|
  {
    hide Core, Limited, RefsOk, MarkCancelled;
    if refs == [] {
      assert hand == {};
    } else {
      var r := refs[0];
      assert r in refs;
      MarkCancelledCore(q, hand, r);
      assert refs == [r] + refs[1..];
      assert forall i :: 0 <= i < |refs| - 1 ==> refs[1..][i] == refs[i + 1];
      CancelRefsGood(MarkCancelled(q, r), hand - {r}, refs[1..]);
    }
  }

  lemma ListsConcat(s: seq<nat>, m: set<nat>, s': seq<nat>, m': set<nat>)
    requires Lists(s, m) && Lists(s', m') && m !! m'
    ensures Lists(s + s', m + m')
  {
    forall i, j | 0 <= i < j < |s + s'| ensures (s + s')[i] != (s + s')[j] {
      if i < |s| <= j {
        assert s[i] in m && s'[j - |s|] in m';
      }
    }
  }

  ghost function WaitingSet(jobs: seq<Job>): set<nat> {
    In(jobs, Pending) + In(jobs, Scheduled)
  }

  lemma LineListed(q: Queue)
    requires Placed(q, {}) && RefsOk(q)
    ensures Lists(Line(q.pending), In(q.jobs, Pending))
  {
    hide Lists, Refs;
    var p, j := q.pending, q.jobs;
    assert forall t :: InTier(j, t) - {} == InTier(j, t);
    assert Lists(p[0], InTier(j, 0)) && Lists(p[1], InTier(j, 1)) && Lists(p[2], InTier(j, 2)) && Lists(p[3], InTier(j, 3));
    ListsConcat(p[0], InTier(j, 0), p[1], InTier(j, 1));
    ListsConcat(p[0] + p[1], InTier(j, 0) + InTier(j, 1), p[2], InTier(j, 2));
    ListsConcat(p[0] + p[1] + p[2], InTier(j, 0) + InTier(j, 1) + InTier(j, 2), p[3], InTier(j, 3));
    assert InTier(j, 0) + InTier(j, 1) + InTier(j, 2) + InTier(j, 3) == In(j, Pending);
  }

  lemma WaitingListed(q: Queue)
    requires Core(q, {}) && RefsOk(q)
    ensures Lists(WaitingRefs(q), WaitingSet(q.jobs))
  {
    hide Lists, Refs, Line;
    LineListed(q);
    assert In(q.jobs, Scheduled) - {} == In(q.jobs, Scheduled);
    ListsConcat(Line(q.pending), In(q.jobs, Pending), q.scheduled, In(q.jobs, Scheduled));
  }

  lemma EmptiedLists(jobs: seq<Job>, running: set<nat>)
    requires RunningOk(running, jobs, {})
    ensures TiersOk([[], [], [], []], jobs, WaitingSet(jobs))
    ensures ScheduledOk([], jobs, WaitingSet(jobs)) && RunningOk(running, jobs, WaitingSet(jobs))
    ensures HandOk(jobs, WaitingSet(jobs))
  {
    var pending: seq<seq<nat>> := [[], [], [], []];
    forall t: nat | t < TIERS ensures Lists(pending[t], InTier(jobs, t) - WaitingSet(jobs)) {
      assert InTier(jobs, t) - WaitingSet(jobs) == {};
      assert pending[t] == [];
    }
    assert In(jobs, Scheduled) - WaitingSet(jobs) == {};
    assert In(jobs, Running) - WaitingSet(jobs) == In(jobs, Running) - {};
  }

  lemma EmptiedCore(q: Queue)
    requires Core(q, {}) && RefsOk(q)
    ensures Core(Emptied(q), WaitingSet(q.jobs))
  {
    var q' := q.(pending := [[], [], [], []], scheduled := []);
    hide Refs, TiersOk, ScheduledOk, RunningOk, HandOk, In, IdsApart, JobsOk, Armed, WaitingSet;
    EmptiedLists(q.jobs, q.running);
    assert Core(q', WaitingSet(q.jobs));
    CoreRefs(q', WaitingSet(q.jobs));
    ArmedCore(q', WaitingSet(q.jobs));
  }

  lemma CancelWaitingGood(q: Queue)
    requires Good(q) && RefsOk(q)
    ensures Good(CancelWaiting(q))
  {
    hide Core, LimitOk, RefsOk, Line, CancelRefs, Lists, WaitingSet, Earliest;
    EmptiedCore(q);
    WaitingListed(q);
    CancelRefsGood(Emptied(q), WaitingSet(q.jobs), WaitingRefs(q));
  }

  // ---- Every step --------------------------------------------------------------------

  lemma SwitchedGood(q: Queue, e: Event)
    requires Good(q) && RefsOk(q)
    ensures Good(Switched(q, e))
  {
    hide TiersOk, ScheduledOk, RunningOk, HandOk, In, IdsApart, JobsOk, LimitOk, Refs;
    var q' := Switched(q, e);
    LimitLater(q.limiter, q.jobs, q.config.windows, q.clock, q'.clock);
  }

  lemma StepGood(q: Queue, e: Event)
    requires Good(q) && RefsOk(q)
    ensures Good(Step(q, e))
  {
    hide Good, Refs, RefsOk, Accept, Ends, PromoteDue, CancelById, CancelWaiting, Stop, Tick, Switched;
    match e {
      case Enqueue(_, _, _, _, _) => AcceptGood(q, e);
      case AttemptEnds(r, o, delay) => EndsGood(q, r, o, delay);
      case TimerFires => PromoteDueGood(q);
      case CancelJob(id) => CancelByIdGood(q, id);
      case CancelAll => CancelWaitingGood(q);
      case StopJob(id, reason) => StopGood(q, RunningWith(q, id), reason);
      case StopAll(reason) => StopGood(q, q.running, reason);
      case _ =>
        SwitchedGood(q, e);
        TickGood(Switched(q, e));
    }
  }

  // ---- The queue never rests with work it could do -----------------------------------

  /** While a job is scheduled, the timer is set for the earliest due time at the latest. */
  predicate TimerOk(q: Queue) {
    q.halted || forall k :: 0 <= k < |q.scheduled| && q.scheduled[k] < |q.jobs| ==>
      q.timer.Some? && q.timer.value <= RateLimiter.Max(q.jobs[q.scheduled[k]].notBefore, q.clock)
  }

  /** No pending job while a slot is free. */
  predicate Busy(q: Queue)
    requires |q.pending| == TIERS
  {
    MayStart(q) ==> Line(q.pending) == []
  }

  lemma ArmedTimer(q: Queue)
    requires RefsOk(q)
    ensures TimerOk(Armed(q))
  {
  }

  lemma {:induction false} EarliestIsDue(jobs: seq<Job>, scheduled: seq<nat>) returns (i: nat)
    requires scheduled != [] && Refs(scheduled, |jobs|)
    ensures i < |scheduled| && Earliest(jobs, scheduled) == jobs[scheduled[i]].notBefore
  {
    var n := |scheduled| - 1;
    i := n;
    if n > 0 {
      var k := EarliestIsDue(jobs, scheduled[..n]);
      if Earliest(jobs, scheduled) == jobs[scheduled[k]].notBefore { i := k; }
    }
  }

  /** The timer is set exactly while a job is scheduled: for the first due time, or for now if that has passed,
      or as late as a timer can be set. */
  lemma ArmedExact(q: Queue)
    requires RefsOk(q)
    ensures var timer := Armed(q).timer;
            && (timer.Some? <==> q.scheduled != [])
            && (timer.Some? ==>
                  && q.clock <= timer.value <= q.clock + 0x7FFF_FFFF
                  && (forall i :: 0 <= i < |q.scheduled| ==>
                        timer.value <= RateLimiter.Max(q.jobs[q.scheduled[i]].notBefore, q.clock))
                  && (timer.value == q.clock + 0x7FFF_FFFF
                      || exists i :: 0 <= i < |q.scheduled|
                                     && timer.value == RateLimiter.Max(q.jobs[q.scheduled[i]].notBefore, q.clock)))
  {
    hide Earliest;
    if q.scheduled != [] {
      var i := EarliestIsDue(q.jobs, q.scheduled);
      assert Armed(q).timer.value == q.clock + 0x7FFF_FFFF
             || Armed(q).timer.value == RateLimiter.Max(q.jobs[q.scheduled[i]].notBefore, q.clock);
    }
  }

  lemma TimerKeep(q: Queue, q': Queue)
    requires RefsOk(q) && TimerOk(q)
    requires q'.timer == q.timer && q'.scheduled == q.scheduled && q'.halted == q.halted && q'.clock == q.clock
    requires |q.jobs| <= |q'.jobs| && forall r :: 0 <= r < |q.jobs| ==> q'.jobs[r].notBefore == q.jobs[r].notBefore
    ensures TimerOk(q')
  {
  }

  lemma StartNextTimer(q: Queue, t: nat)
    requires RefsOk(q) && TimerOk(q) && t < TIERS && q.pending[t] != []
    ensures TimerOk(StartNext(q, t))
  {
    hide Refs, Cut, WaitFor, Armed, TimerOk;
    var r := q.pending[t][0];
    var q1 := Asked(TakePending(q, t, 0), r);
    if WaitFor(q, r) > 0 {
      var q2 := PutScheduled(q1, r, q1.jobs[r], q.clock + WaitFor(q, r));
      ArmedTimer(q2.(throttled := q2.throttled + {r}));
    } else {
      TimerKeep(q, Begin(q1, r));
    }
  }

  lemma {:induction false} TickRests(q: Queue)
    requires RefsOk(q) && TimerOk(q)
    ensures TimerOk(Tick(q)) && Busy(Tick(q))
    decreases |Line(q.pending)|
  {
    hide Refs, TimerOk, StartNext, Cut;
    if MayStart(q) {
      var t := FirstTier(q.pending, 0);
      if t < TIERS {
        StartNextTimer(q, t);
        LineCut(q.pending, t);
        TickRests(StartNext(q, t));
      }
    }
  }

  lemma SettleTimer(q: Queue, r: nat, reason: Option<Reason>, o: Outcome, delay: nat)
    requires RefsOk(q) && TimerOk(q) && r < |q.jobs|
    ensures TimerOk(Settle(q, r, reason, o, delay))
  {
    hide Refs, Armed, TimerOk, Rank;
    var j := q.jobs[r];
    if reason == Some(Cancel) || reason == Some(Interrupt) || (reason == None && o.Sent?)
       || j.attempts > q.config.maxRetries || (reason == None && o.Failed? && !o.retryable) {
      TimerKeep(q, Settle(q, r, reason, o, delay));
    } else {
      ArmedTimer(PutScheduled(q, r, j.(errors := j.errors + 1), q.clock + delay));
    }
  }

  lemma EndsRests(q: Queue, r: nat, o: Outcome, delay: nat)
    requires RefsOk(q) && TimerOk(q) && Busy(q)
    ensures TimerOk(Ends(q, r, o, delay)) && Busy(Ends(q, r, o, delay))
  {
    hide Refs, TimerOk, Settle, Tick;
    if r in q.running {
      TimerKeep(q, TakeRunning(q, r));
      var reason := if r in q.reasons then Some(q.reasons[r]) else None;
      SettleTimer(TakeRunning(q, r), r, reason, o, delay);
      TickRests(Settle(TakeRunning(q, r), r, reason, o, delay));
    }
  }

  lemma AcceptRests(q: Queue, e: Event)
    requires RefsOk(q) && TimerOk(q) && Busy(q) && e.Enqueue?
    ensures TimerOk(Accept(q, e)) && Busy(Accept(q, e))
  {
    hide Refs, TimerOk, Tick, Known, Armed, Rank;
    if !q.closed && !Known(q, e.id) {
      var r, j := |q.jobs|, NewJob(e);
      var q1 := q.(jobs := q.jobs + [j]);
      RefsMore(q, q1);
      if e.sendAt.Some? && e.sendAt.value > q.clock {
        ArmedTimer(PutScheduled(q1, r, j, e.sendAt.value));
        ArmedKeeps(PutScheduled(q1, r, j, e.sendAt.value));
      } else {
        TimerKeep(q, PutBack(q1, r, j));
        TickRests(PutBack(q1, r, j));
      }
    }
  }

  lemma {:induction false} CancelRefsRests(q: Queue, refs: seq<nat>)
    requires RefsOk(q) && TimerOk(q) && Refs(refs, |q.jobs|)
    ensures var q' := CancelRefs(q, refs);
            && TimerOk(q') && q'.pending == q.pending && q'.running == q.running
            && q'.ready == q.ready && q'.paused == q.paused && q'.config == q.config
    decreases |refs|
  {
    hide RefsOk, TimerOk;
    if refs != [] {
      MarkCancelledTimer(q, refs[0]);
      CancelRefsRests(MarkCancelled(q, refs[0]), refs[1..]);
    }
  }

  lemma MarkCancelledTimer(q: Queue, r: nat)
    requires RefsOk(q) && TimerOk(q) && r < |q.jobs|
    ensures TimerOk(MarkCancelled(q, r))
  {
    hide Refs, TimerOk;
    TimerKeep(q, MarkCancelled(q, r));
  }

  lemma LineHas(pending: seq<seq<nat>>, t: nat)
    requires |pending| == TIERS && t < TIERS && pending[t] != []
    ensures Line(pending) != []
  {
  }

  lemma RefsNone(q: Queue)
    requires RefsOk(q)
    ensures RefsOk(q.(pending := [[], [], [], []], scheduled := []))
  {
  }

  lemma CancelWaitingRests(q: Queue)
    requires RefsOk(q)
    ensures TimerOk(CancelWaiting(q)) && Busy(CancelWaiting(q))
  {
    hide Refs, TimerOk, Armed, CancelRefs;
    var q0 := q.(pending := [[], [], [], []], scheduled := []);
    RefsNone(q);
    ArmedTimer(q0);
    CancelRefsRests(Emptied(q), WaitingRefs(q));
  }

  lemma PromoteDueRests(q: Queue)
    requires RefsOk(q)
    ensures TimerOk(PromoteDue(q)) && Busy(PromoteDue(q))
  {
    hide Refs, TimerOk, Tick, PromoteFrom, Armed;
    ArmedTimer(PromoteFrom(q.(timer := None), 0));
    TickRests(Armed(PromoteFrom(q.(timer := None), 0)));
  }

  lemma SwitchedTimer(q: Queue, e: Event)
    requires RefsOk(q) && TimerOk(q)
    ensures TimerOk(Switched(q, e))
  {
    hide Refs;
  }

  lemma StepRests(q: Queue, e: Event)
    requires RefsOk(q) && TimerOk(q) && Busy(q)
    ensures TimerOk(Step(q, e)) && Busy(Step(q, e))
  {
    hide Refs, TimerOk, Accept, Ends, CancelWaiting, PromoteDue, Tick, Line, Armed, Cut, FindIn, TierOf;
    match e {
      case Enqueue(_, _, _, _, _) => AcceptRests(q, e);
      case AttemptEnds(r, o, delay) => EndsRests(q, r, o, delay);
      case TimerFires => PromoteDueRests(q);
      case CancelJob(id) =>
        var k, t := FindIn(q.jobs, q.scheduled, id, 0), TierOf(q, id, 0);
        if k >= 0 {
          ArmedTimer(TakeScheduled(q, k));
          ArmedKeeps(TakeScheduled(q, k));
          MarkCancelledTimer(Armed(TakeScheduled(q, k)), q.scheduled[k]);
        } else if t < TIERS {
          var i := FindIn(q.jobs, q.pending[t], id, 0);
          TimerKeep(q, TakePending(q, t, i));
          MarkCancelledTimer(TakePending(q, t, i), q.pending[t][i]);
          LineHas(q.pending, t);
        } else {
          TimerKeep(q, CancelById(q, id));
        }
      case CancelAll => CancelWaitingRests(q);
      case StopJob(id, reason) => TimerKeep(q, Step(q, e));
      case StopAll(reason) => TimerKeep(q, Step(q, e));
      case _ =>
        SwitchedTimer(q, e);
        TickRests(Switched(q, e));
    }
  }

  // ---- Whole runs --------------------------------------------------------------------

  function Run(q: Queue, events: seq<Event>): (q': Queue)
    requires RefsOk(q)
    ensures RefsOk(q') && q'.config == q.config
    decreases |events|
  {
    if events == [] then q else Run(Step(q, events[0]), events[1..])
  }

  lemma {:induction false} RunGood(q: Queue, events: seq<Event>)
    requires Good(q) && RefsOk(q) && TimerOk(q) && Busy(q)
    ensures Good(Run(q, events)) && TimerOk(Run(q, events)) && Busy(Run(q, events))
    decreases |events|
  {
    hide Good, RefsOk, TimerOk, Step, Busy;
    if events != [] {
      var e := events[0];
      StepGood(q, e);
      StepRests(q, e);
      RunGood(Step(q, e), events[1..]);
    }
  }

  lemma BoundedNothing(windows: seq<RateLimiter.Window>)
    ensures RateLimiter.Bounded([], windows)
  {
  }

  lemma CreatedGood(config: Config, clock: int)
    ensures var q := Created(config, clock); Good(q) && RefsOk(q) && TimerOk(q) && Busy(q)
  {
    hide RateLimiter.Longest, RateLimiter.Bounded;
    var q := Created(config, clock);
    assert forall s :: In(q.jobs, s) == {};
    assert forall t :: InTier(q.jobs, t) == {};
    assert In(q.jobs, Running) - {} == {};
    BoundedNothing(config.windows);
    assert RateLimiter.Prune([], clock - RateLimiter.Longest(config.windows)) == [];
    assert RateLimiter.KeyInv([], [], config.windows, clock);
  }

  /** Everything a reachable queue is known to satisfy. */
  lemma Reachable(config: Config, clock: int, events: seq<Event>)
    ensures RefsOk(Created(config, clock))
    ensures var q := Run(Created(config, clock), events);
            Good(q) && TimerOk(q) && Busy(q)
  {
    hide Good, TimerOk, Busy, Run;
    CreatedGood(config, clock);
    RunGood(Created(config, clock), events);
  }

  // ---- What it means -----------------------------------------------------------------

  function One(b: bool): nat { if b then 1 else 0 }

  /** How many times a job occurs on the lists and among the finished. */
  ghost function Places(q: Queue, r: nat): nat
    requires RefsOk(q) && r < |q.jobs|
  {
    var s := q.jobs[r].status;
    multiset(Line(q.pending))[r] + multiset(q.scheduled)[r] + One(r in q.running)
    + One(s == Success) + One(s == Dead) + One(s == Cancelled)
  }

  lemma {:induction false} DistinctOnce(s: seq<nat>, r: nat)
    requires Distinct(s)
    ensures multiset(s)[r] == One(r in s)
  {
    if s != [] {
      var n := |s| - 1;
      assert s == s[..n] + [s[n]];
      DistinctOnce(s[..n], r);
    }
  }

  /** Each accepted job is in exactly one place, and each tier holds only jobs of its own priority. */
  lemma ExactlyOne(q: Queue, r: nat)
    requires Good(q) && RefsOk(q) && r < |q.jobs|
    ensures Places(q, r) == 1
    ensures forall t :: 0 <= t < TIERS && r in q.pending[t] ==> Rank(q.jobs[r].priority) == t
  {
    hide Limited, Refs, Marked, JobsOk, IdsApart, CountsOk, Rank, LimitOk;
    assert forall t :: InTier(q.jobs, t) - {} == InTier(q.jobs, t);
    LineListed(q);
    DistinctOnce(Line(q.pending), r);
    DistinctOnce(q.scheduled, r);
    assert r in q.scheduled <==> r in In(q.jobs, Scheduled) - {};
    assert r in q.running <==> r in In(q.jobs, Running) - {};
    assert r in Line(q.pending) <==> r in In(q.jobs, Pending);
  }

  lemma {:induction false} ListsSize(s: seq<nat>, m: set<nat>)
    requires Lists(s, m)
    ensures |s| == |m|
  {
    if s == [] {
      assert m == {};
    } else {
      var n := |s| - 1;
      assert s == s[..n] + [s[n]];
      assert s[n] in s && s[n] !in s[..n];
      assert forall r :: r in s[..n] ==> r in s;
      ListsSize(s[..n], m - {s[n]});
    }
  }

  lemma InLast(jobs: seq<Job>, s: Status)
    requires jobs != []
    ensures var n := |jobs| - 1; |In(jobs, s)| == |In(jobs[..n], s)| + One(jobs[n].status == s)
  {
    var n := |jobs| - 1;
    InPrefix(jobs, s);
    hide In;
    assert In(jobs, s) == In(jobs[..n], s) + (if jobs[n].status == s then {n} else {});
  }

  lemma InPrefix(jobs: seq<Job>, s: Status)
    requires jobs != []
    ensures var n := |jobs| - 1;
            && n !in In(jobs[..n], s)
            && forall x :: x in In(jobs, s) <==> x in In(jobs[..n], s) || (x == n && jobs[n].status == s)
  {
  }

  /** Every job has one of the six statuses. */
  lemma {:induction false} StatusCounts(jobs: seq<Job>)
    ensures |In(jobs, Pending)| + |In(jobs, Scheduled)| + |In(jobs, Running)|
            + |In(jobs, Success)| + |In(jobs, Dead)| + |In(jobs, Cancelled)| == |jobs|
  {
    if jobs == [] {
      assert forall s :: In(jobs, s) == {};
    } else {
      hide In;
      StatusCounts(jobs[..|jobs| - 1]);
      InLast(jobs, Pending);
      InLast(jobs, Scheduled);
      InLast(jobs, Running);
      InLast(jobs, Success);
      InLast(jobs, Dead);
      InLast(jobs, Cancelled);
    }
  }

  /** What stats() reports always adds up to the jobs that were accepted. */
  lemma StatsAddUp(q: Queue)
    requires Good(q) && RefsOk(q)
    ensures |Line(q.pending)| + |q.scheduled| + |q.running| + q.succeeded + q.dead + q.cancelled == |q.jobs|
  {
    hide Limited, Refs, Marked, JobsOk, IdsApart, Line, Lists, In;
    LineListed(q);
    ListsSize(Line(q.pending), In(q.jobs, Pending));
    ListsSize(q.scheduled, In(q.jobs, Scheduled) - {});
    assert In(q.jobs, Scheduled) - {} == In(q.jobs, Scheduled);
    assert In(q.jobs, Running) - {} == In(q.jobs, Running);
    StatusCounts(q.jobs);
  }

  // ---- Bounded work ------------------------------------------------------------------

  function Starts(jobs: seq<Job>): nat {
    if jobs == [] then 0 else Starts(jobs[..|jobs| - 1]) + jobs[|jobs| - 1].starts
  }

  function Interrupts(jobs: seq<Job>): nat {
    if jobs == [] then 0 else Interrupts(jobs[..|jobs| - 1]) + jobs[|jobs| - 1].interrupts
  }

  lemma {:induction false} StartsSum(jobs: seq<Job>, maxRetries: nat)
    requires JobsOk(jobs, maxRetries)
    ensures Starts(jobs) <= |jobs| * (maxRetries + 1) + Interrupts(jobs)
  {
    if jobs != [] {
      var n := |jobs| - 1;
      StartsSum(jobs[..n], maxRetries);
      assert JobOk(jobs[n], maxRetries);
      assert |jobs| * (maxRetries + 1) == n * (maxRetries + 1) + (maxRetries + 1);
    }
  }

  /** A job starts at most maxRetries + 1 times besides its interrupts; so do all of them together. */
  lemma StartsBounded(q: Queue, r: nat)
    requires Good(q) && r < |q.jobs|
    ensures q.jobs[r].starts <= q.config.maxRetries + 1 + q.jobs[r].interrupts
    ensures Starts(q.jobs) <= |q.jobs| * (q.config.maxRetries + 1) + Interrupts(q.jobs)
  {
    hide Limited, Placed, Marked, CountsOk, IdsApart;
    StartsSum(q.jobs, q.config.maxRetries);
    assert JobOk(q.jobs[r], q.config.maxRetries);
  }

  /** The starts of each key respect every window at every instant, if no job is too large for a window. */
  lemma StartsWithinRate(q: Queue, key: string)
    requires Good(q) && Limiting(q.jobs, q.config.windows)
    ensures RateLimiter.Bounded(RateLimiter.Of(q.limiter.starts, key), q.config.windows)
    ensures |RateLimiter.Of(q.limiter.starts, key)| == KeyStarts(q.jobs, key)
  {
    hide Core, RateLimiter.Bounded, RateLimiter.Longest;
    assert RateLimiter.KeyInv(RateLimiter.Of(q.limiter.uses, key), RateLimiter.Of(q.limiter.starts, key),
                              q.config.windows, q.clock);
  }

  // ---- Every run ---------------------------------------------------------------------

  /** Conservation: at any time each job is in exactly one place, on a tier of its own priority; throttled
      jobs are scheduled; and no more jobs run than may run at once. */
  lemma Conserved(config: Config, clock: int, events: seq<Event>)
    ensures RefsOk(Created(config, clock))
    ensures var q := Run(Created(config, clock), events);
            && (forall r :: 0 <= r < |q.jobs| ==> Places(q, r) == 1)
            && (forall r, t :: 0 <= r < |q.jobs| && 0 <= t < TIERS && r in q.pending[t] ==> Rank(q.jobs[r].priority) == t)
            && (forall r :: r in q.throttled ==> r in q.scheduled)
            && |q.running| <= config.concurrency
            && |Line(q.pending)| + |q.scheduled| + |q.running| + q.succeeded + q.dead + q.cancelled == |q.jobs|
  {
    hide Good, Refs, Run, Places, Rank, Line, TimerOk, Busy;
    Reachable(config, clock, events);
    var q := Run(Created(config, clock), events);
    forall r | 0 <= r < |q.jobs|
      ensures Places(q, r) == 1
      ensures forall t :: 0 <= t < TIERS && r in q.pending[t] ==> Rank(q.jobs[r].priority) == t
    {
      ExactlyOne(q, r);
    }
    ThrottledWait(q);
    StatsAddUp(q);
  }

  lemma ThrottledWait(q: Queue)
    requires Good(q)
    ensures |q.running| <= q.config.concurrency && forall r :: r in q.throttled ==> r in q.scheduled
  {
    hide Limited, TiersOk, RunningOk, HandOk, JobsOk, IdsApart, CountsOk;
    forall r | r in q.throttled ensures r in q.scheduled {
      assert r in In(q.jobs, Scheduled) - {};
    }
  }

  /** In every run the starts of each key respect every window at every instant, unless some job is larger
      than a window's limit; and all of them went through the limiter. */
  lemma RateInEveryRun(config: Config, clock: int, events: seq<Event>, key: string)
    requires RefsOk(Created(config, clock))
    requires Limiting(Run(Created(config, clock), events).jobs, config.windows)
    ensures var q := Run(Created(config, clock), events);
            && RateLimiter.Bounded(RateLimiter.Of(q.limiter.starts, key), config.windows)
            && |RateLimiter.Of(q.limiter.starts, key)| == KeyStarts(q.jobs, key)
  {
    hide Good, Refs, RefsOk, Run, TimerOk, Busy, Limiting, RateLimiter.Bounded;
    Reachable(config, clock, events);
    StartsWithinRate(Run(Created(config, clock), events), key);
  }
}
