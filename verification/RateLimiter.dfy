/** The multi-window sliding rate limiter (src/queue/RateLimiter.ts). Times are in milliseconds. */
module RateLimiter {
  import opened Text

  datatype Use = Use(t: int, cost: nat)

  /** A window and its limit. A fractional limit is rounded down: costs are whole numbers, so no comparison
      comes out differently. */
  datatype Window = Window(ms: nat, limit: nat)

  // ---- Specification -----------------------------------------------------------------

  /** Cost of the uses after the instant `cut`. */
  function UsedAfter(uses: seq<Use>, cut: int): nat {
    if uses == [] then 0
    else (if uses[0].t > cut then uses[0].cost else 0) + UsedAfter(uses[1..], cut)
  }

  /** A job fits a window at `now`; one that could never fit is let through. */
  predicate FitsWindow(uses: seq<Use>, w: Window, cost: nat, now: int) {
    cost > w.limit || UsedAfter(uses, now - w.ms) + cost <= w.limit
  }

  predicate Fits(uses: seq<Use>, windows: seq<Window>, cost: nat, now: int) {
    forall i :: 0 <= i < |windows| ==> FitsWindow(uses, windows[i], cost, now)
  }

  /** Recorded in time order. */
  predicate InOrder(uses: seq<Use>) {
    forall i, j :: 0 <= i < j < |uses| ==> uses[i].t <= uses[j].t
  }

  // ---- The algorithm -----------------------------------------------------------------

  /** The use whose expiry brings the freed cost to `free`: the uses expire in order. */
  function Expiry(uses: seq<Use>, free: int, cut: int): Option<int> {
    if uses == [] then None
    else if uses[0].t <= cut then Expiry(uses[1..], free, cut)
    else if free - uses[0].cost <= 0 then Some(uses[0].t)
    else Expiry(uses[1..], free - uses[0].cost, cut)
  }

  function WindowWait(uses: seq<Use>, w: Window, cost: nat, now: int): int {
    var used := UsedAfter(uses, now - w.ms);
    if cost > w.limit || used + cost <= w.limit then 0
    else match Expiry(uses, used + cost - w.limit, now - w.ms)
      case None => 0
      case Some(t) => t + w.ms - now
  }

  function Max(a: int, b: int): int { if a >= b then a else b }

  /** Milliseconds until the job may start. */
  function Wait(uses: seq<Use>, windows: seq<Window>, cost: nat, now: int): (wait: int)
    ensures wait >= 0
  {
    if windows == [] then 0
    else Max(Wait(uses, windows[..|windows| - 1], cost, now),
             WindowWait(uses, windows[|windows| - 1], cost, now))
  }

  function Prune(uses: seq<Use>, cut: int): seq<Use> {
    if uses == [] then []
    else (if uses[0].t > cut then [uses[0]] else []) + Prune(uses[1..], cut)
  }

  function Longest(windows: seq<Window>): (ms: nat)
    ensures forall i :: 0 <= i < |windows| ==> windows[i].ms <= ms
  {
    if windows == [] then 0
    else Max(Longest(windows[..|windows| - 1]), windows[|windows| - 1].ms)
  }

  function Of(uses: map<string, seq<Use>>, key: string): seq<Use> {
    if key in uses then uses[key] else []
  }

  class Limiter {
    const windows: seq<Window>
    var uses: map<string, seq<Use>>

    constructor (windows: seq<Window>)
      ensures this.windows == windows && uses == map[]
    {
      this.windows := windows;
      uses := map[];
    }

    method WaitFor(key: string, cost: nat, now: int) returns (wait: int)
      modifies this`uses
      ensures uses == old(uses)[key := Prune(Of(old(uses), key), now - Longest(windows))]
      ensures wait == Wait(uses[key], windows, cost, now)
    {
      uses := uses[key := Prune(Of(uses, key), now - Longest(windows))];
      var list := uses[key];
      wait := 0;
      for i := 0 to |windows|
        invariant uses == old(uses)[key := list]
        invariant wait == Wait(list, windows[..i], cost, now)
      {
        var w := windows[i];
        assert windows[..i + 1][..i] == windows[..i];
        if cost > w.limit { continue; }
        var used := UsedIn(list, now - w.ms);
        if used + cost <= w.limit { continue; }
        var at := ExpiryIn(list, used + cost - w.limit, now - w.ms);
        if at.Some? { wait := Max(wait, at.value + w.ms - now); }
      }
      assert windows[..|windows|] == windows;
    }

    /** The sum over the uses in a window. */
    static method UsedIn(list: seq<Use>, cut: int) returns (used: nat)
      ensures used == UsedAfter(list, cut)
    {
      used := 0;
      for j := 0 to |list|
        invariant used + UsedAfter(list[j..], cut) == UsedAfter(list, cut)
      {
        assert list[j..][1..] == list[j + 1..];
        if list[j].t > cut { used := used + list[j].cost; }
      }
    }

    /** The search for the use whose expiry makes room. */
    static method ExpiryIn(list: seq<Use>, excess: int, cut: int) returns (at: Option<int>)
      ensures at == Expiry(list, excess, cut)
    {
      var free := excess;
      for j := 0 to |list|
        invariant Expiry(list, excess, cut) == Expiry(list[j..], free, cut)
      {
        assert list[j..][1..] == list[j + 1..];
        if list[j].t <= cut { continue; }
        free := free - list[j].cost;
        if free <= 0 { return Some(list[j].t); }
      }
      at := None;
    }

    method Record(key: string, cost: nat, now: int)
      modifies this`uses
      ensures uses == old(uses)[key := Of(old(uses), key) + [Use(now, cost)]]
    {
      var list := Of(uses, key);
      uses := uses[key := list + [Use(now, cost)]];
    }
  }

  // ---- waitFor is exact --------------------------------------------------------------

  lemma {:induction false} UsedAfterLess(uses: seq<Use>, c: int, c': int)
    requires c <= c'
    ensures UsedAfter(uses, c') <= UsedAfter(uses, c)
  {
    if uses != [] {
      UsedAfterLess(uses[1..], c, c');
    }
  }

  /** Before the first use nothing expires. */
  lemma {:induction false} UsedAfterAll(uses: seq<Use>, c: int, c': int)
    requires InOrder(uses) && (uses != [] ==> c < uses[0].t && c' < uses[0].t)
    ensures UsedAfter(uses, c') == UsedAfter(uses, c)
  {
    if uses != [] {
      assert uses[1..] != [] ==> uses[1..][0] == uses[1];
      UsedAfterAll(uses[1..], c, c');
    }
  }

  /** At its expiry, and not before, at least `free` of the cost is gone. */
  lemma {:induction false} ExpiryExact(uses: seq<Use>, free: int, cut: int)
    requires InOrder(uses) && 0 < free <= UsedAfter(uses, cut)
    ensures Expiry(uses, free, cut).Some?
    ensures var t := Expiry(uses, free, cut).value;
            && t > cut && (forall c :: c >= t ==> UsedAfter(uses, c) <= UsedAfter(uses, cut) - free)
            && (forall c :: cut <= c < t ==> UsedAfter(uses, c) > UsedAfter(uses, cut) - free)
            && exists i :: 0 <= i < |uses| && uses[i].t == t
  {
    var u, rest := uses[0], uses[1..];
    var total := UsedAfter(uses, cut);
    if u.t <= cut {
      ExpiryExact(rest, free, cut);
    } else {
      var t := u.t;
      if free - u.cost > 0 {
        ExpiryExact(rest, free - u.cost, cut);
        t := Expiry(rest, free - u.cost, cut).value;
        var i :| 0 <= i < |rest| && rest[i].t == t;
        assert uses[i + 1].t == t;
      } else {
        assert uses[0].t == t;
      }
      assert u.t <= t;
      forall c | c >= t ensures UsedAfter(uses, c) <= total - free {
        UsedAfterLess(rest, cut, c);
      }
      forall c | cut <= c < t ensures UsedAfter(uses, c) > total - free {
        if c < u.t {
          UsedAfterAll(uses, cut, c);
        }
      }
    }
  }

  lemma WindowWaitExact(uses: seq<Use>, w: Window, cost: nat, now: int)
    requires InOrder(uses)
    ensures var wait := WindowWait(uses, w, cost, now);
            && wait >= 0
            && (forall at :: at >= now + wait ==> FitsWindow(uses, w, cost, at))
            && (forall at :: now <= at < now + wait ==> !FitsWindow(uses, w, cost, at))
  {
    var cut := now - w.ms;
    var used := UsedAfter(uses, cut);
    if cost <= w.limit {
      if used + cost <= w.limit {
        forall at | at >= now ensures FitsWindow(uses, w, cost, at) {
          UsedAfterLess(uses, cut, at - w.ms);
        }
      } else {
        ExpiryExact(uses, used + cost - w.limit, cut);
      }
    }
  }

  /** waitFor answers 0 exactly when the job fits now, and otherwise the least delay after which it fits
      if nothing else is recorded. */
  lemma {:induction false} WaitExact(uses: seq<Use>, windows: seq<Window>, cost: nat, now: int)
    requires InOrder(uses)
    ensures var wait := Wait(uses, windows, cost, now);
            && (forall at :: at >= now + wait ==> Fits(uses, windows, cost, at))
            && (forall at :: now <= at < now + wait ==> !Fits(uses, windows, cost, at))
    decreases |windows|
  {
    hide FitsWindow, WindowWait;
    if windows != [] {
      var init, last := windows[..|windows| - 1], windows[|windows| - 1];
      WaitExact(uses, init, cost, now);
      WindowWaitExact(uses, last, cost, now);
      forall at: int
        ensures Fits(uses, windows, cost, at) <==>
                Fits(uses, init, cost, at) && FitsWindow(uses, last, cost, at)
      {
        assert forall i :: 0 <= i < |init| ==> init[i] == windows[i];
      }
    }
  }

  // ---- Pruning loses nothing ---------------------------------------------------------

  lemma PruneUnfold(uses: seq<Use>, cut: int)
    requires uses != []
    ensures var p, rest := Prune(uses, cut), Prune(uses[1..], cut);
            if uses[0].t > cut then p != [] && p[0] == uses[0] && p[1..] == rest else p == rest
  {
  }

  lemma {:induction false} PruneUsed(uses: seq<Use>, cut: int, c: int)
    requires cut <= c
    ensures UsedAfter(Prune(uses, cut), c) == UsedAfter(uses, c)
  {
    if uses != [] {
      PruneUsed(uses[1..], cut, c);
      PruneUnfold(uses, cut);
    }
  }

  lemma {:induction false} PruneOrder(uses: seq<Use>, cut: int)
    requires InOrder(uses)
    ensures InOrder(Prune(uses, cut))
    ensures forall i :: 0 <= i < |Prune(uses, cut)| ==> Prune(uses, cut)[i] in uses
  {
    if uses != [] {
      PruneOrder(uses[1..], cut);
      var p := Prune(uses[1..], cut);
      forall i | 0 <= i < |p| ensures uses[0].t <= p[i].t && p[i] in uses {
        assert p[i] in uses[1..];
        var j :| 0 <= j < |uses[1..]| && uses[1..][j] == p[i];
        assert uses[j + 1] == p[i];
      }
    }
  }

  lemma {:induction false} PruneTwice(uses: seq<Use>, c: int, c': int)
    ensures Prune(Prune(uses, c), c') == Prune(uses, Max(c, c'))
  {
    if uses != [] {
      PruneTwice(uses[1..], c, c');
      PruneUnfold(uses, c);
      PruneUnfold(uses, Max(c, c'));
    }
  }

  lemma {:induction false} PrunePush(uses: seq<Use>, u: Use, cut: int)
    ensures Prune(uses + [u], cut) == Prune(uses, cut) + (if u.t > cut then [u] else [])
    ensures forall c :: UsedAfter(uses + [u], c) == UsedAfter(uses, c) + (if u.t > c then u.cost else 0)
  {
    if uses == [] {
      assert uses + [u] == [u] && [u][1..] == [];
      assert Prune([u][1..], cut) == [];
    } else {
      assert (uses + [u])[1..] == uses[1..] + [u];
      PrunePush(uses[1..], u, cut);
      Assoc(if uses[0].t > cut then [uses[0]] else [], Prune(uses[1..], cut), if u.t > cut then [u] else []);
    }
  }

  lemma {:induction false} FitsPruned(uses: seq<Use>, windows: seq<Window>, cost: nat, now: int, cut: int)
    requires cut <= now - Longest(windows)
    ensures Fits(Prune(uses, cut), windows, cost, now) <==> Fits(uses, windows, cost, now)
  {
    forall i | 0 <= i < |windows|
      ensures FitsWindow(Prune(uses, cut), windows[i], cost, now) <==> FitsWindow(uses, windows[i], cost, now)
    {
      PruneUsed(uses, cut, now - windows[i].ms);
    }
  }

  // ---- Whole runs --------------------------------------------------------------------

  /** The queue asks the limiter at `asked`; if the answer is 0 the job starts and is recorded at
      `recorded`, by a later reading of the clock. */
  datatype Request = Request(key: string, cost: nat, asked: int, recorded: int)

  /** The limiter's state and every start there ever was, by key. */
  datatype Run = Run(uses: map<string, seq<Use>>, starts: map<string, seq<Use>>)

  function Attempt(r: Run, windows: seq<Window>, q: Request): Run {
    var pruned := Prune(Of(r.uses, q.key), q.asked - Longest(windows));
    if Wait(pruned, windows, q.cost, q.asked) > 0 then Run(r.uses[q.key := pruned], r.starts)
    else
      var u := Use(q.recorded, q.cost);
      Run(r.uses[q.key := pruned + [u]], r.starts[q.key := Of(r.starts, q.key) + [u]])
  }

  function Attempts(r: Run, windows: seq<Window>, qs: seq<Request>): Run
    decreases |qs|
  {
    if qs == [] then r else Attempts(Attempt(r, windows, qs[0]), windows, qs[1..])
  }

  const FRESH := Run(map[], map[])

  /** The clock does not go back, and no single job exceeds a limit. */
  predicate Sound(qs: seq<Request>, windows: seq<Window>, clock: int)
    decreases |qs|
  {
    qs == []
    || (&& clock <= qs[0].asked <= qs[0].recorded
        && (forall i :: 0 <= i < |windows| ==> qs[0].cost <= windows[i].limit)
        && Sound(qs[1..], windows, qs[0].recorded))
  }

  /** Cost of the starts after `lo` and up to `hi`. */
  function Span(starts: seq<Use>, lo: int, hi: int): nat {
    if starts == [] then 0
    else (if lo < starts[0].t <= hi then starts[0].cost else 0) + Span(starts[1..], lo, hi)
  }

  /** The starts of the window that ends at `at` are within its limit. */
  predicate BoundedAt(starts: seq<Use>, w: Window, at: int) {
    Span(starts, at - w.ms, at) <= w.limit
  }

  /** So at every instant, for every window. */
  ghost predicate Bounded(starts: seq<Use>, windows: seq<Window>) {
    forall i, at :: 0 <= i < |windows| ==> BoundedAt(starts, windows[i], at)
  }

  /** What holds of each key: starts are in order and not after `clock`, the limiter holds exactly those
      after some cut no window reaches back to, and the bound holds. */
  ghost predicate KeyInv(uses: seq<Use>, starts: seq<Use>, windows: seq<Window>, clock: int) {
    && InOrder(starts) && (forall i :: 0 <= i < |starts| ==> starts[i].t <= clock)
    && (exists cut :: cut <= clock - Longest(windows) && uses == Prune(starts, cut))
    && Bounded(starts, windows)
  }

  ghost predicate Inv(r: Run, windows: seq<Window>, clock: int) {
    forall key :: KeyInv(Of(r.uses, key), Of(r.starts, key), windows, clock)
  }

  lemma {:induction false} SpanUsed(starts: seq<Use>, lo: int, hi: int)
    ensures Span(starts, lo, hi) <= UsedAfter(starts, lo)
  {
    if starts != [] {
      SpanUsed(starts[1..], lo, hi);
    }
  }

  lemma {:induction false} SpanPush(starts: seq<Use>, u: Use, lo: int, hi: int)
    ensures Span(starts + [u], lo, hi) == Span(starts, lo, hi) + (if lo < u.t <= hi then u.cost else 0)
  {
    if starts == [] {
      assert starts + [u] == [u] && [u][1..] == [];
      assert Span([u][1..], lo, hi) == 0;
    } else {
      assert (starts + [u])[1..] == starts[1..] + [u];
      SpanPush(starts[1..], u, lo, hi);
    }
  }

  /** A start that fitted when the limiter was asked keeps the bound, also when recorded later. */
  lemma BoundedPush(starts: seq<Use>, windows: seq<Window>, cost: nat, asked: int, recorded: int)
    requires Bounded(starts, windows) && Fits(starts, windows, cost, asked) && asked <= recorded
    requires forall i :: 0 <= i < |windows| ==> cost <= windows[i].limit
    ensures Bounded(starts + [Use(recorded, cost)], windows)
  {
    var u := Use(recorded, cost);
    forall i, at | 0 <= i < |windows| ensures BoundedAt(starts + [u], windows[i], at) {
      var lo := at - windows[i].ms;
      SpanPush(starts, u, lo, at);
      assert BoundedAt(starts, windows[i], at);
      if lo < recorded <= at {
        SpanUsed(starts, lo, at);
        UsedAfterLess(starts, asked - windows[i].ms, lo);
        assert FitsWindow(starts, windows[i], cost, asked);
      }
    }
  }

  lemma KeyInvLater(uses: seq<Use>, starts: seq<Use>, windows: seq<Window>, clock: int, clock': int)
    requires KeyInv(uses, starts, windows, clock) && clock <= clock'
    ensures KeyInv(uses, starts, windows, clock')
  {
    var cut :| cut <= clock - Longest(windows) && uses == Prune(starts, cut);
    assert cut <= clock' - Longest(windows);
  }

  lemma KeyAttempt(uses: seq<Use>, starts: seq<Use>, windows: seq<Window>, clock: int, q: Request)
    requires KeyInv(uses, starts, windows, clock) && clock <= q.asked <= q.recorded
    requires Longest(windows) > 0 && forall i :: 0 <= i < |windows| ==> q.cost <= windows[i].limit
    ensures var pruned := Prune(uses, q.asked - Longest(windows));
            var u := Use(q.recorded, q.cost);
            if Wait(pruned, windows, q.cost, q.asked) > 0 then KeyInv(pruned, starts, windows, q.recorded)
            else KeyInv(pruned + [u], starts + [u], windows, q.recorded)
  {
    hide Prune, Wait, Bounded, Fits, FitsWindow, Longest;
    var cut0 :| cut0 <= clock - Longest(windows) && uses == Prune(starts, cut0);
    var cut := q.asked - Longest(windows);
    PruneTwice(starts, cut0, cut);
    var pruned := Prune(uses, cut);
    assert pruned == Prune(starts, cut);
    assert cut <= q.recorded - Longest(windows);
    PruneOrder(starts, cut);
    WaitExact(pruned, windows, q.cost, q.asked);
    if Wait(pruned, windows, q.cost, q.asked) == 0 {
      var u := Use(q.recorded, q.cost);
      assert Fits(pruned, windows, q.cost, q.asked);
      FitsPruned(starts, windows, q.cost, q.asked, cut);
      BoundedPush(starts, windows, q.cost, q.asked, q.recorded);
      PrunePush(starts, u, cut);
    }
  }

  lemma {:induction false} RunKeepsInv(r: Run, windows: seq<Window>, qs: seq<Request>, clock: int)
    requires Inv(r, windows, clock) && Sound(qs, windows, clock) && Longest(windows) > 0
    ensures forall key :: Bounded(Of(Attempts(r, windows, qs).starts, key), windows)
    decreases |qs|
  {
    hide Attempt, Bounded, Longest;
    if qs == [] {
      forall key ensures Bounded(Of(r.starts, key), windows) {
        assert KeyInv(Of(r.uses, key), Of(r.starts, key), windows, clock);
      }
    } else {
      AttemptKeepsInv(r, windows, qs[0], clock);
      RunKeepsInv(Attempt(r, windows, qs[0]), windows, qs[1..], qs[0].recorded);
    }
  }

  /** An attempt changes what is known of its own key only. */
  lemma AttemptAt(r: Run, windows: seq<Window>, q: Request, key: string)
    ensures var r' := Attempt(r, windows, q);
            var pruned := Prune(Of(r.uses, q.key), q.asked - Longest(windows));
            var u := Use(q.recorded, q.cost);
            if key != q.key then Of(r'.uses, key) == Of(r.uses, key) && Of(r'.starts, key) == Of(r.starts, key)
            else if Wait(pruned, windows, q.cost, q.asked) > 0 then
              Of(r'.uses, key) == pruned && Of(r'.starts, key) == Of(r.starts, key)
            else Of(r'.uses, key) == pruned + [u] && Of(r'.starts, key) == Of(r.starts, key) + [u]
  {
    hide Wait, Prune, Longest;
  }

  lemma AttemptKeepsInv(r: Run, windows: seq<Window>, q: Request, clock: int)
    requires Inv(r, windows, clock) && clock <= q.asked <= q.recorded
    requires Longest(windows) > 0 && forall i :: 0 <= i < |windows| ==> q.cost <= windows[i].limit
    ensures Inv(Attempt(r, windows, q), windows, q.recorded)
  {
    hide KeyInv, Wait, Prune, Longest, Attempt, Of;
    var r' := Attempt(r, windows, q);
    forall key ensures KeyInv(Of(r'.uses, key), Of(r'.starts, key), windows, q.recorded) {
      assert KeyInv(Of(r.uses, key), Of(r.starts, key), windows, clock);
      AttemptAt(r, windows, q, key);
      if key == q.key {
        KeyAttempt(Of(r.uses, key), Of(r.starts, key), windows, clock, q);
      } else {
        KeyInvLater(Of(r.uses, key), Of(r.starts, key), windows, clock, q.recorded);
      }
    }
  }

  /** The rate bound over whole runs: for every key, every window and every instant. */
  lemma RateBound(windows: seq<Window>, qs: seq<Request>, clock: int)
    requires Sound(qs, windows, clock) && Longest(windows) > 0
    ensures forall key :: Bounded(Of(Attempts(FRESH, windows, qs).starts, key), windows)
  {
    hide Attempts;
    forall key ensures KeyInv(Of(FRESH.uses, key), Of(FRESH.starts, key), windows, clock) {
      assert Prune([], clock - Longest(windows)) == [];
    }
    RunKeepsInv(FRESH, windows, qs, clock);
  }
}
