/** The IMAP session pool (src/imap/ImapPool.ts). */
module ImapPool {
  import opened Text

  /** A pooled session: `open` once its session exists. */
  datatype Slot = Slot(id: nat, key: string, open: bool, busy: bool, retired: bool, lastUsed: int)

  /** A use() call that waits for a slot. */
  datatype Waiter = Waiter(caller: nat, key: string)

  /** The slots of all keys, in the iteration order of the table: grouped by key, keys in the order they
      were added. `lent` tells which use() call holds a slot. */
  datatype Pool = Pool(
    slots: seq<Slot>, waiters: seq<Waiter>, lent: map<nat, nat>, nextId: nat, closed: bool,
    maxSessions: nat, maxPerAccount: nat)

  // ---- The table ---------------------------------------------------------------------

  predicate Idle(s: Slot) { !s.busy && !s.retired }

  /** How many slots a key has. */
  function Count(slots: seq<Slot>, key: string): nat {
    if slots == [] then 0 else (if slots[0].key == key then 1 else 0) + Count(slots[1..], key)
  }

  /** First idle slot of a key, -1 if there is none. */
  function FirstIdle(slots: seq<Slot>, key: string, from: nat): (i: int)
    ensures i == -1 || (from <= i < |slots| && slots[i].key == key && Idle(slots[i]))
    ensures i == -1 ==> forall k :: from <= k < |slots| && slots[k].key == key ==> !Idle(slots[k])
    decreases |slots| - from
  {
    if from >= |slots| then -1
    else if slots[from].key == key && Idle(slots[from]) then from
    else FirstIdle(slots, key, from + 1)
  }

  /** The idle slot that was used least recently among the first `n`, -1 if none is idle. */
  function LruIdle(slots: seq<Slot>, n: nat): (best: int)
    requires n <= |slots|
    ensures best == -1 || (0 <= best < n && Idle(slots[best]))
    ensures best == -1 ==> forall k :: 0 <= k < n ==> !Idle(slots[k])
    ensures best != -1 ==> forall k :: 0 <= k < n && Idle(slots[k]) ==> slots[best].lastUsed <= slots[k].lastUsed
  {
    if n == 0 then -1
    else
      var best := LruIdle(slots, n - 1);
      if Idle(slots[n - 1]) && (best == -1 || slots[n - 1].lastUsed < slots[best].lastUsed) then n - 1 else best
  }

  function IndexOf(slots: seq<Slot>, id: nat, from: nat): (i: int)
    ensures i == -1 || (from <= i < |slots| && slots[i].id == id)
    ensures i == -1 ==> forall k :: from <= k < |slots| ==> slots[k].id != id
    decreases |slots| - from
  {
    if from >= |slots| then -1 else if slots[from].id == id then from else IndexOf(slots, id, from + 1)
  }

  function Without(slots: seq<Slot>, i: nat): seq<Slot>
    requires i < |slots|
  {
    slots[..i] + slots[i + 1..]
  }

  /** Just after the last slot of the key, or at the end for a new key. */
  function PlaceFor(slots: seq<Slot>, key: string, n: nat): (at: nat)
    requires n <= |slots|
    ensures at <= |slots|
  {
    if n == 0 then |slots| else if slots[n - 1].key == key then n else PlaceFor(slots, key, n - 1)
  }

  function Added(slots: seq<Slot>, s: Slot): seq<Slot> {
    var at := PlaceFor(slots, s.key, |slots|);
    slots[..at] + [s] + slots[at..]
  }

  // ---- Operations --------------------------------------------------------------------

  datatype Taken = Taken(pool: Pool, slot: Option<nat>)

  /** tryTake: an idle slot of the key, or a new one if the limits allow it, closing another key's least
      recently used idle session if the pool is full. */
  function TryTake(p: Pool, key: string, caller: nat, now: int): Taken {
    var i := FirstIdle(p.slots, key, 0);
    if i >= 0 then
      Taken(p.(slots := p.slots[i := p.slots[i].(busy := true)], lent := p.lent[p.slots[i].id := caller]),
            Some(p.slots[i].id))
    else if Count(p.slots, key) >= p.maxPerAccount then Taken(p, None)
    else
      var full := |p.slots| >= p.maxSessions;
      var victim := LruIdle(p.slots, |p.slots|);
      if full && victim == -1 then Taken(p, None)
      else
        var slots := if full then Without(p.slots, victim) else p.slots;
        Taken(p.(slots := Added(slots, Slot(p.nextId, key, false, true, false, now)),
                 lent := p.lent[p.nextId := caller], nextId := p.nextId + 1),
              Some(p.nextId))
  }

  datatype Served = Served(waiter: Waiter, slot: nat)

  datatype Pumped = Pumped(pool: Pool, served: seq<Served>)

  /** pump, from waiter `i` on. */
  function PumpFrom(p: Pool, i: nat, now: int): Pumped
    decreases |p.waiters| - i
  {
    if i >= |p.waiters| then Pumped(p, [])
    else
      var w := p.waiters[i];
      var t := TryTake(p, w.key, w.caller, now);
      if t.slot.None? then PumpFrom(p, i + 1, now)
      else
        TakeKeepsWaiters(p, w.key, w.caller, now);
        var r := PumpFrom(t.pool.(waiters := p.waiters[..i] + p.waiters[i + 1..]), i, now);
        Pumped(r.pool, [Served(w, t.slot.value)] + r.served)
  }

  lemma TakeKeepsWaiters(p: Pool, key: string, caller: nat, now: int)
    ensures TryTake(p, key, caller, now).pool.waiters == p.waiters
  {
  }

  function Pump(p: Pool, now: int): Pool {
    PumpFrom(p, 0, now).pool
  }

  /** acquire: behind any waiter, otherwise at once if possible. */
  function Acquire(p: Pool, key: string, caller: nat, now: int): Pool {
    if p.closed then p
    else
      var t := if p.waiters == [] then TryTake(p, key, caller, now) else Taken(p, None);
      if t.slot.Some? then t.pool else p.(waiters := p.waiters + [Waiter(caller, key)])
  }

  /** The session of a lent slot has been opened. */
  function Opened(p: Pool, id: nat): Pool {
    var i := IndexOf(p.slots, id, 0);
    if i < 0 then p else p.(slots := p.slots[i := p.slots[i].(open := true)])
  }

  /** remove: the slot leaves the table. */
  function Remove(p: Pool, id: nat): Pool {
    var i := IndexOf(p.slots, id, 0);
    if i < 0 then p else p.(slots := Without(p.slots, i))
  }

  /** release, at the end of a use() call; `authFailed` tells that the credentials were refused. */
  function Release(p: Pool, id: nat, authFailed: bool, now: int): Pool {
    var i := IndexOf(p.slots, id, 0);
    if i < 0 then p
    else
      var s := p.slots[i].(busy := false, lastUsed := now);
      var s' := if authFailed || !s.open then s.(retired := true) else s;
      var q := p.(slots := p.slots[i := s'], lent := p.lent - {id});
      Pump(if s'.retired then Remove(q, id) else q, now)
  }

  /** retire: now if the slot is idle, on release if it is busy. */
  function Retire(p: Pool, id: nat, now: int): Pool {
    var i := IndexOf(p.slots, id, 0);
    if i < 0 then Pump(p, now)
    else
      var q := p.(slots := p.slots[i := p.slots[i].(retired := true)]);
      if p.slots[i].busy then q else Pump(Remove(q, id), now)
  }

  function RetireAll(p: Pool, ids: seq<nat>, now: int): Pool
    decreases |ids|
  {
    if ids == [] then p else RetireAll(Retire(p, ids[0], now), ids[1..], now)
  }

  function WaitersNot(ws: seq<Waiter>, key: string): seq<Waiter> {
    if ws == [] then [] else (if ws[0].key == key then [] else [ws[0]]) + WaitersNot(ws[1..], key)
  }

  function IdsOf(slots: seq<Slot>, key: string): seq<nat> {
    if slots == [] then [] else (if slots[0].key == key then [slots[0].id] else []) + IdsOf(slots[1..], key)
  }

  function AllIds(slots: seq<Slot>): seq<nat> {
    if slots == [] then [] else [slots[0].id] + AllIds(slots[1..])
  }

  function Close(p: Pool, key: string, now: int): Pool {
    RetireAll(p.(waiters := WaitersNot(p.waiters, key)), IdsOf(p.slots, key), now)
  }

  function CloseAll(p: Pool, now: int): Pool {
    RetireAll(p.(closed := true, waiters := []), AllIds(p.slots), now)
  }

  /** A waiter gives up after acquireTimeoutMs. */
  function GiveUp(p: Pool, i: nat): Pool {
    if i < |p.waiters| then p.(waiters := p.waiters[..i] + p.waiters[i + 1..]) else p
  }

  // ---- The pool object ---------------------------------------------------------------

  class SessionPool {
    var slots: seq<Slot>
    var waiters: seq<Waiter>
    /** Which use() call was given which slot. */
    var lent: map<nat, nat>
    var nextId: nat
    var closed: bool
    const maxSessions: nat
    const maxPerAccount: nat

    ghost function State(): Pool
      reads this
    {
      Pool(slots, waiters, lent, nextId, closed, maxSessions, maxPerAccount)
    }

    constructor (maxSessions: nat, maxPerAccount: nat)
      requires maxSessions >= 1 && maxPerAccount >= 1
      ensures State() == Empty(maxSessions, maxPerAccount)
    {
      this.maxSessions, this.maxPerAccount := maxSessions, maxPerAccount;
      slots, waiters, lent, nextId, closed := [], [], map[], 0, false;
    }

    method LruIdleSlot() returns (best: int)
      ensures best == LruIdle(slots, |slots|)
    {
      best := -1;
      for i := 0 to |slots|
        invariant best == LruIdle(slots, i)
      {
        var s := slots[i];
        if !s.busy && !s.retired && (best == -1 || s.lastUsed < slots[best].lastUsed) { best := i; }
      }
    }

    method TakeSlot(key: string, caller: nat, now: int) returns (slot: Option<nat>)
      modifies this
      ensures Taken(State(), slot) == TryTake(old(State()), key, caller, now)
    {
      hide Added, Count, LruIdle, FirstIdle;
      var i := FirstIdle(slots, key, 0);
      if i >= 0 {
        slot := Some(slots[i].id);
        lent := lent[slots[i].id := caller];
        slots := slots[i := slots[i].(busy := true)];
        return;
      }
      if Count(slots, key) >= maxPerAccount { return None; }
      if |slots| >= maxSessions {
        var victim := LruIdleSlot();
        if victim == -1 { return None; }
        slots := Without(slots, victim);
      }
      slots := Added(slots, Slot(nextId, key, false, true, false, now));
      lent := lent[nextId := caller];
      slot := Some(nextId);
      nextId := nextId + 1;
    }

    method PumpWaiters(now: int)
      modifies this
      ensures State() == Pump(old(State()), now)
    {
      hide TryTake;
      var i := 0;
      while i < |waiters|
        invariant PumpFrom(old(State()), 0, now).pool == PumpFrom(State(), i, now).pool
        decreases |waiters| - i
      {
        var w := waiters[i];
        TakeKeepsWaiters(State(), w.key, w.caller, now);
        TakeNone(State(), w.key, w.caller, now);
        var slot := TakeSlot(w.key, w.caller, now);
        if slot.None? {
          i := i + 1;
          continue;
        }
        waiters := waiters[..i] + waiters[i + 1..];
      }
    }

    /** Rejects the waiters of a key, from the last to the first. */
    method RejectWaiters(key: string)
      modifies this`waiters
      ensures waiters == WaitersNot(old(waiters), key)
    {
      var i := |waiters|;
      assert old(waiters)[i..] == [];
      while i > 0
        invariant 0 <= i <= |old(waiters)|
        invariant waiters == old(waiters)[..i] + WaitersNot(old(waiters)[i..], key)
      {
        i := i - 1;
        assert old(waiters)[i..][1..] == old(waiters)[i + 1..];
        if waiters[i].key == key { waiters := waiters[..i] + waiters[i + 1..]; }
      }
      assert old(waiters)[0..] == old(waiters);
    }

    method AcquireSlot(key: string, caller: nat, now: int)
      modifies this
      ensures State() == Acquire(old(State()), key, caller, now)
    {
      hide TryTake;
      if closed { return; }
      var slot: Option<nat> := None;
      if waiters == [] {
        TakeNone(State(), key, caller, now);
        slot := TakeSlot(key, caller, now);
      }
      if slot.None? { waiters := waiters + [Waiter(caller, key)]; }
    }

    method RemoveSlot(id: nat)
      modifies this
      ensures State() == Remove(old(State()), id)
    {
      var i := IndexOf(slots, id, 0);
      if i >= 0 { slots := Without(slots, i); }
    }

    method ReleaseSlot(id: nat, authFailed: bool, now: int)
      modifies this
      ensures State() == Release(old(State()), id, authFailed, now)
    {
      hide PumpFrom, IndexOf;
      var i := IndexOf(slots, id, 0);
      if i < 0 { return; }
      var s := slots[i].(busy := false, lastUsed := now);
      if authFailed || !s.open { s := s.(retired := true); }
      slots := slots[i := s];
      lent := lent - {id};
      if s.retired { RemoveSlot(id); }
      PumpWaiters(now);
    }

    method RetireSlot(id: nat, now: int)
      modifies this
      ensures State() == Retire(old(State()), id, now)
    {
      hide PumpFrom, IndexOf;
      var i := IndexOf(slots, id, 0);
      if i < 0 {
        PumpWaiters(now);
        return;
      }
      var busy := slots[i].busy;
      slots := slots[i := slots[i].(retired := true)];
      if !busy {
        RemoveSlot(id);
        PumpWaiters(now);
      }
    }

    method CloseKey(key: string, now: int)
      modifies this
      ensures State() == Close(old(State()), key, now)
    {
      hide Retire;
      RejectWaiters(key);
      var ids := IdsOf(slots, key);
      ghost var begin := State();
      assert ids[0..] == ids;
      for i := 0 to |ids|
        invariant RetireAll(begin, ids, now) == RetireAll(State(), ids[i..], now)
      {
        assert ids[i..][1..] == ids[i + 1..];
        RetireSlot(ids[i], now);
      }
    }

    method CloseEvery(now: int)
      modifies this
      ensures State() == CloseAll(old(State()), now)
    {
      hide Retire;
      closed, waiters := true, [];
      var ids := AllIds(slots);
      ghost var begin := State();
      assert ids[0..] == ids;
      for i := 0 to |ids|
        invariant RetireAll(begin, ids, now) == RetireAll(State(), ids[i..], now)
      {
        assert ids[i..][1..] == ids[i + 1..];
        RetireSlot(ids[i], now);
      }
    }
  }

  lemma TakeNone(p: Pool, key: string, caller: nat, now: int)
    ensures TryTake(p, key, caller, now).slot.None? ==> TryTake(p, key, caller, now).pool == p
  {
  }

  // ---- Safety ------------------------------------------------------------------------

  predicate SlotOk(p: Pool, s: Slot) {
    && s.id < p.nextId
    && (s.busy <==> s.id in p.lent)
    && (s.retired ==> s.busy)
    && (!s.busy ==> s.open)
  }

  /** Within both limits; ids are unique; exactly the busy slots are lent; a retired slot is still busy; an
      idle slot has an open session. */
  ghost predicate Safe(p: Pool) {
    && p.maxSessions >= 1 && p.maxPerAccount >= 1
    && |p.slots| <= p.maxSessions
    && (forall key :: Count(p.slots, key) <= p.maxPerAccount)
    && (forall i, j :: 0 <= i < j < |p.slots| ==> p.slots[i].id != p.slots[j].id)
    && (forall i :: 0 <= i < |p.slots| ==> SlotOk(p, p.slots[i]))
    && (forall id :: id in p.lent ==> exists i :: 0 <= i < |p.slots| && p.slots[i].id == id)
  }

  lemma {:induction false} CountConcat(a: seq<Slot>, b: seq<Slot>, key: string)
    ensures Count(a + b, key) == Count(a, key) + Count(b, key)
  {
    if a == [] {
      NothingBefore(b);
    } else {
      assert (a + b)[1..] == a[1..] + b;
      CountConcat(a[1..], b, key);
    }
  }

  lemma CountOne(s: Slot, key: string)
    ensures Count([s], key) == if s.key == key then 1 else 0
  {
    assert [s][1..] == [];
  }

  lemma CountSplit(slots: seq<Slot>, i: nat, key: string)
    requires i < |slots|
    ensures Count(slots, key) == Count(Without(slots, i), key) + (if slots[i].key == key then 1 else 0)
  {
    CountConcat(slots[..i], slots[i + 1..], key);
    CountConcat(slots[..i], [slots[i]], key);
    CountConcat(slots[..i] + [slots[i]], slots[i + 1..], key);
    CountOne(slots[i], key);
    assert slots == slots[..i] + [slots[i]] + slots[i + 1..];
  }

  lemma CountUpdate(slots: seq<Slot>, i: nat, s: Slot, key: string)
    requires i < |slots| && s.key == slots[i].key
    ensures Count(slots[i := s], key) == Count(slots, key)
  {
    CountSplit(slots, i, key);
    CountSplit(slots[i := s], i, key);
    assert Without(slots[i := s], i) == Without(slots, i);
  }

  lemma CountAdded(slots: seq<Slot>, s: Slot, key: string)
    ensures Count(Added(slots, s), key) == Count(slots, key) + (if s.key == key then 1 else 0)
  {
    var at := PlaceFor(slots, s.key, |slots|);
    CountSplit(Added(slots, s), at, key);
    assert Without(Added(slots, s), at) == slots[..at] + slots[at..] == slots;
  }

  /** What an update of one slot keeps. */
  lemma SafeUpdate(p: Pool, i: nat, s: Slot, lent: map<nat, nat>)
    requires Safe(p) && i < |p.slots| && s.id == p.slots[i].id && s.key == p.slots[i].key
    requires lent.Keys - {s.id} == p.lent.Keys - {s.id}
    requires (s.busy <==> s.id in lent) && (s.retired ==> s.busy) && (!s.busy ==> s.open)
    ensures Safe(p.(slots := p.slots[i := s], lent := lent))
  {
    var q := p.(slots := p.slots[i := s], lent := lent);
    forall key ensures Count(q.slots, key) <= p.maxPerAccount {
      CountUpdate(p.slots, i, s, key);
    }
    forall id | id in lent ensures exists k :: 0 <= k < |q.slots| && q.slots[k].id == id {
      if id == s.id {
        assert q.slots[i].id == id;
      } else {
        assert id in p.lent.Keys - {s.id};
        var k :| 0 <= k < |p.slots| && p.slots[k].id == id;
        assert q.slots[k].id == id;
      }
    }
    forall k | 0 <= k < |q.slots| ensures SlotOk(q, q.slots[k]) {
      assert SlotOk(p, p.slots[k]);
      if k != i {
        assert q.slots[k].id in lent <==> q.slots[k].id in lent.Keys - {s.id};
        assert q.slots[k].id in p.lent <==> q.slots[k].id in p.lent.Keys - {s.id};
      }
    }
  }

  /** Removing a slot that is not lent. */
  lemma SafeWithout(p: Pool, i: nat)
    requires Safe(p) && i < |p.slots| && !p.slots[i].busy
    ensures Safe(p.(slots := Without(p.slots, i)))
  {
    var q := p.(slots := Without(p.slots, i));
    forall key ensures Count(q.slots, key) <= p.maxPerAccount {
      CountSplit(p.slots, i, key);
    }
    assert SlotOk(p, p.slots[i]);
    forall k | 0 <= k < |q.slots| ensures SlotOk(q, q.slots[k]) {
      assert q.slots[k] == p.slots[if k < i then k else k + 1];
      assert SlotOk(p, q.slots[k]);
    }
    forall id | id in q.lent ensures exists k :: 0 <= k < |q.slots| && q.slots[k].id == id {
      var k :| 0 <= k < |p.slots| && p.slots[k].id == id;
      assert k != i;
      assert q.slots[if k < i then k else k - 1].id == id;
    }
  }

  /** The table with a slot added, position by position. */
  lemma AddedParts(slots: seq<Slot>, s: Slot, at: nat)
    requires at == PlaceFor(slots, s.key, |slots|)
    ensures |Added(slots, s)| == |slots| + 1 && Added(slots, s)[at] == s
    ensures forall k :: 0 <= k < at ==> Added(slots, s)[k] == slots[k]
    ensures forall k :: at < k <= |slots| ==> Added(slots, s)[k] == slots[k - 1]
  {
    hide PlaceFor;
  }

  lemma AddedApart(slots: seq<Slot>, s: Slot)
    requires forall i, j :: 0 <= i < j < |slots| ==> slots[i].id != slots[j].id
    requires forall i :: 0 <= i < |slots| ==> slots[i].id < s.id
    ensures var q := Added(slots, s); forall i, j :: 0 <= i < j < |q| ==> q[i].id != q[j].id
  {
    hide Added, PlaceFor;
    AddedParts(slots, s, PlaceFor(slots, s.key, |slots|));
  }

  lemma AddedKnown(slots: seq<Slot>, s: Slot, id: nat)
    requires id == s.id || exists k :: 0 <= k < |slots| && slots[k].id == id
    ensures exists k :: 0 <= k < |Added(slots, s)| && Added(slots, s)[k].id == id
  {
    hide Added, PlaceFor;
    var at := PlaceFor(slots, s.key, |slots|);
    AddedParts(slots, s, at);
    if id == s.id {
      assert Added(slots, s)[at].id == id;
    } else {
      var k :| 0 <= k < |slots| && slots[k].id == id;
      assert Added(slots, s)[if k < at then k else k + 1].id == id;
    }
  }

  lemma SafeAdded(p: Pool, key: string, caller: nat, now: int)
    requires Safe(p) && |p.slots| < p.maxSessions && Count(p.slots, key) < p.maxPerAccount
    ensures Safe(p.(slots := Added(p.slots, Slot(p.nextId, key, false, true, false, now)),
                    lent := p.lent[p.nextId := caller], nextId := p.nextId + 1))
  {
    hide Added, PlaceFor, Count;
    var s := Slot(p.nextId, key, false, true, false, now);
    var q := p.(slots := Added(p.slots, s), lent := p.lent[p.nextId := caller], nextId := p.nextId + 1);
    AddedParts(p.slots, s, PlaceFor(p.slots, key, |p.slots|));
    forall k ensures Count(q.slots, k) <= p.maxPerAccount {
      CountAdded(p.slots, s, k);
    }
    forall k | 0 <= k < |p.slots| ensures p.slots[k].id < s.id && SlotOk(q, p.slots[k]) {
      assert SlotOk(p, p.slots[k]);
    }
    AddedApart(p.slots, s);
    forall id | id in q.lent ensures exists k :: 0 <= k < |q.slots| && q.slots[k].id == id {
      AddedKnown(p.slots, s, id);
    }
    assert SlotOk(q, s);
    hide SlotOk;
    AddedOk(q, p.slots, s);
  }

  lemma AddedOk(q: Pool, slots: seq<Slot>, s: Slot)
    requires SlotOk(q, s) && forall k :: 0 <= k < |slots| ==> SlotOk(q, slots[k])
    ensures forall k :: 0 <= k < |Added(slots, s)| ==> SlotOk(q, Added(slots, s)[k])
  {
    hide SlotOk, Added, PlaceFor;
    AddedParts(slots, s, PlaceFor(slots, s.key, |slots|));
  }

  /** The slot tryTake evicts is idle and belongs to another key, so the list it read before is not stale. */
  lemma VictimIsOther(p: Pool, key: string)
    requires FirstIdle(p.slots, key, 0) == -1 && LruIdle(p.slots, |p.slots|) != -1
    ensures var v := p.slots[LruIdle(p.slots, |p.slots|)];
            Idle(v) && v.key != key && Count(Without(p.slots, LruIdle(p.slots, |p.slots|)), key) == Count(p.slots, key)
  {
    CountSplit(p.slots, LruIdle(p.slots, |p.slots|), key);
  }

  /** tryTake lends one idle or new slot, and to one caller only. */
  lemma TakeSafe(p: Pool, key: string, caller: nat, now: int)
    requires Safe(p)
    ensures var t := TryTake(p, key, caller, now);
            && Safe(t.pool)
            && (t.slot.None? ==> t.pool == p)
            && (t.slot.Some? ==> t.slot.value !in p.lent && t.pool.lent == p.lent[t.slot.value := caller])
  {
    hide Safe, Count, FirstIdle, LruIdle, Added;
    var i := FirstIdle(p.slots, key, 0);
    if i >= 0 {
      SlotSafe(p, i);
      SafeUpdate(p, i, p.slots[i].(busy := true), p.lent[p.slots[i].id := caller]);
    } else if Count(p.slots, key) < p.maxPerAccount {
      NextIdFresh(p);
      if |p.slots| < p.maxSessions {
        SafeAdded(p, key, caller, now);
      } else if LruIdle(p.slots, |p.slots|) != -1 {
        var v := LruIdle(p.slots, |p.slots|);
        VictimIsOther(p, key);
        SafeWithout(p, v);
        SafeBounds(p);
        SafeAdded(p.(slots := Without(p.slots, v)), key, caller, now);
      }
    }
  }

  lemma SlotSafe(p: Pool, i: nat)
    requires Safe(p) && i < |p.slots|
    ensures SlotOk(p, p.slots[i])
  {
  }

  lemma SafeBounds(p: Pool)
    requires Safe(p)
    ensures |p.slots| <= p.maxSessions && p.maxSessions >= 1
  {
  }

  lemma NextIdFresh(p: Pool)
    requires Safe(p)
    ensures p.nextId !in p.lent
  {
  }

  lemma {:induction false} PumpSafe(p: Pool, i: nat, now: int)
    requires Safe(p)
    ensures Safe(PumpFrom(p, i, now).pool)
    decreases |p.waiters| - i
  {
    hide Safe, TryTake;
    if i < |p.waiters| {
      var w := p.waiters[i];
      TakeSafe(p, w.key, w.caller, now);
      TakeKeepsWaiters(p, w.key, w.caller, now);
      var t := TryTake(p, w.key, w.caller, now);
      if t.slot.None? {
        PumpSafe(p, i + 1, now);
      } else {
        var q := t.pool.(waiters := p.waiters[..i] + p.waiters[i + 1..]);
        SafeWaiters(t.pool, q.waiters, q.closed);
        PumpSafe(q, i, now);
      }
    }
  }

  lemma SafeWaiters(p: Pool, ws: seq<Waiter>, closed: bool)
    requires Safe(p)
    ensures Safe(p.(waiters := ws, closed := closed))
  {
    var q := p.(waiters := ws, closed := closed);
    forall i | 0 <= i < |q.slots| ensures SlotOk(q, q.slots[i]) {
      assert SlotOk(p, p.slots[i]);
    }
  }

  // ---- pump reaches a fixpoint and is fair -------------------------------------------

  ghost predicate SomeIdle(slots: seq<Slot>) { exists i :: 0 <= i < |slots| && Idle(slots[i]) }

  ghost predicate KeyIdle(slots: seq<Slot>, key: string) {
    exists i :: 0 <= i < |slots| && slots[i].key == key && Idle(slots[i])
  }

  /** What the documentation promises a caller can get. */
  ghost predicate CanServe(p: Pool, key: string) {
    || KeyIdle(p.slots, key)
    || (Count(p.slots, key) < p.maxPerAccount && (|p.slots| < p.maxSessions || SomeIdle(p.slots)))
  }

  /** tryTake serves a caller exactly when that is possible. */
  lemma TakeExact(p: Pool, key: string, caller: nat, now: int)
    ensures TryTake(p, key, caller, now).slot.Some? <==> CanServe(p, key)
  {
    hide Count, Added;
    var i := FirstIdle(p.slots, key, 0);
    if i >= 0 {
      assert KeyIdle(p.slots, key);
    } else if LruIdle(p.slots, |p.slots|) != -1 {
      assert SomeIdle(p.slots);
    }
  }

  /** Serving another caller, even by eviction, makes nobody servable who was not. */
  lemma TakeCreatesNothing(p: Pool, key: string, caller: nat, now: int, other: string)
    requires !CanServe(p, other)
    ensures !CanServe(TryTake(p, key, caller, now).pool, other)
  {
    hide Count, Added;
    var q := TryTake(p, key, caller, now).pool;
    var i := FirstIdle(p.slots, key, 0);
    if i >= 0 {
      var s := p.slots[i].(busy := true);
      CountUpdate(p.slots, i, s, other);
      forall k | 0 <= k < |q.slots| && Idle(q.slots[k]) ensures Idle(p.slots[k]) && q.slots[k] == p.slots[k] {
      }
    } else if Count(p.slots, key) < p.maxPerAccount {
      var v := LruIdle(p.slots, |p.slots|);
      if |p.slots| < p.maxSessions {
        AddedKeeps(p.slots, key, p.nextId, now, other);
      } else if v != -1 {
        assert SomeIdle(p.slots);
        CountSplit(p.slots, v, other);
        assert p.slots[v].key != other;
        WithoutIdle(p.slots, v, other);
        AddedKeeps(Without(p.slots, v), key, p.nextId, now, other);
      }
    }
  }

  lemma WithoutIdle(slots: seq<Slot>, v: nat, key: string)
    requires v < |slots| && !KeyIdle(slots, key)
    ensures !KeyIdle(Without(slots, v), key)
  {
    var r := Without(slots, v);
    assert forall k :: 0 <= k < |r| ==> r[k] == slots[if k < v then k else k + 1];
  }

  lemma AddedKeeps(slots: seq<Slot>, key: string, id: nat, now: int, other: string)
    requires !KeyIdle(slots, other)
    ensures var r := Added(slots, Slot(id, key, false, true, false, now));
            !KeyIdle(r, other) && Count(r, other) >= Count(slots, other)
  {
    var s := Slot(id, key, false, true, false, now);
    var r := Added(slots, s);
    var at := PlaceFor(slots, key, |slots|);
    CountAdded(slots, s, other);
    assert forall k :: 0 <= k < |r| && k != at ==> r[k] == slots[if k < at then k else k - 1];
    assert r[at] == s;
  }

  /** Nobody whose key is not servable is served by a pump, and stays not servable. */
  lemma {:induction false} PumpSkips(p: Pool, i: nat, now: int, key: string)
    requires !CanServe(p, key)
    ensures var r := PumpFrom(p, i, now).pool;
            && !CanServe(r, key)
            && forall k :: 0 <= k < |p.waiters| && p.waiters[k].key == key ==> p.waiters[k] in r.waiters
    decreases |p.waiters| - i
  {
    hide CanServe, TryTake;
    if i < |p.waiters| {
      var w := p.waiters[i];
      TakeExact(p, w.key, w.caller, now);
      TakeKeepsWaiters(p, w.key, w.caller, now);
      var t := TryTake(p, w.key, w.caller, now);
      if t.slot.None? {
        PumpSkips(p, i + 1, now, key);
      } else {
        var q := t.pool.(waiters := p.waiters[..i] + p.waiters[i + 1..]);
        TakeCreatesNothing(p, w.key, w.caller, now, key);
        CanServeSlots(t.pool, q, key);
        PumpSkips(q, i, now, key);
        forall k | 0 <= k < |p.waiters| && p.waiters[k].key == key
          ensures p.waiters[k] in PumpFrom(p, i, now).pool.waiters
        {
          assert k != i;
          assert p.waiters[k] == q.waiters[if k < i then k else k - 1];
        }
      }
    }
  }

  lemma CanServeSlots(p: Pool, q: Pool, key: string)
    requires p.slots == q.slots && p.maxSessions == q.maxSessions && p.maxPerAccount == q.maxPerAccount
    ensures CanServe(p, key) <==> CanServe(q, key)
  {
  }

  /** No waiter could be served. */
  ghost predicate Quiet(p: Pool) {
    forall k :: 0 <= k < |p.waiters| ==> !CanServe(p, p.waiters[k].key)
  }

  /** When pump returns, no remaining waiter could be served. */
  lemma {:induction false} PumpQuiet(p: Pool, i: nat, now: int)
    requires i <= |p.waiters| && forall k :: 0 <= k < i ==> !CanServe(p, p.waiters[k].key)
    ensures Quiet(PumpFrom(p, i, now).pool)
    decreases |p.waiters| - i
  {
    hide CanServe, TryTake;
    if i < |p.waiters| {
      var w := p.waiters[i];
      TakeExact(p, w.key, w.caller, now);
      TakeKeepsWaiters(p, w.key, w.caller, now);
      var t := TryTake(p, w.key, w.caller, now);
      if t.slot.None? {
        PumpQuiet(p, i + 1, now);
      } else {
        var q := t.pool.(waiters := p.waiters[..i] + p.waiters[i + 1..]);
        forall k | 0 <= k < i ensures !CanServe(q, q.waiters[k].key) {
          assert q.waiters[k] == p.waiters[k];
          TakeCreatesNothing(p, w.key, w.caller, now, p.waiters[k].key);
          CanServeSlots(t.pool, q, p.waiters[k].key);
        }
        PumpQuiet(q, i, now);
      }
    }
  }

  /** Callers wait once. */
  predicate Distinct(ws: seq<Waiter>) {
    forall i, j :: 0 <= i < j < |ws| ==> ws[i].caller != ws[j].caller
  }

  /** pump never serves a waiter before an earlier one of the same key. */
  lemma {:induction false} PumpFair(p: Pool, i: nat, now: int, a: nat, b: nat)
    requires i <= a < b < |p.waiters| && p.waiters[a].key == p.waiters[b].key && Distinct(p.waiters)
    requires forall k :: 0 <= k < i ==> !CanServe(p, p.waiters[k].key)
    ensures p.waiters[a] in PumpFrom(p, i, now).pool.waiters ==> p.waiters[b] in PumpFrom(p, i, now).pool.waiters
    decreases |p.waiters| - i
  {
    hide CanServe, TryTake;
    var w := p.waiters[i];
    TakeExact(p, w.key, w.caller, now);
    TakeKeepsWaiters(p, w.key, w.caller, now);
    var t := TryTake(p, w.key, w.caller, now);
    if t.slot.None? {
      if i == a {
        PumpSkips(p, i, now, w.key);
      } else {
        PumpFair(p, i + 1, now, a, b);
      }
    } else {
      var q := t.pool.(waiters := p.waiters[..i] + p.waiters[i + 1..]);
      if i == a {
        PumpOnlyRemoves(q, i, now, p.waiters[a].caller);
      } else {
        forall k | 0 <= k < i ensures !CanServe(q, q.waiters[k].key) {
          assert q.waiters[k] == p.waiters[k];
          TakeCreatesNothing(p, w.key, w.caller, now, p.waiters[k].key);
          CanServeSlots(t.pool, q, p.waiters[k].key);
        }
        assert q.waiters[a - 1] == p.waiters[a] && q.waiters[b - 1] == p.waiters[b];
        PumpFair(q, i, now, a - 1, b - 1);
      }
    }
  }

  lemma {:induction false} PumpOnlyRemoves(p: Pool, i: nat, now: int, caller: nat)
    requires forall k :: 0 <= k < |p.waiters| ==> p.waiters[k].caller != caller
    ensures forall w :: w in PumpFrom(p, i, now).pool.waiters ==> w.caller != caller
    decreases |p.waiters| - i
  {
    hide TryTake;
    if i < |p.waiters| {
      var w := p.waiters[i];
      TakeKeepsWaiters(p, w.key, w.caller, now);
      var t := TryTake(p, w.key, w.caller, now);
      if t.slot.None? {
        PumpOnlyRemoves(p, i + 1, now, caller);
      } else {
        PumpOnlyRemoves(t.pool.(waiters := p.waiters[..i] + p.waiters[i + 1..]), i, now, caller);
      }
    }
  }

  function ServedWaiters(served: seq<Served>): seq<Waiter> {
    if served == [] then [] else [served[0].waiter] + ServedWaiters(served[1..])
  }

  lemma ServedFirst(w: Waiter, slot: nat, served: seq<Served>)
    ensures multiset(ServedWaiters([Served(w, slot)] + served)) == multiset{w} + multiset(ServedWaiters(served))
  {
    assert ([Served(w, slot)] + served)[1..] == served;
  }

  lemma TakenOut(ws: seq<Waiter>, i: nat)
    requires i < |ws|
    ensures multiset(ws) == multiset(ws[..i] + ws[i + 1..]) + multiset{ws[i]}
  {
    assert ws == ws[..i] + [ws[i]] + ws[i + 1..];
  }

  /** Every waiter is served once or still waits. */
  lemma {:induction false} PumpPartition(p: Pool, i: nat, now: int)
    ensures var r := PumpFrom(p, i, now);
            multiset(r.pool.waiters) + multiset(ServedWaiters(r.served)) == multiset(p.waiters)
    decreases |p.waiters| - i
  {
    hide TryTake;
    if i < |p.waiters| {
      var w := p.waiters[i];
      TakeKeepsWaiters(p, w.key, w.caller, now);
      var t := TryTake(p, w.key, w.caller, now);
      if t.slot.None? {
        PumpPartition(p, i + 1, now);
      } else {
        var ws := p.waiters[..i] + p.waiters[i + 1..];
        PumpPartition(t.pool.(waiters := ws), i, now);
        var r := PumpFrom(t.pool.(waiters := ws), i, now);
        ServedFirst(w, t.slot.value, r.served);
        TakenOut(p.waiters, i);
      }
    }
  }

  /** acquire puts a caller behind the waiters of all keys without pumping: nobody could be served after it
      exactly when nobody could before and, if others wait, neither can the caller. */
  lemma AcquireQuietExact(p: Pool, key: string, caller: nat, now: int)
    requires !p.closed
    ensures Quiet(Acquire(p, key, caller, now)) <==> Quiet(p) && (p.waiters == [] || !CanServe(p, key))
  {
    hide CanServe, TryTake;
    TakeExact(p, key, caller, now);
    TakeKeepsWaiters(p, key, caller, now);
    var q := p.(waiters := p.waiters + [Waiter(caller, key)]);
    forall k | 0 <= k < |q.waiters| ensures CanServe(q, q.waiters[k].key) <==> CanServe(p, q.waiters[k].key) {
      CanServeSlots(p, q, q.waiters[k].key);
    }
    assert q.waiters[|p.waiters|].key == key;
    assert forall k :: 0 <= k < |p.waiters| ==> q.waiters[k] == p.waiters[k];
  }

  // ---- Every reachable state ---------------------------------------------------------

  datatype Event =
    | Use(key: string, caller: nat)
    | SessionOpened(slot: nat)
    | Done(slot: nat, authFailed: bool)
    | IdleTimeout(slot: nat)
    | GivesUp(waiter: nat)
    | CloseKey(key: string)
    | CloseEverything

  /** One step at time `now`. Only a lent slot is opened or given back, and only an idle slot times out. */
  function Step(p: Pool, e: Event, now: int): Pool {
    match e
    case Use(key, caller) => Acquire(p, key, caller, now)
    case SessionOpened(id) => if id in p.lent then Opened(p, id) else p
    case Done(id, authFailed) => if id in p.lent then Release(p, id, authFailed, now) else p
    case IdleTimeout(id) => Retire(p, id, now)
    case GivesUp(i) => GiveUp(p, i)
    case CloseKey(key) => Close(p, key, now)
    case CloseEverything => CloseAll(p, now)
  }

  lemma {:induction false} IndexIs(slots: seq<Slot>, id: nat, from: nat, i: nat)
    requires from <= i < |slots| && slots[i].id == id && forall k :: from <= k < i ==> slots[k].id != id
    ensures IndexOf(slots, id, from) == i
    decreases |slots| - from
  {
    if from < i {
      IndexIs(slots, id, from + 1, i);
    }
  }

  /** Giving up a slot that is no longer busy, in one step: the two writes in between are not seen. */
  lemma SafeLeave(p: Pool, i: nat, s: Slot, lent: map<nat, nat>)
    requires Safe(p) && i < |p.slots| && s.id == p.slots[i].id && s.key == p.slots[i].key && !s.busy
    requires lent == p.lent - {s.id} && IndexOf(p.slots, s.id, 0) == i
    ensures Safe(Remove(p.(slots := p.slots[i := s], lent := lent), s.id))
  {
    hide Safe, IndexOf;
    var s' := s.(retired := false, open := true);
    SafeUpdate(p, i, s', lent);
    var q := p.(slots := p.slots[i := s'], lent := lent);
    SafeWithout(q, i);
    IdsUnique(p);
    IndexIs(p.slots[i := s], s.id, 0, i);
    assert Without(p.slots[i := s], i) == Without(p.slots[i := s'], i);
  }

  lemma IdsUnique(p: Pool)
    requires Safe(p)
    ensures forall i, j :: 0 <= i < j < |p.slots| ==> p.slots[i].id != p.slots[j].id
  {
  }

  lemma ReleaseSafe(p: Pool, id: nat, authFailed: bool, now: int)
    requires Safe(p) && id in p.lent
    ensures Safe(Release(p, id, authFailed, now))
  {
    hide Safe, IndexOf, PumpFrom;
    var i := IndexOf(p.slots, id, 0);
    if i >= 0 {
      SlotSafe(p, i);
      var s := p.slots[i].(busy := false, lastUsed := now);
      var s' := if authFailed || !s.open then s.(retired := true) else s;
      var q := p.(slots := p.slots[i := s'], lent := p.lent - {id});
      if s'.retired {
        SafeLeave(p, i, s', p.lent - {id});
        PumpSafe(Remove(q, id), 0, now);
      } else {
        SafeUpdate(p, i, s', p.lent - {id});
        PumpSafe(q, 0, now);
      }
    }
  }

  lemma RetireSafe(p: Pool, id: nat, now: int)
    requires Safe(p)
    ensures Safe(Retire(p, id, now))
  {
    hide Safe, IndexOf, PumpFrom;
    var i := IndexOf(p.slots, id, 0);
    if i < 0 {
      PumpSafe(p, 0, now);
    } else {
      SlotSafe(p, i);
      var s := p.slots[i].(retired := true);
      if s.busy {
        SafeUpdate(p, i, s, p.lent);
      } else {
        assert p.lent == p.lent - {id};
        SafeLeave(p, i, s, p.lent);
        PumpSafe(Remove(p.(slots := p.slots[i := s]), id), 0, now);
      }
    }
  }

  lemma {:induction false} RetireAllSafe(p: Pool, ids: seq<nat>, now: int)
    requires Safe(p)
    ensures Safe(RetireAll(p, ids, now))
    decreases |ids|
  {
    hide Safe, Retire;
    if ids != [] {
      RetireSafe(p, ids[0], now);
      RetireAllSafe(Retire(p, ids[0], now), ids[1..], now);
    }
  }

  lemma StepSafe(p: Pool, e: Event, now: int)
    requires Safe(p)
    ensures Safe(Step(p, e, now))
  {
    hide Safe, TryTake, Release, Retire, RetireAll, IndexOf;
    match e {
      case Use(key, caller) =>
        TakeSafe(p, key, caller, now);
        SafeWaiters(p, p.waiters + [Waiter(caller, key)], p.closed);
      case SessionOpened(id) =>
        var i := IndexOf(p.slots, id, 0);
        if i >= 0 {
          SlotSafe(p, i);
          SafeUpdate(p, i, p.slots[i].(open := true), p.lent);
        }
      case Done(id, authFailed) => if id in p.lent { ReleaseSafe(p, id, authFailed, now); }
      case IdleTimeout(id) => RetireSafe(p, id, now);
      case GivesUp(i) => SafeWaiters(p, if i < |p.waiters| then p.waiters[..i] + p.waiters[i + 1..] else p.waiters, p.closed);
      case CloseKey(key) =>
        SafeWaiters(p, WaitersNot(p.waiters, key), p.closed);
        RetireAllSafe(p.(waiters := WaitersNot(p.waiters, key)), IdsOf(p.slots, key), now);
      case CloseEverything =>
        SafeWaiters(p, [], true);
        RetireAllSafe(p.(closed := true, waiters := []), AllIds(p.slots), now);
    }
  }

  datatype Timed = Timed(event: Event, now: int)

  function RunAll(p: Pool, es: seq<Timed>): Pool
    decreases |es|
  {
    if es == [] then p else RunAll(Step(p, es[0].event, es[0].now), es[1..])
  }

  function Empty(maxSessions: nat, maxPerAccount: nat): Pool {
    Pool([], [], map[], 0, false, maxSessions, maxPerAccount)
  }

  lemma {:induction false} RunSafe(p: Pool, es: seq<Timed>)
    requires Safe(p)
    ensures Safe(RunAll(p, es))
    decreases |es|
  {
    hide Safe, Step;
    if es != [] {
      StepSafe(p, es[0].event, es[0].now);
      RunSafe(Step(p, es[0].event, es[0].now), es[1..]);
    }
  }

  /** Every state of every run of a new pool is safe. */
  lemma ReachableSafe(maxSessions: nat, maxPerAccount: nat, es: seq<Timed>)
    requires maxSessions >= 1 && maxPerAccount >= 1
    ensures Safe(RunAll(Empty(maxSessions, maxPerAccount), es))
  {
    hide RunAll;
    RunSafe(Empty(maxSessions, maxPerAccount), es);
  }

  // ---- First come, first served ------------------------------------------------------

  lemma {:induction false} RunSplit(p: Pool, a: seq<Timed>, b: seq<Timed>)
    ensures RunAll(p, a + b) == RunAll(RunAll(p, a), b)
    decreases |a|
  {
    hide Step;
    if a == [] {
      assert a + b == b;
    } else {
      assert (a + b)[1..] == a[1..] + b;
      RunSplit(Step(p, a[0].event, a[0].now), a[1..], b);
    }
  }

  /** The order in which two callers of one key came: `seen` are those that came so far. */
  datatype Pair = Pair(first: nat, second: nat, key: string)

  predicate MayPrecede(x: Waiter, y: Waiter, c: Pair) {
    x.caller != y.caller && !(x.caller == c.second && y.caller == c.first)
  }

  predicate Seen(x: Waiter, seen: set<nat>, c: Pair) {
    x.caller in seen && (x.caller == c.first || x.caller == c.second ==> x.key == c.key)
  }

  predicate Orderly(ws: seq<Waiter>, seen: set<nat>, c: Pair) {
    && (forall i :: 0 <= i < |ws| ==> Seen(ws[i], seen, c))
    && (forall i, j :: 0 <= i < j < |ws| ==> MayPrecede(ws[i], ws[j], c))
  }

  /** While the first waits, the second has no slot. */
  ghost predicate LentInTurn(ws: seq<Waiter>, lent: map<nat, nat>, seen: set<nat>, c: Pair) {
    && (forall id :: id in lent ==> lent[id] in seen)
    && (forall i, id :: 0 <= i < |ws| && ws[i].caller == c.first && c.second in seen && id in lent ==> lent[id] != c.second)
  }

  ghost predicate InTurn(p: Pool, seen: set<nat>, c: Pair) {
    c.first != c.second && Orderly(p.waiters, seen, c) && LentInTurn(p.waiters, p.lent, seen, c)
  }

  lemma TakeLends(p: Pool, key: string, caller: nat, now: int)
    ensures var t := TryTake(p, key, caller, now);
            t.slot.Some? ==> t.pool.lent == p.lent[t.slot.value := caller]
  {
    hide Added, Count, LruIdle, FirstIdle;
  }

  /** No new waiters and no new loans. */
  lemma TurnKept(p: Pool, q: Pool, seen: set<nat>, c: Pair)
    requires InTurn(p, seen, c) && (forall id :: id in q.lent ==> id in p.lent && q.lent[id] == p.lent[id])
    requires forall w :: w in q.waiters ==> w in p.waiters
    requires Orderly(q.waiters, seen, c)
    ensures InTurn(q, seen, c)
  {
    forall i, id | 0 <= i < |q.waiters| && q.waiters[i].caller == c.first && c.second in seen && id in q.lent
      ensures q.lent[id] != c.second
    {
      assert q.waiters[i] in p.waiters;
    }
  }

  lemma DropOne(ws: seq<Waiter>, i: nat, seen: set<nat>, c: Pair)
    requires Orderly(ws, seen, c) && i < |ws|
    ensures var r := ws[..i] + ws[i + 1..];
            Orderly(r, seen, c) && (forall k :: 0 <= k < |r| ==> r[k] in ws && r[k].caller != ws[i].caller)
  {
    var r := ws[..i] + ws[i + 1..];
    forall k | 0 <= k < |r| ensures r[k] == ws[if k < i then k else k + 1] && r[k].caller != ws[i].caller {
      assert MayPrecede(ws[if k < i then k else i], ws[if k < i then i else k + 1], c);
    }
    hide MayPrecede, Seen;
    forall a, b | 0 <= a < b < |r| ensures MayPrecede(r[a], r[b], c) {
      assert MayPrecede(ws[if a < i then a else a + 1], ws[if b < i then b else b + 1], c);
    }
  }

  lemma FirstIsBefore(ws: seq<Waiter>, a: nat, i: nat, seen: set<nat>, c: Pair)
    requires Orderly(ws, seen, c) && a < |ws| && i < |ws| && c.first != c.second && ws[a].caller == c.first
    ensures ws[i].caller == c.second ==> a < i && ws[a].key == ws[i].key
  {
  }

  /** pump lends a slot to waiter `i`, those before it being unservable. */
  lemma ServeInTurn(p: Pool, i: nat, now: int, seen: set<nat>, c: Pair)
    requires InTurn(p, seen, c) && i < |p.waiters| && (forall k :: 0 <= k < i ==> !CanServe(p, p.waiters[k].key))
    ensures var w := p.waiters[i];
            var t := TryTake(p, w.key, w.caller, now);
            t.slot.Some? ==> InTurn(t.pool.(waiters := p.waiters[..i] + p.waiters[i + 1..]), seen, c)
  {
    hide CanServe, TryTake;
    var w := p.waiters[i];
    var t := TryTake(p, w.key, w.caller, now);
    TakeExact(p, w.key, w.caller, now);
    TakeLends(p, w.key, w.caller, now);
    DropOne(p.waiters, i, seen, c);
    if t.slot.Some? {
      var ws := p.waiters[..i] + p.waiters[i + 1..];
      assert Seen(w, seen, c);
      forall k, id | 0 <= k < |ws| && ws[k].caller == c.first && c.second in seen && id in t.pool.lent
        ensures t.pool.lent[id] != c.second
      {
        var a :| 0 <= a < |p.waiters| && p.waiters[a] == ws[k];
        FirstIsBefore(p.waiters, a, i, seen, c);
      }
    }
  }

  lemma {:induction false} PumpInTurn(p: Pool, i: nat, now: int, seen: set<nat>, c: Pair)
    requires InTurn(p, seen, c) && i <= |p.waiters| && (forall k :: 0 <= k < i ==> !CanServe(p, p.waiters[k].key))
    ensures InTurn(PumpFrom(p, i, now).pool, seen, c)
    decreases |p.waiters| - i
  {
    hide CanServe, TryTake, InTurn;
    if i < |p.waiters| {
      var w := p.waiters[i];
      TakeExact(p, w.key, w.caller, now);
      TakeKeepsWaiters(p, w.key, w.caller, now);
      ServeInTurn(p, i, now, seen, c);
      var t := TryTake(p, w.key, w.caller, now);
      if t.slot.None? {
        PumpInTurn(p, i + 1, now, seen, c);
      } else {
        var q := t.pool.(waiters := p.waiters[..i] + p.waiters[i + 1..]);
        forall k | 0 <= k < i ensures !CanServe(q, q.waiters[k].key) {
          assert q.waiters[k] == p.waiters[k];
          TakeCreatesNothing(p, w.key, w.caller, now, p.waiters[k].key);
          CanServeSlots(t.pool, q, p.waiters[k].key);
        }
        PumpInTurn(q, i, now, seen, c);
      }
    }
  }

  lemma ReleaseInTurn(p: Pool, id: nat, authFailed: bool, now: int, seen: set<nat>, c: Pair)
    requires InTurn(p, seen, c)
    ensures InTurn(Release(p, id, authFailed, now), seen, c)
  {
    hide IndexOf, PumpFrom, Orderly, LentInTurn, CanServe;
    var i := IndexOf(p.slots, id, 0);
    if i >= 0 {
      var s := p.slots[i].(busy := false, lastUsed := now);
      var s' := if authFailed || !s.open then s.(retired := true) else s;
      var q := p.(slots := p.slots[i := s'], lent := p.lent - {id});
      var q' := if s'.retired then Remove(q, id) else q;
      TurnKept(p, q', seen, c);
      PumpInTurn(q', 0, now, seen, c);
    }
  }

  lemma RetireInTurn(p: Pool, id: nat, now: int, seen: set<nat>, c: Pair)
    requires InTurn(p, seen, c)
    ensures InTurn(Retire(p, id, now), seen, c)
  {
    hide IndexOf, PumpFrom, Orderly, LentInTurn, CanServe;
    var i := IndexOf(p.slots, id, 0);
    if i < 0 {
      PumpInTurn(p, 0, now, seen, c);
    } else {
      var q := p.(slots := p.slots[i := p.slots[i].(retired := true)]);
      TurnKept(p, q, seen, c);
      TurnKept(p, Remove(q, id), seen, c);
      PumpInTurn(Remove(q, id), 0, now, seen, c);
    }
  }

  lemma {:induction false} RetireAllInTurn(p: Pool, ids: seq<nat>, now: int, seen: set<nat>, c: Pair)
    requires InTurn(p, seen, c)
    ensures InTurn(RetireAll(p, ids, now), seen, c)
    decreases |ids|
  {
    hide Retire, InTurn;
    if ids != [] {
      RetireInTurn(p, ids[0], now, seen, c);
      RetireAllInTurn(Retire(p, ids[0], now), ids[1..], now, seen, c);
    }
  }

  lemma {:induction false} OthersOrderly(ws: seq<Waiter>, key: string, seen: set<nat>, c: Pair)
    requires Orderly(ws, seen, c)
    ensures Orderly(WaitersNot(ws, key), seen, c) && forall w :: w in WaitersNot(ws, key) ==> w in ws
  {
    hide MayPrecede, Seen;
    if ws != [] {
      assert forall k :: 0 <= k < |ws| - 1 ==> ws[1..][k] == ws[k + 1];
      OthersOrderly(ws[1..], key, seen, c);
      var rest := WaitersNot(ws[1..], key);
      forall k | 0 <= k < |rest| ensures MayPrecede(ws[0], rest[k], c) {
        assert rest[k] in ws[1..];
      }
    }
  }

  /** A new caller: the first of the two before the second, both with their key. */
  predicate Comes(key: string, caller: nat, seen: set<nat>, c: Pair) {
    && caller !in seen && (caller == c.first ==> key == c.key && c.second !in seen)
    && (caller == c.second ==> key == c.key)
  }

  lemma AcquireInTurn(p: Pool, key: string, caller: nat, now: int, seen: set<nat>, c: Pair)
    requires InTurn(p, seen, c) && Comes(key, caller, seen, c)
    ensures InTurn(Acquire(p, key, caller, now), seen + {caller}, c)
  {
    hide TryTake;
    TakeLends(p, key, caller, now);
    TakeKeepsWaiters(p, key, caller, now);
    var q, more := Acquire(p, key, caller, now), seen + {caller};
    forall k | 0 <= k < |p.waiters| ensures Seen(p.waiters[k], more, c) && MayPrecede(p.waiters[k], Waiter(caller, key), c) {
      assert Seen(p.waiters[k], seen, c);
    }
    assert Orderly(q.waiters, more, c);
  }

  function SeenAfter(e: Event, seen: set<nat>): set<nat> {
    if e.Use? then seen + {e.caller} else seen
  }

  lemma StepInTurn(p: Pool, e: Event, now: int, seen: set<nat>, c: Pair)
    requires InTurn(p, seen, c) && (e.Use? ==> Comes(e.key, e.caller, seen, c))
    ensures InTurn(Step(p, e, now), SeenAfter(e, seen), c)
  {
    hide Orderly, LentInTurn, Comes, Acquire, Release, Retire, RetireAll, IndexOf;
    match e {
      case Use(key, caller) => AcquireInTurn(p, key, caller, now, seen, c);
      case SessionOpened(id) => TurnKept(p, Opened(p, id), seen, c);
      case Done(id, authFailed) => ReleaseInTurn(p, id, authFailed, now, seen, c);
      case IdleTimeout(id) => RetireInTurn(p, id, now, seen, c);
      case GivesUp(i) =>
        if i < |p.waiters| { DropOne(p.waiters, i, seen, c); }
        TurnKept(p, GiveUp(p, i), seen, c);
      case CloseKey(key) =>
        OthersOrderly(p.waiters, key, seen, c);
        TurnKept(p, p.(waiters := WaitersNot(p.waiters, key)), seen, c);
        RetireAllInTurn(p.(waiters := WaitersNot(p.waiters, key)), IdsOf(p.slots, key), now, seen, c);
      case CloseEverything =>
        NobodyOrderly(seen, c);
        TurnKept(p, p.(closed := true, waiters := []), seen, c);
        RetireAllInTurn(p.(closed := true, waiters := []), AllIds(p.slots), now, seen, c);
    }
  }

  lemma NobodyOrderly(seen: set<nat>, c: Pair)
    ensures Orderly([], seen, c) && LentInTurn([], map[], seen, c)
  {
  }

  /** Every use() call is a caller of its own. */
  predicate OwnCallers(es: seq<Timed>) {
    forall i, j :: 0 <= i < j < |es| && es[i].event.Use? && es[j].event.Use? ==> es[i].event.caller != es[j].event.caller
  }

  function CallersIn(es: seq<Timed>): set<nat> {
    set k | 0 <= k < |es| && es[k].event.Use? :: es[k].event.caller
  }

  lemma CallersPush(es: seq<Timed>, e: Timed)
    ensures CallersIn(es + [e]) == SeenAfter(e.event, CallersIn(es))
  {
    var all := es + [e];
    forall x ensures x in CallersIn(all) <==> x in SeenAfter(e.event, CallersIn(es)) {
      if x in CallersIn(es) {
        var k :| 0 <= k < |es| && es[k].event.Use? && es[k].event.caller == x;
        assert all[k].event.caller == x;
      }
      if e.event.Use? && x == e.event.caller { assert all[|es|].event.caller == x; }
    }
  }

  lemma {:induction false} RunInTurn(p: Pool, es: seq<Timed>, n: nat, i: nat, j: nat)
    requires OwnCallers(es) && n <= |es| && i < j < |es| && es[i].event.Use? && es[j].event.Use?
    requires es[i].event.key == es[j].event.key && p.waiters == [] && p.lent == map[]
    ensures var c := Pair(es[i].event.caller, es[j].event.caller, es[i].event.key);
            InTurn(RunAll(p, es[..n]), CallersIn(es[..n]), c)
  {
    hide Step, Orderly, LentInTurn;
    var c := Pair(es[i].event.caller, es[j].event.caller, es[i].event.key);
    if n == 0 {
      assert es[..0] == [];
      NobodyOrderly(CallersIn(es[..0]), c);
    } else {
      var before, e := es[..n - 1], es[n - 1];
      RunInTurn(p, es, n - 1, i, j);
      assert es[..n] == before + [e];
      RunSplit(p, before, [e]);
      LastStep(RunAll(p, before), e);
      CallersPush(before, e);
      StepInTurn(RunAll(p, before), e.event, e.now, CallersIn(before), c);
    }
  }

  lemma LastStep(p: Pool, e: Timed)
    ensures RunAll(p, [e]) == Step(p, e.event, e.now)
  {
    hide Step;
    assert [e][1..] == [];
  }

  /** In every run, of two callers of one key the one that came later is never lent a slot while the earlier
      one still waits, and waits behind it. */
  lemma RunFair(maxSessions: nat, maxPerAccount: nat, es: seq<Timed>, i: nat, j: nat, k: nat)
    requires OwnCallers(es) && i < j < |es| && es[i].event.Use? && es[j].event.Use?
    requires es[i].event.key == es[j].event.key
    requires var p := RunAll(Empty(maxSessions, maxPerAccount), es);
             k < |p.waiters| && p.waiters[k].caller == es[i].event.caller
    ensures var p := RunAll(Empty(maxSessions, maxPerAccount), es);
            && (forall id :: id in p.lent ==> p.lent[id] != es[j].event.caller)
            && (forall l :: 0 <= l < |p.waiters| && p.waiters[l].caller == es[j].event.caller ==> k < l)
  {
    hide RunAll;
    var p := RunAll(Empty(maxSessions, maxPerAccount), es);
    assert es[..|es|] == es;
    RunInTurn(Empty(maxSessions, maxPerAccount), es, |es|, i, j);
    assert es[j].event.caller in CallersIn(es);
    var c := Pair(es[i].event.caller, es[j].event.caller, es[i].event.key);
    forall l | 0 <= l < k ensures p.waiters[l].caller != es[j].event.caller {
      assert MayPrecede(p.waiters[l], p.waiters[k], c);
    }
  }

  // ---- A servable caller waits -------------------------------------------------------

  /** Sessions of `a` and `b` were opened, another caller waits for `a`, and the one of `b` was given back. */
  const BUSY_DAY: seq<Timed> := MORNING + AFTERNOON

  const MORNING: seq<Timed> := [
    Timed(Use("a", 7), 0), Timed(SessionOpened(0), 0), Timed(Use("b", 8), 0), Timed(SessionOpened(1), 0)]

  const AFTERNOON: seq<Timed> := [Timed(Use("a", 9), 0), Timed(Done(1, false), 0)]

  /** A pool of two sessions, one for each account. */
  function Small(slots: seq<Slot>, waiters: seq<Waiter>, lent: map<nat, nat>): Pool {
    Pool(slots, waiters, lent, |slots|, false, 2, 1)
  }

  function Busy(id: nat, key: string, open: bool): Slot { Slot(id, key, open, true, false, 0) }

  lemma {:induction false} NoneOfKey(slots: seq<Slot>, key: string, n: nat)
    requires n <= |slots| && forall k :: 0 <= k < |slots| ==> slots[k].key != key
    ensures Count(slots, key) == 0 && PlaceFor(slots, key, n) == |slots|
    decreases |slots| + n
  {
    if n > 0 {
      NoneOfKey(slots, key, n - 1);
    } else if slots != [] {
      NoneOfKey(slots[1..], key, 0);
    }
  }

  /** The first caller of an account gets a new session while there is room. */
  lemma UseNew(slots: seq<Slot>, lent: map<nat, nat>, key: string, caller: nat)
    requires |slots| < 2 && forall k :: 0 <= k < |slots| ==> slots[k].key != key
    ensures Step(Small(slots, [], lent), Use(key, caller), 0)
            == Small(slots + [Busy(|slots|, key, false)], [], lent[|slots| := caller])
  {
    hide Count, PlaceFor, LruIdle;
    NoneOfKey(slots, key, |slots|);
    assert slots[|slots|..] == [];
  }

  /** One that finds its only session busy waits. */
  lemma UseWaits(slots: seq<Slot>, lent: map<nat, nat>, key: string, caller: nat)
    requires Count(slots, key) >= 1 && forall k :: 0 <= k < |slots| ==> slots[k].busy
    ensures Step(Small(slots, [], lent), Use(key, caller), 0) == Small(slots, [Waiter(caller, key)], lent)
  {
    hide Count, Added, LruIdle;
  }

  lemma OpenAt(p: Pool, i: nat)
    requires i < |p.slots| && p.slots[i].id in p.lent && forall k :: 0 <= k < i ==> p.slots[k].id != p.slots[i].id
    ensures Step(p, SessionOpened(p.slots[i].id), 0) == p.(slots := p.slots[i := p.slots[i].(open := true)])
  {
    hide IndexOf;
    IndexIs(p.slots, p.slots[i].id, 0, i);
  }

  /** Giving back an open session serves nobody if the only waiter cannot be served. */
  lemma DoneServesNobody(p: Pool, i: nat)
    requires i < |p.slots| && p.slots[i].id in p.lent && forall k :: 0 <= k < i ==> p.slots[k].id != p.slots[i].id
    requires p.slots[i].open && !p.slots[i].retired && |p.waiters| == 1
    ensures var q := p.(slots := p.slots[i := p.slots[i].(busy := false, lastUsed := 0)], lent := p.lent - {p.slots[i].id});
            !CanServe(q, p.waiters[0].key) ==> Step(p, Done(p.slots[i].id, false), 0) == q
  {
    hide IndexOf, TryTake, CanServe;
    IndexIs(p.slots, p.slots[i].id, 0, i);
    var q := p.(slots := p.slots[i := p.slots[i].(busy := false, lastUsed := 0)], lent := p.lent - {p.slots[i].id});
    TakeExact(q, p.waiters[0].key, p.waiters[0].caller, 0);
    assert PumpFrom(q, 1, 0).pool == q;
  }

  /** The day's last state: one session in use with a caller behind it, the other one idle. */
  const EVENING := Small([Busy(0, "a", true), Busy(1, "b", true).(busy := false)], [Waiter(9, "a")], map[0 := 7])

  lemma EveningServes()
    ensures !CanServe(EVENING, "a") && CanServe(EVENING, "b") && Quiet(EVENING) && EVENING.waiters != []
  {
    var p := EVENING;
    CountSplit(p.slots, 0, "a");
    assert !KeyIdle(p.slots, "a");
    assert p.slots[1].key == "b" && Idle(p.slots[1]);
    assert KeyIdle(p.slots, "b");
  }

  lemma RunTwo(p: Pool, e: Timed, f: Timed)
    ensures RunAll(p, [e, f]) == Step(Step(p, e.event, e.now), f.event, f.now)
  {
    hide Step;
    assert [e, f][1..] == [f] && [f][1..] == [];
    assert RunAll(Step(p, e.event, e.now), [f]) == Step(Step(p, e.event, e.now), f.event, f.now);
  }

  /** An account's first caller comes and its session is opened. */
  lemma UseOpens(slots: seq<Slot>, lent: map<nat, nat>, key: string, caller: nat)
    requires |slots| < 2 && forall k :: 0 <= k < |slots| ==> slots[k].key != key && slots[k].id == k
    ensures RunAll(Small(slots, [], lent), [Timed(Use(key, caller), 0), Timed(SessionOpened(|slots|), 0)])
            == Small(slots + [Busy(|slots|, key, true)], [], lent[|slots| := caller])
  {
    var n := |slots|;
    var p := Small(slots + [Busy(n, key, false)], [], lent[n := caller]);
    UseNew(slots, lent, key, caller);
    assert p.slots[n].id == n && p.slots[n := Busy(n, key, true)] == slots + [Busy(n, key, true)];
    hide Step;
    OpenAt(p, n);
    RunTwo(Small(slots, [], lent), Timed(Use(key, caller), 0), Timed(SessionOpened(n), 0));
  }

  lemma MorningEnds()
    ensures RunAll(Empty(2, 1), MORNING)
            == Small([Busy(0, "a", true), Busy(1, "b", true)], [], map[0 := 7, 1 := 8])
  {
    hide RunAll;
    var a := Busy(0, "a", true);
    UseOpens([], map[], "a", 7);
    UseOpens([a], map[0 := 7], "b", 8);
    assert [] + [a] == [a];
    RunSplit(Empty(2, 1), MORNING[..2], MORNING[2..]);
    assert MORNING[..2] + MORNING[2..] == MORNING;
    assert MORNING[..2] == [Timed(Use("a", 7), 0), Timed(SessionOpened(0), 0)];
    assert MORNING[2..] == [Timed(Use("b", 8), 0), Timed(SessionOpened(1), 0)];
  }

  lemma AfternoonEnds()
    ensures RunAll(Small([Busy(0, "a", true), Busy(1, "b", true)], [], map[0 := 7, 1 := 8]), AFTERNOON) == EVENING
  {
    var slots := [Busy(0, "a", true), Busy(1, "b", true)];
    var both := map[0 := 7, 1 := 8];
    CountSplit(slots, 0, "a");
    UseWaits(slots, both, "a", 9);
    EveningServes();
    hide Step, CanServe, Quiet, RunAll, Count;
    DoneServesNobody(Small(slots, [Waiter(9, "a")], both), 1);
    assert both - {1} == map[0 := 7];
    assert slots[1 := slots[1].(busy := false)] == EVENING.slots;
    RunTwo(Small(slots, [], both), AFTERNOON[0], AFTERNOON[1]);
  }

  lemma DayEnds()
    ensures RunAll(Empty(2, 1), BUSY_DAY) == EVENING
  {
    MorningEnds();
    AfternoonEnds();
    hide RunAll;
    RunSplit(Empty(2, 1), MORNING, AFTERNOON);
  }

  /** A run after which a caller for `b` waits although a session of `b` is idle. */
  lemma AcquireMayLeaveServable()
    ensures var p := RunAll(Empty(2, 1), BUSY_DAY);
            && Quiet(p) && !p.closed && CanServe(p, "b")
            && var q := Step(p, Use("b", 10), 0); Waiter(10, "b") in q.waiters && !Quiet(q)
  {
    DayEnds();
    EveningServes();
    hide RunAll, CanServe, Quiet;
    AcquireQuietExact(EVENING, "b", 10, 0);
  }
}
