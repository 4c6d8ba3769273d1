/** Who gets which session of the pool (src/imap/ImapPool.ts). */
module ImapPoolLoans {
  import opened Text
  import opened ImapPool

  // ---- What tryTake does to the table ------------------------------------------------

  /** A slot after one was lent: the lent one is of the key, was idle or is new; the others are as before. */
  predicate AfterTake(p: Pool, key: string, slot: Option<nat>, s: Slot) {
    if slot == Some(s.id) then
      && s.key == key && s.busy && !s.retired
      && (s.id == p.nextId || exists k :: 0 <= k < |p.slots| && p.slots[k].id == s.id && Idle(p.slots[k]))
    else s in p.slots
  }

  lemma AddedMembers(slots: seq<Slot>, s: Slot)
    ensures forall x :: x in Added(slots, s) ==> x == s || x in slots
  {
    hide Added, PlaceFor;
    var at := PlaceFor(slots, s.key, |slots|);
    AddedParts(slots, s, at);
    var more := Added(slots, s);
    forall x | x in more ensures x == s || x in slots {
      var k :| 0 <= k < |more| && more[k] == x;
    }
  }

  lemma TakeSlots(p: Pool, key: string, caller: nat, now: int)
    requires Safe(p)
    ensures var t := TryTake(p, key, caller, now);
            && (forall s :: s in t.pool.slots ==> AfterTake(p, key, t.slot, s))
            && p.nextId <= t.pool.nextId && t.pool.closed == p.closed
            && (t.slot.Some? ==> t.slot.value < t.pool.nextId)
  {
    hide Count, FirstIdle, LruIdle, Added, PlaceFor;
    var t := TryTake(p, key, caller, now);
    IdsUnique(p);
    assert forall k :: 0 <= k < |p.slots| ==> SlotOk(p, p.slots[k]);
    var i := FirstIdle(p.slots, key, 0);
    if i >= 0 {
      forall s | s in t.pool.slots ensures AfterTake(p, key, t.slot, s) {
        var k :| 0 <= k < |t.pool.slots| && t.pool.slots[k] == s;
        if k != i { assert s == p.slots[k]; }
      }
    } else if t.slot.Some? {
      var kept := if |p.slots| >= p.maxSessions then Without(p.slots, LruIdle(p.slots, |p.slots|)) else p.slots;
      AddedMembers(kept, Slot(p.nextId, key, false, true, false, now));
      forall s | s in t.pool.slots ensures AfterTake(p, key, t.slot, s) {
        if s in kept {
          var k :| 0 <= k < |kept| && kept[k] == s;
          assert s in p.slots;
        }
      }
    }
  }

  // ---- Every caller gets a session of its own account --------------------------------

  /** A use() call and the account it asked for. */
  datatype Request = Request(caller: nat, key: string)

  ghost predicate OwnKeys(p: Pool, asked: set<Request>) {
    && (forall k :: 0 <= k < |p.waiters| ==> Request(p.waiters[k].caller, p.waiters[k].key) in asked)
    && (forall s :: s in p.slots && s.id in p.lent ==> Request(p.lent[s.id], s.key) in asked)
  }

  lemma TakeOwn(p: Pool, key: string, caller: nat, now: int, asked: set<Request>)
    requires Safe(p) && OwnKeys(p, asked) && Request(caller, key) in asked
    ensures OwnKeys(TryTake(p, key, caller, now).pool, asked)
  {
    hide TryTake, Safe;
    TakeSlots(p, key, caller, now);
    TakeLends(p, key, caller, now);
    TakeKeepsWaiters(p, key, caller, now);
    TakeSafe(p, key, caller, now);
  }

  lemma {:induction false} PumpOwn(p: Pool, i: nat, now: int, asked: set<Request>)
    requires Safe(p) && OwnKeys(p, asked)
    ensures OwnKeys(PumpFrom(p, i, now).pool, asked)
    decreases |p.waiters| - i
  {
    hide Safe, TryTake;
    if i < |p.waiters| {
      var w := p.waiters[i];
      TakeOwn(p, w.key, w.caller, now, asked);
      TakeSafe(p, w.key, w.caller, now);
      TakeKeepsWaiters(p, w.key, w.caller, now);
      var t := TryTake(p, w.key, w.caller, now);
      if t.slot.None? {
        PumpOwn(p, i + 1, now, asked);
      } else {
        var q := t.pool.(waiters := p.waiters[..i] + p.waiters[i + 1..]);
        SafeWaiters(t.pool, q.waiters, q.closed);
        PumpOwn(q, i, now, asked);
      }
    }
  }

  /** Fewer waiters, fewer loans, and no slot with another key. */
  lemma OwnKept(p: Pool, q: Pool, asked: set<Request>)
    requires OwnKeys(p, asked)
    requires forall w :: w in q.waiters ==> w in p.waiters
    requires forall id :: id in q.lent ==> id in p.lent && q.lent[id] == p.lent[id]
    requires forall s :: s in q.slots ==> exists k :: 0 <= k < |p.slots| && p.slots[k].id == s.id && p.slots[k].key == s.key
    ensures OwnKeys(q, asked)
  {
    forall k | 0 <= k < |q.waiters| ensures Request(q.waiters[k].caller, q.waiters[k].key) in asked {
      assert q.waiters[k] in p.waiters;
    }
    forall s | s in q.slots && s.id in q.lent ensures Request(q.lent[s.id], s.key) in asked {
      var k :| 0 <= k < |p.slots| && p.slots[k].id == s.id && p.slots[k].key == s.key;
      assert p.slots[k] in p.slots;
    }
  }

  /** The slots after one of them changed or left. */
  predicate Shrunk(p: Pool, q: Pool) {
    forall s :: s in q.slots ==> exists k :: 0 <= k < |p.slots| && p.slots[k].id == s.id && p.slots[k].key == s.key
  }

  lemma ChangedSlot(p: Pool, i: nat, s: Slot, lent: map<nat, nat>, id: nat)
    requires i < |p.slots| && s.id == p.slots[i].id && s.key == p.slots[i].key
    ensures var q := p.(slots := p.slots[i := s], lent := lent); Shrunk(p, q) && Shrunk(p, Remove(q, id))
  {
    hide IndexOf;
    var q := p.(slots := p.slots[i := s], lent := lent);
    forall x | x in q.slots ensures exists k :: 0 <= k < |p.slots| && p.slots[k].id == x.id && p.slots[k].key == x.key {
      var k :| 0 <= k < |q.slots| && q.slots[k] == x;
      assert p.slots[k].id == x.id;
    }
    forall x | x in Remove(q, id).slots ensures x in q.slots {
    }
  }

  lemma ReleaseOwn(p: Pool, id: nat, authFailed: bool, now: int, asked: set<Request>)
    requires Safe(p) && OwnKeys(p, asked) && id in p.lent
    ensures OwnKeys(Release(p, id, authFailed, now), asked)
  {
    hide Safe, IndexOf, PumpFrom, OwnKeys, Shrunk;
    var i := IndexOf(p.slots, id, 0);
    if i >= 0 {
      var s := p.slots[i].(busy := false, lastUsed := now);
      var s' := if authFailed || !s.open then s.(retired := true) else s;
      var q := p.(slots := p.slots[i := s'], lent := p.lent - {id});
      var q' := if s'.retired then Remove(q, id) else q;
      LeftSafe(p, id, authFailed, now);
      ChangedSlot(p, i, s', p.lent - {id}, id);
      ShrunkOwn(p, q', asked);
      PumpOwn(q', 0, now, asked);
    }
  }

  lemma ShrunkOwn(p: Pool, q: Pool, asked: set<Request>)
    requires OwnKeys(p, asked) && Shrunk(p, q)
    requires forall w :: w in q.waiters ==> w in p.waiters
    requires forall id :: id in q.lent ==> id in p.lent && q.lent[id] == p.lent[id]
    ensures OwnKeys(q, asked)
  {
    OwnKept(p, q, asked);
  }

  /** The pool just before it pumps in release. */
  lemma LeftSafe(p: Pool, id: nat, authFailed: bool, now: int)
    requires Safe(p) && id in p.lent
    ensures var i := IndexOf(p.slots, id, 0);
            i >= 0 ==>
              var s := p.slots[i].(busy := false, lastUsed := now);
              var s' := if authFailed || !s.open then s.(retired := true) else s;
              var q := p.(slots := p.slots[i := s'], lent := p.lent - {id});
              Safe(if s'.retired then Remove(q, id) else q)
  {
    hide Safe, IndexOf;
    var i := IndexOf(p.slots, id, 0);
    if i >= 0 {
      SlotSafe(p, i);
      var s := p.slots[i].(busy := false, lastUsed := now);
      var s' := if authFailed || !s.open then s.(retired := true) else s;
      if s'.retired { SafeLeave(p, i, s', p.lent - {id}); } else { SafeUpdate(p, i, s', p.lent - {id}); }
    }
  }

  lemma RetireOwn(p: Pool, id: nat, now: int, asked: set<Request>)
    requires Safe(p) && OwnKeys(p, asked)
    ensures OwnKeys(Retire(p, id, now), asked)
  {
    hide Safe, IndexOf, PumpFrom, OwnKeys, Shrunk;
    var i := IndexOf(p.slots, id, 0);
    if i < 0 {
      PumpOwn(p, 0, now, asked);
    } else {
      var s := p.slots[i].(retired := true);
      var q := p.(slots := p.slots[i := s]);
      assert q == p.(slots := p.slots[i := s], lent := p.lent);
      ChangedSlot(p, i, s, p.lent, id);
      ShrunkOwn(p, q, asked);
      if !s.busy {
        SlotSafe(p, i);
        assert p.lent == p.lent - {id};
        SafeLeave(p, i, s, p.lent);
        ShrunkOwn(p, Remove(q, id), asked);
        PumpOwn(Remove(q, id), 0, now, asked);
      }
    }
  }

  lemma {:induction false} RetireAllOwn(p: Pool, ids: seq<nat>, now: int, asked: set<Request>)
    requires Safe(p) && OwnKeys(p, asked)
    ensures OwnKeys(RetireAll(p, ids, now), asked)
    decreases |ids|
  {
    hide Safe, Retire, OwnKeys;
    if ids != [] {
      RetireOwn(p, ids[0], now, asked);
      RetireSafe(p, ids[0], now);
      RetireAllOwn(Retire(p, ids[0], now), ids[1..], now, asked);
    }
  }

  function AskedAfter(e: Event, asked: set<Request>): set<Request> {
    if e.Use? then asked + {Request(e.caller, e.key)} else asked
  }

  lemma {:induction false} OthersLeft(ws: seq<Waiter>, key: string)
    ensures forall w :: w in WaitersNot(ws, key) ==> w in ws && w.key != key
  {
    if ws != [] {
      OthersLeft(ws[1..], key);
    }
  }

  lemma StepOwn(p: Pool, e: Event, now: int, asked: set<Request>)
    requires Safe(p) && OwnKeys(p, asked)
    ensures OwnKeys(Step(p, e, now), AskedAfter(e, asked))
  {
    hide Safe, TryTake, Release, Retire, RetireAll, IndexOf;
    match e {
      case Use(key, caller) =>
        TakeOwn(p, key, caller, now, AskedAfter(e, asked));
      case SessionOpened(id) =>
        var i := IndexOf(p.slots, id, 0);
        if i >= 0 {
          ChangedSlot(p, i, p.slots[i].(open := true), p.lent, id);
          ShrunkOwn(p, p.(slots := p.slots[i := p.slots[i].(open := true)], lent := p.lent), asked);
        }
      case Done(id, authFailed) => if id in p.lent { ReleaseOwn(p, id, authFailed, now, asked); }
      case IdleTimeout(id) => RetireOwn(p, id, now, asked);
      case GivesUp(i) =>
      case CloseKey(key) =>
        OthersLeft(p.waiters, key);
        var q := p.(waiters := WaitersNot(p.waiters, key));
        SafeWaiters(p, q.waiters, p.closed);
        assert forall k :: 0 <= k < |q.waiters| ==> q.waiters[k] in p.waiters;
        RetireAllOwn(q, IdsOf(p.slots, key), now, asked);
      case CloseEverything =>
        SafeWaiters(p, [], true);
        RetireAllOwn(p.(closed := true, waiters := []), AllIds(p.slots), now, asked);
    }
  }

  /** The use() calls of a run. */
  ghost function AskedIn(es: seq<Timed>): set<Request> {
    set k | 0 <= k < |es| && es[k].event.Use? :: Request(es[k].event.caller, es[k].event.key)
  }

  lemma AskedFirst(es: seq<Timed>, asked: set<Request>)
    requires es != []
    ensures asked + AskedIn(es) == AskedAfter(es[0].event, asked) + AskedIn(es[1..])
  {
    var rest := es[1..];
    forall r | r in AskedIn(es) ensures r in AskedAfter(es[0].event, {}) + AskedIn(rest) {
      var k :| 0 <= k < |es| && es[k].event.Use? && r == Request(es[k].event.caller, es[k].event.key);
      if k > 0 { assert rest[k - 1] == es[k]; }
    }
    forall r | r in AskedIn(rest) ensures r in AskedIn(es) {
      var k :| 0 <= k < |rest| && rest[k].event.Use? && r == Request(rest[k].event.caller, rest[k].event.key);
      assert es[k + 1] == rest[k];
    }
  }

  lemma {:induction false} RunOwn(p: Pool, es: seq<Timed>, asked: set<Request>)
    requires Safe(p) && OwnKeys(p, asked)
    ensures OwnKeys(RunAll(p, es), asked + AskedIn(es))
    decreases |es|
  {
    hide Safe, Step, OwnKeys;
    if es == [] {
      assert asked + AskedIn(es) == asked;
    } else {
      StepOwn(p, es[0].event, es[0].now, asked);
      StepSafe(p, es[0].event, es[0].now);
      AskedFirst(es, asked);
      RunOwn(Step(p, es[0].event, es[0].now), es[1..], AskedAfter(es[0].event, asked));
    }
  }

  lemma EmptySafe(maxSessions: nat, maxPerAccount: nat)
    requires maxSessions >= 1 && maxPerAccount >= 1
    ensures Safe(Empty(maxSessions, maxPerAccount))
  {
    ReachableSafe(maxSessions, maxPerAccount, []);
  }

  /** In every run: the session a caller holds is one of the account it asked for. */
  lemma OwnAccount(maxSessions: nat, maxPerAccount: nat, es: seq<Timed>, s: Slot)
    requires maxSessions >= 1 && maxPerAccount >= 1
    ensures var p := RunAll(Empty(maxSessions, maxPerAccount), es);
            s in p.slots && s.id in p.lent ==>
              exists k :: 0 <= k < |es| && es[k].event == Use(s.key, p.lent[s.id])
  {
    hide RunAll, Safe;
    EmptySafe(maxSessions, maxPerAccount);
    RunOwn(Empty(maxSessions, maxPerAccount), es, {});
    var p := RunAll(Empty(maxSessions, maxPerAccount), es);
    if s in p.slots && s.id in p.lent {
      var r := Request(p.lent[s.id], s.key);
      assert r in AskedIn(es);
      var k :| 0 <= k < |es| && es[k].event.Use? && r == Request(es[k].event.caller, es[k].event.key);
      assert es[k].event == Use(s.key, p.lent[s.id]);
    }
  }

  // ---- A retired session is never lent again -----------------------------------------

  /** The slot is gone, or still busy with the last use it will have. */
  ghost predicate Spent(p: Pool, id: nat, last: nat) {
    && id < p.nextId
    && (forall s :: s in p.slots && s.id == id ==> s.busy && s.retired)
    && (id in p.lent ==> p.lent[id] == last)
  }

  lemma TakeSpent(p: Pool, key: string, caller: nat, now: int, id: nat, last: nat)
    requires Safe(p) && Spent(p, id, last)
    ensures Spent(TryTake(p, key, caller, now).pool, id, last)
  {
    hide TryTake, Safe;
    TakeSlots(p, key, caller, now);
    TakeSafe(p, key, caller, now);
    var t := TryTake(p, key, caller, now);
    SpentIsNotIdle(p, id, last);
    LentWasIdle(p, key, caller, now);
    assert t.slot != Some(id);
    forall s | s in t.pool.slots && s.id == id ensures s.busy && s.retired {
      assert AfterTake(p, key, t.slot, s);
    }
  }

  lemma SpentIsNotIdle(p: Pool, id: nat, last: nat)
    requires Spent(p, id, last)
    ensures forall k :: 0 <= k < |p.slots| && p.slots[k].id == id ==> !Idle(p.slots[k])
  {
    forall k | 0 <= k < |p.slots| && p.slots[k].id == id ensures !Idle(p.slots[k]) {
      assert p.slots[k] in p.slots;
    }
  }

  lemma LentSlot(p: Pool, key: string, caller: nat, now: int)
    requires Safe(p)
    ensures var t := TryTake(p, key, caller, now);
            t.slot.Some? ==> exists s :: s in t.pool.slots && s.id == t.slot.value
  {
    hide TryTake;
    TakeSafe(p, key, caller, now);
    var t := TryTake(p, key, caller, now);
    if t.slot.Some? {
      LentThere(t.pool, t.slot.value);
    }
  }

  lemma LentWasIdle(p: Pool, key: string, caller: nat, now: int)
    requires Safe(p)
    ensures var t := TryTake(p, key, caller, now);
            t.slot.Some? ==>
              t.slot.value == p.nextId || exists k :: 0 <= k < |p.slots| && p.slots[k].id == t.slot.value && Idle(p.slots[k])
  {
    hide TryTake, Safe;
    TakeSlots(p, key, caller, now);
    LentSlot(p, key, caller, now);
    var t := TryTake(p, key, caller, now);
    if t.slot.Some? {
      var s :| s in t.pool.slots && s.id == t.slot.value;
      assert AfterTake(p, key, t.slot, s);
    }
  }

  lemma LentThere(p: Pool, id: nat)
    requires Safe(p) && id in p.lent
    ensures exists s :: s in p.slots && s.id == id
  {
    var i :| 0 <= i < |p.slots| && p.slots[i].id == id;
    assert p.slots[i] in p.slots;
  }

  lemma {:induction false} PumpSpent(p: Pool, i: nat, now: int, id: nat, last: nat)
    requires Safe(p) && Spent(p, id, last)
    ensures Spent(PumpFrom(p, i, now).pool, id, last)
    decreases |p.waiters| - i
  {
    hide Safe, TryTake;
    if i < |p.waiters| {
      var w := p.waiters[i];
      TakeSpent(p, w.key, w.caller, now, id, last);
      TakeSafe(p, w.key, w.caller, now);
      TakeKeepsWaiters(p, w.key, w.caller, now);
      var t := TryTake(p, w.key, w.caller, now);
      if t.slot.None? {
        PumpSpent(p, i + 1, now, id, last);
      } else {
        var q := t.pool.(waiters := p.waiters[..i] + p.waiters[i + 1..]);
        SafeWaiters(t.pool, q.waiters, q.closed);
        PumpSpent(q, i, now, id, last);
      }
    }
  }

  /** Another slot changes or leaves, or the spent one leaves. */
  lemma RemoveSpent(p: Pool, other: nat, id: nat, last: nat)
    requires Spent(p, id, last)
    ensures Spent(Remove(p, other), id, last)
  {
    hide IndexOf;
  }

  lemma SlotSpent(p: Pool, i: nat, s: Slot, lent: map<nat, nat>, id: nat, last: nat)
    requires Spent(p, id, last) && i < |p.slots| && s.id == p.slots[i].id && (s.id == id ==> s.busy && s.retired)
    requires forall x :: x in lent ==> x in p.lent && lent[x] == p.lent[x]
    ensures Spent(p.(slots := p.slots[i := s], lent := lent), id, last)
  {
    var q := p.(slots := p.slots[i := s], lent := lent);
    forall x | x in q.slots && x.id == id ensures x.busy && x.retired {
      var k :| 0 <= k < |q.slots| && q.slots[k] == x;
      if k != i { assert x == p.slots[k]; }
    }
  }

  lemma RetireSpent(p: Pool, other: nat, now: int, id: nat, last: nat)
    requires Safe(p) && Spent(p, id, last)
    ensures Spent(Retire(p, other, now), id, last)
  {
    hide Safe, IndexOf, PumpFrom, Spent;
    var i := IndexOf(p.slots, other, 0);
    if i < 0 {
      PumpSpent(p, 0, now, id, last);
    } else {
      var s := p.slots[i].(retired := true);
      var q := p.(slots := p.slots[i := s]);
      assert q == p.(slots := p.slots[i := s], lent := p.lent);
      StillBusy(p, i, id, last);
      SlotSpent(p, i, s, p.lent, id, last);
      if !s.busy {
        SlotSafe(p, i);
        assert p.lent == p.lent - {other};
        SafeLeave(p, i, s, p.lent);
        RemoveSpent(q, other, id, last);
        PumpSpent(Remove(q, other), 0, now, id, last);
      }
    }
  }

  lemma StillBusy(p: Pool, i: nat, id: nat, last: nat)
    requires Spent(p, id, last) && i < |p.slots|
    ensures p.slots[i].id == id ==> p.slots[i].busy && p.slots[i].retired
  {
    assert p.slots[i] in p.slots;
  }

  lemma ReleaseSpent(p: Pool, other: nat, authFailed: bool, now: int, id: nat, last: nat)
    requires Safe(p) && Spent(p, id, last) && other in p.lent
    ensures Spent(Release(p, other, authFailed, now), id, last)
  {
    hide Safe, IndexOf, PumpFrom, Spent;
    var i := IndexOf(p.slots, other, 0);
    if i >= 0 {
      var s := p.slots[i].(busy := false, lastUsed := now);
      var s' := if authFailed || !s.open then s.(retired := true) else s;
      var q := p.(slots := p.slots[i := s'], lent := p.lent - {other});
      LeftSafe(p, other, authFailed, now);
      StillBusy(p, i, id, last);
      if other == id {
        LeavesSpent(p, i, s', id, last);
        PumpSpent(Remove(q, other), 0, now, id, last);
      } else {
        SlotSpent(p, i, s', p.lent - {other}, id, last);
        RemoveSpent(q, other, id, last);
        PumpSpent(if s'.retired then Remove(q, other) else q, 0, now, id, last);
      }
    }
  }

  /** A slot that leaves is spent. */
  lemma LeavesSpent(p: Pool, i: nat, s: Slot, id: nat, last: nat)
    requires Safe(p) && i < |p.slots| && p.slots[i].id == id == s.id && IndexOf(p.slots, id, 0) == i
    ensures Spent(Remove(p.(slots := p.slots[i := s], lent := p.lent - {id}), id), id, last)
  {
    hide IndexOf;
    IdsUnique(p);
    SlotSafe(p, i);
    var slots := p.slots[i := s];
    IndexIs(slots, id, 0, i);
    var rest := Without(slots, i);
    forall x | x in rest ensures x.id != id {
      var k :| 0 <= k < |rest| && rest[k] == x;
      assert x == p.slots[if k < i then k else k + 1];
    }
    assert SlotOk(p, p.slots[i]);
  }

  lemma {:induction false} RetireAllSpent(p: Pool, ids: seq<nat>, now: int, id: nat, last: nat)
    requires Safe(p) && Spent(p, id, last)
    ensures Spent(RetireAll(p, ids, now), id, last)
    decreases |ids|
  {
    hide Safe, Retire, Spent;
    if ids != [] {
      RetireSpent(p, ids[0], now, id, last);
      RetireSafe(p, ids[0], now);
      RetireAllSpent(Retire(p, ids[0], now), ids[1..], now, id, last);
    }
  }

  lemma StepSpent(p: Pool, e: Event, now: int, id: nat, last: nat)
    requires Safe(p) && Spent(p, id, last)
    ensures Spent(Step(p, e, now), id, last)
  {
    hide Safe, TryTake, Release, Retire, RetireAll, IndexOf;
    match e {
      case Use(key, caller) => TakeSpent(p, key, caller, now, id, last);
      case SessionOpened(other) =>
        var i := IndexOf(p.slots, other, 0);
        if i >= 0 {
          StillBusy(p, i, id, last);
          SlotSpent(p, i, p.slots[i].(open := true), p.lent, id, last);
        }
      case Done(other, authFailed) => if other in p.lent { ReleaseSpent(p, other, authFailed, now, id, last); }
      case IdleTimeout(other) => RetireSpent(p, other, now, id, last);
      case GivesUp(i) =>
      case CloseKey(key) =>
        SafeWaiters(p, WaitersNot(p.waiters, key), p.closed);
        RetireAllSpent(p.(waiters := WaitersNot(p.waiters, key)), IdsOf(p.slots, key), now, id, last);
      case CloseEverything =>
        SafeWaiters(p, [], true);
        RetireAllSpent(p.(closed := true, waiters := []), AllIds(p.slots), now, id, last);
    }
  }

  lemma {:induction false} RunSpent(p: Pool, es: seq<Timed>, id: nat, last: nat)
    requires Safe(p) && Spent(p, id, last)
    ensures Spent(RunAll(p, es), id, last)
    decreases |es|
  {
    hide Safe, Step, Spent;
    if es != [] {
      StepSpent(p, es[0].event, es[0].now, id, last);
      StepSafe(p, es[0].event, es[0].now);
      RunSpent(Step(p, es[0].event, es[0].now), es[1..], id, last);
    }
  }

  /** A session that times out is spent. */
  lemma TimeoutSpends(p: Pool, id: nat, now: int, last: nat)
    requires Safe(p) && (exists s :: s in p.slots && s.id == id) && (id in p.lent ==> p.lent[id] == last)
    ensures Spent(Retire(p, id, now), id, last)
  {
    hide Safe, IndexOf, PumpFrom, Spent;
    var i := IndexOf(p.slots, id, 0);
    var s := p.slots[i].(retired := true);
    var q := p.(slots := p.slots[i := s]);
    SlotSafe(p, i);
    if s.busy {
      BusySpent(p, i, s, id, last);
    } else {
      assert p.lent == p.lent - {id};
      assert q == p.(slots := p.slots[i := s], lent := p.lent - {id});
      LeavesSpent(p, i, s, id, last);
      SafeLeave(p, i, s, p.lent);
      PumpSpent(Remove(q, id), 0, now, id, last);
    }
  }

  lemma BusySpent(p: Pool, i: nat, s: Slot, id: nat, last: nat)
    requires Safe(p) && i < |p.slots| && p.slots[i].id == id == s.id && s.busy && s.retired
    requires id in p.lent ==> p.lent[id] == last
    ensures Spent(p.(slots := p.slots[i := s]), id, last)
  {
    IdsUnique(p);
    SlotSafe(p, i);
    assert SlotOk(p, p.slots[i]);
    var slots := p.slots[i := s];
    forall x | x in slots && x.id == id ensures x.busy && x.retired {
      var k :| 0 <= k < |slots| && slots[k] == x;
    }
  }

  /** A session whose credentials were refused, or that was never opened, is spent when it is given back. */
  lemma RefusalSpends(p: Pool, id: nat, authFailed: bool, now: int, last: nat)
    requires Safe(p) && id in p.lent && (authFailed || forall s :: s in p.slots && s.id == id ==> !s.open)
    ensures Spent(Release(p, id, authFailed, now), id, last)
  {
    hide Safe, IndexOf, PumpFrom, Spent;
    LentThere(p, id);
    var i := IndexOf(p.slots, id, 0);
    assert p.slots[i] in p.slots;
    var s := p.slots[i].(busy := false, lastUsed := now, retired := true);
    LeavesSpent(p, i, s, id, last);
    SafeLeave(p, i, s, p.lent - {id});
    PumpSpent(Remove(p.(slots := p.slots[i := s], lent := p.lent - {id}), id), 0, now, id, last);
  }

  /** In every run: a session that timed out or was closed, whose credentials were refused, or that was never
      opened, is not lent to anybody again. */
  lemma NeverLentAgain(
    maxSessions: nat, maxPerAccount: nat, before: seq<Timed>, e: Event, now: int, after: seq<Timed>, id: nat, last: nat)
    requires maxSessions >= 1 && maxPerAccount >= 1
    requires var p := RunAll(Empty(maxSessions, maxPerAccount), before);
             || (e == IdleTimeout(id) && (exists s :: s in p.slots && s.id == id) && (id in p.lent ==> p.lent[id] == last))
             || (e.Done? && e.slot == id && id in p.lent
                 && (e.authFailed || forall s :: s in p.slots && s.id == id ==> !s.open))
    ensures var q := RunAll(Step(RunAll(Empty(maxSessions, maxPerAccount), before), e, now), after);
            && (id in q.lent ==> q.lent[id] == last)
            && (forall s :: s in q.slots && s.id == id ==> s.busy && s.retired)
  {
    hide RunAll, Safe, Retire, Release;
    EmptySafe(maxSessions, maxPerAccount);
    RunSafe(Empty(maxSessions, maxPerAccount), before);
    var p := RunAll(Empty(maxSessions, maxPerAccount), before);
    if e.Done? { RefusalSpends(p, id, e.authFailed, now, last); } else { TimeoutSpends(p, id, now, last); }
    StepSafe(p, e, now);
    RunSpent(Step(p, e, now), after, id, last);
  }

  lemma {:induction false} PumpNext(p: Pool, i: nat, now: int)
    requires Safe(p)
    ensures p.nextId <= PumpFrom(p, i, now).pool.nextId
    decreases |p.waiters| - i
  {
    hide Safe, TryTake;
    if i < |p.waiters| {
      var w := p.waiters[i];
      TakeSlots(p, w.key, w.caller, now);
      TakeSafe(p, w.key, w.caller, now);
      TakeKeepsWaiters(p, w.key, w.caller, now);
      var t := TryTake(p, w.key, w.caller, now);
      if t.slot.None? {
        PumpNext(p, i + 1, now);
      } else {
        var q := t.pool.(waiters := p.waiters[..i] + p.waiters[i + 1..]);
        SafeWaiters(t.pool, q.waiters, q.closed);
        PumpNext(q, i, now);
      }
    }
  }

  lemma RetireNext(p: Pool, id: nat, now: int)
    requires Safe(p)
    ensures p.nextId <= Retire(p, id, now).nextId
  {
    hide Safe, IndexOf, PumpFrom;
    var i := IndexOf(p.slots, id, 0);
    if i < 0 {
      PumpNext(p, 0, now);
    } else if !p.slots[i].busy {
      SlotSafe(p, i);
      assert p.lent == p.lent - {id};
      SafeLeave(p, i, p.slots[i].(retired := true), p.lent);
      PumpNext(Remove(p.(slots := p.slots[i := p.slots[i].(retired := true)]), id), 0, now);
    }
  }

  lemma GoneIsSpent(p: Pool, id: nat, last: nat)
    requires Safe(p) && id < p.nextId && forall s :: s in p.slots ==> s.id != id
    ensures Spent(p, id, last)
  {
    hide Safe;
    if id in p.lent {
      LentThere(p, id);
      assert false;
    }
  }

  lemma {:induction false} RetiredSpent(p: Pool, ids: seq<nat>, now: int, id: nat)
    requires Safe(p) && id in ids && id < p.nextId
    ensures exists last :: Spent(RetireAll(p, ids, now), id, last)
    decreases |ids|
  {
    hide Safe, Retire, Spent;
    assert ids == [ids[0]] + ids[1..];
    var q := Retire(p, ids[0], now);
    RetireSafe(p, ids[0], now);
    RetireNext(p, ids[0], now);
    if ids[0] == id {
      var last := if id in p.lent then p.lent[id] else 0;
      if exists s :: s in p.slots && s.id == id {
        TimeoutSpends(p, id, now, last);
      } else {
        GoneIsSpent(p, id, last);
        RetireSpent(p, id, now, id, last);
      }
      RetireAllSpent(q, ids[1..], now, id, last);
      assert Spent(RetireAll(p, ids, now), id, last);
    } else {
      RetiredSpent(q, ids[1..], now, id);
      var last :| Spent(RetireAll(q, ids[1..], now), id, last);
      assert Spent(RetireAll(p, ids, now), id, last);
    }
  }

  lemma {:induction false} IdsOfHas(slots: seq<Slot>, key: string, s: Slot)
    requires s in slots && s.key == key
    ensures s.id in IdsOf(slots, key)
  {
    if s != slots[0] {
      assert s in slots[1..];
      IdsOfHas(slots[1..], key, s);
    }
  }

  /** In every run: once the sessions of an account were closed, none of them is lent again. */
  lemma ClosedKeySpent(
    maxSessions: nat, maxPerAccount: nat, before: seq<Timed>, key: string, now: int, after: seq<Timed>, s: Slot)
    requires maxSessions >= 1 && maxPerAccount >= 1
    requires s in RunAll(Empty(maxSessions, maxPerAccount), before).slots && s.key == key
    ensures var p := RunAll(Empty(maxSessions, maxPerAccount), before);
            exists last :: Spent(RunAll(Step(p, CloseKey(key), now), after), s.id, last)
  {
    hide RunAll, Safe, RetireAll, Spent;
    EmptySafe(maxSessions, maxPerAccount);
    RunSafe(Empty(maxSessions, maxPerAccount), before);
    var p := RunAll(Empty(maxSessions, maxPerAccount), before);
    var q := p.(waiters := WaitersNot(p.waiters, key));
    SafeWaiters(p, q.waiters, p.closed);
    IdsOfHas(p.slots, key, s);
    KnownId(p, s);
    RetiredSpent(q, IdsOf(p.slots, key), now, s.id);
    var last :| Spent(RetireAll(q, IdsOf(p.slots, key), now), s.id, last);
    StepSafe(p, CloseKey(key), now);
    RunSpent(Step(p, CloseKey(key), now), after, s.id, last);
  }

  lemma KnownId(p: Pool, s: Slot)
    requires Safe(p) && s in p.slots
    ensures s.id < p.nextId
  {
    var k :| 0 <= k < |p.slots| && p.slots[k] == s;
    assert SlotOk(p, p.slots[k]);
  }

  // ---- A closed pool -----------------------------------------------------------------

  lemma {:induction false} PumpNobody(p: Pool, now: int)
    requires p.waiters == []
    ensures Pump(p, now) == p
  {
  }

  /** Giving back a good session while nobody waits: it is idle and was used last now. */
  lemma GivenBackIdle(p: Pool, id: nat, now: int)
    requires Safe(p) && id in p.lent && p.waiters == [] && forall s :: s in p.slots && s.id == id ==> s.open && !s.retired
    ensures var q := Release(p, id, false, now);
            && q.lent == p.lent - {id}
            && (exists s :: s in q.slots && s.id == id && Idle(s) && s.open && s.lastUsed == now)
  {
    hide Safe, IndexOf, PumpFrom;
    LentThere(p, id);
    var i := IndexOf(p.slots, id, 0);
    assert p.slots[i] in p.slots;
    var s := p.slots[i].(busy := false, lastUsed := now);
    var q := p.(slots := p.slots[i := s], lent := p.lent - {id});
    PumpNobody(q, now);
    assert q.slots[i] == s;
  }

  /** Closed, nobody waits, and no session will be lent. */
  ghost predicate ShutDown(p: Pool) {
    p.closed && p.waiters == [] && forall k :: 0 <= k < |p.slots| ==> p.slots[k].busy && p.slots[k].retired
  }

  lemma ShutDownStep(p: Pool, e: Event, now: int)
    requires Safe(p) && ShutDown(p)
    ensures ShutDown(Step(p, e, now)) && Step(p, e, now).lent.Keys <= p.lent.Keys
  {
    hide Safe, RetireAll, Retire, Release, PumpFrom, IndexOf;
    match e {
      case Use(_, _) =>
      case SessionOpened(_) =>
      case Done(id, authFailed) =>
        ShutDownDone(p, id, authFailed, now);
      case IdleTimeout(id) =>
        assert [id][1..] == [];
        ShutDownAll(p, [id], now);
        RetireOne(p, id, now);
      case GivesUp(_) =>
      case CloseKey(key) =>
        assert WaitersNot([], key) == [];
        ShutDownAll(p, IdsOf(p.slots, key), now);
      case CloseEverything => ShutDownAll(p, AllIds(p.slots), now);
    }
  }

  lemma RetireOne(p: Pool, id: nat, now: int)
    ensures RetireAll(p, [id], now) == Retire(p, id, now)
  {
    hide Retire;
    assert [id][1..] == [];
  }

  lemma ShutDownDone(p: Pool, id: nat, authFailed: bool, now: int)
    requires Safe(p) && ShutDown(p)
    ensures var q := Release(p, id, authFailed, now); ShutDown(q) && q.lent.Keys <= p.lent.Keys
  {
    hide Safe, IndexOf, PumpFrom;
    var i := IndexOf(p.slots, id, 0);
    if i >= 0 {
      var s := p.slots[i].(busy := false, lastUsed := now);
      var q := p.(slots := p.slots[i := s], lent := p.lent - {id});
      IdsUnique(p);
      IndexIs(q.slots, id, 0, i);
      PumpNobody(Remove(q, id), now);
    }
  }

  lemma {:induction false} RunShutDown(p: Pool, es: seq<Timed>)
    requires Safe(p) && ShutDown(p)
    ensures ShutDown(RunAll(p, es)) && RunAll(p, es).lent.Keys <= p.lent.Keys
    decreases |es|
  {
    hide Safe, Step, ShutDown;
    if es != [] {
      ShutDownStep(p, es[0].event, es[0].now);
      StepSafe(p, es[0].event, es[0].now);
      RunShutDown(Step(p, es[0].event, es[0].now), es[1..]);
    }
  }

  /** Whatever is not yet spent is still to be retired. */
  lemma {:induction false} RetireAllShuts(p: Pool, ids: seq<nat>, now: int)
    requires Safe(p) && p.waiters == [] && p.closed
    requires forall k :: 0 <= k < |p.slots| ==> (p.slots[k].busy && p.slots[k].retired) || p.slots[k].id in ids
    ensures ShutDown(RetireAll(p, ids, now)) && RetireAll(p, ids, now).lent == p.lent
    decreases |ids|
  {
    hide Safe, Retire;
    if ids != [] {
      assert ids == [ids[0]] + ids[1..];
      RetireUnwaited(p, ids[0], now);
      RetireSafe(p, ids[0], now);
      var q := Retire(p, ids[0], now);
      forall k | 0 <= k < |q.slots| ensures (q.slots[k].busy && q.slots[k].retired) || q.slots[k].id in ids[1..] {
        assert Stays(p, ids[0], q.slots[k]);
      }
      RetireAllShuts(Retire(p, ids[0], now), ids[1..], now);
    }
  }

  /** The slot stayed and is another, or is spent. */
  predicate Stays(p: Pool, id: nat, s: Slot) {
    (s in p.slots && s.id != id) || (s.busy && s.retired)
  }

  lemma OthersStay(p: Pool, i: nat, s: Slot)
    requires Safe(p) && i < |p.slots| && s.id == p.slots[i].id
    ensures var slots := p.slots[i := s]; forall k :: 0 <= k < |slots| && k != i ==> Stays(p, s.id, slots[k])
    ensures var rest := Without(p.slots[i := s], i); forall k :: 0 <= k < |rest| ==> Stays(p, s.id, rest[k])
  {
    hide Safe;
    IdsUnique(p);
    var rest := Without(p.slots[i := s], i);
    forall k | 0 <= k < |rest| ensures rest[k] == p.slots[if k < i then k else k + 1] {
    }
  }

  lemma RetireUnwaited(p: Pool, id: nat, now: int)
    requires Safe(p) && p.waiters == []
    ensures var q := Retire(p, id, now);
            && q.waiters == [] && q.closed == p.closed && q.lent == p.lent
            && forall k :: 0 <= k < |q.slots| ==> Stays(p, id, q.slots[k])
  {
    hide Safe, IndexOf, PumpFrom, Stays, Without;
    PumpNobody(p, now);
    var i := IndexOf(p.slots, id, 0);
    if i < 0 {
      NoneStay(p, id);
    } else {
      var s := p.slots[i].(retired := true);
      var q := p.(slots := p.slots[i := s]);
      OthersStay(p, i, s);
      if s.busy {
        assert Stays(p, id, s) by { SpentStays(p, id, s); }
      } else {
        IdsUnique(p);
        IndexIs(q.slots, id, 0, i);
        PumpNobody(Remove(q, id), now);
      }
    }
  }

  lemma SpentStays(p: Pool, id: nat, s: Slot)
    requires s.busy && s.retired
    ensures Stays(p, id, s)
  {
  }

  lemma NoneStay(p: Pool, id: nat)
    requires IndexOf(p.slots, id, 0) == -1
    ensures forall k :: 0 <= k < |p.slots| ==> Stays(p, id, p.slots[k])
  {
    hide IndexOf;
  }

  lemma {:induction false} AllIdsAre(slots: seq<Slot>)
    ensures forall k :: 0 <= k < |slots| ==> slots[k].id in AllIds(slots)
  {
    if slots != [] {
      AllIdsAre(slots[1..]);
      forall k | 0 <= k < |slots| ensures slots[k].id in AllIds(slots) {
        if k > 0 { assert slots[k] == slots[1..][k - 1]; }
      }
    }
  }

  /** In every run: once the pool was closed nobody waits and no session is lent any more, and those in use
      leave it when they are given back. */
  lemma ClosedForGood(maxSessions: nat, maxPerAccount: nat, before: seq<Timed>, now: int, after: seq<Timed>)
    requires maxSessions >= 1 && maxPerAccount >= 1
    ensures var p := RunAll(Empty(maxSessions, maxPerAccount), before);
            var q := RunAll(Step(p, CloseEverything, now), after);
            ShutDown(q) && q.lent.Keys <= p.lent.Keys
  {
    hide RunAll, Safe, RetireAll;
    EmptySafe(maxSessions, maxPerAccount);
    RunSafe(Empty(maxSessions, maxPerAccount), before);
    var p := RunAll(Empty(maxSessions, maxPerAccount), before);
    SafeWaiters(p, [], true);
    AllIdsAre(p.slots);
    RetireAllShuts(p.(closed := true, waiters := []), AllIds(p.slots), now);
    StepSafe(p, CloseEverything, now);
    RunShutDown(Step(p, CloseEverything, now), after);
  }

  lemma {:induction false} ShutDownAll(p: Pool, ids: seq<nat>, now: int)
    requires ShutDown(p)
    ensures RetireAll(p, ids, now) == p
    decreases |ids|
  {
    hide IndexOf, PumpFrom;
    if ids != [] {
      PumpNobody(p, now);
      var i := IndexOf(p.slots, ids[0], 0);
      if i >= 0 { assert p.slots[i := p.slots[i].(retired := true)] == p.slots; }
      ShutDownAll(p, ids[1..], now);
    }
  }
}
