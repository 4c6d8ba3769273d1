/** The lease protocol of the persistent queue (src/queue/SqliteQueue.ts): any number of processes over one
    table of jobs. Times are in milliseconds. */
module SqliteQueue {
  import opened Text

  datatype Status = Pending | Scheduled | Running | Success | Dead | Cancelled

  predicate Active(s: Status) { s.Pending? || s.Scheduled? || s.Running? }

  /** A row: the columns the protocol looks at. Owners are unique per process start. */
  datatype Row = Row(status: Status, attempts: nat, owner: Option<nat>, leaseUntil: Option<int>)

  type Rows = map<string, Row>

  const LEASE_MS := 30_000

  // ---- The statements ----------------------------------------------------------------

  /** Nobody's row, or one whose lease has run out. */
  predicate Unowned(r: Row, now: int) {
    r.owner.None? || r.leaseUntil.None? || r.leaseUntil.value < now
  }

  predicate MayClaim(r: Row, p: nat, now: int) {
    Active(r.status) && (r.owner == Some(p) || Unowned(r, now))
  }

  function Claimed(rows: Rows, id: string, p: nat, now: int): Rows {
    if id in rows && MayClaim(rows[id], p, now)
    then rows[id := rows[id].(owner := Some(p), leaseUntil := Some(now + LEASE_MS))] else rows
  }

  /** updateStatus: an active job stays with the process, a finished one is let go. */
  function Stored(rows: Rows, id: string, status: Status, attempts: nat, p: nat, now: int): Rows {
    if id !in rows then rows
    else if Active(status) then rows[id := Row(status, attempts, Some(p), Some(now + LEASE_MS))]
    else rows[id := Row(status, attempts, None, None)]
  }

  /** A row that cannot be read is given up: its other columns stay as they are. */
  function Buried(rows: Rows, id: string): Rows {
    if id in rows then rows[id := rows[id].(status := Dead, owner := None, leaseUntil := None)] else rows
  }

  function Renewed(rows: Rows, p: nat, now: int): Rows {
    map id | id in rows ::
      if rows[id].owner == Some(p) && Active(rows[id].status)
      then rows[id].(leaseUntil := Some(now + LEASE_MS)) else rows[id]
  }

  function Freed(rows: Rows, q: nat): Rows {
    map id | id in rows :: if rows[id].owner == Some(q) then rows[id].(owner := None, leaseUntil := None) else rows[id]
  }

  /** close: everything the process still owns goes back. */
  function HandedBack(rows: Rows, p: nat): Rows {
    map id | id in rows ::
      var r := rows[id];
      if r.owner == Some(p)
      then Row(if r.status.Running? then Pending else r.status, r.attempts, None, None) else r
  }

  function Requeued(rows: Rows, id: string): Rows {
    if id in rows && rows[id].status.Dead? then rows[id := Row(Pending, 0, None, None)] else rows
  }

  function WithoutDead(rows: Rows): Rows {
    map id | id in rows && !rows[id].status.Dead? :: rows[id]
  }

  /** The rows restoreJobs reads. */
  function Unclaimed(rows: Rows, now: int): Rows {
    map id | id in rows && Active(rows[id].status) && Unowned(rows[id], now) :: rows[id]
  }

  /** The status a restored job starts with: an attempt that was under way is lost. */
  function Resumed(s: Status): Status {
    if s.Running? then Pending else s
  }

  // ---- One process -------------------------------------------------------------------

  class Database {
    var rows: Rows

    constructor ()
      ensures rows == map[]
    {
      rows := map[];
    }

    method Insert(id: string, status: Status, p: nat, now: int) returns (ok: bool)
      modifies this
      ensures ok <==> id !in old(rows)
      ensures rows == if ok then old(rows)[id := Row(status, 0, Some(p), Some(now + LEASE_MS))] else old(rows)
    {
      ok := id !in rows;
      if ok { rows := rows[id := Row(status, 0, Some(p), Some(now + LEASE_MS))]; }
    }

    method Claim(id: string, p: nat, now: int) returns (ok: bool)
      modifies this
      ensures rows == Claimed(old(rows), id, p, now)
      ensures ok <==> id in old(rows) && MayClaim(old(rows)[id], p, now)
    {
      ok := id in rows && Active(rows[id].status)
        && (rows[id].owner.None? || rows[id].owner == Some(p)
            || rows[id].leaseUntil.None? || rows[id].leaseUntil.value < now);
      if ok { rows := rows[id := rows[id].(owner := Some(p), leaseUntil := Some(now + LEASE_MS))]; }
    }

    method Update(id: string, status: Status, attempts: nat, p: nat, now: int)
      modifies this
      ensures rows == Stored(old(rows), id, status, attempts, p, now)
    {
      var active := Active(status);
      if id in rows {
        rows := rows[id := Row(status, attempts, if active then Some(p) else None,
                               if active then Some(now + LEASE_MS) else None)];
      }
    }

    method Bury(id: string)
      modifies this
      ensures rows == Buried(old(rows), id)
    {
      if id in rows {
        rows := rows[id := rows[id].(status := Dead, owner := None, leaseUntil := None)];
      }
    }

    /** Releases the rows of owners that died on this host. */
    method ReleaseDead(dead: seq<nat>)
      modifies this
      ensures rows == FreedAll(old(rows), dead)
    {
      assert dead[0..] == dead;
      for i := 0 to |dead|
        invariant FreedAll(old(rows), dead) == FreedAll(rows, dead[i..])
      {
        assert dead[i..][1..] == dead[i + 1..];
        rows := Freed(rows, dead[i]);
      }
    }
  }

  function FreedAll(rows: Rows, dead: seq<nat>): Rows
    decreases |dead|
  {
    if dead == [] then rows else FreedAll(Freed(rows, dead[0]), dead[1..])
  }

  /** What one process keeps in memory: the attempts of its unfinished jobs. */
  class Queue {
    const owner: nat
    const db: Database
    var held: map<string, nat>

    constructor (owner: nat, db: Database)
      ensures this.owner == owner && this.db == db && held == map[]
    {
      this.owner, this.db, held := owner, db, map[];
    }

    /** restoreJobs when no other process comes in between: `order` lists the rows that were read, and those
        in `broken` cannot be decoded. */
    method RestoreJobs(snapshot: Rows, order: seq<string>, broken: set<string>, now: int)
      requires forall i :: 0 <= i < |order| ==> order[i] in snapshot
      modifies this, db
      ensures (db.rows, held) == Restored(old(db.rows), old(held), snapshot, order, broken, owner, now)
    {
      hide Claimed, Stored, Buried;
      assert order[0..] == order;
      for i := 0 to |order|
        invariant Restored(old(db.rows), old(held), snapshot, order, broken, owner, now)
                  == Restored(db.rows, held, snapshot, order[i..], broken, owner, now)
      {
        var id := order[i];
        assert order[i..][1..] == order[i + 1..];
        if id in held { continue; }
        var ok := db.Claim(id, owner, now);
        if !ok {
          ClaimRefused(db.rows, id, owner, now);
          continue;
        }
        if id in broken {
          db.Bury(id);
          continue;
        }
        var row := snapshot[id];
        held := held[id := row.attempts];
        db.Update(id, Resumed(row.status), row.attempts, owner, now);
      }
    }
  }

  lemma ClaimRefused(rows: Rows, id: string, p: nat, now: int)
    ensures !(id in rows && MayClaim(rows[id], p, now)) ==> Claimed(rows, id, p, now) == rows
  {
  }

  function Restored(
    rows: Rows, held: map<string, nat>, snapshot: Rows, order: seq<string>, broken: set<string>, p: nat, now: int)
    : (Rows, map<string, nat>)
    requires forall i :: 0 <= i < |order| ==> order[i] in snapshot
    decreases |order|
  {
    if order == [] then (rows, held)
    else
      var id, rest := order[0], order[1..];
      var claimed := Claimed(rows, id, p, now);
      if id in held then Restored(rows, held, snapshot, rest, broken, p, now)
      else if !(id in rows && MayClaim(rows[id], p, now)) then Restored(claimed, held, snapshot, rest, broken, p, now)
      else if id in broken then Restored(Buried(claimed, id), held, snapshot, rest, broken, p, now)
      else
        var row := snapshot[id];
        Restored(Stored(claimed, id, Resumed(row.status), row.attempts, p, now),
                 held[id := row.attempts], snapshot, rest, broken, p, now)
  }

  // ---- All processes -----------------------------------------------------------------

  /** A process: when it last renewed its leases, the jobs it holds in memory, the rows it has read and not
      yet gone through, and the row it has just claimed. */
  datatype Process = Process(
    live: bool, lastPoll: int, held: set<string>, snapshot: Rows, claimed: Option<string>)

  datatype World = World(rows: Rows, procs: map<nat, Process>, now: int)

  datatype Event =
    | Start(p: nat)
    | Enqueue(p: nat, id: string, delayed: bool)
    | Poll(p: nat)
    | ReadRows(p: nat)
    | ClaimRow(p: nat, id: string)
    | RestoreRow(p: nat, readable: bool)
    | JobMoves(p: nat, id: string, status: Status, attempts: nat)
    | ReleaseDead(p: nat, dead: nat)
    | Crash(p: nat)
    | Shutdown(p: nat)
    | Requeue(id: string)
    | ClearDlq
    | Clock(to: int)

  predicate Live(w: World, p: nat) { p in w.procs && w.procs[p].live }

  const GONE := Process(false, 0, {}, map[], None)

  /** One step of one process, or of the command line, or of the clock. The read of the rows, each claim
      and each restoring are steps of their own, so that other processes may come in between. */
  function Step(w: World, e: Event): World {
    match e
    case Start(p) =>
      if p in w.procs then w
      else w.(procs := w.procs[p := Process(true, w.now, {}, map[], None)])
    case Enqueue(p, id, delayed) =>
      if !Live(w, p) || id in w.rows then w
      else w.(
        rows := w.rows[id := Row(if delayed then Scheduled else Pending, 0, Some(p), Some(w.now + LEASE_MS))],
        procs := w.procs[p := w.procs[p].(held := w.procs[p].held + {id})])
    case Poll(p) =>
      if !Live(w, p) then w
      else w.(rows := Renewed(w.rows, p, w.now), procs := w.procs[p := w.procs[p].(lastPoll := w.now)])
    case ReadRows(p) =>
      if !Live(w, p) then w
      else w.(procs := w.procs[p := w.procs[p].(snapshot := Unclaimed(w.rows, w.now))])
    case ClaimRow(p, id) =>
      if !Live(w, p) || w.procs[p].claimed.Some? || id !in w.procs[p].snapshot || id in w.procs[p].held
         || !(id in w.rows && MayClaim(w.rows[id], p, w.now)) then w
      else w.(rows := Claimed(w.rows, id, p, w.now), procs := w.procs[p := w.procs[p].(claimed := Some(id))])
    case RestoreRow(p, readable) =>
      if !Live(w, p) || w.procs[p].claimed.None? || w.procs[p].claimed.value !in w.procs[p].snapshot then w
      else
        var proc, id := w.procs[p], w.procs[p].claimed.value;
        if readable then
          w.(rows := Stored(w.rows, id, Resumed(proc.snapshot[id].status), proc.snapshot[id].attempts, p, w.now),
             procs := w.procs[p := proc.(held := proc.held + {id}, claimed := None)])
        else
          w.(rows := Buried(w.rows, id),
             procs := w.procs[p := proc.(claimed := None)])
    case JobMoves(p, id, status, attempts) =>
      if !Live(w, p) || id !in w.procs[p].held then w
      else
        var held := if Active(status) then w.procs[p].held else w.procs[p].held - {id};
        w.(rows := Stored(w.rows, id, status, attempts, p, w.now),
           procs := w.procs[p := w.procs[p].(held := held)])
    case ReleaseDead(p, dead) =>
      if !Live(w, p) || Live(w, dead) then w else w.(rows := Freed(w.rows, dead))
    case Crash(p) =>
      if !Live(w, p) then w else w.(procs := w.procs[p := GONE])
    case Shutdown(p) =>
      if !Live(w, p) then w else w.(rows := HandedBack(w.rows, p), procs := w.procs[p := GONE])
    case Requeue(id) => w.(rows := Requeued(w.rows, id))
    case ClearDlq => w.(rows := WithoutDead(w.rows))
    case Clock(to) => if to < w.now then w else w.(now := to)
  }

  /** Every live process polls at least once per LEASE_MS: the clock waits for it. */
  ghost predicate Polled(w: World, e: Event) {
    e.Clock? ==> forall p :: Live(w, p) ==> e.to <= w.procs[p].lastPoll + LEASE_MS
  }

  // ---- Invariant ---------------------------------------------------------------------

  /** The row is the process's own, and its lease covers the time until the next poll is due. */
  predicate Leased(w: World, p: nat, id: string)
    requires p in w.procs
  {
    && id in w.rows && Active(w.rows[id].status) && w.rows[id].owner == Some(p)
    && w.rows[id].leaseUntil.Some? && w.rows[id].leaseUntil.value >= w.procs[p].lastPoll + LEASE_MS
  }

  predicate Holds(w: World, p: nat, id: string)
    requires p in w.procs
  {
    id in w.procs[p].held || w.procs[p].claimed == Some(id)
  }

  ghost predicate ProcessOk(w: World, p: nat)
    requires p in w.procs
  {
    var proc := w.procs[p];
    if proc.live then
      && proc.lastPoll <= w.now <= proc.lastPoll + LEASE_MS
      && (forall id :: Holds(w, p, id) ==> Leased(w, p, id))
      && (forall id :: id in proc.snapshot ==> Active(proc.snapshot[id].status))
      && (proc.claimed.Some? ==> proc.claimed.value in proc.snapshot && proc.claimed.value !in proc.held)
    else proc.held == {} && proc.claimed == None
  }

  /** An unfinished row is held by its live owner, or has none, or belongs to a process that is gone; no
      lease reaches further than LEASE_MS from now. */
  predicate RowOk(w: World, id: string)
    requires id in w.rows
  {
    var r := w.rows[id];
    && (Active(r.status) && r.owner.Some? && Live(w, r.owner.value) ==> Holds(w, r.owner.value, id))
    && (r.leaseUntil.Some? ==> r.leaseUntil.value <= w.now + LEASE_MS)
    && (r.owner.Some? ==> r.owner.value in w.procs)
  }

  ghost predicate Inv(w: World) {
    && (forall p :: p in w.procs ==> ProcessOk(w, p))
    && (forall id :: id in w.rows ==> RowOk(w, id))
  }

  /** What a step leaves alone of another process: its memory, and the rows it holds. */
  lemma OtherProcess(w: World, w': World, q: nat)
    requires Inv(w) && q in w.procs && q in w'.procs && w'.procs[q] == w.procs[q] && w'.now == w.now
    requires w.procs[q].live ==> forall id :: Holds(w, q, id) ==> Leased(w', q, id)
    ensures ProcessOk(w', q)
  {
    assert ProcessOk(w, q);
    assert forall id :: Holds(w', q, id) <==> Holds(w, q, id);
  }

  /** Nobody may claim a row that another live process holds. */
  lemma HeldNotClaimable(w: World, p: nat, q: nat, id: string)
    requires Inv(w) && Live(w, q) && Holds(w, q, id) && p != q
    ensures id in w.rows && !MayClaim(w.rows[id], p, w.now)
  {
    assert ProcessOk(w, q);
    assert Leased(w, q, id);
  }

  lemma StartKeeps(w: World, p: nat)
    requires Inv(w)
    ensures Inv(Step(w, Start(p)))
  {
    var w' := Step(w, Start(p));
    if p !in w.procs {
      forall q | q in w'.procs ensures ProcessOk(w', q) {
        if q != p { OtherProcess(w, w', q); }
      }
      forall id | id in w'.rows ensures RowOk(w', id) {
        assert RowOk(w, id);
        assert w.rows[id].owner != Some(p);
      }
    }
  }

  /** One process changes one row that no other live process holds, and its own memory. */
  lemma OneRow(w: World, w': World, p: nat, id: string)
    requires Inv(w) && Live(w, p) && w'.now == w.now && w'.procs.Keys == w.procs.Keys
    requires forall q :: q in w.procs && q != p ==> w'.procs[q] == w.procs[q]
    requires forall k :: k in w.rows && k != id ==> k in w'.rows && w'.rows[k] == w.rows[k]
    requires forall k :: k in w'.rows && k != id ==> k in w.rows
    requires forall q :: Live(w, q) && q != p ==> !Holds(w, q, id)
    requires forall k :: k != id ==> (Holds(w', p, k) <==> Holds(w, p, k))
    requires w'.procs[p].live && ProcessOk(w', p) && (id in w'.rows ==> RowOk(w', id))
    ensures Inv(w')
  {
    forall q | q in w'.procs ensures ProcessOk(w', q) {
      if q != p {
        assert ProcessOk(w, q);
        if w.procs[q].live {
          forall k | Holds(w, q, k) ensures Leased(w', q, k) {
            assert Leased(w, q, k);
            assert k != id;
          }
        }
        OtherProcess(w, w', q);
      }
    }
    forall k | k in w'.rows ensures RowOk(w', k) {
      if k != id {
        assert RowOk(w, k);
        var o := w.rows[k].owner;
        if o.Some? && o.value in w.procs && o.value != p {
          assert w'.procs[o.value] == w.procs[o.value];
        }
      }
    }
  }

  lemma EnqueueKeeps(w: World, p: nat, id: string, delayed: bool)
    requires Inv(w)
    ensures Inv(Step(w, Enqueue(p, id, delayed)))
  {
    var w' := Step(w, Enqueue(p, id, delayed));
    if Live(w, p) && id !in w.rows {
      assert ProcessOk(w, p);
      forall q | Live(w, q) ensures !Holds(w, q, id) {
        assert ProcessOk(w, q);
        assert Holds(w, q, id) ==> Leased(w, q, id);
      }
      forall k | Holds(w', p, k) ensures Leased(w', p, k) {
        if k != id {
          assert Holds(w, p, k);
          assert Leased(w, p, k);
        }
      }
      OneRow(w, w', p, id);
    }
  }

  lemma ReadKeeps(w: World, p: nat)
    requires Inv(w) && (Live(w, p) ==> w.procs[p].claimed.None?)
    ensures Inv(Step(w, ReadRows(p)))
  {
    var w' := Step(w, ReadRows(p));
    if Live(w, p) {
      forall q | q in w'.procs ensures ProcessOk(w', q) {
        if q != p {
          assert ProcessOk(w, q);
          assert forall id :: Holds(w, q, id) && w.procs[q].live ==> Leased(w, q, id) && Leased(w', q, id);
          OtherProcess(w, w', q);
        } else {
          assert ProcessOk(w, p);
          assert forall id :: Holds(w', p, id) ==> Holds(w, p, id) && Leased(w, p, id);
        }
      }
      forall id | id in w'.rows ensures RowOk(w', id) {
        assert RowOk(w, id);
      }
    }
  }

  lemma ClaimKeeps(w: World, p: nat, id: string)
    requires Inv(w)
    ensures Inv(Step(w, ClaimRow(p, id)))
  {
    var w' := Step(w, ClaimRow(p, id));
    if w' != w {
      assert ProcessOk(w, p);
      forall q | Live(w, q) && q != p ensures !Holds(w, q, id) {
        if Holds(w, q, id) {
          HeldNotClaimable(w, p, q, id);
        }
      }
      forall k | Holds(w', p, k) ensures Leased(w', p, k) {
        if k != id {
          assert Holds(w, p, k);
          assert Leased(w, p, k);
        }
      }
      OneRow(w, w', p, id);
    }
  }

  /** Only one live process holds a row. */
  lemma HolderIsUnique(w: World, p: nat, q: nat, id: string)
    requires Inv(w) && Live(w, p) && Live(w, q) && Holds(w, p, id) && Holds(w, q, id)
    ensures p == q
  {
    assert ProcessOk(w, p) && ProcessOk(w, q);
    assert Leased(w, p, id) && Leased(w, q, id);
  }

  lemma RestoreKeeps(w: World, p: nat, readable: bool)
    requires Inv(w)
    ensures Inv(Step(w, RestoreRow(p, readable)))
  {
    var w' := Step(w, RestoreRow(p, readable));
    if Live(w, p) && w.procs[p].claimed.Some? && w.procs[p].claimed.value in w.procs[p].snapshot {
      var id := w.procs[p].claimed.value;
      assert ProcessOk(w, p);
      assert Holds(w, p, id);
      assert Leased(w, p, id);
      forall q | Live(w, q) && q != p ensures !Holds(w, q, id) {
        if Holds(w, q, id) { HolderIsUnique(w, p, q, id); }
      }
      forall k | Holds(w', p, k) ensures Leased(w', p, k) {
        if k != id {
          assert Holds(w, p, k);
          assert Leased(w, p, k);
        }
      }
      OneRow(w, w', p, id);
    }
  }

  lemma MoveKeeps(w: World, p: nat, id: string, status: Status, attempts: nat)
    requires Inv(w)
    ensures Inv(Step(w, JobMoves(p, id, status, attempts)))
  {
    var w' := Step(w, JobMoves(p, id, status, attempts));
    if Live(w, p) && id in w.procs[p].held {
      assert ProcessOk(w, p);
      assert Holds(w, p, id);
      assert Leased(w, p, id);
      forall q | Live(w, q) && q != p ensures !Holds(w, q, id) {
        if Holds(w, q, id) { HolderIsUnique(w, p, q, id); }
      }
      forall k | Holds(w', p, k) ensures Leased(w', p, k) {
        if k != id {
          assert Holds(w, p, k);
          assert Leased(w, p, k);
        }
      }
      OneRow(w, w', p, id);
    }
  }

  lemma PollKeeps(w: World, p: nat)
    requires Inv(w)
    ensures Inv(Step(w, Poll(p)))
  {
    var w' := Step(w, Poll(p));
    if Live(w, p) {
      forall q | q in w'.procs ensures ProcessOk(w', q) {
        assert ProcessOk(w, q);
        if w.procs[q].live {
          forall id | Holds(w', q, id) ensures Leased(w', q, id) {
            assert Holds(w, q, id);
            assert Leased(w, q, id);
          }
        }
      }
      forall id | id in w'.rows ensures RowOk(w', id) {
        assert RowOk(w, id);
      }
    }
  }

  /** Statements that touch only rows no live process holds. */
  lemma RowsOnly(w: World, rows: Rows)
    requires Inv(w)
    requires forall p, id :: Live(w, p) && Holds(w, p, id) ==> id in rows && id in w.rows && rows[id] == w.rows[id]
    requires forall id :: id in rows ==>
               (id in w.rows && rows[id] == w.rows[id]) || (rows[id].owner.None? && rows[id].leaseUntil.None?)
    ensures Inv(w.(rows := rows))
  {
    var w' := w.(rows := rows);
    forall p | p in w'.procs ensures ProcessOk(w', p) {
      assert ProcessOk(w, p);
      if w.procs[p].live {
        forall id | Holds(w, p, id) ensures Leased(w', p, id) {
          assert Leased(w, p, id);
          assert Live(w, p);
        }
      }
      OtherProcess(w, w', p);
    }
    forall id | id in w'.rows ensures RowOk(w', id) {
      if id in w.rows { assert RowOk(w, id); }
    }
  }

  lemma RowKeeps(w: World, e: Event)
    requires Inv(w) && (e.ReleaseDead? || e.Requeue? || e.ClearDlq?)
    ensures Inv(Step(w, e))
  {
    var w' := Step(w, e);
    forall p, id | Live(w, p) && Holds(w, p, id)
      ensures id in w'.rows && id in w.rows && w'.rows[id] == w.rows[id]
    {
      assert ProcessOk(w, p);
      assert Leased(w, p, id);
    }
    RowsOnly(w, w'.rows);
    assert w' == w.(rows := w'.rows);
  }

  lemma LeaveKeeps(w: World, p: nat, e: Event)
    requires Inv(w) && (e == Crash(p) || e == Shutdown(p))
    ensures Inv(Step(w, e))
  {
    var w' := Step(w, e);
    if Live(w, p) {
      forall q | q in w'.procs ensures ProcessOk(w', q) {
        if q != p {
          assert ProcessOk(w, q);
          if w.procs[q].live {
            forall id | Holds(w, q, id) ensures Leased(w', q, id) {
              assert Leased(w, q, id);
            }
          }
          OtherProcess(w, w', q);
        }
      }
      forall id | id in w'.rows ensures RowOk(w', id) {
        assert RowOk(w, id);
      }
    }
  }

  lemma ClockKeeps(w: World, to: int)
    requires Inv(w) && Polled(w, Clock(to))
    ensures Inv(Step(w, Clock(to)))
  {
    var w' := Step(w, Clock(to));
    forall p | p in w'.procs ensures ProcessOk(w', p) {
      assert ProcessOk(w, p);
      if w.procs[p].live {
        assert Live(w, p);
        assert forall id :: Holds(w', p, id) ==> Holds(w, p, id) && Leased(w, p, id);
      }
    }
    forall id | id in w'.rows ensures RowOk(w', id) {
      assert RowOk(w, id);
    }
  }

  /** A process reads the rows again only after it has dealt with the row it claimed. */
  predicate InTurn(w: World, e: Event) {
    e.ReadRows? && Live(w, e.p) ==> w.procs[e.p].claimed.None?
  }

  lemma StepKeeps(w: World, e: Event)
    requires Inv(w) && Polled(w, e) && InTurn(w, e)
    ensures Inv(Step(w, e))
  {
    hide Inv, Step;
    match e {
      case Start(p) => StartKeeps(w, p);
      case Enqueue(p, id, delayed) => EnqueueKeeps(w, p, id, delayed);
      case Poll(p) => PollKeeps(w, p);
      case ReadRows(p) => ReadKeeps(w, p);
      case ClaimRow(p, id) => ClaimKeeps(w, p, id);
      case RestoreRow(p, readable) => RestoreKeeps(w, p, readable);
      case JobMoves(p, id, status, attempts) => MoveKeeps(w, p, id, status, attempts);
      case ReleaseDead(_, _) => RowKeeps(w, e);
      case Crash(p) => LeaveKeeps(w, p, e);
      case Shutdown(p) => LeaveKeeps(w, p, e);
      case Requeue(_) => RowKeeps(w, e);
      case ClearDlq => RowKeeps(w, e);
      case Clock(to) => ClockKeeps(w, to);
    }
  }

  // ---- Whole runs --------------------------------------------------------------------

  function RunAll(w: World, es: seq<Event>): World
    decreases |es|
  {
    if es == [] then w else RunAll(Step(w, es[0]), es[1..])
  }

  ghost predicate Fair(w: World, es: seq<Event>)
    decreases |es|
  {
    es == [] || (Polled(w, es[0]) && InTurn(w, es[0]) && Fair(Step(w, es[0]), es[1..]))
  }

  lemma {:induction false} RunKeeps(w: World, es: seq<Event>)
    requires Inv(w) && Fair(w, es)
    ensures Inv(RunAll(w, es))
    decreases |es|
  {
    hide Inv, Step, Polled, InTurn;
    if es != [] {
      StepKeeps(w, es[0]);
      RunKeeps(Step(w, es[0]), es[1..]);
    }
  }

  lemma {:induction false} RunSplit(w: World, a: seq<Event>, b: seq<Event>)
    ensures RunAll(w, a + b) == RunAll(RunAll(w, a), b)
    ensures Fair(w, a + b) <==> Fair(w, a) && Fair(RunAll(w, a), b)
    decreases |a|
  {
    hide Step, Polled, InTurn;
    if a == [] {
      assert a + b == b;
    } else {
      assert (a + b)[1..] == a[1..] + b;
      RunSplit(Step(w, a[0]), a[1..], b);
    }
  }

  lemma SingleStep(w: World, e: Event)
    ensures RunAll(w, [e]) == Step(w, e) && (Fair(w, [e]) <==> Polled(w, e) && InTurn(w, e))
  {
    hide Step, Polled, InTurn;
    assert [e][1..] == [];
    assert Fair(Step(w, e), []);
  }

  /** The steps of restoreJobs on one row, and on all of them. */
  function RowSteps(p: nat, id: string, broken: set<string>): seq<Event> {
    [ClaimRow(p, id), RestoreRow(p, id !in broken)]
  }

  function RestoreSteps(p: nat, order: seq<string>, broken: set<string>): seq<Event> {
    if order == [] then [] else RowSteps(p, order[0], broken) + RestoreSteps(p, order[1..], broken)
  }

  /** The process goes through the rows it has read. */
  predicate Restoring(w: World, p: nat, snapshot: Rows, held: set<string>) {
    Live(w, p) && w.procs[p].claimed == None && w.procs[p].snapshot == snapshot && w.procs[p].held == held
  }

  lemma RowRestored(w: World, p: nat, snapshot: Rows, held: map<string, nat>, id: string, broken: set<string>)
    requires Restoring(w, p, snapshot, held.Keys) && id in snapshot
    ensures var w', r := RunAll(w, RowSteps(p, id, broken)), Restored(w.rows, held, snapshot, [id], broken, p, w.now);
            w'.rows == r.0 && w'.now == w.now && Restoring(w', p, snapshot, r.1.Keys)
    ensures Fair(w, RowSteps(p, id, broken))
  {
    var claim, restore := ClaimRow(p, id), RestoreRow(p, id !in broken);
    SingleStep(w, claim);
    SingleStep(Step(w, claim), restore);
    RunSplit(w, [claim], [restore]);
    assert [claim] + [restore] == RowSteps(p, id, broken);
    assert [id][1..] == [];
  }

  lemma RestoredCons(
    rows: Rows, held: map<string, nat>, snapshot: Rows, order: seq<string>, broken: set<string>, p: nat, now: int)
    requires order != [] && forall i :: 0 <= i < |order| ==> order[i] in snapshot
    ensures var first := Restored(rows, held, snapshot, [order[0]], broken, p, now);
            Restored(rows, held, snapshot, order, broken, p, now)
            == Restored(first.0, first.1, snapshot, order[1..], broken, p, now)
  {
    hide Claimed, Stored, Buried, MayClaim;
    assert [order[0]][1..] == [];
  }

  lemma {:induction false} RestoresRows(
    w: World, p: nat, snapshot: Rows, held: map<string, nat>, order: seq<string>, broken: set<string>)
    requires Restoring(w, p, snapshot, held.Keys) && forall i :: 0 <= i < |order| ==> order[i] in snapshot
    ensures var w', r := RunAll(w, RestoreSteps(p, order, broken)), Restored(w.rows, held, snapshot, order, broken, p, w.now);
            w'.rows == r.0 && Restoring(w', p, snapshot, r.1.Keys)
    ensures Fair(w, RestoreSteps(p, order, broken))
    decreases |order|
  {
    hide Step, Polled, InTurn, RowSteps, Restoring;
    if order != [] {
      var id := order[0];
      var r := Restored(w.rows, held, snapshot, [id], broken, p, w.now);
      RowRestored(w, p, snapshot, held, id, broken);
      RestoredCons(w.rows, held, snapshot, order, broken, p, w.now);
      RestoresRows(RunAll(w, RowSteps(p, id, broken)), p, snapshot, r.1, order[1..], broken);
      RunSplit(w, RowSteps(p, id, broken), RestoreSteps(p, order[1..], broken));
    }
  }

  /** A call of restoreJobs is a run of the protocol: reading the rows, then claiming and restoring each. */
  lemma RestoreIsRun(w: World, p: nat, held: map<string, nat>, order: seq<string>, broken: set<string>)
    requires Live(w, p) && w.procs[p].claimed == None && w.procs[p].held == held.Keys
    requires forall i :: 0 <= i < |order| ==> order[i] in Unclaimed(w.rows, w.now)
    ensures var events := [ReadRows(p)] + RestoreSteps(p, order, broken);
            var r := Restored(w.rows, held, Unclaimed(w.rows, w.now), order, broken, p, w.now);
            && RunAll(w, events).rows == r.0 && Live(RunAll(w, events), p) && RunAll(w, events).procs[p].held == r.1.Keys
            && Fair(w, events)
  {
    var read := [ReadRows(p)];
    var w1 := RunAll(w, read);
    SingleStep(w, ReadRows(p));
    var snapshot := Unclaimed(w.rows, w.now);
    assert Restoring(w1, p, snapshot, held.Keys);
    hide Unclaimed, Step, Polled, InTurn;
    RestoresRows(w1, p, snapshot, held, order, broken);
    RunSplit(w, read, RestoreSteps(p, order, broken));
  }

  const NEW_WORLD := World(map[], map[], 0)

  /** In every reachable state no job is in the memory of two live processes. */
  lemma LeaseExclusion(es: seq<Event>, p: nat, q: nat, id: string)
    requires Fair(NEW_WORLD, es)
    requires var w := RunAll(NEW_WORLD, es); Live(w, p) && Live(w, q) && id in w.procs[p].held && id in w.procs[q].held
    ensures p == q
  {
    RunKeeps(NEW_WORLD, es);
    HolderIsUnique(RunAll(NEW_WORLD, es), p, q, id);
  }

  /** In every reachable state an unfinished job is held by its live owner, or can be claimed by anyone now
      or, if its owner is gone, once LEASE_MS have passed. */
  lemma NothingStranded(es: seq<Event>, id: string, p: nat, later: int)
    requires Fair(NEW_WORLD, es)
    requires var w := RunAll(NEW_WORLD, es); id in w.rows && Active(w.rows[id].status) && later > w.now + LEASE_MS
    ensures var w := RunAll(NEW_WORLD, es);
            || (w.rows[id].owner.Some? && Live(w, w.rows[id].owner.value) && Holds(w, w.rows[id].owner.value, id))
            || MayClaim(w.rows[id], p, later)
  {
    RunKeeps(NEW_WORLD, es);
    assert RowOk(RunAll(NEW_WORLD, es), id);
  }

  /** Whatever a live process holds is unfinished. */
  lemma HeldIsActive(w: World, p: nat, id: string)
    requires Inv(w) && id in w.rows
    ensures Live(w, p) && Holds(w, p, id) ==> Active(w.rows[id].status)
  {
    if Live(w, p) && Holds(w, p, id) {
      assert ProcessOk(w, p);
      assert Leased(w, p, id);
    }
  }

  lemma SuccessStep(w: World, e: Event, id: string)
    requires Inv(w) && id in w.rows && w.rows[id].status.Success?
    ensures var w' := Step(w, e); id in w'.rows && w'.rows[id].status.Success?
  {
    forall p ensures Live(w, p) && Holds(w, p, id) ==> Active(w.rows[id].status) {
      HeldIsActive(w, p, id);
    }
  }

  /** A row that has reached success keeps it through any run: the mail is never sent again. */
  lemma {:induction false} SuccessForever(w: World, es: seq<Event>, id: string)
    requires Inv(w) && Fair(w, es) && id in w.rows && w.rows[id].status.Success?
    ensures var w' := RunAll(w, es); id in w'.rows && w'.rows[id].status.Success?
    decreases |es|
  {
    hide Inv, Step, Polled, InTurn;
    if es != [] {
      StepKeeps(w, es[0]);
      SuccessStep(w, es[0], id);
      SuccessForever(Step(w, es[0]), es[1..], id);
    }
  }

  /** Polling in time is needed, in every state: once the lease of a job a live process holds has run out,
      another process that starts, reads, claims and restores has the job in its memory as well. */
  lemma OverdueJobIsShared(w: World, p: nat, q: nat, id: string, to: int)
    requires Inv(w) && Live(w, p) && id in w.procs[p].held && q !in w.procs
    requires id in w.rows && w.rows[id].leaseUntil.Some? && w.rows[id].leaseUntil.value < to && w.now <= to
    ensures var w' := RunAll(w, [Clock(to), Start(q), ReadRows(q), ClaimRow(q, id), RestoreRow(q, true)]);
            Live(w', p) && Live(w', q) && id in w'.procs[p].held && id in w'.procs[q].held
  {
    assert Leased(w, p, id) by { assert ProcessOk(w, p) && Holds(w, p, id); }
    NewcomerReads(w, p, q, id, to);
    var w3 := Step(Step(Step(w, Clock(to)), Start(q)), ReadRows(q));
    hide RunAll, Inv;
    assert Step(w3, ClaimRow(q, id)).procs[q].claimed == Some(id);
    RunFive(w, Clock(to), Start(q), ReadRows(q), ClaimRow(q, id), RestoreRow(q, true));
  }

  lemma NewcomerReads(w: World, p: nat, q: nat, id: string, to: int)
    requires Live(w, p) && q !in w.procs && id in w.rows && Active(w.rows[id].status)
    requires w.rows[id].leaseUntil.Some? && w.rows[id].leaseUntil.value < to && w.now <= to
    ensures var w3 := Step(Step(Step(w, Clock(to)), Start(q)), ReadRows(q));
            && Live(w3, p) && w3.procs[p] == w.procs[p] && id in w3.rows && w3.rows[id] == w.rows[id]
            && Live(w3, q) && w3.now == to && id in w3.procs[q].snapshot && w3.procs[q].snapshot[id] == w.rows[id]
            && w3.procs[q].held == {} && w3.procs[q].claimed == None
  {
  }

  lemma RunFive(w: World, a: Event, b: Event, c: Event, d: Event, e: Event)
    ensures RunAll(w, [a, b, c, d, e]) == Step(Step(Step(Step(Step(w, a), b), c), d), e)
  {
    hide Step;
    RunOne(w, [a, b, c, d, e]);
    RunOne(Step(w, a), [b, c, d, e]);
    RunOne(Step(Step(w, a), b), [c, d, e]);
    RunOne(Step(Step(Step(w, a), b), c), [d, e]);
    RunOne(Step(Step(Step(Step(w, a), b), c), d), [e]);
    assert [a, b, c, d, e][1..] == [b, c, d, e] && [b, c, d, e][1..] == [c, d, e];
    assert [c, d, e][1..] == [d, e] && [d, e][1..] == [e] && [e][1..] == [];
  }

  lemma RunOne(w: World, es: seq<Event>)
    requires es != []
    ensures RunAll(w, es) == RunAll(Step(w, es[0]), es[1..])
  {
    hide Step;
  }

  // ---- What becomes of a row ---------------------------------------------------------

  /** The process restores the row it has claimed. */
  predicate Restores(w: World, e: Event, id: string) {
    e.RestoreRow? && Live(w, e.p) && w.procs[e.p].claimed == Some(id) && id in w.procs[e.p].snapshot
  }

  /** The process closes the queue while the row is its own. */
  predicate LetGo(w: World, e: Event, id: string)
    requires id in w.rows
  {
    e.Shutdown? && Live(w, e.p) && w.rows[id].owner == Some(e.p)
  }

  predicate Moved(w: World, e: Event, id: string) {
    e.JobMoves? && e.id == id && Live(w, e.p) && id in w.procs[e.p].held
  }

  predicate Revived(w: World, e: Event, id: string)
    requires id in w.rows
  {
    e == Requeue(id) && w.rows[id].status == Dead
  }

  /** An attempt that was under way is lost, and nothing else. */
  predicate AfterRestart(before: Status, after: Status) {
    match before
    case Running => after == Pending
    case Pending => after == Pending
    case Scheduled => after == Scheduled
    case _ => after == before
  }

  /** The status and the attempts of a row change only when its job moves, when it is restored or let go, and
      when it is requeued: a scheduled job stays scheduled through a restart, an attempt under way makes a
      pending one, and attempts are kept. */
  lemma RowMoves(w: World, e: Event, id: string)
    requires id in w.rows
    ensures var w' := Step(w, e);
            && (id in w'.rows <==> !(e == ClearDlq && w.rows[id].status == Dead))
            && (id in w'.rows ==>
                  var r, r' := w.rows[id], w'.rows[id];
                  if Moved(w, e, id) then r'.status == e.status && r'.attempts == e.attempts
                  else if Restores(w, e, id) then
                    if e.readable then
                      var read := w.procs[e.p].snapshot[id];
                      AfterRestart(read.status, r'.status) && r'.attempts == read.attempts
                    else r'.status == Dead && r'.attempts == r.attempts
                  else if LetGo(w, e, id) then AfterRestart(r.status, r'.status) && r'.attempts == r.attempts
                  else if Revived(w, e, id) then r'.status == Pending && r'.attempts == 0
                  else r'.status == r.status && r'.attempts == r.attempts)
  {
  }

  /** A row appears only when a job is enqueued. */
  lemma RowAppears(w: World, e: Event, id: string)
    requires id !in w.rows
    ensures var w' := Step(w, e);
            && (id in w'.rows <==> e.Enqueue? && e.id == id && Live(w, e.p))
            && (id in w'.rows ==>
                  w'.rows[id] == Row(if e.delayed then Scheduled else Pending, 0, Some(e.p), Some(w.now + 30_000)))
  {
  }

  /** What an undisturbed restoreJobs leaves of a row it read. */
  predicate RowRestart(r: Row, r': Row, broken: bool, p: nat, now: int) {
    && r'.attempts == r.attempts
    && if broken then r'.status == Dead && r'.owner == None
       else AfterRestart(r.status, r'.status) && r'.owner == Some(p) && r'.leaseUntil == Some(now + 30_000)
  }

  lemma OneRestart(rows: Rows, held: map<string, nat>, snapshot: Rows, id: string, broken: set<string>, p: nat, now: int)
    requires id in snapshot && id in rows && rows[id] == snapshot[id] && MayClaim(rows[id], p, now) && id !in held
    ensures var r := Restored(rows, held, snapshot, [id], broken, p, now);
            && r.0.Keys == rows.Keys && RowRestart(snapshot[id], r.0[id], id in broken, p, now)
            && (forall k :: k in rows && k != id ==> r.0[k] == rows[k])
            && r.1 == if id in broken then held else held[id := snapshot[id].attempts]
  {
    assert [id][1..] == [];
  }

  /** restoreJobs when no other process comes in between: each row it read is restored with its attempts, all
      others stay as they are, and the process holds what was readable. */
  lemma {:induction false} RestoredExact(
    rows: Rows, held: map<string, nat>, snapshot: Rows, order: seq<string>, broken: set<string>, p: nat, now: int)
    requires forall i, j :: 0 <= i < j < |order| ==> order[i] != order[j]
    requires forall i :: 0 <= i < |order| ==>
               && order[i] in snapshot && order[i] in rows && rows[order[i]] == snapshot[order[i]]
               && MayClaim(rows[order[i]], p, now) && order[i] !in held
    ensures var r := Restored(rows, held, snapshot, order, broken, p, now);
            && r.0.Keys == rows.Keys
            && (forall id :: id in rows ==>
                  if id in order then id in snapshot && RowRestart(snapshot[id], r.0[id], id in broken, p, now)
                  else r.0[id] == rows[id])
            && r.1.Keys == held.Keys + (set id | id in order && id !in broken)
    decreases |order|
  {
    hide RowRestart, MayClaim;
    if order != [] {
      var id, rest := order[0], order[1..];
      assert order == [id] + rest;
      OneRestart(rows, held, snapshot, id, broken, p, now);
      RestoredCons(rows, held, snapshot, order, broken, p, now);
      var r := Restored(rows, held, snapshot, [id], broken, p, now);
      hide Restored;
      forall i | 0 <= i < |rest|
        ensures rest[i] in snapshot && rest[i] in r.0 && r.0[rest[i]] == snapshot[rest[i]] && MayClaim(r.0[rest[i]], p, now)
        ensures rest[i] !in r.1 && rest[i] != id
      {
        assert rest[i] == order[i + 1];
      }
      RestoredExact(r.0, r.1, snapshot, rest, broken, p, now);
      assert id !in rest;
    }
  }

  // ---- Recovery ----------------------------------------------------------------------

  /** An unfinished row is held by a live process, or its lease ends by `limit`. */
  ghost predicate Returning(w: World, id: string, limit: int) {
    id in w.rows && Active(w.rows[id].status) ==>
      || w.rows[id].owner.None? || Live(w, w.rows[id].owner.value)
      || w.rows[id].leaseUntil.None? || w.rows[id].leaseUntil.value <= limit
  }

  lemma ReturningStep(w: World, e: Event, id: string, limit: int)
    requires Inv(w) && !e.Crash? && Returning(w, id, limit)
    ensures Returning(Step(w, e), id, limit)
  {
    hide ProcessOk;
    if id in w.rows { assert RowOk(w, id); }
  }

  predicate NoCrash(es: seq<Event>) { forall i :: 0 <= i < |es| ==> !es[i].Crash? }

  lemma {:induction false} ReturningRun(w: World, es: seq<Event>, id: string, limit: int)
    requires Inv(w) && Fair(w, es) && NoCrash(es) && Returning(w, id, limit)
    ensures Inv(RunAll(w, es)) && Returning(RunAll(w, es), id, limit)
    decreases |es|
  {
    hide Inv, Step, Polled, InTurn, Returning;
    if es != [] {
      StepKeeps(w, es[0]);
      ReturningStep(w, es[0], id, limit);
      ReturningRun(Step(w, es[0]), es[1..], id, limit);
    }
  }

  /** In every run: when no process has crashed for more than LEASE_MS, every unfinished job is held by a live
      process or can be claimed by any, whatever crashed before. */
  lemma Recovered(before: seq<Event>, es: seq<Event>, id: string, p: nat)
    requires Fair(NEW_WORLD, before) && Fair(RunAll(NEW_WORLD, before), es) && NoCrash(es)
    requires RunAll(RunAll(NEW_WORLD, before), es).now > RunAll(NEW_WORLD, before).now + 30_000
    ensures var w := RunAll(RunAll(NEW_WORLD, before), es);
            id in w.rows && Active(w.rows[id].status) ==>
              || (w.rows[id].owner.Some? && Live(w, w.rows[id].owner.value) && Holds(w, w.rows[id].owner.value, id))
              || MayClaim(w.rows[id], p, w.now)
  {
    hide RunAll, ProcessOk, Fair;
    var w0 := RunAll(NEW_WORLD, before);
    RunKeeps(NEW_WORLD, before);
    if id in w0.rows { assert RowOk(w0, id); }
    ReturningRun(w0, es, id, w0.now + LEASE_MS);
    var w := RunAll(w0, es);
    if id in w.rows { assert RowOk(w, id); }
  }

  // ---- A stale read ------------------------------------------------------------------

  /** Restoring a row keeps its attempts exactly when it has as many as when it was read. */
  lemma AttemptsKeptExact(w: World, p: nat, id: string)
    requires Live(w, p) && w.procs[p].claimed == None && id in w.procs[p].snapshot && id !in w.procs[p].held
    requires id in w.rows && MayClaim(w.rows[id], p, w.now)
    ensures var w' := Step(Step(w, ClaimRow(p, id)), RestoreRow(p, true));
            && id in w'.rows && id in w'.procs[p].held
            && (w'.rows[id].attempts == w.rows[id].attempts <==> w.procs[p].snapshot[id].attempts == w.rows[id].attempts)
  {
  }

  function Idle(snapshot: Rows): Process { Process(true, 0, {}, snapshot, None) }

  /** A mail that nobody owns, tried so many times. */
  function Free(s: Status, attempts: nat): Rows { map["a" := Row(s, attempts, None, None)] }

  function Owned(s: Status, attempts: nat, p: nat): Rows { map["a" := Row(s, attempts, Some(p), Some(30_000))] }

  const LEFT := [Start(0), Enqueue(0, "a", false), Shutdown(0)]
  const BOTH_READ := [Start(1), ReadRows(1), Start(2), ReadRows(2)]
  const TRIED := [ClaimRow(2, "a"), RestoreRow(2, true), JobMoves(2, "a", Running, 1), JobMoves(2, "a", Scheduled, 1), Shutdown(2)]
  const TAKEN := [ClaimRow(1, "a"), RestoreRow(1, true)]

  lemma LeftFree()
    ensures RunAll(NEW_WORLD, LEFT) == World(Free(Pending, 0), map[0 := GONE], 0)
  {
    var w1 := Step(NEW_WORLD, LEFT[0]);
    var w2 := Step(w1, LEFT[1]);
    assert w1 == World(map[], map[0 := Idle(map[])], 0);
    assert w2.procs[0].held == {"a"};
    assert w2.procs == map[0 := Idle(map[]).(held := {"a"})];
    assert w2 == World(Owned(Pending, 0, 0), map[0 := Idle(map[]).(held := {"a"})], 0);
    assert Step(w2, LEFT[2]).rows == Free(Pending, 0);
    RunOne(NEW_WORLD, LEFT);
    RunOne(w1, LEFT[1..]);
    RunOne(w2, LEFT[2..]);
    assert LEFT[1..][1..] == LEFT[2..] && LEFT[2..][1..] == [];
  }

  lemma NewcomerRead(w: World, p: nat)
    requires p !in w.procs && w.now == 0 && Unclaimed(w.rows, 0) == w.rows
    ensures RunAll(w, [Start(p), ReadRows(p)]) == w.(procs := w.procs[p := Idle(w.rows)])
    ensures Fair(w, [Start(p), ReadRows(p)])
  {
    var es := [Start(p), ReadRows(p)];
    var w1 := Step(w, Start(p));
    assert w1 == w.(procs := w.procs[p := Idle(map[])]);
    assert Step(w1, ReadRows(p)) == w.(procs := w.procs[p := Idle(w.rows)]);
    hide Step;
    SingleStep(w, Start(p));
    SingleStep(w1, ReadRows(p));
    RunSplit(w, [Start(p)], [ReadRows(p)]);
    assert [Start(p)] + [ReadRows(p)] == es;
  }

  lemma BothRead()
    ensures var w := World(Free(Pending, 0), map[0 := GONE], 0);
            RunAll(w, BOTH_READ) == Trying(Free(Pending, 0), Idle(Free(Pending, 0))) && Fair(w, BOTH_READ)
  {
    var w := World(Free(Pending, 0), map[0 := GONE], 0);
    assert Unclaimed(w.rows, 0) == w.rows;
    hide RunAll, Fair, Unclaimed;
    NewcomerRead(w, 1);
    NewcomerRead(w.(procs := w.procs[1 := Idle(w.rows)]), 2);
    RunSplit(w, [Start(1), ReadRows(1)], [Start(2), ReadRows(2)]);
    assert [Start(1), ReadRows(1)] + [Start(2), ReadRows(2)] == BOTH_READ;
  }

  /** Process 2 in the course of its attempt, while 1 has not gone on. */
  function Trying(rows: Rows, second: Process): World {
    World(rows, map[0 := GONE, 1 := Idle(Free(Pending, 0)), 2 := second], 0)
  }

  function Second(held: set<string>, claimed: Option<string>): Process { Process(true, 0, held, Free(Pending, 0), claimed) }

  lemma TriedRestored()
    ensures var w := Trying(Free(Pending, 0), Idle(Free(Pending, 0)));
            Step(Step(w, TRIED[0]), TRIED[1]) == Trying(Owned(Pending, 0, 2), Second({"a"}, None))
  {
    var w0 := Trying(Free(Pending, 0), Idle(Free(Pending, 0)));
    var w1 := Step(w0, TRIED[0]);
    assert w1 == Trying(Owned(Pending, 0, 2), Second({}, Some("a")));
    var w2 := Step(w1, TRIED[1]);
    assert w2.procs[2].held == {"a"};
    assert w2.procs == Trying(Owned(Pending, 0, 2), Second({"a"}, None)).procs;
  }

  lemma TriedOnce()
    ensures var w := Trying(Owned(Pending, 0, 2), Second({"a"}, None));
            Step(Step(w, TRIED[2]), TRIED[3]) == Trying(Owned(Scheduled, 1, 2), Second({"a"}, None))
  {
    var w := Trying(Owned(Pending, 0, 2), Second({"a"}, None));
    assert Step(w, TRIED[2]) == Trying(Owned(Running, 1, 2), Second({"a"}, None));
  }

  lemma TriedLeft()
    ensures Step(Trying(Owned(Scheduled, 1, 2), Second({"a"}, None)), TRIED[4]) == Trying(Free(Scheduled, 1), GONE)
  {
    var w := Trying(Owned(Scheduled, 1, 2), Second({"a"}, None));
    assert Step(w, TRIED[4]).rows == Free(Scheduled, 1);
  }

  lemma TriedFree()
    ensures RunAll(Trying(Free(Pending, 0), Idle(Free(Pending, 0))), TRIED) == Trying(Free(Scheduled, 1), GONE)
  {
    hide Step, RunAll;
    TriedRestored();
    TriedOnce();
    TriedLeft();
    RunFive(Trying(Free(Pending, 0), Idle(Free(Pending, 0))), TRIED[0], TRIED[1], TRIED[2], TRIED[3], TRIED[4]);
    assert TRIED == [TRIED[0], TRIED[1], TRIED[2], TRIED[3], TRIED[4]];
  }

  lemma TakenStale()
    ensures RunAll(Trying(Free(Scheduled, 1), GONE), TAKEN).rows == Owned(Pending, 0, 1)
  {
    var w0 := Trying(Free(Scheduled, 1), GONE);
    var w1 := Step(w0, TAKEN[0]);
    assert w1.rows == Owned(Scheduled, 1, 1) && w1.procs[1] == Idle(Free(Pending, 0)).(claimed := Some("a"));
    assert Step(w1, TAKEN[1]).rows == Owned(Pending, 0, 1);
    RunOne(w0, TAKEN);
    RunOne(w1, TAKEN[1..]);
    assert TAKEN[1..][1..] == [];
  }

  lemma {:induction false} FairUnread(w: World, es: seq<Event>)
    requires forall i :: 0 <= i < |es| ==> !es[i].Clock? && !es[i].ReadRows?
    ensures Fair(w, es)
    decreases |es|
  {
    hide Step;
    if es != [] { FairUnread(Step(w, es[0]), es[1..]); }
  }

  /** In a run in which every lease holds, a process that read a row before another tried the job takes it in
      as it was then: the attempt is forgotten and the retry is not waited for. */
  lemma StaleReadForgets()
    ensures RunAll(NEW_WORLD, LEFT + BOTH_READ + TRIED).rows == Free(Scheduled, 1)
    ensures RunAll(NEW_WORLD, LEFT + BOTH_READ + TRIED + TAKEN).rows == Owned(Pending, 0, 1)
    ensures Fair(NEW_WORLD, LEFT + BOTH_READ + TRIED + TAKEN)
  {
    hide RunAll, Step, Fair;
    LeftFree();
    BothRead();
    TriedFree();
    TakenStale();
    RunSplit(NEW_WORLD, LEFT, BOTH_READ);
    RunSplit(NEW_WORLD, LEFT + BOTH_READ, TRIED);
    RunSplit(NEW_WORLD, LEFT + BOTH_READ + TRIED, TAKEN);
    FairUnread(NEW_WORLD, LEFT);
    FairUnread(RunAll(NEW_WORLD, LEFT + BOTH_READ), TRIED);
    FairUnread(RunAll(NEW_WORLD, LEFT + BOTH_READ + TRIED), TAKEN);
  }
}
