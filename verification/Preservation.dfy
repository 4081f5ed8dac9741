/** Every transaction keeps the invariant of the tables. */
module Preservation {
  import opened Prelude
  import opened Store
  import opened Requests
  import opened Tables
  import opened Transactions
  import opened Invariant

  lemma InvParts(db: Db, now: int)
    requires DbInv(db, now)
    ensures AllRows(db) && AllPermissions(db) && AllRefs(db) && AllApproved(db) && AllServices(db)
  {
    hide AllRefs, AllPermissions, AllServices, AllRows, AllLive, Disjoint, AllApproved, AllTrails, Capped, UniqueKeys;
  }

  lemma LiveBacked(db: Db, id: string, now: int)
    requires DbInv(db, now) && id in db.requests && Live(db.requests[id].status)
    ensures RowRefs(db, db.requests[id]) && Backed(db, db.requests[id])
  {
    hide AllRefs, AllPermissions, AllServices, AllRows, Disjoint, AllApproved, AllTrails, Capped, UniqueKeys;
    hide RowRefs, Backed;
  }

  // ---------- changes that keep every status ----------

  lemma StatusKept(db: Db, db': Db)
    requires RowsKept(db, db') && db'.audit == db.audit && db'.approvals == db.approvals
    requires forall id | id in db.requests :: db'.requests[id].status == db.requests[id].status
    requires AllApproved(db) && AllTrails(db)
    ensures AllApproved(db') && AllTrails(db') && LiveShrinks(db, db') && PendingShrinks(db, db')
  {
    hide Trail, LifePath;
    forall id | id in db'.requests ensures ApprovalOk(db', id, db'.requests[id]) {
      assert ApprovalOk(db, id, db.requests[id]);
      assert ApprovedFor(db, id) ==> ApprovedFor(db', id);
    }
    forall id ensures TrailOk(db', id) {
      assert TrailOk(db, id);
    }
  }

  lemma QuietUpdateKeeps(db: Db, db': Db, now: int)
    requires DbInv(db, now) && RowsKept(db, db') && db'.audit == db.audit && db'.approvals == db.approvals
    requires forall id | id in db.requests :: db'.requests[id].status == db.requests[id].status
    requires AllRows(db')
    ensures DbInv(db', now)
  {
    hide AllRefs, AllPermissions, AllServices, AllRows, AllLive, Disjoint, AllApproved, AllTrails, Capped, UniqueKeys;
    hide RowsKept, LiveShrinks, PendingShrinks;
    StatusKept(db, db');
    IdentityKept(db, db', now);
    LiveKept(db, db');
    CapKept(db, db', now);
  }

  lemma PurgedRowOk(id: string, r: Request, now: int)
    requires RowOk(id, r)
    ensures RowOk(id, PurgedRow(r, now)) && SameRow(r, PurgedRow(r, now))
  {
  }

  lemma PurgedStatus(db: Db, now: int)
    ensures forall id | id in db.requests :: Purge(db, now).requests[id].status == db.requests[id].status
  {
  }

  lemma PurgeKeeps(db: Db, now: int)
    requires DbInv(db, now)
    ensures DbInv(Purge(db, now), now)
  {
    hide DbInv, RowOk, PurgedRow, AllPermissions, AllRefs, AllApproved, AllServices;
    InvParts(db, now);
    var db' := Purge(db, now);
    forall id | id in db'.requests ensures RowOk(id, db'.requests[id]) && SameRow(db.requests[id], db'.requests[id]) {
      assert RowOk(id, db.requests[id]);
      PurgedRowOk(id, db.requests[id], now);
    }
    PurgedStatus(db, now);
    QuietUpdateKeeps(db, db', now);
  }

  function WithResult(db: Db, id: string, box: Option<Sealed<Response>>): Db
    requires id in db.requests
  {
    db.(requests := db.requests[id := db.requests[id].(result := box)])
  }

  lemma ResultRow(id: string, r: Request, box: Option<Sealed<Response>>)
    requires RowOk(id, r)
    ensures RowOk(id, r.(result := box))
  {
  }

  lemma ResultKeeps(db: Db, id: string, box: Option<Sealed<Response>>, now: int)
    requires DbInv(db, now) && id in db.requests
    ensures DbInv(WithResult(db, id, box), now)
  {
    hide DbInv, RowOk, AllPermissions, AllRefs, AllApproved, AllServices;
    InvParts(db, now);
    var db' := WithResult(db, id, box);
    forall i | i in db'.requests ensures RowOk(i, db'.requests[i]) && SameRow(db.requests[i], db'.requests[i]) {
      assert RowOk(i, db.requests[i]);
      ResultRow(i, db.requests[i], box);
    }
    QuietUpdateKeeps(db, db', now);
  }

  lemma FinishIsClose(db: Db, id: string, status: Status, reason: string, result: Option<Response>, now: int)
    requires id in db.requests
    ensures exists box :: FinishTx(db, id, status, reason, result, now)
                          == WithResult(CloseAll(db, [id], status, reason, now), id, box)
  {
    var closed := CloseAll(db, [id], status, reason, now);
    var db' := FinishTx(db, id, status, reason, result, now);
    assert closed.audit == db'.audit;
    assert WithResult(closed, id, db'.requests[id].result).requests == db'.requests;
    assert db' == WithResult(closed, id, db'.requests[id].result);
  }

  lemma FinishKeeps(db: Db, id: string, status: Status, reason: string, result: Option<Response>, now: int)
    requires DbInv(db, now) && id in db.requests && Terminal(status) && Edge(db.requests[id].status, status)
    ensures DbInv(FinishTx(db, id, status, reason, result, now), now)
  {
    hide DbInv, FinishTx;
    FinishIsClose(db, id, status, reason, result, now);
    var closed := CloseAll(db, [id], status, reason, now);
    var box :| FinishTx(db, id, status, reason, result, now) == WithResult(closed, id, box);
    CloseAllKeeps(db, [id], status, reason, now);
    ResultKeeps(closed, id, box, now);
  }

  // ---------- moving one request forward ----------

  /** Request `id` took one edge of the lifecycle graph and the audit log says so; nothing else changed except
      that `id` may have received its approval record. */
  predicate Advances(db: Db, db': Db, id: string, status: Status) {
    RowsKept(db, db') && id in db.requests && Edge(db.requests[id].status, status)
    && db'.requests[id].status == status
    && (forall i | i in db.requests && i != id :: db'.requests[i] == db.requests[i])
    && |db'.audit| == |db.audit| + 1 && db.audit <= db'.audit
    && db'.audit[|db.audit|].kind == RequestIs(status) && db'.audit[|db.audit|].entity == id
    && (forall a | a in db.approvals :: a in db'.approvals && db'.approvals[a] == db.approvals[a])
    && (forall a | a in db'.approvals :: a in db.approvals || a == id)
  }

  lemma AdvanceTrails(db: Db, db': Db, id: string, status: Status)
    requires Advances(db, db', id, status) && AllTrails(db)
    ensures AllTrails(db')
  {
    hide Edge;
    var e := db'.audit[|db.audit|];
    assert db'.audit == db.audit + [e];
    forall i ensures TrailOk(db', i) {
      assert TrailOk(db, i);
      TrailOne(db.audit, e, i);
      if i == id { LifePathExtend(Trail(db.audit, id), status); }
    }
  }

  lemma AdvanceApproved(db: Db, db': Db, id: string, status: Status)
    requires Advances(db, db', id, status) && AllApproved(db)
    requires db'.requests[id].permission in db'.permissions && ApprovalOk(db', id, db'.requests[id])
    ensures AllApproved(db')
  {
    hide Edge;
    forall i | i in db'.requests
      ensures db'.requests[i].permission in db'.permissions && ApprovalOk(db', i, db'.requests[i])
    {
      assert ApprovalOk(db, i, db.requests[i]);
    }
  }

  lemma AdvanceRows(db: Db, db': Db, id: string, status: Status)
    requires Advances(db, db', id, status) && AllRows(db) && RowOk(id, db'.requests[id])
    ensures AllRows(db') && LiveShrinks(db, db') && PendingShrinks(db, db')
  {
    hide RowOk;
    forall i | i in db'.requests ensures RowOk(i, db'.requests[i]) {
      assert RowOk(i, db.requests[i]);
    }
  }

  lemma AdvanceKeeps(db: Db, db': Db, id: string, status: Status, now: int)
    requires DbInv(db, now) && Advances(db, db', id, status)
    requires RowOk(id, db'.requests[id])
    requires db'.requests[id].permission in db'.permissions && ApprovalOk(db', id, db'.requests[id])
    ensures DbInv(db', now)
  {
    hide AllRefs, AllPermissions, AllServices, AllRows, AllLive, Disjoint, AllApproved, AllTrails, Capped, UniqueKeys;
    hide LiveShrinks, PendingShrinks, RowOk, ApprovalOk, RowsKept, Edge;
    AdvanceTrails(db, db', id, status);
    AdvanceApproved(db, db', id, status);
    AdvanceRows(db, db', id, status);
    IdentityKept(db, db', now);
    LiveKept(db, db');
    CapKept(db, db', now);
  }

  lemma ReadSnapshotIsSubmitted(db: Db, id: string)
    requires AllRows(db) && id in db.requests
    ensures ReadSnapshot(db, id) == if db.requests[id].snapshot.Some? then Some(Submitted(db.requests[id])) else None
  {
    assert RowOk(id, db.requests[id]);
  }

  function Decided(db: Db, owner: string, id: string, decision: string, now: int): Db
    requires id in db.requests
  {
    var r := db.requests[id];
    var next := if decision == "deny" then Denied else Queued;
    db.(
      approvals := db.approvals[id := Approval(owner, r.snapshotDigest, decision)],
      requests := db.requests[id := r.(status := next, finished := if decision == "deny" then Some(now) else None)],
      audit := db.audit + [RequestEvent(owner, r.device, next, id)])
  }

  /** What a successful decision requires and does. */
  lemma DecideShape(db: Db, db': Db, owner: string, id: string, digest: Digest<Snapshot>, decision: string,
                    rows: seq<string>, now: int)
    requires AllRows(db) && Decide(db, owner, id, digest, decision, rows, now) == Some(db')
    ensures id in db.requests && db.requests[id].status == PendingApproval && id !in db.approvals
    ensures digest == db.requests[id].snapshotDigest && decision in {"approve", "deny"}
    ensures db' == Decided(db, owner, id, decision, now)
  {
    hide ValidSnapshot, ReadSnapshot;
    ReadSnapshotIsSubmitted(db, id);
    assert RowOk(id, db.requests[id]);
  }

  lemma DecideKeeps(db: Db, owner: string, id: string, decision: string, now: int)
    requires DbInv(db, now) && id in db.requests && db.requests[id].status == PendingApproval && id !in db.approvals
    requires decision in {"approve", "deny"}
    ensures DbInv(Decided(db, owner, id, decision, now), now)
    ensures Advances(db, Decided(db, owner, id, decision, now), id, if decision == "deny" then Denied else Queued)
  {
    hide DbInv, Advances, RowOk, ApprovalOk;
    DecideAdvances(db, owner, id, decision, now);
    DecideRow(db, owner, id, decision, now);
    AdvanceKeeps(db, Decided(db, owner, id, decision, now), id, if decision == "deny" then Denied else Queued, now);
  }

  lemma DecideAdvances(db: Db, owner: string, id: string, decision: string, now: int)
    requires id in db.requests && db.requests[id].status == PendingApproval && id !in db.approvals
    ensures Advances(db, Decided(db, owner, id, decision, now), id, if decision == "deny" then Denied else Queued)
  {
  }

  lemma DecideRow(db: Db, owner: string, id: string, decision: string, now: int)
    requires DbInv(db, now) && id in db.requests && db.requests[id].status == PendingApproval && id !in db.approvals
    requires decision in {"approve", "deny"}
    ensures var db' := Decided(db, owner, id, decision, now);
            RowOk(id, db'.requests[id]) && db'.requests[id].permission in db'.permissions
            && ApprovalOk(db', id, db'.requests[id])
  {
    hide AllRefs, AllPermissions, AllServices, AllLive, Disjoint, AllTrails, Capped, UniqueKeys;
    assert RowOk(id, db.requests[id]) && ApprovalOk(db, id, db.requests[id]);
  }

  function Dispatched(db: Db, id: string): Db
    requires id in db.requests
  {
    var r := db.requests[id];
    db.(requests := db.requests[id := r.(status := Dispatching)],
        audit := db.audit + [RequestEvent("", r.device, Dispatching, id)])
  }

  /** A claim changes nothing, closes the queued request, or moves it to dispatching with the submitted snapshot. */
  lemma ClaimShape(db: Db, id: string, rows: seq<string>, now: int)
    requires AllRows(db)
    ensures match Claim(db, id, rows, now)
            case Skipped => true
            case Stopped(db') =>
              id in db.requests && db.requests[id].status == Queued
              && (db' == FinishTx(db, id, Failed, "snapshot_integrity_failed", None, now)
                  || db' == FinishTx(db, id, Cancelled, "authorization_changed_or_expired", None, now)
                  || db' == FinishTx(db, id, Failed, "approval_digest_mismatch", None, now))
            case Won(db', snap, svc) =>
              id in db.requests && db.requests[id].status == Queued && db' == Dispatched(db, id)
              && snap == Submitted(db.requests[id]) && ReadSnapshot(db, id) == Some(snap)
              && ValidSnapshot(db, snap, rows, now) == Some(svc)
  {
    hide ValidSnapshot, ReadSnapshot, FinishTx;
    if id in db.requests {
      ReadSnapshotIsSubmitted(db, id);
      assert RowOk(id, db.requests[id]);
    }
  }

  lemma DispatchAdvances(db: Db, id: string)
    requires id in db.requests && db.requests[id].status == Queued
    ensures Advances(db, Dispatched(db, id), id, Dispatching)
  {
  }

  lemma DispatchRow(db: Db, id: string)
    requires AllRows(db) && AllApproved(db) && id in db.requests && db.requests[id].status == Queued
    ensures var db' := Dispatched(db, id);
            RowOk(id, db'.requests[id]) && db'.requests[id].permission in db'.permissions
            && ApprovalOk(db', id, db'.requests[id])
  {
    assert RowOk(id, db.requests[id]) && ApprovalOk(db, id, db.requests[id]);
  }

  lemma DispatchKeeps(db: Db, id: string, now: int)
    requires DbInv(db, now) && id in db.requests && db.requests[id].status == Queued
    ensures DbInv(Dispatched(db, id), now) && Advances(db, Dispatched(db, id), id, Dispatching)
  {
    hide DbInv, AllRows, AllApproved, Advances, RowOk, ApprovalOk;
    InvParts(db, now);
    DispatchAdvances(db, id);
    DispatchRow(db, id);
    AdvanceKeeps(db, Dispatched(db, id), id, Dispatching, now);
  }
}
