/** The invariant of the tables, and that every way of changing a request row keeps it. */
module Invariant {
  import opened Prelude
  import opened Access
  import opened Upstream
  import opened Store
  import opened Requests
  import opened Tables
  import opened Transactions

  // ---------- the audit trail of a request ----------

  predicate About(e: Event, id: string) {
    e.kind.RequestIs? && e.entity == id
  }

  /** The statuses the audit log reports for a request, in order. */
  function Trail(audit: seq<Event>, id: string): seq<Status> {
    if audit == [] then []
    else if About(audit[0], id) then [audit[0].kind.status] + Trail(audit[1..], id)
    else Trail(audit[1..], id)
  }

  /** A path in the lifecycle graph. */
  predicate LifePath(t: seq<Status>) {
    t != [] && forall i | 0 <= i < |t| - 1 :: Edge(t[i], t[i + 1])
  }

  lemma {:induction false} TrailConcat(a: seq<Event>, b: seq<Event>, id: string)
    ensures Trail(a + b, id) == Trail(a, id) + Trail(b, id)
  {
    if a == [] {
      assert a + b == b;
    } else {
      TrailConcat(a[1..], b, id);
      assert (a + b)[1..] == a[1..] + b;
    }
  }

  lemma TrailOne(audit: seq<Event>, e: Event, id: string)
    ensures Trail(audit + [e], id) == Trail(audit, id) + if About(e, id) then [e.kind.status] else []
  {
    TrailConcat(audit, [e], id);
    assert [e][1..] == [];
  }

  function ClosingEvents(ids: seq<string>, status: Status): seq<Event> {
    seq(|ids|, i requires 0 <= i < |ids| => RequestEvent("", "", status, ids[i]))
  }

  lemma {:induction false} ClosingTrail(ids: seq<string>, status: Status, id: string)
    requires Distinct(ids)
    ensures Trail(ClosingEvents(ids, status), id) == if id in ids then [status] else []
  {
    if ids != [] {
      var rest := ids[1..];
      ClosingTrail(rest, status, id);
      assert ClosingEvents(ids, status)[1..] == ClosingEvents(rest, status);
      assert ids == [ids[0]] + rest;
      assert forall k | 0 <= k < |rest| :: rest[k] == ids[k + 1];
    }
  }

  lemma LifePathExtend(t: seq<Status>, s: Status)
    requires LifePath(t) && Edge(t[|t| - 1], s)
    ensures LifePath(t + [s])
  {
  }

  // ---------- the invariant ----------

  predicate RowRefs(db: Db, r: Request) {
    r.device in db.devices && r.service in db.services && r.revision <= db.services[r.service].revision
    && r.permission in db.permissions
    && var p := db.permissions[r.permission];
       p.device == r.device && p.service == r.service && p.revision == r.revision
  }

  predicate AllRefs(db: Db) {
    forall id | id in db.requests :: RowRefs(db, db.requests[id])
  }

  predicate PermissionOk(db: Db, p: Permission) {
    p.device in db.devices && p.service in db.services && p.revision <= db.services[p.service].revision
    && Path(p.rule.path)
  }

  predicate AllPermissions(db: Db) {
    forall id | id in db.permissions :: PermissionOk(db, db.permissions[id])
  }

  /** An enabled service has a credential sealed for its current revision and an allow-list of request headers. */
  predicate ServiceOk(id: string, svc: Service) {
    svc.enabled ==>
      svc.credential.purpose == ServicePurpose(id, svc.revision) && AllowList(svc.requestHeaders, svc.authHeader)
  }

  predicate AllServices(db: Db) {
    forall id | id in db.services :: ServiceOk(id, db.services[id])
  }

  /** The snapshot a request was submitted with: the one its digest is of. */
  function Submitted(r: Request): Snapshot {
    r.snapshotDigest.content
  }

  predicate SnapshotFits(r: Request) {
    var s := Submitted(r);
    s.version == 1 && s.device == r.device && s.service == r.service && s.permission == r.permission
    && s.revision == r.revision && s.expires == r.expires && s.credentialRef == ServicePurpose(r.service, r.revision)
  }

  /** `finished` is set exactly when a request is terminal; until then the snapshot is kept, and a kept snapshot
      is the submitted one. */
  predicate RowOk(id: string, r: Request) {
    (r.finished.Some? <==> Terminal(r.status))
    && (!Terminal(r.status) ==> r.snapshot.Some?)
    && (r.snapshot.Some? ==> r.snapshot.value == Encrypt(RequestPurpose(id), Submitted(r)))
    && SnapshotFits(r)
  }

  predicate AllRows(db: Db) {
    forall id | id in db.requests :: RowOk(id, db.requests[id])
  }

  /** What still holds of the authority behind a live request. */
  predicate Backed(db: Db, r: Request)
    requires RowRefs(db, r)
  {
    var s, p, svc := Submitted(r), db.permissions[r.permission], db.services[r.service];
    !db.devices[r.device].revoked && !p.revoked && svc.enabled && svc.revision == r.revision
    && Match(p.rule, s.verb, s.path)
    && Target(svc.base, s.path, RawQuery(s.url)) == Some(s.url) && s.privateCidr == svc.privateCidr
    && HeadersFit(s.headers, svc.requestHeaders, svc.authHeader)
  }

  predicate AllLive(db: Db) {
    forall id | id in db.requests && Live(db.requests[id].status) ::
      RowRefs(db, db.requests[id]) && Backed(db, db.requests[id])
  }

  predicate ActiveNow(db: Db, p: Permission, now: int) {
    Active(db, p, p.device, p.service, now)
  }

  predicate Together(p: Permission, q: Permission) {
    p.device == q.device && p.service == q.service
  }

  /** Active permissions of one device and service never overlap. */
  predicate Disjoint(db: Db, now: int) {
    forall p, q | p in db.permissions && q in db.permissions && p != q
                  && Together(db.permissions[p], db.permissions[q])
                  && ActiveNow(db, db.permissions[p], now) && ActiveNow(db, db.permissions[q], now) ::
      !Overlap(db.permissions[p].rule, db.permissions[q].rule)
  }

  predicate Cleared(s: Status) {
    s in {Queued, Dispatching, Completed, Failed, OutcomeUnknown}
  }

  /** A request under an approval-required permission gets past pending only with a matching approval. */
  predicate ApprovalOk(db: Db, id: string, r: Request)
    requires r.permission in db.permissions
  {
    var mode := db.permissions[r.permission].mode;
    (r.status == PendingApproval ==> id !in db.approvals && mode == ApprovalRequired)
    && (Cleared(r.status) && mode == ApprovalRequired ==> ApprovedFor(db, id))
  }

  predicate AllApproved(db: Db) {
    (forall id | id in db.approvals :: id in db.requests)
    && forall id | id in db.requests ::
         db.requests[id].permission in db.permissions && ApprovalOk(db, id, db.requests[id])
  }

  predicate TrailOk(db: Db, id: string) {
    var t := Trail(db.audit, id);
    if id in db.requests then
      LifePath(t) && t[|t| - 1] == db.requests[id].status
      && db.requests[id].permission in db.permissions
      && t[0] == FirstStatus(db.permissions[db.requests[id].permission].mode)
    else t == []
  }

  /** Replaying the audit log gives the status column. */
  ghost predicate AllTrails(db: Db) {
    forall id :: TrailOk(db, id)
  }

  ghost predicate Capped(db: Db, now: int) {
    forall d :: |Pending(db, d, now)| <= MAX_PENDING
  }

  /** UNIQUE(device_id, key_hash). */
  predicate UniqueKeys(db: Db) {
    forall i, j | i in db.requests && j in db.requests && i != j ::
      !HasKey(db.requests[j], db.requests[i].device, db.requests[i].keyHash)
  }

  ghost predicate DbInv(db: Db, now: int) {
    AllRefs(db) && AllPermissions(db) && AllServices(db) && AllRows(db) && AllLive(db)
    && Disjoint(db, now) && AllApproved(db) && AllTrails(db) && Capped(db, now) && UniqueKeys(db)
  }

  // ---------- changing rows of the request table ----------

  /** The columns no statement ever updates. */
  predicate SameRow(r: Request, r': Request) {
    r'.(snapshot := r.snapshot, status := r.status, finished := r.finished, result := r.result, reason := r.reason) == r
  }

  /** Only request rows, approvals and the audit log differ, and no row appears, disappears or changes identity. */
  predicate RowsKept(db: Db, db': Db) {
    db'.devices == db.devices && db'.services == db.services && db'.permissions == db.permissions
    && db'.requests.Keys == db.requests.Keys
    && forall id | id in db.requests :: SameRow(db.requests[id], db'.requests[id])
  }

  /** No live request appears, and the live requests that stay are unchanged in identity. */
  predicate LiveShrinks(db: Db, db': Db)
    requires RowsKept(db, db')
  {
    forall id | id in db.requests && Live(db'.requests[id].status) :: Live(db.requests[id].status)
  }

  /** No request becomes pending. */
  predicate PendingShrinks(db: Db, db': Db)
    requires RowsKept(db, db')
  {
    forall id | id in db.requests && db'.requests[id].status == PendingApproval ::
      db.requests[id].status == PendingApproval
  }

  lemma IdentityKept(db: Db, db': Db, now: int)
    requires RowsKept(db, db')
    requires AllRefs(db) && AllPermissions(db) && AllServices(db) && UniqueKeys(db) && Disjoint(db, now)
    ensures AllRefs(db') && AllPermissions(db') && AllServices(db') && UniqueKeys(db') && Disjoint(db', now)
  {
    hide Path, Overlap;
  }

  lemma LiveKept(db: Db, db': Db)
    requires RowsKept(db, db') && AllRefs(db) && AllLive(db) && LiveShrinks(db, db')
    ensures AllLive(db')
  {
    hide Match, Target, RawQuery, HeadersFit;
  }

  lemma CapKept(db: Db, db': Db, now: int)
    requires RowsKept(db, db') && PendingShrinks(db, db') && Capped(db, now)
    ensures Capped(db', now)
  {
    forall d ensures |Pending(db', d, now)| <= MAX_PENDING {
      assert Pending(db', d, now) <= Pending(db, d, now);
      SubsetSize(Pending(db', d, now), Pending(db, d, now));
    }
  }

  lemma SubsetSize<T>(a: set<T>, b: set<T>)
    requires a <= b
    ensures |a| <= |b|
  {
    assert b == a + (b - a);
  }

  // ---------- closing ----------

  /** Each id once, each an existing row from which `status` can be reached, and `status` final. */
  predicate Closable(db: Db, ids: seq<string>, status: Status) {
    Distinct(ids) && Terminal(status)
    && forall id | id in ids :: id in db.requests && Edge(db.requests[id].status, status)
  }

  lemma CloseAllTrails(db: Db, ids: seq<string>, status: Status, reason: string, now: int)
    requires AllTrails(db) && Closable(db, ids, status)
    ensures AllTrails(CloseAll(db, ids, status, reason, now))
  {
    var db' := CloseAll(db, ids, status, reason, now);
    assert db'.audit == db.audit + ClosingEvents(ids, status);
    forall id ensures TrailOk(db', id) {
      assert TrailOk(db, id);
      TrailConcat(db.audit, ClosingEvents(ids, status), id);
      ClosingTrail(ids, status, id);
      if id in ids {
        LifePathExtend(Trail(db.audit, id), status);
      }
    }
  }

  lemma ClosedApproval(db: Db, db': Db, id: string, r: Request, r': Request)
    requires db'.permissions == db.permissions && db'.approvals == db.approvals
    requires id in db.requests && db.requests[id] == r && id in db'.requests && db'.requests[id] == r'
    requires r.permission in db.permissions && ApprovalOk(db, id, r)
    requires SameRow(r, r') && (r'.status == r.status || (Edge(r.status, r'.status) && Terminal(r'.status)))
    ensures ApprovalOk(db', id, r')
  {
  }

  lemma CloseAllApproved(db: Db, ids: seq<string>, status: Status, reason: string, now: int)
    requires AllApproved(db) && Closable(db, ids, status)
    ensures AllApproved(CloseAll(db, ids, status, reason, now))
  {
    hide ApprovalOk, Edge, Terminal;
    var db' := CloseAll(db, ids, status, reason, now);
    forall id | id in db'.requests ensures ApprovalOk(db', id, db'.requests[id]) {
      ClosedApproval(db, db', id, db.requests[id], db'.requests[id]);
    }
  }

  lemma CloseAllKeepsRows(db: Db, ids: seq<string>, status: Status, reason: string, now: int)
    requires Closable(db, ids, status)
    ensures var db' := CloseAll(db, ids, status, reason, now);
            RowsKept(db, db') && LiveShrinks(db, db') && PendingShrinks(db, db') && db'.approvals == db.approvals
  {
    hide Edge;
    var db' := CloseAll(db, ids, status, reason, now);
    forall id | id in db.requests ensures SameRow(db.requests[id], db'.requests[id]) {
    }
  }

  lemma ClosedRow(id: string, r: Request, status: Status, reason: string, now: int)
    requires RowOk(id, r) && Terminal(status)
    ensures RowOk(id, Closed(r, status, reason, now))
  {
  }

  lemma CloseAllRows(db: Db, ids: seq<string>, status: Status, reason: string, now: int)
    requires Closable(db, ids, status) && AllRows(db)
    ensures AllRows(CloseAll(db, ids, status, reason, now))
  {
    hide RowOk, Edge, Terminal, Closed;
    var db' := CloseAll(db, ids, status, reason, now);
    forall id | id in db'.requests ensures RowOk(id, db'.requests[id]) {
      assert RowOk(id, db.requests[id]);
      ClosedRow(id, db.requests[id], status, reason, now);
    }
  }

  /** Closing rows along edges of the lifecycle graph keeps the invariant. */
  lemma CloseAllKeeps(db: Db, ids: seq<string>, status: Status, reason: string, now: int)
    requires DbInv(db, now) && Closable(db, ids, status)
    ensures DbInv(CloseAll(db, ids, status, reason, now), now)
  {
    hide AllRefs, AllPermissions, AllServices, AllRows, AllLive, Disjoint, AllApproved, AllTrails, Capped, UniqueKeys;
    hide Closable, RowsKept, LiveShrinks, PendingShrinks, CloseAll;
    var db' := CloseAll(db, ids, status, reason, now);
    CloseAllKeepsRows(db, ids, status, reason, now);
    CloseAllRows(db, ids, status, reason, now);
    CloseAllTrails(db, ids, status, reason, now);
    CloseAllApproved(db, ids, status, reason, now);
    IdentityKept(db, db', now);
    LiveKept(db, db');
    CapKept(db, db', now);
  }
}
