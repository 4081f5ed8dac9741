/** How the tables may change over time, and that every transaction stays within it. */
module Evolution {
  import opened Prelude
  import opened Access
  import opened Tables
  import opened Transactions
  import opened Invariant
  import opened Preservation

  /** Devices stay and stay revoked. */
  predicate LaterDevices(db: Db, db': Db) {
    forall d | d in db.devices :: d in db'.devices && (db.devices[d].revoked ==> db'.devices[d].revoked)
  }

  /** Services stay, revisions never fall, and a service changes only together with its revision. */
  predicate LaterServices(db: Db, db': Db) {
    forall s | s in db.services ::
      s in db'.services && db.services[s].revision <= db'.services[s].revision
      && (db.services[s].revision == db'.services[s].revision ==> db'.services[s] == db.services[s])
  }

  /** Permissions stay, unchanged but for being revoked. */
  predicate LaterPermissions(db: Db, db': Db) {
    forall p | p in db.permissions ::
      p in db'.permissions && db'.permissions[p].(revoked := db.permissions[p].revoked) == db.permissions[p]
      && (db.permissions[p].revoked ==> db'.permissions[p].revoked)
  }

  /** A concluded row by time `now`: as it was concluded, or without the two purged columns once a day has passed. */
  predicate Settled(r: Request, r': Request, now: int) {
    r' == r || (r' == r.(snapshot := None, result := None) && r.finished.Some? && r.finished.value < now - DAY)
  }

  /** A row keeps its identity; its status stays or falls in rank; its snapshot stays or, once terminal, is purged;
      and once terminal the whole row is settled. */
  predicate LaterRow(r: Request, r': Request, now: int) {
    SameRow(r, r')
    && (r'.status == r.status || Rank(r'.status) < Rank(r.status))
    && (r'.snapshot == r.snapshot || (r'.snapshot == None && Terminal(r'.status)))
    && (Terminal(r.status) ==> Settled(r, r', now))
  }

  predicate LaterRequests(db: Db, db': Db, now: int) {
    forall id | id in db.requests :: id in db'.requests && LaterRow(db.requests[id], db'.requests[id], now)
  }

  predicate LaterApprovals(db: Db, db': Db) {
    forall id | id in db.approvals :: id in db'.approvals && db'.approvals[id] == db.approvals[id]
  }

  predicate Allowed(db: Db, device: string) {
    device in db.devices ==> !db.devices[device].revoked
  }

  /** A direct call is under a standing permission of its device. */
  predicate UnderStanding(db: Db, e: Event) {
    e.entity in db.permissions && db.permissions[e.entity].mode == Standing
    && db.permissions[e.entity].device == e.device
  }

  /** New requests and new direct calls come from devices that were not revoked, the calls under their standing
      permissions. */
  predicate FreshActivity(db: Db, db': Db) {
    (forall id | id in db'.requests && id !in db.requests :: Allowed(db, db'.requests[id].device))
    && db.audit <= db'.audit
    && forall k | |db.audit| <= k < |db'.audit| && db'.audit[k].kind == HttpClaim ::
         Allowed(db, db'.audit[k].device) && UnderStanding(db', db'.audit[k])
  }

  /** Lawful evolution of the tables up to time `now`. */
  predicate Later(db: Db, db': Db, now: int) {
    LaterDevices(db, db') && LaterServices(db, db') && LaterPermissions(db, db') && LaterRequests(db, db', now)
    && LaterApprovals(db, db') && FreshActivity(db, db')
  }

  /** The statuses of a request some worker has claimed and may have sent. */
  predicate Started(s: Status) {
    s in {Dispatching, Completed, OutcomeUnknown}
  }

  /** Requests that are no longer waiting are left alone, and no request gets started. */
  predicate Quiet(db: Db, db': Db) {
    (forall id | id in db.requests && id in db'.requests && !Live(db.requests[id].status) ::
       db'.requests[id].status == db.requests[id].status)
    && forall id | id in db'.requests && Started(db'.requests[id].status) ::
         id in db.requests && db.requests[id].status == db'.requests[id].status
  }

  lemma LaterRefl(db: Db, now: int)
    ensures Later(db, db, now) && Quiet(db, db)
  {
  }

  lemma FreshTransitive(a: Db, b: Db, c: Db, now: int)
    requires LaterDevices(a, b) && LaterRequests(b, c, now) && LaterPermissions(b, c)
    requires FreshActivity(a, b) && FreshActivity(b, c)
    ensures FreshActivity(a, c)
  {
    hide Settled;
    forall k | |a.audit| <= k < |c.audit| && c.audit[k].kind == HttpClaim
      ensures Allowed(a, c.audit[k].device) && UnderStanding(c, c.audit[k])
    {
      if k < |b.audit| { assert b.audit[k] == c.audit[k]; }
    }
    forall id | id in c.requests && id !in a.requests ensures Allowed(a, c.requests[id].device) {
      if id in b.requests { assert LaterRow(b.requests[id], c.requests[id], now); }
    }
  }

  lemma RowTransitive(x: Request, y: Request, z: Request, now: int, later: int)
    requires LaterRow(x, y, now) && LaterRow(y, z, later) && now <= later
    ensures LaterRow(x, z, later)
  {
    assert Terminal(y.status) ==> Rank(y.status) == 0;
    assert Rank(z.status) == 0 ==> Terminal(z.status);
  }

  lemma RequestsTransitive(a: Db, b: Db, c: Db, now: int, later: int)
    requires LaterRequests(a, b, now) && LaterRequests(b, c, later) && now <= later
    ensures LaterRequests(a, c, later)
  {
    hide LaterRow;
    forall id | id in a.requests ensures id in c.requests && LaterRow(a.requests[id], c.requests[id], later) {
      RowTransitive(a.requests[id], b.requests[id], c.requests[id], now, later);
    }
  }

  /** The relation is transitive, so it describes whole runs. */
  lemma LaterTransitive(a: Db, b: Db, c: Db, now: int, later: int)
    requires Later(a, b, now) && Later(b, c, later) && now <= later
    ensures Later(a, c, later)
  {
    hide FreshActivity, LaterRequests;
    FreshTransitive(a, b, c, later);
    RequestsTransitive(a, b, c, now, later);
  }

  // ---------- row changes ----------

  /** Nothing but request rows changed. */
  predicate RowsOnly(db: Db, db': Db) {
    db'.devices == db.devices && db'.services == db.services && db'.permissions == db.permissions
    && db'.requests.Keys == db.requests.Keys && db'.approvals == db.approvals
  }

  predicate NoCalls(events: seq<Event>) {
    forall k | 0 <= k < |events| :: events[k].kind != HttpClaim
  }

  lemma RowsOnlyLater(db: Db, db': Db, events: seq<Event>, now: int)
    requires RowsOnly(db, db') && db'.audit == db.audit + events && NoCalls(events)
    requires LaterRequests(db, db', now)
    ensures Later(db, db', now)
  {
    forall k | |db.audit| <= k < |db'.audit| ensures db'.audit[k].kind != HttpClaim {
      assert db'.audit[k] == events[k - |db.audit|];
    }
  }

  lemma EdgeFalls(s: Status, t: Status)
    requires Edge(s, t)
    ensures Rank(t) < Rank(s)
  {
  }

  lemma CloseAllLater(db: Db, ids: seq<string>, status: Status, reason: string, now: int)
    requires Closable(db, ids, status)
    ensures Later(db, CloseAll(db, ids, status, reason, now), now)
    ensures (forall id | id in ids :: Live(db.requests[id].status)) && !Started(status) ==>
              Quiet(db, CloseAll(db, ids, status, reason, now))
  {
    hide Edge;
    var db' := CloseAll(db, ids, status, reason, now);
    forall id | id in db.requests ensures LaterRow(db.requests[id], db'.requests[id], now) {
      if id in ids { EdgeFalls(db.requests[id].status, status); }
    }
    RowsOnlyLater(db, db', ClosingEvents(ids, status), now);
  }

  lemma FinishLater(db: Db, id: string, status: Status, reason: string, result: Option<Response>, now: int)
    requires id in db.requests && Edge(db.requests[id].status, status)
    ensures Later(db, FinishTx(db, id, status, reason, result, now), now)
    ensures Live(db.requests[id].status) && !Started(status) ==>
              Quiet(db, FinishTx(db, id, status, reason, result, now))
  {
    hide Edge;
    var db' := FinishTx(db, id, status, reason, result, now);
    forall i | i in db.requests ensures LaterRow(db.requests[i], db'.requests[i], now) {
      if i == id { EdgeFalls(db.requests[id].status, status); }
    }
    RowsOnlyLater(db, db', [RequestEvent("", "", status, id)], now);
  }

  lemma PurgedRowLater(id: string, r: Request, now: int)
    requires RowOk(id, r)
    ensures LaterRow(r, PurgedRow(r, now), now)
  {
  }

  lemma PurgeLater(db: Db, now: int)
    requires AllRows(db)
    ensures Later(db, Purge(db, now), now) && Quiet(db, Purge(db, now))
  {
    hide LaterRow, RowOk, PurgedRow;
    var db' := Purge(db, now);
    forall i | i in db.requests ensures LaterRow(db.requests[i], db'.requests[i], now) {
      assert RowOk(i, db.requests[i]);
      PurgedRowLater(i, db.requests[i], now);
    }
    PurgedStatus(db, now);
    RowsOnlyLater(db, db', [], now);
  }

  lemma AdvanceRowsLater(db: Db, db': Db, id: string, status: Status, now: int)
    requires Advances(db, db', id, status) && Live(db.requests[id].status)
    requires db'.requests[id].snapshot == db.requests[id].snapshot
    ensures LaterRequests(db, db', now)
  {
    hide Edge;
    EdgeFalls(db.requests[id].status, status);
    forall i | i in db.requests ensures LaterRow(db.requests[i], db'.requests[i], now) {
    }
  }

  lemma AdvanceLater(db: Db, db': Db, id: string, status: Status, now: int)
    requires Advances(db, db', id, status) && Live(db.requests[id].status)
    requires db'.requests[id].snapshot == db.requests[id].snapshot
    ensures Later(db, db', now)
    ensures !Started(status) ==> Quiet(db, db')
  {
    hide Edge, LaterRequests;
    AdvanceRowsLater(db, db', id, status, now);
    forall k | |db.audit| <= k < |db'.audit| ensures db'.audit[k].kind != HttpClaim {
      assert k == |db.audit|;
    }
  }

  // ---------- other changes ----------

  lemma AuditedLater(db: Db, owner: string, device: string, kind: Kind, entity: string, now: int)
    requires kind == HttpClaim ==> Allowed(db, device) && UnderStanding(db, Event(owner, device, kind, entity))
    ensures Later(db, Audited(db, owner, device, kind, entity), now)
    ensures Quiet(db, Audited(db, owner, device, kind, entity))
  {
  }

  /** Devices, services and permissions evolved; requests, approvals and audit log did not change. */
  lemma AuthorityLater(db: Db, db': Db, now: int)
    requires LaterDevices(db, db') && LaterServices(db, db') && LaterPermissions(db, db')
    requires db'.requests == db.requests && db'.approvals == db.approvals && db'.audit == db.audit
    ensures Later(db, db', now) && Quiet(db, db')
  {
    hide LaterDevices, LaterServices, LaterPermissions;
  }

  lemma InsertLater(db: Db, id: string, r: Request, now: int)
    requires id !in db.requests && Allowed(db, r.device) && !Started(r.status)
    ensures Later(db, InsertRequest(db, id, r), now) && Quiet(db, InsertRequest(db, id, r))
  {
    var db' := InsertRequest(db, id, r);
    forall i | i in db.requests ensures i in db'.requests && LaterRow(db.requests[i], db'.requests[i], now) {
    }
  }
}
