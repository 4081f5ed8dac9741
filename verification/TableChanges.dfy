/** New requests, the passage of time and the owner's changes keep the invariant of the tables. */
module TableChanges {
  import opened Access
  import opened Upstream
  import opened Tables
  import opened Transactions
  import opened Invariant

  // ---------- a new request ----------

  predicate Admissible(db: Db, id: string, r: Request, now: int) {
    id !in db.requests && RowRefs(db, r) && RowOk(id, r) && Backed(db, r)
    && r.status == FirstStatus(db.permissions[r.permission].mode)
    && (forall i | i in db.requests :: !HasKey(db.requests[i], r.device, r.keyHash))
    && (r.status == PendingApproval ==> |Pending(db, r.device, now)| < MAX_PENDING)
  }

  lemma InsertCapped(db: Db, id: string, r: Request, now: int)
    requires Capped(db, now) && id !in db.requests
    requires r.status == PendingApproval ==> |Pending(db, r.device, now)| < MAX_PENDING
    ensures Capped(InsertRequest(db, id, r), now)
  {
    var db' := InsertRequest(db, id, r);
    forall d ensures |Pending(db', d, now)| <= MAX_PENDING {
      if Awaiting(r, d, now) {
        assert Pending(db', d, now) == Pending(db, d, now) + {id};
      } else {
        assert Pending(db', d, now) == Pending(db, d, now);
      }
    }
  }

  lemma InsertTrails(db: Db, id: string, r: Request)
    requires AllTrails(db) && id !in db.requests && r.permission in db.permissions
    requires r.status == FirstStatus(db.permissions[r.permission].mode)
    ensures AllTrails(InsertRequest(db, id, r))
  {
    var db' := InsertRequest(db, id, r);
    forall i ensures TrailOk(db', i) {
      assert TrailOk(db, i);
      TrailOne(db.audit, RequestEvent("", r.device, r.status, id), i);
    }
  }

  lemma InsertRows(db: Db, id: string, r: Request, now: int)
    requires Admissible(db, id, r, now) && AllRefs(db) && AllRows(db) && AllLive(db) && UniqueKeys(db)
    ensures var db' := InsertRequest(db, id, r); AllRefs(db') && AllRows(db') && AllLive(db') && UniqueKeys(db')
  {
    hide RowOk, Match, Target, RawQuery, HeadersFit;
  }

  lemma InsertApproved(db: Db, id: string, r: Request, now: int)
    requires Admissible(db, id, r, now) && AllApproved(db)
    ensures AllApproved(InsertRequest(db, id, r))
  {
    hide RowOk, Backed;
    var db' := InsertRequest(db, id, r);
    forall i | i in db'.requests
      ensures db'.requests[i].permission in db'.permissions && ApprovalOk(db', i, db'.requests[i])
    {
      if i != id { assert ApprovalOk(db, i, db.requests[i]); }
    }
  }

  lemma InsertKeeps(db: Db, id: string, r: Request, now: int)
    requires DbInv(db, now) && Admissible(db, id, r, now)
    ensures DbInv(InsertRequest(db, id, r), now)
  {
    hide AllRefs, AllRows, AllLive, AllApproved, AllTrails, Capped, UniqueKeys, RowOk, Backed, Overlap, Path;
    InsertCapped(db, id, r, now);
    InsertTrails(db, id, r);
    InsertRows(db, id, r, now);
    InsertApproved(db, id, r, now);
  }

  // ---------- time and audit ----------

  lemma TickKeeps(db: Db, now: int, later: int)
    requires DbInv(db, now) && now <= later
    ensures DbInv(db, later)
  {
    hide AllRefs, AllPermissions, AllServices, AllRows, AllLive, AllApproved, AllTrails, UniqueKeys, Overlap;
    forall d ensures |Pending(db, d, later)| <= MAX_PENDING {
      assert Pending(db, d, later) <= Pending(db, d, now);
      SubsetSize(Pending(db, d, later), Pending(db, d, now));
    }
  }

  lemma AuditedTrails(db: Db, e: Event)
    requires AllTrails(db) && !e.kind.RequestIs?
    ensures AllTrails(db.(audit := db.audit + [e]))
  {
    hide LifePath, Trail;
    var db' := db.(audit := db.audit + [e]);
    forall i ensures TrailOk(db', i) {
      assert TrailOk(db, i);
      TrailOne(db.audit, e, i);
      assert Trail(db.audit, i) + [] == Trail(db.audit, i);
    }
  }

  lemma AuditedRows(db: Db, e: Event)
    requires AllRows(db) && AllApproved(db)
    ensures AllRows(db.(audit := db.audit + [e])) && AllApproved(db.(audit := db.audit + [e]))
  {
    hide RowOk;
    var db' := db.(audit := db.audit + [e]);
    forall i | i in db'.requests ensures ApprovalOk(db', i, db'.requests[i]) {
      assert ApprovalOk(db, i, db.requests[i]);
    }
  }

  lemma AuditedKeeps(db: Db, owner: string, device: string, kind: Kind, entity: string, now: int)
    requires DbInv(db, now) && !kind.RequestIs?
    ensures DbInv(Audited(db, owner, device, kind, entity), now)
  {
    hide AllRefs, AllPermissions, AllServices, AllRows, AllLive, Disjoint, AllApproved, AllTrails, Capped, UniqueKeys;
    var db' := Audited(db, owner, device, kind, entity);
    AuditedTrails(db, Event(owner, device, kind, entity));
    AuditedRows(db, Event(owner, device, kind, entity));
    IdentityKept(db, db', now);
    LiveKept(db, db');
    CapKept(db, db', now);
  }

  // ---------- changes to devices, services and permissions ----------

  /** Requests, approvals and audit untouched, and the mode of every permission a request uses unchanged. */
  predicate OnlyAuthority(db: Db, db': Db) {
    db'.requests == db.requests && db'.approvals == db.approvals && db'.audit == db.audit
    && forall p | p in db.permissions :: p in db'.permissions && db'.permissions[p].mode == db.permissions[p].mode
  }

  lemma AuthorityFrame(db: Db, db': Db, now: int)
    requires OnlyAuthority(db, db')
    requires AllRows(db) && AllApproved(db) && AllTrails(db) && Capped(db, now) && UniqueKeys(db)
    ensures AllRows(db') && AllApproved(db') && AllTrails(db') && Capped(db', now) && UniqueKeys(db')
  {
    hide RowOk, LifePath, Trail;
    forall i ensures TrailOk(db', i) { assert TrailOk(db, i); }
    forall d ensures |Pending(db', d, now)| <= MAX_PENDING { assert Pending(db', d, now) == Pending(db, d, now); }
    forall i | i in db'.requests
      ensures db'.requests[i].permission in db'.permissions && ApprovalOk(db', i, db'.requests[i])
    {
      assert ApprovalOk(db, i, db.requests[i]);
    }
  }

  predicate NoneLive(db: Db, scope: Scope) {
    forall id | id in db.requests && InScope(db.requests[id], scope) :: !Live(db.requests[id].status)
  }

  lemma InviteKeeps(db: Db, id: string, now: int)
    requires DbInv(db, now) && id !in db.devices
    ensures DbInv(db.(devices := db.devices[id := Device(false)]), now)
  {
    hide AllRows, AllApproved, AllTrails, Capped, UniqueKeys, Path, Match, Target, RawQuery, HeadersFit, Overlap;
    AuthorityFrame(db, db.(devices := db.devices[id := Device(false)]), now);
  }

  lemma RevokedDeviceKeeps(db: Db, id: string, now: int)
    requires DbInv(db, now) && id in db.devices && NoneLive(db, OfDevice(id))
    ensures DbInv(RevokedDevice(db, id), now)
  {
    hide AllRows, AllApproved, AllTrails, Capped, UniqueKeys, Path, Match, Target, RawQuery, HeadersFit, Overlap;
    AuthorityFrame(db, RevokedDevice(db, id), now);
  }

  function WithService(db: Db, id: string, svc: Service): Db {
    db.(services := db.services[id := svc])
  }

  lemma NewServiceKeeps(db: Db, id: string, svc: Service, now: int)
    requires DbInv(db, now) && id !in db.services && ServiceOk(id, svc)
    ensures DbInv(WithService(db, id, svc), now)
  {
    hide AllRows, AllApproved, AllTrails, Capped, UniqueKeys, Path, Match, Target, RawQuery, HeadersFit, Overlap;
    AuthorityFrame(db, WithService(db, id, svc), now);
  }

  /** A higher revision leaves the service without active permissions, so nothing is live and nothing overlaps. */
  lemma BumpedServiceKeeps(db: Db, id: string, svc: Service, now: int)
    requires DbInv(db, now) && id in db.services && svc.revision > db.services[id].revision
    requires ServiceOk(id, svc)
    requires NoneLive(db, OfService(id))
    ensures DbInv(WithService(db, id, svc), now)
  {
    hide AllRows, AllApproved, AllTrails, Capped, UniqueKeys, Path, Match, Target, RawQuery, HeadersFit, Overlap;
    AuthorityFrame(db, WithService(db, id, svc), now);
  }

  function WithPermission(db: Db, id: string, p: Permission): Db {
    db.(permissions := db.permissions[id := p])
  }

  lemma NewPermissionKeeps(db: Db, id: string, p: Permission, now: int)
    requires DbInv(db, now) && id !in db.permissions && PermissionOk(db, p)
    requires !OverlapsActive(db, p.rule, p.device, p.service, now)
    ensures DbInv(WithPermission(db, id, p), now)
  {
    hide AllRows, AllApproved, AllTrails, Capped, UniqueKeys, Path, Match, Target, RawQuery, HeadersFit;
    var db' := WithPermission(db, id, p);
    AuthorityFrame(db, db', now);
    assert Disjoint(db', now) by { NewPermissionDisjoint(db, id, p, now); }
    hide Overlap;
    assert AllRefs(db') && AllPermissions(db') && AllServices(db') && AllLive(db');
  }

  lemma NewPermissionDisjoint(db: Db, id: string, p: Permission, now: int)
    requires Disjoint(db, now) && id !in db.permissions
    requires !OverlapsActive(db, p.rule, p.device, p.service, now)
    ensures Disjoint(WithPermission(db, id, p), now)
  {
    var db' := WithPermission(db, id, p);
    forall q | q in db.permissions && Together(p, db.permissions[q]) && ActiveNow(db, db.permissions[q], now)
      ensures !Overlap(p.rule, db.permissions[q].rule) && !Overlap(db.permissions[q].rule, p.rule)
    {
      assert q in ActiveRows(db, p.device, p.service, now);
      OverlapSymmetric(p.rule, db.permissions[q].rule);
    }
    hide Overlap;
  }

  lemma RevokedPermissionKeeps(db: Db, id: string, now: int)
    requires DbInv(db, now) && id in db.permissions && NoneLive(db, OfPermission(id))
    ensures DbInv(WithPermission(db, id, db.permissions[id].(revoked := true)), now)
  {
    hide AllRefs, AllPermissions, AllServices, AllRows, AllLive, Disjoint, AllApproved, AllTrails, Capped;
    hide UniqueKeys, NoneLive;
    RevokedPermissionRefs(db, id, now);
    RevokedPermissionLive(db, id);
    AuthorityFrame(db, WithPermission(db, id, db.permissions[id].(revoked := true)), now);
  }

  lemma RevokedPermissionRefs(db: Db, id: string, now: int)
    requires AllRefs(db) && AllPermissions(db) && AllServices(db) && Disjoint(db, now) && id in db.permissions
    ensures var db' := WithPermission(db, id, db.permissions[id].(revoked := true));
            AllRefs(db') && AllPermissions(db') && AllServices(db') && Disjoint(db', now)
  {
    hide Path, Overlap;
  }

  lemma RevokedPermissionLive(db: Db, id: string)
    requires AllRefs(db) && AllLive(db) && id in db.permissions && NoneLive(db, OfPermission(id))
    ensures AllLive(WithPermission(db, id, db.permissions[id].(revoked := true)))
  {
    hide Match, Target, RawQuery, HeadersFit;
    var db' := WithPermission(db, id, db.permissions[id].(revoked := true));
    forall i | i in db'.requests && Live(db'.requests[i].status)
      ensures RowRefs(db', db'.requests[i]) && Backed(db', db'.requests[i])
    {
      assert !InScope(db.requests[i], OfPermission(id));
    }
  }
}
