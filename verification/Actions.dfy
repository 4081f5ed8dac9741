/** What devices, the owner and maintenance may do to the tables, one committed transaction at a time. */
module Actions {
  import opened Prelude
  import opened Access
  import opened Upstream
  import opened Store
  import opened Requests
  import Headers
  import opened Tables
  import opened Transactions
  import opened Invariant
  import opened Preservation
  import opened TableChanges
  import opened Evolution

  datatype Action =
    | OwnerInvites(owner: string, id: string)
    | OwnerCreatesService(owner: string, id: string, form: ServiceForm)
    | OwnerRevisesService(owner: string, id: string, form: ServiceForm, ids: seq<string>)
    | OwnerDisablesService(owner: string, id: string, ids: seq<string>)
    | OwnerAddsPermission(owner: string, grant: PermissionForm, id: string)
    | OwnerRevokesPermission(owner: string, id: string, ids: seq<string>)
    | OwnerRevokesDevice(owner: string, id: string, ids: seq<string>)
    | OwnerRecovers(work: seq<(string, seq<string>)>)
    | OwnerDecides(owner: string, id: string, digest: Digest<Snapshot>, decision: string, rows: seq<string>)
    | DeviceSubmits(device: string, input: Submission, rows: seq<string>, id: string)
    | DeviceCalls(device: string, service: string, verb: string, path: string, query: string, rows: seq<string>)
    | Maintains(ids: seq<string>)

  /** The orders an action carries are orders the database could have returned. */
  predicate Possible(db: Db, a: Action, now: int) {
    match a
    case OwnerRevisesService(_, id, _, ids) => Enumerates(ids, LiveIn(db, OfService(id)))
    case OwnerDisablesService(_, id, ids) => Enumerates(ids, LiveIn(db, OfService(id)))
    case OwnerRevokesPermission(_, id, ids) => Enumerates(ids, LiveIn(db, OfPermission(id)))
    case OwnerRevokesDevice(_, id, ids) => Enumerates(ids, LiveIn(db, OfDevice(id)))
    case OwnerRecovers(work) => DeviceWork(db, work)
    case OwnerDecides(_, id, _, _, rows) => Enumerates(rows, RecheckRows(db, id, now))
    case DeviceSubmits(device, input, rows, _) => Enumerates(rows, ActiveRows(db, device, input.service, now))
    case DeviceCalls(device, service, _, _, _, rows) => Enumerates(rows, ActiveRows(db, device, service, now))
    case Maintains(ids) => Enumerates(ids, Overdue(db, now))
    case _ => true
  }

  /** The committed tables after an action; errors and refusals roll back. */
  ghost function Perform(db: Db, a: Action, clock: nat): Db {
    var now := Unix(clock);
    if !Possible(db, a, now) then db
    else
      match a
      case OwnerInvites(owner, id) => Invite(db, owner, id).GetOr(db)
      case OwnerCreatesService(owner, id, f) => CreateService(db, owner, id, f).GetOr(db)
      case OwnerRevisesService(owner, id, f, ids) => ReviseService(db, owner, id, f, ids, now).GetOr(db)
      case OwnerDisablesService(owner, id, ids) => DisableService(db, owner, id, ids, now).GetOr(db)
      case OwnerAddsPermission(owner, f, id) => AddPermission(db, owner, f, id, clock).GetOr(db)
      case OwnerRevokesPermission(owner, id, ids) => RevokePermission(db, owner, id, ids, now).GetOr(db)
      case OwnerRevokesDevice(owner, id, ids) => RevokeDevice(db, owner, id, ids, now).GetOr(db)
      case OwnerRecovers(work) => RecoverRestored(db, work, now)
      case OwnerDecides(owner, id, digest, decision, rows) =>
        Decide(db, owner, id, digest, decision, rows, now).GetOr(db)
      case DeviceSubmits(device, input, rows, id) => Submit(db, device, input, rows, id, now).0
      case DeviceCalls(device, service, verb, path, query, rows) =>
        DirectClaim(db, device, service, verb, path, query, rows).GetOr(db)
      case Maintains(ids) => Maintenance(db, ids, now)
  }

  /** What every action guarantees: the invariant, lawful evolution, and no touching of requests past waiting. */
  ghost predicate Good(db: Db, db': Db, now: int) {
    DbInv(db', now) && Later(db, db', now) && Quiet(db, db')
  }

  lemma QuietTransitive(a: Db, b: Db, c: Db, now: int)
    requires LaterRequests(a, b, now) && LaterRequests(b, c, now) && Quiet(a, b) && Quiet(b, c)
    ensures Quiet(a, c)
  {
    hide LaterRow, Started;
  }

  lemma GoodTransitive(a: Db, b: Db, c: Db, now: int)
    requires Good(a, b, now) && Good(b, c, now)
    ensures Good(a, c, now)
  {
    hide DbInv, Quiet, LaterRequests, LaterDevices, LaterServices, LaterPermissions, LaterApprovals, FreshActivity;
    LaterTransitive(a, b, c, now, now);
    QuietTransitive(a, b, c, now);
  }

  // ---------- cancellation, expiry, recovery ----------

  lemma EnumeratedIs<T>(rows: seq<T>, s: set<T>)
    requires Enumerates(rows, s)
    ensures forall x :: x in rows <==> x in s
    ensures Distinct(rows)
  {
    assert forall x :: x in rows <==> x in (set y | y in rows);
  }

  /** Cancelling touches neither the authority tables nor whose request a row is. */
  lemma CancelFrame(db: Db, ids: seq<string>, reason: string, now: int)
    ensures var db' := CancelRequests(db, ids, reason, now);
            db'.devices == db.devices && db'.services == db.services && db'.permissions == db.permissions
            && db'.requests.Keys == db.requests.Keys
            && forall id | id in db.requests :: SameRow(db.requests[id], db'.requests[id])
  {
  }

  lemma CancelGood(db: Db, scope: Scope, ids: seq<string>, reason: string, now: int)
    requires DbInv(db, now) && Enumerates(ids, LiveIn(db, scope))
    ensures Good(db, CancelRequests(db, ids, reason, now), now)
    ensures NoneLive(CancelRequests(db, ids, reason, now), scope)
  {
    hide DbInv, Later, Quiet, Enumerates;
    EnumeratedIs(ids, LiveIn(db, scope));
    assert Closable(db, ids, Cancelled);
    CloseAllKeeps(db, ids, Cancelled, reason, now);
    CloseAllLater(db, ids, Cancelled, reason, now);
  }

  lemma MaintenanceGood(db: Db, ids: seq<string>, now: int)
    requires DbInv(db, now) && Enumerates(ids, Overdue(db, now))
    ensures Good(db, Maintenance(db, ids, now), now)
  {
    hide Later, Quiet, Enumerates, Purge, CloseAll;
    hide AllRefs, AllPermissions, AllServices, AllRows, AllLive, Disjoint, AllApproved, AllTrails, Capped, UniqueKeys;
    EnumeratedIs(ids, Overdue(db, now));
    assert Closable(db, ids, Expired);
    var closed := CloseAll(db, ids, Expired, "deadline_elapsed", now);
    CloseAllKeeps(db, ids, Expired, "deadline_elapsed", now);
    CloseAllLater(db, ids, Expired, "deadline_elapsed", now);
    PurgeKeeps(closed, now);
    PurgeLater(closed, now);
    GoodTransitive(db, closed, Purge(closed, now), now);
  }

  // ---------- changes of authority, each after a cancellation ----------

  lemma AuditedGood(db: Db, db': Db, owner: string, device: string, kind: Kind, entity: string, now: int)
    requires DbInv(db, now) && Good(db, db', now) && !kind.RequestIs? && kind != HttpClaim
    ensures Good(db, Audited(db', owner, device, kind, entity), now)
  {
    hide DbInv, Later, Quiet;
    AuditedKeeps(db', owner, device, kind, entity, now);
    AuditedLater(db', owner, device, kind, entity, now);
    GoodTransitive(db, db', Audited(db', owner, device, kind, entity), now);
  }

  /** Saving a service at a higher revision and cancelling what is live on it. */
  lemma BumpGood(db: Db, id: string, svc: Service, ids: seq<string>, reason: string, now: int)
    requires DbInv(db, now) && Enumerates(ids, LiveIn(db, OfService(id)))
    requires id in db.services && svc.revision > db.services[id].revision
    requires ServiceOk(id, svc)
    ensures Good(db, CancelRequests(WithService(db, id, svc), ids, reason, now), now)
  {
    hide DbInv, Later, Quiet, Enumerates, NoneLive;
    var cancelled := CancelRequests(db, ids, reason, now);
    CancelGood(db, OfService(id), ids, reason, now);
    BumpedServiceKeeps(cancelled, id, svc, now);
    var saved := WithService(cancelled, id, svc);
    AuthorityLater(cancelled, saved, now);
    GoodTransitive(db, cancelled, saved, now);
    assert saved == CancelRequests(WithService(db, id, svc), ids, reason, now);
  }

  lemma RevokeDeviceGood(db: Db, id: string, ids: seq<string>, reason: string, now: int)
    requires DbInv(db, now) && id in db.devices && Enumerates(ids, LiveIn(db, OfDevice(id)))
    ensures Good(db, CancelRequests(RevokedDevice(db, id), ids, reason, now), now)
  {
    hide DbInv, Later, Quiet, Enumerates, NoneLive;
    var cancelled := CancelRequests(db, ids, reason, now);
    CancelGood(db, OfDevice(id), ids, reason, now);
    RevokedDeviceKeeps(cancelled, id, now);
    var saved := RevokedDevice(cancelled, id);
    AuthorityLater(cancelled, saved, now);
    GoodTransitive(db, cancelled, saved, now);
    assert saved == CancelRequests(RevokedDevice(db, id), ids, reason, now);
  }

  lemma RevokePermissionGood(db: Db, id: string, ids: seq<string>, reason: string, now: int)
    requires DbInv(db, now) && id in db.permissions && Enumerates(ids, LiveIn(db, OfPermission(id)))
    ensures var saved := WithPermission(db, id, db.permissions[id].(revoked := true));
            Good(db, CancelRequests(saved, ids, reason, now), now)
  {
    hide DbInv, Later, Quiet, Enumerates, NoneLive;
    var revoked := db.permissions[id].(revoked := true);
    var cancelled := CancelRequests(db, ids, reason, now);
    CancelGood(db, OfPermission(id), ids, reason, now);
    RevokedPermissionKeeps(cancelled, id, now);
    var saved := WithPermission(cancelled, id, revoked);
    AuthorityLater(cancelled, saved, now);
    GoodTransitive(db, cancelled, saved, now);
    assert saved == CancelRequests(WithPermission(db, id, revoked), ids, reason, now);
  }

  /** What is left of the work of RecoverRestored still describes the tables. */
  predicate WorkLeft(db: Db, work: seq<(string, seq<string>)>) {
    (forall i, j | 0 <= i < j < |work| :: work[i].0 != work[j].0)
    && forall i | 0 <= i < |work| :: work[i].0 in db.devices && Enumerates(work[i].1, LiveIn(db, OfDevice(work[i].0)))
  }

  lemma WorkStep(db: Db, work: seq<(string, seq<string>)>, reason: string, now: int)
    requires work != [] && WorkLeft(db, work)
    ensures WorkLeft(CancelRequests(RevokedDevice(db, work[0].0), work[0].1, reason, now), work[1..])
  {
    hide Enumerates;
    var (device, ids) := work[0];
    EnumeratedIs(ids, LiveIn(db, OfDevice(device)));
    var db' := CancelRequests(RevokedDevice(db, device), ids, reason, now);
    forall i | 0 <= i < |work[1..]|
      ensures work[1..][i].0 in db'.devices && Enumerates(work[1..][i].1, LiveIn(db', OfDevice(work[1..][i].0)))
    {
      var other := work[i + 1].0;
      assert other != device;
      assert LiveIn(db', OfDevice(other)) == LiveIn(db, OfDevice(other));
    }
  }

  lemma {:induction false} InvalidateGood(db: Db, work: seq<(string, seq<string>)>, now: int)
    requires DbInv(db, now) && WorkLeft(db, work)
    ensures Good(db, InvalidateDevices(db, work, now), now)
    decreases |work|
  {
    hide DbInv, Later, Quiet, Enumerates, CancelRequests;
    if work == [] {
      LaterRefl(db, now);
    } else {
      var (device, ids) := work[0];
      var db' := CancelRequests(RevokedDevice(db, device), ids, "restored_database_recovery", now);
      RevokeDeviceGood(db, device, ids, "restored_database_recovery", now);
      WorkStep(db, work, "restored_database_recovery", now);
      InvalidateGood(db', work[1..], now);
      GoodTransitive(db, db', InvalidateDevices(db', work[1..], now), now);
    }
  }

  lemma DeviceWorkLeft(db: Db, work: seq<(string, seq<string>)>)
    requires DeviceWork(db, work)
    ensures WorkLeft(db, work)
  {
    hide LiveIn;
    var devices := seq(|work|, i requires 0 <= i < |work| => work[i].0);
    EnumeratedIs(devices, db.devices.Keys);
    forall i | 0 <= i < |work| ensures work[i].0 in db.devices {
      assert devices[i] in devices;
    }
    forall i, j | 0 <= i < j < |work| ensures work[i].0 != work[j].0 {
      assert devices[i] != devices[j];
    }
  }

  // ---------- submissions ----------

  lemma AuthorizedIsActive(db: Db, rows: seq<string>, device: string, service: string, verb: string, path: string,
                           now: int)
    requires Enumerates(rows, ActiveRows(db, device, service, now))
    ensures match Authorize(db, rows, device, service, verb, path)
            case Some(pid) =>
              ActiveDevice(db, device) && Enabled(db, service) && pid in ActiveRows(db, device, service, now)
              && Match(db.permissions[pid].rule, verb, path)
            case None => true
  {
    hide Match, ActiveRows, Enumerates;
    FirstMatchIsMatch(db, rows, verb, path);
    EnumeratedIs(rows, ActiveRows(db, device, service, now));
  }

  lemma AdmitShape(db: Db, device: string, input: Submission, pid: string, id: string, now: int)
    requires AllPermissions(db) && AllServices(db) && ActiveDevice(db, device) && Enabled(db, input.service)
    requires forall n | n in input.headers :: Canonical(n) == n && !BadHeader(n, input.headers[n])
    requires pid in ActiveRows(db, device, input.service, now)
    requires Match(db.permissions[pid].rule, input.verb, input.path)
    requires forall i | i in db.requests :: !HasKey(db.requests[i], device, Sha256(input.key))
    ensures var (db', reply) := Admit(db, device, input, pid, id, now);
            if reply.Accepted? then
              reply.id == id && Stored(db, db', device, input, id, now)
              && db'.requests[id].permission == pid
            else db' == db
  {
    hide Match, Path, RawQuery, Target, ApplicationHeaders, HeadersFit, AllowList, Canonical, BadHeader;
    var svc, p := db.services[input.service], db.permissions[pid];
    var (db', reply) := Admit(db, device, input, pid, id, now);
    if reply.Accepted? {
      var target := Target(svc.base, input.path, input.query).value;
      TargetRoundTrip(svc.base, input.path, input.query);
      var r := db'.requests[id];
      assert ServiceOk(input.service, svc);
      ApplicationFits(input.headers, svc.requestHeaders, svc.authHeader);
      assert RowRefs(db, r) && RowOk(id, r);
      assert Backed(db, r);
      assert db' == InsertRequest(db, id, r);
    }
  }

  /** A submission was stored as request `id`. */
  ghost predicate Stored(db: Db, db': Db, device: string, input: Submission, id: string, now: int) {
    id in db'.requests
    && var r := db'.requests[id];
       Admissible(db, id, r, now) && db' == InsertRequest(db, id, r) && ActiveDevice(db, device)
       && r.device == device && r.keyHash == Sha256(input.key) && r.submissionDigest == SubmissionDigest(input)
       && r.service == input.service && Submitted(r).verb == input.verb && Submitted(r).path == input.path
       && Submitted(r).body == input.body
       && var svc := db.services[r.service];
          Target(svc.base, input.path, input.query) == Some(Submitted(r).url)
          && ApplicationHeaders(input.headers, svc.requestHeaders, svc.authHeader) == Some(Submitted(r).headers)
  }

  lemma SubmitShape(db: Db, device: string, raw: Submission, rows: seq<string>, id: string, now: int)
    requires AllPermissions(db) && AllServices(db)
    requires Enumerates(rows, ActiveRows(db, device, raw.service, now))
    ensures var (db', reply) := Submit(db, device, raw, rows, id, now);
            db' == db || (reply == Accepted(id) && Normalize(raw).Some?
                          && Stored(db, db', device, Normalize(raw).value, id, now))
  {
    hide Match, Admit, Stored, ActiveRows, Enumerates, AllPermissions, Precheck, Headers.Renamed;
    hide Headers.Acceptable, SubmissionDigest, AllServices, Canonical, BadHeader;
    if Normalize(raw).Some? {
      NormalizeIdempotent(raw);
      var input := Normalize(raw).value;
      AuthorizedIsActive(db, rows, device, input.service, input.verb, input.path, now);
      var pid := Authorize(db, rows, device, input.service, input.verb, input.path);
      if ActiveDevice(db, device) && FindKey(db, device, Sha256(input.key)).None? && pid.Some? {
        AdmitShape(db, device, input, pid.value, id, now);
      }
    }
  }

  lemma SubmitGood(db: Db, device: string, raw: Submission, rows: seq<string>, id: string, now: int)
    requires DbInv(db, now) && Enumerates(rows, ActiveRows(db, device, raw.service, now))
    ensures Good(db, Submit(db, device, raw, rows, id, now).0, now)
  {
    hide Submit, Later, Quiet, Enumerates, Normalize, Admissible;
    hide AllRefs, AllServices, AllRows, AllLive, Disjoint, AllApproved, AllTrails, Capped, UniqueKeys;
    SubmitShape(db, device, raw, rows, id, now);
    var db' := Submit(db, device, raw, rows, id, now).0;
    if db' == db {
      LaterRefl(db, now);
    } else {
      InsertFresh(db, id, db'.requests[id], now);
      InsertKeeps(db, id, db'.requests[id], now);
      InsertLater(db, id, db'.requests[id], now);
    }
  }

  lemma InsertFresh(db: Db, id: string, r: Request, now: int)
    requires Admissible(db, id, r, now)
    ensures id !in db.requests && Live(r.status)
  {
  }

  // ---------- the other actions ----------

  lemma DecideGood(db: Db, owner: string, id: string, digest: Digest<Snapshot>, decision: string, rows: seq<string>,
                   now: int)
    requires DbInv(db, now) && Decide(db, owner, id, digest, decision, rows, now).Some?
    ensures Good(db, Decide(db, owner, id, digest, decision, rows, now).value, now)
  {
    hide DbInv, Decide, Later, Quiet, Advances;
    assert AllRows(db) by { InvParts(db, now); }
    DecideShape(db, Decide(db, owner, id, digest, decision, rows, now).value, owner, id, digest, decision, rows, now);
    var db' := Decided(db, owner, id, decision, now);
    DecideKeeps(db, owner, id, decision, now);
    AdvanceLater(db, db', id, if decision == "deny" then Denied else Queued, now);
  }

  lemma InviteGood(db: Db, owner: string, id: string, now: int)
    requires DbInv(db, now) && id !in db.devices
    ensures Good(db, Invite(db, owner, id).value, now)
  {
    hide DbInv, Later, Quiet;
    var db' := db.(devices := db.devices[id := Device(false)]);
    InviteKeeps(db, id, now);
    AuthorityLater(db, db', now);
    AuditedGood(db, db', owner, id, InvitationCreated, id, now);
  }

  lemma BuiltIsOk(id: string, f: ServiceForm, revision: int)
    requires FormOk(id, f)
    ensures ServiceOk(id, BuildService(id, f, revision))
  {
    hide IdentityOk, Listing, Names, AllowList;
    assert AllowList([], CredentialHeader(f)) by { NothingListed(CredentialHeader(f)); }
    ListingAllowed(Names(f.requestHeaders, REQUEST_DEFAULTS), CredentialHeader(f), []);
  }

  lemma NothingListed(credential: string)
    ensures AllowList([], credential)
  {
  }

  lemma CreateServiceGood(db: Db, owner: string, id: string, f: ServiceForm, now: int)
    requires DbInv(db, now) && id !in db.services && FormOk(id, f)
    ensures Good(db, Audited(WithService(db, id, BuildService(id, f, 1)), owner, "", ServiceCreated, id), now)
  {
    hide DbInv, Later, Quiet, FormOk, RequestList, ResponseList, AllowList, ServiceOk;
    BuiltIsOk(id, f, 1);
    var db' := WithService(db, id, BuildService(id, f, 1));
    NewServiceKeeps(db, id, BuildService(id, f, 1), now);
    AuthorityLater(db, db', now);
    AuditedGood(db, db', owner, "", ServiceCreated, id, now);
  }

  lemma ReviseServiceGood(db: Db, owner: string, id: string, f: ServiceForm, ids: seq<string>, now: int)
    requires DbInv(db, now) && id in db.services && Enumerates(ids, LiveIn(db, OfService(id))) && FormOk(id, f)
    ensures Good(db, ReviseService(db, owner, id, f, ids, now).value, now)
  {
    hide DbInv, Later, Quiet, Enumerates, FormOk, RequestList, ResponseList, AllowList, ServiceOk;
    BuiltIsOk(id, f, db.services[id].revision + 1);
    var svc := BuildService(id, f, db.services[id].revision + 1);
    BumpGood(db, id, svc, ids, "service_revised", now);
    var db' := CancelRequests(WithService(db, id, svc), ids, "service_revised", now);
    AuditedGood(db, db', owner, "", ServiceRevised, id, now);
  }

  lemma DisableServiceGood(db: Db, owner: string, id: string, ids: seq<string>, now: int)
    requires DbInv(db, now) && id in db.services && Enumerates(ids, LiveIn(db, OfService(id)))
    ensures Good(db, DisableService(db, owner, id, ids, now).value, now)
  {
    hide DbInv, Later, Quiet, Enumerates;
    var svc := db.services[id].(enabled := false, revision := db.services[id].revision + 1);
    BumpGood(db, id, svc, ids, "service_disabled", now);
    var db' := CancelRequests(WithService(db, id, svc), ids, "service_disabled", now);
    AuditedGood(db, db', owner, "", ServiceDisabled, id, now);
  }

  lemma AddPermissionGood(db: Db, owner: string, f: PermissionForm, id: string, clock: nat)
    requires DbInv(db, Unix(clock)) && AddPermission(db, owner, f, id, clock).Some?
    ensures Good(db, AddPermission(db, owner, f, id, clock).value, Unix(clock))
  {
    hide DbInv, Later, Quiet, Methods, Path, OverlapsActive;
    var db' := AddPermission(db, owner, f, id, clock).value;
    var p := db'.permissions[id];
    NewPermissionKeeps(db, id, p, Unix(clock));
    AuthorityLater(db, WithPermission(db, id, p), Unix(clock));
    AuditedGood(db, WithPermission(db, id, p), owner, f.device, PermissionCreated, id, Unix(clock));
  }

  lemma DirectClaimGood(db: Db, device: string, service: string, verb: string, path: string, query: string,
                        rows: seq<string>, now: int)
    requires DbInv(db, now) && Enumerates(rows, ActiveRows(db, device, service, now))
    requires DirectClaim(db, device, service, verb, path, query, rows).Some?
    ensures Good(db, DirectClaim(db, device, service, verb, path, query, rows).value, now)
  {
    hide DbInv, Later, Quiet, Target, FirstMatch, Enumerates, Match;
    var pid := Authorize(db, rows, device, service, verb, path).value;
    AuthorizedIsActive(db, rows, device, service, verb, path, now);
    AuditedKeeps(db, "", device, HttpClaim, pid, now);
    AuditedLater(db, "", device, HttpClaim, pid, now);
  }

  /** Every action of devices, owner and maintenance keeps the invariant and evolves the tables lawfully. */
  lemma PerformGood(db: Db, a: Action, clock: nat)
    requires DbInv(db, Unix(clock))
    ensures Good(db, Perform(db, a, clock), Unix(clock))
  {
    hide DbInv, Later, Quiet, Enumerates, DeviceWork, Submit, Decide, Maintenance, DirectClaim, AddPermission, FormOk;
    hide CancelRequests, InvalidateDevices, LiveIn, ActiveRows, Overdue, BuildService;
    var now := Unix(clock);
    LaterRefl(db, now);
    if Possible(db, a, now) {
      match a
      case OwnerInvites(owner, id) => if id !in db.devices { InviteGood(db, owner, id, now); }
      case OwnerCreatesService(owner, id, f) =>
        if id !in db.services && FormOk(id, f) { CreateServiceGood(db, owner, id, f, now); }
      case OwnerRevisesService(owner, id, f, ids) =>
        if id in db.services && FormOk(id, f) { ReviseServiceGood(db, owner, id, f, ids, now); }
      case OwnerDisablesService(owner, id, ids) =>
        if id in db.services { DisableServiceGood(db, owner, id, ids, now); }
      case OwnerAddsPermission(owner, f, id) =>
        if AddPermission(db, owner, f, id, clock).Some? { AddPermissionGood(db, owner, f, id, clock); }
      case OwnerRevokesPermission(owner, id, ids) =>
        if id in db.permissions {
          var saved := WithPermission(db, id, db.permissions[id].(revoked := true));
          var db' := CancelRequests(saved, ids, "permission_revoked", now);
          RevokePermissionGood(db, id, ids, "permission_revoked", now);
          AuditedGood(db, db', owner, "", PermissionRevoked, id, now);
        }
      case OwnerRevokesDevice(owner, id, ids) =>
        if id in db.devices {
          var db' := CancelRequests(RevokedDevice(db, id), ids, "device_revoked", now);
          RevokeDeviceGood(db, id, ids, "device_revoked", now);
          AuditedGood(db, db', owner, id, DeviceRevoked, id, now);
        }
      case OwnerRecovers(work) =>
        DeviceWorkLeft(db, work);
        InvalidateGood(db, work, now);
        AuditedGood(db, InvalidateDevices(db, work, now), "", "", AccessInvalidated, "", now);
      case OwnerDecides(owner, id, digest, decision, rows) =>
        if Decide(db, owner, id, digest, decision, rows, now).Some? {
          DecideGood(db, owner, id, digest, decision, rows, now);
        }
      case DeviceSubmits(device, input, rows, id) => SubmitGood(db, device, input, rows, id, now);
      case DeviceCalls(device, service, verb, path, query, rows) =>
        if DirectClaim(db, device, service, verb, path, query, rows).Some? {
          DirectClaimGood(db, device, service, verb, path, query, rows, now);
        }
      case Maintains(ids) => MaintenanceGood(db, ids, now);
    }
  }
}
