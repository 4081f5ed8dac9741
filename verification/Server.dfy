/** Server as written: methods that run one transaction each against the committed tables.
    A transaction works on a copy, `tx`; committing installs the copy, and returning without a commit drops it.
    `commits` says whether storage lets the transaction through; a statement that fails earlier has the same effect.
    A ghost result names the order in which a query without ORDER BY happened to return its rows. */
module Server {
  import opened Prelude
  import opened Access
  import opened Upstream
  import opened Store
  import opened Requests
  import Headers
  import opened Tables
  import opened Transactions
  import opened Invariant
  import opened Actions

  // ---------- loops shared by the transactions ----------

  /** UPDATE and audit, row by row: the loop of cancelRequests, maintenance and recoverDispatches. */
  method CloseEach(db: Db, ids: seq<string>, status: Status, reason: string, now: int) returns (tx: Db)
    requires forall id | id in ids :: id in db.requests
    ensures tx == CloseAll(db, ids, status, reason, now)
  {
    tx := db;
    assert CloseAll(db, [], status, reason, now) == db;
    for i := 0 to |ids|
      invariant tx == CloseAll(db, ids[..i], status, reason, now)
    {
      var id := ids[i];
      tx := tx.(requests := tx.requests[id :=
        tx.requests[id].(status := status, reason := reason, finished := Some(now))]);
      tx := tx.(audit := tx.audit + [RequestEvent("", "", status, id)]);
      CloseOneMore(db, ids[..i], id, status, reason, now);
      assert ids[..i + 1] == ids[..i] + [id];
    }
    assert ids[..|ids|] == ids;
  }

  lemma CloseOneMore(db: Db, ids: seq<string>, id: string, status: Status, reason: string, now: int)
    requires id in db.requests
    ensures CloseAll(db, ids + [id], status, reason, now) ==
            var tx := CloseAll(db, ids, status, reason, now);
            tx.(requests := tx.requests[id := Closed(tx.requests[id], status, reason, now)],
                audit := tx.audit + [RequestEvent("", "", status, id)])
  {
    var a := CloseAll(db, ids + [id], status, reason, now);
    var tx := CloseAll(db, ids, status, reason, now);
    assert a.requests == tx.requests[id := Closed(tx.requests[id], status, reason, now)];
    assert a.audit == tx.audit + [RequestEvent("", "", status, id)];
  }

  /** cancelRequests: close every live request in scope. */
  method CancelScope(db: Db, scope: Scope, reason: string, now: int) returns (tx: Db, ghost ids: seq<string>)
    ensures Enumerates(ids, LiveIn(db, scope))
    ensures tx == CancelRequests(db, ids, reason, now)
    ensures tx.requests == map id | id in db.requests ::
              if id in LiveIn(db, scope) then Closed(db.requests[id], Cancelled, reason, now) else db.requests[id]
  {
    var found := Enumerate(LiveIn(db, scope));
    ids := found;
    EnumeratedIs(found, LiveIn(db, scope));
    tx := CloseEach(db, found, Cancelled, reason, now);
  }

  /** The scan of addPermission that sets `overlap`. */
  method ScanOverlap(db: Db, rule: Rule, device: string, service: string, now: int) returns (overlap: bool)
    ensures overlap == OverlapsActive(db, rule, device, service, now)
  {
    hide Overlap;
    var rows := Enumerate(ActiveRows(db, device, service, now));
    EnumeratedIs(rows, ActiveRows(db, device, service, now));
    assert forall k | 0 <= k < |rows| :: rows[k] in ActiveRows(db, device, service, now);
    overlap := false;
    for i := 0 to |rows|
      invariant overlap <==> exists k :: 0 <= k < i && Overlap(rule, db.permissions[rows[k]].rule)
    {
      if Overlap(rule, db.permissions[rows[i]].rule) {
        overlap := true;
      }
    }
    if overlap {
      var k :| 0 <= k < |rows| && Overlap(rule, db.permissions[rows[k]].rule);
      assert rows[k] in ActiveRows(db, device, service, now);
    }
  }

  /** SELECT ... WHERE device_id=? AND key_hash=?. */
  method LookUpKey(db: Db, device: string, keyHash: Digest<string>) returns (found: Option<string>)
    requires UniqueKeys(db)
    ensures found == FindKey(db, device, keyHash)
  {
    var rest := db.requests.Keys;
    while rest != {}
      invariant rest <= db.requests.Keys
      invariant forall id | id in db.requests && id !in rest :: !HasKey(db.requests[id], device, keyHash)
      decreases rest
    {
      var id :| id in rest;
      if HasKey(db.requests[id], device, keyHash) {
        assert FindKey(db, device, keyHash).Some?;
        return Some(id);
      }
      rest := rest - {id};
    }
    return None;
  }

  lemma FoundKey(db: Db, device: string, keyHash: Digest<string>)
    requires FindKey(db, device, keyHash).Some?
    ensures FindKey(db, device, keyHash).value in db.requests
  {
  }

  lemma ActiveIsKnown(db: Db, pid: string, device: string, service: string, now: int)
    requires pid in ActiveRows(db, device, service, now)
    ensures pid in db.permissions && service in db.services
  {
  }

  /** validSnapshot as written. */
  method RunValidSnapshot(db: Db, snap: Snapshot, now: int) returns (svc: Option<Service>, ghost rows: seq<string>)
    ensures Enumerates(rows, ActiveRows(db, snap.device, snap.service, now))
    ensures svc == ValidSnapshot(db, snap, rows, now)
    ensures svc.Some? ==>
              snap.service in db.services && svc.value == db.services[snap.service]
              && svc.value.revision == snap.revision
              && snap.permission in ActiveRows(db, snap.device, snap.service, now) && now < snap.expires
              && Target(svc.value.base, snap.path, RawQuery(snap.url)) == Some(snap.url)
  {
    hide Enumerates, Target, RawQuery, FirstMatch;
    var pid;
    pid, rows := RunAuthorize(db, snap.device, snap.service, snap.verb, snap.path, now);
    if pid.None? || snap.service !in db.services {
      return None, rows;
    }
    var s := db.services[snap.service];
    if s.revision != snap.revision || pid.value != snap.permission || snap.expires <= now {
      return None, rows;
    }
    var target := Target(s.base, snap.path, RawQuery(snap.url));
    if target.None? || target.value != snap.url || snap.privateCidr != s.privateCidr {
      return None, rows;
    }
    return Some(s), rows;
  }

  lemma ReadRows(db: Db, id: string, now: int)
    requires ReadSnapshot(db, id).Some?
    ensures var s := ReadSnapshot(db, id).value; ActiveRows(db, s.device, s.service, now) == RecheckRows(db, id, now)
  {
    hide ActiveRows;
  }

  class Server {
    var db: Db

    constructor ()
      ensures db == EMPTY_DB
    {
      db := EMPTY_DB;
    }

    // ---------- internal/server/requests.go ----------

    /** Submit; `id` is the identifier store.ID would issue. */
    method Submit(device: string, input: Submission, id: string, now: int, commits: bool)
      returns (reply: SubmitReply, ghost rows: seq<string>)
      requires UniqueKeys(db)
      modifies this
      ensures Enumerates(rows, ActiveRows(old(db), device, input.service, now))
      ensures var spec := Transactions.Submit(old(db), device, input, rows, id, now);
              if commits || spec.0 == old(db) then (db, reply) == spec
              else db == old(db) && reply == Refused(StorageUnavailable)
    {
      hide Precheck, BadHeader, Canonical, Headers.Renamed, Headers.Acceptable, Authorize, Enumerates;
      hide Transactions.Admit, FindKey, ActiveRows, SubmissionDigest;
      rows := SomeOrder([], ActiveRows(db, device, input.service, now));
      var normalized, order := RunNormalize(input);
      NormalizeOutcome(input, order);
      if normalized.Failure? {
        return Refused(Unacceptable), rows;
      }
      var accepted := normalized.value;
      NormalizeIdempotent(input);
      if !ActiveDevice(db, device) {
        return Refused(PermissionDenied), rows;
      }
      var held := LookUpKey(db, device, Sha256(accepted.key));
      if held.Some? {
        FoundKey(db, device, Sha256(accepted.key));
        if SubmissionDigest(accepted) != db.requests[held.value].submissionDigest {
          return Refused(IdempotencyConflict), rows;
        }
        return Accepted(held.value), rows;
      }
      var pid;
      pid, rows := RunAuthorize(db, device, accepted.service, accepted.verb, accepted.path, now);
      AuthorizedIsActive(db, rows, device, accepted.service, accepted.verb, accepted.path, now);
      if pid.None? {
        return Refused(PermissionDenied), rows;
      }
      ActiveIsKnown(db, pid.value, device, accepted.service, now);
      reply := Admit(device, accepted, pid.value, id, now, commits);
    }

    /** The rest of Submit, once permission `pid` has authorized the submission. */
    method Admit(device: string, input: Submission, pid: string, id: string, now: int, commits: bool)
      returns (reply: SubmitReply)
      requires input.service in db.services && pid in db.permissions
      requires forall n | n in input.headers :: Canonical(n) == n
      modifies this
      ensures var spec := Transactions.Admit(old(db), device, input, pid, id, now);
              if commits || spec.0 == old(db) then (db, reply) == spec
              else db == old(db) && reply == Refused(StorageUnavailable)
    {
      hide Target, ApplicationHeaders, Pending, Canonical;
      var svc, p := db.services[input.service], db.permissions[pid];
      var headers := RunApplicationHeaders(input.headers, svc.requestHeaders, svc.authHeader);
      if headers.None? {
        return Refused(HeaderNotAllowed);
      }
      var target := Target(svc.base, input.path, input.query);
      if target.None? {
        return Refused(InvalidTarget);
      }
      var state, expiry := Queued, now + QUEUE_SECONDS;
      if p.mode == ApprovalRequired {
        state, expiry := PendingApproval, now + APPROVAL_SECONDS;
        if |Pending(db, device, now)| >= MAX_PENDING {
          return Refused(PendingLimit);
        }
      }
      var snap := BuildSnapshot(device, svc, pid, input, headers.value, target.value, expiry);
      if id in db.requests || !commits {
        return Refused(StorageUnavailable);
      }
      var tx := db;
      tx := tx.(requests := tx.requests[id := BuildRequest(id, snap, input, state)]);
      tx := tx.(audit := tx.audit + [RequestEvent("", device, state, id)]);
      db := tx;
      return Accepted(id);
    }

    /** Decide; `ok` is the absence of an error. */
    method Decide(owner: string, id: string, digest: Digest<Snapshot>, decision: string, now: int, commits: bool)
      returns (ok: bool, ghost rows: seq<string>)
      modifies this
      ensures Enumerates(rows, RecheckRows(old(db), id, now))
      ensures var spec := Transactions.Decide(old(db), owner, id, digest, decision, rows, now);
              ok == (commits && spec.Some?) && db == if ok then spec.value else old(db)
    {
      hide ValidSnapshot, ReadSnapshot, Enumerates, RecheckRows;
      rows := SomeOrder([], RecheckRows(db, id, now));
      if decision != "approve" && decision != "deny" {
        return false, rows;
      }
      if id !in db.requests || digest != db.requests[id].snapshotDigest {
        return false, rows;
      }
      if db.requests[id].status != PendingApproval {
        return false, rows;
      }
      var snap := ReadSnapshot(db, id);
      if snap.None? {
        return false, rows;
      }
      ReadRows(db, id, now);
      var svc;
      svc, rows := RunValidSnapshot(db, snap.value, now);
      if svc.None? {
        return false, rows;
      }
      var next, finished := Queued, None;
      if decision == "deny" {
        next, finished := Denied, Some(now);
      }
      var tx := db;
      if id in tx.approvals {
        return false, rows;
      }
      tx := tx.(approvals := tx.approvals[id := Approval(owner, digest, decision)]);
      tx := tx.(requests := tx.requests[id := tx.requests[id].(status := next, finished := finished)]);
      tx := tx.(audit := tx.audit + [RequestEvent(owner, snap.value.device, next, id)]);
      if !commits {
        return false, rows;
      }
      db := tx;
      return true, rows;
    }

    /** finishTx, in a transaction of its own or as the end of a claim. */
    method Finish(id: string, status: Status, reason: string, result: Option<Response>, now: int, commits: bool)
      modifies this
      ensures db == if commits then FinishTx(old(db), id, status, reason, result, now) else old(db)
    {
      var encrypted := match result case Some(r) => Some(Encrypt(ResultPurpose(id), r)) case None => None;
      var tx := db;
      if id in tx.requests {
        tx := tx.(requests := tx.requests[id :=
          tx.requests[id].(status := status, reason := reason, result := encrypted, finished := Some(now))]);
      }
      tx := tx.(audit := tx.audit + [RequestEvent("", "", status, id)]);
      if commits {
        db := tx;
      }
    }

    /** The half of dispatch before transmission: at most one caller ever gets the snapshot to send. */
    method ClaimDispatch(id: string, now: int, commits: bool)
      returns (won: Option<(Snapshot, Service)>, ghost rows: seq<string>)
      modifies this
      ensures Enumerates(rows, RecheckRows(old(db), id, now))
      ensures match Transactions.Claim(old(db), id, rows, now)
              case Skipped => db == old(db) && won == None
              case Stopped(stopped) => db == (if commits then stopped else old(db)) && won == None
              case Won(claimed, snap, svc) =>
                if commits then db == claimed && won == Some((snap, svc)) else db == old(db) && won == None
    {
      hide ValidSnapshot, ReadSnapshot, Enumerates, RecheckRows, FinishTx;
      rows := SomeOrder([], RecheckRows(db, id, now));
      if id !in db.requests || db.requests[id].status != Queued {
        return None, rows;
      }
      var read := ReadSnapshot(db, id);
      if read.None? {
        Finish(id, Failed, "snapshot_integrity_failed", None, now, commits);
        return None, rows;
      }
      var snap := read.value;
      ReadRows(db, id, now);
      var svc;
      svc, rows := RunValidSnapshot(db, snap, now);
      if svc.None? {
        Finish(id, Cancelled, "authorization_changed_or_expired", None, now, commits);
        return None, rows;
      }
      if snap.permission !in db.permissions {
        return None, rows;
      }
      if db.permissions[snap.permission].mode == ApprovalRequired {
        if !ApprovedFor(db, id) {
          Finish(id, Failed, "approval_digest_mismatch", None, now, commits);
          return None, rows;
        }
      }
      var tx := db;
      tx := tx.(requests := tx.requests[id := tx.requests[id].(status := Dispatching)]);
      tx := tx.(audit := tx.audit + [RequestEvent("", snap.device, Dispatching, id)]);
      if !commits {
        return None, rows;
      }
      db := tx;
      return Some((snap, svc.value)), rows;
    }

    method Maintain(now: int, commits: bool) returns (ghost ids: seq<string>)
      modifies this
      ensures Enumerates(ids, Overdue(old(db), now))
      ensures db == if commits then Maintenance(old(db), ids, now) else old(db)
    {
      var found := Enumerate(Overdue(db, now));
      ids := found;
      EnumeratedIs(found, Overdue(db, now));
      var tx := CloseEach(db, found, Expired, "deadline_elapsed", now);
      tx := tx.(requests := map id | id in tx.requests :: PurgedRow(tx.requests[id], now));
      if commits {
        db := tx;
      }
    }

    /** recoverDispatches, run once by New before any listener or worker starts. */
    method RecoverDispatches(now: int, commits: bool) returns (ok: bool, ghost ids: seq<string>)
      modifies this
      ensures ok == commits && Enumerates(ids, Interrupted(old(db)))
      ensures db == if ok then Transactions.RecoverDispatches(old(db), ids, now) else old(db)
    {
      var found := Enumerate(Interrupted(db));
      ids := found;
      EnumeratedIs(found, Interrupted(db));
      var tx := CloseEach(db, found, OutcomeUnknown, "server_restarted_during_dispatch_check_provider", now);
      ok := commits;
      if ok {
        db := tx;
      }
    }

    method RecoverRestored(now: int, commits: bool) returns (ok: bool, ghost work: seq<(string, seq<string>)>)
      modifies this
      ensures ok == commits && DeviceWork(old(db), work)
      ensures db == if ok then Transactions.RecoverRestored(old(db), work, now) else old(db)
    {
      hide Enumerates, LiveIn, CancelRequests, Progress, InvalidateDevices;
      var devices := Enumerate(db.devices.Keys);
      EnumeratedIs(devices, db.devices.Keys);
      var tx := db;
      work := [];
      ProgressStart(db, devices, now);
      for i := 0 to |devices|
        modifies {}
        invariant Progress(db, devices, i, work, tx, now)
      {
        ProgressDevice(db, devices, i, work, tx, now);
        var saved := tx.(devices := tx.devices[devices[i] := tx.devices[devices[i]].(revoked := true)]);
        var cancelled, ids := CancelScope(saved, OfDevice(devices[i]), "restored_database_recovery", now);
        ProgressStep(db, devices, i, work, tx, ids, now);
        work := work + [(devices[i], ids)];
        tx := cancelled;
      }
      ProgressEnd(db, devices, work, tx, now);
      tx := tx.(audit := tx.audit + [Event("", "", AccessInvalidated, "")]);
      ok := commits;
      if ok {
        db := tx;
      }
    }

    // ---------- internal/server/owner.go ----------

    /** addService, for /service and /service-revise. */
    method AddService(owner: string, id: string, f: ServiceForm, revise: bool, now: int, commits: bool)
      returns (ok: bool, ghost ids: seq<string>)
      modifies this
      ensures revise ==> Enumerates(ids, LiveIn(old(db), OfService(id)))
      ensures var spec := if revise then ReviseService(old(db), owner, id, f, ids, now)
                          else CreateService(old(db), owner, id, f);
              ok == (commits && spec.Some?) && db == if ok then spec.value else old(db)
    {
      hide IdentityOk, HeaderNames, Enumerates, CancelRequests;
      ids := SomeOrder([], LiveIn(db, OfService(id)));
      if !IdentityOk(id, f) {
        return false, ids;
      }
      var requestHeaders := HeaderList(f.requestHeaders, REQUEST_DEFAULTS, CredentialHeader(f));
      if requestHeaders.None? {
        return false, ids;
      }
      var responseHeaders := HeaderList(f.responseHeaders, RESPONSE_DEFAULTS, CredentialHeader(f));
      if responseHeaders.None? || !f.cidrOk {
        return false, ids;
      }
      var tx := db;
      var revision, kind := 1, ServiceCreated;
      if revise {
        if id !in tx.services {
          return false, ids;
        }
        revision, kind := tx.services[id].revision + 1, ServiceRevised;
      } else if id in tx.services {
        return false, ids;
      }
      tx := tx.(services := tx.services[id :=
        SaveService(id, f, revision, requestHeaders.value, responseHeaders.value)]);
      if revise {
        SameLive(db, tx, OfService(id));
        tx, ids := CancelScope(tx, OfService(id), "service_revised", now);
      }
      tx := tx.(audit := tx.audit + [Event(owner, "", kind, id)]);
      if !commits {
        return false, ids;
      }
      db := tx;
      return true, ids;
    }

    method AddPermission(owner: string, f: PermissionForm, id: string, clock: nat, commits: bool) returns (ok: bool)
      modifies this
      ensures var spec := Transactions.AddPermission(old(db), owner, f, id, clock);
              ok == (commits && spec.Some?) && db == if ok then spec.value else old(db)
    {
      hide Path, OverlapsActive, Methods;
      var methods := ParseMethods(f.methods);
      if methods.None? || !Path(f.path) {
        return false;
      }
      var rule, mode := FormRule(f), FormMode(f);
      if rule.None? || mode.None? {
        return false;
      }
      if f.expires.Some? && f.expires.value <= clock {
        return false;
      }
      if !Enabled(db, f.service) || !ActiveDevice(db, f.device) {
        return false;
      }
      var overlap := ScanOverlap(db, rule.value, f.device, f.service, Unix(clock));
      if overlap || id in db.permissions || !commits {
        return false;
      }
      var expires := match f.expires case Some(t) => Some(Unix(t)) case None => None;
      var tx := db;
      var revision := tx.services[f.service].revision;
      tx := tx.(permissions := tx.permissions[id :=
        Permission(f.device, f.service, revision, rule.value, mode.value, owner, expires, false)]);
      tx := tx.(audit := tx.audit + [Event(owner, f.device, PermissionCreated, id)]);
      db := tx;
      return true;
    }

    method RevokePermission(owner: string, id: string, now: int, commits: bool)
      returns (ok: bool, ghost ids: seq<string>)
      modifies this
      ensures Enumerates(ids, LiveIn(old(db), OfPermission(id)))
      ensures var spec := Transactions.RevokePermission(old(db), owner, id, ids, now);
              ok == (commits && spec.Some?) && db == if ok then spec.value else old(db)
    {
      hide Enumerates, CancelRequests;
      var tx := db;
      if id in tx.permissions {
        tx := tx.(permissions := tx.permissions[id := tx.permissions[id].(revoked := true)]);
      }
      SameLive(db, tx, OfPermission(id));
      tx, ids := CancelScope(tx, OfPermission(id), "permission_revoked", now);
      if id !in db.permissions || !commits {
        return false, ids;
      }
      db := tx.(audit := tx.audit + [Event(owner, "", PermissionRevoked, id)]);
      return true, ids;
    }

    method DisableService(owner: string, id: string, now: int, commits: bool) returns (ok: bool, ghost ids: seq<string>)
      modifies this
      ensures Enumerates(ids, LiveIn(old(db), OfService(id)))
      ensures var spec := Transactions.DisableService(old(db), owner, id, ids, now);
              ok == (commits && spec.Some?) && db == if ok then spec.value else old(db)
    {
      hide Enumerates, CancelRequests;
      var tx := db;
      if id in tx.services {
        tx := tx.(services := tx.services[id :=
          tx.services[id].(enabled := false, revision := tx.services[id].revision + 1)]);
      }
      SameLive(db, tx, OfService(id));
      tx, ids := CancelScope(tx, OfService(id), "service_disabled", now);
      if id !in db.services || !commits {
        return false, ids;
      }
      db := tx.(audit := tx.audit + [Event(owner, "", ServiceDisabled, id)]);
      return true, ids;
    }

    method RevokeDevice(owner: string, id: string, now: int, commits: bool) returns (ok: bool, ghost ids: seq<string>)
      modifies this
      ensures Enumerates(ids, LiveIn(old(db), OfDevice(id)))
      ensures var spec := Transactions.RevokeDevice(old(db), owner, id, ids, now);
              ok == (commits && spec.Some?) && db == if ok then spec.value else old(db)
    {
      hide Enumerates, CancelRequests;
      var tx := db;
      if id in tx.devices {
        tx := tx.(devices := tx.devices[id := tx.devices[id].(revoked := true)]);
      }
      SameLive(db, tx, OfDevice(id));
      tx, ids := CancelScope(tx, OfDevice(id), "device_revoked", now);
      if id !in db.devices || !commits {
        return false, ids;
      }
      db := tx.(audit := tx.audit + [Event(owner, id, DeviceRevoked, id)]);
      return true, ids;
    }

    // ---------- the claim section of DeviceHandler ----------

    method ClaimDirect(device: string, service: string, verb: string, path: string, query: string, now: int,
                       commits: bool)
      returns (ok: bool, ghost rows: seq<string>)
      modifies this
      ensures Enumerates(rows, ActiveRows(old(db), device, service, now))
      ensures var spec := DirectClaim(old(db), device, service, verb, path, query, rows);
              ok == (commits && spec.Some?) && db == if ok then spec.value else old(db)
    {
      hide Authorize, Target, Enumerates;
      var pid, found := RunAuthorize(db, device, service, verb, path, now);
      rows := found;
      AuthorizedIsActive(db, rows, device, service, verb, path, now);
      if pid.None? || db.permissions[pid.value].mode != Standing {
        return false, rows;
      }
      var target := Target(db.services[service].base, path, query);
      if target.None? || !commits {
        return false, rows;
      }
      db := db.(audit := db.audit + [Event("", device, HttpClaim, pid.value)]);
      return true, rows;
    }
  }

  // ---------- frames ----------

  lemma SameLive(db: Db, db': Db, scope: Scope)
    requires db'.requests == db.requests
    ensures LiveIn(db', scope) == LiveIn(db, scope)
  {
  }

  lemma OtherDevicesLive(db: Db, id: string, ids: seq<string>, now: int)
    requires Enumerates(ids, LiveIn(db, OfDevice(id)))
    ensures forall d | d != id ::
              LiveIn(CancelRequests(db, ids, "restored_database_recovery", now), OfDevice(d)) == LiveIn(db, OfDevice(d))
  {
    hide Enumerates;
    EnumeratedIs(ids, LiveIn(db, OfDevice(id)));
  }

  /** Where the device loop of RecoverRestored is after `i` devices. */
  ghost predicate Progress(db: Db, devices: seq<string>, i: int, work: seq<(string, seq<string>)>, tx: Db, now: int) {
    Distinct(devices) && (forall d :: d in devices <==> d in db.devices)
    && 0 <= i == |work| <= |devices|
    && (forall k | 0 <= k < i :: work[k].0 == devices[k] && Enumerates(work[k].1, LiveIn(db, OfDevice(devices[k]))))
    && tx == InvalidateDevices(db, work, now) && tx.devices.Keys == db.devices.Keys
    && forall k | i <= k < |devices| :: LiveIn(tx, OfDevice(devices[k])) == LiveIn(db, OfDevice(devices[k]))
  }

  lemma ProgressStart(db: Db, devices: seq<string>, now: int)
    requires Distinct(devices) && forall d :: d in devices <==> d in db.devices
    ensures Progress(db, devices, 0, [], db, now)
  {
  }

  lemma ProgressDevice(db: Db, devices: seq<string>, i: int, work: seq<(string, seq<string>)>, tx: Db, now: int)
    requires Progress(db, devices, i, work, tx, now) && i < |devices|
    ensures 0 <= i && devices[i] in tx.devices
  {
    assert devices[i] in devices;
  }

  lemma ProgressStep(db: Db, devices: seq<string>, i: int, work: seq<(string, seq<string>)>, tx: Db, ids: seq<string>,
                     now: int)
    requires Progress(db, devices, i, work, tx, now) && 0 <= i < |devices| && devices[i] in tx.devices
    requires Enumerates(ids, LiveIn(RevokedDevice(tx, devices[i]), OfDevice(devices[i])))
    ensures var tx' := CancelRequests(RevokedDevice(tx, devices[i]), ids, "restored_database_recovery", now);
            Progress(db, devices, i + 1, work + [(devices[i], ids)], tx', now)
  {
    hide Enumerates, LiveIn, CancelRequests, InvalidateDevices;
    var id := devices[i];
    var saved := RevokedDevice(tx, id);
    forall d ensures LiveIn(saved, OfDevice(d)) == LiveIn(tx, OfDevice(d)) { SameLive(tx, saved, OfDevice(d)); }
    CancelFrame(saved, ids, "restored_database_recovery", now);
    OtherDevicesLive(saved, id, ids, now);
    InvalidateOneMore(db, work, (id, ids), now);
    assert forall k | i < k < |devices| :: devices[k] != id;
  }

  lemma ProgressEnd(db: Db, devices: seq<string>, work: seq<(string, seq<string>)>, tx: Db, now: int)
    requires Progress(db, devices, |devices|, work, tx, now)
    ensures DeviceWork(db, work) && tx == InvalidateDevices(db, work, now)
  {
    hide LiveIn, InvalidateDevices;
    assert seq(|work|, i requires 0 <= i < |work| => work[i].0) == devices;
    assert (set x | x in devices) == db.devices.Keys;
  }

  lemma {:induction false} InvalidateOneMore(db: Db, work: seq<(string, seq<string>)>, last: (string, seq<string>),
                                             now: int)
    ensures var before := InvalidateDevices(db, work, now);
            var saved := if last.0 in before.devices then RevokedDevice(before, last.0) else before;
            InvalidateDevices(db, work + [last], now)
            == CancelRequests(saved, last.1, "restored_database_recovery", now)
    decreases |work|
  {
    hide CancelRequests;
    if work == [] {
      assert (work + [last])[1..] == [];
    } else {
      var (device, ids) := work[0];
      var saved := if device in db.devices then RevokedDevice(db, device) else db;
      InvalidateOneMore(CancelRequests(saved, ids, "restored_database_recovery", now), work[1..], last, now);
      assert (work + [last])[1..] == work[1..] + [last];
    }
  }
}
