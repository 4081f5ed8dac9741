/** The database transactions of internal/server, as functions from the committed tables to the tables a commit
    leaves. A transaction that rolls back leaves them as they were. Times are Unix seconds unless said otherwise. */
module Transactions {
  import opened Prelude
  import opened Access
  import opened Upstream
  import opened Store
  import opened Requests
  import opened Tables

  const DAY := 24 * 3600
  const QUEUE_SECONDS := 60
  const APPROVAL_SECONDS := 10 * 60
  const MAX_PENDING := 20

  // ---------- rows and events ----------

  function RequestEvent(owner: string, device: string, status: Status, id: string): Event {
    Event(owner, device, RequestIs(status), id)
  }

  function Closed(r: Request, status: Status, reason: string, now: int): Request {
    r.(status := status, reason := reason, finished := Some(now))
  }

  /** Closing many requests: an unguarded UPDATE and an audit event for each id, in the order of `ids`. */
  function CloseAll(db: Db, ids: seq<string>, status: Status, reason: string, now: int): Db {
    db.(
      requests := map id | id in db.requests ::
        if id in ids then Closed(db.requests[id], status, reason, now) else db.requests[id],
      audit := db.audit + seq(|ids|, i requires 0 <= i < |ids| => RequestEvent("", "", status, ids[i])))
  }

  /** finishTx: no status guard in the UPDATE. */
  function FinishTx(db: Db, id: string, status: Status, reason: string, result: Option<Response>, now: int): Db {
    var box := match result case Some(r) => Some(Encrypt(ResultPurpose(id), r)) case None => None;
    db.(
      requests := if id in db.requests
        then db.requests[id := Closed(db.requests[id], status, reason, now).(result := box)] else db.requests,
      audit := db.audit + [RequestEvent("", "", status, id)])
  }

  // ---------- Submit ----------

  datatype SubmitError =
    | Unacceptable | PermissionDenied | IdempotencyConflict | HeaderNotAllowed | InvalidTarget
    | PendingLimit | StorageUnavailable

  datatype SubmitReply = Accepted(id: string) | Refused(error: SubmitError)

  predicate HasKey(r: Request, device: string, keyHash: Digest<string>) {
    r.device == device && r.keyHash == keyHash
  }

  /** The request stored under a device's key; UNIQUE(device_id, key_hash) allows one. */
  ghost function FindKey(db: Db, device: string, keyHash: Digest<string>): Option<string> {
    if exists id :: id in db.requests && HasKey(db.requests[id], device, keyHash) then
      var id :| id in db.requests && HasKey(db.requests[id], device, keyHash);
      Some(id)
    else None
  }

  predicate Awaiting(r: Request, device: string, now: int) {
    r.device == device && r.status == PendingApproval && r.expires > now
  }

  /** The unexpired pending approvals of a device. */
  function Pending(db: Db, device: string, now: int): set<string> {
    set id | id in db.requests && Awaiting(db.requests[id], device, now)
  }

  function Deadline(mode: Mode, now: int): int {
    now + if mode == ApprovalRequired then APPROVAL_SECONDS else QUEUE_SECONDS
  }

  function FirstStatus(mode: Mode): Status {
    if mode == ApprovalRequired then PendingApproval else Queued
  }

  function BuildSnapshot(device: string, svc: Service, pid: string, input: Submission,
                         headers: map<string, seq<string>>, target: string, expires: int): Snapshot
  {
    Snapshot(1, device, input.service, svc.title, svc.revision, pid, ServicePurpose(input.service, svc.revision),
             target, input.verb, input.path, headers, input.body, expires, svc.privateCidr)
  }

  function BuildRequest(id: string, snap: Snapshot, input: Submission, status: Status): Request {
    Request(snap.device, snap.service, snap.revision, snap.permission, Sha256(input.key), SubmissionDigest(input),
            Sha256(snap), Some(Encrypt(RequestPurpose(id), snap)), status, snap.expires, None, None, "")
  }

  function InsertRequest(db: Db, id: string, r: Request): Db {
    db.(requests := db.requests[id := r], audit := db.audit + [RequestEvent("", r.device, r.status, id)])
  }

  /** What a normalized submission that passes authorization under permission `pid` leads to. */
  function Admit(db: Db, device: string, input: Submission, pid: string, id: string, now: int): (Db, SubmitReply)
    requires input.service in db.services && pid in db.permissions
  {
    var svc, p := db.services[input.service], db.permissions[pid];
    match ApplicationHeaders(input.headers, svc.requestHeaders, svc.authHeader)
    case None => (db, Refused(HeaderNotAllowed))
    case Some(headers) =>
      match Target(svc.base, input.path, input.query)
      case None => (db, Refused(InvalidTarget))
      case Some(target) =>
        if p.mode == ApprovalRequired && |Pending(db, device, now)| >= MAX_PENDING then (db, Refused(PendingLimit))
        else if id in db.requests then (db, Refused(StorageUnavailable))
        else
          var snap := BuildSnapshot(device, svc, pid, input, headers, target, Deadline(p.mode, now));
          (InsertRequest(db, id, BuildRequest(id, snap, input, FirstStatus(p.mode))), Accepted(id))
  }

  /** Server.Submit, when the permission query returns `rows` and the fresh identifier is `id`. */
  ghost function Submit(db: Db, device: string, raw: Submission, rows: seq<string>, id: string, now: int)
    : (Db, SubmitReply)
  {
    match Normalize(raw)
    case None => (db, Refused(Unacceptable))
    case Some(input) =>
      if !ActiveDevice(db, device) then (db, Refused(PermissionDenied))
      else
        match FindKey(db, device, Sha256(input.key))
        case Some(held) =>
          if db.requests[held].submissionDigest == SubmissionDigest(input) then (db, Accepted(held))
          else (db, Refused(IdempotencyConflict))
        case None =>
          match Authorize(db, rows, device, input.service, input.verb, input.path)
          case Some(pid) =>
            if pid in db.permissions then Admit(db, device, input, pid, id, now) else (db, Refused(PermissionDenied))
          case None => (db, Refused(PermissionDenied))
  }

  // ---------- snapshot and validSnapshot ----------

  /** Server.snapshot: the stored snapshot, if it opens, hashes to the stored digest and agrees with its row. */
  function ReadSnapshot(db: Db, id: string): Option<Snapshot> {
    if id !in db.requests || db.requests[id].snapshot.None? then None
    else
      var r := db.requests[id];
      match Decrypt(RequestPurpose(id), r.snapshot.value)
      case None => None
      case Some(snap) =>
        if Sha256(snap) != r.snapshotDigest || snap.version != 1 || snap.device != r.device
           || snap.service != r.service || snap.permission != r.permission || snap.revision != r.revision
           || snap.expires != r.expires || snap.credentialRef != ServicePurpose(r.service, r.revision)
        then None
        else Some(snap)
  }

  /** Server.validSnapshot: the service to dispatch to, if authority and target are still those of the snapshot. */
  function ValidSnapshot(db: Db, snap: Snapshot, rows: seq<string>, now: int): Option<Service> {
    match Authorize(db, rows, snap.device, snap.service, snap.verb, snap.path)
    case None => None
    case Some(pid) =>
      if snap.service !in db.services then None
      else
        var svc := db.services[snap.service];
        if svc.revision != snap.revision || pid != snap.permission || snap.expires <= now then None
        else if Target(svc.base, snap.path, RawQuery(snap.url)) != Some(snap.url) || snap.privateCidr != svc.privateCidr
        then None
        else Some(svc)
  }

  /** The permission rows a recheck of request `id` queries. */
  function RecheckRows(db: Db, id: string, now: int): set<string> {
    if id in db.requests then ActiveRows(db, db.requests[id].device, db.requests[id].service, now) else {}
  }

  // ---------- Decide ----------

  /** Server.Decide; None is an error. */
  function Decide(db: Db, owner: string, id: string, digest: Digest<Snapshot>, decision: string,
                  rows: seq<string>, now: int): Option<Db>
  {
    if decision != "approve" && decision != "deny" then None
    else if id !in db.requests || digest != db.requests[id].snapshotDigest
            || db.requests[id].status != PendingApproval then None
    else
      match ReadSnapshot(db, id)
      case None => None
      case Some(snap) =>
        if ValidSnapshot(db, snap, rows, now).None? || id in db.approvals then None
        else
          var next := if decision == "deny" then Denied else Queued;
          var finished := if decision == "deny" then Some(now) else None;
          Some(db.(
            approvals := db.approvals[id := Approval(owner, digest, decision)],
            requests := db.requests[id := db.requests[id].(status := next, finished := finished)],
            audit := db.audit + [RequestEvent(owner, snap.device, next, id)]))
  }

  // ---------- the claim half of dispatch ----------

  datatype ClaimResult = Skipped | Stopped(db: Db) | Won(db: Db, snap: Snapshot, svc: Service)

  predicate ApprovedFor(db: Db, id: string) {
    id in db.requests && id in db.approvals && db.approvals[id].decision == "approve"
    && db.approvals[id].digest == db.requests[id].snapshotDigest
  }

  function Claim(db: Db, id: string, rows: seq<string>, now: int): ClaimResult {
    if id !in db.requests || db.requests[id].status != Queued then Skipped
    else
      match ReadSnapshot(db, id)
      case None => Stopped(FinishTx(db, id, Failed, "snapshot_integrity_failed", None, now))
      case Some(snap) =>
        match ValidSnapshot(db, snap, rows, now)
        case None => Stopped(FinishTx(db, id, Cancelled, "authorization_changed_or_expired", None, now))
        case Some(svc) =>
          if snap.permission !in db.permissions then Skipped
          else if db.permissions[snap.permission].mode == ApprovalRequired && !ApprovedFor(db, id)
          then Stopped(FinishTx(db, id, Failed, "approval_digest_mismatch", None, now))
          else
            Won(db.(
              requests := db.requests[id := db.requests[id].(status := Dispatching)],
              audit := db.audit + [RequestEvent("", snap.device, Dispatching, id)]), snap, svc)
  }

  // ---------- loops over many rows ----------

  function Overdue(db: Db, now: int): set<string> {
    set id | id in db.requests && Live(db.requests[id].status) && db.requests[id].expires <= now
  }

  function PurgedRow(r: Request, now: int): Request {
    if r.finished.Some? && r.finished.value < now - DAY && Terminal(r.status)
    then r.(snapshot := None, result := None) else r
  }

  function Purge(db: Db, now: int): Db {
    db.(requests := map id | id in db.requests :: PurgedRow(db.requests[id], now))
  }

  /** Server.maintenance, when the overdue requests are returned in the order `ids`. */
  function Maintenance(db: Db, ids: seq<string>, now: int): Db {
    Purge(CloseAll(db, ids, Expired, "deadline_elapsed", now), now)
  }

  function Interrupted(db: Db): set<string> {
    set id | id in db.requests && db.requests[id].status == Dispatching
  }

  /** Server.recoverDispatches. */
  function RecoverDispatches(db: Db, ids: seq<string>, now: int): Db {
    CloseAll(db, ids, OutcomeUnknown, "server_restarted_during_dispatch_check_provider", now)
  }

  /** The column and value cancelRequests selects by. */
  datatype Scope = OfDevice(id: string) | OfService(id: string) | OfPermission(id: string)

  predicate InScope(r: Request, scope: Scope) {
    match scope
    case OfDevice(id) => r.device == id
    case OfService(id) => r.service == id
    case OfPermission(id) => r.permission == id
  }

  function LiveIn(db: Db, scope: Scope): set<string> {
    set id | id in db.requests && InScope(db.requests[id], scope) && Live(db.requests[id].status)
  }

  /** server.cancelRequests. */
  function CancelRequests(db: Db, ids: seq<string>, reason: string, now: int): Db {
    CloseAll(db, ids, Cancelled, reason, now)
  }

  function Audited(db: Db, owner: string, device: string, kind: Kind, entity: string): Db {
    db.(audit := db.audit + [Event(owner, device, kind, entity)])
  }

  // ---------- owner actions ----------

  /** The form of addService; `cidrOk` is what access.CIDR says of the private destination. */
  datatype ServiceForm = ServiceForm(
    title: string, base: Base, auth: string, credential: string, authHeader: string,
    requestHeaders: string, responseHeaders: string, privateCidr: string, cidrOk: bool)

  const REQUEST_DEFAULTS: seq<string> := ["Accept", "Content-Type"]
  const RESPONSE_DEFAULTS: seq<string> := ["Content-Type", "Content-Encoding", "Retry-After"]

  /** The checks of addService on identity, base and authentication. */
  predicate IdentityOk(id: string, f: ServiceForm) {
    Slug(id) && |f.title| <= 100 && BaseOk(f.base) && HeaderValue(f.credential)
    && (f.auth == "none"
        || (f.auth == "bearer" && f.credential != "")
        || (f.auth == "header" && f.credential != ""
            && HeaderName(Canonical(f.authHeader)) && !Reserved(Canonical(f.authHeader)))
        || (f.auth == "basic" && ':' in f.credential))
  }

  function CredentialHeader(f: ServiceForm): string {
    if f.auth == "header" then Canonical(f.authHeader) else ""
  }

  function RequestList(f: ServiceForm): Option<seq<string>> {
    HeaderNames(f.requestHeaders, REQUEST_DEFAULTS, CredentialHeader(f))
  }

  function ResponseList(f: ServiceForm): Option<seq<string>> {
    HeaderNames(f.responseHeaders, RESPONSE_DEFAULTS, CredentialHeader(f))
  }

  predicate FormOk(id: string, f: ServiceForm) {
    IdentityOk(id, f) && RequestList(f).Some? && ResponseList(f).Some? && f.cidrOk
  }

  function SaveService(id: string, f: ServiceForm, revision: int, requestHeaders: seq<string>,
                       responseHeaders: seq<string>): Service
  {
    Service(f.title, f.base, f.auth, CredentialHeader(f), f.privateCidr, revision,
            Encrypt(ServicePurpose(id, revision), if f.auth == "none" then "" else f.credential),
            requestHeaders, responseHeaders, true)
  }

  function BuildService(id: string, f: ServiceForm, revision: int): Service
    requires FormOk(id, f)
  {
    SaveService(id, f, revision, RequestList(f).value, ResponseList(f).value)
  }

  /** addService on /service. */
  function CreateService(db: Db, owner: string, id: string, f: ServiceForm): Option<Db> {
    if !FormOk(id, f) || id in db.services then None
    else Some(Audited(db.(services := db.services[id := BuildService(id, f, 1)]), owner, "", ServiceCreated, id))
  }

  /** addService on /service-revise. */
  function ReviseService(db: Db, owner: string, id: string, f: ServiceForm, ids: seq<string>, now: int): Option<Db> {
    if !FormOk(id, f) || id !in db.services then None
    else
      var saved := db.(services := db.services[id := BuildService(id, f, db.services[id].revision + 1)]);
      Some(Audited(CancelRequests(saved, ids, "service_revised", now), owner, "", ServiceRevised, id))
  }

  function DisableService(db: Db, owner: string, id: string, ids: seq<string>, now: int): Option<Db> {
    if id !in db.services then None
    else
      var svc := db.services[id];
      var saved := db.(services := db.services[id := svc.(enabled := false, revision := svc.revision + 1)]);
      Some(Audited(CancelRequests(saved, ids, "service_disabled", now), owner, "", ServiceDisabled, id))
  }

  const NANOSECONDS := 1_000_000_000

  /** time.Time.Unix: whole seconds, rounded down. */
  function Unix(clock: nat): nat {
    clock / NANOSECONDS
  }

  datatype PermissionForm = PermissionForm(
    device: string, service: string, methods: string, path: string, kind: string, mode: string,
    expires: Option<nat>)  // nanoseconds

  function FormRule(f: PermissionForm): Option<Rule> {
    match Methods(f.methods)
    case None => None
    case Some(methods) =>
      if !Path(f.path) then None
      else if f.kind == "" || f.kind == "exact" then Some(Rule(methods, f.path, Exact))
      else if f.kind == "subtree" then Some(Rule(methods, f.path, Subtree))
      else None
  }

  function FormMode(f: PermissionForm): Option<Mode> {
    if f.mode == "" || f.mode == "standing" then Some(Standing)
    else if f.mode == "approval_required" then Some(ApprovalRequired)
    else None
  }

  predicate OverlapsActive(db: Db, rule: Rule, device: string, service: string, now: int) {
    exists id | id in ActiveRows(db, device, service, now) :: Overlap(rule, db.permissions[id].rule)
  }

  /** addPermission at `clock` nanoseconds: the expiry is compared in nanoseconds and stored in seconds. */
  function AddPermission(db: Db, owner: string, f: PermissionForm, id: string, clock: nat): Option<Db> {
    if FormRule(f).None? || FormMode(f).None? || (f.expires.Some? && f.expires.value <= clock) then None
    else if !Enabled(db, f.service) || !ActiveDevice(db, f.device) then None
    else if OverlapsActive(db, FormRule(f).value, f.device, f.service, Unix(clock)) || id in db.permissions then None
    else
      var expires := match f.expires case Some(t) => Some(Unix(t)) case None => None;
      var p := Permission(f.device, f.service, db.services[f.service].revision, FormRule(f).value,
                          FormMode(f).value, owner, expires, false);
      Some(Audited(db.(permissions := db.permissions[id := p]), owner, f.device, PermissionCreated, id))
  }

  function RevokePermission(db: Db, owner: string, id: string, ids: seq<string>, now: int): Option<Db> {
    if id !in db.permissions then None
    else
      var saved := db.(permissions := db.permissions[id := db.permissions[id].(revoked := true)]);
      Some(Audited(CancelRequests(saved, ids, "permission_revoked", now), owner, "", PermissionRevoked, id))
  }

  function RevokedDevice(db: Db, id: string): Db
    requires id in db.devices
  {
    db.(devices := db.devices[id := db.devices[id].(revoked := true)])
  }

  function RevokeDevice(db: Db, owner: string, id: string, ids: seq<string>, now: int): Option<Db> {
    if id !in db.devices then None
    else Some(Audited(CancelRequests(RevokedDevice(db, id), ids, "device_revoked", now), owner, id, DeviceRevoked, id))
  }

  /** Invitation: a new active device. */
  function Invite(db: Db, owner: string, id: string): Option<Db> {
    if id in db.devices then None
    else Some(Audited(db.(devices := db.devices[id := Device(false)]), owner, id, InvitationCreated, id))
  }

  /** The device loop of RecoverRestored: one device and the live requests its cancellation found, at a time. */
  function InvalidateDevices(db: Db, work: seq<(string, seq<string>)>, now: int): Db
    decreases |work|
  {
    if work == [] then db
    else
      var (device, ids) := work[0];
      var saved := if device in db.devices then RevokedDevice(db, device) else db;
      InvalidateDevices(CancelRequests(saved, ids, "restored_database_recovery", now), work[1..], now)
  }

  /** The work of RecoverRestored: every device once, each with its live requests in some order. */
  predicate DeviceWork(db: Db, work: seq<(string, seq<string>)>) {
    Enumerates(seq(|work|, i requires 0 <= i < |work| => work[i].0), db.devices.Keys)
    && forall i | 0 <= i < |work| :: Enumerates(work[i].1, LiveIn(db, OfDevice(work[i].0)))
  }

  function RecoverRestored(db: Db, work: seq<(string, seq<string>)>, now: int): Db {
    Audited(InvalidateDevices(db, work, now), "", "", AccessInvalidated, "")
  }

  // ---------- the claim section of DeviceHandler ----------

  /** A direct HTTP call: only a standing permission is claimed. */
  function DirectClaim(db: Db, device: string, service: string, verb: string, path: string, query: string,
                       rows: seq<string>): Option<Db>
  {
    match Authorize(db, rows, device, service, verb, path)
    case None => None
    case Some(pid) =>
      if pid !in db.permissions || db.permissions[pid].mode != Standing || service !in db.services then None
      else if Target(db.services[service].base, path, query).None? then None
      else Some(Audited(db, "", device, HttpClaim, pid))
  }
}
