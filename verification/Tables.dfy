/** The tables of internal/store/migrations, and authorization over their rows (internal/access/access.go). */
module Tables {
  import opened Prelude
  import opened Access
  import opened Store
  import opened Requests

  datatype Device = Device(revoked: bool)

  datatype Service = Service(
    title: string, base: Base, auth: string, authHeader: string, privateCidr: string, revision: int,
    credential: Sealed<string>, requestHeaders: seq<string>, responseHeaders: seq<string>, enabled: bool)

  datatype Permission = Permission(
    device: string, service: string, revision: int, rule: Rule, mode: Mode, owner: string,
    expires: Option<int>, revoked: bool)

  datatype Status =
    | PendingApproval | Queued | Dispatching
    | Completed | Failed | OutcomeUnknown | Denied | Expired | Cancelled

  /** requests.Result: the stored outcome of an answered dispatch. */
  datatype Response = Response(
    httpStatus: int, headers: map<string, seq<string>>, body: string, encoding: string,
    truncated: bool, incomplete: bool)

  datatype Request = Request(
    device: string, service: string, revision: int, permission: string,
    keyHash: Digest<string>, submissionDigest: Digest<Submission>, snapshotDigest: Digest<Snapshot>,
    snapshot: Option<Sealed<Snapshot>>, status: Status, expires: int,
    finished: Option<int>, result: Option<Sealed<Response>>, reason: string)

  datatype Approval = Approval(owner: string, digest: Digest<Snapshot>, decision: string)

  /** Audit kinds; RequestIs(s) stands for "request_" followed by the status. */
  datatype Kind =
    | RequestIs(status: Status) | HttpClaim | InvitationCreated | DeviceRevoked
    | ServiceCreated | ServiceRevised | ServiceDisabled
    | PermissionCreated | PermissionRevoked | AccessInvalidated

  datatype Event = Event(owner: string, device: string, kind: Kind, entity: string)

  datatype Db = Db(
    devices: map<string, Device>, services: map<string, Service>, permissions: map<string, Permission>,
    requests: map<string, Request>, approvals: map<string, Approval>, audit: seq<Event>)

  const EMPTY_DB := Db(map[], map[], map[], map[], map[], [])

  // ---------- the lifecycle ----------

  /** server.terminal. */
  predicate Terminal(s: Status) {
    s != PendingApproval && s != Queued && s != Dispatching
  }

  /** Waiting for a decision or for a worker: the statuses cancellation and expiry select. */
  predicate Live(s: Status) {
    s == PendingApproval || s == Queued
  }

  function Rank(s: Status): nat {
    match s
    case PendingApproval => 3
    case Queued => 2
    case Dispatching => 1
    case _ => 0
  }

  /** The lifecycle graph. The source can also fail a queued request, for a damaged snapshot or a missing approval;
      that edge is left out, and every step of the machine is shown to do without it. */
  predicate Edge(s: Status, t: Status) {
    match s
    case PendingApproval => t in {Queued, Denied, Expired, Cancelled}
    case Queued => t in {Dispatching, Expired, Cancelled}
    case Dispatching => t in {Completed, Failed, OutcomeUnknown}
    case _ => false
  }

  // ---------- authorization ----------

  predicate ActiveDevice(db: Db, device: string) {
    device in db.devices && !db.devices[device].revoked
  }

  /** access.GetService: only enabled services are found. */
  predicate Enabled(db: Db, service: string) {
    service in db.services && db.services[service].enabled
  }

  predicate Unexpired(p: Permission, now: int) {
    p.expires.None? || p.expires.value > now
  }

  predicate Active(db: Db, p: Permission, device: string, service: string, now: int) {
    p.device == device && p.service == service && service in db.services
    && p.revision == db.services[service].revision && !p.revoked && Unexpired(p, now)
  }

  /** The rows the permission query returns, as a set: SQL leaves their order open. */
  function ActiveRows(db: Db, device: string, service: string, now: int): set<string> {
    set id | id in db.permissions && Active(db, db.permissions[id], device, service, now)
  }

  function FirstMatch(db: Db, rows: seq<string>, verb: string, path: string): Option<string> {
    if rows == [] then None
    else if rows[0] in db.permissions && Match(db.permissions[rows[0]].rule, verb, path) then Some(rows[0])
    else FirstMatch(db, rows[1..], verb, path)
  }

  /** access.Authorize when the query returned `rows`: the id of the first matching permission. */
  function Authorize(db: Db, rows: seq<string>, device: string, service: string, verb: string, path: string)
    : Option<string>
  {
    if !ActiveDevice(db, device) || !Enabled(db, service) then None
    else FirstMatch(db, rows, verb, path)
  }

  /** access.Authorize as written; `rows` is the order the query happened to return. */
  method RunAuthorize(db: Db, device: string, service: string, verb: string, path: string, now: int)
    returns (r: Option<string>, ghost rows: seq<string>)
    ensures Enumerates(rows, ActiveRows(db, device, service, now))
    ensures r == Authorize(db, rows, device, service, verb, path)
    ensures match r
            case Some(id) =>
              ActiveDevice(db, device) && Enabled(db, service)
              && id in ActiveRows(db, device, service, now) && Match(db.permissions[id].rule, verb, path)
            case None =>
              ActiveDevice(db, device) && Enabled(db, service) ==>
                forall id | id in ActiveRows(db, device, service, now) :: !Match(db.permissions[id].rule, verb, path)
  {
    hide Match;
    var cursor := Enumerate(ActiveRows(db, device, service, now));
    rows := cursor;
    assert forall id | id in ActiveRows(db, device, service, now) :: id in (set x | x in cursor);
    FirstMatchIsMatch(db, cursor, verb, path);
    if !ActiveDevice(db, device) || !Enabled(db, service) {
      return None, rows;
    }
    for i := 0 to |cursor|
      invariant FirstMatch(db, cursor, verb, path) == FirstMatch(db, cursor[i..], verb, path)
    {
      assert cursor[i] in ActiveRows(db, device, service, now) by { assert cursor[i] in (set x | x in cursor); }
      if Match(db.permissions[cursor[i]].rule, verb, path) {
        return Some(cursor[i]), rows;
      }
    }
    return None, rows;
  }

  /** What a first match is, and what its absence means. */
  lemma {:induction false} FirstMatchIsMatch(db: Db, rows: seq<string>, verb: string, path: string)
    ensures match FirstMatch(db, rows, verb, path)
            case Some(id) => id in rows && id in db.permissions && Match(db.permissions[id].rule, verb, path)
            case None => forall id | id in rows && id in db.permissions :: !Match(db.permissions[id].rule, verb, path)
  {
    hide Match;
    if rows != [] {
      FirstMatchIsMatch(db, rows[1..], verb, path);
      assert rows == [rows[0]] + rows[1..];
    }
  }
}
