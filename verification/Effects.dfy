/** What each transaction requires and does, column by column and in the terms of the tables alone. */
module Effects {
  import opened Prelude
  import opened Strings
  import opened Access
  import opened Upstream
  import opened Store
  import opened Headers
  import opened Requests
  import opened Tables
  import opened Transactions
  import opened Results
  import opened Invariant
  import opened Preservation
  import opened Evolution
  import opened Actions
  import opened Lifecycle
  import opened Guarantees

  // ---------- authorization ----------

  /** Permission `pid` lets a device send a request of this method and path to a service at time `now`. */
  predicate Grants(db: Db, pid: string, device: string, service: string, verb: string, path: string, now: int) {
    device in db.devices && !db.devices[device].revoked
    && service in db.services && db.services[service].enabled
    && pid in db.permissions
    && db.permissions[pid].device == device && db.permissions[pid].service == service
    && db.permissions[pid].revision == db.services[service].revision && !db.permissions[pid].revoked
    && (db.permissions[pid].expires.None? || now < db.permissions[pid].expires.value)
    && Admitted(db.permissions[pid].rule, verb, path)
  }

  /** A rule names the method, and the path or, for a subtree, segments that the path continues. */
  predicate Admitted(p: Rule, verb: string, path: string) {
    verb in Split(p.methods, ',')
    && (path == p.path || (p.kind == Subtree && Split(TrimSlash(p.path), '/') < Split(path, '/')))
  }

  lemma MatchIsAdmitted()
    ensures forall p, verb, path :: Match(p, verb, path) <==> Admitted(p, verb, path)
  {
    hide Match, Split, TrimSlash;
    forall p, verb, path ensures Match(p, verb, path) <==> Admitted(p, verb, path) {
      MatchExact(p, verb, path);
    }
  }

  lemma GrantsIsActive(db: Db, pid: string, device: string, service: string, verb: string, path: string, now: int)
    ensures Grants(db, pid, device, service, verb, path, now) <==>
              ActiveDevice(db, device) && Enabled(db, service)
              && pid in ActiveRows(db, device, service, now) && Match(db.permissions[pid].rule, verb, path)
  {
    hide Match, Admitted;
    MatchIsAdmitted();
  }

  lemma AuthorizeIn(db: Db, pid: string, device: string, service: string, verb: string, path: string, rows: seq<string>,
                    now: int)
    requires DbInv(db, now) && Enumerates(rows, ActiveRows(db, device, service, now))
    ensures Authorize(db, rows, device, service, verb, path) == Some(pid)
            <==> Grants(db, pid, device, service, verb, path, now)
  {
    hide Match, Grants, Enumerates, ActiveRows, AllPermissions, Disjoint;
    var found := FirstMatch(db, rows, verb, path);
    GrantsIsActive(db, pid, device, service, verb, path, now);
    FirstMatchIsMatch(db, rows, verb, path);
    EnumeratedIs(rows, ActiveRows(db, device, service, now));
    ActiveKnown(db, device, service, now);
    if Grants(db, pid, device, service, verb, path, now) && found.Some? {
      OneActiveMatch(db, now, device, service, pid, found.value, verb, path);
    }
  }

  /** Authorize finds a permission exactly when it grants the request, whatever the row order. */
  lemma AuthorizeExact(m: Machine, pid: string, device: string, service: string, verb: string, path: string,
                       rows: seq<string>)
    requires Reachable(m) && Enumerates(rows, ActiveRows(m.db, device, service, Unix(m.clock)))
    ensures Authorize(m.db, rows, device, service, verb, path) == Some(pid)
            <==> Grants(m.db, pid, device, service, verb, path, Unix(m.clock))
  {
    hide Reachable, Inv, Grants, Enumerates;
    ReachableInv(m);
    InvDb(m);
    AuthorizeIn(m.db, pid, device, service, verb, path, rows, Unix(m.clock));
  }

  /** Under a rule for one path, only that path is ever transmitted. */
  lemma ExactPathOnly(m: Machine, k: nat)
    requires Reachable(m) && k < |m.wire|
    ensures var t := m.wire[k];
            t.snap.permission in m.db.permissions
            && Admitted(m.db.permissions[t.snap.permission].rule, t.snap.verb, t.snap.path)
            && (m.db.permissions[t.snap.permission].rule.kind == Exact ==>
                  t.snap.path == m.db.permissions[t.snap.permission].rule.path)
  {
    hide Reachable, Match, Filtered, Target, RawQuery, BaseOk, Path, Under;
    PermittedTransmission(m, k);
    MatchIsAdmitted();
  }

  // ---------- direct calls ----------

  /** A direct call is claimed exactly when a standing permission grants it and it has a target. */
  lemma DirectCallExact(m: Machine, device: string, service: string, verb: string, path: string, query: string,
                        rows: seq<string>)
    requires Reachable(m) && Enumerates(rows, ActiveRows(m.db, device, service, Unix(m.clock)))
    ensures DirectClaim(m.db, device, service, verb, path, query, rows).Some? <==>
              exists pid :: Grants(m.db, pid, device, service, verb, path, Unix(m.clock))
                            && m.db.permissions[pid].mode == Standing
                            && Target(m.db.services[service].base, path, query).Some?
  {
    hide Reachable, Inv, Grants, Enumerates, Authorize, Target;
    var now := Unix(m.clock);
    ReachableInv(m);
    InvDb(m);
    GrantsKnown();
    forall pid
      ensures Authorize(m.db, rows, device, service, verb, path) == Some(pid)
              <==> Grants(m.db, pid, device, service, verb, path, now)
    {
      AuthorizeIn(m.db, pid, device, service, verb, path, rows, now);
    }
    var found := Authorize(m.db, rows, device, service, verb, path);
    if found.Some? {
      assert Grants(m.db, found.value, device, service, verb, path, now);
    }
  }

  lemma GrantsKnown()
    ensures forall db, pid, device, service, verb, path, now | Grants(db, pid, device, service, verb, path, now) ::
              pid in db.permissions && service in db.services
  {
  }

  /** Its only effect is one audit event that names the device and the permission. */
  lemma DirectCallEffect(m: Machine, device: string, service: string, verb: string, path: string, query: string,
                         rows: seq<string>, pid: string)
    requires Reachable(m) && Enumerates(rows, ActiveRows(m.db, device, service, Unix(m.clock)))
    requires DirectClaim(m.db, device, service, verb, path, query, rows).Some?
    requires Grants(m.db, pid, device, service, verb, path, Unix(m.clock))
    ensures DirectClaim(m.db, device, service, verb, path, query, rows).value
            == m.db.(audit := m.db.audit + [Event("", device, HttpClaim, pid)])
  {
    hide Reachable, Grants, Enumerates, Authorize, Target;
    AuthorizeExact(m, pid, device, service, verb, path, rows);
  }

  /** Every direct call in the audit log was made under a standing permission of the device it names. */
  lemma CallsUnderStanding(m: Machine, k: nat)
    requires Reachable(m) && k < |m.db.audit| && m.db.audit[k].kind == HttpClaim
    ensures var e := m.db.audit[k];
            e.entity in m.db.permissions && m.db.permissions[e.entity].mode == Standing
            && m.db.permissions[e.entity].device == e.device
  {
    hide Inv, Run;
    var steps :| m == Run(START, steps);
    StartInv();
    RunInv(START, steps);
    hide LaterRequests, LaterDevices, LaterServices, LaterPermissions, LaterApprovals;
    assert UnderStanding(m.db, m.db.audit[k]);
  }

  // ---------- submissions ----------

  /** What a service and the rule's mode ask of a submission beyond the permission itself. */
  predicate Welcome(db: Db, pid: string, device: string, input: Submission, now: int) {
    input.service in db.services && pid in db.permissions
    && (forall n | n in input.headers ::
          (exists a | a in db.services[input.service].requestHeaders :: EqualFold(n, a))
          && !EqualFold(n, db.services[input.service].authHeader))
    && Target(db.services[input.service].base, input.path, input.query).Some?
    && (db.permissions[pid].mode == ApprovalRequired ==>
          |set i | i in db.requests && db.requests[i].device == device
                   && db.requests[i].status == PendingApproval && now < db.requests[i].expires| < 20)
  }

  /** A request of the device is stored under the key already. */
  predicate Taken(db: Db, device: string, key: string) {
    exists i :: i in db.requests && db.requests[i].device == device && db.requests[i].keyHash == Sha256(key)
  }

  /** The snapshot stored for a submission. */
  function Pictured(svc: Service, pid: string, device: string, input: Submission, expires: int): Snapshot
    requires Target(svc.base, input.path, input.query).Some?
  {
    Snapshot(1, device, input.service, svc.title, svc.revision, pid, ServicePurpose(input.service, svc.revision),
             Target(svc.base, input.path, input.query).value, input.verb, input.path,
             map n | n in input.headers :: [input.headers[n]], input.body, expires, svc.privateCidr)
  }

  lemma AdmitAccepts(db: Db, device: string, input: Submission, pid: string, id: string, now: int)
    requires input.service in db.services && pid in db.permissions && id !in db.requests
    ensures Admit(db, device, input, pid, id, now).1 == Accepted(id) <==> Welcome(db, pid, device, input, now)
    ensures Admit(db, device, input, pid, id, now).1.Accepted? ==>
              Admit(db, device, input, pid, id, now).1 == Accepted(id)
  {
    hide EqualFold, Target;
    assert Pending(db, device, now)
        == set i | i in db.requests && db.requests[i].device == device
                   && db.requests[i].status == PendingApproval && now < db.requests[i].expires;
  }

  lemma AdmitStores(db: Db, device: string, input: Submission, pid: string, id: string, now: int)
    requires input.service in db.services && pid in db.permissions && id !in db.requests
    requires Welcome(db, pid, device, input, now)
    ensures var svc, approval := db.services[input.service], db.permissions[pid].mode == ApprovalRequired;
            var status := if approval then PendingApproval else Queued;
            var snap := Pictured(svc, pid, device, input, now + if approval then 600 else 60);
            Admit(db, device, input, pid, id, now).0 == db.(
              requests := db.requests[id :=
                Request(device, input.service, svc.revision, pid, Sha256(input.key), Sha256(input.(key := "")),
                        Sha256(snap), Some(Sealed(RequestPurpose(id), snap)), status,
                        now + (if approval then 600 else 60), None, None, "")],
              audit := db.audit + [Event("", device, RequestIs(status), id)])
  {
    hide EqualFold, Target;
    AdmitAccepts(db, device, input, pid, id, now);
  }

  /** A new submission is accepted exactly when it is normal, its key is free, a permission grants it and the service
      welcomes it. */
  lemma NewRequestExact(m: Machine, device: string, raw: Submission, rows: seq<string>, id: string)
    requires Reachable(m) && id !in m.db.requests
    requires Enumerates(rows, ActiveRows(m.db, device, raw.service, Unix(m.clock)))
    ensures Submit(m.db, device, raw, rows, id, Unix(m.clock)).1 == Accepted(id) <==>
              Normalize(raw).Some? && !Taken(m.db, device, raw.key)
              && exists pid :: Grants(m.db, pid, device, raw.service, raw.verb, raw.path, Unix(m.clock))
                               && Welcome(m.db, pid, device, Normalize(raw).value, Unix(m.clock))
  {
    hide Reachable, Inv, Grants, Enumerates, Authorize, Normalize, Admit, Welcome, SubmissionDigest, ActiveDevice;
    var now := Unix(m.clock);
    ReachableInv(m);
    InvDb(m);
    GrantsKnown();
    NormalParts(raw);
    forall pid
      ensures Authorize(m.db, rows, device, raw.service, raw.verb, raw.path) == Some(pid)
              <==> Grants(m.db, pid, device, raw.service, raw.verb, raw.path, now)
    {
      AuthorizeIn(m.db, pid, device, raw.service, raw.verb, raw.path, rows, now);
    }
    TakenIsFound(m.db, device, raw.key);
    var found := Authorize(m.db, rows, device, raw.service, raw.verb, raw.path);
    if Normalize(raw).Some? && found.Some? {
      assert Grants(m.db, found.value, device, raw.service, raw.verb, raw.path, now);
      GrantsNeedsDevice(m.db, found.value, device, raw.service, raw.verb, raw.path, now);
      AdmitAccepts(m.db, device, Normalize(raw).value, found.value, id, now);
    }
  }

  lemma NormalParts(raw: Submission)
    ensures Normalize(raw).Some? ==> Normalize(raw).value.(headers := raw.headers) == raw
  {
    hide Precheck, Acceptable, Renamed, Canonical, BadHeader;
  }

  lemma TakenIsFound(db: Db, device: string, key: string)
    ensures Taken(db, device, key) <==> FindKey(db, device, Sha256(key)).Some?
  {
  }

  lemma GrantsNeedsDevice(db: Db, pid: string, device: string, service: string, verb: string, path: string, now: int)
    requires Grants(db, pid, device, service, verb, path, now)
    ensures ActiveDevice(db, device) && pid in db.permissions && service in db.services
  {
  }

  /** What is stored for it: the submission, the service as it is now, the permission, and a deadline 60 seconds ahead,
      or 600 if the request must be approved. */
  lemma NewRequestStored(m: Machine, device: string, raw: Submission, rows: seq<string>, id: string, pid: string)
    requires Reachable(m) && id !in m.db.requests
    requires Enumerates(rows, ActiveRows(m.db, device, raw.service, Unix(m.clock)))
    requires Submit(m.db, device, raw, rows, id, Unix(m.clock)).1 == Accepted(id)
    requires Grants(m.db, pid, device, raw.service, raw.verb, raw.path, Unix(m.clock))
    ensures Normalize(raw).Some? && Normalize(raw).value.service == raw.service
    ensures Target(m.db.services[raw.service].base, raw.path, raw.query).Some?
    ensures var input, svc, now := Normalize(raw).value, m.db.services[raw.service], Unix(m.clock);
            var approval := m.db.permissions[pid].mode == ApprovalRequired;
            var status := if approval then PendingApproval else Queued;
            var snap := Pictured(svc, pid, device, input, now + if approval then 600 else 60);
            Submit(m.db, device, raw, rows, id, now).0 == m.db.(
              requests := m.db.requests[id :=
                Request(device, input.service, svc.revision, pid, Sha256(input.key), Sha256(input.(key := "")),
                        Sha256(snap), Some(Sealed(RequestPurpose(id), snap)), status,
                        now + (if approval then 600 else 60), None, None, "")],
              audit := m.db.audit + [Event("", device, RequestIs(status), id)])
  {
    hide Reachable, Inv, Grants, Enumerates, Authorize, Normalize, Admit, SubmissionDigest, Pictured, EqualFold, Target;
    var now := Unix(m.clock);
    ReachableInv(m);
    InvDb(m);
    NormalParts(raw);
    GrantsNeedsDevice(m.db, pid, device, raw.service, raw.verb, raw.path, now);
    AuthorizeIn(m.db, pid, device, raw.service, raw.verb, raw.path, rows, now);
    SubmitIsAdmit(m.db, device, raw, rows, id, pid, now);
    AdmitAccepts(m.db, device, Normalize(raw).value, pid, id, now);
    AdmitStores(m.db, device, Normalize(raw).value, pid, id, now);
  }

  lemma SubmitIsAdmit(db: Db, device: string, raw: Submission, rows: seq<string>, id: string, pid: string, now: int)
    requires Normalize(raw).Some? ==> Normalize(raw).value.(headers := raw.headers) == raw
    requires Submit(db, device, raw, rows, id, now).1 == Accepted(id) && id !in db.requests
    requires Authorize(db, rows, device, raw.service, raw.verb, raw.path) == Some(pid)
    requires pid in db.permissions && raw.service in db.services
    ensures Normalize(raw).Some?
    ensures Submit(db, device, raw, rows, id, now) == Admit(db, device, Normalize(raw).value, pid, id, now)
  {
    hide Normalize, Admit, Authorize, SubmissionDigest, ActiveDevice;
  }

  /** A refusal changes nothing, and neither does an acceptance under an identifier that exists. */
  lemma SubmitElseNothing(db: Db, device: string, raw: Submission, rows: seq<string>, id: string, now: int)
    ensures var (db', reply) := Submit(db, device, raw, rows, id, now);
            reply.Refused? || (reply.Accepted? && reply.id in db.requests) ==> db' == db
  {
    hide Normalize, Authorize, SubmissionDigest, ActiveDevice, Target, ApplicationHeaders, Pending, InsertRequest;
    hide BuildSnapshot, BuildRequest;
  }

  /** A standing submission that is accepted can be sent next, from the very state it leaves. */
  lemma StandingCanBeSent(m: Machine, device: string, raw: Submission, rows: seq<string>, id: string, pid: string)
    requires Reachable(m) && m.up && id !in m.db.requests
    requires Enumerates(rows, ActiveRows(m.db, device, raw.service, Unix(m.clock)))
    requires Submit(m.db, device, raw, rows, id, Unix(m.clock)).1 == Accepted(id)
    requires Grants(m.db, pid, device, raw.service, raw.verb, raw.path, Unix(m.clock))
    requires m.db.permissions[pid].mode == Standing
    ensures var stored := Apply(m, Act(DeviceSubmits(device, raw, rows, id)));
            exists steps ::
              |Run(stored, steps).wire| == |m.wire| + 1 && Run(stored, steps).wire[|m.wire|].id == id
  {
    hide Reachable, Enumerates, Normalize, Submit, Run, Pictured, Match, Admitted;
    NewRequestStored(m, device, raw, rows, id, pid);
    ReachStep(m, Act(DeviceSubmits(device, raw, rows, id)));
    CanBeSent(Apply(m, Act(DeviceSubmits(device, raw, rows, id))), id);
  }

  // ---------- reading back and rechecking ----------

  /** A snapshot is read back exactly when it opens under its request, hashes to the stored digest, and names the
      device, service, revision, permission, deadline and credential of its row. */
  lemma SnapshotReads(db: Db, id: string, s: Snapshot)
    ensures ReadSnapshot(db, id) == Some(s) <==>
              id in db.requests && db.requests[id].snapshot == Some(Sealed(RequestPurpose(id), s))
              && db.requests[id].snapshotDigest == Sha256(s) && s.version == 1
              && s.device == db.requests[id].device && s.service == db.requests[id].service
              && s.revision == db.requests[id].revision && s.permission == db.requests[id].permission
              && s.expires == db.requests[id].expires
              && s.credentialRef == ServicePurpose(db.requests[id].service, db.requests[id].revision)
  {
  }

  /** A recheck passes exactly when the same permission is found, the service is at the revision of the snapshot, the
      deadline lies ahead, and the path and query lead to the same URL under the same private destination. */
  lemma RecheckMeans(db: Db, s: Snapshot, rows: seq<string>, now: int, svc: Service)
    ensures ValidSnapshot(db, s, rows, now) == Some(svc) <==>
              Authorize(db, rows, s.device, s.service, s.verb, s.path) == Some(s.permission)
              && s.service in db.services && db.services[s.service] == svc && svc.revision == s.revision
              && now < s.expires && Target(svc.base, s.path, RawQuery(s.url)) == Some(s.url)
              && s.privateCidr == svc.privateCidr
  {
    hide Authorize, Target, RawQuery;
  }

  // ---------- decisions ----------

  /** What a decision does: the approval record, the status with the finish time of a denial, and the event. */
  lemma DecideEffect(db: Db, owner: string, id: string, digest: Digest<Snapshot>, decision: string, rows: seq<string>,
                     now: int)
    requires Decide(db, owner, id, digest, decision, rows, now).Some?
    ensures id in db.requests && decision in ["approve", "deny"]
    ensures var r := db.requests[id];
            var status := if decision == "approve" then Queued else Denied;
            Decide(db, owner, id, digest, decision, rows, now).value == db.(
              approvals := db.approvals[id := Approval(owner, digest, decision)],
              requests := db.requests[id :=
                r.(status := status, finished := if decision == "approve" then None else Some(now))],
              audit := db.audit + [Event(owner, r.device, RequestIs(status), id)])
  {
    hide ValidSnapshot, ReadSnapshot;
    SnapshotReads(db, id, ReadSnapshot(db, id).value);
  }

  // ---------- claims ----------

  /** What a claim of a queued request does: while nothing has expired it is won, with the snapshot that was submitted
      and the service as it is now, and otherwise the request is cancelled. */
  lemma ClaimEffect(m: Machine, id: string, rows: seq<string>)
    requires Reachable(m) && id in m.db.requests && m.db.requests[id].status == Queued
    requires Enumerates(rows, RecheckRows(m.db, id, Unix(m.clock)))
    ensures m.db.requests[id].permission in m.db.permissions && m.db.requests[id].service in m.db.services
    ensures var r, now := m.db.requests[id], Unix(m.clock);
            var expires := m.db.permissions[r.permission].expires;
            Claim(m.db, id, rows, now) ==
              if now < r.expires && (expires.None? || now < expires.value) then
                Won(m.db.(requests := m.db.requests[id := r.(status := Dispatching)],
                          audit := m.db.audit + [Event("", r.device, RequestIs(Dispatching), id)]),
                    r.snapshotDigest.content, m.db.services[r.service])
              else
                Stopped(m.db.(
                  requests := m.db.requests[id :=
                    r.(status := Cancelled, reason := "authorization_changed_or_expired", result := None,
                       finished := Some(now))],
                  audit := m.db.audit + [Event("", "", RequestIs(Cancelled), id)]))
  {
    hide Reachable, Inv, Enumerates, RecheckRows, Claim, ValidSnapshot, ReadSnapshot;
    var r, now := m.db.requests[id], Unix(m.clock);
    ReachableInv(m);
    InvDb(m);
    ClaimExact(m, id, rows);
    LiveBacked(m.db, id, now);
    if Claim(m.db, id, rows, now).Won? {
      WonIsCurrent(m.db, id, rows, now);
    }
  }

  lemma WonIsCurrent(db: Db, id: string, rows: seq<string>, now: int)
    requires Claim(db, id, rows, now).Won?
    ensures id in db.requests && db.requests[id].service in db.services
    ensures Claim(db, id, rows, now).svc == db.services[db.requests[id].service]
  {
    hide ValidSnapshot, ReadSnapshot;
    var snap := ReadSnapshot(db, id).value;
    SnapshotReads(db, id, snap);
    RecheckMeans(db, snap, rows, now, ValidSnapshot(db, snap, rows, now).value);
  }

  // ---------- conclusions ----------

  /** How an attempt to send must be recorded: status and reason. */
  predicate Tells(w: Worker, outcome: Outcome, status: Status, reason: string) {
    match outcome
    case SendFails =>
      if w.Claimed? then status == Failed && reason == "request_not_sent"
      else status == OutcomeUnknown && reason == "connection_lost_check_provider"
    case Answers(_, _, _, readFails) =>
      if readFails then status == OutcomeUnknown && reason == "incomplete_response_check_provider"
      else status == Completed && reason == ""
  }

  /** The stored result of an answer: its status and headers, and the first 2^20 bytes that could be read. */
  predicate Holds(r: Response, outcome: Outcome)
    requires outcome.Answers?
  {
    var k := if |outcome.body| <= 1048576 then |outcome.body| else 1048576;
    r.httpStatus == outcome.httpStatus && r.headers == outcome.headers
    && DecodeBody(r) == Some(outcome.body[..k])
    && (r.truncated <==> |outcome.body| > 1048576) && (r.incomplete <==> outcome.readFails)
  }

  /** An answer concludes as completed exactly when it was read to its end; a failed send as failed exactly when no
      connection was obtained. */
  lemma EndingExact(w: Worker, outcome: Outcome)
    requires !w.Spawned? && CredentialOpens(w.snap, w.svc)
    ensures Ending(w, outcome).Some? <==>
              outcome.SendFails? || (w.Sent? && Bytes(ReadLimited(outcome.body)))
    ensures Ending(w, outcome).Some? ==>
              var (status, reason, result) := Ending(w, outcome).value;
              Tells(w, outcome, status, reason)
              && (result.Some? <==> outcome.Answers?)
              && (outcome.Answers? && Bytes(outcome.body) ==> Holds(result.value, outcome))
  {
    hide CredentialOpens, Bytes, ReadLimited, DecodeBody;
    if outcome.Answers? && Bytes(outcome.body) {
      RecordLossless(outcome.httpStatus, outcome.headers, outcome.body, outcome.readFails);
    }
    hide Record;
  }

  /** What a committed conclusion writes: status, reason, sealed result and finish time of its own request, one event,
      and nothing else. */
  lemma ConclusionEffect(m: Machine, w: nat, outcome: Outcome)
    requires Reachable(m) && w in m.workers && !m.workers[w].Spawned?
    requires outcome.SendFails? || (m.workers[w].Sent? && Bytes(outcome.body))
    ensures m.workers[w].id in m.db.requests
    ensures var k, m' := m.workers[w], Apply(m, Conclude(w, outcome, true));
            k.id in m'.db.requests
            && var r, r' := m.db.requests[k.id], m'.db.requests[k.id];
               m'.db == m.db.(requests := m.db.requests[k.id := r'],
                              audit := m.db.audit + [Event("", "", RequestIs(r'.status), k.id)])
               && r' == r.(status := r'.status, reason := r'.reason, result := r'.result,
                           finished := Some(Unix(m.clock)))
               && Tells(k, outcome, r'.status, r'.reason)
               && (outcome.SendFails? ==> r'.result == None)
               && (outcome.Answers? ==>
                     r'.result.Some? && r'.result.value.purpose == ResultPurpose(k.id)
                     && Holds(r'.result.value.plain, outcome))
               && m'.workers == m.workers - {w} && m'.wire == m.wire
  {
    hide Reachable, Inv, CredentialOpens, Bytes, Ending, Tells, Holds, Apply;
    ReachableInv(m);
    HolderOpens(m, w);
    HolderKnown(m, w);
    if outcome.Answers? { RecordLossless(outcome.httpStatus, outcome.headers, outcome.body, outcome.readFails); }
    EndingExact(m.workers[w], outcome);
    EndingIsWritten(m, w, outcome);
  }

  lemma EndingIsWritten(m: Machine, w: nat, outcome: Outcome)
    requires w in m.workers && m.workers[w].id in m.db.requests && Ending(m.workers[w], outcome).Some?
    ensures var (status, reason, result) := Ending(m.workers[w], outcome).value;
            var id := m.workers[w].id;
            var box := if result.Some? then Some(Sealed(ResultPurpose(id), result.value)) else None;
            var r' := m.db.requests[id].(status := status, reason := reason, result := box,
                                         finished := Some(Unix(m.clock)));
            Apply(m, Conclude(w, outcome, true)) == m.(
              workers := m.workers - {w},
              db := m.db.(requests := m.db.requests[id := r'],
                          audit := m.db.audit + [Event("", "", RequestIs(status), id)]))
  {
    hide Ending;
  }

  lemma HolderKnown(m: Machine, w: nat)
    requires Inv(m) && w in m.workers && !m.workers[w].Spawned?
    ensures m.workers[w].id in m.db.requests
  {
    hide DbInv, Entitled, Aimed;
    assert Holding(m, w, m.workers[w]);
  }

  /** A conclusion whose transaction fails changes no table, and the goroutine is gone. */
  lemma LostConclusion(m: Machine, w: nat, outcome: Outcome)
    requires w in m.workers && Ending(m.workers[w], outcome).Some?
    ensures Apply(m, Conclude(w, outcome, false)) == m.(workers := m.workers - {w})
  {
    hide Ending;
  }

  /** A completed request whose result is kept: it opens under the request, was read to its end, and decodes. */
  predicate Whole(db: Db, id: string) {
    id in db.requests && db.requests[id].status == Completed && db.requests[id].result.Some? ==>
      var box := db.requests[id].result.value;
      box.purpose == ResultPurpose(id) && !box.plain.incomplete && DecodeBody(box.plain).Some?
  }

  lemma WholeQuiet(db: Db, db': Db, now: int, id: string)
    requires Later(db, db', now) && Quiet(db, db') && Whole(db, id)
    ensures Whole(db', id)
  {
    hide LaterDevices, LaterServices, LaterPermissions, LaterApprovals, FreshActivity, DecodeBody;
    if id in db'.requests && db'.requests[id].status == Completed {
      assert LaterRow(db.requests[id], db'.requests[id], now);
    }
  }

  lemma WholeClaim(m: Machine, w: nat, rows: seq<string>, commits: bool, id: string)
    requires Inv(m) && w in m.workers && m.workers[w].Spawned? && Whole(m.db, id)
    ensures Whole(ClaimStep(m, w, rows, commits).db, id)
  {
    hide Inv, DbInv, Claim, DecodeBody;
    var claimed, now := m.workers[w].id, Unix(m.clock);
    InvDb(m);
    match Claim(m.db, claimed, rows, now)
    case Skipped =>
    case Stopped(_) =>
      InvParts(m.db, now);
      StoppedShape(m.db, claimed, rows, now);
    case Won(_, _, _) => WonService(m.db, claimed, rows, now);
  }

  lemma WholeConclude(m: Machine, w: nat, outcome: Outcome, commits: bool, id: string)
    requires Inv(m) && w in m.workers && Whole(m.db, id)
    ensures Whole(ConcludeStep(m, w, outcome, commits).db, id)
  {
    hide Inv, CredentialOpens, Ending, DecodeBody, ReadLimited, Bytes;
    if Ending(m.workers[w], outcome).Some? {
      EndingFits(m.workers[w], outcome);
      HolderOpens(m, w);
      EndingStores(m.workers[w], outcome);
    }
  }

  /** Whatever is stored as the result of a completed request was read to its end. */
  lemma EndingStores(w: Worker, outcome: Outcome)
    requires !w.Spawned? && CredentialOpens(w.snap, w.svc) && Ending(w, outcome).Some?
    ensures var (status, _, result) := Ending(w, outcome).value;
            status == Completed ==> result.Some? && !result.value.incomplete && DecodeBody(result.value).Some?
  {
    hide CredentialOpens, DecodeBody;
    if outcome.Answers? && Bytes(ReadLimited(outcome.body)) {
      var read := ReadLimited(outcome.body);
      assert ReadLimited(read) == read;
      RecordLossless(outcome.httpStatus, outcome.headers, read, outcome.readFails);
    }
    hide Record, ReadLimited, Bytes;
  }

  lemma WholeRestart(m: Machine, ids: seq<string>, id: string)
    requires Enumerates(ids, Interrupted(m.db)) && Whole(m.db, id)
    ensures Whole(RestartStep(m, ids).db, id)
  {
    hide Enumerates, DecodeBody;
    EnumeratedIs(ids, Interrupted(m.db));
  }

  lemma WholeStep(m: Machine, step: Step, id: string)
    requires Inv(m) && Whole(m.db, id)
    ensures Whole(Apply(m, step).db, id)
  {
    hide Inv, Whole, Perform, Later, Quiet, ClaimStep, ConcludeStep, RestartStep, Enumerates;
    match step
    case Act(a) =>
      if m.up {
        StepInv(m, step);
        PerformIsQuiet(m, a);
        WholeQuiet(m.db, Perform(m.db, a, m.clock), Unix(m.clock), id);
      }
    case TryClaim(w, rows, commits) =>
      if w in m.workers && m.workers[w].Spawned? { WholeClaim(m, w, rows, commits, id); }
    case Conclude(w, outcome, commits) => if w in m.workers { WholeConclude(m, w, outcome, commits, id); }
    case Restart(ids) => if !m.up && Enumerates(ids, Interrupted(m.db)) { WholeRestart(m, ids, id); }
    case _ =>
  }

  lemma {:induction false} WholeRun(m: Machine, steps: seq<Step>, id: string)
    requires Inv(m) && Whole(m.db, id)
    ensures Whole(Run(m, steps).db, id)
    decreases |steps|
  {
    hide Inv, Whole, Apply;
    if steps != [] {
      StepInv(m, steps[0]);
      WholeStep(m, steps[0], id);
      WholeRun(Apply(m, steps[0]), steps[1..], id);
    }
  }

  /** In every reachable state, the kept result of a completed request opens, was read to its end, and decodes. */
  lemma CompletedIsWhole(m: Machine, id: string)
    requires Reachable(m) && id in m.db.requests && m.db.requests[id].status == Completed
    requires m.db.requests[id].result.Some?
    ensures Decrypt(ResultPurpose(id), m.db.requests[id].result.value).Some?
    ensures var response := Decrypt(ResultPurpose(id), m.db.requests[id].result.value).value;
            !response.incomplete && DecodeBody(response).Some?
  {
    hide Inv, Run, DecodeBody;
    var steps :| m == Run(START, steps);
    StartInv();
    WholeRun(START, steps, id);
  }

  // ---------- cancelling in a scope ----------

  /** Exactly the requests in `hit` are cancelled, with this reason and finish time; every other row is unchanged. */
  predicate OnlyCancels(db: Db, db': Db, hit: set<string>, reason: string, now: int) {
    db'.requests.Keys == db.requests.Keys
    && forall i | i in db.requests ::
         db'.requests[i] ==
           if i in hit then db.requests[i].(status := Cancelled, reason := reason, finished := Some(now))
           else db.requests[i]
  }

  /** One event of this status for each identifier, in order. */
  function StatusEvents(ids: seq<string>, status: Status): seq<Event> {
    seq(|ids|, k requires 0 <= k < |ids| => Event("", "", RequestIs(status), ids[k]))
  }

  function WaitingRows(db: Db): set<string> {
    set i | i in db.requests && (db.requests[i].status == PendingApproval || db.requests[i].status == Queued)
  }

  lemma CancelEffect(db: Db, ids: seq<string>, hit: set<string>, reason: string, now: int)
    requires Enumerates(ids, hit) && hit <= db.requests.Keys
    ensures var db' := CancelRequests(db, ids, reason, now);
            OnlyCancels(db, db', hit, reason, now) && db'.audit == db.audit + StatusEvents(ids, Cancelled)
            && db'.devices == db.devices && db'.services == db.services && db'.permissions == db.permissions
            && db'.approvals == db.approvals
  {
    hide Enumerates;
    EnumeratedIs(ids, hit);
  }

  /** Revoking a permission cancels the waiting requests under it and touches no other request. */
  lemma RevokePermissionEffect(db: Db, owner: string, id: string, ids: seq<string>, now: int)
    requires Possible(db, OwnerRevokesPermission(owner, id, ids), now)
    ensures RevokePermission(db, owner, id, ids, now).Some? <==> id in db.permissions
    ensures id in db.permissions ==>
              var db' := RevokePermission(db, owner, id, ids, now).value;
              var hit := set i | i in WaitingRows(db) && db.requests[i].permission == id;
              Enumerates(ids, hit) && OnlyCancels(db, db', hit, "permission_revoked", now)
              && db'.permissions == db.permissions[id := db.permissions[id].(revoked := true)]
              && db'.devices == db.devices && db'.services == db.services && db'.approvals == db.approvals
              && db'.audit == db.audit + StatusEvents(ids, Cancelled) + [Event(owner, "", PermissionRevoked, id)]
  {
    hide Enumerates, CancelRequests, StatusEvents;
    var hit := set i | i in WaitingRows(db) && db.requests[i].permission == id;
    assert LiveIn(db, OfPermission(id)) == hit;
    if id in db.permissions {
      var saved := db.(permissions := db.permissions[id := db.permissions[id].(revoked := true)]);
      CancelEffect(saved, ids, hit, "permission_revoked", now);
    }
  }

  /** Revoking a device cancels the waiting requests of it and touches no other request. */
  lemma RevokeDeviceEffect(db: Db, owner: string, id: string, ids: seq<string>, now: int)
    requires Possible(db, OwnerRevokesDevice(owner, id, ids), now)
    ensures RevokeDevice(db, owner, id, ids, now).Some? <==> id in db.devices
    ensures id in db.devices ==>
              var db' := RevokeDevice(db, owner, id, ids, now).value;
              var hit := set i | i in WaitingRows(db) && db.requests[i].device == id;
              Enumerates(ids, hit) && OnlyCancels(db, db', hit, "device_revoked", now)
              && db'.devices == db.devices[id := Device(true)]
              && db'.permissions == db.permissions && db'.services == db.services && db'.approvals == db.approvals
              && db'.audit == db.audit + StatusEvents(ids, Cancelled) + [Event(owner, id, DeviceRevoked, id)]
  {
    hide Enumerates, CancelRequests, StatusEvents;
    var hit := set i | i in WaitingRows(db) && db.requests[i].device == id;
    assert LiveIn(db, OfDevice(id)) == hit;
    if id in db.devices {
      CancelEffect(RevokedDevice(db, id), ids, hit, "device_revoked", now);
    }
  }

  /** Disabling a service raises its revision, cancels the waiting requests for it and touches no other request. */
  lemma DisableServiceEffect(db: Db, owner: string, id: string, ids: seq<string>, now: int)
    requires Possible(db, OwnerDisablesService(owner, id, ids), now)
    ensures DisableService(db, owner, id, ids, now).Some? <==> id in db.services
    ensures id in db.services ==>
              var db' := DisableService(db, owner, id, ids, now).value;
              var svc := db.services[id];
              var hit := set i | i in WaitingRows(db) && db.requests[i].service == id;
              Enumerates(ids, hit) && OnlyCancels(db, db', hit, "service_disabled", now)
              && db'.services == db.services[id := svc.(enabled := false, revision := svc.revision + 1)]
              && db'.devices == db.devices && db'.permissions == db.permissions && db'.approvals == db.approvals
              && db'.audit == db.audit + StatusEvents(ids, Cancelled) + [Event(owner, "", ServiceDisabled, id)]
  {
    hide Enumerates, CancelRequests, StatusEvents;
    var hit := set i | i in WaitingRows(db) && db.requests[i].service == id;
    assert LiveIn(db, OfService(id)) == hit;
    if id in db.services {
      var svc := db.services[id];
      var saved := db.(services := db.services[id := svc.(enabled := false, revision := svc.revision + 1)]);
      CancelEffect(saved, ids, hit, "service_disabled", now);
    }
  }

  /** A new device starts active, and nothing else changes. */
  lemma InviteEffect(db: Db, owner: string, id: string)
    ensures Invite(db, owner, id).Some? <==> id !in db.devices
    ensures id !in db.devices ==>
              Invite(db, owner, id).value == db.(devices := db.devices[id := Device(false)],
                                                 audit := db.audit + [Event(owner, id, InvitationCreated, id)])
  {
  }

  // ---------- saving a service ----------

  /** What the form of a service must satisfy. */
  predicate WellFormed(id: string, f: ServiceForm) {
    1 <= |id| <= 48 && 'a' <= id[0] <= 'z' && (forall c | c in id :: 'a' <= c <= 'z' || '0' <= c <= '9' || c == '-')
    && |f.title| <= 100 && BaseOk(f.base) && HeaderValue(f.credential)
    && f.auth in ["none", "bearer", "header", "basic"]
    && (f.auth == "bearer" || f.auth == "header" ==> f.credential != "")
    && (f.auth == "header" ==> HeaderName(Canonical(f.authHeader)) && !Reserved(Canonical(f.authHeader)))
    && (f.auth == "basic" ==> ':' in f.credential)
    && f.cidrOk
    && (forall n | n in Named(f.requestHeaders, ["Accept", "Content-Type"]) :: Nameable(n, f))
    && forall n | n in Named(f.responseHeaders, ["Content-Type", "Content-Encoding", "Retry-After"]) :: Nameable(n, f)
  }

  /** The names a field lists, or the defaults. */
  function Named(raw: string, defaults: seq<string>): seq<string> {
    if raw == "" then defaults else Split(raw, ',')
  }

  /** A listed name is a valid header name, not reserved and not the header of the credential. */
  predicate Nameable(name: string, f: ServiceForm) {
    var n := Canonical(TrimSpace(name));
    HeaderName(n) && !Reserved(n) && !(f.auth == "header" && EqualFold(n, Canonical(f.authHeader)))
  }

  /** A saved list holds exactly the trimmed canonical forms of the names, each once. */
  predicate Lists(list: seq<string>, names: seq<string>) {
    Distinct(list)
    && (forall n | n in names :: Canonical(TrimSpace(n)) in list)
    && forall m | m in list :: exists n :: n in names && Canonical(TrimSpace(n)) == m
  }

  /** The service a form describes, at a revision. */
  predicate Describes(f: ServiceForm, id: string, revision: int, svc: Service) {
    svc.title == f.title && svc.base == f.base && svc.auth == f.auth && svc.privateCidr == f.privateCidr
    && svc.revision == revision && svc.enabled
    && svc.authHeader == (if f.auth == "header" then Canonical(f.authHeader) else "")
    && svc.credential == Sealed(ServicePurpose(id, revision), if f.auth == "none" then "" else f.credential)
    && Lists(svc.requestHeaders, Named(f.requestHeaders, ["Accept", "Content-Type"]))
    && Lists(svc.responseHeaders, Named(f.responseHeaders, ["Content-Type", "Content-Encoding", "Retry-After"]))
  }

  lemma {:induction false} ListingExact(names: seq<string>, credential: string, out: seq<string>)
    ensures Listing(names, credential, out).Some? <==> forall n | n in names :: Savable(n, credential)
    ensures Listing(names, credential, out).Some? ==>
              var list := Listing(names, credential, out).value;
              (forall m | m in out :: m in list) && (forall n | n in names :: Cleaned(n) in list)
              && forall m | m in list :: m in out || exists n :: n in names && Cleaned(n) == m
    decreases |names|
  {
    hide Savable, Cleaned;
    if names != [] {
      var n := Cleaned(names[0]);
      var more := if n in out then out else out + [n];
      ListingExact(names[1..], credential, more);
      assert names == [names[0]] + names[1..];
    }
  }

  lemma ListExact(raw: string, defaults: seq<string>, f: ServiceForm)
    ensures HeaderNames(raw, defaults, CredentialHeader(f)).Some? <==>
              forall n | n in Named(raw, defaults) :: Nameable(n, f)
    ensures HeaderNames(raw, defaults, CredentialHeader(f)).Some? ==>
              Lists(HeaderNames(raw, defaults, CredentialHeader(f)).value, Named(raw, defaults))
  {
    hide Listing, Canonical, TrimSpace, Reserved, HeaderName;
    ListingExact(Named(raw, defaults), CredentialHeader(f), []);
    forall n ensures Savable(n, CredentialHeader(f)) <==> Nameable(n, f) {
      assert HeaderName(Canonical(TrimSpace(n))) ==> |Canonical(TrimSpace(n))| > 0 by { NamesAreLong(); }
    }
    if HeaderNames(raw, defaults, CredentialHeader(f)).Some? {
      ListIsAllowed(raw, defaults, CredentialHeader(f));
    }
  }

  lemma NamesAreLong()
    ensures forall n | HeaderName(n) :: |n| > 0
  {
  }

  lemma ListIsAllowed(raw: string, defaults: seq<string>, credential: string)
    requires HeaderNames(raw, defaults, credential).Some?
    ensures Distinct(HeaderNames(raw, defaults, credential).value)
  {
    hide Listing, Names;
    NothingListed(credential);
    ListingAllowed(Names(raw, defaults), credential, []);
  }

  /** A form is accepted exactly when it is acceptable, and then the service built is the one it describes. */
  lemma FormExact(id: string, f: ServiceForm, revision: int)
    ensures FormOk(id, f) <==> WellFormed(id, f)
    ensures FormOk(id, f) ==> Describes(f, id, revision, BuildService(id, f, revision))
  {
    hide HeaderNames, BaseOk, HeaderValue, HeaderName, Reserved, Canonical, Named, Nameable, Lists;
    ListExact(f.requestHeaders, ["Accept", "Content-Type"], f);
    ListExact(f.responseHeaders, ["Content-Type", "Content-Encoding", "Retry-After"], f);
  }

  /** Creating a service stores the one the form describes, at revision 1. */
  lemma CreateServiceEffect(db: Db, owner: string, id: string, f: ServiceForm)
    ensures CreateService(db, owner, id, f).Some? <==> WellFormed(id, f) && id !in db.services
    ensures CreateService(db, owner, id, f).Some? ==>
              var db' := CreateService(db, owner, id, f).value;
              id in db'.services && Describes(f, id, 1, db'.services[id])
              && db' == db.(services := db.services[id := db'.services[id]],
                            audit := db.audit + [Event(owner, "", ServiceCreated, id)])
  {
    hide FormOk, WellFormed, Describes;
    FormExact(id, f, 1);
  }

  /** Revising a service stores the one the form describes at the next revision, cancels the waiting requests for it
      and touches no other request. */
  lemma ReviseServiceEffect(db: Db, owner: string, id: string, f: ServiceForm, ids: seq<string>, now: int)
    requires Possible(db, OwnerRevisesService(owner, id, f, ids), now)
    ensures ReviseService(db, owner, id, f, ids, now).Some? <==> WellFormed(id, f) && id in db.services
    ensures ReviseService(db, owner, id, f, ids, now).Some? ==>
              var db' := ReviseService(db, owner, id, f, ids, now).value;
              var hit := set i | i in WaitingRows(db) && db.requests[i].service == id;
              id in db'.services && Describes(f, id, db.services[id].revision + 1, db'.services[id])
              && db'.services == db.services[id := db'.services[id]]
              && Enumerates(ids, hit) && OnlyCancels(db, db', hit, "service_revised", now)
              && db'.devices == db.devices && db'.permissions == db.permissions && db'.approvals == db.approvals
              && db'.audit == db.audit + StatusEvents(ids, Cancelled) + [Event(owner, "", ServiceRevised, id)]
  {
    hide FormOk, WellFormed, Describes, Enumerates, CancelRequests, StatusEvents, BuildService;
    var hit := set i | i in WaitingRows(db) && db.requests[i].service == id;
    assert LiveIn(db, OfService(id)) == hit;
    if id in db.services {
      var revision := db.services[id].revision + 1;
      FormExact(id, f, revision);
      if FormOk(id, f) {
        var saved := db.(services := db.services[id := BuildService(id, f, revision)]);
        CancelEffect(saved, ids, hit, "service_revised", now);
      }
    } else {
      FormExact(id, f, 1);
    }
  }

  // ---------- recovering a restored database ----------

  /** The requests the device loop has still to cancel. */
  function WaitingOf(db: Db, devices: set<string>): set<string> {
    set i | i in WaitingRows(db) && db.requests[i].device in devices
  }

  function DevicesOf(work: seq<(string, seq<string>)>): set<string> {
    set k | 0 <= k < |work| :: work[k].0
  }

  lemma OneDevice(db: Db, device: string, ids: seq<string>, now: int)
    requires device in db.devices && Enumerates(ids, LiveIn(db, OfDevice(device)))
    ensures var db' := CancelRequests(RevokedDevice(db, device), ids, "restored_database_recovery", now);
            OnlyCancels(db, db', WaitingOf(db, {device}), "restored_database_recovery", now)
            && db'.devices == db.devices[device := Device(true)] && db'.audit == db.audit + StatusEvents(ids, Cancelled)
            && db'.services == db.services && db'.permissions == db.permissions && db'.approvals == db.approvals
  {
    hide Enumerates, CancelRequests, StatusEvents;
    assert LiveIn(db, OfDevice(device)) == WaitingOf(db, {device});
    CancelEffect(RevokedDevice(db, device), ids, WaitingOf(db, {device}), "restored_database_recovery", now);
  }

  lemma CancelsCompose(a: Db, b: Db, c: Db, d: string, devices: set<string>, reason: string, now: int)
    requires OnlyCancels(a, b, WaitingOf(a, {d}), reason, now)
    requires OnlyCancels(b, c, WaitingOf(b, devices), reason, now)
    ensures OnlyCancels(a, c, WaitingOf(a, {d} + devices), reason, now)
  {
  }

  lemma {:induction false} InvalidateEffect(db: Db, work: seq<(string, seq<string>)>, now: int)
    requires WorkLeft(db, work)
    ensures var db' := InvalidateDevices(db, work, now);
            OnlyCancels(db, db', WaitingOf(db, DevicesOf(work)), "restored_database_recovery", now)
            && db'.devices == (map d | d in db.devices :: if d in DevicesOf(work) then Device(true) else db.devices[d])
            && db'.services == db.services && db'.permissions == db.permissions && db'.approvals == db.approvals
            && db'.audit == db.audit + RecoveryEvents(work)
    decreases |work|
  {
    hide Enumerates, CancelRequests, StatusEvents, LiveIn, OnlyCancels, WaitingOf;
    if work == [] {
      NothingCancelled(db, now);
      assert DevicesOf(work) == {};
    } else {
      var (device, ids) := work[0];
      var db' := CancelRequests(RevokedDevice(db, device), ids, "restored_database_recovery", now);
      OneDevice(db, device, ids, now);
      WorkStep(db, work, "restored_database_recovery", now);
      InvalidateEffect(db', work[1..], now);
      assert DevicesOf(work) == {device} + DevicesOf(work[1..]) by { DevicesStep(work); }
      CancelsCompose(db, db', InvalidateDevices(db', work[1..], now), device, DevicesOf(work[1..]),
                     "restored_database_recovery", now);
      Associative(db.audit, StatusEvents(ids, Cancelled), RecoveryEvents(work[1..]));
    }
  }

  lemma DevicesStep(work: seq<(string, seq<string>)>)
    requires work != []
    ensures DevicesOf(work) == {work[0].0} + DevicesOf(work[1..])
  {
    forall d ensures d in DevicesOf(work) <==> d in {work[0].0} + DevicesOf(work[1..]) {
      if d in DevicesOf(work) {
        var k :| 0 <= k < |work| && work[k].0 == d;
        if k > 0 { assert work[1..][k - 1].0 == d; }
      }
      if d in DevicesOf(work[1..]) {
        var k :| 0 <= k < |work[1..]| && work[1..][k].0 == d;
        assert work[k + 1].0 == d;
      }
    }
  }

  lemma NothingCancelled(db: Db, now: int)
    ensures OnlyCancels(db, db, WaitingOf(db, {}), "restored_database_recovery", now)
  {
  }

  /** The cancellation events of the device loop, device by device. */
  function RecoveryEvents(work: seq<(string, seq<string>)>): seq<Event> {
    if work == [] then [] else StatusEvents(work[0].1, Cancelled) + RecoveryEvents(work[1..])
  }

  /** Recovery revokes every device, cancels every waiting request of one, and touches no other request. */
  lemma RecoverRestoredEffect(db: Db, work: seq<(string, seq<string>)>, now: int)
    requires Possible(db, OwnerRecovers(work), now)
    ensures var db' := RecoverRestored(db, work, now);
            OnlyCancels(db, db', WaitingOf(db, db.devices.Keys), "restored_database_recovery", now)
            && db'.devices == (map d | d in db.devices :: Device(true))
            && db'.services == db.services && db'.permissions == db.permissions && db'.approvals == db.approvals
            && db'.audit == db.audit + RecoveryEvents(work) + [Event("", "", AccessInvalidated, "")]
  {
    hide Enumerates, InvalidateDevices, WaitingOf, RecoveryEvents;
    DeviceWorkLeft(db, work);
    InvalidateEffect(db, work, now);
    AllDevices(db, work);
    hide DevicesOf;
    assert RecoverRestored(db, work, now).devices == map d | d in db.devices :: Device(true);
  }

  lemma AllDevices(db: Db, work: seq<(string, seq<string>)>)
    requires DeviceWork(db, work)
    ensures DevicesOf(work) == db.devices.Keys
  {
    hide LiveIn;
    var devices := seq(|work|, i requires 0 <= i < |work| => work[i].0);
    EnumeratedIs(devices, db.devices.Keys);
    forall d ensures d in DevicesOf(work) <==> d in db.devices.Keys {
      if d in devices {
        var k :| 0 <= k < |devices| && devices[k] == d;
        assert work[k].0 == d;
      }
      if d in DevicesOf(work) {
        var k :| 0 <= k < |work| && work[k].0 == d;
        assert devices[k] == d;
      }
    }
  }

  // ---------- maintenance and restart ----------

  /** Maintenance expires exactly the waiting requests whose deadline has come, then drops snapshot and result of
      exactly those that finished more than 86400 seconds ago, and logs the expiries. */
  lemma MaintenanceEffect(m: Machine, ids: seq<string>)
    requires Reachable(m) && Possible(m.db, Maintains(ids), Unix(m.clock))
    ensures var db', now := Maintenance(m.db, ids, Unix(m.clock)), Unix(m.clock);
            Enumerates(ids, set i | i in WaitingRows(m.db) && m.db.requests[i].expires <= now)
            && db'.requests.Keys == m.db.requests.Keys
            && (forall i | i in m.db.requests ::
                  var r := m.db.requests[i];
                  db'.requests[i] ==
                    if (r.status == PendingApproval || r.status == Queued) && r.expires <= now then
                      r.(status := Expired, reason := "deadline_elapsed", finished := Some(now))
                    else if r.finished.Some? && r.finished.value < now - 86400 then
                      r.(snapshot := None, result := None)
                    else r)
            && db'.devices == m.db.devices && db'.services == m.db.services && db'.permissions == m.db.permissions
            && db'.approvals == m.db.approvals
            && db'.audit == m.db.audit + StatusEvents(ids, Expired)
  {
    hide Reachable, Enumerates, Inv, Maintenance, RowOk, Overdue;
    ReachableInv(m);
    var now: int := Unix(m.clock);
    assert Overdue(m.db, now) == set i | i in WaitingRows(m.db) && m.db.requests[i].expires <= now by {
      OverdueIs(m.db, now);
    }
    MaintenanceFrame(m.db, ids, now);
    forall i | i in m.db.requests
      ensures var r := m.db.requests[i];
              Maintenance(m.db, ids, now).requests[i] ==
                if (r.status == PendingApproval || r.status == Queued) && r.expires <= now then
                  r.(status := Expired, reason := "deadline_elapsed", finished := Some(now))
                else if r.finished.Some? && r.finished.value < now - 86400 then
                  r.(snapshot := None, result := None)
                else r
    {
      InvRow(m, i);
      MaintenanceRow(m.db, ids, now, i);
      PurgedRowIs(i, m.db.requests[i], now);
      OverdueIs(m.db, now);
    }
  }

  lemma OverdueIs(db: Db, now: int)
    ensures Overdue(db, now) == set i | i in WaitingRows(db) && db.requests[i].expires <= now
    ensures forall i | i in db.requests ::
              i in Overdue(db, now) <==>
                (db.requests[i].status == PendingApproval || db.requests[i].status == Queued)
                && db.requests[i].expires <= now
  {
  }

  lemma MaintenanceFrame(db: Db, ids: seq<string>, now: int)
    ensures var db' := Maintenance(db, ids, now);
            db'.requests.Keys == db.requests.Keys
            && db'.devices == db.devices && db'.services == db.services && db'.permissions == db.permissions
            && db'.approvals == db.approvals
            && db'.audit == db.audit + StatusEvents(ids, Expired)
  {
    hide PurgedRow, Closed;
  }

  lemma PurgedRowIs(id: string, r: Request, now: int)
    requires RowOk(id, r)
    ensures PurgedRow(r, now) == if r.finished.Some? && r.finished.value < now - 86400
                                 then r.(snapshot := None, result := None) else r
    ensures var closed := Closed(r, Expired, "deadline_elapsed", now); PurgedRow(closed, now) == closed
    ensures (r.status == PendingApproval || r.status == Queued) ==> r.finished.None?
  {
  }

  /** A restart concludes exactly the interrupted dispatches as unknown and touches no other row. */
  lemma RestartEffect(m: Machine, ids: seq<string>)
    requires !m.up && Enumerates(ids, Interrupted(m.db))
    ensures var m' := Apply(m, Restart(ids));
            m'.up && m'.workers == m.workers && m'.wire == m.wire && m'.claims == m.claims
            && Enumerates(ids, set i | i in m.db.requests && m.db.requests[i].status == Dispatching)
            && m'.db.requests.Keys == m.db.requests.Keys
            && (forall i | i in m.db.requests ::
                  var r := m.db.requests[i];
                  m'.db.requests[i] ==
                    if r.status == Dispatching then
                      r.(status := OutcomeUnknown, reason := "server_restarted_during_dispatch_check_provider",
                         finished := Some(Unix(m.clock)))
                    else r)
            && m'.db.devices == m.db.devices && m'.db.services == m.db.services
            && m'.db.permissions == m.db.permissions && m'.db.approvals == m.db.approvals
            && m'.db.audit == m.db.audit + StatusEvents(ids, OutcomeUnknown)
  {
    hide Enumerates;
    assert Interrupted(m.db) == set i | i in m.db.requests && m.db.requests[i].status == Dispatching;
    EnumeratedIs(ids, Interrupted(m.db));
  }

  // ---------- granting ----------

  /** The rule a permission form describes. */
  predicate Asks(f: PermissionForm, rule: Rule) {
    Methods(f.methods) == Some(rule.methods) && Path(f.path) && rule.path == f.path
    && f.kind in ["", "exact", "subtree"] && (rule.kind == Subtree <==> f.kind == "subtree")
  }

  /** A rule shares some request with a permission in force. */
  ghost predicate Collides(db: Db, rule: Rule, device: string, service: string, now: int) {
    exists pid, verb, path ::
      Grants(db, pid, device, service, verb, path, now) && Path(path) && Admitted(rule, verb, path)
  }

  lemma CollidesIsOverlap(db: Db, rule: Rule, device: string, service: string, now: int)
    requires AllPermissions(db) && Path(rule.path) && ActiveDevice(db, device) && Enabled(db, service)
    ensures Collides(db, rule, device, service, now) <==> OverlapsActive(db, rule, device, service, now)
  {
    hide Match, Path, Overlap, Grants, Admitted;
    MatchIsAdmitted();
    if pid, verb, path :| Grants(db, pid, device, service, verb, path, now) && Path(path)
                          && Admitted(rule, verb, path) {
      GrantsIsActive(db, pid, device, service, verb, path, now);
      assert PermissionOk(db, db.permissions[pid]);
      OverlapExact(rule, db.permissions[pid].rule);
    }
    if pid :| pid in ActiveRows(db, device, service, now) && Overlap(rule, db.permissions[pid].rule) {
      assert PermissionOk(db, db.permissions[pid]);
      OverlapExact(rule, db.permissions[pid].rule);
      var verb, path :| Path(path) && Match(rule, verb, path) && Match(db.permissions[pid].rule, verb, path);
      GrantsIsActive(db, pid, device, service, verb, path, now);
    }
  }

  /** A permission is added exactly when its form is in order, its expiry lies ahead, its device and service are active
      and it shares no request with a permission in force; it is stored as the form describes it. */
  lemma AddPermissionEffect(m: Machine, owner: string, f: PermissionForm, id: string)
    requires Reachable(m) && id !in m.db.permissions
    ensures AddPermission(m.db, owner, f, id, m.clock).Some? <==>
              f.mode in ["", "standing", "approval_required"]
              && (f.expires.Some? ==> m.clock < f.expires.value)
              && f.device in m.db.devices && !m.db.devices[f.device].revoked
              && f.service in m.db.services && m.db.services[f.service].enabled
              && exists rule :: Asks(f, rule) && !Collides(m.db, rule, f.device, f.service, Unix(m.clock))
    ensures AddPermission(m.db, owner, f, id, m.clock).Some? ==>
              FormRule(f).Some? && Asks(f, FormRule(f).value)
              && AddPermission(m.db, owner, f, id, m.clock).value == m.db.(
                   permissions := m.db.permissions[id :=
                     Permission(f.device, f.service, m.db.services[f.service].revision, FormRule(f).value,
                                if f.mode == "approval_required" then ApprovalRequired else Standing, owner,
                                if f.expires.Some? then Some(f.expires.value / 1_000_000_000) else None, false)],
                   audit := m.db.audit + [Event(owner, f.device, PermissionCreated, id)])
  {
    hide Reachable, Inv, Path, Methods, OverlapsActive, Collides;
    ReachableInv(m);
    InvAuthority(m);
    hide AllPermissions, AllServices;
    forall rule | Asks(f, rule) ensures FormRule(f) == Some(rule) {}
    if FormRule(f).Some? {
      assert Asks(f, FormRule(f).value);
      if ActiveDevice(m.db, f.device) && Enabled(m.db, f.service) {
        CollidesIsOverlap(m.db, FormRule(f).value, f.device, f.service, Unix(m.clock));
      }
    }
  }

  // ---------- the credential a goroutine opens ----------

  /** Wherever a service of this name and revision is held, it is `svc`. */
  predicate Settles(m: Machine, id: string, svc: Service) {
    id in m.db.services && svc.revision <= m.db.services[id].revision
    && (m.db.services[id].revision == svc.revision ==> m.db.services[id] == svc)
    && (forall w | w in m.workers && !m.workers[w].Spawned? :: HeldIs(m.workers[w].snap, m.workers[w].svc, id, svc))
    && forall k | 0 <= k < |m.wire| :: HeldIs(m.wire[k].snap, m.wire[k].svc, id, svc)
  }

  predicate HeldIs(snap: Snapshot, held: Service, id: string, svc: Service) {
    snap.service == id && held.revision == svc.revision ==> held == svc
  }

  lemma EntitledIs(db: Db, snap: Snapshot, held: Service, id: string)
    requires Entitled(db, snap, held) && id in db.services
    ensures HeldIs(snap, held, id, db.services[id])
  {
    hide Permitted;
  }

  /** It is so when the service has just been saved. */
  lemma SavedSettles(m: Machine, id: string)
    requires Inv(m) && id in m.db.services
    ensures Settles(m, id, m.db.services[id])
  {
    hide DbInv, Entitled, Aimed, HeldIs;
    forall w | w in m.workers && !m.workers[w].Spawned?
      ensures HeldIs(m.workers[w].snap, m.workers[w].svc, id, m.db.services[id])
    {
      assert Holding(m, w, m.workers[w]);
      EntitledIs(m.db, m.workers[w].snap, m.workers[w].svc, id);
    }
    forall k | 0 <= k < |m.wire| ensures HeldIs(m.wire[k].snap, m.wire[k].svc, id, m.db.services[id]) {
      assert Honest(m, m.wire[k]);
      EntitledIs(m.db, m.wire[k].snap, m.wire[k].svc, id);
    }
  }

  lemma ServicesLater(m: Machine, m': Machine, id: string, svc: Service)
    requires MachineLater(m, m') && id in m.db.services && svc.revision <= m.db.services[id].revision
    requires m.db.services[id].revision == svc.revision ==> m.db.services[id] == svc
    ensures id in m'.db.services && svc.revision <= m'.db.services[id].revision
    ensures m'.db.services[id].revision == svc.revision ==> m'.db.services[id] == svc
  {
    hide LaterDevices, LaterPermissions, LaterRequests, LaterApprovals, FreshActivity;
  }

  lemma ClaimSettles(m: Machine, w: nat, rows: seq<string>, commits: bool, id: string, svc: Service)
    requires Inv(m) && w in m.workers && m.workers[w].Spawned? && Settles(m, id, svc)
    ensures var m' := ClaimStep(m, w, rows, commits);
            (forall v | v in m'.workers && !m'.workers[v].Spawned? ::
               HeldIs(m'.workers[v].snap, m'.workers[v].svc, id, svc))
            && m'.wire == m.wire
  {
    hide Inv, Claim, HeldIs, DbInv, AllPermissions, AllRefs, AllApproved, AllServices, Entitled;
    var claimed, now := m.workers[w].id, Unix(m.clock);
    if Claim(m.db, claimed, rows, now).Won? {
      InvDb(m);
      WonService(m.db, claimed, rows, now);
      var won := Claim(m.db, claimed, rows, now);
      WonIsCurrent(m.db, claimed, rows, now);
      InvParts(m.db, now);
      assert RowOk(claimed, m.db.requests[claimed]);
      assert HeldIs(won.snap, won.svc, id, svc) by { CurrentHeld(m.db, won.snap, won.svc, id, svc); }
    }
  }

  lemma CurrentHeld(db: Db, snap: Snapshot, held: Service, id: string, svc: Service)
    requires Entitled(db, snap, held) && id in db.services && svc.revision <= db.services[id].revision
    requires db.services[id].revision == svc.revision ==> db.services[id] == svc
    requires snap.service in db.services && held == db.services[snap.service]
    ensures HeldIs(snap, held, id, svc)
  {
    hide Permitted;
  }

  lemma StepSettles(m: Machine, step: Step, id: string, svc: Service)
    requires Inv(m) && Settles(m, id, svc)
    ensures Settles(Apply(m, step), id, svc)
  {
    hide Inv, HeldIs, Perform, ClaimStep, RecoverDispatches, Ending, MachineLater, CredentialOpens, Enumerates;
    StepInv(m, step);
    ServicesLater(m, Apply(m, step), id, svc);
    match step
    case TryClaim(w, rows, commits) =>
      if w in m.workers && m.workers[w].Spawned? { ClaimSettles(m, w, rows, commits, id, svc); }
    case _ =>
  }

  lemma {:induction false} RunSettles(m: Machine, steps: seq<Step>, id: string, svc: Service)
    requires Inv(m) && Settles(m, id, svc)
    ensures Settles(Run(m, steps), id, svc)
    decreases |steps|
  {
    hide Inv, Settles, Apply;
    if steps != [] {
      StepInv(m, steps[0]);
      StepSettles(m, steps[0], id, svc);
      RunSettles(Apply(m, steps[0]), steps[1..], id, svc);
    }
  }

  /** A goroutine that claims a request of a service at some revision, and what it transmits, carries the service that
      was saved at that revision, however often it has been revised since. */
  lemma ServiceIsThatOfRevision(m: Machine, steps: seq<Step>, id: string)
    requires Reachable(m) && id in m.db.services
    ensures var m', svc := Run(m, steps), m.db.services[id];
            (forall w | w in m'.workers && !m'.workers[w].Spawned? && m'.workers[w].snap.service == id
                        && m'.workers[w].snap.revision == svc.revision :: m'.workers[w].svc == svc)
            && forall k | 0 <= k < |m'.wire| && m'.wire[k].snap.service == id
                          && m'.wire[k].snap.revision == svc.revision :: m'.wire[k].svc == svc
  {
    hide Reachable, Inv, Run, Settles;
    ReachableInv(m);
    SavedSettles(m, id);
    RunSettles(m, steps, id, m.db.services[id]);
    RunInv(m, steps);
    SettledHolders(Run(m, steps), id, m.db.services[id]);
  }

  lemma SettledHolders(m: Machine, id: string, svc: Service)
    requires Inv(m) && Settles(m, id, svc)
    ensures forall w | w in m.workers && !m.workers[w].Spawned? && m.workers[w].snap.service == id
                       && m.workers[w].snap.revision == svc.revision :: m.workers[w].svc == svc
    ensures forall k | 0 <= k < |m.wire| && m.wire[k].snap.service == id
                       && m.wire[k].snap.revision == svc.revision :: m.wire[k].svc == svc
  {
    hide DbInv, Permitted, Aimed;
    forall w | w in m.workers && !m.workers[w].Spawned?
      ensures m.workers[w].svc.revision == m.workers[w].snap.revision
    {
      assert Holding(m, w, m.workers[w]);
    }
    forall k | 0 <= k < |m.wire| ensures m.wire[k].svc.revision == m.wire[k].snap.revision {
      assert Honest(m, m.wire[k]);
    }
  }

  /** After a form is saved, every goroutine that ever claims a request at that revision opens the credential of the
      form, or nothing for auth "none", and sends it to the base of the form. */
  lemma CredentialIsThatOfForm(m: Machine, a: Action, id: string, f: ServiceForm, steps: seq<Step>, w: nat)
    requires Reachable(m) && m.up && Possible(m.db, a, Unix(m.clock)) && WellFormed(id, f)
    requires (a.OwnerCreatesService? && a.id == id && a.form == f && id !in m.db.services)
             || (a.OwnerRevisesService? && a.id == id && a.form == f && id in m.db.services)
    requires var later := Run(Apply(m, Act(a)), steps);
             w in later.workers && !later.workers[w].Spawned? && later.workers[w].snap.service == id
             && later.workers[w].snap.revision == (if id in m.db.services then m.db.services[id].revision + 1 else 1)
    ensures var k := Run(Apply(m, Act(a)), steps).workers[w];
            Decrypt(k.snap.credentialRef, k.svc.credential) == Some(if f.auth == "none" then "" else f.credential)
            && k.svc.base == f.base && k.svc.auth == f.auth
            && k.svc.authHeader == (if f.auth == "header" then Canonical(f.authHeader) else "")
  {
    hide Reachable, Inv, Run, CreateService, ReviseService, WellFormed, Canonical, Lists, Named, CancelRequests;
    hide StatusEvents, OnlyCancels, Enumerates, LiveIn;
    var owner := a.owner;
    CreateServiceEffect(m.db, owner, id, f);
    if a.OwnerRevisesService? { ReviseServiceEffect(m.db, owner, id, f, a.ids, Unix(m.clock)); }
    var saved := Apply(m, Act(a));
    ReachStep(m, Act(a));
    ServiceIsThatOfRevision(saved, steps, id);
    assert Reachable(Run(saved, steps)) by { ReachRun(saved, steps); }
    CredentialAvailable(Run(saved, steps), w);
  }

  // ---------- what a goroutine does ----------

  /** A committed claim makes the goroutine the claimant and gives it the submitted snapshot and the current service; a
      claim that does not commit, or cancels, ends the goroutine. */
  lemma TryClaimEffect(m: Machine, w: nat, rows: seq<string>, commits: bool)
    requires Reachable(m) && w in m.workers && m.workers[w].Spawned?
    requires Enumerates(rows, RecheckRows(m.db, m.workers[w].id, Unix(m.clock)))
    ensures var id, now, m' := m.workers[w].id, Unix(m.clock), Apply(m, TryClaim(w, rows, commits));
            m'.wire == m.wire && m'.clock == m.clock && m'.up == m.up
            && if commits && Claim(m.db, id, rows, now).Won? && id in m.db.requests
               then m.db.requests[id].service in m.db.services
                    && m'.db == Claim(m.db, id, rows, now).db && m'.claims == m.claims[id := w]
                    && m'.workers == m.workers[w := Claimed(id, m.db.requests[id].snapshotDigest.content,
                                                            m.db.services[m.db.requests[id].service])]
               else m'.claims == m.claims && m'.workers == m.workers - {w}
                    && m'.db == if commits && Claim(m.db, id, rows, now).Stopped? then Claim(m.db, id, rows, now).db
                                else m.db
  {
    hide Reachable, Inv, Claim, Enumerates, RecheckRows, ReadSnapshot, ValidSnapshot;
    var id, now := m.workers[w].id, Unix(m.clock);
    if Claim(m.db, id, rows, now).Won? {
      WonIsQueued(m.db, id, rows, now);
      ClaimEffect(m, id, rows);
    }
  }

  /** A goroutine transmits what it claimed, once it is connected, and says so. */
  lemma TransmitEffect(m: Machine, w: nat)
    ensures var m' := Apply(m, Transmit(w));
            if w in m.workers && m.workers[w].Connected? then
              var k := m.workers[w];
              m'.wire == m.wire + [Transmission(k.id, w, k.snap, k.svc)]
              && m' == m.(wire := m'.wire, workers := m.workers[w := Sent(k.id, k.snap, k.svc)])
            else m' == m
  {
  }
}
