/** What Budge promises, proved of every reachable state and every run. */
module Guarantees {
  import opened Prelude
  import opened Access
  import opened Upstream
  import opened Store
  import opened Requests
  import opened Tables
  import opened Transactions
  import opened Invariant
  import opened Preservation
  import opened TableChanges
  import opened Evolution
  import opened Actions
  import opened Lifecycle

  // ---------- authorization is well defined ----------

  /** Two active permissions of one device and service that match one request are the same permission. */
  lemma OneActiveMatch(db: Db, now: int, device: string, service: string, p: string, q: string, verb: string,
                       path: string)
    requires AllPermissions(db) && Disjoint(db, now)
    requires p in ActiveRows(db, device, service, now) && q in ActiveRows(db, device, service, now)
    requires Match(db.permissions[p].rule, verb, path) && Match(db.permissions[q].rule, verb, path)
    ensures p == q
  {
    hide Path;
    var a, b := db.permissions[p], db.permissions[q];
    if p != q {
      assert PermissionOk(db, a) && PermissionOk(db, b);
      assert Together(a, b) && ActiveNow(db, a, now) && ActiveNow(db, b, now);
      BothMatch(a.rule, b.rule, verb, path);
    }
  }

  /** Authorize gives the same answer for every order in which the database returns the permission rows. */
  lemma AuthorizeOrderFree(m: Machine, device: string, service: string, verb: string, path: string, rows: seq<string>,
                           rows': seq<string>)
    requires Reachable(m)
    requires Enumerates(rows, ActiveRows(m.db, device, service, Unix(m.clock)))
    requires Enumerates(rows', ActiveRows(m.db, device, service, Unix(m.clock)))
    ensures Authorize(m.db, rows, device, service, verb, path) == Authorize(m.db, rows', device, service, verb, path)
  {
    hide Match, Enumerates, Reachable;
    ReachableInv(m);
    AuthorizeOrder(m.db, device, service, verb, path, rows, rows', Unix(m.clock));
  }

  lemma AuthorizeOrder(db: Db, device: string, service: string, verb: string, path: string, rows: seq<string>,
                       rows': seq<string>, now: int)
    requires DbInv(db, now)
    requires Enumerates(rows, ActiveRows(db, device, service, now))
    requires Enumerates(rows', ActiveRows(db, device, service, now))
    ensures Authorize(db, rows, device, service, verb, path) == Authorize(db, rows', device, service, verb, path)
  {
    hide Match, Enumerates, ActiveRows, Disjoint, AllPermissions;
    EnumeratedIs(rows, ActiveRows(db, device, service, now));
    EnumeratedIs(rows', ActiveRows(db, device, service, now));
    ActiveKnown(db, device, service, now);
    FirstMatchIsMatch(db, rows, verb, path);
    FirstMatchIsMatch(db, rows', verb, path);
    var a, b := FirstMatch(db, rows, verb, path), FirstMatch(db, rows', verb, path);
    if a.Some? && b.Some? {
      OneActiveMatch(db, now, device, service, a.value, b.value, verb, path);
    }
  }

  lemma ActiveKnown(db: Db, device: string, service: string, now: int)
    ensures forall id | id in ActiveRows(db, device, service, now) :: id in db.permissions
  {
  }

  /** No route is both standing and approval-required: with an active approval-required rule for it,
      a direct call is refused whatever the row order. */
  lemma ApprovalNotBypassed(m: Machine, pid: string, device: string, service: string, verb: string, path: string,
                            query: string, rows: seq<string>)
    requires Reachable(m)
    requires pid in ActiveRows(m.db, device, service, Unix(m.clock)) && m.db.permissions[pid].mode == ApprovalRequired
    requires Match(m.db.permissions[pid].rule, verb, path)
    requires Enumerates(rows, ActiveRows(m.db, device, service, Unix(m.clock)))
    ensures DirectClaim(m.db, device, service, verb, path, query, rows).None?
  {
    hide Match, Enumerates, Reachable, Target, ActiveRows, Disjoint, AllPermissions;
    ReachableInv(m);
    AuthorizedIsActive(m.db, rows, device, service, verb, path, Unix(m.clock));
    var a := Authorize(m.db, rows, device, service, verb, path);
    if a.Some? {
      OneActiveMatch(m.db, Unix(m.clock), device, service, pid, a.value, verb, path);
    }
  }

  /** A permission just added decides every request its rule matches: it is the one found, unless its expiry,
      compared in nanoseconds but kept in whole seconds, has already passed, and then none is. */
  lemma GrantDecides(m: Machine, owner: string, f: PermissionForm, id: string, verb: string, path: string,
                     rows: seq<string>)
    requires Reachable(m) && AddPermission(m.db, owner, f, id, m.clock).Some?
    requires FormRule(f).Some? && Match(FormRule(f).value, verb, path)
    requires var db' := AddPermission(m.db, owner, f, id, m.clock).value;
             Enumerates(rows, ActiveRows(db', f.device, f.service, Unix(m.clock)))
    ensures Authorize(AddPermission(m.db, owner, f, id, m.clock).value, rows, f.device, f.service, verb, path)
            == if f.expires.None? || Unix(m.clock) < Unix(f.expires.value) then Some(id) else None
  {
    hide Match, Enumerates, Reachable, Methods, Path, Overlap, AllRefs, AllServices, AllRows, AllLive;
    hide AllApproved, AllTrails, Capped, UniqueKeys;
    ReachableInv(m);
    var db', now := AddPermission(m.db, owner, f, id, m.clock).value, Unix(m.clock);
    AddPermissionGood(m.db, owner, f, id, m.clock);
    AuthorizedIsActive(db', rows, f.device, f.service, verb, path, now);
    FirstMatchIsMatch(db', rows, verb, path);
    EnumeratedIs(rows, ActiveRows(db', f.device, f.service, now));
    var a := Authorize(db', rows, f.device, f.service, verb, path);
    if f.expires.None? || now < Unix(f.expires.value) {
      assert id in ActiveRows(db', f.device, f.service, now);
      OneActiveMatch(db', now, f.device, f.service, id, a.value, verb, path);
    } else if a.Some? {
      OnlyGrantMatches(m.db, owner, f, id, m.clock, a.value, verb, path);
    }
  }

  /** No rule active before a grant matches what the grant matches. */
  lemma OnlyGrantMatches(db: Db, owner: string, f: PermissionForm, id: string, clock: nat, pid: string, verb: string,
                         path: string)
    requires AllPermissions(db) && AddPermission(db, owner, f, id, clock).Some? && pid != id
    requires FormRule(f).Some? && Match(FormRule(f).value, verb, path)
    requires pid in ActiveRows(db, f.device, f.service, Unix(clock))
    ensures !Match(db.permissions[pid].rule, verb, path)
  {
    hide Methods, Path, Match;
    assert PermissionOk(db, db.permissions[pid]);
    if Match(db.permissions[pid].rule, verb, path) {
      BothMatch(FormRule(f).value, db.permissions[pid].rule, verb, path);
    }
  }

  // ---------- the recheck is exact ----------

  lemma RecheckIn(db: Db, id: string, rows: seq<string>, now: int)
    requires DbInv(db, now) && id in db.requests && Live(db.requests[id].status)
    requires Enumerates(rows, RecheckRows(db, id, now))
    ensures ReadSnapshot(db, id) == Some(Submitted(db.requests[id]))
    ensures ValidSnapshot(db, Submitted(db.requests[id]), rows, now).Some?
            <==> now < db.requests[id].expires && Unexpired(db.permissions[db.requests[id].permission], now)
  {
    hide Match, Target, RawQuery, HeadersFit, Enumerates, Disjoint, AllPermissions, AllServices, AllApproved, AllTrails;
    hide Capped, UniqueKeys, FirstMatch;
    var r := db.requests[id];
    var s, pid := Submitted(r), r.permission;
    assert RowOk(id, r) && RowRefs(db, r) && Backed(db, r);
    ReadSnapshotIsSubmitted(db, id);
    AuthorizedIsActive(db, rows, s.device, s.service, s.verb, s.path, now);
    FirstMatchIsMatch(db, rows, s.verb, s.path);
    EnumeratedIs(rows, ActiveRows(db, r.device, r.service, now));
    if Unexpired(db.permissions[pid], now) {
      assert pid in ActiveRows(db, r.device, r.service, now);
      var a := Authorize(db, rows, s.device, s.service, s.verb, s.path);
      assert a.Some?;
      OneActiveMatch(db, now, r.device, r.service, pid, a.value, s.verb, s.path);
    }
  }

  /** For every waiting request of every reachable state, the snapshot reads back and the recheck passes exactly
      while the deadline of the request and the expiry of its permission both lie ahead. */
  lemma RecheckExact(m: Machine, id: string, rows: seq<string>)
    requires Reachable(m) && id in m.db.requests && Live(m.db.requests[id].status)
    requires Enumerates(rows, RecheckRows(m.db, id, Unix(m.clock)))
    ensures m.db.requests[id].permission in m.db.permissions
    ensures ReadSnapshot(m.db, id) == Some(Submitted(m.db.requests[id]))
    ensures ValidSnapshot(m.db, Submitted(m.db.requests[id]), rows, Unix(m.clock)).Some?
            <==> Unix(m.clock) < m.db.requests[id].expires
                 && Unexpired(m.db.permissions[m.db.requests[id].permission], Unix(m.clock))
  {
    hide Reachable, Enumerates;
    ReachableInv(m);
    RecheckIn(m.db, id, rows, Unix(m.clock));
  }

  /** So a claim of a queued request wins while nothing has expired, and otherwise cancels it: integrity failures,
      changed authority and approval mismatches never occur. */
  lemma ClaimExact(m: Machine, id: string, rows: seq<string>)
    requires Reachable(m) && id in m.db.requests && m.db.requests[id].status == Queued
    requires Enumerates(rows, RecheckRows(m.db, id, Unix(m.clock)))
    ensures m.db.requests[id].permission in m.db.permissions
    ensures var r, now := m.db.requests[id], Unix(m.clock);
            if now < r.expires && Unexpired(m.db.permissions[r.permission], now)
            then Claim(m.db, id, rows, now).Won? && Claim(m.db, id, rows, now).db == Dispatched(m.db, id)
                 && Claim(m.db, id, rows, now).snap == Submitted(r)
            else Claim(m.db, id, rows, now)
                 == Stopped(FinishTx(m.db, id, Cancelled, "authorization_changed_or_expired", None, now))
  {
    hide Reachable, Enumerates, ValidSnapshot, ReadSnapshot, FinishTx, Disjoint, AllPermissions, AllServices;
    hide AllTrails, Capped, UniqueKeys, AllLive;
    ReachableInv(m);
    RecheckIn(m.db, id, rows, Unix(m.clock));
    var r := m.db.requests[id];
    assert RowOk(id, r) && ApprovalOk(m.db, id, r);
  }

  /** When a request is claimed, the authority it was submitted under is in force at that moment: its device is active,
      its service enabled at its revision, and its permission active, with a rule that covers it; and its deadline
      lies ahead. */
  lemma ClaimedUnderAuthority(m: Machine, step: Step, id: string)
    requires Reachable(m) && id !in m.claims && id in Apply(m, step).claims
    ensures id in m.db.requests
    ensures var r, now := m.db.requests[id], Unix(m.clock);
            ActiveDevice(m.db, r.device) && Enabled(m.db, r.service) && m.db.services[r.service].revision == r.revision
            && r.permission in ActiveRows(m.db, r.device, r.service, now)
            && Match(m.db.permissions[r.permission].rule, Submitted(r).verb, Submitted(r).path)
            && now < r.expires
  {
    hide Reachable, Inv, Match, ClaimStep, Enumerates, ReadSnapshot, ValidSnapshot, HeadersFit, Target, RawQuery;
    ReachableInv(m);
    StepClaims(m, step, id);
    var rows, now := step.rows, Unix(m.clock);
    InvDb(m);
    RecheckIn(m.db, id, rows, now);
    WonIsValid(m.db, id, rows, now);
    LiveBacked(m.db, id, now);
  }

  /** Only a winning claim of a queued request adds a claimant. */
  lemma StepClaims(m: Machine, step: Step, id: string)
    requires Inv(m) && id !in m.claims && id in Apply(m, step).claims
    ensures step.TryClaim? && id in m.db.requests && m.db.requests[id].status == Queued
    ensures Enumerates(step.rows, RecheckRows(m.db, id, Unix(m.clock)))
    ensures Claim(m.db, id, step.rows, Unix(m.clock)).Won?
  {
    hide Inv, Claim, Enumerates, Perform, Ending, RecheckRows;
    assert step.TryClaim?;
    assert Claim(m.db, id, step.rows, Unix(m.clock)).Won?;
    WonIsQueued(m.db, id, step.rows, Unix(m.clock));
  }

  lemma WonIsQueued(db: Db, id: string, rows: seq<string>, now: int)
    requires Claim(db, id, rows, now).Won?
    ensures id in db.requests && db.requests[id].status == Queued
  {
  }

  lemma WonIsValid(db: Db, id: string, rows: seq<string>, now: int)
    requires Claim(db, id, rows, now).Won?
    ensures ReadSnapshot(db, id).Some? && ValidSnapshot(db, ReadSnapshot(db, id).value, rows, now).Some?
  {
    hide ReadSnapshot, ValidSnapshot;
  }

  /** A decision takes effect exactly when it is one of the two words, names the digest of a pending request, and the
      deadline of the request and the expiry of its permission both lie ahead. */
  lemma DecideExact(m: Machine, owner: string, id: string, digest: Digest<Snapshot>, decision: string,
                    rows: seq<string>)
    requires Reachable(m) && Enumerates(rows, RecheckRows(m.db, id, Unix(m.clock)))
    ensures Decide(m.db, owner, id, digest, decision, rows, Unix(m.clock)).Some? <==>
              decision in ["approve", "deny"] && id in m.db.requests && m.db.requests[id].permission in m.db.permissions
              && digest == m.db.requests[id].snapshotDigest && m.db.requests[id].status == PendingApproval
              && Unix(m.clock) < m.db.requests[id].expires
              && Unexpired(m.db.permissions[m.db.requests[id].permission], Unix(m.clock))
  {
    hide Reachable, Enumerates, ValidSnapshot, ReadSnapshot, RecheckRows, Disjoint, AllPermissions, AllServices;
    hide AllTrails, Capped, UniqueKeys, AllLive;
    ReachableInv(m);
    if id in m.db.requests && m.db.requests[id].status == PendingApproval {
      RecheckIn(m.db, id, rows, Unix(m.clock));
      var r := m.db.requests[id];
      assert RowOk(id, r) && RowRefs(m.db, r) && ApprovalOk(m.db, id, r);
    }
  }

  /** A claimed request always finds its credential. */
  lemma CredentialAvailable(m: Machine, w: nat)
    requires Reachable(m) && w in m.workers && !m.workers[w].Spawned?
    ensures CredentialOpens(m.workers[w].snap, m.workers[w].svc)
  {
    hide Reachable, Inv, CredentialOpens;
    ReachableInv(m);
    HolderOpens(m, w);
  }

  lemma HolderOpens(m: Machine, w: nat)
    requires Inv(m) && w in m.workers && !m.workers[w].Spawned?
    ensures CredentialOpens(m.workers[w].snap, m.workers[w].svc)
  {
    hide DbInv, Entitled, Aimed;
    assert Holding(m, w, m.workers[w]);
  }

  lemma RunFour(m: Machine, a: Step, b: Step, c: Step, d: Step)
    ensures Run(m, [a, b, c, d]) == Apply(Apply(Apply(Apply(m, a), b), c), d)
  {
    hide Apply;
    var m1 := Apply(m, a);
    var m2 := Apply(m1, b);
    var m3 := Apply(m2, c);
    assert [a, b, c, d][1..] == [b, c, d] && [b, c, d][1..] == [c, d] && [c, d][1..] == [d] && [d][1..] == [];
    assert Run(m3, [d]) == Apply(m3, d);
    assert Run(m2, [c, d]) == Run(m3, [d]);
    assert Run(m1, [b, c, d]) == Run(m2, [c, d]);
  }

  /** A fresh goroutine wins the claim of a queued request that nothing has expired for. */
  lemma FreshClaim(m: Machine, id: string, rows: seq<string>)
    requires Reachable(m) && m.up && id in m.db.requests && m.db.requests[id].status == Queued
    requires Enumerates(rows, RecheckRows(m.db, id, Unix(m.clock)))
    requires m.db.requests[id].permission in m.db.permissions
    requires Unix(m.clock) < m.db.requests[id].expires
    requires Unexpired(m.db.permissions[m.db.requests[id].permission], Unix(m.clock))
    ensures var m' := Apply(Apply(m, Spawn(id)), TryClaim(m.next, rows, true));
            Inv(m') && m'.wire == m.wire
            && m.next in m'.workers && m'.workers[m.next].Claimed? && m'.workers[m.next].id == id
  {
    hide Reachable, Inv, Claim, Enumerates, RecheckRows, Apply;
    ReachableInv(m);
    ClaimExact(m, id, rows);
    StepInv(m, Spawn(id));
    StepInv(Apply(m, Spawn(id)), TryClaim(m.next, rows, true));
    Spawning(m, id);
    Winning(Apply(m, Spawn(id)), m.next, rows);
  }

  lemma Spawning(m: Machine, id: string)
    requires m.up
    ensures Apply(m, Spawn(id)) == SpawnStep(m, id)
  {
  }

  lemma Winning(m: Machine, w: nat, rows: seq<string>)
    requires w in m.workers && m.workers[w].Spawned?
    requires Enumerates(rows, RecheckRows(m.db, m.workers[w].id, Unix(m.clock)))
    requires Claim(m.db, m.workers[w].id, rows, Unix(m.clock)).Won?
    ensures var m' := Apply(m, TryClaim(w, rows, true));
            m'.wire == m.wire && w in m'.workers && m'.workers[w].Claimed? && m'.workers[w].id == m.workers[w].id
  {
    hide Claim, Enumerates, RecheckRows;
  }

  /** A claimed goroutine can connect and transmit. */
  lemma ConnectAndTransmit(m: Machine, w: nat)
    requires Inv(m) && w in m.workers && m.workers[w].Claimed?
    ensures var m' := Apply(Apply(m, Connect(w)), Transmit(w));
            |m'.wire| == |m.wire| + 1 && m'.wire[|m.wire|].id == m.workers[w].id
  {
    hide Inv, CredentialOpens;
    HolderOpens(m, w);
  }

  /** A queued request that nothing has expired for can be sent: some continuation of the run transmits it next. */
  lemma CanBeSent(m: Machine, id: string)
    requires Reachable(m) && m.up && id in m.db.requests && m.db.requests[id].status == Queued
    requires m.db.requests[id].permission in m.db.permissions
    requires Unix(m.clock) < m.db.requests[id].expires
    requires Unexpired(m.db.permissions[m.db.requests[id].permission], Unix(m.clock))
    ensures exists steps ::
              |Run(m, steps).wire| == |m.wire| + 1 && Run(m, steps).wire[|m.wire|].id == id
  {
    hide Reachable, Run, RecheckRows, Enumerates, Apply, Inv;
    var rows := SomeOrder([], RecheckRows(m.db, id, Unix(m.clock)));
    FreshClaim(m, id, rows);
    ConnectAndTransmit(Apply(Apply(m, Spawn(id)), TryClaim(m.next, rows, true)), m.next);
    var steps := [Spawn(id), TryClaim(m.next, rows, true), Connect(m.next), Transmit(m.next)];
    RunFour(m, Spawn(id), TryClaim(m.next, rows, true), Connect(m.next), Transmit(m.next));
    assert |Run(m, steps).wire| == |m.wire| + 1 && Run(m, steps).wire[|m.wire|].id == id;
  }

  // ---------- at most one transmission, and honest outcomes ----------

  /** Each request is transmitted at most once, by the goroutine whose claim made it dispatching,
      and what is sent is the snapshot it was submitted with. */
  lemma TransmittedAtMostOnce(m: Machine)
    requires Reachable(m)
    ensures forall i, j | 0 <= i < j < |m.wire| :: m.wire[i].id != m.wire[j].id
    ensures forall k | 0 <= k < |m.wire| ::
              m.wire[k].id in m.db.requests && m.wire[k].id in m.claims && m.claims[m.wire[k].id] == m.wire[k].worker
              && m.wire[k].snap == Submitted(m.db.requests[m.wire[k].id])
  {
    hide Reachable, DbInv;
    ReachableInv(m);
    forall k | 0 <= k < |m.wire| ensures Honest(m, m.wire[k]) {}
  }

  /** Whether a step claims a request, and what it does to its status, agree. */
  predicate ClaimAgrees(m: Machine, step: Step, m': Machine, id: string)
    requires id in m.db.requests && id in m'.db.requests
  {
    ((id !in m.claims && id in m'.claims)
     <==> (m.db.requests[id].status == Queued && m'.db.requests[id].status == Dispatching))
    && (id !in m.claims && id in m'.claims ==> step.TryClaim? && m'.claims[id] == step.worker)
  }

  lemma ActClaimsNone(m: Machine, a: Action, id: string)
    requires Inv(m) && id in m.db.requests && id in Apply(m, Act(a)).db.requests
    ensures ClaimAgrees(m, Act(a), Apply(m, Act(a)), id)
  {
    hide Inv, Perform, Later, Good;
    PerformIsQuiet(m, a);
  }

  lemma PerformIsQuiet(m: Machine, a: Action)
    requires Inv(m)
    ensures Quiet(m.db, Perform(m.db, a, m.clock))
  {
    hide DbInv, Perform, Later, Quiet, WorkersOk, ClaimsOk, WireOk, CompletedOk;
    PerformGood(m.db, a, m.clock);
  }

  lemma WonClaims(m: Machine, w: nat, claimed: string, snap: Snapshot, svc: Service, step: Step, id: string)
    requires Inv(m) && claimed in m.db.requests && m.db.requests[claimed].status == Queued && id in m.db.requests
    requires step.TryClaim? && step.worker == w && id in WonMachine(m, w, claimed, snap, svc).db.requests
    ensures ClaimAgrees(m, step, WonMachine(m, w, claimed, snap, svc), id)
  {
    hide Inv, Dispatched;
    DispatchedStatuses(m.db, claimed, id);
    if m.db.requests[id].status == Queued { QueuedIsUntouched(m, id); }
    hide OnWire;
  }

  lemma StoppedClaims(m: Machine, w: nat, rows: seq<string>, step: Step, id: string)
    requires Inv(m) && w in m.workers && m.workers[w].Spawned? && id in m.db.requests
    requires Claim(m.db, m.workers[w].id, rows, Unix(m.clock)).Stopped?
    ensures var db := Claim(m.db, m.workers[w].id, rows, Unix(m.clock)).db;
            id in db.requests && ClaimAgrees(m, step, m.(db := db, workers := m.workers - {w}), id)
  {
    hide Inv, Claim, FinishTx;
    InvDb(m);
    InvParts(m.db, Unix(m.clock));
    StoppedShape(m.db, m.workers[w].id, rows, Unix(m.clock));
    FinishStatuses(m.db, m.workers[w].id, Cancelled, "authorization_changed_or_expired", Unix(m.clock), id);
  }

  lemma TryClaimClaims(m: Machine, w: nat, rows: seq<string>, commits: bool, id: string)
    requires Inv(m) && w in m.workers && m.workers[w].Spawned? && id in m.db.requests
    requires id in ClaimStep(m, w, rows, commits).db.requests
    ensures ClaimAgrees(m, TryClaim(w, rows, commits), ClaimStep(m, w, rows, commits), id)
  {
    hide Inv, Claim, Dispatched, DbInv;
    var claimed, now, step := m.workers[w].id, Unix(m.clock), TryClaim(w, rows, commits);
    match Claim(m.db, claimed, rows, now)
    case Skipped =>
    case Stopped(_) => StoppedClaims(m, w, rows, step, id);
    case Won(_, snap, svc) =>
      InvDb(m);
      WonService(m.db, claimed, rows, now);
      DispatchedStatuses(m.db, claimed, id);
      WonClaims(m, w, claimed, snap, svc, step, id);
  }

  lemma InvDb(m: Machine)
    requires Inv(m)
    ensures DbInv(m.db, Unix(m.clock))
  {
    hide DbInv, WorkersOk, ClaimsOk, WireOk, CompletedOk;
  }

  lemma ConcludeClaimsNone(m: Machine, w: nat, outcome: Outcome, commits: bool, id: string)
    requires w in m.workers && id in m.db.requests
    requires id in ConcludeStep(m, w, outcome, commits).db.requests
    ensures ClaimAgrees(m, Conclude(w, outcome, commits), ConcludeStep(m, w, outcome, commits), id)
  {
    hide Ending;
    if Ending(m.workers[w], outcome).Some? {
      EndingFits(m.workers[w], outcome);
    }
  }

  lemma RestartClaimsNone(m: Machine, ids: seq<string>, id: string)
    requires id in m.db.requests && id in RestartStep(m, ids).db.requests
    ensures ClaimAgrees(m, Restart(ids), RestartStep(m, ids), id)
  {
    hide RecoverDispatches;
    RestartStatuses(m.db, ids, Unix(m.clock), id);
  }

  lemma StepKeepsRow(m: Machine, step: Step, id: string)
    requires Inv(m) && id in m.db.requests
    ensures id in Apply(m, step).db.requests
  {
    hide Inv, Apply, Later;
    StepInv(m, step);
    InRequestsLater(m.db, Apply(m, step).db, Unix(Apply(m, step).clock), id);
  }

  /** A request is claimed exactly in the step that moves it from queued to dispatching, by the worker of that step. */
  lemma ClaimIsDispatch(m: Machine, step: Step, id: string)
    requires Inv(m) && id in m.db.requests
    ensures id in Apply(m, step).db.requests && ClaimAgrees(m, step, Apply(m, step), id)
  {
    hide Inv, ClaimStep, ConcludeStep, RestartStep, Enumerates;
    StepKeepsRow(m, step, id);
    match step
    case Act(a) => ActClaimsNone(m, a, id);
    case TryClaim(w, rows, commits) =>
      if w in m.workers && m.workers[w].Spawned?
         && Enumerates(rows, RecheckRows(m.db, m.workers[w].id, Unix(m.clock))) {
        TryClaimClaims(m, w, rows, commits, id);
      }
    case Conclude(w, outcome, commits) => if w in m.workers { ConcludeClaimsNone(m, w, outcome, commits, id); }
    case Restart(ids) => if !m.up && Enumerates(ids, Interrupted(m.db)) { RestartClaimsNone(m, ids, id); }
    case _ =>
  }

  lemma InRequestsLater(db: Db, db': Db, now: int, id: string)
    requires Later(db, db', now) && id in db.requests
    ensures id in db'.requests && LaterRow(db.requests[id], db'.requests[id], now)
  {
  }

  lemma RestartStatuses(db: Db, ids: seq<string>, now: int, id: string)
    requires id in db.requests
    ensures RecoverDispatches(db, ids, now).requests[id].status in {OutcomeUnknown, db.requests[id].status}
  {
  }

  lemma FinishStatuses(db: Db, id: string, status: Status, reason: string, now: int, i: string)
    requires id in db.requests && i in db.requests
    ensures var db' := FinishTx(db, id, status, reason, None, now);
            i in db'.requests && db'.requests[i].status == if i == id then status else db.requests[i].status
  {
  }

  lemma DispatchedStatuses(db: Db, id: string, i: string)
    requires id in db.requests && i in db.requests
    ensures var db' := Dispatched(db, id);
            i in db'.requests && db'.requests[i].status == if i == id then Dispatching else db.requests[i].status
  {
  }

  /** A restart turns exactly the requests whose dispatch was interrupted into outcome_unknown. */
  lemma RestartResolves(m: Machine, ids: seq<string>, id: string)
    requires Reachable(m) && !m.up && Enumerates(ids, Interrupted(m.db)) && id in m.db.requests
    ensures var m' := Apply(m, Restart(ids));
            id in m'.db.requests
            && m'.db.requests[id].status == (if m.db.requests[id].status == Dispatching then OutcomeUnknown
                                             else m.db.requests[id].status)
            && m'.wire == m.wire
  {
    hide Reachable, Enumerates, ClaimStep, ConcludeStep, SpawnStep, ConnectStep, TransmitStep, Perform;
    EnumeratedIs(ids, Interrupted(m.db));
  }

  /** Outcomes are honest: a request that is waiting, failed, cancelled, denied or expired was never transmitted, and a
      completed one was. */
  lemma HonestOutcome(m: Machine, id: string)
    requires Reachable(m) && id in m.db.requests
    ensures m.db.requests[id].status in {PendingApproval, Queued, Failed, Cancelled, Denied, Expired} ==>
              !OnWire(m.wire, id)
    ensures OnWire(m.wire, id) ==> m.db.requests[id].status in {Dispatching, Completed, OutcomeUnknown}
    ensures m.db.requests[id].status == Completed ==> OnWire(m.wire, id)
  {
    hide Reachable, DbInv;
    ReachableInv(m);
    forall k | 0 <= k < |m.wire| ensures Honest(m, m.wire[k]) {}
  }

  /** Every transmission under an approval-required permission has an approval of exactly what was sent. */
  lemma ApprovedTransmission(m: Machine, k: nat)
    requires Reachable(m) && k < |m.wire|
    ensures var t := m.wire[k];
            t.id in m.db.requests && m.db.requests[t.id].permission in m.db.permissions
            && (m.db.permissions[m.db.requests[t.id].permission].mode == ApprovalRequired ==>
                t.id in m.db.approvals && m.db.approvals[t.id].decision == "approve"
                && m.db.approvals[t.id].digest == Sha256(t.snap))
  {
    hide Reachable, AllRefs, AllPermissions, AllServices, AllRows, AllLive, Disjoint, AllTrails, Capped, UniqueKeys;
    ReachableInv(m);
    assert Honest(m, m.wire[k]);
    assert ApprovalOk(m.db, m.wire[k].id, m.db.requests[m.wire[k].id]);
    DigestOfSubmitted(m.db.requests[m.wire[k].id]);
  }

  /** What is transmitted is permitted: the rule of its permission covers the method and path, for the device and
      service of the snapshot, and its URL is its path and query under the base of the claimed service, strictly
      below that base. */
  lemma PermittedTransmission(m: Machine, k: nat)
    requires Reachable(m) && k < |m.wire|
    ensures var t := m.wire[k];
            Permitted(m.db, t.snap) && BaseOk(t.svc.base) && Path(t.snap.path)
            && Target(t.svc.base, t.snap.path, RawQuery(t.snap.url)) == Some(t.snap.url)
            && Under(t.svc.base, t.snap.url)
    ensures var t := m.wire[k];
            t.snap.service in m.db.services && t.svc.revision == t.snap.revision
            && (m.db.services[t.snap.service].revision == t.snap.revision ==> m.db.services[t.snap.service] == t.svc)
  {
    hide Reachable, DbInv, Match, Path, RawQuery, BaseOk, Under, HeadersFit;
    ReachableInv(m);
    assert Honest(m, m.wire[k]);
    TargetUnderBase(m.wire[k].svc.base, m.wire[k].snap.path, RawQuery(m.wire[k].snap.url));
  }

  /** Everything a device submitted is what is sent for it later: method, body, the URL its path and query lead to,
      and the headers its service allowed, as they were when the submission was accepted. */
  lemma SubmittedIsSent(m: Machine, device: string, raw: Submission, rows: seq<string>, id: string,
                        steps: seq<Step>, k: nat)
    requires Reachable(m) && m.up && Enumerates(rows, ActiveRows(m.db, device, raw.service, Unix(m.clock)))
    requires id !in m.db.requests && Submit(m.db, device, raw, rows, id, Unix(m.clock)).1 == Accepted(id)
    requires var later := Run(Apply(m, Act(DeviceSubmits(device, raw, rows, id))), steps);
             k < |later.wire| && later.wire[k].id == id
    ensures Normalize(raw).Some? && raw.service in m.db.services
    ensures var input, svc := Normalize(raw).value, m.db.services[raw.service];
            var sent := Run(Apply(m, Act(DeviceSubmits(device, raw, rows, id))), steps).wire[k].snap;
            sent.device == device && sent.service == raw.service
            && sent.verb == input.verb && sent.path == input.path && sent.body == input.body
            && Target(svc.base, input.path, input.query) == Some(sent.url)
            && ApplicationHeaders(input.headers, svc.requestHeaders, svc.authHeader) == Some(sent.headers)
    ensures var t := Run(Apply(m, Act(DeviceSubmits(device, raw, rows, id))), steps).wire[k];
            Filtered(t.snap.headers, t.svc.requestHeaders, t.svc.authHeader, map[]) == t.snap.headers
  {
    hide Reachable, Inv, Run, Normalize, Submit, Later, Enumerates, Target, ApplicationHeaders, Admissible;
    hide SubmissionDigest, WireOk;
    ReachableInv(m);
    InvAuthority(m);
    SubmitShape(m.db, device, raw, rows, id, Unix(m.clock));
    var stored := Apply(m, Act(DeviceSubmits(device, raw, rows, id)));
    AcceptedIsNew(m.db, device, raw, rows, id, Unix(m.clock));
    NormalizeKeepsKey(raw);
    StepInv(m, Act(DeviceSubmits(device, raw, rows, id)));
    SentIsStored(stored, steps, id, k);
    SnapshotIsOfDevice(stored, id);
    assert Inv(Run(stored, steps)) by { RunInv(stored, steps); }
    WireFits(Run(stored, steps), k);
  }

  /** What the wire carries fits its service, so the filter of Send leaves it alone. */
  lemma WireFits(m: Machine, k: nat)
    requires Inv(m) && k < |m.wire|
    ensures var t := m.wire[k];
            Filtered(t.snap.headers, t.svc.requestHeaders, t.svc.authHeader, map[]) == t.snap.headers
            && forall n | n in t.snap.headers ::
                 HeaderName(n) && !Reserved(n) && !EqualFold(n, t.svc.authHeader)
  {
    hide DbInv, Entitled, Filtered, HeadersFit, Target, RawQuery, HeaderName, Reserved, EqualFold;
    assert Honest(m, m.wire[k]);
    FilterKeeps(m.wire[k].snap.headers, m.wire[k].svc.requestHeaders, m.wire[k].svc.authHeader);
  }

  /** The headers of every transmission are those of its snapshot: Send filters them once more and changes nothing.
      None of them is reserved, like Authorization, or the header of the service's credential, so adding the
      credential replaces none. */
  lemma HeadersAsSubmitted(m: Machine, k: nat)
    requires Reachable(m) && k < |m.wire|
    ensures var t := m.wire[k];
            Filtered(t.snap.headers, t.svc.requestHeaders, t.svc.authHeader, map[]) == t.snap.headers
            && forall n | n in t.snap.headers ::
                 HeaderName(n) && !Reserved(n) && !EqualFold(n, t.svc.authHeader)
  {
    hide Reachable, Inv, Filtered, HeaderName, Reserved, EqualFold;
    ReachableInv(m);
    WireFits(m, k);
  }

  lemma DigestOfSubmitted(r: Request)
    ensures r.snapshotDigest == Sha256(Submitted(r))
  {
  }

  /** What is transmitted is what the request held at any earlier time. */
  lemma SnapshotImmutable(m: Machine, steps: seq<Step>, id: string, k: nat)
    requires Reachable(m) && id in m.db.requests
    requires k < |Run(m, steps).wire| && Run(m, steps).wire[k].id == id
    ensures Run(m, steps).wire[k].snap == Submitted(m.db.requests[id])
  {
    hide Reachable, Inv, Run;
    ReachableInv(m);
    SentIsStored(m, steps, id, k);
  }

  lemma SentIsStored(m: Machine, steps: seq<Step>, id: string, k: nat)
    requires Inv(m) && id in m.db.requests
    requires k < |Run(m, steps).wire| && Run(m, steps).wire[k].id == id
    ensures Run(m, steps).wire[k].snap == Submitted(m.db.requests[id])
  {
    hide DbInv, Run, Later;
    RunInv(m, steps);
    assert Honest(Run(m, steps), Run(m, steps).wire[k]);
    InRequestsLater(m.db, Run(m, steps).db, Unix(Run(m, steps).clock), id);
  }

  // ---------- the audit log and the lifecycle ----------

  lemma {:induction false} LifePathShort(t: seq<Status>)
    requires LifePath(t)
    ensures |t| <= Rank(t[0]) + 1 - Rank(t[|t| - 1])
  {
    if |t| > 1 {
      var rest := t[1..];
      assert LifePath(rest) by {
        forall i | 0 <= i < |rest| - 1 ensures Edge(rest[i], rest[i + 1]) {
          assert Edge(t[i + 1], t[i + 1 + 1]);
        }
      }
      LifePathShort(rest);
      EdgeFalls(t[0], t[1]);
    }
  }

  /** Replaying the audit events of a request gives a path in the lifecycle graph from its first status to its
      current one, with at most three changes; requests that do not exist have no such events. */
  lemma AuditReplays(m: Machine, id: string)
    requires Reachable(m)
    ensures var t := Trail(m.db.audit, id);
            if id in m.db.requests then
              LifePath(t) && t[0] in {PendingApproval, Queued} && t[|t| - 1] == m.db.requests[id].status && |t| <= 4
              && forall i | 0 <= i < |t| - 1 ::
                   t[i + 1] in (match t[i]
                                case PendingApproval => {Queued, Denied, Expired, Cancelled}
                                case Queued => {Dispatching, Expired, Cancelled}
                                case Dispatching => {Completed, Failed, OutcomeUnknown}
                                case _ => {})
            else t == []
  {
    hide Reachable, LifePath, Trail, AllRefs, AllPermissions, AllServices, AllRows, AllLive, Disjoint;
    hide AllApproved, Capped, UniqueKeys;
    ReachableInv(m);
    assert TrailOk(m.db, id);
    if id in m.db.requests {
      NonEmptyPath(Trail(m.db.audit, id));
      LifePathShort(Trail(m.db.audit, id));
      PathEdges(Trail(m.db.audit, id));
    }
  }

  lemma PathEdges(t: seq<Status>)
    requires LifePath(t)
    ensures forall i | 0 <= i < |t| - 1 ::
              t[i + 1] in (match t[i]
                           case PendingApproval => {Queued, Denied, Expired, Cancelled}
                           case Queued => {Dispatching, Expired, Cancelled}
                           case Dispatching => {Completed, Failed, OutcomeUnknown}
                           case _ => {})
  {
    forall i | 0 <= i < |t| - 1 ensures Edge(t[i], t[i + 1]) {}
  }

  lemma NonEmptyPath(t: seq<Status>)
    requires LifePath(t)
    ensures t != []
  {
  }

  /** Over any run a status only falls in rank, and a terminal status is never overwritten. */
  lemma TerminalForever(m: Machine, steps: seq<Step>, id: string)
    requires Reachable(m) && id in m.db.requests
    ensures id in Run(m, steps).db.requests
    ensures Rank(Run(m, steps).db.requests[id].status) <= Rank(m.db.requests[id].status)
    ensures Run(m, steps).db.requests[id].status != m.db.requests[id].status ==>
              Rank(Run(m, steps).db.requests[id].status) < Rank(m.db.requests[id].status)
    ensures Terminal(m.db.requests[id].status) ==> Run(m, steps).db.requests[id].status == m.db.requests[id].status
  {
    hide Reachable, Inv, Run, Later;
    ReachableInv(m);
    RunInv(m, steps);
    InRequestsLater(m.db, Run(m, steps).db, Unix(Run(m, steps).clock), id);
  }

  /** `finished` is set exactly when a request is terminal, and a waiting or dispatching request keeps its snapshot. */
  lemma RetentionRule(m: Machine, id: string)
    requires Reachable(m) && id in m.db.requests
    ensures m.db.requests[id].finished.Some? <==> Terminal(m.db.requests[id].status)
    ensures !Terminal(m.db.requests[id].status) ==>
              m.db.requests[id].snapshot == Some(Encrypt(RequestPurpose(id), Submitted(m.db.requests[id])))
  {
    hide Reachable, AllRefs, AllPermissions, AllServices, AllLive, Disjoint, AllApproved, AllTrails, Capped, UniqueKeys;
    ReachableInv(m);
    assert RowOk(id, m.db.requests[id]);
  }

  lemma MaintenanceRow(db: Db, ids: seq<string>, now: int, id: string)
    requires id in db.requests && Enumerates(ids, Overdue(db, now))
    ensures id in Maintenance(db, ids, now).requests
    ensures Maintenance(db, ids, now).requests[id]
            == PurgedRow(if id in Overdue(db, now) then Closed(db.requests[id], Expired, "deadline_elapsed", now)
                         else db.requests[id], now)
  {
    hide Enumerates, PurgedRow;
    EnumeratedIs(ids, Overdue(db, now));
  }

  /** Maintenance drops snapshot and result of exactly the requests terminal for more than a day, and changes nothing
      else of any request that is not overdue. */
  lemma PurgeExact(m: Machine, ids: seq<string>, id: string)
    requires Reachable(m) && id in m.db.requests && Enumerates(ids, Overdue(m.db, Unix(m.clock)))
    ensures id in Maintenance(m.db, ids, Unix(m.clock)).requests
    ensures var r, now := m.db.requests[id], Unix(m.clock);
            var r' := Maintenance(m.db, ids, now).requests[id];
            if Terminal(r.status) && r.finished.Some? && r.finished.value < now - 86400 then
              r' == r.(snapshot := None, result := None)
            else if (r.status == PendingApproval || r.status == Queued) && r.expires <= now then
              r' == Closed(r, Expired, "deadline_elapsed", now) && r'.snapshot.Some?
            else r' == r
  {
    hide Reachable, Enumerates, Maintenance, Inv;
    ReachableInv(m);
    MaintenanceRow(m.db, ids, Unix(m.clock), id);
    assert RowOk(id, m.db.requests[id]) by { InvRow(m, id); }
  }

  /** Over every run, a concluded request stays exactly as it was concluded until a day after it finished has passed,
      and from then on it can only lose its snapshot and its result. */
  lemma ConcludedIsFinal(m: Machine, steps: seq<Step>, id: string)
    requires Reachable(m) && id in m.db.requests && Terminal(m.db.requests[id].status)
    ensures id in Run(m, steps).db.requests && m.db.requests[id].finished.Some?
    ensures var r, r' := m.db.requests[id], Run(m, steps).db.requests[id];
            r' == r || (r' == r.(snapshot := None, result := None)
                        && Unix(Run(m, steps).clock) > r.finished.value + DAY)
  {
    hide Reachable, Inv, Run, Later;
    ReachableInv(m);
    RunInv(m, steps);
    InvRow(m, id);
    InRequestsLater(m.db, Run(m, steps).db, Unix(Run(m, steps).clock), id);
  }

  lemma InvRow(m: Machine, id: string)
    requires Inv(m) && id in m.db.requests
    ensures RowOk(id, m.db.requests[id])
  {
    hide RowOk, AllRefs, AllPermissions, AllServices, AllLive, Disjoint, AllApproved, AllTrails, Capped, UniqueKeys;
  }

  /** No device ever has more than twenty unexpired pending approvals. */
  lemma PendingCapped(m: Machine, device: string)
    requires Reachable(m)
    ensures |Pending(m.db, device, Unix(m.clock))| <= 20
  {
    hide Reachable, AllRefs, AllPermissions, AllServices, AllRows, AllLive, Disjoint, AllApproved, AllTrails;
    hide UniqueKeys;
    ReachableInv(m);
  }

  /** Every request of a device that waits for a decision, past its deadline or not. */
  function AllPending(db: Db, device: string): set<string> {
    set id | id in db.requests && db.requests[id].device == device && db.requests[id].status == PendingApproval
  }

  function OverduePending(db: Db, device: string, now: int): set<string> {
    set id | id in AllPending(db, device) && db.requests[id].expires <= now
  }

  /** The waiting requests are those the limit counts and those whose deadline has passed. */
  lemma PendingSplits(db: Db, device: string, now: int)
    ensures |AllPending(db, device)| == |Pending(db, device, now)| + |OverduePending(db, device, now)|
  {
    assert AllPending(db, device) == Pending(db, device, now) + OverduePending(db, device, now);
    assert Pending(db, device, now) !! OverduePending(db, device, now);
  }

  /** The promise of twenty waiting requests holds whenever none of them is past its deadline, and it fails only by
      the ones that are. */
  lemma PendingTotal(m: Machine, device: string)
    requires Reachable(m)
    ensures var overdue := |OverduePending(m.db, device, Unix(m.clock))|;
            |AllPending(m.db, device)| <= 20 + overdue
            && (|AllPending(m.db, device)| > 20 ==> overdue > 0)
  {
    hide Reachable, AllPending, Pending, OverduePending;
    PendingCapped(m, device);
    PendingSplits(m.db, device, Unix(m.clock));
  }

  /** A submission breaks the promise exactly when it stores a new request for approval while twenty already wait, and
      then one of the twenty is past its deadline. */
  lemma OverflowExact(m: Machine, device: string, raw: Submission, rows: seq<string>, id: string)
    requires Reachable(m) && Enumerates(rows, ActiveRows(m.db, device, raw.service, Unix(m.clock)))
    requires |AllPending(m.db, device)| <= 20
    ensures var (db', reply) := Submit(m.db, device, raw, rows, id, Unix(m.clock));
            |AllPending(db', device)| > 20 <==>
              id !in m.db.requests && reply == Accepted(id) && |AllPending(m.db, device)| == 20
              && id in db'.requests && db'.requests[id].permission in m.db.permissions
              && m.db.permissions[db'.requests[id].permission].mode == ApprovalRequired
    ensures |AllPending(Submit(m.db, device, raw, rows, id, Unix(m.clock)).0, device)| > 20 ==>
              OverduePending(m.db, device, Unix(m.clock)) != {}
  {
    hide Reachable, Inv, Submit, Enumerates, Normalize, OverduePending;
    hide AllPermissions, AllServices, Stored, AllPending;
    ReachableInv(m);
    InvAuthority(m);
    var now := Unix(m.clock);
    var (db', reply) := Submit(m.db, device, raw, rows, id, now);
    SubmitShape(m.db, device, raw, rows, id, now);
    if db' == m.db {
      if id !in m.db.requests && reply == Accepted(id) { AcceptedIsNew(m.db, device, raw, rows, id, now); }
    } else {
      StoredPending(m.db, db', device, Normalize(raw).value, id, now);
      PendingSplits(m.db, device, now);
    }
  }

  lemma InsertedPending(db: Db, id: string, r: Request)
    requires id !in db.requests
    ensures |AllPending(InsertRequest(db, id, r), r.device)|
            == |AllPending(db, r.device)| + if r.status == PendingApproval then 1 else 0
  {
    var db' := InsertRequest(db, id, r);
    if r.status == PendingApproval {
      assert AllPending(db', r.device) == AllPending(db, r.device) + {id};
    } else {
      assert AllPending(db', r.device) == AllPending(db, r.device);
    }
  }

  /** How storing a request changes the number that wait. */
  lemma StoredPending(db: Db, db': Db, device: string, input: Submission, id: string, now: int)
    requires Stored(db, db', device, input, id, now)
    ensures id !in db.requests && id in db'.requests && db'.requests[id].permission in db.permissions
    ensures var mode := db.permissions[db'.requests[id].permission].mode;
            |AllPending(db', device)| == |AllPending(db, device)| + (if mode == ApprovalRequired then 1 else 0)
            && (mode == ApprovalRequired ==> |Pending(db, device, now)| < 20)
  {
    hide Pending, RowOk, Backed, AllPending, InsertRequest, Target, ApplicationHeaders, SubmissionDigest;
    InsertedPending(db, id, db'.requests[id]);
  }

  /** Maintenance restores it, in whatever order it visits the overdue requests. */
  lemma MaintenanceRestoresCap(m: Machine, device: string, ids: seq<string>)
    requires Reachable(m) && Enumerates(ids, Overdue(m.db, Unix(m.clock)))
    ensures |AllPending(Maintenance(m.db, ids, Unix(m.clock)), device)| <= 20
  {
    hide Reachable, Enumerates, Maintenance;
    var now := Unix(m.clock);
    var db' := Maintenance(m.db, ids, now);
    forall id | id in AllPending(db', device) ensures id in Pending(m.db, device, now) {
      MaintenanceKnown(m.db, ids, now, id);
      MaintenanceRow(m.db, ids, now, id);
    }
    SubsetSize(AllPending(db', device), Pending(m.db, device, now));
    PendingCapped(m, device);
  }

  lemma MaintenanceKnown(db: Db, ids: seq<string>, now: int, id: string)
    requires id in Maintenance(db, ids, now).requests
    ensures id in db.requests
  {
  }

  // ---------- withdrawal is final ----------

  /** The authority a request was submitted under has been withdrawn. */
  predicate Withdrawn(db: Db, id: string) {
    id in db.requests
    && var r := db.requests[id];
       (r.device in db.devices && db.devices[r.device].revoked)
       || (r.permission in db.permissions && db.permissions[r.permission].revoked)
       || (r.service in db.services
           && (!db.services[r.service].enabled || db.services[r.service].revision > r.revision))
  }

  lemma WithdrawnNotLive(m: Machine, id: string)
    requires Inv(m) && Withdrawn(m.db, id)
    ensures !Live(m.db.requests[id].status)
  {
    hide Match, Target, RawQuery, HeadersFit, AllPermissions, AllServices, AllRows, Disjoint, AllApproved, AllTrails;
    hide Capped, UniqueKeys;
    assert RowRefs(m.db, m.db.requests[id]);
  }

  lemma {:induction false} NotLiveNeverClaimed(m: Machine, steps: seq<Step>, id: string)
    requires Inv(m) && id in m.db.requests && !Live(m.db.requests[id].status)
    ensures id in Run(m, steps).claims <==> id in m.claims
    ensures id in Run(m, steps).db.requests && !Live(Run(m, steps).db.requests[id].status)
    decreases |steps|
  {
    hide Inv, Apply, Later;
    if steps != [] {
      StepInv(m, steps[0]);
      ClaimIsDispatch(m, steps[0], id);
      InRequestsLater(m.db, Apply(m, steps[0]).db, Unix(Apply(m, steps[0]).clock), id);
      NotLiveNeverClaimed(Apply(m, steps[0]), steps[1..], id);
    }
  }

  /** After its device or permission is revoked, or its service disabled or revised, a request is never again
      waiting and never claimed later, whatever happens. */
  lemma WithdrawalFinal(m: Machine, steps: seq<Step>, id: string)
    requires Reachable(m) && Withdrawn(m.db, id)
    ensures id in Run(m, steps).db.requests && !Live(Run(m, steps).db.requests[id].status)
    ensures id in Run(m, steps).claims <==> id in m.claims
  {
    hide Reachable, Inv, Withdrawn, Run;
    ReachableInv(m);
    assert id in m.db.requests by { WithdrawnKnown(m.db, id); }
    WithdrawnNotLive(m, id);
    NotLiveNeverClaimed(m, steps, id);
  }

  lemma WithdrawnKnown(db: Db, id: string)
    requires Withdrawn(db, id)
    ensures id in db.requests
  {
  }

  /** The owner's ways of withdrawing authority, and the requests each is about. */
  predicate Withdraws(db: Db, a: Action, id: string)
    requires id in db.requests
  {
    var r := db.requests[id];
    match a
    case OwnerRevokesDevice(_, d, _) => r.device == d
    case OwnerRevokesPermission(_, p, _) => r.permission == p
    case OwnerDisablesService(_, s, _) => r.service == s
    case OwnerRevisesService(_, s, f, _) => r.service == s && FormOk(s, f)
    case OwnerRecovers(_) => true
    case _ => false
  }

  /** Withdrawn authority stays withdrawn while the live requests are cancelled and the action is audited. */
  lemma StaysWithdrawn(db: Db, ids: seq<string>, reason: string, now: int, e: Event, id: string)
    requires Withdrawn(db, id)
    ensures var db' := CancelRequests(db, ids, reason, now); Withdrawn(db'.(audit := db'.audit + [e]), id)
  {
    hide CancelRequests;
    CancelFrame(db, ids, reason, now);
  }

  lemma RecoveryWithdraws(db: Db, work: seq<(string, seq<string>)>, now: int, id: string)
    requires Possible(db, OwnerRecovers(work), now) && id in db.requests && db.requests[id].device in db.devices
    ensures Withdrawn(RecoverRestored(db, work, now), id)
  {
    hide Possible, InvalidateDevices;
    InvalidateFrame(db, work, now);
    RecoveryRevokesAll(db, work, now);
  }

  lemma PerformWithdraws(db: Db, a: Action, clock: nat, id: string)
    requires Possible(db, a, Unix(clock)) && id in db.requests && RowRefs(db, db.requests[id]) && Withdraws(db, a, id)
    ensures Withdrawn(Perform(db, a, clock), id)
  {
    hide FormOk, BuildService, CancelRequests, LiveIn, Enumerates, RecoverRestored, DeviceWork;
    var now := Unix(clock);
    match a
    case OwnerRevokesDevice(owner, d, ids) =>
      StaysWithdrawn(RevokedDevice(db, d), ids, "device_revoked", now, Event(owner, d, DeviceRevoked, d), id);
    case OwnerRevokesPermission(owner, p, ids) =>
      var saved := WithPermission(db, p, db.permissions[p].(revoked := true));
      StaysWithdrawn(saved, ids, "permission_revoked", now, Event(owner, "", PermissionRevoked, p), id);
    case OwnerDisablesService(owner, s, ids) =>
      var saved := WithService(db, s, db.services[s].(enabled := false, revision := db.services[s].revision + 1));
      StaysWithdrawn(saved, ids, "service_disabled", now, Event(owner, "", ServiceDisabled, s), id);
    case OwnerRevisesService(owner, s, f, ids) =>
      var saved := WithService(db, s, BuildService(s, f, db.services[s].revision + 1));
      RevisionOf(s, f, db.services[s].revision + 1);
      StaysWithdrawn(saved, ids, "service_revised", now, Event(owner, "", ServiceRevised, s), id);
    case OwnerRecovers(work) => RecoveryWithdraws(db, work, now, id);
    case _ =>
  }

  /** Each of them does withdraw the authority of every request it is about. */
  lemma OwnerWithdraws(m: Machine, a: Action, id: string)
    requires Reachable(m) && m.up && Possible(m.db, a, Unix(m.clock)) && id in m.db.requests && Withdraws(m.db, a, id)
    ensures Withdrawn(Apply(m, Act(a)).db, id)
  {
    hide Reachable, Possible, Withdraws, Perform, Withdrawn;
    ReachableInv(m);
    assert RowRefs(m.db, m.db.requests[id]) by { InvRefs(m, id); }
    PerformWithdraws(m.db, a, m.clock, id);
  }

  lemma InvRefs(m: Machine, id: string)
    requires Inv(m) && id in m.db.requests
    ensures RowRefs(m.db, m.db.requests[id])
  {
    hide RowRefs, AllPermissions, AllServices, AllRows, AllLive, Disjoint, AllApproved, AllTrails, Capped, UniqueKeys;
  }

  lemma RevisionOf(id: string, f: ServiceForm, revision: int)
    requires FormOk(id, f)
    ensures BuildService(id, f, revision).revision == revision
  {
  }

  lemma {:induction false} InvalidateFrame(db: Db, work: seq<(string, seq<string>)>, now: int)
    ensures var db' := InvalidateDevices(db, work, now);
            db'.devices.Keys == db.devices.Keys && db'.requests.Keys == db.requests.Keys
            && forall id | id in db.requests :: db'.requests[id].device == db.requests[id].device
    decreases |work|
  {
    hide CancelRequests;
    if work != [] {
      var (device, ids) := work[0];
      var saved := if device in db.devices then RevokedDevice(db, device) else db;
      CancelFrame(saved, ids, "restored_database_recovery", now);
      InvalidateFrame(CancelRequests(saved, ids, "restored_database_recovery", now), work[1..], now);
    }
  }

  lemma {:induction false} InvalidateRevokes(db: Db, work: seq<(string, seq<string>)>, now: int, d: string)
    requires d in db.devices
    requires db.devices[d].revoked || exists i :: 0 <= i < |work| && work[i].0 == d
    ensures d in InvalidateDevices(db, work, now).devices && InvalidateDevices(db, work, now).devices[d].revoked
    decreases |work|
  {
    hide CancelRequests;
    if work != [] {
      var (device, ids) := work[0];
      var saved := if device in db.devices then RevokedDevice(db, device) else db;
      CancelFrame(saved, ids, "restored_database_recovery", now);
      if !saved.devices[d].revoked {
        var i :| 0 <= i < |work| && work[i].0 == d;
        assert work[1..][i - 1].0 == d;
      }
      InvalidateRevokes(CancelRequests(saved, ids, "restored_database_recovery", now), work[1..], now, d);
    }
  }

  /** RecoverRestored leaves every device revoked. */
  lemma RecoveryRevokesAll(db: Db, work: seq<(string, seq<string>)>, now: int)
    requires Possible(db, OwnerRecovers(work), now)
    ensures forall d | d in db.devices ::
              d in RecoverRestored(db, work, now).devices && RecoverRestored(db, work, now).devices[d].revoked
  {
    hide LiveIn, InvalidateDevices;
    var devices := seq(|work|, i requires 0 <= i < |work| => work[i].0);
    EnumeratedIs(devices, db.devices.Keys);
    forall d | d in db.devices
      ensures d in InvalidateDevices(db, work, now).devices && InvalidateDevices(db, work, now).devices[d].revoked
    {
      assert d in devices;
      var i :| 0 <= i < |devices| && devices[i] == d;
      assert work[i].0 == d;
      InvalidateRevokes(db, work, now, d);
    }
  }

  /** A revoked device never again has a request stored or a direct call claimed. */
  lemma RevokedDeviceSilent(m: Machine, steps: seq<Step>, device: string)
    requires Reachable(m) && device in m.db.devices && m.db.devices[device].revoked
    ensures var m' := Run(m, steps);
            (forall id | id in m'.db.requests && m'.db.requests[id].device == device :: id in m.db.requests)
            && m.db.audit <= m'.db.audit
            && forall k | |m.db.audit| <= k < |m'.db.audit| ::
                 !(m'.db.audit[k].kind == HttpClaim && m'.db.audit[k].device == device)
  {
    hide Reachable, Inv, Run, LaterRequests, LaterServices, LaterPermissions, LaterApprovals;
    ReachableInv(m);
    RunInv(m, steps);
  }

  // ---------- deduplication is permanent ----------

  /** Once a submission has been accepted, the same key leads, in every later state in which the device is active,
      to the same request if the normalized content is the same and to a conflict if it is not. */
  lemma DedupPermanent(m: Machine, device: string, raw: Submission, rows: seq<string>, newId: string, steps: seq<Step>,
                       raw': Submission, rows': seq<string>, newId': string)
    requires Reachable(m) && m.up && Enumerates(rows, ActiveRows(m.db, device, raw.service, Unix(m.clock)))
    requires Submit(m.db, device, raw, rows, newId, Unix(m.clock)).1.Accepted?
    requires Normalize(raw).Some? && Normalize(raw').Some? && raw'.key == raw.key
    requires ActiveDevice(Run(Apply(m, Act(DeviceSubmits(device, raw, rows, newId))), steps).db, device)
    ensures var later := Run(Apply(m, Act(DeviceSubmits(device, raw, rows, newId))), steps);
            Submit(later.db, device, raw', rows', newId', Unix(later.clock)) ==
            (later.db,
             if SubmissionDigest(Normalize(raw').value) == SubmissionDigest(Normalize(raw).value)
             then Submit(m.db, device, raw, rows, newId, Unix(m.clock)).1
             else Refused(IdempotencyConflict))
  {
    hide Reachable, Inv, Run, Normalize, Submit, Later, Enumerates;
    ReachableInv(m);
    var step := Act(DeviceSubmits(device, raw, rows, newId));
    var stored := Apply(m, step);
    var id := Submit(m.db, device, raw, rows, newId, Unix(m.clock)).1.id;
    StepInv(m, step);
    RunInv(stored, steps);
    var later := Run(stored, steps);
    AcceptedIsStored(m.db, device, raw, rows, newId, Unix(m.clock));
    InRequestsLater(stored.db, later.db, Unix(later.clock), id);
    assert UniqueKeys(later.db) by { InvUnique(later); }
    NormalizeKeepsKey(raw);
    NormalizeKeepsKey(raw');
    Resubmit(later.db, device, raw', rows', newId', Unix(later.clock), id);
  }

  lemma InvUnique(m: Machine)
    requires Inv(m)
    ensures UniqueKeys(m.db)
  {
    hide AllRefs, AllPermissions, AllServices, AllRows, AllLive, Disjoint, AllApproved, AllTrails, Capped, UniqueKeys;
  }

  lemma InvAuthority(m: Machine)
    requires Inv(m)
    ensures AllPermissions(m.db) && AllServices(m.db)
  {
    hide AllRefs, AllPermissions, AllServices, AllRows, AllLive, Disjoint, AllApproved, AllTrails, Capped, UniqueKeys;
  }

  lemma AcceptedIsNew(db: Db, device: string, raw: Submission, rows: seq<string>, id: string, now: int)
    requires id !in db.requests && Submit(db, device, raw, rows, id, now).1 == Accepted(id)
    ensures Normalize(raw).Some? && Submit(db, device, raw, rows, id, now).0 != db && raw.service in db.services
  {
    hide Normalize, Target, ApplicationHeaders, SubmissionDigest, FirstMatch, ActiveDevice;
    if Normalize(raw).Some? { NormalizeKeepsKey(raw); }
  }

  lemma SnapshotIsOfDevice(m: Machine, id: string)
    requires Inv(m) && id in m.db.requests
    ensures var s := Submitted(m.db.requests[id]);
            s.device == m.db.requests[id].device && s.service == m.db.requests[id].service
  {
    InvRow(m, id);
  }

  lemma NormalizeKeepsKey(raw: Submission)
    requires Normalize(raw).Some?
    ensures Normalize(raw).value.key == raw.key && Normalize(raw).value.service == raw.service
  {
    hide Precheck, BadHeader, Canonical;
  }

  lemma AcceptedIsStored(db: Db, device: string, raw: Submission, rows: seq<string>, newId: string, now: int)
    requires Normalize(raw).Some? && Submit(db, device, raw, rows, newId, now).1.Accepted?
    ensures var (db', reply) := Submit(db, device, raw, rows, newId, now);
            reply.id in db'.requests && HasKey(db'.requests[reply.id], device, Sha256(raw.key))
            && db'.requests[reply.id].submissionDigest == SubmissionDigest(Normalize(raw).value)
  {
    hide Normalize, Target, ApplicationHeaders, SubmissionDigest, Authorize, ActiveDevice;
    NormalizeKeepsKey(raw);
  }

  lemma Resubmit(db: Db, device: string, raw: Submission, rows: seq<string>, newId: string, now: int, id: string)
    requires UniqueKeys(db) && ActiveDevice(db, device) && Normalize(raw).Some?
    requires id in db.requests && HasKey(db.requests[id], device, Sha256(raw.key))
    ensures Submit(db, device, raw, rows, newId, now) ==
            (db, if db.requests[id].submissionDigest == SubmissionDigest(Normalize(raw).value)
                 then Accepted(id) else Refused(IdempotencyConflict))
  {
    hide Normalize, Admit, Authorize, SubmissionDigest;
    NormalizeKeepsKey(raw);
    var found := FindKey(db, device, Sha256(raw.key));
    assert found == Some(id) by {
      assert found.Some? && found.value in db.requests && HasKey(db.requests[found.value], device, Sha256(raw.key));
    }
  }

  /** A device has at most one request for a key. */
  lemma OneRequestPerKey(m: Machine, i: string, j: string)
    requires Reachable(m) && i in m.db.requests && j in m.db.requests
    requires m.db.requests[i].device == m.db.requests[j].device && m.db.requests[i].keyHash == m.db.requests[j].keyHash
    ensures i == j
  {
    hide Reachable, Inv;
    ReachableInv(m);
    InvUnique(m);
  }
}
