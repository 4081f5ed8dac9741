/** The whole machine: committed tables, a clock, the dispatch goroutines of the running process, and two records the
    program itself does not keep: which goroutine claimed each request, and what was transmitted.
    A step carries every choice the program does not make itself: identifiers, row orders, failures, timing. */
module Lifecycle {
  import opened Prelude
  import opened Access
  import opened Upstream
  import opened Store
  import opened Requests
  import opened Tables
  import opened Transactions
  import opened Results
  import opened Invariant
  import opened Preservation
  import opened TableChanges
  import opened Evolution
  import opened Actions

  /** Where a dispatch goroutine is: before its claim, after it, past the connection event, past transmission. */
  datatype Worker =
    | Spawned(id: string)
    | Claimed(id: string, snap: Snapshot, svc: Service)
    | Connected(id: string, snap: Snapshot, svc: Service)
    | Sent(id: string, snap: Snapshot, svc: Service)

  datatype Transmission = Transmission(id: string, worker: nat, snap: Snapshot, svc: Service)

  datatype Machine = Machine(
    db: Db, clock: nat, up: bool, workers: map<nat, Worker>, next: nat,
    claims: map<string, nat>, wire: seq<Transmission>)

  const START := Machine(EMPTY_DB, 0, false, map[], 0, map[], [])

  /** What the upstream call of a dispatch comes to: an error, or a response of which some bytes could be read. */
  datatype Outcome = SendFails | Answers(httpStatus: int, headers: map<string, seq<string>>, body: string,
      readFails: bool)

  datatype Step =
    | Tick(nanoseconds: nat)
    | Act(action: Action)
    | Spawn(id: string)
    | TryClaim(worker: nat, rows: seq<string>, commits: bool)
    | Connect(worker: nat)
    | Transmit(worker: nat)
    | Conclude(worker: nat, outcome: Outcome, commits: bool)
    | Crash
    | Restart(ids: seq<string>)

  function CredentialOpens(snap: Snapshot, svc: Service): bool {
    Decrypt(snap.credentialRef, svc.credential).Some?
  }

  /** How dispatch concludes a claimed request: status, reason and result for finish; None while it cannot. */
  function Ending(w: Worker, outcome: Outcome): Option<(Status, string, Option<Response>)> {
    match w
    case Spawned(_) => None
    case _ =>
      if !CredentialOpens(w.snap, w.svc) then Some((Failed, "credential_unavailable", None))
      else
        match outcome
        case SendFails =>
          if Classify(true, !w.Claimed?) == NotSent then Some((Failed, "request_not_sent", None))
          else Some((OutcomeUnknown, "connection_lost_check_provider", None))
        case Answers(httpStatus, headers, body, readFails) =>
          if !w.Sent? || !Bytes(ReadLimited(body)) then None
          else
            var result := Record(httpStatus, headers, ReadLimited(body), readFails);
            if readFails then Some((OutcomeUnknown, "incomplete_response_check_provider", Some(result)))
            else Some((Completed, "", Some(result)))
  }

  function ClaimStep(m: Machine, w: nat, rows: seq<string>, commits: bool): Machine
    requires w in m.workers
  {
    var id := m.workers[w].id;
    var gone := m.(workers := m.workers - {w});
    match Claim(m.db, id, rows, Unix(m.clock))
    case Skipped => gone
    case Stopped(db) => if commits then gone.(db := db) else gone
    case Won(db, snap, svc) =>
      if commits then m.(db := db, workers := m.workers[w := Claimed(id, snap, svc)], claims := m.claims[id := w])
      else gone
  }

  function ConcludeStep(m: Machine, w: nat, outcome: Outcome, commits: bool): Machine
    requires w in m.workers
  {
    match Ending(m.workers[w], outcome)
    case None => m
    case Some((status, reason, result)) =>
      var gone := m.(workers := m.workers - {w});
      if commits then gone.(db := FinishTx(m.db, m.workers[w].id, status, reason, result, Unix(m.clock))) else gone
  }

  function SpawnStep(m: Machine, id: string): Machine {
    m.(workers := m.workers[m.next := Spawned(id)], next := m.next + 1)
  }

  function ConnectStep(m: Machine, w: nat): Machine
    requires w in m.workers && m.workers[w].Claimed?
  {
    m.(workers := m.workers[w := Connected(m.workers[w].id, m.workers[w].snap, m.workers[w].svc)])
  }

  function TransmitStep(m: Machine, w: nat): Machine
    requires w in m.workers && m.workers[w].Connected?
  {
    var k := m.workers[w];
    m.(workers := m.workers[w := Sent(k.id, k.snap, k.svc)], wire := m.wire + [Transmission(k.id, w, k.snap, k.svc)])
  }

  function RestartStep(m: Machine, ids: seq<string>): Machine {
    m.(up := true, db := RecoverDispatches(m.db, ids, Unix(m.clock)))
  }

  /** One step; a step whose choices are not possible in the current state changes nothing. */
  ghost function Apply(m: Machine, step: Step): Machine {
    match step
    case Tick(n) => m.(clock := m.clock + n)
    case Act(a) => if m.up then m.(db := Perform(m.db, a, m.clock)) else m
    case Spawn(id) => if m.up then SpawnStep(m, id) else m
    case TryClaim(w, rows, commits) =>
      if w in m.workers && m.workers[w].Spawned? && Enumerates(rows, RecheckRows(m.db, m.workers[w].id, Unix(m.clock)))
      then ClaimStep(m, w, rows, commits) else m
    case Connect(w) =>
      if w in m.workers && m.workers[w].Claimed? && CredentialOpens(m.workers[w].snap, m.workers[w].svc)
      then ConnectStep(m, w) else m
    case Transmit(w) => if w in m.workers && m.workers[w].Connected? then TransmitStep(m, w) else m
    case Conclude(w, outcome, commits) => if w in m.workers then ConcludeStep(m, w, outcome, commits) else m
    case Crash => m.(up := false, workers := map[])
    case Restart(ids) => if !m.up && Enumerates(ids, Interrupted(m.db)) then RestartStep(m, ids) else m
  }

  ghost function Run(m: Machine, steps: seq<Step>): Machine
    decreases |steps|
  {
    if steps == [] then m else Run(Apply(m, steps[0]), steps[1..])
  }

  // ---------- the invariant ----------

  predicate OnWire(wire: seq<Transmission>, id: string) {
    exists k :: 0 <= k < |wire| && wire[k].id == id
  }

  /** The rule of its permission covers a snapshot, for its device, service and revision. */
  predicate Permitted(db: Db, s: Snapshot) {
    s.permission in db.permissions
    && Match(db.permissions[s.permission].rule, s.verb, s.path)
    && db.permissions[s.permission].device == s.device
    && db.permissions[s.permission].service == s.service
    && db.permissions[s.permission].revision == s.revision
  }

  /** A snapshot is permitted, and `svc` is its service as it was, and maybe still is, at its revision. */
  predicate Entitled(db: Db, s: Snapshot, svc: Service) {
    Permitted(db, s) && s.service in db.services
    && svc.revision == s.revision <= db.services[s.service].revision
    && (svc.revision == db.services[s.service].revision ==> db.services[s.service] == svc)
  }

  /** The URL of a snapshot is the one its path and query lead to under the base of the service, and its headers are
      headers the service admits. */
  predicate Aimed(s: Snapshot, svc: Service) {
    Target(svc.base, s.path, RawQuery(s.url)) == Some(s.url) && s.privateCidr == svc.privateCidr
    && HeadersFit(s.headers, svc.requestHeaders, svc.authHeader)
  }

  /** A goroutine past its claim: its request is dispatching, it is the claimant, it carries the submitted snapshot,
      covered and aimed, and a service whose credential that snapshot names, and it has sent exactly if it says so. */
  predicate Holding(m: Machine, w: nat, k: Worker) {
    k.Spawned?
    || (k.id in m.db.requests && m.db.requests[k.id].status == Dispatching
        && k.id in m.claims && m.claims[k.id] == w
        && k.snap == Submitted(m.db.requests[k.id]) && Entitled(m.db, k.snap, k.svc) && Aimed(k.snap, k.svc)
        && k.svc.credential.purpose == k.snap.credentialRef
        && (k.Sent? <==> OnWire(m.wire, k.id)))
  }

  predicate WorkersOk(m: Machine) {
    (!m.up ==> m.workers == map[]) && forall w | w in m.workers :: w < m.next && Holding(m, w, m.workers[w])
  }

  predicate ClaimsOk(m: Machine) {
    forall id | id in m.claims ::
      m.claims[id] < m.next && id in m.db.requests && !Live(m.db.requests[id].status)
  }

  predicate Honest(m: Machine, t: Transmission) {
    t.id in m.db.requests && Started(m.db.requests[t.id].status)
    && t.id in m.claims && m.claims[t.id] == t.worker
    && t.snap == Submitted(m.db.requests[t.id]) && Entitled(m.db, t.snap, t.svc) && Aimed(t.snap, t.svc)
  }

  predicate WireOk(m: Machine) {
    (forall k | 0 <= k < |m.wire| :: Honest(m, m.wire[k]))
    && forall i, j | 0 <= i < j < |m.wire| :: m.wire[i].id != m.wire[j].id
  }

  predicate CompletedOk(m: Machine) {
    forall id | id in m.db.requests && m.db.requests[id].status == Completed :: OnWire(m.wire, id)
  }

  ghost predicate Inv(m: Machine) {
    DbInv(m.db, Unix(m.clock)) && WorkersOk(m) && ClaimsOk(m) && WireOk(m) && CompletedOk(m)
  }

  /** How the machine may change over a run. */
  predicate MachineLater(m: Machine, m': Machine) {
    Later(m.db, m'.db, Unix(m'.clock)) && m.clock <= m'.clock && m.wire <= m'.wire
    && forall id | id in m.claims :: id in m'.claims && m'.claims[id] == m.claims[id]
  }

  lemma StartInv()
    ensures Inv(START)
  {
    forall id ensures TrailOk(EMPTY_DB, id) {}
    forall d ensures |Pending(EMPTY_DB, d, 0)| <= MAX_PENDING { assert Pending(EMPTY_DB, d, 0) == {}; }
  }

  lemma UnixGrows(clock: nat, later: nat)
    requires clock <= later
    ensures Unix(clock) <= Unix(later)
  {
  }

  /** Rules and saved revisions never change, so what was entitled stays entitled. */
  lemma EntitledLater(db: Db, db': Db)
    requires LaterServices(db, db') && LaterPermissions(db, db')
    ensures forall s, svc | Entitled(db, s, svc) :: Entitled(db', s, svc)
  {
    hide Match;
  }

  lemma EntitledFrame(db: Db, db': Db)
    requires db'.services == db.services && db'.permissions == db.permissions
    ensures forall s, svc | Entitled(db, s, svc) :: Entitled(db', s, svc)
  {
    EntitledLater(db, db');
  }

  /** An action of devices, owner or maintenance does not disturb the workers. */
  lemma ActKeeps(m: Machine, db': Db)
    requires Inv(m) && Good(m.db, db', Unix(m.clock))
    ensures Inv(m.(db := db')) && MachineLater(m, m.(db := db'))
  {
    hide DbInv, LaterDevices, LaterApprovals, FreshActivity, Started;
    var m' := m.(db := db');
    EntitledLater(m.db, db');
    hide Entitled, Aimed, LaterServices, LaterPermissions, Settled;
    forall id | id in m.db.requests
      ensures id in db'.requests && Submitted(db'.requests[id]) == Submitted(m.db.requests[id])
    {
      assert LaterRow(m.db.requests[id], db'.requests[id], Unix(m.clock));
    }
    NotLive();
    forall w | w in m'.workers ensures w < m'.next && Holding(m', w, m'.workers[w]) {
      assert Holding(m, w, m.workers[w]);
    }
    forall k | 0 <= k < |m'.wire| ensures Honest(m', m'.wire[k]) {
      assert Honest(m, m.wire[k]);
    }
    assert CompletedOk(m');
  }

  lemma NotLive()
    ensures forall s :: Started(s) ==> !Live(s)
    ensures Started(Dispatching) && Started(Completed) && Started(OutcomeUnknown)
  {
  }

  lemma TickInv(m: Machine, n: nat)
    requires Inv(m)
    ensures Inv(m.(clock := m.clock + n)) && MachineLater(m, m.(clock := m.clock + n))
  {
    hide DbInv, Later, Entitled, Aimed;
    UnixGrows(m.clock, m.clock + n);
    TickKeeps(m.db, Unix(m.clock), Unix(m.clock + n));
    LaterRefl(m.db, Unix(m.clock + n));
    assert forall w | w in m.workers :: Holding(m, w, m.workers[w]);
    assert forall k | 0 <= k < |m.wire| :: Honest(m, m.wire[k]);
  }

  /** Losing workers is always safe. */
  lemma FewerWorkers(m: Machine, m': Machine)
    requires Inv(m) && m'.db == m.db && m'.clock == m.clock
    requires m'.claims == m.claims && m'.wire == m.wire && m'.next == m.next
    requires forall w | w in m'.workers :: w in m.workers && m'.workers[w] == m.workers[w]
    requires m'.up == m.up || m'.workers == map[]
    ensures Inv(m') && MachineLater(m, m')
  {
    hide DbInv, Later, Entitled, Aimed;
    LaterRefl(m.db, Unix(m.clock));
    forall w | w in m'.workers ensures w < m'.next && Holding(m', w, m'.workers[w]) {
      assert Holding(m, w, m.workers[w]);
    }
    assert forall k | 0 <= k < |m.wire| :: Honest(m, m.wire[k]);
  }

  lemma SpawnInv(m: Machine, id: string)
    requires Inv(m) && m.up
    ensures Inv(SpawnStep(m, id)) && MachineLater(m, SpawnStep(m, id))
  {
    hide DbInv, Later, Entitled, Aimed;
    var m' := SpawnStep(m, id);
    LaterRefl(m.db, Unix(m.clock));
    forall w | w in m'.workers ensures w < m'.next && Holding(m', w, m'.workers[w]) {
      if w != m.next { assert Holding(m, w, m.workers[w]); }
    }
    assert forall k | 0 <= k < |m.wire| :: Honest(m, m.wire[k]);
  }

  // ---------- the claim ----------

  lemma StoppedInv(m: Machine, w: nat, db': Db)
    requires Inv(m) && w in m.workers && Good(m.db, db', Unix(m.clock))
    ensures Inv(m.(db := db', workers := m.workers - {w})) && MachineLater(m, m.(db := db', workers := m.workers - {w}))
  {
    hide DbInv, Later, Quiet, WorkersOk, ClaimsOk, WireOk, CompletedOk;
    ActKeeps(m, db');
    FewerWorkers(m.(db := db'), m.(db := db', workers := m.workers - {w}));
  }

  /** A claim that stops instead of winning cancels the request: its snapshot reads back and its approval matches. */
  lemma StoppedShape(db: Db, id: string, rows: seq<string>, now: int)
    requires AllRows(db) && AllApproved(db) && Claim(db, id, rows, now).Stopped?
    ensures id in db.requests && db.requests[id].status == Queued
    ensures Claim(db, id, rows, now).db == FinishTx(db, id, Cancelled, "authorization_changed_or_expired", None, now)
  {
    hide ValidSnapshot, ReadSnapshot, FinishTx;
    ReadSnapshotIsSubmitted(db, id);
    assert RowOk(id, db.requests[id]) && ApprovalOk(db, id, db.requests[id]);
  }

  lemma StoppedGood(db: Db, id: string, rows: seq<string>, now: int)
    requires DbInv(db, now) && Claim(db, id, rows, now).Stopped?
    ensures Good(db, Claim(db, id, rows, now).db, now)
  {
    hide DbInv, Claim, FinishTx, Later, Quiet;
    InvParts(db, now);
    StoppedShape(db, id, rows, now);
    FinishKeeps(db, id, Cancelled, "authorization_changed_or_expired", None, now);
    FinishLater(db, id, Cancelled, "authorization_changed_or_expired", None, now);
  }

  /** What a winning claim hands to the goroutine. */
  lemma WonService(db: Db, id: string, rows: seq<string>, now: int)
    requires DbInv(db, now) && Claim(db, id, rows, now).Won?
    ensures var c := Claim(db, id, rows, now);
            id in db.requests && db.requests[id].status == Queued && c.db == Dispatched(db, id)
            && c.snap == Submitted(db.requests[id]) && Entitled(db, c.snap, c.svc) && Aimed(c.snap, c.svc)
            && c.svc.credential.purpose == c.snap.credentialRef
  {
    hide DbInv, Claim, Match, AllPermissions, AllRefs, AllApproved, FirstMatch, Target, RawQuery, ReadSnapshot;
    hide HeadersFit, AllowList, Dispatched;
    InvParts(db, now);
    ClaimShape(db, id, rows, now);
    LiveBacked(db, id, now);
    var snap := Submitted(db.requests[id]);
    assert RowOk(id, db.requests[id]) && ServiceOk(snap.service, db.services[snap.service]);
    FirstMatchIsMatch(db, rows, snap.verb, snap.path);
  }

  function WonMachine(m: Machine, w: nat, id: string, snap: Snapshot, svc: Service): Machine
    requires id in m.db.requests
  {
    m.(db := Dispatched(m.db, id), workers := m.workers[w := Claimed(id, snap, svc)], claims := m.claims[id := w])
  }

  /** A queued request has neither a claimant nor a transmission. */
  lemma QueuedIsUntouched(m: Machine, id: string)
    requires Inv(m) && id in m.db.requests && m.db.requests[id].status == Queued
    ensures id !in m.claims && !OnWire(m.wire, id)
    ensures forall v | v in m.workers && m.workers[v].id == id :: m.workers[v].Spawned?
  {
    hide DbInv, Entitled, Aimed;
    forall v | v in m.workers ensures m.workers[v].id == id ==> m.workers[v].Spawned? {
      assert Holding(m, v, m.workers[v]);
    }
    forall k | 0 <= k < |m.wire| ensures m.wire[k].id != id {
      assert Honest(m, m.wire[k]);
    }
  }

  lemma WonWorkers(m: Machine, w: nat, id: string, snap: Snapshot, svc: Service)
    requires Inv(m) && w in m.workers && id in m.db.requests && m.db.requests[id].status == Queued
    requires snap == Submitted(m.db.requests[id]) && Entitled(m.db, snap, svc) && Aimed(snap, svc)
    requires svc.credential.purpose == snap.credentialRef
    ensures WorkersOk(WonMachine(m, w, id, snap, svc))
  {
    hide DbInv, OnWire, Entitled, Aimed;
    var m' := WonMachine(m, w, id, snap, svc);
    EntitledFrame(m.db, m'.db);
    QueuedIsUntouched(m, id);
    forall v | v in m'.workers ensures v < m'.next && Holding(m', v, m'.workers[v]) {
      assert Holding(m, v, m.workers[v]);
    }
  }

  lemma WonWire(m: Machine, w: nat, id: string, snap: Snapshot, svc: Service)
    requires WireOk(m) && id in m.db.requests && m.db.requests[id].status == Queued
    ensures WireOk(WonMachine(m, w, id, snap, svc))
  {
    hide Entitled, Aimed;
    var m' := WonMachine(m, w, id, snap, svc);
    EntitledFrame(m.db, m'.db);
    forall k | 0 <= k < |m'.wire| ensures Honest(m', m'.wire[k]) {
      assert Honest(m, m.wire[k]);
    }
  }

  lemma WonInv(m: Machine, w: nat, id: string, snap: Snapshot, svc: Service)
    requires Inv(m) && w in m.workers && id in m.db.requests && m.db.requests[id].status == Queued
    requires snap == Submitted(m.db.requests[id]) && Entitled(m.db, snap, svc) && Aimed(snap, svc)
    requires svc.credential.purpose == snap.credentialRef
    ensures Inv(WonMachine(m, w, id, snap, svc)) && MachineLater(m, WonMachine(m, w, id, snap, svc))
  {
    hide DbInv, Later, Started, OnWire, Holding, Advances, WireOk, Entitled, Aimed;
    var m' := WonMachine(m, w, id, snap, svc);
    DispatchKeeps(m.db, id, Unix(m.clock));
    AdvanceLater(m.db, m'.db, id, Dispatching, Unix(m.clock));
    NotLive();
    QueuedIsUntouched(m, id);
    WonWorkers(m, w, id, snap, svc);
    WonWire(m, w, id, snap, svc);
  }

  lemma ClaimInv(m: Machine, w: nat, rows: seq<string>, commits: bool)
    requires Inv(m) && w in m.workers && m.workers[w].Spawned?
    ensures Inv(ClaimStep(m, w, rows, commits)) && MachineLater(m, ClaimStep(m, w, rows, commits))
  {
    hide DbInv, Later, Quiet, WorkersOk, ClaimsOk, WireOk, CompletedOk, Claim, Dispatched, MachineLater;
    var id, now := m.workers[w].id, Unix(m.clock);
    match Claim(m.db, id, rows, now)
    case Skipped => FewerWorkers(m, m.(workers := m.workers - {w}));
    case Stopped(db) =>
      StoppedGood(m.db, id, rows, now);
      StoppedInv(m, w, db);
      FewerWorkers(m, m.(workers := m.workers - {w}));
    case Won(db, snap, svc) =>
      WonService(m.db, id, rows, now);
      WonInv(m, w, id, snap, svc);
      FewerWorkers(m, m.(workers := m.workers - {w}));
  }

  // ---------- connecting, transmitting, concluding ----------

  lemma ConnectInv(m: Machine, w: nat)
    requires Inv(m) && w in m.workers && m.workers[w].Claimed?
    ensures Inv(ConnectStep(m, w)) && MachineLater(m, ConnectStep(m, w))
  {
    hide DbInv, Later, Started, Entitled, Aimed;
    var m' := ConnectStep(m, w);
    LaterRefl(m.db, Unix(m.clock));
    forall v | v in m'.workers ensures v < m'.next && Holding(m', v, m'.workers[v]) {
      assert Holding(m, v, m.workers[v]);
    }
    assert forall k | 0 <= k < |m.wire| :: Honest(m, m.wire[k]);
  }

  lemma OnWireMore(wire: seq<Transmission>, t: Transmission)
    ensures forall id :: OnWire(wire + [t], id) <==> OnWire(wire, id) || id == t.id
  {
    assert (wire + [t])[|wire|].id == t.id;
    forall id | OnWire(wire, id) ensures OnWire(wire + [t], id) {
      var j :| 0 <= j < |wire| && wire[j].id == id;
      assert (wire + [t])[j].id == id;
    }
  }

  lemma TransmitWorkers(m: Machine, w: nat)
    requires WorkersOk(m) && w in m.workers && m.workers[w].Connected?
    ensures WorkersOk(TransmitStep(m, w))
  {
    hide OnWire, Entitled, Aimed;
    var m', k := TransmitStep(m, w), m.workers[w];
    OnWireMore(m.wire, Transmission(k.id, w, k.snap, k.svc));
    assert Holding(m, w, k);
    forall v | v in m'.workers ensures v < m'.next && Holding(m', v, m'.workers[v]) {
      assert Holding(m, v, m.workers[v]);
    }
  }

  lemma TransmitWire(m: Machine, w: nat)
    requires WireOk(m) && w in m.workers && m.workers[w].Connected? && Holding(m, w, m.workers[w])
    ensures WireOk(TransmitStep(m, w))
  {
    hide Submitted, Started, Entitled, Aimed;
    var m', k := TransmitStep(m, w), m.workers[w];
    NotLive();
    forall j | 0 <= j < |m.wire| ensures m.wire[j].id != k.id && Honest(m', m.wire[j]) {
      assert Honest(m, m.wire[j]);
    }
    assert Honest(m', Transmission(k.id, w, k.snap, k.svc));
  }

  lemma TransmitInv(m: Machine, w: nat)
    requires Inv(m) && w in m.workers && m.workers[w].Connected?
    ensures Inv(TransmitStep(m, w)) && MachineLater(m, TransmitStep(m, w))
  {
    hide DbInv, Later, Holding, WireOk, OnWire, Entitled, Aimed;
    var k := m.workers[w];
    LaterRefl(m.db, Unix(m.clock));
    assert Holding(m, w, k);
    TransmitWorkers(m, w);
    TransmitWire(m, w);
    OnWireMore(m.wire, Transmission(k.id, w, k.snap, k.svc));
  }

  /** A claimant is the only goroutine holding its request. */
  lemma OnlyHolder(m: Machine, w: nat, v: nat)
    requires WorkersOk(m) && w in m.workers && v in m.workers && v != w
    requires !m.workers[w].Spawned? && !m.workers[v].Spawned?
    ensures m.workers[w].id != m.workers[v].id
  {
    hide Entitled, Aimed;
    assert Holding(m, w, m.workers[w]) && Holding(m, v, m.workers[v]);
  }

  /** A conclusion follows an edge out of dispatching and matches what was transmitted. */
  lemma EndingFits(w: Worker, outcome: Outcome)
    requires Ending(w, outcome).Some?
    ensures !w.Spawned?
    ensures var (status, _, _) := Ending(w, outcome).value;
            Edge(Dispatching, status) && Terminal(status)
            && (status == Completed ==> w.Sent?) && (!Started(status) ==> status == Failed)
            && (status == Failed && CredentialOpens(w.snap, w.svc) ==> !w.Sent?)
  {
    hide ReadLimited, Bytes, Record;
  }

  function ConcludedMachine(m: Machine, w: nat, status: Status, reason: string, result: Option<Response>): Machine
    requires w in m.workers
  {
    m.(workers := m.workers - {w}, db := FinishTx(m.db, m.workers[w].id, status, reason, result, Unix(m.clock)))
  }

  lemma ConcludeWorkers(m: Machine, w: nat, status: Status, reason: string, result: Option<Response>)
    requires WorkersOk(m) && w in m.workers && !m.workers[w].Spawned?
    ensures WorkersOk(ConcludedMachine(m, w, status, reason, result))
  {
    hide OnWire, Entitled, Aimed;
    var m' := ConcludedMachine(m, w, status, reason, result);
    EntitledFrame(m.db, m'.db);
    forall v | v in m'.workers ensures v < m'.next && Holding(m', v, m'.workers[v]) {
      assert Holding(m, v, m.workers[v]);
      if !m.workers[v].Spawned? { OnlyHolder(m, w, v); }
    }
  }

  lemma ConcludeWire(m: Machine, w: nat, status: Status, reason: string, result: Option<Response>)
    requires WireOk(m) && w in m.workers && (OnWire(m.wire, m.workers[w].id) ==> Started(status))
    ensures WireOk(ConcludedMachine(m, w, status, reason, result))
  {
    hide Started, Entitled, Aimed;
    var m' := ConcludedMachine(m, w, status, reason, result);
    EntitledFrame(m.db, m'.db);
    forall j | 0 <= j < |m'.wire| ensures Honest(m', m'.wire[j]) {
      assert Honest(m, m.wire[j]);
    }
  }

  lemma ConcludeInv(m: Machine, w: nat, status: Status, reason: string, result: Option<Response>)
    requires Inv(m) && w in m.workers && !m.workers[w].Spawned?
    requires Edge(Dispatching, status) && Terminal(status) && (status == Completed ==> m.workers[w].Sent?)
    requires !Started(status) ==> !m.workers[w].Sent?
    ensures Inv(ConcludedMachine(m, w, status, reason, result))
    ensures MachineLater(m, ConcludedMachine(m, w, status, reason, result))
  {
    hide DbInv, Later, Started, Edge, Terminal, Entitled, Aimed, WireOk, OnWire;
    var k := m.workers[w];
    assert Holding(m, w, k);
    FinishKeeps(m.db, k.id, status, reason, result, Unix(m.clock));
    FinishLater(m.db, k.id, status, reason, result, Unix(m.clock));
    TerminalNotLive();
    ConcludeWorkers(m, w, status, reason, result);
    ConcludeWire(m, w, status, reason, result);
  }

  lemma TerminalNotLive()
    ensures forall s :: Terminal(s) ==> !Live(s)
  {
  }

  lemma ConcludeStepInv(m: Machine, w: nat, outcome: Outcome, commits: bool)
    requires Inv(m) && w in m.workers
    ensures Inv(ConcludeStep(m, w, outcome, commits)) && MachineLater(m, ConcludeStep(m, w, outcome, commits))
  {
    hide DbInv, Later, ClaimsOk, WireOk, CompletedOk, Ending, Started, Terminal, Edge, FinishTx, Entitled, Aimed;
    match Ending(m.workers[w], outcome)
    case None => FewerWorkers(m, m);
    case Some((status, reason, result)) =>
      EndingFits(m.workers[w], outcome);
      assert Holding(m, w, m.workers[w]);
      FewerWorkers(m, m.(workers := m.workers - {w}));
      ConcludeInv(m, w, status, reason, result);
  }

  // ---------- restart ----------

  lemma RestartInv(m: Machine, ids: seq<string>)
    requires Inv(m) && !m.up && Enumerates(ids, Interrupted(m.db))
    ensures Inv(RestartStep(m, ids)) && MachineLater(m, RestartStep(m, ids))
  {
    hide DbInv, Later, Enumerates, Started, OnWire, Entitled, Aimed;
    EnumeratedIs(ids, Interrupted(m.db));
    assert Closable(m.db, ids, OutcomeUnknown);
    var reason := "server_restarted_during_dispatch_check_provider";
    CloseAllKeeps(m.db, ids, OutcomeUnknown, reason, Unix(m.clock));
    CloseAllLater(m.db, ids, OutcomeUnknown, reason, Unix(m.clock));
    var m' := RestartStep(m, ids);
    EntitledFrame(m.db, m'.db);
    NotLive();
    forall k | 0 <= k < |m'.wire| ensures Honest(m', m'.wire[k]) {
      assert Honest(m, m.wire[k]);
    }
  }

  // ---------- every step, every run ----------

  lemma StepInv(m: Machine, step: Step)
    requires Inv(m)
    ensures Inv(Apply(m, step)) && MachineLater(m, Apply(m, step))
  {
    hide DbInv, Later, Good, WorkersOk, ClaimsOk, WireOk, CompletedOk, ClaimStep, ConcludeStep, SpawnStep;
    hide ConnectStep, TransmitStep, RestartStep, MachineLater, Perform, CredentialOpens;
    FewerWorkers(m, m);
    match step
    case Tick(n) => TickInv(m, n);
    case Act(a) => if m.up { PerformGood(m.db, a, m.clock); ActKeeps(m, Perform(m.db, a, m.clock)); }
    case Spawn(id) => if m.up { SpawnInv(m, id); }
    case TryClaim(w, rows, commits) => if w in m.workers && m.workers[w].Spawned? { ClaimInv(m, w, rows, commits); }
    case Connect(w) => if w in m.workers && m.workers[w].Claimed? { ConnectInv(m, w); }
    case Transmit(w) => if w in m.workers && m.workers[w].Connected? { TransmitInv(m, w); }
    case Conclude(w, outcome, commits) => if w in m.workers { ConcludeStepInv(m, w, outcome, commits); }
    case Crash => FewerWorkers(m, m.(up := false, workers := map[]));
    case Restart(ids) => if !m.up && Enumerates(ids, Interrupted(m.db)) { RestartInv(m, ids); }
  }

  lemma LaterMachineTransitive(a: Machine, b: Machine, c: Machine)
    requires MachineLater(a, b) && MachineLater(b, c)
    ensures MachineLater(a, c)
  {
    hide Later;
    UnixGrows(b.clock, c.clock);
    LaterTransitive(a.db, b.db, c.db, Unix(b.clock), Unix(c.clock));
  }

  /** The invariant holds after every run from a state that satisfies it, and the state only evolves lawfully. */
  lemma {:induction false} RunInv(m: Machine, steps: seq<Step>)
    requires Inv(m)
    ensures Inv(Run(m, steps)) && MachineLater(m, Run(m, steps))
    decreases |steps|
  {
    hide Inv, MachineLater, Apply;
    StepInv(m, if steps == [] then Crash else steps[0]);
    if steps == [] {
      StayLater(m);
    } else {
      RunInv(Apply(m, steps[0]), steps[1..]);
      LaterMachineTransitive(m, Apply(m, steps[0]), Run(m, steps));
    }
  }

  lemma StayLater(m: Machine)
    ensures MachineLater(m, m)
  {
    hide Later;
    LaterRefl(m.db, Unix(m.clock));
  }

  /** A state some run of the program can be in. */
  ghost predicate Reachable(m: Machine) {
    exists steps :: m == Run(START, steps)
  }

  lemma ReachableInv(m: Machine)
    requires Reachable(m)
    ensures Inv(m)
  {
    hide Inv;
    var steps :| m == Run(START, steps);
    StartInv();
    RunInv(START, steps);
  }

  lemma {:induction false} RunAppend(m: Machine, steps: seq<Step>, step: Step)
    ensures Run(m, steps + [step]) == Apply(Run(m, steps), step)
    decreases |steps|
  {
    hide Apply;
    if steps == [] {
      assert [step][1..] == [];
    } else {
      RunAppend(Apply(m, steps[0]), steps[1..], step);
      assert (steps + [step])[0] == steps[0] && (steps + [step])[1..] == steps[1..] + [step];
    }
  }

  lemma ReachStep(m: Machine, step: Step)
    requires Reachable(m)
    ensures Reachable(Apply(m, step))
  {
    hide Apply, Run;
    var steps :| m == Run(START, steps);
    RunAppend(START, steps, step);
  }

  lemma {:induction false} ReachRun(m: Machine, steps: seq<Step>)
    requires Reachable(m)
    ensures Reachable(Run(m, steps))
    decreases |steps|
  {
    hide Reachable, Apply;
    if steps != [] {
      ReachStep(m, steps[0]);
      ReachRun(Apply(m, steps[0]), steps[1..]);
    }
  }
}
