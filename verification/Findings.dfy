/** Inputs and reachable states: where the program does less than it may seem to promise, and one transmission. */
module Findings {
  import opened Prelude
  import opened Strings
  import opened Access
  import opened Upstream
  import opened Store
  import opened Headers
  import opened Requests
  import opened Tables
  import opened Transactions
  import opened Invariant
  import opened Actions
  import opened Lifecycle
  import opened Guarantees

  const FORM := ServiceForm("", Base("h", ""), "none", "", "", "X", "X", "", true)
  const GRANT := PermissionForm("d", "s", "GET", "/a", "exact", "approval_required", None)
  const RULE := Rule("GET", "/a", Exact)

  /** Pairwise different identifiers and idempotency keys. */
  function Key(n: nat): string {
    seq(n + 1, _ => 'k')
  }

  function Ask(n: nat, headers: map<string, string>): Submission {
    Submission("s", "GET", "/a", "", headers, "", Key(n))
  }

  // ---------- the strings involved ----------

  lemma PathIsOk()
    ensures Path("/a")
  {
    SplitNoSeparator("", '/');
    SplitNoSeparator("a", '/');
    SplitConcat("", "a", '/');
    assert "/a" == "" + ['/'] + "a";
    assert Split("/a", '/') == ["", "a"];
  }

  lemma MethodIsOk()
    ensures Method("GET")
  {
    assert |Lower("GET")| == 3 && |Lower("CONNECT")| == 7 && |Lower("TRACE")| == 5;
  }

  lemma MethodsAreOk()
    ensures Methods("GET") == Some("GET") && HasMethod("GET", "GET")
  {
    MethodIsOk();
    assert Commas("GET") == "GET";
    SplitNoSeparator("GET", ',');
    assert Fields("GET") == ["GET"] by { NonEmptyAll(["GET"]); }
    assert Sort(["GET"]) == ["GET"];
  }

  lemma TargetIsOk(base: Base)
    requires base.path == "" && BaseOk(base)
    ensures Target(base, "/a", "").Some?
  {
    PathIsOk();
  }

  lemma HostIsOk()
    ensures BaseOk(Base("h", "")) && BaseOk(Base("example.invalid", ""))
  {
    hide BaseOk;
    PlainHostIsOk("h");
    PlainHostIsOk("example.invalid");
  }

  lemma NameIsOk()
    ensures HeaderName("X") && !Reserved("X") && Canonical("X") == "X"
  {
    assert Lower("X") == "x";
    assert Recase("X", true) == "X";
  }

  lemma NameIsClean()
    ensures Cleaned("X") == "X"
  {
    hide Canonical;
    NameIsOk();
    assert LeadingSpace("X") == 0 && TrailingSpace("X") == 0;
  }

  lemma NameIsSavable()
    ensures Savable("X", "")
  {
    hide Cleaned, Reserved, HeaderName;
    NameIsOk();
    NameIsClean();
    assert |Lower("X")| == 1 && |Lower("")| == 0;
  }

  lemma ListIsOk(defaults: seq<string>)
    ensures HeaderNames("X", defaults, "") == Some(["X"])
  {
    hide Savable, Cleaned, Split;
    NameIsClean();
    NameIsSavable();
    SplitNoSeparator("X", ',');
    assert Names("X", defaults) == ["X"];
    assert ["X"][1..] == [] && [] + ["X"] == ["X"];
  }

  lemma FormIsOk()
    ensures FormOk("s", FORM)
  {
    HostIsOk();
    ListIsOk(REQUEST_DEFAULTS);
    ListIsOk(RESPONSE_DEFAULTS);
  }

  lemma PrecheckIsOk(n: nat, headers: map<string, string>)
    requires n <= 20
    ensures Precheck(Ask(n, headers)).None?
  {
    PathIsOk();
    MethodIsOk();
    HostIsOk();
    TargetIsOk(Base("example.invalid", ""));
  }

  lemma AskIsNormal(n: nat)
    requires n <= 20
    ensures Normalize(Ask(n, map[])) == Some(Ask(n, map[]))
  {
    hide Precheck, BadHeader, Canonical, Acceptable, Renamed, Key;
    PrecheckIsOk(n, map[]);
    NoHeaders(BadHeader, Canonical);
  }

  // ---------- the error code of Normalize depends on the order of a map ----------

  const CLASHING: map<string, string> := map["Host" := "", "X-A" := "", "x-a" := ""]

  lemma LowerIs(s: string, t: string)
    requires |s| == |t| && forall i | 0 <= i < |s| :: LowerByte(s[i]) == t[i]
    ensures Lower(s) == t
  {
  }

  lemma HostIsReserved()
    ensures BadHeader("Host", "")
  {
    LowerIs("Host", "host");
  }

  /** A short name that is no name of the list and has none of its prefixes. */
  lemma ShortIsFree(n: string)
    requires |n| == 3 && Lower(n)[1] == '-'
    ensures !Reserved(n)
  {
  }

  lemma SpellingsAreFree()
    ensures !BadHeader("X-A", "") && !BadHeader("x-a", "")
  {
    hide Reserved, Lower;
    SpellingsAgree();
    ShortIsFree("X-A");
    ShortIsFree("x-a");
  }

  lemma SpellingsAgree()
    ensures Lower("X-A") == "x-a" && Lower("x-a") == "x-a"
  {
    hide Lower;
    LowerIs("X-A", "x-a");
    LowerIs("x-a", "x-a");
  }

  lemma NamesClash()
    ensures BadHeader("Host", "") && !BadHeader("X-A", "") && !BadHeader("x-a", "")
    ensures Canonical("X-A") == Canonical("x-a")
  {
    hide Reserved, Lower, HeaderValue, Canonical;
    HostIsReserved();
    SpellingsAreFree();
    SpellingsAgree();
    CanonicalIsFold("X-A", "x-a");
  }

  /** One submission with a reserved header and two spellings of another is refused with two different codes. */
  lemma OneSubmissionTwoErrors()
    ensures Enumerates(["Host", "X-A", "x-a"], CLASHING.Keys) && Enumerates(["X-A", "x-a", "Host"], CLASHING.Keys)
    ensures NormalizeInOrder(Ask(0, CLASHING), ["Host", "X-A", "x-a"]) == Failure(HeaderFault(InvalidHeader))
    ensures NormalizeInOrder(Ask(0, CLASHING), ["X-A", "x-a", "Host"]) == Failure(HeaderFault(DuplicateHeader))
  {
    hide Precheck, BadHeader, Canonical;
    PrecheckIsOk(0, CLASHING);
    NamesClash();
    var o, o' := ["Host", "X-A", "x-a"], ["X-A", "x-a", "Host"];
    assert (set x | x in o) == CLASHING.Keys && (set x | x in o') == CLASHING.Keys;
    assert o'[1..][0] == "x-a";
  }

  // ---------- runs ----------

  function Idle(db: Db, clock: nat): Machine {
    START.(db := db, clock := clock, up := true)
  }

  lemma StartsIdle()
    ensures Reachable(Idle(EMPTY_DB, 0))
  {
    assert START == Run(START, []);
    assert Interrupted(EMPTY_DB) == {};
    assert RecoverDispatches(EMPTY_DB, [], 0) == EMPTY_DB;
    ReachStep(START, Restart([]));
  }

  lemma ActIdle(db: Db, clock: nat, a: Action)
    requires Reachable(Idle(db, clock))
    ensures Reachable(Idle(Perform(db, a, clock), clock))
  {
    hide Perform, Reachable;
    ReachStep(Idle(db, clock), Act(a));
  }

  /** One device, and one enabled service at revision 1. */
  predicate Furnished(db: Db) {
    db.devices == map["d" := Device(false)] && db.services.Keys == {"s"} && db.permissions == map[]
    && db.requests == map[] && db.services["s"].enabled && db.services["s"].revision == 1
    && db.services["s"].base == Base("h", "")
  }

  lemma FurnishedIsReachable() returns (db: Db)
    ensures Furnished(db) && Reachable(Idle(db, 0))
  {
    hide Reachable, FormOk, RequestList, ResponseList;
    StartsIdle();
    FormIsOk();
    ActIdle(EMPTY_DB, 0, OwnerInvites("o", "d"));
    var invited := Perform(EMPTY_DB, OwnerInvites("o", "d"), 0);
    ActIdle(invited, 0, OwnerCreatesService("o", "s", FORM));
    db := Perform(invited, OwnerCreatesService("o", "s", FORM), 0);
  }

  // ---------- a permission can be stored already expired ----------

  lemma GrantRule(expires: Option<nat>)
    ensures FormRule(GRANT.(expires := expires)) == Some(RULE)
    ensures FormMode(GRANT.(expires := expires)) == Some(ApprovalRequired)
  {
    MethodsAreOk();
    PathIsOk();
  }

  /** At one nanosecond, a permission that expires at two is accepted as future and stored as expired. */
  lemma StoredExpired()
    ensures exists m :: Reachable(m) && m.clock == 1
              && AddPermission(m.db, "o", GRANT.(expires := Some(2)), "p", 1).Some?
              && var db' := AddPermission(m.db, "o", GRANT.(expires := Some(2)), "p", 1).value;
                 "p" in db'.permissions && !Unexpired(db'.permissions["p"], Unix(1))
  {
    hide Reachable, FormRule, FormMode;
    var db := FurnishedIsReachable();
    ReachStep(Idle(db, 0), Tick(1));
    GrantRule(Some(2));
    assert ActiveRows(db, "d", "s", Unix(1)) == {};
    assert Reachable(Idle(db, 1));
  }

  // ---------- twenty-one requests can wait for a decision ----------

  const DEADLINE := APPROVAL_SECONDS

  /** The device has one permission for the service. */
  predicate Ruled(db: Db, mode: Mode) {
    db.devices == map["d" := Device(false)] && db.services.Keys == {"s"} && db.services["s"].enabled
    && db.services["s"].base == Base("h", "")
    && db.permissions == map["p" := Permission("d", "s", db.services["s"].revision, RULE, mode, "o", None, false)]
  }

  /** `n` requests of the device wait for a decision under its one permission, all with the same deadline. */
  predicate Waiting(db: Db, n: nat) {
    Ruled(db, ApprovalRequired) && |db.requests.Keys| == n
    && forall id | id in db.requests ::
         |id| <= n && db.requests[id].keyHash == Sha256(id) && db.requests[id].device == "d"
         && db.requests[id].status == PendingApproval && db.requests[id].expires == DEADLINE
  }

  lemma RuledIsReachable(f: PermissionForm, mode: Mode) returns (db: Db)
    requires FormRule(f) == Some(RULE) && FormMode(f) == Some(mode)
    requires f.device == "d" && f.service == "s" && f.expires == None
    ensures Ruled(db, mode) && db.requests == map[] && Reachable(Idle(db, 0))
  {
    hide Reachable, FormRule, FormMode;
    var furnished := FurnishedIsReachable();
    assert ActiveRows(furnished, "d", "s", 0) == {};
    ActIdle(furnished, 0, OwnerAddsPermission("o", f, "p"));
    db := Perform(furnished, OwnerAddsPermission("o", f, "p"), 0);
  }

  lemma NoneWait() returns (db: Db)
    ensures Waiting(db, 0) && Reachable(Idle(db, 0))
  {
    hide Reachable, Ruled;
    GrantRule(None);
    db := RuledIsReachable(GRANT, ApprovalRequired);
  }

  lemma RuleMatches()
    ensures Match(RULE, "GET", "/a")
  {
    MethodsAreOk();
  }

  lemma OneRuleIsActive(db: Db, mode: Mode, now: int)
    requires Ruled(db, mode)
    ensures ActiveRows(db, "d", "s", now) == {"p"}
  {
  }

  lemma NextIsAuthorized(db: Db, mode: Mode)
    requires Ruled(db, mode)
    ensures Authorize(db, ["p"], "d", "s", "GET", "/a") == Some("p")
  {
    hide Match;
    RuleMatches();
    assert ["p"][0] == "p";
  }

  lemma NextIsNew(db: Db, n: nat)
    requires Waiting(db, n)
    ensures Key(n) !in db.requests && FindKey(db, "d", Sha256(Key(n))) == None
  {
    assert |Key(n)| == n + 1;
  }

  lemma NextIsAdmitted(db: Db, n: nat, now: int)
    requires Waiting(db, n) && |Pending(db, "d", now)| < 20
    ensures var (db', reply) := Admit(db, "d", Ask(n, map[]), "p", Key(n), now);
            reply == Accepted(Key(n)) && Key(n) in db'.requests
            && db' == InsertRequest(db, Key(n), db'.requests[Key(n)])
            && var r := db'.requests[Key(n)];
               r.keyHash == Sha256(Key(n)) && r.device == "d" && r.status == PendingApproval
               && r.expires == now + APPROVAL_SECONDS
  {
    hide Pending, Target, SubmissionDigest, FindKey;
    NextIsNew(db, n);
    HostIsOk();
    TargetIsOk(Base("h", ""));
  }

  /** One more submission is stored as long as fewer than twenty of those waiting are within their deadline. */
  lemma OneMoreWaits(db: Db, n: nat, clock: nat)
    requires Waiting(db, n) && n <= 20 && |Pending(db, "d", Unix(clock))| < 20
    ensures var db' := Perform(db, DeviceSubmits("d", Ask(n, map[]), ["p"], Key(n)), clock);
            db'.devices == db.devices && db'.services == db.services && db'.permissions == db.permissions
            && db'.requests.Keys == db.requests.Keys + {Key(n)}
            && (forall id | id in db.requests :: db'.requests[id] == db.requests[id])
            && var r := db'.requests[Key(n)];
               r.keyHash == Sha256(Key(n)) && r.device == "d" && r.status == PendingApproval
               && r.expires == Unix(clock) + APPROVAL_SECONDS
  {
    hide Admit, Perform, Submit, Pending, Key, Waiting, Ruled, Authorize, ActiveRows, FindKey;
    assert Ruled(db, ApprovalRequired) by { WaitingIsRuled(db, n); }
    RuledTables(db, ApprovalRequired);
    OneRuleIsActive(db, ApprovalRequired, Unix(clock));
    assert Enumerates(["p"], {"p"});
    NextIsAuthorized(db, ApprovalRequired);
    NextIsNew(db, n);
    NextIsAdmitted(db, n, Unix(clock));
    NextPerforms(db, n, clock);
  }

  lemma WaitingIsRuled(db: Db, n: nat)
    requires Waiting(db, n)
    ensures Ruled(db, ApprovalRequired)
  {
    hide Ruled;
  }

  lemma RuledTables(db: Db, mode: Mode)
    requires Ruled(db, mode)
    ensures ActiveDevice(db, "d") && "s" in db.services && "p" in db.permissions
  {
  }

  lemma NextPerforms(db: Db, n: nat, clock: nat)
    requires n <= 20 && ActiveDevice(db, "d") && "s" in db.services && "p" in db.permissions
    requires Enumerates(["p"], ActiveRows(db, "d", "s", Unix(clock)))
    requires FindKey(db, "d", Sha256(Key(n))) == None && Authorize(db, ["p"], "d", "s", "GET", "/a") == Some("p")
    ensures Perform(db, DeviceSubmits("d", Ask(n, map[]), ["p"], Key(n)), clock)
            == Admit(db, "d", Ask(n, map[]), "p", Key(n), Unix(clock)).0
  {
    hide Normalize, Admit, Authorize, ActiveRows, Enumerates, FindKey, SubmissionDigest, Key, ActiveDevice;
    AskIsNormal(n);
  }

  lemma {:induction false} SomeWait(n: nat) returns (db: Db)
    requires n <= 20
    ensures Waiting(db, n) && Reachable(Idle(db, 0))
  {
    hide Reachable, Perform, Pending, Waiting, Key;
    if n == 0 {
      db := NoneWait();
    } else {
      var before := SomeWait(n - 1);
      PendingAtMost(before, n - 1);
      OneMoreWaits(before, n - 1, 0);
      ActIdle(before, 0, DeviceSubmits("d", Ask(n - 1, map[]), ["p"], Key(n - 1)));
      db := Perform(before, DeviceSubmits("d", Ask(n - 1, map[]), ["p"], Key(n - 1)), 0);
      WaitingNext(before, n - 1, db);
    }
  }

  lemma WaitingNext(db: Db, n: nat, db': Db)
    requires Waiting(db, n)
    requires db'.devices == db.devices && db'.services == db.services && db'.permissions == db.permissions
    requires db'.requests.Keys == db.requests.Keys + {Key(n)}
    requires forall id | id in db.requests :: db'.requests[id] == db.requests[id]
    requires var r := db'.requests[Key(n)];
             r.keyHash == Sha256(Key(n)) && r.device == "d" && r.status == PendingApproval && r.expires == DEADLINE
    ensures Waiting(db', n + 1)
  {
    assert |Key(n)| == n + 1 && Key(n) !in db.requests;
  }

  lemma PendingAtMost(db: Db, n: nat)
    requires Waiting(db, n)
    ensures |Pending(db, "d", 0)| <= n
  {
    SubsetSize(Pending(db, "d", 0), db.requests.Keys);
  }

  /** Twenty requests wait, their deadline passes, and before maintenance runs a further one is stored: twenty-one
      requests of one device are pending approval. */
  lemma TwentyOneWait()
    ensures exists m, d :: Reachable(m) && |AllPending(m.db, d)| == 21
  {
    hide Reachable, Perform;
    var db := SomeWait(20);
    var clock := DEADLINE * NANOSECONDS;
    ReachStep(Idle(db, 0), Tick(clock));
    assert Pending(db, "d", Unix(clock)) == {};
    OneMoreWaits(db, 20, clock);
    ActIdle(db, clock, DeviceSubmits("d", Ask(20, map[]), ["p"], Key(20)));
    var db' := Perform(db, DeviceSubmits("d", Ask(20, map[]), ["p"], Key(20)), clock);
    assert Key(20) !in db.requests;
    assert AllPending(db', "d") == db.requests.Keys + {Key(20)};
    var m := Idle(db', clock);
    assert Reachable(m) && |AllPending(m.db, "d")| == 21;
  }

  // ---------- a request can be transmitted ----------

  lemma StandingRule()
    ensures FormRule(GRANT.(mode := "standing")) == Some(RULE)
    ensures FormMode(GRANT.(mode := "standing")) == Some(Standing)
  {
    MethodsAreOk();
    PathIsOk();
  }

  lemma FirstIsAdmitted(db: Db)
    requires Ruled(db, Standing) && db.requests == map[]
    ensures var (db', reply) := Admit(db, "d", Ask(0, map[]), "p", Key(0), 0);
            reply == Accepted(Key(0)) && db'.permissions == db.permissions && Key(0) in db'.requests
            && db'.requests[Key(0)].status == Queued && db'.requests[Key(0)].permission == "p"
            && db'.requests[Key(0)].expires == QUEUE_SECONDS
  {
    hide Target, SubmissionDigest, Key;
    HostIsOk();
    TargetIsOk(Base("h", ""));
  }

  lemma OneIsQueued() returns (db: Db)
    ensures Reachable(Idle(db, 0)) && Key(0) in db.requests && db.requests[Key(0)].status == Queued
    ensures "p" in db.permissions && db.permissions["p"].expires == None
    ensures db.requests[Key(0)].permission == "p" && db.requests[Key(0)].expires == QUEUE_SECONDS
  {
    hide Reachable, Perform, Admit, Key, FormRule, FormMode;
    StandingRule();
    var ruled := RuledIsReachable(GRANT.(mode := "standing"), Standing);
    OneRuleIsActive(ruled, Standing, 0);
    NextIsAuthorized(ruled, Standing);
    NextPerforms(ruled, 0, 0);
    FirstIsAdmitted(ruled);
    ActIdle(ruled, 0, DeviceSubmits("d", Ask(0, map[]), ["p"], Key(0)));
    db := Perform(ruled, DeviceSubmits("d", Ask(0, map[]), ["p"], Key(0)), 0);
  }

  /** Something is transmitted in some reachable state, so what is proved of transmissions is not empty. */
  lemma OneTransmission()
    ensures exists m :: Reachable(m) && |m.wire| == 1
  {
    hide Reachable, Run, Key;
    var db := OneIsQueued();
    CanBeSent(Idle(db, 0), Key(0));
    var steps :| |Run(Idle(db, 0), steps).wire| == |Idle(db, 0).wire| + 1
                 && Run(Idle(db, 0), steps).wire[|Idle(db, 0).wire|].id == Key(0);
    ReachRun(Idle(db, 0), steps);
  }
}
