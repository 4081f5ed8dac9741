# Budge: the durable request lifecycle and the permissions that gate it

Budge lets a device call an upstream service with a credential the device never sees. A call is allowed by a
permission, which is either standing or approval-required, and a durable request passes through
submission, approval, claim, transmission and conclusion, each a separate database transaction. This project models
that lifecycle, the permission algebra under it and the supporting algorithms, and proves what Budge promises about
them over every run.

## How it is organised

| file | what it models |
|---|---|
| `Prelude`, `Strings` | results, unspecified iteration orders; splitting, joining and sorting of strings |
| `Access` | `internal/access/access.go`: paths, targets, method lists, rules, overlap |
| `Upstream`, `Headers`, `Requests` | header rules, the header loop in any map order, normalization and digests |
| `Store`, `Tables` | digests and sealed blobs; the tables, the lifecycle graph, first-match authorization |
| `Transactions` | every transaction as a function from committed tables to committed tables |
| `Server` | the same transactions as written, on a class whose field is the committed tables |
| `Invariant`, `Preservation`, `TableChanges`, `Evolution`, `Actions` | the table invariant and lawful evolution, and that every transaction keeps both |
| `Lifecycle` | the whole machine: tables, clock, dispatch goroutines, crashes and restarts, and its invariant |
| `Guarantees` | the promises, for every reachable state and every run |
| `Effects` | what each transaction requires and does, column by column, and what that means over runs |
| `Results`, `Limits` | the stored form of a response; the throttle and the dispatch slots |
| `Findings` | inputs and reachable states: where the program does less than it may seem to promise, and one transmission |

Each transaction appears twice: as a method that changes the committed tables step by step the way the source does,
and as a function that the method is proved equal to. The machine takes one such function per step, because the store
has one connection and a transaction is therefore atomic. A step carries all choices the program does not make:
fresh identifiers, the row order of queries without ORDER BY, whether a commit succeeds, what the upstream does and
when. `Reachable` means reachable from the empty database by any finite sequence of such steps, in any interleaving,
with any number of duplicate dispatch goroutines for one request, lost conclusions, crashes and restarts.

The fields of the source's `Server` that the transactions use are in class `Server.Server`; the throttle log and the
slot counters, which only `server.go` uses, are in `Limits.Throttle` and `Limits.Slots`.

## Assumptions

- The clock does not go backwards, and each transaction reads it once. It counts nanoseconds; deadlines are in whole
  seconds, rounded down.
- A fresh identifier that collides with an existing one is a primary-key error, that is, a rolled-back transaction.
- SHA-256 is injective on the values compared, and a sealed blob opens exactly under the purpose it was sealed for.
- A value marshalled to JSON and read back is the same value (strings inside are valid UTF-8). Digests are therefore
  digests of the values themselves.
- One process at a time, the database is not edited from outside, and `recoverDispatches` runs only at start-up, when
  no goroutine is alive.
- One call of `Send` transmits at most once, only after the connection event, and a response implies a transmission.
- Strings are byte strings: one character per byte.

## Findings

- `Normalize` accepts and returns the same thing for every iteration order of the header map, but its error code is
  order dependent exactly when a bad header and two clashing names occur together (`Requests.NormalizeErrorOrder`).
  With the headers `Host`, `X-A` and `x-a` two orders give two codes (`Findings.OneSubmissionTwoErrors`).
- The repository's README (line 263) promises 20 pending approvals per device. The code counts only those within their
  deadline, and rows past it stay `pending_approval` until the next maintenance: 21 rows can wait
  (`Findings.TwentyOneWait`). The rows that wait are those the code counts, never more than 20
  (`Guarantees.PendingCapped`), and those past their deadline (`Guarantees.PendingSplits`), so the promise holds
  whenever no waiting row is past its deadline (`Guarantees.PendingTotal`) and again after every maintenance
  (`Guarantees.MaintenanceRestoresCap`). `Guarantees.OverflowExact` names the submission that
  breaks it. A row past its deadline can no longer be approved (`Guarantees.DecideExact`).
- `addPermission` requires a future expiry, compared in nanoseconds, but stores whole seconds, so a permission can be
  stored already expired (`Findings.StoredExpired`); it then authorizes nothing (`Guarantees.GrantDecides` gives the
  exact condition).
- The refusals of `dispatch` for a damaged snapshot, changed authority, or a missing approval never happen in a
  reachable state: a claim fails only by expiry (`Guarantees.ClaimExact`). The lifecycle graph therefore has no edge
  from queued to failed.

## Model

| member | source | states |
|---|---|---|
| Guarantees.TransmittedAtMostOnce | internal/server/requests.go:310-395 | in every reachable state no request was transmitted twice, each transmission is by the goroutine whose claim is recorded for the request, and what was sent is the submitted snapshot |
| Guarantees.ClaimIsDispatch | internal/server/requests.go:344-352 | in any step, a request gets its claimant exactly when that step moves it from queued to dispatching, and the claimant is the worker of that step |
| Guarantees.HonestOutcome | internal/server/requests.go:355-395 | a pending, queued, failed, cancelled, denied or expired request was never transmitted; a transmitted one is dispatching, completed or outcome_unknown; a completed one was transmitted |
| Guarantees.ApprovedTransmission | internal/server/requests.go:330-343 | a transmission under an approval-required permission has an approve decision whose digest is that of the snapshot sent |
| Guarantees.SnapshotImmutable | internal/server/requests.go:112-118 | whatever happens in between, what is transmitted is the snapshot the request held at any earlier time |
| Guarantees.PermittedTransmission | internal/server/requests.go:217-231 | what is transmitted is covered by the rule of its permission, for its device and service, and its URL is its path and query under the base of the claimed service, strictly below that base |
| Guarantees.SubmittedIsSent | internal/server/requests.go:87-118 | what is ever sent for an accepted submission is its method, path and body, the URL its path and query lead to, and the headers its service allowed, which the second filter in Send leaves as they are |
| Guarantees.HeadersAsSubmitted | internal/upstream/http.go:147-162 | on everything transmitted the filter of Send is the identity, and no header is reserved or the credential header, so adding the credential replaces none |
| Guarantees.RecheckExact | internal/server/requests.go:195-231 | for every pending or queued request of a reachable state, snapshot succeeds and validSnapshot succeeds if and only if the request's deadline and its permission's expiry lie ahead |
| Guarantees.ClaimExact | internal/server/requests.go:310-352 | a claim of a queued request wins, with the submitted snapshot, exactly while nothing has expired, and otherwise cancels it; the integrity and approval-mismatch branches are unreachable |
| Guarantees.ClaimedUnderAuthority | internal/server/requests.go:310-352 | at the moment a request is claimed its device is active, its service enabled at its revision, its permission active with a rule that covers it, and its deadline ahead |
| Guarantees.CanBeSent | internal/server/requests.go:310-362 | a queued request that nothing has expired for can be transmitted next by some continuation of the run |
| Guarantees.DecideExact | internal/server/requests.go:232-273 | a decision succeeds if and only if the word is approve or deny, the request is pending with that digest, and nothing has expired |
| Guarantees.CredentialAvailable | internal/server/requests.go:355-359 | a claimed request always finds a credential sealed for its revision |
| Guarantees.RestartResolves | internal/server/requests.go:454-483 | a restart turns exactly the interrupted dispatches into outcome_unknown and transmits nothing |
| Guarantees.OneActiveMatch | internal/access/access.go:124-147 | two active permissions of one device and service that match one request are the same permission |
| Guarantees.AuthorizeOrderFree | internal/access/access.go:132-146 | Authorize answers the same for every order in which the permission rows are returned |
| Guarantees.ApprovalNotBypassed | internal/server/server.go:175-183 | with an active approval-required rule for a route, a direct call of it is refused in every row order |
| Guarantees.GrantDecides | internal/server/owner.go:306-373 | a permission just added is the one Authorize finds for everything its rule matches, unless its stored expiry has already passed, and then none is found |
| Effects.AuthorizeExact | internal/access/access.go:124-147 | Authorize finds a permission exactly when device, service, revision, revocation, expiry, method and path of its row allow the request, whatever the row order |
| Effects.ExactPathOnly | internal/access/access.go:121-123 | what is transmitted under an exact rule has the path of the rule; under a subtree rule it continues the segments of it |
| Effects.DirectCallExact | internal/server/server.go:169-196 | a direct call is claimed if and only if a standing permission grants it and it has a target |
| Effects.DirectCallEffect | internal/server/server.go:189-193 | its only effect is one event that names the device and the permission |
| Effects.CallsUnderStanding | internal/server/server.go:180-193 | over all runs, every direct call in the audit log names a standing permission of its device |
| Effects.NewRequestExact | internal/server/requests.go:61-128 | a new submission is accepted if and only if it is normal, its key is free, a permission grants it, its headers and target are allowed, and, for approval, fewer than 20 unexpired requests wait |
| Effects.NewRequestStored | internal/server/requests.go:95-127 | the stored row and its snapshot, field by field, with a deadline 60 seconds ahead, or 600 for approval, and one event |
| Effects.SubmitElseNothing | internal/server/requests.go:61-83 | a refusal or a repeated submission changes no table |
| Effects.StandingCanBeSent | internal/server/requests.go:99-100 | from the state an accepted standing submission leaves, some continuation transmits it next |
| Effects.SnapshotReads | internal/server/requests.go:195-216 | in any database, a snapshot is read back if and only if it opens, hashes to the stored digest and names every column of its row |
| Effects.RecheckMeans | internal/server/requests.go:217-231 | in any database, the recheck passes if and only if the same permission, revision, target and private destination are found before the deadline |
| Effects.DecideEffect | internal/server/requests.go:256-272 | approve queues and deny denies with a finish time; approval record and event name owner, digest, word and device |
| Effects.ClaimEffect | internal/server/requests.go:310-352 | a claim of a queued request in a reachable state, column by column: dispatching with the submitted snapshot and current service, or cancelled by expiry |
| Effects.TryClaimEffect | internal/server/requests.go:310-352 | only a committed win makes the goroutine the claimant; otherwise it ends |
| Effects.TransmitEffect | internal/upstream/http.go:163-163 | a connected goroutine, and only such a one, transmits, and transmits what it claimed |
| Effects.EndingExact | internal/server/requests.go:353-395 | an answer is completed if and only if it was read to its end; a failed send is failed if and only if no connection was obtained; the result holds status, headers and the first 2^20 bytes |
| Effects.ConclusionEffect | internal/server/requests.go:396-420 | what a conclusion commits: status, reason, sealed result and finish time of its own row and one event |
| Effects.LostConclusion | internal/server/requests.go:396-403 | a conclusion whose transaction fails changes no table and ends the goroutine |
| Effects.CompletedIsWhole | internal/server/requests.go:388-394 | over all runs, the kept result of a completed request opens, decodes and was read to its end |
| Guarantees.AuditReplays | internal/server/requests.go:122-122 | the request events of the audit log, replayed, form a path of the lifecycle graph, which has no edge from queued to failed, from submission to exactly the current status, with at most three changes |
| Guarantees.TerminalForever | internal/server/requests.go:404-447 | over any run the rank of a status falls with every change, and a terminal status is never overwritten |
| Guarantees.ConcludedIsFinal | internal/server/requests.go:404-448 | over every run a concluded row stays exactly as it was concluded until a day after it finished, and can then only lose its snapshot and result |
| Guarantees.RetentionRule | internal/server/requests.go:404-448 | finished is set exactly when a request is terminal, and until then its sealed snapshot is kept |
| Guarantees.PurgeExact | internal/server/requests.go:421-453 | maintenance drops snapshot and result of exactly the requests terminal for more than 24 hours, expires exactly the overdue ones, and leaves every other row as it is |
| Guarantees.PendingCapped | internal/server/requests.go:101-111 | no device has more than 20 unexpired pending approvals in any reachable state |
| Guarantees.PendingSplits | internal/server/requests.go:105-105 | the requests waiting for a decision are those the limit counts and those past their deadline |
| Guarantees.PendingTotal | internal/server/requests.go:101-111 | at most 20 requests of a device wait, plus those past their deadline, so more than 20 only if one of them is |
| Guarantees.OverflowExact | internal/server/requests.go:99-118 | from at most 20 waiting, a submission leaves more exactly when it stores a new request for approval while 20 wait, and then one of them is past its deadline |
| Guarantees.MaintenanceRestoresCap | internal/server/requests.go:428-447 | after maintenance, in whatever order, at most 20 requests of a device wait |
| Findings.TwentyOneWait | internal/server/requests.go:101-111 | some reachable state has 21 requests of one device pending approval |
| Findings.OneTransmission | internal/server/requests.go:310-362 | a state with a transmission is reachable, so the guarantees about transmissions are not empty |
| Findings.StoredExpired | internal/server/owner.go:323-330 | in some reachable state at 1 ns a permission expiring at 2 ns is accepted and stored as expired |
| Findings.OneSubmissionTwoErrors | internal/requests/types.go:77-84 | one submission is refused with two different codes in two orders of its header map |
| Guarantees.OwnerWithdraws | internal/server/owner.go:374-446 | revoking a device or permission, disabling or revising a service, and recovering a restored database each withdraw every request in their scope |
| Guarantees.WithdrawalFinal | internal/server/requests.go:484-511 | once its authority is withdrawn, a request is never waiting again and never claimed later, over every run |
| Guarantees.RecoveryRevokesAll | internal/server/requests.go:515-550 | RecoverRestored leaves every device revoked |
| Guarantees.RevokedDeviceSilent | internal/server/owner.go:425-446 | after a device is revoked, no run stores a new request of it or claims a direct call for it |
| Effects.RevokePermissionEffect | internal/server/owner.go:374-398 | exactly the waiting requests under the permission are cancelled, with events, and every other row is unchanged |
| Effects.RevokeDeviceEffect | internal/server/owner.go:425-446 | exactly the waiting requests of the device are cancelled, with events, and every other row is unchanged |
| Effects.InviteEffect | internal/server/tls.go:162-181 | an invitation adds one active device and one event |
| Effects.DisableServiceEffect | internal/server/owner.go:399-423 | the revision rises by one, exactly the waiting requests for the service are cancelled, and every other row is unchanged |
| Effects.RecoverRestoredEffect | internal/server/requests.go:515-550 | every device is revoked, exactly the waiting requests of devices are cancelled, and every other row is unchanged |
| Effects.CreateServiceEffect | internal/server/owner.go:207-285 | accepted if and only if the form is in order and the name is free; stores the described service with the sealed credential at revision 1 |
| Effects.ReviseServiceEffect | internal/server/owner.go:258-284 | accepted if and only if the form is in order and the service exists; stores the described service at the next revision and cancels exactly its waiting requests |
| Effects.FormExact | internal/server/owner.go:208-252 | which forms are accepted, and the service built from one: identity, base, authentication, credential and both header lists |
| Effects.ServiceIsThatOfRevision | internal/server/requests.go:353-362 | over all runs, a claimed goroutine and a transmission carry the service that was saved at the revision of the snapshot |
| Effects.CredentialIsThatOfForm | internal/server/requests.go:355-359 | over all runs, a goroutine that claimed at a saved revision opens the credential of the form that saved it |
| Effects.AddPermissionEffect | internal/server/owner.go:306-373 | accepted if and only if the form is in order, the expiry lies ahead, device and service are active and no permission in force shares a request with the rule; stored as the form describes it |
| Effects.MaintenanceEffect | internal/server/requests.go:421-453 | expires exactly the overdue waiting rows, purges exactly those finished over 86400 seconds ago, and logs the expiries |
| Effects.RestartEffect | internal/server/requests.go:454-483 | concludes exactly the dispatching rows as unknown, with reason, time and events |
| Guarantees.DedupPermanent | internal/server/requests.go:75-83 | after a submission is accepted, the same key with the same normalized content gives the same id, and with other content a conflict, in every later state in which the device is active, changing nothing |
| Guarantees.OneRequestPerKey | internal/store/migrations/003_requests.sql:2-2 | a device has at most one request per key |
| Lifecycle.StepInv | internal/server/requests.go:277-352 | every step of devices, owner, maintenance, workers, crash and restart keeps the invariant of the machine and evolves it lawfully |
| Lifecycle.RunInv | internal/server/requests.go:404-447 | the invariant holds after every run from a state that satisfies it; rows evolve lawfully, the record of transmissions only grows and claimants never change |
| Lifecycle.ReachableInv | internal/server/requests.go:310-483 | the invariant holds in every reachable state |
| Lifecycle.EndingFits | internal/upstream/http.go:129-163 | every conclusion of a dispatch follows a lifecycle edge; completed implies sent, and failed implies not sent |
| Lifecycle.StoppedShape | internal/server/requests.go:320-343 | under the table invariant a claim that stops is the cancellation of an expired request |
| Actions.PerformGood | internal/server/requests.go:61-128 | every transaction of devices, owner and maintenance keeps the table invariant and the lawful evolution of rows |
| Actions.SubmitGood | internal/server/requests.go:84-128 | storing an accepted submission keeps the invariant: its authority, target and deadline are those the recheck will find |
| Actions.MaintenanceGood | internal/server/requests.go:421-453 | the maintenance loop and purge keep the invariant although their updates have no status guard |
| Actions.BumpGood | internal/server/owner.go:258-285 | replacing or disabling a service after cancelling its live requests keeps the invariant |
| Actions.InvalidateGood | internal/server/requests.go:535-542 | the device loop of RecoverRestored keeps the invariant device by device |
| Invariant.CloseAllKeeps | internal/server/requests.go:502-509 | the unguarded update-and-audit loop keeps the invariant when every id it was given may make the move |
| Preservation.FinishKeeps | internal/server/requests.go:404-420 | the unguarded finishTx keeps the invariant when the request is at a status from which the outcome is an edge |
| Preservation.DecideKeeps | internal/server/requests.go:256-272 | a decision keeps the invariant, including approval records and the audit path |
| TableChanges.NewPermissionKeeps | internal/server/owner.go:340-368 | a permission that overlaps no active one keeps active permissions disjoint |
| TableChanges.TickKeeps | internal/access/access.go:132-132 | time passing keeps the invariant: rules only expire |
| Server.CloseEach | internal/server/requests.go:502-509 | the row-by-row loop equals closing the whole set at once |
| Server.CancelScope | internal/server/requests.go:484-511 | cancels exactly the live requests in scope, each with its audit event, and leaves every other row alone |
| Server.ScanOverlap | internal/server/owner.go:341-360 | the flag is set exactly when some active rule of the device and service overlaps the candidate |
| Server.LookUpKey | internal/server/requests.go:77-86 | finds the request stored under a device's key, if any |
| Server.RunValidSnapshot | internal/server/requests.go:217-231 | equals ValidSnapshot for the rows the query returned; success means an active permission, the current revision, an open deadline and an unchanged target |
| Server.Server.Submit | internal/server/requests.go:61-128 | the whole of Submit: the reply and the new tables are those of the specification, and a failed commit changes nothing |
| Server.Server.Admit | internal/server/requests.go:91-128 | from authorization on: header, target, pending limit, identifier, then the stored row and its event |
| Server.Server.Decide | internal/server/requests.go:232-273 | approval record, status, finish time and event together, or nothing |
| Server.Server.Finish | internal/server/requests.go:396-420 | result, status and event together, or nothing |
| Server.Server.ClaimDispatch | internal/server/requests.go:310-352 | the claim half of dispatch: skip, stop with the reason, or win with the snapshot and service to send |
| Server.Server.Maintain | internal/server/requests.go:421-453 | expires exactly the overdue requests, then purges |
| Server.Server.RecoverDispatches | internal/server/requests.go:454-483 | concludes exactly the interrupted dispatches |
| Server.Server.RecoverRestored | internal/server/requests.go:515-550 | revokes every device and cancels the live requests of each |
| Server.Server.AddService | internal/server/owner.go:207-285 | refuses a bad form, cleans both header lists, and creates at revision 1, or replaces at the next revision and cancels the live requests of the service |
| Server.Server.AddPermission | internal/server/owner.go:306-373 | refuses a bad form, a past expiry, an inactive device or service and any overlap, and otherwise stores the rule |
| Server.Server.RevokePermission | internal/server/owner.go:374-398 | revokes and cancels, or errs for an unknown id and changes nothing |
| Server.Server.DisableService | internal/server/owner.go:399-423 | disables, bumps the revision and cancels, or errs and changes nothing |
| Server.Server.RevokeDevice | internal/server/owner.go:425-446 | revokes and cancels, or errs and changes nothing |
| Server.Server.ClaimDirect | internal/server/server.go:169-196 | records a direct call exactly when a standing permission and a valid target exist |
| Tables.RunAuthorize | internal/access/access.go:124-147 | the cursor loop finds the first row that matches; an answer is an active matching permission, and none means no active permission matches |
| Tables.FirstMatchIsMatch | internal/access/access.go:137-145 | the result is a row that matches, and there is none exactly when no row matches |
| Access.OverlapExact | internal/access/access.go:173-183 | for valid paths, Overlap holds if and only if some method and some valid path are matched by both rules |
| Access.CommonPath | internal/access/access.go:121-123 | if two rules cover one path, one covers the path the other is written with, for every mix of exact, subtree, root and trailing slash |
| Access.MatchExact | internal/access/access.go:121-123 | a rule matches one of its methods with its own path or, if it is a subtree, a path that continues its segments |
| Strings.TrimSlashExact | internal/access/access.go:62-62 | one trailing slash is trimmed and nothing else |
| Access.PathExact | internal/access/access.go:18-33 | a path is conservative if and only if it is slash-separated segments, none empty but the last, none a dot segment, over the allowed bytes |
| Access.MethodExact | internal/access/access.go:34-44 | a method is a token of section 5.6.2 of RFC 9110 of at most 64 bytes, not "*", CONNECT or TRACE |
| Access.SubtreeIsSegmentPrefix | internal/access/access.go:121-123 | subtree matching by string prefix is prefix of segment lists, proper when the rule ends in a slash |
| Access.JoinConfined | internal/access/access.go:52-65 | joining keeps the path grammar and stays under the base path |
| Access.TargetUnderBase | internal/access/access.go:45-65 | every target is strictly under its base as the base is printed |
| Access.TargetRoundTrip | internal/server/requests.go:222-229 | the query recovered from a printed target is the query it was built from |
| Access.TargetExact | internal/access/access.go:52-65 | when there is a target, and that it is the origin, a printed path that percent-decodes to the joined path, and the query |
| Access.TargetInjective | internal/access/access.go:52-65 | for a fixed base, different path and query pairs give different targets |
| Access.EscapeInjective | internal/access/access.go:62-64 | printing a conservative path loses nothing, although some bytes are percent-encoded |
| Access.ParseMethods | internal/access/access.go:157-172 | the loop with its seen set equals the specification |
| Access.MethodsCanonical | internal/access/access.go:149-172 | a stored list is sorted, duplicate-free, of valid methods, and splits into exactly the tokens given, so HasMethod is membership |
| Access.MethodsAccepted | internal/access/access.go:157-169 | a list is accepted if and only if it has tokens, all valid and all different |
| Access.FieldsExact | internal/access/access.go:160-160 | tokens are cut at commas and spaces |
| Access.MethodsIdempotent | internal/access/access.go:157-172 | normalising a stored list changes nothing |
| Access.MethodsOrderFree | internal/access/access.go:157-172 | the order and separators of the tokens do not matter |
| Requests.RunNormalize | internal/requests/types.go:63-93 | the loop over headers, in the order the map happened to give, equals the specification for that order, and accepts and returns what no order can change |
| Requests.NormalizeOutcome | internal/requests/types.go:76-92 | what is accepted and returned, without reference to any order |
| Requests.NormalizeExact | internal/requests/types.go:63-93 | what is accepted, bound by bound, and that only the spelling of header names changes |
| Requests.ValidUtf8Exact | internal/requests/types.go:64-64 | a string is valid if and only if it is the UTF-8 form of Unicode scalar values, section 3 of RFC 3629 |
| Requests.NormalizeOrderFree | internal/requests/types.go:77-87 | acceptance and result do not depend on the iteration order |
| Requests.NormalizeErrorOrder | internal/requests/types.go:77-84 | the error code is the same in every order if and only if a bad header and a clash do not occur together |
| Requests.NormalizeIdempotent | internal/server/requests.go:34-66 | normalizing again changes nothing, and header names are then canonical |
| Requests.DigestIgnoresCase | internal/requests/types.go:111-115 | two accepted submissions have one comparison digest exactly when they differ at most in the key and in the case of header names |
| Requests.RunApplicationHeaders | internal/requests/types.go:94-109 | succeeds exactly when every header is on the service's list and is not its credential header; forwards each canonical name with a value given for it, and after Normalize exactly the headers given |
| Headers.BothErrors | internal/requests/types.go:77-84 | with a bad header and a clash, two iteration orders give two different errors |
| Headers.AcceptedExactly | internal/requests/types.go:77-90 | the header loop succeeds in any order exactly when no header is bad, no names clash and the size fits |
| Upstream.HeaderList | internal/server/owner.go:286-305 | equals the specification; refused exactly when some name is not allowed, and otherwise a duplicate-free canonical list of exactly the names given |
| Upstream.FilterHeaders | internal/upstream/http.go:47-67 | the loops over Connection lines, allowed names and values equal the specification |
| Upstream.FilterKeeps | internal/upstream/http.go:47-67 | headers that a service admits pass the filter unchanged, and none is reserved or the credential header |
| Requests.ApplicationFits | internal/requests/types.go:94-109 | what ApplicationHeaders lets through of normalized headers is admitted by the service |
| Upstream.CanonicalIsFold | internal/requests/types.go:81-81 | two header names have one canonical form exactly when they are equal up to letter case |
| Upstream.CanonicalAt | internal/requests/types.go:81-81 | the canonical form of a name, byte by byte |
| Upstream.TrimExact | internal/server/owner.go:294-294 | trimming removes white space at the two ends, all of it and nothing else |
| Upstream.ReservedExact | internal/upstream/http.go:20-27 | the reserved names and prefixes, in any spelling |
| Upstream.HeaderExact | internal/upstream/http.go:28-46 | header names are tokens, and values have no control byte but the tab |
| Upstream.FilteredExact | internal/upstream/http.go:47-67 | a header passes if and only if it is listed, valid, not reserved, not the credential header, not for one hop and has a valid value |
| Upstream.PassingExact | internal/upstream/http.go:60-64 | each valid value passes as often as it occurs, and no other |
| Results.RecordLossless | internal/server/requests.go:372-387 | status and headers are kept; the stored body decodes by its label to the first min(n, 2^20) bytes and is text exactly when they are UTF-8 and their JSON form is short enough; truncation is reported exactly when there were more; its JSON form reads back as it and is at most 4k/3 + 16 bytes |
| Results.UnquoteQuote | internal/server/requests.go:381-383 | every valid UTF-8 string is read back from its JSON form, as in section 7 of RFC 8259 |
| Results.DecodeEncode | internal/server/requests.go:385-386 | base64 as in section 4 of RFC 4648 decodes to the bytes encoded |
| Results.GroupExact | internal/server/requests.go:385-385 | a group is written as the base-64 digits of its bytes, with padding |
| Results.Alphabet | internal/server/requests.go:385-385 | the digits are the alphabet of section 4 of RFC 4648 |
| Results.AsciiContent | internal/server/requests.go:381-381 | which ASCII bytes take one, two and six bytes in JSON |
| Results.EncodeIsPlain | internal/server/requests.go:381-387 | base64 text needs no JSON escape, so its quoted size is its length and the two quotes |
| Limits.WindowBounded | internal/server/server.go:81-96 | no half-open minute contains more admissions than the largest limit a call came with |
| Limits.AdmissionExact | internal/server/server.go:81-96 | a call is admitted if and only if fewer than its limit of admissions lie in the 60 seconds that end with it |
| Limits.AdmissionsBounded | internal/server/server.go:81-96 | no 60 seconds hold more admissions than the largest limit a call came with |
| Limits.Prune | internal/server/server.go:86-90 | the loop keeps exactly the entries of the last minute |
| Limits.AgreesCall | internal/server/server.go:81-96 | one call on the pruned log gives the verdict of the full history and keeps the two in agreement |
| Limits.Throttle.Allow | internal/server/server.go:81-96 | refuses exactly when the full history of admissions has limit entries in the 60 seconds that end with the call |
| Limits.Throttle.Bounded | internal/server/server.go:81-96 | at any time no minute contains more admissions of a key than the largest limit it was called with |
| Limits.Slots.Acquire | internal/server/server.go:97-106 | succeeds exactly below 32 holders overall and 4 of the device, and then adds one holder |
| Limits.Slots.Release | internal/server/server.go:107-115 | removes one holder and keeps no zero counter |
| Limits.Slots.Conserved | internal/server/server.go:97-115 | the global counter is the sum of the device counters and the number of holders, and no counter is zero |

## Left out

- TLS, certificates, enrolment, renewal and the invitation secret: only "a new active device appears" is kept.
- AES-GCM, Argon2 and SHA-256 themselves, and the storage failures of single statements beyond "the transaction rolls back".
- SQL text, migrations, sessions, the owners table and its foreign keys, and the http_events log.
- Sockets, dialing, DNS, timeouts, the HTTP transport and streaming: the outcome of an upstream call is a free choice, restricted as under Assumptions.
- `AllowedAddress` and `CIDR`: calls into the address library. The private CIDR of a service is an opaque string, and what `CIDR` says of it is part of the form of `addService`.
- Parsing of service origins: a base is a host string without slash, question mark, hash or at sign, plus its path as decoded. The route parser of direct calls is not modelled either.
- The use of the header filter on responses and the streaming copy in `internal/upstream/http.go`; the headers of a result are free. The credential header itself, which Send adds, is not built.
- Owner pages, login, CSRF, review rendering, the MCP and command-line layers, and `RequestStatus` with its polling.
- Liveness of the worker: the 32-row limit, the creation order and skipped slots promise no fairness.
- Limits.Slots.Acquire: the slots are not part of the lifecycle machine, which allows any number of goroutines, so its guarantees do not depend on them.
- Server.Server.ClaimDispatch: the rest of dispatch is in the steps Connect, Transmit and Conclude of Lifecycle, because other transactions run in between.
- Tables.RunAuthorize: a service whose header lists do not parse as JSON is not modelled; they are stored as lists.
- Server.Server.AddService: the form errors are one refusal; the source gives a different message for each.
