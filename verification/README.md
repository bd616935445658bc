# A verified model of agent-locksmith

agent-locksmith is a credential proxy: agents call it, it admits them, selects the account
an operator bound to them, injects that account's credential and forwards the request.
This project models the parts of it whose correctness depends on several functions or on
the order of concurrent steps, and proves what they promise for every input and every run.

How the model is built:

- One SQL statement is one function from table to table. Repositories that change state
  are classes whose methods are proved against those functions.
- Concurrent code is a step relation: a label is one statement, one lock operation or one
  answer from outside; `IsRun` says that a sequence of states is a run of any length with
  any interleaving. Logs and `incarnation` numbers are history: no step reads them.
- Clocks, random ids, the token endpoint, the file system's verdicts and the URL parser
  are parameters of the steps. Hashes are ideal: a salted hash verifies exactly the secret
  it was made of, and digests of different contents differ.

| module | models |
|---|---|
| `OauthSessions`, `OauthProtocol` | OAuth sessions, their locks, and all interleavings of proxy requests, the refresher, bootstraps and revokes |
| `CredentialStore`, `CredentialProtocol` | sealed credentials: rotation, clearing, garbage collection, SQL's three-valued `NOT IN` |
| `BindingInventory`, `BindingApply`, `Ordering` | the offline account-binding migration: preview, apply, replay |
| `Admission`, `ProxyRequest`, `Registrations`, `AuthSpecs`, `Primitives` | admission, discovery, catalog refresh, account selection and credential injection |
| `BootstrapTokens`, `SecretRotation` | agent registration with bootstrap tokens; secret rotation |
| `SeedLoader`, `Decimals` | the seed-catalog loader |
| `JsonlSinks`, `CivilDate` | the rotating audit file and its dates |
| `Token`, `CappedStream` | token wire format; the size-capped response stream |

Where code and comments disagree the model follows the code:

- `rotate_to` is described as appending to a same-day file (src/audit_sink.rs:138-140);
  it always takes the first unused name and starts it empty.
- The bootstrap-token preview accepts the very second of expiry and the consuming UPDATE
  does not (src/repo/bootstrap.rs:167, src/repo/bootstrap.rs:243): a call in that second
  creates its agent, fails, and leaves the agent revoked. `RegisterAgent` states this.
- "At most 10000 matching files" is not enough for the audit sink when it is counted before
  start-up opens the dated file: `StartUpCanExhaustTheDay` gives the directory. The exact
  condition for a rotation to get an unused name is `FreeDay`: some candidate of the day is
  unused (`RotateTo`). A `Healthy` sink, which counts after opening, has one every day and
  stays healthy. With pruning on, at most 10000 files to keep and deletes succeeding, every
  rotation leaves a free name for every day, so only the first one after start-up can fail.
- Header stripping is described as keeping agents from overriding the configured credential
  (src/proxy.rs:668-669). An agent's own `chatgpt-account-id` passes next to the injected one:
  `AgentAccountHeaderPasses` gives the request, and `ShadowedExactly` shows it is the only case
  (codex upstream, an OAuth session that names an account, an agent that sends the header).
- Replaying an applied migration plan does not always answer 0: `ReplayCanConflict` gives a
  plan, and `ReplayExact` the exact condition (no selected grant drops a selected infra
  entry, no selected agent has expired).

## Model

| member | source | states |
|---|---|---|
| OauthSessions.SessionRepository.Create | src/oauth/session.rs:160-212 | inserts the given tokens and expiry exactly when the key is free, with an incarnation no row has; otherwise changes nothing |
| OauthSessions.SessionRepository.UpdateTokens | src/oauth/session.rs:217-275 | replaces the tokens and clears `degraded` on an existing row only; never creates a row, never changes which INSERT a row came from |
| OauthSessions.SessionRepository.MarkDegraded | src/oauth/session.rs:282-297 | sets the flag on an existing row only |
| OauthSessions.SessionRepository.Delete | src/oauth/session.rs:367-374 | removes exactly that session's row and reports whether there was one |
| OauthSessions.SessionRepository.ListPendingRefresh | src/oauth/session.rs:380-402 | lists exactly the undegraded rows that expire by the threshold, each once, soonest first |
| OauthSessions.RefreshLockMap.Get | src/oauth/refresh.rs:110-117 | one lock for ever per session; no other session's lock changes |
| OauthSessions.LockKeyInjective | src/oauth/refresh.rs:110-117 | sessions whose names do not contain the separator share a lock exactly when they are the same session |
| OauthProtocol.InvRun | src/proxy.rs:1440-1557 | every reachable state: whoever holds a session's lock holds its current row or a deleted one, and no two tasks hold one lock |
| OauthProtocol.WritesHitWhatWasRead | src/oauth/session.rs:217-297 | in every run the token update, the degrade write and the bootstrap roll-back, which name their row by key, change the incarnation their task read or nothing |
| OauthProtocol.NeverResurrected | src/oauth/admin.rs:286-301 | once an incarnation is revoked or rolled back, no later state of any run has it again |
| OauthProtocol.DegradedIsFinal | src/proxy.rs:1483-1557 | a degraded row stays degraded while it exists, and no task ever exchanges, stores or returns a token of it again, although the token update clears the flag |
| OauthProtocol.NoUseAfterFailure | src/oauth/refresh.rs:211-293 | when degrade and roll-back writes are not lost, a failed exchange is the last use of its incarnation |
| OauthProtocol.ExchangesAreDue | src/oauth/refresh.rs:211-293 | an exchange after a successful one of the same incarnation starts only when the stored expiry is within 60 s (proxy) or 300 s (refresher) |
| OauthProtocol.QueuedCallersShare | src/proxy.rs:1509-1557 | so any number of queued callers share one exchange: the next one starts no earlier than those margins before the stored expiry |
| OauthProtocol.LostDegradeAllowsReuse | src/proxy.rs:1537-1538 | that assumption is needed: a run in which the degrade write is lost and the next caller exchanges again |
| CredentialStore.SqlInMeaning | src/repo/credential_secrets.rs:177-182 | SQL `IN` over a column with NULLs: true exactly on a member, unknown exactly on a non-member of a column with a NULL |
| CredentialStore.UnreferencedMeaning | src/repo/credential_secrets.rs:177-182 | the filtered `NOT IN` is two-valued and means that neither table names the ref, for every content |
| CredentialStore.NullFilterIsLoadBearing | src/repo/credential_secrets.rs:171-182 | without the filters one NULL disables collection for every row; without NULLs both forms agree |
| CredentialStore.UnreferencedInTables | src/repo/credential_secrets.rs:177-182 | over the two auth columns the predicate holds exactly when no registration and no override references the value |
| CredentialStore.Grace | src/daemon.rs:586-590 | the configured grace is floored at 60 s and never leaves the i64 range |
| CredentialStore.TickExact | src/daemon.rs:562-602 | one sweeper tick keeps only rows that are referenced, young or recently tombstoned; it tombstones exactly the old unreferenced live rows and deletes exactly the expired tombstones |
| CredentialStore.Store.Insert | src/repo/credential_secrets.rs:49-63 | adds one live row under a ref nobody has named |
| CredentialStore.Store.Get | src/repo/credential_secrets.rs:68-86 | finds a row exactly when it is live |
| CredentialStore.Store.TombstoneIfUnreferenced | src/repo/credential_secrets.rs:127-138 | tombstones exactly a live ref that nothing references |
| CredentialStore.Store.SetValue | src/admin/uds.rs:938-1046 | undisturbed, a set-value call leaves its new value live and recorded under the right header shape, and of the other live refs retires exactly the replaced one if nothing else references it; every other row is unchanged |
| CredentialStore.Store.Clear | src/registrations/api.rs:650-694 | removes the selection and retires its value exactly when nothing else references it; no row comes or goes and every other row is unchanged |
| CredentialStore.Store.SweeperTick | src/daemon.rs:586-602 | an undisturbed tick deletes exactly the tombstones past retention, tombstones exactly the live rows that are past the grace and unreferenced, leaves all other rows as they are and adds none |
| CredentialProtocol.InvRun | src/registrations/api.rs:552-644 | every reachable state of concurrent rotations, clears, generic writes and sweeps: unrecorded values belong to one handler and stay live inside the grace window |
| CredentialProtocol.RecordedRefIsLive | src/admin/uds.rs:974-1033 | a handler that records its ref within the grace window records a live value, namely the one it sealed |
| CredentialProtocol.WindowIsTight | src/daemon.rs:586-602 | the window is tight: for every configuration a run in which a handler that records one second later records a value already collected |
| CredentialProtocol.ReferencedStaysLive | src/repo/credential_secrets.rs:127-162 | in every run a live value stays live, unchanged, for as long as something references it |
| CredentialProtocol.NeverLiveAgain | src/repo/credential_secrets.rs:108-162 | in every run a known value that is not live never becomes live again |
| CredentialProtocol.OrphansAreCollected | src/repo/credential_secrets.rs:151-162 | a value that is past the grace and unreferenced when a sweep's first statement runs is live in no later state |
| CredentialProtocol.RotatedValueResolves | src/registrations/api.rs:580-633 | so a rotated value resolves to what was set for as long as it stays referenced |
| BindingInventory.Consensus | src/oauth/refresh.rs:382-395 | agreement exactly when every selection is usable and all are equal, and then that selection |
| BindingInventory.FindConsensus | src/oauth/refresh.rs:382-395 | the loop computes that agreement |
| BindingInventory.RelevantSpec | src/binding_migration/sources.rs:95-109 | exactly the selections of that session take part |
| BindingInventory.ProposedMeans | src/binding_migration/inventory.rs:61-89 | an entry is proposed exactly when the pair is unbound, the route and legacy-mapping checks pass and the source is usable; preserved exactly when it is bound |
| BindingInventory.Granted | src/binding_migration/inventory.rs:40-59 | the proposed allowlist names exactly the tools and models the agent can route to |
| BindingInventory.CollectEntries | src/binding_migration/inventory.rs:4-28 | the nested loops produce the specified entries |
| BindingInventory.PlanComplete | src/binding_migration/inventory.rs:4-28 | a plan is strictly sorted, has exactly one entry per agent and registration plus one per orphan binding, and nothing else |
| BindingInventory.BindingsPreservedOnce | src/binding_migration/inventory.rs:4-28 | every existing binding is listed exactly once, as preserved, with its own spec |
| BindingApply.ValidateSelected | src/binding_migration/inventory.rs:117-139 | accepts exactly the plans whose selected entries all name an agent and a registration of the snapshot, are proposed, routable and have a usable source |
| BindingApply.Database.InsertBindings | src/binding_migration/apply.rs:59-68 | the insert loop, failing on a taken pair |
| BindingApply.Database.UpdateAgents | src/binding_migration/apply.rs:48-55 | the grant loop |
| BindingApply.Database.Run | src/binding_migration/apply.rs:12-58 | the transaction as a whole: on an error the database is as it was |
| BindingApply.AcceptedPlansCommit | src/binding_migration/apply.rs:12-58 | a plan without receipt takes effect exactly when it is not refused, is the preview of the current snapshot up to its selection marks, and the revision can still grow |
| BindingApply.EffectIsTheSelection | src/binding_migration/apply.rs:32-68 | existing bindings stay as they are and exactly the selected entries are added, each on an unbound pair that passed the checks |
| BindingApply.AgentsLeft | src/binding_migration/apply.rs:48-55 | exactly the selected agents get their proposed allowlist; all others are unchanged |
| BindingApply.GrantsPreserveMeaning | src/binding_migration/inventory.rs:90-116 | after a grant the live gate accepts a name exactly when the old nullable-allowlist rule did and it is not infra, and no name outside the snapshot |
| BindingApply.GrantedMeaning | src/auth_v2/agent.rs:50-64 | the same for every agent and snapshot, apart from any apply |
| BindingApply.ReplayExact | src/binding_migration/apply.rs:12-58 | replaying a plan on the state it left never writes; it answers 0 exactly when every selected entry is still routable, and a conflict otherwise |
| BindingApply.ReplayCanConflict | src/binding_migration/apply.rs:12-58 | on every clock, a plan that takes effect and whose immediate replay answers a conflict: its own grant drops the infra name its entry binds |
| BindingApply.AtMostOnePlanPerSnapshot | src/binding_migration/apply.rs:69-99 | over any run of applies and edits that keep the receipts, at most one plan takes effect per previewed snapshot |
| BindingApply.ReplaysNeverWrite | src/binding_migration/apply.rs:91-99 | after that plan, no apply of a plan for the same snapshot changes anything |
| BindingApply.EffectNeedsCurrentSnapshot | src/binding_migration/mod.rs:62-97 | a plan takes effect only on the snapshot it was previewed on |
| Admission.OrderedSpec | src/registrations/admission.rs:24-32 | ORDER BY name: all rows, each once, in order |
| Admission.ListedIffAdmissible | src/registrations/api.rs:40-73 | for one snapshot, catalog, clock and identity an entry is listed under a kind exactly when direct admission of that name reaches the account check on a row of that kind; listings are sorted and truthful about the account |
| Admission.UnreadableIsRefusedAndOmitted | src/registrations/admission.rs:37-73 | an unreadable row is refused directly, left out of every listing, and hides no other entry |
| Admission.CatalogsArePast | src/registrations/api.rs:274-312 | in every run the catalog, and whatever a refresh is about to store, was the table at some earlier moment |
| Admission.AdmittedRowIsCurrent | src/proxy/admission.rs:21-58 | whatever writes and refreshes did and in whatever order they landed, a name passes only with the row its snapshot holds, enabled, equal in full to the catalog's copy |
| Admission.RefreshActivates | src/registrations/admission.rs:85-98 | once a refresh that read after the last write has stored and none stores over it, every enabled row is active |
| ProxyRequest.GateIgnoresTemplate | src/proxy/admission.rs:21-58 | the gates decide alike for two registrations that differ in their auth template only |
| ProxyRequest.ApplySpecForgets | src/proxy/selection.rs:49-86 | the selected account replaces everything the template said |
| ProxyRequest.FallbacksUnreachable | src/proxy.rs:714-752 | an admitted target never takes the `resolved_creds` branches of injection |
| ProxyRequest.TemplateHasNoInfluence | src/proxy.rs:360-560 | non-interference: two states that differ in `resolved_creds` and in the template, changed alike in table and catalog, give the same verdict and the same upstream request |
| ProxyRequest.SelectionMeans | src/proxy/selection.rs:49-164 | a selection resolves exactly when it stands for a credential, injects exactly that credential and strips its header |
| ProxyRequest.PassedSpec | src/proxy.rs:692-707 | exactly the headers that are not stripped pass |
| ProxyRequest.BindingDecides | src/proxy.rs:649-860 | every forwarded request carries exactly the credential of the caller's explicit binding, goes to the path and query under the upstream table and catalog agree on, with the agent's body or its codex rewriting; of the agent's headers none under an always-stripped name or the selection's own goes with it, and one under a credential header's name exactly in the case below |
| ProxyRequest.ShadowedExactly | src/proxy.rs:692-830 | an agent's header goes upstream under the name of a credential header exactly when the upstream is codex, the OAuth session names an account and the agent sends the account header |
| ProxyRequest.AgentAccountHeaderPasses | src/proxy.rs:692-830 | a state and a request in which both account headers go upstream |
| BootstrapTokens.WithoutMembers | migrations/0009_explicit_http_grants.sql:7-20 | pruning keeps exactly the other names, and a list without the name as it is |
| BootstrapTokens.AdminService.Consume | src/repo/bootstrap.rs:202-251 | undisturbed, consumes exactly a live token with the right secret before its expiry second, and uses up a single-use one |
| BootstrapTokens.AdminService.RegisterAgent | src/admin/service.rs:370-425 | undisturbed, succeeds exactly on a usable token, free name and grantable allowlist; the agent gets the token's allowlist; a late failure leaves the agent revoked and the token untouched |
| BootstrapTokens.InvRun | src/admin/service.rs:370-425 | every reachable state of concurrent calls, revocations and prunings |
| BootstrapTokens.SingleUseOnce | src/repo/bootstrap.rs:237-249 | in every run a single-use token is consumed at most once |
| BootstrapTokens.OneCredentialPerSingleUse | src/admin/service.rs:402-425 | two calls that both answered with a credential for one single-use token are one call |
| BootstrapTokens.ConsumptionIsAuthorised | src/repo/bootstrap.rs:230-249 | whatever is consumed is a live token, under the scope it carries then, by a call that presented its secret |
| BootstrapTokens.NoneAfterTheEnd | src/repo/bootstrap.rs:237-249 | a revoked, expired, used-up or unreviewed token is never consumed again, whatever was in flight |
| BootstrapTokens.GrantedIsTheTokensScope | src/admin/service.rs:402-425 | every credential handed out belongs to an agent created with exactly the scope the token carried when it was consumed, and answers a call that presented the token's secret |
| BootstrapTokens.PrunedNamesAreNotGranted | migrations/0009_explicit_http_grants.sql:5-47 | a name whose registration was deleted, replaced or redirected while the token existed is in no allowlist handed out afterwards |
| BootstrapTokens.FailedCallsLeaveRevokedAgents | src/admin/service.rs:396-418 | an agent created by a call that answers with an error is revoked by then |
| SecretRotation.AgentRepository.Rotate | src/repo/agent.rs:297-337 | undisturbed, rotates exactly a live agent's current secret, after which only the new secret verifies |
| SecretRotation.AgentRepository.Revoke | src/repo/agent.rs:282-293 | marks the agent, and reports whether there was one |
| SecretRotation.RotationsChain | src/repo/agent.rs:297-337 | in every run the rotations of an agent form one chain: each replaces the hash its predecessor wrote, on presentation of the secret its predecessor handed out, and the stored hash verifies exactly the last secret handed out |
| SecretRotation.ChainStarts | src/repo/agent.rs:297-337 | an agent keeps the hash it was registered with until its first committed rotation, which is the one that read it |
| SecretRotation.OneWinnerPerHash | src/repo/agent.rs:322-335 | of all calls that read the same hash of an agent at most one commits |
| SecretRotation.NoRotationAfterRevoke | src/repo/agent.rs:282-337 | after a revoke the agent stays revoked and no call in flight rotates it |
| SeedLoader.RegistrationRepository.ApplyCatalog | src/registrations/seed_loader.rs:126-230 | the loader: version gate, up-front validation, loop; its counters account for every entry and every new row |
| SeedLoader.RegistrationRepository.ApplyOne | src/registrations/seed_loader.rs:185-218 | one pass of the loop: creates exactly a missing row, reports exactly a cross-kind entry, and changes no other row |
| SeedLoader.VersionReadsBack | src/registrations/seed_loader.rs:282-291 | every dotted version within u64 is read as its three numbers |
| SeedLoader.CompletedLoadInstalls | src/registrations/seed_loader.rs:178-219 | a completed load installs, under every catalog name no operator owns, the last entry of that name with its `disabled` flag and birth date kept, and changes nothing else |
| SeedLoader.RerunIsOneRun | src/registrations/seed_loader.rs:178-219 | the loop cut short after any number of entries and run again from the start ends like one uncut run, cross-kind error or not, duplicates or not |
| SeedLoader.InterruptionsAreUndone | src/registrations/seed_loader.rs:126-230 | however often and wherever loads die, the load that gets through gives the same verdict, version and table, timestamps aside |
| SeedLoader.StartsKeep | src/registrations/seed_loader.rs:126-230 | over any sequence of starts operator rows never change, seed rows keep kind, owner, `disabled` flag and birth date, and the recorded version never decreases |
| Decimals.ValueOfDigits | src/registrations/seed_loader.rs:284-289 | printing a number and parsing it back gives the number |
| JsonlSinks.CandidatesDistinct | src/audit_sink.rs:202-212 | all 10001 candidate names of a day are different |
| JsonlSinks.FreeCandidate | src/audit_sink.rs:196-214 | pigeonhole: with fewer matching files than candidates one candidate is unused |
| JsonlSinks.StartUpCanExhaustTheDay | src/audit_sink.rs:67-88 | a directory of exactly 10000 matching files with an unused name, from which start-up leaves none |
| JsonlSinks.NextTarget | src/audit_sink.rs:196-214 | the first unused candidate, and the dated name again exactly when all are taken |
| JsonlSinks.SortByTime | src/audit_sink.rs:246-247 | the same files, oldest first |
| JsonlSinks.JsonlSink.Start | src/audit_sink.rs:67-88 | fails exactly without a parent, a directory or the file; otherwise opens or creates the dated file and says exactly when the sink starts healthy |
| JsonlSinks.JsonlSink.PruneOldest | src/audit_sink.rs:218-253 | leaves at most `keep_files` matching files besides those that cannot be deleted, never removes the newest nor a file younger than a deletable one it keeps, and touches nothing else |
| JsonlSinks.JsonlSink.RotateTo | src/audit_sink.rs:133-157 | a rotation gets a name no file has exactly when the day has one left, starts it empty, and pruning leaves it alone; whatever was there, pruning brings the count back to `keep_files` |
| JsonlSinks.JsonlSink.WriteLine | src/audit_sink.rs:108-117 | a line within the cap, or first in its file, keeps every file within the promise, partial and failed writes included |
| JsonlSinks.JsonlSink.Append | src/audit_sink.rs:94-117 | on a day with a free name every append keeps the sink sound: no file goes past `max_bytes` except by its only line, no rotation reuses a name, the active file is never pruned; with deletes succeeding a healthy sink stays healthy and so has a free name every day |
| CivilDate.CivilCorrect | src/audit_sink.rs:269-287 | for every day number the result is a valid date whose naive day count is that number |
| CivilDate.CivilInverts | src/audit_sink.rs:269-287 | and every valid date is the result for its own day count |
| CivilDate.CountIsMonotone | src/audit_sink.rs:269-287 | the naive day count orders dates as the calendar does |
| CivilDate.ConsecutiveDays | src/audit_sink.rs:269-287 | consecutive days give consecutive dates |
| CivilDate.YmdCorrect | src/audit_sink.rs:269-287 | the whole function, casts included, gives the Gregorian date of floor(secs / 86400) exactly when its year fits in i32 |
| Token.DecodeEncode | src/token.rs:90-100 | decoding undoes base64url encoding, whose length and alphabet are as section 5 of RFC 4648 says |
| Token.EncodeDecode | src/token.rs:157-164 | every accepted text is the encoding of what it decodes to, zero trailing bits included |
| Token.ParseOfWire | src/token.rs:90-112 | every generated token parses back to its namespace, id and secret |
| Token.WireOfParse | src/token.rs:151-171 | every accepted string is the wire form of what it parsed to |
| Token.ParseAcceptsExactly | src/token.rs:151-171 | parsing accepts exactly the wire forms of tokens that could have been generated |
| CappedStream.SizeCappedStream.PollNext | src/response_controls.rs:263-300 | one poll, proved against its specification |
| CappedStream.SizeCappedStream.FireTruncation | src/response_controls.rs:246-253 | arms the marker and fires the callback only the first time |
| CappedStream.Drain | src/response_controls.rs:263-300 | polling to the end yields the specified output |
| CappedStream.TruncatedIsFinal | src/response_controls.rs:263-272 | after truncation only the marker follows and the inner stream is not polled again |
| CappedStream.CappedStreamCorrect | src/response_controls.rs:217-300 | for every chunking, every placement of Pending and every cap below the u64 maximum the output is the input if it fits, else its first `cap` bytes and the marker, with one callback, exactly when the buffered path reports a size excess |
| CappedStream.UncappedPassesThrough | src/response_controls.rs:235-300 | without a cap, or with the largest one, the output is the input |

## Left out

- Listeners, TLS, mTLS parsing, the CLI and the UDS client: input and output over libraries.
- Audit rows, logs, metrics and the wording of error envelopes: side outputs of the modelled decisions.
- AES-GCM, argon2 and SHA-256: ideal functions; sealing and unsealing are not modelled.
- The HTTP body of the OAuth exchange and the refresh-margin formula: an exchange answers tokens and a lifetime, or fails.
- Content-type rules and redaction patterns of response controls: they rest on the regex engine.
- Requests served without a registrations table (`resolve_target`, `selection::apply`): one lookup and one branch.
- Codex body rewriting, the `op` resolver and the OAuth session lookup inside a proxy request: functions of the world in `ProxyRequest`; the session lookup itself is `OauthProtocol`.
- Name, upstream and metadata validators of the seed loader: one predicate on entries.
- Lifecycle triggers fired by seed loads: only their effect on agents and bootstrap tokens during registration is modelled.
- Operator edits of an agent's policy between its creation and the consumption of its token: the theorems speak of the allowlist the agent was created with.
- BootstrapTokens.FailedCallsLeaveRevokedAgents: calls cut off by a lost backend (label `Abort`) are excluded, because the clean-up itself cannot then run.
- OauthProtocol.NoUseAfterFailure: assumes that no task is dropped between a failed exchange and its degrade or roll-back write, which `LostDegradeAllowsReuse` shows to be needed; all other session theorems allow that too.
- CredentialProtocol.RecordedRefIsLive: for handlers that record within the grace window only; `WindowIsTight` shows that one second more is too late.
- Admission.RefreshActivates: says nothing about refreshes that overtake each other; they are not serialised, so only safety holds then.
- JsonlSinks.JsonlSink.Append: assumes strictly increasing mtimes, and that every directory entry can be listed.
- BindingApply.Database.Run: one clock reading per phase (checking, planning, inserting), in any order; abbreviated notice texts; an ideal digest.
- AuthSpecs and BindingInventory leave the URL parser as a predicate on texts.
