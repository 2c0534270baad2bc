# HireBridge in Dafny

HireBridge is a broker between recruiters and self-hosted candidate nodes. It keeps all its state in
SQLite tables; every repository function is a guarded update of one table, and the services combine
those updates. This project models the tables, the updates and the services, and proves what they
guarantee over whole runs.

## How it is built

`Schema.dfy` declares one row type per table and the class `Database` with one field per table. The
repository functions are methods on that class (`Intros`, `Nodes`, `Devices`, `Tokens`, part of
`CatalogService`), and the services are methods over them (`OutboxWorker`, `AuthService`,
`CatalogService`, `Search`, `FedSync`); the in-memory stores are classes of their own (`RateLimit`,
`AdminStores`).

HTTP handlers run concurrently, and the one pooled connection only makes single statements and transactions
atomic. So in the machines a step of a request is one statement, and between two of them any other request may
run:

- **Device grant and provisioning** (`GrantMachine`, `GrantTheorems`, `GrantPolls`, `GrantOverlap`,
  `GrantAnswers`, `GrantKeys`, `GrantCalls`): magic links, device sessions (RFC 8628), API tokens and node
  credentials. A request is a task that moves from statement to statement.
- **Snapshot catalog** (`CatalogMachine`, `CatalogTheorems`, `CatalogIndex`, `CatalogIngest`, `CatalogRuns`):
  ingests and revocations; snapshots keyed by node and candidate, and two index tables without a key.
- **Delivery worker** (`OutboxMachine`, `OutboxTheorems`, `OutboxDelivery`, `Starvation`): the queue of
  introduction requests, with its stale batch, bounded retries, backoff and lost row writes. There is one worker; a
  step is one repository call or one delivery attempt.
- **The whole server** (`System`): all of these over one node table and one clock, in any order, with the
  worker's target lookup as a step before its POST. Every run of the whole projects to a run of each machine,
  so all their theorems carry over.
- **Replication** (`FedSync`, `FedSyncTheorems`, `FedSyncChanges`, `FedSyncRows`): rounds of one sync loop with a
  peer whose table grows, or changes in any way, between rounds.

The functions that describe single steps are checked against their meaning: `OutboxDelivery`, `GrantAnswers`,
`GrantKeys`, `GrantCalls`, `CatalogIngest`, `SearchOrder`, `QueryWords` and `FedSyncRows` say what is delivered,
handed out, accepted, found and kept on the fields of rows, inputs and answers, without those functions.

The service methods are tied to the machines: each computes what its task does when it is not interrupted
(`Alone`), and such an execution is a run of the machine (`AuthService.Uninterrupted`). A run is a sequence of
states and a sequence of steps, each enabled and leading from one state to the next; the theorems quantify over
all of them. Clock readings, HTTP answers, random values, which ties a query breaks how, and which statements
fail are inputs of the steps. The clock never runs backwards; a reading that is passed to a statement is taken
with it. Digests and signature checks are arbitrary functions; only the lemmas that build a run ask that the
digest take more values than a table holds. Times are nanoseconds in the services and whole Unix seconds in the
tables, as in the program; integers are unbounded.

## Where the code does not do what one might expect

Each remark names the theorem with the exact condition and, where a run fails it, the lemma that builds one.

- A poll reads its session and consumes it in two statements, and consuming does not check that its update hit
  (internal/store/repo/devices.go:135-152). Two polls that both read `approved` before either consumes are both
  granted the code, and the second secret replaces the first. A code can be granted twice exactly while a poll
  can still read `approved`, or two have done so and not failed (`GrantOverlap.CanGrantTwiceIff`,
  `GrantOverlap.OneSuccessPerCode`, `GrantOverlap.OverlappingPollsBothGranted`).
- One poll is enough to lose the secret it was handed: the followed link that approved the session may still be
  on its way to provision the node, and then replaces the secret. The stored secret is final exactly when no
  request is on such a way (`GrantOverlap.SecretIsFinalIff`, `GrantOverlap.HandedOutSecretStays`,
  `GrantOverlap.ApprovingLinkReplacesSecret`).
- Polls that overlap between lookup and stamp are all told to go on in one second; only a poll that looks up
  after the stamp is paced (`GrantPolls.PollsArePaced`, `GrantOverlap.OverlappingPollsBothPending`).
- For requests that come one at a time none of the three can happen (`GrantOverlap.OneAtATimeIsApart`).
- An approved session can be redeemed after its expiry (internal/auth/service.go:156-157); only the approval
  has to be in time (`GrantOverlap.OneSuccessPerCode`, `GrantOverlap.LateRedemption`).
- An ingest that has passed its checks outlives a revocation of its node: a snapshot of the revoked node is
  stored after all. That can happen exactly if such an ingest is under way (`CatalogTheorems.CanStoreAgainIff`,
  `CatalogRuns.IngestOutlivesRevocation`). A revocation between an ingest's two writes leaves a text row without
  a snapshot (`CatalogRuns.RevocationBetweenWritesLeavesRow`), and two ingests of one snapshot that cross leave
  the text that was overwritten in the index (`CatalogRuns.CrossedIngestsLeaveStaleRow`).
- Revoking a node takes each of its candidates out of the full-text index even if another node still holds a
  snapshot. The index stays complete exactly when the revoked node shared no candidate, or only ones whose
  delete failed (`CatalogIndex.RevokeKeepsCoverIff`, `CatalogRuns.SharedCandidateIsLost`).
- `RevokeNode` ignores the error of each of its index deletes. Rows then keep a snapshot exactly when each
  indexed candidate whose delete failed has a snapshot of another node. The vector deletes fail when the vector
  extension, there when the embedding was pushed, is gone at the revocation
  (`CatalogTheorems.RevokeKeepsBackingIff`, `CatalogRuns.FailedDeleteLeavesRow`).
- A row whose request cannot be built (the endpoint URL is never checked) is neither charged an attempt nor
  put off. Such rows starve a younger one if and only if they fill a batch: with fewer of them than
  `BatchSize`, which cmd/hirebridge/main.go leaves at 32, the drains that skip a due row are bounded
  (`Starvation.StarvesIff`, `Starvation.NoStarvation`, `Starvation.UnbuildableRequestsStarve`).
- A POST whose row write fails is sent again; the POSTs add up to the recorded attempts exactly when no
  write is lost (`OutboxTheorems.AttemptAccounting`, `OutboxTheorems.LostWriteRepeatsPost`). The backoff
  schedule holds all the same (`OutboxTheorems.FailureTakesTheWholeSchedule`).
- A POST goes to the target looked up before it, and with its secret: one whose lookup came before a poll or a
  revocation may leave after it (`System.SecretAgreement`, `System.RevokedNodeGetsNoPost`).
- Sync timestamps are whole seconds and the cursor is strict. A row is missing locally exactly if it is newer
  than the cursor, or came in, was cut off by the page, or failed to be inserted in a second that the cursor has
  passed; a row that was revoked or pushed again at the peer stays as it was until another is received
  (`FedSyncChanges.ChangingSyncIsCompleteIff`, `FedSyncChanges.StaleRowStays`,
  `FedSyncTheorems.SyncIsCompleteIff`, `FedSyncTheorems.BusySecondIsNeverComplete`).
- The sync client asks for 50 rows a page and the server always sends up to 100
  (internal/federation/sync.go:60, internal/federation/handler.go:144); the model has 100.
- `syncOnce` keeps its query of the peers open while `syncPeer` runs further queries
  (internal/federation/sync.go:37-50), and the pool has one connection (internal/store/store.go:30). As the
  code reads, a round started that way waits for its first query for ever; the theorems are about rounds that
  get to run.
- The program's README shows `"node_type": "jobops"` (README.md:83-86) and the schema admits only
  `JobOps` and `LivingCV` (internal/store/schema/migrations/001_initial.up.sql:12), so such a request
  fails; the model follows the schema.
- The program's README says that repeating the device flow for a node rotates its secret. Each flow makes a
  node of its own, so only requests for the one session of a node ever rotate its secret
  (`GrantOverlap.SecretIsFinalIff`).
- `MarkIntroUndeliverable` also accepts delivered rows (internal/store/repo/intros.go:170). That
  terminal rows never change is a property of the worker (`OutboxTheorems.TerminalIsAbsorbing`), not of the
  call.
- Nothing ever denies a session (internal/auth/service.go:158 only reads that status) and no link is written without
  a user, so a poll is never told `access_denied` and a followed link never ends as pending
  (`GrantAnswers.AnswersAreTrue`).
- A failed session insert leaves the node inserted before it (internal/store/repo/devices.go:58-78).

## Model

| member | source | states |
|---|---|---|
| Starvation.StarvesIff | internal/outbox/outbox.go:134-152 | from any state, a set of due rows in front of a due row, submitted before the current second, can keep it waiting through any number of drains iff the set fills a batch |
| Starvation.NoStarvation | internal/outbox/outbox.go:134-152 | over every run in which all rows but some stuck ones reach a verdict, the drains that skip a due row, times the room the stuck rows leave in a batch, are at most the other rows not younger times the attempt limit (plus the batch in flight) |
| Starvation.UnbuildableRequestsStarve | internal/outbox/outbox.go:171-181 | for every batch size and every state with at least a batch of due rows in front of a due row, some run of n drains, for every n, skips the row because their requests cannot be built, while every other row reaches a verdict |
| OutboxDelivery.DeliveredIff | internal/outbox/outbox.go:193-205 | in every run a row is delivered iff its last POST was recorded and answered by 200 to 299, and no earlier recorded POST was |
| OutboxDelivery.RejectionsAreCharged | internal/outbox/outbox.go:186-236 | in every run the attempts of a row are its recorded POSTs that got any other answer or none; after one the row is retrying below the limit and failed at it, and names that answer |
| OutboxDelivery.AttemptOutcome | internal/outbox/outbox.go:158-236 | every case of one attempt, field by field: no lookup, request or row write, no target, success, failure below and at the limit |
| OutboxDelivery.PostOutcome | internal/outbox/outbox.go:171-191 | a POST leaves iff a target was found and the request could be built, to that target, with that row's data and signature |
| OutboxDelivery.RetryIsDueOnTime | internal/outbox/outbox.go:222-227 | in every run a retrying row is due again exactly once its own entry of the schedule, or the last one, has passed since its last recorded POST |
| OutboxDelivery.PostsCarryTheSubmission | internal/outbox/outbox.go:238-257 | every POST of every run carries what the recruiter submitted under that identifier, and when, signed with its target's secret |
| Starvation.DefaultBatchStarvesIff | cmd/hirebridge/main.go:73 | with the default batch it takes 32 stuck rows |
| OutboxTheorems.AttemptAccounting | internal/outbox/outbox.go:158-236 | in every reachable state the POSTs with a recorded verdict are attempts plus one if delivered, at most the limit; all POSTs are accounted for iff no row write was lost; live, failed and queued rows have the matching attempt counts and timestamps |
| OutboxTheorems.PostsSent | internal/outbox/outbox.go:158-208 | if row writes succeed, POSTs sent = attempts + (1 if delivered) and never exceed the limit |
| OutboxTheorems.TerminalIsAbsorbing | internal/outbox/outbox.go:144-208 | a delivered, failed or undeliverable row never changes again and nothing more is sent for it |
| OutboxTheorems.BackoffRespected | internal/outbox/outbox.go:210-236 | after a recorded failure the next POST of the row starts more than the scheduled delay minus one second later |
| OutboxTheorems.FailureTakesTheWholeSchedule | internal/outbox/outbox.go:210-227 | in every run, whatever writes are lost, the last POST of a failed row is recorded as the last attempt and starts at least the whole schedule after the end of any first attempt; without lost writes there are exactly as many POSTs as the limit |
| OutboxTheorems.DefaultsGiveUpAfterAnHour | internal/outbox/outbox.go:33-84 | with default knobs: at least five POSTs (five without lost writes), over more than 66 minutes less four seconds |
| OutboxTheorems.LostWriteRepeatsPost | internal/outbox/outbox.go:189-200 | a run in which a successful POST is sent twice with one body and signature, because its row write was lost |
| OutboxTheorems.Reachable | internal/outbox/outbox.go:144-151 | in every reachable state the rest of the batch still agrees with the table and is due, although it was read once |
| OutboxMachine.Effective | internal/outbox/outbox.go:61-84 | every knob that matters is positive afterwards, and a complete configuration is kept |
| OutboxWorker.Worker.Drain | internal/outbox/outbox.go:134-152 | a drain is a run of the machine: one load, then the rows in order with fresh target lookups, up to the cancellation; nothing happens if the load fails |
| OutboxWorker.Worker.ProcessOne | internal/outbox/outbox.go:158-208 | one attempt: new table, POST log with signature, and the target it used |
| OutboxWorker.Worker.ScheduleOrFail | internal/outbox/outbox.go:212-236 | retry at the scheduled time or fail at the limit, only on a live row |
| Intros.PendingIntroductionRequests | internal/store/repo/intros.go:76-105 | returns exactly the oldest due rows, at most the limit, in creation order, or fails |
| Intros.InsertIntroductionRequest | internal/store/repo/intros.go:33-47 | adds a queued row, or fails with the statement or on a taken id |
| Intros.MarkIntroDelivered | internal/store/repo/intros.go:108-124 | hits live rows only and stamps the delivery |
| Intros.MarkIntroRetrying | internal/store/repo/intros.go:128-143 | hits live rows only, counts the attempt and schedules the next |
| Intros.MarkIntroFailed | internal/store/repo/intros.go:146-161 | hits live rows only and counts the last attempt |
| Intros.MarkIntroUndeliverable | internal/store/repo/intros.go:166-181 | hits live and delivered rows |
| Nodes.ResolveDeliveryTarget | internal/store/repo/nodes.go:182-217 | a newest active LivingCV node of the snapshot node's owner with endpoint and secret; none exactly if there is no such node |
| Nodes.SetNodeUser | internal/store/repo/nodes.go:18-24 | writes the owner only while it is unset |
| Nodes.UpdateNodeToken | internal/store/repo/nodes.go:10-16 | overwrites the token hash of that node only |
| Nodes.RotateNodeIntroSecret | internal/store/repo/nodes.go:30-43 | overwrites the secret of that node only |
| Nodes.UpdateNodePing | internal/store/repo/nodes.go:148-154 | overwrites the ping of that node only |
| System.SecretAgreement | internal/outbox/outbox.go:159-183 | in every run of the server: once a poll handed out a node's secret while no other request was on its way to provision that node, every POST to the node whose target lookup is after it is signed with exactly that secret, over exactly the posted body |
| System.PostsGoToTheOwner | internal/store/repo/nodes.go:179-217 | source and target node of every POST have one owner, who approved the device session of each |
| System.RevokedNodeGetsNoPost | internal/httpapi/handler/webui.go:180-206 | no POST whose target lookup is after a revocation goes to the node; it holds no snapshot again unless an ingest was about to store one |
| System.GrantedNodeIsTarget | internal/store/repo/nodes.go:182-217 | in every run a node a poll has provisioned is found as target for its owner's introductions while it is active and nothing else provisions it, with the secret handed out, if the owner has no other node as new |
| System.TargetIs | internal/store/repo/nodes.go:182-217 | what a found target is, field by field, and that no such node of the owner is newer |
| System.Projections | cmd/hirebridge/main.go:130 | every run of the server is, for each part, a run of that part |
| GrantOverlap.OneSuccessPerCode | internal/auth/service.go:142-227 | over every run in which no two polls of a code are between reading `approved` and consuming at one time, at most one request is granted the code; in every run only after an approval no later than the expiry |
| GrantOverlap.TwoGrantsMeet | internal/auth/service.go:142-227 | if two requests are granted one code, at some moment both had read `approved` and neither had consumed |
| GrantOverlap.CanGrantTwiceIff | internal/auth/service.go:142-227 | from any reachable state, some continuation grants a code twice iff a poll can still read `approved` or two polls have and not failed |
| GrantOverlap.OverlappingPollsBothGranted | internal/store/repo/devices.go:126-159 | a run in which two polls are granted one code and only the second secret is the stored one |
| GrantAnswers.AnswersAreTrue | internal/auth/service.go:27-227 | every answer of every run is true when given and ever after: a token handed out is stored for the user who approved or asked, the node of the session and the scope `node:push` with a node and `all` without; sessions, links and intervals are as told |
| GrantKeys.GrantedTokenIsTheNodes | internal/auth/service.go:198-219 | as long as no other request provisions the node, its stored digest is that of the access token the poll handed out |
| GrantKeys.GrantedNodeIsOwned | internal/auth/service.go:198-208 | in every run the node of a granted poll belongs to the user who approved its session |
| GrantKeys.HashesAlwaysTokens | internal/auth/service.go:198-206 | under every interleaving a node's stored digest is that of a token issued for it with the scope to push |
| GrantKeys.NothingIsShared | internal/store/schema/migrations/001_initial.up.sql:2-60 | in every run each user has one e-mail and each user code one session |
| GrantAnswers.LinkStandsForAddressee | internal/auth/service.go:33-40 | in every run a link written for an e-mail stands for the one user with it, ever after, and expires after the configured time |
| GrantAnswers.LinksSignInTheAddressee | internal/auth/service.go:27-107 | in every run whoever follows such a link is signed in as that user, with a token stored for that user |
| GrantAnswers.NothingIsTakenBack | internal/store/repo/users.go:18-30 | users, links, tokens and nodes, once written, stand for the same in every later state |
| GrantCalls.GrantedPollOutcome | internal/auth/service.go:179-227 | the tables and the answer of an uninterrupted poll of an approved session, field by field |
| GrantCalls.UngrantedPollOutcome | internal/auth/service.go:142-177 | what any other poll is told, by what the session reads, and that only a poll told to go on leaves a stamp |
| GrantCalls.OpenNodeOutcome | internal/auth/service.go:118-140 | the node and the session of an uninterrupted opening with a type and an endpoint, and its refusal of unknown types |
| GrantCalls.OpenPlainOutcome | internal/auth/service.go:118-140 | without either only the session is opened |
| GrantCalls.FailedStatement | internal/auth/service.go:27-227 | a statement that fails writes nothing and ends its request; only the second read of an approved session may fail without harm |
| GrantCalls.LinkOutcome | internal/auth/service.go:27-45 | the user and the link of an uninterrupted request for a link |
| GrantCalls.FollowOutcome | internal/auth/service.go:47-74 | a link works exactly while unused and unexpired, is used up even if its session can no longer be approved, and otherwise signs its user in |
| GrantCalls.ApprovingLinkOutcome | internal/auth/service.go:76-116 | what following a link for a waiting session approves, issues and provisions |
| GrantCalls.WebApprovalOutcome | internal/httpapi/handler/auth.go:165-192 | an approval from the browser succeeds exactly on a pending, unexpired session and changes nothing else |
| GrantCalls.LogoutOutcome | internal/store/repo/api_tokens.go:76-81 | signing out stamps the presented token and nothing else |
| GrantPolls.GrantedIff | internal/auth/service.go:142-227 | in every run a poll is granted its code iff its lookup read `approved` and it ran to its end without a failing statement |
| GrantOverlap.LateRedemption | internal/auth/service.go:142-163 | for every session lifetime, a run in which a session approved in time is redeemed any time after its expiry |
| GrantTheorems.SessionEvolves | internal/store/repo/devices.go:109-165 | under every interleaving a session keeps identity and deadlines, its status only moves forward, approval data stay, and a consumed row changes in nothing but its poll stamp |
| GrantPolls.PollsArePaced | internal/auth/service.go:165-177 | an authorization_pending answer whose lookup comes after the stamp of an earlier one is judged at least five seconds after that stamp |
| GrantPolls.PendingAnswersAreBounded | internal/auth/service.go:165-177 | a session whose polls do not overlap between lookup and stamp gets at most one such answer plus one per five seconds of its lifetime |
| GrantOverlap.OverlappingPollsBothPending | internal/store/repo/devices.go:161-165 | a run in which two overlapping polls are both told to go on in one second |
| GrantTheorems.OwnerWrittenOnce | internal/store/repo/nodes.go:18-24 | no step of any run changes an owner once written |
| GrantTheorems.OwnershipAgrees | internal/auth/service.go:76-98 | under every interleaving a token bound to a node carries the user of the one session of that node, who is its owner once it has one |
| GrantOverlap.HandedOutSecretStays | internal/auth/service.go:198-219 | the secret a poll handed out is the stored one in every later state, if no other request was on its way to provision the node at that moment |
| GrantOverlap.SecretIsFinalIff | internal/store/repo/nodes.go:30-43 | once a node's session is consumed, its stored secret is final in all continuations iff no request is on its way to provision the node |
| GrantOverlap.ApprovingLinkReplacesSecret | internal/auth/service.go:76-107 | a run in which the link that approved the session replaces the secret a poll has handed out |
| GrantOverlap.OneAtATimeIsApart | internal/auth/service.go:142-227 | requests that come one at a time meet the conditions of the theorems on grants, pacing and secrets |
| GrantTheorems.MagicLinkIsSingleUse | internal/store/repo/tokens.go:43-81 | under every interleaving a link is redeemed at most once, even if its request fails later; following one in vain writes nothing |
| GrantTheorems.Reachable | internal/auth/service.go:27-227 | sessions, nodes, tokens and what each unfinished request knows agree in every reachable state, whatever interleaves and fails |
| AuthService.Uninterrupted | internal/auth/service.go:27-227 | a request that runs without interruption is a run of the machine |
| AuthService.Service.PollToken | internal/auth/service.go:142-163 | answer and tables are those of a poll's statements in order (spelled out by GrantCalls) |
| AuthService.Service.HandlePollPending | internal/auth/service.go:165-177 | expiry and pacing by the row the lookup read, then the poll stamp |
| AuthService.Service.HandlePollApproved | internal/auth/service.go:179-227 | whatever the session reads by then: consumption, tokens and provisioning, statement by statement |
| AuthService.Service.VerifyMagicCallback | internal/auth/service.go:47-74 | answer and tables are those of a followed link's statements in order |
| AuthService.Service.ApproveDevice | internal/auth/service.go:76-116 | approval, token, re-read and provisioning, statement by statement |
| AuthService.Service.RequestMagicLink | internal/auth/service.go:27-45 | lookup, user, link and mail in order; the link stays if the mail fails |
| AuthService.Service.InitiateDeviceFlow | internal/auth/service.go:118-140 | node and session in order |
| AuthService.Service.ApproveFromBrowser | internal/httpapi/handler/auth.go:165-192 | lookup by user code and the guarded approval; no credentials |
| Devices.InsertDeviceSession | internal/store/repo/devices.go:46-81 | node, then session; a node stays if the session insert fails |
| Devices.ApproveDeviceSession | internal/store/repo/devices.go:109-124 | only pending, unexpired sessions |
| Devices.ConsumeDeviceSession | internal/store/repo/devices.go:126-159 | only approved sessions change; returns the row as it then reads, hit or not |
| Devices.UpdateLastPoll | internal/store/repo/devices.go:161-165 | stamps the poll |
| Devices.DeviceSessionByUserCode | internal/store/repo/devices.go:96-107 | a session with this code, none exactly if there is none |
| UserCodes.GenerateUserCode | internal/store/repo/devices.go:12-25 | fills the code from the low digit up; equals the digit string of the random number |
| UserCodes.UserCodeRoundTrip | internal/store/repo/devices.go:12-25 | the code is nine characters with a dash, none of them I, O, 0 or 1, and the random bits can be read back from it |
| Tokens.CreateUser | internal/store/repo/users.go:18-30 | the user with this e-mail, new or existing |
| Tokens.InsertMagicToken | internal/store/repo/tokens.go:32-41 | adds an unused link, or fails on a taken hash |
| Tokens.ConsumeMagicToken | internal/store/repo/tokens.go:43-81 | marks an unused, unexpired link used and returns it as it then reads; otherwise nothing |
| Tokens.CreateApiToken | internal/store/repo/api_tokens.go:21-52 | adds a token row, or fails on a taken hash |
| Tokens.RevokeApiToken | internal/store/repo/api_tokens.go:76-81 | stamps the revocation only |
| CatalogIngest.AcceptedIff | internal/service/ingest.go:40-125 | for any tables an uninterrupted ingest is accepted iff node, size, dimension and signature are in order, spelled out; then snapshot, text row, vector row and ping are exactly what was pushed, otherwise nothing changes |
| CatalogIngest.RefusedIff | internal/service/ingest.go:40-85 | each refusal is given iff its own condition holds |
| CatalogIngest.AcceptedIsServed | internal/service/search.go:157-175 | what was accepted is what the profile shows: payload, signature, address and key |
| CatalogIngest.FailedStatement | internal/service/ingest.go:41-113 | a failing statement changes nothing; the lookup and the snapshot end the ingest, index writes and ping are passed over |
| CatalogIngest.SignedPushIsStored | internal/service/ingest.go:57-89 | a run in which a node with a key pushes a signed snapshot and it is stored |
| CatalogIngest.RevocationOutcome | internal/store/repo/nodes.go:94-141 | a revocation takes exactly the node's snapshots and, from each index, the rows of the candidates it held whose delete succeeded; all other rows stay |
| CatalogTheorems.CatalogIsSound | internal/service/ingest.go:40-109 | in every reachable state each snapshot verifies under its node's key; if no node was revoked during an ingest of it, snapshots belong to active nodes, and the rows of each index name candidates with a snapshot as long as the revocations' deletes from that index succeeded |
| CatalogTheorems.EverySnapshotIsVouched | internal/service/ingest.go:40-85 | each stored snapshot, and each signature an ingest is about to store, verifies under the node's key, whatever interleaves and fails |
| CatalogTheorems.RevokeKeepsBackingIff | internal/store/repo/nodes.go:118-126 | for each index: its rows keep a snapshot through a revocation iff every indexed candidate of the node whose delete failed has a snapshot elsewhere |
| CatalogRuns.FailedDeleteLeavesRow | internal/store/repo/nodes.go:118-121 | a run that pushes an embedding with the vector extension and revokes without it leaves a vector row without a snapshot |
| CatalogTheorems.RevocationIsFinal | internal/store/repo/nodes.go:94-141 | after a revocation no later state holds a snapshot of the node, unless an ingest of it was about to store one |
| CatalogTheorems.CanStoreAgainIff | internal/service/ingest.go:40-89 | a revoked node can get a snapshot again iff an ingest of it has passed its checks before |
| CatalogRuns.IngestOutlivesRevocation | internal/service/ingest.go:40-96 | a run in which a revoked node ends with a stored and indexed snapshot |
| CatalogRuns.RevocationBetweenWritesLeavesRow | internal/service/ingest.go:87-96 | a run in which a revocation between an ingest's writes leaves a text row without a snapshot |
| CatalogIndex.OneTextRowEach | internal/store/repo/snapshots.go:25-43 | no candidate ever has two rows in the full-text index |
| CatalogIndex.IndexIsFresh | internal/store/repo/snapshots.go:25-43 | while text writes succeed and requests on one snapshot keep apart, each text row is the payload of a stored snapshot, or is about to be replaced |
| CatalogRuns.CrossedIngestsLeaveStaleRow | internal/service/ingest.go:87-96 | a run in which two crossing ingests leave the overwritten payload in the index |
| CatalogIndex.IndexEqualsSnapshots | internal/service/ingest.go:91-100 | if also each candidate has one pusher, the full-text index is exactly the candidate-to-payload view of the snapshots, for every candidate not being ingested |
| CatalogIndex.RevokeKeepsCoverIff | internal/store/repo/nodes.go:103-126 | an index with a row for every snapshot still has them after a revocation iff each shared candidate is one whose delete failed |
| CatalogRuns.SharedCandidateIsLost | internal/store/repo/nodes.go:103-126 | for any two active nodes without keys that push one candidate, a run without failures or overlaps in which revoking one of them hides the other's snapshot |
| CatalogService.ProfileIsVerifiable | internal/service/search.go:157-175 | the texts of every profile handed out verify, in every run: signature over payload under key |
| CatalogService.GetTalentProfile | internal/store/repo/search.go:129-142 | some snapshot of the candidate, none exactly if there is none |
| CatalogService.Process | internal/service/ingest.go:40-125 | answer and tables are those of an ingest's statements in order |
| CatalogService.RevokeNode | internal/store/repo/nodes.go:94-141 | loops over the candidates, each delete failing by itself; nothing changes if the node is unknown or the transaction fails |
| CatalogService.UpsertSnapshot | internal/store/repo/snapshots.go:10-23 | one snapshot per node and candidate, overwritten |
| CatalogService.ReplaceFTS5Row | internal/store/repo/snapshots.go:25-43 | the candidate's rows give way to one new row |
| CatalogService.UpsertVec0Embedding | internal/store/repo/snapshots.go:45-57 | always adds a row |
| Hex.DecodeIff | internal/service/ingest.go:79-85 | decoding gives the bytes that the pairs of digits, of either case, spell, and nothing else |
| Hex.DecodesIff | internal/service/ingest.go:79-85 | exactly texts of hexadecimal digits in pairs can be decoded |
| Hex.RoundTrip | internal/service/search.go:166-174 | decoding an encoding gives the bytes back |
| Search.SearchTalent | internal/service/search.go:39-144 | distinct retrieved candidates with snapshot data, ranked 1 to m, m at most the limit, best first; nothing left out beats anything kept; without vector hits by ascending bm25 |
| SearchOrder.BetterHitsComeFirst | internal/service/search.go:88-143 | in every answer a candidate whose hits all have lower scores than another's, in both lists, stands before it and is never cut for it |
| SearchOrder.EntriesAreTrue | internal/service/search.go:100-143 | every entry shows its place, its snapshot and the scores of its own last hits; nothing found is missing unless the answer is full |
| Search.RankMap | internal/service/search.go:86-98 | the map reads as the worst rank of each candidate |
| Search.ScoreMap | internal/service/search.go:49-76 | the map reads as the last score of each candidate |
| Search.SortBy | internal/service/search.go:125-134 | some ascending rearrangement; ties in any order |
| Search.BetterRanksScoreHigher | internal/service/search.go:146-155 | at least as good in both lists and better in one scores strictly higher; absence is worst |
| Search.BothListsBeatOne | internal/service/search.go:146-155 | both lists at ranks up to 61 beats any single list; at 62 there is a tie |
| Search.BothListsComeFirst | internal/service/search.go:123-143 | such a candidate precedes every single-list candidate in the output, and is never cut for one |
| Search.EffectiveLimit | internal/service/search.go:40-42 | a limit is kept iff it is from 1 to 100; any other becomes 20 |
| QuerySanitizer.SanitizeFTS5Query | internal/store/repo/search.go:11-32 | the loop yields the joined quoted terms |
| QueryWords.SanitizedQueryKeepsWords | internal/store/repo/search.go:11-32 | the fields of the raw query are its maximal runs; each whose word characters spell no operator yields exactly those, in order, and nothing else is added |
| QuerySanitizer.SanitizedQueryIsSafe | internal/store/repo/search.go:11-32 | splitting gives the terms back, each a quoted run of word characters and no operator; sanitizing is idempotent |
| RateLimit.RateBound | internal/httpapi/middleware/ratelimit.go:25-40 | any interval as long as the window admits at most 2q - 1 calls of a key, q the limit but at least 1, over all calls and reaps |
| RateLimit.RateBoundIsTight | internal/httpapi/middleware/ratelimit.go:25-40 | for every limit and every window of at least one clock tick some run reaches the bound |
| RateLimit.WindowsAreOk | internal/httpapi/middleware/ratelimit.go:25-40 | windows do not overlap, hold their calls, and admit at most q each; the entry describes the last one |
| RateLimit.ReaperIsInvisible | internal/httpapi/middleware/ratelimit.go:42-55 | reap rounds anywhere change no answer |
| RateLimit.RateLimiter.Allow | internal/httpapi/middleware/ratelimit.go:25-40 | answer and entries of one call |
| RateLimit.RateLimiter.Reap | internal/httpapi/middleware/ratelimit.go:42-55 | exactly the expired entries go |
| AdminStores.ReaperIsInvisible | internal/httpapi/middleware/admin.go:31-147 | reap rounds anywhere change no answer of either store |
| AdminStores.AcceptedWasStored | internal/httpapi/middleware/admin.go:60-147 | what is accepted was stored within its lifetime and not taken or dropped since |
| AdminStores.StoredIsAccepted | internal/httpapi/middleware/admin.go:60-147 | conversely, what was stored is accepted throughout its lifetime until taken or dropped |
| AdminStores.LinkIsSingleUse | internal/httpapi/middleware/admin.go:130-147 | between two successful consumptions of a link it was stored again |
| AdminStores.AdminSessions.Valid | internal/httpapi/middleware/admin.go:60-75 | alive sessions only; an expired one is dropped |
| AdminStores.AdminSessions.NewToken | internal/httpapi/middleware/admin.go:48-58 | stores the expiry |
| AdminStores.AdminSessions.Revoke | internal/httpapi/middleware/admin.go:77-84 | drops the session |
| AdminStores.AdminPendingLinks.Put | internal/httpapi/middleware/admin.go:124-128 | stores the expiry |
| AdminStores.AdminPendingLinks.Consume | internal/httpapi/middleware/admin.go:132-147 | true iff present and unexpired; deleted in any case |
| AdminStores.ReapMap | internal/httpapi/middleware/admin.go:31-44 | exactly the expired entries go |
| FedSyncChanges.ChangingSyncIsCompleteIff | internal/federation/sync.go:58-109 | with a peer table that changes in any way between rounds: the local table has every row of the present one iff none is newer than the cursor and each was stored by the round that passed its timestamp |
| FedSyncChanges.HeldIff | internal/federation/sync.go:58-109 | a row of the peer's present table is held locally iff the round that moved the cursor past its timestamp stored it |
| FedSyncChanges.PassedWithoutIsMissing | internal/federation/handler.go:142-145 | a row passed without being stored is missing as long as it stays in the peer's table |
| FedSyncChanges.RowIsLastKept | internal/federation/sync.go:72-94 | the local table holds for each candidate the row stored last, also through rounds that restart at 0 after a failed cursor query |
| FedSyncRows.LocalRowShows | internal/federation/sync.go:72-94 | in every history a local row shows, field by field, a row that stood in the peer's table when a round stored it, the last stored for its candidate |
| FedSyncRows.PageIsNextHundred | internal/federation/handler.go:142-145 | a page starts with the first row past the cursor and goes on for a hundred rows or to the end |
| FedSyncRows.IndexRowsShow | internal/federation/sync.go:86-93 | one index row for each stored row, with its candidate and kept text |
| FedSyncChanges.StaleRowStays | internal/federation/sync.go:72-94 | a local row stays until a round stores another for its candidate |
| FedSyncChanges.RevokedRowStays | internal/federation/sync.go:72-94 | a candidate that has left the peer's table keeps its last local row |
| FedSyncChanges.PushChanges | internal/store/repo/snapshots.go:13-21 | a push at the peer, new or repeated, is a change of its table as these theorems allow |
| FedSyncChanges.RevocationChanges | internal/store/repo/nodes.go:101-130 | so is a revocation at the peer |
| FedSyncTheorems.SyncIsCompleteIff | internal/federation/sync.go:58-109 | in every run of rounds with a growing peer and failing inserts, the local table has every row of the peer iff no row is newer than the cursor and every round stored all the rows it passed |
| FedSyncTheorems.GrowingSyncIsCompleteIff | internal/federation/sync.go:58-109 | once the peer stopped growing, one round per hundred rows catches up; if no insert failed, the table is complete iff no page ended inside a second |
| FedSyncTheorems.StaticSyncIsCompleteIff | internal/federation/sync.go:58-109 | with an unchanged peer and one round per hundred rows, it is complete iff no multiple of a hundred rows falls inside a second |
| FedSyncTheorems.BusySecondIsNeverComplete | internal/federation/handler.go:142-145 | a peer with 101 rows in one second is never copied completely, in runs of any number of rounds from two on |
| FedSyncTheorems.LosslessSyncMirrorsPeer | internal/federation/sync.go:72-94 | while no round passed a row without storing it, the table holds the peer's latest snapshot of each candidate up to the cursor, also when candidates repeat |
| FedSyncTheorems.CursorAdvances | internal/federation/sync.go:102-109 | the cursor never moves back, and moves forward iff the round stored anything |
| FedSyncTheorems.TableMirrorsReceived | internal/federation/sync.go:72-94 | after any run, also among rounds with other peers, the peer's rows are the last ones received |
| FedSyncTheorems.PassedRowIsLost | internal/federation/handler.go:142-145 | a row that a round passes without storing it is never stored by any round |
| FedSyncTheorems.LosslessIffCleanEnd | internal/federation/handler.go:142-145 | a round whose inserts succeed loses nothing iff its page does not end inside a second |
| FedSync.Syncer.SyncPeer | internal/federation/sync.go:58-100 | one round: cursor, page, the rows and index rows whose inserts succeed, and last-seen stamp |
| FedSync.Syncer.LastSyncFor | internal/federation/sync.go:102-109 | the newest timestamp stored for the peer; 0 if there is none or the query fails |
| FedSync.ServeSnapshots | internal/federation/handler.go:137-165 | the first hundred rows past the cursor |
| Utf8.Truncate | internal/federation/sync.go:111-119 | the loop finds the last character start within the limit |
| Utf8.PreviewIsLongestValidPrefix | internal/federation/sync.go:111-119 | on valid UTF-8 the result is the longest valid prefix within the limit and gives up fewer than four bytes |
| Utf8.ValidPrefixIff | internal/federation/sync.go:111-119 | a prefix of valid text is valid iff it ends at a character start or at the end |

## Left out

- HTTP routing, cookies, CSRF, scope checks, templates, configuration, logging, migrations and `main`.
- Mailers, the HTTP client, SQLite, FTS5 and vec0 themselves: their answers are inputs.
- The digest, HMAC, ed25519 and random generators: arbitrary functions and inputs; a drawn value that is
  already taken makes its insert fail, as the schema's keys do.
- Foreign keys, the audit log, `last_used_at` and the e-mail itself: no property depends on them; a
  constraint violation is covered by the failing statement of a call.
- JSON encoding of the delivery payload and of requests, number formatting in error texts,
  `Float64ToBlob`, rounding of floating-point scores (scores are reals).
- `SetNodePublicKey` and `SetNodeIntroSecret`: nothing calls them in production.
- Several workers draining at once, and several sync loops: the program starts one of each.
- `RateLimiter` keeps pointers to entries, the model keeps the entries themselves; no entry is shared.
- A sync response cut off at 1 MiB, and peers that supply each other's candidates.
- FedSyncTheorems.SyncIsCompleteIff: the peer's table only grows and cursor queries succeed; `FedSyncChanges`
  is about tables that change otherwise, with one snapshot for each candidate at a time.
- FedSync.ServeSnapshots: takes the peer's rows in the order in which its query sorts them; rows of one second
  may come in any order from round to round in `FedSyncChanges`.
- Peer registration, handshake, approval and heartbeat: single updates.
- Starvation.NoStarvation: says nothing of drains that are cancelled before their last row; the worker stops
  with them.
- Search.SearchTalent: takes the hit lists and the snapshot lookup as inputs; that hits name indexed candidates
  is the search engine's part.
