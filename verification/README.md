# sshstate: a verified model of replication, membership, planning and text edits

sshstate is an encrypted vault of SSH hosts and keys that several devices replicate through one
relay. This project models its hard parts in Dafny and proves what they promise:

* **The relay** (`RelayStore`, `RelayHistory`, `RelayPages`, `RelayAnswers`, `RelayDatabase`): the
  append-only log, the head table, durable outcomes, remembered ancestors, imports, pages, and exactly
  what is accepted and refused.
* **The device** (`VaultStore`, `VaultDatabase`, `SyncEngine`, `Pulling`, `PushAnswers`, `SyncRun`,
  `SyncHistory`, `SyncEnds`, `SyncMethods`): heads, outbox, cursors, the check of the relay's history,
  push, pull, and the cutoff of revoked writers, for any relay answers.
* **The whole system** (`Convergence`, `ConvergenceSteps`, `ConvergenceTheorems`, `ConvergenceOrder`,
  `Acceptance`, `MemberRuns`, `MemberTheorems`, `MemberWitness`): any number of devices against one relay
  history, one atomic step at a time, without and with a membership chain that grows meanwhile.
* **Rejoining** (`Rejoin`, `RejoinExact`, `RejoinOrder`, `RejoinAlways`, `RejoinWitness`,
  `RejoinMethods`): merging heads into a seeded or restored relay, that it completes, what survives it,
  and exactly when.
* **Membership** (`Membership`, `MembershipMeaning`, `MembershipChain`): the signed chain as a replay,
  what it says read off its events, and the object whose entries are changed in place.
* **Hosts** (`HostPlan`, `HostEdits`, `HostInventory`, `HostManager`, `HostMeaning`,
  `HostManagerMethods`): the ProxyJump planner and the local edits.
* **Configuration text** (`Config*`): reading, installing, commenting out and reactivating.
* **Request signatures** (`Signature*`): structured fields, the signature base and what it fixes.
* **Pairing** (`Pairing`, `PairingRuns`, `PairingAnswers`, `PairingMethods`): the relay's session table.

Every operation has a specification function on table values, about which the theorems are stated.
Operations that change state in the source are class methods or loops proved equal to those
functions. What a function takes and what it then leaves is stated beside it in terms of the log, the
events, the fields or the text alone, in both directions (the lemmas named `...Iff`, `...Sets`,
`...Means` and `...Says`). A SQL transaction is one atomic step: a copy of the tables that is committed or dropped.

Digests are symbolic: the digest of an envelope is injective, and other 32-byte values are foreign.
A signature is named by the key that made it. A conflict record's id is derived injectively from its
vault, source record and source mutation. Random ids, times, sizes and relay answers are parameters.

## Hypotheses of the main theorems

* Convergence and `EditsSurvive`: one relay history, no import and no rollback. Devices edit between
  their own syncs only, submit their outbox in any order, and draw ids that do not repeat. Replies may
  be lost, submissions may fail or take effect after their device gave up on them, syncs may be
  abandoned, and devices interleave freely. Pages are applied without the checks of membership,
  signature and cutoff.
* `FirstReceipt`, `PushAccepted`, `PushRejected`: a request is received for the first time when none of
  its mutation was received before.
* `PushAnswered`: also, each outbox is submitted by record and revision, as `Store.Outbox` lists it.
* `MemberRuns` adds the checks: events are appended to the relay's list at any time, each device reads
  the list between its syncs, and the relay checks a submission against the list it holds then and
  commits it at any later time.
* `ExecDescends`, `RejoinConservesHeads`, `RejoinConservesPending`: submitted ancestor sets hold only
  true ancestors.
* `HeadReachesRelayIff`, `PendingEnds`, `PendingSurvivesIff`, `ConflictHeadSurvivesIff`,
  `HeadSurvivesIff`: those sets also hold every ancestor, and nobody else moves the record's head (and
  that of the conflict record of it) during the rejoin.
* `RejoinCompletes`: the heads sent are sound, of the relay's vault and epoch, no larger than the relay
  takes, and by devices that are and stay in its list; revisions are within the signed range.
* `DeviceAfterRejoin`: the ancestor sets are true and complete, and nobody else moves the record's head.
* `RunConsistent`, `RunSound`: the vault starts consistent; every host, key and alias is otherwise arbitrary.
* `ConfigComesBack`: the text holds none of sshstate's own markers, it parses without problems, the
  include path is one line without the closing marker, and each chosen block has a directive.
* Pairing runs: the relay's clock does not go back and new session ids are new.
* `HandshakeCompletes`: no other request is made of the session, and the approver is enrolled throughout.
* `OnOneHistory`: no rejoin of the run completes.

## Findings

* A device stores an unsigned 64-bit revision in a signed column. `RemoteLowersIff` gives the exact
  condition under which a single remote change lowers a head. `AnyPageIsSafe` shows that a page as the
  engine filters it never does.
* Rejoining drops pending edits up to the head's revision. After a failed push two pending edits can
  share a revision, and then one of them is lost: `RejoinCanLoseASibling`, and exactly when:
  `PendingSurvivesIff`.
* A diverged conflict record is replaced by the relay's record of the same id without a copy:
  `RejoinReplacesConflict`, and exactly when: `ConflictHeadSurvivesIff`.
* A head that diverged is kept under the id of its copy, and settling a diverged conflict record of that
  id afterwards deletes the copy: `RejoinLosesHead`, and exactly when: `HeadSurvivesIff`.
* The digests a device has ever held are not ancestry: `SeenIsNotAncestry`. `ImportDescendsIff` says
  exactly when an import keeps the rows of a record descending.
* The head a rejection names is installed without being verified or compared: `RejectionLowersIff`, and
  what a push can do at most: `PushHeads`, `PushOutbox`.
* A page is refused while it holds a row by a device enrolled after its reader read the list:
  `LateWriterRefused`. Reading the list again mends that.
* The relay checks a submission's writer before the transaction that commits it, so a row can be
  committed after its writer's revocation. A device that has noted the revocation by then refuses the
  row, and every page with it: `CutoffRefusesRow`, `CutoffSticks`. Exactly when: `RowVerifiedIff`,
  `NotedIsPastIff`. It never happens when nothing of the revoked device was between check and commit:
  `QuietRevocation`. A page is refused for these two reasons only: `PageAppliesIff`.
* A line of the user's own that follows a commented block and reads like a commented directive is
  uncommented by reactivation: `OwnLineUncommented`, and exactly when: `ConfigComesBack`.
* A `Host` block without directives gets an end line before its first line, so it cannot be commented
  out: `BareBlockRefused`, `EndsBeforeIff`, `CommentRefusedIff`.
* The inner list of signature parameters ends at the first closing parenthesis, also inside a quoted
  component: `RoundTripIff`.
* The relay does not look at the action of a delivered membership event: `DeliveredMayNotEnrol`, and
  exactly which delivered events a chain can take: `DeliveredEnrolsIff`. The documentation speaks of an
  enrolment event (docs/protocol.md, section 5.3); the model follows the code.
* The signature parser accepts several spaces between components, though its error message speaks of a
  single space; the model follows the code.

## Model

| member | source | states |
|---|---|---|
| `Protocol.AncestorTransitive` | internal/protocol/record.go:116-131 | being an ancestor by parent digests is transitive |
| `Protocol.AncestorIsOlder` | internal/protocol/record.go:116-131 | along a lineage whose revisions rise by one, an ancestor has a smaller revision |
| `RelayStore.PutKeepsTables` | internal/relay/store.go:422-531 | whatever is submitted, sequence numbers stay 1..n, the head table stays the last row per record, every logged digest and parent stays remembered, every accepted outcome names its row; a row is added exactly on a fresh acceptance |
| `RelayStore.PutKeepsChain` | internal/relay/store.go:422-531 | submissions alone keep each record's rows a chain of revisions 1, 2, 3, ... with each parent digest that of the row before |
| `RelayStore.AcceptedIsLogged` | internal/relay/store.go:452-463 | an accepted answer, fresh or replayed, names the row that holds exactly that envelope |
| `RelayStore.CountIsHeadRev` | internal/relay/store.go:557-575 | the head's revision is the number of rows of its record |
| `RelayStore.HeadAtIsGreatest` | internal/relay/store.go:422-531 | at every length of the log, the head of a record has the greatest revision logged for it so far |
| `RelayStore.RevisionUnique` | internal/relay/store.go:422-531 | two rows of one record with one revision are one row |
| `RelayHistory.ExecKeepsTables` | internal/relay/history.go:212-366 | over every run of submissions, imports and enrolments the log is append-only and the numbering, head table, remembered ancestors and outcomes stay in step with it |
| `RelayHistory.ExecKeepsChain` | internal/relay/store.go:422-531 | over every run without imports each record's rows are also a chain of revisions |
| `RelayHistory.AnswersAreDurable` | internal/relay/store.go:577-630 | after any later history, resubmitting an envelope that still passes validation changes nothing and returns the same flag, code, sequence number and digest; the same mutation id with other content is refused |
| `RelayHistory.ExecRetains` | internal/relay/store.go:608-630 | no run changes or forgets a recorded outcome |
| `RelayHistory.SubmissionRuns` | internal/relay/store.go:422-463 | a submission whose writer is checked against the list read before its transaction, whatever other requests do in between, is a run of the relay too, so all that holds of the tables over every run holds of it |
| `RelayHistory.ImportOneDescends` | internal/relay/history.go:268-366 | with true claims an import keeps descent; imported means the old head is a strict ancestor of the new, behind means the sent envelope is a strict ancestor of the head |
| `RelayHistory.ExecDescends` | internal/relay/history.go:268-386 | over every run whose imports claim only true ancestors, rows of a record strictly descend by parent digest with rising revisions, and what is remembered is true |
| `RelayHistory.ImportDescendsIff` | internal/relay/history.go:268-366 | finding: whatever is claimed, an import keeps the rows descending if and only if the record had no head or its head is a strict ancestor of what was imported |
| `RelayHistory.ImportClassifies` | internal/relay/history.go:268-366 | with complete claims and memory the four answers are exact: imported, current, behind and diverged each hold if and only if the two envelopes stand in that relation |
| `RelayHistory.ExecRemembersAll` | internal/relay/history.go:130-150 | over every run with complete claims the relay remembers every ancestor of every head |
| `RelayDatabase.Relay.CheckRecord` | internal/relay/store.go:422-444 | the checks made before the transaction, the writer's against the list as it is then |
| `RelayDatabase.Relay.CommitRecord` | internal/relay/store.go:446-531 | the transaction of a checked submission makes exactly the step whose answers `AcceptedIff`, `RejectedIff` and `PutKeeps` give, under the list it was checked against, or changes nothing |
| `RelayDatabase.Relay.PutRecord` | internal/relay/store.go:422-531 | the checks, then whatever other requests do, then the transaction: exactly the submission of `SubmissionRuns`, whose step is pinned by `AcceptedIff` and its companions |
| `RelayDatabase.Relay.ImportRecords` | internal/relay/history.go:212-266 | the loop over a batch commits the whole batch and the history rename, or nothing: the step of `BatchRefusedIff`, `BatchAnswered` and `RenamedIff` |
| `RelayAnswers.AcceptedIff` | internal/relay/store.go:422-531 | a submission not answered before is accepted if and only if its sender is enrolled and not revoked and signed it, it is sound, of this vault and epoch and in range, and it creates its record or is the next revision sealed on the record's last row; the log then grows by exactly that envelope |
| `RelayAnswers.RejectedIff` | internal/relay/store.go:465-531 | it is rejected if and only if only that it does not follow the record's last row stands in its way; the answer names that row and the log stays |
| `RelayAnswers.RefusedWhy` | internal/relay/store.go:422-463 | a refusal changes nothing and its code is that of the first check that fails |
| `RelayAnswers.AnsweredAgainIff` | internal/relay/store.go:577-630 | a mutation already answered is answered again if and only if its sender still passes the checks and the request is the same one |
| `RelayAnswers.PutKeeps` | internal/relay/store.go:465-531 | an answered submission records its answer for that mutation and no other, and an accepted one becomes the head and is remembered with its parent; nothing else changes |
| `RelayAnswers.ImportAnswered` | internal/relay/history.go:268-366 | an import is refused if and only if it is unsound, of another vault or epoch, not by an enrolled device's key, or would be logged out of range; it is imported if and only if its record has no row or it claims the last row, current if and only if it is the last row |
| `RelayAnswers.RevocationIgnored` | internal/relay/history.go:388-402 | whether writers have been revoked since makes no difference to an import |
| `RelayAnswers.ImportKeeps` | internal/relay/history.go:268-374 | what each of the four answers writes: the claimed ancestors, the head, and the outcome unless the mutation was answered before |
| `RelayAnswers.BatchRefusedIff` | internal/relay/history.go:212-266 | a batch is refused, whole, if and only if it names a record twice or one of its items is refused by itself |
| `RelayAnswers.BatchAnswered` | internal/relay/history.go:212-266 | an accepted batch answers each item as it would be answered alone, and the log grows by exactly the imported items |
| `RelayAnswers.RenamedIff` | internal/relay/history.go:240-266 | a batch renames the history if and only if it imported something for a caller on that history |
| `RelayPages.Changes` | internal/relay/store.go:687-753 | the page is the longest run of rows after the cursor that fits the count and byte limits, never empty while rows remain; an out-of-range bound is refused |
| `RelayPages.PageFull` | internal/relay/store.go:687-753 | a page has at most the rows asked for, 200 when that is not between 1 and 500, and at most 4 MiB unless it is one row, and stops short of its bound only where the next row would be one too many |
| `RelayPages.PageUnique` | internal/relay/store.go:687-753 | that description determines the page |
| `RelayPages.PagesCoverOnce` | internal/syncengine/engine.go:192-215 | for every limit and size, while the log grows, the pages of a pull concatenate to exactly the rows after the cursor through the bound, each page that says there is more carries a row, the number of pages is bounded, and the last one ends at the bound |
| `VaultStore.RemoteLowersIff` | internal/vault/store_records.go:279-295 | finding: one remote change can lower a stored head if and only if that head's revision is at least the largest signed 64-bit number |
| `VaultStore.RemoteRises` | internal/vault/store_records.go:279-295 | below that bound a remote change replaces a head only by a greater revision |
| `VaultStore.LocalTakenIff` | internal/vault/store_records.go:29-92 | a local edit is applied if and only if it is sound and creates its record, is the stored head again, or is the next revision sealed on it; it is then the head and waits last in the outbox, once |
| `VaultStore.RemoteTakenIff` | internal/vault/store_records.go:279-295 | below the signed bound a remote change is applied if and only if it is sound and its record is new, or it is next, or it is further ahead |
| `VaultDatabase.Store.Outbox` | internal/vault/store_records.go:174-202 | the outbox is listed completely, ordered by record and then revision |
| `VaultDatabase.Store.ApplyLocalBatch` | internal/vault/store_records.go:213-231 | a batch of local edits is applied whole or not at all |
| `VaultDatabase.Store.ApplyRemoteChanges` | internal/vault/store_records.go:259-277 | a page's envelopes and its cursor are applied in one transaction or not at all |
| `VaultDatabase.Store.Heads` | internal/vault/store_records.go:407-426 | lists every stored head once, ordered by record |
| `VaultDatabase.Store.Drop` | internal/vault/store_records.go:428-458 | drops exactly the record's candidates up to the revision by their mutation ids, which every transaction keeps unique |
| `SyncEngine.AnyPageIsSafe` | internal/syncengine/engine.go:217-263 | whatever is served, misordered or repeated, an applied page leaves every head or replaces it by a served envelope of a greater revision, moves the cursor, and touches nothing else |
| `SyncEngine.ForkIff` | internal/syncengine/engine.go:240-263 | a page is refused as a fork if and only if it serves another envelope at a stored revision |
| `PushAnswers.PushHeads` | internal/syncengine/engine.go:157-190 | whatever is answered to a push, every head afterwards is the one before, an accepted candidate, a head some rejection named, or a copy kept of a rejected candidate |
| `PushAnswers.PushOutbox` | internal/syncengine/engine.go:157-190 | whatever is answered, an outbox entry leaves only by an answer about its mutation or by the rejection of a conflict record that names its record, and every entry added keeps a rejected candidate |
| `PushAnswers.RejectionLowersIff` | internal/syncengine/engine.go:173-187 | finding: a rejection can put a stored head back to a lower revision if and only if that revision is above 1 |
| `Pulling.RowsMerge` | internal/syncengine/engine.go:217-263 | a device that reads the relay's rows in order applies every one without error and holds, record by record, the newer of what it had and what it read |
| `ConvergenceSteps.NextKeeps` | internal/syncengine/engine.go:157-263 | every step of any device keeps the invariant of the whole system: log, heads, outboxes, cursors and phases |
| `ConvergenceTheorems.RunInv` | internal/syncengine/engine.go:37-76 | the invariant holds in every state of every run, with lost replies, failed pushes, abandoned syncs and requests that take effect after their device gave up on them |
| `ConvergenceTheorems.SyncConverges` | internal/syncengine/engine.go:192-263 | in every run every served page whose changes verify applies, without fork or parent mismatch, and when the pull ends the cursor is its bound and every record with nothing pending has the relay's head at that bound; which pages verify is the matter of `MemberTheorems.PageAppliesIff` |
| `ConvergenceTheorems.PushNeverMismatches` | internal/syncengine/engine.go:157-190 | in every run, acting on an answer that accepts the candidate or names a head succeeds |
| `ConvergenceOrder.PushAnswered` | internal/syncengine/engine.go:157-190 | in every run in which the outboxes are submitted in the order the database lists them, every rejection names a head, and acting on any answer short of an error succeeds |
| `Acceptance.FirstReceipt` | internal/relay/store.go:446-531 | in every run, a request the relay receives for the first time extends the log by exactly its envelope if it is entitled and follows the record's last row, and otherwise leaves the log |
| `Acceptance.PushAccepted` | internal/syncengine/engine.go:157-190 | in every run, a delivered push of a candidate sealed on the relay's head and never received before is accepted; the device then holds it as the head, no longer waiting, and goes on |
| `Acceptance.PushRejected` | internal/syncengine/engine.go:173-187 | in every run, a delivered push of one that only does not follow leaves the device with the relay's row as head and a copy of the edit waiting, kept against that row |
| `Acceptance.CopyIsTaken` | internal/syncengine/engine.go:173-187 | the relay takes the copy when it is submitted if and only if it has no row of that record yet |
| `ConvergenceTheorems.EditsSurvive` | internal/syncengine/engine.go:157-190 | in every state of every run, every host, key and known_host envelope ever applied locally is in its device's outbox, in the log, or kept in a conflict record that is: by record, mutation and content, a key as a secret, and naming the row that won |
| `MemberRuns.RunMemberInv` | internal/syncengine/engine.go:37-155 | in every run with enrolments and revocations, each list read at its device's own pace and each submission checked some time before it is committed: every row passed the check under the list of that moment, and every row from a noted position on was committed with the revocation in the relay's list |
| `MemberTheorems.RowVerifiedIff` | internal/syncengine/engine.go:265-310 | in every such state a device refuses exactly the rows by writers missing from the list it has read, and those past a noted revocation that were checked before the revocation was appended and committed after |
| `MemberTheorems.NotedIsPastIff` | internal/syncengine/engine.go:294-310 | in every run the rows of a revoked device all lie before the position at which a device noted it, if and only if none past it was checked before the revocation and committed after |
| `MemberTheorems.QuietRevocation` | internal/relay/store.go:372-396 | when a device is revoked while none of its submissions is between check and commit, ever after no row of it is past any position at which the revocation is noted |
| `MemberTheorems.CutoffSticks` | internal/syncengine/engine.go:192-310 | a device whose cutoff refuses a row it has not read never reads past that row on this relay history |
| `MemberTheorems.ListCoversLogIff` | internal/syncengine/engine.go:78-106 | in every run a device that reads the list refuses of the rows logged until then exactly those its cutoff refuses |
| `MemberTheorems.PageAppliesIff` | internal/syncengine/engine.go:192-310 | in every run a served page is applied with all its checks if and only if every writer in it is in the list its reader has read and the cutoff refuses none of its rows, and the page that ends a pull then leaves the relay's heads at the bound |
| `MemberWitness.LateWriterRefused` | internal/syncengine/engine.go:265-292 | finding: in a run of two syncs a page is refused because its writer was enrolled after its reader had read the list |
| `MemberWitness.CutoffRefusesRow` | internal/relay/store.go:442-446 | finding: a submission is checked, its writer is revoked, a reader notes that, the submission commits: the reader, which knows the writer, refuses the page |
| `MemberTheorems.RunProjects` | internal/syncengine/engine.go:37-76 | every state a run with a membership chain reaches is reached by a run of the replication system |
| `MemberTheorems.MemberEditsSurvive` | internal/syncengine/engine.go:157-190 | no edit is lost in runs with enrolments and revocations either |
| `SyncMethods.Engine.Push` | internal/syncengine/engine.go:157-190 | the loop over the outbox computes exactly the push of the model and stops at the first failure |
| `SyncMethods.Engine.ApplyServed` | internal/syncengine/engine.go:217-238 | the loop over a page applies it whole with its cursor, or leaves the store alone |
| `SyncMethods.Engine.Pull` | internal/syncengine/engine.go:192-215 | the loop over pages computes exactly the pull of the model |
| `SyncMethods.Engine.AdoptMembership` | internal/syncengine/engine.go:78-106 | the stored chain is replaced only by a valid extension of it |
| `SyncMethods.Engine.NoteRevocations` | internal/syncengine/engine.go:147-155 | notes each new revocation at the bound and moves no noted one |
| `SyncMethods.Engine.SyncOnce` | internal/syncengine/engine.go:37-76 | one whole sync: the list, the check of the history, the push of the whole outbox in order, the pull and the notes; stopped at the check it touches nothing, and it is stopped exactly when `StoppedIff` says |
| `SyncHistory.SyncStops` | internal/syncengine/engine.go:337-365 | against a relay that is behind, on another history, or on one of unknown standing, a sync changes nothing of the vault and applies nothing |
| `SyncHistory.SyncGoesOn` | internal/syncengine/engine.go:37-76 | against every other relay whose list is adopted the push is reached, and the pull if the push does not fail |
| `SyncHistory.StoppedIff` | internal/syncengine/engine.go:337-365 | whatever the relay would go on to answer, the vault is left alone if and only if it is stopped by that check |
| `SyncHistory.OnOneHistory` | internal/syncengine/engine.go:337-365 | over every run in which no rejoin completes, a device on a history stays on it, no row of another history is applied, and no sync with a relay on another history changes the vault |
| `SyncHistory.FirstHistory` | internal/syncengine/engine.go:359-365 | a device on no history comes onto one by exactly the syncs that get past the check with a relay that names one |
| `SyncEnds.PushSettlesAll` | internal/syncengine/engine.go:157-190 | a push that does not fail was answered about every candidate and leaves none of those waiting that were accepted or rejected |
| `SyncEnds.PullEnds` | internal/syncengine/engine.go:192-215 | a pull ends with the first page that says there is no more, having applied every page up to it and no other, at that page's cursor |
| `SyncEnds.PageSignedIff` | internal/syncengine/engine.go:265-310 | a page is refused for a signature if and only if some change of it is not by a listed device under its key, for this vault, and not past a noted revocation |
| `SyncEnds.AppliedAreSigned` | internal/syncengine/engine.go:217-292 | over every run of edits, syncs and rejoins, every change ever applied is of this vault and signed with a key under which the device's own chain enrolled its writer |
| `SyncEnds.RunLearns` | internal/vault/store_records.go:377-405 | over every run, a device forgets no digest it has seen and knows that of each of its heads and of its parent |
| `SyncRun.SyncKeepsPositions` | internal/syncengine/engine.go:37-76 | for any answers a sync only extends the stored chain and moves no noted revocation |
| `SyncRun.RevokedCutoff` | internal/syncengine/engine.go:294-310 | over every later run of edits, syncs and broken-off rejoins, for any answers, a noted position never moves and no change of that device shown above it is applied by a pull |
| `SyncRun.ChainGrows` | internal/syncengine/engine.go:78-106 | over every run of edits, syncs and rejoins, for any answers, the stored chain stays valid and only grows, and a device revoked in it stays revoked |
| `SyncRun.CompletedSyncNotes` | internal/syncengine/engine.go:68-74 | a sync that learns of a revocation notes it at the bound of the page that ended its pull, or not at all when the pull did not reach the bound |
| `SyncRun.MergeMeetsIff` | internal/syncengine/rejoin.go:180-214 | against a relay that takes exactly the valid events, the merge of two valid lists succeeds if and only if one extends the other, and then both sides hold the longer |
| `SyncMethods.Engine.MergeMembership` | internal/syncengine/rejoin.go:180-214 | the loops compare the lists as far as both go, upload the tail event by event and adopt the second read only if it is a valid extension, or leave the stored chain |
| `Rejoin.RejoinConservesHeads` | internal/syncengine/rejoin.go:37-157 | with true claims every head held before is afterwards in the log or an ancestor of the relay's head unless the relay diverged, and then, unless it is a conflict record or the relay also diverged on the device's conflict record of it, a conflict record in the outbox keeps its record, mutation and content; `RejoinOrder` says exactly when it is kept in that last case |
| `Rejoin.HistoryRenamedOnce` | internal/syncengine/rejoin.go:37-110 | however many batches, with no other importer the history is renamed at most once, and the device ends on the final id with cursor 0 |
| `Rejoin.SettleDropsIff` | internal/syncengine/rejoin.go:112-140 | exactly which pending edits settling an answer drops |
| `RejoinExact.RejoinConservesPending` | internal/syncengine/rejoin.go:112-157 | with true claims a pending edit its head descends from is in the log or behind the relay's head whenever the head is, and so unless the relay diverged, however busy the relay is |
| `RejoinExact.HeadReachesRelayIff` | internal/syncengine/rejoin.go:37-157 | with exact claims, and nobody else moving the record, a head is in the log or behind the relay's head afterwards if and only if the relay had no version of it or one of the two descended from the other |
| `RejoinExact.PendingEnds` | internal/syncengine/rejoin.go:112-157 | with exact claims, for all four answers: exactly when a pending edit ends in the outbox, exactly when in the log or behind the relay's head, and that no conflict record keeps it |
| `RejoinExact.PendingSurvivesIff` | internal/syncengine/rejoin.go:112-157 | with exact claims a pending edit survives if and only if, where the versions were comparable, it is newer than the head or an ancestor of it, and where they diverged, the relay's version is the edit or descends from it |
| `RejoinExact.ConflictHeadSurvivesIff` | internal/syncengine/rejoin.go:142-157 | with exact claims a conflict record survives a rejoin if and only if the relay had no version of it or one of the two descended from the other |
| `RejoinOrder.DivergedHeadKeptIff` | internal/syncengine/rejoin.go:112-157 | with true claims a diverged head that is not on the relay is kept in the outbox if and only if the relay did not diverge on the id of its copy, or that id was sent before the head |
| `RejoinOrder.HeadSurvivesIff` | internal/syncengine/rejoin.go:37-157 | with exact claims a host, key or known_host head survives if and only if the relay's version is comparable with it, or the device holds no conflict record under the id of its copy, or the relay's version of that one is comparable, or that id is sent before the head |
| `RejoinAlways.RejoinCompletes` | internal/syncengine/rejoin.go:37-110 | a rejoin whose heads are all by enrolled devices, revoked or not, and within range always completes, whatever other clients do meanwhile short of removing an enrolment |
| `RejoinAlways.DeviceAfterRejoin` | internal/syncengine/rejoin.go:112-157 | after a rejoin the device holds of each record its own version if that was comparable with the relay's, and the relay's otherwise; it is on the relay's history, reads it from the start, and has forgotten the noted positions |
| `SyncEnds.BrokenOffKeeps` | internal/syncengine/rejoin.go:37-140 | a rejoin that breaks off leaves heads and outbox as one completed by the answers it had settled would, and the device on the history it was on |
| `RejoinWitness.FailedPushLeavesSiblings` | internal/vault/store_records.go:359-375 | finding: after a failed push and another edit, two pending edits share a revision |
| `RejoinWitness.RejoinCanLoseASibling` | internal/syncengine/rejoin.go:37-140 | finding: a rejoin from that state, whatever is claimed, leaves the sibling in no outbox and no log, behind no head, and kept by nothing |
| `RejoinWitness.RejoinReplacesConflict` | internal/syncengine/rejoin.go:142-157 | finding: of two conflict records with one id and no descent between them the device's is replaced and nothing holds it |
| `RejoinWitness.RejoinLosesHead` | internal/vault/store_records.go:489-513 | finding: a head sent before the device's own conflict record of it, both diverged: the copy is queued and deleted again, and nothing keeps the head |
| `RejoinWitness.SeenIsNotAncestry` | internal/vault/store_records.go:377-405 | finding: sending every digest ever held can make the relay log a row that does not descend from the one before |
| `RejoinMethods.Rejoiner.Settle` | internal/syncengine/rejoin.go:112-140 | the loop over answers computes exactly the model's settling |
| `RejoinMethods.Rejoiner.SendHeads` | internal/syncengine/rejoin.go:60-105 | the batching loop sends every head once, in order, each with every digest seen of its record, in batches that hold one head or fit the byte bound |
| `RejoinMethods.Rejoiner.RejoinAll` | internal/syncengine/rejoin.go:37-110 | the rejoin sends exactly the stored heads, none twice, in the order of their ids, in such batches, and ends in the state of the model's batches followed by the restart of the history |
| `Membership.ChainLinked` | internal/membership/chain.go:71-148 | in every accepted chain the sequence number is the position, parents link, every device-signed event after the root is signed by a device authorized just before it, and the root is the genesis device |
| `Membership.SomeoneAuthorized` | internal/membership/chain.go:150-200 | at every point of every accepted chain at least one device is authorized |
| `Membership.EnrolledOnce` | internal/membership/chain.go:150-172 | no device id is enrolled twice, so none returns after revocation |
| `Membership.MembersPersist` | internal/membership/chain.go:150-190 | keys and places never change and a revoked device stays as it was |
| `Membership.Sponsors` | internal/membership/chain.go:163-171 | following enrolled-by from any device ends at the root or a recovery enrolment, along falling enrolment numbers |
| `Membership.HeadDeterminesChain` | internal/membership/chain.go:71-112 | two valid chains under one genesis with equal head digests are equal event for event |
| `MembershipMeaning.TableSays` | internal/membership/chain.go:150-190 | in every accepted chain a device is in the table if and only if an event enrols it, with that event's key, recipient, time, sponsor and number, and it is revoked if and only if an event revokes it, at that event's time and number |
| `MembershipMeaning.OrderIsEnrolment` | internal/membership/chain.go:150-171 | the devices are listed each once, in the order of their enrolments |
| `MembershipMeaning.NextEventIff` | internal/membership/chain.go:71-190 | an accepted chain is extended by exactly the events that are sound, next in number, linked to the last one, signed with the recovery key or an active member's own key, and that enrol a device never enrolled or revoke an active one that is not the last |
| `MembershipMeaning.FirstEventIff` | internal/membership/chain.go:106-125 | a chain starts with exactly the enrolment of the first device as the genesis pins it, signed with the first key |
| `MembershipChain.Chain.AppendAgrees` | internal/membership/chain.go:48-54 | appending to a validated chain and validating the longer list are refused together and otherwise give chain objects in the same state |
| `MembershipChain.Chain.Validate` | internal/membership/chain.go:32-46 | the loop returns a chain object if and only if the list is valid, and then its replay; what the replay then says of each device is `TableSays`, and which lists it accepts `FirstEventIff` and `NextEventIff` |
| `MembershipChain.Chain.Append` | internal/membership/chain.go:48-54 | returns the appended chain as new objects and leaves the original, its devices included, unchanged; accepted exactly as `NextEventIff` says |
| `MembershipChain.Chain.Clone` | internal/membership/chain.go:56-69 | a deep copy: same state, no shared device |
| `MembershipChain.Chain.ApplyEvent` | internal/membership/chain.go:71-112 | updates the chain in place exactly as the replay does, or refuses and changes nothing; accepted exactly as `NextEventIff` says |
| `MembershipChain.Chain.AuthorizedCount` | internal/membership/chain.go:192-200 | counts the devices that are not revoked |
| `HostPlan.JumpLoops` | internal/daemon/generate.go:208-225 | terminates, and is true if and only if the host's jump chain returns to it |
| `HostPlan.OmitUnreachable` | internal/daemon/generate.go:172-197 | the fixpoint terminates with exactly the usable hosts kept, one omission and one true reason each for the rest |
| `HostPlan.PlanHosts` | internal/daemon/generate.go:107-206 | renders exactly the hosts with a unique alias whose jump chain runs through uniquely named hosts to one without a jump; each other host gets exactly one omission issue with a true reason; each missing key a notice; it fails only on an unreadable offered key |
| `HostPlan.RenderedIsClosed` | internal/daemon/generate.go:172-206 | a rendered host's jump target is rendered, and no rendered host is on a loop |
| `HostPlan.OrderIrrelevant` | internal/daemon/generate.go:107-206 | which hosts are rendered does not depend on their order |
| `HostPlan.UsableUnfolds` | internal/daemon/generate.go:172-197 | a host is usable if and only if its alias is unique and it has no jump or one usable target |
| `HostMeaning.RenderedMeans` | internal/daemon/generate.go:131-206 | the renderings are of exactly the usable hosts, in order, each with the host's alias, name, user, port and jump, and its keys that are in the vault, in order, in slots from 1 |
| `HostMeaning.MissingMeans` | internal/daemon/generate.go:140-149 | the notices name exactly the keys that a host offers and the vault does not have |
| `HostEdits.JumpCycle` | internal/vault/manager_ops.go:226-242 | terminates, and is true if and only if the start lies on a cycle |
| `HostEdits.CycleIsLoop` | internal/vault/manager_ops.go:215-242 | the walk over alias strings finds exactly the loops of the host list |
| `HostEdits.NoNewLoops` | internal/vault/manager_ops.go:133-356 | a change brings a loop only if a host it wrote is on one |
| `HostInventory.AddExact` | internal/vault/manager_ops.go:133-213 | adding to a consistent vault is accepted if and only if the vault stays consistent |
| `HostInventory.EditExact` | internal/vault/manager_ops.go:253-356 | an edit of a consistent vault is accepted if and only if the vault stays consistent |
| `HostInventory.ImportExact` | internal/vault/manager_import.go:27-117 | an import is accepted if and only if each spec is sound and the vault stays consistent |
| `HostInventory.RemoveExact` | internal/vault/manager_remove.go:28-68 | a host can be removed if and only if the vault stays consistent |
| `HostInventory.RemoveKeyExact` | internal/vault/manager_remove.go:69-84 | a key can be removed if and only if the vault stays consistent |
| `HostInventory.ConsistentAllUsable` | internal/daemon/generate.go:107-206 | every host of a consistent vault can be rendered |
| `HostManager.ImportTwice` | internal/vault/manager_import.go:27-185 | importing the same specs again is accepted and changes nothing |
| `HostManager.RunConsistent` | internal/vault/manager_ops.go:133-356 | every run of local operations keeps the vault consistent, so the planner omits nothing |
| `HostMeaning.EditSets` | internal/vault/manager_ops.go:253-356 | an accepted edit changes exactly the host it names, in its place: the fields it names are set, an empty jump clears it, and every other field stays |
| `HostMeaning.AddSets` | internal/vault/manager_ops.go:133-213 | an accepted addition adds one host at the end, with the fields given and port 22 where none was |
| `HostMeaning.RemoveSets` | internal/vault/manager_remove.go:28-68 | an accepted removal takes out the one host and remembers it as gone |
| `HostMeaning.KeysSet` | internal/vault/manager_remove.go:69-84 | a removed key is gone and nothing else changes; an added one is in the vault |
| `HostMeaning.GoneStays` | internal/vault/manager_remove.go:10-84 | over every run no removed host or key comes back |
| `HostMeaning.ImportAdds` | internal/vault/manager_import.go:27-185 | an import adds only hosts its specs describe under aliases that were free, and only preserved copies of specs that differ from the host of their alias |
| `HostMeaning.ImportSettles` | internal/vault/manager_import.go:119-185 | each spec of an import ends as a new host, as the host that has it, or preserved beside the vault's version, and is reported so |
| `HostMeaning.RunSound` | internal/vault/payload.go:26-76 | over every run every host has a sound alias, name and user, a port from 1 to 65535, jumps if at all through another host of the vault, and offers only keys the vault has |
| `HostMeaning.HostSoundIff` | internal/vault/payload.go:26-76 | the payload checks accept exactly those hosts |
| `HostManagerMethods.JumpReturns` | internal/vault/manager_ops.go:215-224 | whether the new jump would come back to its alias, leaving out the edited record |
| `HostManagerMethods.Manager.AddHost` | internal/vault/manager_ops.go:133-213 | accepts and changes exactly as the model says, refusing leaves everything |
| `HostManagerMethods.Manager.EditHost` | internal/vault/manager_ops.go:253-356 | accepts and changes exactly as the model says, refusing leaves everything |
| `HostManagerMethods.Manager.ImportHosts` | internal/vault/manager_import.go:27-185 | imports all or nothing, reports each spec, and a dry run changes nothing |
| `HostManagerMethods.Manager.RemoveHost` | internal/vault/manager_remove.go:10-68 | removes, refuses while something jumps through it, and does nothing for a host already gone |
| `HostManagerMethods.Manager.RemoveKeyRecord` | internal/vault/manager_remove.go:14-84 | removes, refuses while a host offers it, and does nothing for a key already gone |
| `HostManagerMethods.SameHostIff` | internal/vault/manager_import.go:187-206 | the field-by-field comparison is equality of content |
| `ConfigTokens.BlockLineFound` | internal/sshconfig/comment.go:123-140 | every line of a host block, commented out, reads as a commented block line, whatever white space surrounds it |
| `ConfigParse.BlocksSpan` | internal/sshconfig/parse.go:50-189 | every block of a configuration that parses spans only blank lines, comments and imported directives |
| `ConfigBlocks.EndsBeforeIff` | internal/sshconfig/parse.go:50-189 | a parsed block stands at its Host line, and the parser ends it before that line if and only if no directive stands between it and the next Host line |
| `ConfigWords.TokensBack` | internal/sshconfig/parse.go:260-293 | a line written word by word, bare or quoted, reads back as its words, whatever comment follows |
| `ConfigWords.DirectiveBack` | internal/sshconfig/parse.go:231-258 | a keyword and its values read back in each of the three forms of a directive |
| `ConfigWords.UnclosedQuote` | internal/sshconfig/parse.go:260-293 | an unclosed quote makes a line malformed |
| `ConfigMeaning.ReadIffSound` | internal/sshconfig/parse.go:50-229 | a configuration is read without a problem if and only if each directive is sound where it stands: a Host line names one new literal alias, any other is supported, inside a block, with one good value, and there for the first time unless it is an identity |
| `ConfigMeaning.ImportMeans` | internal/sshconfig/parse.go:50-229 | the blocks of an import are exactly those of its Host lines, each with the alias, name, user, port, jump and identities given on its lines |
| `ConfigTheorem.ParseInstalled` | internal/sshconfig/parse.go:50-189 | parsing with the include installed gives the same blocks and problems four lines further down |
| `ConfigInstall.UninstallBack` | internal/sshconfig/install.go:33-97 | uninstalling gives back whatever the include was put before |
| `ConfigInstall.UninstallAmid` | internal/sshconfig/install.go:67-97 | wherever the block has come to stand, uninstalling takes out the block and the blank line after it and leaves everything before and after |
| `ConfigInstall.UninstallNothing` | internal/sshconfig/install.go:67-77 | a configuration without the block is left alone |
| `ConfigInstall.InstallTwice` | internal/sshconfig/install.go:33-65 | installing again changes nothing |
| `ConfigComment.ReactivateIs` | internal/sshconfig/comment.go:79-121 | reactivating what was commented out gives back each line, but for own lines that read as part of a run before them |
| `ConfigComment.RestoredIff` | internal/sshconfig/comment.go:79-121 | the lines come back if and only if no line after a commented run reads as a commented block line |
| `ConfigTheorem.CommentRefusedIff` | internal/sshconfig/comment.go:39-48 | finding: of parsed blocks, commenting out refuses exactly a choice with a block that has no directive before the next Host line |
| `ConfigWitness.BareBlockRefused` | internal/sshconfig/comment.go:39-48 | finding: a block directly followed by another Host line cannot be commented out |
| `ConfigTheorem.ConfigComesBack` | internal/sshconfig/comment.go:20-140 | for every untouched configuration that parses and every choice of its blocks with a directive, install, comment out, uninstall and reactivate give back the text if and only if no line after a commented run reads as a commented block line |
| `ConfigWitness.OwnLineUncommented` | internal/sshconfig/comment.go:79-140 | finding: a block followed by the user's own commented Host line does not come back as it was |
| `ConfigMethods.TokenizeLine` | internal/sshconfig/parse.go:260-293 | the byte loop computes the tokens the theorems are about |
| `ConfigMethods.ReadDirectiveOf` | internal/sshconfig/parse.go:231-258 | the keyword and arguments, or malformed |
| `ConfigMethods.ParseConfig` | internal/sshconfig/parse.go:50-189 | the loop over lines gives the blocks, or the problems |
| `ConfigMethods.MarkLines` | internal/sshconfig/comment.go:38-48 | marks exactly the lines of the spans, or refuses a span the file does not have |
| `ConfigMethods.CommentOutFile` | internal/sshconfig/comment.go:20-63 | the edit of the text the theorems are about |
| `ConfigMethods.ReactivateFile` | internal/sshconfig/comment.go:79-121 | the nested loops over commented runs compute the edit the theorems are about |
| `SignatureFields.UnquoteEscape` | internal/httpsig/sfv.go:137-180 | reading a quoted string gives it back, whatever follows |
| `SignatureFields.UnquoteSound` | internal/httpsig/sfv.go:154-180 | whatever is read as a quoted string was written by quoting it |
| `SignatureParams.ParseParamsBack` | internal/httpsig/sfv.go:92-135 | a printed parameter list reads back |
| `SignatureParams.ParseParamsSound` | internal/httpsig/sfv.go:92-135 | a parameter list is read only from its own text |
| `SignatureParams.RoundTripIff` | internal/httpsig/sfv.go:21-135 | printed parameters read back if and only if no component contains a closing parenthesis, and are otherwise refused, never misread |
| `SignatureParams.ParseStable` | internal/httpsig/sfv.go:67-135 | whatever is accepted can be printed, and its print reads back to the same parameters |
| `SignatureBase.FieldsOneLine` | internal/httpsig/base.go:128-144 | however a field is folded, its covered value has no line break |
| `SignatureBase.BaseUnambiguous` | internal/httpsig/base.go:68-126 | two requests whose line parts have no line break and that share a signature base cover the same components with the same values under the same parameters |
| `SignatureCovers.RequestFixed` | internal/httpsig/base.go:101-126 | two requests with one base that covers them agree on method, authority, path and query |
| `SignatureCovers.ProfileFixes` | internal/httpsig/profile.go:43-53 | two requests with one base over what the profile covers also agree on vault, device, content digest and idempotency key |
| `SignatureCovers.SameBaseIff` | internal/httpsig/base.go:69-126 | two requests have one base if and only if their parameters and covered values are the same |
| `SignatureCovers.BaseLaidOut` | internal/httpsig/base.go:69-99 | the base is a line for each component, its quoted name and its value, and then the line of the parameters |
| `SignatureCovers.CoveredIff` | internal/httpsig/base.go:101-126 | a component can be covered if and only if it is one of the four, or a field of the request under a name without capitals |
| `SignatureCovers.PrintedIff` | internal/httpsig/sfv.go:21-56 | parameters can be printed if and only if every string is visible ASCII or spaces and every name is sound |
| `SignatureMethods.QuoteString` | internal/httpsig/sfv.go:137-152 | the loop prints the quoted string, or refuses a character outside the range |
| `SignatureMethods.ParseQuotedString` | internal/httpsig/sfv.go:154-180 | the loop reads what the inverse laws are about |
| `SignatureMethods.PrintValue` | internal/httpsig/sfv.go:21-56 | the loops print what the round trip is about |
| `SignatureMethods.ParseSignatureParams` | internal/httpsig/sfv.go:67-135 | the loops read what the round trip is about |
| `SignatureMethods.MakeBase` | internal/httpsig/base.go:68-99 | the loop builds the base, or refuses a repeated, unknown, missing or unprintable component |
| `PairingRuns.RunOk` | internal/relay/pairing.go:177-309 | in every run under a clock that never goes back, confirmations are of their session, the joiner's by the offered key over the approver's transcript; a bundle is there only with both and with an event for that joiner and transcript; a finished session has all of them |
| `PairingRuns.RunForward` | internal/relay/pairing.go:322-358 | from any point of a run on, confirmations, event, bundle and genesis are each written once, the snapshot is frozen with the bundle, and a finished session never changes |
| `PairingRuns.NothingAfterExpiry` | internal/relay/pairing.go:142-175 | nothing is written to a session at or after its expiry |
| `PairingRuns.RunTells` | internal/relay/pairing.go:177-278 | each session was opened, approved by a device authorized in the list read for that request, joined, delivered and acknowledged in that order, as far as it got, each before its expiry; the approver was enrolled and not revoked at that moment, and signed with its key in the chain, or, were it the joiner itself, with the key it offered |
| `PairingRuns.RunOneLive` | internal/relay/pairing.go:75-100 | a device never has two attempts that could both still be completed |
| `PairingAnswers.AdvanceDoneIff` | internal/relay/pairing.go:311-348 | a request is taken if and only if the session is of this vault, not finished, not past its expiry and admits it; it then writes its own parts and the state of that row only |
| `PairingAnswers.ApprovedSigned` | internal/relay/pairing.go:280-309 | an approval taken from a device other than the joiner is signed with that device's key in the chain, and the device is not revoked |
| `PairingAnswers.OpenedIff` | internal/relay/pairing.go:49-109 | an attempt is opened if and only if the offer is valid, for this vault, signed with the key it offers, of a device the chain never named, and no attempt of that device is going on; it is open for ten minutes |
| `PairingAnswers.HandshakeCompletes` | internal/relay/pairing.go:49-278 | however other sessions interleave, a handshake carried out in time gets through each of its requests, and the session then holds exactly the parts sent; after the last it is completed |
| `PairingRuns.DeliveredEnrolsIff` | internal/relay/pairing.go:223-250 | the event a session stored names its joiner and the transcript both confirmed, and is well-formed if and only if its number, parent and authority are in order and it enrols with a key and a recipient |
| `PairingRuns.DeliveredMayNotEnrol` | internal/relay/pairing.go:223-250 | finding: the relay stores a revocation that names the joiner and the transcript |
| `PairingMethods.PairingStore.CreatePairing` | internal/relay/pairing.go:49-109 | opens exactly when the offer is sound and the device has no active attempt |
| `PairingMethods.PairingStore.ConfirmApprover` | internal/relay/pairing.go:177-199 | makes exactly the model's step or refuses with its reason; taken exactly as `AdvanceDoneIff` and `ApprovedSigned` say |
| `PairingMethods.PairingStore.ConfirmJoiner` | internal/relay/pairing.go:201-221 | makes exactly the model's step or refuses with its reason |
| `PairingMethods.PairingStore.Complete` | internal/relay/pairing.go:223-250 | makes exactly the model's step or refuses with its reason |
| `PairingMethods.PairingStore.PutPairingSnapshot` | internal/relay/pairing.go:252-268 | makes exactly the model's step or refuses with its reason |
| `PairingMethods.PairingStore.AcknowledgePairing` | internal/relay/pairing.go:270-278 | makes exactly the model's step or refuses with its reason |
| `PairingMethods.PairingStore.VerifyConfirmation` | internal/relay/pairing.go:280-309 | the signer is the offered key for the joiner, else the chain's key of an authorized device |

## Left out

- Cryptography, canonical JSON and envelope sealing: replaced by injective digests and named signers.
- SQLite, files, permissions, symbolic links, backups and concurrent-change detection: only contents and transaction boundaries are modelled.
- The HTTP layer, the client, the command line, the daemon's control socket and report counters.
- Convergence across imports and across a relay rolled back from a backup: an import may log a row that does not descend, and rollback is only partly detected.
- Sequence numbers beyond the signed 64-bit range.
- Creating and seeding a vault, the ancestor backfill at start-up, and joining from a snapshot: only the states after them appear.
- The order of record ids is one fixed total order, where the program compares their strings.
- Rejoin.RejoinConservesHeads: assumes true ancestor sets, because the program's own sets can break it, as `SeenIsNotAncestry` shows.
- RejoinMethods.Rejoiner.SendHeads: takes the encoded sizes as a parameter, since they come from JSON encoding.
- The signature check on the relay's version of a diverged record (internal/syncengine/rejoin.go:159-178), which can only stop a rejoin.
- RejoinMethods.Rejoiner.RejoinAll: runs without other clients between its batches; `Rejoin.FlushAll` allows them.
- ConvergenceTheorems.PushNeverMismatches: for an identity with key epoch at least 1, as every unlocked device has.
- Listing, describing, resolving and discarding conflicts by the user, and the export snapshot (internal/vault/manager_sync.go:144-605).
- Malformed key ids, payload format versions and unreadable payloads; record ids and key ids are plain numbers in the host model.
- HostManagerMethods.Manager.ImportHosts: says whether there are problems, not their texts, and looks at all specs where the program skips those already found unsound; the program applies the accepted envelopes one transaction at a time (internal/vault/manager_import.go:174-178), so a store that fails midway leaves a part of them, which is not covered.
- Key fingerprints: adding a key is a step that adds a new id.
- Trust planning and known_hosts matching.
- Lower case is that of the letters A to Z; text is a sequence of characters, so invalid UTF-8 is not represented.
- ConfigMethods.ParseConfig: reports each problem's line and kind, not its text.
- The order of aliases and the line count that commenting out and reactivating report.
- Header names are keyed by their lower-case form; parameter values of types other than string and 64-bit integer; dictionary members and byte sequences of the signature headers.
- Nonce stores, clock skew and the verification profile around the signature base.
- Pairing offers and approvals are opaque apart from the fields the relay compares; the endpoints' own transcript checks are not modelled.
