# IncomUdon Management Service: a verified model

This project models the parts of the Management Service that have to stay right over time, and proves what they
keep over every run:

- the **revocation outbox** of the Private Control Link: a bounded pending map mirrored by an atomically replaced
  file, the session loop that sends each command once per connection, crashes and restarts;
- the **revocation pipeline** around it: requests in flight, grants, ACL reload with its 90-minute deny window;
- the **authorizer loader** and the exact diff of two authorizers;
- the **index of issued grants** and the permissions grants carry;
- **snapshot reassembly** and the **live projection** of Relay state;
- the **live event hub**;
- the **frame codec** and the **strict JSON scanner**.

## How it is built

| file | what it holds |
|---|---|
| `Text.dfy`, `Sorting.dfy`, `Collections.dfy`, `Wrappers.dfy` | text order, decimal text, text keys, sorting, stock datatypes |
| `Commands.dfy`, `CommandStore.dfy` | messages and their validity, their text and its size, the durable store |
| `Fields.dfy`, `Base64Url.dfy`, `CommandText.dfy` | what the checks on fields accept, canonical base64url, the text of a command determines it |
| `Outbox.dfy` | the client's queue: what each operation does, and the class that does it |
| `World.dfy`, `Guarantees.dfy` | client, disk and Relay as a transition system; what every run keeps |
| `LoopLaws.dfy` | what a message or a wake-up sets off in any run, and how a session with an answering Relay goes on |
| `ReplyLaws.dfy`, `StoreLaws.dfy` | which replies a session takes, which files open and which batches are accepted, field by field |
| `Authorizer.dfy`, `AuthorizerLaws.dfy`, `AclReload.dfy` | the loader, what loading means, the diff and the reload |
| `TableLaws.dfy`, `ReloadLaws.dfy` | which tables load and what each row becomes; what the diff lists and what is queued for it, field by field |
| `ReloadLimit.dfy` | tables whose reload never takes effect |
| `Grants.dfy`, `GrantApi.dfy`, `RevocationApi.dfy` | grants and their index, the grant endpoint, the revocation endpoint |
| `Pipeline.dfy`, `Coverage.dfy` | requests, grants, reloads and the outbox interleaved; what covers a grant in every run |
| `GrantRuns.dfy` | which requests get a grant in a run, and the row behind every grant |
| `RowLoss.dfy` | who takes a grant's row away, in every run |
| `LateGrants.dfy`, `LateRun.dfy`, `AnsweredRun.dfy` | exactly when a grant ends up uncovered, and concrete runs |
| `Snapshot.dfy`, `LifecycleEvents.dfy`, `ManagementState.dfy`, `LiveEvents.dfy` | reassembly, projection, event hub |
| `SnapshotOrigin.dfy` | which chunks a session takes, and which chunks an applied snapshot is made of |
| `ServedState.dfy` | sessions of interleaved chunks and events, and what the served state is made of |
| `Frames.dfy`, `JsonScanner.dfy` | framing and scanning |

Objects that the program updates in place are classes (`CommandStore`, `PrivateControlClient`, `ManagementApi`,
`GrantIssuer`, `SnapshotReassembly`, `ManagementState`, `LiveEventHub`, `Connection`, `Decoder`). A method either
states outright what it leaves behind, or is proved equal to a function of its inputs and the old state. The
transition systems are built from the same functions: an event applies the function that its method is proved equal to,
and a whole sending pass, which the runs take one command at a time, is `Worlds.PassRuns`.

A run is a list of events. Everything the environment decides is part of an event: how a write to the file ends,
in which order a map is walked, what the clock reads, what the Relay says, when the process dies. A failing write
may leave the old file or the new one, because the directory is synchronised after the rename; so the file and the
pending map differ in reachable states, and durability is stated about each command instead.
Clocks count nanoseconds; `Unix` truncates to seconds as the program does. In a run the clock does not go back.
Message IDs and grant hashes are fresh: they come from random bytes.

What a function decides is also stated without it: the modules with `Laws` in their name, `Fields`, `SnapshotOrigins` and
`GrantApi` say in the entities' own fields, with the numbers and words written out, which inputs are accepted and what
each one becomes.

## Results that qualify what the code promises

- A command whose enqueue reported an error can still be pending after a restart (`Guarantees.RefusedCommandMayReturn`).
  In any run it is, iff its batch passed every check, the write failed after the rename and the deadline is ahead
  (`Guarantees.RefusedReturnsIff`), and nothing else lets a refused command in (`Guarantees.OnlyFailedSyncRevives`).
- A reload that takes away more than 64 (service, channel) pairs, or more than fit beside the pending commands, never
  takes effect: the batch is refused and the old authorizer stays (`AclReload.ReloadSucceedsIff`).
  `ReloadLimit.SixtyFivePairsNeverReload` gives such tables.
- Coverage is not unconditional. A request keeps the service record it was authenticated with for as long as its body
  takes, and a reload may take long between its clock sample and its swap. Once a grant's row is lost, some continuation
  leaves the grant alive with no revocation standing against it (none outstanding, and every answered one past its deny
  window) iff the deny window of every revocation against its service and channel ends before the grant does
  (`LateGrants.CoverageFailsIff`; before the call, `LateGrants.SigningIsSafeIff`). For the longest lifetime that means
  signing later than 1800 seconds after the reload's clock sample (`Coverage.DenyWindowCoversIff`). It happens without
  a connection (`LateRun.GrantEndsUncovered`) and with a Relay that acknowledges at once
  (`AnsweredRun.AcknowledgedGrantEndsUncovered`).
- "Answered" includes a refusal: the client completes a command on an error reply, and nothing queues a reload's
  revocation again. `AnsweredRun.RefusedRevocationCounts` is a run in which a grant counts as covered that way.
- "No empty channel" is not kept: a snapshot may list a channel without participants, and an event that moves nobody
  makes an entry. `ManagementStates.EmptyEntryMeaning` says for every history which channels have an empty entry;
  `ServedStates.EmptyChannelIsServed` is a valid snapshot that makes one.
- The repository's own README says removed or reduced scopes are revoked; the code revokes on every change of a row, also a
  wider one, and the model follows the code. It also says `202` means the command remains queued; at the moment of
  the answer the Relay may already have answered, so `RevocationApi.PendingIsDurable` says "durable, answered or
  seen to be past its deadline", from the answer on.

## Model

| member | source | states |
|---|---|---|
| `Guarantees.Durability` | private_control.go:549-639 | over every run with crashes, restarts and failed writes, a command whose enqueue returned success is on disk (and pending while the process is up) at every later point, unless the client took a valid reply naming it (an acknowledgement with its own deadline) or has itself seen its deadline pass, in a sending pass or at a restart |
| `Guarantees.NoLostWakeUp` | private_control.go:354-371 | whenever the loop waits, each pending command was written on this connection or the wake-up is enabled |
| `LoopLaws.ATurnSendsTheQueue` | private_control.go:354-371 | in any run, whatever brings the loop to its head (an event or chunk that is taken, a reply that settles a command, the wake-up), a pass in which nothing fails then leaves it waiting with nothing unsent: of the queue exactly the commands written before or with their deadline ahead stay, and exactly these have been written |
| `Guarantees.WrittenOnce` | private_control.go:462-480 | no message ID is written twice on a connection, and a written command stays pending until the client takes a valid answer to it: expiry removes only unsent commands |
| `Guarantees.Agreement` | private_control.go:423-455 | with a Relay that answers each frame once and echoes its deadline, no session meets an unexpected reply, and all that is written and unanswered is pending |
| `LoopLaws.HonestReplyIsTaken` | private_control.go:423-455 | if the Relay only answers frames, each once and with its own deadline, every reply read in any run settles a command, and the session goes on unless the write fails |
| `LoopLaws.UnexpectedIff` | private_control.go:423-455 | in any run, a reply counts as unexpected iff it is well formed, does not refuse the snapshot and fits nothing pending |
| `Guarantees.OneResultPerCommand` | private_control.go:612-638 | the result slot of a pending command is empty, so no result is dropped by the default branch |
| `Guarantees.AcknowledgementIsOwn` | private_control.go:482-496 | an acknowledgement found in a command's slot was read from the Relay, names that command and repeats its deadline |
| `Guarantees.CompletionIsDurable` | private_control.go:599-639 | in any run, an answer that settles a command removes exactly it from queue and file and fills its empty slot; if the write fails, queue and slots stay and the session ends |
| `ReplyLaws.ReplyIsTakenIff` | private_control.go:423-455 | in any run, the session goes on after a reply iff the reply names a pending command, as an acknowledgement of its own deadline that is applied, or already expired with both counts 0, or as a refusal with one of the eight codes, and the write commits; then exactly that command has left queue and file and its slot holds the reply; otherwise the session ends and the queue stays |
| `ReplyLaws.WhyItEnds` | private_control.go:423-455 | for any queue: which replies are malformed, which refuse the snapshot, which fit nothing pending, and when the write decides |
| `Guarantees.CompletedNeverReturns` | private_control.go:599-639 | a completed command is never again in the queue or the file, whatever crashes, restarts and failed writes follow |
| `Guarantees.ReachableStoreReopens` | private_control_outbox.go:28-65 | no reachable store is refused at start-up; a restart restores exactly the commands whose deadline is ahead, and comes up exactly when no rewrite was needed or it committed |
| `Guarantees.RefusedReturnsIff` | private_control.go:576-581 | in any run, a command of a refused batch is pending after a crash and a restart iff the batch passed every check, the write failed after the rename and the deadline is ahead |
| `Guarantees.OnlyFailedSyncRevives` | private_control_outbox.go:143-158 | in every run, a command in the queue or the file that no enqueue accepted comes from an enqueue whose directory sync failed after the rename |
| `Guarantees.RefusedCommandMayReturn` | private_control_outbox.go:143-158 | a run in which a command refused by enqueue is pending after a restart |
| `Worlds.StepKeepsInv` | private_control.go:354-639 | every event keeps the inductive invariant: valid images, empty slots, durability, no lost wake-up, written once, agreement |
| `Worlds.RunKeepsInv` | private_control.go:354-639 | the invariant holds in every reachable state |
| `Worlds.PassRuns` | private_control.go:354-357 | beginning a pass at the loop head, taking its steps and ending it leaves queue, file, frames and connection as `SendPendingCommands` does |
| `Outbox.PrivateControlClient.constructor` | private_control.go:201-211 | a client starts from what the opened store restored, with empty slots and no wake-up |
| `Outbox.PrivateControlClient.EnqueuePendingCommands` | private_control.go:549-587 | the validation loops, the insertion, the write and the rollback give exactly the new queue, file and error of `Enqueue` |
| `Outbox.PrivateControlClient.CompletePendingCommand` | private_control.go:599-618 | deletion, write, rollback and delivery give exactly `Complete` |
| `Outbox.PrivateControlClient.CompletePendingAcknowledgement` | private_control.go:620-639 | an acknowledgement completes a command only when its deadline matches |
| `Outbox.PrivateControlClient.HandleSessionReply` | private_control.go:423-455 | acknowledgements and errors: which command completes, which replies end the session and why |
| `Outbox.PrivateControlClient.SendPendingCommands` | private_control.go:462-480 | the loop over a list of the queue, in any order, ends with the queue, file, slots, sent set, frames and outcome of `Pass` |
| `Outbox.PrivateControlClient.PendingCommands` | private_control.go:589-597 | lists every pending command once |
| `Outbox.PassMeaning` | private_control.go:462-480 | for any order of the queue: the frames are exactly unsent commands with their deadline ahead, each once; what left the queue was unsent, had lapsed, and got its deadline result; the pass fails only at a write or a lapse that failed, and otherwise everything pending is sent and the file follows the queue |
| `Outbox.NoFaultMeansSound` | private_control.go:560-571 | the checking loop accepts a batch iff every command is valid and new and no two share an ID |
| `Outbox.FaultStands` | private_control.go:560-571 | the first fault decides the error |
| `Outbox.EnqueueIsAllOrNothing` | private_control.go:549-587 | the whole batch becomes pending, durable and signalled, or nothing becomes pending |
| `StoreLaws.EnqueueIff` | private_control.go:549-587 | an enqueue succeeds iff the batch is empty, or fits within 64 beside the pending commands, every command is well formed and new with an ID of its own, and the write commits; which batches are refused as too many or unwritten |
| `StoreLaws.EnqueuedBatchIsPending` | private_control.go:572-587 | after it queue and file hold the old commands, the batch, and nothing else, and the wake-up is set |
| `CommandStores.CommandStore.Persist` | private_control_outbox.go:97-161 | the new file lists each pending command once, in message-ID order, below half of what load accepts; a failure leaves the old file or the new one |
| `CommandStores.CommandStore.Open` | private_control_outbox.go:28-95 | the restore loop for any file: each refusal, the live commands, the rewrite when one had expired |
| `CommandStores.ReopenRestoresLive` | private_control_outbox.go:28-65 | a file that holds a valid pending map is never refused and restores exactly its unexpired commands |
| `CommandStores.RestoreIsFaithful` | private_control_outbox.go:40-55 | whatever the file, restored commands are valid, keyed by their ID and unexpired, and an unexpired list is restored whole |
| `StoreLaws.ReopenIff` | private_control_outbox.go:28-65 | opening succeeds iff the file is missing, or has at most 65536 bytes, version 1 and only well-formed commands, repeats no live one, and has at most 64 live; what is restored is exactly the live ones |
| `CommandStores.EncodedFileBound` | private_control_outbox.go:75-112 | any 64 valid commands encode to less than half of the size limit |
| `Commands.EncodedRevocationBound` | private_control.go:161-170 | a valid command encodes to at most 407 bytes, so it fits one frame |
| `CommandText.TextIsUnique` | private_control.go:161-170 | two valid commands with the same text are the same command |
| `Fields.CommandIff` | private_control.go:749-756 | a valid command in its own fields: schema, type, an ID that is the text of 16 bytes, a service ID or the text of 32 bytes, a listed reason, a deadline of at least 1 |
| `Base64Url.MessageIdIff` | private_control.go:659-665 | a message ID is valid iff it is the base64url text of some 16 bytes |
| `Base64Url.GrantIdHashIff` | private_control.go:744-747 | a grant ID hash is valid iff it is the base64url text of some 32 bytes |
| `AclReload.AutomaticRevocations` | management_acl_reload.go:94-133 | the diff is strictly sorted by (service, channel), and contains a pair iff an enabled row on it was lost, with reason service_disabled iff the service is no longer enabled |
| `AclReload.ServiceRevocations` | management_acl_reload.go:96-121 | the inner loop adds exactly the lost rows of one service |
| `AclReload.DiffIsUnique` | management_acl_reload.go:94-133 | the diff does not depend on the order maps are walked in |
| `ReloadLaws.DiffIsExact` | management_acl_reload.go:94-142 | in the authorizers' own fields: the diff lists a service and channel iff an enabled row on them no longer stands with the same role, permissions and priority in an enabled service; acl_removed iff the service is still enabled; by service and then channel, each once |
| `Text.SlashKeyIsInjective` | management_acl_reload.go:115 | the text key "service/channel" names one pair, whatever characters the service ID holds |
| `AclReload.ManagementApi.QueueRevocations` | private_control.go:509-519 | one command per target, checked, then queued together |
| `AclReload.ManagementApi.ReloadAuthorizer` | management_acl_reload.go:55-92 | the authorizer is replaced only when the tables load and the revocations for the exact diff are durably queued; otherwise it stays |
| `ReloadLaws.QueuedRepeatsTargets` | private_control.go:509-543 | after a successful queueing each target has its own command in queue and file, with the target's service, channel and reason, no grant hash and the common deadline; nothing else has joined and nothing has left |
| `ReloadLaws.ReloadRuns` | management_acl_reload.go:55-92 | after any actions, the pipeline's four reload steps in a row leave queue, file and authorizer as one call of `ReloadAuthorizer` does |
| `AclReload.TargetCommandIsValid` | management_acl_reload.go:76-83 | every revocation a loaded authorizer calls for is a valid command |
| `AclReload.ReloadSucceedsIff` | management_acl_reload.go:66-91 | a reload takes effect iff it takes nothing away, or what it takes away fits beside the pending commands and the write commits |
| `ReloadLimit.SixtyFivePairsNeverReload` | management_acl_reload.go:66-91 | two tables that load and whose diff has 65 targets: their reload is refused in every state |
| `Coverage.GrantIsBackedOrRevoked` | management_acl_reload.go:55-92 | in every interleaving of requests, issuing, reload steps, outbox steps, crashes and ticks, an unexpired grant that no restart has orphaned is backed by its row, or a reload (perhaps not the last one) has durably queued a revocation for its service and channel |
| `RowLosses.RowLossIsRevoked` | management_acl_reload.go:55-92 | in every run, a grant whose row is not in the tables lost it last to a restart, or to a swap whose reload had itself queued, for the first time, a revocation for its service and channel, which displaces the grant ever since |
| `RowLosses.SwapRevokes` | management_acl_reload.go:73-91 | a swap that takes a row away has a newly queued revocation for everyone who holds it |
| `Coverage.RevocationCoverage` | management_acl_reload.go:74-86 | such a revocation whose clock was sampled at most 1800 seconds before the grant was signed outlives the grant, and is outstanding or the client took a valid answer to it: expiry never uncovers a live grant |
| `Coverage.EndToEnd` | management_acl_reload.go:55-92 | if reload (sample to swap) and request (authentication to signing) together took at most 1800 seconds for every revocation that displaces it, an unexpired, not orphaned grant is admitted, or a revocation displaces it, outlives it, and is outstanding or answered |
| `Coverage.SignedInTimeStaysCovered` | management_acl_reload.go:74-92 | a grant signed at most 1800 seconds after the clock sample of every reload that displaced it or is under way stays admitted or covered in every continuation, until it expires or a restart orphans it |
| `LateGrants.CoverageFailsIff` | private_control.go:462-480 | at any point of any run, once an unexpired grant's row is lost: some continuation leaves it alive with no revocation standing against it iff the deny window of every revocation that displaces it ends before it does |
| `LateGrants.CoveredIff` | management_acl_reload.go:74-92 | at any point of any run, once an unexpired grant's row is lost: a revocation that outlives it is outstanding or answered iff the deny window of some revocation that displaces it reaches its expiry |
| `LateGrants.SigningIsSafeIff` | service_admission_api.go:53-90 | the same condition checked before a held request is signed, for every lifetime |
| `LateRun.GrantEndsUncovered` | service_admission_api.go:53-90 | a concrete run: a request authenticated before a reload is signed 1801 seconds after the reload's sample, and ends up uncovered |
| `AnsweredRun.AcknowledgedGrantEndsUncovered` | service_admission_api.go:53-90 | the same with the Relay connected: the revocation is acknowledged at once, and when its deny window is over the grant is alive, its row gone, queue and file empty |
| `AnsweredRun.RefusedRevocationCounts` | private_control.go:438-455 | a run in which the Relay refuses the revocation: queue and file are empty, no acknowledgement was ever read, and the grant counts as covered |
| `Coverage.OrphansComeFromRestarts` | management_api.go:173 | in every run, an orphan was made by a restart whose tables do not hold its row, and every reload that had durably queued a revocation for its service and channel, swapped or cut short by a crash, had done so before its holder was authenticated |
| `Pipeline.PlayKeepsInv` | management_acl_reload.go:55-92 | the pipeline's invariant holds after every list of actions |
| `Pipeline.SwapKeepsSecure` | management_acl_reload.go:88-90 | the swap leaves no holder of a row uncovered |
| `Coverage.DenyWindowCoversIff` | management_acl_reload.go:74 | the deny window covers every admissible lifetime iff the grant is signed at most 1800 seconds after the sample |
| `Authorizers.LoadManagementApiAuthorizer` | management_api.go:230-371 | the loops over the three tables compute `Load`, including which row is refused first |
| `Authorizers.LoadAclRows` | management_api.go:274-339 | the ACL loop with its text-keyed duplicate set |
| `Authorizers.LoadPermissionRows` | management_api.go:345-369 | the permission loop with its text-keyed duplicate set |
| `Authorizers.AclTextIsInjective` | management_api.go:323 | the duplicate key of an ACL row names one (service, channel, sender) |
| `Authorizers.PermissionTextIsInjective` | management_api.go:361 | the duplicate key of a permission row names one (service, permission) |
| `AuthorizerLaws.LoadMeaning` | management_api.go:230-371 | the loader accepts exactly the tables with valid rows, no duplicates and scopes for known enabled services, and returns the authorizer they describe |
| `AuthorizerLaws.DescriptionIsUnique` | management_api.go:230-371 | tables with the same rows describe at most one authorizer |
| `AuthorizerLaws.LoadIsOrderIndependent` | management_api.go:230-371 | permuting the rows of any table changes neither acceptance nor the authorizer |
| `AuthorizerLaws.LoadIsCanonical` | management_api.go:258-338 | fingerprints and services correspond one to one, disabled services hold nothing, the channels are the projection of the admissions |
| `AuthorizerLaws.LoadedRowsAreWellOrdered` | management_api.go:314-338 | a loaded row allows interrupt only with talk and a priority, and receive-only roles only listen |
| `TableLaws.LoadAcceptsIff` | management_api.go:230-371 | the loader accepts a triple of tables iff every field of every row is as required, scopes name enabled services, and no service ID, fingerprint, (service, channel, sender) or (service, permission) repeats |
| `TableLaws.ServicesAreTheRows` | management_api.go:252-270 | the services of an accepted table are exactly its rows: ID, fingerprint, role, switch |
| `TableLaws.EntriesAreTheEnabledRows` | management_api.go:274-339 | the admissions of an accepted table are exactly its enabled ACL rows, each under its own service, channel and sender with its own role, listen, talk, interrupt and priority |
| `TableLaws.PermissionsAreTheEnabledRows` | management_api.go:345-369 | the global permissions are exactly the enabled permission rows |
| `TableLaws.RefusesFirstBadRow` | management_api.go:230-371 | the refused row is the first, in the order of the tables, with which what was read is no longer acceptable |
| `Grants.IssuedPermissionsAreOrdered` | service_admission_grants.go:152-198 | a grant's bits follow the request, satisfy 4 implies 2 implies 1, lie within the row, and carry its priority iff bit 4 is set; receive-only roles get exactly 1 |
| `Grants.GrantIssuer.Issue` | service_admission_grants.go:152-214 | each refusal in order; tracking is refused only with 4096 unexpired grants; otherwise all claims (issuer, audience, ID, holder key digest, scope, times) and the entry recorded under the digest of the ID |
| `GrantApi.AuthorizedIff` | service_admission_grants.go:152-166 | for loaded tables a request is authorised iff some enabled ACL row on its service, channel and sender has its role and listen, talk and interrupt as far as requested, interrupt being requested only with talk, and the key is the text of 32 bytes |
| `GrantApi.HandleGrant` | service_admission_api.go:53-90 | for loaded tables: a grant is created iff the role is recorder or operator, a row allows the request, key, ID and signature are there and fewer than 4096 grants are alive; its claims repeat the request and the row that allowed it, it lives 60 to 3600 seconds, and the entry under the digest of its ID repeats its service, channel and expiry; forbidden iff the role or a row is missing; a refusal records nothing |
| `GrantRuns.GrantIsIssuedIff` | service_admission_api.go:53-90 | the issuing step of the runs happens iff a row of the tables the request was authenticated under allows it and the key is the text of 32 bytes; the grant says what was asked, signed now, expiring a lifetime after the whole second |
| `GrantRuns.EveryRequestIsGiven` | management_api.go:230-371 | in every run, the service record a request holds is the one that some accepted tables give its service |
| `GrantRuns.EveryGrantHasARow` | service_admission_grants.go:152-198 | in every run, each grant has a row of accepted tables behind it: enabled, allowed to listen, of its role, on its service, channel and sender |
| `Grants.GrantIssuer.IssuedGrantFor` | service_admission_grants.go:216-225 | a lookup answers by the index swept at its clock |
| `Grants.GrantIssuer.CleanupIssued` | service_admission_grants.go:227-233 | the sweep keeps exactly the unexpired entries |
| `Grants.IndexMeaning` | service_admission_grants.go:205-233 | with no assumption on the clock, an entry is present iff it was recorded and its expiry is after every reading since |
| `Grants.LookupFindsUnexpired` | service_admission_grants.go:216-225 | under a clock that does not go back a lookup finds exactly the recorded, unexpired grants |
| `RevocationApi.ValidateRevocation` | service_admission_api.go:141-162 | accepts exactly well-formed requests with a deadline in the window, a hash only within the scope of an issued, unexpired grant |
| `RevocationApi.AcceptableIff` | service_admission_api.go:141-162 | what is accepted, field by field: a listed reason, a deadline after now and within 5400 seconds, a service or a grant; a grant only if known, on its channel, for its service, and no longer than it lives |
| `RevocationApi.GrantRequestNamesLiveGrant` | service_admission_api.go:157-160 | a grant-specific request names a recorded grant that is alive and does not deny past its expiry |
| `RevocationApi.AnswerMeaning` | service_admission_api.go:114-138 | however the call returns in any run: "done" iff an acknowledgement was in the command's slot, and then it is the command's own, so the mismatch branch is dead; "pending" iff the wait ended after a successful enqueue; behind either stands an accepted command that repeats the request's channel, service, grant hash, reason and deadline |
| `RevocationApi.PendingIsDurable` | service_admission_api.go:130-137 | behind a "pending" answer the enqueue had succeeded with a command that repeats the request field by field, and from then on it is durable until it is answered or seen to be past its deadline |
| `RevocationApi.AcceptedRequestIsQueued` | private_control.go:482-489 | a request that passed validation is queued iff fewer than 64 commands are pending and the write commits |
| `Snapshots.SnapshotReassembly.Add` | private_control.go:788-822 | one chunk's effect for any assembly; the "incomplete" branch is never taken |
| `Snapshots.Assemble` | private_control.go:799-821 | the chunks in index order, refused iff a (channel, sender) pair repeats |
| `Snapshots.AppendChunk` | private_control.go:806-819 | the channel loop refuses iff a pair repeats |
| `Snapshots.MarkSeen` | private_control.go:807-817 | the participant loop refuses iff a pair repeats |
| `Snapshots.FullMeansComplete` | private_control.go:796-805 | as many chunks as the count are all the chunks |
| `Snapshots.CompletesExactlyOnLast` | private_control.go:788-822 | in any arrival order each chunk but the last leaves it incomplete and the last settles it by the concatenation in index order |
| `Snapshots.SessionAppliesSet` | private_control.go:408-422 | a session that receives a complete set applies its concatenation in index order, or nothing when a participant repeats |
| `Snapshots.ArrivalOrderIsIrrelevant` | private_control.go:408-422 | two arrival orders of the same chunks apply the same |
| `Snapshots.AtMostOneApplied` | private_control.go:408-422 | whatever arrives, a session applies at most one snapshot; it comes from a full assembly and repeats no participant |
| `Snapshots.FullRejects` | private_control.go:788-794 | after completion every later chunk is rejected |
| `SnapshotOrigins.ChunkIsTakenIff` | private_control.go:408-422 | whatever chunks a session has taken, it takes the next iff the chunk is well formed, answers this session's request, has the snapshot ID and count of those taken and a new index, and does not complete a snapshot that lists a participant twice; a snapshot is applied exactly with the last chunk, and is the taken chunks, all of one snapshot, joined in the order of their indices |
| `SnapshotOrigins.UniqueIffNobodyTwice` | private_control.go:806-819 | no pair repeats iff no two places of the channel list name the same channel and sender |
| `ManagementStates.ManagementState.MarkConnected` | main.go:34-43 | the history gains a connect and the fields still replay it |
| `ManagementStates.ManagementState.MarkDisconnected` | main.go:45-49 | the history gains a disconnect and the fields still replay it |
| `ManagementStates.ManagementState.SetLiveEvents` | main.go:98-102 | sets the hub and leaves the projection as it is |
| `ManagementStates.ManagementState.RecordLifecycleEvent` | main.go:51-90 | the history gains the event, the fields still replay it, empty entries included, and the hub, if set, publishes it |
| `ManagementStates.ManagementState.ApplyRelayStateSnapshot` | main.go:103-119 | the history gains the snapshot and the fields still replay it |
| `ManagementStates.ManagementState.ManagementApiChannelState` | management_api.go:666-681 | serves the replayed channels iff connected with a snapshot applied |
| `ManagementStates.LookupIsParticipantState` | main.go:51-119 | for every history each (channel, sender) lookup is that participant's own state |
| `ManagementStates.LastDecisiveWins` | main.go:64-78 | the last snapshot entry, join, departure or talk start fixes a participant; a later end of talk makes a present one idle |
| `ManagementStates.OthersAreUnaffected` | main.go:55-79 | an event about one participant changes no other |
| `ManagementStates.ServedMeaning` | management_api.go:669-671 | state is served iff connected and a snapshot was applied since the last connect |
| `ManagementStates.UniqueEntryIsServed` | main.go:105-114 | a snapshot that repeats no participant serves each entry it lists |
| `ManagementStates.ServedStateIsWellFormed` | main.go:51-119 | senders are non-zero and states are joined, talking or idle |
| `ManagementStates.EmptyChannelAppearsIff` | main.go:59-72 | exactly when one lifecycle event leaves an empty channel entry |
| `ManagementStates.SnapshotLeavesEmptyIff` | main.go:103-119 | a snapshot leaves an empty entry iff it lists the channel and never with a participant |
| `ManagementStates.EmptyEntryMeaning` | main.go:51-119 | for every history, a channel has an empty entry iff a snapshot listed it empty, or an event that moves nobody named it when nobody was there, and nothing has filled, removed or replaced it since |
| `ServedStates.HandleChunk` | private_control.go:408-419 | the first chunk creates the assembly; a chunk is refused or added as `Handle` says |
| `ServedStates.HandleStateMessage` | private_control.go:398-422 | one message: what is held, what happens to the state and whether the session goes on |
| `ServedStates.RunSession` | private_control.go:335-371 | from the connect to the disconnect, the history gains exactly what `SessionLog` says of the messages |
| `ServedStates.SessionAppliesOnce` | private_control.go:408-422 | whatever chunks and events arrive interleaved, a session applies at most one snapshot: made of chunks it read, all answering its request, of one snapshot ID and count, one for each index, joined in order, listing nobody twice |
| `ServedStates.ServedStateMeaning` | management_api.go:666-681 | for any sequence of sessions, at any moment: state is served iff the current session has applied a snapshot; it is then the only one since the connect, made in index order of chunks this session read, all of one snapshot and answering its request, and each lookup is its entry overridden by the last relevant event after it |
| `ServedStates.EventIsTakenIff` | private_control.go:675-720 | a session goes on after a lifecycle event iff every field is well formed and the channel is named exactly when it is not a health event; the event then happens once, otherwise nothing does |
| `ServedStates.ServedIsWellFormed` | main.go:51-119 | at any moment of any sequence of sessions, served senders are non-zero and states are joined, talking or idle, because sessions take nothing else |
| `ServedStates.EmptyChannelIsServed` | main.go:105-114 | a valid one-chunk snapshot that lists a channel without participants is applied and served with an empty entry |
| `LiveEvents.LiveEventHub.Subscribe` | management_events.go:40-53 | refused iff 128 are subscribed; otherwise a new stream that starts at what has been published |
| `LiveEvents.LiveEventHub.Unsubscribe` | management_events.go:55-63 | closes an open stream once and leaves a closed one alone |
| `LiveEvents.LiveEventHub.Publish` | management_events.go:65-94 | stamps the next ID and offers the event to every stream, keeping every stream a gap-free block; nothing once IDs are exhausted |
| `LiveEvents.OfferToAll` | management_events.go:84-92 | the loop in any order sends to or closes each open channel once |
| `LiveEvents.LiveEventHub.ServeNext` | management_events.go:136-152 | one turn of the receive loop keeps the written events the visible part of what was received |
| `LiveEvents.OfferKeeps` | management_events.go:84-92 | an offer keeps received plus buffered equal to the block since subscription |
| `LiveEvents.WrittenIsFilteredBlock` | management_events.go:136-152 | what a request wrote is the in-order visible part of a gap-free block from its subscription |
| `LiveEvents.FilterIsExact` | management_events.go:144-146 | the visible part is the events at exactly the visible positions, in order, each once |
| `LiveEvents.WrittenIffInScope` | management_events.go:144-146 | an event a request has dealt with was written iff its own channel is in the viewer's channels and the role is viewer, recorder, operator or auditor, or it has no channel, is relay_health_changed and the viewer holds health.read; nothing else was written |
| `LiveEvents.EverythingIsDelivered` | management_events.go:136-152 | with writes that work, as many turns as events wait deliver all that was published from the subscription to now, or to the cut-off; the next turn ends exactly a request that was cut off |
| `LiveEvents.MayOpenIffSomethingVisible` | management_api.go:470-488 | a service may open the stream iff there is an event it could be sent |
| `LiveEvents.EventIdsAreUnique` | management_events.go:71-74 | event IDs never repeat |
| `Frames.ReadsBackWhatWasWritten` | private_control.go:835-868 | for any payloads of 2 to 65536 bytes the written stream reads back as exactly those payloads |
| `Frames.ReadConsumesAFrame` | private_control.go:835-852 | an accepted read consumed exactly the frame of what it returned |
| `Frames.WriteBytes` | private_control.go:870-882 | over partial writes, all of the payload or an error after a prefix; success whenever the writer progresses |
| `Frames.WriteFrame` | private_control.go:854-868 | exactly one frame is appended, or an error after a prefix of it; wrong sizes write nothing |
| `JsonScanner.Decoder.ScanOne` | private_control.go:920-973 | the recursive scanner consumes what `ScanValue` says, with the same error |
| `JsonScanner.Decoder.Validate` | private_control.go:899-918 | accepts iff the input is valid UTF-8 and one value spans all of it |
| `JsonScanner.ScansValue` | private_control.go:920-973 | on the tokens of any value it accepts iff all objects at every depth have distinct names, leaving the rest untouched |
| `JsonScanner.AcceptedIsStrictValue` | private_control.go:920-973 | whatever the tokens, an accepted prefix spells a strict value |
| `JsonScanner.AcceptsExactlyStrictValues` | private_control.go:899-973 | a token list is accepted whole iff it spells a strict value |

## Left out

- Sockets, TLS, dialing, HTTP and SSE text, flags, environment and logging: input and output.
- The hello exchange and the read loop's one-slot channel: a session begins where the handshake has succeeded.
- Signing, hashing, random bytes and certificates: fresh IDs and hashes are assumptions of the runs; digests are any functions.
- Grants.GrantIssuer.Issue: whether an ID could be made and whether signing succeeded, within the size limit, are inputs; the signed text is not modelled.
- JsonScanner.Decoder.Validate: whether the bytes are valid UTF-8 is an input, as the tokens are.
- JSON decoding, CSV lexing and number parsing: rows arrive parsed (a field that does not parse is None), JSON as tokens; the nesting limit of the JSON library is not part of this model. Timestamps of lifecycle events are not checked, and a missing `channel_id` member is not told from a null one. The message ID, schema and type of what the Relay sends are checked where it is decoded and are not part of this model.
- The Windows branch that removes the file before the rename: it is not an atomic replace.
- A client without a command store, which only the repository's tests build.
- ACL changes made while the process is down: start-up compares with nothing; such grants are the `orphans` of `Pipeline`.
- The Relay's own handling of a revocation: it is any sender of replies, or one that answers each frame once.
- The HTTP handlers' method and body checks; of the revocation endpoint also its role and permission checks.
- Reconnect back-off, health text: they would only add easy members.
- ManagementStates.ManagementState.RecordLifecycleEvent: the recording-job labels it also updates are not modelled; they would only add easy members.
- Authorizers are values: `byFingerprint` holds a service ID where the program shares a pointer, so sharing is not modelled.
- LiveEvents.LiveEventHub.Subscribe: does not model the 64-bit wrap-around of the subscriber counter, which needs 2^64 subscriptions.
- Worlds.RunKeepsInv: no liveness; that the Relay eventually answers, or that a connection is eventually made, is not claimed.
- Outbox.PrivateControlClient.SendPendingCommands: runs with nobody else at the queue; enqueues between its steps are in `Worlds`.
