# 2Collab: protocols of the runner and the server

A Dafny model of the parts of 2Collab that carry state across failures: the runner's durable delivery,
its launch fence, its worktrees, its cache and its output; the patches the server applies to documents;
the rotation of credential keys; the backup container; and the release archive. Each file of `*.dfy` is
one module, or a few small ones.

| module | what it models |
|---|---|
| Common, Octets | options, results, bytes |
| Outbox | the table of durable events, chained per run |
| Delivery, DeliverySafety, DeliveryOrder, DeliveryLimits, DeliveryAnswers, DeliveryExamples | the delivery protocol as a step machine, what every history of it keeps, and what send answers |
| RunnerClient | the client object: the same steps, changing a queue and the table in place |
| Inbound, InboundDelivery, Reconnect | server envelopes and their replay window; their effects on what is retained; the connection state and the wait before a retry |
| Lines, PatchText, PatchSpelling, PatchEdit, NarrowEdit, PatchExamples | unified diffs: text and every spelling of it, application, inverse, and the edit narrowed to unique text |
| ProcessRegistry, LaunchFence, LaunchPath, LaunchAlone, LaunchExamples | the table of local processes, interleaved launches over it, what a launch passed before it started, and when it goes on |
| WorktreeRegistry, WorktreeHistory, WorktreeRemoval, StatusSummary, RepositoryLock | the table of worktrees, each row as the story of its calls, removal against moving refs, reading `git status`, the lock |
| WorktreeRuns, WorktreeExamples | cleanup and discard await by await, while refs, remotes and worktrees move between the awaits |
| KeyRotation, KeyHistory, CredentialWorlds, CredentialKeys, CredentialExamples | class keys, their rotation call by call, histories of the store, the manager object |
| Backup, BackupRetention | the container and its reader; which backups are kept |
| Octal, Ustar, UstarArchive | octal fields, the header block filled in place, the archive and a reader of it |
| Utf8, Redaction, HeadlessOutput, HeadlessProgress | cutting text by bytes, the redactor's held-back tail, the bounded output queue, its answers and its end |
| Cache | the continuity cache and its quotas |

Where the source changes objects, arrays or tables step by step, the model has classes and methods whose
postconditions equate the new state with a function of the old one; the theorems are about those functions
and about every history of them. SHA-256, the cipher and JSON validity are parameters or abstract boxes.
An asynchronous function is a machine of steps between its awaits, with every interleaving; a crash is a step.

## What the proofs found

Several promises hold only under a condition. The condition is proved exact, both ways unless said otherwise,
and a concrete input at which the promise fails is proved beside it, save for the size of a backup.

* A patch that only removes lines inside a document, with unique text, is narrowed to an edit that leaves one
  line break too many; every other narrowed edit is exact (`NarrowEdit.NarrowedEditEqualsWholeEdit`). Removing
  the second of three lines does it (`PatchExamples.EditLeavesBlankLine`).
* The inverse of a patch restores a document exactly when the new document is not one empty line
  (`PatchEdit.InverseRestoresDocument`, `PatchExamples.InverseOfBlankFails`).
* A client accepts more events than its successor loads: a restart fails exactly when more than
  `maximumOutboundItems` rows wait (`DeliveryLimits.RestartFailsIffTooManyItems`, `DeliveryExamples.RestartCanFail`).
* Sending an event again after the server finished with it can put it behind a later event of its run
  (`DeliveryOrder.ResendKeepsOrderIffNothingLater`, `DeliveryExamples.ResendBreaksOrder`).
* An authority request sent again under its old id after a close can be retired by one answer alone: exactly when
  the other answer had come before the close (`DeliveryLimits.OneAnswerRetiresIff`,
  `DeliveryExamples.AskedAgainIsRetiredByOneAnswer`).
* A launch that returns a failure can leave its process running: the answers of `host.cancel` and of `revoke` are
  not looked at (`src/runner/supervisor.ts:205`). It leaves nothing behind exactly when every callee did what it
  was asked and said so (`LaunchFence.WhatAReturnedLaunchLeaves`, `LaunchFence.ReturnedLaunchIsCleanIff`). Two
  deliveries of one attempt suffice, with no failure of the database (`LaunchExamples.ProcessLeftRunning`).
* A worktree whose branch was deleted is recorded as gone exactly when the database carries out the last statement
  (and, for cleanup, the row was still in use); otherwise the call fails with the branch gone
  (`WorktreeRuns.RemovalIsRecordedIff`, `WorktreeExamples.RemovedWithoutRecord`).
* Revoking a credential raises its revision without sealing it again, so the row opens under no key and no
  rotation of its class completes any more (`CredentialWorlds.RevocationStopsRotation`,
  `CredentialExamples.OneRevocationStopsRotation`); with no revoked row a rotation completes after exactly
  max(1, ceil(n / batch)) calls (`KeyHistory.RotationTakesCeilingCalls`).
* A put seals its row before an await and stores it after, and the transaction looks at the owner's row again but
  not at the keys. It keeps its class conserved exactly when the key it sealed under is the one its side of the
  cursor needs when it is stored (`CredentialWorlds.StoreConservesIff`). A first put during which a rotation
  completes is accepted under the retired key: the credential does not open, and no rotation that follows completes
  (`CredentialExamples.SlowPutIsStranded`, `CredentialWorlds.RotateLeavesStranded`).
* While a class rotates, a row already resealed cannot be read (`KeyRotation.ReadsBackIff`,
  `CredentialExamples.RotatedRowIsUnreadable`), and a write behind the cursor blocks the rotation
  (`CredentialWorlds.PutConservesIffAhead`, `CredentialWorlds.RotateLeavesBehind`,
  `CredentialExamples.LateWriteBlocksRotation`).
* A backup reads back exactly when its file is within 64 GiB (`Backup.BackupRoundTripIff`).
* The item quota of the cache is never enforced: the test asks for `undefined`, and the database answers `null`
  for a missing row, as `src/server/modules/identity/revocation.ts:42-49` relies on. The table passes the limit
  exactly when a new key is put on a full table and its bytes fit (`Cache.ItemsPassTheLimitIff`,
  `Cache.ItemLimitIsPassed`); only the byte quota bounds it (`Cache.OnlyBytesBoundItems`), and put is as intended
  everywhere else (`Cache.AsIntendedIff`).

## Model

| member | source | states |
|---|---|---|
| DeliverySafety.EveryWorldIsOk | src/runner/transport/wss-client.ts:204-404 | in every history of sends, partial flushes, acknowledgements, rejections, disconnects, stops and restarts: retained event ids are distinct, `outboundBytes` is the size of what is retained and within the limit, every durable entry matches its row, and while the client has not stopped every row still PENDING or IN_FLIGHT is retained |
| DeliverySafety.CoveredUntilStopIsCalled | src/runner/transport/wss-client.ts:497-525 | in every history without a failing store every row still PENDING or IN_FLIGHT is retained until `stop` is called, also after a terminal close or a failed authentication |
| DeliverySafety.FailedRemoveUncoversIff | src/runner/transport/wss-client.ts:277-287 | where the store cannot remove a completed event, which is forgotten already, all but coverage is kept, coverage exactly when its row does not wait any more, and the next process retains it again |
| DeliveryOrder.QueueDiscipline | src/runner/transport/wss-client.ts:261-287 | within the life of a client, (durable in flight) ++ (durable waiting) changes only by appending the event just stored and by removing the one just acknowledged or rejected |
| DeliveryOrder.EveryWorldIsInOrder | src/runner/transport/wss-client.ts:527-603 | in every history whose durable sends are new events, what is retained of each run strictly increases in local sequence and is never an event the server has finished with |
| DeliveryOrder.ResendKeepsOrderIffNothingLater | src/runner/outbox.ts:199-204 | sending an event id again after the server finished with it keeps the queue in order exactly when nothing later of its run is retained |
| DeliveryExamples.ResendBreaksOrder | src/runner/transport/wss-client.ts:560-603 | a concrete history in which such a resend puts an event behind a later one of its run |
| DeliveryOrder.RestartRebuildsEveryRun | src/runner/transport/sqlite-outbound-store.ts:12-27 | a restart of a process that retained every waiting row (as it does until `stop` is called) retains, of every run, exactly what the dead process retained of it, in the same order, whatever order the table returns ties in |
| DeliveryLimits.RestartFailsIffTooManyItems | src/runner/transport/wss-client.ts:204-233 | after a history of new events a restart with the same limits fails exactly when more rows wait than `maximumOutboundItems`; it never fails on bytes |
| DeliveryExamples.RestartCanFail | src/runner/transport/wss-client.ts:204-233 | a concrete history a running client accepts and its successor refuses to load |
| DeliveryLimits.EveryWireIncreases | src/runner/transport/wss-client.ts:366-404 | the envelopes of a connection carry strictly increasing sequence numbers, in every history |
| DeliveryLimits.RequestsAreRetiredByBothAnswers | src/runner/transport/wss-client.ts:277-356 | a server answer retires an authority request only when both its response was processed and its acknowledgement arrived since it was queued, in either order |
| DeliveryLimits.OneAnswerRetiresIff | src/runner/transport/wss-client.ts:327-356 | a request newly accepted under any id not retained is retired by its acknowledgement alone exactly when its id is still in `processedResponses`, and by its response alone exactly when it is still in `pendingAcknowledgements` |
| DeliveryExamples.AskedAgainIsRetiredByOneAnswer | src/runner/transport/wss-client.ts:327-356 | a concrete history: a request sent, answered and lost to a close, asked again under its id, and retired by an acknowledgement alone |
| DeliveryAnswers.SendAnswers | src/runner/transport/wss-client.ts:527-603 | every error of send as an if and only if: a conflict exactly when the id is retained with other content, or is not retained, fits and is stored with other content; backpressure exactly without room in the client or the table; an error changes nothing, and a repeated event of the same content is acknowledged as queued and changes nothing |
| DeliveryAnswers.SendKeeps | src/runner/transport/wss-client.ts:527-603 | after an accepted send an entry of its event id with the same content is retained; unless one was before, the new entry goes behind all that waited and on the wire in its turn |
| DeliveryAnswers.EveryAcceptedSendIsRetained | src/runner/transport/wss-client.ts:527-603 | in every history the content of an accepted send is retained under its event id |
| DeliveryAnswers.FlushSends | src/runner/transport/wss-client.ts:366-404 | the flush loop puts exactly the entries taken in a row by the socket on the wire, in order under consecutive numbers, and marks exactly the durable ones in the table; it stops at the first entry not taken, and an envelope refused by its own schema ends the connection |
| DeliveryAnswers.AnswerTakes | src/runner/transport/wss-client.ts:334-353 | what an acknowledgement or a rejection does, in every case: nothing for an id not retained, remembered for a request without a processed response, and otherwise exactly that entry is forgotten and the row of a durable one says PERMANENTLY_REJECTED after a rejection and ACKNOWLEDGED after any other answer, unless it was final before |
| DeliveryAnswers.ResponseTakes | src/runner/transport/wss-client.ts:327-333 | a response is remembered for the first retained request of its id, or completes that request where its acknowledgement came before; for no such request it does nothing |
| DeliveryAnswers.ConnectionFollows | src/runner/transport/wss-client.ts:411-525 | the connection state after every step as an if and only if: a client stops exactly by `stop`, by a refused access while authenticating and by the close of a connection that failed for good, and never leaves that state; it becomes active only through authentication and negotiation |
| DeliveryAnswers.TerminalUntilClosed | src/runner/transport/wss-client.ts:440-511 | a failure for good is remembered until the close or the next connection, and nothing but such a failure or a refused envelope makes one |
| RunnerClient.WssClient.constructor | src/runner/transport/wss-client.ts:123-185 | a client before it reads its store |
| RunnerClient.WssClient.Load | src/runner/transport/wss-client.ts:204-233 | requeues what was in flight, loads what the store returns, refuses more than the limits: equal to the restart step |
| RunnerClient.WssClient.FindKey | src/runner/transport/wss-client.ts:267-281 | the index of the retained entry with an event id |
| RunnerClient.WssClient.RetainedEvent | src/runner/transport/wss-client.ts:267-268 | in flight first, then waiting: the one entry retained under the id |
| RunnerClient.WssClient.HeadIsSent | src/runner/transport/wss-client.ts:366-404 | one envelope handed to the socket: the new client and table equal the deliver step |
| RunnerClient.WssClient.FlushOutbound | src/runner/transport/wss-client.ts:366-404 | the flush loop against a socket that takes, blocks, fails or refuses each envelope equals the flush step |
| RunnerClient.WssClient.SendBody | src/runner/transport/wss-client.ts:527-603 | send: duplicate ids, backpressure, the store, the queue and the flush, equal to the send step with its answer, of which DeliveryAnswers.SendAnswers and DeliveryAnswers.SendKeeps say what it means |
| RunnerClient.WssClient.ForgetEvent | src/runner/transport/wss-client.ts:277-287 | what completing an event does to memory |
| RunnerClient.WssClient.CompleteEvent | src/runner/transport/wss-client.ts:277-287 | memory and store after an event is completed |
| RunnerClient.WssClient.Acknowledged | src/runner/transport/wss-client.ts:334-353 | an acknowledgement or rejection from the server, equal to the step |
| RunnerClient.WssClient.Responded | src/runner/transport/wss-client.ts:327-333 | an authority response, equal to the step |
| RunnerClient.WssClient.Closed | src/runner/transport/wss-client.ts:497-511 | the close handler: durable entries move back in front, others are dropped, bytes recounted |
| RunnerClient.WssClient.OnlyDurable | src/runner/transport/wss-client.ts:501-502 | the filter of durable entries, in order |
| RunnerClient.WssClient.Total | src/runner/transport/wss-client.ts:503-506 | the sum of the entry sizes |
| RunnerClient.WssClient.StopClient | src/runner/transport/wss-client.ts:514-525 | stop |
| RunnerClient.WssClient.StartBegins | src/runner/transport/wss-client.ts:411-426 | start is allowed exactly when disconnected or backing off |
| RunnerClient.WssClient.SocketCreated | src/runner/transport/wss-client.ts:427-448 | a socket exists |
| RunnerClient.WssClient.SocketOpened | src/runner/transport/wss-client.ts:449-453 | the socket opened |
| RunnerClient.WssClient.WelcomeReceived | src/runner/transport/wss-client.ts:468-490 | the welcome makes the client active and flushes |
| Outbox.EveryTableIsChained | src/runner/outbox.ts:161-262 | in every reachable table the rows of each run (or of no run) are numbered 1..n, each linked to the one before, and normal rows stay out of the reserve |
| Outbox.FinalStatesAbsorb | src/runner/outbox.ts:280-327 | no call removes a row, changes its identity or moves it out of ACKNOWLEDGED or PERMANENTLY_REJECTED |
| Outbox.ReserveIsForCritical | src/runner/outbox.ts:104-115 | a new valid critical event is stored whenever the stored critical rows and it fit in the reserve |
| Outbox.NewIsStoredIff | src/runner/outbox.ts:177-262 | a new event is stored exactly when it is valid and the table with it keeps the limits, without the reserve for an ordinary one; otherwise the error says which, and nothing changes |
| Outbox.StoredIsAnswered | src/runner/outbox.ts:199-204 | a stored event comes back as its row if its content is the same and is a conflict otherwise |
| Outbox.FirstAnswerDecides | src/runner/outbox.ts:301-327 | the first answer of the server decides between ACKNOWLEDGED and PERMANENTLY_REJECTED, the same again changes nothing, the opposite is a conflict, and no other row changes |
| Outbox.OutcomesWereAnswered | src/runner/outbox.ts:301-327 | in every history a row is rejected only after a rejection of its event and acknowledged only after another answer |
| Outbox.SemanticOutbox.Select | src/runner/outbox.ts:173-175 | the row of an event id |
| Outbox.SemanticOutbox.Store | src/runner/outbox.ts:177-262 | enqueue on the table equals its specification, error codes included |
| Outbox.SemanticOutbox.Mark | src/runner/outbox.ts:280-290 | markInFlight equals its specification |
| Outbox.SemanticOutbox.Requeue | src/runner/outbox.ts:292-299 | every IN_FLIGHT row becomes PENDING again and no other changes |
| Outbox.SemanticOutbox.Finish | src/runner/outbox.ts:301-327 | acknowledge equals its specification for every disposition; a rejection without a code of the right form, or a code without a rejection, is refused and changes nothing |
| Inbound.EveryLinkIsOk | src/runner/transport/wss-client.ts:289-356 | on every connection envelopes are accepted in strictly increasing sequence, no message id repeats within 32769 consecutive ones, and effects run in the order of acceptance |
| Inbound.AcceptsIff | src/runner/transport/wss-client.ts:289-325 | an envelope is accepted exactly on a live connection, in its time and for at most five minutes, under an id not among the last 32768 and a sequence beyond the last one; whatever else comes ends the connection unless it repeats one of those byte for byte |
| Inbound.EffectsAreOrdered | src/runner/transport/wss-client.ts:289-356 | no sequence number takes effect twice, and effects increase in sequence |
| Inbound.ReplayHasNoEffect | src/runner/transport/wss-client.ts:300-323 | an accepted envelope that comes again does nothing while it is among the last 32768 and ends the connection when it is older |
| Inbound.EffectsAndFailures | src/runner/transport/wss-client.ts:326-356 | an effect runs exactly where one is due; one that throws ends the newest connection, which need not be its own; a failure changes nothing else |
| Inbound.EnvelopeGate.AcceptEnvelope | src/runner/transport/wss-client.ts:289-356 | the gate with its bounded replay map equals the specification over the whole list of accepted envelopes |
| InboundDelivery.AnswersTakeEffectOnce | src/runner/transport/wss-client.ts:289-356 | with the gate and the queue joined, and effects of older connections interleaved with newer ones: on each connection each accepted envelope has its effect on the queue once, in increasing sequence, no other frame has one, and the queue stays accounted and linked to its rows |
| InboundDelivery.QueueIsWhatItHeard | src/runner/transport/wss-client.ts:289-356 | in every joined history the queue is exactly as the steps of the client and the answers whose effects ran leave it, in that order: no answer is lost and none comes from elsewhere |
| InboundDelivery.ReplayChangesNothing | src/runner/transport/wss-client.ts:300-323 | an accepted frame that comes again within the window changes neither queue nor table nor the effects to come |
| Reconnect.AttemptCountsFailures | src/runner/transport/reconnect.ts:40-68 | the attempt counter is the number of retryable disconnects since the last connection marked stable, and is at least 1 while backing off |
| Reconnect.StoppedStays | src/runner/transport/reconnect.ts:57-79 | STOPPED is left by no sequence of calls |
| Reconnect.DelayIsBounded | src/runner/transport/reconnect.ts:81-87 | for any jitter the wait is between 0.1 and 30 seconds and, after the k-th failure in a row, at most 2^(k-1) seconds |
| Reconnect.DelayDoubles | src/runner/transport/reconnect.ts:81-87 | with full jitter the wait after the k-th failure in a row is 2^(k-1) seconds, at most thirty; with none it is a tenth of a second |
| Reconnect.StableAfterThirtySeconds | src/runner/transport/reconnect.ts:40-55 | after any calls, a connection can be marked stable exactly when it is active and became so at least thirty seconds before |
| Reconnect.PhasesFollow | src/runner/transport/reconnect.ts:27-79 | which phases a call may lead to from each, and that a lost connection is retried exactly unless the reason is final |
| Reconnect.RunnerReconnectState.Active | src/runner/transport/reconnect.ts:40-47 | active on the fields equals the step, and throws exactly when the step is not allowed |
| Reconnect.RunnerReconnectState.Stable | src/runner/transport/reconnect.ts:49-55 | markStable on the fields equals the step, and throws exactly when the step is not allowed |
| Reconnect.RunnerReconnectState.Lost | src/runner/transport/reconnect.ts:57-68 | disconnected on the fields equals the step for every reason |
| PatchText.PrintThenParse | src/shared/contracts/outline.ts:170-221 | printing any well-formed hunk list and parsing the text gives the list back |
| PatchText.ParsesExactlyTheWellFormed | src/shared/contracts/outline.ts:166-221 | the parser returns exactly the well-formed hunk lists: counts match, ranges ordered and disjoint on both sides, at least one change |
| PatchSpelling.ParsesIffSpells | src/shared/contracts/outline.ts:170-221 | the parser returns a hunk list for a text if and only if the list is well-formed and the text is one of its spellings: any digits for a number, leading zeros included, and a count of one written or left out in either range, followed by the lines of each hunk |
| PatchSpelling.HeaderReadsIff | src/shared/contracts/outline.ts:179-184 | a line reads as a header if and only if it spells one, an omitted count meaning one |
| PatchSpelling.ShortFormsReadBack | src/shared/contracts/outline.ts:170-221 | printing a well-formed list with each count of one freely written or omitted, and parsing the text, gives the list back |
| PatchText.ReadBody | src/shared/contracts/outline.ts:195-203 | the inner loop reads exactly the body lines up to the next header |
| PatchText.ParseUnifiedTextPatch | src/shared/contracts/outline.ts:170-221 | the two nested loops compute the recursive parser, which PatchSpelling.ParsesIffSpells characterises for every text |
| PatchEdit.AppliesIffRelates | src/shared/contracts/outline.ts:243-266 | applying gives a document exactly when the patch relates the two documents line by line, a definition that builds neither from the other |
| PatchEdit.InvertedIsWellFormed | src/shared/contracts/outline.ts:170-221 | the inverse of an accepted patch is an accepted patch |
| PatchEdit.InverseUndoes | src/shared/contracts/outline.ts:243-266 | on line lists a patch takes A to B if and only if its inverse takes B to A |
| PatchEdit.InverseRestoresDocument | src/shared/contracts/outline.ts:166-266 | on strings the inverse restores the document exactly when the new document is not a single empty line |
| PatchExamples.InverseOfBlankFails | src/shared/contracts/outline.ts:243-266 | a patch that leaves one empty line, and its inverse that does not apply to the empty document |
| NarrowEdit.NarrowedEditEqualsWholeEdit | src/shared/contracts/outline.ts:230-296 | the find text occurs exactly once, and replacing it gives the patched document exactly when the patch does not remove a run of lines inside the document |
| PatchExamples.EditLeavesBlankLine | src/shared/contracts/outline.ts:270-296 | removing the second of three lines: the edit is prepared, and replacing its text leaves a blank line that the patched document has not |
| PatchExamples.ShortFormApplies | src/shared/contracts/outline.ts:170-266 | the patch `@@ -2 +2 @@` with one line removed and one added takes a two-line document to the one with its second line replaced |
| PatchExamples.ContextStays | src/shared/contracts/outline.ts:170-266 | a patch with lines of context around its change applies, and the context stays |
| NarrowEdit.ReplacementIsExact | src/shared/contracts/outline.ts:270-296 | for any aligned range with unique text the replacement is exact if and only if the new text has a line or the found text is the whole document |
| NarrowEdit.HullFits | src/shared/contracts/outline.ts:243-266 | the first hunk starts at the same line of both documents, and outside the hull of the hunks they agree |
| NarrowEdit.ApplyHunkLines | src/shared/contracts/outline.ts:249-258 | the loop over the lines of a hunk matches and emits exactly its old and new lines |
| NarrowEdit.ApplyHunks | src/shared/contracts/outline.ts:243-266 | the loop over the hunks computes the application and the hull |
| NarrowEdit.Narrow | src/shared/contracts/outline.ts:270-295 | the widening loop stops at the first range whose text is unique; its last branch is not reachable |
| NarrowEdit.PrepareAuthoredDocumentPatch | src/shared/contracts/outline.ts:230-296 | every answer of the function: invalid patches, the empty document, and the narrowed edit |
| LaunchFence.StartedAtMostOnce | src/runner/supervisor.ts:71-210 | over the life of the table, with any number of interleaved launches and crashes, `host.start` is called at most once per attempt, after a permit was consumed and RESERVED -> STARTING won |
| LaunchFence.WhatAReturnedLaunchLeaves | src/runner/supervisor.ts:112-210 | a launch that returned has its process running exactly when it returned a started process, or the host spawned one and then said it failed, or `recordStarted` was refused and `host.cancel` did not cancel; and its enforcement session active exactly when it returned a started process, or activation took effect and then said it failed, or `revoke` did not revoke |
| LaunchFence.ReturnedLaunchIsCleanIff | src/runner/supervisor.ts:112-210 | session and process are left exactly to a launch that returned a started process if and only if no callee failed to do what it was asked, or did it and said otherwise |
| LaunchExamples.ProcessLeftRunning | src/runner/supervisor.ts:196-208 | a concrete history of two deliveries of one attempt without any database failure: the launch fails and its process runs, since `host.cancel` answered a failure |
| LaunchFence.EveryWorldIsOk | src/runner/process-state.ts:20-152 | the invariant of the fence holds in every reachable world |
| LaunchFence.StartsAreOfTheirAssignment | src/runner/supervisor.ts:120-200 | in every run a row under the reservation of a launch has its attempt and its assignment digest; every call of `host.start` was for an attempt reserved with the digest that was started, whose row has left RESERVED for good |
| LaunchFence.LateOrFailedLaunchSettles | src/runner/supervisor.ts:116-210 | a launch past its deadline never starts a process; one that fails before or at the start gave its reservation back or recorded the failure, after which no row of it can be started or stays STARTING |
| LaunchPath.StartsPassedEverything | src/runner/supervisor.ts:71-195 | in every run a launch that called `host.start` had passed, in this order and with nothing else between: preparation and activation with the answer ok, the deadline, the reservation, the deadline, the consumption of its permit with the answer ok, the deadline, and its mark in the database |
| LaunchPath.AbandonedIff | src/runner/supervisor.ts:71-210 | a launch is abandoned exactly by a crash before it returned or by a callee that throws, and then neither the table nor anything else is changed for it |
| LaunchAlone.OneDeliverySucceedsIff | src/runner/supervisor.ts:71-210 | in every run, whatever other attempts do: a launch that is the only one of its attempt goes on at each stage exactly where its callees say ok, its deadline has not passed and the database works, until it returns its process; and the row of its attempt says what its stage expects |
| LaunchAlone.TouchesItsAttempt | src/runner/process-state.ts:20-130 | no statement of a launch adds, changes or removes a row of another attempt |
| ProcessRegistry.ReserveAnswers | src/runner/process-state.ts:21-57 | every answer of reserve as an if and only if: a conflict exactly for an attempt reserved under another digest; a reservation is of a row of that attempt and that digest, and only a new attempt makes one |
| ProcessRegistry.MoveAnswers | src/runner/process-state.ts:72-152 | from which states each statement moves the row of the reservation, and that it says so exactly then |
| ProcessRegistry.ReleaseAnswers | src/runner/process-state.ts:59-70 | a release removes exactly the row of the reservation while it is RESERVED, and says so exactly then |
| ProcessRegistry.ExitAnswers | src/runner/process-state.ts:131-152 | an exit is recorded exactly for an attempt whose row is STARTED |
| ProcessRegistry.LocalProcessRegistry.ReserveAttempt | src/runner/process-state.ts:21-57 | the statements of reserve leave the table and the answer of the specification, which ProcessRegistry.ReserveAnswers states case by case |
| ProcessRegistry.LocalProcessRegistry.Update | src/runner/process-state.ts:91-129 | one conditional UPDATE: it changed a row exactly when the row was in one of the from states |
| ProcessRegistry.LocalProcessRegistry.Fail | src/runner/process-state.ts:72-89 | recordFailed: a disposition that is no error code is refused, and otherwise the conditional UPDATE and its answer |
| ProcessRegistry.LocalProcessRegistry.ReleaseReservation | src/runner/process-state.ts:59-70 | the conditional DELETE |
| ProcessRegistry.LocalProcessRegistry.Exit | src/runner/process-state.ts:131-152 | recordExited: a bad attempt id or exit code is refused, and otherwise the conditional UPDATE and its answer |
| WorktreeRegistry.EveryTableIsOk | src/runner/process-state.ts:311-548 | over every sequence of calls the table keeps its constraints |
| WorktreeRegistry.RowsEvolve | src/runner/process-state.ts:338-548 | over every sequence of calls REMOVED and DISCARDED absorb, revisions never fall, pinned revision and retained id are set at most once and identity never changes; and at each call DISCARDED is reached only from RETAINED, and a row changed by retain is RETAINED with one revision more |
| WorktreeRegistry.RetainedCanBeProjected | src/runner/repository/worktrees.ts:213-240 | a retained row has an id, a digest, a head, a reason and a revision of at least 1, so its projection cannot throw |
| WorktreeRegistry.RecordedIff | src/runner/process-state.ts:517-548 | for a key in the table and a commit, markRemoved succeeds exactly on a READY or RETAINED row and markDiscarded exactly on a RETAINED one, and only that row changes |
| WorktreeHistory.EveryRowIsItsStory | src/runner/process-state.ts:338-548 | in every history a row was inserted by an accepted reserve and says exactly what the calls accepted on it say: head and publication last named, branch last bound, the revision pinned, how often it was retained with the reason, digest and summary of the last time and the id of the first, and the state of the last call that sets one |
| WorktreeHistory.AcceptedIff | src/runner/process-state.ts:381-548 | for each call on a row the exact states and arguments in which it is accepted, and which error it is refused with; refused it changes nothing, accepted it touches no other row |
| WorktreeHistory.ReserveAnswers | src/runner/process-state.ts:338-380 | reserve is accepted exactly for the assignment its run has, or for a run without one where key, path and branch are free |
| WorktreeRegistry.LocalWorktreeRegistry.ReserveRow | src/runner/process-state.ts:338-380 | the statements of the call leave the table and the answer of the specification, failures included |
| WorktreeRegistry.LocalWorktreeRegistry.MarkReady | src/runner/process-state.ts:381-405 | the statements of the call leave the table and the answer of the specification, failures included |
| WorktreeRegistry.LocalWorktreeRegistry.MarkPinned | src/runner/process-state.ts:406-429 | the statements of the call leave the table and the answer of the specification, failures included |
| WorktreeRegistry.LocalWorktreeRegistry.RecordPublished | src/runner/process-state.ts:430-446 | the statements of the call leave the table and the answer of the specification, failures included |
| WorktreeRegistry.LocalWorktreeRegistry.RebindBranch | src/runner/process-state.ts:447-470 | the statements of the call leave the table and the answer of the specification, failures included |
| WorktreeRegistry.LocalWorktreeRegistry.Retain | src/runner/process-state.ts:471-516 | the statements of the call leave the table and the answer of the specification, failures included |
| WorktreeRegistry.LocalWorktreeRegistry.MarkRemoved | src/runner/process-state.ts:517-532 | the statements of the call leave the table and the answer of the specification, failures included |
| WorktreeRegistry.LocalWorktreeRegistry.MarkDiscarded | src/runner/process-state.ts:533-548 | the statements of the call leave the table and the answer of the specification, failures included |
| WorktreeRemoval.CleanupRemovesIff | src/runner/repository/worktrees.ts:541-606 | of the answers a cleanup got, those for which it goes on to remove: the claims name runner, run, worktree and the head observed last, a finished run and no attempt, the authorization is consumed, the three digests are equal, and the first and last observation are clean, at the claimed head and reachable from the observed remote commit |
| WorktreeRemoval.DiscardRemovesIff | src/runner/repository/worktrees.ts:703-764 | of the answers a discard got, those for which it goes on to remove: the claims are, field by field, those of the retained row, at the head and the digest of both observations, and they are consumed |
| WorktreeRemoval.VerifyRestored | src/runner/repository/cleanup.ts:289-305 | true exactly when the path is checked out on the branch and the branch was at the head when it was asked |
| WorktreeRemoval.Restore | src/runner/repository/cleanup.ts:339-386 | the answer is FAILED_RETAINED with a branch if and only if that branch is the one to give back (the original where it still is at the expected head, else the recovery branch where it could be created or was at that head already), the worktree could be added on it and its verification held; the log of git effects is exact, with no branch deleted and the recovery branch put at the head exactly when its creation succeeded |
| WorktreeRemoval.RemoveWorktree | src/runner/repository/cleanup.ts:307-387 | under any ref moves between steps: removed if and only if the worktree went and then the branch was deleted while at the expected head; otherwise FAILED_RETAINED with a branch exactly when that branch carries the head and was verified, at its command; the log of git effects is exact |
| WorktreeRemoval.RecoveryBranchIs | src/runner/repository/cleanup.ts:345-347 | the recovery branch is the branch, cut to leave room, and twelve digits of the commit, never longer than 255; it is the branch itself exactly for a full-length branch that already ends so |
| WorktreeRemoval.RemovalIsAllowed | src/runner/repository/cleanup.ts:307-387 | a branch is deleted exactly by a removal that says so, and every effect is on this worktree, its branch at the expected head or its recovery branch |
| WorktreeRemoval.FirstUnmetDemandKeeps | src/runner/repository/cleanup.ts:40-63 | work is kept for the first of the seven demands that is not met, and removed exactly when all are |
| WorktreeRemoval.DiscardKeepsIff | src/runner/repository/worktrees.ts:703-764 | discard keeps the work exactly when an observation differs from the claims, before or after they were consumed, and records that observation and no other reason |
| WorktreeRemoval.WorktreeManager.Keep | src/runner/repository/worktrees.ts:277-296 | an observation recorded in the row |
| WorktreeRemoval.WorktreeManager.Cleanup | src/runner/repository/worktrees.ts:541-660 | rows, answer and log of git effects for every decision: git is touched only on the decision to remove and then exactly as RemoveWorktree does; in every other case the row records why; a call on a row in use that fails has deleted no branch |
| WorktreeRemoval.WorktreeManager.Discard | src/runner/repository/worktrees.ts:703-805 | rows, answer and log of git effects for every decision: work is discarded only on the decision to remove, the row is then marked discarded at the deleted commit, and a call that fails has deleted no branch (observed heads being commits) |
| WorktreeRemoval.WorktreeManager.RecordRestored | src/runner/repository/worktrees.ts:615-636 | after a failed removal the row follows the branch given back, exactly, and is retained again |
| WorktreeRemoval.WorktreeManager.RemoveAndRecord | src/runner/repository/worktrees.ts:607-658 | the removal and the row after it, for each of its three outcomes: marked removed only at the deleted commit, retained on the branch given back, or retained as uncertain |
| WorktreeHistory.RestoredRow | src/runner/repository/worktrees.ts:615-636 | after a failed removal the row follows the branch given back where it may be bound to it, and is then retained as CLEANUP_FAILED where the work can be observed and stored; which errors it answers otherwise and what the row then says; no other row changes |
| WorktreeHistory.RowAfterRemoval | src/runner/repository/worktrees.ts:607-640 | what the row says after a removal was tried: the final state and the commit where the branch is gone and the call is accepted, the branch that was given back where it may be bound to it, and otherwise what it said before; no other row changes |
| WorktreeRuns.DestroysOnlyAsAuthorised | src/runner/repository/worktrees.ts:541-805 | in every run of any number of calls with refs, remotes and worktrees moving between the awaits and crashes anywhere: the events of a call that removed a worktree or deleted a branch are exactly its observations, one consumption between two of equal digest, the removal and then the deletion at the commit seen last, and the claims, the row and the observations are as cleanup or discard demands |
| WorktreeRuns.EveryEventWasTrue | src/runner/repository/cleanup.ts:151-249 | every head read, remote seen, worktree removed and branch deleted in a run was logged by one step, and was so of the refs, remotes and worktrees that step met |
| WorktreeRuns.CleanupDeletesOnlyPublishedWork | src/runner/repository/worktrees.ts:587-614 | whenever cleanup deletes a branch, there was a moment after the consumption and before the deletion at which the remote ref of the row had the deleted commit among its ancestors |
| WorktreeRuns.RemovalIsRecordedIff | src/runner/repository/worktrees.ts:637-640 | a returned call that deleted its branch says success exactly when the database carried out the last statement and, for cleanup, the row was in use; the row then says so for good |
| WorktreeRuns.EveryWorldIsOk | src/runner/repository/worktrees.ts:541-805 | the invariant of those runs: under the lock the row is as it was read, and the events of each call are those its answers determine |
| WorktreeExamples.CleanupSucceeds | src/runner/repository/worktrees.ts:541-660 | a concrete run in which cleanup deletes the branch and the row is REMOVED |
| WorktreeExamples.RemovedWithoutRecord | src/runner/repository/worktrees.ts:637-638 | the same run with the last statement refused by the database: the branch is gone and the row is READY |
| StatusSummary.StatusReadsBack | src/runner/repository/cleanup.ts:65-96 | every list of changes printed in the format of git status -z is read back: no old name of a rename is taken for a record |
| StatusSummary.CleanIffOnlyIgnored | src/runner/repository/cleanup.ts:205-225 | the summary is empty exactly when nothing but ignored files was printed |
| StatusSummary.ReadStatus | src/runner/repository/cleanup.ts:69-96 | the loop with the skipping index computes the summary |
| RepositoryLock.OneAtATimeInOrder | src/runner/repository/worktrees.ts:126-141 | at most one task is inside per repository, in arrival order, and the map has an entry exactly when a task is inside or waits |
| RepositoryLock.FirstWaiterCanEnter | src/runner/repository/worktrees.ts:126-141 | a waiting task can enter, and does at its next step, exactly when every earlier task of its repository has finished |
| RepositoryLock.RepositoryLocks.Request | src/runner/repository/worktrees.ts:126-133 | the part before the await |
| RepositoryLock.RepositoryLocks.Release | src/runner/repository/worktrees.ts:134-141 | the finally block, which deletes the entry only for the last task |
| KeyRotation.RotateConserves | src/server/operations/key-rotation.ts:342-588 | wherever the process dies, after a call rows up to the cursor open under the new class key and the others under the old one, to the cleartexts they had |
| KeyRotation.RewrapConserves | src/server/operations/key-rotation.ts:448-504 | one row transaction moves the cursor over one row and keeps every cleartext; it fails exactly on a revoked row |
| KeyRotation.ContinueConserves | src/server/operations/key-rotation.ts:420-588 | a call that survives answers exactly the outcome computed from the rows before it |
| KeyRotation.CompletesIff | src/server/operations/key-rotation.ts:342-588 | a call completes the rotation if and only if its batch covers the rest and no row of the class is revoked |
| KeyRotation.EmptyBatchWaits | src/server/operations/key-rotation.ts:342-430 | a call with a batch of 0 begins a rotation, or finds the one in progress, reports it as not completed and reseals nothing; more than 1000 is refused |
| KeyRotation.VerifiesIffNoneRevoked | src/server/operations/key-rotation.ts:526-544 | the verification loop passes exactly when no row is revoked |
| KeyRotation.ReadsBackIff | src/server/operations/key-rotation.ts:153-190 | openCredential gives the cleartext exactly when the row is not revoked and not yet under the key of an open rotation |
| CredentialExamples.RotatedRowIsUnreadable | src/server/operations/key-rotation.ts:153-190 | two credentials and one call with a batch of 1: the first does not open, the second does |
| KeyRotation.Began | src/server/operations/key-rotation.ts:366-417 | a new rotation starts with the next version, no progress and a pending key, and keeps the class |
| KeyRotation.SwitchIsOk | src/server/operations/key-rotation.ts:546-570 | the last transaction leaves exactly the new key active and every row under it |
| KeyHistory.CallAnswers | src/server/operations/key-rotation.ts:342-588 | with n credentials the k-th call has processed min(k * batch, n) and says completed exactly when k * batch >= n |
| KeyHistory.RotationTakesCeilingCalls | src/server/operations/key-rotation.ts:342-588 | after max(1, ceil(n / batch)) calls the rotation is over, every revision rose by exactly 1 and the one active key has the next version |
| CredentialWorlds.EveryWorldIsOk | src/server/operations/key-rotation.ts:106-707 | over every history of initialising, sealing, storing, revoking, rotating class keys with crashes and rotating the master key, with anything between the two halves of a put, every class is conserved, provided each stored row was sealed under the key then needed |
| CredentialWorlds.EveryReadIsTheLastPut | src/server/operations/key-rotation.ts:297-327 | in every such history a credential that is not revoked reads back as last stored, once no rotation of its class is open |
| CredentialWorlds.EveryClassHasOneActiveKey | src/server/operations/key-rotation.ts:117-122 | every initialised class has exactly one active key |
| CredentialWorlds.MasterRotationConserves | src/server/operations/key-rotation.ts:590-707 | a master rotation is refused exactly for the current key name or while a class rotates, and no read changes |
| CredentialWorlds.MasterRewrapIsOk | src/server/operations/key-rotation.ts:627-690 | one class under the new master key: a new active version of the same key, the same reads |
| CredentialWorlds.StoreConservesIff | src/server/modules/connectors/credentials.ts:173-232 | the transaction of a put keeps the class conserved if and only if the row was sealed under the key its side of the cursor needs now, whatever happened since it was sealed |
| CredentialWorlds.PutConservesIffAhead | src/server/modules/connectors/credentials.ts:116-239 | a put at whose two halves the same class key is active keeps the class conserved exactly when its row is then beyond the cursor (or old and new key are one) |
| CredentialWorlds.RotateLeavesBehind | src/server/operations/key-rotation.ts:526-544 | after a write behind the cursor no call completes the rotation, and the row stays as written |
| CredentialWorlds.RotateLeavesStranded | src/server/operations/key-rotation.ts:442-504 | a row not yet rotated that is not under the active key stays as it is at every call, and no call completes |
| CredentialExamples.LateWriteBlocksRotation | src/server/modules/connectors/credentials.ts:116-239 | a write accepted on the row already rotated, after which the next call of the rotation fails |
| CredentialExamples.SlowPutIsStranded | src/server/modules/connectors/credentials.ts:150-232 | a put seals, a rotation begins and completes, the put is accepted: no rotation is open, the row is not revoked, it does not open, and no next call completes a rotation |
| CredentialWorlds.RevocationStopsRotation | src/server/modules/identity/revocation.ts:132-136 | once a credential is revoked, in no later history does a rotation of its class complete |
| CredentialExamples.OneRevocationStopsRotation | src/server/modules/identity/revocation.ts:132-136 | one of two credentials revoked, after which the rotation of the class fails |
| CredentialWorlds.TakenIff | src/server/modules/connectors/credentials.ts:178-225 | a new row is refused exactly when its id is taken |
| CredentialWorlds.NoPutIsLost | src/server/modules/connectors/credentials.ts:116-239 | in every history whatever, a put is accepted only while the row of its owner is at exactly the revision it named (none for 0), leaves it at the next one with what it brought, and no two accepted puts of an owner named the same revision |
| CredentialWorlds.PutAnswers | src/server/modules/connectors/credentials.ts:116-156 | every answer of the sealing half as an if and only if: stale exactly when the revision found is not the one named; what is sealed is the next revision of the row of the owner |
| CredentialWorlds.LandAnswers | src/server/modules/connectors/credentials.ts:173-239 | every answer of the storing half: stale exactly when the row is revoked, at another revision, gone or new; a refusal changes nothing |
| CredentialKeys.CredentialKeyManager.constructor | src/server/operations/key-rotation.ts:106-113 | a manager over empty tables |
| CredentialKeys.CredentialKeyManager.InitializeClass | src/server/operations/key-rotation.ts:222-279 | one step of the world |
| CredentialKeys.CredentialKeyManager.OpenCredential | src/server/operations/key-rotation.ts:297-327 | as the specification |
| CredentialKeys.CredentialKeyManager.BeginRotation | src/server/operations/key-rotation.ts:358-418 | the rotation in progress or a new one |
| CredentialKeys.CredentialKeyManager.RewrapBatch | src/server/operations/key-rotation.ts:442-504 | the row loop, cursor and row in one transaction, equals the recursive batch |
| CredentialKeys.CredentialKeyManager.Verify | src/server/operations/key-rotation.ts:526-544 | true exactly when every row opens |
| CredentialKeys.CredentialKeyManager.RotateClassKey | src/server/operations/key-rotation.ts:342-588 | the whole call equals the specification with its answer |
| CredentialKeys.CredentialKeyManager.RotateMasterKey | src/server/operations/key-rotation.ts:590-707 | all classes or none, then the key in memory |
| CredentialKeys.CredentialKeyManager.SealCredential | src/server/modules/connectors/credentials.ts:116-156 | sealCredential up to its await: error codes, and the sealed row that waits; nothing is written; equal to the step that CredentialWorlds.PutAnswers describes |
| CredentialKeys.CredentialKeyManager.StoreCredential | src/server/modules/connectors/credentials.ts:157-239 | the rest of the call: the row of the owner is looked at again and written, or the call is refused; equal to the step that CredentialWorlds.LandAnswers and CredentialWorlds.NoPutIsLost describe |
| Backup.BackupRoundTripIff | src/server/operations/backup.ts:291-440 | reading a new backup gives manifest and database back exactly when the file is within 64 GiB; the file size is 54 + manifest + plaintext + 32 per chunk |
| Backup.ContainerIsAccepted | src/server/operations/backup.ts:343-440 | every container of sealed, framed pieces is accepted and opened when within the limit, however the pieces were cut |
| Backup.AcceptedIsContainer | src/server/operations/backup.ts:343-440 | nothing else is accepted: an accepted file is such a container of exactly the returned manifest and plaintext |
| Backup.FramesReadBack | src/server/operations/backup.ts:393-430 | framed chunks read back to their concatenation and the offset ends exactly at the record length |
| Backup.ReadIsFramed | src/server/operations/backup.ts:393-430 | records the reader accepts are the frames of what it returned |
| Backup.SplitIsWhole | src/server/operations/backup.ts:298-303 | the chunks concatenate to the plaintext, each within the chunk size, their number the ceiling quotient |
| Backup.U32RoundTrip | src/server/operations/backup.ts:280-289 | reading a written 32-bit length gives it back |
| Backup.ReadU32Inverts | src/server/operations/backup.ts:286-289 | writing a read length gives the four bytes back |
| Backup.FileSlices | src/server/operations/backup.ts:313-333 | every field of the file is where the parser looks for it |
| Backup.BuildCiphertextRecords | src/server/operations/backup.ts:291-311 | the loop succeeds exactly when the drawn nonces are 12 bytes and all different, and then returns the framed chunks |
| Backup.DecryptRecords | src/server/operations/backup.ts:393-430 | the loop with its moving offset computes the recursive reader, error codes included |
| BackupRetention.RetentionIsBounded | src/server/operations/backup.ts:861-872 | the kept set has between minimum and maximum members, contains the newest minimum, all others are within age, and its bytes are within the limit unless it is exactly that minimum |
| BackupRetention.NothingMoreFits | src/server/operations/backup.ts:863-872 | no deleted backup could have been kept too: it is too old, the count is full, or its bytes do not fit |
| BackupRetention.KeptAndDeletedAreAll | src/server/operations/backup.ts:873 | kept and deleted together are exactly the usable backups |
| BackupRetention.Select | src/server/operations/backup.ts:861-872 | the greedy loop computes the kept ids and their bytes |
| BackupRetention.Enforce | src/server/operations/backup.ts:805-873 | policy and minimum errors, and otherwise the kept ids and the deletions |
| Octal.PaddedIsFixed | scripts/lib/archive.ts:34-37 | a padded octal number has exactly its width exactly when it is below 8^width |
| Octal.FixedRoundTrip | scripts/lib/archive.ts:34-37 | reading the digits of a field gives the value back |
| Ustar.PortableIff | scripts/lib/archive.ts:9-24 | a path is accepted exactly when it has at most 100 characters of the portable set and none of its segments between slashes is empty, `.` or `..` |
| Ustar.FoldsAlikeIff | scripts/lib/archive.ts:73-82 | two paths count as one exactly when they differ in nothing but the case of their letters |
| Ustar.ChecksumFits | scripts/lib/archive.ts:57-59 | the checksum is at most 512 * 255, below 8^6 |
| Ustar.WriteText | scripts/lib/archive.ts:26-32 | the value is at the offset and the rest as it was, or it is too long and nothing changed |
| Ustar.WriteOctal | scripts/lib/archive.ts:34-37 | fails exactly for a value of too many digits |
| Ustar.CreateHeader | scripts/lib/archive.ts:39-60 | the block filled in place is the ustar header of the entry; it fails exactly for a bad path, size or time |
| UstarArchive.HeaderReads | scripts/lib/archive.ts:39-60 | a ustar reader gets name and size from the header |
| UstarArchive.AttributesRead | scripts/lib/archive.ts:39-60 | every other field of the header reads back: mode 0644, owner and group root with ids 0, the time, no device, no link, the rest zero |
| UstarArchive.ArchiveReads | scripts/lib/archive.ts:76-99 | a ustar reader gets every entry of the archive, in order |
| UstarArchive.ArchiveRoundTrip | scripts/lib/archive.ts:62-100 | for every acceptable list the reader recovers exactly the entries sorted by path, and the length is a multiple of 512 |
| UstarArchive.ArchiveIgnoresOrder | scripts/lib/archive.ts:70-72 | the archive does not depend on the order of the input |
| UstarArchive.SortedIsInOrder | scripts/lib/archive.ts:70-72 | the sorted list is in the order of paths |
| UstarArchive.CollectChunks | scripts/lib/archive.ts:73-92 | the chunks and the accumulated total are those of the archive; it fails exactly for an unacceptable list |
| UstarArchive.CreateUstarArchive | scripts/lib/archive.ts:62-100 | the array copied chunk by chunk is the archive of the sorted entries; it fails exactly for an unacceptable list or epoch |
| Utf8.ChunksAreSound | src/runner/headless-output.ts:33-49 | the chunks concatenate to the text, none empty, none above the limit, each too full for the next code point |
| Utf8.CharBytesIsEncoded | src/runner/headless-output.ts:33-49 | the size of a character is the number of octets of its UTF-8 encoding, which reads back (section 3 of RFC 3629) |
| Utf8.Utf8Chunks | src/runner/headless-output.ts:33-49 | the loop computes the chunks |
| Utf8.HoldbackBounds | src/runner/redaction.ts:17-30 | nothing is lost, and once more than the holdback is present at least the holdback and less than four bytes more stay behind |
| Utf8.SplitWithByteHoldback | src/runner/redaction.ts:17-30 | the loop computes the split |
| Redaction.CleanPush | src/runner/redaction.ts:73-84 | text without marker or secret passes whole, and what stays pending is bounded |
| Redaction.SplitSafeRedactor.RemovePrivateKeys | src/runner/redaction.ts:53-71 | the loop computes the recursive removal |
| Redaction.SplitSafeRedactor.PushText | src/runner/redaction.ts:73-84 | push on one stream, the other untouched |
| Redaction.SplitSafeRedactor.FlushText | src/runner/redaction.ts:86-92 | flush on one stream, the other untouched |
| HeadlessOutput.OutputIsConserved | src/runner/headless-output.ts:74-144 | at every moment what was sent, is being sent, is held back and is queued of a stream make up what was accepted, in order |
| HeadlessOutput.FinishedOutputIsWhole | src/runner/headless-output.ts:137-144 | after finish each stream was sent whole |
| HeadlessOutput.ChunksAreNumbered | src/runner/headless-output.ts:74-89 | on each stream the chunks are numbered 1, 2, 3, ... |
| HeadlessOutput.EveryChunkFits | src/runner/headless-output.ts:74-89 | in every history, failing sends included, every chunk is non-empty and at most 16384 bytes |
| HeadlessOutput.EveryStateIsCounted | src/runner/headless-output.ts:91-133 | in every history, failing sends included, pendingItems and pendingBytes are those of the unfinished entries and within their limits |
| HeadlessProgress.PushAnswers | src/runner/headless-output.ts:115-135 | in every history push is refused as finished exactly after finish was called, and accepted exactly when it was not and the unfinished entries with the new one are within the limits; a refusal changes nothing |
| HeadlessProgress.FinishEnds | src/runner/headless-output.ts:91-144 | from every state in which finish was called and nothing failed since, the steps of the producer alone, sends succeeding, end with both streams flushed and nothing waiting, unless the redactor refuses a text |
| HeadlessProgress.OneStepIsEnabled | src/runner/headless-output.ts:91-144 | until then exactly one such step can be taken |
| HeadlessProgress.HaltedIff | src/runner/headless-output.ts:103-144 | in every history finish fails, and flushes no more, exactly when a send or the redactor threw after it was called |
| HeadlessProgress.TriesAreNumbered | src/runner/headless-output.ts:74-89 | in every history, failing sends included, each send tried takes the next number of its stream, and a chunk has the number of its try |
| HeadlessOutput.HeadlessOutputProducer.constructor | src/runner/headless-output.ts:51-72 | an empty producer: equal to the step |
| HeadlessOutput.HeadlessOutputProducer.PushEvent | src/runner/headless-output.ts:115-135 | push with its two refusals: equal to the step |
| HeadlessOutput.HeadlessOutputProducer.EndEntry | src/runner/headless-output.ts:103-106 | the finally of an entry: equal to the step |
| HeadlessOutput.HeadlessOutputProducer.TakeNext | src/runner/headless-output.ts:94-102 | shift, redact, cut into chunks: equal to the step |
| HeadlessOutput.HeadlessOutputProducer.SendNext | src/runner/headless-output.ts:74-89 | one send and its number: equal to the step |
| HeadlessOutput.HeadlessOutputProducer.FinishEntry | src/runner/headless-output.ts:103-106 | an entry sent whole: equal to the step |
| HeadlessOutput.HeadlessOutputProducer.CallFinish | src/runner/headless-output.ts:137-139 | finish closes the queue: equal to the step |
| HeadlessOutput.HeadlessOutputProducer.FlushStream | src/runner/headless-output.ts:141-143 | the held-back text of the next stream: equal to the step |
| Cache.EveryTableIsOk | src/runner/cache.ts:69-188 | from an empty table every run of puts (over the same key, also for another run) and purges keeps the total bytes and every run's bytes within limits, and each purge keeps exactly the fresh rows |
| Cache.PurgeKeepsExactlyTheFresh | src/runner/cache.ts:182-188 | purgeExpired removes exactly what read calls STALE at that instant; the observed_at clause removes no fresh row |
| Cache.PutAcceptsIffItFits | src/runner/cache.ts:69-150 | a valid fact is accepted exactly when the table with it is within the two byte quotas, however many items it has, and then reads back |
| Cache.PutReplacesOnlyItsRow | src/runner/cache.ts:107-150 | after an accepted put the table holds the new fact under its key, with its bytes and the age of the row it replaced, and every other row as it was; after an error nothing changed |
| Cache.PutRefusesIff | src/runner/cache.ts:69-150 | when put refuses and with which error, in the order of its tests |
| Cache.FullIff | src/runner/cache.ts:100-106 | the test refuses exactly what would break one of the two byte quotas |
| Cache.ItemsPassTheLimitIff | src/runner/cache.ts:101 | a put takes the table over the item limit exactly when the table is full, the key is new and the bytes fit |
| Cache.OnlyBytesBoundItems | src/runner/cache.ts:39-52 | in every run the number of items is bounded by a sixth of the byte quota, six separators being in each fact |
| Cache.AsIntendedIff | src/runner/cache.ts:100-106 | put answers as it would with a test for a missing row exactly where it is not about to take a new key into a full table |
| Cache.IntendedQuotasHold | src/runner/cache.ts:100-106 | with that test all three quotas would hold in every run |
| Cache.ItemLimitIsPassed | src/runner/cache.ts:101 | a concrete run: two facts in a cache for one |
| Cache.RunnerContinuityCache.PutFact | src/runner/cache.ts:69-150 | put equals the specification |
| Cache.RunnerContinuityCache.Read | src/runner/cache.ts:152-181 | read: not found, or the fact with its freshness |
| Cache.RunnerContinuityCache.PurgeExpired | src/runner/cache.ts:182-188 | the remaining rows and the number purged |

## Left out

- DeliveryOrder.EveryWorldIsInOrder: is stated for histories whose durable sends are new events; a resend after the final acknowledgement is treated by DeliveryOrder.ResendKeepsOrderIffNothingLater.
- DeliveryLimits.RestartFailsIffTooManyItems: compares with a restart under unchanged limits, after new events only.
- DeliveryLimits.RequestsAreRetiredByBothAnswers: is stated one way, for requests whose event ids are new; ids used again are treated by DeliveryLimits.OneAnswerRetiresIff.
- WorktreeRemoval.RemoveWorktree: takes each git command as all or nothing and HEAD of the managed worktree as moved by no other process; a command that exits non-zero has changed nothing.
- LaunchFence.StartedAtMostOnce: takes the checks before the enforcement session is activated as one outcome, and reservation ids as never used twice (the generator of ids is a parameter of the source); with a reused id it would not be proved.
- UstarArchive.ArchiveReads: recovers name and content; the other fields of each header are read back by UstarArchive.AttributesRead.
- HeadlessOutput.OutputIsConserved: is stated for text without key markers or secrets, for texts of at most 16384 bytes (which `src/runner/adapters/runtime/bundled.ts:136-139` sees to) and for sends that succeed; what redaction removes is not described.
- Redaction.SplitSafeRedactor.PushText: the regular expressions are search functions of which only the bounds of a match are known.
- Cache.EveryTableIsOk: keeps the limits fixed over the history; a later start with a smaller maximum age is not modelled.
- WorktreeRuns.DestroysOnlyAsAuthorised: is of the calls on one repository, which share a lock; calls on others hold other locks and touch other rows. The parts of an observation besides head, branch and remote, and the recovery after a failed deletion, are what the environment answers; WorktreeRemoval.Restore is that recovery.
- WorktreeRemoval.WorktreeManager.Cleanup: takes the answers of all awaits from one record; their order is the subject of WorktreeRuns.
- ProcessRegistry.LocalProcessRegistry.Update: does not model a database that fails; LaunchFence does, for every statement of a launch.
- ProcessRegistry.LocalProcessRegistry.Exit: does not model a database that fails.
- CredentialKeys.CredentialKeyManager.InitializeClass: does not model the validation of the drawn key id and a database that fails, both of which leave the class as it was.
- BackupRetention.Enforce: takes the usable rows as given; numbers that are no safe integers are not modelled.
- Backup.BuildCiphertextRecords: the manifest's nonce, checked in the same set by the caller, is a condition of Backup.BackupRoundTripIff instead.
- DeliverySafety.CoveredUntilStopIsCalled: takes a store that removes what it is asked to; a failing remove is treated by DeliverySafety.FailedRemoveUncoversIff, one at a time and not within histories. A failing reject throws before anything changes.
- CredentialWorlds.EveryWorldIsOk: takes a rotation call as running while no other process writes. The command that rotates is run offline (`src/server/command.ts:90-104`) and takes no lock; a put by another process between the reading of a batch and the update of its row, which checks no revision, would be lost.
- CredentialWorlds.RevocationStopsRotation: takes the revocation of a member's credentials in any class; the bulk revocation of a restore, which does the same to more rows, is not modelled.
- CredentialKeys.CredentialKeyManager.SealCredential: takes one name for owner kind, owner, connector and credential owner; two owners that collide on one credential, and the length limits, are not modelled.
- CredentialKeys.CredentialKeyManager.RotateMasterKey: a process that dies between the commit and the change of the key in memory is not modelled; the wrapping rows are then already under the new key.
- Creating, adopting and publishing a worktree (`createOrReuse`, `publish`, `previewDiscard`): sequences of validations and git calls around the registry calls that are modelled.
- Counting disk usage, safe paths and commits of an observation: an observation is a value with a digest.
- `quiesce` and the drain and reconnect timers: polling of the queue that is modelled; any timer is a step that may happen at any time.
- Row timestamps are left out except where a branch reads them; the clock does not go backwards, so the CHECK constraints on updated_at hold.
- Character sets of identifiers, CHECK constraints on identity columns and zod schemas are predicates or are left out.
- JSON text is identified with the body it encodes; `containsProhibited` is part of the predicate that accepts an event.
- AES-GCM, HKDF and SHA-256 are abstract: a box, a pair of functions with the laws of sealing, an uninterpreted digest.
- The manifest's canonical JSON is an encoding with a decoding that inverts it.
- Lone surrogates: characters are Unicode scalar values, as TextEncoder writes them.
- Backup files on disk, the assessment of stored backups, restore, and the deletion of files after retention.
- The gzip wrapper around the archive.
- HTTP, WebSocket and process plumbing, schema migrations, the web application and the connectors.
