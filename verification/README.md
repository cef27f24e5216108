# Commit sequencing and its test bench, modelled in Dafny

The repository measures group messaging over MLS (RFC 9420). Its core is a commit-sequencing protocol: a Delivery
Service accepts at most one commit per group epoch and hands it out through per-recipient inboxes or through a group
log with cursors, and workers create, submit, roll back, fetch, skip, apply and acknowledge commits. Around it stand a
command cache, a message relay, a failure-text codec, a CPU affinity planner, a container layout and a log trimmer.
This project models that code and proves what it keeps.

## How the model is organised

- `Mls`, `Client`, `Membership`: MLS reduced to what the client code observes. A commit is a base epoch, a sender and a membership
  effect; it can be processed only at its base epoch. `Client` holds the pending-commit state machine, once as
  functions on values and once as the object that updates its fields. `Membership` says what each command does to the
  member list.
- `DeliverySpec`, `PendingBatch`, `DeliveryService`: the service object, method by method, against specification
  functions. `DeliveryModes` shows that the inbox mode and the log mode offer the same deliveries, and `ServiceModes`
  that the service object in either mode behaves accordingly.
- `Protocol` is a step system: one service, any number of workers, requests that can be processed late or repeatedly,
  a publish split at its two critical sections. `ProtocolInvariant` and `ProtocolSteps` prove an invariant over all
  runs; `ProtocolTheorems` draws the conclusions, `ProtocolRecipients` about who receives a commit, `ProtocolIntents`
  and `ProtocolReliable` about how often an intent is accepted and whether its sender keeps track of it, `ProtocolQueue`
  about the intent that waits for a retry, `ProtocolWelcomes` about whom the Welcomes reach.
  `ProtocolWitness` and `RetryWitness` give concrete runs that show why the hypotheses are there.
- `WorkerSpec`, `WorkerRounds`, `WorkerLoops`: the worker's loops over a log that grows while they run and over replies
  that may be lost, as functions of one call, as rounds of the receive loop, and as the object's methods.
  `StateMismatch`: recognising a stale group-state update from the text of an error.
- `CommandCache`, `MessageRelay`, `RelayInterleaving`, `HeapFailureText`, `HeapFailureExact`, `HeapFailureDetail`,
  `CpuMask`, `Cpuset`, `CpuTopology`, `AffinityPlan`,
  `AffinityCores`, `HybridLayout`, `Bridges`, `JsonlTail`: the other components.
- `Wrappers`, `Decimal`, `Text`, `Multiples`, `Sorting`: shared definitions.

## Assumptions

- The step system and the worker loops are about one group. The worker judges staleness by epoch alone, so nothing
  is claimed for a worker in two groups.
- The step system is in group-log mode. In inbox mode the pushes to the recipients are not one atomic action.
- The OpenMLS library is represented by the behaviour the client relies on: creating a commit while one is pending
  fails, merging a pending commit does nothing when there is none, merging another's commit drops the own pending one,
  and a commit sent by oneself cannot be processed as someone else's.
- A worker executes one command at a time. `Apply` may take any log entry addressed to the worker, so every order of
  fetching, replaying and acknowledging is covered.
- A network reply, a clock reading, a random draw and a dictionary's iteration order are parameters or arbitrary
  choices. Integers are unbounded, except where the code parses a 64-bit number. CPU loads and fractions are exact.
- `CoresDisjoint` and `WellFormed` describe the topology that `detect_cpu_topology` builds: each CPU under one core,
  non-negative ids, only online CPUs on the cores of an SMT host.

## Where the code falls short of what one would expect

- A submit that is processed twice can make the worker roll back a commit that is accepted, and then it can never
  process another commit until it joins again (`StrandedForever`). It happens when the conflict answers a repetition of
  an accepted submit (`RepeatedSubmitStrands`), and also when an early copy is refused, rolled back, and a later copy is
  accepted (`EarlyConflictStrands`). A worker that joins by a Welcome older than its own accepted commit is in the same
  position. `StrandedIff` says that there is no other way.
- A worker that gives up on the reply to a retried commit keeps the intent in its queue even when that commit is
  accepted and merged, so the next foreign commit makes it submit the intent again (`AbandonedRetryIsAcceptedTwice`).
  `IntentAcceptedOnceIff` says for every run exactly when an intent is accepted twice.
- A worker that joined by Welcome and commits before the new members are stored is not among the recipients of its own
  commit, and cannot follow the group until it joins again (`JoinerCommitMissesItsSender`, `UnaddressedForever`).
- `process_pending` can apply one commit more than it reports: the commit is merged and a later request of the same
  call fails. `ProcessPending` states exactly when; `SameRemovalFailsAfterMerge` shows it with a faultless network.
- `receive_commit_delivery` of a worker that is at the expected epoch already fails when its first fetch brings a delivery
  ahead of it that cannot be applied or that removes it (`AlreadyArrived` gives the exact condition).
- Re-inserting a live id into the command cache can hide an expired entry from pruning (`RefreshHidesExpired`).
- A client name that contains the mismatch marker misleads the stale-update check, in both directions
  (`EarlierMarkerMisleads`, `MisledVerdict`).
- A failure line with a text field that holds a space or begins with a double quote is not read back
  (`LineComesBackIff`, `LeadingQuoteIsLost`).
- The overlap check of the affinity validation compares a mask with its own complement and cannot fire
  (`ComplementNeverOverlaps`).
- A worker that is missing from the requested CPU counts asks for one CPU that the total does not include and can be
  left without any (`MissingWorkerIsNotServed`); `ServedInFullIffTotal` gives the exact condition.
- With reserved siblings the workers are served from the list that already holds the siblings, so two of them can share
  a core and a chosen CPU can go unused (`ReservedWorkersCanShareACore`; `SeparateCoresIff` says exactly when not).

## Model

| member | source | states |
|---|---|---|
| ProtocolTheorems.Agreement | OpenMLS_containerized/src/client.rs:551-652 | After any run, a client at epoch e holds exactly the fold of the first e accepted commits, with that very transcript; two clients at the same epoch hold the same state. |
| ProtocolTheorems.LogIsConsecutive | OpenMLS_containerized/src/delivery_service.rs:162-228 | With a publish split into its epoch bump and its log push and every interleaving allowed, log entry i is accepted commit i with epoch i + 1; at most one accepted commit is not yet in the log. |
| ProtocolTheorems.RecipientsAreTheMembers | OpenMLS_containerized/src/delivery_service.rs:169-185 | The recipients of every accepted commit are exactly the membership at the epoch of the last put stored before its acceptance; that epoch is at most its base, and is its base when the committer's own put for it had been answered. |
| ProtocolRecipients.RecipientsWithoutFailures | OpenMLS_containerized/src/worker_api.rs:1008-1027 | Over a run in which no Welcome post and no put is abandoned, every logged commit goes to exactly the members at its base epoch, unless its sender entered that epoch by a Welcome. |
| ProtocolRecipients.UnaddressedApply | OpenMLS_containerized/src/delivery_service.rs:383-404 | A worker to which the next commit is not addressed can apply no log entry. |
| ProtocolRecipients.UnaddressedForever | OpenMLS_containerized/src/delivery_service.rs:383-404 | Over any continuation without a Welcome of its own, such a worker stays at its epoch. |
| ProtocolTheorems.OwnCommitIsAppliedNext | OpenMLS_containerized/src/client.rs:557-651 | A client whose stored pending commit has been accepted still has it staged at its own epoch; the only log entry it can receive is that commit, and through the own-commit branch. |
| ProtocolTheorems.StrandedRejectsAll | OpenMLS_containerized/src/client.rs:557-651 | A client whose own commit was accepted but is no longer stored as pending can receive no log entry at all. |
| ProtocolTheorems.ConflictStrands | OpenMLS_containerized/src/worker_api.rs:1105-1111 | The step of reading a conflict reply leaves the worker stranded right after it if and only if the commit had been accepted by then, or it was stranded before. |
| ProtocolTheorems.StrandedStep | OpenMLS_containerized/src/worker_api.rs:1105-1111 | No step other than joining by a Welcome moves a stranded client to another epoch. |
| ProtocolTheorems.StrandedForever | OpenMLS_containerized/src/worker_api.rs:1105-1111 | Over any continuation without a Welcome of its own, a stranded client stays at its epoch. |
| ProtocolTheorems.RunInv | OpenMLS_containerized/src/delivery_service.rs:162-228 | Every run from the initial state ends in a state that satisfies the protocol invariant. |
| ProtocolTheorems.RunGrowsLog | OpenMLS_containerized/src/delivery_service.rs:205-217 | The log and the list of accepted commits only grow. |
| ProtocolTheorems.LogsFormTimeline | OpenMLS_containerized/src/delivery_service.rs:205-217 | The logs of any run, seen at all its moments, form the timeline that the worker loops assume: consecutive in epochs and only growing. |
| ProtocolSteps.RunKeepsInv | OpenMLS_containerized/src/delivery_service.rs:162-228 | Every legal run keeps the invariant. |
| ProtocolSteps.StepKeepsInv | OpenMLS_containerized/src/worker_api.rs:1170-1245 | Each of the nineteen kinds of step keeps the invariant. |
| ProtocolSteps.ReceiveMerges | OpenMLS_containerized/src/client.rs:551-652 | A log entry that a client receives without error is the accepted commit of its own epoch, and the state after it is the fold one epoch further, or the cleared client when it was removed. |
| ProtocolSteps.ReceiveWelcome | OpenMLS_containerized/src/worker_api.rs:1207-1237 | The Welcome sent after an own commit carries the state that accepted commit leads to. |
| ProtocolSteps.SubmitNetwork | OpenMLS_containerized/src/worker_api.rs:1055-1072 | A new commit is based on an epoch whose commits are all in the log, and is none of the commits submitted before. |
| ProtocolInvariant.InitInv | OpenMLS_containerized/src/client.rs:158-183 | The invariant holds when one worker has created the group. |
| ProtocolInvariant.AcceptService | OpenMLS_containerized/src/delivery_service.rs:169-185 | The service can only accept a commit whose sender had read the whole log: its base equals both the number of accepted and of logged commits. |
| ProtocolInvariant.PushService | OpenMLS_containerized/src/delivery_service.rs:205-217 | After a push nothing is left to be pushed. |
| ProtocolInvariant.PutService | OpenMLS_containerized/src/worker_api.rs:1008-1027 | A group-state put is always stored or stale, never ahead of the service. |
| ProtocolInvariant.AcceptAddressed | OpenMLS_containerized/src/delivery_service.rs:169-185 | The recipient list copied at acceptance is the membership of the epoch of the last stored put. |
| ProtocolIntents.IntentAcceptedOnceIff | OpenMLS_containerized/src/worker_api.rs:1114-1155 | Over every run, whatever the network does, no intent is accepted twice if and only if no accepted commit was submitted for an intent that had been accepted before. |
| ProtocolReliable.PatientRun | OpenMLS_containerized/src/worker_api.rs:1114-1155 | When each submit is processed at most once and no retry is abandoned, no retry is ever submitted for an accepted intent. |
| ProtocolReliable.IntentAcceptedAtMostOnce | OpenMLS_containerized/src/worker_api.rs:1074-1155 | In such a run an intent, however often it is retried, is accepted at most once; replies to first attempts may be lost. |
| RetryWitness.AbandonedRetryIsAcceptedTwice | OpenMLS_containerized/src/worker_api.rs:1105-1105 | A concrete run in which every submit is processed at most once and an intent is accepted twice, because the worker gave up on the reply to a retry that was then accepted. |
| ProtocolReliable.StrandedIff | OpenMLS_containerized/src/client.rs:557-651 | After any run, a worker whose epoch's accepted commit is its own has lost track of it if and only if it created it in an earlier membership period or rolled it back on a conflict reply, before or after the acceptance; otherwise it has it staged and takes the own-commit branch. |
| ProtocolReliable.AcceptedOwnCommitIsHeld | OpenMLS_containerized/src/client.rs:557-651 | When each submit is processed at most once, such a worker has lost track of the commit if and only if it created it in an earlier membership period, whether or not it heard the replies. |
| ProtocolReliable.DisjointRun | OpenMLS_containerized/src/worker_api.rs:564-592 | In such a run no commit is both accepted and rejected. |
| ProtocolQueue.ConflictQueues | OpenMLS_containerized/src/worker_api.rs:1635-1720 | Whatever the request, a worker that reads the conflict undoes its commit, keeps its group and queues exactly the intent it waited for. |
| ProtocolQueue.ConflictedUntilItsFate | OpenMLS_containerized/src/worker_api.rs:1114-1155 | Over any run from that moment the intent is queued until it is accepted, overwritten, or dropped with its removed owner. |
| ProtocolQueue.QueuedUntilItsFate | OpenMLS_containerized/src/worker_api.rs:1635-1720 | Over any run, a queued intent is still queued at the end unless it met one of these three fates on the way. |
| ProtocolQueue.QueuedIntentFate | OpenMLS_containerized/src/worker_api.rs:1114-1245 | A step changes the queued intent if and only if it is one of the three fates. |
| ProtocolQueue.ApplyQueue | OpenMLS_containerized/src/worker_api.rs:1184-1214 | A worker that a commit removes has nothing queued, no group and no pending state; any other commit leaves its queue alone. |
| ProtocolQueue.BegunIsAwaited | OpenMLS_containerized/src/worker_api.rs:1616-1720 | A command that starts is awaited under a new token with a commit that carries out its request. |
| ProtocolQueue.RetrySubmits | OpenMLS_containerized/src/worker_api.rs:1114-1155 | A retry submits the queued intent as a new commit at the current epoch exactly when it can start, and keeps it queued. |
| ProtocolQueue.PutLeadsToRetry | OpenMLS_containerized/src/worker_api.rs:1189-1192 | The retry follows the answered put after an external commit, and no other put. |
| ProtocolQueue.QueuedWasIssued | OpenMLS_containerized/src/worker_api.rs:1616-1720 | In every run, an intent that is awaited or queued is a command that this worker was given. |
| ProtocolWelcomes.ApplyPosts | OpenMLS_containerized/src/worker_api.rs:1207-1245 | After its own accepted commit a worker posts the Welcome with the new group state to exactly the names the commit adds, each as often as it is listed; after any other commit it posts none. |
| ProtocolWelcomes.WelcomesGoToTheAdded | OpenMLS_containerized/src/worker_api.rs:1216-1232 | Over every run, each posted or stored Welcome is for a name that an accepted commit adds, with the state after that commit; and each name a worker's commit adds is still to be posted or has been answered. |
| ProtocolWelcomes.PostDoneTakesOne | OpenMLS_containerized/src/worker_api.rs:1216-1232 | An answered post takes one listing of its recipient off the list. |
| ProtocolWelcomes.JoinerIsMember | OpenMLS_containerized/src/client.rs:440-477 | In every run, whoever joins from a stored Welcome is a member of the group it joins. |
| ProtocolWelcomes.JoinerTakesTheOldest | OpenMLS_containerized/src/client.rs:440-477 | A joiner is in exactly the group of the oldest stored Welcome with nothing pending, or in none when it cannot be read. |
| ProtocolWelcomes.WelcomesAreTakenInOrder | OpenMLS_containerized/src/delivery_service.rs:292-301 | Over any run, the Welcomes stored for a name are those taken, once each and in order, followed by those still stored. |
| ProtocolWitness.RepeatedSubmitStrands | OpenMLS_containerized/src/worker_api.rs:564-592 | A concrete run in which a submit processed twice is answered with a conflict and leaves its sender stranded: the at-most-once hypothesis is needed. |
| ProtocolWitness.EarlyConflictStrands | OpenMLS_containerized/src/delivery_service.rs:169-185 | A concrete run in which a submit is refused before the group is registered, the sender rolls back without being stranded, and a second copy of the submit is accepted later and strands it. |
| ProtocolWitness.JoinerCommitMissesItsSender | OpenMLS_containerized/src/delivery_service.rs:169-185 | A concrete run in which a worker that joined by Welcome commits before the new members are put: the recipients are not the members, the sender is not among them and is left behind at its epoch. |
| Client.StartKeepsCoherent | OpenMLS_containerized/src/client.rs:215-247 | Starting an epoch change leaves the group as it is and stores a commit based on the current epoch. |
| Client.RollbackUndoesStart | OpenMLS_containerized/src/client.rs:425-438 | Rolling back undoes a start. |
| Client.ReceiveMergesOnce | OpenMLS_containerized/src/client.rs:551-652 | A commit not behind the client is received without error only at its own epoch, advances the state by exactly that merge, and clears everything exactly when the client is no longer a member. |
| Client.ClientObject.constructor | OpenMLS_containerized/src/client.rs:65-92 | A new client is in no group and has nothing pending. |
| Client.ClientObject.Start | OpenMLS_containerized/src/client.rs:269-336 | The fields after adding, removing or updating are those of StartEpochChange; on an error nothing changes. |
| Client.ClientObject.Rollback | OpenMLS_containerized/src/client.rs:425-438 | The fields after a rollback are those of RollbackPendingCommit; without a group nothing changes. |
| Client.ClientObject.CleanUp | OpenMLS_containerized/src/client.rs:249-267 | A client that is not in its own member list forgets the group and all pending state. |
| Client.ClientObject.Receive | OpenMLS_containerized/src/client.rs:551-652 | The fields after receiving a commit, branch by branch, are those of ReceiveCommit; on an error nothing changes. |
| Client.ClientObject.Join | OpenMLS_containerized/src/client.rs:440-477 | Joining drops the old group and pending state even when the Welcome cannot be read. |
| Membership.MergedMembership | OpenMLS_containerized/src/client.rs:269-423 | Once the commit of a started command is merged, an add has kept every member and added each listed name, a removal of members with distinct names has kept exactly the others in their order, and an update has changed nobody. |
| Membership.StartsIff | OpenMLS_containerized/src/client.rs:269-423 | A command starts exactly in a group with no commit pending, and a removal only when every listed name is a member. |
| Membership.FindMembersIff | OpenMLS_containerized/src/client.rs:352-360 | The lookup succeeds exactly when all names are members, and holds exactly the first leaf of each of them. |
| Membership.AddLeafAt | OpenMLS_containerized/src/client.rs:306-315 | A new member takes the leftmost blank leaf, or a new leaf at the right when there is none. |
| Mls.Fold | OpenMLS_containerized/src/client.rs:630-651 | The reference state of a history of commits has the history as its transcript and its length as its epoch. |
| Mls.FindMember | OpenMLS_containerized/src/client.rs:338-350 | Finds the first leaf with a name, and none only when the name is not a member. |
| DeliverySpec.DeliveryIdNamesOneCommit | OpenMLS_containerized/src/delivery_service.rs:445-447 | For colon-free group ids, two delivery ids of one recipient are equal if and only if group, epoch and sender are. |
| DeliverySpec.DeliveryIdCollision | OpenMLS_containerized/src/delivery_service.rs:445-447 | With a colon in a group id, commits of two groups can share an id. |
| DeliverySpec.AckNamesOneEntry | OpenMLS_containerized/src/delivery_service.rs:417-442 | With colon-free group ids and ascending logs an acknowledgement names one log entry. |
| DeliverySpec.RetainShortens | OpenMLS_containerized/src/delivery_service.rs:246-263 | Acknowledging shortens an inbox exactly when it held the id. |
| DeliverySpec.CursorsNeverDecrease | OpenMLS_containerized/src/delivery_service.rs:417-442 | An acknowledgement never moves a cursor back and touches one cursor only. |
| DeliverySpec.PublishKeepsUnacked | OpenMLS_containerized/src/delivery_service.rs:205-217 | A publish to any group leaves every unacked commit unacked. |
| DeliverySpec.AckRetires | OpenMLS_containerized/src/delivery_service.rs:417-442 | Acknowledging an entry retires it and the earlier entries of its log for that recipient, and no others. |
| DeliveryService.Service.constructor | OpenMLS_containerized/src/delivery_service.rs:89-101 | A new service holds nothing. |
| DeliveryService.Service.PutGroupState | OpenMLS_containerized/src/delivery_service.rs:118-149 | Stores the members only at the stored epoch, or for an unknown group; otherwise reports the mismatch and changes nothing. |
| DeliveryService.Service.Accept | OpenMLS_containerized/src/delivery_service.rs:169-185 | The first critical section: check the epoch, copy the members, advance the epoch. |
| DeliveryService.Service.Deliver | OpenMLS_containerized/src/delivery_service.rs:187-217 | The second: one entry at the end of the group's log, or one delivery per listed recipient, duplicates included. |
| DeliveryService.Service.PublishGroupCommit | OpenMLS_containerized/src/delivery_service.rs:162-228 | Both together, with the whole new state; a rejected commit changes nothing. |
| DeliveryService.Service.FetchGroupLogCommit | OpenMLS_containerized/src/delivery_service.rs:374-415 | Returns nothing exactly when nothing is unacked, and otherwise the group, epoch, sender and commit of an unacked entry whose epoch is least over all groups, although the scan takes the first match per group. |
| DeliveryService.Service.AckGroupLogCommit | OpenMLS_containerized/src/delivery_service.rs:417-442 | Succeeds exactly when the id names an entry, and then moves the cursor to that entry's epoch or leaves it further ahead. |
| ServiceModes.PublishedIsOffered | OpenMLS_containerized/src/delivery_service.rs:162-228 | In either mode and with any number of groups: after an accepted publish, a stored member without a pending delivery is offered this commit of this sender in this group at the next epoch, and no one else without a pending delivery is offered anything. |
| DeliverySpec.LogInStep | OpenMLS_containerized/src/delivery_service.rs:162-228 | Publishing keeps every log ascending up to the epoch of its group, and every cursor behind it. |
| DeliverySpec.AckInStep | OpenMLS_containerized/src/delivery_service.rs:417-442 | Acknowledging keeps every cursor behind the epoch of its group. |
| DeliverySpec.EpochsNeverDecrease | OpenMLS_containerized/src/delivery_service.rs:118-185 | Neither a put nor an accepted publish takes the epoch of any group back. |
| DeliveryService.Service.FetchNextPendingCommit | OpenMLS_containerized/src/delivery_service.rs:356-372 | The delivery offered in the mode of the service, with the group, epoch, sender and commit of the entry it stands for. |
| DeliveryService.Service.PublishWelcome | OpenMLS_containerized/src/delivery_service.rs:292-297 | A Welcome goes to the back of its recipient's queue, and no other queue changes. |
| DeliveryService.Service.FetchWelcome | OpenMLS_containerized/src/delivery_service.rs:299-301 | The oldest Welcome leaves its queue with the fetch; nothing exactly when the queue is empty. |
| ServiceModes.BothOffer | OpenMLS_containerized/src/delivery_service.rs:356-372 | Two new service objects in different modes, driven by the same puts, publishes and acknowledgements on one group, offer every recipient the same delivery. |
| ServiceModes.OfferAfter | OpenMLS_containerized/src/delivery_service.rs:162-263 | Operations on the object lead to the end of the run of its mode, and the fetch that follows gives its offer. |
| ServiceModes.Perform | OpenMLS_containerized/src/delivery_service.rs:162-263 | Each operation on the object is exactly one step of the mode it runs in. |
| ServiceModes.LeastIsFirst | OpenMLS_containerized/src/delivery_service.rs:374-415 | With one group, the unacked commit of least epoch that is fetched is the first eligible entry of its log. |
| ServiceModes.OfferedAgain | OpenMLS_containerized/src/delivery_service.rs:235-244 | In either mode, a delivery that is offered is offered again after any operations but acknowledgements by its recipient. |
| DeliveryModes.LogOfferStays | OpenMLS_containerized/src/delivery_service.rs:374-415 | In log mode no operation but the recipient's own acknowledgement changes what is offered to it. |
| DeliveryModes.InboxOfferStays | OpenMLS_containerized/src/delivery_service.rs:363-372 | The same in inbox mode. |
| DeliveryService.Service.AckCommit | OpenMLS_containerized/src/delivery_service.rs:246-263 | Acknowledgement in either mode, with the exact condition of success. |
| DeliveryService.Service.FetchPendingCommits | OpenMLS_containerized/src/delivery_service.rs:265-290 | The batch is sorted by epoch and group id, and within each group it is exactly the eligible log entries in log order. |
| DeliveryService.Service.CollectPendingCommits | OpenMLS_containerized/src/delivery_service.rs:265-282 | Before sorting, every group's eligible entries have been collected, once each. |
| PendingBatch.InsertSorts | OpenMLS_containerized/src/delivery_service.rs:284-288 | Stable insertion by (epoch, group id) keeps a batch sorted. |
| PendingBatch.TextBeforeIff | OpenMLS_containerized/src/delivery_service.rs:284-288 | Group ids are compared by their first difference, and a prefix comes before its extensions. |
| PendingBatch.InsertAppends | OpenMLS_containerized/src/delivery_service.rs:284-288 | Sorting does not reorder the entries of one group. |
| PendingBatch.EligibleAreLogged | OpenMLS_containerized/src/delivery_service.rs:269-282 | Only log entries newer than the given epoch and addressed to the client are collected. |
| PendingBatch.EligibleAscends | OpenMLS_containerized/src/delivery_service.rs:269-282 | The entries collected from one log ascend in epochs. |
| DeliveryModes.ModesOfferTheSame | OpenMLS_containerized/src/delivery_service.rs:356-442 | After any sequence of puts, publishes and acknowledgements of what is offered, the inbox mode and the log mode offer every recipient the same delivery, duplicate names included. |
| DeliveryModes.RunMatches | OpenMLS_containerized/src/delivery_service.rs:189-217 | Over such a sequence every inbox equals the deliveries due from the log and the cursor. |
| DeliveryModes.StepMatches | OpenMLS_containerized/src/delivery_service.rs:246-263 | Each operation keeps that correspondence. |
| DeliveryModes.DueHead | OpenMLS_containerized/src/delivery_service.rs:374-415 | The head of what is due is the first unacked log entry. |
| DeliveryModes.RetainDue | OpenMLS_containerized/src/delivery_service.rs:246-263 | Dropping all deliveries with the offered id is moving the cursor to that entry. |
| DeliveryModes.FirstEligibleIsLeast | OpenMLS_containerized/src/delivery_service.rs:383-404 | In an ascending log the first eligible entry has the least epoch. |
| DeliveryModes.IdDeterminesEpoch | OpenMLS_containerized/src/delivery_service.rs:445-447 | Within one group and inbox, ids determine epochs, whatever characters the names hold. |
| WorkerLoops.WorkerObject.TryStartIntent | OpenMLS_containerized/src/worker_api.rs:1074-1112 | Published leaves a commit pending that carries out the request at the current epoch, a conflict rolls it back, and it fails exactly when the intent cannot start or the submit is not answered; the group never changes. |
| WorkerLoops.WorkerObject.MaybeRetryPendingIntent | OpenMLS_containerized/src/worker_api.rs:1114-1155 | The queued intent leaves the queue only when its commit was published; the exact condition of failure. |
| WorkerLoops.WorkerObject.PostWelcomes | OpenMLS_containerized/src/worker_api.rs:1212-1233 | Succeeds exactly when every Welcome post does. |
| WorkerLoops.WorkerObject.ApplyCommitBytes | OpenMLS_containerized/src/worker_api.rs:1170-1245 | The commit is merged exactly when the client accepts it, even when a later request of the call fails; succeeds if and only if no request after the merge fails. |
| WorkerLoops.WorkerObject.FetchPending | OpenMLS_containerized/src/delivery_service.rs:374-415 | The oldest log entry after the cursor that is addressed to the recipient. |
| WorkerLoops.WorkerObject.ReceiveCommitDelivery | OpenMLS_containerized/src/worker_api.rs:1272-1371 | Terminates while others keep publishing (measure: epochs missing, then stale deliveries left). Its answer, counters, cursor and final state are those of the last of its rounds, each of which is a turn of WorkerRounds; whatever acknowledgements are lost, the state advances by consecutive log entries, once each. |
| WorkerLoops.WorkerObject.ReceiveRound | OpenMLS_containerized/src/worker_api.rs:1283-1369 | One pass of the loop: fetch, then skip and acknowledge, or apply and acknowledge. |
| WorkerLoops.WorkerObject.ApplyDelivery | OpenMLS_containerized/src/worker_api.rs:1342-1352 | Applying a delivery ahead of the client merges the next log entry or nothing, and when it fails it has merged exactly in the late-failure case. |
| WorkerLoops.WorkerObject.ApplyBatch | OpenMLS_containerized/src/worker_api.rs:1477-1515 | The whole outcome of applying the batch in order up to the first failure; the epoch is the start epoch plus the counted commits, plus one if and only if LateFailure holds of the state, the queue, the batch and the replies at the call. |
| WorkerLoops.WorkerObject.ProcessPending | OpenMLS_containerized/src/worker_api.rs:1451-1584 | When the commits leave some of the budget, the answer to the Welcome request decides: a readable Welcome is counted and the client is in exactly its group with nothing pending, an unreadable one ends the call in an error and in no group, none changes nothing; the same for the application message. Success if and only if no phase failed and the expected epoch is reached. The commit phase has merged one commit more than counted if and only if LateFailure holds at the call. |
| WorkerLoops.WorkerObject.CommitPhase | OpenMLS_containerized/src/worker_api.rs:1471-1515 | The commit phase: nothing when it is not asked for, an error when the commits cannot be fetched, otherwise the batch. |
| WorkerSpec.SameRemovalFailsAfterMerge | OpenMLS_containerized/src/worker_api.rs:1184-1192 | A concrete late failure on a faultless network: a queued removal of a member whom the winning commit removes. |
| WorkerSpec.FailsAfterMergeIff | OpenMLS_containerized/src/worker_api.rs:1170-1245 | A call fails after its merge exactly when the client accepts the commit and the call is not a success. |
| WorkerSpec.NoLateFailure | OpenMLS_containerized/src/worker_api.rs:1477-1515 | With every request answered and nothing queued no batch of commits has a late failure. |
| WorkerSpec.AdvanceAppends | OpenMLS_containerized/src/worker_api.rs:1272-1371 | Advancing by n appends exactly the next n log entries to the transcript. |
| WorkerSpec.BatchAscends | OpenMLS_containerized/src/delivery_service.rs:265-290 | The batch a worker is given ascends strictly from its own epoch. |
| WorkerRounds.NextCommitIsReceived | OpenMLS_containerized/src/worker_api.rs:1272-1371 | With every request answered and nothing queued, a worker whose next commit is in the log, addressed to it and receivable applies exactly that commit, and succeeds with one commit processed. |
| WorkerRounds.CatchesUp | OpenMLS_containerized/src/worker_api.rs:1272-1371 | With every request answered and nothing queued, a worker to which the entries up to the expected epoch are addressed, and which can receive them in turn without being removed, succeeds at exactly that epoch and acknowledges all of them. |
| WorkerRounds.FailureHasAReason | OpenMLS_containerized/src/worker_api.rs:1272-1371 | A call fails if and only if in its last round a delivery ahead of the client cannot be applied, or the expected epoch is not reached and the round finds nothing, is not answered, or cannot acknowledge a stale delivery. |
| WorkerRounds.AnsweredFailure | OpenMLS_containerized/src/worker_api.rs:1272-1371 | With every request answered and nothing queued, a failure means that nothing is left for the client or that a commit ahead of it cannot be received. |
| WorkerRounds.AlreadyArrived | OpenMLS_containerized/src/worker_api.rs:1272-1371 | A worker already at the expected epoch succeeds if and only if its first fetch does not bring a delivery ahead of it that fails or removes it. |
| WorkerRounds.OutsideFails | OpenMLS_containerized/src/worker_api.rs:1272-1371 | A worker in no group fails in its first round. |
| WorkerRounds.CallAdvances | OpenMLS_containerized/src/worker_api.rs:1272-1371 | What every call keeps, whatever the network does: consecutive entries once each, no acknowledgement ahead of the client, none missing when all requests are answered. |
| WorkerSpec.ApplyMerges | OpenMLS_containerized/src/worker_api.rs:1170-1245 | Applying a commit merges it exactly when it is received, whatever happens to the requests that follow. |
| WorkerSpec.BatchReceivesAll | OpenMLS_containerized/src/worker_api.rs:1477-1515 | With every request answered and nothing queued, a batch succeeds exactly when each commit can be received in turn, and then applies all of them. |
| WorkerSpec.PhaseCatchesUp | OpenMLS_containerized/src/worker_api.rs:1471-1515 | The commit phase then takes a worker to which all further entries are addressed to the end of the log, or as far as its budget goes, exactly when it can receive them. |
| StateMismatch.ParseMismatchRoundTrip | OpenMLS_containerized/src/worker_api.rs:1029-1047 | Both epochs are recovered from any text whose first marker is the one of the formatted mismatch. |
| StateMismatch.StalePutIsRecognised | OpenMLS_containerized/src/worker_api.rs:1049-1053 | A rejected put is recognised as stale if and only if the service has moved past its epoch, whenever no marker stands in the text before that of the service. |
| StateMismatch.UpdateSucceedsIff | OpenMLS_containerized/src/worker_api.rs:1008-1027 | A group-state update succeeds if and only if the service does not know the group or is not behind the worker. |
| StateMismatch.MarkerIsFirstWithoutX | OpenMLS_containerized/src/worker_api.rs:1029-1047 | The marker of the service comes first when neither the text before its message nor the group id holds an x. |
| StateMismatch.EarlierMarkerMisleads | OpenMLS_containerized/src/worker_api.rs:1029-1047 | A client name that contains the marker is parsed in place of the service's message. |
| StateMismatch.MisledVerdict | OpenMLS_containerized/src/worker_api.rs:1049-1053 | For a client with such a name a refused update is skipped as stale if and only if its own epoch is the one in the name, whether the service is ahead or behind. |
| StateMismatch.ParsedIff | OpenMLS_containerized/src/worker_api.rs:1029-1047 | On every text: both epochs are read exactly from a text with the two markers, each followed by a number of 64 bits. |
| StateMismatch.StaleIff | OpenMLS_containerized/src/worker_api.rs:1049-1053 | An error is taken as stale if and only if its text mentions the worker's own epoch as refused and a later one as expected. |
| CommandCache.InsertKeepsItself | OpenMLS_containerized/src/worker_api.rs:341-366 | An insert keeps ids distinct and the size bound, and never evicts the entry it stores. |
| CommandCache.PruneRemovesExactlyExpired | OpenMLS_containerized/src/worker_api.rs:368-391 | Pruning from the front removes only expired entries, and all of them if and only if no expired entry stands behind a live one. |
| CommandCache.FreshInsertKeepsOrder | OpenMLS_containerized/src/worker_api.rs:341-366 | Inserting an id that is not live keeps the entries in completion order. |
| CommandCache.RefreshHidesExpired | OpenMLS_containerized/src/worker_api.rs:341-366 | Re-inserting a live id can leave an expired entry where pruning does not reach it. |
| CommandCache.UseKeepsTidy | OpenMLS_containerized/src/bin/worker.rs:642-804 | A command (look up, run on a miss, store) keeps the cache distinct, bounded and ordered. |
| CommandCache.UsesStayTidy | OpenMLS_containerized/src/bin/worker.rs:642-804 | Over any sequence of commands the size bound holds and every prune removes exactly the expired entries. |
| CommandCache.KeysListed | OpenMLS_containerized/src/worker_api.rs:316-323 | A duplicate-free listing of the map's keys is as long as the map. |
| CommandCache.FoundWithinTtl | OpenMLS_containerized/src/worker_api.rs:334-339 | With entries in completion order, an entry completed at t is found at now if and only if now - t is at most the time to live. |
| CommandCache.RepeatedCommandIsAnswered | OpenMLS_containerized/src/bin/worker.rs:642-804 | A command that was run and is repeated within the time to live, with fewer than max_entries commands in between, finds its stored response. |
| CommandCache.Cache.constructor | OpenMLS_containerized/src/worker_api.rs:325-332 | A new cache is empty. |
| CommandCache.Cache.PopOldest | OpenMLS_containerized/src/worker_api.rs:360-365 | Removes the front id from the queue and the map. |
| CommandCache.Cache.PruneExpired | OpenMLS_containerized/src/worker_api.rs:368-391 | The queue stays a duplicate-free listing of the map's keys; the contents are the pruned contents. |
| CommandCache.Cache.Get | OpenMLS_containerized/src/worker_api.rs:334-339 | Prunes, then answers exactly the ids still listed with their stored response. |
| CommandCache.Cache.StoreEntry | OpenMLS_containerized/src/worker_api.rs:348-358 | A present id keeps its place, a new one goes to the back. |
| CommandCache.Cache.Insert | OpenMLS_containerized/src/worker_api.rs:341-366 | The whole new contents; the queue stays a duplicate-free listing within the bound. |
| MessageRelay.InboxIsLive | OpenMLS_containerized/src/message_relay.rs:45-122 | After any history an inbox is, in publish order, the messages addressed to its owner by others minus those acked since. |
| MessageRelay.IdDeterminesNumber | OpenMLS_containerized/src/message_relay.rs:164-166 | Within one inbox a message id determines its sequence number, whatever characters the names hold. |
| MessageRelay.AckNamesOnePublish | OpenMLS_containerized/src/message_relay.rs:106-122 | Two publishes to one recipient never share an id. |
| MessageRelay.NumbersIncrease | OpenMLS_containerized/src/message_relay.rs:58-58 | Each publish takes a larger number. |
| MessageRelay.RelayObject.constructor | OpenMLS_containerized/src/message_relay.rs:33-39 | Empty inboxes, numbering from 1. |
| MessageRelay.RelayObject.PublishMessage | OpenMLS_containerized/src/message_relay.rs:45-86 | The inboxes and the counter after a publish; an empty recipient list is refused without taking a number. |
| MessageRelay.RelayObject.AckMessage | OpenMLS_containerized/src/message_relay.rs:106-122 | The inboxes after an acknowledgement, and whether it removed anything. |
| RelayInterleaving.InboxIsLive | OpenMLS_containerized/src/message_relay.rs:57-86 | With publishes that take a number and then push to one inbox after the other, interleaved with anything, an inbox is at every moment what was pushed to it, in that order, minus what was acked since. |
| RelayInterleaving.AckRemovesOnePublish | OpenMLS_containerized/src/message_relay.rs:106-122 | At every moment of such an interleaving, envelopes of one inbox with the same id are copies of one publish. |
| RelayInterleaving.PushesCount | OpenMLS_containerized/src/message_relay.rs:60-77 | A publish is pushed to each name but its sender exactly as often as it has gone through that name. |
| RelayInterleaving.UninterruptedIsAtomic | OpenMLS_containerized/src/message_relay.rs:45-86 | Without interruption the pushes amount to the publish of the object. |
| MessageRelay.FrontIsOldestUnacked | OpenMLS_containerized/src/message_relay.rs:124-143 | After any history the message that is fetched is that of the earliest publish to the recipient which the recipient has not acknowledged since, and nothing is fetched exactly when there is none. |
| MessageRelay.MessageIsAsPublished | OpenMLS_containerized/src/message_relay.rs:60-77 | Every message in an inbox has the id, group, sender and content of a publish by another to its owner that the owner has not acknowledged since. |
| RelayInterleaving.MessageIsAsPublished | OpenMLS_containerized/src/message_relay.rs:60-77 | The same at every moment of an interleaving. |
| HeapFailureText.RoundTrip | OpenMLS_containerized/scripts/resource_experiment_failures.py:340-348 | For fields without spaces and without a leading quote, parsing the printed line gives a dictionary with every printed key, its exact value and no other key, the quoted detail with its equals signs included. |
| HeapFailureExact.LineComesBackIff | OpenMLS_containerized/scripts/resource_experiment_failures.py:337-348 | Every key of a printed line is read back with its value if and only if no text field holds a space or begins with a quote. |
| HeapFailureText.DictionaryDeterminesFailure | OpenMLS_containerized/scripts/resource_experiment_failures.py:340-348 | Two such failures give the same dictionary if and only if they agree in every field. |
| HeapFailureText.OperationParsed | OpenMLS_containerized/src/embedded_heap_budget.rs:119-125 | The dictionary holds the operation, phase, member count and epoch under their own names. |
| HeapFailureText.ProfileParsed | OpenMLS_containerized/src/embedded_heap_budget.rs:126-130 | The same for the worker, its resource profile and its budget. |
| HeapFailureText.HeapParsed | OpenMLS_containerized/src/embedded_heap_budget.rs:131-135 | The same for the five heap sizes. |
| HeapFailureText.CountParsed | OpenMLS_containerized/src/embedded_heap_budget.rs:136-140 | The same for the allocation counts, the failed size, the span and the context. |
| HeapFailureText.DetailParsed | OpenMLS_containerized/src/embedded_heap_budget.rs:167-188 | The detail is read back exactly as the worker phrased it. |
| HeapFailureDetail.DetailReadsBack | OpenMLS_containerized/src/embedded_heap_budget.rs:167-188 | The numbers after "member_count = " and "epoch = " in the detail of a line that is read back are those fields, or missing when they are; the budget it names reads as the budget in bytes. |
| HeapFailureDetail.BudgetReads | OpenMLS_containerized/src/embedded_heap_budget.rs:227-236 | The budget text reads back as the number of bytes. |
| HeapFailureDetail.OperationNamesDiffer | OpenMLS_containerized/src/embedded_heap_budget.rs:211-225 | Operations with a display name of their own have different names. |
| HeapFailureText.MessageMatches | OpenMLS_containerized/src/embedded_heap_budget.rs:88-165 | The matches of the parser on the printed line are the printed pairs in order, then the detail. |
| HeapFailureText.ValueComesBack | OpenMLS_containerized/scripts/resource_experiment_failures.py:337-348 | An unquoted value is read back if and only if it holds no space and does not begin with a quote. |
| HeapFailureText.LeadingQuoteIsLost | OpenMLS_containerized/scripts/resource_experiment_failures.py:337-348 | A value that begins with a quote loses it. |
| HeapFailureText.QuotedComesBack | OpenMLS_containerized/scripts/resource_experiment_failures.py:337-348 | A quoted text without quotes is read back with everything in it. |
| HeapFailureText.FieldsMatch | OpenMLS_containerized/src/embedded_heap_budget.rs:88-165 | A list of readable pairs is matched pair by pair. |
| HeapFailureText.WordIff | OpenMLS_containerized/scripts/resource_experiment_failures.py:337-348 | Keys are matched as runs of letters, digits and underscores. |
| HeapFailureText.CollectKeepsLast | OpenMLS_containerized/scripts/resource_experiment_failures.py:344-348 | A key keeps the value of its last match. |
| HeapFailureText.ParseFailure | OpenMLS_containerized/scripts/resource_experiment_failures.py:340-348 | Nothing without the tag, otherwise all matches collected. |
| HeapFailureText.Unquoted | OpenMLS_containerized/src/embedded_heap_budget.rs:88-165 | The printed detail holds no double quote. |
| CpuMask.CpuListToMask | benchmark_scripts/cpu_mask_util.py:4-16 | Succeeds exactly on distinct CPUs from 0 to 1023, and then has exactly their bits. |
| CpuMask.MaskToCpuList | benchmark_scripts/cpu_mask_util.py:19-27 | The set bits, ascending. |
| CpuMask.ListRoundTrip | benchmark_scripts/cpu_mask_util.py:4-27 | List to mask to list gives the ascending distinct CPUs, and an ascending list itself. |
| CpuMask.MaskRoundTrip | benchmark_scripts/cpu_mask_util.py:4-27 | Mask to list to mask gives the mask. |
| CpuMask.OverlapIffShared | benchmark_scripts/cpu_mask_util.py:83-84 | Masks overlap if and only if they share a CPU. |
| CpuMask.ComplementBit | benchmark_scripts/cpu_mask_util.py:87-88 | The complement holds exactly the online CPUs outside the mask. |
| CpuMask.MaskExtensional | benchmark_scripts/cpu_mask_util.py:4-27 | A mask is determined by its bits. |
| Cpuset.CpuListToDockerCpuset | benchmark_scripts/cpu_mask_util.py:30-47 | The text is the comma-joined runs of consecutive CPUs. |
| Cpuset.DockerCpusetToCpuList | benchmark_scripts/cpu_mask_util.py:50-80 | The ascending distinct CPUs of all ranges, or the first part that is in error. |
| Cpuset.CpusetRoundTrip | benchmark_scripts/cpu_mask_util.py:30-80 | Reading a printed list gives back the printed ranges, which cover exactly the list. |
| Cpuset.PrintAndRead | benchmark_scripts/cpu_mask_util.py:30-80 | Printing any list of CPUs and reading the text gives its ascending distinct CPUs. |
| Cpuset.SplitJoin | benchmark_scripts/cpu_mask_util.py:47-57 | Splitting at commas undoes joining. |
| Cpuset.ParseShown | benchmark_scripts/cpu_mask_util.py:57-80 | Printed ranges are parsed as the same ranges. |
| Cpuset.RangesCover | benchmark_scripts/cpu_mask_util.py:39-46 | The ranges of the loop cover exactly the CPUs seen and to come. |
| Cpuset.SpelledIsRead | benchmark_scripts/cpu_mask_util.py:57-80 | Blanks, an optional sign, and digits with single underscores between them are read as that number. |
| Cpuset.ReadIsSpelled | benchmark_scripts/cpu_mask_util.py:57-80 | Nothing else is read as a number. |
| Cpuset.StripIgnoresBlanks | benchmark_scripts/cpu_mask_util.py:57-80 | Blanks around a text are stripped, and nothing else. |
| CpuTopology.GetOnlineCpuList | benchmark_scripts/cpu_topology.py:160-161 | Exactly the online CPUs, ascending. |
| CpuTopology.SortByLoadSorts | benchmark_scripts/cpu_topology.py:275-275 | Sorted by (load, id), with the same CPUs. |
| CpuTopology.MakePool | benchmark_scripts/cpu_topology.py:261-273 | The physical CPUs when there are enough of them, all candidates otherwise. |
| CpuTopology.PhysicalAre | benchmark_scripts/cpu_topology.py:259-270 | With a preference for physical cores exactly the CPUs marked as SMT siblings are set aside. |
| CpuTopology.PrefixIsLeastLoaded | benchmark_scripts/cpu_topology.py:275-277 | Every CPU of the selected prefix has a smaller (load, id) than every other CPU of the pool. |
| CpuTopology.SelectLeastLoadedCpus | benchmark_scripts/cpu_topology.py:227-288 | Fails exactly when there are too few candidates; picks exactly the requested number of the least loaded online CPUs of the pool; returns them ascending, with their siblings when reserved. |
| CpuTopology.GetSmtSiblings | benchmark_scripts/cpu_topology.py:291-304 | Exactly the other CPUs on the cores of the given CPUs, when SMT is on. |
| AffinityPlan.CreateAffinityPlan | benchmark_scripts/cpu_affinity_planner.py:55-197 | Fails exactly when an online CPU has no mask bit or too few CPUs are online; otherwise the lists and masks of the plan are what Planned says, and the selection is what Picked says: the least loaded CPUs of the pool, as many as requested, and their core mates when reserved. |
| AffinityCores.AssignedAreLeastLoaded | benchmark_scripts/cpu_topology.py:275-277 | Without reservation every assigned CPU has a smaller (load, id) than every CPU of the pool that was not chosen, and the assigned CPUs are the chosen ones when the workers use up the total. |
| AffinityCores.ReservedWorkersCanShareACore | benchmark_scripts/cpu_affinity_planner.py:102-106 | A concrete host on which, with reserved siblings, two workers are put on one core and a CPU chosen by load goes unused. |
| AffinityCores.SeparateCoresIff | benchmark_scripts/cpu_affinity_planner.py:102-106 | With reserved siblings no two assigned CPUs share a core if and only if each of the first CPUs of the selection, as many as the workers ask for, is the first of its core. |
| AffinityCores.WorkersOnSeparateCores | benchmark_scripts/cpu_affinity_planner.py:102-106 | That is so when the CPUs chosen by load are on separate cores and the host numbers first threads before second ones. |
| AffinityPlan.MakeAssignments | benchmark_scripts/cpu_affinity_planner.py:98-134 | Worker i gets the slice of the selection between the running sums of counts. |
| AffinityPlan.Reserve | benchmark_scripts/cpu_affinity_planner.py:140-147 | The reserved mask holds the assigned CPUs and, when asked for, those that share a core with one. |
| AffinityPlan.ServedInFullIff | benchmark_scripts/cpu_affinity_planner.py:102-106 | Every worker gets as many CPUs as it asks for if and only if the slices end within the selection. |
| AffinityPlan.ServedInFullIffTotal | benchmark_scripts/cpu_affinity_planner.py:102-106 | Without reservation that is so if and only if the workers together ask for no more than the dictionary's total. |
| AffinityPlan.MissingWorkerIsNotServed | benchmark_scripts/cpu_affinity_planner.py:104-104 | A concrete request in which a worker missing from the dictionary asks for one CPU, gets none, and is reported by the validation. |
| AffinityPlan.TotalCovers | benchmark_scripts/cpu_affinity_planner.py:71-74 | Distinct workers that are all in the dictionary ask for no more than the dictionary's total. |
| AffinityPlan.WorkersGetTheirOwnCpus | benchmark_scripts/cpu_affinity_planner.py:98-134 | For distinct workers with positive counts, all listed and with matching thread counts, the CPU sets are online, disjoint and of the requested sizes. |
| AffinityPlan.BackgroundIsApart | benchmark_scripts/cpu_affinity_planner.py:136-150 | Background CPUs are online and not assigned, all such CPUs without reservation, and with reserved siblings share no core with a profiled worker; the masks do not overlap. |
| AffinityPlan.PlanValidates | benchmark_scripts/cpu_affinity_planner.py:277-316 | For such a request validation of the plan reports nothing. |
| AffinityPlan.ValidateAffinityPlan | benchmark_scripts/cpu_affinity_planner.py:277-316 | On any plan: no errors if and only if no CPU is assigned twice, no worker has 0 CPUs and thread counts match; fails only on lists without a mask. |
| AffinityPlan.ComplementNeverOverlaps | benchmark_scripts/cpu_affinity_planner.py:292-298 | The overlap check of the validation can never fire. |
| AffinityPlan.NoRepeatsIff | benchmark_scripts/cpu_affinity_planner.py:283-290 | No repetition is reported if and only if all assigned CPUs are distinct. |
| AffinityPlan.NoCountComplaintsIff | benchmark_scripts/cpu_affinity_planner.py:305-314 | No count is complained about if and only if every worker has CPUs and matching threads. |
| AffinityPlan.GoodRequestIsServed | benchmark_scripts/cpu_affinity_planner.py:102-106 | The concatenated assignments are an initial part of the selection, so no CPU is skipped or used twice. |
| AffinityPlan.DefaultCountsAreGood | benchmark_scripts/cpu_affinity_planner.py:71-72 | Without a dictionary every worker is listed once with a positive count. |
| AffinityPlan.DefaultCountIsOne | benchmark_scripts/cpu_affinity_planner.py:71-72 | Without a dictionary every listed worker has the count 1, and no other worker is listed. |
| AffinityPlan.RequestedCounts | benchmark_scripts/cpu_affinity_planner.py:71-72 | A request with a dictionary is planned with it, any other with one CPU for each worker. |
| AffinityPlan.SliceBounds | benchmark_scripts/cpu_affinity_planner.py:103-107 | The slices behave as in Python for bounds of any sign and size. |
| HybridLayout.ComputeHybridLayout | OpenMLS_containerized/scripts/generate_compose.py:450-469 | Between 1 and all workers are singletons; singletons and packed clients add up to all, singletons and containers to the physical workers. |
| HybridLayout.SingletonsAreEnough | OpenMLS_containerized/scripts/generate_compose.py:456-459 | The singleton count is the least one that meets both the minimum and the fraction, or everyone. |
| HybridLayout.ContainersAreEnough | OpenMLS_containerized/scripts/generate_compose.py:461-461 | The containers are the fewest that hold the packed clients. |
| HybridLayout.MiddlesAscend | OpenMLS_containerized/scripts/generate_compose.py:489-494 | The evenly spaced picks are different candidates; clipping to the last one never acts. |
| HybridLayout.StrataAscend | OpenMLS_containerized/scripts/generate_compose.py:495-502 | The strata are non-empty, disjoint and cover the candidates. |
| HybridLayout.SelectSingletonIds | OpenMLS_containerized/scripts/generate_compose.py:472-504 | Both strategies, whatever the random generator draws, pick exactly the requested number of distinct workers, worker 1 among them: evenly spaced, the candidates that cover the centres of equal strata; otherwise one candidate from each stratum. |
| HybridLayout.BuildHybridLayout | OpenMLS_containerized/scripts/generate_compose.py:576-651 | Each client is hosted as often as it is listed, the client table leads to its host, and packs are non-empty and within their size. |
| HybridLayout.GenerateHybridLayout | OpenMLS_containerized/scripts/generate_compose.py:1234-1255 | Every logical client is hosted exactly once and listed in the client table with its host; the built worker count is the computed one. |
| HybridLayout.NamesAreDistinct | OpenMLS_containerized/scripts/generate_compose.py:594-629 | No two physical workers share a name. |
| HybridLayout.ReadPad | OpenMLS_containerized/scripts/generate_compose.py:183-184 | Zero-padded ids determine their number. |
| HybridLayout.EveryClientOnce | OpenMLS_containerized/scripts/generate_compose.py:1249-1251 | Singletons and packed clients together are every client once. |
| Bridges.BridgesAreBalanced | OpenMLS_containerized/scripts/generate_compose.py:757-764 | The loads of two bridges differ by at most one. |
| Bridges.LoadIsEven | OpenMLS_containerized/scripts/generate_compose.py:757-764 | A bridge carries the integer share of the workers or one more. |
| Bridges.BridgeIndexIff | OpenMLS_containerized/scripts/generate_compose.py:757-764 | The workers of a bridge are a contiguous range. |
| Bridges.BridgeInRange | OpenMLS_containerized/scripts/generate_compose.py:757-764 | Every worker is put on an existing bridge. |
| Bridges.LoadsAddUp | OpenMLS_containerized/scripts/generate_compose.py:757-764 | The loads add up to the number of workers. |
| JsonlTail.RecordFile.Trim | OpenMLS_containerized/scripts/run_compose_benchmark.py:3236-3260 | For every content and block size the file is cut to its longest prefix that is empty or ends in a newline, and the dropped bytes are counted; a missing file is left alone. |
| JsonlTail.LongestIsUnique | OpenMLS_containerized/scripts/run_compose_benchmark.py:3236-3260 | That prefix is unique, so the block size does not matter. |
| JsonlTail.TrimIsIdempotent | OpenMLS_containerized/scripts/run_compose_benchmark.py:3236-3260 | Trimming again drops nothing. |
| JsonlTail.LinesAreKept | OpenMLS_containerized/scripts/run_compose_benchmark.py:3236-3260 | No complete line is lost. |
| JsonlTail.PartialLineIsDropped | OpenMLS_containerized/scripts/run_compose_benchmark.py:3236-3260 | Complete records followed by a partial line: exactly the records are kept. |
| JsonlTail.LastNewline | OpenMLS_containerized/scripts/run_compose_benchmark.py:3254-3254 | The position of the last newline of a block, or -1. |

## Left out

- MLS cryptography, key schedules and wire encoding: represented by the abstract commit.
- HTTP clients, retry sleeping, timeouts and semaphores: only their effect, a step that fails, is late or is repeated.
- Several groups on one worker: see the assumptions.
- The inbox mode under concurrency: `ModesOfferTheSame` is about atomic publishes.
- MessageRelay.RelayObject.PublishMessage: one atomic step on the object, while the relay locks one inbox after the other; the interleaved pushes are in `RelayInterleaving`.
- WorkerLoops.WorkerObject.UpdateDsGroupState: takes every mismatch reply as stale; that a mismatch is always stale is `PutService`.
- Key packages, ratchet trees and the application-message decryption path: they carry no sequencing state.
- Cpuset.DockerCpusetToCpuList: non-ASCII digits and non-ASCII blanks, which Python accepts in numbers, are read as errors.
- HybridLayout.SelectSingletonIds: sorts by worker number; the source sorts the five-digit texts, which is the same order up to 99999 workers.
- HybridLayout.BuildHybridLayout: URLs, profiling flags and resource limits of the entries are not modelled.
- AffinityCores.WorkersOnSeparateCores: a sufficient condition; the exact one is `SeparateCoresIff`.
- ProtocolReliable.IntentAcceptedAtMostOnce: a sufficient condition on the run; the exact one is `IntentAcceptedOnceIff`.
- AffinityPlan.CreateAffinityPlan: warnings, host name, timestamps, container names and the mode "none" plan are not modelled beyond the flag that switches validation off.
- Rounding of floating-point numbers in loads, fractions and strata.
- Detecting the topology from lscpu, sampling /proc/stat, writing plans and compose files, device back ends, cgroup sampling, CSV and JSON writers, profiling and metrics: input and output, or settled branch by branch.
- The Signal variant of the benchmark: its scripts mostly repeat the ones modelled here.
