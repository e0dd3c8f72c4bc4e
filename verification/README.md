# Verified model of the TrueNAS infra provider for Omni

This project models the parts of the provider whose guarantees are about whole runs rather than single calls, and
proves those guarantees with Dafny 4.11. `dafny verify dfyconfig.toml` checks all of it.

1. **Node rotation and the autoscaler it must exclude.** `RotationPlan` is the decision of one tick, `RotationEngine`
   the writes on MachineSet annotations and `MachineCount`, as strings on mutable resources, and `Requests` the
   counting loops and the in-place sort that fixes the order of victims. The other modules are runs in which a tick is
   split into its discovery and its writes, and may be cut off in between. In `SurgeLedger`,
   `InPlaceRotation` and `RotationExclusion` class, requests and count may be edited by anyone at any time;
   `SurgeConvergence` and `InPlaceConvergence` fix the generation and let only the MachineRequestSet controller and
   the machines move; `Autoscaler` interleaves replicas, manual edits and lock changes.
2. **The singleton lease.** `Lease` is the object and its update callbacks; `LeaseRuns` lets any number of instances
   interleave, with every update split into the callback that reads a version and the compare-and-swap that may lose,
   land, or land behind an error. `LeaseExclusion` and `LeaseEpochs` hold the theorems.
3. **The WebSocket transport.** `Transport` is the shared state and its critical sections, `TransportRuns` the
   interleavings of calls, uploads, closers, readers and reconnects, `TransportSafety` what they keep and
   `TransportProgress` what a call can still achieve in them.
4. **Orphan cleanup.** `VmNames` is the name and description codecs, `Cleanup` the deletion pass as it deletes one
   resource at a time, `CleanupPasses` what one pass and several passes guarantee.

Methods of classes perform what the code performs in place and are tied by their postconditions to functions on
values; the theorems about runs are about those functions. A run is a sequence of steps, and every theorem quantifies
over all of them. "Exactly when" marks a statement proved in both directions.

## Where the code does less than its documentation suggests

- The default lease timings, 15 s refresh and 45 s staleness, do not give mutual exclusion even with punctual ticks:
  a holder may be in its third tick when its heartbeat turns stale. Exclusion holds exactly when StaleAfter is more
  than three refresh intervals, whereas `New` asks for two (`DefaultsAreNotExclusive`, `MutualExclusionIff`).
- The "monotonically-increasing" fencing number drops exactly when its owner releases the lease
  (`EpochDropsIffReleased`). It then starts again at 1 in all runs exactly when StaleAfter is more than three tick gaps;
  otherwise, and with the defaults, an instance that was displaced without noticing can take the released lease back by
  a refresh and resurrect its old epoch (`ReleaseRestartsNumberingIff`, `OldEpochComesBack`).
- Switching a class to the in-place strategy in mid-cycle makes the engine tear a member down and clear the lock but
  not the surge phase, and the autoscaler scales inside the cycle (`SwitchLetsScalingIn`).
- A class edit during wait-up that makes the replacement stale as well leaves the engine waiting forever
  (`WaitUpStallsIffAllStale`).
- In-place rotation of a set whose members are all stale never starts unless min-healthy is 0 (`InPlaceStartsIff`).
- A teardown does not look at the class or the request again before it destroys: a fresh request is lost exactly when
  the class is set back to the target's generation, or the target replaced, in between (`FreshIsNeverLostIff`).
- At the top of the 32-bit range the surge wraps the count to zero, and so does an autoscaler maximum above it, and
  nothing else does (`CrashSafeIff`, `ScalingIsExactIff`).
- The two lock readers, which the comments call consistent, differ on negative timestamps read within one TTL of the
  epoch, and nowhere else (`LockReadersAgree`).
- The provider prefix in VM names does not keep two providers on one host apart (`ProvidersCanCollide`); which names
  collide is settled exactly by `NamesCollideIff`.
- A request id with a closing parenthesis is read back cut short from its VM's description, and cleanup can then delete
  the VM of a live request; `ProvisionedSurvivesIff` has the exact condition.
- Cleanup of a renamed VM takes two passes and first removes the volume of a live request
  (`RenamedVMTakesTwoPasses`).

## Model

| member | source | states |
|---|---|---|
| `Requests.FreshCount` | internal/noderotation/discovery.go:430-440 | the loop counts exactly the members that are not stale and are PROVISIONED |
| `Requests.StaleRequests` | internal/noderotation/discovery.go:444-454 | the loop returns the stale members in listing order |
| `Requests.CountStaleProvisioned` | internal/noderotation/plan.go:272-281 | the loop counts the PROVISIONED members of the list it is given |
| `Requests.HasInFlightProvisioning` | internal/noderotation/plan.go:257-265 | true exactly when some member is PROVISIONING |
| `Requests.Sink` | internal/noderotation/discovery.go:578-588 | the inner loop extends the sorted prefix by one member and permutes the array |
| `Requests.SortRequestsByCreatedAt` | internal/noderotation/discovery.go:571-590 | the in-place sort leaves a permutation ordered by creation time, then ID |
| `Requests.LexLeqIff` | internal/noderotation/discovery.go:583 | IDs are ordered as strings are: a prefix first, otherwise by the first character that differs |
| `Requests.SortedOrderIsCanonical` | internal/noderotation/discovery.go:571-590 | with distinct IDs two listings of the same requests sort to the same sequence |
| `Requests.StaleHeadIsOldest` | internal/noderotation/discovery.go:442-454 | in a sorted listing the first stale request is the least of all stale ones |
| `Requests.CountSplit` | internal/noderotation/plan.go:142 | fresh plus stale provisioned members are the provisioned members the surge floor is about |
| `RotationAnnotations.LockRoundTrip` | internal/noderotation/discovery.go:478-496 | the lock reads back as written exactly when the generation has no colon; with one it is rejected as a whole |
| `RotationAnnotations.SurgePhaseRoundTrip` | internal/noderotation/discovery.go:519-557 | every surge phase with a count that is not negative reads back to the second; a negative count never does |
| `RotationAnnotations.LockHoldsIff` | internal/noderotation/discovery.go:471-492 | for every 64-bit second a lock holds exactly for one TTL from it, and not at all when the second is too far ahead for a Go time |
| `RotationAnnotations.AnnotationTexts` | internal/noderotation/discovery.go:494-496 | the stored texts, letter by letter |
| `RotationAnnotations.LockReadersAgree` | internal/autoscaler/rotation_lock.go:54-66 | the engine's and the autoscaler's lock readers agree on every string exactly when the clock is at least ttl minus one second past the epoch |
| `RotationAnnotations.WrittenLockVisibility` | internal/autoscaler/rotation_lock.go:60-65 | a written lock is seen exactly while less than one TTL has passed since the start of its second |
| `RotationPlan.GateIff` | internal/noderotation/plan.go:30-51 | a class with an outdated stamp is stamped and nothing else; otherwise a set without a surge phase waits exactly while less than one TTL has passed since its lock's second |
| `RotationPlan.StoredLockHoldsUpIff` | internal/noderotation/discovery.go:460-492 | a lock stored by the engine holds up other steps exactly until one TTL after the start of the second it was written in, as the reader of the stored string has it |
| `RotationPlan.InPlaceWaitsIff` | internal/noderotation/plan.go:70-100 | past the gate, exactly when the in-place strategy does nothing, waits for a member, or stops at the floor |
| `RotationPlan.SurgeDecisionIff` | internal/noderotation/plan.go:123-251 | past the gate, exactly when the surge strategy does nothing, waits, drops the count, completes or aborts in each phase |
| `RotationPlan.AbortIffDrift` | internal/noderotation/plan.go:164-220 | a cycle is aborted exactly when the stamped surge strategy finds a count other than its phase expects |
| `RotationPlan.PlanFollowsPhases` | internal/noderotation/plan.go:123-251 | surge decisions move none, wait-up, wait-down, none, keep the original count, and a foreign lock never blocks an own cycle |
| `RotationPlan.TeardownIff` | internal/noderotation/plan.go:41-109 | an in-place teardown is planned exactly when the class is stamped, no lock younger than the TTL blocks a set without a phase, some member is stale, none provisioning and the floor met, and then it targets the oldest stale request |
| `RotationPlan.SurgeUpIff` | internal/noderotation/plan.go:30-160 | a cycle starts exactly when the class is stamped, no phase is stored and no lock younger than the TTL, some member is stale and min-healthy members are provisioned |
| `RotationEngine.MachineSetResource.SetLock` | internal/noderotation/engine.go:284-293 | the lock annotation is rewritten and nothing else, or nothing at all |
| `RotationEngine.MachineSetResource.ClearLock` | internal/noderotation/engine.go:295-304 | the lock annotation alone is removed, or nothing |
| `RotationEngine.MachineSetResource.ClearSurgeAndLock` | internal/noderotation/engine.go:272-282 | both annotations go in one write and the count stays |
| `RotationEngine.MachineSetResource.WithSurgeStep` | internal/noderotation/engine.go:235-268 | lock, phase and count change together, or nothing does; refused without an allocation or below zero |
| `RotationEngine.Engine.WithLockTTL` | internal/noderotation/engine.go:76-83 | the lock TTL is what was asked for, but at least 30 seconds |
| `RotationEngine.Engine.TeardownRequest` | internal/noderotation/engine.go:167-192 | destroys the target exactly when it is live and reachable and, with a provider ID set, both of its labels are still those of this provider and set |
| `RotationEngine.Engine.TeardownWithLock` | internal/noderotation/engine.go:197-218 | which of no lock, lock left and lock released each failure of the three writes leaves |
| `RotationEngine.Engine.Execute` | internal/noderotation/engine.go:100-143 | for each action, when it is done, fails or has nothing to do, and the count, the text of each annotation, the class stamp and the requests it then leaves |
| `RotationEngine.ExecuteRefines` | internal/noderotation/engine.go:100-304 | executing on the stored strings and reading them back is reading them and executing on values |
| `RotationEngine.Engine.TickOne` | internal/noderotation/reconciler.go:224-252 | a candidate's planned decision leaves exactly what that decision leaves for the writes that get through, and only its planned target can be destroyed |
| `RotationEngine.Engine.Tick` | internal/noderotation/reconciler.go:201-271 | one decision per candidate whatever happens to the others: each set is left as its decision leaves it, exactly the planned targets that may be destroyed are gone, and each class planned for a stamp has it |
| `SurgeLedger.SurgeLedgerInEveryRun` | internal/noderotation/engine.go:220-282 | with the count edited by anyone at any time it is initial plus external changes, plus one in wait-up, plus the aborts taken from wait-up |
| `SurgeLedger.CrashSafeCountInEveryRun` | internal/noderotation/plan.go:126-242 | as sole writer, wherever a run is cut, phase annotation and count agree on the nominal count and no abort is ever planned |
| `SurgeLedger.CrashSafeIff` | internal/noderotation/engine.go:235-268 | from every idle state, all sole-writer runs keep annotation and count in agreement exactly when the count leaves room for one more in 32 bits |
| `SurgeLedger.TopOfRangeWraps` | internal/noderotation/engine.go:246-258 | from every set at the largest count that is ready to surge the count wraps to zero and the next plan aborts |
| `SurgeLedger.StampedOnce` | internal/noderotation/plan.go:30-36 | a stamp that landed is planned again exactly when the class's generation has changed since |
| `SurgeConvergence.SurgeFloorInEveryRun` | internal/noderotation/plan.go:142-205 | with plans written late or never, during every cycle at least as many members are provisioned as at its start, hence at least min-healthy, whichever member is removed |
| `SurgeConvergence.SurgeConverges` | internal/noderotation/plan.go:111-251 | every run, plans written late or dropped included, does bounded work, and one with none left is idle at the nominal count, all fresh, after exactly one surge up and one surge down per stale member |
| `SurgeConvergence.Progress` | internal/noderotation/plan.go:123-251 | after every run that is not finished the reconciler or the controller can move rotation forward or get ready to |
| `SurgeConvergence.RotationCanFinish` | internal/noderotation/plan.go:123-251 | every run can be continued to a finished one |
| `SurgeConvergence.WaitUpStallsIffAllStale` | internal/noderotation/plan.go:178-192 | wait-up lasts forever in all runs exactly when a class edit made all surged members stale and no drop was planned before |
| `InPlaceRotation.EveryVictimIsRightful` | internal/noderotation/plan.go:70-109 | whatever changes between a plan and its three writes, every destroyed request was the oldest stale one of a discovery that met the floor with nothing provisioning; unless class generation or target changed, it was still stale when destroyed |
| `InPlaceRotation.OnlyVictimsDisappear` | internal/noderotation/engine.go:167-218 | in a run in which nobody else touches the requests exactly the recorded victims are gone, each destroyed once, and every other request is as it was |
| `InPlaceRotation.TeardownEnds` | internal/noderotation/engine.go:197-218 | a teardown that runs to its end takes its target alone and leaves the set without a lock; one cut off after the destroy leaves a lock that is live for exactly five minutes from its second |
| `InPlaceRotation.PendingTeardownLosesFreshIff` | internal/noderotation/engine.go:197-218 | any teardown in flight can go on to lose a fresh request exactly when a return of the class to the target's generation, or a replacement of the target, may come before its destroy |
| `InPlaceRotation.FreshIsNeverLostIff` | internal/noderotation/engine.go:126-129 | no run destroys a request of the live generation exactly when those two edits are ruled out, all others being allowed at any time |
| `InPlaceRotation.UnusedGenerationsAreSafe` | internal/noderotation/engine.go:126-129 | nothing fresh is lost when the class is only ever set to generations that no live request carries and requests are not replaced |
| `InPlaceConvergence.DestroyRemovesOneStale` | internal/noderotation/engine.go:167-192 | a destroy removes one stale member and keeps every other member and the order, however long ago it was planned |
| `InPlaceConvergence.EveryDestroyIsRightful` | internal/noderotation/plan.go:85-108 | under a fixed generation every destroy takes what is then the oldest stale member while min-healthy fresh ones are provisioned |
| `InPlaceConvergence.FreshSurvivesEveryRun` | internal/noderotation/plan.go:70-109 | under a fixed generation, with ticks cut off anywhere, no fresh request is ever destroyed, and teardowns plus remaining stale members are constant |
| `InPlaceConvergence.InPlaceConverges` | internal/noderotation/plan.go:70-109 | from a state that meets the floor, with any teardown in flight or lock left over, every run does bounded work and drains the stale members in exactly as many teardowns |
| `InPlaceConvergence.LockedWhileDestroying` | internal/noderotation/engine.go:197-218 | from the lock write to its release, in every run, abandoned ticks included, no teardown is planned until five minutes after the start of the second of the write, and the lock ends exactly then |
| `InPlaceConvergence.ReleaseUnlocks` | internal/noderotation/engine.go:295-304 | after the release no lock is left until another one is written |
| `InPlaceConvergence.InPlaceStartsIff` | internal/noderotation/plan.go:85-100 | some run tears a member down exactly when one is stale and the rest are enough for min-healthy |
| `Autoscaler.ScaleWriter.IncreaseMachineCount` | internal/autoscaler/writer.go:74-131 | it succeeds exactly for a positive delta, an unlocked reachable set, and discovered size and live count that both stay within the discovered maximum; then, and only then, the live count grows by the delta; failures in the order the checks are made |
| `Autoscaler.ClassifyIff` | internal/autoscaler/discovery.go:208-262 | a group is shown its configured window, or exactly its current size while the lock is younger than five minutes |
| `Autoscaler.PausedGroupIsNeverScaled` | internal/autoscaler/discovery.go:231-262 | a group discovered under a live lock admits no positive delta, whatever the live set looks like later |
| `Autoscaler.WriteLandsIff` | internal/autoscaler/writer.go:74-131 | in every interleaving a replica's write lands, adding its delta, exactly when the delta is positive, the set was unlocked at discovery and is now, and neither the size seen nor the live count would pass the maximum; otherwise nothing changes |
| `Autoscaler.StaleDiscoveryLandsIff` | internal/autoscaler/writer.go:83-122 | after a discovery at one count and an edit to another, a scale-up lands on the edited count exactly when both leave room below the maximum |
| `Autoscaler.ScalingIsConserved` | internal/autoscaler/writer.go:91-125 | for all interleavings of replicas and edits the count is initial plus edits plus landed deltas, and no write lands for a replica that saw a lock or above its maximum |
| `Autoscaler.ScalingIsExactIff` | internal/autoscaler/writer.go:109-122 | for every bound on the maxima in use, the sum holds without wrapping in all runs exactly when the bound fits 32 bits |
| `Autoscaler.LargeMaximumWraps` | internal/autoscaler/writer.go:122 | for every maximum of 2^32 or more an accepted scale-up can shrink the set to zero |
| `RotationExclusion.CycleIsAlwaysLocked` | internal/noderotation/engine.go:105-118 | under the condition of the next row the autoscaler sees a live lock at every moment of every cycle of every run |
| `RotationExclusion.RotationExcludesScalingIff` | internal/autoscaler/writer.go:91-107 | no scale-up lands inside a surge cycle in any run exactly when (stamp ticks in a row + 1) tick gaps plus one second fit into the TTL and the class is not switched to in-place in mid-cycle |
| `RotationExclusion.SwitchLetsScalingIn` | internal/noderotation/plan.go:41-61 | from every cycle on a set the in-place strategy would take a member from, such a switch and one tick let a scale-up land inside the cycle |
| `Lease.NewConfigIff` | internal/singleton/singleton.go:159-169 | durations that are not positive take the defaults, the rest is accepted unchanged exactly when the stale limit is at least two refreshes, and acceptance is stable |
| `Lease.HeldByOtherIff` | internal/singleton/singleton.go:325-393 | another's lease is respected exactly while its heartbeat, or without one the server's timestamp, is younger than the stale limit; an unreadable heartbeat protects nobody |
| `Lease.Lease.constructor` | internal/singleton/singleton.go:179-184 | a new lease has no epoch, no takeover and is not lost |
| `Lease.Lease.RunAcquireCallback` | internal/singleton/singleton.go:295-355 | refused exactly for a fresh lease of another, with memory untouched; otherwise our id, now and our epoch are written, the epoch being the remembered one for an own lease and the stored one plus one, with the takeover mark, for any other |
| `Lease.Lease.CasAcquire` | internal/singleton/singleton.go:290-362 | the update over any number of overtaken passes leaves memory, result and store as the outcome function says |
| `Lease.CasWritesOverLastVersion` | internal/singleton/singleton.go:290-362 | the update writes over the version of its last pass only, with that version's next epoch unless it was our own, and is refused exactly on a version another holds |
| `Lease.Lease.Acquire` | internal/singleton/singleton.go:209-280 | three attempts with failing reads, creates and updates and with other writers before each request leave memory, result and store as the outcome function says, and a success stores our id and in-memory epoch |
| `Lease.AcquireAnswersIff` | internal/singleton/singleton.go:209-280 | for all four answers exactly when they are given: the first attempt in which the resource did not vanish decides; it succeeds when it creates or lands its update, is refused on seeing a fresh lease of another, fails when one of its requests failed |
| `Lease.AcquireMeans` | internal/singleton/singleton.go:209-280 | a success created the resource at epoch 1 or claimed a version nobody else held; a refusal saw a fresh lease of another; giving up saw the resource gone every time |
| `Lease.FailedAcquireKeepsClaim` | internal/singleton/singleton.go:255-362 | an Acquire that fails at a create leaves epoch 1 in memory, and at an update over a foreign lease that lease's next epoch and the takeover mark |
| `Lease.Lease.DoRefresh` | internal/singleton/singleton.go:471-512 | stolen exactly for another owner or an epoch past ours, an error exactly when unreachable or gone, otherwise our id, a heartbeat of now and our epoch are stored; nothing but a success writes |
| `Lease.Lease.Run` | internal/singleton/singleton.go:420-466 | Lost is closed exactly at the first theft or third failure in a row, and never on cancellation |
| `Lease.LossAtIff` | internal/singleton/singleton.go:420-466 | a tick loses the lease exactly when it finds it stolen or fails after two failures since the last success |
| `Lease.Lease.Release` | internal/singleton/singleton.go:518-555 | clears owner, heartbeat and epoch of an own lease, and leaves any other alone |
| `LeaseRuns.OnlyStaleLeasesAreTaken` | internal/singleton/singleton.go:315-352 | in every run ownership leaves an instance only by its release or by a takeover of a stale or unreadable lease, never by a refresh |
| `LeaseRuns.FreshHolderIsNeverDisplaced` | internal/singleton/singleton.go:315-393 | in every run, an owner whose heartbeats stay younger than the stale limit from some moment on still owns the lease at the end |
| `LeaseRuns.ThirdFailureStops` | internal/singleton/singleton.go:420-466 | in every run a failed tick stops an instance exactly when it is the third since the last heartbeat the instance knows it has written |
| `LeaseExclusion.MutualExclusion` | internal/singleton/singleton.go:290-512 | with a stale limit above three tick gaps every run has at most one active instance, through failures, crashes, takeovers and releases |
| `LeaseExclusion.ExclusiveIffPatient` | internal/singleton/singleton.go:420-465 | for every stale limit and every bound on the ticks, all runs exclude exactly when the limit is more than three tick gaps |
| `LeaseExclusion.MutualExclusionIff` | internal/singleton/singleton.go:159-169 | of the configurations `New` accepts exactly those with StaleAfter above three refreshes exclude in all runs |
| `LeaseExclusion.DefaultsAreNotExclusive` | internal/singleton/singleton.go:61-70 | the default timings are accepted and do not exclude |
| `LeaseEpochs.EpochCountsOwners` | internal/singleton/singleton.go:255-362 | without releases the stored epoch is the initial one plus the changes of owner |
| `LeaseEpochs.OwnerKnowsEpoch` | internal/singleton/singleton.go:295-355 | in every run, releases included, an active owner's memory has the stored epoch, and an inactive one's that or none, despite lost writes |
| `LeaseEpochs.StolenMeansAnotherOwner` | internal/singleton/singleton.go:476-493 | in every run a refresh reports theft exactly when another id is stored, so the branch for an advanced epoch is unreachable |
| `LeaseEpochs.EpochDropsIffReleased` | internal/singleton/singleton.go:518-533 | in every run, releases included, a step lowers the stored epoch exactly when it is its owner's release and the epoch was above 0 |
| `LeaseEpochs.ReleaseRestartsNumberingIff` | internal/singleton/singleton.go:476-530 | for every stale limit and tick bound, the first owner after a release stores epoch 1 in all runs exactly when the limit is more than three tick gaps |
| `LeaseEpochs.OldEpochComesBack` | internal/singleton/singleton.go:476-500 | otherwise there is a run in which a displaced instance's refresh takes the released lease at its old epoch |
| `Transport.WsTransport.constructor` | internal/client/ws.go:227-268 | the state after a successful first handshake |
| `Transport.WsTransport.EnterCall` | internal/client/ws.go:727-742 | admitted exactly when not closed, counted at once, with the generation snapshot |
| `Transport.WsTransport.RegisterPending` | internal/client/ws.go:359-371 | the request is registered with an empty channel and no other channel is touched |
| `Transport.WsTransport.DeliverResponse` | internal/client/ws.go:340-353 | a response fills only the empty channel of its own request; a full or missing channel, and every other one, stays as it was |
| `Transport.FirstMessageWins` | internal/client/ws.go:316-353 | after any sequence of responses and reader failures a waiter finds the first message for its own request |
| `Transport.WsTransport.FailPending` | internal/client/ws.go:320-338 | the fan-out loop leaves a message in every registered channel without replacing one that was there, and records the reader's error |
| `Transport.WsTransport.ShutGate` | internal/client/ws.go:411-423 | the flag is set and exactly the caller that flipped it drains |
| `Transport.WsTransport.Close` | internal/client/ws.go:401-423 | the first Close shuts the gate and closes the connection in use; later ones change nothing |
| `Transport.WsTransport.AssessReconnect` | internal/client/ws.go:550-572 | refused when closed, done when already replaced, otherwise the exact rest of the cooldown |
| `Transport.WsTransport.Reconnect` | internal/client/ws.go:550-639 | the outcome of the dial loop in each case; a swap leaves exactly one new connection open in place of the old one, authenticated, with its own reader, no reader error and the next generation; any failure leaves none open and the transport unauthenticated |
| `TransportSafety.NothingStartsAfterClose` | internal/client/ws.go:401-423 | in every interleaving, once closed, no call is admitted, nobody else drains, and nothing is dialed or installed |
| `TransportSafety.ShutdownDiscipline` | internal/client/ws.go:376-423 | in every interleaving the in-flight counter is the number of admitted calls and uploads; at most one drain; a drain that saw zero is never joined; every connection but the current one is closed, and that one too when all closers are done |
| `TransportSafety.OneReaderAlive` | internal/client/ws.go:285-355 | at most one reader is alive in every interleaving |
| `TransportSafety.AuthenticatedIffOpen` | internal/client/ws.go:585-704 | in every interleaving, until closed, the transport counts as authenticated exactly while the connection in use is open with its handshake behind it, and a call about to send is let through exactly then |
| `TransportSafety.ReconnectsCoalesce` | internal/client/ws.go:550-639 | the generation counts the swaps, each generation is replaced at most once, and bursts start at least 30 seconds apart |
| `TransportSafety.RetriesUseNewerConnections` | internal/client/ws.go:726-771 | a second attempt runs on a newer generation than the first one saw, and no call sends more than two requests |
| `TransportSafety.AttemptEndsIff` | internal/client/ws.go:726-835 | whichever way an attempt ends, its request is unregistered, and exactly a first attempt that failed retryably with its caller still there goes on to reconnect |
| `TransportSafety.ThreeDials` | internal/client/ws.go:591-638 | a failed dial or handshake is followed by the next one, the third by giving up |
| `TransportSafety.NoAnswerBeforeItsRequest` | internal/client/ws.go:340-348 | in every interleaving no reader holds a response for a request that has not been made |
| `TransportSafety.WaitersHearTheirReader` | internal/client/ws.go:776-835 | in every interleaving an attempt is not ended by a reader's exit before the reader that was alive when it was sent exits |
| `TransportSafety.ResponsesReachTheirCall` | internal/client/ws.go:776-835 | a call consumes at most one message per attempt and never one for another request |
| `TransportSafety.ReaderExitWakesEveryone` | internal/client/ws.go:320-338 | when a reader exits every call still expecting an answer has a message for its own request |
| `TransportProgress.CallCanBeServed` | internal/client/ws.go:726-835 | in every interleaving a new call on an open, healthy transport can be served by its first attempt with the answer to its own request |
| `TransportProgress.RetryCanBeServed` | internal/client/ws.go:726-771 | in every interleaving a call whose first attempt failed can be served by its second, on a new connection or on the one another call has put in, unless the transport was closed |
| `VmNames.BuildVMName` | internal/resources/meta/meta.go:27-44 | the replace loop terminates with "omni", the provider's and the request's alphanumeric runs, joined by single underscores |
| `VmNames.PlainName` | internal/resources/meta/meta.go:27-44 | identifiers of letters and digits appear in the name as they are, provider first |
| `VmNames.NameIsPlain` | internal/resources/meta/meta.go:14-44 | whatever the identifiers are, the name has only letters, digits and underscores |
| `VmNames.WordsOfVmName` | internal/resources/meta/meta.go:18-44 | the runs can be read back off a built name |
| `VmNames.NamesCollideIff` | internal/resources/meta/meta.go:18-22 | two requests share a VM name exactly when their provider and request runs concatenate to the same list |
| `VmNames.NamesWithinProvider` | internal/resources/meta/meta.go:18-44 | within one provider a name identifies the request up to punctuation, and no further |
| `VmNames.ProvidersCanCollide` | internal/resources/meta/meta.go:20-22 | a family of provider and request pairs that share one name |
| `VmNames.BuiltNameRecognisedIff` | internal/resources/meta/meta.go:46-53 | a built name has the managed prefix exactly when one of the identifiers has an alphanumeric character |
| `VmNames.DescriptionReadsBack` | internal/resources/meta/meta.go:69-85 | what is read back from a written description is the request id up to its first closing parenthesis |
| `VmNames.DescriptionRoundTrip` | internal/provisioner/ownership.go:21-23 | the round trip is exact exactly for ids without a closing parenthesis |
| `VmNames.ParsedIff` | internal/resources/meta/meta.go:69-85 | for any description, an id is read exactly when it stands between the first marker and the next closing parenthesis |
| `VmNames.DescriptionText` | internal/provisioner/ownership.go:21-23 | the stored text, letter by letter |
| `Cleanup.Host.ListManagedZvols` | internal/client/storage.go:260-296 | lists exactly the volumes that carry both ownership properties, in order |
| `Cleanup.Cleaner.MaybeDeleteOrphanVM` | internal/cleanup/cleanup.go:267-321 | a VM is deleted exactly when it is recognised, unknown or unbacked, and deletable |
| `Cleanup.Cleaner.CleanupOrphanVMs` | internal/cleanup/cleanup.go:241-261 | deleting one by one from the listing leaves exactly the VMs to be kept |
| `Cleanup.Cleaner.SweepZvols` | internal/cleanup/cleanup.go:358-395 | deleting zvols one by one leaves exactly those to be kept among the ones listed |
| `Cleanup.Cleaner.CleanupOrphanZvols` | internal/cleanup/cleanup.go:337-396 | leaves exactly the volumes that are foreign, or known with a VM under a new or legacy name |
| `Cleanup.Cleaner.RunOnce` | internal/cleanup/cleanup.go:103-145 | one cycle is the pass on values for every failure of a listing, of the live read and of single deletions |
| `CleanupPasses.VMDeletedIff` | internal/cleanup/cleanup.go:267-321 | a pass deletes a VM exactly when the listings came, its deletion works, it is recognised, and Omni's answer lacks its request or no managed volume is of it; a failed read is no answer |
| `CleanupPasses.VolumeDeletedIff` | internal/cleanup/cleanup.go:337-396 | a pass deletes a volume exactly when the listings came, its deletion works, it is tagged, and Omni's answer lacks its request or no VM left carries its new or legacy name |
| `CleanupPasses.NothingAppears` | internal/cleanup/cleanup.go:103-145 | a pass adds nothing |
| `CleanupPasses.PairIsSafe` | internal/cleanup/cleanup.go:223-240 | a named VM and a managed volume of a request that Omni's answer does not lack survive any pass, whatever fails and whatever else is there; a read that failed or was not made is no answer |
| `CleanupPasses.ForeignIsSafe` | internal/cleanup/cleanup.go:272-287 | VMs without a readable request id and volumes without the tags are never deleted |
| `CleanupPasses.ProvisionedIsSafe` | internal/cleanup/cleanup.go:267-301 | what provisioning creates for a request that Omni's answer does not lack, and whose id reads back safely, survives every pass, also one whose live read failed |
| `CleanupPasses.ProvisionedSurvivesIff` | internal/cleanup/cleanup.go:267-301 | over all hosts, all live reads that do not deny the request, failed ones included, and all faults, a provisioned pair always survives exactly when its id has no closing parenthesis, or starts with one, or no identifier has an alphanumeric |
| `CleanupPasses.PassSettles` | internal/cleanup/cleanup.go:120-142 | nothing without a live request outlives a pass, not even a VM and a volume that back each other |
| `CleanupPasses.SecondPassIff` | internal/cleanup/cleanup.go:103-145 | a second pass with the same live set or none changes nothing exactly when, before the first, for every VM of the provider that is no orphan some VM that is no orphan carries a name of its request |
| `CleanupPasses.OnePassIsEnough` | internal/cleanup/cleanup.go:103-145 | one pass reaches the fixed point when recognised VMs carry names of their own requests |
| `CleanupPasses.RenamedVMTakesTwoPasses` | internal/cleanup/cleanup.go:358-380 | a renamed VM of a live request loses its volume in the first pass and is deleted by the second |
| `CleanupPasses.PassesStop` | internal/cleanup/cleanup.go:103-145 | however VMs are named, one pass more than there are VMs reaches a host that no pass changes |

## Assumptions about the environment

- A `StateUpdateWithConflicts` of rotation and autoscaler is one atomic read-modify-write of the live resource; for
  the lease, whose callbacks change memory even when their write loses, it is split.
- The MachineRequestSet controller adds a member at the current generation, younger than all others, when there are
  too few, and removes one when there are too many; convergence of surge assumes that it removes the oldest, the floor
  does not. In the floor and convergence theorems a provisioned member stays provisioned and the class generation is
  fixed and stamped; in the ledger, crash-safety and victim theorems everything may change at any time.
- In-place convergence starts without a surge phase. Exclusion of scaling assumes that a set with a cycle under way goes
  on being ticked, which a class that opts out of rotation in mid-cycle is not, and that nobody deletes or rewrites the
  lock annotation by hand in mid-cycle.
- Lease instances share a clock, and a tick, once due, completes before its deadline or the instance crashes.
  `Release` is called only after `Run` has returned, and nothing else deletes or rewrites the ProviderStatus.
- A tick discovers each MachineRequest in one set only, and what a class's generation is depends on the class alone.
- The transport's dials, handshakes, reads, writes, cancellations and timeouts succeed or fail in any order.
- On the cleanup host VM ids and volume paths are distinct, and no other writer acts during a pass.
- Times are in nanoseconds, annotations are written to the second as the code does.

## Left out

- SurgeConvergence.SurgeConverges: says nothing once another writer edits the count or the class changes; the ledger and the stall theorem say what happens then.
- InPlaceRotation.EveryVictimIsRightful: oldest and floor are those of the discovery when others edit requests before the destroy; with no other writer EveryDestroyIsRightful has them at the destroy itself.
- LeaseEpochs.EpochCountsOwners: runs without releases only, because a release deletes the count.
- LeaseExclusion.MutualExclusion: active means acquired and not yet out of the refresh loop; work the provider still does after Lost is closed is not modelled.
- TransportSafety.ReaderExitWakesEveryone: a call that registers after the reader has exited, or writes to the old connection just before a swap, may wait for its timeout, so nothing is claimed for it.
- TransportSafety.ReconnectsCoalesce: connGen is unbounded here; its wrap at 64 bits is not modelled.
- Transport.WsTransport.Reconnect: the messages the old reader hands out while reconnect waits for it are steps of TransportRuns, not of this method.
- Plan's abort for an unknown surge phase: the phase type has only the two values that the parser admits.
- Annotation keys other than the rotation lock, the surge phase and the class generation are one opaque family, and the lease's epoch and heartbeat annotations are modelled as parsed values.
- The class generation hash is an arbitrary colon-free string; hashing is not modelled.
- Candidate discovery beyond classification and order: role checks, annotation parsing, the dark-launch gate.
- The autoscaler's capacity gate, other RPCs and configuration parsing.
- The write semaphore of the transport, its TLS, JSON, authentication and multipart upload; sends and reads are steps that succeed or fail.
- The ISO cleanup that precedes the orphan cleanup, and cleanup racing a provision or a second provider.
- Provisioning steps, ISO trust-on-first-use, zvol ownership checks on deprovision, telemetry, logging and command-line wiring.
- Strings are sequences of Unicode characters; invalid byte sequences are not modelled.
