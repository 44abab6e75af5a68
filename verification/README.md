# HarvestCircle core: durable identities, ordered changes and their neighbours

A Dafny model of the hard parts of the HarvestCircle application core, with proofs about every input,
every run and every crash.

**Durable identity operations.** Adding or removing an identity touches a keyring, an identity registry, a
selected identity and a phase journal. `Durable` holds them as one world with every awaited store call as one
atomic step; `IdentityPlans` gives the calls of each command and of start-up recovery in the code's order, and a
crash is a cut of such a plan at any call, also inside recovery. `Additions` and `Removals` give the exact world at
every point and prove crash-atomicity and roll-forward; `IdentityHistory` lifts this to whole histories;
`RequestLedger` proves what a request id may rely on over all histories, permitted or not; `StartRecovery` says for
any number of unfinished operations in any world when start-up recovery completes and what it leaves;
`RecoveryLimits` shows where the guarantees end; `CommandResults` says what completed commands leave, in terms of
stores and answers alone. `IdentityService` is the same protocol in the code's form: stores whose fields
change in place and methods that await one call after the other, each proved to leave a cut of its plan. A budget of
store calls stands for a failure or crash at any point.

**Snapshots, state machine, session.** `Snapshot`, `StateMachine` and `AppCore` model snapshot validity and order, the
twelve transitions with the pending activation, and single-use removal confirmations. `Session` joins both worlds:
start-up, the closing transitions of additions and removals, selection and activation. `LiveRun` runs core and stores
together through every command, failure, crash and restart, and derives what the histories assume of the in-memory
selection.

**Change stream.** `ChangeStream` is one subscription as interleaved steps of publisher and receiver with a bounded,
lossy queue and a one-slot cell; it refines a stream that delivers increasing subsequences and never loses the tail.
`ChangeHub` is the publisher with all its subscribers and the receive loop in the code's form; `Publication` joins it to
the state machine: every change of a run is published.

**Smaller parts.** `Html` (escaping builder, byte cap, parser), `Discovery` and `DiscoveryMetadata` (outcome accounting
and its byte bound), `Profiles` and `EventIds` (latest event, cache, overlapping refreshes), `Lifecycle` (the gate as
a history property).

Where the code does not do what one might expect, the code is modelled and the exact condition is proved:

- Operations may overlap: a failed command does not keep the next one from beginning. `OverlapWedgesRecovery` shows an
  import and a removal after which no start-up recovery can ever complete, and `RecoverableAloneIsNotEnough` two
  operations that could each be recovered alone but not together. `StartCompletesIff` gives the exact condition on
  registry and journal for every world, and `RestartsChangeNothing` that crashed starts do not change it.
  Crash-atomicity is proved for one unfinished operation at a time.
- A creation relies on its generated key being new; `CreationIsAtomicIff` shows that this is exactly what it needs.
- Activating the active identity again may fail after the new time of use was stored. The active identity is then not
  stored as the snapshot has it, and the removal of any other identity is carried out in the stores but rejected by
  snapshot validation (`FailedReactivationBlocksRemovals`). `RemovalClosesIff` gives the exact condition;
  `UnpublishedRemovalIsFinished` says what is left and that the next start finishes it.
- `ReplacementDropsActivation`: a registry replacement ends a pending activation even if it is rejected, and may leave a
  session that is activating with nothing pending. `StuckUntilFreed` says exactly which steps leave it.
- Fatal is not absorbing; `FatalIsLeftIff` says exactly which steps leave it.
- `bootstrap_from` documents a fatal snapshot also for stored state that violates the invariants. The code reports only
  failed reads as fatal and stays booting for invalid state (`BootstrapFrom`).
- `CompletionShowsCacheIff` and `RefusedCompletionLags` say exactly when a completed refresh displays something else
  than the cached profile.

`dafny verify dfyconfig.toml` checks the whole project.

## Model

| member | source | states |
|---|---|---|
| `Registry.SortSound` | core/crates/harvestcircle_application/src/identities.rs:940-959 | sorting a pushed registry gives an ordered permutation and leaves an ordered registry alone |
| `Registry.InsertSound` | core/crates/harvestcircle_application/src/identities.rs:940-959 | inserting a new key keeps creation order and distinct keys and adds exactly that record |
| `Registry.InsertLookup` | core/crates/harvestcircle_application/src/identities.rs:926-959 | after an insert the new key is found as written and every other lookup is unchanged |
| `Registry.UpdateSound` | core/crates/harvestcircle_application/src/identities.rs:961-975 | an update replaces the one record with that key in place; length, keys and all other records stay |
| `Registry.RemoveSound` | core/crates/harvestcircle_application/src/identities.rs:977-989 | a removal keeps the order and distinctness of the remaining records |
| `Registry.RemoveMembers` | core/crates/harvestcircle_application/src/identities.rs:977-989 | exactly the records with the removed key are gone |
| `Additions.ForwardCut` | core/crates/harvestcircle_application/src/identities.rs:235-338 | an addition cut after any number of calls leaves exactly the world of the matching point, with no call refused |
| `Additions.RecoverFrom` | core/crates/harvestcircle_application/src/recovery.rs:151-329 | from every point of an addition, recovery cut anywhere lands on a point again, every compare-and-set in it matches, and it completes exactly when it was not cut |
| `Additions.AdditionIsCrashAtomic` | core/crates/harvestcircle_application/src/recovery.rs:151-329 | for every crash point of create, import and repair and any sequence of crashed recoveries: once nothing is unfinished the stores are exactly as before with a Failed receipt or fully committed with a Completed one, which carries the published revision exactly if the command itself got to its end; one uninterrupted recovery gets there |
| `Additions.RecoveryDirection` | core/crates/harvestcircle_application/src/recovery.rs:159-247 | recovery commits if and only if the record had been written, and restores if and only if it had not |
| `Additions.CommittedIsWellFormed` | core/crates/harvestcircle_application/src/recovery.rs:250-329 | both ends of an addition are well-formed worlds with nothing unfinished |
| `Removals.ForwardCut` | core/crates/harvestcircle_application/src/identities.rs:465-546 | a removal cut anywhere is at the matching point; a refused credential deletion leaves it at its recorded intent |
| `Removals.RecoverFrom` | core/crates/harvestcircle_application/src/recovery.rs:81-149 | from every point of a removal, recovery cut anywhere lands on a later point and completes exactly when it was not cut |
| `Removals.RemovalRollsForward` | core/crates/harvestcircle_application/src/recovery.rs:81-149 | once the intent is recorded, any pattern of crashes ends, as soon as nothing is unfinished, with credential and record gone, the fallback selected and a Completed receipt, which carries the published revision exactly if the command itself got to its end; one uninterrupted recovery gets there |
| `Removals.RemovalAsUninterrupted` | core/crates/harvestcircle_application/src/identities.rs:465-546 | the interrupted and recovered removal leaves the same keyring, registry and selection as the uninterrupted one |
| `Removals.FallbackIsSound` | core/crates/harvestcircle_application/src/identities.rs:450-462 | the fallback is never the removed key, belongs to the remaining registry, and is empty if and only if that registry is |
| `CommandResults.FallbackMovesOn` | core/crates/harvestcircle_application/src/identities.rs:450-462 | the selection after a removal: unchanged if another key is selected, else the key listed next, else the one listed before, else none |
| `CommandResults.AdditionAdds` | core/crates/harvestcircle_application/src/identities.rs:235-338 | a completed addition has added exactly its credential, bound to the request, and its record, selected it, and receipted the request with its kind, revision, prior selection and prior availability; every other credential, entry and lookup is as before |
| `CommandResults.RemovalRemoves` | core/crates/harvestcircle_application/src/identities.rs:465-546 | a completed removal has dropped exactly that credential and record, moved the selection on as above, and receipted the request |
| `CommandResults.CreationAdds` | core/crates/harvestcircle_application/src/identities.rs:55-130 | a completed creation adds a record with the generated key, available, stamped with the clock, without label or last use |
| `CommandResults.CreationOrder` | core/crates/harvestcircle_application/src/identities.rs:940-959 | of two identities created one after the other, the one with the earlier clock is listed first, and with equal clocks the one with the lower key |
| `CommandResults.RefusedIff` | core/crates/harvestcircle_application/src/identities.rs:140-195 | exactly which commands are refused before any change: a used request id or changed revision; for an import a stored credential or a record that does not miss one; for a removal, selection or activation an unknown key |
| `IdentityHistory.HistoryIsSound` | core/crates/harvestcircle_application/src/recovery.rs:20-47 | over every permitted history of commands, crashes and interrupted recoveries the world is well-formed or at a point of the one unfinished operation |
| `IdentityHistory.RecoveryRestoresWellFormedness` | core/crates/harvestcircle_application/src/recovery.rs:20-47 | after every permitted history one uninterrupted recovery completes and gives a well-formed world with nothing unfinished |
| `RequestLedger.JournalOnlyMovesDown` | core/crates/harvestcircle_application/src/ports.rs:610-669 | over all histories whatsoever, each journal entry keeps its request, kind, key and prior state, its phase rank strictly falls with each change, and an entry with a receipt never changes |
| `RequestLedger.RequestTakesEffectOnce` | core/crates/harvestcircle_application/src/identities.rs:140-225 | over all histories whatsoever, at most one credential put is made for one request id |
| `RequestLedger.ReplayNeedsTheOriginal` | core/crates/harvestcircle_application/src/identities.rs:1016-1051 | a replay succeeds only for the revision, key and secret of an import with that request id in the history |
| `RequestLedger.ReplayIffOriginal` | core/crates/harvestcircle_application/src/identities.rs:140-225 | while the credential is bound to the completed request, a replay succeeds if and only if revision, key and secret are the original ones, and it answers with the saved record |
| `RequestLedger.ReplayIff` | core/crates/harvestcircle_application/src/identities.rs:1016-1051 | in any world, exactly which repeated imports, and which repeated creations found at their begin, are answered as before, and with which record |
| `RequestLedger.ReplayRefusedFor` | core/crates/harvestcircle_application/src/identities.rs:151-176 | why any other repeated import is refused: recovery required, credential missing or invalid state, each in exactly its cases |
| `StartRecovery.RecoveryCompletesIff` | core/crates/harvestcircle_application/src/recovery.rs:81-329 | recovery of one recorded operation alone finishes it if and only if its phase is one of its kind and the selection it has to restore is registered by then |
| `StartRecovery.StartRecovers` | core/crates/harvestcircle_application/src/recovery.rs:20-47 | a start over any number of unfinished operations, cut anywhere, keeps the forecast made from registry and journal alone; if it completes, the registry is the forecast one and every usual entry has its receipt; enough calls complete it whenever the forecast exists |
| `StartRecovery.StartCompletesIff` | core/crates/harvestcircle_application/src/recovery.rs:20-47 | in any world at all, some start-up recovery completes if and only if the forecast over the whole listing exists |
| `StartRecovery.RestartsChangeNothing` | core/crates/harvestcircle_application/src/recovery.rs:20-47 | after any number of crashed starts a start completes if and only if it would have at first, and leaves the same registry |
| `StartRecovery.HistoryIsKeyed` | core/crates/harvestcircle_application/src/ports.rs:610-669 | in every history each journal entry is stored under its own request id, which the theorems above ask for |
| `IdentityPlans.ListingIsOrdered` | core/crates/harvestcircle_application/src/ports.rs:666-669 | the listing holds exactly the unfinished entries, each once, in ascending order of request id |
| `RecoveryLimits.WedgedForever` | core/crates/harvestcircle_application/src/recovery.rs:20-47 | where nothing is forecast, no number of restarts, cut anywhere, ever completes |
| `RecoveryLimits.OverlapWedgesRecovery` | core/crates/harvestcircle_application/src/recovery.rs:20-47 | a concrete import and removal that overlap lead to such a world: recovery never completes again |
| `RecoveryLimits.RecoverableAloneIsNotEnough` | core/crates/harvestcircle_application/src/recovery.rs:20-47 | a concrete removal and import, each recoverable alone, of which recovering the first takes away what the second has to select: no start ever completes |
| `RecoveryLimits.CreationIsAtomicIff` | core/crates/harvestcircle_application/src/identities.rs:235-338 | a creation is crash-atomic if and only if its generated key is not registered yet |
| `IdentityService.Stores.PutCredential` | core/crates/harvestcircle_application/src/secrets.rs:214-235 | a put either has exactly its effect or leaves the keyring alone |
| `IdentityService.Stores.VerifyCredential` | core/crates/harvestcircle_application/src/secrets.rs:237-256 | succeeds exactly for the bound request and the whole secret, without changing custody |
| `IdentityService.Stores.DeleteCredential` | core/crates/harvestcircle_application/src/secrets.rs:273-284 | a delete removes the one credential or reports that it is missing |
| `IdentityService.Stores.InsertIdentity` | core/crates/harvestcircle_application/src/identities.rs:940-959 | push and sort, or refuse a known key |
| `IdentityService.Stores.UpdateIdentity` | core/crates/harvestcircle_application/src/identities.rs:961-975 | overwrite in place, or refuse an unknown key |
| `IdentityService.Stores.RemoveIdentity` | core/crates/harvestcircle_application/src/identities.rs:977-989 | removes exactly the records with the key and clears a selection of it, and nothing else |
| `IdentityService.Stores.SaveSelected` | core/crates/harvestcircle_application/src/identities.rs:996-1013 | save a registered selection or none, refuse any other |
| `IdentityService.Stores.BeginOperation` | core/crates/harvestcircle_storage/src/journal.rs:37-117 | records a new request, or returns the recorded one if it matches in every respect, or refuses |
| `IdentityService.Stores.AdvanceOperation` | core/crates/harvestcircle_application/src/recovery.rs:549-565 | compare-and-set of the phase of an unfinished operation |
| `IdentityService.Stores.FinalizeOperation` | core/crates/harvestcircle_application/src/recovery.rs:567-595 | compare-and-set of the terminal receipt |
| `IdentityService.Stores.ListUnfinished` | core/crates/harvestcircle_application/src/ports.rs:666-669 | lists the unfinished operations in request order |
| `IdentityService.PersistIdentity` | core/crates/harvestcircle_application/src/identities.rs:235-338 | under any failure leaves exactly a cut of the addition plan, the core untouched before the last store change; succeeds exactly at its end; a replay changes nothing and answers as the replay rule says |
| `IdentityService.ImportSecretKey` | core/crates/harvestcircle_application/src/identities.rs:140-225 | the same for an import or repair: an unknown key gets a new record stamped with the clock, a known one is answered with its old record made available; both stores and snapshot then show it; a refusal is for a changed revision or an existing identity |
| `IdentityService.ReplayImport` | core/crates/harvestcircle_application/src/identities.rs:151-176 | succeeds only as the replay rule says, and fails only without budget or where that rule refuses |
| `IdentityService.VerifyCompletedReplay` | core/crates/harvestcircle_application/src/identities.rs:1016-1051 | accepts exactly a completed operation with the same request, kind, key, revision and request-bound secret |
| `IdentityService.CreateNewIdentity` | core/crates/harvestcircle_application/src/identities.rs:55-90 | the same for a creation: the answer is a new record with the generated key stamped with the clock, and it is found in the registry; a repeated request changes nothing and publishes nothing |
| `IdentityService.ConfirmIdentityRemoval` | core/crates/harvestcircle_application/src/identities.rs:437-546 | consumes the token and leaves exactly a cut of the removal plan; at its end exactly that identity is gone, the selection moved on to its successor, else predecessor, and the published snapshot shows it, signed out of the target; a repeated request is answered by its receipt alone; it stops short only for the reasons listed |
| `IdentityService.SignOut` | core/crates/harvestcircle_application/src/session.rs:13-18 | drops the session, and does nothing when signed out already |
| `IdentityService.RecoverDurableOperations` | core/crates/harvestcircle_application/src/recovery.rs:20-47 | leaves exactly the world of a cut recovery; success means that it completed, failure without lost budget means that no recovery of this world completes |
| `IdentityService.RecoverDurableRemoval` | core/crates/harvestcircle_application/src/recovery.rs:81-149 | leaves exactly a cut of the removal recovery plan |
| `IdentityService.RecoverDurableAddition` | core/crates/harvestcircle_application/src/recovery.rs:151-248 | leaves exactly a cut of the addition recovery plan that the observed phase and record select |
| `IdentityService.FinishDurableSelection` | core/crates/harvestcircle_application/src/recovery.rs:250-278 | selects, advances and completes, as the last calls of the plan |
| `IdentityService.CompensateDurableAddition` | core/crates/harvestcircle_application/src/recovery.rs:280-329 | drops the credential, restores or drops the record, restores the selection, advances and fails the request, as the last calls of the plan |
| `Snapshot.ValidatesIsValid` | core/crates/harvestcircle_application/src/snapshot.rs:365-385 | comparing the size of the key set with the vector is the same as pairwise distinct keys, so the check is the validity predicate |
| `Snapshot.NewerIsStrictOrder` | core/crates/harvestcircle_application/src/snapshot.rs:312-327 | newer-than is irreflexive, asymmetric and transitive and never lowers the revision |
| `Snapshot.NewerByCases` | core/crates/harvestcircle_application/src/snapshot.rs:312-327 | a snapshot is newer by a higher revision under the same binding, or at no lower revision by a higher generation or a first binding; never with a lower revision or generation, another incarnation or a lost binding |
| `StateMachine.StateMachine.Apply` | core/crates/harvestcircle_application/src/state_machine.rs:65-121 | the new snapshot and the pending activation are those of the specification for each of the twelve transitions, also when the transition is rejected |
| `StateMachine.AcceptedIff` | core/crates/harvestcircle_application/src/state_machine.rs:65-285 | exactly which of the twelve transitions are accepted, and whether a refusal names the identity or the state |
| `StateMachine.AcceptedYields` | core/crates/harvestcircle_application/src/state_machine.rs:65-285 | the accepted snapshot part by part: revision, lifecycle, relays, registry, selection, session, active identity and problem |
| `StateMachine.RelaysAreConfigured` | core/crates/harvestcircle_application/src/state_machine.rs:142-161 | bootstraps and fatal reports show the configured relays, and every step keeps them |
| `StateMachine.StepKeepsValid` | core/crates/harvestcircle_application/src/state_machine.rs:65-161 | a step keeps validity; a rejection leaves the snapshot; acceptance raises the revision by one, or returns the identical snapshot for a repeated bootstrap only |
| `StateMachine.Footprint` | core/crates/harvestcircle_application/src/state_machine.rs:65-121 | registry, selection, active identity, session, relays and lifecycle change only by the transitions meant to change them; every accepted step leaves booting |
| `StateMachine.RevisionNamesSnapshot` | core/crates/harvestcircle_application/src/state_machine.rs:65-121 | over every run from boot, all snapshots are valid, revisions never fall, and equal revisions mean equal snapshots |
| `StateMachine.FailureRestores` | core/crates/harvestcircle_application/src/state_machine.rs:214-285 | after an accepted begin and any steps in between, failure restores exactly the earlier session, active identity and registry |
| `StateMachine.SuccessIsAccepted` | core/crates/harvestcircle_application/src/state_machine.rs:239-268 | after an accepted begin and any steps in between, success with the target's key is accepted, replaces its record, selects it and changes no other record |
| `StateMachine.BetweenIff` | core/crates/harvestcircle_application/src/state_machine.rs:65-121 | the steps allowed between begin and end are exactly those that stay within the activation |
| `StateMachine.ReplacementDropsActivation` | core/crates/harvestcircle_application/src/state_machine.rs:163-197 | a registry replacement ends a pending activation accepted or not; unless it is accepted and signs out, the session is stuck activating with nothing pending |
| `StateMachine.StuckUntilFreed` | core/crates/harvestcircle_application/src/state_machine.rs:65-121 | exactly which steps leave the stuck session; success and failure are refused in it |
| `StateMachine.FailureRestoresStuck` | core/crates/harvestcircle_application/src/state_machine.rs:214-285 | another activation may begin from the stuck session, and its failure restores the stuck session |
| `StateMachine.FatalIsLeftIff` | core/crates/harvestcircle_application/src/state_machine.rs:65-121 | for every transition, exactly when a fatal state is left: a valid registry, signing out, a problem report, or the failure of an activation that was pending with no identity active before |
| `StateMachine.FatalKeepsActivation` | core/crates/harvestcircle_application/src/state_machine.rs:214-285 | a fatal report during an activation keeps it pending, and its failure then leaves the fatal state if and only if no identity was active before |
| `AppCore.ApplicationCore.ApplyTransition` | core/crates/harvestcircle_application/src/app_core.rs:155-165 | the published snapshot is always the machine's |
| `AppCore.ApplicationCore.IssueRemovalToken` | core/crates/harvestcircle_application/src/app_core.rs:167-223 | issues, exactly for a registered key within the bounds of counter and clock, a token for that key, the current revision, 300 seconds from now and the right impact, and stores just that; a failed issue stores nothing but may use up an id |
| `AppCore.ApplicationCore.ConsumeRemovalToken` | core/crates/harvestcircle_application/src/app_core.rs:225-251 | an attempt removes exactly the id whatever its outcome, and succeeds, with the token's key, if and only if the token is stored unaltered, of the current revision and unexpired |
| `AppCore.ApplicationCore.CancelRemovalToken` | core/crates/harvestcircle_application/src/app_core.rs:253-259 | removes the id and tells whether it was there |
| `AppCore.ConsumedTokenIsCurrent` | core/crates/harvestcircle_application/src/app_core.rs:167-251 | over every run, a consumed token was issued for that key, untouched since and at most 300 seconds old, and the whole snapshot is the one at issue, so the stated impact is still right |
| `AppCore.IssuedTokenIsConsumedIff` | core/crates/harvestcircle_application/src/app_core.rs:167-251 | over every run, a token issued and untouched since is accepted if and only if at most 300 seconds have passed and the whole snapshot is the one at issue |
| `AppCore.TouchedTokenIsSpent` | core/crates/harvestcircle_application/src/app_core.rs:225-259 | after any attempt to consume or cancel an issued id, no token with that id is ever consumed |
| `AppCore.TokenIsConsumedOnce` | core/crates/harvestcircle_application/src/app_core.rs:225-251 | no id is consumed successfully twice |
| `Session.BootIsAcceptedIff` | core/crates/harvestcircle_application/src/state_machine.rs:142-161 | bootstrap from booting accepts exactly distinct keys with a sound selection, and then shows the stores |
| `Session.RestartBoots` | core/crates/harvestcircle_application/src/app_core.rs:125-148 | after every permitted history and one uninterrupted recovery the next bootstrap is accepted and shows the stores |
| `Session.BootstrapFrom` | core/crates/harvestcircle_application/src/app_core.rs:125-148 | shows the stores and the configured relays, signed out; reports a failed read as fatal, with the same relays; rejects exactly an invalid registry and then stays booting |
| `Session.AdditionClosingIsAccepted` | core/crates/harvestcircle_application/src/identities.rs:324-336 | the registry replacement that closes an addition is always accepted below the last revision, and the snapshot then agrees with the committed stores |
| `Session.RemovalClosesIff` | core/crates/harvestcircle_application/src/state_machine.rs:181-197 | signing the target out never fails, and removal's closing transition is accepted if and only if an active identity other than the target is stored exactly as the snapshot has it |
| `Session.RemovalPublishesIff` | core/crates/harvestcircle_application/src/identities.rs:488-535 | a removal whose store calls succeed publishes if and only if that holds, and the snapshot then agrees with the stores |
| `Session.AgreeingRemovalPublishes` | core/crates/harvestcircle_application/src/identities.rs:488-535 | with an agreeing snapshot and no activation in progress it always publishes |
| `Session.UnpublishedRemovalIsFinished` | core/crates/harvestcircle_application/src/identities.rs:526-546 | a removal that could not publish is left at SelectionCommitted with everything else done, and the next start finishes it |
| `Session.FailedReactivationBlocksRemovals` | core/crates/harvestcircle_application/src/session.rs:59-71 | activating the active identity again with the time of use stored and the selection not saved leads to a settled state in which no other identity's removal can publish |
| `Session.ReactivationExample` | core/crates/harvestcircle_application/src/session.rs:59-71 | the same on one concrete input |
| `Session.CommandIsEvent` | core/crates/harvestcircle_application/src/identities.rs:235-546 | what a command leaves, however far it got, is a step of the histories above |
| `LiveRun.RemovalSeesStoredSelection` | core/crates/harvestcircle_application/src/identities.rs:447-462 | between operations an accepted token means a ready snapshot with the target registered and the stored selection |
| `LiveRun.LiveStep` | core/crates/harvestcircle_application/src/identities.rs:437-564 | every command under any failure, and every restart, keeps core and stores in step, and its store changes are a step of a permitted history |
| `LiveRun.EmptyIsLive` | core/crates/harvestcircle_application/src/app_core.rs:78-96 | a new core over empty stores satisfies the invariant that runs start from |
| `LiveRun.RunIsLive` | core/crates/harvestcircle_application/src/identities.rs:235-564 | over every run of core and stores, whenever nothing is unfinished and the snapshot is ready it shows the stored selection and the stored records up to times of last use |
| `LiveRun.RunIsPermitted` | core/crates/harvestcircle_application/src/identities.rs:437-462 | the stores of every run go through a permitted history; the agreement of the selection at removals is derived, not assumed |
| `LiveRun.RunRestarts` | core/crates/harvestcircle_runtime/src/persistence.rs:59-76 | from every state of every run one uninterrupted recovery completes and the next bootstrap is accepted |
| `LiveRun.RunRemovalPublishesIff` | core/crates/harvestcircle_application/src/identities.rs:437-546 | in every run, an accepted removal whose store calls succeed publishes if and only if another active identity is stored as the snapshot has it |
| `LiveRun.Handle` | core/crates/harvestcircle_application/src/identities.rs:140-564 | the commands as the code runs them make exactly the moves of those runs |
| `LiveRun.Start` | core/crates/harvestcircle_runtime/src/persistence.rs:59-76 | a new core, recovery and bootstrap make the restart move, and success means that the snapshot agrees with the stores |
| `Session.SelectIdentity` | core/crates/harvestcircle_application/src/identities.rs:553-564 | where the snapshot shows the stores, both selections move together or nothing changes |
| `Session.ActivateIdentity` | core/crates/harvestcircle_application/src/session.rs:26-73 | where the snapshot shows the stores, activation takes place in memory and on disk, with the time of use, the cached profile and its state, or session, active identity, registry and selection are as before and the problem is shown |
| `ChangeStream.StepKeeps` | core/crates/harvestcircle_application/src/change_stream.rs:59-190 | every interleaved step of publisher and receiver keeps the channel invariant |
| `ChangeStream.TailIsKept` | core/crates/harvestcircle_application/src/change_stream.rs:59-97 | in every interleaving, a receiver that pends with no publish in progress, or was told the end, has delivered the newest publication |
| `ChangeStream.DeliveredIsSubsequence` | core/crates/harvestcircle_application/src/change_stream.rs:132-190 | deliveries are a strictly increasing subsequence of the publications, beginning with the snapshot current at subscription |
| `ChangeStream.GapFlagIsExact` | core/crates/harvestcircle_application/src/change_stream.rs:46-49 | a delivery is flagged against the previous one if and only if some skipped publication has another revision than that one |
| `ChangeStream.QueueIsBounded` | core/crates/harvestcircle_application/src/change_stream.rs:132-158 | in every interleaving the queue holds at most its capacity |
| `ChangeStream.RoomLosesNothing` | core/crates/harvestcircle_application/src/change_stream.rs:59-190 | in every interleaving in which no change is offered to a full queue, every publication is queued, about to be, or followed by a delivery at least as new |
| `ChangeStream.RunRefines` | core/crates/harvestcircle_application/src/change_stream.rs:59-190 | every run of the coalescing channel is a run of the stream that delivers increasing subsequences, and it rests only where nothing is left to deliver |
| `ChangeHub.Receiver.Receive` | core/crates/harvestcircle_application/src/change_stream.rs:59-84 | a call up to its end or first suspension follows the channel's steps; without a delivery the newest change was delivered before |
| `ChangeHub.Receiver.Resume` | core/crates/harvestcircle_application/src/change_stream.rs:75-82 | a suspended call that is polled again follows them too, with the same promise |
| `ChangeHub.OrderedSnapshotChanges.Subscribe` | core/crates/harvestcircle_application/src/change_stream.rs:132-158 | refused exactly when closed or out of identifiers; otherwise a fresh channel of that capacity, whose queue and cell hold just the latest snapshot |
| `ChangeHub.OrderedSnapshotChanges.Unsubscribe` | core/crates/harvestcircle_application/src/change_stream.rs:160-163 | drops one sender and leaves every other link alone |
| `ChangeHub.OrderedSnapshotChanges.Publish` | core/crates/harvestcircle_application/src/change_stream.rs:165-184 | drops dead subscribers and writes then offers a newer snapshot to each live one; ignores any other snapshot |
| `ChangeHub.OrderedSnapshotChanges.Close` | core/crates/harvestcircle_application/src/change_stream.rs:186-189 | disconnects every subscriber |
| `Publication.ChangedIsNewer` | core/crates/harvestcircle_application/src/snapshot.rs:312-327 | a transition that changes the snapshot gives a newer one under every binding |
| `Publication.SettledIsNewer` | core/crates/harvestcircle_runtime/src/runtime_actor.rs:1669-1682 | a settled snapshot is newer than the one before if and only if its content or its session generation changed |
| `Publication.RunIsPublished` | core/crates/harvestcircle_runtime/src/runtime_actor.rs:1669-1682 | over every run of the state machine, publishing after each step makes exactly the changes publications, in order, each naming the revision before it, and the cell holds the last settled snapshot |
| `Html.EscapedIsInert` | core/crates/harvestcircle_application/src/hub_output.rs:688-700 | escaped text has no bracket or quote, and each ampersand in it begins one of the five entities (section 13.1.4 of the WHATWG HTML Standard) |
| `Html.EntityStandsFor` | core/crates/harvestcircle_application/src/hub_output.rs:688-700 | exactly the five characters are written as entities, each as its own |
| `Html.ItemLayout` | core/crates/harvestcircle_application/src/hub_output.rs:701-717 | the markup around fields, paragraphs and headings, literally |
| `Html.DocumentLayout` | core/crates/harvestcircle_application/src/hub_output.rs:664-722 | head, title, style, title, items and end, in this order |
| `Html.HeadLayout` | core/crates/harvestcircle_application/src/hub_output.rs:666-669 | the opening with its content policy, literally |
| `Html.StyleLayout` | core/crates/harvestcircle_application/src/hub_output.rs:670-671 | the style sheet between the two titles, literally |
| `Html.Utf8ReadsBack` | core/crates/harvestcircle_application/src/hub_output.rs:688-700 | a character's width is the number of its UTF-8 bytes, from which it is read back |
| `Html.SizeIsBytes` | core/crates/harvestcircle_application/src/hub_output.rs:675-687 | the size that is capped is the number of UTF-8 bytes |
| `Html.DocumentReadsBack` | core/crates/harvestcircle_application/src/hub_output.rs:664-722 | for every title and items with arbitrary text, a parser recovers exactly them from the finished document |
| `Html.DocumentIsUnambiguous` | core/crates/harvestcircle_application/src/hub_output.rs:664-722 | two different documents never look the same |
| `Html.Builder.Markup` | core/crates/harvestcircle_application/src/hub_output.rs:675-687 | appends exactly when the result stays within 2 MiB of UTF-8 |
| `Html.Builder.Text` | core/crates/harvestcircle_application/src/hub_output.rs:688-700 | writes the escaped text exactly when it fits |
| `Html.Builder.AddField` | core/crates/harvestcircle_application/src/hub_output.rs:701-707 | writes the field exactly when it fits |
| `Html.Builder.AddParagraph` | core/crates/harvestcircle_application/src/hub_output.rs:708-712 | writes the paragraph exactly when it fits |
| `Html.Builder.AddHeading` | core/crates/harvestcircle_application/src/hub_output.rs:713-717 | writes the heading exactly when it fits |
| `Html.Builder.Open` | core/crates/harvestcircle_application/src/hub_output.rs:666-674 | writes the opening with the title twice exactly when it fits |
| `Html.Write` | core/crates/harvestcircle_application/src/hub_output.rs:664-722 | a document is finished if and only if it fits in 2,097,152 bytes, and it reads back as its title and items |
| `Discovery.NewRequest` | core/crates/harvestcircle_application/src/availability_outcomes.rs:49-72 | admits exactly the given request, if and only if it has at most sixteen pairwise distinct targets and a deadline of 1 to 30,000 ms; refuses for capacity exactly more than sixteen |
| `Discovery.RepeatsIff` | core/crates/harvestcircle_application/src/availability_outcomes.rs:58-61 | looking each target up among those before it is pairwise distinctness |
| `Discovery.NewProgress` | core/crates/harvestcircle_application/src/availability_outcomes.rs:161-199 | admits exactly progress of at most 64 events that is stopped if and only if cancelled, gives another reason only for a partial state, and counts nothing where nothing was asked or reached |
| `Discovery.NewTarget` | core/crates/harvestcircle_application/src/availability_outcomes.rs:243-261 | admits exactly targets whose three counts add up to at most 64 |
| `Discovery.NewUsage` | core/crates/harvestcircle_application/src/availability_outcomes.rs:321-336 | admits exactly at most four calls and 1,024 events, and no events without a call |
| `Discovery.ReservedRawBytes` | core/crates/harvestcircle_application/src/availability_outcomes.rs:347-349 | 8,388,608 bytes for each call, never more than 33,554,432 |
| `Discovery.Total` | core/crates/harvestcircle_application/src/availability_outcomes.rs:396-400 | the 16-bit sum of at most sixteen targets is at most 64 for each, and no addition overflows |
| `Discovery.TotalIsExact` | core/crates/harvestcircle_application/src/availability_outcomes.rs:396-400 | the 16-bit sum is the unbounded sum |
| `Discovery.AdmittedIffAccounted` | core/crates/harvestcircle_application/src/availability_outcomes.rs:371-417 | an outcome is admitted if and only if its targets are a permutation of the requested ones, the counts add up, and no work is claimed without a call |
| `Discovery.RefusedIff` | core/crates/harvestcircle_application/src/availability_outcomes.rs:371-417 | why an outcome is refused: capacity for too many targets or items, a scope mismatch for other distinct targets than the requested ones, invalid input for all else |
| `Discovery.StreamStateIsUnanimous` | core/crates/harvestcircle_application/src/availability_outcomes.rs:459-476 | the stream of listings, profiles or deletions has a state other than partial if and only if every target has it for that stream; an empty selection is not requested |
| `Discovery.CompletedReceiptIsBound` | core/crates/harvestcircle_application/src/availability_ports.rs:290-349 | a receipt always carries the original id; a completed one is for the original deadline, the current scope and a permutation of the original targets |
| `Discovery.CollectedIff` | core/crates/harvestcircle_application/src/availability_ports.rs:290-349 | exactly when the submitted receipt is handed out as it is, and otherwise with which fault, in which order of precedence, it is failed under the original id |
| `Discovery.CurrentIff` | core/crates/harvestcircle_application/src/availability_query.rs:60-77 | a scope is current if and only if it is the original one; another owner or context is a mismatch, any other difference is stale |
| `DiscoveryMetadata.MetadataIsBounded` | core/crates/harvestcircle_application/src/availability_outcomes.rs:484-520 | the metadata of every admitted outcome has at most 384 + 384 x targets bytes, at most 6,528 |
| `DiscoveryMetadata.MetadataJson` | core/crates/harvestcircle_application/src/availability_outcomes.rs:484-520 | serializes the envelope, then the targets in order with separators |
| `DiscoveryMetadata.MetadataIsUnambiguous` | core/crates/harvestcircle_application/src/availability_outcomes.rs:484-520 | for fingerprints without quotes, equal metadata means equal usage, number of items and targets with all their progress, in order |
| `DiscoveryMetadata.MetadataReads` | core/crates/harvestcircle_application/src/availability_outcomes.rs:484-520 | the whole document between its literal field names, in order |
| `DiscoveryMetadata.TargetReads` | core/crates/harvestcircle_application/src/availability_outcomes.rs:484-520 | the target and progress objects between their literal field names, in order |
| `DiscoveryMetadata.LabelsReadBack` | core/crates/harvestcircle_application/src/availability_outcomes.rs:112-145 | every label is read back as its own state or reason |
| `DiscoveryMetadata.NumbersReadBack` | core/crates/harvestcircle_application/src/availability_outcomes.rs:484-520 | every decimal is read back as its number |
| `Profiles.SelectedWins` | core/crates/harvestcircle_domain/src/profile.rs:170-183 | with ids identifying events, the selected event is a candidate, and every other one is older, or as old with a higher id |
| `Profiles.SelectionIgnoresOrder` | core/crates/harvestcircle_domain/src/profile.rs:170-183 | selection depends only on the set of events seen (the replaceable-event rule in the Kinds section of NIP-01) |
| `Profiles.SavingSelects` | core/crates/harvestcircle_application/src/profile_refresh.rs:286-310 | saving events one after the other caches, for each author, the one that selection chooses among them and the one cached before |
| `Profiles.CompletionShowsCacheIff` | core/crates/harvestcircle_application/src/profile_refresh.rs:171-226 | a completion keeps the display equal to the cache if and only if the event is by the active key or a profile is cached already |
| `Profiles.RefusedCompletionLags` | core/crates/harvestcircle_application/src/profile_refresh.rs:121-169 | a completion that the core refuses leaves the display behind exactly if the event is the key's own and changes the cached profile |
| `Profiles.DisplayConverges` | core/crates/harvestcircle_application/src/profile_refresh.rs:92-226 | for any order of begun and completed refreshes of one active identity, the displayed profile is at every moment the cached winner of all arrivals |
| `Profiles.OrdersAgree` | core/crates/harvestcircle_application/src/profile_refresh.rs:92-226 | two orders of the same arrivals end with the same displayed profile |
| `Profiles.BegunIsLoading` | core/crates/harvestcircle_application/src/profile_refresh.rs:92-113 | a begun refresh shows the relays connecting and the profile loading, keeps the profile, clears the problem and changes nothing else |
| `Profiles.CompletedShows` | core/crates/harvestcircle_application/src/profile_refresh.rs:121-226 | what each kind of completion shows as relay state, profile state, profile and problem, with nothing else changed; a completion for another key changes nothing |
| `Profiles.Repository.SaveProfile` | core/crates/harvestcircle_storage/src/profiles.rs:57-108 | replaces a cached profile, and its status, only by a later event or one as late with a lower id |
| `Profiles.Repository.RecordStatus` | core/crates/harvestcircle_storage/src/profiles.rs:112-138 | notes a status beside a cached profile only, without touching the profile |
| `Profiles.BeginProfileRefresh` | core/crates/harvestcircle_application/src/profile_refresh.rs:92-113 | marks the profile as loading and returns a plan for the active key; nothing when signed out |
| `Profiles.CompleteProfileRefresh` | core/crates/harvestcircle_application/src/profile_refresh.rs:121-256 | discards a stale completion; otherwise saves, loads the winner and publishes it; records exactly which status beside a cached profile; says what each storage failure leaves |
| `EventIds.ToHex` | core/crates/harvestcircle_domain/src/profile.rs:50-58 | writes the canonical 64 digits of an id |
| `EventIds.FromHex` | core/crates/harvestcircle_domain/src/profile.rs:21-38 | accepts exactly the canonical texts and returns the id that the text spells |
| `EventIds.SpellingIsUnique` | core/crates/harvestcircle_domain/src/profile.rs:21-58 | a text spells one id only |
| `EventIds.TextIsUnique` | core/crates/harvestcircle_domain/src/profile.rs:21-58 | an id has one text only |
| `EventIds.DigitsAre` | core/crates/harvestcircle_domain/src/profile.rs:21-58 | a half byte is written as its lowercase hexadecimal digit, and read back |
| `Lifecycle.LifecycleGate.Apply` | core/crates/harvestcircle_application/src/actor.rs:233-348 | each transition method moves the gate as specified or refuses and leaves it |
| `Lifecycle.TakenIsMost` | core/crates/harvestcircle_application/src/actor.rs:233-280 | the gate has taken as many opening stages as any choice of reports in order |
| `Lifecycle.MutationAllowedIff` | core/crates/harvestcircle_application/src/actor.rs:199-348 | in every run, local mutation is allowed if and only if the five opening stages were reported in order and nothing blocked, failed or shut down so far |
| `Lifecycle.StoppedForGood` | core/crates/harvestcircle_application/src/actor.rs:282-348 | once blocked, fatal, shutting down or closed, the gate never allows mutation again |
| `Lifecycle.AllowedIff` | core/crates/harvestcircle_application/src/actor.rs:199-227 | what each of the six command classes needs of the phase |
| `Lifecycle.StopOfHistory` | core/crates/harvestcircle_application/src/actor.rs:282-348 | for every history: blocked or fatal, with the problem of the last event that disturbed the gate; shutting down if that began and nothing was reported since; closed if it was also finished |
| `Lifecycle.RelayAllowedIff` | core/crates/harvestcircle_application/src/actor.rs:199-315 | in every run, relays may be used if and only if the gate was opened in order, never disturbed, and every degradation since was restored |
| `Lifecycle.DegradedIff` | core/crates/harvestcircle_application/src/actor.rs:295-315 | in every run, the gate is degraded if and only if it was never disturbed, and with the problem of the first report since it was opened or last restored |

## Left out

- Several simultaneous unfinished operations: when recovery completes and what registry it leaves is proved for them, crash-atomicity is not; commands are taken to be serialized by the runtime actor, which is not part of this model.
- Additions.AdditionIsCrashAtomic: assumes what import checks and creation relies on, that the key has no credential, and that an existing record says that its credential is missing (`ImportIsAdmissible` and `CreateIsAdmissible` derive this from the commands).
- Removals.RemovalRollsForward: the fallback is fixed at confirmation; it is sound when the in-memory selection agrees with the stored one, as `FallbackIsSound` proves.
- IdentityService.Stores.PutCredential: the operating system's keyring adapter, which accepts a repeated put of the same request, is not modelled; the in-memory store refuses it.
- IdentityService.Stores.BeginOperation: journal capacities and the clean-up of receipts after seven days are not modelled, so a request id is remembered for ever.
- IdentityService.Stores.DropCredentialIfPresent: a lookup and a conditional change count as one step, because a crash between the two leaves the same world as a crash before both.
- Records with an unavailable store: such a record may or may not have a credential, so custody agreement is stated as an implication in each direction.
- Timestamps of journal entries and diagnostics: nothing depends on them.
- Profile cache and preferences in identity removal: the durable removal does not touch them.
- StateMachine.StateMachine.Apply: callers are sequential; the gap between unlocking the state and publishing the snapshot is not modelled.
- ChangeHub.Receiver.Receive: one poll runs without interference; all interleavings are covered by `ChangeStream`, where the receive loop is split into its steps.
- ChangeStream.StepKeeps: a receiver that is dropped is one that takes no more steps; the queue and the cell are as their library documents them.
- Html.Write: the fixed texts of the identification and trace documents are not modelled; any title and items are.
- DiscoveryMetadata.MetadataIsBounded: target fingerprints are taken to be 64 hexadecimal characters, as the transport library makes them.
- Discovery.CompletedReceiptIsBound: the ticket and the admission port are inputs; deadlines of submission and page reads are not modelled.
- Profiles.DisplayConverges: without storage failures, which `CompleteProfileRefresh` covers; relays answer with events of the requested key, and the last revision is not reached.
- Profiles.CompleteProfileRefresh: times of refresh are not modelled.
- Lifecycle.LifecycleGate.Apply: the eleven transition methods are one method over their events.
- Session.ActivateIdentity: deriving a public key from a stored secret and loading the cached profile are inputs.
- LiveRun.RunIsLive: runs keep one durable operation at a time, generated keys are new, and the last revision is not reached.
- IdentityHistory.HistoryIsSound: assumes that removals see the stored selection; `LiveRun.RunIsPermitted` derives it.
- Cryptography, key formats, UUIDs, relay configuration and profile metadata: opaque values with equality (and byte order for keys and event ids).
- FFI commands and codecs, hub stock, departures and traces, availability queries, configuration, custody staging, the legacy journal path, the host runtime and the repository's audits: not modelled; they would add easy members or depend on code that is not part of this model.
