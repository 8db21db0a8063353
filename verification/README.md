# Verified models of Qiln

This project models three parts of Qiln in Dafny and proves what they promise.

**SSH authority and gateway.** The durable side is the rows of keys, grants, access fences, tickets and relays. Each
policy transaction holds its row locks to the end, so it is one step. `SshPolicy` gives each transaction as a value,
`SshStore` executes it statement by statement on a class and is proved against that value, `SshPolicySafety` holds the
invariant, `SshAnswers` says in terms of the rows when each transaction succeeds and what it changes, and
`SshPolicyRuns` has the claims about whole runs. `Tombstones`, `RelayRegistry` and `GatewayRegistry` do the
same for the relay registry of one process. `Gateway` is the product of both sides: every await of a relay setup, a
policy call or a durable closure is a point where any other event may happen first, replies may be lost, and the process
may restart. `GatewayServer` is the gateway object itself, one method for each stretch of code between two awaits.
`GatewaySafety`, `GatewayEvents` and `GatewayCalls` prove the joint invariant event by event, `GatewayClosures` accounts
exactly for what is durably closed, and `GatewayRuns` draws the conclusions: a confirmed revocation is final, a connected
relay is authorized or being revoked, and a shutdown accounts for every relay that was ever redeemed. `GatewayAnswers` says
what single events leave, and `GatewayHistory` what must have happened before: an active relay was dialed, a dialing one was
activated, and a redeemed one was offered with its key.

**Fenced-step configuration.** `Journal` has the schema of a step, the consistency of a record and the write rule, and
proves what any chain of writes preserves. `Installation` and `Planner` are the pure judgement and planning. `Evidence` and
`Configurer` are the coordinator, a class over a world in which every effect may fail or end the process before or after it
took place. `Convergence`, `ConvergenceLate` and `ConvergenceRuns` run the approved plans against a model of an Incus target
that nobody else changes, and a run of the coordinator over such a target is proved to be one of these. `JournalAnswers`,
`PlannerAnswers` and `ConvergenceAnswers` state the answers of these parts without their own functions: which records and
writes are accepted, when there is a plan and what it contains, and when a run succeeds and what it leaves.
`InstallationRecord` is the retained record.

**Canonical forms.** `CanonicalGraph` is the ancestor-set traversal over an object graph, `Json` and `JsonReadable` the
canonical printer (string escapes as in section 7 of RFC 8259), `JsonGrammar` the grammar that its text is read by,
`RoutePins` and `PinAnswers` the digest pins of routing, `Posix` the path tests, `PathAnswers` their meaning by resolution, and `Shell` the quoter against a reference tokenizer (sections 2.2.1 and 2.2.2 of the POSIX Shell Command Language).
`Sorting`, `Text`, `Characters` and `Wrappers` are shared.

## Where the code does not do what one would expect

- The comment in `packages/ssh/src/gateway/server.ts:306-307` says that a late relay is durably closed before the authority
  is released. When it is released, the relays left open are exactly those that no revocation confirmed and whose durable
  closure failed without committing or was never started: `GatewayRuns.ShutdownAccountsForEveryRelay`. A closure
  that fails before the shutdown settles is forgotten (`GatewayWitness.EarlierFailureIsForgotten`), one whose redemption lost its reply is never started
  (`GatewayWitness.LostReplyLeavesOpen`), and neither is one that a revocation closed here before it gave up
  (`GatewayWitness.AbandonedRevocationLeavesOpen`).
- The comment on the write rule (`packages/cli/src/journal/history.ts:70-75`) reads as if a new authorization changed nothing
  else. The code also lets it conclude the last step in the same write: `Journal.WriteMayDoBoth` is such a write, and
  `Journal.WriteRule` has all that are permitted.
- A plan does not mean that a run can complete. `ConvergenceRuns.ConfigurationConverges` has the exact condition, and
  `ConvergenceRuns.PlannedMayFail` a plan that cannot: staged content is judged only after its import.
- The comment in `packages/cli/src/installation/plan.ts:138-142` says that nothing is deleted for a plan that could not
  complete. Without an instance, a control character inside the path of the checkout is judged only at the creation, after
  the old image was deleted: `ConvergenceRuns.ReplacedForNothing`. `ConvergenceRuns.DeletionWasForNothing` has the exact
  condition.
- The device comparison indexes a plain object, so a device under a name that plain objects inherit, such as `constructor`,
  is not found unexpected: `Installation.InheritedDeviceIsOverlooked`. No plan sees it: `Planner.InheritedDeviceKeepsPlan`.

## Model

| member | source | states |
|---|---|---|
| Tombstones.StampFaithful | packages/ssh/src/gateway/relay.ts:174-194 | Adding a tombstone keeps the table faithful to the history of all tombstonings: sorted by expiry, bounded, one entry per ID, and missing a live entry only after an overflow |
| Tombstones.PruneFaithful | packages/ssh/src/gateway/relay.ts:187-194 | Pruning drops exactly the expired tombstones and keeps the table faithful |
| Tombstones.FaithfulTable | packages/ssh/src/gateway/relay.ts:174-194 | A faithful table is within its bound, sorted by expiry, and has distinct IDs |
| Tombstones.LiveTombstoneDroppedOnlyByOverflow | packages/ssh/src/gateway/relay.ts:174-185 | A tombstone that has not expired is missing only if at least the maximum number of other distinct IDs were tombstoned after it |
| RelayRegistry.RegisterSound | packages/ssh/src/gateway/relay.ts:58-85 | A registration keeps the relay bound, the faithful table and the callback accounting, and counts as accepted exactly when it is |
| RelayRegistry.CloseSound | packages/ssh/src/gateway/relay.ts:128-145 | Closing keeps the bounds, the faithful table and the callback accounting |
| RelayRegistry.CloseConserves | packages/ssh/src/gateway/relay.ts:128-145 | Every accepted relay is either still registered or was called back exactly once; closing keeps this balance |
| RelayRegistry.CloseEachEffect | packages/ssh/src/gateway/relay.ts:153-167 | Closing a list unregisters exactly its relays, destroys their sockets, and calls back exactly those that were registered |
| RelayRegistry.TombstoneRejectsRegistration | packages/ssh/src/gateway/relay.ts:28-31 | A relay closed before its registration is rejected by a registration that follows while its tombstone lives, and its channel is destroyed |
| GatewayRegistry.SshRelayRegistry.Create | packages/ssh/src/gateway/relay.ts:19-47 | The registry is refused exactly for limits that are not positive safe integers, and otherwise starts empty and valid |
| GatewayRegistry.SshRelayRegistry.TableBounds | packages/ssh/src/gateway/relay.ts:174-185 | At any time both tables are within their limits and tombstones are sorted by expiry |
| GatewayRegistry.SshRelayRegistry.PruneTombstones | packages/ssh/src/gateway/relay.ts:187-194 | The in-place loop leaves exactly the tombstones that have not expired at the time read |
| GatewayRegistry.SshRelayRegistry.AddTombstone | packages/ssh/src/gateway/relay.ts:174-185 | The in-place steps (prune, delete, append, evict) refine the value they are specified by |
| GatewayRegistry.SshRelayRegistry.EvictOldest | packages/ssh/src/gateway/relay.ts:178-184 | The eviction loop leaves exactly the newest tombstones within the bound |
| GatewayRegistry.SshRelayRegistry.TombstoneCount | packages/ssh/src/gateway/relay.ts:53-56 | The count is taken after expired tombstones are pruned |
| GatewayRegistry.SshRelayRegistry.Register | packages/ssh/src/gateway/relay.ts:58-85 | Registers exactly a relay that is neither tombstoned nor registered while there is capacity; anything else destroys the channel, and a duplicate is tombstoned |
| GatewayRegistry.SshRelayRegistry.BeginDial | packages/ssh/src/gateway/relay.ts:87-94 | Only a registered relay without a tombstone begins to dial |
| GatewayRegistry.SshRelayRegistry.AttachUpstream | packages/ssh/src/gateway/relay.ts:102-110 | An upstream is attached only to a dialing relay without a tombstone, and is destroyed otherwise |
| GatewayRegistry.SshRelayRegistry.Activate | packages/ssh/src/gateway/relay.ts:112-126 | Only a dialing relay with a live upstream and no tombstone becomes active; otherwise its upstream is destroyed |
| GatewayRegistry.SshRelayRegistry.Close | packages/ssh/src/gateway/relay.ts:128-145 | Unregisters, tombstones, destroys both sockets and calls back once; an unknown relay is only tombstoned |
| GatewayRegistry.SshRelayRegistry.CloseRelayIds | packages/ssh/src/gateway/relay.ts:153-159 | Closes every distinct ID once for the host and confirms exactly the given IDs |
| GatewayRegistry.SshRelayRegistry.CloseAll | packages/ssh/src/gateway/relay.ts:161-167 | Closes exactly the registered relays and leaves none; by then every relay that was ever accepted was called back exactly once |
| SshStore.Store.ValidateDestination | packages/ssh/src/host/tickets.ts:409-467 | Passes exactly for an eligible binding; only a missing private address of an otherwise eligible branch is a conflict |
| SshStore.Store.Issue | packages/ssh/src/host/tickets.ts:112-146 | Issues exactly for an active key with exactly one active grant that is eligible now, and otherwise changes nothing |
| SshStore.Store.Redeem | packages/ssh/src/host/tickets.ts:148-232 | Redeems exactly an issued, unexpired, correctly bound and eligible ticket that is offered with its own key, inserts one opening relay of that key, and otherwise leaves every row as it was |
| SshStore.Store.Activate | packages/ssh/src/host/tickets.ts:234-309 | Activates exactly an opening relay of this gateway whose ticket is redeemed and whose whole binding is still eligible |
| SshStore.Store.Close | packages/ssh/src/host/tickets.ts:311-359 | Closes a relay of this gateway from any status, keeps an earlier closing time and reason, and returns the durable closing time |
| SshStore.Store.MarkSelectedRelaysClosing | packages/ssh/src/host/relays.ts:244-282 | Only the opening and active ones among the selected relays change, and all selected ones are returned |
| SshStore.Store.RecoverGatewayRelays | packages/ssh/src/host/relays.ts:56-74 | Marks and returns every relay an earlier process of this gateway left opening, active or closing |
| SshStore.Store.ConfirmRelayClosures | packages/ssh/src/host/relays.ts:146-210 | Succeeds exactly if the closer confirmed all of the relays and each is closing or closed, and then all are closed |
| SshStore.Store.RevokeKey | packages/ssh/src/host/keys.ts:102-186 | Revokes a key of the user with its active grants and live tickets, marks its relays and returns them; a key of another user is refused, and a revoked key selects none |
| SshStore.Store.BindGrant | packages/ssh/src/host/grants.ts:44-152 | Grants exactly an active key without an active grant on an enabled, online, editable branch |
| SshStore.Store.RevokeGrant | packages/ssh/src/host/grants.ts:154-252 | Revokes the grant with its live tickets, marks the relays of its binding and returns them |
| SshStore.Store.InitializeBlocked | packages/ssh/src/host/access.ts:49-103 | Creates a blocked fence, or accepts one already blocked for the same reason, and reports whether a row changed |
| SshStore.Store.Enable | packages/ssh/src/host/access.ts:105-162 | Enables an initialized fence of an online branch in an active capsule, and reports whether a row changed |
| SshStore.Store.BlockFences | packages/ssh/src/host/access.ts:262-330 | Creating missing fences, blocking enabled ones and relabelling the rest together block every branch for the reason |
| SshStore.Store.RevokeAccess | packages/ssh/src/host/access.ts:214-463 | Authorizes a destroy by its running operation, blocks every branch, revokes its grants and tickets, and marks and returns every relay of it that is not closed; it reports changed exactly if a row changed or a relay is still to be confirmed, and counts the grants and tickets it changed |
| SshStore.Store.AuthorizeRevocation | packages/ssh/src/host/access.ts:398-463 | A force is authorized only by the persisted audit fields of a running destroy of the owner on this capsule, and inconsistent ones refuse the revocation |
| SshStore.FenceUpdates | packages/ssh/src/host/access.ts:277-330 | The three statements on fences equal one pass that blocks each branch |
| SshPolicySafety.CommitSound | packages/ssh/src/host/tickets.ts:112-359 | Every committed transaction keeps the whole invariant of keys, grants, fences, tickets and relays |
| SshPolicySafety.RevocationSound | packages/ssh/src/host/access.ts:214-396 | Revoking any set of grants, tickets and relays that covers its own dependents keeps the invariant |
| SshPolicySafety.RedeemSound | packages/ssh/src/host/tickets.ts:148-232 | A redemption keeps the invariant, in particular one relay per ticket |
| SshPolicySafety.RevokeKeySound | packages/ssh/src/host/keys.ts:102-180 | Revoking a key covers everything that depends on it |
| SshPolicySafety.RevokeGrantSound | packages/ssh/src/host/grants.ts:154-242 | Revoking a grant covers everything that depends on it |
| SshPolicySafety.RevokeAccessSound | packages/ssh/src/host/access.ts:214-396 | Revoking access to branches covers everything admitted through their fences |
| SshPolicyRuns.ReachableIsAuthorized | packages/ssh/src/host/tickets.ts:112-231 | In every reachable state an opening or active relay has a redeemed ticket, active grant, active key and enabled fence that all agree; live tickets have active grants; a key has one active grant and a ticket one relay |
| SshPolicyRuns.ReachableSatisfiesChecks | packages/ssh/src/db/relays.ts:98-151 | Every row of every reachable state satisfies the CHECK predicates of its table |
| SshPolicyRuns.ReachableInTime | packages/ssh/src/db/relays.ts:98-151 | In every reachable state the times and reasons that are set say the status of each row, and they are in order |
| SshPolicyRuns.RunsOnlyMoveForward | packages/ssh/src/host/relays.ts:252-281 | Over any run relay status only advances, the first closing time and reason stay, and no revoked key, grant or ticket and no closed relay comes back |
| SshPolicyRuns.RevocationFences | packages/ssh/src/host/access.ts:268-394 | The revocation transaction alone blocks the fence, revokes every grant and ticket of the branch, leaves no relay opening or active, and selects all that are not closed |
| SshPolicyRuns.NewRowsAdmitted | packages/ssh/src/host/tickets.ts:409-456 | A new grant, ticket or relay is only ever admitted through an enabled fence |
| SshPolicyRuns.NewFencesAreAuthorized | packages/ssh/src/host/access.ts:268-290 | A fence appears only blocked, and only by initialization or by a running destroy that a user forced with a reason and acknowledged |
| SshPolicyRuns.OutOfServiceAdmitsNothing | packages/ssh/src/host/access.ts:124-135 | On a branch whose capsule is not in service no fence is enabled, and no ticket or relay is created |
| SshPolicyRuns.FencedStep | packages/ssh/src/host/access.ts:105-189 | Until the fence is enabled again no transaction unfences the branch or adds a ticket or relay to it |
| SshPolicyRuns.RevokedBranchStaysRevoked | packages/ssh/src/host/access.ts:164-189 | From a revocation until the next enabling, the branch stays fenced and gains no ticket or relay, and once what it selected is confirmed every relay of the branch is durably closed |
| SshPolicyRuns.ConfirmedStaysClosed | packages/ssh/src/host/relays.ts:146-210 | What a confirmation closed stays closed in every later state |
| SshPolicyRuns.RepeatedRevocationReselects | packages/ssh/src/host/relays.ts:26-95 | A repeated revocation selects exactly the relays of the branch that are not closed yet |
| SshAnswers.IssueExactly | packages/ssh/src/host/tickets.ts:112-146 | A key gets a ticket exactly if it has an active grant on a branch that is online with an address in a capsule in service; the ticket names that grant and expires after the lifetime |
| SshAnswers.RedeemExactly | packages/ssh/src/host/tickets.ts:148-232 | A ticket opens a relay exactly if it is unspent, unexpired and offered with its own key while its branch is reachable; one opening relay of that key is added and the ticket is spent |
| SshAnswers.ActivateExactly | packages/ssh/src/host/tickets.ts:234-309 | A relay becomes active exactly if it is an opening one of this gateway and its branch is still reachable, and nothing else changes |
| SshAnswers.CloseExactly | packages/ssh/src/host/tickets.ts:311-359 | A gateway closes its own relays from any status; the closing time and reason that an earlier closer recorded stay |
| SshAnswers.RecoverExactly | packages/ssh/src/host/relays.ts:56-74 | A starting gateway marks as closing, with the recovery reason, exactly its relays that are opening or active, and selects those that are not closed |
| SshAnswers.ConfirmExactly | packages/ssh/src/host/relays.ts:146-210 | A confirmation is possible exactly if every given relay is closing or closed; it closes exactly those and keeps their reason |
| SshAnswers.RegisterKeyExactly | packages/ssh/src/host/keys.ts:45-90 | A key is registered exactly if it is new; it is active and belongs to its user, and nothing else changes |
| SshAnswers.RevokeKeyExactly | packages/ssh/src/host/keys.ts:102-186 | A key is revoked exactly for its owner, with its active grants and its tickets; its opening and active relays start closing, and those that are not closed are selected |
| SshAnswers.BindExactly | packages/ssh/src/host/grants.ts:44-152 | An administrator grants exactly an active key without an active grant access to an enabled, online branch of a capsule in service |
| SshAnswers.RevokeGrantExactly | packages/ssh/src/host/grants.ts:154-252 | A grant is revoked exactly by an administrator, with its tickets; exactly the relays of its key on its branch start closing, and those that are not closed are selected |
| SshAnswers.InitializeExactly | packages/ssh/src/host/access.ts:49-103 | The owner adds a blocked fence to a branch, or leaves one already blocked for the same reason as it is; any other fence refuses it |
| SshAnswers.EnableExactly | packages/ssh/src/host/access.ts:105-162 | A fence is enabled exactly if it exists on an online branch of a capsule of the owner in service; only that fence changes |
| SshAnswers.RevokeAccessExactly | packages/ssh/src/host/access.ts:214-463 | Access is revoked exactly for the owner of the capsule and of every branch concerned, all of which have a fence unless a running destroy with consistent audit fields forces it |
| SshAnswers.RevokeAccessReaches | packages/ssh/src/host/access.ts:332-394 | A revocation of access revokes exactly the active grants and the tickets of its branches, and selects exactly their relays that are not closed |
| SshAnswers.RevokeAccessFences | packages/ssh/src/host/access.ts:268-330 | A revocation of access leaves a fence blocked for its reason on each of its branches, unchanged if it was so already, and no other fence changed |
| GatewayServer.QilnSshGateway.TrackDurableClosure | packages/ssh/src/gateway/server.ts:878-892 | Starting a durable closure tracks exactly one task for the relay |
| GatewayServer.QilnSshGateway.OnRelayClosed | packages/ssh/src/gateway/server.ts:837-864 | A callback tracks a durable closure with the reason of its origin, except for a host revocation |
| GatewayServer.QilnSshGateway.CloseRelay | packages/ssh/src/gateway/relay.ts:128-145 | Closing here tracks the durable closure exactly of a registered relay |
| GatewayServer.QilnSshGateway.CloseRelayIds | packages/ssh/src/gateway/server.ts:320-322 | The host closes every given relay here and no durable closure is tracked for it |
| GatewayServer.QilnSshGateway.Fail | packages/ssh/src/gateway/server.ts:751-763 | A failed setup with a known relay closes it here, destroys both its sockets, starts its durable closure with the setup-failure reason, and ends |
| GatewayServer.QilnSshGateway.ContinueOpened | packages/ssh/src/gateway/server.ts:684-732 | After the redemption a stopping or closed gateway destroys the channel and durably closes the relay with the rejection reason; otherwise it registers it, and durably closes one that is rejected |
| GatewayServer.QilnSshGateway.ContinueActivated | packages/ssh/src/gateway/server.ts:732-815 | After the activation the relay begins to dial and gets its upstream before the connect, or is closed here |
| GatewayServer.QilnSshGateway.DialEnds | packages/ssh/src/gateway/server.ts:739-763 | With a connected dial, a dialing relay with a live upstream and no live tombstone becomes active and no closure starts; otherwise it is unregistered, both its sockets are destroyed and its durable closure starts with the setup-failure reason |
| GatewayServer.QilnSshGateway.Stop | packages/ssh/src/gateway/server.ts:275-287 | The first stop closes every registered relay, destroys its sockets and tracks its durable closure with the shutdown reason before anything is awaited; later ones change nothing |
| GatewayAnswers.RedemptionExactly | packages/ssh/src/gateway/server.ts:684-700 | A committed redemption shows in the row of the new relay with the offered ticket and key, and in its setup unless the reply is lost; a refused one ends the setup and changes no row |
| GatewayAnswers.ActivationExactly | packages/ssh/src/gateway/server.ts:732-736 | A setup goes on to its dial exactly if its relay became active and the reply came back, and any other activation is taken for refused |
| GatewayAnswers.DisconnectExactly | packages/ssh/src/gateway/server.ts:837-864 | The end of a stream unregisters the relay, destroys its sockets and starts its durable closure with the stream reason; a relay that is not registered starts none |
| GatewayAnswers.ClosureExactly | packages/ssh/src/gateway/server.ts:869-899 | A durable closure closes the row, keeps an earlier reason, and counts as failed exactly if its reply was lost |
| GatewayAnswers.CallClosesExactly | packages/ssh/src/host/relays.ts:146-162 | A revocation closes every selected relay here with its sockets, and starts no durable closure for them |
| GatewayAnswers.CallConfirmsExactly | packages/ssh/src/host/relays.ts:163-210 | A revocation confirms its relays all together, and only if each is closing or closed; otherwise no row changes and they stay unconfirmed |
| GatewaySafety.HostStepSelects | packages/ssh/src/host/relays.ts:76-132 | A transaction of the host moves a relay to closing only if it also selects it, and closes none at once |
| GatewayRuns.ApplyInv | packages/ssh/src/gateway/server.ts:639-899 | Every event of the process keeps the joint invariant of rows, registry, setups, closures and revocations |
| GatewayRuns.ConfirmedNeverConnects | packages/ssh/src/host/relays.ts:146-210 | Once a revocation has confirmed a relay, no later event of any run lets it dial or carry a stream again, whatever became of its tombstone |
| GatewayRuns.ConnectedIsAuthorized | packages/ssh/src/gateway/server.ts:639-763 | A relay that dials or carries a stream is durably active under a complete authorization, or durably closing under a committed revocation that has not closed it here yet or gave up |
| GatewayRuns.ClosureStartsOnce | packages/ssh/src/gateway/server.ts:837-892 | No run starts the durable closure of one relay twice, or of a relay still registered |
| GatewayHistory.ActiveWasDialed | packages/ssh/src/gateway/server.ts:739-750 | In every run a relay is active here only if an earlier event ended its dial with a connection |
| GatewayHistory.DialWasActivated | packages/ssh/src/gateway/server.ts:732-741 | In every run a relay dials or is active here only if an earlier activation of it committed and its reply came back |
| GatewayHistory.RedeemedForOfferedKey | packages/ssh/src/host/tickets.ts:148-232 | In every run each redeemed relay has the ticket and the key that an earlier event offered in the shell of the same setup |
| GatewayHistory.ShutdownEndsExactly | packages/ssh/src/gateway/server.ts:289-318 | In every run a shutdown that ended waited for the durable closures pending when its setups had settled, and was rejected exactly if one of them failed |
| GatewayClosures.ApplyClosed | packages/ssh/src/gateway/server.ts:869-899 | Every event keeps the account exact: a redeemed relay is closed exactly if a revocation confirmed it, or its durable closure was started, has ended and did commit |
| GatewayRuns.ShutdownAccountsForEveryRelay | packages/ssh/src/gateway/server.ts:289-318 | When the shutdown resolved, nothing is registered and no setup or closure is pending; a relay ever redeemed is left open exactly if no revocation confirmed it and its durable closure failed without committing or was never started, and the latter only for a lost reply or a revocation that gave up or still confirms it |
| GatewayRuns.ReleaseLeavesNothingOpen | packages/ssh/src/runtime/index.ts:154-168 | After the drain and the release every redeemed relay is durably closed if no durable call failed |
| GatewayWitness.EarlierFailureIsForgotten | packages/ssh/src/gateway/server.ts:878-899 | A run that releases the authority over an open relay: a closure that failed before the shutdown settles does not reject it |
| GatewayWitness.LostReplyLeavesOpen | packages/ssh/src/gateway/server.ts:639-690 | A run that releases the authority over an open relay: its redemption committed, but the reply was lost |
| GatewayWitness.AbandonedRevocationLeavesOpen | packages/ssh/src/gateway/server.ts:837-866 | A run that releases the authority over a closing relay: a revocation closed it here and gave up before confirming it |
| Installation.DeviceJudgement | packages/cli/src/installation/instance.ts:111-139 | No difference is found exactly if the expected devices are as expected and any other device has a name that plain objects inherit |
| Installation.InheritedDeviceIsOverlooked | packages/cli/src/installation/instance.ts:117-126 | The judgement of an instance is the same with a device added under such a name |
| Installation.ConfigJudgement | packages/cli/src/installation/instance.ts:75-103 | Nothing is missing or unexpected exactly if every expected setting holds and any other key is volatile, of the image, or a managed credential |
| Installation.CredentialKeyShapes | packages/cli/src/installation/spec.ts:16-49 | No credential key is a volatile or image key, and none is a managed key in the other namespace |
| Planner.EmptyPlanMeansMatch | packages/cli/src/installation/plan.ts:143-174 | A plan exists and is empty exactly if every resource, pin, checkout and credential matches |
| Planner.InheritedDeviceKeepsPlan | packages/cli/src/installation/instance.ts:117-126 | A device added under an inherited name changes no plan, so an installation that matched still matches |
| Planner.ReplacementIsSafe | packages/cli/src/installation/plan.ts:87-105 | A replacement names another image than the selected one and none that an observed instance is based on; without an import left the selected image was found fitting |
| Planner.FirstGateOnlyAdds | packages/cli/src/installation/plan.ts:182-198 | The first gate only clones and imports |
| Planner.GuardedUpdateFrame | packages/cli/src/installation/credentials.ts:376-403 | The guarded update keeps an instance compatible and free of collisions exactly if the layout admits the credentials, and then the instance holds them |
| Planner.UpdateCollision | packages/cli/src/installation/credentials.ts:235-258 | After the update both namespaces hold one suffix exactly if the layout sets a key of the opposite namespace |
| PlannerAnswers.NetworkExactly | packages/cli/src/installation/network.ts:23-47 | A network fits exactly if it is the one that the layout asks for, with no setting of its own but volatile ones |
| PlannerAnswers.VolumeExactly | packages/cli/src/installation/storage.ts:23-48 | A volume fits exactly if it is the one that the layout asks for, with no setting of its own but volatile ones |
| PlannerAnswers.JudgementExactly | packages/cli/src/installation/instance.ts:145-197 | An instance passes exactly if no credential is in both namespaces, the source root is usable, and it is the stopped container that the inputs ask for |
| PlannerAnswers.PlannedExactly | packages/cli/src/installation/plan.ts:143-174 | There is a plan exactly if each observed resource is as asked for, the images are usable, a present checkout has a restore point, and without local credentials there is a roster and no credential to be lost |
| PlannerAnswers.PlanContains | packages/cli/src/installation/plan.ts:143-174 | A plan creates exactly what is missing, moves the alias exactly if it does not name the content, generates credentials exactly if there are none, and delivers exactly if the instance does not hold them |
| PlannerAnswers.LostCredentialsAreNotReplaced | packages/cli/src/installation/plan.ts:109-135 | While an instance holds any credential, in either namespace, an absent local set leads to no plan, and is then the reason for the refusal |
| PlannerAnswers.TargetRefusalMeans | packages/cli/src/installation/plan.ts:147-157 | Each refusal of a network, a volume or an instance says what was observed |
| PlannerAnswers.LocalRefusalMeans | packages/cli/src/installation/plan.ts:54-135 | Each refusal of credentials, of the checkout or of an image says what was observed |
| PlannerAnswers.ActionsExactly | packages/cli/src/installation/journal/types.ts:110-137 | The actions of a plan are exactly those that it asks for |
| PlannerAnswers.ActionsInOrder | packages/cli/src/installation/journal/types.ts:110-137 | An import comes before the deletion, the deletion before the alias, and the instance after what it uses; no action comes twice |
| PlannerAnswers.FirstGateExactly | packages/cli/src/installation/plan.ts:182-198 | A plan has a gate of its own for its checkout and its import exactly if it replaces an image by one that it imports |
| PlannerAnswers.VerifiedExactly | packages/cli/src/installation/verify.ts:33-62 | What an observation must show for each action to count as verified |
| PlannerAnswers.VerifiedIsNotPlanned | packages/cli/src/installation/verify.ts:33-62 | An action that was verified is not planned again for the same content while the roster stays |
| Convergence.EarlyThenLate | packages/cli/src/installation/journal/types.ts:110-137 | The actions of a plan are the checkout and image actions in their order, then the rest |
| ConvergenceLate.CreatedInstanceFits | packages/cli/src/installation/instance.ts:199-216 | A created instance is compatible exactly for a valid source root, an unset base image, and settings without a collision |
| ConvergenceLate.LateConverges | packages/cli/src/installation/configure.ts:310-328 | The actions after the pin succeed, each verified, exactly if they are feasible, and the site then matches |
| ConvergenceRuns.ImagesConverge | packages/cli/src/installation/apply.ts:60-83 | The image actions succeed exactly if imported content fits, and leave the selected image in place and aliased |
| ConvergenceRuns.GateConverges | packages/cli/src/installation/plan.ts:182-198 | The first gate succeeds exactly if the content fits, and only adds the checkout and the image |
| ConvergenceRuns.RemainingPlan | packages/cli/src/installation/configure.ts:210-223 | After the first gate the plan is the full plan without checkout and import |
| ConvergenceRuns.ConfigurationConverges | packages/cli/src/installation/configure.ts:210-340 | From any site with a plan, a run succeeds exactly if the plan is feasible; then the site needs nothing further and another run dispatches nothing |
| ConvergenceRuns.PlannedMayFail | packages/cli/src/installation/plan.ts:49-78 | A site with a plan whose run fails: content for another architecture, which is judged only after its import |
| ConvergenceRuns.ImagesComeFirst | packages/cli/src/installation/configure.ts:310-328 | A run comes to its pin exactly if imported content fits, and has by then deleted the image it replaces |
| ConvergenceRuns.DeletionWasForNothing | packages/cli/src/installation/plan.ts:138-142 | A run deletes an image and fails exactly if the plan replaces one, its content fits, and what comes after the images is not feasible |
| ConvergenceRuns.ReplacedForNothing | packages/cli/src/installation/instance.ts:11-24 | A site with a plan whose run deletes the old image and then fails: a control character inside the path of the checkout |
| ConvergenceAnswers.RunSucceedsExactly | packages/cli/src/installation/configure.ts:210-340 | From any site a run succeeds exactly if nothing in the site stands in its way: resources as asked for or creatable, usable content, credentials that may be kept or generated and that the layout admits |
| ConvergenceAnswers.RunLeavesExactly | packages/cli/src/installation/configure.ts:210-340 | What a successful run leaves, field by field: what was missing is created, the credentials are delivered, the alias and the pin name the content, the superseded image is gone, and nothing else has changed |
| ConvergenceAnswers.CredentialsSurvive | packages/cli/src/installation/configure.ts:403-424 | A successful run keeps the secrets of a local set, replaces only the roster, draws new ones only for an instance that held none, and leaves every other setting of an instance as it was |
| ConvergenceAnswers.LostSetStopsRun | packages/cli/src/installation/plan.ts:123-134 | With the local set absent, a run at an instance that holds any credential ends before its first action |
| ConvergenceAnswers.SelectionRefusalMeans | packages/cli/src/installation/preflight/image.ts:90-160 | Why a selected image is refused: not found, an invalid alias target, another pin, or not a fitting container image |
| Journal.OnlyTheLastIsSelected | packages/cli/src/journal/step.ts:93-117 | In a consistent record the stuck and the returned steps are the last step or none, and none of either exactly if every step is settled |
| Journal.ProgressIsConclusion | packages/cli/src/journal/step.ts:123-133 | Between valid steps, progress is exactly: no change, any outcome of an open step, or the verification of a returned one |
| Journal.WriteRule | packages/cli/src/journal/history.ts:66-102 | Between valid records the write rule permits exactly one new open step, or one conclusion of the last step, with a new authorization only if that leaves every step settled |
| Journal.WriteMayDoBoth | packages/cli/src/journal/history.ts:76-102 | A permitted write that verifies the last step and adds an authorization |
| Journal.UncertainFreezes | packages/cli/src/journal/history.ts:76-102 | Once a step is uncertain no other record is a permitted successor |
| Journal.ChainExtends | packages/cli/src/journal/history.ts:45-102 | Along any chain of writes authorizations only append, settled steps never change, a returned step only becomes verified, an uncertain one freezes the record, and only the last step is unsettled |
| JournalAnswers.StepExactly | packages/cli/src/journal/step.ts:60-88 | A valid step is open, refused, failed with 1 to 255, returned, or verified, with its times in order, and its state says which |
| JournalAnswers.StuckExactly | packages/cli/src/journal/step.ts:93-117 | A valid history is stuck exactly if its newest step is open or failed, and has a returned step exactly if that one is |
| JournalAnswers.HistoryExactly | packages/cli/src/journal/history.ts:45-64 | A history is valid exactly if identities are distinct, fences ascend, each step is authorized no later than its fence, and all but the last are refused or verified |
| JournalAnswers.WriteExactly | packages/cli/src/journal/history.ts:76-102 | Between valid records a write is permitted exactly if it adds one open step, or advances the newest one, with one authorization on top only if that settles every step |
| JournalAnswers.RecordExactly | packages/cli/src/installation/journal/records.ts:20-58 | The limits of a record: 32 authorizations, 64 steps, 64 operations of distinct fenced steps, 16 aliases, full fingerprints and known hosts |
| JournalAnswers.TransitionExactly | packages/cli/src/installation/journal/records.ts:86-122 | A transition is a permitted write, with at most one new operation, for the newest step while it is open, and a new authorization of the current host |
| Configuration.World.Save | packages/cli/src/installation/journal/records.ts:129-144 | The record is replaced only by a permitted transition; a process that ends here leaves the old or the new record |
| Configuration.Configurer.Persist | packages/cli/src/installation/configure.ts:369-373 | A persisted record is a permitted transition, and one with a new step has a step that was never dispatched |
| Configuration.Configurer.Amend | packages/cli/src/installation/configure.ts:375-379 | Only what is given replaces what the newest step recorded; a failed write leaves the old record or the amended one |
| Configuration.Configurer.Authorize | packages/cli/src/installation/configure.ts:381-392 | The record gains one authorization of this plan for the current host and nothing else, and every step is settled; its identity is returned |
| Configuration.Configurer.Fence | packages/cli/src/installation/configure.ts:480-495 | The record gains one open step for this action under this authorization and nothing else, and the step was never dispatched |
| Configuration.Configurer.Verified | packages/cli/src/installation/configure.ts:596-604 | Only an observation that meets the postcondition of the action records a verification, even if the process ends there, and the record gains nothing but the time of it |
| Configuration.Configurer.RunStep | packages/cli/src/installation/configure.ts:497-530 | Success means that exactly one request of this action was dispatched, under one new step, and that a later observation verified it |
| Configuration.Configurer.RefusedLocallyExactly | packages/cli/src/installation/apply.ts:49-115 | A request is refused locally exactly if the plan replaces nothing, the staged content is not the one of the plan, the source root is unusable, or the instance or the credentials of an update are missing or not usable |
| Configuration.World.Send | packages/cli/src/installation/apply.ts:39-47 | A request leaves only under an open fence of its own that was never dispatched; it is logged with whether it was applied, and the target is as it was if it was not |
| Configuration.Configurer.Materialize | packages/cli/src/installation/configure.ts:452-474 | Success means that the restore point is pinned, and that exactly one clone ran, under one new step that a later observation verified |
| Configuration.Configurer.Await | packages/cli/src/installation/configure.ts:507-521 | The accepted operation is recorded for the newest step, and nothing else, before the wait |
| Configuration.Configurer.ConcludeRequest | packages/cli/src/installation/configure.ts:555-587 | Before acceptance a status from 400 to 499, a local refusal or an unsent cancellation is recorded as refused, and a failed operation as exit code 1; after any other status, a lost connection, or once accepted, the record stays as it was |
| Configuration.Configurer.ConcludeRemote | packages/cli/src/installation/configure.ts:532-553 | Exit codes from 20 to 99 and a connection that broke before the start are recorded as refused, any other exit code as such, and a connection that broke later as nothing; only a recorded zero continues |
| Configuration.Configurer.Confirm | packages/cli/src/installation/configure.ts:276-290 | The confirming observation leads to a plan whose approved part is exactly what was approved |
| Configuration.Configurer.ApplyActions | packages/cli/src/installation/configure.ts:310-328 | Success means that exactly the actions of the plan were dispatched, in the order in which it lists them, one step each, and every one verified; whatever failed, each dispatch was fenced; if nobody else changes the target, the site and the last observation are those of `Convergence.ApplyActions` |
| Configuration.GateOrder | packages/cli/src/installation/configure.ts:310-328 | Taking the checkout, the image actions and then the rest is the order in which the plan lists its actions |
| Configuration.Configurer.SettleReturned | packages/cli/src/installation/configure.ts:610-623 | A returned step of an earlier run is only verified, never dispatched again: the record is unchanged or has its newest step verified, and nothing else changes |
| Configuration.Configurer.Run | packages/cli/src/installation/configure.ts:210-223 | A whole run dispatches only under open fences and nothing for an empty plan; on success it dispatched exactly what the approved gates list, once each and in order, where the second gate is the plan of an observation made after the first; if nobody else changes the target, it is a run as `Convergence` defines it |
| Configuration.Configure | packages/cli/src/installation/configure.ts:197-223 | With a stuck step nothing is dispatched and nothing is written; an attempt that succeeds while nobody else changes the target had a feasible plan and leaves a site that needs nothing further |
| Configuration.Sessions | packages/cli/src/installation/configure.ts:197-223 | Any number of runs that end anywhere, and reassignments between them, keep every dispatch ever made accounted for |
| Evidence.TransitionAccounted | packages/cli/src/installation/journal/records.ts:108-122 | A permitted write keeps every earlier dispatch accounted for |
| Evidence.DispatchesAreFenced | packages/cli/src/journal/step.ts:93-117 | Every dispatch ran under exactly one persisted open step whose authorization lists the action, with every earlier step settled |
| Evidence.DispatchesAreRetained | packages/cli/src/journal/history.ts:76-102 | The retained record still shows every dispatch: its step is in the same place, and its authorization is the same and lists the action |
| Evidence.DispatchedOnce | packages/cli/src/installation/configure.ts:480-530 | No step is dispatched twice |
| Evidence.DeletionsAreSafe | packages/cli/src/installation/plan.ts:54-105 | An image is deleted only under a plan confirmed while the selected image was in the store and fitting, the deleted one was another, and no instance was based on it; if nobody else changes the site, all of this is so of the site itself at the moment of the dispatch |
| Evidence.OutcomesAreSo | packages/cli/src/installation/configure.ts:532-587 | Over any number of runs, a step recorded as refused was not applied and left the site as it was, and one recorded with exit code zero was applied |
| InstallationRecord.TransitionsAreSingleChanges | packages/cli/src/installation/records.ts:215-234 | The write rule permits exactly a new image pin, a new restore point, or one reassignment |
| InstallationRecord.TransitionExactly | packages/cli/src/installation/records.ts:215-234 | A write changes the image pin, or sets a restore point, or appends the current host to the history and names another one; nothing else |
| InstallationRecord.RecordExactly | packages/cli/src/installation/records.ts:52-106 | A record has at most 32 earlier hosts, all distinct AWS deployments of the volume of the current one, a fingerprint of 64 digits, and a commit of 40 digits for an AWS host only |
| InstallationRecord.HostsOnlyGrow | packages/cli/src/installation/records.ts:52-64 | Over any run of writes the hosts only grow at the end, stay distinct deployments of one volume, and a restore point is never dropped |
| InstallationRecord.NeverReturns | packages/cli/src/installation/records.ts:52-64 | An installation never returns to an earlier host |
| InstallationRecord.Store.Save | packages/cli/src/installation/state.ts:252-268 | Replaces the record exactly by a valid one that is a permitted transition |
| InstallationRecord.Store.PinImage | packages/cli/src/installation/state.ts:273-288 | Pinning an image is permitted exactly for a well-formed fingerprint |
| InstallationRecord.Store.PinCheckout | packages/cli/src/installation/state.ts:298-307 | Pinning a restore point is permitted exactly for an AWS host |
| InstallationRecord.Store.AssignHost | packages/cli/src/installation/state.ts:313-340 | A reassignment is permitted exactly if it continues the lineage within the history bound |
| CanonicalGraph.Traversal.ToObject | packages/core/src/digest/canonical.ts:63-154 | An object already being visited is a cycle, and the ancestor set is restored whatever happens |
| CanonicalGraph.Traversal.ToChildren | packages/core/src/digest/canonical.ts:89-104 | Entries are unfolded in order, and an accessor is refused |
| CanonicalGraph.Traversal.ToValue | packages/core/src/digest/canonical.ts:156-184 | A value yields its unfolding, or a reachable cycle or unsupported value as the reason why it has none |
| CanonicalGraph.UnfoldingExcludes | packages/core/src/digest/canonical.ts:63-154 | Whatever has an unfolding reaches neither a cycle nor anything unsupported |
| CanonicalGraph.UnfoldingUnique | packages/core/src/digest/canonical.ts:109-154 | A value has at most one key-sorted unfolding |
| CanonicalGraph.UnfoldingAscends | packages/core/src/digest/canonical.ts:109-154 | In every object of an unfolding each key is a proper prefix of a later one, or has the smaller code unit where they first differ |
| CanonicalGraph.ScalarUnfolds | packages/core/src/digest/canonical.ts:156-176 | A scalar unfolds to the same scalar and to nothing else |
| CanonicalGraph.ListUnfolds | packages/core/src/digest/canonical.ts:63-107 | A list unfolds exactly if it is plain and holds only data, to the unfoldings of its items in order |
| CanonicalGraph.RecordUnfolds | packages/core/src/digest/canonical.ts:109-154 | The unfolding of a record has exactly its keys, each with the unfolding of its property |
| CanonicalGraph.Canonical | packages/core/src/digest/canonical.ts:194-196 | Succeeds exactly if neither a cycle nor anything unsupported is reachable, and then yields the one unfolding, shared substructure included, in which the keys of every object ascend; otherwise it names the reason |
| JsonReadable.EscapeReadable | packages/cli/src/json.ts:11-13 | An escaped string, lone surrogates included, ends at its first bare quote and determines its text |
| JsonReadable.Readable | packages/cli/src/json.ts:10-30 | Texts that start with the canonical texts of two values start with the same value |
| JsonReadable.SamePrintsAlike | packages/cli/src/json.ts:21-25 | The same value up to the order of object keys has one canonical text |
| JsonReadable.SameJsonIsStructural | packages/cli/src/json.ts:33-35 | Equality by canonical form is exactly equality up to the order of object keys |
| JsonGrammar.PrintDenotes | packages/cli/src/json.ts:10-28 | By the grammar of RFC 8259 the printed text denotes the same value up to the order of keys, and the keys of every object are printed in ascending order |
| JsonGrammar.EscapeRead | packages/cli/src/json.ts:11-13 | By section 7 of RFC 8259 what stands between the quotes reads as the string |
| JsonGrammar.EscapeTable | packages/cli/src/json.ts:11-13 | Control characters, quotes, backslashes and lone surrogates are escaped, the common ones by a letter, and no other character is |
| JsonGrammar.EscapePaired | packages/cli/src/json.ts:11-13 | A printed string has no surrogate outside of a pair |
| Text.LeqTextMeans | packages/core/src/digest/canonical.ts:19-27 | A text is in order before another one exactly if it is a proper prefix of it or has the smaller code unit where they first differ |
| Text.SortAscends | packages/core/src/digest/canonical.ts:133 | Sorting distinct texts makes each come before every later one, and keeps them all |
| RoutePins.MatcherDigestForgetsOrder | packages/core/src/digest/routing.ts:206-236 | A matcher is pinned exactly if valid, and its digest forgets the order of its methods and nothing else |
| RoutePins.CreatedApplicationVerifies | packages/core/src/digest/routing.ts:238-291 | A created application pin is accepted and returned unchanged |
| RoutePins.ApplicationDigestForgetsOrder | packages/core/src/digest/routing.ts:107-140 | The digest of an application forgets the order of its statuses and nothing else |
| RoutePins.CreatedTargetVerifies | packages/core/src/digest/routing.ts:293-343 | A created target pin, and the application pin inside it, is accepted and returned unchanged |
| RoutePins.TargetDigestForgetsOrder | packages/core/src/digest/routing.ts:293-324 | The digest of a target forgets the order of the statuses nested in it and nothing else |
| RoutePins.CreatedEvidenceVerifies | packages/core/src/digest/routing.ts:345-390 | A created evidence pin is accepted and returned unchanged |
| RoutePins.EvidenceDigestForgetsOrder | packages/core/src/digest/routing.ts:62-68 | The digest of evidence forgets the order of authors, reviewers and approvers and nothing else |
| RoutePins.ReorderedPinsVerifyAlike | packages/core/src/digest/routing.ts:326-343 | Reordering the lists inside an accepted target pin leaves it accepted, with the same verified pin |
| PinAnswers.MatcherExactly | packages/core/src/digest/routing.ts:206-236 | A matcher is pinned exactly if it has distinct methods, at least one; the pin has them in ascending order and the digest of that body |
| PinAnswers.ApplicationExactly | packages/core/src/digest/routing.ts:238-267 | An application is pinned exactly if it is proxied and has distinct statuses from 100 to 599, at least one; the pin has them in increasing order and the digest of that body |
| PinAnswers.AcceptedApplicationExactly | packages/core/src/digest/routing.ts:269-291 | An application pin is accepted exactly if its digest is the one of its body with the statuses in order; an invalid body is a bad request and another digest a conflict |
| PinAnswers.TargetExactly | packages/core/src/digest/routing.ts:293-324 | A target is pinned exactly with an accepted application pin, which the pin holds in order |
| PinAnswers.AcceptedTargetExactly | packages/core/src/digest/routing.ts:326-343 | A target pin is accepted exactly if its application pin is and its digest is the one of its body in order; a tampered part is a conflict |
| PinAnswers.EvidenceExactly | packages/core/src/digest/routing.ts:345-370 | Evidence is pinned exactly if it has an author and no actor twice in a list; the pin has agents before users and both by identity |
| PinAnswers.AcceptedEvidenceExactly | packages/core/src/digest/routing.ts:372-390 | An evidence pin is accepted exactly if its digest is the one of its body with the lists in order |
| Posix.PathOfSegments | packages/core/src/schemas/posix.ts:9-18 | A canonical path is the path of its segments |
| Posix.SegmentsOfPath | packages/core/src/schemas/posix.ts:9-18 | A list of proper segments is the segments of its path, which is canonical |
| Posix.AtOrBelowIsPrefix | packages/core/src/schemas/posix.ts:50-58 | The string prefix test holds exactly if the segments of the parent are a prefix of those of the candidate |
| Posix.ClassificationBySegments | packages/core/src/schemas/posix.ts:70-81 | The classification compares the segment lists |
| Posix.ClassificationConverse | packages/core/src/schemas/posix.ts:60-81 | Swapping any two strings gives the converse classification |
| Posix.JoinIsBelow | packages/core/src/schemas/posix.ts:83-88 | Joining a canonical relative path gives a canonical path at or below the root with its segments appended |
| Posix.ParentUndoesJoin | packages/core/src/schemas/posix.ts:90-96 | The parent function undoes joining one segment |
| Posix.ParentDropsSegment | packages/core/src/schemas/posix.ts:90-96 | The parent of a canonical path drops its last segment |
| Posix.ContainsLooksUp | packages/core/src/schemas/posix.ts:42-48 | The segment test looks the segment up in the list, for canonical absolute and relative paths |
| Posix.JoinContains | packages/core/src/schemas/posix.ts:42-48 | A joined path contains exactly the segments that its two parts contain |
| PathAnswers.CanonicalExactly | packages/core/src/schemas/posix.ts:9-18 | A path is canonical exactly if it has no NUL and resolving its empty parts, dots and double dots leaves it as it is |
| PathAnswers.CanonicalHasNoParent | packages/core/src/schemas/posix.ts:9-18 | No part of a canonical path is a dot or a double dot |
| PathAnswers.RelativeExactly | packages/core/src/schemas/posix.ts:26-35 | A relative path is canonical exactly if it is so behind a slash, and the dot exactly where it is allowed |
| PathAnswers.JoinExactly | packages/core/src/schemas/posix.ts:83-88 | Joining is resolving the one path behind the other |
| PathAnswers.ParentExactly | packages/core/src/schemas/posix.ts:90-96 | The parent of a canonical path is where a double dot behind it leads to |
| PathAnswers.ClassifiedExactly | packages/core/src/schemas/posix.ts:70-81 | Canonical paths are classified by where they lead to |
| PathAnswers.AtOrBelowExactly | packages/core/src/schemas/posix.ts:50-58 | A canonical path is at or below another one exactly if it leads there and perhaps on |
| PathAnswers.ContainedExactly | packages/core/src/schemas/posix.ts:42-48 | A canonical path contains exactly the segments on its way |
| Shell.QuotedIsRead | packages/cli/src/host/shell.ts:7-12 | A quoted value is read back as one word that holds exactly the value |
| Shell.CommandReadsAsIntended | packages/cli/src/host/shell.ts:20-27 | A command is built exactly if there is no NUL and its length, counted from its parts, is within the limit; it then splits into exactly the intended words with no active character outside quotes |

## Left out

- SSH cryptography, key parsing and hashing: keys and tickets are identities, digests are collision-free.
- Sockets, streams, NATS, PostgreSQL and HTTP mechanics: only their effect remains, with any success, failure and order.
- Timers: a timeout is a failure or an end of a setup that may happen at any step.
- The order of startup: a recovery is a policy call like any other, and setups may run beside it.
- Several processes at once: one process holds the authority, and a restart replaces it. A release after a lost authority,
  which the source refuses, is possible in the model.
- The key synchronization targets that the revocation methods collect, listings, and the OpenSSH configuration text.
- SshStore.Store.RevokeAccess: completion and failure of an operation are one flag, and its actor is a user or not.
- SshStore.Store.Redeem: the time of the expiry check and the redemption time are one reading.
- GatewayRegistry.SshRelayRegistry.CloseAll: relays are closed in some order, not in the order of their registration.
- GatewayServer.QilnSshGateway.ContinueOpened: the flags of a connection that is gone by then are one argument.
- GatewayRuns.ApplyInv: the policy's pending set and its drain are the calls of the process and the guard of the release,
  and an await is a boundary between events; there is no object that suspends.
- Configuration.Configure: that an attempt with a feasible plan does succeed, as any effect may fail in the world of the
  coordinator. `ConvergenceRuns.ConfigurationConverges` has it for a run in which nothing else fails.
- ConvergenceRuns.ConfigurationConverges: each request is a step on the target as a value, credential files are written as
  a whole, a roster is its text, and the checkout is absent, present or the operator's.
- Planner.EmptyPlanMeansMatch: the aliases of an image are a set, and the fields of Incus objects that nothing judges are
  left out.
- Configuration.World.Save: the size limit of the encoded record and the fields of an authorization that no rule reads are
  left out.
- InstallationRecord.Store.Save: the registry scan for other installations with the same host is left out.
- Journal.ChainExtends: canonical timestamps are integers, as their order is that of the instants.
- CanonicalGraph.Canonical: entries are in the order in which the traversal defines them. An engine enumerates integer-like
  keys first, which depends on the key set alone. Error contexts and reasons are left out.
- JsonReadable.SameJsonIsStructural: a finite number is its shortest text, and values that are no JSON are left out.
- RoutePins.CreatedTargetVerifies: fields that no list ordering concerns are one field, and freezing is left out.
- Shell.CommandReadsAsIntended: the tokenizer knows blanks, quotes and backslashes, and refuses any other active character.
- The AWS deployment journals, the checkout scripts, the web UI, the RPC routers and the agents are not part of this model.
