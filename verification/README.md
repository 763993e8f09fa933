# Keyboard ownership and delivery

A Dafny model of the machinery that decides who owns a physical key press from the moment it goes down
until it comes up again, and proofs about every run of it. The model covers five linked parts.

- **The compositor router** (`Routing`, `RouterRuns`, `Announcement`, `ClientView`, `Authority`, `PressLatch`,
  `Obedience`, `RouterTable`). `Routing` gives each call as a function on a value; `RouterTable.Router` is the
  object the compositor runs, a table of 16 devices by 768 keys updated in place, and each of its methods is proved
  to take the step `Routing` gives and to make exactly the output calls that step implies. `RouterRuns` lets any
  caller make any sequence of calls with any tickets, replies, clock readings and output answers, and logs what the
  clients receive; the whole-run theorems are about that log. They bound what may be sent (`ClientView`,
  `Authority`, `PressLatch`) and say that what is granted is carried out (`Obedience`). A release the output did not
  confirm may or may not have arrived, and a replacement delivered in part may leave its target down; the router
  never learns which.
- **What stands around the router**: registered keyboards (`PhysicalDevices`, `DeviceRegistry`,
  `KeyboardSystem`), the session-lock phase (`SessionLock`), the recovery gate (`OutputRecovery`,
  `RecoveryGate`), and keyboards, router and gate run as one system (`GatedKeyboards`).
- **The plugin's two lock-free exchanges** with its worker thread (`DecisionMailbox`, `WorkerRing`), as
  interleaved transition systems with one atomic load, store or compare-and-swap per step.
- **The privileged broker, its client and the matcher** (`KeyOwnership`, `BrokerKeys`, `Broker`,
  `BrokerVerdicts`, `BrokerDevice`, `DaemonClient`, `DaemonBackend`, `ReplicaAgreement`, `TapMachine`, `TapObject`,
  `TapHistory`, `Matching`, `MatcherRuns`, `MatcherTaps`, `RuleMatcher`).
- **Codecs and the evidence ring** (`LittleEndian`, `Protocol`, `Wire`, `FocusIdentity`, `CausalRing`,
  `CausalPages`, `Collector`).

Where the source mutates an object the model is a class with those fields, and each method's postcondition
equates the new state with a function of the old one; the theorems are stated about those functions.

Clock readings, the network, the answers of the compositor's output, the stock keybinding layer's admission of
a press and everything a peer may send are parameters or nondeterministic inputs. Epoch, focus, generation and
token counters are natural numbers. One output frame is written whole or not at all.

Things the proofs show about the code that its comments do not say:

- A closed lock phase does not by itself mean a locked router. Observing a locked protocol while the phase is
  open closes the phase and leaves the router unlocked (`SessionLock.ObservedLockLeavesRouterOpen`); a run keeps
  the two together if and only if that observation never happens (`SessionLock.ClosedPhaseMeansLockedRouter`).
- Clearing the router's fault latch is not enough to make the client's key set known again: a recovery with no
  enter since the uncertain output can leave a key down that nobody holds
  (`ClientView.BareRecoveryBreaksConservation`). What the answers allow to conclude is characterised exactly
  (`ClientView.CertainExactlyWhen`), and the recovery gate supplies the missing enter (`RecoveryGate.GateConservation`).
- The broker's teardown frame may carry an up for a key the consumer never saw go down
  (`Broker.TeardownCanBeUnbalanced`): it is balanced if and only if the speculative output is within the committed
  one (`Broker.BypassFrameBalance`). It may leave the consumer holding a key (`Broker.TeardownCanStrand`): it leaves
  nothing held if and only if the consumer held nothing or the frame could be written and fitted in 256 events
  (`Broker.BypassReleases`).
- The collector refuses every history longer than the ring, even for a cut that is still in it
  (`Collector.LongHistoryIsRefused`, `Collector.CollectedExactlyWhen`).
- The stock layer's outcome is applied without asking whether the event was one the router modelled; conservation
  is therefore stated for events a registered keyboard can produce, and `KeyboardSystem` shows that there are no
  others.

## Model

| member | source | states |
|---|---|---|
| `ClientView.Conservation` | native/hyprland/routing.hpp:100-300 | on every disciplined run whose recoveries each follow an enter that nothing uncertain came after, while no output is uncertain, the keys the focused client has down are exactly the announced ones, although an unconfirmed release may be lost and a partial replacement may leave its target down |
| `ClientView.ViewBounds` | native/hyprland/routing.hpp:150-300 | on every disciplined run, certain or not, the client has down every announced key and beyond those at most the keys the output's answers leave in doubt |
| `ClientView.CertainExactlyWhen` | native/hyprland/routing.hpp:211-300 | over all outcomes the same answers allow, the client is sure to have down exactly the announced keys if and only if no other key is in doubt |
| `ClientView.BareRecoveryBreaksConservation` | native/hyprland/routing.hpp:100-104 | a run of five calls after which a recovery with no enter leaves the client holding a key nobody holds |
| `RecoveryGate.GateConservation` | native/hyprland/stock_adapter.cpp:322-333 | conservation on every run whose recoveries and enters pass the gate, across any number of uncertain outputs |
| `RecoveryGate.GateRecoversFresh` | native/hyprland/stock_adapter.cpp:322-333 | every recovery through the gate follows an enter that nothing uncertain came after |
| `RouterRuns.FatalExactly` | native/hyprland/routing.hpp:150-300 | each call sets the latch exactly when its output was uncertain, and only a recovery clears it |
| `ClientView.EveryStepBalanced` | native/hyprland/routing.hpp:150-300 | every call made while the output is certain sends a down only for a key the client has up, an up, repeat or release only for one it has down, and a replacement only of a key it has up |
| `Announcement.StepFits` | native/hyprland/routing.hpp:150-300 | one call of any kind from any sealed state sends only entries that fit the announced key set and takes it exactly to the new one |
| `Announcement.FreshOwner` | native/hyprland/routing.hpp:176-245 | a fresh press ends forwarded, consumed or stock-consumed, and its down is delivered exactly when it becomes the key's only client-side hold |
| `Announcement.OwnedEvent` | native/hyprland/routing.hpp:154-175 | a repeat or release of an owned press changes the announced key set exactly as the client sees it change |
| `Announcement.RetireFits` | native/hyprland/routing.hpp:283-300 | retiring a device removes from the announced keys exactly those no other device still holds |
| `Authority.SingleUseAuthority` | native/hyprland/routing.hpp:125-223 | on every run each replacement follows an issue of its ticket with a budget of at most 10 ms, before its deadline, with no revocation, lock, unlock, focus change, disconnection, retirement or recovery in between, and no ticket is spent twice |
| `Authority.StepKeepsAuthority` | native/hyprland/routing.hpp:125-300 | each call keeps what the router remembers about the tickets it might still spend true of the log |
| `Authority.CountersCount` | native/hyprland/routing.hpp:100-300 | on every run the epoch is one more than the severing events so far and the focus number one more than the focus moves |
| `Obedience.AlwaysGrounded` | native/hyprland/routing.hpp:125-300 | on every run whatever was issued and not severed belongs to the current epoch and focus, the pending ticket was issued for a live device, and the client was sent the release of a released ticket's key after its issue |
| `Obedience.GrantedExactly` | native/hyprland/routing.hpp:181-191 | on every run the reply to a fresh press counts if and only if it answers, in time and while nothing is fatal, the pending ticket of that very press, with nothing severing since its issue |
| `Obedience.SwallowIsObeyed` | native/hyprland/routing.hpp:150-207 | over whole runs a Swallow granted in time emits nothing at the press, at any repeat or at its release |
| `Obedience.ReplaceIsObeyed` | native/hyprland/routing.hpp:150-208 | a Replace granted in time onto a free other key below 768 asks the output once, for the reply's key and modifiers and the sides now down; accepted or partial, the press itself emits nothing until it ends, refused it goes on as if passed, and only a partial delivery is fatal |
| `Obedience.OtherwisePassed` | native/hyprland/routing.hpp:181-208 | every other fresh press asks the output for nothing and goes on: delivered, merged with another device's hold, or taken by stock if stock refused it; marked as rejected if a Replace was granted onto a key that may not be used |
| `Obedience.LockedPressGoesToLocker` | native/hyprland/routing.hpp:177-180 | under a lock a press nobody owns goes to the locker, whatever ticket and reply come with it |
| `Obedience.ForwardedIsHeard` | native/hyprland/routing.hpp:154-175 | over whole runs every repeat of a forwarded press reaches the client until something takes it, and so does its release unless another device holds the key |
| `Obedience.LockerIsHeard` | native/hyprland/routing.hpp:163-164 | a press the locker has reaches the locker at every repeat and its release while the session stays locked |
| `Obedience.BeginsExactly` | native/hyprland/routing.hpp:125-138 | a ticket is issued if and only if the conditions a caller can check hold, with the event's device and key, the current epoch and focus, the next number and the deadline asked for |
| `Obedience.SettlesExactly` | native/hyprland/routing.hpp:142-147 | a settlement is numbered if and only if the event is a repeat or release of a registered key in an unlocked session within the bounds, also after a fatal output, and grants nothing |
| `Obedience.RequestIsGranted` | native/hyprland/routing.hpp:125-191 | a press that may ask for a ticket gets one, and as long as nothing interrupts, the verdict given for it in time is granted |
| `Obedience.ReleaseEarnsAction` | native/hyprland/routing.hpp:156-162 | a release leaves its ticket to act if and only if it is the sole-held release of a forwarded modifier with the pending ticket of that release, and the client is then sent the release |
| `Obedience.ActionSentExactly` | native/hyprland/routing.hpp:211-223 | on every run a release action goes to the output if and only if the original release was delivered, the ticket is the released one, fresh, in time and answered Replace onto a usable key, unlocked and not fatal; the call and the outcome for each of the three answers |
| `Obedience.ReleaseComesFirst` | native/hyprland/routing.hpp:209-223 | every action sent at a release follows the issue of its ticket and, after that, the delivery of the key's release to the client |
| `Obedience.HonestCallerActs` | native/hyprland/routing.hpp:211-223 | a caller that reports what the client was sent has its action sent whenever it may act |
| `PressLatch.LockedRouterIsSealed` | native/hyprland/routing.hpp:263-281 | in every reachable state a locked router has no forwarded owner and no pending ticket |
| `PressLatch.LockIsolation` | native/hyprland/routing.hpp:150-281 | a press owned by anyone at a lock or revocation, or by the locker at an unlock, emits nothing at any later event of it up to its release |
| `PressLatch.SilentUntilRelease` | native/hyprland/routing.hpp:150-175 | from the moment a press is consumed, quarantined, stock-consumed or left over from the locker, its repeats and its release emit nothing, whatever happens in between |
| `PressLatch.LockSilencesEveryPress` | native/hyprland/routing.hpp:263-280 | a press begun before a lock, whoever owns it, is silent from the lock on |
| `PressLatch.RevokeSilencesEveryPress` | native/hyprland/routing.hpp:263-279 | the same for a revocation without lock |
| `PressLatch.UnlockSilencesLockerPress` | native/hyprland/routing.hpp:281 | a press the locker received is silent from the unlock on |
| `PressLatch.ReplacedPressIsSilent` | native/hyprland/routing.hpp:192-208 | a press whose replacement was accepted or went out in part is not itself delivered and is silent from then on |
| `RouterRuns.WellFormedStep` | native/hyprland/routing.hpp:105-300 | every call keeps at most 16 devices, owners only for live devices and keys below 768, and generations in order |
| `RouterRuns.RouteOneCell` | native/hyprland/routing.hpp:150-208 | routing an event changes the owner of at most that press |
| `RouterRuns.PressShape` | native/hyprland/routing.hpp:181-208 | a fresh press spends the pending ticket, is forwarded or consumed, and is replaced only if admitted and only onto a key nobody holds |
| `RouterTable.Router.Find` | native/hyprland/routing.hpp:53-57 | finds the slot of a live generation if and only if there is one |
| `RouterTable.Router.OtherForwarded` | native/hyprland/routing.hpp:64-68 | whether another device holds the key for the client |
| `RouterTable.Router.TargetHeld` | native/hyprland/routing.hpp:224-229 | whether any device holds the key for anyone |
| `RouterTable.Router.ForwardedModifiers` | native/hyprland/routing.hpp:111-118 | the mask of modifier sides some device holds for the client |
| `RouterTable.Router.OwnershipEmpty` | native/hyprland/routing.hpp:94-98 | no owner in the table and no pending ticket |
| `RouterTable.Router.FocusEnterKeys` | native/hyprland/routing.hpp:246-253 | the keys some device holds for the client |
| `RouterTable.Router.LockerEnterKeys` | native/hyprland/routing.hpp:254-261 | the keys some device holds for the locker |
| `RouterTable.Router.Add` | native/hyprland/routing.hpp:105-110 | takes the specified step, refusing zero, old and seventeenth generations |
| `RouterTable.Router.Begin` | native/hyprland/routing.hpp:125-138 | issues the ticket the specification issues, or records the first reason it is refused, and leaves the table alone |
| `RouterTable.Router.Settlement` | native/hyprland/routing.hpp:142-147 | issues a correlation ticket without remembering it |
| `RouterTable.Router.Route` | native/hyprland/routing.hpp:150-208 | takes the specified step, whose verdicts are carried out as the `Obedience` rows say, and asks the output for a replacement exactly when the specification does |
| `RouterTable.Router.FinishRelease` | native/hyprland/routing.hpp:211-223 | spends a release ticket as specified, at most one replacement |
| `RouterTable.Router.OriginalOutcome` | native/hyprland/routing.hpp:236-245 | settles a fresh press with the stock layer's answer as specified |
| `RouterTable.Router.FocusChanged` | native/hyprland/routing.hpp:262 | drops the ticket and opens a new focus and epoch |
| `RouterTable.Router.Revoke` | native/hyprland/routing.hpp:263-279 | quarantines every owned press, releases each key the client holds exactly once, and asks for the modifiers to be cleared exactly when some were held |
| `RouterTable.Router.Lock` | native/hyprland/routing.hpp:280 | the same, locked first |
| `RouterTable.Router.UnlockConfirmed` | native/hyprland/routing.hpp:281 | opens a new focus and epoch, unlocked |
| `RouterTable.Router.Disconnect` | native/hyprland/routing.hpp:282 | drops the ticket without erasing any ownership |
| `RouterTable.Router.Retire` | native/hyprland/routing.hpp:283-300 | forgets a device, releases each key only it held exactly once, and reconciles the modifiers exactly when a key was released or they changed |
| `RouterTable.Router.RecoverRetiredOutput` | native/hyprland/routing.hpp:100-104 | clears the fault only with proof, no ownership and an unlocked session |
| `PhysicalDevices.AttachAgrees` | native/hyprland/physical_devices.hpp:23-43 | attaching keeps registry and router in agreement and fails only for reasons the caller can see: the router never refuses a fresh generation |
| `PhysicalDevices.EventIsDisciplined` | native/hyprland/physical_devices.hpp:44-56 | a reported down is always of an unowned press, a repeat or release of an owned one, and never bypasses the router |
| `DeviceRegistry.CheckInjective` | native/hyprland/physical_devices.hpp:29-34 | accepts a translation if and only if no two raw keys share a router key and all are in the table or unmapped |
| `DeviceRegistry.DeviceTable.Attach` | native/hyprland/physical_devices.hpp:23-43 | the slots and the router take the specified step |
| `DeviceRegistry.DeviceTable.Strike` | native/hyprland/physical_devices.hpp:44-56 | the specified event and at most one held flag |
| `DeviceRegistry.DeviceTable.Detach` | native/hyprland/physical_devices.hpp:57-65 | the slot is freed and the generation retired |
| `KeyboardSystem.AdvanceAgrees` | native/hyprland/physical_devices.hpp:23-65 | plugging, unplugging, key transitions, lock, focus, stock consumption and slot reuse keep a raw key held exactly while the router owns its press |
| `KeyboardSystem.SystemConservation` | native/hyprland/routing.hpp:100-300 | client-view conservation for keyboards and router together, whatever is plugged, pressed or called, if each recovery is fresh |
| `KeyboardSystem.GatedSystemConservation` | native/hyprland/stock_adapter.cpp:322-333 | the same whenever the router calls of the keyboards' run are those of a run through the gate, whatever was uncertain |
| `GatedKeyboards.WholeSystemConservation` | native/hyprland/stock_adapter.cpp:322-333 | keyboards, router and recovery gate as one system: whatever is plugged, pressed, locked, lost, entered or recovered, while the fault latch is clear the client has down exactly the announced keys, with no condition |
| `GatedKeyboards.TwoSides` | native/hyprland/stock_adapter.cpp:322-333 | every run of that system is at once a run of the keyboards and a run of the gate making the same router calls |
| `KeyboardSystem.SystemViewBounds` | native/hyprland/routing.hpp:150-300 | for keyboards and router together, on every sequence of stimuli, announced keys are down and only keys in doubt are down beyond them |
| `KeyboardSystem.CallsAreDisciplined` | native/hyprland/physical_devices.hpp:44-56 | every sequence of stimuli reaches the router as a disciplined run |
| `KeyboardSystem.PassThroughUnreachable` | native/hyprland/routing.hpp:153-176 | the router's pass-through of unowned repeats and releases is never taken |
| `KeyboardSystem.StrikesAreReported` | native/hyprland/physical_devices.hpp:44-56 | over every sequence of stimuli a strike reaches the router if and only if its keyboard is attached, the key is mapped and, for an up, was last struck down; the event names the generation, the mapped key and whether the down is the first |
| `SessionLock.LockPhase.EnterLock` | native/hyprland/lock_phase.hpp:10 | closes the phase |
| `SessionLock.LockPhase.ObserveProtocol` | native/hyprland/lock_phase.hpp:12-18 | moves the phase as specified and reports a reopening exactly when a confirmed lock is seen unlocked |
| `SessionLock.LockPhase.OriginalReturns` | native/hyprland/lock_phase.hpp:19-22 | confirms an entered lock, and nothing else |
| `SessionLock.ObservedLockLeavesRouterOpen` | native/hyprland/lock_phase.hpp:12-18 | a run after which the phase is closed and the router is not locked |
| `SessionLock.ShutStep` | native/hyprland/stock_research_route.hpp:345-359 | exactly one kind of step can leave a closed phase over an unlocked router |
| `SessionLock.ClosedPhaseMeansLockedRouter` | native/hyprland/stock_research_route.hpp:345-359 | a run keeps a closed phase over a locked router throughout if and only if stock's lock is always entered through the revoking hook |
| `SessionLock.PhaseNeedsConfirmation` | native/hyprland/lock_phase.hpp:10-22 | after a revocation the phase leaves entering only once the stock lock returned locked, and reopens only after an unlock observed later still |
| `SessionLock.UnlockNeedsConfirmation` | native/hyprland/stock_research_route.hpp:345-359 | after a revocation the router is unlocked only after a confirmed lock and an unlock observed after it |
| `SessionLock.ConfirmedLockReopens` | native/hyprland/stock_research_route.hpp:345-359 | a revocation always shuts phase and router, and after the stock lock returned locked the first unlock observed opens both, whatever else was called in between |
| `SessionLock.BootstrapOpens` | native/hyprland/stock_research_route.hpp:258-264 | a fresh router is unlocked by its first bootstrap with the phase open |
| `OutputRecovery.Recovery.Begin` | native/hyprland/output_recovery.hpp:11 | marks the output uncertain and the binding stale |
| `OutputRecovery.Recovery.Include` | native/hyprland/output_recovery.hpp:12-19 | records the resource in the first free slot, or overflows when it has no name or no slot |
| `OutputRecovery.Recovery.Retired` | native/hyprland/output_recovery.hpp:20-23 | clears every entry of the resource and the binding |
| `OutputRecovery.Recovery.RoutesRetired` | native/hyprland/output_recovery.hpp:25-29 | uncertain, not overflowed and nothing recorded |
| `OutputRecovery.Recovery.Entered` | native/hyprland/output_recovery.hpp:30 | a fresh binding exactly when all routes are retired |
| `OutputRecovery.Recovery.Completed` | native/hyprland/output_recovery.hpp:34 | forgets the uncertainty but never an overflow |
| `OutputRecovery.NoReplacementBeforeRecovery` | native/hyprland/routing.hpp:100-104 | between an uncertain output and any later replacement lies a recovery |
| `OutputRecovery.RecoveryIsEarned` | native/hyprland/stock_adapter.cpp:322-333 | at a recovery every resource any uncertain output may have reached was named and retired since, an enter followed the last loss and the last uncertainty, the router owned nothing in an unlocked session and the record never overflowed |
| `OutputRecovery.RecoversExactly` | native/hyprland/stock_adapter.cpp:322-333 | on every run a recovery attempt succeeds if and only if the compositor's three conditions hold, the router is latched, empty and unlocked, the record never overflowed, every affected resource is gone, and an enter was sent after the last loss and the last uncertainty |
| `OutputRecovery.OverflowsExactly` | native/hyprland/output_recovery.hpp:12-19 | the record overflows if and only if the resource cannot be named or is new with no slot free |
| `OutputRecovery.EveryResourceAccounted` | native/hyprland/output_recovery.hpp:11-34 | on every run each affected resource is still recorded, or gone since, or the record overflowed |
| `OutputRecovery.FreshBindingMeansEnter` | native/hyprland/output_recovery.hpp:20-34 | a fresh binding means an enter with no loss and no uncertainty after it |
| `DecisionMailbox.DecisionsMatchTheirCalls` | native/hyprland/decision_mailbox.hpp:39-94 | under every interleaving a decision is returned only with the reply the worker made for the event and deadline of that same call, and no call is served twice |
| `DecisionMailbox.EveryResultExplained` | native/hyprland/decision_mailbox.hpp:39-76 | over every interleaving a call returned false only because it abandoned its slot or was late when it had the reply, and true only because it had a reply in time |
| `DecisionMailbox.TimelyReplyIsReturned` | native/hyprland/decision_mailbox.hpp:50-56 | a call that loads a reply and is in time returns true with the decision of the job made for it, whatever the worker does in between, and false if late; the slot is free again |
| `DecisionMailbox.ExchangeReturnsDecision` | native/hyprland/decision_mailbox.hpp:39-94 | from a free slot a call published, taken, served and found in time returns true with what the worker decided |
| `DecisionMailbox.ExpiredCallGivesUp` | native/hyprland/decision_mailbox.hpp:58-74 | a caller out of time abandons the slot if the phase is as it saw it, returning false, and otherwise looks again |
| `DecisionMailbox.AbandonedSlotIsFreed` | native/hyprland/decision_mailbox.hpp:77-94 | the worker's acknowledgement frees an abandoned slot, taken or not |
| `DecisionMailbox.BuffersAreExclusive` | native/hyprland/decision_mailbox.hpp:39-94 | the request and deadline are never written while the worker reads them, nor the reply while the caller copies it |
| `DecisionMailbox.IdleMeansNoJob` | native/hyprland/decision_mailbox.hpp:77-94 | an idle phase means the worker is between complete and take |
| `DecisionMailbox.AbandonedUntilAcknowledged` | native/hyprland/decision_mailbox.hpp:57-94 | an abandoned slot stays abandoned and takes no call until the worker acknowledges it |
| `DecisionMailbox.AlwaysSafe` | native/hyprland/decision_mailbox.hpp:39-94 | the invariants behind these hold after every sequence of steps |
| `WorkerRing.NoSlotOverwrittenUnread` | native/hyprland/stock_worker.hpp:238-252 | under every interleaving, index wrap included, a note is never stored over one not yet consumed, and what is fetched is the oldest unconsumed note |
| `WorkerRing.NotesAreTheCalls` | native/hyprland/stock_worker.hpp:238-252 | over every interleaving the enqueued notes are notify calls in call order, each with the packet it was called with and the generation loaded at that call |
| `WorkerRing.NotifyEnqueuesExactly` | native/hyprland/stock_worker.hpp:238-252 | a call nobody interferes with is enqueued if and only if the connection is ready and not parked, the nonce is the connection's and fewer than sixteen notes are unread |
| `WorkerRing.NextNoteIsSettled` | native/hyprland/stock_worker.hpp:130-154 | a draining worker whose send succeeds sends the next unread note if it is its connection's and drops it otherwise, moving on by exactly that note |
| `WorkerRing.DrainBegins` | native/hyprland/stock_worker.hpp:199-206 | a parked worker told to drain the connected generation begins with exactly what is unread then |
| `WorkerRing.DrainStopsExactly` | native/hyprland/stock_worker.hpp:199-207 | a drain passes a note if and only if it is of the retired generation and was there when the drain looked, and reading resumes where it stops |
| `WorkerRing.ConnectionIsOpened` | native/hyprland/stock_worker.hpp:119-122 | a successful connection makes its own nonce and generation the ones callers load, and is ready |
| `WorkerRing.SentOnceInOrder` | native/hyprland/stock_worker.hpp:134-155 | notes go out in enqueue order, each at most once, only on the connection whose generation and nonce they were enqueued for |
| `WorkerRing.DrainDiscardsOnlyRetired` | native/hyprland/stock_worker.hpp:195-221 | retirement for drain discards only notes of the retired generation and none that was sent |
| `WorkerRing.EveryNoteAccounted` | native/hyprland/stock_worker.hpp:134-211 | each consumed note was sent, or discarded by a drain of its generation, or dropped for a generation or nonce other than that of the connection that consumed it, and exactly one of these |
| `WorkerRing.NoncesAreFresh` | native/hyprland/stock_worker.hpp:195-221 | the nonces of all connection attempts, failed ones included, are never zero and never reused, from any seed |
| `WorkerRing.AlwaysSafe` | native/hyprland/stock_worker.hpp:106-264 | the invariants behind these hold after every sequence of steps |
| `BrokerKeys.KeyState.Apply` | packages/linux/src/state.rs:31-67 | the specified key sets and events for one input event |
| `BrokerKeys.KeyState.Press` | packages/linux/src/state.rs:69-79 | the specified ownership of a fresh press |
| `BrokerKeys.KeyState.Resync` | packages/linux/src/state.rs:83-100 | the specified reconciliation with a snapshot, in ascending key order |
| `BrokerKeys.KeyState.CommitOutput` | packages/linux/src/state.rs:18-20 | the speculative output becomes the committed one |
| `BrokerKeys.KeyState.RollbackOutput` | packages/linux/src/state.rs:22-24 | the committed output replaces the speculative one |
| `BrokerKeys.KeyState.ReleaseAll` | packages/linux/src/state.rs:108-116 | an up for every committed or speculative key, in ascending order, and no output left |
| `BrokerDevice.DeviceProxy.Emit` | packages/linux/src/broker.rs:256-271 | queues, writes and commits as specified, failing at the first write error or full frame |
| `BrokerDevice.DeviceProxy.Recover` | packages/linux/src/broker.rs:173-192 | the specified resynchronisation after lost events |
| `BrokerDevice.DeviceProxy.SendControls` | packages/linux/src/broker.rs:230-254 | the sequence number after each control message sent, stopping at the first not acknowledged |
| `BrokerDevice.DeviceProxy.PumpOne` | packages/linux/src/broker.rs:166-218 | the specified effect of one input event |
| `BrokerDevice.DeviceProxy.PumpInner` | packages/linux/src/broker.rs:129-220 | the specified effect of a bounded batch, stopping at the first failure |
| `BrokerDevice.DeviceProxy.Bypass` | packages/linux/src/broker.rs:274-283 | the specified teardown, always ungrabbed |
| `BrokerDevice.DeviceProxy.Pump` | packages/linux/src/broker.rs:117-127 | success takes the specified steps, any failure tears capture down; from a sound account success keeps it sound, and failure leaves the consumer holding nothing if the output works and the keys fit a frame |
| `Broker.FrameBalance` | packages/linux/src/broker.rs:166-271 | on every run of the pump each written frame has a down only for a key the consumer does not hold and anything else only for one it does, and the consumer holds exactly the committed output, across lost events and resynchronisation |
| `Broker.PumpKeepsAccount` | packages/linux/src/broker.rs:166-218 | replaying the pending frame over the committed output gives the speculative output, after each event |
| `Broker.BypassReleases` | packages/linux/src/broker.rs:274-283 | after bypass the consumer holds nothing if and only if it held nothing, or the output works and at most 256 keys are owned |
| `Broker.TeardownCanStrand` | packages/linux/src/broker.rs:274-283 | a reported press and a broken output leave the consumer holding the key |
| `Broker.BypassFrameBalance` | packages/linux/src/broker.rs:274-283 | the teardown frame is balanced if and only if no speculative key is missing from the committed output |
| `Broker.TeardownCanBeUnbalanced` | packages/linux/src/broker.rs:274-283 | a press not yet reported makes the teardown frame release a key the consumer never saw go down |
| `Broker.ResyncReplay` | packages/linux/src/state.rs:83-100 | the events of a resynchronisation take the output exactly to the new output, each one fitting |
| `Broker.SwallowSurvivesLoss` | packages/linux/src/state.rs:31-116 | a swallowed key the consumer does not have is mentioned by no emitted event, and by no teardown frame, across any number of losses and resynchronisations that still report it held |
| `BrokerVerdicts.OnlyEchoDecides` | packages/linux/src/broker.rs:193-213 | any answer to a key event that does not repeat the request with Pass or Swallow, or none, emits nothing and ends the pump |
| `BrokerVerdicts.SwallowEmitsNothing` | packages/linux/src/state.rs:69-79 | outside a loss a fresh press answered by an echoed Swallow emits nothing and leaves the key swallowed, and nothing else changes |
| `BrokerVerdicts.SwallowIsObeyed` | packages/linux/src/broker.rs:166-218 | from a sound proxy no emitted event and no teardown frame then mentions the key until its release, across any losses, if the consumer did not have it |
| `BrokerVerdicts.PassIsObeyed` | packages/linux/src/state.rs:69-79 | a fresh press answered by an echoed Pass emits exactly that event and puts the key in the output; it joins the frame if there is room |
| `BrokerVerdicts.OwnedKeyEvents` | packages/linux/src/state.rs:48-67 | whatever the daemon answers, a repeat or release is emitted exactly if its press was, and a second press never |
| `BrokerVerdicts.OtherEventsPass` | packages/linux/src/state.rs:42-44 | an event that is neither a key nor a synchronisation is emitted as it came without asking |
| `BrokerVerdicts.ReportReachesConsumer` | packages/linux/src/broker.rs:256-271 | the report hands the pending frame to the consumer if the output takes it, and the consumer then holds exactly the output keys |
| `BrokerVerdicts.LossDiscardsFrame` | packages/linux/src/broker.rs:214-217 | a lost frame discards what was pending and takes the output back to what the consumer has |
| `BrokerVerdicts.LossIsMute` | packages/linux/src/state.rs:36-41 | until the report that ends it a loss emits nothing and changes no key |
| `BrokerVerdicts.RecoveryRestores` | packages/linux/src/broker.rs:173-192 | the report after a loss succeeds if and only if capture is authorised, the counters last, every control message is acknowledged and the reconciling frame fits and is taken; the consumer then holds exactly the keys down, save those swallowed before that it did not have |
| `BrokerVerdicts.RecoveryNeedsKernel` | packages/linux/src/broker.rs:173-180 | without the kernel's key state the pump ends there and emits nothing |
| `DaemonBackend.ClientState.Validate` | packages/linux/src/backend.rs:241-281 | accepts exactly the acceptable requests and records what it accepts |
| `DaemonBackend.ClientState.Retire` | packages/linux/src/backend.rs:236-240 | forgets a generation's keys, epoch and sequence |
| `DaemonBackend.ClientState.Dispatch` | packages/linux/src/backend.rs:282-332 | moves the key set and answers as specified |
| `DaemonClient.EventAnswer` | packages/linux/src/backend.rs:282-332 | a served event is answered by an echo of the request, Swallow if and only if it is a press or release and the matcher said so, a repeat always Pass |
| `DaemonClient.NewEpochForgets` | packages/linux/src/backend.rs:241-281 | an event under a new epoch starts from no keys |
| `DaemonBackend.ClientState.Handle` | packages/linux/src/backend.rs:151-225 | one request has the specified effect and reply, or none |
| `DaemonBackend.ClientState.ServeLoop` | packages/linux/src/backend.rs:151-225 | the whole connection has the specified effect, ending at the first refusal |
| `DaemonClient.RetiredNeverAccepted` | packages/linux/src/backend.rs:236-281 | once a generation is gone no accepted sequence of requests names it again |
| `DaemonClient.RetireMakesGone` | packages/linux/src/backend.rs:236-240 | an accepted retirement makes its generation gone |
| `ReplicaAgreement.ReplicasAgree` | packages/linux/src/broker.rs:173-254 | over any conversation in lifecycle order the daemon refuses nothing, and for codes up to 767 its key set for each generation equals the broker's after each completed exchange; counters that run out end the connection |
| `ReplicaAgreement.ExchangeInStep` | packages/linux/src/backend.rs:151-333 | the same for one exchange of any kind |
| `ReplicaAgreement.StruckInStep` | packages/linux/src/broker.rs:193-218 | an ordinary event keeps the two sides in step |
| `ReplicaAgreement.MatcherDecidesPress` | packages/linux/src/broker.rs:193-218 | what the matcher says of a press is what the broker's key state and pending frame show; the exchange goes through unless the counter or the frame is full |
| `ReplicaAgreement.PressDecidesRest` | packages/linux/src/broker.rs:193-218 | a repeat or release goes to the consumer exactly if its press did, whatever the matcher says |
| `ReplicaAgreement.ResynchronisedInStep` | packages/linux/src/broker.rs:173-192 | epoch bump, reset and snapshots would be refused exactly for a code above 767, which the kernel's 768-bit key map cannot report, and otherwise leave the two sides in step |
| `ReplicaAgreement.AdoptInStep` | packages/linux/src/lifecycle.rs:127-155 | a newly admitted keyboard is accepted and in step |
| `ReplicaAgreement.DropInStep` | packages/linux/src/lifecycle.rs:113-126 | a removed keyboard's generation is retired for good and the rest stay in step |
| `ReplicaAgreement.KeyboardsComeAndGo` | packages/linux/src/lifecycle.rs:113-155 | a keyboard is adopted unless generations or the 64 slots have run out and dropped unless its sequence has, and nothing else tears the connection down there |
| `ReplicaAgreement.LossIsMadeGood` | packages/linux/src/broker.rs:173-192 | the exchange after a loss goes through if and only if counters, codes and the frame allow; broker and daemon are then in step and the consumer holds the keys down, save those swallowed before that it did not have |
| `ReplicaAgreement.ConversationSound` | packages/linux/src/broker.rs:117-283 | along every conversation the broker's account of each keyboard is kept |
| `ReplicaAgreement.FreshLinkInStep` | packages/linux/src/lifecycle.rs:94-99 | a fresh connection is in step |
| `TapObject.TapFsm.OnTransition` | packages/core/src/tap_fsm.rs:92-155 | the specified transition and result |
| `TapObject.TapFsm.OnOtherKey` | packages/core/src/tap_fsm.rs:159-166 | the specified disqualification |
| `TapHistory.MachineTracksHistory` | packages/core/src/tap_fsm.rs:92-166 | after every history the machine's active key, taint and counts say what the history says |
| `TapHistory.ReportMeansRun` | packages/core/src/tap_fsm.rs:92-155 | a tap is reported exactly at the release of a clean tap, and its count is the saturated length of the longest sequence of clean taps of that key ending there, consecutive ones with no tap and nothing disturbing in between and released at most the window apart |
| `TapHistory.RunLengthIsLongest` | packages/core/src/tap_fsm.rs:125-155 | the counted length is that of a run of linked taps ending there, and no run is longer |
| `RuleMatcher.FindHotkey` | packages/core/src/rule.rs:419-434 | the action of the rule of least index that matches in scope, or none |
| `RuleMatcher.FeedTaps` | packages/core/src/rule.rs:391-405 | steps every tap machine that has a rule, whether or not an earlier one fired, and returns the action of the firing rule of least index, or none exactly when none fires |
| `Matching.TapIsFirst` | packages/core/src/rule.rs:391-405 | every machine with a rule takes the transition and the action is that of the rule of least index that fired, or none |
| `Matching.HotkeyIsFirst` | packages/core/src/rule.rs:419-434 | the hotkey that fires is the one of least index that matches in scope |
| `RuleMatcher.MatcherState.DispatchDevice` | packages/core/src/rule.rs:334-437 | the specified state and verdict |
| `RuleMatcher.MatcherState.DispatchDeviceWithDelivery` | packages/core/src/rule.rs:192-217 | the same, with a fresh token for every replacement |
| `RuleMatcher.MatcherState.ReportDelivery` | packages/core/src/rule.rs:227-244 | accepts and applies a report exactly as specified |
| `RuleMatcher.MatcherState.ReconcileDeliveryEvent` | packages/core/src/rule.rs:314-329 | the specified reconciliation of a press with its delivery |
| `RuleMatcher.MatcherState.RefreshDeliveryActive` | packages/core/src/rule.rs:308-311 | recomputes the cached flag |
| `RuleMatcher.MatcherState.SwapRules` | packages/core/src/rule.rs:153-159 | new rules and tap machines, the same presses and tokens |
| `RuleMatcher.MatcherState.InvalidateSpeculation` | packages/core/src/rule.rs:253-257 | drops every pending token |
| `RuleMatcher.MatcherState.SettleDeviceEvent` | packages/core/src/rule.rs:274-285 | the specified settlement of an event handled elsewhere |
| `RuleMatcher.MatcherState.ResetDevice` | packages/core/src/rule.rs:289-296 | forgets one device's presses, tokens and machines |
| `RuleMatcher.MatcherState.Reset` | packages/core/src/rule.rs:299-306 | forgets all of them |
| `MatcherRuns.CachedFlagIsSafe` | packages/core/src/rule.rs:192-346 | in every reachable state the flag is set if and only if a token or a forwarded press exists, swallowed and forwarded presses are disjoint, and dispatch with the cached flag gives the same verdict and state as always reconciling |
| `MatcherRuns.FastPathEqualsSlow` | packages/core/src/rule.rs:308-346 | the same from any consistent state |
| `MatcherRuns.AlwaysConsistent` | packages/core/src/rule.rs:153-437 | every sequence of operations keeps the matcher consistent |
| `MatcherRuns.ReplacementConsumes` | packages/core/src/rule.rs:412-434 | a non-modifier press answered with a replacement is latched as swallowed |
| `MatcherRuns.ReplacedUntilRelease` | packages/core/src/rule.rs:153-437 | after a plain press is answered with a replacement and a token, every repeat and its release are swallowed under any interleaving of other events, reloads, invalidations and reports, unless its own token reports the original forwarded |
| `MatcherRuns.OwnReportDecides` | packages/core/src/rule.rs:192-437 | that report is accepted if and only if the token was not withdrawn by then, and from it on every repeat and the release pass if it was accepted and are swallowed if not |
| `MatcherRuns.SwallowedUntilRelease` | packages/core/src/rule.rs:314-437 | the same swallowing for any consumed press, with or without a token outstanding |
| `MatcherRuns.HandBackForwards` | packages/core/src/rule.rs:227-244 | its own rejected-and-forwarded report moves the press from swallowed to forwarded and spends the token |
| `MatcherRuns.OwnTokenStep` | packages/core/src/rule.rs:192-244 | in one operation only the token issued for that very press can hand it back |
| `MatcherRuns.ForwardedUntilRelease` | packages/core/src/rule.rs:314-346 | a handed-back press has every repeat and its release passed until it ends |
| `MatcherRuns.TokensAreOneShot` | packages/core/src/rule.rs:227-244 | on every run a token is accepted at most once ever |
| `MatcherRuns.StaleReportsAreInert` | packages/core/src/rule.rs:227-244 | a report that is not accepted changes nothing |
| `MatcherTaps.MachinesFollowEvents` | packages/core/src/rule.rs:153-437 | over every run each tap machine of each device is the tap state machine run over what the device's events amounted to since the machines were last cleared, and a modifier counts as down exactly if the last event that told said so |
| `MatcherTaps.TapFiresExactly` | packages/core/src/rule.rs:352-410 | over every run a modifier event is answered Replace(a) if and only if a is the action of the least-index tap rule in scope whose key and count are those of the longest run of clean taps it ends, and passes otherwise |
| `MatcherTaps.HotkeyFiresExactly` | packages/core/src/rule.rs:340-437 | over every run a press nobody latched is answered Replace(a) if and only if a is the action of the least-index hotkey that applies in scope; a consumed press is swallowed at repeats and release, a handed-back one passes, anything else passes |
| `MatcherTaps.EndedPressIsForgotten` | packages/core/src/rule.rs:274-346 | after a press ends, by its release, an observed release or a loss, it is latched no more and has no token outstanding |
| `MatcherTaps.ReplacementGetsToken` | packages/core/src/rule.rs:192-217 | on every run a replacement with a delivery report expected gets a token of its press, numbered as none before, and nothing else gets one |
| `Protocol.Write` | packages/linux/src/protocol.rs:81-92 | fills the buffer with exactly the message's frame |
| `Protocol.RoundTrip` | packages/linux/src/protocol.rs:81-121 | reading a written frame, whatever follows it, gives the message back |
| `Protocol.OnlyFramesAreRead` | packages/linux/src/protocol.rs:94-121 | whatever is read was the frame of the message returned |
| `Wire.GetBytes` | native/hyprland/stock_wire.hpp:8-12 | the little-endian value of the field |
| `Wire.PutBytes` | native/hyprland/stock_wire.hpp:13-15 | writes the field in place and nothing else |
| `Wire.GetAfterPut` | native/hyprland/stock_wire.hpp:8-15 | a field reads back what was written modulo its width |
| `Wire.PutLeavesOthers` | native/hyprland/stock_wire.hpp:13-15 | fields that do not overlap are unchanged |
| `Wire.IsZero` | native/hyprland/stock_wire.hpp:16-19 | whether every byte of the range is zero |
| `Wire.IsHeader` | native/hyprland/stock_wire.hpp:20-24 | whether magic, version, opcode, body length and all reserved bytes are right |
| `Wire.WriteHello` | native/hyprland/stock_wire.hpp:63-76 | builds the advertisement in place, or refuses and leaves the buffer alone |
| `Wire.HelloReads` | native/hyprland/stock_wire.hpp:63-76 | nonce, lengths, hash and artifact all read back |
| `Wire.IsHelloAck` | native/hyprland/stock_wire.hpp:77-82 | computes the acknowledgement predicate |
| `Wire.OnlyTheEchoIsAccepted` | native/hyprland/stock_wire.hpp:63-82 | for a built advertisement the only accepted acknowledgement is that packet with opcode two |
| `Wire.DecisionsAreCanonical` | native/hyprland/stock_wire.hpp:30-39 | two accepted decisions for one event with the same verdict, key and modifiers are the same bytes |
| `FocusIdentity.ValidFocusIdentity` | native/hyprland/focus_identity.hpp:8-28 | accepts a text if and only if it is 1 to 256 bytes and the encoding, by section 3 of RFC 3629, of scalar values other than NUL |
| `FocusIdentity.ScanIsUtf8` | native/hyprland/focus_identity.hpp:10-27 | the scanner accepts exactly the well-formed texts, of any length |
| `FocusIdentity.AcceptSound` | native/hyprland/focus_identity.hpp:11-25 | an accepted character is the encoding of the scalar it decodes to |
| `FocusIdentity.AcceptComplete` | native/hyprland/focus_identity.hpp:11-25 | the encoding of any scalar but NUL is accepted whole, whatever follows |
| `FocusIdentity.EncodeFocus` | native/hyprland/focus_identity.hpp:29-34 | writes kind, lengths and identity in place and inside the packet, or refuses and leaves it alone |
| `FocusIdentity.FocusReads` | native/hyprland/focus_identity.hpp:29-34 | body length, kind, identity length and identity read back |
| `FocusIdentity.NoAlias` | native/hyprland/focus_identity.hpp:29-34 | two packets with equal bytes carry the same kind and identity |
| `FocusIdentity.FocusKeepsHeader` | native/hyprland/focus_identity.hpp:29-34 | an event packet stays well formed with its body grown to end with the identity |
| `CausalRing.IdsNeverDecrease` | native/hyprland/causal_timing.hpp:21-34 | under every interleaving of writers and readers the id of a slot never decreases |
| `CausalRing.EveryCallCounted` | native/hyprland/causal_timing.hpp:21-34 | every record call stored its evidence, counted one drop or is still under way, and the counters say how many of each |
| `CausalRing.ReadIsGenuine` | native/hyprland/causal_timing.hpp:35-40 | under every interleaving what a reader copied out of a filled slot is the evidence of the very call its id names |
| `CausalRing.StillWhileRead` | native/hyprland/causal_timing.hpp:35-40 | while a reader holds the flag nothing in the slot changes |
| `CausalRing.QuietRingIsComplete` | native/hyprland/causal_timing.hpp:21-40 | once all calls have finished and none was dropped, each of the last 2048 is in its slot |
| `CausalRing.AlwaysSafe` | native/hyprland/causal_timing.hpp:21-40 | the invariants behind these hold after every sequence of steps |
| `CausalRing.EvidenceIsTheHeader` | native/hyprland/causal_timing.hpp:30-32 | each field of the evidence is the packet field at its offset and depends on no other |
| `CausalPages.BuildPage` | native/hyprland/causal_timing.hpp:65-94 | the page the specification gives for whatever each slot read returned, or a refusal of the cut |
| `CausalPages.PageCovers` | native/hyprland/causal_timing.hpp:65-94 | a page lists every index of its range exactly once, as record or as missing, stays within its limit, moves on unless done, and is complete if and only if its records are the whole range in order |
| `Collector.Collect` | scripts/linux/hyprland/collect_causal.py:7-56 | the specified outcome for any answers |
| `Collector.CompleteIsExact` | scripts/linux/hyprland/collect_causal.py:7-56 | whatever the server answers, a complete collection has the ids start+1 to end in order from clean pages, and an incomplete one never has a gap |
| `Collector.CollectedExactlyWhen` | scripts/linux/hyprland/collect_causal.py:14-53 | from a ring that keeps recording between queries and during them, also between the two counter loads of one query, the collection always ends within 172 turns, and completely if and only if at each page's own turn nothing had been dropped or overwritten and every index of the page could be read |
| `Collector.MovingRingIsCollected` | native/hyprland/causal_timing.hpp:21-94 | end to end over a ring in motion: a complete collection holds the evidence of every call begun when its cut was chosen, in order |
| `Collector.LongHistoryIsRefused` | scripts/linux/hyprland/collect_causal.py:44-45 | a run of 2049 calls, all of the last 2048 readable, whose collection is incomplete |
| `Collector.QuietRingIsCollected` | native/hyprland/causal_timing.hpp:21-94 | after any interleaving that came to rest with nothing dropped and at most 2048 calls, collecting is complete and yields the evidence of every call in order |

## Left out

- Hyprland, XKB, libinput and Wayland calls, the hook table and the forwarded keyboard state: foreign code, used only for the order in which the router is called.
- Futex sleep and wake, weak memory orderings and liveness of the mailbox, worker and ring: steps are sequentially consistent and time is arbitrary.
- The mailbox, the notification ring and the evidence ring are values moved by their atomic steps rather than shared objects; data races on plain memory show only as the exclusion theorems.
- Wrap-around of 64-bit epoch, focus and token counters: they are natural numbers, as the source increments them unchecked; the 32-bit ring index and the 64-bit nonce arithmetic are modelled.
- The 8-bit modifier masks of the router are sets of sides; the released-key flags of one revocation are a set.
- An enter is taken to reach its client whole, as the adapter observes its completion before recording it, and to follow a leave, after which the client before it holds nothing; under a lock it is the locker that is entered.
- Events the router passes straight to stock because their device is not registered: the client view counts only what the router delivers, releases and replaces.
- The proof argument of the output recovery is read as the fresh-binding condition of the adapter; how the adapter qualifies a binding is not modelled.
- The matcher holds its tap machines as values; `TapObject.TapFsm` is the same machine as an object.
- Control, event and outcome packets of the plugin protocol are not modelled beyond the focus and decision packets: their builders would only add field-by-field members.
- Socket handling, deadlines of partial reads, peer and file identity checks, device discovery and grab: input and output.
- A JSON reply the collector cannot parse, or that is too long or ill-typed, is one kind of unusable answer; query text is not parsed.
- macOS and Windows back ends, command line, configuration, key-name tables, logging, status text, packaging and qualification scripts.
