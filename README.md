# react-modal-control: the modal lifecycle engine in Dafny

This project models the engine behind react-modal-control's modal windows, and
proves what that engine promises. It covers:

- **`ListenersAccumulator`**: a set of callbacks that can be added, removed and run all at once.
- **`DelayerAccumulator`** (the close delayer): a set of outstanding delayer ids plus the flags
  `isActivated` and `isExecuted`. It releases its listeners once, when it is activated and no
  delayer is left.
- **`ModalInstance`**: one modal window.
  - It moves through `PENDING → OPENED → CLOSING → CLOSED` under the guarded calls `open`,
    `startClose` and `endClose`.
  - It has the optional hooks `onOpen`, `onCloseStart` and `onClosed`.
  - Its close delayer's release ends the close.
- **`useModalManager`**, the manager:
  - a registry of live instances, kept in insertion order (a JavaScript `Map`);
  - the published list of snapshots that the renderer shows;
  - admission of new instances under `multiple` or `queue` mode (queue has the sub-modes
    `after-close` and `during-close`);
  - queue advance, which opens the first PENDING instance;
  - `close(id?)` and `getInstanceById`.
- **`useEventState`**: the value cell the manager publishes through, with its `EventStateProvider`.
- **`getFirstMapElement`**: the first value of a map, in insertion order.

Each stateful source class is a Dafny class with the same fields: `ListenersAccumulator`,
`DelayerAccumulator`, `ModalInstance`, `EventStateProvider`, the state of `useEventState`
(`EventState`), and the manager (`ModalManager`). Each method is proved against a pure function
of the old state:

- `AddStep`, `RemoveStep` and `ActivateStep` for the delayer;
- `OpenStep`, `StartCloseStep` and `EndCloseStep` for an instance;
- `OpenOp`, `CloseOp`, `AddDelayerOp` and `RemoveDelayerOp` for the manager.

The promises are then proved about those functions:

- the release runs at most once;
- it runs at the last removal, whatever the removal order;
- the lifecycle never moves backward;
- each hook fires at most once;
- the manager keeps its invariant.

Callbacks are modelled by what they leave behind:

- A `ListenersAccumulator` appends one `Call(listener, args)` per invocation to its log.
- A `ModalInstance` appends one `HookCall(hook, snapshot)` for each hook it calls.
- An `EventStateProvider` appends one `Delivery(listener, value)` per event delivered.

The manager's own three hooks are its methods `OnOpenHandler`, `OnCloseStartHandler` and
`OnClosedHandler`. They run in the order the instance fires them.

The manager's invariant (`ManagerInvariants.Inv`) is the engine's central promise. Between calls:

- every registered instance is PENDING, OPENED or CLOSING;
- the instances on screen (OPENED or CLOSING) are a prefix of the registry in insertion order;
- the published list is exactly the snapshots of that prefix, each with its current lifecycle state.

On top of that, each mode keeps its own rule:

- `multiple` shows every instance;
- `after-close` shows at most one;
- `during-close` shows a run of CLOSING instances followed by at most one OPENED one. With the
  corrected admission rule (see "Findings"), nothing waits while nothing is OPENED.

`ManagerRuns.RunKeepsInv` proves the invariant after any sequence of calls with the corrected
admission rule. `open` as written (`useModalManager.ts:100-105`) admits a new instance only when it
is the only one registered, or in `multiple` mode. `ManagerAsWritten` covers that rule:

- In `multiple` and `after-close` mode the two rules agree (`AdmitsAgree`), so every run as written
  is the corrected run (`RunAgree`), and the invariant holds after it (`RunAsWrittenKeepsInv`).
- In `during-close` mode, any run as written keeps the layout and the CLOSING run before the last
  instance shown (`RunKeepsQueueInv`, `AsWrittenKeepsLayout`).
- What the written rule loses in `during-close` mode is "nothing waits while nothing is OPENED".
  `ManagerRuns.AsWrittenStalls` exhibits a run that breaks it.

## Model

| member | source | states |
|---|---|---|
| Listeners.Added | src/hooks/useModalManager/ListenersAccumulator.ts:6-8 | `Set.add`: the listener is present afterwards, nothing else is added, the earlier listeners keep their order as a prefix, the length grows only for a new listener, and no duplicate appears |
| Listeners.Removed | src/hooks/useModalManager/ListenersAccumulator.ts:10-12 | `Set.delete`: the listener is absent afterwards, nothing new appears, an absent listener leaves the sequence unchanged, and a present one removes exactly one entry |
| Listeners.RemovedKeeps | src/hooks/useModalManager/ListenersAccumulator.ts:10-12 | removing one listener keeps every other registered listener |
| Listeners.RemovedAt | src/hooks/useModalManager/ListenersAccumulator.ts:10-12 | removing the listener at position k drops exactly that position and keeps the order of the rest |
| Listeners.Invocations | src/hooks/useModalManager/ListenersAccumulator.ts:14-16 | `execute` makes one call per registered listener, in insertion order, each receiving the whole argument list as one array |
| Listeners.InvokedExactlyOnce | src/hooks/useModalManager/ListenersAccumulator.ts:14-16 | one `execute` calls each registered listener exactly once and never calls an unregistered one |
| Listeners.AddedTwiceInvokedOnce | src/hooks/useModalManager/ListenersAccumulator.ts:4-8 | adding the same listener twice stores it once, so `execute` calls it once |
| Listeners.ListenersAccumulator.constructor | src/hooks/useModalManager/ListenersAccumulator.ts:4 | a new accumulator has no listeners and has made no calls |
| Listeners.ListenersAccumulator.AddListener | src/hooks/useModalManager/ListenersAccumulator.ts:6-8 | the listener sequence becomes `Added(old, listener)`, still without duplicates |
| Listeners.ListenersAccumulator.RemoveListener | src/hooks/useModalManager/ListenersAccumulator.ts:10-12 | the listener sequence becomes `Removed(old, listener)`, still without duplicates |
| Listeners.ListenersAccumulator.Execute | src/hooks/useModalManager/ListenersAccumulator.ts:14-16 | the call log grows by exactly `Invocations(listeners, arg)`, and the listeners themselves are not changed |
| Delayers.AddStep | src/hooks/useModalManager/DelayerAccumulator.ts:12-16 | the new id joins the set, nothing else changes, and a reachable state stays reachable |
| Delayers.RemoveStep | src/hooks/useModalManager/DelayerAccumulator.ts:18-21 | the id leaves the set (an unknown id deletes nothing); the release happens iff the set is then empty, the accumulator is activated and it has not executed |
| Delayers.ActivateStep | src/hooks/useModalManager/DelayerAccumulator.ts:36-39 | `isActivated` is set; the release happens at once iff no delayer is outstanding and it has not executed |
| Delayers.ReleasesAtMostOnce | src/hooks/useModalManager/DelayerAccumulator.ts:31-34 | over any sequence of `add`/`remove`/`activate`, the listeners run at most once, and never again once executed |
| Delayers.NoReleaseBeforeActivate | src/hooks/useModalManager/DelayerAccumulator.ts:20 | with no `activate` call, no sequence of `add`/`remove` releases the listeners |
| Delayers.ReleaseOnLastRemoval | src/hooks/useModalManager/DelayerAccumulator.ts:18-21 | after activation, removing the outstanding delayers in any order releases exactly once, at the last removal and not before |
| Delayers.RemoveFirstLeavesRest | src/hooks/useModalManager/DelayerAccumulator.ts:18-21 | removing one of several outstanding delayers leaves the others outstanding and releases nothing; removing the last one releases |
| Delayers.DelayerAccumulator.constructor | src/hooks/useModalManager/DelayerAccumulator.ts:6-10 | an empty set, both flags false, no listeners |
| Delayers.DelayerAccumulator.Add | src/hooks/useModalManager/DelayerAccumulator.ts:12-16 | returns the shared counter's next id, which is not already in the set, and the state becomes `AddStep(old, id)` |
| Delayers.DelayerAccumulator.Remove | src/hooks/useModalManager/DelayerAccumulator.ts:18-21 | the state and the release are `RemoveStep(old, id)`; a release appends one call per listener to the log |
| Delayers.DelayerAccumulator.AddListener | src/hooks/useModalManager/DelayerAccumulator.ts:23-25 | delegates to the inner accumulator's `addListener` |
| Delayers.DelayerAccumulator.RemoveListener | src/hooks/useModalManager/DelayerAccumulator.ts:27-29 | delegates to the inner accumulator's `removeListener` |
| Delayers.DelayerAccumulator.ExecuteListeners | src/hooks/useModalManager/DelayerAccumulator.ts:31-34 | the state and whether the listeners ran are `ExecuteListenersStep(old)` |
| Delayers.ExecuteListenersOnce | src/hooks/useModalManager/DelayerAccumulator.ts:31-34 | `executeListeners` runs the listeners only if they have not run: a second call runs nothing and changes nothing, and on an activated accumulator it leaves a consistent state |
| Delayers.DelayerAccumulator.Activate | src/hooks/useModalManager/DelayerAccumulator.ts:36-39 | the state and the release are `ActivateStep(old)`; a release appends one call per listener |
| Ids.IdSource.Generate | src/hooks/useModalManager/DelayerAccumulator.ts:13 | `generateId` returns the counter value and advances it, so no id is handed out twice |
| EventStates.Deliveries | src/hooks/useEventState.ts:32-36 | one dispatch delivers the same detail to every subscriber, in subscription order |
| EventStates.AppliedSequence | src/hooks/useEventState.ts:64-69 | two `setState` calls store what their composition stores: a plain value overrides whatever was stored before, and updater functions compose |
| EventStates.DeliveredExactlyOnce | src/hooks/useEventState.ts:32-36 | one dispatch reaches each subscriber exactly once and never reaches a non-subscriber |
| EventStates.EventStateProvider.constructor | src/hooks/useEventState.ts:14-18 | a provider over the given state cell, with no subscribers |
| EventStates.EventStateProvider.Subscribe | src/hooks/useEventState.ts:20-22 | `addEventListener`: the listener is registered once, even when added again |
| EventStates.EventStateProvider.UnsubscribeAsWritten | src/hooks/useEventState.ts:24-26 | as written, the call is `addEventListener`, so the listener is still subscribed afterwards |
| EventStates.EventStateProvider.Unsubscribe | src/hooks/useEventState.ts:24-26 | corrected: the listener is no longer subscribed, and every other subscriber stays |
| EventStates.EventStateProvider.Update | src/hooks/useEventState.ts:32-36 | the delivery log grows by exactly one delivery per subscriber, each carrying the value |
| EventStates.EventState.constructor | src/hooks/useEventState.ts:58-62 | `getState` returns the initial value, and nobody is subscribed yet |
| EventStates.EventState.GetState | src/hooks/useEventState.ts:73-75 | returns the same stored value as the provider's `getCurrentValue` (lines 28-30) |
| EventStates.EventState.SetState | src/hooks/useEventState.ts:64-71 | stores `Applied(previous, action)`, then dispatches exactly one update carrying the newly stored value to every subscriber |
| Instances.StartCloseStep | src/hooks/useModalManager/ModalInstance.ts:60-70 | outside OPENED nothing happens. From OPENED with no delayer, `onCloseStart` then `onClosed` fire and the instance ends CLOSED in the same call. With a delayer outstanding, only `onCloseStart` fires and it stays CLOSING |
| Instances.RemoveCloseDelayerStep | src/hooks/useModalManager/ModalInstance.ts:48-50 | the delayer leaves the set; removing the last delayer of a CLOSING instance ends the close and fires `onClosed`; otherwise the lifecycle is unchanged and nothing fires |
| Instances.StartCloseFromOpened | src/hooks/useModalManager/ModalInstance.ts:60-70 | from OPENED: CLOSING and `onCloseStart`, then the delayer is activated; if that releases, the `endClose` listener (lines 31-33) ends the close and fires `onClosed` |
| Instances.InstanceStepProperties | src/hooks/useModalManager/ModalInstance.ts:44-82 | every operation keeps the lifecycle rank or raises it; each hook it fires crosses that hook's state; no hook fires twice; instance consistency is preserved |
| Instances.InstanceRunMonotone | src/hooks/useModalManager/ModalInstance.ts:60-82 | over any sequence of operations the lifecycle rank never falls, and consistency is preserved |
| Instances.LifecycleNeverMovesBackward | src/hooks/useModalManager/ModalInstance.ts:60-82 | for any prefixes of one sequence of calls, the longer prefix ends at the same rank or a later one in `PENDING < OPENED < CLOSING < CLOSED` |
| Instances.EachHookAtMostOnce | src/hooks/useModalManager/ModalInstance.ts:60-82 | over any sequence of calls each hook fires at most once, only if the instance started before that hook's state, and the instance ends at or past it |
| Instances.StepFiresHookAtMostOnce | src/hooks/useModalManager/ModalInstance.ts:60-82 | one call fires a hook at most once, and only when it crosses that hook's state |
| Instances.OpenRepeatedFiresOnce | src/hooks/useModalManager/ModalInstance.ts:78-82 | `open` called n ≥ 1 times on a PENDING instance leaves it OPENED and fires `onOpen` once |
| Instances.OpenAgainChangesNothing | src/hooks/useModalManager/ModalInstance.ts:79 | further `open` calls on an instance past PENDING change nothing and fire nothing |
| Instances.EndCloseRepeatedFiresOnce | src/hooks/useModalManager/ModalInstance.ts:72-76 | `endClose` called n ≥ 1 times leaves the instance CLOSED and fires `onClosed` once |
| Instances.EndCloseAgainChangesNothing | src/hooks/useModalManager/ModalInstance.ts:73 | further `endClose` calls on a CLOSED instance change nothing and fire nothing |
| Instances.ModalInstance.Logged | src/hooks/useModalManager/ModalInstance.ts:84-87 | a hook is called only when it was supplied, and then with the instance's snapshot at that moment |
| Instances.ModalInstance.constructor | src/hooks/useModalManager/ModalInstance.ts:19-34 | a new instance is PENDING with an empty, inactive delayer whose one listener is `endClose`; its `toState` holds the given id, element and key, the props or `{}`, and PENDING |
| Instances.ModalInstance.AddCloseDelayer | src/hooks/useModalManager/ModalInstance.ts:44-46 | returns the shared counter's next id and adds it to the close delayer |
| Instances.ModalInstance.RemoveCloseDelayer | src/hooks/useModalManager/ModalInstance.ts:48-50 | the state is `RemoveCloseDelayerStep(old, id)`, and exactly the hooks that step fires are called |
| Instances.ModalInstance.AddStartCloseListener | src/hooks/useModalManager/ModalInstance.ts:52-54 | the start-close listeners become `Added(old, listener)` |
| Instances.ModalInstance.RemoveStartCloseListener | src/hooks/useModalManager/ModalInstance.ts:56-58 | the start-close listeners become `Removed(old, listener)` |
| Instances.ModalInstance.StartClose | src/hooks/useModalManager/ModalInstance.ts:60-70 | the state is `StartCloseStep(old)`, and exactly its hooks are called. From OPENED, every start-close listener is called once; from any other state, none is |
| Instances.ModalInstance.EndClose | src/hooks/useModalManager/ModalInstance.ts:72-76 | the state is `EndCloseStep(old)`, exactly its hooks are called, and `Valid` is kept |
| Instances.ModalInstance.Open | src/hooks/useModalManager/ModalInstance.ts:78-82 | the state is `OpenStep(old)`, and exactly its hooks are called |
| Instances.ModalInstance.ExecuteHook | src/hooks/useModalManager/ModalInstance.ts:84-87 | calls the hook with the current snapshot if it was supplied, and otherwise does nothing |
| OrderedMaps.Empty | src/hooks/useModalManager/useModalManager.ts:42 | a new `Map` has no keys |
| OrderedMaps.Set | src/hooks/useModalManager/useModalManager.ts:98 | `Map.set` stores the value; a new key goes last in iteration order; an existing key keeps its place |
| OrderedMaps.Delete | src/hooks/useModalManager/useModalManager.ts:70 | `Map.delete` removes the key from the entries and from the iteration order |
| OrderedMaps.GetFirstMapElement | src/helpers/getFirstMapElement.ts:1-3 | none iff the map is empty; otherwise the value of the earliest-inserted key, which is one of the map's values and the first of `values()` |
| OrderedMaps.FirstKey | src/helpers/getFirstMapElement.ts:2 | the earliest-inserted key, when there is one, and its value is what `getFirstMapElement` returns |
| OrderedMaps.FirstAfterTwoInserts | src/tests/getFirstMapElement.test.ts:4-10 | after two insertions, the first value is the one inserted first |
| OrderedMaps.FirstStableUnderSet | src/helpers/getFirstMapElement.ts:2 | setting a key never changes which key is first in a non-empty map |
| OrderedMaps.FirstAfterDeletingFirst | src/helpers/getFirstMapElement.ts:2 | after deleting the first key, the second becomes first |
| OrderedMaps.DeleteShift | src/hooks/useModalManager/useModalManager.ts:70 | deleting the key at position i shifts the later keys down by one and leaves their values alone |
| ManagerModel.WithoutId | src/hooks/useModalManager/useModalManager.ts:67-69 | `filter` leaves no entry with that id, never grows the list, and leaves a list without that id unchanged |
| ManagerModel.WithoutIdAt | src/hooks/useModalManager/useModalManager.ts:67-69 | when the id occurs once, at position k, the filter removes exactly position k and keeps the order of the rest |
| ManagerModel.RefreshedAt | src/hooks/useModalManager/useModalManager.ts:83-87 | the `onCloseStart` refresh replaces exactly the entry at the one position holding the snapshot's id, changes nothing when the id is absent, and is idempotent |
| ManagerModel.FirstPendingIndex | src/hooks/useModalManager/useModalManager.ts:55-61 | the position of the first PENDING instance in registry order (or the end): none before it is PENDING |
| ManagerModel.FirstPendingFrom | src/hooks/useModalManager/useModalManager.ts:56-60 | the scan from a position with no PENDING instance before it finds the first PENDING instance at or after it |
| ManagerModel.FirstInQueue | src/hooks/useModalManager/useModalManager.ts:55-61 | `getFirstInQueue` returns a registered PENDING instance, and returns none iff no instance is PENDING |
| ManagerModel.OpenInstance | src/hooks/useModalManager/useModalManager.ts:104 | `instance.open()` on a registered instance keeps the registry and its order |
| ManagerModel.AdvanceQueue | src/hooks/useModalManager/useModalManager.ts:76 | `getFirstInQueue()?.open()` keeps the registry and its order |
| ManagerModel.OnCloseStartHook | src/hooks/useModalManager/useModalManager.ts:82-94 | `onCloseStart` refreshes the instance's published entry; outside during-close mode that is all it does |
| ManagerModel.OnClosedHook | src/hooks/useModalManager/useModalManager.ts:66-78 | `onClosed` drops the id from the registry and from the published list; outside after-close mode that is all it does |
| ManagerModel.Handle | src/hooks/useModalManager/useModalManager.ts:65-95 | a hook never adds an instance to the registry |
| ManagerModel.Dispatch | src/hooks/useModalManager/useModalManager.ts:65-95 | the hooks one instance call fires, run in order, never add an instance |
| ManagerModel.ApplyToInstance | src/hooks/useModalManager/ModalInstance.ts:44-82 | an instance call and its hooks never add an instance to the registry |
| ManagerModel.OpenWith | src/hooks/useModalManager/useModalManager.ts:46-106 | an unknown key fails with `ModalNotFound` and leaves the state unchanged; a known key succeeds |
| ManagerModel.CloseTarget | src/hooks/useModalManager/useModalManager.ts:112-122 | `close()` targets the earliest-registered instance; `close(id)` targets that id iff it is registered |
| ManagerModel.CloseOp | src/hooks/useModalManager/useModalManager.ts:110-125 | `close` with no target (unknown id, empty registry) changes nothing, and never registers an instance |
| ManagerModel.AddDelayerOp | src/hooks/useModalManager/useModalManager.ts:129-131 | `getInstanceById(id)?.addCloseDelayer()` on an unknown id changes nothing |
| ManagerModel.RemoveDelayerOp | src/hooks/useModalManager/useModalManager.ts:129-131 | `getInstanceById(id)?.removeCloseDelayer(d)` on an unknown id changes nothing |
| ManagerLayout.PublishedIds | src/hooks/useModalManager/useModalManager.ts:66-105 | the i-th published entry belongs to the i-th registered instance |
| ManagerLayout.FirstPendingIsNext | src/hooks/useModalManager/useModalManager.ts:55-61 | the first PENDING instance is the one right after the instances on screen |
| ManagerLayout.RegisterKeepsLayout | src/hooks/useModalManager/useModalManager.ts:98 | registering a new PENDING instance puts it last and keeps the screen layout |
| ManagerLayout.OpenNextKeepsLayout | src/hooks/useModalManager/useModalManager.ts:79-81 | opening the first waiting instance appends its OPENED snapshot to the published list and keeps the layout |
| ManagerLayout.AdvanceKeepsLayout | src/hooks/useModalManager/useModalManager.ts:55-61 | queue advance opens the instance right after those on screen, or does nothing when none waits, and keeps layout and consistency |
| ManagerLayout.RefreshKeepsLayout | src/hooks/useModalManager/useModalManager.ts:82-87 | refreshing an on-screen instance to CLOSING keeps the layout and changes only that instance's state |
| ManagerLayout.ReplaceKeepsLayout | src/hooks/useModalManager/ModalInstance.ts:44-50 | a delayer change, which does not show in `toState`, keeps the layout and every lifecycle state |
| ManagerLayout.RemoveKeepsLayout | src/hooks/useModalManager/useModalManager.ts:66-70 | dropping an on-screen instance from the registry and the published list removes exactly its position from both and keeps the layout |
| ManagerLayout.RemovedLayout | src/hooks/useModalManager/useModalManager.ts:66-70 | the layout holds after `onClosed`'s filter and delete |
| ManagerLayout.RemovedStates | src/hooks/useModalManager/useModalManager.ts:66-70 | after that removal, the lifecycle states are the old ones without position i |
| ManagerLayout.RemovedMatches | src/hooks/useModalManager/useModalManager.ts:66-70 | after that removal, the published list is still exactly the snapshots of the on-screen prefix |
| ManagerLayout.RemoveShift | src/hooks/useModalManager/useModalManager.ts:70 | deleting position i keeps the instances before it and shifts those after it down by one |
| ManagerLayout.RemoveShape | src/hooks/useModalManager/useModalManager.ts:66-70 | for an on-screen instance, the key order and the published list each lose exactly position i |
| ManagerInvariants.EmptyInv | src/hooks/useModalManager/useModalManager.ts:42-44 | the empty registry with the empty published list satisfies the invariant under every policy |
| ManagerInvariants.PolicyOpenedLast | src/hooks/useModalManager/useModalManager.ts:100-105 | opening a newly registered instance that the policy admits keeps the policy's rule |
| ManagerInvariants.PolicyPendingLast | src/hooks/useModalManager/useModalManager.ts:100-105 | leaving a newly registered instance PENDING when the policy does not admit it keeps the policy's rule |
| ManagerInvariants.PolicyStartClose | src/hooks/useModalManager/useModalManager.ts:82-94 | in a queue the OPENED instance being closed is the last on screen; during-close opens the next one if any waits; the rule is kept either way |
| ManagerInvariants.PolicyRemove | src/hooks/useModalManager/useModalManager.ts:66-78 | removing a closed instance keeps the policy's rule; in after-close mode nothing is left on screen |
| ManagerInvariants.PolicyAdvanceAfterClose | src/hooks/useModalManager/useModalManager.ts:72-77 | in after-close mode, advancing from an empty screen shows exactly one instance, or none when nothing waits |
| ManagerInvariants.OpenKeepsInv | src/hooks/useModalManager/useModalManager.ts:46-106 | with the corrected admission rule, `open` keeps the invariant. An unknown key fails and changes nothing; otherwise the new instance is registered last, and in `multiple` mode it is OPENED at once |
| ManagerInvariants.OpenRegisteredKeepsInv | src/hooks/useModalManager/useModalManager.ts:98-105 | with the corrected admission rule, registering and admitting (or not) a new instance keeps the invariant and appends the id to the registry order |
| ManagerInvariants.AdmittedKeepsInv | src/hooks/useModalManager/useModalManager.ts:100-105 | an admitted new instance is OPENED and the invariant holds |
| ManagerInvariants.WaitingKeepsInv | src/hooks/useModalManager/useModalManager.ts:100-105 | with the corrected admission rule, a new instance that is not admitted stays PENDING, which happens only in a queue, and the invariant holds |
| ManagerInvariants.AdmittedOnlyWhenAllShown | src/hooks/useModalManager/useModalManager.ts:100-105 | a new instance is admitted only when no other waits; in after-close mode the registry was empty; in during-close mode every other instance is CLOSING |
| ManagerInvariants.NotAdmittedWaits | src/hooks/useModalManager/useModalManager.ts:100-105 | with the corrected admission rule, a new instance waits only in a queue: in after-close mode something is already registered; in during-close mode an OPENED instance is shown |
| ManagerInvariants.HandleCloseStart | src/hooks/useModalManager/useModalManager.ts:82-87 | the `onCloseStart` hook publishes the instance's CLOSING snapshot |
| ManagerInvariants.HandleClosed | src/hooks/useModalManager/useModalManager.ts:66-70 | the `onClosed` hook deletes the instance, whatever record the registry held for it |
| ManagerInvariants.CloseStartKeepsInv | src/hooks/useModalManager/useModalManager.ts:82-94 | after `onCloseStart` the instance is shown as CLOSING, the layout and the policy's rule hold, and the registry order is unchanged |
| ManagerInvariants.ClosedKeepsInv | src/hooks/useModalManager/useModalManager.ts:66-78 | `onClosed` on a CLOSING instance restores the invariant, including the after-close advance |
| ManagerInvariants.AdvanceRestoresAfterClose | src/hooks/useModalManager/useModalManager.ts:72-77 | in after-close mode, advancing from an empty screen restores the invariant |
| ManagerInvariants.StartCloseKeepsInv | src/hooks/useModalManager/useModalManager.ts:124 | `startClose` through the manager keeps the invariant. It changes nothing unless the instance is OPENED; held by a delayer, the instance stays registered as CLOSING; otherwise it is deregistered at once |
| ManagerInvariants.RemoveDelayerKeepsInv | src/hooks/useModalManager/ModalInstance.ts:48-50 | removing a delayer keeps the invariant; removing the last one of a CLOSING instance deregisters it; otherwise screen and registry are unchanged |
| ManagerInvariants.RemoveLastDelayerKeepsInv | src/hooks/useModalManager/ModalInstance.ts:31-33 | the release of a CLOSING instance's last delayer ends the close, deregisters the instance and keeps the invariant |
| ManagerInvariants.ReleaseRunsClosedHook | src/hooks/useModalManager/ModalInstance.ts:31-33 | that release runs exactly the manager's `onClosed` hook for the instance |
| ManagerInvariants.ClosingOnScreen | src/hooks/useModalManager/useModalManager.ts:82-87 | a CLOSING instance is on screen and, in during-close mode with an instance waiting, is not the last shown |
| ManagerInvariants.RemoveOtherDelayerKeepsInv | src/hooks/useModalManager/ModalInstance.ts:48-50 | removing a delayer that is not the last of a CLOSING instance changes neither the screen nor the registry order |
| ManagerInvariants.AddDelayerKeepsInv | src/hooks/useModalManager/ModalInstance.ts:44-46 | adding a delayer changes neither the screen nor the registry order and keeps the invariant |
| ManagerInvariants.CloseKeepsInv | src/hooks/useModalManager/useModalManager.ts:110-125 | `close(id?)` keeps the invariant |
| ManagerInvariants.AddDelayerOpKeepsInv | src/hooks/useModalManager/useModalManager.ts:129-131 | adding a delayer through `getInstanceById` keeps the invariant |
| ManagerInvariants.RemoveDelayerOpKeepsInv | src/hooks/useModalManager/useModalManager.ts:129-131 | removing a delayer through `getInstanceById` keeps the invariant |
| ManagerRuns.StepKeepsInv | src/hooks/useModalManager/useModalManager.ts:46-131 | with the corrected admission rule, every manager call keeps the invariant, and every registered id stays below the counter |
| ManagerRuns.RunKeepsInv | src/hooks/useModalManager/useModalManager.ts:46-131 | with the corrected admission rule, any sequence of manager calls keeps the invariant |
| ManagerRuns.NeverStalls | src/hooks/useModalManager/useModalManager.ts:66-105 | with the corrected admission rule, after any sequence of calls from an empty manager, something is on screen whenever something is registered. `multiple` shows every instance, after-close shows at most one, and during-close shows only CLOSING instances before the last one shown |
| ManagerRuns.OpenOnEmpty | src/hooks/useModalManager/useModalManager.ts:98-105 | `open` on an empty manager registers the instance and shows it OPENED, under either admission rule |
| ManagerRuns.StallStep2 | src/hooks/useModalManager/ModalInstance.ts:44-46 | a delayer added to the only instance is recorded in its close delayer and nothing else changes |
| ManagerRuns.StallStep3 | src/hooks/useModalManager/useModalManager.ts:110-125 | closing the only instance while it is held leaves it registered and published as CLOSING |
| ManagerRuns.CloseHeldAlone | src/hooks/useModalManager/ModalInstance.ts:60-70 | that close is the instance's `startClose` followed by the manager's `onCloseStart` |
| ManagerRuns.StallStep4AsWritten | src/hooks/useModalManager/useModalManager.ts:100-105 | as written, opening B while A is CLOSING registers B and leaves it PENDING, because the registry has two entries |
| ManagerRuns.StallStep4 | src/hooks/useModalManager/useModalManager.ts:100-105 | with the corrected rule, the same `open` shows B at once |
| ManagerRuns.StallStep5 | src/hooks/useModalManager/useModalManager.ts:66-78 | releasing A's last delayer deletes A and leaves B as it was; in during-close mode nothing advances |
| ManagerRuns.ReleaseLastDelayer | src/hooks/useModalManager/ModalInstance.ts:31-33 | releasing a held CLOSING instance's only delayer runs exactly the manager's `onClosed` hook |
| ManagerRuns.RunFrom4 | src/hooks/useModalManager/useModalManager.ts:66-78 | from step 4, the run ends with B alone: PENDING and unpublished as written, OPENED and published when corrected |
| ManagerRuns.RunFrom3 | src/hooks/useModalManager/useModalManager.ts:46-106 | from step 3, the run ends in that final state |
| ManagerRuns.RunFrom2 | src/hooks/useModalManager/useModalManager.ts:110-125 | from step 2, the run ends in that final state |
| ManagerRuns.RunFrom1 | src/hooks/useModalManager/useModalManager.ts:129-131 | from step 1, the run ends in that final state |
| ManagerRuns.StallRun | src/hooks/useModalManager/useModalManager.ts:46-131 | the five calls from an empty during-close manager end in that final state, and the counter has handed out two ids |
| ManagerAsWritten.AdmitsAgree | src/hooks/useModalManager/useModalManager.ts:100-105 | outside the during-close queue, the written rule (`size === 1`, or `multiple`) admits exactly the instances the corrected rule admits; in every mode it admits only instances the corrected rule admits |
| ManagerAsWritten.OpenAgree | src/hooks/useModalManager/useModalManager.ts:46-106 | outside the during-close queue, `open` as written gives the same outcome and state as `open` with the corrected rule |
| ManagerAsWritten.RunAgree | src/hooks/useModalManager/useModalManager.ts:46-131 | outside the during-close queue, every sequence of calls as written ends in the same state and counter as with the corrected rule |
| ManagerAsWritten.RunAsWrittenKeepsInv | src/hooks/useModalManager/useModalManager.ts:46-131 | outside the during-close queue, every sequence of calls as written keeps the invariant |
| ManagerAsWritten.NeverStallsAsWritten | src/hooks/useModalManager/useModalManager.ts:66-105 | in `multiple` and after-close mode, the engine as written shows something whenever something is registered; `multiple` shows all, after-close at most one |
| ManagerAsWritten.InvGivesQueueInv | src/hooks/useModalManager/useModalManager.ts:82-105 | the during-close invariant implies the weaker one the rule as written keeps |
| ManagerAsWritten.QueueStartClose | src/hooks/useModalManager/useModalManager.ts:82-94 | in the during-close queue the OPENED instance being closed is the last one shown; closing it and showing the next one keeps every earlier instance on screen CLOSING |
| ManagerAsWritten.QueueRemove | src/hooks/useModalManager/useModalManager.ts:66-70 | removing an instance on screen keeps every on-screen instance but the last CLOSING |
| ManagerAsWritten.QueuePendingLast | src/hooks/useModalManager/useModalManager.ts:98-105 | registering a PENDING instance last changes nothing on screen |
| ManagerAsWritten.OpenKeepsQueueInv | src/hooks/useModalManager/useModalManager.ts:46-106 | during-close `open` as written keeps the layout and the CLOSING run; an unknown key changes nothing; the new instance is registered last and is OPENED exactly when the registry was empty |
| ManagerAsWritten.CloseStartKeepsQueueInv | src/hooks/useModalManager/useModalManager.ts:82-94 | the during-close `onCloseStart` shows the instance CLOSING, advances the queue and keeps the layout and the CLOSING run |
| ManagerAsWritten.ClosedKeepsQueueInv | src/hooks/useModalManager/useModalManager.ts:66-78 | the during-close `onClosed` removes an on-screen instance and keeps the layout and the CLOSING run |
| ManagerAsWritten.StartCloseKeepsQueueInv | src/hooks/useModalManager/useModalManager.ts:124 | during-close `startClose` keeps the layout and the CLOSING run: nothing unless OPENED; held, the instance stays CLOSING; otherwise it is deregistered |
| ManagerAsWritten.RemoveLastDelayerKeepsQueueInv | src/hooks/useModalManager/ModalInstance.ts:31-33 | in the during-close queue, the release of a CLOSING instance's last delayer deregisters it and keeps the layout and the CLOSING run |
| ManagerAsWritten.RemoveOtherDelayerKeepsQueueInv | src/hooks/useModalManager/ModalInstance.ts:48-50 | in the during-close queue, any other delayer removal changes neither the screen nor the registry order |
| ManagerAsWritten.AddDelayerKeepsQueueInv | src/hooks/useModalManager/ModalInstance.ts:44-46 | in the during-close queue, adding a delayer changes neither the screen nor the registry order |
| ManagerAsWritten.StepKeepsQueueInv | src/hooks/useModalManager/useModalManager.ts:46-131 | every call of the during-close manager as written keeps the layout and the CLOSING run, and the ids stay below the counter |
| ManagerAsWritten.RunKeepsQueueInv | src/hooks/useModalManager/useModalManager.ts:46-131 | any sequence of calls of the during-close manager as written keeps the layout and the CLOSING run |
| ManagerAsWritten.AsWrittenKeepsLayout | src/hooks/useModalManager/useModalManager.ts:46-131 | from an empty during-close manager as written, after any calls, the published list is the on-screen instances' snapshots in registry order and every instance on screen but the last is CLOSING |
| ManagerRuns.AsWrittenStalls | src/hooks/useModalManager/useModalManager.ts:100-105 | as written, after those calls B stays PENDING with nothing on screen, neither `close()` nor `close(B)` changes that, and the invariant is broken |
| ManagerRuns.CorrectedOpensB | src/hooks/useModalManager/useModalManager.ts:100-105 | with the corrected admission, B ends OPENED and is the one published entry |
| ManagerScenarios.OpenWhileOneShown | src/hooks/useModalManager/useModalManager.ts:100-105 | in either queue mode, `open` while one OPENED instance is registered registers the new one PENDING and publishes nothing |
| ManagerScenarios.AddDelayerToFirst | src/hooks/useModalManager/ModalInstance.ts:44-46 | a delayer added to the first of two instances changes only that instance's delayer |
| ManagerScenarios.AdvanceToLast | src/hooks/useModalManager/useModalManager.ts:55-61 | when only the last registered instance is PENDING, advance opens it and appends its snapshot |
| ManagerScenarios.CloseFirstUnheld | src/hooks/useModalManager/useModalManager.ts:116-124 | `close()` on an unheld first instance runs `onCloseStart` then `onClosed` for it |
| ManagerScenarios.CloseFirstAfterCloseHooks | src/hooks/useModalManager/useModalManager.ts:82-87 | in after-close mode, that close first publishes the CLOSING snapshot and then runs `onClosed` |
| ManagerScenarios.CloseStartOfFirst | src/hooks/useModalManager/useModalManager.ts:82-94 | in after-close mode, `onCloseStart` only refreshes the first instance's published entry to CLOSING |
| ManagerScenarios.CloseFirstAfterClose | src/tests/ModalQueueAfterClose.test.tsx:29-36 | after-close: `close()` removes the first modal, and the second becomes OPENED and is the one published entry |
| ManagerScenarios.ClosedFirstLeavesSecond | src/hooks/useModalManager/useModalManager.ts:66-77 | after-close: `onClosed` of the first instance leaves the second alone, unpublished, then advances |
| ManagerScenarios.CloseFirstHeld | src/hooks/useModalManager/useModalManager.ts:110-125 | `close()` on a held first instance makes it CLOSING and runs only `onCloseStart` |
| ManagerScenarios.CloseFirstDuringClose | src/hooks/useModalManager/useModalManager.ts:88-93 | during-close: closing the held first instance shows it CLOSING and opens the second beside it |
| ManagerScenarios.RefreshFirstHeld | src/hooks/useModalManager/useModalManager.ts:82-94 | during-close: `onCloseStart` refreshes the first entry to CLOSING and then advances the queue |
| ManagerScenarios.MultipleOpensBoth | src/tests/ModalMultiple.test.tsx:12-25 | in `multiple` mode, two `open` calls show both instances OPENED, in order |
| ManagerScenarios.OpenSecondShown | src/tests/ModalMultiple.test.tsx:19-25 | in `multiple` mode, the second `open` shows the second instance beside the first |
| ManagerScenarios.HoldThenCloseFirst | src/tests/ModalQueueDuringClose.test.tsx:39-43 | during-close: holding the first modal and closing it shows it CLOSING and the second OPENED |
| ManagerScenarios.ReleaseFirstOfTwo | src/tests/ModalQueueDuringClose.test.tsx:45-48 | during-close: releasing the first modal's delayer removes it and leaves the second shown alone |
| ManagerScenarios.MultipleShowsBoth | src/tests/ModalMultiple.test.tsx:5-25 | the manager class in `multiple` mode publishes both opened modals |
| ManagerScenarios.OpenTwoInQueue | src/tests/ModalQueueAfterClose.test.tsx:13-27 | the manager class in a queue: after two `open` calls the first is OPENED and published, and the second is registered and PENDING |
| ManagerScenarios.QueueAfterClose | src/tests/ModalQueueAfterClose.test.tsx:5-36 | the manager class in after-close mode shows the first modal, then after `close()` only the second |
| ManagerScenarios.HoldAndCloseFirst | src/tests/ModalQueueDuringClose.test.tsx:39-43 | the manager class in during-close mode: a delayer on the first modal, then `close()`, shows it CLOSING and the second OPENED |
| ManagerScenarios.QueueDuringClose | src/tests/ModalQueueDuringClose.test.tsx:14-48 | the manager class in during-close mode shows both modals while the first is held closing, then only the second after the release |
| ManagerScenarios.ReleaseFirst | src/tests/ModalQueueDuringClose.test.tsx:45-48 | the manager class: removing the held modal's delayer unmounts it and leaves the second shown |
| Manager.ModalManager.constructor | src/hooks/useModalManager/useModalManager.ts:39-44 | a new manager has an empty registry and publishes an empty list, and the invariant holds |
| Manager.ModalManager.GetFirstInQueue | src/hooks/useModalManager/useModalManager.ts:55-61 | the loop over the registry returns exactly `FirstInQueue`: the first PENDING instance in insertion order, or none |
| Manager.ModalManager.OpenInstance | src/hooks/useModalManager/useModalManager.ts:104 | `instance.open()` and its `onOpen` hook, as `ManagerModel.OpenInstance` |
| Manager.ModalManager.Advance | src/hooks/useModalManager/useModalManager.ts:76 | `getFirstInQueue()?.open()`, as `AdvanceQueue` |
| Manager.ModalManager.OnOpenHandler | src/hooks/useModalManager/useModalManager.ts:79-81 | `setModals` with the append updater, as `OnOpenHook` |
| Manager.ModalManager.OnCloseStartHandler | src/hooks/useModalManager/useModalManager.ts:82-94 | `setModals` with the refreshing updater, then the during-close advance, as `OnCloseStartHook` |
| Manager.ModalManager.OnClosedHandler | src/hooks/useModalManager/useModalManager.ts:66-78 | `setModals` with the filtering updater, the registry delete, then the after-close advance, as `OnClosedHook` |
| Manager.ModalManager.Handle | src/hooks/useModalManager/useModalManager.ts:65-95 | the manager's hook for one fired event, as `ManagerModel.Handle` |
| Manager.ModalManager.Dispatch | src/hooks/useModalManager/useModalManager.ts:65-95 | the hooks for the events of one instance call, in firing order, as `ManagerModel.Dispatch` |
| Manager.ModalManager.Apply | src/hooks/useModalManager/ModalInstance.ts:44-82 | an instance call on a registered instance and its hooks, as `ApplyToInstance` |
| Manager.ModalManager.Open | src/hooks/useModalManager/useModalManager.ts:46-106 | draws one id, then behaves as `OpenOp`: an unknown key fails and changes nothing else; the invariant is kept |
| Manager.ModalManager.Close | src/hooks/useModalManager/useModalManager.ts:110-127 | `startClose` on the first instance or the named one, if any, as `CloseOp`; the invariant is kept |
| Manager.ModalManager.GetInstanceById | src/hooks/useModalManager/useModalManager.ts:129-131 | returns the registered instance iff the id is registered, and it is never CLOSED |
| Manager.ModalManager.AddCloseDelayer | src/hooks/useModalManager/useModalManager.ts:129-131 | an unknown id yields none and changes nothing; otherwise it returns the counter's next id and behaves as `AddDelayerOp` |
| Manager.ModalManager.RemoveCloseDelayer | src/hooks/useModalManager/ModalInstance.ts:48-50 | as `RemoveDelayerOp`, keeping the invariant |
| Scenarios.ReleaseWithoutDelayers | src/tests/DelayerAccumulator.test.ts:5-19 | with no delayer, `activate` runs the listener exactly once |
| Scenarios.ReleaseAfterEveryDelayer | src/tests/DelayerAccumulator.test.ts:21-46 | with two delayers, the listener has not run after `activate` or after the first `remove`, and has run once after the second |
| Scenarios.ActivatedWithTwoDelayers | src/tests/DelayerAccumulator.test.ts:28-37 | two `add` calls return ids 0 and 1, and `activate` then runs nothing |
| Scenarios.SnapshotOfNewInstance | src/tests/ModalInstance.test.ts:5-25 | a new instance with props `{}` and one with no props have the same PENDING snapshot with `{}` props |
| Scenarios.HooksOfOneInstance | src/tests/ModalInstance.test.ts:41-80 | with all three hooks: `onOpen` once after two `open` calls; `onCloseStart` then `onClosed` on `startClose`; nothing more on repeated `open`/`endClose` |
| Scenarios.OpenTwice | src/tests/ModalInstance.test.ts:56-62 | two `open` calls on a new instance call `onOpen` once, with the OPENED snapshot |
| Scenarios.CloseThenRepeat | src/tests/ModalInstance.test.ts:64-79 | `startClose` with no delayer calls `onCloseStart` then `onClosed`; later `open`/`endClose` calls call nothing |
| Scenarios.SetStateNotifiesSubscriber | src/tests/useEventState.test.ts:8-49 | `getState` is 1, then 2 after `setState(2)`, and the subscriber received one event with detail 2 |
| Scenarios.UnsubscribedAsWrittenStillNotified | src/hooks/useEventState.ts:24-26 | as written, a listener that subscribed and then unsubscribed still receives the next update |
| Scenarios.UnsubscribedNotNotified | src/hooks/useEventState.ts:24-26 | corrected: after `unsubscribe` the listener receives nothing, while another subscriber still receives the update |

## Left out

- React itself is not modelled: hooks (`useRef`, `useCallback`, `useConst`), dependency lists,
  rendering and context. The refs become fields of the classes, and the callbacks become methods.
- `generateId` (`src/helpers/generateId`) is not part of this model. It is an `IdSource` counter
  that modal ids and delayer ids share, and only its freshness is relied on.
- `EventTarget` and `CustomEvent` become a sequence of listener ids (`addEventListener` ignores a
  listener already present) and a log of deliveries. What a listener does with an event is not
  modelled.
- Callbacks passed in by callers are logged, not run: listener calls, hook calls and deliveries.
  Only the callbacks inside the core run: the manager's three hooks and the close delayer's
  `endClose` listener.
- Re-entrancy is not modelled: a listener that calls back into the same accumulator while it runs
  (`isExecuted` is set only after the listeners, `DelayerAccumulator.ts:32-33`). The at-most-once
  results hold for listeners that do not re-enter.
- The manager holds each instance as an `Instance` record (id, element, key, props and
  `InstanceModel`) in its ordered map, not as a shared `ModalInstance` object. Aliasing is
  therefore not modelled:
  - the object `getInstanceById` hands out is not shared with the manager; delayer calls go
    through `ModalManager.AddCloseDelayer` / `RemoveCloseDelayer`;
  - start-close listeners on manager-held instances are not modelled;
  - calls made on an instance after it has left the registry are not modelled.

  The `ModalInstance` class is modelled on its own, with all its fields.
- Instances.ModalInstance.StartClose: the `onCloseStart` call, the start-close listener calls and
  the delayer activation go to separate logs. Each log is exact, but their interleaving
  (hook, then listeners, then activation) is not recorded.
- Instances.ModalInstance.EndClose: its precondition asks only that the close delayer is in a state
  the operations can reach (`InstanceConsistent` of the CLOSED instance), which every instance
  satisfies.
- Elements and props are opaque type parameters. Props are a `map<string, V>`, and `{}` is the
  empty map.
- The exception `open` throws for an unknown key is the result `Fail(ModalNotFound(key))`. As in
  the source, the id is drawn before the check.
- The `useEventState` overload without an initial value (state `T | undefined`) is not modelled
  separately; it is the same cell over an optional type.
- Manager.ModalManager.Open: the manager class uses the corrected admission rule of the first
  finding. The rule as written is `ManagerModel.AdmitsAsWritten`; its runs are covered by
  `ManagerAsWritten`, and the stalling run by `ManagerRuns.AsWrittenStalls`.
- ManagerInvariants.OpenKeepsInv: stated for the corrected admission rule. For the rule as written,
  see `ManagerAsWritten.OpenAgree` (outside during-close) and `OpenKeepsQueueInv` (during-close).
- ManagerInvariants.OpenRegisteredKeepsInv: stated for the corrected admission rule. As written, in
  during-close mode, the invariant can break when a new instance is registered.
- ManagerInvariants.WaitingKeepsInv: stated for the corrected admission rule. As written, in
  during-close mode, an instance can wait while every instance on screen is CLOSING. That breaks
  `Inv`, and only `ManagerAsWritten.QueueInv` holds.
- ManagerInvariants.NotAdmittedWaits: stated for the corrected admission rule. As written, in
  during-close mode, a new instance also waits when no OPENED instance is shown.
- ManagerRuns.StepKeepsInv: stated for the corrected admission rule. For the rule as written, see
  `ManagerAsWritten.StepKeepsQueueInv` and `RunAgree`.
- ManagerRuns.RunKeepsInv: stated for the corrected admission rule. As written it holds outside
  during-close mode (`ManagerAsWritten.RunAsWrittenKeepsInv`). In during-close mode only the weaker
  `QueueInv` holds (`ManagerAsWritten.RunKeepsQueueInv`).
- ManagerRuns.NeverStalls: stated for the corrected admission rule. As written it holds in
  `multiple` and after-close mode (`ManagerAsWritten.NeverStallsAsWritten`). In during-close mode
  the engine can stall (`ManagerRuns.AsWrittenStalls`). Only the layout and the CLOSING run survive
  there (`ManagerAsWritten.AsWrittenKeepsLayout`).
- EventStates.EventStateProvider.Unsubscribe: this is the corrected `unsubscribe` of the second
  finding. The call as written is `UnsubscribeAsWritten`.
- Modal ids and delayer ids are unbounded integers; JavaScript number precision is not modelled.

## Findings

| source | as written | input that shows it | evidently intended | confidence | as-written member | corrected member |
|---|---|---|---|---|---|---|
| src/hooks/useModalManager/useModalManager.ts:100-105 | in a queue, a new instance opens only when it is the sole registered instance | `during-close`: `open(k)` (A), add a delayer to A, `close(A)`, `open(k)` (B), remove A's delayer. B stays PENDING with nothing on screen. `onClosed` advances only in after-close mode, and `close()` on a PENDING instance does nothing, so B is never shown | in during-close mode, a new instance opens when every other registered instance is CLOSING, as if the `onCloseStart` advance had found it waiting | medium; not executed | ManagerRuns.AsWrittenStalls | ManagerRuns.CorrectedOpensB |
| src/hooks/useEventState.ts:24-26 | `unsubscribe` calls `addEventListener` | `subscribe(l)`, `unsubscribe(l)`, `setState(2)`: l still receives the event | `unsubscribe` calls `removeEventListener`, so l receives nothing | high; not executed | EventStates.EventStateProvider.UnsubscribeAsWritten | EventStates.EventStateProvider.Unsubscribe |
