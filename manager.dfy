/**
 * The manager `useModalManager.ts` builds: the registry of instances
 * (`modalInstancesRef.current`, a `Map` in insertion order), the published
 * snapshot list behind `useEventState`, and the callbacks `open`, `close` and
 * `getInstanceById`, with the delayer calls a consumer makes through
 * `getInstanceById(id)?.addCloseDelayer()` / `removeCloseDelayer(...)`.
 *
 * Each method is proved against the function of `ManagerModel` that
 * specifies it, and keeps `Valid()`, which carries the invariant of
 * `ManagerInvariants`. The hooks the manager installs on every instance are
 * the methods `OnOpenHandler`, `OnCloseStartHandler` and `OnClosedHandler`, each writing the
 * published list through `setModals` with an updater.
 */
module Manager {
  import opened Optional
  import opened Instances
  import opened OrderedMaps
  import opened EventStates
  import opened Ids
  import opened ManagerModel
  import opened ManagerLayout
  import opened ManagerInvariants
  import opened ManagerRuns

  class ModalManager<K(==), E, V> {
    /** `options.modals`: the modal window for each key. */
    const modalWindows: map<K, E>
    /** `type` and `appearenceMode`. */
    const policy: Policy
    /** Where `generateId` draws from; the same counter hands out delayer ids. */
    const ids: IdSource
    /** `modalInstancesRef.current`. */
    var instances: OrderedMap<int, Instance<K, E, V>>
    /** `useEventState<IModalState[]>([])`: the published list, its setter and its provider. */
    const modals: EventState<seq<ModalState<K, E, V>>>

    /** The registry and the published list, as the functions of `ManagerModel` see them. */
    function Model(): State<K, E, V>
      reads this, modals, modals.state, modals.eventProvider
    {
      State(instances, modals.GetState())
    }

    ghost predicate Valid()
      reads this, ids, modals, modals.state, modals.eventProvider
    {
      && modals.Valid()
      && Inv(policy, Model())
      && IdsBelow(Model(), ids.next)
    }

    constructor (modalWindows: map<K, E>, policy: Policy, ids: IdSource)
      ensures Valid() && Model() == EmptyState()
      ensures this.modalWindows == modalWindows && this.policy == policy && this.ids == ids
      ensures fresh(modals) && fresh(modals.state) && fresh(modals.eventProvider)
      ensures modals.eventProvider.subscribers == [] && modals.eventProvider.deliveries == []
    {
      this.modalWindows := modalWindows;
      this.policy := policy;
      this.ids := ids;
      instances := Empty();
      modals := new EventState([]);
      new;
      EmptyInv<K, E, V>(policy);
    }

    /** `getFirstInQueue()`: walks the registry in insertion order to the first PENDING instance. */
    method GetFirstInQueue() returns (r: Option<int>)
      requires OrderedMaps.Valid(instances)
      ensures r == FirstInQueue(instances)
    {
      var i := 0;
      while i < |instances.keys|
        invariant 0 <= i <= |instances.keys|
        invariant forall j :: 0 <= j < i ==> instances.entries[instances.keys[j]].model.state != PENDING
        invariant FirstPendingFrom(instances, i) == FirstPendingIndex(instances)
      {
        if instances.entries[instances.keys[i]].model.state == PENDING {
          return Some(instances.keys[i]);
        }
        i := i + 1;
      }
      return None;
    }

    /** `instance.open()` on a registered instance; its `onOpen` hook runs if it fires. */
    method OpenInstance(id: int)
      requires modals.Valid() && OrderedMaps.Valid(instances) && id in instances.entries
      modifies this, modals.state, modals.eventProvider`deliveries
      ensures modals.Valid() && OrderedMaps.Valid(instances)
      ensures Model() == ManagerModel.OpenInstance(old(Model()), id)
    {
      var inst := instances.entries[id];
      var (m, es) := OpenStep(inst.model);
      var inst' := inst.(model := m);
      instances := Set(instances, id, inst');
      if es != [] {
        OnOpenHandler(SnapshotAt(inst', OPENED));
      }
    }

    /** `getFirstInQueue()?.open()`. */
    method Advance()
      requires modals.Valid() && OrderedMaps.Valid(instances)
      modifies this, modals.state, modals.eventProvider`deliveries
      ensures modals.Valid() && OrderedMaps.Valid(instances)
      ensures Model() == AdvanceQueue(old(Model()))
    {
      var q := GetFirstInQueue();
      if q.Some? {
        OpenInstance(q.value);
      }
    }

    /** The `onOpen` hook: `setModals((modals) => [...modals, instance.toState()])`. */
    method OnOpenHandler(snap: ModalState<K, E, V>)
      requires modals.Valid()
      modifies modals.state, modals.eventProvider`deliveries
      ensures modals.Valid()
      ensures Model() == OnOpenHook(old(Model()), snap)
    {
      modals.SetState(Updater(ms => ms + [snap]));
    }

    /** The `onCloseStart` hook: refresh the instance's entry; in during-close mode, advance the queue. */
    method OnCloseStartHandler(snap: ModalState<K, E, V>)
      requires modals.Valid() && OrderedMaps.Valid(instances)
      modifies this, modals.state, modals.eventProvider`deliveries
      ensures modals.Valid() && OrderedMaps.Valid(instances)
      ensures Model() == OnCloseStartHook(policy, old(Model()), snap)
    {
      modals.SetState(Updater(ms => Refreshed(ms, snap)));
      if policy == Queue(DuringClose) {
        Advance();
      }
    }

    /** The `onClosed` hook: drop the entry, delete the instance; in after-close mode, advance the queue. */
    method OnClosedHandler(id: int)
      requires modals.Valid() && OrderedMaps.Valid(instances)
      modifies this, modals.state, modals.eventProvider`deliveries
      ensures modals.Valid() && OrderedMaps.Valid(instances)
      ensures Model() == OnClosedHook(policy, old(Model()), id)
    {
      modals.SetState(Updater(ms => WithoutId(ms, id)));
      instances := Delete(instances, id);
      if policy == Queue(AfterClose) {
        Advance();
      }
    }

    /** The hook for event `e` of `inst`, run while `inst` is in state `e.at`. */
    method Handle(inst: Instance<K, E, V>, e: HookEvent)
      requires modals.Valid() && OrderedMaps.Valid(instances)
      modifies this, modals.state, modals.eventProvider`deliveries
      ensures modals.Valid() && OrderedMaps.Valid(instances)
      ensures Model() == ManagerModel.Handle(policy, old(Model()), inst, e)
    {
      var now := inst.(model := inst.model.(state := e.at));
      if inst.id in instances.entries {
        instances := Set(instances, inst.id, now);
      }
      match e.hook {
        case OnOpen => OnOpenHandler(SnapshotAt(inst, e.at));
        case OnCloseStart => OnCloseStartHandler(SnapshotAt(inst, e.at));
        case OnClosed => OnClosedHandler(inst.id);
      }
    }

    /** The hooks for the events an instance operation fired, in the order it fired them. */
    method Dispatch(inst: Instance<K, E, V>, es: seq<HookEvent>)
      requires modals.Valid() && OrderedMaps.Valid(instances)
      modifies this, modals.state, modals.eventProvider`deliveries
      ensures modals.Valid() && OrderedMaps.Valid(instances)
      ensures Model() == ManagerModel.Dispatch(policy, old(Model()), inst, es)
      decreases |es|
    {
      if es != [] {
        Handle(inst, es[0]);
        Dispatch(inst, es[1..]);
      }
    }

    /** An instance operation on registered instance `id`, and the hooks it fires. */
    method Apply(id: int, op: InstanceOp)
      requires modals.Valid() && OrderedMaps.Valid(instances) && id in instances.entries
      modifies this, modals.state, modals.eventProvider`deliveries
      ensures modals.Valid() && OrderedMaps.Valid(instances)
      ensures Model() == ApplyToInstance(policy, old(Model()), id, op)
    {
      var inst := instances.entries[id];
      var step := InstanceStep(inst.model, op);
      var inst' := inst.(model := step.0);
      instances := Set(instances, id, inst');
      Dispatch(inst', step.1);
    }

    /**
     * `open(key, options)`: draws an id first; an unknown key is an error that
     * changes nothing else; otherwise the new instance is registered and opened
     * if the policy admits it.
     */
    method Open(key: K, props: Option<map<string, V>>) returns (out: Outcome<OpenError<K>>)
      requires Valid()
      modifies this, ids, modals.state, modals.eventProvider`deliveries
      ensures Valid()
      ensures ids.next == old(ids.next) + 1
      ensures (out, Model()) == OpenOp(policy, modalWindows, old(Model()), old(ids.next), key, props)
    {
      ghost var s0 := Model();
      ghost var n0 := ids.next;
      var id := ids.Generate();
      if key !in modalWindows {
        return Fail(ModalNotFound(key));
      }
      var instance := NewInstance(modalWindows, id, key, props);
      instances := Set(instances, id, instance);
      if Admits(policy, instances, id) {
        OpenInstance(id);
      }
      out := Pass;
      StepKeepsInv(policy, modalWindows, s0, n0, OpenModal(key, props));
    }

    /** `close(id?)`: `startClose` on the first registered instance, or on the one with that id, if any. */
    method Close(id: Option<int>)
      requires Valid()
      modifies this, modals.state, modals.eventProvider`deliveries
      ensures Valid()
      ensures Model() == CloseOp(policy, old(Model()), id)
    {
      ghost var s0 := Model();
      var modal := if id.None? then GetFirstMapElement(instances) else Get(instances, id.value);
      if modal.None? {
        return;
      }
      ghost var t := CloseTarget(s0, id).value;
      assert instances.entries[t] == modal.value && modal.value.id == t by {
        var i := PositionOf(s0, t);
      }
      Apply(modal.value.id, StartClose);
      StepKeepsInv(policy, modalWindows, s0, ids.next, CloseModal(id));
    }

    /** `getInstanceById(id)`: the registered instance with that id, if any; it is never closed. */
    method GetInstanceById(id: int) returns (r: Option<Instance<K, E, V>>)
      requires Valid()
      ensures r.Some? <==> id in instances.entries
      ensures r.Some? ==> r.value == instances.entries[id] && r.value.id == id && r.value.model.state != CLOSED
    {
      r := Get(instances, id);
      if r.Some? {
        var i := PositionOf(Model(), id);
      }
    }

    /** `getInstanceById(id)?.addCloseDelayer()`: the new delayer id, or none for an unknown instance. */
    method AddCloseDelayer(id: int) returns (delayerId: Option<int>)
      requires Valid()
      modifies this, ids, modals.state, modals.eventProvider`deliveries
      ensures Valid()
      ensures id !in old(instances.entries) ==> delayerId == None && ids.next == old(ids.next)
      ensures id in old(instances.entries) ==> delayerId == Some(old(ids.next)) && ids.next == old(ids.next) + 1
      ensures Model() == if delayerId.Some? then AddDelayerOp(policy, old(Model()), id, delayerId.value) else old(Model())
    {
      ghost var s0 := Model();
      if id !in instances.entries {
        return None;
      }
      var d := ids.Generate();
      Apply(id, Instances.AddCloseDelayer(d));
      StepKeepsInv(policy, modalWindows, s0, d, AddDelayer(id, d));
      delayerId := Some(d);
    }

    /** `getInstanceById(id)?.removeCloseDelayer(delayerId)`. */
    method RemoveCloseDelayer(id: int, delayerId: int)
      requires Valid()
      modifies this, modals.state, modals.eventProvider`deliveries
      ensures Valid()
      ensures Model() == RemoveDelayerOp(policy, old(Model()), id, delayerId)
    {
      ghost var s0 := Model();
      if id in instances.entries {
        Apply(id, Instances.RemoveCloseDelayer(delayerId));
      }
      StepKeepsInv(policy, modalWindows, s0, ids.next, RemoveDelayer(id, delayerId));
    }
  }
}
