/**
 * The orchestration logic of `useModalManager.ts`, as functions of the
 * manager's state: the registry of live instances (a `Map` from modal id to
 * instance, in insertion order) and the published list of snapshots (the
 * value `setModals` maintains).
 *
 * The manager gives every instance it creates all three hooks. An instance
 * operation here is the instance's step function (from `Instances`) followed
 * by the manager's handler for each hook the step fired, in order; while a
 * handler runs, the instance is in the lifecycle state the hook fired at.
 * The class `ModalManager` in module `Manager` is proved against these
 * functions.
 */
module ManagerModel {
  import opened Optional
  import opened Listeners
  import opened Delayers
  import opened Instances
  import opened OrderedMaps

  /** `AppearenceMode`: when a queue shows its next modal. */
  datatype AppearanceMode = AfterClose | DuringClose

  /** `LifecycleOptionsVariants`: `multiple`, or `queue` with its appearance mode. */
  datatype Policy = Multiple | Queue(mode: AppearanceMode)

  /** The configuration `ModalWindowsProvider` supplies when none is given. */
  const DefaultPolicy: Policy := Queue(AfterClose)

  /** A `ModalInstance` as the manager holds it: identity, element, resolved props, lifecycle. */
  datatype Instance<K, E, V> = Instance(id: int, element: E, key: K, props: map<string, V>, model: InstanceModel)

  /** The error `open` throws for a key with no modal window. */
  datatype OpenError<K> = ModalNotFound(key: K)

  /** The manager's state: the registry and the published snapshot list. */
  datatype State<K, E, V> = State(instances: OrderedMap<int, Instance<K, E, V>>, published: seq<ModalState<K, E, V>>)

  function EmptyState<K, E, V>(): State<K, E, V>
  {
    State(Empty(), [])
  }

  /** The `props` getter: `props ?? {}`. */
  function PropsOrEmpty<V>(props: Option<map<string, V>>): (r: map<string, V>)
    ensures props.None? ==> r == map[]
    ensures props.Some? ==> r == props.value
  {
    if props.Some? then props.value else map[]
  }

  /** `toState()` of an instance that is in lifecycle state `s`. */
  function SnapshotAt<K, E, V>(inst: Instance<K, E, V>, s: LifecycleState): ModalState<K, E, V>
  {
    ModalState(inst.id, inst.element, inst.key, inst.props, s)
  }

  function ToState<K, E, V>(inst: Instance<K, E, V>): ModalState<K, E, V>
  {
    SnapshotAt(inst, inst.model.state)
  }

  /** A modal on screen: opened, or closing but not yet closed. */
  predicate Visible(s: LifecycleState)
  {
    s == OPENED || s == CLOSING
  }

  // ---------------------------------------------------------------------
  // The list transforms `setModals` is given

  /** `modals.filter((modal) => modal.id !== id)`. */
  function WithoutId<K, E, V>(ms: seq<ModalState<K, E, V>>, id: int): (r: seq<ModalState<K, E, V>>)
    ensures forall i :: 0 <= i < |r| ==> r[i].id != id
    ensures |r| <= |ms|
    ensures (forall i :: 0 <= i < |ms| ==> ms[i].id != id) ==> r == ms
  {
    if ms == [] then []
    else if ms[0].id == id then WithoutId(ms[1..], id)
    else [ms[0]] + WithoutId(ms[1..], id)
  }

  /** Dropping position `k > 0` keeps the head and drops position `k - 1` of the tail. */
  lemma DropAfterHead<T>(ms: seq<T>, k: nat)
    requires 0 < k < |ms|
    ensures ms[..k] + ms[k + 1..] == [ms[0]] + (ms[1..][..k - 1] + ms[1..][k..])
  {
    assert ms[..k] == [ms[0]] + ms[1..][..k - 1];
    assert ms[k + 1..] == ms[1..][k..];
  }

  /** When `id` occurs only at the head, the filter drops the head. */
  lemma WithoutIdHead<K, E, V>(ms: seq<ModalState<K, E, V>>, id: int)
    requires ms != [] && ms[0].id == id
    requires forall j :: 1 <= j < |ms| ==> ms[j].id != id
    ensures WithoutId(ms, id) == ms[1..]
  {
    var tail := ms[1..];
    forall j | 0 <= j < |tail|
      ensures tail[j].id != id
    {
      assert tail[j] == ms[j + 1];
    }
  }

  /** When `id` occurs once, at position `k`, the filter deletes exactly that position. */
  lemma {:induction false} WithoutIdAt<K, E, V>(ms: seq<ModalState<K, E, V>>, id: int, k: nat)
    requires k < |ms| && ms[k].id == id
    requires forall j :: 0 <= j < |ms| && j != k ==> ms[j].id != id
    ensures WithoutId(ms, id) == ms[..k] + ms[k + 1..]
  {
    var tail := ms[1..];
    if k == 0 {
      WithoutIdHead(ms, id);
      assert ms[..0] + ms[1..] == tail;
    } else {
      forall j | 0 <= j < |tail| && j != k - 1
        ensures tail[j].id != id
      {
        assert tail[j] == ms[j + 1];
      }
      WithoutIdAt(tail, id, k - 1);
      DropAfterHead(ms, k);
    }
  }

  /** `modals.map((modal) => modal.id === snap.id ? snap : modal)`. */
  function Refreshed<K, E, V>(ms: seq<ModalState<K, E, V>>, snap: ModalState<K, E, V>): (r: seq<ModalState<K, E, V>>)
    ensures |r| == |ms|
    ensures forall i :: 0 <= i < |ms| && ms[i].id == snap.id ==> r[i] == snap
    ensures forall i :: 0 <= i < |ms| && ms[i].id != snap.id ==> r[i] == ms[i]
  {
    seq(|ms|, i requires 0 <= i < |ms| => if ms[i].id == snap.id then snap else ms[i])
  }

  /**
   * The `onCloseStart` refresh on a list where the snapshot's id sits at
   * position `k` alone replaces exactly that entry; on a list without the id
   * it changes nothing; and refreshing twice with the same snapshot is
   * refreshing once.
   */
  lemma RefreshedAt<K, E, V>(ms: seq<ModalState<K, E, V>>, snap: ModalState<K, E, V>, k: nat)
    ensures k < |ms| && ms[k].id == snap.id && (forall j :: 0 <= j < |ms| && j != k ==> ms[j].id != snap.id) ==>
      Refreshed(ms, snap) == ms[k := snap]
    ensures (forall j :: 0 <= j < |ms| ==> ms[j].id != snap.id) ==> Refreshed(ms, snap) == ms
    ensures Refreshed(Refreshed(ms, snap), snap) == Refreshed(ms, snap)
  {
  }

  // ---------------------------------------------------------------------
  // Queue advance

  /** The position of the first PENDING instance in registry order (`|keys|` when there is none). */
  function FirstPendingIndex<K, E, V>(m: OrderedMap<int, Instance<K, E, V>>): (r: nat)
    requires Valid(m)
    ensures r <= |m.keys|
    ensures forall j :: 0 <= j < r ==> m.entries[m.keys[j]].model.state != PENDING
    ensures r < |m.keys| ==> m.entries[m.keys[r]].model.state == PENDING
  {
    FirstPendingFrom(m, 0)
  }

  function FirstPendingFrom<K, E, V>(m: OrderedMap<int, Instance<K, E, V>>, from: nat): (r: nat)
    requires Valid(m) && from <= |m.keys|
    requires forall j :: 0 <= j < from ==> m.entries[m.keys[j]].model.state != PENDING
    ensures from <= r <= |m.keys|
    ensures forall j :: 0 <= j < r ==> m.entries[m.keys[j]].model.state != PENDING
    ensures r < |m.keys| ==> m.entries[m.keys[r]].model.state == PENDING
    decreases |m.keys| - from
  {
    if from == |m.keys| then from
    else if m.entries[m.keys[from]].model.state == PENDING then from
    else FirstPendingFrom(m, from + 1)
  }

  /** `getFirstInQueue()`: the id of the first PENDING instance in registry order, if any. */
  function FirstInQueue<K, E, V>(m: OrderedMap<int, Instance<K, E, V>>): (r: Option<int>)
    requires Valid(m)
    ensures r.Some? ==> r.value in m.entries && m.entries[r.value].model.state == PENDING
    ensures r.None? ==> forall k :: k in m.entries ==> m.entries[k].model.state != PENDING
  {
    var i := FirstPendingIndex(m);
    if i < |m.keys| then Some(m.keys[i])
    else
      assert forall k :: k in m.entries ==> exists j :: 0 <= j < |m.keys| && m.keys[j] == k;
      None
  }

  /** `instance.open()` on a registered instance, with the `onOpen` handler for the hook it fires. */
  function OpenInstance<K, E, V>(s: State<K, E, V>, id: int): (r: State<K, E, V>)
    requires Valid(s.instances) && id in s.instances.entries
    ensures Valid(r.instances) && r.instances.keys == s.instances.keys
  {
    var inst := s.instances.entries[id];
    var (m, es) := OpenStep(inst.model);
    var inst' := inst.(model := m);
    var s1 := s.(instances := Set(s.instances, id, inst'));
    if es == [] then s1 else OnOpenHook(s1, SnapshotAt(inst', OPENED))
  }

  /** `getFirstInQueue()?.open()`. */
  function AdvanceQueue<K, E, V>(s: State<K, E, V>): (r: State<K, E, V>)
    requires Valid(s.instances)
    ensures Valid(r.instances) && r.instances.keys == s.instances.keys
  {
    var q := FirstInQueue(s.instances);
    if q.None? then s else OpenInstance(s, q.value)
  }

  // ---------------------------------------------------------------------
  // The three hooks the manager installs

  /** `onOpen`: the snapshot is appended to the published list. */
  function OnOpenHook<K, E, V>(s: State<K, E, V>, snap: ModalState<K, E, V>): (r: State<K, E, V>)
    ensures r.instances == s.instances && r.published == s.published + [snap]
  {
    s.(published := s.published + [snap])
  }

  /** `onCloseStart`: the published entry with this id is refreshed; in queue during-close mode the queue advances. */
  function OnCloseStartHook<K, E, V>(policy: Policy, s: State<K, E, V>, snap: ModalState<K, E, V>): (r: State<K, E, V>)
    requires Valid(s.instances)
    ensures Valid(r.instances) && r.instances.keys == s.instances.keys
    ensures policy != Queue(DuringClose) ==> r == s.(published := Refreshed(s.published, snap))
  {
    var s1 := s.(published := Refreshed(s.published, snap));
    if policy == Queue(DuringClose) then AdvanceQueue(s1) else s1
  }

  /**
   * `onClosed`: the id leaves the published list and the registry; in queue
   * after-close mode the queue advances.
   */
  function OnClosedHook<K, E, V>(policy: Policy, s: State<K, E, V>, id: int): (r: State<K, E, V>)
    requires Valid(s.instances)
    ensures Valid(r.instances) && r.instances.keys == Removed(s.instances.keys, id)
    ensures id !in r.instances.entries
    ensures policy != Queue(AfterClose) ==> r == State(Delete(s.instances, id), WithoutId(s.published, id))
  {
    var s1 := State(Delete(s.instances, id), WithoutId(s.published, id));
    if policy == Queue(AfterClose) then AdvanceQueue(s1) else s1
  }

  /** The manager's handler for hook event `e` of instance `inst`, which is in state `e.at` while it runs. */
  function Handle<K, E, V>(policy: Policy, s: State<K, E, V>, inst: Instance<K, E, V>, e: HookEvent): (r: State<K, E, V>)
    requires Valid(s.instances)
    ensures Valid(r.instances)
    ensures forall k :: k in r.instances.entries ==> k in s.instances.entries
  {
    var now := inst.(model := inst.model.(state := e.at));
    var s1 := if inst.id in s.instances.entries then s.(instances := Set(s.instances, inst.id, now)) else s;
    match e.hook
    case OnOpen => OnOpenHook(s1, SnapshotAt(inst, e.at))
    case OnCloseStart => OnCloseStartHook(policy, s1, SnapshotAt(inst, e.at))
    case OnClosed => OnClosedHook(policy, s1, inst.id)
  }

  /** The handlers for the events `es`, in order. */
  function Dispatch<K, E, V>(policy: Policy, s: State<K, E, V>, inst: Instance<K, E, V>, es: seq<HookEvent>): (r: State<K, E, V>)
    requires Valid(s.instances)
    ensures Valid(r.instances)
    ensures forall k :: k in r.instances.entries ==> k in s.instances.entries
    decreases |es|
  {
    if es == [] then s else Dispatch(policy, Handle(policy, s, inst, es[0]), inst, es[1..])
  }

  /** Handling a single event is running its handler. */
  lemma DispatchOne<K, E, V>(policy: Policy, s: State<K, E, V>, inst: Instance<K, E, V>, e: HookEvent)
    requires Valid(s.instances)
    ensures Dispatch(policy, s, inst, [e]) == Handle(policy, s, inst, e)
  {
    assert [e][1..] == [];
  }

  /** Handling two events runs their handlers in order. */
  lemma DispatchTwo<K, E, V>(policy: Policy, s: State<K, E, V>, inst: Instance<K, E, V>, e0: HookEvent, e1: HookEvent)
    requires Valid(s.instances)
    ensures Dispatch(policy, s, inst, [e0, e1]) == Handle(policy, Handle(policy, s, inst, e0), inst, e1)
  {
    assert [e0, e1][1..] == [e1];
    DispatchOne(policy, Handle(policy, s, inst, e0), inst, e1);
  }

  /** An instance operation on registered instance `id`, followed by the handlers for the hooks it fired. */
  function ApplyToInstance<K, E, V>(policy: Policy, s: State<K, E, V>, id: int, op: InstanceOp): (r: State<K, E, V>)
    requires Valid(s.instances) && id in s.instances.entries
    ensures Valid(r.instances)
    ensures forall k :: k in r.instances.entries ==> k in s.instances.entries
  {
    var inst := s.instances.entries[id];
    var step := InstanceStep(inst.model, op);
    var inst' := inst.(model := step.0);
    Dispatch(policy, s.(instances := Set(s.instances, id, inst')), inst', step.1)
  }

  // ---------------------------------------------------------------------
  // The manager's public operations

  /**
   * Admission of a newly registered instance `id`, as evidently intended:
   * always in `multiple` mode; in after-close mode only when it is the sole
   * instance; in during-close mode when every other instance is closing.
   */
  predicate Admits<K, E, V>(policy: Policy, m: OrderedMap<int, Instance<K, E, V>>, id: int)
  {
    match policy
    case Multiple => true
    case Queue(AfterClose) => Size(m) == 1
    case Queue(DuringClose) => forall k :: k in m.entries && k != id ==> m.entries[k].model.state == CLOSING
  }

  /** Admission as written: the instance opens when it is the only one registered, or in `multiple` mode. */
  predicate AdmitsAsWritten<K, E, V>(policy: Policy, m: OrderedMap<int, Instance<K, E, V>>)
  {
    Size(m) == 1 || policy == Multiple
  }

  /** The instance `open(key, options)` constructs, with the id `generateId` returned. */
  function NewInstance<K(==), E, V>(windows: map<K, E>, id: int, key: K, props: Option<map<string, V>>): Instance<K, E, V>
    requires key in windows
  {
    Instance(id, windows[key], key, PropsOrEmpty(props), InitialInstance)
  }

  /**
   * `open(key, options)` with the admission rule `admit`: an unknown key is an
   * error that leaves the state alone; otherwise the new instance is
   * registered last and opened if admitted.
   */
  function OpenWith<K(==), E, V>(policy: Policy, windows: map<K, E>, s: State<K, E, V>, id: int, key: K,
                                 props: Option<map<string, V>>, asWritten: bool): (r: (Outcome<OpenError<K>>, State<K, E, V>))
    requires Valid(s.instances)
    ensures key !in windows ==> r == (Fail(ModalNotFound(key)), s)
    ensures key in windows ==> r.0 == Pass && Valid(r.1.instances)
  {
    if key !in windows then (Fail(ModalNotFound(key)), s)
    else
      var inst := NewInstance(windows, id, key, props);
      var s1 := s.(instances := Set(s.instances, id, inst));
      var admit := if asWritten then AdmitsAsWritten(policy, s1.instances) else Admits(policy, s1.instances, id);
      (Pass, if admit then OpenInstance(s1, id) else s1)
  }

  /** `open`, with the corrected admission rule. */
  function OpenOp<K(==), E, V>(policy: Policy, windows: map<K, E>, s: State<K, E, V>, id: int, key: K,
                               props: Option<map<string, V>>): (Outcome<OpenError<K>>, State<K, E, V>)
    requires Valid(s.instances)
  {
    OpenWith(policy, windows, s, id, key, props, false)
  }

  /** `open` exactly as written. */
  function OpenOpAsWritten<K(==), E, V>(policy: Policy, windows: map<K, E>, s: State<K, E, V>, id: int, key: K,
                                        props: Option<map<string, V>>): (Outcome<OpenError<K>>, State<K, E, V>)
    requires Valid(s.instances)
  {
    OpenWith(policy, windows, s, id, key, props, true)
  }

  /** The instance `close(id?)` acts on: the first registered one when no id is given, else the one with that id. */
  function CloseTarget<K, E, V>(s: State<K, E, V>, id: Option<int>): (r: Option<int>)
    requires Valid(s.instances)
    ensures r.Some? ==> r.value in s.instances.entries
    ensures id.None? ==> r == FirstKey(s.instances)
    ensures id.Some? ==> (r.Some? <==> id.value in s.instances.entries) && (r.Some? ==> r.value == id.value)
  {
    if id.None? then FirstKey(s.instances)
    else if id.value in s.instances.entries then id
    else None
  }

  /** `close(id?)`: `startClose` on the target, if there is one. */
  function CloseOp<K, E, V>(policy: Policy, s: State<K, E, V>, id: Option<int>): (r: State<K, E, V>)
    requires Valid(s.instances)
    ensures Valid(r.instances)
    ensures forall k :: k in r.instances.entries ==> k in s.instances.entries
    ensures CloseTarget(s, id).None? ==> r == s
  {
    var t := CloseTarget(s, id);
    if t.None? then s else ApplyToInstance(policy, s, t.value, StartClose)
  }

  /** `getInstanceById(id)?.addCloseDelayer()`, the delayer id being `delayerId`. */
  function AddDelayerOp<K, E, V>(policy: Policy, s: State<K, E, V>, id: int, delayerId: int): (r: State<K, E, V>)
    requires Valid(s.instances)
    ensures Valid(r.instances)
    ensures forall k :: k in r.instances.entries ==> k in s.instances.entries
    ensures id !in s.instances.entries ==> r == s
  {
    if id in s.instances.entries then ApplyToInstance(policy, s, id, AddCloseDelayer(delayerId)) else s
  }

  /** `getInstanceById(id)?.removeCloseDelayer(delayerId)`. */
  function RemoveDelayerOp<K, E, V>(policy: Policy, s: State<K, E, V>, id: int, delayerId: int): (r: State<K, E, V>)
    requires Valid(s.instances)
    ensures Valid(r.instances)
    ensures forall k :: k in r.instances.entries ==> k in s.instances.entries
    ensures id !in s.instances.entries ==> r == s
  {
    if id in s.instances.entries then ApplyToInstance(policy, s, id, RemoveCloseDelayer(delayerId)) else s
  }
}
