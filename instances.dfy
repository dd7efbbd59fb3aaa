/**
 * One modal occurrence, as `ModalInstance.ts` defines it: identity, element,
 * props, a four-state lifecycle `PENDING -> OPENED -> CLOSING -> CLOSED`,
 * optional lifecycle hooks, start-close listeners and a close delayer whose
 * release ends the close.
 *
 * `InstanceModel` and its step functions specify the lifecycle part of the
 * class `ModalInstance`; the lemmas about runs of steps state what holds over
 * any sequence of calls. A hook the instance calls is recorded in its
 * `hookCalls` log, with the snapshot (`toState`) the hook would read.
 */
module Instances {
  import opened Optional
  import opened Listeners
  import opened Ids
  import opened Delayers
  import opened Traces

  /** `LifecycleState` of `public-types.ts`. */
  datatype LifecycleState = PENDING | OPENED | CLOSING | CLOSED

  /** The lifecycle order `PENDING < OPENED < CLOSING < CLOSED`. */
  function Rank(s: LifecycleState): nat
  {
    match s
    case PENDING => 0
    case OPENED => 1
    case CLOSING => 2
    case CLOSED => 3
  }

  /** The three optional hooks of `ModalInstanceLifecycleHooks`. */
  datatype Hook = OnOpen | OnCloseStart | OnClosed

  const AllHooks: set<Hook> := {OnOpen, OnCloseStart, OnClosed}

  /** The rank a hook announces reaching: it fires when the state crosses from below it to at or above it. */
  function Threshold(h: Hook): nat
  {
    match h
    case OnOpen => 1
    case OnCloseStart => 2
    case OnClosed => 3
  }

  /** `IModalState`: the snapshot `toState` returns. */
  datatype ModalState<K, E, V> = ModalState(id: int, element: E, key: K, props: map<string, V>, lifecycleState: LifecycleState)

  /**
   * `ModalInstanceOptions`: the hooks supplied (an absent `hooks` object is the
   * empty set) and the `props` of the open request, `None` for `undefined`.
   */
  datatype InstanceOptions<V> = InstanceOptions(hooks: set<Hook>, props: Option<map<string, V>>)

  /** A hook invocation `callback(this)`, with the snapshot of the instance at that moment. */
  datatype HookCall<K, E, V> = HookCall(hook: Hook, instance: ModalState<K, E, V>)

  /** The one listener the constructor gives the close delayer: `() => this.endClose()`. */
  datatype ReleaseListener = EndCloseListener

  /** The lifecycle state of an instance together with its close delayer. */
  datatype InstanceModel = InstanceModel(state: LifecycleState, delayer: DelayerModel)

  const InitialInstance := InstanceModel(PENDING, Delayers.Initial)

  /** A hook an operation fires, and the lifecycle state the instance is in when it fires. */
  datatype HookEvent = HookEvent(hook: Hook, at: LifecycleState)

  /**
   * What every reachable instance satisfies: its delayer is consistent, it was
   * activated only by a close, its release always ended the close, and a
   * CLOSING instance is armed and waiting for an outstanding delayer.
   */
  predicate InstanceConsistent(m: InstanceModel)
  {
    && Consistent(m.delayer)
    && (m.delayer.activated ==> m.state == CLOSING || m.state == CLOSED)
    && (m.delayer.executed ==> m.state == CLOSED)
    && (m.state == CLOSING ==> m.delayer.activated && !m.delayer.executed)
  }

  /** `open`: acts only from PENDING, moving to OPENED and firing `onOpen`. */
  function OpenStep(m: InstanceModel): (r: (InstanceModel, seq<HookEvent>))
    ensures m.state == PENDING ==> r == (m.(state := OPENED), [HookEvent(OnOpen, OPENED)])
    ensures m.state != PENDING ==> r == (m, [])
  {
    if m.state != PENDING then (m, [])
    else (m.(state := OPENED), [HookEvent(OnOpen, OPENED)])
  }

  /** `endClose`: from any state but CLOSED, moves to CLOSED and fires `onClosed`. */
  function EndCloseStep(m: InstanceModel): (r: (InstanceModel, seq<HookEvent>))
    ensures m.state != CLOSED ==> r == (m.(state := CLOSED), [HookEvent(OnClosed, CLOSED)])
    ensures m.state == CLOSED ==> r == (m, [])
  {
    if m.state == CLOSED then (m, [])
    else (m.(state := CLOSED), [HookEvent(OnClosed, CLOSED)])
  }

  /**
   * `startClose`: acts only from OPENED. It moves to CLOSING, fires
   * `onCloseStart`, runs the start-close listeners and activates the close
   * delayer; if that releases at once (no delayer outstanding), the release
   * listener ends the close within the same call.
   */
  function StartCloseStep(m: InstanceModel): (r: (InstanceModel, seq<HookEvent>))
    ensures m.state != OPENED ==> r == (m, [])
    ensures m.state == OPENED && InstanceConsistent(m) && m.delayer.delayers == {} ==>
      r.0.state == CLOSED && r.1 == [HookEvent(OnCloseStart, CLOSING), HookEvent(OnClosed, CLOSED)]
    ensures m.state == OPENED && m.delayer.delayers != {} ==>
      r.0.state == CLOSING && r.1 == [HookEvent(OnCloseStart, CLOSING)]
    ensures r.0.delayer.delayers == m.delayer.delayers
  {
    if m.state == CLOSED || m.state != OPENED then (m, [])
    else
      var (d, released) := ActivateStep(m.delayer);
      var closing := InstanceModel(CLOSING, d);
      var (r, after) := if released then EndCloseStep(closing) else (closing, []);
      (r, [HookEvent(OnCloseStart, CLOSING)] + after)
  }

  /** `addCloseDelayer`: the delayer set gains `id`; nothing else changes. */
  function AddCloseDelayerStep(m: InstanceModel, id: int): InstanceModel
  {
    m.(delayer := AddStep(m.delayer, id))
  }

  /** `removeCloseDelayer`: removal from the delayer; a release ends the close. */
  function RemoveCloseDelayerStep(m: InstanceModel, id: int): (r: (InstanceModel, seq<HookEvent>))
    ensures r.0.delayer.delayers == m.delayer.delayers - {id}
    ensures InstanceConsistent(m) && m.state == CLOSING && m.delayer.delayers - {id} == {} ==>
      r.0.state == CLOSED && r.1 == [HookEvent(OnClosed, CLOSED)]
    ensures m.state != CLOSING && InstanceConsistent(m) ==> r.0.state == m.state && r.1 == []
    ensures m.delayer.delayers - {id} != {} ==> r.0.state == m.state && r.1 == []
  {
    var (d, released) := RemoveStep(m.delayer, id);
    var m1 := m.(delayer := d);
    if released then EndCloseStep(m1) else (m1, [])
  }

  /** `startClose` from OPENED, spelled out: CLOSING and `onCloseStart`, then CLOSED and `onClosed` if activation released. */
  lemma StartCloseFromOpened(m: InstanceModel)
    requires m.state == OPENED
    ensures var (d, released) := ActivateStep(m.delayer);
      StartCloseStep(m) == if released then (InstanceModel(CLOSED, d), [HookEvent(OnCloseStart, CLOSING), HookEvent(OnClosed, CLOSED)])
                           else (InstanceModel(CLOSING, d), [HookEvent(OnCloseStart, CLOSING)])
  {
    var e0, e1 := HookEvent(OnCloseStart, CLOSING), HookEvent(OnClosed, CLOSED);
    assert [e0] + [e1] == [e0, e1] && [e0] + [] == [e0];
  }

  /** A public operation of an instance that touches its lifecycle. */
  datatype InstanceOp = Open | StartClose | EndClose | AddCloseDelayer(id: int) | RemoveCloseDelayer(id: int)

  /**
   * One operation: the new model and the hooks it fired, in order. Every hook
   * fired crosses its threshold, the state never goes back, and the
   * invariant `InstanceConsistent` is kept.
   */
  function InstanceStep(m: InstanceModel, op: InstanceOp): (InstanceModel, seq<HookEvent>)
  {
    match op
    case Open => OpenStep(m)
    case StartClose => StartCloseStep(m)
    case EndClose => EndCloseStep(m)
    case AddCloseDelayer(id) => (AddCloseDelayerStep(m, id), [])
    case RemoveCloseDelayer(id) => RemoveCloseDelayerStep(m, id)
  }

  /** What one step from `m` to `r` must guarantee: rank does not fall, every hook fired crosses its state, no hook fires twice, consistency is kept. */
  ghost predicate StepGuarantees(m: InstanceModel, r: (InstanceModel, seq<HookEvent>))
  {
    && Rank(m.state) <= Rank(r.0.state)
    && (forall i :: 0 <= i < |r.1| ==> Rank(m.state) < Threshold(r.1[i].hook) <= Rank(r.0.state))
    && (forall i, j :: 0 <= i < j < |r.1| ==> r.1[i].hook != r.1[j].hook)
    && (InstanceConsistent(m) ==> InstanceConsistent(r.0))
  }

  lemma OpenGuarantees(m: InstanceModel)
    ensures StepGuarantees(m, InstanceStep(m, Open))
  {
  }

  lemma StartCloseGuarantees(m: InstanceModel)
    ensures StepGuarantees(m, InstanceStep(m, StartClose))
  {
  }

  lemma EndCloseGuarantees(m: InstanceModel)
    ensures StepGuarantees(m, InstanceStep(m, EndClose))
  {
  }

  lemma AddCloseDelayerGuarantees(m: InstanceModel, id: int)
    ensures StepGuarantees(m, InstanceStep(m, AddCloseDelayer(id)))
  {
  }

  lemma RemoveCloseDelayerGuarantees(m: InstanceModel, id: int)
    ensures StepGuarantees(m, InstanceStep(m, RemoveCloseDelayer(id)))
  {
  }

  /** What one operation guarantees. */
  lemma InstanceStepProperties(m: InstanceModel, op: InstanceOp)
    ensures var r := InstanceStep(m, op);
      && Rank(m.state) <= Rank(r.0.state)
      && (forall i :: 0 <= i < |r.1| ==> Rank(m.state) < Threshold(r.1[i].hook) <= Rank(r.0.state))
      && (forall i, j :: 0 <= i < j < |r.1| ==> r.1[i].hook != r.1[j].hook)
      && (InstanceConsistent(m) ==> InstanceConsistent(r.0))
  {
    match op
    case Open => OpenGuarantees(m);
    case StartClose => StartCloseGuarantees(m);
    case EndClose => EndCloseGuarantees(m);
    case AddCloseDelayer(id) => AddCloseDelayerGuarantees(m, id);
    case RemoveCloseDelayer(id) => RemoveCloseDelayerGuarantees(m, id);
  }

  /** A run of operations: the final model and every hook fired, in order. */
  function InstanceRun(m: InstanceModel, ops: seq<InstanceOp>): (InstanceModel, seq<HookEvent>)
  {
    RunSteps(InstanceStep, m, ops)
  }

  /** How many times hook `h` occurs among `es`. */
  function Fired(es: seq<HookEvent>, h: Hook): nat
  {
    if es == [] then 0 else (if es[0].hook == h then 1 else 0) + Fired(es[1..], h)
  }

  lemma {:induction false} FiredAppend(a: seq<HookEvent>, b: seq<HookEvent>, h: Hook)
    ensures Fired(a + b, h) == Fired(a, h) + Fired(b, h)
  {
    if a != [] {
      assert (a + b)[1..] == a[1..] + b;
      FiredAppend(a[1..], b, h);
    } else {
      assert a + b == b;
    }
  }

  /** Over a whole run the lifecycle state does not go back, and `InstanceConsistent` is kept. */
  lemma {:induction false} InstanceRunMonotone(m: InstanceModel, ops: seq<InstanceOp>)
    ensures Rank(m.state) <= Rank(InstanceRun(m, ops).0.state)
    ensures InstanceConsistent(m) ==> InstanceConsistent(InstanceRun(m, ops).0)
    decreases |ops|
  {
    if ops != [] {
      InstanceStepProperties(m, ops[0]);
      InstanceRunMonotone(InstanceStep(m, ops[0]).0, ops[1..]);
    }
  }

  /**
   * Under any sequence of calls the state never moves backward in the order
   * `PENDING < OPENED < CLOSING < CLOSED`: at every later point of a run it is
   * at least what it was at any earlier point.
   */
  lemma LifecycleNeverMovesBackward(m: InstanceModel, ops: seq<InstanceOp>, j: nat, k: nat)
    requires j <= k <= |ops|
    ensures Rank(InstanceRun(m, ops[..j]).0.state) <= Rank(InstanceRun(m, ops[..k]).0.state)
  {
    assert ops[..k] == ops[..j] + ops[j..k];
    RunStepsAppend(InstanceStep, m, ops[..j], ops[j..k]);
    InstanceRunMonotone(InstanceRun(m, ops[..j]).0, ops[j..k]);
  }

  /**
   * Each hook fires at most once over an instance's life, and not at all once
   * the state has reached the rank the hook announces.
   */
  lemma {:induction false} EachHookAtMostOnce(m: InstanceModel, ops: seq<InstanceOp>, h: Hook)
    ensures Fired(InstanceRun(m, ops).1, h) <= if Rank(m.state) < Threshold(h) then 1 else 0
    ensures Fired(InstanceRun(m, ops).1, h) == 1 ==> Threshold(h) <= Rank(InstanceRun(m, ops).0.state)
    decreases |ops|
  {
    if ops != [] {
      var (m1, es) := InstanceStep(m, ops[0]);
      var (m2, rest) := InstanceRun(m1, ops[1..]);
      assert InstanceRun(m, ops) == (m2, es + rest) by { InstanceRunCons(m, ops); }
      EachHookAtMostOnce(m1, ops[1..], h);
      InstanceRunMonotone(m1, ops[1..]);
      FiredAppend(es, rest, h);
      StepFiresHookAtMostOnce(m, ops[0], h);
      assert Rank(m.state) <= Rank(m1.state) <= Rank(m2.state);
    }
  }

  /** A non-empty run is its first step followed by the run of the rest. */
  lemma InstanceRunCons(m: InstanceModel, ops: seq<InstanceOp>)
    requires ops != []
    ensures var first := InstanceStep(m, ops[0]);
      var rest := InstanceRun(first.0, ops[1..]);
      InstanceRun(m, ops) == (rest.0, first.1 + rest.1)
  {
  }

  /** Within one operation a hook fires at most once, and only when its threshold is crossed. */
  lemma StepFiresHookAtMostOnce(m: InstanceModel, op: InstanceOp, h: Hook)
    ensures Rank(m.state) <= Rank(InstanceStep(m, op).0.state)
    ensures Fired(InstanceStep(m, op).1, h) <= 1
    ensures Fired(InstanceStep(m, op).1, h) == 1 ==>
      Rank(m.state) < Threshold(h) <= Rank(InstanceStep(m, op).0.state)
  {
    var es := InstanceStep(m, op).1;
    InstanceStepProperties(m, op);
    assert |es| <= 2 by {
      match op
      case StartClose =>
      case _ =>
    }
    if |es| == 2 {
      assert es[1..][1..] == [];
      assert es[0].hook != es[1].hook;
    } else if |es| == 1 {
      assert es[1..] == [];
    }
  }

  /** The operation `op`, `n` times. */
  function Repeat(op: InstanceOp, n: nat): (r: seq<InstanceOp>)
    ensures |r| == n && forall i :: 0 <= i < n ==> r[i] == op
  {
    seq(n, _ => op)
  }

  /** `open` called N times on a PENDING instance leaves it OPENED and fires `onOpen` once. */
  lemma OpenRepeatedFiresOnce(m: InstanceModel, n: nat)
    requires m.state == PENDING && n >= 1
    ensures InstanceRun(m, Repeat(Open, n)).0.state == OPENED
    ensures Fired(InstanceRun(m, Repeat(Open, n)).1, OnOpen) == 1
  {
    var ops := Repeat(Open, n);
    var m1 := m.(state := OPENED);
    assert InstanceStep(m, ops[0]) == (m1, [HookEvent(OnOpen, OPENED)]);
    OpenAgainChangesNothing(m1, ops[1..]);
    assert Fired([HookEvent(OnOpen, OPENED)], OnOpen) == 1;
    FiredAppend([HookEvent(OnOpen, OPENED)], [], OnOpen);
  }

  lemma {:induction false} OpenAgainChangesNothing(m: InstanceModel, ops: seq<InstanceOp>)
    requires m.state != PENDING
    requires forall i :: 0 <= i < |ops| ==> ops[i] == Open
    ensures InstanceRun(m, ops) == (m, [])
    decreases |ops|
  {
    if ops != [] {
      assert InstanceStep(m, ops[0]) == (m, []);
      OpenAgainChangesNothing(m, ops[1..]);
      assert [] + InstanceRun(m, ops[1..]).1 == [];
    }
  }

  /** `endClose` called N times on an instance not yet CLOSED leaves it CLOSED and fires `onClosed` once. */
  lemma EndCloseRepeatedFiresOnce(m: InstanceModel, n: nat)
    requires m.state != CLOSED && n >= 1
    ensures InstanceRun(m, Repeat(EndClose, n)).0.state == CLOSED
    ensures Fired(InstanceRun(m, Repeat(EndClose, n)).1, OnClosed) == 1
  {
    var ops := Repeat(EndClose, n);
    var m1 := m.(state := CLOSED);
    assert InstanceStep(m, ops[0]) == (m1, [HookEvent(OnClosed, CLOSED)]);
    EndCloseAgainChangesNothing(m1, ops[1..]);
    assert Fired([HookEvent(OnClosed, CLOSED)], OnClosed) == 1;
    FiredAppend([HookEvent(OnClosed, CLOSED)], [], OnClosed);
  }

  lemma {:induction false} EndCloseAgainChangesNothing(m: InstanceModel, ops: seq<InstanceOp>)
    requires m.state == CLOSED
    requires forall i :: 0 <= i < |ops| ==> ops[i] == EndClose
    ensures InstanceRun(m, ops) == (m, [])
    decreases |ops|
  {
    if ops != [] {
      assert InstanceStep(m, ops[0]) == (m, []);
      EndCloseAgainChangesNothing(m, ops[1..]);
      assert [] + InstanceRun(m, ops[1..]).1 == [];
    }
  }

  /** The class `ModalInstance` of `ModalInstance.ts`. */
  class ModalInstance<K, E, V> {
    var lifecycleState: LifecycleState
    const closeDelayers: DelayerAccumulator<ReleaseListener>
    const startCloseListenersAccumulator: ListenersAccumulator<ListenerId, ()>
    const element: E
    const id: int
    const key: K
    const options: InstanceOptions<V>
    /** Every hook this instance has called, oldest first. */
    var hookCalls: seq<HookCall<K, E, V>>

    /** The `props` getter: the open request's props, or `{}` when it gave none. */
    function Props(): (p: map<string, V>)
      ensures options.props.Some? ==> p == options.props.value
      ensures options.props.None? ==> p == map[]
    {
      if options.props.Some? then options.props.value else map[]
    }

    /** The snapshot of this instance in lifecycle state `s`. */
    function SnapshotAt(s: LifecycleState): ModalState<K, E, V>
    {
      ModalState(id, element, key, Props(), s)
    }

    /** `toState`: reads the instance and changes nothing. */
    function ToState(): ModalState<K, E, V>
      reads this
    {
      SnapshotAt(lifecycleState)
    }

    function Model(): InstanceModel
      reads this, closeDelayers
    {
      InstanceModel(lifecycleState, closeDelayers.Model())
    }

    /** The objects this instance owns. */
    function Repr(): set<object>
    {
      {this, closeDelayers, closeDelayers.listenersAccumulator, startCloseListenersAccumulator}
    }

    ghost predicate Valid()
      reads Repr()
    {
      && closeDelayers.Valid()
      && closeDelayers.listenersAccumulator.listeners == [EndCloseListener]
      && startCloseListenersAccumulator.Valid()
      && InstanceConsistent(Model())
    }

    /** The hook calls that the events `es` make, given which hooks were supplied. */
    function Logged(es: seq<HookEvent>): (r: seq<HookCall<K, E, V>>)
      ensures |r| <= |es|
      ensures (forall i :: 0 <= i < |es| ==> es[i].hook in options.hooks) ==>
        |r| == |es| && forall i :: 0 <= i < |es| ==> r[i] == HookCall(es[i].hook, SnapshotAt(es[i].at))
    {
      if es == [] then []
      else (if es[0].hook in options.hooks then [HookCall(es[0].hook, SnapshotAt(es[0].at))] else []) + Logged(es[1..])
    }

    constructor (element: E, id: int, key: K, options: InstanceOptions<V>, ids: IdSource)
      ensures Valid() && fresh(Repr() - {this})
      ensures Model() == InitialInstance && hookCalls == []
      ensures this.element == element && this.id == id && this.key == key && this.options == options
      ensures closeDelayers.ids == ids
      ensures startCloseListenersAccumulator.listeners == [] && startCloseListenersAccumulator.calls == []
      ensures ToState() == ModalState(id, element, key, if options.props.Some? then options.props.value else map[], PENDING)
    {
      lifecycleState := PENDING;
      closeDelayers := new DelayerAccumulator(ids);
      startCloseListenersAccumulator := new ListenersAccumulator();
      this.element := element;
      this.id := id;
      this.key := key;
      this.options := options;
      hookCalls := [];
      new;
      closeDelayers.AddListener(EndCloseListener);
    }

    method AddCloseDelayer() returns (delayerId: int)
      requires Valid()
      modifies closeDelayers`delayers, closeDelayers.ids
      ensures Valid()
      ensures delayerId == old(closeDelayers.ids.next) && closeDelayers.ids.next == delayerId + 1
      ensures Model() == AddCloseDelayerStep(old(Model()), delayerId)
    {
      delayerId := closeDelayers.Add();
    }

    method RemoveCloseDelayer(delayerId: int)
      requires Valid()
      modifies this`lifecycleState, this`hookCalls
      modifies closeDelayers`delayers, closeDelayers`isExecuted, closeDelayers.listenersAccumulator`calls
      ensures Valid()
      ensures var (m, es) := RemoveCloseDelayerStep(old(Model()), delayerId);
        Model() == m && hookCalls == old(hookCalls) + Logged(es)
    {
      var released := closeDelayers.Remove(delayerId);
      if released {
        // the delayer's only listener is `EndCloseListener`
        EndClose();
      }
    }

    method AddStartCloseListener(listener: ListenerId)
      requires Valid()
      modifies startCloseListenersAccumulator`listeners
      ensures Valid()
      ensures startCloseListenersAccumulator.listeners == Added(old(startCloseListenersAccumulator.listeners), listener)
    {
      startCloseListenersAccumulator.AddListener(listener);
    }

    method RemoveStartCloseListener(listener: ListenerId)
      requires Valid()
      modifies startCloseListenersAccumulator`listeners
      ensures Valid()
      ensures startCloseListenersAccumulator.listeners == Removed(old(startCloseListenersAccumulator.listeners), listener)
    {
      startCloseListenersAccumulator.RemoveListener(listener);
    }

    method StartClose()
      requires Valid()
      modifies this`lifecycleState, this`hookCalls
      modifies closeDelayers`isActivated, closeDelayers`isExecuted, closeDelayers.listenersAccumulator`calls
      modifies startCloseListenersAccumulator`calls
      ensures Valid()
      ensures var (m, es) := StartCloseStep(old(Model()));
        Model() == m && hookCalls == old(hookCalls) + Logged(es)
      ensures startCloseListenersAccumulator.calls == old(startCloseListenersAccumulator.calls) +
        if old(lifecycleState) == OPENED then Invocations(startCloseListenersAccumulator.listeners, []) else []
    {
      if lifecycleState == CLOSED || lifecycleState != OPENED {
        return;
      }
      ghost var m0 := Model();
      StartCloseFromOpened(m0);
      lifecycleState := CLOSING;
      ExecuteHook(OnCloseStart);
      startCloseListenersAccumulator.Execute([]);
      ActivateCloseDelayers();
      LoggedTwo(HookEvent(OnCloseStart, CLOSING), HookEvent(OnClosed, CLOSED));
    }

    /**
     * The last step of `startClose`, once the instance is CLOSING: the close
     * delayer is activated, and when no delayer is outstanding its listener
     * `endClose` ends the close at once.
     */
    method ActivateCloseDelayers()
      requires closeDelayers.Valid() && closeDelayers.listenersAccumulator.listeners == [EndCloseListener]
      requires startCloseListenersAccumulator.Valid()
      requires lifecycleState == CLOSING && InstanceConsistent(InstanceModel(OPENED, closeDelayers.Model()))
      modifies this`lifecycleState, this`hookCalls
      modifies closeDelayers`isActivated, closeDelayers`isExecuted, closeDelayers.listenersAccumulator`calls
      ensures Valid()
      ensures var (d, released) := ActivateStep(old(closeDelayers.Model()));
        && Model() == InstanceModel(if released then CLOSED else CLOSING, d)
        && hookCalls == old(hookCalls) + if released then Logged([HookEvent(OnClosed, CLOSED)]) else []
      ensures startCloseListenersAccumulator.calls == old(startCloseListenersAccumulator.calls)
    {
      var released := closeDelayers.Activate();
      if released {
        // the delayer's only listener is `EndCloseListener`
        EndClose();
      }
    }

    /** Two events log what each of them logs, in order. */
    lemma LoggedTwo(e0: HookEvent, e1: HookEvent)
      ensures Logged([e0, e1]) == Logged([e0]) + Logged([e1])
    {
      assert [e0, e1][1..] == [e1];
      assert [e0][1..] == [];
    }

    method EndClose()
      requires InstanceConsistent(InstanceModel(CLOSED, closeDelayers.Model()))
      modifies this`lifecycleState, this`hookCalls
      ensures old(Valid()) ==> Valid()
      ensures var (m, es) := EndCloseStep(old(Model()));
        Model() == m && hookCalls == old(hookCalls) + Logged(es)
    {
      if lifecycleState == CLOSED {
        return;
      }
      lifecycleState := CLOSED;
      ExecuteHook(OnClosed);
    }

    method Open()
      requires Valid()
      modifies this`lifecycleState, this`hookCalls
      ensures Valid()
      ensures var (m, es) := OpenStep(old(Model()));
        Model() == m && hookCalls == old(hookCalls) + Logged(es)
    {
      if lifecycleState != PENDING {
        return;
      }
      lifecycleState := OPENED;
      ExecuteHook(OnOpen);
    }

    /** `executeHook` (private in the source): calls the hook if it was supplied. */
    method ExecuteHook(hook: Hook)
      modifies this`hookCalls
      ensures hookCalls == old(hookCalls) + Logged([HookEvent(hook, lifecycleState)])
    {
      if hook in options.hooks {
        hookCalls := hookCalls + [HookCall(hook, ToState())];
      }
    }
  }
}
