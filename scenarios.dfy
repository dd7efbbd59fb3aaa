/**
 * The scenarios of the repository's unit tests, replayed on the classes of
 * this model, and the scenario that shows `unsubscribe` leaving a listener
 * subscribed. Each method builds fresh objects and states in its `ensures`
 * what the test expects to observe.
 */
module Scenarios {
  import opened Optional
  import opened Listeners
  import opened Ids
  import opened Delayers
  import opened Instances
  import opened EventStates

  /** `DelayerAccumulator.test.ts`: with no delayer, `activate` runs the release listener at once. */
  method ReleaseWithoutDelayers(l: ListenerId) returns (calls: nat)
    ensures calls == 1
  {
    var ids := new IdSource(0);
    var acc := new DelayerAccumulator<ListenerId>(ids);
    acc.AddListener(l);
    var released := acc.Activate();
    InvokedExactlyOnce<ListenerId, ()>(acc.listenersAccumulator.listeners, [], l);
    calls := CallsTo(acc.listenersAccumulator.calls, l);
  }

  /**
   * `DelayerAccumulator.test.ts`: with two delayers, the listener is not run
   * by `activate` nor by the first `remove`, and is run by the second.
   */
  method ReleaseAfterEveryDelayer(l: ListenerId) returns (afterActivate: nat, afterFirst: nat, afterSecond: nat)
    ensures afterActivate == 0 && afterFirst == 0 && afterSecond == 1
  {
    var acc, d1, d2;
    acc, d1, d2, afterActivate := ActivatedWithTwoDelayers(l);
    var r1 := acc.Remove(d1);
    afterFirst := CallsTo(acc.listenersAccumulator.calls, l);
    var r2 := acc.Remove(d2);
    InvokedExactlyOnce<ListenerId, ()>(acc.listenersAccumulator.listeners, [], l);
    afterSecond := CallsTo(acc.listenersAccumulator.calls, l);
  }

  /** A new accumulator with listener `l`, two delayers added (ids 0 and 1), then `activate`: nothing runs yet. */
  method ActivatedWithTwoDelayers(l: ListenerId) returns (acc: DelayerAccumulator<ListenerId>, d1: int, d2: int, calls: nat)
    ensures fresh(acc) && fresh(acc.listenersAccumulator) && fresh(acc.ids)
    ensures acc.Valid() && acc.Model() == DelayerModel({0, 1}, true, false) && d1 == 0 && d2 == 1
    ensures acc.listenersAccumulator.listeners == [l] && acc.listenersAccumulator.calls == []
    ensures calls == 0
  {
    var ids := new IdSource(0);
    acc := new DelayerAccumulator<ListenerId>(ids);
    acc.AddListener(l);
    d1 := acc.Add();
    d2 := acc.Add();
    var r0 := acc.Activate();
    calls := CallsTo(acc.listenersAccumulator.calls, l);
  }

  /** `ModalInstance.test.ts`: a new instance's snapshot, with `props: {}` and with no props, is the same PENDING state. */
  method SnapshotOfNewInstance<K, E, V>(element: E, key: K) returns (withProps: ModalState<K, E, V>, withoutProps: ModalState<K, E, V>)
    ensures withProps == withoutProps == ModalState(1, element, key, map[], PENDING)
  {
    var ids := new IdSource(0);
    var a := new ModalInstance<K, E, V>(element, 1, key, InstanceOptions({}, Some(map[])), ids);
    var b := new ModalInstance<K, E, V>(element, 1, key, InstanceOptions({}, None), ids);
    withProps := a.ToState();
    withoutProps := b.ToState();
  }

  /**
   * `ModalInstance.test.ts`: with all three hooks supplied, opening twice
   * calls only `onOpen`; `startClose` with no delayer calls `onCloseStart`
   * and then `onClosed`; opening and ending the close twice more calls
   * nothing. Every hook is called exactly once, with the snapshot of the
   * state it fired in.
   */
  method HooksOfOneInstance<K, E, V>(element: E, key: K) returns (afterOpen: seq<HookCall<K, E, V>>, all: seq<HookCall<K, E, V>>)
    ensures afterOpen == [HookCall(OnOpen, ModalState(1, element, key, map[], OPENED))]
    ensures all == afterOpen + [HookCall(OnCloseStart, ModalState(1, element, key, map[], CLOSING)),
                                HookCall(OnClosed, ModalState(1, element, key, map[], CLOSED))]
  {
    var ids := new IdSource(0);
    var inst := new ModalInstance<K, E, V>(element, 1, key, InstanceOptions({OnOpen, OnCloseStart, OnClosed}, Some(map[])), ids);
    OpenTwice(inst);
    afterOpen := inst.hookCalls;
    CloseThenRepeat(inst);
    all := inst.hookCalls;
  }

  /** `open()` twice on a new instance: it is OPENED and `onOpen` was called once. */
  method OpenTwice<K, E, V>(inst: ModalInstance<K, E, V>)
    requires inst.Valid() && inst.Model() == InitialInstance && inst.hookCalls == [] && OnOpen in inst.options.hooks
    modifies inst`lifecycleState, inst`hookCalls
    ensures inst.Valid() && inst.Model() == InstanceModel(OPENED, Delayers.Initial)
    ensures inst.hookCalls == [HookCall(OnOpen, inst.SnapshotAt(OPENED))]
  {
    inst.Open();
    inst.Open();
  }

  /**
   * `startClose()` on an OPENED instance with no delayer, then `open()` and
   * `endClose()` twice each: only the first call does anything, calling
   * `onCloseStart` and then `onClosed`.
   */
  method CloseThenRepeat<K, E, V>(inst: ModalInstance<K, E, V>)
    requires inst.Valid() && inst.Model() == InstanceModel(OPENED, Delayers.Initial)
    requires OnCloseStart in inst.options.hooks && OnClosed in inst.options.hooks
    modifies inst`lifecycleState, inst`hookCalls
    modifies inst.closeDelayers`isActivated, inst.closeDelayers`isExecuted, inst.closeDelayers.listenersAccumulator`calls
    modifies inst.startCloseListenersAccumulator`calls
    ensures inst.hookCalls == old(inst.hookCalls) +
      [HookCall(OnCloseStart, inst.SnapshotAt(CLOSING)), HookCall(OnClosed, inst.SnapshotAt(CLOSED))]
  {
    inst.StartClose();
    assert inst.Model().state == CLOSED;
    inst.Open();
    inst.Open();
    inst.EndClose();
    inst.EndClose();
  }

  /**
   * `useEventState.test.ts`: `getState` returns the initial value, then the
   * value `setState` stored; a subscriber receives one event whose detail is
   * that value.
   */
  method SetStateNotifiesSubscriber(l: ListenerId) returns (before: int, after: int, received: seq<Delivery<int>>)
    ensures before == 1 && after == 2
    ensures received == [Delivery(l, 2)]
  {
    var es := new EventState(1);
    before := es.GetState();
    es.eventProvider.Subscribe(l);
    es.SetState(Value(2));
    after := es.GetState();
    received := es.eventProvider.deliveries;
  }

  /** `unsubscribe` as written: a listener subscribed and then unsubscribed still receives the next update. */
  method UnsubscribedAsWrittenStillNotified(l: ListenerId) returns (delivered: nat)
    ensures delivered == 1
  {
    var es := new EventState(1);
    es.eventProvider.Subscribe(l);
    es.eventProvider.UnsubscribeAsWritten(l);
    es.SetState(Value(2));
    DeliveredExactlyOnce(es.eventProvider.subscribers, 2, l);
    delivered := DeliveredTo(es.eventProvider.deliveries, l);
  }

  /** `unsubscribe` as intended: after it, the listener receives nothing, while another subscriber still does. */
  method UnsubscribedNotNotified(l: ListenerId, other: ListenerId) returns (delivered: nat, deliveredOther: nat)
    requires l != other
    ensures delivered == 0 && deliveredOther == 1
  {
    var es := new EventState(1);
    es.eventProvider.Subscribe(l);
    es.eventProvider.Subscribe(other);
    es.eventProvider.Unsubscribe(l);
    es.SetState(Value(2));
    DeliveredExactlyOnce(es.eventProvider.subscribers, 2, l);
    DeliveredExactlyOnce(es.eventProvider.subscribers, 2, other);
    delivered := DeliveredTo(es.eventProvider.deliveries, l);
    deliveredOther := DeliveredTo(es.eventProvider.deliveries, other);
  }
}
