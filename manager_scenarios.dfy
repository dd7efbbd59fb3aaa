/**
 * The scenarios of the repository's component tests for the three lifecycle
 * policies (`ModalMultiple.test.tsx`, `ModalQueueAfterClose.test.tsx`,
 * `ModalQueueDuringClose.test.tsx`), replayed on the class `ModalManager`.
 * Two modals are opened under the same key; what the tests read off the
 * screen is the published snapshot list. The counter starts at 0, so the
 * first modal gets id 0, the second id 1, and a delayer added next id 2.
 */
module ManagerScenarios {
  import opened Optional
  import opened Listeners
  import opened Delayers
  import opened Instances
  import opened OrderedMaps
  import opened Ids
  import opened ManagerModel
  import opened ManagerLayout
  import opened ManagerInvariants
  import opened ManagerRuns
  import opened Manager

  // ---------------------------------------------------------------------
  // The steps, on the specification functions

  /** In a queue, `open` while one OPENED instance is registered registers the new one and leaves it PENDING. */
  lemma OpenWhileOneShown<K, E, V>(mode: AppearanceMode, key: K, window: E, next: int, s: State<K, E, V>)
    requires s.instances == OrderedMap([next], map[next := Rec(key, window, next, OPENED, Delayers.Initial)])
    ensures OpenOp(Queue(mode), map[key := window], s, next + 1, key, None)
      == (Pass, s.(instances := OrderedMap([next, next + 1], map[next := Rec(key, window, next, OPENED, Delayers.Initial),
                                                                  next + 1 := Fresh(key, window, next + 1)])))
  {
    var b := Fresh<K, E, V>(key, window, next + 1);
    var m1 := Set(s.instances, next + 1, b);
    assert m1 == OrderedMap([next, next + 1], s.instances.entries[next + 1 := b]);
    assert next in m1.entries && next != next + 1 && m1.entries[next].model.state != CLOSING;
    assert !Admits(Queue(mode), m1, next + 1);
  }

  /** A delayer added to the first of two instances changes only that instance's delayer. */
  lemma AddDelayerToFirst<K, E, V>(policy: Policy, next: int, d: int, s: State<K, E, V>, a: Instance<K, E, V>, b: Instance<K, E, V>)
    requires s.instances == OrderedMap([next, next + 1], map[next := a, next + 1 := b])
    ensures AddDelayerOp(policy, s, next, d)
      == s.(instances := OrderedMap([next, next + 1], map[next := a.(model := AddCloseDelayerStep(a.model, d)), next + 1 := b]))
  {
    var a' := a.(model := AddCloseDelayerStep(a.model, d));
    assert InstanceStep(a.model, AddCloseDelayer(d)) == (a'.model, []);
    assert Set(s.instances, next, a') == OrderedMap([next, next + 1], map[next := a', next + 1 := b]);
  }

  /** The queue advances to the only PENDING instance, registered at `id` after the `before` ones, and opens it. */
  lemma AdvanceToLast<K, E, V>(key: K, window: E, id: int, before: seq<int>, entries: map<int, Instance<K, E, V>>,
                               published: seq<ModalState<K, E, V>>)
    requires id !in before && id !in entries
    requires forall j :: 0 <= j < |before| ==> before[j] in entries && entries[before[j]].model.state != PENDING
    requires NoDuplicates(before) && forall k :: k in entries ==> k in before
    ensures var m := OrderedMap(before + [id], entries[id := Fresh<K, E, V>(key, window, id)]);
      var b1 := Rec<K, E, V>(key, window, id, OPENED, Delayers.Initial);
      AdvanceQueue(State(m, published)) == State(OrderedMap(before + [id], entries[id := b1]), published + [ToState(b1)])
  {
    var b0 := Fresh<K, E, V>(key, window, id);
    var b1 := Rec<K, E, V>(key, window, id, OPENED, Delayers.Initial);
    var m := OrderedMap(before + [id], entries[id := b0]);
    assert Valid(m) by {
      assert forall k :: k in m.entries ==> k in m.keys;
    }
    assert FirstInQueue(m) == Some(id) by {
      assert FirstPendingIndex(m) == |before| by {
        forall j | 0 <= j < |before| ensures m.entries[m.keys[j]].model.state != PENDING {
          assert m.keys[j] == before[j] && before[j] != id;
        }
        assert m.keys[|before|] == id && m.entries[id] == b0;
      }
    }
    assert OpenStep(b0.model) == (b1.model, [HookEvent(OnOpen, OPENED)]);
    assert Set(m, id, b1) == OrderedMap(before + [id], entries[id := b1]);
    assert SnapshotAt(b1, OPENED) == ToState(b1);
  }

  /** `startClose` on the first of two instances, which has no delayer: the instance closes at once, firing both hooks. */
  lemma CloseFirstUnheld<K, E, V>(policy: Policy, key: K, window: E, next: int, s: State<K, E, V>)
    requires var a := Rec<K, E, V>(key, window, next, OPENED, Delayers.Initial);
      s == State(OrderedMap([next, next + 1], map[next := a, next + 1 := Fresh(key, window, next + 1)]), [ToState(a)])
    ensures var a4 := Rec<K, E, V>(key, window, next, CLOSED, DelayerModel({}, true, true));
      CloseOp(policy, s, None)
      == Handle(policy, Handle(policy, s.(instances := Set(s.instances, next, a4)), a4, HookEvent(OnCloseStart, CLOSING)),
                a4, HookEvent(OnClosed, CLOSED))
  {
    var a4 := Rec<K, E, V>(key, window, next, CLOSED, DelayerModel({}, true, true));
    var e0, e1 := HookEvent(OnCloseStart, CLOSING), HookEvent(OnClosed, CLOSED);
    assert FirstKey(s.instances) == Some(next);
    assert InstanceStep(s.instances.entries[next].model, StartClose) == (a4.model, [e0, e1]);
    DispatchTwo(policy, s.(instances := Set(s.instances, next, a4)), a4, e0, e1);
  }

  /** `close()` with no delayer outstanding on the first of two instances: it closes at once and the `onClosed` handler runs. */
  lemma CloseFirstAfterCloseHooks<K, E, V>(key: K, window: E, next: int, s: State<K, E, V>)
    requires var a := Rec<K, E, V>(key, window, next, OPENED, Delayers.Initial);
      s == State(OrderedMap([next, next + 1], map[next := a, next + 1 := Fresh(key, window, next + 1)]), [ToState(a)])
    ensures var c := Rec<K, E, V>(key, window, next, CLOSING, DelayerModel({}, true, true));
      CloseOp(Queue(AfterClose), s, None) == OnClosedHook(Queue(AfterClose), State(Set(s.instances, next, c), [ToState(c)]), next)
  {
    var policy := Queue(AfterClose);
    var a4 := Rec<K, E, V>(key, window, next, CLOSED, DelayerModel({}, true, true));
    var c := Rec<K, E, V>(key, window, next, CLOSING, DelayerModel({}, true, true));
    var e0, e1 := HookEvent(OnCloseStart, CLOSING), HookEvent(OnClosed, CLOSED);
    var s0 := s.(instances := Set(s.instances, next, a4));
    var s1 := State(Set(s.instances, next, c), [ToState(c)]);
    CloseFirstUnheld(policy, key, window, next, s);
    CloseStartOfFirst(key, window, next, s);
    assert Handle(policy, s1, a4, e1) == OnClosedHook(policy, s1, next) by {
      HandleClosed(policy, s1, a4, s1.instances.entries[next]);
      SetSame(s1.instances, next);
    }
  }

  /** In an after-close queue, the `onCloseStart` handler for the first of two instances refreshes its published entry. */
  lemma CloseStartOfFirst<K, E, V>(key: K, window: E, next: int, s: State<K, E, V>)
    requires var a := Rec<K, E, V>(key, window, next, OPENED, Delayers.Initial);
      s == State(OrderedMap([next, next + 1], map[next := a, next + 1 := Fresh(key, window, next + 1)]), [ToState(a)])
    ensures var a4 := Rec<K, E, V>(key, window, next, CLOSED, DelayerModel({}, true, true));
      var c := Rec<K, E, V>(key, window, next, CLOSING, DelayerModel({}, true, true));
      Handle(Queue(AfterClose), s.(instances := Set(s.instances, next, a4)), a4, HookEvent(OnCloseStart, CLOSING))
      == State(Set(s.instances, next, c), [ToState(c)])
  {
    var a4 := Rec<K, E, V>(key, window, next, CLOSED, DelayerModel({}, true, true));
    var c := Rec<K, E, V>(key, window, next, CLOSING, DelayerModel({}, true, true));
    HandleCloseStart(Queue(AfterClose), s, a4);
    assert a4.(model := a4.model.(state := CLOSING)) == c;
    assert Refreshed(s.published, ToState(c)) == [ToState(c)];
  }

  /**
   * After-close queue: `close()` with no delayer closes the first instance at
   * once; it leaves the registry and the published list, and the queue
   * advances to the second, which opens.
   */
  lemma CloseFirstAfterClose<K, E, V>(key: K, window: E, next: int, s: State<K, E, V>)
    requires var a := Rec<K, E, V>(key, window, next, OPENED, Delayers.Initial);
      s == State(OrderedMap([next, next + 1], map[next := a, next + 1 := Fresh(key, window, next + 1)]), [ToState(a)])
    ensures var b1 := Rec<K, E, V>(key, window, next + 1, OPENED, Delayers.Initial);
      CloseOp(Queue(AfterClose), s, None) == State(OrderedMap([next + 1], map[next + 1 := b1]), [ToState(b1)])
  {
    var b0 := Fresh<K, E, V>(key, window, next + 1);
    var c := Rec<K, E, V>(key, window, next, CLOSING, DelayerModel({}, true, true));
    var s1 := State(Set(s.instances, next, c), [ToState(c)]);
    CloseFirstAfterCloseHooks(key, window, next, s);
    var empty: map<int, Instance<K, E, V>> := map[];
    ClosedFirstLeavesSecond(key, window, next, s);
    AdvanceToLast<K, E, V>(key, window, next + 1, [], empty, []);
    assert [] + [next + 1] == [next + 1];
  }

  /** The `onClosed` handler for the first of two instances removes it and then advances the after-close queue. */
  lemma ClosedFirstLeavesSecond<K, E, V>(key: K, window: E, next: int, s: State<K, E, V>)
    requires var a := Rec<K, E, V>(key, window, next, OPENED, Delayers.Initial);
      s == State(OrderedMap([next, next + 1], map[next := a, next + 1 := Fresh(key, window, next + 1)]), [ToState(a)])
    ensures var c := Rec<K, E, V>(key, window, next, CLOSING, DelayerModel({}, true, true));
      var empty: map<int, Instance<K, E, V>> := map[];
      OnClosedHook(Queue(AfterClose), State(Set(s.instances, next, c), [ToState(c)]), next)
      == AdvanceQueue(State(OrderedMap([] + [next + 1], empty[next + 1 := Fresh(key, window, next + 1)]), []))
  {
    var b0 := Fresh<K, E, V>(key, window, next + 1);
    var c := Rec<K, E, V>(key, window, next, CLOSING, DelayerModel({}, true, true));
    var empty: map<int, Instance<K, E, V>> := map[];
    assert Set(s.instances, next, c) == OrderedMap([next, next + 1], map[next := c, next + 1 := b0]);
    DeleteFirstOfTwo(next, c, b0);
    assert WithoutId([ToState(c)], next) == [];
    assert OrderedMap([] + [next + 1], empty[next + 1 := b0]) == OrderedMap([next + 1], map[next + 1 := b0]);
  }

  /** `startClose` on the first of two instances, which holds delayer `d`: it becomes CLOSING and only `onCloseStart` runs. */
  lemma CloseFirstHeld<K, E, V>(policy: Policy, key: K, window: E, next: int, d: int, s: State<K, E, V>)
    requires var a := Rec<K, E, V>(key, window, next, OPENED, DelayerModel({d}, false, false));
      s == State(OrderedMap([next, next + 1], map[next := a, next + 1 := Fresh(key, window, next + 1)]), [ToState(a)])
    ensures var a3 := Rec<K, E, V>(key, window, next, CLOSING, DelayerModel({d}, true, false));
      CloseOp(policy, s, None) == OnCloseStartHook(policy, s.(instances := Set(s.instances, next, a3)), ToState(a3))
  {
    var a3 := Rec<K, E, V>(key, window, next, CLOSING, DelayerModel({d}, true, false));
    var e := HookEvent(OnCloseStart, CLOSING);
    var m1 := Set(s.instances, next, a3);
    assert FirstKey(s.instances) == Some(next);
    assert InstanceStep(s.instances.entries[next].model, StartClose) == (a3.model, [e]);
    DispatchOne(policy, s.(instances := m1), a3, e);
    HandleCloseStart(policy, s, a3);
    assert a3.(model := a3.model.(state := CLOSING)) == a3;
  }

  /**
   * During-close queue: `close()` on the first instance, which holds delayer
   * `d`, leaves it CLOSING and on screen, and the queue advances to the
   * second, which opens beside it.
   */
  lemma CloseFirstDuringClose<K, E, V>(key: K, window: E, next: int, d: int, s: State<K, E, V>)
    requires var a := Rec<K, E, V>(key, window, next, OPENED, DelayerModel({d}, false, false));
      s == State(OrderedMap([next, next + 1], map[next := a, next + 1 := Fresh(key, window, next + 1)]), [ToState(a)])
    ensures var a3 := Rec<K, E, V>(key, window, next, CLOSING, DelayerModel({d}, true, false));
      var b1 := Rec<K, E, V>(key, window, next + 1, OPENED, Delayers.Initial);
      CloseOp(Queue(DuringClose), s, None)
      == State(OrderedMap([next, next + 1], map[next := a3, next + 1 := b1]), [ToState(a3), ToState(b1)])
  {
    var policy := Queue(DuringClose);
    var b0 := Fresh<K, E, V>(key, window, next + 1);
    var a3 := Rec<K, E, V>(key, window, next, CLOSING, DelayerModel({d}, true, false));
    var m1 := Set(s.instances, next, a3);
    CloseFirstHeld(policy, key, window, next, d, s);
    var before := map[next := a3];
    RefreshFirstHeld(key, window, next, d, s);
    AdvanceToLast(key, window, next + 1, [next], before, [ToState(a3)]);
    assert [next] + [next + 1] == [next, next + 1];
  }

  /** The `onCloseStart` handler for the first of two instances, now CLOSING, refreshes its entry and then advances the during-close queue. */
  lemma RefreshFirstHeld<K, E, V>(key: K, window: E, next: int, d: int, s: State<K, E, V>)
    requires var a := Rec<K, E, V>(key, window, next, OPENED, DelayerModel({d}, false, false));
      s == State(OrderedMap([next, next + 1], map[next := a, next + 1 := Fresh(key, window, next + 1)]), [ToState(a)])
    ensures var a3 := Rec<K, E, V>(key, window, next, CLOSING, DelayerModel({d}, true, false));
      var before := map[next := a3];
      OnCloseStartHook(Queue(DuringClose), s.(instances := Set(s.instances, next, a3)), ToState(a3))
      == AdvanceQueue(State(OrderedMap([next] + [next + 1], before[next + 1 := Fresh(key, window, next + 1)]), [ToState(a3)]))
  {
    var b0 := Fresh<K, E, V>(key, window, next + 1);
    var a3 := Rec<K, E, V>(key, window, next, CLOSING, DelayerModel({d}, true, false));
    var before := map[next := a3];
    assert Set(s.instances, next, a3) == OrderedMap([next] + [next + 1], before[next + 1 := b0]);
    assert Refreshed(s.published, ToState(a3)) == [ToState(a3)];
  }

  /** In `multiple` mode, two `open` calls from an empty registry put both modals on screen. */
  lemma MultipleOpensBoth<K, E, V>(key: K, window: E)
    ensures var w := map[key := window];
      var a1 := Rec<K, E, V>(key, window, 0, OPENED, Delayers.Initial);
      var b1 := Rec<K, E, V>(key, window, 1, OPENED, Delayers.Initial);
      OpenOp(Multiple, w, OpenOp(Multiple, w, EmptyState<K, E, V>(), 0, key, None).1, 1, key, None).1
      == State(OrderedMap([0, 1], map[0 := a1, 1 := b1]), [ToState(a1), ToState(b1)])
  {
    var w := map[key := window];
    var a1 := Rec<K, E, V>(key, window, 0, OPENED, Delayers.Initial);
    OpenOnEmpty<K, E, V>(Multiple, key, window, 0, false);
    OpenSecondShown(key, window, State(OrderedMap([0], map[0 := a1]), [ToState(a1)]));
  }

  /** In `multiple` mode, `open` beside one modal on screen registers the second and opens it at once. */
  lemma OpenSecondShown<K, E, V>(key: K, window: E, s: State<K, E, V>)
    requires var a1 := Rec<K, E, V>(key, window, 0, OPENED, Delayers.Initial);
      s == State(OrderedMap([0], map[0 := a1]), [ToState(a1)])
    ensures var a1 := Rec<K, E, V>(key, window, 0, OPENED, Delayers.Initial);
      var b1 := Rec<K, E, V>(key, window, 1, OPENED, Delayers.Initial);
      OpenOp(Multiple, map[key := window], s, 1, key, None).1
      == State(OrderedMap([0, 1], map[0 := a1, 1 := b1]), [ToState(a1), ToState(b1)])
  {
    var b0 := Fresh<K, E, V>(key, window, 1);
    var b1 := Rec<K, E, V>(key, window, 1, OPENED, Delayers.Initial);
    var m1 := Set(s.instances, 1, b0);
    assert m1 == OrderedMap([0, 1], s.instances.entries[1 := b0]);
    assert OpenStep(b0.model) == (b1.model, [HookEvent(OnOpen, OPENED)]);
    assert Set(m1, 1, b1) == OrderedMap([0, 1], s.instances.entries[1 := b1]);
    assert SnapshotAt(b1, OPENED) == ToState(b1);
  }

  /** During close: delayer 2 added to the first of two modals, then `close()`. */
  lemma HoldThenCloseFirst<K, E, V>(key: K, window: E)
    ensures var a := Rec<K, E, V>(key, window, 0, OPENED, Delayers.Initial);
      var s2 := State(OrderedMap([0, 1], map[0 := a, 1 := Fresh(key, window, 1)]), [ToState(a)]);
      var a3 := Rec<K, E, V>(key, window, 0, CLOSING, DelayerModel({2}, true, false));
      var b1 := Rec<K, E, V>(key, window, 1, OPENED, Delayers.Initial);
      CloseOp(Queue(DuringClose), AddDelayerOp(Queue(DuringClose), s2, 0, 2), None)
      == State(OrderedMap([0, 1], map[0 := a3, 1 := b1]), [ToState(a3), ToState(b1)])
  {
    var a := Rec<K, E, V>(key, window, 0, OPENED, Delayers.Initial);
    var s2 := State(OrderedMap([0, 1], map[0 := a, 1 := Fresh(key, window, 1)]), [ToState(a)]);
    AddDelayerToFirst(Queue(DuringClose), 0, 2, s2, a, Fresh(key, window, 1));
    assert AddCloseDelayerStep(InstanceModel(OPENED, Delayers.Initial), 2) == InstanceModel(OPENED, DelayerModel({2}, false, false));
    var s3 := AddDelayerOp(Queue(DuringClose), s2, 0, 2);
    CloseFirstDuringClose(key, window, 0, 2, s3);
  }

  /** During close: removing delayer 2 from the CLOSING first modal leaves the second alone on screen. */
  lemma ReleaseFirstOfTwo<K, E, V>(key: K, window: E)
    ensures var a3 := Rec<K, E, V>(key, window, 0, CLOSING, DelayerModel({2}, true, false));
      var b1 := Rec<K, E, V>(key, window, 1, OPENED, Delayers.Initial);
      RemoveDelayerOp(Queue(DuringClose), State(OrderedMap([0, 1], map[0 := a3, 1 := b1]), [ToState(a3), ToState(b1)]), 0, 2)
      == State(OrderedMap([1], map[1 := b1]), [ToState(b1)])
  {
    var a3 := Rec<K, E, V>(key, window, 0, CLOSING, DelayerModel({2}, true, false));
    var b1 := Rec<K, E, V>(key, window, 1, OPENED, Delayers.Initial);
    var s4 := State(OrderedMap([0, 1], map[0 := a3, 1 := b1]), [ToState(a3), ToState(b1)]);
    StallStep5(key, window, 0, 2, s4, b1);
    assert s4.published[1..] == [ToState(b1)];
  }

  // ---------------------------------------------------------------------
  // The tests, on the class

  /** `ModalMultiple.test.tsx`: in `multiple` mode, after two `open` calls both modals are on screen, in order. */
  method MultipleShowsBoth<K(==), E, V>(key: K, window: E) returns (shown: seq<ModalState<K, E, V>>)
    ensures shown == [ModalState(0, window, key, map[], OPENED), ModalState(1, window, key, map[], OPENED)]
  {
    var ids := new IdSource(0);
    var mgr := new ModalManager<K, E, V>(map[key := window], Multiple, ids);
    var o1 := mgr.Open(key, None);
    var o2 := mgr.Open(key, None);
    shown := mgr.modals.GetState();
    MultipleOpensBoth<K, E, V>(key, window);
  }

  /**
   * A queue manager after two `open` calls under `key`: the first modal (id
   * 0) is on screen, the second (id 1) waits, and the counter stands at 2.
   */
  method OpenTwoInQueue<K(==), E, V>(mode: AppearanceMode, key: K, window: E) returns (mgr: ModalManager<K, E, V>)
    ensures fresh(mgr) && fresh(mgr.ids) && fresh(mgr.modals) && fresh(mgr.modals.state) && fresh(mgr.modals.eventProvider)
    ensures mgr.Valid() && mgr.policy == Queue(mode) && mgr.modalWindows == map[key := window] && mgr.ids.next == 2
    ensures var a := Rec<K, E, V>(key, window, 0, OPENED, Delayers.Initial);
      mgr.Model() == State(OrderedMap([0, 1], map[0 := a, 1 := Fresh(key, window, 1)]), [ToState(a)])
  {
    var ids := new IdSource(0);
    mgr := new ModalManager<K, E, V>(map[key := window], Queue(mode), ids);
    var o1 := mgr.Open(key, None);
    OpenOnEmpty<K, E, V>(Queue(mode), key, window, 0, false);
    ghost var s1 := mgr.Model();
    var o2 := mgr.Open(key, None);
    OpenWhileOneShown(mode, key, window, 0, s1);
  }

  /**
   * `ModalQueueAfterClose.test.tsx`: in an after-close queue, after two
   * `open` calls only the first modal is on screen; after `close()` it is
   * gone and the second is on screen.
   */
  method QueueAfterClose<K(==), E, V>(key: K, window: E) returns (before: seq<ModalState<K, E, V>>, after: seq<ModalState<K, E, V>>)
    ensures before == [ModalState(0, window, key, map[], OPENED)]
    ensures after == [ModalState(1, window, key, map[], OPENED)]
  {
    var mgr := OpenTwoInQueue<K, E, V>(AfterClose, key, window);
    before := mgr.modals.GetState();
    ghost var b1 := Rec<K, E, V>(key, window, 1, OPENED, Delayers.Initial);
    CloseFirstAfterClose<K, E, V>(key, window, 0, mgr.Model());
    mgr.Close(None);
    assert mgr.Model() == State(OrderedMap([1], map[1 := b1]), [ToState(b1)]);
    after := mgr.modals.GetState();
  }

  /**
   * The first modal of a during-close queue gets a delayer (id 2), then
   * `close()` is called: it stays on screen, CLOSING, and the second opens.
   */
  method HoldAndCloseFirst<K(==), E, V>(mgr: ModalManager<K, E, V>, key: K, window: E)
    requires mgr.Valid() && mgr.policy == Queue(DuringClose) && mgr.ids.next == 2
    requires var a := Rec<K, E, V>(key, window, 0, OPENED, Delayers.Initial);
      mgr.Model() == State(OrderedMap([0, 1], map[0 := a, 1 := Fresh(key, window, 1)]), [ToState(a)])
    modifies mgr, mgr.ids, mgr.modals.state, mgr.modals.eventProvider`deliveries
    ensures mgr.Valid()
    ensures var a3 := Rec<K, E, V>(key, window, 0, CLOSING, DelayerModel({2}, true, false));
      var b1 := Rec<K, E, V>(key, window, 1, OPENED, Delayers.Initial);
      mgr.Model() == State(OrderedMap([0, 1], map[0 := a3, 1 := b1]), [ToState(a3), ToState(b1)])
  {
    var d := mgr.AddCloseDelayer(0);
    mgr.Close(None);
    HoldThenCloseFirst<K, E, V>(key, window);
  }

  /**
   * `ModalQueueDuringClose.test.tsx`: in a during-close queue, the first
   * modal holds a delayer (the test's `useModalCapture`); after `close()` it
   * is still on screen, closing, and the second is on screen too; after the
   * delayer is released only the second remains.
   */
  method QueueDuringClose<K(==), E, V>(key: K, window: E) returns (whileClosing: seq<ModalState<K, E, V>>, afterRelease: seq<ModalState<K, E, V>>)
    ensures whileClosing == [ModalState(0, window, key, map[], CLOSING), ModalState(1, window, key, map[], OPENED)]
    ensures afterRelease == [ModalState(1, window, key, map[], OPENED)]
  {
    var mgr := OpenTwoInQueue<K, E, V>(DuringClose, key, window);
    HoldAndCloseFirst(mgr, key, window);
    whileClosing := mgr.modals.GetState();
    ReleaseFirst(mgr, key, window);
    afterRelease := mgr.modals.GetState();
  }

  /** Removing delayer 2 from the CLOSING first modal closes it; the second stays on screen alone. */
  method ReleaseFirst<K(==), E, V>(mgr: ModalManager<K, E, V>, key: K, window: E)
    requires mgr.Valid() && mgr.policy == Queue(DuringClose)
    requires var a3 := Rec<K, E, V>(key, window, 0, CLOSING, DelayerModel({2}, true, false));
      var b1 := Rec<K, E, V>(key, window, 1, OPENED, Delayers.Initial);
      mgr.Model() == State(OrderedMap([0, 1], map[0 := a3, 1 := b1]), [ToState(a3), ToState(b1)])
    modifies mgr, mgr.modals.state, mgr.modals.eventProvider`deliveries
    ensures mgr.Valid()
    ensures var b1 := Rec<K, E, V>(key, window, 1, OPENED, Delayers.Initial);
      mgr.Model() == State(OrderedMap([1], map[1 := b1]), [ToState(b1)])
  {
    mgr.RemoveCloseDelayer(0, 2);
    ReleaseFirstOfTwo<K, E, V>(key, window);
  }
}
