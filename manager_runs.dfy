/**
 * Runs of the manager's public operations from an empty registry, with ids
 * from `generateId` (a counter, which `open` advances before it looks the
 * key up). The invariant of `ManagerInvariants` holds after every run that
 * uses the corrected admission rule; the during-close queue as written
 * reaches a state where an instance is registered but none is on screen,
 * and no call to `close` can change that.
 */
module ManagerRuns {
  import opened Optional
  import opened Listeners
  import opened Delayers
  import opened Instances
  import opened OrderedMaps
  import opened ManagerModel
  import opened ManagerLayout
  import opened ManagerInvariants

  /** A call on the manager: `open`, `close`, or a delayer added to or removed from an instance. */
  datatype ManagerOp<K, V> =
    | OpenModal(key: K, props: Option<map<string, V>>)
    | CloseModal(target: Option<int>)
    | AddDelayer(id: int, delayerId: int)
    | RemoveDelayer(id: int, delayerId: int)

  /** One call: the new state and the next id the counter will hand out. */
  function ManagerStep<K(==), E, V>(policy: Policy, windows: map<K, E>, s: State<K, E, V>, next: int,
                                    op: ManagerOp<K, V>, asWritten: bool): (r: (State<K, E, V>, int))
    requires Valid(s.instances)
    ensures Valid(r.0.instances)
  {
    match op
    case OpenModal(key, props) => (OpenWith(policy, windows, s, next, key, props, asWritten).1, next + 1)
    case CloseModal(target) => (CloseOp(policy, s, target), next)
    case AddDelayer(id, d) => (AddDelayerOp(policy, s, id, d), next)
    case RemoveDelayer(id, d) => (RemoveDelayerOp(policy, s, id, d), next)
  }

  function Run<K(==), E, V>(policy: Policy, windows: map<K, E>, s: State<K, E, V>, next: int,
                            ops: seq<ManagerOp<K, V>>, asWritten: bool): (r: (State<K, E, V>, int))
    requires Valid(s.instances)
    ensures Valid(r.0.instances)
    decreases |ops|
  {
    if ops == [] then (s, next)
    else
      var (s1, n1) := ManagerStep(policy, windows, s, next, ops[0], asWritten);
      Run(policy, windows, s1, n1, ops[1..], asWritten)
  }

  /** Every registered id is below the next id the counter hands out. */
  predicate IdsBelow<K, E, V>(s: State<K, E, V>, next: int)
  {
    forall k :: k in s.instances.entries ==> k < next
  }

  /** One call with the corrected admission rule keeps the invariant, and the ids stay fresh. */
  lemma StepKeepsInv<K, E, V>(policy: Policy, windows: map<K, E>, s: State<K, E, V>, next: int, op: ManagerOp<K, V>)
    requires Inv(policy, s) && IdsBelow(s, next)
    ensures var r := ManagerStep(policy, windows, s, next, op, false);
      Inv(policy, r.0) && IdsBelow(r.0, r.1)
  {
    match op
    case OpenModal(key, props) =>
      OpenKeepsInv(policy, windows, s, next, key, props);
      var r := OpenOp(policy, windows, s, next, key, props).1;
      forall k | k in r.instances.entries
        ensures k < next + 1
      {
        assert k in r.instances.keys;
      }
    case CloseModal(target) =>
      CloseKeepsInv(policy, s, target);
    case AddDelayer(id, d) =>
      AddDelayerOpKeepsInv(policy, s, id, d);
    case RemoveDelayer(id, d) =>
      RemoveDelayerOpKeepsInv(policy, s, id, d);
  }

  /** Every run with the corrected admission rule keeps the invariant. */
  lemma {:induction false} RunKeepsInv<K, E, V>(policy: Policy, windows: map<K, E>, s: State<K, E, V>, next: int,
                                                ops: seq<ManagerOp<K, V>>)
    requires Inv(policy, s) && IdsBelow(s, next)
    ensures var r := Run(policy, windows, s, next, ops, false);
      Inv(policy, r.0) && IdsBelow(r.0, r.1)
    decreases |ops|
  {
    if ops != [] {
      StepKeepsInv(policy, windows, s, next, ops[0]);
      var (s1, n1) := ManagerStep(policy, windows, s, next, ops[0], false);
      RunKeepsInv(policy, windows, s1, n1, ops[1..]);
    }
  }

  /**
   * From an empty registry, whatever the calls: while any instance is
   * registered, one is on screen; in `multiple` mode all of them are; in
   * after-close mode at most one is; in during-close mode every instance on
   * screen except the last is closing. The published list is the on-screen
   * instances' snapshots in registry order.
   */
  lemma NeverStalls<K, E, V>(policy: Policy, windows: map<K, E>, next: int, ops: seq<ManagerOp<K, V>>)
    ensures var s := Run(policy, windows, EmptyState(), next, ops, false).0;
      && Layout(s)
      && (s.instances.keys != [] ==> s.published != [])
      && (policy == Multiple ==> |s.published| == |s.instances.keys|)
      && (policy == Queue(AfterClose) ==> |s.published| <= 1)
      && (policy == Queue(DuringClose) ==> forall j :: 0 <= j < |s.published| - 1 ==> At(s, j).model.state == CLOSING)
  {
    EmptyInv<K, E, V>(policy);
    RunKeepsInv(policy, windows, EmptyState(), next, ops);
    var s := Run(policy, windows, EmptyState(), next, ops, false).0;
    assert forall j :: 0 <= j < |s.published| - 1 ==> States(s)[j] == At(s, j).model.state;
  }

  // ---------------------------------------------------------------------
  // The during-close stall

  /**
   * Open A (id `next`) under `key`, give it delayer `d`, close it (it stays
   * CLOSING), open B (id `next + 1`) under `key` while A is closing, then
   * remove A's delayer.
   */
  function StallOps<K, V>(key: K, next: int, d: int): seq<ManagerOp<K, V>>
  {
    [OpenModal(key, None), AddDelayer(next, d), CloseModal(Some(next)), OpenModal(key, None), RemoveDelayer(next, d)]
  }

  /** The record `open(key)` registers under `id`, before it opens. */
  function Fresh<K(==), E, V>(key: K, window: E, id: int): Instance<K, E, V>
  {
    NewInstance(map[key := window], id, key, None)
  }

  /** That record in lifecycle state `state`, with delayer state `dm`. */
  function Rec<K(==), E, V>(key: K, window: E, id: int, state: LifecycleState, dm: DelayerModel): (r: Instance<K, E, V>)
    ensures r.id == id && r.model == InstanceModel(state, dm)
    ensures ToState(r) == ModalState(id, window, key, map[], state)
  {
    Fresh(key, window, id).(model := InstanceModel(state, dm))
  }

  /** `open` on an empty registry registers the instance and opens it, whatever the policy and admission rule. */
  lemma OpenOnEmpty<K, E, V>(policy: Policy, key: K, window: E, next: int, asWritten: bool)
    ensures var a1 := Rec<K, E, V>(key, window, next, OPENED, Delayers.Initial);
      OpenWith(policy, map[key := window], EmptyState<K, E, V>(), next, key, None, asWritten)
      == (Pass, State(OrderedMap([next], map[next := a1]), [ToState(a1)]))
  {
    var w := map[key := window];
    var s0 := EmptyState<K, E, V>();
    var a0 := Fresh<K, E, V>(key, window, next);
    var a1 := Rec<K, E, V>(key, window, next, OPENED, Delayers.Initial);
    var s1 := s0.(instances := OrderedMap([next], map[next := a0]));
    assert OpenWith(policy, w, s0, next, key, None, asWritten).1 == OpenInstance(s1, next) by {
      assert Set(s0.instances, next, a0) == OrderedMap([next], map[next := a0]);
      assert Admits(policy, s1.instances, next) && AdmitsAsWritten(policy, s1.instances);
    }
    assert OpenInstance(s1, next) == State(OrderedMap([next], map[next := a1]), [ToState(a1)]) by {
      assert OpenStep(a0.model) == (a1.model, [HookEvent(OnOpen, OPENED)]);
      assert Set(s1.instances, next, a1) == OrderedMap([next], map[next := a1]);
      assert SnapshotAt(a1, OPENED) == ToState(a1);
    }
  }

  /** Step 2: A gets delayer `d`; nothing else changes. */
  lemma StallStep2<K, E, V>(key: K, window: E, next: int, d: int, s: State<K, E, V>)
    requires s.instances == OrderedMap([next], map[next := Rec(key, window, next, OPENED, Delayers.Initial)])
    ensures AddDelayerOp(Queue(DuringClose), s, next, d)
      == s.(instances := OrderedMap([next], map[next := Rec(key, window, next, OPENED, DelayerModel({d}, false, false))]))
  {
    var a2 := Rec<K, E, V>(key, window, next, OPENED, DelayerModel({d}, false, false));
    assert AddStep(Delayers.Initial, d) == DelayerModel({d}, false, false);
    assert InstanceStep(s.instances.entries[next].model, AddCloseDelayer(d)) == (a2.model, []);
    assert Set(s.instances, next, a2) == OrderedMap([next], map[next := a2]);
  }

  /** Step 3: `close(A)`: A is CLOSING, waiting for its delayer, and its published entry is refreshed. */
  lemma StallStep3<K, E, V>(key: K, window: E, next: int, d: int, s: State<K, E, V>)
    requires s.instances == OrderedMap([next], map[next := Rec(key, window, next, OPENED, DelayerModel({d}, false, false))])
    requires |s.published| == 1 && s.published[0].id == next
    ensures var a3 := Rec<K, E, V>(key, window, next, CLOSING, DelayerModel({d}, true, false));
      CloseOp(Queue(DuringClose), s, Some(next)) == State(OrderedMap([next], map[next := a3]), [ToState(a3)])
  {
    var policy := Queue(DuringClose);
    var a3 := Rec<K, E, V>(key, window, next, CLOSING, DelayerModel({d}, true, false));
    var s1 := s.(instances := Set(s.instances, next, a3));
    CloseHeldAlone(key, window, next, d, s);
    assert s1.instances == OrderedMap([next], map[next := a3]);
    assert Refreshed(s.published, ToState(a3)) == [ToState(a3)];
    assert FirstInQueue(s1.instances) == None;
  }

  /** `close(A)` on A alone, holding delayer `d`: A becomes CLOSING and only `onCloseStart` runs. */
  lemma CloseHeldAlone<K, E, V>(key: K, window: E, next: int, d: int, s: State<K, E, V>)
    requires s.instances == OrderedMap([next], map[next := Rec(key, window, next, OPENED, DelayerModel({d}, false, false))])
    ensures var a3 := Rec<K, E, V>(key, window, next, CLOSING, DelayerModel({d}, true, false));
      CloseOp(Queue(DuringClose), s, Some(next)) == OnCloseStartHook(Queue(DuringClose), s.(instances := Set(s.instances, next, a3)), ToState(a3))
  {
    var policy := Queue(DuringClose);
    var a2 := Rec<K, E, V>(key, window, next, OPENED, DelayerModel({d}, false, false));
    var a3 := Rec<K, E, V>(key, window, next, CLOSING, DelayerModel({d}, true, false));
    var e := HookEvent(OnCloseStart, CLOSING);
    assert InstanceStep(a2.model, StartClose) == (a3.model, [e]);
    DispatchOne(policy, s.(instances := Set(s.instances, next, a3)), a3, e);
    HandleCloseStart(policy, s, a3);
    assert a3.(model := a3.model.(state := CLOSING)) == a3;
  }

  /** Step 4 as written: two instances are registered, so B is not admitted and stays PENDING. */
  lemma StallStep4AsWritten<K, E, V>(key: K, window: E, next: int, d: int, s: State<K, E, V>)
    requires s.instances == OrderedMap([next], map[next := Rec(key, window, next, CLOSING, DelayerModel({d}, true, false))])
    ensures ManagerStep(Queue(DuringClose), map[key := window], s, next + 1, StallOps(key, next, d)[3], true)
      == (s.(instances := OrderedMap([next, next + 1], s.instances.entries[next + 1 := Fresh(key, window, next + 1)])), next + 2)
  {
    var b := Fresh<K, E, V>(key, window, next + 1);
    assert Set(s.instances, next + 1, b) == OrderedMap([next, next + 1], s.instances.entries[next + 1 := b]);
    assert !AdmitsAsWritten(Queue(DuringClose), Set(s.instances, next + 1, b));
  }

  /** Step 4 corrected: the only other instance is closing, so B opens at once. */
  lemma StallStep4<K, E, V>(key: K, window: E, next: int, d: int, s: State<K, E, V>)
    requires s.instances == OrderedMap([next], map[next := Rec(key, window, next, CLOSING, DelayerModel({d}, true, false))])
    ensures var b := Rec<K, E, V>(key, window, next + 1, OPENED, Delayers.Initial);
      ManagerStep(Queue(DuringClose), map[key := window], s, next + 1, StallOps(key, next, d)[3], false)
      == (State(OrderedMap([next, next + 1], s.instances.entries[next + 1 := b]), s.published + [ToState(b)]), next + 2)
  {
    var b0 := Fresh<K, E, V>(key, window, next + 1);
    var m1 := Set(s.instances, next + 1, b0);
    assert m1 == OrderedMap([next, next + 1], s.instances.entries[next + 1 := b0]);
    assert Admits(Queue(DuringClose), m1, next + 1);
    var b := Rec<K, E, V>(key, window, next + 1, OPENED, Delayers.Initial);
    assert SnapshotAt(b, OPENED) == ToState(b);
    assert Set(m1, next + 1, b) == OrderedMap([next, next + 1], s.instances.entries[next + 1 := b]);
  }

  /**
   * Step 5: A's last delayer goes while A is CLOSING and B is registered
   * after it: A closes and leaves the registry and the published list; in
   * during-close mode the queue does not advance.
   */
  lemma StallStep5<K, E, V>(key: K, window: E, next: int, d: int, s: State<K, E, V>, b: Instance<K, E, V>)
    requires s.instances == OrderedMap([next, next + 1], map[next := Rec(key, window, next, CLOSING, DelayerModel({d}, true, false)), next + 1 := b])
    requires b.id == next + 1
    requires |s.published| >= 1 && s.published[0].id == next && forall j :: 1 <= j < |s.published| ==> s.published[j].id != next
    ensures RemoveDelayerOp(Queue(DuringClose), s, next, d) == State(OrderedMap([next + 1], map[next + 1 := b]), s.published[1..])
  {
    var a3 := Rec<K, E, V>(key, window, next, CLOSING, DelayerModel({d}, true, false));
    ReleaseLastDelayer(Queue(DuringClose), key, window, next, d, s);
    DeleteFirstOfTwo(next, a3, b);
    assert WithoutId(s.published, next) == s.published[1..] by {
      WithoutIdAt(s.published, next, 0);
    }
  }

  /** Removing the only delayer of the CLOSING instance `next` closes it: only `onClosed` runs. */
  lemma ReleaseLastDelayer<K, E, V>(policy: Policy, key: K, window: E, next: int, d: int, s: State<K, E, V>)
    requires Valid(s.instances) && next in s.instances.entries
    requires s.instances.entries[next] == Rec(key, window, next, CLOSING, DelayerModel({d}, true, false))
    ensures RemoveDelayerOp(policy, s, next, d) == OnClosedHook(policy, s, next)
  {
    var a3 := Rec<K, E, V>(key, window, next, CLOSING, DelayerModel({d}, true, false));
    var a4 := Rec<K, E, V>(key, window, next, CLOSED, DelayerModel({}, true, true));
    var e := HookEvent(OnClosed, CLOSED);
    assert InstanceStep(a3.model, RemoveCloseDelayer(d)) == (a4.model, [e]);
    DispatchOne(policy, s.(instances := Set(s.instances, next, a4)), a4, e);
    HandleClosed(policy, s, a4, a4);
  }

  /** Deleting the first of two keys leaves the second alone. */
  lemma DeleteFirstOfTwo<V>(k: int, a: V, b: V)
    ensures Delete(OrderedMap([k, k + 1], map[k := a, k + 1 := b]), k) == OrderedMap([k + 1], map[k + 1 := b])
  {
    assert Removed([k, k + 1], k) == [k + 1];
    assert map[k := a, k + 1 := b] - {k} == map[k + 1 := b];
  }

  /** What is left after the five calls: B alone, PENDING as written and not on screen, or OPENED and on screen. */
  function StallEnd<K(==), E, V>(key: K, window: E, next: int, asWritten: bool): State<K, E, V>
  {
    if asWritten then State(OrderedMap([next + 1], map[next + 1 := Fresh(key, window, next + 1)]), [])
    else
      var b := Rec(key, window, next + 1, OPENED, Delayers.Initial);
      State(OrderedMap([next + 1], map[next + 1 := b]), [ToState(b)])
  }

  /** The last call, from the state after step 4. */
  lemma RunFrom4<K, E, V>(key: K, window: E, next: int, d: int, asWritten: bool, s: State<K, E, V>)
    requires var a3 := Rec(key, window, next, CLOSING, DelayerModel({d}, true, false));
      var b := if asWritten then Fresh(key, window, next + 1) else Rec(key, window, next + 1, OPENED, Delayers.Initial);
      && s.instances == OrderedMap([next, next + 1], map[next := a3, next + 1 := b])
      && s.published == if asWritten then [ToState(a3)] else [ToState(a3), ToState(b)]
    ensures Run(Queue(DuringClose), map[key := window], s, next + 2, StallOps<K, V>(key, next, d)[4..], asWritten)
      == (StallEnd(key, window, next, asWritten), next + 2)
  {
    var b := if asWritten then Fresh<K, E, V>(key, window, next + 1) else Rec<K, E, V>(key, window, next + 1, OPENED, Delayers.Initial);
    var policy, w := Queue(DuringClose), map[key := window];
    var op: ManagerOp<K, V> := RemoveDelayer(next, d);
    var r := (StallEnd<K, E, V>(key, window, next, asWritten), next + 2);
    assert ManagerStep(policy, w, s, next + 2, op, asWritten) == r by {
      assert s.published[0].id == next && forall j :: 1 <= j < |s.published| ==> s.published[j].id != next;
      StallStep5(key, window, next, d, s, b);
    }
    assert StallOps<K, V>(key, next, d)[4..] == [op];
    assert [op][1..] == [];
  }

  /** The last two calls, from the state after step 3. */
  lemma RunFrom3<K, E, V>(key: K, window: E, next: int, d: int, asWritten: bool, s: State<K, E, V>)
    requires var a3 := Rec(key, window, next, CLOSING, DelayerModel({d}, true, false));
      s == State(OrderedMap([next], map[next := a3]), [ToState(a3)])
    ensures Run(Queue(DuringClose), map[key := window], s, next + 1, StallOps<K, V>(key, next, d)[3..], asWritten)
      == (StallEnd(key, window, next, asWritten), next + 2)
  {
    var ops := StallOps<K, V>(key, next, d);
    assert ops[3..][0] == ops[3] && ops[3..][1..] == ops[4..];
    var r4 := ManagerStep(Queue(DuringClose), map[key := window], s, next + 1, ops[3], asWritten);
    if asWritten {
      StallStep4AsWritten(key, window, next, d, s);
    } else {
      StallStep4(key, window, next, d, s);
    }
    RunFrom4(key, window, next, d, asWritten, r4.0);
  }

  /** The last three calls, from the state after step 2. */
  lemma RunFrom2<K, E, V>(key: K, window: E, next: int, d: int, asWritten: bool, s: State<K, E, V>)
    requires s == State(OrderedMap([next], map[next := Rec(key, window, next, OPENED, DelayerModel({d}, false, false))]),
                        [ToState(Rec(key, window, next, OPENED, Delayers.Initial))])
    ensures Run(Queue(DuringClose), map[key := window], s, next + 1, StallOps<K, V>(key, next, d)[2..], asWritten)
      == (StallEnd(key, window, next, asWritten), next + 2)
  {
    var ops := StallOps<K, V>(key, next, d);
    assert ops[2..][0] == ops[2] && ops[2..][1..] == ops[3..];
    StallStep3(key, window, next, d, s);
    var r3 := ManagerStep(Queue(DuringClose), map[key := window], s, next + 1, ops[2], asWritten);
    RunFrom3(key, window, next, d, asWritten, r3.0);
  }

  /** The last four calls, from the state after step 1. */
  lemma RunFrom1<K, E, V>(key: K, window: E, next: int, d: int, asWritten: bool, s: State<K, E, V>)
    requires var a1 := Rec(key, window, next, OPENED, Delayers.Initial);
      s == State(OrderedMap([next], map[next := a1]), [ToState(a1)])
    ensures Run(Queue(DuringClose), map[key := window], s, next + 1, StallOps<K, V>(key, next, d)[1..], asWritten)
      == (StallEnd(key, window, next, asWritten), next + 2)
  {
    var ops := StallOps<K, V>(key, next, d);
    assert ops[1..][0] == ops[1] && ops[1..][1..] == ops[2..];
    StallStep2(key, window, next, d, s);
    var r2 := ManagerStep(Queue(DuringClose), map[key := window], s, next + 1, ops[1], asWritten);
    RunFrom2(key, window, next, d, asWritten, r2.0);
  }

  /** All five calls from an empty registry. */
  lemma StallRun<K, E, V>(key: K, window: E, next: int, d: int, asWritten: bool)
    ensures Run(Queue(DuringClose), map[key := window], EmptyState<K, E, V>(), next, StallOps<K, V>(key, next, d), asWritten)
      == (StallEnd(key, window, next, asWritten), next + 2)
  {
    var ops := StallOps<K, V>(key, next, d);
    var r1 := ManagerStep(Queue(DuringClose), map[key := window], EmptyState<K, E, V>(), next, ops[0], asWritten);
    assert r1.0 == OpenWith(Queue(DuringClose), map[key := window], EmptyState<K, E, V>(), next, key, None, asWritten).1 by {
      assert ops[0] == OpenModal(key, None);
    }
    OpenOnEmpty<K, E, V>(Queue(DuringClose), key, window, next, asWritten);
    RunFrom1(key, window, next, d, asWritten, r1.0);
  }

  /**
   * As written, B is registered but not admitted (two instances are
   * registered), and when A closes nothing advances the queue in
   * during-close mode: B is left PENDING with nothing on screen, neither
   * `close()` nor `close(B)` changes anything, and the invariant is broken.
   */
  lemma AsWrittenStalls<K, E, V>(key: K, window: E, next: int, d: int)
    ensures var s := Run(Queue(DuringClose), map[key := window], EmptyState<K, E, V>(), next, StallOps(key, next, d), true).0;
      && s.instances.keys == [next + 1]
      && next + 1 in s.instances.entries && s.instances.entries[next + 1].model.state == PENDING
      && s.published == []
      && CloseOp(Queue(DuringClose), s, None) == s
      && CloseOp(Queue(DuringClose), s, Some(next + 1)) == s
      && !Inv(Queue(DuringClose), s)
  {
    StallRun<K, E, V>(key, window, next, d, true);
    var s := StallEnd<K, E, V>(key, window, next, true);
    SetSame(s.instances, next + 1);
    assert States(s)[0] == PENDING;
  }

  /** The corrected admission rule on the same calls opens B as soon as it is registered, and B stays on screen. */
  lemma CorrectedOpensB<K, E, V>(key: K, window: E, next: int, d: int)
    ensures var s := Run(Queue(DuringClose), map[key := window], EmptyState<K, E, V>(), next, StallOps(key, next, d), false).0;
      && s.instances.keys == [next + 1]
      && next + 1 in s.instances.entries && s.instances.entries[next + 1].model.state == OPENED
      && |s.published| == 1 && s.published[0].id == next + 1
  {
    StallRun<K, E, V>(key, window, next, d, false);
  }
}
