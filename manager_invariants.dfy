/**
 * What the manager of `useModalManager.ts` keeps true between calls, for each
 * lifecycle policy, and the proof that every public operation keeps it.
 *
 * `PolicyOk` reads the lifecycle states of the registered instances in
 * registry order (`States`) together with the number of them on screen (the
 * length of the published list, which `Layout` ties to the on-screen prefix):
 *  - whenever an instance is registered, at least one is on screen, so the
 *    queue never stalls;
 *  - `multiple`: every registered instance is on screen;
 *  - queue, after-close: at most one instance is on screen;
 *  - queue, during-close: every instance on screen except the last is
 *    closing, and the last is OPENED while others still wait.
 */
module ManagerInvariants {
  import opened Optional
  import opened Listeners
  import opened Delayers
  import opened Instances
  import opened OrderedMaps
  import opened ManagerModel
  import opened ManagerLayout

  predicate PolicyOk(policy: Policy, st: seq<LifecycleState>, p: nat)
  {
    && p <= |st|
    && (|st| > 0 ==> p > 0)
    && match policy
       case Multiple => p == |st|
       case Queue(AfterClose) => p <= 1
       case Queue(DuringClose) =>
         && (forall j :: 0 <= j < p - 1 ==> st[j] == CLOSING)
         && (p < |st| ==> st[p - 1] == OPENED)
  }

  /** The manager's invariant between calls. */
  ghost predicate Inv<K, E, V>(policy: Policy, s: State<K, E, V>)
  {
    && Layout(s)
    && AllConsistent(s)
    && PolicyOk(policy, States(s), |s.published|)
  }

  lemma EmptyInv<K, E, V>(policy: Policy)
    ensures Inv(policy, EmptyState<K, E, V>())
  {
  }

  /** The registry position of a registered id. */
  lemma PositionOf<K, E, V>(s: State<K, E, V>, t: int) returns (i: nat)
    requires Valid(s.instances) && t in s.instances.entries
    ensures i < |s.instances.keys| && s.instances.keys[i] == t && At(s, i) == s.instances.entries[t]
  {
    assert t in s.instances.keys;
    i :| 0 <= i < |s.instances.keys| && s.instances.keys[i] == t;
  }

  // ---------------------------------------------------------------------
  // The policy clause, on the sequence of states alone

  /** Registering a new instance that opens at once. */
  lemma PolicyOpenedLast(policy: Policy, st: seq<LifecycleState>, p: nat)
    requires PolicyOk(policy, st, p) && p == |st|
    requires policy == Queue(AfterClose) ==> st == []
    requires policy == Queue(DuringClose) ==> forall j :: 0 <= j < |st| ==> st[j] == CLOSING
    ensures PolicyOk(policy, st + [OPENED], p + 1)
  {
  }

  /** Registering a new instance that waits. */
  lemma PolicyPendingLast(policy: Policy, st: seq<LifecycleState>, p: nat)
    requires PolicyOk(policy, st, p) && policy != Multiple
    requires policy == Queue(AfterClose) ==> st != []
    requires policy == Queue(DuringClose) && p == |st| ==> p > 0 && st[p - 1] == OPENED
    ensures PolicyOk(policy, st + [PENDING], p)
  {
  }

  /** The instance at on-screen position `i` starts closing; in during-close mode the next one opens. */
  lemma PolicyStartClose(policy: Policy, st: seq<LifecycleState>, p: nat, i: nat)
    requires PolicyOk(policy, st, p) && i < p && st[i] == OPENED
    ensures policy.Queue? ==> i == p - 1
    ensures policy == Queue(DuringClose) && p < |st| ==> PolicyOk(policy, st[i := CLOSING][p := OPENED], p + 1)
    ensures policy != Queue(DuringClose) || p == |st| ==> PolicyOk(policy, st[i := CLOSING], p)
  {
  }

  /**
   * The closing instance at on-screen position `i` leaves; in after-close
   * mode the queue has not advanced yet, so only "at most one on screen" is
   * claimed there.
   */
  lemma PolicyRemove(policy: Policy, st: seq<LifecycleState>, p: nat, i: nat)
    requires PolicyOk(policy, st, p) && i < p && st[i] == CLOSING
    requires policy == Queue(DuringClose) && p < |st| ==> i < p - 1
    ensures policy != Queue(AfterClose) ==> PolicyOk(policy, st[..i] + st[i + 1..], p - 1)
    ensures policy == Queue(AfterClose) ==> p - 1 == 0
  {
    var st' := st[..i] + st[i + 1..];
    assert forall j :: 0 <= j < i ==> st'[j] == st[j];
    assert forall j :: i <= j < |st'| ==> st'[j] == st[j + 1];
  }

  /** After-close mode: once the closed instance is gone, advancing the queue shows the next one. */
  lemma PolicyAdvanceAfterClose(st: seq<LifecycleState>)
    ensures st == [] ==> PolicyOk(Queue(AfterClose), st, 0)
    ensures st != [] ==> PolicyOk(Queue(AfterClose), st[0 := OPENED], 1)
  {
  }

  // ---------------------------------------------------------------------
  // The operations

  /**
   * `open(key, options)` keeps the invariant. An unknown key changes nothing;
   * otherwise the new instance is registered last, and in `multiple` mode it
   * is on screen at once.
   */
  lemma OpenKeepsInv<K, E, V>(policy: Policy, windows: map<K, E>, s: State<K, E, V>, id: int, key: K,
                                  props: Option<map<string, V>>)
    requires Inv(policy, s) && id !in s.instances.entries
    ensures var r := OpenOp(policy, windows, s, id, key, props);
      && Inv(policy, r.1)
      && (key !in windows ==> r == (Fail(ModalNotFound(key)), s))
      && (key in windows ==> r.0 == Pass && r.1.instances.keys == s.instances.keys + [id])
      && (key in windows && policy == Multiple ==> r.1.instances.entries[id].model.state == OPENED)
  {
    if key in windows {
      OpenRegisteredKeepsInv(policy, windows, s, id, key, props);
    }
  }

  lemma OpenRegisteredKeepsInv<K, E, V>(policy: Policy, windows: map<K, E>, s: State<K, E, V>, id: int, key: K,
                                            props: Option<map<string, V>>)
    requires Inv(policy, s) && id !in s.instances.entries && key in windows
    ensures var r := OpenOp(policy, windows, s, id, key, props).1;
      && Inv(policy, r)
      && r.instances.keys == s.instances.keys + [id]
      && (policy == Multiple ==> r.instances.entries[id].model.state == OPENED)
  {
    var inst := NewInstance(windows, id, key, props);
    var s1 := s.(instances := Set(s.instances, id, inst));
    if Admits(policy, s1.instances, id) {
      AdmittedKeepsInv(policy, s, inst);
    } else {
      WaitingKeepsInv(policy, s, inst);
    }
  }

  /** A new instance that the policy admits is registered last and opened. */
  lemma AdmittedKeepsInv<K, E, V>(policy: Policy, s: State<K, E, V>, inst: Instance<K, E, V>)
    requires Inv(policy, s) && inst.id !in s.instances.entries && inst.model == InitialInstance
    requires Admits(policy, Set(s.instances, inst.id, inst), inst.id)
    ensures var r := OpenInstance(s.(instances := Set(s.instances, inst.id, inst)), inst.id);
      && Inv(policy, r)
      && r.instances.keys == s.instances.keys + [inst.id]
      && r.instances.entries[inst.id].model.state == OPENED
  {
    var s1 := s.(instances := Set(s.instances, inst.id, inst));
    RegisterKeepsLayout(s, inst);
    assert AllConsistent(s1) by {
      assert InstanceConsistent(inst.model);
    }
    AdmittedOnlyWhenAllShown(policy, s, inst);
    OpenNextKeepsLayout(s1);
    InstanceStepProperties(inst.model, Open);
    PolicyOpenedLast(policy, States(s), |s.published|);
  }

  /** A new instance that the policy does not admit is registered last and waits. */
  lemma WaitingKeepsInv<K, E, V>(policy: Policy, s: State<K, E, V>, inst: Instance<K, E, V>)
    requires Inv(policy, s) && inst.id !in s.instances.entries && inst.model == InitialInstance
    requires !Admits(policy, Set(s.instances, inst.id, inst), inst.id)
    ensures var r := s.(instances := Set(s.instances, inst.id, inst));
      && Inv(policy, r)
      && r.instances.keys == s.instances.keys + [inst.id]
      && policy != Multiple
  {
    var s1 := s.(instances := Set(s.instances, inst.id, inst));
    RegisterKeepsLayout(s, inst);
    assert AllConsistent(s1) by {
      assert InstanceConsistent(inst.model);
    }
    NotAdmittedWaits(policy, s, inst);
    PolicyPendingLast(policy, States(s), |s.published|);
  }

  /** A freshly registered instance is admitted only when every earlier one is on screen (and, during close, closing). */
  lemma AdmittedOnlyWhenAllShown<K, E, V>(policy: Policy, s: State<K, E, V>, inst: Instance<K, E, V>)
    requires Inv(policy, s) && inst.id !in s.instances.entries
    requires Admits(policy, Set(s.instances, inst.id, inst), inst.id)
    ensures |s.published| == |s.instances.keys|
    ensures policy == Queue(AfterClose) ==> States(s) == []
    ensures policy == Queue(DuringClose) ==> forall j :: 0 <= j < |States(s)| ==> States(s)[j] == CLOSING
  {
    var p, n := |s.published|, |s.instances.keys|;
    if policy == Queue(DuringClose) {
      var m1 := Set(s.instances, inst.id, inst);
      forall j | 0 <= j < n
        ensures At(s, j).model.state == CLOSING
      {
        var k := s.instances.keys[j];
        assert k != inst.id && k in m1.entries && m1.entries[k] == At(s, j);
      }
    }
  }

  /** A freshly registered instance that is not admitted leaves an OPENED instance last on screen, during close. */
  lemma NotAdmittedWaits<K, E, V>(policy: Policy, s: State<K, E, V>, inst: Instance<K, E, V>)
    requires Inv(policy, s) && inst.id !in s.instances.entries
    requires !Admits(policy, Set(s.instances, inst.id, inst), inst.id)
    ensures policy != Multiple
    ensures policy == Queue(AfterClose) ==> States(s) != []
    ensures policy == Queue(DuringClose) && |s.published| == |s.instances.keys| ==>
      |s.published| > 0 && States(s)[|s.published| - 1] == OPENED
  {
    var p, n := |s.published|, |s.instances.keys|;
    var m1 := Set(s.instances, inst.id, inst);
    if policy == Queue(DuringClose) && p == n {
      var k :| k in m1.entries && k != inst.id && m1.entries[k].model.state != CLOSING;
      var j := PositionOf(s, k);
      assert At(s, j).model.state == OPENED;
    }
  }

  // ---------------------------------------------------------------------
  // How the manager's handlers see an instance operation

  /** The `onCloseStart` handler for an instance record `inst` stored under its own id. */
  lemma HandleCloseStart<K, E, V>(policy: Policy, s: State<K, E, V>, inst: Instance<K, E, V>)
    requires Valid(s.instances) && inst.id in s.instances.entries
    ensures var c := inst.(model := inst.model.(state := CLOSING));
      Handle(policy, s.(instances := Set(s.instances, inst.id, inst)), inst, HookEvent(OnCloseStart, CLOSING))
      == OnCloseStartHook(policy, s.(instances := Set(s.instances, inst.id, c)), ToState(c))
  {
    var c := inst.(model := inst.model.(state := CLOSING));
    SetTwice(s.instances, inst.id, inst, c);
    assert SnapshotAt(inst, CLOSING) == ToState(c);
  }

  /** The `onClosed` handler for a CLOSED record `inst`, whatever record was stored under its id. */
  lemma HandleClosed<K, E, V>(policy: Policy, s: State<K, E, V>, inst: Instance<K, E, V>, x: Instance<K, E, V>)
    requires Valid(s.instances) && inst.id in s.instances.entries && inst.model.state == CLOSED
    ensures Handle(policy, s.(instances := Set(s.instances, inst.id, x)), inst, HookEvent(OnClosed, CLOSED))
      == OnClosedHook(policy, s, inst.id)
  {
    assert inst.(model := inst.model.(state := CLOSED)) == inst;
    SetTwice(s.instances, inst.id, x, inst);
    DeleteAfterSet(s.instances, inst.id, inst);
  }

  /**
   * The `onCloseStart` handler after the OPENED instance at position `i` has
   * become the CLOSING record `c`: the refresh, and in during-close mode the
   * queue advance, keep the layout and the policy clause.
   */
  lemma CloseStartKeepsInv<K, E, V>(policy: Policy, s: State<K, E, V>, i: nat, c: Instance<K, E, V>)
    requires Inv(policy, s) && i < |s.instances.keys| && At(s, i).model.state == OPENED
    requires c.id == s.instances.keys[i] && c.model.state == CLOSING
    ensures var r := OnCloseStartHook(policy, s.(instances := Set(s.instances, c.id, c)), ToState(c));
      && Layout(r)
      && r.instances.keys == s.instances.keys
      && i < |r.published| && States(r)[i] == CLOSING
      && PolicyOk(policy, States(r), |r.published|)
      && (policy == Queue(DuringClose) && |r.published| < |r.instances.keys| ==> i < |r.published| - 1)
      && ConsistentBut(r, c.id)
      && (InstanceConsistent(c.model) ==> AllConsistent(r))
  {
    var p, n := |s.published|, |s.instances.keys|;
    var st := States(s);
    assert i < p;
    RefreshKeepsLayout(s, i, c);
    var s2 := State(Set(s.instances, c.id, c), Refreshed(s.published, ToState(c)));
    assert ConsistentBut(s2, c.id);
    assert InstanceConsistent(c.model) ==> AllConsistent(s2);
    AdvanceKeepsLayout(s2);
    PolicyStartClose(policy, st, p, i);
  }

  /**
   * The `onClosed` handler for the CLOSING instance at on-screen position `i`:
   * its removal, and in after-close mode the queue advance, restore the
   * invariant.
   */
  lemma ClosedKeepsInv<K, E, V>(policy: Policy, s: State<K, E, V>, i: nat)
    requires Layout(s) && i < |s.published| && At(s, i).model.state == CLOSING
    requires ConsistentBut(s, s.instances.keys[i])
    requires PolicyOk(policy, States(s), |s.published|)
    requires policy == Queue(DuringClose) && |s.published| < |s.instances.keys| ==> i < |s.published| - 1
    ensures Inv(policy, OnClosedHook(policy, s, s.instances.keys[i]))
  {
    var t := s.instances.keys[i];
    var s5 := State(Delete(s.instances, t), WithoutId(s.published, t));
    RemoveKeepsLayout(s, i);
    assert AllConsistent(s5) by {
      assert s5.instances.entries == s.instances.entries - {t};
    }
    PolicyRemove(policy, States(s), |s.published|, i);
    if policy == Queue(AfterClose) {
      AdvanceRestoresAfterClose(s5);
    } else {
      assert OnClosedHook(policy, s, t) == s5;
    }
  }

  /** After-close mode: with nothing on screen, advancing the queue restores the invariant. */
  lemma AdvanceRestoresAfterClose<K, E, V>(s: State<K, E, V>)
    requires Layout(s) && AllConsistent(s) && |s.published| == 0
    ensures Inv(Queue(AfterClose), AdvanceQueue(s))
  {
    AdvanceKeepsLayout(s);
    PolicyAdvanceAfterClose(States(s));
  }

  /**
   * `startClose` on a registered instance, with the manager's handlers, keeps
   * the invariant. It does nothing unless the instance is OPENED; then the
   * instance stays CLOSING while a delayer is outstanding, and otherwise
   * closes at once and leaves the registry.
   */
  lemma StartCloseKeepsInv<K, E, V>(policy: Policy, s: State<K, E, V>, t: int)
    requires Inv(policy, s) && t in s.instances.entries
    ensures var m, r := s.instances.entries[t].model, ApplyToInstance(policy, s, t, StartClose);
      && Inv(policy, r)
      && (m.state != OPENED ==> r == s)
      && (m.state == OPENED && m.delayer.delayers != {} ==> t in r.instances.entries && r.instances.entries[t].model.state == CLOSING)
      && (m.state == OPENED && m.delayer.delayers == {} ==> t !in r.instances.entries)
  {
    var inst := s.instances.entries[t];
    var m := inst.model;
    var step := InstanceStep(m, StartClose);
    var inst' := inst.(model := step.0);
    var s0 := s.(instances := Set(s.instances, t, inst'));
    var i := PositionOf(s, t);
    InstanceStepProperties(m, StartClose);
    if m.state != OPENED {
      SetSame(s.instances, t);
    } else if m.delayer.delayers != {} {
      var e := HookEvent(OnCloseStart, CLOSING);
      assert step.1 == [e] && step.0.state == CLOSING;
      DispatchOne(policy, s0, inst', e);
      HandleCloseStart(policy, s, inst');
      assert inst'.(model := inst'.model.(state := CLOSING)) == inst';
      CloseStartKeepsInv(policy, s, i, inst');
      var r := ApplyToInstance(policy, s, t, StartClose);
      assert At(r, i) == r.instances.entries[t];
    } else {
      var e0, e1 := HookEvent(OnCloseStart, CLOSING), HookEvent(OnClosed, CLOSED);
      assert step.1 == [e0, e1] && step.0.state == CLOSED;
      var s1 := Handle(policy, s0, inst', e0);
      DispatchTwo(policy, s0, inst', e0, e1);
      var c := inst'.(model := inst'.model.(state := CLOSING));
      HandleCloseStart(policy, s, inst');
      CloseStartKeepsInv(policy, s, i, c);
      HandleClosed(policy, s1, inst', s1.instances.entries[t]);
      SetSame(s1.instances, t);
      ClosedKeepsInv(policy, s1, i);
    }
  }

  /**
   * Removing a delayer from a registered instance, with the manager's
   * handlers, keeps the invariant. Removing the last outstanding delayer of a
   * CLOSING instance closes it and it leaves the registry; otherwise no
   * lifecycle state and no published entry changes.
   */
  lemma RemoveDelayerKeepsInv<K, E, V>(policy: Policy, s: State<K, E, V>, t: int, d: int)
    requires Inv(policy, s) && t in s.instances.entries
    ensures var m, r := s.instances.entries[t].model, ApplyToInstance(policy, s, t, RemoveCloseDelayer(d));
      && Inv(policy, r)
      && (m.state == CLOSING && m.delayer.delayers - {d} == {} ==> t !in r.instances.entries)
      && (m.state != CLOSING || m.delayer.delayers - {d} != {} ==>
            r.published == s.published && r.instances.keys == s.instances.keys && States(r) == States(s))
  {
    var m := s.instances.entries[t].model;
    if m.state == CLOSING && m.delayer.delayers - {d} == {} {
      RemoveLastDelayerKeepsInv(policy, s, t, d);
    } else {
      RemoveOtherDelayerKeepsInv(policy, s, t, d);
    }
  }

  /** Removing the last outstanding delayer of a CLOSING instance: it closes and leaves the registry. */
  lemma RemoveLastDelayerKeepsInv<K, E, V>(policy: Policy, s: State<K, E, V>, t: int, d: int)
    requires Inv(policy, s) && t in s.instances.entries
    requires s.instances.entries[t].model.state == CLOSING && s.instances.entries[t].model.delayer.delayers - {d} == {}
    ensures var r := ApplyToInstance(policy, s, t, RemoveCloseDelayer(d));
      Inv(policy, r) && t !in r.instances.entries
  {
    ReleaseRunsClosedHook(policy, s, t, d);
    var i := PositionOf(s, t);
    ClosingOnScreen(policy, s, i);
    ClosedKeepsInv(policy, s, i);
  }

  /** Removing the last delayer of a CLOSING instance ends its close: the manager runs its `onClosed` handler. */
  lemma ReleaseRunsClosedHook<K, E, V>(policy: Policy, s: State<K, E, V>, t: int, d: int)
    requires Valid(s.instances) && t in s.instances.entries && s.instances.entries[t].id == t
    requires InstanceConsistent(s.instances.entries[t].model)
    requires s.instances.entries[t].model.state == CLOSING && s.instances.entries[t].model.delayer.delayers - {d} == {}
    ensures ApplyToInstance(policy, s, t, RemoveCloseDelayer(d)) == OnClosedHook(policy, s, t)
  {
    var inst := s.instances.entries[t];
    var step := InstanceStep(inst.model, RemoveCloseDelayer(d));
    var inst' := inst.(model := step.0);
    var e := HookEvent(OnClosed, CLOSED);
    assert step.1 == [e] && step.0.state == CLOSED;
    DispatchOne(policy, s.(instances := Set(s.instances, t, inst')), inst', e);
    HandleClosed(policy, s, inst', inst');
  }

  /** A CLOSING instance is on screen, and in during-close mode it is not the last one shown while others wait. */
  lemma ClosingOnScreen<K, E, V>(policy: Policy, s: State<K, E, V>, i: nat)
    requires Inv(policy, s) && i < |s.instances.keys| && At(s, i).model.state == CLOSING
    ensures i < |s.published|
    ensures ConsistentBut(s, s.instances.keys[i])
    ensures policy == Queue(DuringClose) && |s.published| < |s.instances.keys| ==> i < |s.published| - 1
  {
    assert States(s)[i] == CLOSING;
  }

  /** Removing a delayer in any other case changes no lifecycle state and no published entry. */
  lemma RemoveOtherDelayerKeepsInv<K, E, V>(policy: Policy, s: State<K, E, V>, t: int, d: int)
    requires Inv(policy, s) && t in s.instances.entries
    requires s.instances.entries[t].model.state != CLOSING || s.instances.entries[t].model.delayer.delayers - {d} != {}
    ensures var r := ApplyToInstance(policy, s, t, RemoveCloseDelayer(d));
      && Inv(policy, r)
      && r.published == s.published && r.instances.keys == s.instances.keys && States(r) == States(s)
  {
    var inst := s.instances.entries[t];
    var step := InstanceStep(inst.model, RemoveCloseDelayer(d));
    var inst' := inst.(model := step.0);
    var i := PositionOf(s, t);
    InstanceStepProperties(inst.model, RemoveCloseDelayer(d));
    assert step.1 == [] && step.0.state == inst.model.state;
    assert ToState(inst') == ToState(At(s, i));
    ReplaceKeepsLayout(s, i, inst');
  }

  /** Adding a delayer to a registered instance keeps the invariant; it changes no lifecycle state and no published entry. */
  lemma AddDelayerKeepsInv<K, E, V>(policy: Policy, s: State<K, E, V>, t: int, d: int)
    requires Inv(policy, s) && t in s.instances.entries
    ensures var r := ApplyToInstance(policy, s, t, AddCloseDelayer(d));
      && Inv(policy, r)
      && r.published == s.published && r.instances.keys == s.instances.keys && States(r) == States(s)
  {
    var inst := s.instances.entries[t];
    var inst' := inst.(model := AddCloseDelayerStep(inst.model, d));
    var i := PositionOf(s, t);
    InstanceStepProperties(inst.model, AddCloseDelayer(d));
    assert ToState(inst') == ToState(At(s, i));
    ReplaceKeepsLayout(s, i, inst');
  }

  // ---------------------------------------------------------------------
  // The public operations

  /** `close(id?)` keeps the invariant; with no target it changes nothing. */
  lemma CloseKeepsInv<K, E, V>(policy: Policy, s: State<K, E, V>, id: Option<int>)
    requires Inv(policy, s)
    ensures Inv(policy, CloseOp(policy, s, id))
  {
    var t := CloseTarget(s, id);
    if t.Some? {
      StartCloseKeepsInv(policy, s, t.value);
    }
  }

  /** `getInstanceById(id)?.addCloseDelayer()` keeps the invariant. */
  lemma AddDelayerOpKeepsInv<K, E, V>(policy: Policy, s: State<K, E, V>, id: int, d: int)
    requires Inv(policy, s)
    ensures Inv(policy, AddDelayerOp(policy, s, id, d))
  {
    if id in s.instances.entries {
      AddDelayerKeepsInv(policy, s, id, d);
    }
  }

  /** `getInstanceById(id)?.removeCloseDelayer(d)` keeps the invariant. */
  lemma RemoveDelayerOpKeepsInv<K, E, V>(policy: Policy, s: State<K, E, V>, id: int, d: int)
    requires Inv(policy, s)
    ensures Inv(policy, RemoveDelayerOp(policy, s, id, d))
  {
    if id in s.instances.entries {
      RemoveDelayerKeepsInv(policy, s, id, d);
    }
  }
}
