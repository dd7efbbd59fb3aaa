/**
 * The manager of `useModalManager.ts` with `open` admitting a new instance
 * exactly as written: when it is the only one registered, or in `multiple`
 * mode.
 *
 * Outside the during-close queue this is the corrected rule, so every run is
 * the corrected run and `ManagerRuns.RunKeepsInv` and `NeverStalls` apply.
 * In the during-close queue the written rule admits fewer instances. The
 * published list is still the on-screen instances' snapshots in registry
 * order, and every instance on screen except the last is closing
 * (`QueueInv`). What is lost is that something is on screen whenever
 * something is registered: `ManagerRuns.AsWrittenStalls` reaches a state
 * with one instance waiting and none shown.
 */
module ManagerAsWritten {
  import opened Optional
  import opened Instances
  import opened OrderedMaps
  import opened ManagerModel
  import opened ManagerLayout
  import opened ManagerInvariants
  import opened ManagerRuns

  // ---------------------------------------------------------------------
  // The two admission rules

  /**
   * Outside the during-close queue the rule as written and the corrected rule
   * admit the same instances; in every mode, an instance the written rule
   * admits is one the corrected rule admits.
   */
  lemma AdmitsAgree<K, E, V>(policy: Policy, m: OrderedMap<int, Instance<K, E, V>>, id: int)
    requires Valid(m) && id in m.entries
    ensures policy != Queue(DuringClose) ==> (AdmitsAsWritten(policy, m) <==> Admits(policy, m, id))
    ensures AdmitsAsWritten(policy, m) ==> Admits(policy, m, id)
  {
    if Size(m) == 1 {
      forall k | k in m.entries
        ensures k == id
      {
        assert k in m.keys && id in m.keys;
      }
    }
  }

  /** Outside the during-close queue, `open` as written is `open` with the corrected rule. */
  lemma OpenAgree<K, E, V>(policy: Policy, windows: map<K, E>, s: State<K, E, V>, id: int, key: K,
                           props: Option<map<string, V>>)
    requires Valid(s.instances) && policy != Queue(DuringClose)
    ensures OpenWith(policy, windows, s, id, key, props, true) == OpenWith(policy, windows, s, id, key, props, false)
  {
    if key in windows {
      var inst := NewInstance(windows, id, key, props);
      AdmitsAgree(policy, Set(s.instances, id, inst), id);
    }
  }

  /** Outside the during-close queue, every run of the manager as written is the corrected run. */
  lemma {:induction false} RunAgree<K, E, V>(policy: Policy, windows: map<K, E>, s: State<K, E, V>, next: int,
                                             ops: seq<ManagerOp<K, V>>)
    requires Valid(s.instances) && policy != Queue(DuringClose)
    ensures Run(policy, windows, s, next, ops, true) == Run(policy, windows, s, next, ops, false)
    decreases |ops|
  {
    if ops != [] {
      var r := ManagerStep(policy, windows, s, next, ops[0], false);
      assert ManagerStep(policy, windows, s, next, ops[0], true) == r by {
        if ops[0].OpenModal? {
          OpenAgree(policy, windows, s, next, ops[0].key, ops[0].props);
        }
      }
      RunAgree(policy, windows, r.0, r.1, ops[1..]);
    }
  }

  /** Outside the during-close queue, every run of the manager as written keeps the invariant. */
  lemma RunAsWrittenKeepsInv<K, E, V>(policy: Policy, windows: map<K, E>, s: State<K, E, V>, next: int,
                                      ops: seq<ManagerOp<K, V>>)
    requires policy != Queue(DuringClose) && Inv(policy, s) && IdsBelow(s, next)
    ensures var r := Run(policy, windows, s, next, ops, true);
      Inv(policy, r.0) && IdsBelow(r.0, r.1)
  {
    RunAgree(policy, windows, s, next, ops);
    RunKeepsInv(policy, windows, s, next, ops);
  }

  /**
   * From an empty manager in `multiple` or after-close mode, whatever the
   * calls, the engine as written never stalls: something is on screen
   * whenever something is registered.
   */
  lemma NeverStallsAsWritten<K, E, V>(policy: Policy, windows: map<K, E>, next: int, ops: seq<ManagerOp<K, V>>)
    requires policy != Queue(DuringClose)
    ensures var s := Run(policy, windows, EmptyState(), next, ops, true).0;
      && Layout(s)
      && (s.instances.keys != [] ==> s.published != [])
      && (policy == Multiple ==> |s.published| == |s.instances.keys|)
      && (policy == Queue(AfterClose) ==> |s.published| <= 1)
  {
    RunAgree<K, E, V>(policy, windows, EmptyState(), next, ops);
    NeverStalls<K, E, V>(policy, windows, next, ops);
  }

  // ---------------------------------------------------------------------
  // The during-close queue as written

  /** Of the first `p` states (those on screen), all but the last are CLOSING. */
  predicate ClosingBeforeLast(st: seq<LifecycleState>, p: nat)
  {
    p <= |st| && forall j :: 0 <= j < p - 1 ==> st[j] == CLOSING
  }

  /**
   * What the during-close queue keeps with the admission rule as written: the
   * layout, consistent instances, and every on-screen instance but the last
   * closing. Unlike `Inv`, it allows instances to wait with none on screen.
   */
  ghost predicate QueueInv<K, E, V>(s: State<K, E, V>)
  {
    && Layout(s)
    && AllConsistent(s)
    && ClosingBeforeLast(States(s), |s.published|)
  }

  /** `QueueInv` is what is left of the during-close `Inv` without "never stalls". */
  lemma InvGivesQueueInv<K, E, V>(s: State<K, E, V>)
    requires Inv(Queue(DuringClose), s)
    ensures QueueInv(s)
  {
  }

  /** The OPENED instance on screen is the last one shown; closing it (and showing the next) keeps the rule. */
  lemma QueueStartClose(st: seq<LifecycleState>, p: nat, i: nat)
    requires ClosingBeforeLast(st, p) && i < p && st[i] == OPENED
    ensures i == p - 1
    ensures ClosingBeforeLast(st[i := CLOSING], p)
    ensures p < |st| ==> ClosingBeforeLast(st[i := CLOSING][p := OPENED], p + 1)
  {
  }

  /** An instance on screen leaves: the rule still holds of the rest. */
  lemma QueueRemove(st: seq<LifecycleState>, p: nat, i: nat)
    requires ClosingBeforeLast(st, p) && i < p
    ensures ClosingBeforeLast(st[..i] + st[i + 1..], p - 1)
  {
    var st' := st[..i] + st[i + 1..];
    assert forall j :: 0 <= j < i ==> st'[j] == st[j];
    assert forall j :: i <= j < |st'| ==> st'[j] == st[j + 1];
  }

  /**
   * `open(key)` as written in the during-close queue keeps `QueueInv`. An
   * unknown key changes nothing; otherwise the new instance is registered
   * last, and it is OPENED exactly when nothing was registered before.
   */
  lemma OpenKeepsQueueInv<K, E, V>(windows: map<K, E>, s: State<K, E, V>, id: int, key: K,
                                   props: Option<map<string, V>>)
    requires QueueInv(s) && id !in s.instances.entries
    ensures var r := OpenWith(Queue(DuringClose), windows, s, id, key, props, true);
      && QueueInv(r.1)
      && (key !in windows ==> r == (Fail(ModalNotFound(key)), s))
      && (key in windows ==>
            && r.0 == Pass
            && r.1.instances.keys == s.instances.keys + [id]
            && (r.1.instances.entries[id].model.state == OPENED <==> s.instances.keys == []))
  {
    if key in windows {
      var inst := NewInstance(windows, id, key, props);
      var s1 := s.(instances := Set(s.instances, id, inst));
      RegisterKeepsLayout(s, inst);
      assert AllConsistent(s1) by {
        assert InstanceConsistent(inst.model);
      }
      if s.instances.keys == [] {
        OpenNextKeepsLayout(s1);
        InstanceStepProperties(inst.model, Open);
        assert States(OpenInstance(s1, id)) == [OPENED];
      } else {
        assert Size(s1.instances) > 1;
        QueuePendingLast(States(s), |s.published|);
      }
    }
  }

  /** A PENDING instance appended to the registry is not on screen, so the rule is kept. */
  lemma QueuePendingLast(st: seq<LifecycleState>, p: nat)
    requires ClosingBeforeLast(st, p)
    ensures ClosingBeforeLast(st + [PENDING], p)
  {
    assert forall j :: 0 <= j < |st| ==> (st + [PENDING])[j] == st[j];
  }

  /**
   * The during-close `onCloseStart` handler after the OPENED instance at
   * position `i` has become the CLOSING record `c`: it is the last instance
   * shown, and the queue advance shows the next waiting one.
   */
  lemma CloseStartKeepsQueueInv<K, E, V>(s: State<K, E, V>, i: nat, c: Instance<K, E, V>)
    requires QueueInv(s) && i < |s.instances.keys| && At(s, i).model.state == OPENED
    requires c.id == s.instances.keys[i] && c.model.state == CLOSING
    ensures var r := OnCloseStartHook(Queue(DuringClose), s.(instances := Set(s.instances, c.id, c)), ToState(c));
      && Layout(r)
      && r.instances.keys == s.instances.keys
      && i < |r.published| && States(r)[i] == CLOSING
      && ClosingBeforeLast(States(r), |r.published|)
      && ConsistentBut(r, c.id)
      && (InstanceConsistent(c.model) ==> AllConsistent(r))
  {
    var p := |s.published|;
    var st := States(s);
    assert st[i] == OPENED;
    RefreshKeepsLayout(s, i, c);
    var s2 := State(Set(s.instances, c.id, c), Refreshed(s.published, ToState(c)));
    assert ConsistentBut(s2, c.id);
    assert InstanceConsistent(c.model) ==> AllConsistent(s2);
    AdvanceKeepsLayout(s2);
    QueueStartClose(st, p, i);
  }

  /** The during-close `onClosed` handler for the instance at on-screen position `i` keeps `QueueInv`. */
  lemma ClosedKeepsQueueInv<K, E, V>(s: State<K, E, V>, i: nat)
    requires Layout(s) && i < |s.published|
    requires ConsistentBut(s, s.instances.keys[i])
    requires ClosingBeforeLast(States(s), |s.published|)
    ensures QueueInv(OnClosedHook(Queue(DuringClose), s, s.instances.keys[i]))
  {
    var t := s.instances.keys[i];
    var s5 := State(Delete(s.instances, t), WithoutId(s.published, t));
    RemoveKeepsLayout(s, i);
    assert AllConsistent(s5) by {
      assert s5.instances.entries == s.instances.entries - {t};
    }
    QueueRemove(States(s), |s.published|, i);
  }

  /**
   * `startClose` on a registered instance in the during-close queue keeps
   * `QueueInv`: nothing happens unless it is OPENED; held by a delayer it
   * stays CLOSING; otherwise it closes and leaves the registry.
   */
  lemma StartCloseKeepsQueueInv<K, E, V>(s: State<K, E, V>, t: int)
    requires QueueInv(s) && t in s.instances.entries
    ensures var m, r := s.instances.entries[t].model, ApplyToInstance(Queue(DuringClose), s, t, StartClose);
      && QueueInv(r)
      && (m.state != OPENED ==> r == s)
      && (m.state == OPENED && m.delayer.delayers != {} ==> t in r.instances.entries && r.instances.entries[t].model.state == CLOSING)
      && (m.state == OPENED && m.delayer.delayers == {} ==> t !in r.instances.entries)
  {
    var policy := Queue(DuringClose);
    var inst := s.instances.entries[t];
    var m := inst.model;
    var step := InstanceStep(m, StartClose);
    var inst' := inst.(model := step.0);
    var s0 := s.(instances := Set(s.instances, t, inst'));
    var i := PositionOf(s, t);
    InstanceStepProperties(m, StartClose);
    if m.state != OPENED {
      SetSame(s.instances, t);
    } else if m.delayer.delayers != {} {
      var e := HookEvent(OnCloseStart, CLOSING);
      assert step.1 == [e] && step.0.state == CLOSING;
      DispatchOne(policy, s0, inst', e);
      HandleCloseStart(policy, s, inst');
      assert inst'.(model := inst'.model.(state := CLOSING)) == inst';
      CloseStartKeepsQueueInv(s, i, inst');
      var r := ApplyToInstance(policy, s, t, StartClose);
      assert At(r, i) == r.instances.entries[t];
    } else {
      var e0, e1 := HookEvent(OnCloseStart, CLOSING), HookEvent(OnClosed, CLOSED);
      assert step.1 == [e0, e1] && step.0.state == CLOSED;
      var s1 := Handle(policy, s0, inst', e0);
      DispatchTwo(policy, s0, inst', e0, e1);
      var c := inst'.(model := inst'.model.(state := CLOSING));
      HandleCloseStart(policy, s, inst');
      CloseStartKeepsQueueInv(s, i, c);
      HandleClosed(policy, s1, inst', s1.instances.entries[t]);
      SetSame(s1.instances, t);
      ClosedKeepsQueueInv(s1, i);
    }
  }

  /** Removing the last delayer of a CLOSING instance in the during-close queue: it leaves, and `QueueInv` holds. */
  lemma RemoveLastDelayerKeepsQueueInv<K, E, V>(s: State<K, E, V>, t: int, d: int)
    requires QueueInv(s) && t in s.instances.entries
    requires s.instances.entries[t].model.state == CLOSING && s.instances.entries[t].model.delayer.delayers - {d} == {}
    ensures var r := ApplyToInstance(Queue(DuringClose), s, t, RemoveCloseDelayer(d));
      QueueInv(r) && t !in r.instances.entries
  {
    ReleaseRunsClosedHook(Queue(DuringClose), s, t, d);
    var i := PositionOf(s, t);
    assert States(s)[i] == CLOSING;
    ClosedKeepsQueueInv(s, i);
  }

  /** Any other delayer removal in the during-close queue changes no lifecycle state and no published entry. */
  lemma RemoveOtherDelayerKeepsQueueInv<K, E, V>(s: State<K, E, V>, t: int, d: int)
    requires QueueInv(s) && t in s.instances.entries
    requires s.instances.entries[t].model.state != CLOSING || s.instances.entries[t].model.delayer.delayers - {d} != {}
    ensures var r := ApplyToInstance(Queue(DuringClose), s, t, RemoveCloseDelayer(d));
      && QueueInv(r)
      && r.published == s.published && r.instances.keys == s.instances.keys && States(r) == States(s)
  {
    var inst := s.instances.entries[t];
    var step := InstanceStep(inst.model, RemoveCloseDelayer(d));
    var inst' := inst.(model := step.0);
    var i := PositionOf(s, t);
    InstanceStepProperties(inst.model, RemoveCloseDelayer(d));
    assert step.1 == [] && step.0.state == inst.model.state;
    assert ToState(inst') == ToState(At(s, i));
    ReplaceKeepsLayout(s, i, inst');
  }

  /** Adding a delayer in the during-close queue changes no lifecycle state and no published entry. */
  lemma AddDelayerKeepsQueueInv<K, E, V>(s: State<K, E, V>, t: int, d: int)
    requires QueueInv(s) && t in s.instances.entries
    ensures var r := ApplyToInstance(Queue(DuringClose), s, t, AddCloseDelayer(d));
      && QueueInv(r)
      && r.published == s.published && r.instances.keys == s.instances.keys && States(r) == States(s)
  {
    var inst := s.instances.entries[t];
    var inst' := inst.(model := AddCloseDelayerStep(inst.model, d));
    var i := PositionOf(s, t);
    InstanceStepProperties(inst.model, AddCloseDelayer(d));
    assert ToState(inst') == ToState(At(s, i));
    ReplaceKeepsLayout(s, i, inst');
  }

  /** One call of the during-close manager as written keeps `QueueInv`, and the ids stay fresh. */
  lemma StepKeepsQueueInv<K, E, V>(windows: map<K, E>, s: State<K, E, V>, next: int, op: ManagerOp<K, V>)
    requires QueueInv(s) && IdsBelow(s, next)
    ensures var r := ManagerStep(Queue(DuringClose), windows, s, next, op, true);
      QueueInv(r.0) && IdsBelow(r.0, r.1)
  {
    match op
    case OpenModal(key, props) =>
      OpenKeepsQueueInv(windows, s, next, key, props);
      var r := OpenWith(Queue(DuringClose), windows, s, next, key, props, true).1;
      forall k | k in r.instances.entries
        ensures k < next + 1
      {
        assert k in r.instances.keys;
      }
    case CloseModal(target) =>
      var t := CloseTarget(s, target);
      if t.Some? {
        StartCloseKeepsQueueInv(s, t.value);
      }
    case AddDelayer(id, d) =>
      if id in s.instances.entries {
        AddDelayerKeepsQueueInv(s, id, d);
      }
    case RemoveDelayer(id, d) =>
      if id in s.instances.entries {
        var m := s.instances.entries[id].model;
        if m.state == CLOSING && m.delayer.delayers - {d} == {} {
          RemoveLastDelayerKeepsQueueInv(s, id, d);
        } else {
          RemoveOtherDelayerKeepsQueueInv(s, id, d);
        }
      }
  }

  /** Every run of the during-close manager as written keeps `QueueInv`. */
  lemma {:induction false} RunKeepsQueueInv<K, E, V>(windows: map<K, E>, s: State<K, E, V>, next: int,
                                                     ops: seq<ManagerOp<K, V>>)
    requires QueueInv(s) && IdsBelow(s, next)
    ensures var r := Run(Queue(DuringClose), windows, s, next, ops, true);
      QueueInv(r.0) && IdsBelow(r.0, r.1)
    decreases |ops|
  {
    if ops != [] {
      StepKeepsQueueInv(windows, s, next, ops[0]);
      var (s1, n1) := ManagerStep(Queue(DuringClose), windows, s, next, ops[0], true);
      RunKeepsQueueInv(windows, s1, n1, ops[1..]);
    }
  }

  /**
   * From an empty during-close manager as written, whatever the calls: the
   * published list is the on-screen instances' snapshots in registry order,
   * and every instance on screen except the last is closing.
   */
  lemma AsWrittenKeepsLayout<K, E, V>(windows: map<K, E>, next: int, ops: seq<ManagerOp<K, V>>)
    ensures var s := Run(Queue(DuringClose), windows, EmptyState(), next, ops, true).0;
      && Layout(s)
      && AllConsistent(s)
      && (forall j :: 0 <= j < |s.published| - 1 ==> At(s, j).model.state == CLOSING)
  {
    EmptyInv<K, E, V>(Queue(DuringClose));
    InvGivesQueueInv<K, E, V>(EmptyState());
    RunKeepsQueueInv(windows, EmptyState(), next, ops);
    var s := Run(Queue(DuringClose), windows, EmptyState(), next, ops, true).0;
    assert forall j :: 0 <= j < |s.published| - 1 ==> States(s)[j] == At(s, j).model.state;
  }
}
