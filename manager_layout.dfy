/**
 * The shape of the manager's state between calls, and how each building
 * block of an operation keeps it.
 *
 * `Layout`: the registry holds no CLOSED instance; its instances on screen
 * (OPENED or CLOSING) come first in insertion order and all later ones are
 * PENDING; and the published list is exactly the snapshots of the on-screen
 * instances, in that order, each with its current lifecycle state.
 */
module ManagerLayout {
  import opened Optional
  import opened Listeners
  import opened Delayers
  import opened Instances
  import opened OrderedMaps
  import opened ManagerModel

  /** The instance at registry position `i`. */
  function At<K, E, V>(s: State<K, E, V>, i: nat): Instance<K, E, V>
    requires Valid(s.instances) && i < |s.instances.keys|
  {
    s.instances.entries[s.instances.keys[i]]
  }

  ghost predicate Layout<K, E, V>(s: State<K, E, V>)
  {
    && Valid(s.instances)
    && (forall k :: k in s.instances.entries ==>
          s.instances.entries[k].id == k && s.instances.entries[k].model.state != CLOSED)
    && |s.published| <= |s.instances.keys|
    && (forall i :: 0 <= i < |s.instances.keys| ==> (i < |s.published| <==> Visible(At(s, i).model.state)))
    && (forall i :: 0 <= i < |s.published| ==> s.published[i] == ToState(At(s, i)))
  }

  /** Every registered instance is consistent (`InstanceConsistent`). */
  predicate AllConsistent<K, E, V>(s: State<K, E, V>)
  {
    forall k :: k in s.instances.entries ==> InstanceConsistent(s.instances.entries[k].model)
  }

  /** The lifecycle states of the registered instances, in registry order. */
  function States<K, E, V>(s: State<K, E, V>): (r: seq<LifecycleState>)
    requires Valid(s.instances)
    ensures |r| == |s.instances.keys|
    ensures forall j :: 0 <= j < |r| ==> r[j] == At(s, j).model.state
  {
    seq(|s.instances.keys|, j requires 0 <= j < |s.instances.keys| && Valid(s.instances) => At(s, j).model.state)
  }

  /** Every registered instance other than `t` is consistent. */
  predicate ConsistentBut<K, E, V>(s: State<K, E, V>, t: int)
  {
    forall k :: k in s.instances.entries && k != t ==> InstanceConsistent(s.instances.entries[k].model)
  }

  /** Under `Layout`, the published entry at position `i` carries the id registered at position `i`. */
  lemma PublishedIds<K, E, V>(s: State<K, E, V>, i: nat)
    requires Layout(s) && i < |s.published|
    ensures s.published[i].id == s.instances.keys[i]
  {
  }

  /** Under `Layout`, the first PENDING instance is the one right after those on screen. */
  lemma FirstPendingIsNext<K, E, V>(s: State<K, E, V>)
    requires Layout(s)
    ensures FirstPendingIndex(s.instances) == |s.published|
  {
    var r := FirstPendingIndex(s.instances);
    var p := |s.published|;
    if p < |s.instances.keys| {
      var k := s.instances.keys[p];
      assert k in s.instances.entries && At(s, p) == s.instances.entries[k];
      assert At(s, p).model.state == PENDING;
    }
    assert r < p ==> Visible(At(s, r).model.state);
  }

  /** Registering a fresh PENDING instance appends it and keeps the layout. */
  lemma RegisterKeepsLayout<K, E, V>(s: State<K, E, V>, inst: Instance<K, E, V>)
    requires Layout(s) && inst.id !in s.instances.entries && inst.model.state == PENDING
    ensures var r := s.(instances := Set(s.instances, inst.id, inst));
      && Layout(r)
      && r.instances.keys == s.instances.keys + [inst.id]
      && r.instances.entries == s.instances.entries[inst.id := inst]
      && At(r, |s.instances.keys|) == inst
      && States(r) == States(s) + [PENDING]
  {
    var s1 := s.(instances := Set(s.instances, inst.id, inst));
    forall i | 0 <= i < |s.instances.keys|
      ensures At(s1, i) == At(s, i)
    {
      assert s1.instances.keys[i] == s.instances.keys[i] != inst.id;
    }
    assert At(s1, |s.instances.keys|) == inst;
    assert States(s1) == States(s) + [PENDING];
  }

  /**
   * Opening the first PENDING instance (the one right after those on screen)
   * puts it on screen: its OPENED snapshot is appended and nothing else changes.
   */
  lemma OpenNextKeepsLayout<K, E, V>(s: State<K, E, V>)
    requires Layout(s) && |s.published| < |s.instances.keys|
    ensures var id := s.instances.keys[|s.published|];
      var r := OpenInstance(s, id);
      && Layout(r)
      && r.instances.keys == s.instances.keys
      && r.instances.entries == s.instances.entries[id := s.instances.entries[id].(model := OpenStep(s.instances.entries[id].model).0)]
      && r.instances.entries[id].model.state == OPENED
      && r.published == s.published + [ToState(r.instances.entries[id])]
      && States(r) == States(s)[|s.published| := OPENED]
  {
    var p := |s.published|;
    var id := s.instances.keys[p];
    var inst := s.instances.entries[id];
    assert inst.model.state == PENDING by {
      assert At(s, p) == inst;
    }
    var inst' := inst.(model := OpenStep(inst.model).0);
    var r := OpenInstance(s, id);
    assert r.instances == Set(s.instances, id, inst');
    assert r.published == s.published + [SnapshotAt(inst', OPENED)];
    forall i | 0 <= i < |s.instances.keys| && i != p
      ensures At(r, i) == At(s, i)
    {
      assert s.instances.keys[i] != id;
    }
    assert At(r, p) == inst';
    assert States(r) == States(s)[p := OPENED];
  }

  /** `getFirstInQueue()?.open()` keeps the layout: it opens the next PENDING instance, or does nothing. */
  lemma AdvanceKeepsLayout<K, E, V>(s: State<K, E, V>)
    requires Layout(s)
    ensures Layout(AdvanceQueue(s))
    ensures |s.published| == |s.instances.keys| ==> AdvanceQueue(s) == s
    ensures |s.published| < |s.instances.keys| ==> AdvanceQueue(s) == OpenInstance(s, s.instances.keys[|s.published|])
    ensures |s.published| < |s.instances.keys| ==>
      var r := AdvanceQueue(s);
      && |r.published| == |s.published| + 1
      && States(r) == States(s)[|s.published| := OPENED]
    ensures AllConsistent(s) ==> AllConsistent(AdvanceQueue(s))
    ensures forall t :: ConsistentBut(s, t) ==> ConsistentBut(AdvanceQueue(s), t)
  {
    FirstPendingIsNext(s);
    if |s.published| < |s.instances.keys| {
      OpenNextKeepsLayout(s);
      var id := s.instances.keys[|s.published|];
      InstanceStepProperties(s.instances.entries[id].model, Open);
    }
  }

  /**
   * The `onCloseStart` refresh: the instance at on-screen position `i` is now
   * CLOSING, and its published entry is replaced by its new snapshot.
   */
  lemma RefreshKeepsLayout<K, E, V>(s: State<K, E, V>, i: nat, inst: Instance<K, E, V>)
    requires Layout(s) && i < |s.published|
    requires inst.id == s.instances.keys[i] && inst.model.state == CLOSING
    ensures var r := State(Set(s.instances, inst.id, inst), Refreshed(s.published, ToState(inst)));
      && Layout(r)
      && r.instances.keys == s.instances.keys
      && |r.published| == |s.published|
      && r.instances.entries == s.instances.entries[inst.id := inst]
      && States(r) == States(s)[i := CLOSING]
  {
    var r := State(Set(s.instances, inst.id, inst), Refreshed(s.published, ToState(inst)));
    forall j | 0 <= j < |s.instances.keys| && j != i
      ensures At(r, j) == At(s, j)
    {
      assert s.instances.keys[j] != inst.id;
    }
    assert At(r, i) == inst;
    forall j | 0 <= j < |s.published|
      ensures r.published[j] == ToState(At(r, j))
    {
      PublishedIds(s, j);
    }
    assert States(r) == States(s)[i := CLOSING];
  }

  /**
   * Replacing the instance at position `i` by a record with the same
   * snapshot (only its close delayer differs) keeps the layout.
   */
  lemma ReplaceKeepsLayout<K, E, V>(s: State<K, E, V>, i: nat, inst: Instance<K, E, V>)
    requires Layout(s) && i < |s.instances.keys|
    requires inst.id == s.instances.keys[i] && ToState(inst) == ToState(At(s, i))
    ensures var r := s.(instances := Set(s.instances, inst.id, inst));
      && Layout(r)
      && r.instances.keys == s.instances.keys
      && r.instances.entries == s.instances.entries[inst.id := inst]
      && States(r) == States(s)
  {
    var r := s.(instances := Set(s.instances, inst.id, inst));
    forall j | 0 <= j < |s.instances.keys| && j != i
      ensures At(r, j) == At(s, j)
    {
      assert s.instances.keys[j] != inst.id;
    }
    assert At(r, i) == inst;
    assert States(r) == States(s);
  }

  /** The `onClosed` removal: the on-screen instance at position `i` leaves both the registry and the list. */
  lemma RemoveKeepsLayout<K, E, V>(s: State<K, E, V>, i: nat)
    requires Layout(s) && i < |s.published|
    ensures var id := s.instances.keys[i];
      var r := State(Delete(s.instances, id), WithoutId(s.published, id));
      && Layout(r)
      && r.instances.keys == s.instances.keys[..i] + s.instances.keys[i + 1..]
      && r.published == s.published[..i] + s.published[i + 1..]
      && r.instances.entries == s.instances.entries - {id}
      && States(r) == States(s)[..i] + States(s)[i + 1..]
  {
    RemoveShape(s, i);
    RemovedLayout(s, i);
    RemovedStates(s, i);
  }

  lemma RemovedLayout<K, E, V>(s: State<K, E, V>, i: nat)
    requires Layout(s) && i < |s.published|
    ensures var id := s.instances.keys[i];
      Layout(State(Delete(s.instances, id), WithoutId(s.published, id)))
  {
    RemovedMatches(s, i);
  }

  lemma RemovedStates<K, E, V>(s: State<K, E, V>, i: nat)
    requires Layout(s) && i < |s.published|
    ensures var id := s.instances.keys[i];
      var r := State(Delete(s.instances, id), WithoutId(s.published, id));
      Valid(r.instances) && States(r) == States(s)[..i] + States(s)[i + 1..]
  {
    var id := s.instances.keys[i];
    var r := State(Delete(s.instances, id), WithoutId(s.published, id));
    RemoveShift(s, i, r.published);
    assert |States(r)| == |States(s)| - 1;
    forall j | 0 <= j < |States(r)|
      ensures States(r)[j] == (States(s)[..i] + States(s)[i + 1..])[j]
    {
      if j >= i {
        assert At(r, j) == At(s, j + 1);
      }
    }
  }

  /** After the removal, the published list still shows the instances at the same positions of the registry. */
  lemma RemovedMatches<K, E, V>(s: State<K, E, V>, i: nat)
    requires Layout(s) && i < |s.published|
    ensures var id := s.instances.keys[i];
      var r := State(Delete(s.instances, id), WithoutId(s.published, id));
      && Valid(r.instances)
      && |r.published| <= |r.instances.keys|
      && (forall j :: 0 <= j < |r.instances.keys| ==> (j < |r.published| <==> Visible(At(r, j).model.state)))
      && (forall j :: 0 <= j < |r.published| ==> r.published[j] == ToState(At(r, j)))
  {
    var id := s.instances.keys[i];
    var r := State(Delete(s.instances, id), WithoutId(s.published, id));
    RemoveShape(s, i);
    RemoveShift(s, i, r.published);
    var rp := r.published;
    forall j | 0 <= j < |r.instances.keys|
      ensures (j < |rp| <==> Visible(At(r, j).model.state))
      ensures j < |rp| ==> rp[j] == ToState(At(r, j))
    {
      if j < i {
        assert rp[j] == s.published[j];
      } else {
        assert At(r, j) == At(s, j + 1);
        if j < |rp| {
          assert rp[j] == s.published[j + 1];
        }
      }
    }
  }

  /**
   * After removing the instance at position `i` (whatever the published list
   * becomes), the instances before it keep their positions and those after it
   * move one place forward.
   */
  lemma RemoveShift<K, E, V>(s: State<K, E, V>, i: nat, published: seq<ModalState<K, E, V>>)
    requires Valid(s.instances) && i < |s.instances.keys|
    ensures var r := State(Delete(s.instances, s.instances.keys[i]), published);
      && Valid(r.instances)
      && |r.instances.keys| == |s.instances.keys| - 1
      && (forall k :: 0 <= k < i ==> At(r, k) == At(s, k))
      && (forall k :: i <= k < |r.instances.keys| ==> At(r, k) == At(s, k + 1))
  {
    DeleteShift(s.instances, i);
    var r := State(Delete(s.instances, s.instances.keys[i]), published);
    forall k | i <= k < |r.instances.keys|
      ensures At(r, k) == At(s, k + 1)
    {
      assert i < k + 1 < |s.instances.keys|;
    }
  }

  lemma RemoveShape<K, E, V>(s: State<K, E, V>, i: nat)
    requires Layout(s) && i < |s.published|
    ensures var id := s.instances.keys[i];
      && Removed(s.instances.keys, id) == s.instances.keys[..i] + s.instances.keys[i + 1..]
      && WithoutId(s.published, id) == s.published[..i] + s.published[i + 1..]
  {
    var id := s.instances.keys[i];
    RemovedAt(s.instances.keys, id, i);
    forall j | 0 <= j < |s.published| && j != i
      ensures s.published[j].id != id
    {
      PublishedIds(s, j);
    }
    PublishedIds(s, i);
    WithoutIdAt(s.published, id, i);
  }

  /** Setting an entry and then deleting it is deleting it. */
  lemma DeleteAfterSet<K, E, V>(m: OrderedMap<int, Instance<K, E, V>>, id: int, inst: Instance<K, E, V>)
    requires id in m.entries
    ensures Delete(Set(m, id, inst), id) == Delete(m, id)
  {
    assert m.entries[id := inst] - {id} == m.entries - {id};
  }

  /** Setting an entry twice keeps the second value. */
  lemma SetTwice<K, E, V>(m: OrderedMap<int, Instance<K, E, V>>, id: int, a: Instance<K, E, V>, b: Instance<K, E, V>)
    ensures Set(Set(m, id, a), id, b) == Set(m, id, b)
  {
    assert m.entries[id := a][id := b] == m.entries[id := b];
  }

  /** Setting an entry to the value it already has changes nothing. */
  lemma SetSame<K, E, V>(m: OrderedMap<int, Instance<K, E, V>>, id: int)
    requires id in m.entries
    ensures Set(m, id, m.entries[id]) == m
  {
    assert m.entries[id := m.entries[id]] == m.entries;
  }
}
