/**
 * The close delayer of `DelayerAccumulator.ts`: a set of outstanding delayer
 * ids and two flags. Its release listeners run at most once, and only when the
 * accumulator has been activated and no delayer is outstanding.
 *
 * `DelayerModel` and the step functions below specify the class
 * `DelayerAccumulator` at the end of the module; the lemmas about runs of
 * steps state what the class promises over its whole life.
 */
module Delayers {
  import opened Optional
  import opened Listeners
  import opened Ids

  /** The state of a delayer accumulator: its delayer set, `isActivated` and `isExecuted`. */
  datatype DelayerModel = DelayerModel(delayers: set<int>, activated: bool, executed: bool)

  /** A newly constructed accumulator. */
  const Initial := DelayerModel({}, false, false)

  /**
   * The states the operations can reach from `Initial`: the listeners have run
   * only after activation, and an activated accumulator whose listeners have
   * not run still has a delayer outstanding.
   */
  predicate Consistent(m: DelayerModel)
  {
    && (m.executed ==> m.activated)
    && (m.activated && !m.executed ==> m.delayers != {})
  }

  /** `executeListeners`: the listeners run unless they already have; either way `isExecuted` is set. */
  function ExecuteListenersStep(m: DelayerModel): (r: (DelayerModel, bool))
    ensures r.0.executed && r.0.delayers == m.delayers && r.0.activated == m.activated
    ensures r.1 <==> !m.executed
  {
    (m.(executed := true), !m.executed)
  }

  /**
   * `executeListeners` runs the listeners at most once: a second call neither
   * runs them nor changes anything. Called on an activated accumulator, as
   * `remove` and `activate` do, it leaves a consistent state.
   */
  lemma ExecuteListenersOnce(m: DelayerModel)
    ensures var r := ExecuteListenersStep(m);
      ExecuteListenersStep(r.0) == (r.0, false)
    ensures m.activated ==> Consistent(ExecuteListenersStep(m).0)
  {
  }

  /** `add`: the freshly generated `id` joins the delayer set. */
  function AddStep(m: DelayerModel, id: int): (r: DelayerModel)
    ensures id in r.delayers && r.delayers - {id} == m.delayers - {id}
    ensures r.activated == m.activated && r.executed == m.executed
    ensures Consistent(m) ==> Consistent(r)
  {
    m.(delayers := m.delayers + {id})
  }

  /**
   * `remove`: `id` leaves the set (nothing happens to the set if it was not
   * there); the listeners run when the set is now empty, the accumulator is
   * activated and they have not run before.
   */
  function RemoveStep(m: DelayerModel, id: int): (r: (DelayerModel, bool))
    ensures r.0.delayers == m.delayers - {id}
    ensures r.0.activated == m.activated
    ensures r.1 <==> m.delayers - {id} == {} && m.activated && !m.executed
    ensures r.0.executed <==> m.executed || (m.delayers - {id} == {} && m.activated)
    ensures Consistent(m) ==> Consistent(r.0)
  {
    var m' := m.(delayers := m.delayers - {id});
    if |m'.delayers| == 0 && m'.activated then ExecuteListenersStep(m') else (m', false)
  }

  /** `activate`: sets `isActivated`; with no delayer outstanding the listeners run at once. */
  function ActivateStep(m: DelayerModel): (r: (DelayerModel, bool))
    ensures r.0.activated && r.0.delayers == m.delayers
    ensures r.1 <==> m.delayers == {} && !m.executed
    ensures r.0.executed <==> m.executed || m.delayers == {}
    ensures Consistent(m) ==> Consistent(r.0)
  {
    var m' := m.(activated := true);
    if |m'.delayers| == 0 then ExecuteListenersStep(m') else (m', false)
  }

  /** A public operation of the accumulator; `Add` carries the id `generateId` produced. */
  datatype DelayerOp = Add(id: int) | Remove(id: int) | Activate

  /** One operation: the new state and whether the listeners ran. */
  function Step(m: DelayerModel, op: DelayerOp): (DelayerModel, bool)
  {
    match op
    case Add(id) => (AddStep(m, id), false)
    case Remove(id) => RemoveStep(m, id)
    case Activate => ActivateStep(m)
  }

  /** A run of operations: the final state and how many times the listeners ran. */
  function Run(m: DelayerModel, ops: seq<DelayerOp>): (DelayerModel, nat)
    decreases |ops|
  {
    if ops == [] then (m, 0)
    else
      var (m1, ran) := Step(m, ops[0]);
      var (m2, n) := Run(m1, ops[1..]);
      (m2, n + if ran then 1 else 0)
  }

  /** The removals of `ds`, in that order. */
  function Removals(ds: seq<int>): (r: seq<DelayerOp>)
    ensures |r| == |ds| && forall i :: 0 <= i < |ds| ==> r[i] == Remove(ds[i])
  {
    seq(|ds|, i requires 0 <= i < |ds| => Remove(ds[i]))
  }

  /**
   * Whatever the operations and their order, the listeners run at most once
   * over the accumulator's life (never again once `isExecuted` is set), and
   * they have run exactly when `isExecuted` has become set.
   */
  lemma {:induction false} ReleasesAtMostOnce(m: DelayerModel, ops: seq<DelayerOp>)
    ensures Run(m, ops).1 <= if m.executed then 0 else 1
    ensures m.executed ==> Run(m, ops).0.executed
    ensures Run(m, ops).1 == 1 <==> !m.executed && Run(m, ops).0.executed
    decreases |ops|
  {
    if ops != [] {
      var (m1, ran) := Step(m, ops[0]);
      assert ran ==> !m.executed && m1.executed;
      assert m.executed ==> m1.executed && !ran;
      ReleasesAtMostOnce(m1, ops[1..]);
    }
  }

  /** Without `activate`, no sequence of adds and removes ever runs the listeners. */
  lemma {:induction false} NoReleaseBeforeActivate(m: DelayerModel, ops: seq<DelayerOp>)
    requires !m.activated
    requires forall i :: 0 <= i < |ops| ==> !ops[i].Activate?
    ensures Run(m, ops).1 == 0 && !Run(m, ops).0.activated
    decreases |ops|
  {
    if ops != [] {
      NoReleaseBeforeActivate(Step(m, ops[0]).0, ops[1..]);
    }
  }

  /**
   * After `activate` with delayers outstanding, removing them one by one in ANY
   * order runs the listeners exactly once, on the last removal, and not before.
   */
  lemma {:induction false} ReleaseOnLastRemoval(m: DelayerModel, ds: seq<int>)
    requires m.activated && !m.executed
    requires NoDuplicates(ds) && ds != []
    requires forall d :: d in m.delayers <==> d in ds
    ensures Run(m, Removals(ds)).1 == 1
    ensures Run(m, Removals(ds)).0 == DelayerModel({}, true, true)
    ensures forall k :: 0 <= k < |ds| ==> Run(m, Removals(ds[..k])).1 == 0
    decreases |ds|
  {
    var m1 := RemoveStep(m, ds[0]).0;
    var rest := ds[1..];
    RemoveFirstLeavesRest(m, ds);
    RunRemovalsCons(m, ds);
    if rest != [] {
      ReleaseOnLastRemoval(m1, rest);
    }
    forall k | 0 <= k < |ds| ensures Run(m, Removals(ds[..k])).1 == 0 {
      if k > 0 {
        RunRemovalsCons(m, ds[..k]);
        assert ds[..k][0] == ds[0] && ds[..k][1..] == rest[..k - 1];
      }
    }
  }

  /** Removing the delayers `ds` is removing the first, then the rest. */
  lemma RunRemovalsCons(m: DelayerModel, ds: seq<int>)
    requires ds != []
    ensures var first := RemoveStep(m, ds[0]);
      var rest := Run(first.0, Removals(ds[1..]));
      Run(m, Removals(ds)) == (rest.0, rest.1 + if first.1 then 1 else 0)
  {
    assert Removals(ds)[1..] == Removals(ds[1..]);
  }

  /** Removing the first of the outstanding delayers `ds` leaves exactly the others outstanding, the listeners not yet run. */
  lemma RemoveFirstLeavesRest(m: DelayerModel, ds: seq<int>)
    requires m.activated && !m.executed
    requires NoDuplicates(ds) && ds != []
    requires forall d :: d in m.delayers <==> d in ds
    ensures var m1 := RemoveStep(m, ds[0]);
      && (forall d :: d in m1.0.delayers <==> d in ds[1..])
      && NoDuplicates(ds[1..])
      && m1.0.activated
      && (ds[1..] == [] ==> m1 == (DelayerModel({}, true, true), true))
      && (ds[1..] != [] ==> !m1.0.executed && !m1.1)
  {
    var m1 := RemoveStep(m, ds[0]).0;
    var rest := ds[1..];
    forall d ensures d in m1.delayers <==> d in rest {
      assert d in ds <==> d == ds[0] || d in rest;
      if d in rest {
        var j :| 0 <= j < |rest| && rest[j] == d;
        assert ds[j + 1] == d && ds[0] != ds[j + 1];
      }
    }
    if rest == [] {
      assert forall d :: d !in m1.delayers;
      assert m1.delayers == {};
    } else {
      assert rest[0] in m1.delayers;
    }
    assert NoDuplicates(rest) by {
      forall i, j | 0 <= i < j < |rest| ensures rest[i] != rest[j] { assert rest[i] == ds[i + 1] && rest[j] == ds[j + 1]; }
    }
  }

  /** The `DelayerAccumulator` class of `DelayerAccumulator.ts`. */
  class DelayerAccumulator<L(==)> {
    var delayers: set<int>
    const listenersAccumulator: ListenersAccumulator<L, ()>
    var isActivated: bool
    var isExecuted: bool
    /** Where `generateId` draws from. */
    const ids: IdSource

    function Model(): DelayerModel
      reads this
    {
      DelayerModel(delayers, isActivated, isExecuted)
    }

    ghost predicate Valid()
      reads this, listenersAccumulator
    {
      listenersAccumulator.Valid() && Consistent(Model())
    }

    /** Every outstanding delayer id was handed out before: `add` can never return one of them. */
    ghost predicate IdsFresh()
      reads this, ids
    {
      forall d :: d in delayers ==> d < ids.next
    }

    constructor (ids: IdSource)
      ensures Valid() && Model() == Initial && this.ids == ids
      ensures fresh(listenersAccumulator)
      ensures listenersAccumulator.listeners == [] && listenersAccumulator.calls == []
    {
      delayers := {};
      listenersAccumulator := new ListenersAccumulator();
      isActivated := false;
      isExecuted := false;
      this.ids := ids;
    }

    method Add() returns (id: int)
      requires Valid()
      modifies this`delayers, ids
      ensures Valid()
      ensures id == old(ids.next) && ids.next == id + 1
      ensures Model() == AddStep(old(Model()), id)
      ensures old(IdsFresh()) ==> id !in old(delayers) && IdsFresh()
    {
      id := ids.Generate();
      delayers := delayers + {id};
    }

    method Remove(delayerId: int) returns (released: bool)
      requires Valid()
      modifies this`delayers, this`isExecuted, listenersAccumulator`calls
      ensures Valid()
      ensures (Model(), released) == RemoveStep(old(Model()), delayerId)
      ensures listenersAccumulator.calls
        == old(listenersAccumulator.calls) + if released then Invocations(listenersAccumulator.listeners, []) else []
      ensures old(IdsFresh()) ==> IdsFresh()
    {
      delayers := delayers - {delayerId};
      released := false;
      if |delayers| == 0 && isActivated {
        released := ExecuteListeners();
      }
    }

    method AddListener(onRelease: L)
      requires Valid()
      modifies listenersAccumulator`listeners
      ensures Valid()
      ensures listenersAccumulator.listeners == Added(old(listenersAccumulator.listeners), onRelease)
    {
      listenersAccumulator.AddListener(onRelease);
    }

    method RemoveListener(onRelease: L)
      requires Valid()
      modifies listenersAccumulator`listeners
      ensures Valid()
      ensures listenersAccumulator.listeners == Removed(old(listenersAccumulator.listeners), onRelease)
    {
      listenersAccumulator.RemoveListener(onRelease);
    }

    /** `executeListeners` (private in the source); `ran` says whether the listeners were called. */
    method ExecuteListeners() returns (ran: bool)
      modifies this`isExecuted, listenersAccumulator`calls
      ensures (Model(), ran) == ExecuteListenersStep(old(Model()))
      ensures listenersAccumulator.calls
        == old(listenersAccumulator.calls) + if ran then Invocations(listenersAccumulator.listeners, []) else []
    {
      ran := !isExecuted;
      if ran {
        listenersAccumulator.Execute([]);
      }
      isExecuted := true;
    }

    method Activate() returns (released: bool)
      requires Valid()
      modifies this`isActivated, this`isExecuted, listenersAccumulator`calls
      ensures Valid()
      ensures (Model(), released) == ActivateStep(old(Model()))
      ensures listenersAccumulator.calls
        == old(listenersAccumulator.calls) + if released then Invocations(listenersAccumulator.listeners, []) else []
    {
      isActivated := true;
      released := false;
      if |delayers| == 0 {
        released := ExecuteListeners();
      }
    }
  }
}
