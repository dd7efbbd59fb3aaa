/**
 * The listener registry of `ListenersAccumulator.ts`: a JavaScript `Set` of
 * callbacks with add, remove and execute-all.
 *
 * A listener is an opaque identity `L`; invoking it is recorded as a `Call` in
 * the accumulator's call log, which stands for whatever the callback does.
 */
module Listeners {
  import opened Optional

  /** The identity of a callback a caller registers: opaque, compared only for equality. */
  type ListenerId = nat

  /** One invocation of `listener`, with the argument list it received as one array. */
  datatype Call<L, A> = Call(listener: L, arg: seq<A>)

  /** The listener sequence after `Set.add(l)`: unchanged when `l` is present, else `l` at the end. */
  function Added<L(==)>(ls: seq<L>, l: L): (r: seq<L>)
    ensures l in r && forall i :: 0 <= i < |r| ==> r[i] in ls || r[i] == l
    ensures |r| == if l in ls then |ls| else |ls| + 1
    ensures r[..|ls|] == ls
    ensures NoDuplicates(ls) ==> NoDuplicates(r)
  {
    if l in ls then ls else ls + [l]
  }

  /** The listener sequence after `Set.delete(l)`: every other listener, in the same order. */
  function Removed<L(==)>(ls: seq<L>, l: L): (r: seq<L>)
    ensures l !in r
    ensures forall i :: 0 <= i < |r| ==> r[i] in ls
    ensures l !in ls ==> r == ls
    ensures NoDuplicates(ls) ==> NoDuplicates(r)
    ensures NoDuplicates(ls) && l in ls ==> |r| == |ls| - 1
  {
    if ls == [] then []
    else if ls[0] == l then Removed(ls[1..], l)
    else [ls[0]] + Removed(ls[1..], l)
  }

  /** Removing `l` keeps every other listener. */
  lemma {:induction false} RemovedKeeps<L>(ls: seq<L>, l: L, x: L)
    requires x in ls && x != l
    ensures x in Removed(ls, l)
  {
    if ls[0] != x {
      RemovedKeeps(ls[1..], l, x);
    }
  }

  /** The calls `forEach` makes: each listener in iteration order, each given the whole `arg` array. */
  function Invocations<L, A>(ls: seq<L>, arg: seq<A>): (r: seq<Call<L, A>>)
    ensures |r| == |ls|
    ensures forall i :: 0 <= i < |ls| ==> r[i] == Call(ls[i], arg)
  {
    if ls == [] then [] else Invocations(ls[..|ls| - 1], arg) + [Call(ls[|ls| - 1], arg)]
  }

  /** How many of the calls in `cs` went to listener `l`. */
  function CallsTo<L(==), A>(cs: seq<Call<L, A>>, l: L): nat
  {
    if cs == [] then 0
    else CallsTo(cs[..|cs| - 1], l) + (if cs[|cs| - 1].listener == l then 1 else 0)
  }

  lemma {:induction false} CallsToAppend<L, A>(cs: seq<Call<L, A>>, ds: seq<Call<L, A>>, l: L)
    ensures CallsTo(cs + ds, l) == CallsTo(cs, l) + CallsTo(ds, l)
  {
    if ds != [] {
      assert (cs + ds)[..|cs + ds| - 1] == cs + ds[..|ds| - 1];
      CallsToAppend(cs, ds[..|ds| - 1], l);
    } else {
      assert cs + ds == cs;
    }
  }

  /** Executing a registry invokes each registered listener exactly once and nothing else. */
  lemma {:induction false} InvokedExactlyOnce<L, A>(ls: seq<L>, arg: seq<A>, l: L)
    requires NoDuplicates(ls)
    ensures CallsTo(Invocations(ls, arg), l) == if l in ls then 1 else 0
  {
    if ls != [] {
      var init := ls[..|ls| - 1];
      assert ls == init + [ls[|ls| - 1]];
      assert NoDuplicates(init);
      InvokedExactlyOnce(init, arg, l);
      var cs := Invocations(ls, arg);
      assert cs[..|cs| - 1] == Invocations(init, arg);
      assert l in ls <==> l in init || l == ls[|ls| - 1];
      assert l == ls[|ls| - 1] ==> l !in init;
    }
  }

  /** Adding the same listener twice stores it once: one execution calls it once. */
  lemma AddedTwiceInvokedOnce<L, A>(ls: seq<L>, l: L, arg: seq<A>)
    requires NoDuplicates(ls)
    ensures Added(Added(ls, l), l) == Added(ls, l)
    ensures CallsTo(Invocations(Added(Added(ls, l), l), arg), l) == 1
  {
    InvokedExactlyOnce(Added(ls, l), arg, l);
  }

  /** On a duplicate-free registry, removing `l` deletes exactly the one position holding it. */
  lemma {:induction false} RemovedAt<L>(ls: seq<L>, l: L, k: nat)
    requires NoDuplicates(ls) && k < |ls| && ls[k] == l
    ensures Removed(ls, l) == ls[..k] + ls[k + 1..]
  {
    if k == 0 {
      calc {
        Removed(ls, l);
        Removed(ls[1..], l);
        { HeadNotInTail(ls); }
        ls[1..];
        ls[..0] + ls[1..];
      }
    } else {
      calc {
        Removed(ls, l);
        { assert ls[0] != l by { assert ls[0] != ls[k]; } }
        [ls[0]] + Removed(ls[1..], l);
        { TailNoDuplicates(ls); RemovedAt(ls[1..], l, k - 1); }
        [ls[0]] + (ls[1..][..k - 1] + ls[1..][k..]);
        { DropAtCons(ls, k); }
        ls[..k] + ls[k + 1..];
      }
    }
  }

  lemma TailNoDuplicates<L>(ls: seq<L>)
    requires NoDuplicates(ls) && ls != []
    ensures NoDuplicates(ls[1..])
  {
    var tail := ls[1..];
    forall i, j | 0 <= i < j < |tail| ensures tail[i] != tail[j] { assert tail[i] == ls[i + 1] && tail[j] == ls[j + 1]; }
  }

  lemma HeadNotInTail<L>(ls: seq<L>)
    requires NoDuplicates(ls) && ls != []
    ensures ls[0] !in ls[1..]
  {
    var tail := ls[1..];
    forall i | 0 <= i < |tail| ensures tail[i] != ls[0] { assert tail[i] == ls[i + 1]; }
  }

  /** Dropping position `k > 0` of a sequence keeps its head and drops position `k - 1` of its tail. */
  lemma DropAtCons<L>(ls: seq<L>, k: nat)
    requires 0 < k < |ls|
    ensures ls[..k] + ls[k + 1..] == [ls[0]] + (ls[1..][..k - 1] + ls[1..][k..])
  {
    var tail := ls[1..];
    assert ls[..k] == [ls[0]] + tail[..k - 1];
    assert ls[k + 1..] == tail[k..];
  }

  /** The `ListenersAccumulator` class: a `Set` of listeners, and the log of every call it made. */
  class ListenersAccumulator<L(==), A> {
    /** The registered listeners in `Set` iteration (insertion) order. */
    var listeners: seq<L>
    /** Every listener invocation `execute` has made so far, oldest first. */
    var calls: seq<Call<L, A>>

    ghost predicate Valid()
      reads this
    {
      NoDuplicates(listeners)
    }

    constructor ()
      ensures Valid() && listeners == [] && calls == []
    {
      listeners := [];
      calls := [];
    }

    method AddListener(listener: L)
      requires Valid()
      modifies this`listeners
      ensures Valid()
      ensures listeners == Added(old(listeners), listener)
    {
      listeners := Added(listeners, listener);
    }

    method RemoveListener(listener: L)
      requires Valid()
      modifies this`listeners
      ensures Valid()
      ensures listeners == Removed(old(listeners), listener)
    {
      listeners := Removed(listeners, listener);
    }

    /** `execute(...arg)`: every listener, in order, is called with the whole argument array. */
    method Execute(arg: seq<A>)
      modifies this`calls
      ensures calls == old(calls) + Invocations(listeners, arg)
    {
      var i := 0;
      while i < |listeners|
        invariant 0 <= i <= |listeners|
        invariant calls == old(calls) + Invocations(listeners[..i], arg)
      {
        assert listeners[..i + 1][..i] == listeners[..i];
        calls := calls + [Call(listeners[i], arg)];
        i := i + 1;
      }
      assert listeners[..i] == listeners;
    }
  }
}
