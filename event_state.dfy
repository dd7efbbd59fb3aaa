/**
 * `useEventState.ts`: a value cell whose every write is announced to
 * subscribers. `useEventState(initialState)` returns a getter, a setter and an
 * `EventStateProvider`; all three share one ref (`state.current`).
 *
 * The browser's `EventTarget` stands in as the provider's subscriber list:
 * `addEventListener` ignores a listener already registered, and
 * `dispatchEvent` calls each registered listener in registration order with
 * an event whose `detail` is the value. A delivery is recorded in the
 * provider's `deliveries` log.
 */
module EventStates {
  import opened Optional
  import opened Listeners

  /** `SetStateAction`: a new value, or a function of the previous value. */
  datatype SetStateAction<!T> = Value(value: T) | Updater(f: T -> T)

  /** The value `setState(action)` stores, given the value stored before. */
  function Applied<T>(prev: T, action: SetStateAction<T>): (r: T)
    ensures action.Value? ==> r == action.value
    ensures action.Updater? ==> r == action.f(prev)
  {
    match action
    case Value(v) => v
    case Updater(f) => f(prev)
  }

  /** The single action that stores what `a` followed by `b` stores. */
  function Then<T>(a: SetStateAction<T>, b: SetStateAction<T>): SetStateAction<T>
  {
    match b
    case Value(v) => Value(v)
    case Updater(g) =>
      match a
      case Value(v) => Value(g(v))
      case Updater(f) => Updater(x => g(f(x)))
  }

  /**
   * Two `setState` calls in a row store what one call of their composition
   * stores: a plain value overrides whatever was stored before, whatever that
   * was, and updater functions compose.
   */
  lemma AppliedSequence<T>(prev: T, a: SetStateAction<T>, b: SetStateAction<T>)
    ensures Applied(Applied(prev, a), b) == Applied(prev, Then(a, b))
    ensures b.Value? ==> forall other: T :: Applied(Applied(other, a), b) == Applied(Applied(prev, a), b)
  {
  }

  /** A listener receiving the `onstatechange` event carrying `detail`. */
  datatype Delivery<T> = Delivery(listener: ListenerId, detail: T)

  /** The deliveries one `dispatchEvent` makes: each subscriber in order, each with the same detail. */
  function Deliveries<T>(ls: seq<ListenerId>, detail: T): (r: seq<Delivery<T>>)
    ensures |r| == |ls|
    ensures forall i :: 0 <= i < |ls| ==> r[i] == Delivery(ls[i], detail)
  {
    if ls == [] then [] else Deliveries(ls[..|ls| - 1], detail) + [Delivery(ls[|ls| - 1], detail)]
  }

  /** How many of the deliveries in `ds` reached listener `l`. */
  function DeliveredTo<T>(ds: seq<Delivery<T>>, l: ListenerId): nat
  {
    if ds == [] then 0
    else DeliveredTo(ds[..|ds| - 1], l) + (if ds[|ds| - 1].listener == l then 1 else 0)
  }

  lemma {:induction false} DeliveredToAppend<T>(ds: seq<Delivery<T>>, es: seq<Delivery<T>>, l: ListenerId)
    ensures DeliveredTo(ds + es, l) == DeliveredTo(ds, l) + DeliveredTo(es, l)
  {
    if es != [] {
      assert (ds + es)[..|ds + es| - 1] == ds + es[..|es| - 1];
      DeliveredToAppend(ds, es[..|es| - 1], l);
    } else {
      assert ds + es == ds;
    }
  }

  /** One update reaches every subscriber exactly once, and nobody else. */
  lemma {:induction false} DeliveredExactlyOnce<T>(ls: seq<ListenerId>, detail: T, l: ListenerId)
    requires NoDuplicates(ls)
    ensures DeliveredTo(Deliveries(ls, detail), l) == if l in ls then 1 else 0
  {
    if ls != [] {
      var init := ls[..|ls| - 1];
      assert ls == init + [ls[|ls| - 1]];
      assert NoDuplicates(init);
      DeliveredExactlyOnce(init, detail, l);
      var ds := Deliveries(ls, detail);
      assert ds[..|ds| - 1] == Deliveries(init, detail);
      assert l in ls <==> l in init || l == ls[|ls| - 1];
      assert l == ls[|ls| - 1] ==> l !in init;
    }
  }

  /** React's `MutableRefObject`: one mutable `current` slot. */
  class Ref<T> {
    var current: T

    constructor (initial: T)
      ensures current == initial
    {
      current := initial;
    }
  }

  /** `EventStateProvider`: subscription and notification over a shared ref. */
  class EventStateProvider<T> {
    const stateRef: Ref<T>
    /** The listeners registered on the event target, in registration order. */
    var subscribers: seq<ListenerId>
    /** Every event delivery so far, oldest first. */
    var deliveries: seq<Delivery<T>>

    ghost predicate Valid()
      reads this
    {
      NoDuplicates(subscribers)
    }

    constructor (stateRef: Ref<T>)
      ensures Valid() && this.stateRef == stateRef && subscribers == [] && deliveries == []
    {
      this.stateRef := stateRef;
      subscribers := [];
      deliveries := [];
    }

    /** `subscribe`: `addEventListener`, which ignores a listener already present. */
    method Subscribe(listener: ListenerId)
      requires Valid()
      modifies this`subscribers
      ensures Valid()
      ensures subscribers == Added(old(subscribers), listener)
    {
      subscribers := Added(subscribers, listener);
    }

    /** `unsubscribe` as written: it too calls `addEventListener`, so the listener ends up registered. */
    method UnsubscribeAsWritten(listener: ListenerId)
      requires Valid()
      modifies this`subscribers
      ensures Valid()
      ensures subscribers == Added(old(subscribers), listener)
      ensures listener in subscribers
    {
      subscribers := Added(subscribers, listener);
    }

    /** `unsubscribe` as evidently intended: `removeEventListener`. */
    method Unsubscribe(listener: ListenerId)
      requires Valid()
      modifies this`subscribers
      ensures Valid()
      ensures subscribers == Removed(old(subscribers), listener)
      ensures listener !in subscribers
    {
      subscribers := Removed(subscribers, listener);
    }

    /** `getCurrentValue`: the value in the shared ref. */
    function GetCurrentValue(): T
      reads stateRef
    {
      stateRef.current
    }

    /** `update`: dispatches one event carrying `value` to every subscriber, in order. */
    method Update(value: T)
      modifies this`deliveries
      ensures deliveries == old(deliveries) + Deliveries(subscribers, value)
    {
      var i := 0;
      while i < |subscribers|
        invariant 0 <= i <= |subscribers|
        invariant deliveries == old(deliveries) + Deliveries(subscribers[..i], value)
      {
        assert subscribers[..i + 1][..i] == subscribers[..i];
        deliveries := deliveries + [Delivery(subscribers[i], value)];
        i := i + 1;
      }
      assert subscribers[..i] == subscribers;
    }
  }

  /**
   * The triple `useEventState(initialState)` returns: `getState`, `setState`
   * and the provider, sharing the ref `state`.
   */
  class EventState<T> {
    const state: Ref<T>
    const eventProvider: EventStateProvider<T>

    ghost predicate Valid()
      reads this, eventProvider
    {
      eventProvider.stateRef == state && eventProvider.Valid()
    }

    constructor (initialState: T)
      ensures Valid() && fresh(state) && fresh(eventProvider)
      ensures GetState() == initialState
      ensures eventProvider.subscribers == [] && eventProvider.deliveries == []
    {
      var ref := new Ref(initialState);
      state := ref;
      eventProvider := new EventStateProvider(ref);
    }

    /**
     * `getState`: the stored value, which is also what the provider's
     * `getCurrentValue` reads.
     */
    function GetState(): (r: T)
      reads this, state, eventProvider
      ensures eventProvider.stateRef == state ==> r == eventProvider.GetCurrentValue()
    {
      state.current
    }

    /**
     * `setState`: stores the value (or the updater applied to the previous
     * value), then announces the stored value once to every subscriber.
     */
    method SetState(action: SetStateAction<T>)
      requires Valid()
      modifies state, eventProvider`deliveries
      ensures Valid()
      ensures state.current == Applied(old(state.current), action)
      ensures eventProvider.deliveries == old(eventProvider.deliveries) + Deliveries(eventProvider.subscribers, state.current)
    {
      match action {
        case Value(v) =>
          state.current := v;
        case Updater(f) =>
          state.current := f(state.current);
      }
      eventProvider.Update(state.current);
    }
  }
}
