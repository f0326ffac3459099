/** The bounded FIFO of internal/queue/queue.go: one method per critical section. */
module Queue {
  import opened Wrappers

  /** `wake` is whether the one-slot wake channel holds its token, `space` numbers the
      current space channel, and `closed` lists the space channels closed so far. */
  datatype QState<T> = QState(items: seq<T>, capacity: nat, wake: bool, space: nat, closed: seq<nat>)

  function Pushed<T>(q: QState<T>, item: T): QState<T> {
    q.(items := q.items + [item])
  }

  function Signalled<T>(q: QState<T>): QState<T> {
    q.(wake := true)
  }

  /** Every critical section that frees a slot closes the space channel and makes a new one. */
  function Released<T>(q: QState<T>, items: seq<T>): QState<T> {
    q.(items := items, closed := q.closed + [q.space], space := q.space + 1)
  }

  /** The position of the first matching item, or the length when there is none. */
  function FirstMatch<T>(items: seq<T>, matches: T -> bool): (i: nat)
    ensures i <= |items|
    ensures i < |items| ==> matches(items[i])
    ensures forall j :: 0 <= j < i ==> !matches(items[j])
  {
    if items == [] then 0
    else if matches(items[0]) then 0
    else 1 + FirstMatch(items[1..], matches)
  }

  function Without<T>(items: seq<T>, i: nat): seq<T>
    requires i < |items|
  {
    items[..i] + items[i + 1..]
  }

  /** Capacity is respected and every earlier space channel was closed once, in order. */
  ghost predicate WellFormed<T>(q: QState<T>) {
    && |q.items| <= q.capacity
    && |q.closed| == q.space
    && forall g :: 0 <= g < q.space ==> q.closed[g] == g
  }

  lemma ReleasedWellFormed<T>(q: QState<T>, items: seq<T>)
    requires WellFormed(q) && |items| <= q.capacity
    ensures WellFormed(Released(q, items))
  {
  }

  class Queue<T(0)> {
    var items: seq<T>
    const capacity: nat
    var wake: bool
    var space: nat
    var closed: seq<nat>

    ghost function State(): QState<T>
      reads this
    {
      QState(items, capacity, wake, space, closed)
    }

    ghost predicate Valid()
      reads this
    {
      WellFormed(State())
    }

    constructor (capacity: int)
      ensures Valid()
      ensures State() == QState([], if capacity < 0 then 0 else capacity, false, 0, [])
    {
      this.capacity := if capacity < 0 then 0 else capacity;
      items, wake, space, closed := [], false, 0, [];
    }

    /** The critical section shared by Enqueue and EnqueueWait. */
    method TryPush(item: T) returns (pushed: bool)
      requires Valid()
      modifies this
      ensures Valid()
      ensures pushed <==> |old(items)| < capacity
      ensures State() == if pushed then Pushed(old(State()), item) else old(State())
    {
      pushed := |items| < capacity;
      if pushed {
        items := items + [item];
      }
    }

    /** The non-blocking send on the wake channel: a no-op when the token is already there. */
    method Signal()
      requires Valid()
      modifies this
      ensures Valid() && State() == Signalled(old(State()))
    {
      wake := true;
    }

    method Enqueue(item: T) returns (accepted: bool)
      requires Valid()
      modifies this
      ensures Valid()
      ensures accepted <==> |old(items)| < capacity
      ensures State() == if accepted then Signalled(Pushed(old(State()), item)) else old(State())
    {
      accepted := TryPush(item);
      if accepted {
        Signal();
      }
    }

    /** The critical section of Next. */
    method TryNext() returns (item: Option<T>)
      requires Valid()
      modifies this
      ensures Valid()
      ensures item.None? <==> old(items) == []
      ensures item.None? ==> State() == old(State())
      ensures item.Some? ==> old(items) == [item.value] + items
      ensures item.Some? ==> State() == Released(old(State()), items)
    {
      item := None;
      if |items| > 0 {
        item := Some(items[0]);
        items := items[1..];
        closed := closed + [space];
        space := space + 1;
      }
    }

    method Remove(matches: T -> bool) returns (found: bool)
      requires Valid()
      modifies this
      ensures Valid()
      ensures found <==> exists item :: item in old(items) && matches(item)
      ensures var i := FirstMatch(old(items), matches);
        State() == if found then Released(old(State()), Without(old(items), i)) else old(State())
    {
      for index := 0 to |items|
        invariant forall j :: 0 <= j < index ==> !matches(items[j])
        invariant State() == old(State())
      {
        if matches(items[index]) {
          assert FirstMatch(items, matches) == index;
          items := Without(items, index);
          closed := closed + [space];
          space := space + 1;
          return true;
        }
      }
      return false;
    }
  }
}
