/** The publish-subscribe bus of internal/bus/bus.go. */
module Bus {
  type JobId = nat

  /** The part of a ProgressSnapshot that the event pipeline looks at. */
  datatype Snapshot = Snapshot(id: JobId, version: nat, terminal: bool, progress: real)

  datatype Event = Progress(snap: Snapshot) | Resync

  const CAPACITY: nat := 100

  /** A send that finds room; the precondition is that it does not block. */
  function Sent<T>(buffer: seq<T>, e: T): seq<T>
    requires |buffer| < CAPACITY
  {
    buffer + [e]
  }

  /** What Publish does to one subscriber: a full buffer is drained and restarted behind a resync. */
  function Delivered<T>(buffer: seq<T>, resync: T, e: T): seq<T> {
    if |buffer| < CAPACITY then Sent(buffer, e) else Sent(Sent([], resync), e)
  }

  class Bus {
    var subscribers: map<nat, seq<Event>>
    var closed: set<nat>        // subscribers whose channel was closed
    var next: nat

    ghost predicate Valid()
      reads this
    {
      && (forall sub :: sub in subscribers ==> sub < next && |subscribers[sub]| <= CAPACITY)
      && (forall sub :: sub in closed ==> sub < next)
      && closed !! subscribers.Keys         // Publish sends on open channels only
    }

    constructor ()
      ensures Valid() && subscribers == map[]
    {
      subscribers, closed, next := map[], {}, 0;
    }

    method Subscribe() returns (sub: nat)
      requires Valid()
      modifies this
      ensures Valid() && sub !in old(subscribers) && sub !in closed
      ensures subscribers == old(subscribers)[sub := []] && closed == old(closed)
    {
      sub := next;
      subscribers := subscribers[sub := []];
      next := next + 1;
    }

    /** The channel is closed together with the removal, and only then. */
    method Unsubscribe(sub: nat)
      requires Valid()
      modifies this
      ensures Valid() && subscribers == old(subscribers) - {sub}
      ensures closed - old(closed) == {sub} * old(subscribers).Keys && old(closed) <= closed
    {
      if sub in subscribers {
        subscribers := subscribers - {sub};
        closed := closed + {sub};
      }
    }

    method Publish(e: Event)
      requires Valid()
      modifies this`subscribers
      ensures Valid()
      ensures subscribers == map sub | sub in old(subscribers) :: Delivered(old(subscribers)[sub], Resync, e)
    {
      var left := subscribers.Keys;
      while left != {}
        invariant left <= subscribers.Keys == old(subscribers).Keys
        invariant forall sub :: sub in left ==> subscribers[sub] == old(subscribers)[sub]
        invariant forall sub :: sub in subscribers && sub !in left ==>
                    subscribers[sub] == Delivered(old(subscribers)[sub], Resync, e)
        decreases |left|
      {
        var sub :| sub in left;
        if |subscribers[sub]| < CAPACITY {
          subscribers := subscribers[sub := Sent(subscribers[sub], e)];
        } else {
          var buffer := subscribers[sub];
          while buffer != []
          {
            buffer := buffer[1..];
          }
          buffer := Sent(buffer, Resync);
          buffer := Sent(buffer, e);
          subscribers := subscribers[sub := buffer];
        }
        left := left - {sub};
      }
    }
  }
}
