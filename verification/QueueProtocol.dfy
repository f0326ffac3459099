/** All interleavings of EnqueueWait, Enqueue, Next and Remove on one queue. Each step is a
    critical section, a channel operation or a change of a context; between two steps any
    other goroutine may run. */
module QueueProtocol {
  import opened Wrappers
  import opened Queue

  datatype Producer<T> =
    | Trying(item: T, waits: bool)      // before the lock; `waits` tells EnqueueWait from Enqueue
    | Parked(item: T, space: nat)       // selecting on the space channel it read under the lock
    | Signalling(item: T)               // item appended, token not yet sent
    | Returned(accepted: bool)

  datatype Consumer<T> =
    | Checking                          // about to look at the context
    | Locking                           // about to take the lock
    | Waiting                           // saw no item: parked or about to park on wake
    | Holding(item: T)
    | Stopped

  datatype State<T> = State(
    q: QState<T>,
    producers: map<nat, Producer<T>>,
    cancelled: set<nat>,
    consumers: map<nat, Consumer<T>>,
    stopped: bool)

  datatype Step<!T> =
    | Call(p: nat, item: T, waits: bool)
    | Cancel(p: nat)
    | Admit(p: nat)
    | Signal(p: nat)
    | SpaceClosed(p: nat)
    | GiveUp(p: nat)
    | Check(c: nat)
    | Take(c: nat)
    | Receive(c: nat)
    | Abort(c: nat)
    | Resume(c: nat)
    | Remove(matches: T -> bool)
    | Stop

  predicate Enabled<T(!new)>(s: State<T>, step: Step<T>) {
    match step
    case Call(p, _, _) => p !in s.producers
    case Cancel(p) => true
    case Admit(p) => p in s.producers && s.producers[p].Trying?
    case Signal(p) => p in s.producers && s.producers[p].Signalling?
    case SpaceClosed(p) => p in s.producers && s.producers[p].Parked? && s.producers[p].space in s.q.closed
    case GiveUp(p) => p in s.producers && s.producers[p].Parked? && p in s.cancelled
    case Check(c) => c in s.consumers && s.consumers[c].Checking?
    case Take(c) => c in s.consumers && s.consumers[c].Locking?
    case Receive(c) => c in s.consumers && s.consumers[c].Waiting? && s.q.wake
    case Abort(c) => c in s.consumers && s.consumers[c].Waiting? && s.stopped
    case Resume(c) => c in s.consumers && s.consumers[c].Holding?
    case Remove(_) => true
    case Stop => true
  }

  function Apply<T(!new)>(s: State<T>, step: Step<T>): State<T>
    requires Enabled(s, step)
  {
    match step
    case Call(p, item, waits) => s.(producers := s.producers[p := Trying(item, waits)])
    case Cancel(p) => s.(cancelled := s.cancelled + {p})
    case Admit(p) =>
      var item := s.producers[p].item;
      if s.producers[p].waits && p in s.cancelled then
        s.(producers := s.producers[p := Returned(false)])
      else if |s.q.items| < s.q.capacity then
        s.(q := Pushed(s.q, item), producers := s.producers[p := Signalling(item)])
      else if s.producers[p].waits then
        s.(producers := s.producers[p := Parked(item, s.q.space)])
      else
        s.(producers := s.producers[p := Returned(false)])
    case Signal(p) => s.(q := Signalled(s.q), producers := s.producers[p := Returned(true)])
    case SpaceClosed(p) => s.(producers := s.producers[p := Trying(s.producers[p].item, true)])
    case GiveUp(p) => s.(producers := s.producers[p := Returned(false)])
    case Check(c) => s.(consumers := s.consumers[c := if s.stopped then Stopped else Locking])
    case Take(c) =>
      if |s.q.items| > 0 then
        s.(q := Released(s.q, s.q.items[1..]), consumers := s.consumers[c := Holding(s.q.items[0])])
      else
        s.(consumers := s.consumers[c := Waiting])
    case Receive(c) => s.(q := s.q.(wake := false), consumers := s.consumers[c := Checking])
    case Abort(c) => s.(consumers := s.consumers[c := Stopped])
    case Resume(c) => s.(consumers := s.consumers[c := Checking])
    case Remove(matches) =>
      var i := FirstMatch(s.q.items, matches);
      if i < |s.q.items| then s.(q := Released(s.q, Without(s.q.items, i))) else s
    case Stop => s.(stopped := true)
  }

  function Init<T>(capacity: nat, consumers: set<nat>): State<T> {
    State(QState([], capacity, false, 0, []), map[], {}, map c | c in consumers :: Checking, false)
  }

  /** The state after a run, or None when some step of it was not enabled. */
  function Exec<T(!new)>(s: State<T>, steps: seq<Step<T>>): Option<State<T>>
    decreases |steps|
  {
    if steps == [] then Some(s)
    else
      var last := |steps| - 1;
      var before := Exec(s, steps[..last]);
      if before.Some? && Enabled(before.value, steps[last]) then Some(Apply(before.value, steps[last])) else None
  }

  ghost predicate Reachable<T(!new)>(s: State<T>, consumers: set<nat>) {
    exists capacity: nat, steps: seq<Step<T>> :: Exec(Init(capacity, consumers), steps) == Some(s)
  }

  // ---------------------------------------------------------------- producers

  /** A producer parked on the channel that is still current is right to wait. */
  ghost predicate ParkedMeansFull<T(!new)>(s: State<T>) {
    forall p :: p in s.producers && s.producers[p].Parked? ==>
      && s.producers[p].space <= s.q.space
      && (s.producers[p].space == s.q.space ==> |s.q.items| == s.q.capacity)
  }

  ghost predicate Inv<T(!new)>(s: State<T>) {
    WellFormed(s.q) && ParkedMeansFull(s)
  }

  lemma WellFormedStep<T(!new)>(s: State<T>, step: Step<T>)
    requires WellFormed(s.q) && Enabled(s, step)
    ensures WellFormed(Apply(s, step).q)
    ensures Apply(s, step).consumers.Keys == s.consumers.Keys
  {
    if step.Take? && s.q.items != [] {
      ReleasedWellFormed(s.q, s.q.items[1..]);
    } else if step.Remove? {
      var i := FirstMatch(s.q.items, step.matches);
      if i < |s.q.items| {
        ReleasedWellFormed(s.q, Without(s.q.items, i));
      }
    }
  }

  /** Slots are only freed together with a new space channel. */
  lemma SpaceStep<T(!new)>(s: State<T>, step: Step<T>)
    requires WellFormed(s.q) && Enabled(s, step)
    ensures var q := Apply(s, step).q;
      q.space > s.q.space || (q.space == s.q.space && |q.items| >= |s.q.items|)
  {
  }

  lemma InvStep<T(!new)>(s: State<T>, step: Step<T>)
    requires Inv(s) && Enabled(s, step)
    ensures Inv(Apply(s, step))
    ensures Apply(s, step).consumers.Keys == s.consumers.Keys
  {
    WellFormedStep(s, step);
    SpaceStep(s, step);
    var s' := Apply(s, step);
    forall p | p in s'.producers && s'.producers[p].Parked?
      ensures s'.producers[p].space <= s'.q.space
      ensures s'.producers[p].space == s'.q.space ==> |s'.q.items| == s'.q.capacity
    {
      if p in s.producers && s'.producers[p] == s.producers[p] {
      } else {
        assert step.Admit?;
      }
    }
  }

  /** The consumer waits with items queued only while a token is there or on its way. */
  ghost predicate NoLostWakeup<T(!new)>(s: State<T>) {
    s.q.items != [] && (exists c :: c in s.consumers && s.consumers[c].Waiting?) ==>
      s.q.wake || exists p :: p in s.producers && s.producers[p].Signalling?
  }

  lemma WakeupStep<T(!new)>(s: State<T>, step: Step<T>)
    requires Enabled(s, step) && NoLostWakeup(s)
    requires forall c, d :: c in s.consumers && d in s.consumers ==> c == d
    ensures NoLostWakeup(Apply(s, step))
  {
    var s' := Apply(s, step);
    match step
    case Admit(p) => assert p in s'.producers && (s'.producers[p].Signalling? || s'.q == s.q);
      assert forall q :: q in s.producers && s.producers[q].Signalling? ==> s'.producers[q].Signalling?;
    case Signal(p) => assert s'.q.wake;
    case Receive(c) => assert forall d :: d in s'.consumers ==> s'.consumers[d].Checking?;
    case Take(c) => assert forall d :: d in s'.consumers ==> d == c;
    case Call(p, item, waits) =>
      assert forall q :: q in s.producers && s.producers[q].Signalling? ==> s'.producers[q].Signalling?;
    case SpaceClosed(p) =>
      assert forall q :: q in s.producers && s.producers[q].Signalling? ==> s'.producers[q].Signalling?;
    case GiveUp(p) =>
      assert forall q :: q in s.producers && s.producers[q].Signalling? ==> s'.producers[q].Signalling?;
    case Cancel(p) =>
    case Check(c) =>
    case Abort(c) =>
    case Resume(c) =>
    case Remove(matches) =>
    case Stop =>
  }

  lemma {:induction false} RunKeepsInv<T(!new)>(s: State<T>, steps: seq<Step<T>>)
    requires Inv(s) && Exec(s, steps).Some?
    ensures Inv(Exec(s, steps).value) && Exec(s, steps).value.consumers.Keys == s.consumers.Keys
    decreases |steps|
  {
    if steps != [] {
      var last := |steps| - 1;
      RunKeepsInv(s, steps[..last]);
      InvStep(Exec(s, steps[..last]).value, steps[last]);
    }
  }

  lemma {:induction false} RunKeepsWakeup<T(!new)>(s: State<T>, steps: seq<Step<T>>)
    requires Inv(s) && NoLostWakeup(s) && Exec(s, steps).Some?
    requires forall c, d :: c in s.consumers && d in s.consumers ==> c == d
    ensures NoLostWakeup(Exec(s, steps).value)
    decreases |steps|
  {
    if steps != [] {
      var last := |steps| - 1;
      RunKeepsInv(s, steps[..last]);
      RunKeepsWakeup(s, steps[..last]);
      WakeupStep(Exec(s, steps[..last]).value, steps[last]);
    }
  }

  // ---------------------------------------------------------------- theorems

  /** Capacity holds in every reachable state, whatever the number of consumers, and every
      space channel but the current one has been closed exactly once. */
  lemma CapacityAndGenerations<T(!new)>(s: State<T>, consumers: set<nat>, g: nat)
    requires Reachable(s, consumers)
    ensures |s.q.items| <= s.q.capacity
    ensures multiset(s.q.closed)[g] == if g < s.q.space then 1 else 0
  {
    var capacity: nat, steps: seq<Step<T>> :| Exec(Init(capacity, consumers), steps) == Some(s);
    RunKeepsInv(Init(capacity, consumers), steps);
    CountUpTo(s.q.closed, g);
  }

  lemma {:induction false} CountUpTo(closed: seq<nat>, g: nat)
    requires forall i :: 0 <= i < |closed| ==> closed[i] == i
    ensures multiset(closed)[g] == if g < |closed| then 1 else 0
  {
    if closed != [] {
      var n := |closed| - 1;
      assert closed == closed[..n] + [closed[n]];
      CountUpTo(closed[..n], g);
    }
  }

  /** A parked producer either sees its channel closed, so that it can go on, or the queue is full. */
  lemma NoLostSpace<T(!new)>(s: State<T>, consumers: set<nat>, p: nat)
    requires Reachable(s, consumers)
    requires p in s.producers && s.producers[p].Parked?
    ensures Enabled(s, Step<T>.SpaceClosed(p)) || |s.q.items| == s.q.capacity
    ensures s.producers[p].space !in s.q.closed ==> |s.q.items| == s.q.capacity
  {
    var capacity: nat, steps: seq<Step<T>> :| Exec(Init(capacity, consumers), steps) == Some(s);
    RunKeepsInv(Init(capacity, consumers), steps);
    var g := s.producers[p].space;
    if g < s.q.space {
      assert s.q.closed[g] == g;
    }
  }

  /** With the pool's single dispatcher no wakeup is lost: when items are queued and it waits,
      it can receive the token now, or an enqueuer's next step makes it able to. */
  lemma SingleConsumerIsWoken<T(!new)>(s: State<T>, c: nat)
    requires Reachable(s, {c}) && s.q.items != []
    requires c in s.consumers && s.consumers[c].Waiting?
    ensures Enabled(s, Step<T>.Receive(c)) ||
            exists p :: Enabled(s, Step<T>.Signal(p)) && Enabled(Apply(s, Step<T>.Signal(p)), Step<T>.Receive(c))
  {
    var capacity: nat, steps: seq<Step<T>> :| Exec(Init(capacity, {c}), steps) == Some(s);
    RunKeepsWakeup(Init(capacity, {c}), steps);
    if !s.q.wake {
      var p :| p in s.producers && s.producers[p].Signalling?;
      assert Enabled(s, Step<T>.Signal(p)) && Enabled(Apply(s, Step<T>.Signal(p)), Step<T>.Receive(c));
    }
  }

  /** A consumer is parked beside queued items for good, as far as those at work go: no token is there
      or on its way, and no consumer is about to look at the queue of its own accord. */
  ghost predicate Stuck<T(!new)>(s: State<T>) {
    && s.q.items != [] && !s.q.wake && !s.stopped
    && (forall p :: p in s.producers ==> !s.producers[p].Signalling?)
    && (exists c :: c in s.consumers && s.consumers[c].Waiting?)
    && (forall c :: c in s.consumers ==> !s.consumers[c].Checking? && !s.consumers[c].Locking?)
  }

  /** The queue loses wakeups exactly for two or more consumers. */
  lemma StuckIffTwoConsumers<T(!new)>(consumers: set<nat>, item: T)
    ensures (exists s: State<T> :: Reachable(s, consumers) && Stuck(s)) <==> |consumers| >= 2
  {
    if |consumers| >= 2 {
      var s := TwoConsumersLoseAWakeup(consumers, item);
    } else {
      forall s: State<T> | Reachable(s, consumers)
        ensures !Stuck(s)
      {
        OneConsumerIsNeverStuck(s, consumers);
      }
    }
  }

  lemma AtMostOne(consumers: set<nat>, c: nat, d: nat)
    requires |consumers| <= 1 && c in consumers && d in consumers
    ensures c == d
  {
    assert consumers == {c, d} + (consumers - {c, d});
  }

  lemma OneConsumerIsNeverStuck<T(!new)>(s: State<T>, consumers: set<nat>)
    requires Reachable(s, consumers) && |consumers| <= 1
    ensures !Stuck(s)
  {
    var capacity: nat, steps: seq<Step<T>> :| Exec(Init(capacity, consumers), steps) == Some(s);
    var start := Init<T>(capacity, consumers);
    forall c, d | c in start.consumers && d in start.consumers
      ensures c == d
    {
      AtMostOne(consumers, c, d);
    }
    RunKeepsWakeup(start, steps);
  }

  /** For any two or more consumers: all of them park, two enqueues share one token, the woken consumer
      takes the first item, and another one stays parked beside the second. */
  lemma TwoConsumersLoseAWakeup<T(!new)>(consumers: set<nat>, item: T) returns (s: State<T>)
    requires |consumers| >= 2
    ensures Reachable(s, consumers) && Stuck(s) && s.q.items == [item]
  {
    hide Reachable;
    var c, d := Two(consumers);
    s := Park(consumers, AllParked<T>(consumers, consumers), consumers);
    assert s.consumers[c] == s.consumers[d] == Waiting;
    s := Enqueues(consumers, s, 7, item);
    s := Enqueues(consumers, s, 8, item);
    s := Woken(consumers, s, c, item);
    assert d in s.consumers && s.consumers[d].Waiting?;
  }

  lemma Two(consumers: set<nat>) returns (c: nat, d: nat)
    requires |consumers| >= 2
    ensures c in consumers && d in consumers && c != d
  {
    c :| c in consumers;
    assert consumers == {c} + (consumers - {c});
    d :| d in consumers - {c};
  }

  /** Nothing has happened except that the consumers outside `left` have parked. */
  function AllParked<T>(consumers: set<nat>, left: set<nat>): State<T> {
    State(QState([], 2, false, 0, []), map[], {}, map c | c in consumers :: if c in left then Checking else Waiting, false)
  }

  lemma {:induction false} Park<T(!new)>(consumers: set<nat>, s: State<T>, left: set<nat>) returns (s': State<T>)
    requires left <= consumers && s == AllParked(consumers, left)
    requires left == consumers || Reachable(s, consumers)
    ensures Reachable(s', consumers) && s' == AllParked(consumers, {})
    decreases |left|
  {
    assert Reachable(s, consumers) by {
      if left == consumers {
        assert s == Init(2, consumers);
        assert Exec(s, []) == Some(s);
      }
    }
    s' := s;
    if left != {} {
      var c :| c in left;
      var s1 := Go(consumers, s, Check(c));
      var s2 := Go(consumers, s1, Take(c));
      assert s2.consumers == AllParked<T>(consumers, left - {c}).consumers;
      s' := Park(consumers, s2, left - {c});
    }
  }

  lemma Enqueues<T(!new)>(consumers: set<nat>, s: State<T>, p: nat, item: T) returns (s': State<T>)
    requires Reachable(s, consumers) && p !in s.producers && |s.q.items| < s.q.capacity
    ensures Reachable(s', consumers)
    ensures s' == s.(q := Signalled(Pushed(s.q, item)), producers := s.producers[p := Returned(true)])
  {
    var s1 := Go(consumers, s, Call(p, item, false));
    var s2 := Go(consumers, s1, Admit(p));
    s' := Go(consumers, s2, Signal(p));
    assert s'.producers == s.producers[p := Returned(true)];
  }

  /** A parked consumer receives the token and takes the first item. */
  lemma Woken<T(!new)>(consumers: set<nat>, s: State<T>, c: nat, item: T) returns (s': State<T>)
    requires Reachable(s, consumers) && c in s.consumers && s.consumers[c].Waiting? && !s.stopped
    requires s.q.items == [item, item] && s.q.wake
    ensures Reachable(s', consumers) && s'.q.items == [item] && !s'.q.wake
    ensures s'.consumers == s.consumers[c := Holding(item)] && s'.producers == s.producers && !s'.stopped
  {
    var s1 := Go(consumers, s, Receive(c));
    var s2 := Go(consumers, s1, Check(c));
    s' := Go(consumers, s2, Take(c));
    assert s'.consumers == s.consumers[c := Holding(item)];
  }

  lemma Go<T(!new)>(consumers: set<nat>, s: State<T>, step: Step<T>) returns (s': State<T>)
    requires Reachable(s, consumers) && Enabled(s, step)
    ensures Reachable(s', consumers) && s' == Apply(s, step)
  {
    var capacity: nat, steps: seq<Step<T>> :| Exec(Init(capacity, consumers), steps) == Some(s);
    var longer := steps + [step];
    assert longer[..|longer| - 1] == steps;
    s' := Apply(s, step);
    assert Exec(Init(capacity, consumers), longer) == Some(s');
  }

  // ---------------------------------------------------------------- what goes in and out

  /** What producers have handed over, what consumers have been given, and what was removed, in order. */
  datatype Ledger<T> = Ledger(accepted: seq<T>, taken: seq<T>, removed: seq<T>)

  /** The entry of one step: a producer that has become about to signal has handed its item over, and a
      consumer that has come to hold one has taken it. */
  function Booked<T(!new)>(ledger: Ledger<T>, s: State<T>, step: Step<T>): Ledger<T>
    requires Enabled(s, step)
  {
    var s' := Apply(s, step);
    match step
    case Admit(p) =>
      if p in s'.producers && s'.producers[p].Signalling? then ledger.(accepted := ledger.accepted + [s'.producers[p].item])
      else ledger
    case Take(c) =>
      if c in s'.consumers && s'.consumers[c].Holding? then ledger.(taken := ledger.taken + [s'.consumers[c].item]) else ledger
    case Remove(matches) =>
      var i := FirstMatch(s.q.items, matches);
      if i < |s.q.items| then ledger.(removed := ledger.removed + [s.q.items[i]]) else ledger
    case _ => ledger
  }

  function Books<T(!new)>(s: State<T>, steps: seq<Step<T>>): Ledger<T>
    requires Exec(s, steps).Some?
    decreases |steps|
  {
    if steps == [] then Ledger([], [], [])
    else
      var last := |steps| - 1;
      Booked(Books(s, steps[..last]), Exec(s, steps[..last]).value, steps[last])
  }

  ghost predicate Balanced<T>(ledger: Ledger<T>, items: seq<T>) {
    && multiset(ledger.accepted) == multiset(ledger.taken) + multiset(ledger.removed) + multiset(items)
    && (ledger.removed == [] ==> ledger.accepted == ledger.taken + items)
  }

  lemma AcceptedBalances<T>(ledger: Ledger<T>, items: seq<T>, item: T)
    requires Balanced(ledger, items)
    ensures Balanced(ledger.(accepted := ledger.accepted + [item]), items + [item])
  {
    assert ledger.taken + items + [item] == ledger.taken + (items + [item]);
  }

  lemma TakenBalances<T>(ledger: Ledger<T>, items: seq<T>)
    requires Balanced(ledger, items) && items != []
    ensures Balanced(ledger.(taken := ledger.taken + [items[0]]), items[1..])
  {
    assert items == [items[0]] + items[1..];
    assert ledger.taken + [items[0]] + items[1..] == ledger.taken + items;
  }

  lemma RemovedBalances<T>(ledger: Ledger<T>, items: seq<T>, i: nat)
    requires Balanced(ledger, items) && i < |items|
    ensures Balanced(ledger.(removed := ledger.removed + [items[i]]), Without(items, i))
  {
    WithoutOneItem(items, i);
  }

  lemma BookedBalances<T(!new)>(ledger: Ledger<T>, s: State<T>, step: Step<T>)
    requires Enabled(s, step) && Balanced(ledger, s.q.items)
    ensures Balanced(Booked(ledger, s, step), Apply(s, step).q.items)
  {
    hide Balanced;
    if step.Take? && s.q.items != [] {
      TakenBalances(ledger, s.q.items);
    } else if step.Remove? && FirstMatch(s.q.items, step.matches) < |s.q.items| {
      RemovedBalances(ledger, s.q.items, FirstMatch(s.q.items, step.matches));
    } else if step.Admit? {
      AcceptedBalances(ledger, s.q.items, s.producers[step.p].item);
    }
  }

  lemma WithoutOneItem<T>(items: seq<T>, i: nat)
    requires i < |items|
    ensures multiset(Without(items, i)) + multiset{items[i]} == multiset(items)
  {
    assert items == items[..i] + [items[i]] + items[i + 1..];
  }

  /** Over every run of any producers, consumers and removals: each item handed over is exactly one of taken,
      removed or queued; and without removals items are taken in the order in which they were handed over,
      and the rest of them is queued in that order. */
  lemma {:induction false} NothingIsLost<T(!new)>(capacity: nat, consumers: set<nat>, steps: seq<Step<T>>)
    requires Exec(Init(capacity, consumers), steps).Some?
    ensures Balanced(Books(Init(capacity, consumers), steps), Exec(Init(capacity, consumers), steps).value.q.items)
    decreases |steps|
  {
    hide Enabled, Apply, Booked, Balanced;
    if steps == [] {
      NothingYet<T>(capacity, consumers);
    } else {
      var last, start := |steps| - 1, Init<T>(capacity, consumers);
      NothingIsLost(capacity, consumers, steps[..last]);
      BookedBalances(Books(start, steps[..last]), Exec(start, steps[..last]).value, steps[last]);
    }
  }

  lemma NothingYet<T>(capacity: nat, consumers: set<nat>)
    ensures Balanced<T>(Ledger([], [], []), Init<T>(capacity, consumers).q.items)
  {
  }

  /** Why a producer that tries comes back or waits: an item is refused only to a waiting producer that has
      been cancelled, or to one that does not wait when the queue is full. */
  lemma RefusedForCause<T(!new)>(s: State<T>, step: Step<T>, p: nat)
    requires Enabled(s, step) && p in s.producers && s.producers[p].Trying?
    ensures p in Apply(s, step).producers
    ensures var before, after := s.producers[p], Apply(s, step).producers[p];
      && (after.Returned? ==> !after.accepted && if before.waits then p in s.cancelled else |s.q.items| >= s.q.capacity)
      && (after.Parked? ==> before.waits && |s.q.items| >= s.q.capacity)
  {
  }

  /** A parked producer gives up only when it has been cancelled, and tries again only when its channel was
      closed; one that has handed its item over leaves a token and returns with success. */
  lemma ReturnsForCause<T(!new)>(s: State<T>, step: Step<T>, p: nat)
    requires Enabled(s, step) && p in s.producers && !s.producers[p].Trying?
    ensures p in Apply(s, step).producers
    ensures var before, after := s.producers[p], Apply(s, step).producers[p];
      && (before.Parked? && after.Returned? ==> p in s.cancelled && !after.accepted)
      && (before.Parked? && after.Trying? ==> before.space in s.q.closed && after == Trying(before.item, true))
      && (before.Signalling? && after != before ==> after == Returned(true) && Apply(s, step).q.wake)
      && (before.Returned? ==> after == before)
  {
  }

  /** A consumer stops only when the pool does, and waits only when nothing is queued. */
  lemma StopsForCause<T(!new)>(s: State<T>, step: Step<T>, c: nat)
    requires Enabled(s, step) && c in s.consumers
    ensures c in Apply(s, step).consumers
    ensures !s.consumers[c].Stopped? && Apply(s, step).consumers[c].Stopped? ==> s.stopped
    ensures s.consumers[c].Stopped? ==> Apply(s, step).consumers[c].Stopped?
    ensures s.consumers[c].Checking? && Apply(s, step).consumers[c].Locking? ==> !s.stopped
    ensures s.consumers[c].Locking? && Apply(s, step).consumers[c].Waiting? ==> s.q.items == []
  {
  }

  /** The next step of a producer's own, if it has one. */
  function OwnStep<T>(s: State<T>, p: nat): Step<T>
    requires p in s.producers && !s.producers[p].Returned?
  {
    match s.producers[p]
    case Trying(_, _) => Admit(p)
    case Parked(_, _) => if s.producers[p].space in s.q.closed then SpaceClosed(p) else GiveUp(p)
    case Signalling(_) => Signal(p)
  }

  /** No producer is held up by another: one that waits and is cancelled, one that does not wait, and one that
      has handed its item over return after their next step or the one after it, and one whose channel was
      closed tries again. */
  lemma ProducersGoOn<T(!new)>(s: State<T>, p: nat)
    requires p in s.producers && !s.producers[p].Returned?
    requires s.producers[p].Parked? ==> s.producers[p].space in s.q.closed || p in s.cancelled
    ensures var step := OwnStep(s, p);
      Enabled(s, step) && p in Apply(s, step).producers
      && var before, after := s.producers[p], Apply(s, step).producers[p];
        if before.Parked? && before.space in s.q.closed then after == Trying(before.item, true)
        else if before.Trying? then
          (before.waits ==> (p in s.cancelled ==> after == Returned(false))) && (!before.waits ==> after.Returned? || after.Signalling?)
        else after.Returned?
  {
  }

  /** How many steps a consumer has still to make once the pool has stopped. */
  function StepsLeft<T>(consumer: Consumer<T>): nat {
    match consumer
    case Stopped => 0
    case Checking => 1
    case Waiting => 1
    case Holding(_) => 2
    case Locking => 3
  }

  /** Once the pool has stopped every consumer ends after at most three steps of its own, none of which can be
      held up, and nobody can undo the stop or a cancellation. */
  lemma ConsumersEnd<T(!new)>(s: State<T>, c: nat)
    requires s.stopped && c in s.consumers && !s.consumers[c].Stopped?
    ensures var step: Step<T> := match s.consumers[c]
                                 case Checking => Check(c)
                                 case Waiting => Abort(c)
                                 case Holding(_) => Resume(c)
                                 case Locking => Take(c);
      Enabled(s, step) && c in Apply(s, step).consumers && StepsLeft(Apply(s, step).consumers[c]) < StepsLeft(s.consumers[c])
  {
  }

  lemma SignalsStay<T(!new)>(s: State<T>, step: Step<T>)
    requires Enabled(s, step)
    ensures Apply(s, step).stopped == (s.stopped || step.Stop?)
    ensures Apply(s, step).cancelled == s.cancelled + if step.Cancel? then {step.p} else {}
  {
  }
}
