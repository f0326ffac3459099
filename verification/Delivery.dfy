/** One subscriber of the bus over time: what it has received, what is buffered for it, and what
    was published. Publish holds the bus mutex, but the subscriber goes on receiving meanwhile, so each
    channel operation of a Publish is a step of its own. */
module Delivery {
  import opened Wrappers
  import opened Bus

  /** An element of the channel: the i-th published event, or the resync that the bus put in front
      of the event that overflowed the buffer. */
  datatype Entry = Published(i: nat) | Overflow(at: nat)

  /** Positions in publication order; the overflow marker stands just before its event. */
  function Key(e: Entry): nat {
    match e
    case Published(i) => 2 * i + 1
    case Overflow(at) => 2 * at
  }

  /** Where a Publish stands: between calls, in the drain loop, or before one of its two last sends. */
  datatype Phase = Idle | Draining(e: Event) | Resyncing(e: Event) | Sending(e: Event)

  datatype State = State(pub: seq<Event>, recv: seq<Entry>, buf: seq<Entry>, phase: Phase)

  datatype Step =
    | Offer(e: Event)       // the first select of Publish
    | Drain                 // the drain loop takes an element
    | Observe               // it finds none
    | SendResync | SendEvent
    | Receive               // the subscriber

  function All(s: State): seq<Entry> { s.recv + s.buf }

  function Init(): State { State([], [], [], Idle) }

  /** A send is possible when the channel has room. */
  predicate Room(s: State) {
    |s.buf| < CAPACITY
  }

  predicate Enabled(s: State, step: Step) {
    match step
    case Offer(_) => s.phase.Idle?
    case Drain => s.phase.Draining? && s.buf != []
    case Observe => s.phase.Draining? && s.buf == []
    case SendResync => s.phase.Resyncing? && Room(s)
    case SendEvent => s.phase.Sending? && Room(s)
    case Receive => s.buf != []
  }

  function Apply(s: State, step: Step): State
    requires Enabled(s, step)
  {
    var n := |s.pub|;
    match step
    case Offer(e) =>
      if Room(s) then State(s.pub + [e], s.recv, Sent(s.buf, Published(n)), Idle) else s.(phase := Draining(e))
    case Drain => s.(buf := s.buf[1..])
    case Observe => s.(phase := Resyncing(s.phase.e))
    case SendResync => s.(buf := Sent(s.buf, Overflow(n)), phase := Sending(s.phase.e))
    case SendEvent => State(s.pub + [s.phase.e], s.recv, Sent(s.buf, Published(n)), Idle)
    case Receive => s.(recv := s.recv + [s.buf[0]], buf := s.buf[1..])
  }

  // ---------------------------------------------------------------- the channel

  function EventOf(pub: seq<Event>, e: Entry): Event
    requires e.Published? ==> e.i < |pub|
  {
    if e.Published? then pub[e.i] else Resync
  }

  /** The resync of a Publish that has not sent its event yet stands behind everything published. */
  ghost predicate InRange(pub: seq<Event>, entries: seq<Entry>) {
    forall k :: 0 <= k < |entries| ==> Key(entries[k]) <= 2 * |pub|
  }

  function Channel(pub: seq<Event>, entries: seq<Entry>): seq<Event>
    requires InRange(pub, entries)
  {
    seq(|entries|, k requires 0 <= k < |entries| => EventOf(pub, entries[k]))
  }

  // ---------------------------------------------------------------- invariant

  ghost predicate Increasing(entries: seq<Entry>) {
    forall k, l :: 0 <= k < l < |entries| ==> Key(entries[k]) < Key(entries[l])
  }

  /** Event i has an entry, or a resync overtook it. */
  ghost predicate Covered(entries: seq<Entry>, i: nat) {
    Published(i) in entries || exists m :: m > i && Overflow(m) in entries
  }

  ghost predicate Complete(s: State) {
    && (s.pub != [] ==> All(s) != [] && All(s)[|All(s)| - 1] == Published(|s.pub| - 1))
    && (forall i: nat :: i < |s.pub| ==> Covered(All(s), i))
  }

  /** What is buffered while a Publish is at its last sends. */
  ghost predicate PhaseInv(s: State) {
    match s.phase
    case Resyncing(_) => s.buf == []
    case Sending(_) => |s.buf| <= 1
    case _ => true
  }

  ghost predicate Inv(s: State) {
    && Increasing(All(s)) && InRange(s.pub, All(s))
    && (!s.phase.Sending? ==> forall k :: 0 <= k < |All(s)| ==> Key(All(s)[k]) < 2 * |s.pub|)
    && |s.buf| <= CAPACITY
    && PhaseInv(s)
    && (s.phase.Sending? ==> Overflow(|s.pub|) in All(s))
    && (s.phase.Idle? ==> Complete(s))
  }

  lemma AppendKeeps(s: State, e: Event)
    requires Inv(s) && s.phase.Idle? && Room(s)
    ensures Inv(Apply(s, Offer(e)))
  {
    var n, before, after := |s.pub|, All(s), All(Apply(s, Offer(e)));
    assert after == before + [Published(n)];
    forall i: nat | i < n + 1 ensures Covered(after, i) {
      assert i < n ==> Covered(before, i);
      assert after[|before|] == Published(n);
    }
  }

  lemma ResyncKeeps(s: State)
    requires Inv(s) && Enabled(s, SendResync)
    ensures Inv(Apply(s, SendResync))
  {
    var before, after := All(s), All(Apply(s, SendResync));
    assert after == before + [Overflow(|s.pub|)];
    assert after[|before|] == Overflow(|s.pub|);
  }

  lemma EventKeeps(s: State)
    requires Inv(s) && Enabled(s, SendEvent)
    ensures Inv(Apply(s, SendEvent))
  {
    var n, before, after := |s.pub|, All(s), All(Apply(s, SendEvent));
    assert after == before + [Published(n)] && after[|before|] == Published(n);
    var k :| 0 <= k < |before| && before[k] == Overflow(n);
    assert after[k] == Overflow(n);
    forall i: nat | i < n + 1 ensures Covered(after, i) {}
  }

  lemma DrainKeeps(s: State)
    requires Inv(s) && Enabled(s, Drain)
    ensures Inv(Apply(s, Drain))
  {
    hide Covered;
    var after, n := All(Apply(s, Drain)), |s.recv|;
    assert forall k :: 0 <= k < |after| ==> after[k] == All(s)[if k < n then k else k + 1];
  }

  lemma ReceiveKeeps(s: State)
    requires Inv(s) && Enabled(s, Receive)
    ensures Inv(Apply(s, Receive))
  {
    assert s.recv + [s.buf[0]] + s.buf[1..] == s.recv + s.buf;
  }

  lemma ObserveKeeps(s: State)
    requires Inv(s) && Enabled(s, Observe)
    ensures Inv(Apply(s, Observe))
  {
  }

  lemma StepKeeps(s: State, step: Step)
    requires Inv(s) && Enabled(s, step)
    ensures Inv(Apply(s, step))
    ensures s.pub <= Apply(s, step).pub
  {
    hide Increasing, InRange, Covered, Complete, PhaseInv;
    match step
    case Offer(e) =>
      if Room(s) {
        AppendKeeps(s, e);
      } else {
        OverflowKeeps(s, e);
      }
    case Drain => DrainKeeps(s);
    case Observe => ObserveKeeps(s);
    case SendResync => ResyncKeeps(s);
    case SendEvent => EventKeeps(s);
    case Receive => ReceiveKeeps(s);
  }

  lemma OverflowKeeps(s: State, e: Event)
    requires Inv(s) && s.phase.Idle? && !Room(s)
    ensures Inv(Apply(s, Offer(e)))
  {
  }

  // ---------------------------------------------------------------- theorems

  lemma InvGuarantees(s: State, i: nat) returns (k: nat)
    requires Inv(s) && s.phase.Idle? && i < |s.pub|
    ensures |s.buf| <= CAPACITY
    ensures forall x, y :: 0 <= x < y < |All(s)| && All(s)[x].Published? && All(s)[y].Published? ==>
      All(s)[x].i < All(s)[y].i
    ensures k < |All(s)| && All(s)[|All(s)| - 1] == Published(|s.pub| - 1)
    ensures All(s)[k] == Published(i) ||
            (All(s)[k].Overflow? && forall x :: 0 <= x < |All(s)| && All(s)[x].Published? && All(s)[x].i <= i ==> x < k)
  {
    var all := All(s);
    InPublicationOrder(all);
    k := CoveringEntry(all, i);
    if all[k].Overflow? {
      forall x | 0 <= x < |all| && all[x].Published? && all[x].i <= i
        ensures x < k
      {
        assert Key(all[x]) < Key(all[k]);
      }
    }
  }

  lemma InPublicationOrder(entries: seq<Entry>)
    requires Increasing(entries)
    ensures forall x, y :: 0 <= x < y < |entries| && entries[x].Published? && entries[y].Published? ==>
      entries[x].i < entries[y].i
  {
    forall x, y | 0 <= x < y < |entries| && entries[x].Published? && entries[y].Published?
      ensures entries[x].i < entries[y].i
    {
      assert Key(entries[x]) < Key(entries[y]);
    }
  }

  lemma CoveringEntry(entries: seq<Entry>, i: nat) returns (k: nat)
    requires Covered(entries, i)
    ensures k < |entries| && (entries[k] == Published(i) || (entries[k].Overflow? && entries[k].at > i))
  {
    if Published(i) in entries {
      k :| 0 <= k < |entries| && entries[k] == Published(i);
    } else {
      var m :| m > i && Overflow(m) in entries;
      k :| 0 <= k < |entries| && entries[k] == Overflow(m);
    }
  }

  function Exec(s: State, steps: seq<Step>): Option<State>
    decreases |steps|
  {
    if steps == [] then Some(s)
    else if !Enabled(s, steps[0]) then None
    else Exec(Apply(s, steps[0]), steps[1..])
  }

  lemma {:induction false} RunKeeps(s: State, steps: seq<Step>)
    requires Inv(s) && Exec(s, steps).Some?
    ensures Inv(Exec(s, steps).value)
    decreases |steps|
  {
    if steps != [] {
      StepKeeps(s, steps[0]);
      RunKeeps(Apply(s, steps[0]), steps[1..]);
    }
  }

  ghost predicate Reachable(s: State) {
    exists steps: seq<Step> :: Exec(Init(), steps) == Some(s)
  }

  lemma ReachableHolds(s: State)
    requires Reachable(s)
    ensures Inv(s)
  {
    var steps: seq<Step> :| Exec(Init(), steps) == Some(s);
    RunKeeps(Init(), steps);
  }

  /** Where a Publish ends if the subscriber takes nothing. */
  function Finished(s: State): State {
    var n := |s.pub|;
    match s.phase
    case Idle => s
    case Draining(e) => State(s.pub + [e], s.recv, [Overflow(n), Published(n)], Idle)
    case Resyncing(e) => State(s.pub + [e], s.recv, s.buf + [Overflow(n), Published(n)], Idle)
    case Sending(e) => State(s.pub + [e], s.recv, s.buf + [Published(n)], Idle)
  }

  /** The steps of a Publish itself. */
  predicate OwnSteps(steps: seq<Step>) {
    forall i :: 0 <= i < |steps| ==> !steps[i].Offer? && !steps[i].Receive?
  }

  lemma {:induction false} OwnStepsFinish(s: State, steps: seq<Step>)
    requires OwnSteps(steps) && Exec(s, steps).Some? && Exec(s, steps).value.phase.Idle?
    ensures Exec(s, steps).value == Finished(s)
    decreases |steps|
  {
    if steps != [] {
      OwnStepsFinish(Apply(s, steps[0]), steps[1..]);
      if steps[0].SendResync? {
        assert s.buf + [Overflow(|s.pub|)] + [Published(|s.pub|)] == s.buf + [Overflow(|s.pub|), Published(|s.pub|)];
      } else if steps[0].Observe? {
        assert s.buf + [Overflow(|s.pub|), Published(|s.pub|)] == [Overflow(|s.pub|), Published(|s.pub|)];
      }
    }
  }

  /** However a Publish runs from its call to its return while the subscriber takes nothing, it does to
      this channel what Bus.Publish does. */
  lemma PublishIsDelivered(s: State, e: Event, steps: seq<Step>)
    requires s.phase.Idle? && InRange(s.pub, s.buf) && OwnSteps(steps)
    requires Exec(s, [Offer(e)] + steps).Some? && Exec(s, [Offer(e)] + steps).value.phase.Idle?
    ensures var t := Exec(s, [Offer(e)] + steps).value;
      && t.pub == s.pub + [e] && t.recv == s.recv && InRange(t.pub, t.buf)
      && Channel(t.pub, t.buf) == Delivered(Channel(s.pub, s.buf), Resync, e)
  {
    assert ([Offer(e)] + steps)[1..] == steps;
    OwnStepsFinish(Apply(s, Offer(e)), steps);
    var t := Finished(Apply(s, Offer(e)));
    if Room(s) {
      assert Channel(t.pub, t.buf) == Channel(s.pub, s.buf) + [e];
    } else {
      assert Channel(t.pub, t.buf) == [Resync, e];
    }
  }

  /** For every subscriber, between two calls of Publish: a bounded buffer, publication order, the
      latest event at the end, and for each missing event a resync behind everything published
      up to it. */
  lemma DeliveryGuarantee(s: State, i: nat) returns (k: nat)
    requires Reachable(s) && s.phase.Idle? && i < |s.pub|
    ensures |s.buf| <= 100
    ensures forall x, y :: 0 <= x < y < |All(s)| && All(s)[x].Published? && All(s)[y].Published? ==>
      All(s)[x].i < All(s)[y].i
    ensures k < |All(s)| && All(s)[|All(s)| - 1] == Published(|s.pub| - 1)
    ensures All(s)[k] == Published(i) ||
            (All(s)[k].Overflow? && forall x :: 0 <= x < |All(s)| && All(s)[x].Published? && All(s)[x].i <= i ==> x < k)
  {
    ReachableHolds(s);
    k := InvGuarantees(s, i);
  }

  /** The two blocking sends of a Publish that found the buffer full never block: whatever the
      subscriber does, there is room in every reachable state in which one is pending. */
  lemma PublishNeverBlocks(s: State)
    requires Reachable(s)
    ensures s.phase.Resyncing? ==> Enabled(s, SendResync)
    ensures s.phase.Sending? ==> Enabled(s, SendEvent)
  {
    ReachableHolds(s);
  }

  /** How many steps of its own a Publish still needs at most. */
  function Remaining(s: State): nat {
    match s.phase
    case Idle => 0
    case Draining(_) => |s.buf| + 3
    case Resyncing(_) => 2
    case Sending(_) => 1
  }

  /** A Publish ends after at most 103 further steps: it always has a step, each of its own steps
      brings it nearer to the end, and the subscriber's do not hold it up. */
  lemma PublishEnds(s: State, step: Step)
    requires Reachable(s) && !s.phase.Idle? && Enabled(s, step)
    ensures Remaining(s) <= 103
    ensures if step.Receive? then Remaining(Apply(s, step)) <= Remaining(s) else Remaining(Apply(s, step)) < Remaining(s)
    ensures exists own :: own != Receive && Enabled(s, own)
  {
    ReachableHolds(s);
    match s.phase
    case Draining(_) => assert Enabled(s, Drain) || Enabled(s, Observe);
    case Resyncing(_) => assert Enabled(s, SendResync);
    case Sending(_) => assert Enabled(s, SendEvent);
  }
}
