/** The dispatcher, the semaphore and the accounting of jobs in internal/worker/pool.go,
    over all interleavings with admission, cancellation and shutdown. */
module Pool {
  import opened Wrappers
  import opened Queue

  /** Job identifiers are fresh UUIDs: no two accepted jobs share one. */
  type JobId = nat

  datatype Dispatcher = Next | Claimed(job: JobId) | Exited

  /** `accepted`, `removed`, `taken`, `finished` and `abandoned` are histories of what happened to jobs.
      `slots` counts the tokens in the semaphore, `releasing` the finished workers still holding one. */
  datatype State = State(
    q: QState<JobId>,
    accepted: seq<JobId>,
    removed: set<JobId>,
    taken: seq<JobId>,
    dispatcher: Dispatcher,
    running: set<JobId>,
    finished: set<JobId>,
    abandoned: set<JobId>,
    slots: nat,
    releasing: nat,
    max: nat,
    stopped: bool)

  datatype Step =
    | Accept(id: JobId)
    | RemoveQueued(id: JobId)
    | Take
    | Acquire
    | Abandon
    | Exit
    | Finish(id: JobId)
    | Release
    | Stop

  predicate Enabled(s: State, step: Step) {
    match step
    case Accept(id) => id !in s.accepted && |s.q.items| < s.q.capacity
    case RemoveQueued(_) => true
    case Take => s.dispatcher.Next? && s.q.items != []
    case Acquire => s.dispatcher.Claimed? && s.slots < s.max
    case Abandon => s.dispatcher.Claimed? && s.stopped
    case Exit => s.dispatcher.Next? && s.stopped
    case Finish(id) => id in s.running
    case Release => s.releasing > 0 && s.slots > 0
    case Stop => true
  }

  function Apply(s: State, step: Step): State
    requires Enabled(s, step)
  {
    match step
    case Accept(id) => s.(q := Pushed(s.q, id), accepted := s.accepted + [id])
    case RemoveQueued(id) =>
      var i := FirstMatch(s.q.items, job => job == id);
      if i < |s.q.items| then
        s.(q := Released(s.q, Without(s.q.items, i)), removed := s.removed + {id})
      else s
    case Take =>
      s.(q := Released(s.q, s.q.items[1..]), taken := s.taken + [s.q.items[0]], dispatcher := Claimed(s.q.items[0]))
    case Acquire =>
      s.(slots := s.slots + 1, running := s.running + {s.dispatcher.job}, dispatcher := Next)
    case Abandon => s.(abandoned := s.abandoned + {s.dispatcher.job}, dispatcher := Exited)
    case Exit => s.(dispatcher := Exited)
    case Finish(id) =>
      s.(running := s.running - {id}, finished := s.finished + {id}, releasing := s.releasing + 1)
    case Release => s.(slots := s.slots - 1, releasing := s.releasing - 1)
    case Stop => s.(stopped := true)
  }

  /** NewPool gives the queue four places for each worker. */
  function Init(max: nat): State {
    State(QState([], max * 4, false, 0, []), [], {}, [], Next, {}, {}, {}, 0, 0, max, false)
  }

  ghost predicate NextState(s: State, s': State) {
    exists step :: Enabled(s, step) && s' == Apply(s, step)
  }

  ghost predicate IsRun(run: seq<State>) {
    && |run| > 0
    && run[0] == Init(run[0].max)
    && forall i: nat :: StepAt(run, i)
  }

  ghost predicate StepAt(run: seq<State>, i: nat) {
    i + 1 < |run| ==> NextState(run[i], run[i + 1])
  }

  // ---------------------------------------------------------------- places

  datatype Place = Outside | Queued | Removed | InHand | Running | Finished | Abandoned

  function PlaceOf(s: State, id: JobId): Place {
    if id in s.running then Running
    else if id in s.finished then Finished
    else if id in s.abandoned then Abandoned
    else if s.dispatcher == Claimed(id) then InHand
    else if id in s.removed then Removed
    else if id in s.q.items then Queued
    else Outside
  }

  /** The moves a job can make; the lifecycle of one job starts from these. */
  predicate Edge(from: Place, to: Place) {
    || from == to
    || (from == Outside && to == Queued)
    || (from == Queued && (to == Removed || to == InHand))
    || (from == InHand && (to == Running || to == Abandoned))
    || (from == Running && to == Finished)
  }

  function Rank(place: Place): nat {
    match place
    case Outside => 0
    case Queued => 1
    case InHand => 2
    case Running => 3
    case Removed | Finished | Abandoned => 4
  }

  // ---------------------------------------------------------------- invariant

  /** The members of `ids` outside `gone`, in order. */
  function Keep(ids: seq<JobId>, gone: set<JobId>): seq<JobId> {
    if ids == [] then []
    else (if ids[0] in gone then [] else [ids[0]]) + Keep(ids[1..], gone)
  }

  ghost predicate Distinct(ids: seq<JobId>) {
    ids == [] || (ids[0] !in ids[1..] && Distinct(ids[1..]))
  }

  /** What was claimed, then what is queued, is what was accepted and not removed, in order. */
  ghost predicate Ordered(s: State) {
    && Distinct(s.accepted)
    && (forall id :: id in s.removed ==> id in s.accepted)
    && s.taken + s.q.items == Keep(s.accepted, s.removed)
  }

  function One(b: bool): nat { if b then 1 else 0 }

  /** In how many of the places after the queue a job is. */
  function Claims(s: State, id: JobId): nat {
    One(s.dispatcher == Claimed(id)) + One(id in s.running) + One(id in s.finished) + One(id in s.abandoned)
  }

  /** Every claimed job is in one place, and the semaphore counts the workers. */
  ghost predicate Placed(s: State) {
    && (forall id :: Claims(s, id) == One(id in s.taken))
    && s.slots == |s.running| + s.releasing
    && s.slots <= s.max
  }

  ghost predicate Inv(s: State) {
    WellFormed(s.q) && Ordered(s) && Placed(s)
  }

  lemma {:induction false} KeepAppend(ids: seq<JobId>, id: JobId, gone: set<JobId>)
    requires id !in gone
    ensures Keep(ids + [id], gone) == Keep(ids, gone) + [id]
  {
    if ids != [] {
      assert (ids + [id])[1..] == ids[1..] + [id];
      KeepAppend(ids[1..], id, gone);
    }
  }

  lemma {:induction false} KeepMembers(ids: seq<JobId>, gone: set<JobId>)
    ensures forall id :: id in Keep(ids, gone) <==> id in ids && id !in gone
  {
    if ids != [] {
      KeepMembers(ids[1..], gone);
      assert ids == [ids[0]] + ids[1..];
    }
  }

  lemma {:induction false} KeepLess(ids: seq<JobId>, gone: set<JobId>, id: JobId)
    ensures Keep(ids, gone + {id}) == Keep(Keep(ids, gone), {id})
  {
    if ids != [] {
      KeepLess(ids[1..], gone, id);
      if ids[0] !in gone {
        var tail := Keep(ids[1..], gone);
        assert Keep(ids, gone) == [ids[0]] + tail;
        assert ([ids[0]] + tail)[1..] == tail;
      } else {
        assert Keep(ids, gone) == Keep(ids[1..], gone);
      }
    }
  }

  lemma {:induction false} KeepDistinct(ids: seq<JobId>, gone: set<JobId>)
    requires Distinct(ids)
    ensures Distinct(Keep(ids, gone))
  {
    if ids != [] {
      KeepDistinct(ids[1..], gone);
      KeepMembers(ids[1..], gone);
      var tail := Keep(ids[1..], gone);
      if ids[0] in gone {
        assert Keep(ids, gone) == tail;
      } else {
        assert Keep(ids, gone) == [ids[0]] + tail;
        assert ([ids[0]] + tail)[1..] == tail;
      }
    }
  }

  lemma {:induction false} KeepAll(ids: seq<JobId>, id: JobId)
    requires id !in ids
    ensures Keep(ids, {id}) == ids
  {
    if ids != [] {
      KeepAll(ids[1..], id);
    }
  }

  lemma {:induction false} KeepWithout(ids: seq<JobId>, i: nat)
    requires i < |ids| && Distinct(ids)
    ensures Keep(ids, {ids[i]}) == Without(ids, i)
  {
    if i == 0 {
      KeepAll(ids[1..], ids[0]);
    } else {
      KeepWithout(ids[1..], i - 1);
      assert ids[1..][i - 1] == ids[i];
      assert Without(ids, i) == [ids[0]] + Without(ids[1..], i - 1);
    }
  }

  lemma {:induction false} DistinctAppend(ids: seq<JobId>, id: JobId)
    requires Distinct(ids) && id !in ids
    ensures Distinct(ids + [id])
  {
    if ids != [] {
      DistinctAppend(ids[1..], id);
      assert (ids + [id])[1..] == ids[1..] + [id];
    }
  }

  lemma {:induction false} DistinctSplit(left: seq<JobId>, right: seq<JobId>, id: JobId)
    requires Distinct(left + right) && id in left
    ensures id !in right
  {
    assert (left + right)[1..] == left[1..] + right;
    if id == left[0] {
      assert id !in left[1..] + right;
    } else {
      DistinctSplit(left[1..], right, id);
    }
  }

  lemma AcceptKeepsOrder(s: State, id: JobId)
    requires Ordered(s) && Enabled(s, Accept(id))
    ensures Ordered(Apply(s, Accept(id)))
  {
    KeepAppend(s.accepted, id, s.removed);
    DistinctAppend(s.accepted, id);
    assert s.taken + (s.q.items + [id]) == s.taken + s.q.items + [id];
  }

  lemma WithoutBehind(taken: seq<JobId>, items: seq<JobId>, i: nat)
    requires i < |items|
    ensures Without(taken + items, |taken| + i) == taken + Without(items, i)
  {
  }

  lemma KeepRemoved(ids: seq<JobId>, gone: set<JobId>, taken: seq<JobId>, items: seq<JobId>, i: nat)
    requires Distinct(ids) && taken + items == Keep(ids, gone) && i < |items|
    ensures taken + Without(items, i) == Keep(ids, gone + {items[i]})
    ensures items[i] in ids
  {
    hide Keep;
    var all, n, x := taken + items, |taken|, items[i];
    assert all[n + i] == x;
    WithoutBehind(taken, items, i);
    assert x in ids by {
      KeepMembers(ids, gone);
      assert x in all;
    }
    assert Distinct(all) by {
      KeepDistinct(ids, gone);
    }
    calc {
      Keep(ids, gone + {x});
      { KeepLess(ids, gone, x); }
      Keep(all, {x});
      { KeepWithout(all, n + i); }
      Without(all, n + i);
      taken + Without(items, i);
    }
  }

  lemma RemoveKeepsOrder(s: State, id: JobId)
    requires Ordered(s)
    ensures Ordered(Apply(s, RemoveQueued(id)))
  {
    var i := FirstMatch(s.q.items, job => job == id);
    if i < |s.q.items| {
      KeepRemoved(s.accepted, s.removed, s.taken, s.q.items, i);
    }
  }

  /** The next job to be claimed was not claimed before. */
  lemma HeadIsNew(s: State)
    requires Ordered(s) && s.q.items != []
    ensures s.q.items[0] !in s.taken
  {
    KeepDistinct(s.accepted, s.removed);
    if s.q.items[0] in s.taken {
      DistinctSplit(s.taken, s.q.items, s.q.items[0]);
    }
  }

  lemma OrderStep(s: State, step: Step)
    requires Ordered(s) && Enabled(s, step)
    ensures Ordered(Apply(s, step))
  {
    match step
    case Accept(id) => AcceptKeepsOrder(s, id);
    case RemoveQueued(id) => RemoveKeepsOrder(s, id);
    case Take => assert s.taken + [s.q.items[0]] + s.q.items[1..] == s.taken + s.q.items;
    case Acquire =>
    case Finish(id) =>
    case Abandon =>
    case Exit =>
    case Release =>
    case Stop =>
  }

  lemma ClaimStep(s: State, step: Step, id: JobId)
    requires Enabled(s, step) && Claims(s, id) == One(id in s.taken)
    requires step.Take? ==> s.q.items[0] !in s.taken
    ensures Claims(Apply(s, step), id) == One(id in Apply(s, step).taken)
  {
  }

  lemma SlotStep(s: State, step: Step)
    requires s.slots == |s.running| + s.releasing && s.slots <= s.max && Enabled(s, step)
    requires step.Acquire? ==> s.dispatcher.job !in s.running
    ensures var s' := Apply(s, step); s'.slots == |s'.running| + s'.releasing && s'.slots <= s'.max
  {
    var s' := Apply(s, step);
    if step.Finish? {
      assert s'.running == s.running - {step.id};
    } else if step.Acquire? {
      assert s'.running == s.running + {s.dispatcher.job};
    } else {
      assert s'.running == s.running;
    }
  }

  lemma PlaceStep(s: State, step: Step)
    requires Placed(s) && Enabled(s, step)
    requires step.Take? ==> s.q.items[0] !in s.taken
    ensures Placed(Apply(s, step))
  {
    forall id ensures Claims(Apply(s, step), id) == One(id in Apply(s, step).taken) {
      assert Claims(s, id) == One(id in s.taken);
      ClaimStep(s, step, id);
    }
    if step.Acquire? {
      assert Claims(s, s.dispatcher.job) == One(s.dispatcher.job in s.taken);
    }
    SlotStep(s, step);
  }

  lemma InvStep(s: State, step: Step)
    requires Inv(s) && Enabled(s, step)
    ensures Inv(Apply(s, step))
  {
    OrderStep(s, step);
    if step.Take? {
      HeadIsNew(s);
    }
    PlaceStep(s, step);
  }

  lemma {:induction false} RunKeepsInv(run: seq<State>, i: nat)
    requires IsRun(run) && i < |run|
    ensures Inv(run[i])
  {
    if i > 0 {
      RunKeepsInv(run, i - 1);
      assert StepAt(run, i - 1);
      var step :| Enabled(run[i - 1], step) && run[i] == Apply(run[i - 1], step);
      InvStep(run[i - 1], step);
    }
  }

  // ---------------------------------------------------------------- theorems

  /** Conservation: an accepted job is in exactly one place, any other job in none. */
  lemma ExactlyOnePlace(run: seq<State>, i: nat, id: JobId)
    requires IsRun(run) && i < |run|
    ensures var s := run[i];
      One(id in s.q.items) + One(id in s.removed) + One(s.dispatcher == Claimed(id)) + One(id in s.running)
      + One(id in s.finished) + One(id in s.abandoned) == One(id in s.accepted)
  {
    RunKeepsInv(run, i);
    var s := run[i];
    WhereAccepted(s, id);
    assert Claims(s, id) == One(id in s.taken);
  }

  /** Where the invariant says a job is. */
  lemma WhereAccepted(s: State, id: JobId)
    requires Inv(s)
    ensures id in s.accepted <==> id in s.taken || id in s.q.items || id in s.removed
    ensures !(id in s.taken && id in s.q.items)
    ensures id in s.removed ==> id !in s.taken && id !in s.q.items
  {
    KeepMembers(s.accepted, s.removed);
    KeepDistinct(s.accepted, s.removed);
    assert id in s.taken + s.q.items <==> id in s.taken || id in s.q.items;
    if id in s.taken {
      DistinctSplit(s.taken, s.q.items, id);
    }
  }

  /** No step moves a job other than along an edge. */
  lemma StepFollowsEdges(s: State, step: Step, id: JobId)
    requires Inv(s) && Enabled(s, step)
    ensures Edge(PlaceOf(s, id), PlaceOf(Apply(s, step), id))
  {
    WhereAccepted(s, id);
    assert Claims(s, id) == One(id in s.taken);
    match step
    case Take => assert s.q.items == [s.q.items[0]] + s.q.items[1..];
    case RemoveQueued(x) =>
      InvStep(s, step);
      WhereAccepted(Apply(s, step), id);
    case Accept(x) =>
    case Acquire =>
    case Abandon =>
    case Exit =>
    case Finish(x) =>
    case Release =>
    case Stop =>
  }

  lemma RunFollowsEdges(run: seq<State>, i: nat, id: JobId)
    requires IsRun(run) && i < |run| - 1
    ensures Edge(PlaceOf(run[i], id), PlaceOf(run[i + 1], id))
  {
    RunKeepsInv(run, i);
    assert StepAt(run, i);
    var step :| Enabled(run[i], step) && run[i + 1] == Apply(run[i], step);
    StepFollowsEdges(run[i], step, id);
  }

  lemma {:induction false} RankGrows(places: seq<Place>, i: nat, j: nat)
    requires i <= j < |places|
    requires forall k :: 0 <= k < |places| - 1 ==> Edge(places[k], places[k + 1])
    ensures Rank(places[i]) <= Rank(places[j])
  {
    if i < j {
      RankGrows(places, i, j - 1);
      assert Edge(places[j - 1], places[j - 1 + 1]);
    }
  }

  /** A job is handed to a worker at most once in any run. */
  lemma DispatchedAtMostOnce(run: seq<State>, i: nat, j: nat, id: JobId)
    requires IsRun(run) && i < j < |run| - 1
    requires PlaceOf(run[i], id) != Running && PlaceOf(run[i + 1], id) == Running
    ensures !(PlaceOf(run[j], id) != Running && PlaceOf(run[j + 1], id) == Running)
  {
    var places := seq(|run|, k requires 0 <= k < |run| => PlaceOf(run[k], id));
    forall k | 0 <= k < |places| - 1 ensures Edge(places[k], places[k + 1]) {
      RunFollowsEdges(run, k, id);
    }
    RankGrows(places, i + 1, j);
    assert places[j] == PlaceOf(run[j], id);
    RunFollowsEdges(run, j, id);
  }

  /** At most MaxConcurrentDownloads workers run, and a slot is held for each of them. */
  lemma ConcurrencyBound(run: seq<State>, i: nat)
    requires IsRun(run) && i < |run|
    ensures |run[i].running| <= run[i].slots <= run[i].max
  {
    RunKeepsInv(run, i);
  }

  lemma {:induction false} KeepOrder(ids: seq<JobId>, gone: set<JobId>, x: nat, y: nat) returns (u: nat, v: nat)
    requires x < y < |Keep(ids, gone)|
    ensures u < v < |ids| && ids[u] == Keep(ids, gone)[x] && ids[v] == Keep(ids, gone)[y]
  {
    var tail := Keep(ids[1..], gone);
    if ids[0] in gone {
      u, v := KeepOrder(ids[1..], gone, x, y);
      u, v := u + 1, v + 1;
    } else if x == 0 {
      KeepMembers(ids[1..], gone);
      assert tail[y - 1] in tail;
      u := 0;
      var w :| 0 <= w < |ids[1..]| && ids[1..][w] == tail[y - 1];
      v := w + 1;
    } else {
      u, v := KeepOrder(ids[1..], gone, x - 1, y - 1);
      u, v := u + 1, v + 1;
    }
  }

  /** What is claimed and what is queued are together, in this order, the accepted jobs that were not
      removed, in the order of their acceptance. */
  lemma ClaimedAndQueued(run: seq<State>, i: nat)
    requires IsRun(run) && i < |run|
    ensures run[i].taken + run[i].q.items == Keep(run[i].accepted, run[i].removed)
  {
    RunKeepsInv(run, i);
  }

  /** So of two claimed jobs the one that was claimed first was accepted first. */
  lemma LeavesInAcceptanceOrder(run: seq<State>, i: nat, x: nat, y: nat) returns (u: nat, v: nat)
    requires IsRun(run) && i < |run|
    requires x < y < |run[i].taken|
    ensures u < v < |run[i].accepted|
    ensures run[i].accepted[u] == run[i].taken[x] && run[i].accepted[v] == run[i].taken[y]
  {
    ClaimedAndQueued(run, i);
    var s := run[i];
    var all := s.taken + s.q.items;
    u, v := KeepOrder(s.accepted, s.removed, x, y);
    assert all[x] == s.taken[x] && all[y] == s.taken[y];
  }

  /** A fresh job that the idle pool is offered goes all the way: it is queued, claimed, run and finished, and
      the slot it takes meanwhile is free again. */
  lemma JobGoesThrough(s: State, id: JobId) returns (queued: State, claimed: State, started: State, ended: State, free: State)
    requires s.dispatcher.Next? && s.q.items == [] && s.q.capacity > 0 && id !in s.accepted && id !in s.running && s.slots < s.max
    ensures Enabled(s, Accept(id)) && queued == Apply(s, Accept(id))
    ensures queued.q.items == [id] && queued.accepted == s.accepted + [id]
    ensures Enabled(queued, Take) && claimed == Apply(queued, Take)
    ensures claimed.dispatcher == Claimed(id) && claimed.q.items == [] && claimed.taken == s.taken + [id]
    ensures Enabled(claimed, Acquire) && started == Apply(claimed, Acquire)
    ensures started.running == s.running + {id} && started.slots == s.slots + 1 && started.dispatcher.Next?
    ensures Enabled(started, Finish(id)) && ended == Apply(started, Finish(id))
    ensures ended.running == s.running && ended.finished == s.finished + {id} && ended.slots == s.slots + 1
    ensures Enabled(ended, Release) && free == Apply(ended, Release)
    ensures free.slots == s.slots && free.releasing == s.releasing
  {
    queued := Apply(s, Accept(id));
    claimed := Apply(queued, Take);
    started := Apply(claimed, Acquire);
    ended := Apply(started, Finish(id));
    free := Apply(ended, Release);
  }

  /** Once the pool has been stopped the dispatcher can end at once; a job in its hand is abandoned. */
  lemma StoppedDispatcherEnds(s: State)
    requires !s.dispatcher.Exited?
    ensures var stopped := Apply(s, Stop);
      && stopped.stopped && stopped.dispatcher == s.dispatcher
      && var step := if s.dispatcher.Next? then Exit else Abandon;
        Enabled(stopped, step) && Apply(stopped, step).dispatcher.Exited?
        && Apply(stopped, step).abandoned == s.abandoned + if s.dispatcher.Claimed? then {s.dispatcher.job} else {}
  {
  }
}
