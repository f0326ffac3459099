/** Trimming and expiry of the history beside everything else that happens to the store: TrimHistory in
    internal/store/history.go and CleanupOldDownloads in internal/store/progress.go. Both decide on a
    snapshot and delete later, one record at a time or all at once. */
module Retention {
  import opened Wrappers
  import R = Record

  type JobId = string

  /** A record. Each gets its queueing time when it is made, but a history file may hold entries without one. */
  datatype Rec = Rec(
    version: nat, status: R.Status, queuedAt: Option<R.Time>, startedAt: Option<R.Time>, completedAt: Option<R.Time>,
    batch: bool, children: seq<JobId>)

  datatype Snapshot = Snapshot(id: JobId, rec: Rec)

  type Records = map<JobId, Rec>

  /** Every record once. */
  ghost predicate IsListing(all: seq<Snapshot>, data: Records) {
    && (forall i :: 0 <= i < |all| ==> all[i].id in data && data[all[i].id] == all[i].rec)
    && (forall i, j :: 0 <= i < j < |all| ==> all[i].id != all[j].id)
    && (forall id :: id in data ==> Snapshot(id, data[id]) in all)
  }

  // ---------------------------------------------------------------- protection

  predicate Finished(data: Records, id: JobId) {
    id in data && R.Terminal(data[id].status)
  }

  predicate Active(rec: Rec) {
    rec.batch && !R.Terminal(rec.status)
  }

  /** An active batch that has the record among its children. */
  predicate Protects(data: Records, parent: JobId, id: JobId) {
    parent in data && Active(data[parent]) && id in data[parent].children
  }

  predicate Protected(data: Records, id: JobId) {
    exists parent :: parent in data && Protects(data, parent, id)
  }

  /** The records that may be trimmed. */
  function Removable(data: Records): set<JobId> {
    set id | id in data && R.Terminal(data[id].status) && !Protected(data, id)
  }

  /** The children of active batches, as both trimming and expiry collect them. */
  function ProtectedIn(all: seq<Snapshot>): set<JobId> {
    set i: nat, id | i < |all| && Active(all[i].rec) && id in all[i].rec.children :: id
  }

  lemma ProtectedIffListed(all: seq<Snapshot>, data: Records, id: JobId)
    requires IsListing(all, data)
    ensures id in ProtectedIn(all) <==> Protected(data, id)
  {
    if Protected(data, id) {
      var parent :| parent in data && Protects(data, parent, id);
      var i :| 0 <= i < |all| && all[i] == Snapshot(parent, data[parent]);
      assert Active(all[i].rec) && id in all[i].rec.children;
    }
    if id in ProtectedIn(all) {
      var i: nat :| i < |all| && Active(all[i].rec) && id in all[i].rec.children;
      assert Protects(data, all[i].id, id);
    }
  }

  predicate IsCandidate(snap: Snapshot, protected: set<JobId>) {
    R.Terminal(snap.rec.status) && snap.id !in protected
  }

  /** The time a terminal record is aged by. */
  function Reference(rec: Rec): Option<R.Time> {
    if rec.completedAt.Some? then rec.completedAt else rec.startedAt
  }

  predicate Expired(rec: Rec, now: R.Time, maxAge: int) {
    Reference(rec).Some? && now - Reference(rec).value > maxAge
  }

  /** The old finished records that are not protected. */
  function Outdated(data: Records, protected: set<JobId>, maxAge: int, now: R.Time): set<JobId> {
    set id | id in data && id !in protected && R.Terminal(data[id].status) && Expired(data[id], now, maxAge)
  }

  // ---------------------------------------------------------------- steps

  /** `index` snapshots have been looked at, of which `terminal` were candidates. */
  datatype Phase =
    | Idle
    | Trimming(all: seq<Snapshot>, index: nat, terminal: nat, limit: nat)
    | Looked(protected: set<JobId>)
    | Collected(victims: set<JobId>)

  /** `used` are the identifiers there have been; none is used again. */
  datatype State = State(data: Records, used: set<JobId>, phase: Phase)

  datatype Step =
    | Other(change: Option<Records>)            // other goroutines
    | Begin(all: seq<Snapshot>, limit: nat)     // TrimHistory takes its snapshots
    | Next                                      // and deals with the next one
    | Return
    | Look(all: seq<Snapshot>)                  // CleanupOldDownloads takes its snapshots,
    | Collect(maxAge: int, now: R.Time)         // collects under the read lock
    | DeleteAll                                 // and deletes under the lock

  /** What other goroutines make of a record: its kind and its children stay, and so does the status of
      a finished record, unless it is that of a batch. */
  predicate Evolves(before: Rec, after: Rec) {
    && after.batch == before.batch && after.children == before.children
    && (!before.batch && R.Terminal(before.status) ==> after.status == before.status)
  }

  predicate MayBecome(s: State, data: Records) {
    && (forall id :: id in data && id in s.data ==> Evolves(s.data[id], data[id]))
    && (forall id :: id in data && id !in s.data ==> id !in s.used)
  }

  ghost predicate Enabled(s: State, step: Step) {
    match step
    case Other(_) => true
    case Begin(all, _) => s.phase.Idle? && IsListing(all, s.data)
    case Next => s.phase.Trimming? && s.phase.index < |s.phase.all|
    case Return => s.phase.Trimming? && s.phase.index == |s.phase.all|
    case Look(all) => s.phase.Idle? && IsListing(all, s.data)
    case Collect(_, _) => s.phase.Looked?
    case DeleteAll => s.phase.Collected?
  }

  /** Whether the snapshot that is looked at is a candidate beyond the limit. */
  predicate Surplus(phase: Phase)
    requires phase.Trimming? && phase.index < |phase.all|
  {
    IsCandidate(phase.all[phase.index], ProtectedIn(phase.all)) && phase.terminal >= phase.limit
  }

  /** The identifiers whose records a step deletes. */
  function Victims(s: State, step: Step): set<JobId>
    requires Enabled(s, step)
  {
    match step
    case Next => if Surplus(s.phase) then {s.phase.all[s.phase.index].id} else {}
    case DeleteAll => s.phase.victims
    case _ => {}
  }

  function Apply(s: State, step: Step): State
    requires Enabled(s, step)
  {
    match step
    case Other(change) =>
      if change.Some? && MayBecome(s, change.value)
      then s.(data := change.value, used := s.used + change.value.Keys) else s
    case Begin(all, limit) => s.(phase := Trimming(all, 0, 0, limit))
    case Next =>
      var p := s.phase;
      var one := if IsCandidate(p.all[p.index], ProtectedIn(p.all)) then 1 else 0;
      s.(data := s.data - Victims(s, step), phase := p.(index := p.index + 1, terminal := p.terminal + one))
    case Return => s.(phase := Idle)
    case Look(all) => s.(phase := Looked(ProtectedIn(all)))
    case Collect(maxAge, now) => s.(phase := Collected(Outdated(s.data, s.phase.protected, maxAge, now)))
    case DeleteAll => s.(data := s.data - Victims(s, step), phase := Idle)
  }

  ghost predicate Init(s: State) {
    s.data.Keys <= s.used && s.phase.Idle?
  }

  ghost predicate StepAt(run: seq<State>, steps: seq<Step>, i: nat) {
    i < |steps| && i + 1 < |run| ==> Enabled(run[i], steps[i]) && run[i + 1] == Apply(run[i], steps[i])
  }

  ghost predicate IsRun(run: seq<State>, steps: seq<Step>) {
    |run| == |steps| + 1 && Init(run[0]) && forall i: nat :: StepAt(run, steps, i)
  }

  lemma Extended(run: seq<State>, steps: seq<Step>, step: Step)
    requires IsRun(run, steps) && Enabled(run[|run| - 1], step)
    ensures IsRun(run + [Apply(run[|run| - 1], step)], steps + [step])
  {
    hide Enabled, Apply, Init;
    var longer, more := run + [Apply(run[|run| - 1], step)], steps + [step];
    forall i: nat
      ensures StepAt(longer, more, i)
    {
      assert StepAt(run, steps, i);
    }
  }

  /** The steps of other goroutines are what these do at their opportunities from one to another. */
  ghost predicate Follows(steps: seq<Step>, others: nat -> Option<Records>, from: nat, to: nat)
    decreases |steps|
  {
    if steps == [] then from == to
    else
      var rest, last := steps[..|steps| - 1], steps[|steps| - 1];
      if last.Other? then from < to && last.change == others(to - 1) && Follows(rest, others, from, to - 1)
      else Follows(rest, others, from, to)
  }

  /** A run from one state to another, beside what other goroutines do in the meantime. */
  ghost predicate Leads(run: seq<State>, steps: seq<Step>, start: State, end: State,
                        others: nat -> Option<Records>, from: nat, to: nat)
  {
    && IsRun(run, steps) && run[0] == start && run[|run| - 1] == end
    && from <= to && Follows(steps, others, from, to)
  }

  /** The identifiers that the steps of a run delete. */
  ghost function Deletions(run: seq<State>, steps: seq<Step>): set<JobId> {
    set k: nat, id | k < |steps| && k + 1 < |run| && StepAt(run, steps, k) && id in Victims(run[k], steps[k]) :: id
  }

  lemma NothingYet(s: State, others: nat -> Option<Records>, now: nat)
    requires Init(s)
    ensures Leads([s], [], s, s, others, now, now) && Deletions([s], []) == {}
  {
  }

  /** One step more. */
  lemma Advance(run: seq<State>, steps: seq<Step>, start: State, s: State, others: nat -> Option<Records>, from: nat, now: nat, step: Step)
    returns (longer: seq<State>, more: seq<Step>)
    requires Leads(run, steps, start, s, others, from, now) && Enabled(s, step)
    requires step.Other? ==> step.change == others(now)
    ensures Leads(longer, more, start, Apply(s, step), others, from, if step.Other? then now + 1 else now)
    ensures Deletions(longer, more) == Deletions(run, steps) + Victims(s, step)
    ensures more == steps + [step]
  {
    hide Enabled, Victims, Apply;
    Extended(run, steps, step);
    longer, more := run + [Apply(s, step)], steps + [step];
    assert Follows(more, others, from, if step.Other? then now + 1 else now) by {
      assert more[..|more| - 1] == steps;
    }
    OneMoreDeletion(run, steps, step);
  }

  lemma OneMoreDeletion(run: seq<State>, steps: seq<Step>, step: Step)
    requires IsRun(run, steps) && Enabled(run[|run| - 1], step)
    requires var s := run[|run| - 1]; IsRun(run + [Apply(s, step)], steps + [step])
    ensures var s := run[|run| - 1];
      Deletions(run + [Apply(s, step)], steps + [step]) == Deletions(run, steps) + Victims(s, step)
  {
    hide Enabled, Victims, Apply;
    var s := run[|run| - 1];
    var longer, more := run + [Apply(s, step)], steps + [step];
    forall id
      ensures id in Deletions(longer, more) <==> id in Deletions(run, steps) || id in Victims(s, step)
    {
      if id in Deletions(longer, more) {
        var k: nat :| k < |more| && k + 1 < |longer| && StepAt(longer, more, k) && id in Victims(longer[k], more[k]);
        assert k < |steps| ==> StepAt(run, steps, k);
      }
      if id in Deletions(run, steps) {
        var k: nat :| k < |steps| && k + 1 < |run| && StepAt(run, steps, k) && id in Victims(run[k], steps[k]);
        assert StepAt(longer, more, k) && longer[k] == run[k] && more[k] == steps[k];
      }
      if id in Victims(s, step) {
        assert StepAt(longer, more, |steps|) && longer[|steps|] == s && more[|steps|] == step;
      }
    }
  }

  /** One step of other goroutines more. */
  lemma AdvanceOther(run: seq<State>, steps: seq<Step>, start: State, s: State, others: nat -> Option<Records>, from: nat, now: nat)
    returns (longer: seq<State>, more: seq<Step>)
    requires Leads(run, steps, start, s, others, from, now)
    ensures Leads(longer, more, start, Apply(s, Other(others(now))), others, from, now + 1)
    ensures Deletions(longer, more) == Deletions(run, steps) && more == steps + [Other(others(now))]
    ensures forall limit :: Passing(steps, limit) ==> Passing(more, limit)
  {
    hide Leads, Deletions, Apply;
    longer, more := Advance(run, steps, start, s, others, from, now, Other(others(now)));
  }

  /** The step of TrimHistory that deals with a snapshot. */
  lemma AdvanceNext(run: seq<State>, steps: seq<Step>, start: State, s: State, others: nat -> Option<Records>, from: nat, now: nat)
    returns (longer: seq<State>, more: seq<Step>)
    requires Leads(run, steps, start, s, others, from, now) && s.phase.Trimming? && s.phase.index < |s.phase.all|
    ensures var p := s.phase;
      var candidate, id := IsCandidate(p.all[p.index], ProtectedIn(p.all)), p.all[p.index].id;
      var gone := if candidate && p.terminal >= p.limit then {id} else {};
      var phase := p.(index := p.index + 1, terminal := if candidate then p.terminal + 1 else p.terminal);
      && Leads(longer, more, start, State(s.data - gone, s.used, phase), others, from, now)
      && Deletions(longer, more) == Deletions(run, steps) + gone && more == steps + [Next]
      && (Passing(steps, p.limit) ==> Passing(more, p.limit))
  {
    hide Leads, Deletions, ProtectedIn;
    longer, more := Advance(run, steps, start, s, others, from, now, Next);
  }

  /** CleanupOldDownloads collects, and deletes after a step of others. */
  lemma AdvanceCollect(run: seq<State>, steps: seq<Step>, start: State, s: State, others: nat -> Option<Records>, from: nat, now: nat,
                       maxAge: int, time: R.Time)
    returns (longer: seq<State>, more: seq<Step>)
    requires Leads(run, steps, start, s, others, from, now) && s.phase.Looked?
    ensures Leads(longer, more, start, s.(phase := Collected(Outdated(s.data, s.phase.protected, maxAge, time))), others, from, now)
    ensures Deletions(longer, more) == Deletions(run, steps) && more == steps + [Collect(maxAge, time)]
  {
    hide Leads, Deletions, Outdated;
    longer, more := Advance(run, steps, start, s, others, from, now, Collect(maxAge, time));
  }

  lemma AdvanceDelete(run: seq<State>, steps: seq<Step>, start: State, s: State, others: nat -> Option<Records>, from: nat, now: nat)
    returns (longer: seq<State>, more: seq<Step>)
    requires Leads(run, steps, start, s, others, from, now) && s.phase.Collected?
    ensures Leads(longer, more, start, State(s.data - s.phase.victims, s.used, Idle), others, from, now)
    ensures Deletions(longer, more) == Deletions(run, steps) + s.phase.victims && more == steps + [DeleteAll]
  {
    hide Leads, Deletions;
    longer, more := Advance(run, steps, start, s, others, from, now, DeleteAll);
  }

  /** The steps of TrimHistory so far, and altogether. */
  predicate Passing(steps: seq<Step>, limit: nat) {
    && steps != [] && steps[0].Begin? && steps[0].limit == limit
    && forall i :: 0 < i < |steps| ==> steps[i].Next? || steps[i].Other?
  }

  predicate TrimPass(steps: seq<Step>, limit: nat) {
    |steps| > 1 && steps[|steps| - 1].Return? && Passing(steps[..|steps| - 1], limit)
  }

  /** The steps of CleanupOldDownloads. */
  predicate ExpiryPass(steps: seq<Step>, maxAge: int, now: R.Time) {
    && |steps| == 5 && steps[0].Look? && steps[1].Other? && steps[2] == Collect(maxAge, now) && steps[3].Other?
    && steps[4].DeleteAll?
  }

  lemma TrimBegins(all: seq<Snapshot>, limit: nat, s: State, others: nat -> Option<Records>, now: nat)
    returns (run: seq<State>, steps: seq<Step>)
    requires Init(s) && IsListing(all, s.data)
    ensures Leads(run, steps, s, s.(phase := Trimming(all, 0, 0, limit)), others, now, now)
    ensures Deletions(run, steps) == {} && Passing(steps, limit)
  {
    hide Leads, Deletions, IsListing;
    NothingYet(s, others, now);
    run, steps := Advance([s], [], s, s, others, now, now, Begin(all, limit));
  }

  lemma TrimEnds(run: seq<State>, steps: seq<Step>, start: State, s: State, others: nat -> Option<Records>, from: nat, now: nat)
    returns (longer: seq<State>, more: seq<Step>)
    requires Leads(run, steps, start, s, others, from, now)
    requires s.phase.Trimming? && s.phase.index == |s.phase.all| && Passing(steps, s.phase.limit)
    ensures Leads(longer, more, start, s.(phase := Idle), others, from, now)
    ensures Deletions(longer, more) == Deletions(run, steps) && TrimPass(more, s.phase.limit)
  {
    hide Leads, Deletions;
    longer, more := Advance(run, steps, start, s, others, from, now, Return);
    assert more[..|more| - 1] == steps;
  }

  lemma ExpiryBegins(all: seq<Snapshot>, s: State, others: nat -> Option<Records>, now: nat)
    returns (run: seq<State>, steps: seq<Step>)
    requires Init(s) && IsListing(all, s.data)
    ensures Leads(run, steps, s, s.(phase := Looked(ProtectedIn(all))), others, now, now)
    ensures Deletions(run, steps) == {} && steps == [Look(all)]
  {
    hide Leads, Deletions, IsListing, ProtectedIn;
    NothingYet(s, others, now);
    run, steps := Advance([s], [], s, s, others, now, now, Look(all));
  }

  // ---------------------------------------------------------------- records over a run

  /** Unless other goroutines step, a record that stays does not change. */
  lemma OneStep(s: State, step: Step, id: JobId)
    requires Enabled(s, step) && s.data.Keys <= s.used
    ensures var s' := Apply(s, step);
      && s'.data.Keys <= s'.used && s.used <= s'.used
      && (id in s'.data && id !in s.data ==> step.Other? && id !in s.used)
      && (id in s'.data && id in s.data ==> Evolves(s.data[id], s'.data[id]))
      && (id in s'.data && id in s.data && !step.Other? ==> s'.data[id] == s.data[id])
  {
  }

  lemma {:induction false} UsedGrows(run: seq<State>, steps: seq<Step>, i: nat, k: nat)
    requires IsRun(run, steps) && i <= k < |run|
    ensures run[k].data.Keys <= run[k].used && run[i].used <= run[k].used
    decreases k
  {
    if k > 0 {
      UsedGrows(run, steps, if i < k then i else k - 1, k - 1);
      assert StepAt(run, steps, k - 1);
      OneStep(run[k - 1], steps[k - 1], "");
    }
  }

  /** A record that is there twice has been there all the time, with its kind and children. */
  lemma {:induction false} StaysBetween(run: seq<State>, steps: seq<Step>, i: nat, k: nat, id: JobId)
    requires IsRun(run, steps) && i <= k < |run| && id in run[i].used && id in run[k].data
    ensures forall m :: i <= m <= k ==>
      id in run[m].data && run[m].data[id].children == run[k].data[id].children && run[m].data[id].batch == run[k].data[id].batch
    decreases k
  {
    if i < k {
      assert StepAt(run, steps, k - 1);
      UsedGrows(run, steps, i, k - 1);
      OneStep(run[k - 1], steps[k - 1], id);
      StaysBetween(run, steps, i, k - 1, id);
    }
  }

  // ---------------------------------------------------------------- the deletions

  /** Where the pass of TrimHistory that is under way took its snapshots. */
  lemma {:induction false} TrimBegan(run: seq<State>, steps: seq<Step>, k: nat) returns (i: nat)
    requires IsRun(run, steps) && k < |run| && run[k].phase.Trimming?
    ensures i < k && steps[i].Begin? && run[k].phase.all == steps[i].all && IsListing(steps[i].all, run[i].data)
    ensures forall m :: i < m <= k ==> !run[m].phase.Idle?
    decreases k
  {
    assert StepAt(run, steps, k - 1);
    if steps[k - 1].Begin? {
      i := k - 1;
    } else {
      i := TrimBegan(run, steps, k - 1);
    }
  }

  lemma {:induction false} LookedAt(run: seq<State>, steps: seq<Step>, k: nat) returns (i: nat)
    requires IsRun(run, steps) && k < |run| && run[k].phase.Looked?
    ensures i < k && steps[i].Look? && forall id :: id in run[k].phase.protected <==> Protected(run[i].data, id)
    ensures forall m :: i < m <= k ==> !run[m].phase.Idle?
    decreases k
  {
    hide Protected;
    assert StepAt(run, steps, k - 1);
    if steps[k - 1].Look? {
      i := k - 1;
      forall id
        ensures id in run[k].phase.protected <==> Protected(run[i].data, id)
      {
        ProtectedIffListed(steps[i].all, run[i].data, id);
      }
    } else {
      i := LookedAt(run, steps, k - 1);
    }
  }

  lemma {:induction false} CollectedAt(run: seq<State>, steps: seq<Step>, k: nat) returns (j: nat)
    requires IsRun(run, steps) && k < |run| && run[k].phase.Collected?
    ensures j < k && steps[j].Collect? && run[j].phase.Looked?
    ensures run[k].phase.victims == Outdated(run[j].data, run[j].phase.protected, steps[j].maxAge, steps[j].now)
    ensures forall m :: j < m <= k ==> !run[m].phase.Idle?
    decreases k
  {
    assert StepAt(run, steps, k - 1);
    if steps[k - 1].Collect? {
      j := k - 1;
    } else {
      j := CollectedAt(run, steps, k - 1);
    }
  }

  /** The position of the snapshots and the position of the status that step k relies on. */
  ghost predicate Decided(run: seq<State>, steps: seq<Step>, i: nat, j: nat, k: nat) {
    && i <= j < k < |steps| && k < |run|
    && (if steps[k].Next? then i == j && steps[i].Begin? else steps[i].Look? && steps[j].Collect?)
    && forall m :: i < m <= k ==> !run[m].phase.Idle?
  }

  /** Whatever is deleted was not protected when the snapshots were taken, and was finished when its
      status was looked at. */
  lemma DeletedWasRemovable(run: seq<State>, steps: seq<Step>, k: nat, id: JobId) returns (i: nat, j: nat)
    requires IsRun(run, steps) && k < |steps| && Enabled(run[k], steps[k]) && id in Victims(run[k], steps[k])
    ensures Decided(run, steps, i, j, k)
    ensures !Protected(run[i].data, id) && Finished(run[j].data, id)
  {
    hide Protected;
    assert StepAt(run, steps, k);
    if steps[k].Next? {
      i := TrimBegan(run, steps, k);
      j := i;
      ProtectedIffListed(steps[i].all, run[i].data, id);
    } else {
      j := CollectedAt(run, steps, k);
      i := LookedAt(run, steps, j);
    }
  }

  /** What expiry deletes was old when it was collected: it had been completed for longer than the age
      limit, or, without a completion time, started. */
  lemma ExpiredWasOld(run: seq<State>, steps: seq<Step>, k: nat, id: JobId) returns (j: nat)
    requires IsRun(run, steps) && k < |steps| && steps[k].DeleteAll? && Enabled(run[k], steps[k])
    requires id in Victims(run[k], steps[k])
    ensures j < k && steps[j].Collect? && id in run[j].data
    ensures var rec, now := run[j].data[id], steps[j].now;
      || (rec.completedAt.Some? && now - rec.completedAt.value > steps[j].maxAge)
      || (rec.completedAt.None? && rec.startedAt.Some? && now - rec.startedAt.value > steps[j].maxAge)
  {
    j := CollectedAt(run, steps, k);
  }

  /** Another goroutine has taken the record out of its terminal status, and it has been unfinished since. */
  ghost predicate Revived(run: seq<State>, steps: seq<Step>, j: nat, k: nat, id: JobId)
    requires k < |run| && k <= |steps|
  {
    exists m: nat ::
      && j <= m < k && steps[m].Other? && Finished(run[m].data, id)
      && forall n :: m < n <= k ==> id in run[n].data && !R.Terminal(run[n].data[id].status)
  }

  /** A batch has become active, or has come into the store as an active one, and has been active since. */
  ghost predicate Awoke(run: seq<State>, steps: seq<Step>, i: nat, k: nat, parent: JobId, id: JobId)
    requires k < |run| && k <= |steps|
  {
    exists m: nat ::
      && i <= m < k && steps[m].Other? && !Protects(run[m].data, parent, id)
      && forall n :: m < n <= k ==> Protects(run[n].data, parent, id)
  }

  lemma {:induction false} Revival(run: seq<State>, steps: seq<Step>, j: nat, k: nat, id: JobId) returns (m: nat)
    requires IsRun(run, steps) && j <= k < |run| && Finished(run[j].data, id)
    requires id in run[k].data && !R.Terminal(run[k].data[id].status)
    ensures j <= m < k && steps[m].Other? && Finished(run[m].data, id) && run[m].data[id].batch
    ensures forall n :: m < n <= k ==> id in run[n].data && !R.Terminal(run[n].data[id].status)
    decreases k
  {
    UsedGrows(run, steps, j, j);
    StaysBetween(run, steps, j, k, id);
    UsedGrows(run, steps, k - 1, k - 1);
    assert StepAt(run, steps, k - 1);
    OneStep(run[k - 1], steps[k - 1], id);
    if R.Terminal(run[k - 1].data[id].status) {
      m := k - 1;
    } else {
      m := Revival(run, steps, j, k - 1, id);
    }
  }

  lemma {:induction false} Awakening(run: seq<State>, steps: seq<Step>, i: nat, k: nat, parent: JobId, id: JobId) returns (m: nat)
    requires IsRun(run, steps) && i <= k < |run| && !Protects(run[i].data, parent, id) && Protects(run[k].data, parent, id)
    ensures i <= m < k && steps[m].Other? && !Protects(run[m].data, parent, id)
    ensures forall n :: m < n <= k ==> Protects(run[n].data, parent, id)
    decreases k
  {
    UsedGrows(run, steps, k - 1, k - 1);
    assert StepAt(run, steps, k - 1);
    OneStep(run[k - 1], steps[k - 1], parent);
    if !Protects(run[k - 1].data, parent, id) {
      m := k - 1;
    } else {
      m := Awakening(run, steps, i, k - 1, parent, id);
    }
  }

  /** Over every run: what trimming or expiry deletes is unfinished at that moment exactly if it is the
      record of a batch that another goroutine has revived since its status was looked at. */
  lemma UnfinishedIsDeletedIff(run: seq<State>, steps: seq<Step>, k: nat, id: JobId) returns (i: nat, j: nat)
    requires IsRun(run, steps) && k < |steps| && Enabled(run[k], steps[k]) && id in Victims(run[k], steps[k])
    ensures Decided(run, steps, i, j, k) && Finished(run[j].data, id)
    ensures id in run[k].data ==>
      (!R.Terminal(run[k].data[id].status) <==> run[k].data[id].batch && Revived(run, steps, j, k, id))
  {
    i, j := DeletedWasRemovable(run, steps, k, id);
    if id in run[k].data && !R.Terminal(run[k].data[id].status) {
      var m := Revival(run, steps, j, k, id);
      UsedGrows(run, steps, m, m);
      StaysBetween(run, steps, m, k, id);
    }
  }

  /** And it is protected at that moment exactly if a batch that has it among its children became active
      since the snapshots were taken. */
  lemma ProtectedIsDeletedIff(run: seq<State>, steps: seq<Step>, k: nat, id: JobId) returns (i: nat, j: nat)
    requires IsRun(run, steps) && k < |steps| && Enabled(run[k], steps[k]) && id in Victims(run[k], steps[k])
    ensures Decided(run, steps, i, j, k) && !Protected(run[i].data, id)
    ensures Protected(run[k].data, id) <==> exists parent :: Awoke(run, steps, i, k, parent, id)
  {
    i, j := DeletedWasRemovable(run, steps, k, id);
    if Protected(run[k].data, id) {
      var parent :| parent in run[k].data && Protects(run[k].data, parent, id);
      var m := Awakening(run, steps, i, k, parent, id);
      assert Awoke(run, steps, i, k, parent, id);
    }
    if parent :| Awoke(run, steps, i, k, parent, id) {
      assert Protects(run[k].data, parent, id);
    }
  }

  /** A batch that stays active from some point on at which no pass is under way loses nothing to
      trimming and expiry: neither its own record nor a child's. */
  lemma ActiveBatchesStayWhole(run: seq<State>, steps: seq<Step>, start: nat, k: nat, parent: JobId)
    requires IsRun(run, steps) && start <= k < |steps| && run[start].phase.Idle? && Enabled(run[k], steps[k])
    requires forall n :: start <= n <= k ==> parent in run[n].data && Active(run[n].data[parent])
    ensures parent !in Victims(run[k], steps[k])
    ensures forall child :: child in run[k].data[parent].children ==> child !in Victims(run[k], steps[k])
  {
    hide Enabled, Victims, Protected;
    if parent in Victims(run[k], steps[k]) {
      var i, j := DeletedWasRemovable(run, steps, k, parent);
      assert false;
    }
    forall child | child in run[k].data[parent].children
      ensures child !in Victims(run[k], steps[k])
    {
      if child in Victims(run[k], steps[k]) {
        var i, j := DeletedWasRemovable(run, steps, k, child);
        UsedGrows(run, steps, i, i);
        StaysBetween(run, steps, i, k, parent);
        NotProtecting(run[i].data, parent, child);
        assert false;
      }
    }
  }

  lemma NotProtecting(data: Records, parent: JobId, id: JobId)
    requires parent in data && !Protected(data, id)
    ensures !Protects(data, parent, id)
  {
  }

  /** The last two steps of the run delete a child of an active batch and the batch's own record. */
  ghost predicate LosesActiveBatch(run: seq<State>, steps: seq<Step>, batch: JobId, child: JobId) {
    IsRun(run, steps) && |steps| >= 2 &&
    var before, between, after := run[|run| - 3].data, run[|run| - 2].data, run[|run| - 1].data;
    && steps[|steps| - 2].Next? && Protects(before, batch, child) && child !in between
    && steps[|steps| - 1].Next? && batch in between && Active(between[batch]) && batch !in after
  }

  /** Any batch that is cancelled while a child has finished can be lost so: another goroutine, for
      example a late report, revives it between the snapshots and the deletions. */
  lemma RevivedBatchIsTrimmed(batch: JobId, cancelled: Rec, revived: Rec, child: JobId, finished: Rec)
    returns (run: seq<State>, steps: seq<Step>)
    requires batch != child && cancelled.batch && cancelled.status.Cancelled? && cancelled.children == [child]
    requires revived == cancelled.(status := R.Downloading) && R.Terminal(finished.status)
    ensures LosesActiveBatch(run, steps, batch, child)
  {
    var data: Records := map[batch := cancelled, child := finished];
    var all := [Snapshot(child, finished), Snapshot(batch, cancelled)];
    run, steps := [State(data, data.Keys, Idle)], [];
    assert IsRun(run, steps);
    hide IsRun, Apply, Enabled, Evolves;
    BothListed(data, all, batch, child);
    Extended(run, steps, Begin(all, 0));
    run, steps := run + [Apply(run[0], Begin(all, 0))], steps + [Begin(all, 0)];
    var change := Other(Some(data[batch := revived]));
    LateReport(data, all, batch, revived);
    Extended(run, steps, change);
    run, steps := run + [Apply(run[1], change)], steps + [change];
    BothGo(run[2], batch, child);
    Extended(run, steps, Next);
    run, steps := run + [Apply(run[2], Next)], steps + [Next];
    Extended(run, steps, Next);
    run, steps := run + [Apply(run[3], Next)], steps + [Next];
  }

  lemma BothListed(data: Records, all: seq<Snapshot>, batch: JobId, child: JobId)
    requires batch != child && data.Keys == {batch, child}
    requires all == [Snapshot(child, data[child]), Snapshot(batch, data[batch])]
    ensures var s := State(data, data.Keys, Idle);
      Enabled(s, Begin(all, 0)) && Apply(s, Begin(all, 0)) == s.(phase := Trimming(all, 0, 0, 0))
  {
    assert all[0] == Snapshot(child, data[child]) && all[1] == Snapshot(batch, data[batch]);
  }

  lemma LateReport(data: Records, all: seq<Snapshot>, batch: JobId, revived: Rec)
    requires batch in data && data[batch].batch && Evolves(data[batch], revived)
    ensures var s := State(data, data.Keys, Trimming(all, 0, 0, 0)); var change := Other(Some(data[batch := revived]));
      Enabled(s, change) && Apply(s, change) == s.(data := data[batch := revived])
  {
    assert data.Keys + data[batch := revived].Keys == data.Keys;
  }

  lemma BothGo(s: State, batch: JobId, child: JobId)
    requires batch != child && s.data.Keys == {batch, child}
    requires s.phase.Trimming? && s.phase.index == 0 && s.phase.terminal == s.phase.limit == 0
    requires |s.phase.all| == 2 && s.phase.all[0].id == child && s.phase.all[1].id == batch
    requires R.Terminal(s.phase.all[0].rec.status) && R.Terminal(s.phase.all[1].rec.status)
    ensures Enabled(s, Next) && Enabled(Apply(s, Next), Next)
    ensures Apply(s, Next).data == s.data - {child} && Apply(Apply(s, Next), Next).data == s.data - {child} - {batch}
  {
    assert ProtectedIn(s.phase.all) == {};
  }
}
