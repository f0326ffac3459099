/** Writing the history in the background: the dirty token, the ticker and the final flush of
    persistLoop and Flush in internal/store/history.go. */
module Persistence {

  /** Where persistLoop stands; `final` is whether it flushes because of Close. */
  datatype Pc =
    | Selecting
    | Flushing(final: bool)
    | Writing(snapshot: nat, final: bool)
    | Done

  /** A version of the store's contents is the number of changes made to it. `memory` is the present
      version and `disk` the one in the history file; `token` is whether the dirty channel is full,
      `announcing` counts the goroutines that have changed the store but not yet called changed. */
  datatype State = State(
    memory: nat, disk: nat, token: bool, announcing: nat, dirty: bool, pc: Pc, failed: bool, stopped: bool)

  datatype Step =
    | Change | Announce
    | Receive | Tick | Stop | SeeStop
    | Snapshot | Write(ok: bool)

  predicate Enabled(s: State, step: Step) {
    match step
    case Change => true
    case Announce => s.announcing > 0
    case Receive => s.pc.Selecting? && s.token
    case Tick => s.pc.Selecting?
    case Stop => true
    case SeeStop => s.pc.Selecting? && s.stopped
    case Snapshot => s.pc.Flushing?
    case Write(_) => s.pc.Writing?
  }

  function Apply(s: State, step: Step): State
    requires Enabled(s, step)
  {
    match step
    case Change => s.(memory := s.memory + 1, announcing := s.announcing + 1)
    case Announce => s.(token := true, announcing := s.announcing - 1)
    case Receive => s.(token := false, dirty := true)
    case Tick => if s.dirty then s.(pc := Flushing(false)) else s
    case Stop => s.(stopped := true)
    case SeeStop => s.(pc := Flushing(true))
    case Snapshot => s.(pc := Writing(s.memory, s.pc.final))
    case Write(ok) =>
      s.(disk := if ok then s.pc.snapshot else s.disk, failed := !ok,
         dirty := if s.pc.final then s.dirty else false,
         pc := if s.pc.final then Done else Selecting)
  }

  /** The restored records are changes to the file's version 0; the constructor announces them last. */
  ghost predicate Init(s: State) {
    s.disk == 0 && !s.token && s.announcing == 1 && !s.dirty && s.pc.Selecting? && !s.failed && !s.stopped
  }

  ghost predicate StepAt(run: seq<State>, steps: seq<Step>, i: nat) {
    i < |steps| && i + 1 < |run| ==> Enabled(run[i], steps[i]) && run[i + 1] == Apply(run[i], steps[i])
  }

  ghost predicate IsRun(run: seq<State>, steps: seq<Step>) {
    |run| == |steps| + 1 && Init(run[0]) && forall i: nat :: StepAt(run, steps, i)
  }

  /** A change that is not on disk is in the token, about to be announced, noted by the loop, about to
      be written, or its write has failed. */
  ghost predicate Inv(s: State) {
    && s.disk <= s.memory
    && (s.pc.Writing? ==> s.disk <= s.pc.snapshot <= s.memory && (s.pc.snapshot == s.memory || s.token || s.announcing > 0))
    && (s.disk == s.memory || s.token || s.announcing > 0 || (s.dirty && !s.pc.Done?) || s.pc.Flushing? || s.pc.Writing? || s.failed)
  }

  lemma InvStep(s: State, step: Step)
    requires Inv(s) && Enabled(s, step)
    ensures Inv(Apply(s, step)) && s.disk <= Apply(s, step).disk && s.memory <= Apply(s, step).memory
  {
  }

  lemma {:induction false} RunKeepsInv(run: seq<State>, steps: seq<Step>, i: nat)
    requires IsRun(run, steps) && i < |run|
    ensures Inv(run[i])
  {
    if i > 0 {
      RunKeepsInv(run, steps, i - 1);
      assert StepAt(run, steps, i - 1);
      InvStep(run[i - 1], steps[i - 1]);
    }
  }

  /** Nothing is left for the loop to do. */
  predicate Quiet(s: State) {
    s.announcing == 0 && !s.token && (s.pc.Done? || (s.pc.Selecting? && !s.dirty))
  }

  /** When everything has come to rest the file holds the present contents, unless the last write failed. */
  lemma QuietMeansSaved(run: seq<State>, steps: seq<Step>, i: nat)
    requires IsRun(run, steps) && i < |run| && Quiet(run[i]) && !run[i].failed
    ensures run[i].disk == run[i].memory
  {
    RunKeepsInv(run, steps, i);
  }

  /** Whenever the process dies, the file holds the contents as they were at some time, and never
      older ones than it held before. */
  lemma {:induction false} DiskNeverGoesBack(run: seq<State>, steps: seq<Step>, i: nat, j: nat)
    requires IsRun(run, steps) && i <= j < |run|
    ensures run[i].disk <= run[j].disk <= run[j].memory
    decreases j
  {
    RunKeepsInv(run, steps, j);
    if i < j {
      DiskNeverGoesBack(run, steps, i, j - 1);
      assert StepAt(run, steps, j - 1);
      RunKeepsInv(run, steps, j - 1);
      InvStep(run[j - 1], steps[j - 1]);
    }
  }

  /** The flush with snapshot step j was completed by the successful write of step k. */
  ghost predicate Flushed(steps: seq<Step>, j: nat, k: nat) {
    && j < k < |steps| && steps[j].Snapshot? && steps[k] == Write(true)
    && forall m :: j < m < k ==> !steps[m].Write? && !steps[m].Snapshot?
  }

  lemma {:induction false} StillWriting(run: seq<State>, steps: seq<Step>, i: nat, j: nat)
    requires IsRun(run, steps) && i < j < |run| && j <= |steps| && steps[i].Snapshot?
    requires forall k :: i < k < j ==> !steps[k].Write? && !steps[k].Snapshot?
    ensures run[j].pc.Writing? && run[j].pc.snapshot == run[i].memory
    decreases j
  {
    assert StepAt(run, steps, j - 1);
    if i < j - 1 {
      StillWriting(run, steps, i, j - 1);
    }
  }

  /** A successful flush saves every change made before its snapshot, and no later one. */
  lemma FlushSavesWhatCameBefore(run: seq<State>, steps: seq<Step>, j: nat, k: nat)
    requires IsRun(run, steps) && Flushed(steps, j, k)
    ensures run[k + 1].disk == run[j].memory
  {
    assert StepAt(run, steps, k);
    StillWriting(run, steps, j, k);
  }

  /** No change is made in steps i to j. */
  ghost predicate Unchanged(steps: seq<Step>, i: nat, j: nat)
    requires j <= |steps|
  {
    forall m :: i <= m < j ==> !steps[m].Change?
  }

  lemma {:induction false} MemoryCountsChanges(run: seq<State>, steps: seq<Step>, i: nat, j: nat)
    requires IsRun(run, steps) && i <= j < |run|
    ensures run[i].memory <= run[j].memory
    ensures run[i].memory == run[j].memory <==> Unchanged(steps, i, j)
    decreases j
  {
    if i < j {
      MemoryCountsChanges(run, steps, i, j - 1);
      assert StepAt(run, steps, j - 1);
    }
  }

  /** The snapshot being written was taken by the latest Snapshot. */
  lemma {:induction false} WritingSince(run: seq<State>, steps: seq<Step>, k: nat) returns (j: nat)
    requires IsRun(run, steps) && k < |run| && run[k].pc.Writing?
    ensures j < k && steps[j].Snapshot? && run[k].pc.snapshot == run[j].memory
    ensures forall m :: j < m < k ==> !steps[m].Write? && !steps[m].Snapshot?
  {
    assert k > 0;
    assert StepAt(run, steps, k - 1);
    if steps[k - 1].Snapshot? {
      j := k - 1;
    } else {
      j := WritingSince(run, steps, k - 1);
    }
  }

  /** Where the contents of the file come from. */
  lemma {:induction false} DiskOrigin(run: seq<State>, steps: seq<Step>, i: nat)
    requires IsRun(run, steps) && i < |run|
    ensures run[i].disk == 0 || exists j: nat, k: nat :: k < i && Flushed(steps, j, k) && run[i].disk == run[j].memory
  {
    if i > 0 {
      assert StepAt(run, steps, i - 1);
      if steps[i - 1] == Write(true) {
        var j := WritingSince(run, steps, i - 1);
        assert Flushed(steps, j, i - 1);
      } else {
        DiskOrigin(run, steps, i - 1);
      }
    }
  }

  /** A flush whose snapshot was taken after the last change has succeeded. */
  ghost predicate FlushedSinceChange(steps: seq<Step>, i: nat)
    requires i <= |steps|
  {
    exists j: nat, k: nat :: k < i && Flushed(steps, j, k) && Unchanged(steps, j, i)
  }

  /** Exactly when the file is up to date: nothing was ever changed, not even by the restoration, or a
      flush whose snapshot was taken after the last change has succeeded. */
  lemma SavedIff(run: seq<State>, steps: seq<Step>, i: nat)
    requires IsRun(run, steps) && i < |run|
    ensures run[i].disk == run[i].memory <==> run[i].memory == 0 || FlushedSinceChange(steps, i)
  {
    RunKeepsInv(run, steps, i);
    if run[i].disk == run[i].memory && run[i].memory > 0 {
      DiskOrigin(run, steps, i);
      var j: nat, k: nat :| k < i && Flushed(steps, j, k) && run[i].disk == run[j].memory;
      MemoryCountsChanges(run, steps, j, i);
    }
    if FlushedSinceChange(steps, i) {
      var j: nat, k: nat :| k < i && Flushed(steps, j, k) && Unchanged(steps, j, i);
      MemoryCountsChanges(run, steps, j, i);
      FlushSavesWhatCameBefore(run, steps, j, k);
      DiskNeverGoesBack(run, steps, k + 1, i);
    }
  }

  /** At rest the file is behind exactly if the last flush failed, and with it every one since the last
      change: no further one is going to be tried, and ticks do not help. */
  lemma StaleIff(run: seq<State>, steps: seq<Step>, i: nat)
    requires IsRun(run, steps) && i < |run| && Quiet(run[i])
    ensures run[i].disk < run[i].memory <==> run[i].failed && run[i].memory > 0 && !FlushedSinceChange(steps, i)
    ensures run[i].pc.Selecting? ==> Apply(run[i], Tick) == run[i]
  {
    RunKeepsInv(run, steps, i);
    SavedIff(run, steps, i);
  }

  /** At rest with an outdated file. */
  ghost predicate Stale(run: seq<State>, steps: seq<Step>) {
    && IsRun(run, steps)
    && var last := run[|steps|];
       Quiet(last) && last.pc.Selecting? && last.disk < last.memory && Apply(last, Tick) == last
  }

  /** Such a run: a failed flush clears the loop's dirty flag, so that with no further change the file
      stays behind although it could be written again. */
  lemma FailedFlushIsNotRetried()
    ensures exists run: seq<State>, steps: seq<Step> :: Stale(run, steps)
  {
    var s0 := State(1, 0, false, 1, false, Selecting, false, false);
    var s1 := State(1, 0, true, 0, false, Selecting, false, false);
    var s2 := State(1, 0, false, 0, true, Selecting, false, false);
    var s3 := State(1, 0, false, 0, true, Flushing(false), false, false);
    var s4 := State(1, 0, false, 0, true, Writing(1, false), false, false);
    var s5 := State(1, 0, false, 0, false, Selecting, true, false);
    assert s1 == Apply(s0, Announce) && s2 == Apply(s1, Receive) && s3 == Apply(s2, Tick);
    assert s4 == Apply(s3, Snapshot) && s5 == Apply(s4, Write(false));
    var run, steps := [s0, s1, s2, s3, s4, s5], [Announce, Receive, Tick, Snapshot, Write(false)];
    assert Stale(run, steps);
  }

  // ---------------------------------------------------------------- versions and the end

  function Changes(steps: seq<Step>): nat {
    if steps == [] then 0 else Changes(steps[..|steps| - 1]) + if steps[|steps| - 1].Change? then 1 else 0
  }

  /** The version in memory is the number of changes there have been. */
  lemma {:induction false} MemoryIsChanges(run: seq<State>, steps: seq<Step>, i: nat)
    requires IsRun(run, steps) && i < |run|
    ensures run[i].memory == run[0].memory + Changes(steps[..i])
  {
    if i > 0 {
      MemoryIsChanges(run, steps, i - 1);
      assert StepAt(run, steps, i - 1);
      assert steps[..i][..i - 1] == steps[..i - 1];
    }
  }

  /** The loop ends only when it has been told to, and then only after a flush. */
  lemma {:induction false} EndsWhenStopped(run: seq<State>, steps: seq<Step>, i: nat)
    requires IsRun(run, steps) && i < |run|
    ensures run[i].pc.Done? || (run[i].pc.Flushing? && run[i].pc.final) || (run[i].pc.Writing? && run[i].pc.final) ==> run[i].stopped
  {
    if i > 0 {
      EndsWhenStopped(run, steps, i - 1);
      assert StepAt(run, steps, i - 1);
    }
  }

  /** Once told to stop, a loop that selects can flush once more and end, and if the write succeeds the
      file holds the present contents. */
  lemma ShutdownFlushes(s: State, ok: bool)
    requires s.pc.Selecting?
    ensures Apply(s, Stop).stopped && Apply(s, Stop).pc.Selecting?
    ensures var stopping := Apply(s, Stop);
      && Enabled(stopping, SeeStop) && Enabled(Apply(stopping, SeeStop), Snapshot)
      && Enabled(Apply(Apply(stopping, SeeStop), Snapshot), Write(ok))
      && var end := Apply(Apply(Apply(stopping, SeeStop), Snapshot), Write(ok));
        end.pc.Done? && end.memory == s.memory && (ok ==> end.disk == s.memory)
  {
  }
}
