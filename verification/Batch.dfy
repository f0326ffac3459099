/** The polling loop and the admission goroutine of runBatch in internal/handlers/handler_batch.go,
    interleaved with the workers of the children, cancel requests and history removal. */
module Batch {
  import opened Wrappers
  import R = Record

  /** A child's record; `stored` is whether the store still has it. */
  datatype Child = Child(status: R.Status, stored: bool)

  datatype Stats = Stats(admitted: nat, completed: nat, failed: nat, cancelled: nat)

  datatype Parent = Parent(status: R.Status, completedAt: Option<R.Time>, stats: Stats)

  /** One turn of the loop: `flag` is what it read from the parent's context, `tally` its counters,
      and `verdicts` how each child it has passed was counted. */
  datatype Turn = Turn(flag: bool, tally: Stats, verdicts: seq<Option<R.Status>>)

  datatype Loop =
    | Top
    | Scanning(turn: Turn)                  // before the store lookup of the next child
    | Found(turn: Turn)                     // has the child's record
    | Settled(turn: Turn)                   // past the cancellation of the child
    | Awaiting | Returned

  datatype Admission =
    | Offering(k: nat)                      // in EnqueueWait for child k
    | Accepted(k: nat)
    | Noted(k: nat)                         // child updated, Admitted not yet incremented
    | Closed

  /** `last` is how the latest finished turn counted the children. */
  datatype State = State(
    children: seq<Child>,
    parent: Parent,
    cancelled: bool,
    stopped: bool,
    loop: Loop,
    admission: Admission,
    last: seq<Option<R.Status>>)

  datatype Step =
    // the loop
    | Look | Visit | Settle | Count | Report(now: R.Time) | Return
    // the admission goroutine
    | Accept | Refuse | Finish | NoteChild | CountAdmitted
    // others
    | ChildMoves(i: nat, to: R.Status) | ChildForgotten(i: nat)
    | FireParent | MarkParent(now: R.Time) | StopPool

  function Position(loop: Loop): nat
    requires loop.Scanning? || loop.Found? || loop.Settled?
  {
    |loop.turn.verdicts|
  }

  predicate Enabled(s: State, step: Step) {
    var n := |s.children|;
    match step
    case Look => s.loop.Top?
    case Visit => s.loop.Scanning? && Position(s.loop) < n
    case Settle => s.loop.Found? && Position(s.loop) < n
    case Count => s.loop.Settled? && Position(s.loop) < n
    case Report(_) => s.loop.Scanning? && Position(s.loop) == n
    case Return => s.loop.Awaiting? && s.admission.Closed?
    case Accept => s.admission.Offering? && s.admission.k < n
    case Refuse => s.admission.Offering? && s.admission.k < n && (s.cancelled || s.stopped)
    case Finish => s.admission.Offering? && s.admission.k == n
    case NoteChild => s.admission.Accepted? && s.admission.k < n
    case CountAdmitted => s.admission.Noted?
    case ChildMoves(i, to) => i < n && !R.Terminal(s.children[i].status) && !to.WaitingForCapacity?
    case ChildForgotten(i) => i < n && R.Terminal(s.children[i].status)
    case FireParent => true
    case MarkParent(_) => s.cancelled
    case StopPool => true
  }

  function Finished(stats: Stats): nat {
    stats.completed + stats.failed + stats.cancelled
  }

  /** The counters after one more child. */
  function Tallied(tally: Stats, verdict: Option<R.Status>): Stats {
    if verdict == Some(R.Completed) then tally.(completed := tally.completed + 1)
    else if verdict == Some(R.Failed) then tally.(failed := tally.failed + 1)
    else if verdict == Some(R.Cancelled) then tally.(cancelled := tally.cancelled + 1)
    else tally
  }

  function Passed(turn: Turn, verdict: Option<R.Status>): Loop {
    Scanning(turn.(tally := Tallied(turn.tally, verdict), verdicts := turn.verdicts + [verdict]))
  }

  function Stored(s: State, i: nat, status: R.Status): State
    requires i < |s.children|
  {
    s.(children := s.children[i := s.children[i].(status := status)])
  }

  function Verdict(turn: Turn): R.Status {
    if turn.flag then R.Cancelled else if turn.tally.failed > 0 then R.Failed else R.Completed
  }

  predicate Over(s: State, turn: Turn) {
    Finished(turn.tally) == |s.children| || turn.flag
  }

  function Apply(s: State, step: Step): State
    requires Enabled(s, step)
  {
    match step
    case Look => s.(loop := Scanning(Turn(s.cancelled, Stats(0, 0, 0, 0), [])))
    case Visit =>
      if s.children[Position(s.loop)].stored then s.(loop := Found(s.loop.turn))
      else s.(loop := Passed(s.loop.turn, Some(R.Cancelled)))
    case Settle =>
      var i := Position(s.loop);
      var status := s.children[i].status;
      Stored(s, i, if s.loop.turn.flag && !R.Terminal(status) then R.Cancelled else status).(loop := Settled(s.loop.turn))
    case Count =>
      var status := s.children[Position(s.loop)].status;
      s.(loop := Passed(s.loop.turn, if R.Terminal(status) then Some(status) else None))
    case Report(now) =>
      var turn := s.loop.turn;
      var stats := turn.tally.(admitted := s.parent.stats.admitted);
      if Over(s, turn) then
        s.(parent := Parent(Verdict(turn), Some(now), stats), loop := Awaiting, last := turn.verdicts)
      else
        s.(parent := s.parent.(status := R.Downloading, stats := stats), loop := Top, last := turn.verdicts)
    case Return => s.(loop := Returned)
    case Accept => s.(admission := Accepted(s.admission.k))
    case Refuse => s.(admission := Closed)
    case Finish => s.(admission := Closed)
    case NoteChild =>
      var k := s.admission.k;
      var child := s.children[k];
      Stored(s, k, if child.stored && child.status.WaitingForCapacity? then R.Queued else child.status)
        .(admission := Noted(k))
    case CountAdmitted =>
      var stats := s.parent.stats;
      s.(parent := s.parent.(stats := stats.(admitted := stats.admitted + 1)), admission := Offering(s.admission.k + 1))
    case ChildMoves(i, to) => Stored(s, i, to)
    case ChildForgotten(i) => s.(children := s.children[i := s.children[i].(stored := false)])
    case FireParent => s.(cancelled := true)
    case MarkParent(now) =>
      if R.Terminal(s.parent.status) then s
      else s.(parent := s.parent.(status := R.Cancelled, completedAt := Some(now)))
    case StopPool => s.(stopped := true)
  }

  ghost predicate Init(s: State) {
    && |s.children| > 0
    && (forall i :: 0 <= i < |s.children| ==> s.children[i] == Child(R.WaitingForCapacity, true))
    && s.parent == Parent(R.Queued, None, Stats(0, 0, 0, 0))
    && !s.cancelled && s.loop.Top? && s.admission == Offering(0) && s.last == []
  }

  ghost predicate Next(s: State, s': State) {
    exists step :: Enabled(s, step) && s' == Apply(s, step)
  }

  ghost predicate StepAt(run: seq<State>, i: nat) {
    i + 1 < |run| ==> Next(run[i], run[i + 1])
  }

  ghost predicate IsRun(run: seq<State>) {
    |run| > 0 && Init(run[0]) && forall i: nat :: StepAt(run, i)
  }

  // ---------------------------------------------------------------- invariant

  function CountOf(verdicts: seq<Option<R.Status>>, x: Option<R.Status>): nat {
    if verdicts == [] then 0
    else CountOf(verdicts[..|verdicts| - 1], x) + if verdicts[|verdicts| - 1] == x then 1 else 0
  }

  /** The counters count the verdicts, and a verdict is a child's final status, unless the child was
      already gone, which is counted as cancelled. */
  ghost predicate Counted(children: seq<Child>, stats: Stats, verdicts: seq<Option<R.Status>>) {
    && |verdicts| <= |children|
    && stats.completed == CountOf(verdicts, Some(R.Completed))
    && stats.failed == CountOf(verdicts, Some(R.Failed))
    && stats.cancelled == CountOf(verdicts, Some(R.Cancelled))
    && forall i :: 0 <= i < |verdicts| ==> Honest(children[i], verdicts[i])
  }

  predicate Honest(child: Child, verdict: Option<R.Status>) {
    && (verdict.Some? ==> R.Terminal(child.status) && (verdict.value == child.status || verdict.value.Cancelled?))
    && (verdict.Some? && child.stored ==> verdict.value == child.status)
    && (!child.stored ==> R.Terminal(child.status))
  }

  ghost predicate AllSome(verdicts: seq<Option<R.Status>>) {
    forall i :: 0 <= i < |verdicts| ==> verdicts[i].Some?
  }

  /** A turn passes no child that the latest report had counted without counting it again. */
  ghost predicate NotLosing(last: seq<Option<R.Status>>, verdicts: seq<Option<R.Status>>) {
    forall i :: 0 <= i < |last| && i < |verdicts| && last[i].Some? ==> verdicts[i].Some?
  }

  ghost predicate TurnInv(s: State, turn: Turn) {
    && Counted(s.children, turn.tally, turn.verdicts)
    && (turn.flag ==> AllSome(turn.verdicts) && s.cancelled)
    && NotLosing(s.last, turn.verdicts)
  }

  ghost predicate LoopInv(s: State) {
    && (s.loop.Scanning? || s.loop.Found? || s.loop.Settled? ==> TurnInv(s, s.loop.turn))
    && (s.loop.Found? || s.loop.Settled? ==> Position(s.loop) < |s.children|)
    && (s.loop.Settled? && s.loop.turn.flag ==> R.Terminal(s.children[Position(s.loop)].status))
    && (s.loop.Awaiting? || s.loop.Returned? ==>
          |s.last| == |s.children| && AllSome(s.last) && R.Terminal(s.parent.status))
    && (s.loop.Returned? ==> s.admission.Closed?)
  }

  ghost predicate ParentInv(s: State) {
    && (forall i :: 0 <= i < |s.children| && !s.children[i].stored ==> R.Terminal(s.children[i].status))
    && (s.last == [] || |s.last| == |s.children|)
    && Counted(s.children, s.parent.stats, s.last)
    && AdmissionInv(s.admission, s.parent.stats.admitted, |s.children|)
  }

  /** The admission goroutine counts the children it has offered and noted. */
  predicate AdmissionInv(a: Admission, admitted: nat, n: nat) {
    && (a.Closed? || admitted == a.k)
    && (a.Offering? ==> a.k <= n)
    && (a.Accepted? || a.Noted? ==> a.k < n)
    && admitted <= n
  }

  ghost predicate Inv(s: State) {
    LoopInv(s) && ParentInv(s)
  }

  /** What the other goroutines may do to children: terminal statuses stay, records only vanish. */
  ghost predicate Grown(before: seq<Child>, after: seq<Child>) {
    && |before| == |after|
    && forall i :: 0 <= i < |before| ==>
      && (R.Terminal(before[i].status) ==> after[i].status == before[i].status)
      && (after[i].stored ==> before[i].stored)
      && (!after[i].stored ==> R.Terminal(after[i].status))
  }

  lemma GrownKeepsCounted(before: seq<Child>, after: seq<Child>, stats: Stats, verdicts: seq<Option<R.Status>>)
    requires Counted(before, stats, verdicts) && Grown(before, after)
    ensures Counted(after, stats, verdicts)
  {
    forall i | 0 <= i < |verdicts| ensures Honest(after[i], verdicts[i]) {
      assert Honest(before[i], verdicts[i]);
    }
  }

  ghost predicate GoneAreTerminal(children: seq<Child>) {
    forall i :: 0 <= i < |children| && !children[i].stored ==> R.Terminal(children[i].status)
  }

  lemma OneChildGrows(children: seq<Child>, i: nat, child: Child)
    requires i < |children| && GoneAreTerminal(children)
    requires R.Terminal(children[i].status) ==> child.status == children[i].status
    requires (child.stored ==> children[i].stored) && (!child.stored ==> R.Terminal(child.status))
    ensures Grown(children, children[i := child])
  {
  }

  lemma SameChildrenGrow(children: seq<Child>)
    requires GoneAreTerminal(children)
    ensures Grown(children, children)
  {
  }

  lemma ChildrenGrow(s: State, step: Step)
    requires ParentInv(s) && Enabled(s, step)
    ensures Grown(s.children, Apply(s, step).children)
  {
    hide Grown, Counted;
    assert GoneAreTerminal(s.children);
    SameChildrenGrow(s.children);
    match step
    case Settle => OneChildGrows(s.children, Position(s.loop), Apply(s, step).children[Position(s.loop)]);
    case NoteChild => OneChildGrows(s.children, s.admission.k, Apply(s, step).children[s.admission.k]);
    case ChildMoves(i, _) => OneChildGrows(s.children, i, Apply(s, step).children[i]);
    case ChildForgotten(i) => OneChildGrows(s.children, i, Apply(s, step).children[i]);
    case _ =>
  }

  lemma OneMoreCounted(children: seq<Child>, stats: Stats, verdicts: seq<Option<R.Status>>, verdict: Option<R.Status>)
    requires Counted(children, stats, verdicts) && |verdicts| < |children| && Honest(children[|verdicts|], verdict)
    ensures Counted(children, Tallied(stats, verdict), verdicts + [verdict])
  {
    hide Honest;
    var after := verdicts + [verdict];
    assert after[..|after| - 1] == verdicts;
  }

  lemma PassKeeps(s: State, turn: Turn, verdict: Option<R.Status>)
    requires TurnInv(s, turn) && ParentInv(s) && |turn.verdicts| < |s.children|
    requires Honest(s.children[|turn.verdicts|], verdict)
    requires verdict.Some? || (!turn.flag && !R.Terminal(s.children[|turn.verdicts|].status))
    ensures TurnInv(s, Passed(turn, verdict).turn)
  {
    hide CountOf;
    var i := |turn.verdicts|;
    OneMoreCounted(s.children, turn.tally, turn.verdicts, verdict);
    assert |s.last| > i && s.last[i].Some? ==> Honest(s.children[i], s.last[i]);
  }

  lemma {:induction false} CountsAddUp(verdicts: seq<Option<R.Status>>)
    requires forall i :: 0 <= i < |verdicts| && verdicts[i].Some? ==> R.Terminal(verdicts[i].value)
    ensures var total := CountOf(verdicts, Some(R.Completed)) + CountOf(verdicts, Some(R.Failed)) + CountOf(verdicts, Some(R.Cancelled));
      total <= |verdicts| && (total == |verdicts| <==> AllSome(verdicts))
  {
    if verdicts != [] {
      CountsAddUp(verdicts[..|verdicts| - 1]);
    }
  }

  lemma {:induction false} MoreCounted(last: seq<Option<R.Status>>, verdicts: seq<Option<R.Status>>)
    requires |last| == |verdicts| && NotLosing(last, verdicts)
    requires forall i :: 0 <= i < |last| && last[i].Some? ==> R.Terminal(last[i].value)
    requires forall i :: 0 <= i < |last| && verdicts[i].Some? ==> R.Terminal(verdicts[i].value)
    ensures CountOf(last, Some(R.Completed)) + CountOf(last, Some(R.Failed)) + CountOf(last, Some(R.Cancelled))
         <= CountOf(verdicts, Some(R.Completed)) + CountOf(verdicts, Some(R.Failed)) + CountOf(verdicts, Some(R.Cancelled))
  {
    if last != [] {
      MoreCounted(last[..|last| - 1], verdicts[..|last| - 1]);
    }
  }

  lemma HonestIsTerminal(s: State, stats: Stats, verdicts: seq<Option<R.Status>>)
    requires Counted(s.children, stats, verdicts)
    ensures forall i :: 0 <= i < |verdicts| && verdicts[i].Some? ==> R.Terminal(verdicts[i].value)
  {
    forall i | 0 <= i < |verdicts| && verdicts[i].Some? ensures R.Terminal(verdicts[i].value) {
      assert Honest(s.children[i], verdicts[i]);
    }
  }

  /** A whole turn counts at least as many children as the latest report, and all of them if it
      saw the cancellation. */
  lemma WholeTurnCounts(s: State, turn: Turn)
    requires TurnInv(s, turn) && |turn.verdicts| == |s.children|
    requires Counted(s.children, s.parent.stats, s.last) && (s.last == [] || |s.last| == |s.children|)
    ensures Finished(s.parent.stats) <= Finished(turn.tally)
    ensures Over(s, turn) <==> AllSome(turn.verdicts)
  {
    HonestIsTerminal(s, turn.tally, turn.verdicts);
    HonestIsTerminal(s, s.parent.stats, s.last);
    CountsAddUp(turn.verdicts);
    if s.last != [] {
      MoreCounted(s.last, turn.verdicts);
    }
  }

  lemma ReportKeeps(s: State, now: R.Time)
    requires Inv(s) && Enabled(s, Report(now))
    ensures Inv(Apply(s, Report(now)))
    ensures Finished(s.parent.stats) <= Finished(Apply(s, Report(now)).parent.stats)
  {
    WholeTurnCounts(s, s.loop.turn);
  }

  lemma LoopStep(s: State, step: Step)
    requires Inv(s) && Enabled(s, step)
    requires step.Look? || step.Visit? || step.Settle? || step.Count? || step.Return?
    ensures Inv(Apply(s, step)) && Apply(s, step).parent == s.parent
  {
    var s' := Apply(s, step);
    ChildrenGrow(s, step);
    GrownKeepsCounted(s.children, s'.children, s.parent.stats, s.last);
    match step
    case Look =>
    case Visit =>
      if !s.children[Position(s.loop)].stored {
        PassKeeps(s, s.loop.turn, Some(R.Cancelled));
      }
    case Settle => GrownKeepsCounted(s.children, s'.children, s.loop.turn.tally, s.loop.turn.verdicts);
    case Count =>
      var status := s.children[Position(s.loop)].status;
      PassKeeps(s, s.loop.turn, if R.Terminal(status) then Some(status) else None);
    case Return =>
  }

  /** A step neither of the loop nor a report. */
  predicate IsOther(step: Step) {
    !step.Look? && !step.Visit? && !step.Settle? && !step.Count? && !step.Return? && !step.Report?
  }

  /** What such a step leaves alone. */
  ghost predicate Beside(s: State, s': State) {
    && s'.loop == s.loop && s'.last == s.last && (s.cancelled ==> s'.cancelled)
    && s'.parent.stats == s.parent.stats.(admitted := s'.parent.stats.admitted)
    && (R.Terminal(s.parent.status) ==> s'.parent.status == s.parent.status && s'.parent.completedAt == s.parent.completedAt)
    && (s.admission.Closed? ==> s'.admission.Closed?)
    && AdmissionInv(s'.admission, s'.parent.stats.admitted, |s'.children|)
  }

  lemma OtherFrame(s: State, step: Step)
    requires AdmissionInv(s.admission, s.parent.stats.admitted, |s.children|) && Enabled(s, step) && IsOther(step)
    ensures Beside(s, Apply(s, step))
  {
  }

  lemma BesideKeepsLoop(s: State, s': State)
    requires Inv(s) && Beside(s, s') && Grown(s.children, s'.children)
    ensures LoopInv(s')
  {
    hide Counted, AllSome, NotLosing;
    if s.loop.Scanning? || s.loop.Found? || s.loop.Settled? {
      GrownKeepsCounted(s.children, s'.children, s.loop.turn.tally, s.loop.turn.verdicts);
    }
  }

  lemma BesideKeepsParent(s: State, s': State)
    requires ParentInv(s) && Beside(s, s') && Grown(s.children, s'.children)
    ensures ParentInv(s')
  {
    GrownKeepsCounted(s.children, s'.children, s.parent.stats, s.last);
    StatsAlike(s'.children, s.parent.stats, s'.parent.stats, s.last);
  }

  lemma StatsAlike(children: seq<Child>, stats: Stats, stats': Stats, verdicts: seq<Option<R.Status>>)
    requires Counted(children, stats, verdicts) && stats' == stats.(admitted := stats'.admitted)
    ensures Counted(children, stats', verdicts)
  {
  }

  lemma OtherStep(s: State, step: Step)
    requires Inv(s) && Enabled(s, step) && IsOther(step)
    ensures Inv(Apply(s, step)) && Beside(s, Apply(s, step))
  {
    hide LoopInv, Beside, Grown, Apply, Enabled, Counted;
    ChildrenGrow(s, step);
    OtherFrame(s, step);
    BesideKeepsLoop(s, Apply(s, step));
    BesideKeepsParent(s, Apply(s, step));
  }

  /** The loop is past its last report. */
  predicate Concluded(s: State) {
    s.loop.Awaiting? || s.loop.Returned?
  }

  ghost predicate Kept(s: State, s': State) {
    && |s'.children| == |s.children|
    && Finished(s.parent.stats) <= Finished(s'.parent.stats)
    && (Concluded(s) ==> Concluded(s') && s'.parent.status == s.parent.status && s'.parent.completedAt == s.parent.completedAt)
    && (s.loop.Returned? ==> s'.loop.Returned? && s'.parent.stats == s.parent.stats && s'.admission == s.admission)
  }

  lemma OtherIsKept(s: State, step: Step)
    requires LoopInv(s) && Enabled(s, step) && IsOther(step) && Beside(s, Apply(s, step)) && |Apply(s, step).children| == |s.children|
    ensures Kept(s, Apply(s, step))
  {
  }

  lemma LoopIsKept(s: State, step: Step)
    requires Inv(s) && Enabled(s, step) && !IsOther(step) && !step.Report?
    ensures Inv(Apply(s, step)) && Kept(s, Apply(s, step))
  {
    hide LoopInv, ParentInv;
    LoopStep(s, step);
  }

  lemma InvStep(s: State, step: Step)
    requires Inv(s) && Enabled(s, step)
    ensures Inv(Apply(s, step)) && Kept(s, Apply(s, step))
  {
    hide LoopInv, ParentInv, Grown;
    if step.Report? {
      ReportKeeps(s, step.now);
    } else if IsOther(step) {
      OtherStep(s, step);
      SameNumber(s, step);
      OtherIsKept(s, step);
    } else {
      LoopIsKept(s, step);
    }
  }

  lemma SameNumber(s: State, step: Step)
    requires Enabled(s, step)
    ensures |Apply(s, step).children| == |s.children|
  {
  }

  lemma RunStep(run: seq<State>, i: nat)
    requires IsRun(run) && i + 1 < |run| && Inv(run[i])
    ensures Inv(run[i + 1]) && Kept(run[i], run[i + 1])
  {
    assert StepAt(run, i);
    var step :| Enabled(run[i], step) && run[i + 1] == Apply(run[i], step);
    InvStep(run[i], step);
  }

  lemma {:induction false} RunKeepsInv(run: seq<State>, i: nat)
    requires IsRun(run) && i < |run|
    ensures Inv(run[i])
  {
    if i > 0 {
      RunKeepsInv(run, i - 1);
      RunStep(run, i - 1);
    }
  }

  lemma RunKept(run: seq<State>, i: nat)
    requires IsRun(run) && i + 1 < |run|
    ensures Kept(run[i], run[i + 1])
  {
    RunKeepsInv(run, i);
    RunStep(run, i);
  }

  lemma CountsAreBounded(s: State)
    requires Inv(s)
    ensures Finished(s.parent.stats) <= |s.children| && s.parent.stats.admitted <= |s.children|
  {
    HonestIsTerminal(s, s.parent.stats, s.last);
    CountsAddUp(s.last);
  }

  // ---------------------------------------------------------------- theorems

  /** The finished count of the batch never decreases, even while records are being removed. */
  lemma {:induction false} FinishedNeverDecreases(run: seq<State>, i: nat, j: nat)
    requires IsRun(run) && i <= j < |run|
    ensures Finished(run[i].parent.stats) <= Finished(run[j].parent.stats)
    ensures |run[j].children| == |run[i].children|
    decreases j
  {
    if i < j {
      FinishedNeverDecreases(run, i, j - 1);
      RunKept(run, j - 1);
    }
  }

  /** Neither the finished nor the admitted count exceeds the total. */
  lemma CountsStayInRange(run: seq<State>, i: nat)
    requires IsRun(run) && i < |run|
    ensures Finished(run[i].parent.stats) <= |run[i].children|
    ensures run[i].parent.stats.admitted <= |run[i].children|
  {
    RunKeepsInv(run, i);
    CountsAreBounded(run[i]);
  }

  /** When runBatch has returned, every child is terminal, the counts add up to the total, and each
      retained child is counted under its own status. */
  lemma ReturnedBatchIsComplete(run: seq<State>, i: nat)
    requires IsRun(run) && i < |run| && run[i].loop.Returned?
    ensures forall k :: 0 <= k < |run[i].children| ==> R.Terminal(run[i].children[k].status)
    ensures Finished(run[i].parent.stats) == |run[i].children|
    ensures |run[i].last| == |run[i].children|
    ensures forall k :: 0 <= k < |run[i].children| && run[i].children[k].stored ==>
      run[i].last[k] == Some(run[i].children[k].status)
    ensures run[i].parent.stats.completed == CountOf(run[i].last, Some(R.Completed))
    ensures run[i].parent.stats.failed == CountOf(run[i].last, Some(R.Failed))
  {
    RunKeepsInv(run, i);
    var s := run[i];
    HonestIsTerminal(s, s.parent.stats, s.last);
    CountsAddUp(s.last);
    forall k | 0 <= k < |s.children|
      ensures R.Terminal(s.children[k].status)
      ensures s.children[k].stored ==> s.last[k] == Some(s.children[k].status)
    {
      assert Honest(s.children[k], s.last[k]);
    }
  }

  lemma {:induction false} ConclusionLasts(run: seq<State>, i: nat, j: nat)
    requires IsRun(run) && i <= j < |run| && Concluded(run[i])
    ensures Concluded(run[j])
    ensures run[j].parent.status == run[i].parent.status && run[j].parent.completedAt == run[i].parent.completedAt
    ensures run[i].loop.Returned? ==> run[j].loop.Returned? && run[j].parent.stats == run[i].parent.stats
    decreases j
  {
    if i < j {
      ConclusionLasts(run, i, j - 1);
      RunKept(run, j - 1);
    }
  }

  /** From the last report on, the parent is terminal and stays as it is; after the return no child
      is admitted any more. */
  lemma ConclusionIsFinal(run: seq<State>, i: nat, j: nat)
    requires IsRun(run) && i <= j < |run| && Concluded(run[i])
    ensures R.Terminal(run[j].parent.status)
    ensures run[j].parent.status == run[i].parent.status && run[j].parent.completedAt == run[i].parent.completedAt
    ensures run[i].loop.Returned? ==> run[j].admission.Closed? && run[j].parent.stats == run[i].parent.stats
  {
    ConclusionLasts(run, i, j);
    RunKeepsInv(run, j);
  }

  // ---------------------------------------------------------------- what is reported

  lemma {:induction false} CountedIsThere(verdicts: seq<Option<R.Status>>, x: Option<R.Status>)
    ensures CountOf(verdicts, x) > 0 <==> x in verdicts
  {
    if verdicts != [] {
      CountedIsThere(verdicts[..|verdicts| - 1], x);
    }
  }

  /** Every report, in every run: the parent is cancelled if the turn saw the cancellation; otherwise it is
      still downloading exactly if the turn has left a child uncounted, failed exactly if all are counted
      and one has failed, and completed exactly if all are counted and none has. */
  lemma ReportedOutcome(run: seq<State>, i: nat, now: R.Time)
    requires IsRun(run) && i < |run| && Enabled(run[i], Report(now))
    ensures var turn, s' := run[i].loop.turn, Apply(run[i], Report(now));
      var status, uncounted, failed := s'.parent.status, None in turn.verdicts, Some(R.Failed) in turn.verdicts;
      && |turn.verdicts| == |run[i].children| && s'.last == turn.verdicts
      && (status.Cancelled? <==> turn.flag)
      && (status.Downloading? <==> !turn.flag && uncounted)
      && (status.Failed? <==> !turn.flag && !uncounted && failed)
      && (status.Completed? <==> !turn.flag && !uncounted && !failed)
      && (Concluded(s') <==> !status.Downloading?)
  {
    RunKeepsInv(run, i);
    WholeTurnCounts(run[i], run[i].loop.turn);
    CountedIsThere(run[i].loop.turn.verdicts, Some(R.Failed));
  }

  predicate InTurn(loop: Loop) {
    loop.Scanning? || loop.Found? || loop.Settled?
  }

  lemma TurnStep(s: State, step: Step)
    requires Enabled(s, step) && InTurn(Apply(s, step).loop)
    ensures if s.loop.Top? then Apply(s, step).loop.turn.flag == s.cancelled
            else InTurn(s.loop) && Apply(s, step).loop.turn.flag == s.loop.turn.flag
  {
  }

  /** What a turn takes for the cancellation is the parent's context at the turn's beginning. */
  lemma {:induction false} TurnSawContext(run: seq<State>, i: nat) returns (j: nat)
    requires IsRun(run) && i < |run| && InTurn(run[i].loop)
    ensures j < i && run[j].loop.Top? && run[i].loop.turn.flag == run[j].cancelled
    ensures forall k :: j < k <= i ==> InTurn(run[k].loop)
    decreases i
  {
    assert i > 0;
    hide Init, Enabled, Apply, InTurn;
    assert StepAt(run, i - 1);
    var step :| Enabled(run[i - 1], step) && run[i] == Apply(run[i - 1], step);
    TurnStep(run[i - 1], step);
    if run[i - 1].loop.Top? {
      j := i - 1;
    } else {
      j := TurnSawContext(run, i - 1);
    }
  }

  /** The parent's outcome follows from the counts of the last turn. */
  ghost predicate OutcomeInv(s: State) {
    Concluded(s) && !s.parent.status.Cancelled? ==>
      && (s.parent.status.Failed? <==> Some(R.Failed) in s.last)
      && (s.parent.status.Completed? <==> Some(R.Failed) !in s.last)
  }

  lemma {:induction false} OutcomeRun(run: seq<State>, i: nat)
    requires IsRun(run) && i < |run|
    ensures OutcomeInv(run[i])
  {
    if i > 0 {
      OutcomeRun(run, i - 1);
      RunKeepsInv(run, i - 1);
      assert StepAt(run, i - 1);
      var step :| Enabled(run[i - 1], step) && run[i] == Apply(run[i - 1], step);
      if step.Report? {
        ReportedOutcome(run, i - 1, step.now);
      } else {
        OutcomeStays(run[i - 1], step);
      }
    }
  }

  lemma OutcomeStays(s: State, step: Step)
    requires OutcomeInv(s) && LoopInv(s) && Enabled(s, step) && !step.Report?
    ensures OutcomeInv(Apply(s, step))
  {
    hide Counted, NotLosing;
  }

  /** A returned batch that was not cancelled has failed exactly if a child was counted as failed, and is
      completed otherwise; a child that is retained was counted as what it is. */
  lemma ReturnedOutcome(run: seq<State>, i: nat)
    requires IsRun(run) && i < |run| && run[i].loop.Returned? && !run[i].parent.status.Cancelled?
    ensures run[i].parent.status.Failed? <==> Some(R.Failed) in run[i].last
    ensures run[i].parent.status.Completed? <==> Some(R.Failed) !in run[i].last
    ensures (exists k :: 0 <= k < |run[i].children| && run[i].children[k].stored && run[i].children[k].status.Failed?) ==>
      run[i].parent.status.Failed?
  {
    OutcomeRun(run, i);
    ReturnedBatchIsComplete(run, i);
    forall k | 0 <= k < |run[i].children| && run[i].children[k].stored && run[i].children[k].status.Failed?
      ensures Some(R.Failed) in run[i].last
    {
      assert run[i].last[k] == Some(R.Failed);
    }
  }

  predicate Waits(s: State, k: nat)
    requires k < |s.children|
  {
    s.children[k].stored && s.children[k].status.WaitingForCapacity?
  }

  /** The children that have been admitted and noted no longer wait for capacity, unless they are gone. */
  ghost predicate NotWaiting(s: State) {
    forall k :: 0 <= k < |s.children| && Waits(s, k) ==>
      && (s.admission.Offering? || s.admission.Accepted? ==> k >= s.admission.k)
      && (s.admission.Noted? ==> k > s.admission.k)
  }

  lemma NotWaitingStays(s: State, step: Step)
    requires NotWaiting(s) && Enabled(s, step)
    ensures NotWaiting(Apply(s, step))
  {
    hide Apply, Enabled;
    forall k | 0 <= k < |Apply(s, step).children| && Waits(Apply(s, step), k)
      ensures k < |s.children| && Waits(s, k) && (step.NoteChild? ==> s.admission.Accepted? && k != s.admission.k)
    {
      WaitsBefore(s, step, k);
    }
    AdmissionMoves(s, step);
  }

  lemma WaitsBefore(s: State, step: Step, k: nat)
    requires Enabled(s, step) && k < |Apply(s, step).children| && Waits(Apply(s, step), k)
    ensures k < |s.children| && Waits(s, k) && (step.NoteChild? ==> s.admission.Accepted? && k != s.admission.k)
  {
    hide Finished, Over, Verdict, Tallied;
  }

  lemma AdmissionMoves(s: State, step: Step)
    requires Enabled(s, step)
    ensures var a, a' := s.admission, Apply(s, step).admission;
      || a' == a || a'.Closed? || (step.Accept? && a.Offering? && a' == Accepted(a.k))
      || (step.NoteChild? && a.Accepted? && a' == Noted(a.k)) || (step.CountAdmitted? && a.Noted? && a' == Offering(a.k + 1))
  {
    hide Finished, Over, Verdict, Tallied;
  }

  lemma {:induction false} AdmittedIsQueued(run: seq<State>, i: nat)
    requires IsRun(run) && i < |run|
    ensures NotWaiting(run[i])
  {
    if i > 0 {
      AdmittedIsQueued(run, i - 1);
      assert StepAt(run, i - 1);
      var step :| Enabled(run[i - 1], step) && run[i] == Apply(run[i - 1], step);
      NotWaitingStays(run[i - 1], step);
    }
  }

  /** What the turn makes of a child: one that has left the store counts as cancelled, any other as what it
      has become, or not yet. */
  lemma VerdictIs(s: State, step: Step)
    requires Enabled(s, step) && (step.Visit? || step.Count?)
    ensures var i, s' := Position(s.loop), Apply(s, step);
      if step.Visit? && s.children[i].stored then s'.loop == Found(s.loop.turn)
      else
        && s'.loop.Scanning? && s'.loop.turn.flag == s.loop.turn.flag
        && s'.loop.turn.verdicts == s.loop.turn.verdicts +
             [if step.Visit? then Some(R.Cancelled)
              else if R.Terminal(s.children[i].status) then Some(s.children[i].status) else None]
  {
  }

  // ---------------------------------------------------------------- progress

  /** How many steps the admission goroutine has still to make. */
  function AdmissionLeft(a: Admission, n: nat): int {
    match a
    case Offering(k) => 3 * (n - k) + 1
    case Accepted(k) => 3 * (n - k)
    case Noted(k) => 3 * (n - k) - 1
    case Closed => 0
  }

  /** How many steps the loop has still to make in its turn. */
  function TurnLeft(loop: Loop, n: nat): int {
    match loop
    case Scanning(turn) => 3 * (n - |turn.verdicts|) + 1
    case Found(turn) => 3 * (n - |turn.verdicts|)
    case Settled(turn) => 3 * (n - |turn.verdicts|) - 1
    case _ => 0
  }

  predicate IsAdmission(step: Step) {
    step.Accept? || step.Refuse? || step.Finish? || step.NoteChild? || step.CountAdmitted?
  }

  predicate IsTurn(step: Step) {
    step.Visit? || step.Settle? || step.Count? || step.Report?
  }

  /** The admission goroutine ends after at most three steps for each child and one more, a turn of the loop
      likewise, and nobody holds them up: in every reachable state each step of its own brings either
      nearer to its end, and others' steps leave it where it is. */
  lemma OwnStepsProgress(run: seq<State>, i: nat, step: Step)
    requires IsRun(run) && i < |run| && Enabled(run[i], step)
    ensures var s, s', n := run[i], Apply(run[i], step), |run[i].children|;
      && 0 <= AdmissionLeft(s.admission, n) <= 3 * n + 1 && 0 <= TurnLeft(s.loop, n) <= 3 * n + 1
      && (if IsAdmission(step) then AdmissionLeft(s'.admission, n) < AdmissionLeft(s.admission, n)
          else s'.admission == s.admission)
      && (if IsTurn(step) then TurnLeft(s'.loop, n) < TurnLeft(s.loop, n)
          else if step.Look? then s'.loop.Scanning?
          else if step.Return? then s'.loop.Returned? else s'.loop == s.loop)
  {
    RunKeepsInv(run, i);
    hide Counted, NotLosing, AllSome;
    if IsAdmission(step) {
      AdmissionProgress(run[i], step);
    } else {
      LoopProgress(run[i], step);
    }
  }

  lemma AdmissionProgress(s: State, step: Step)
    requires AdmissionInv(s.admission, s.parent.stats.admitted, |s.children|) && Enabled(s, step) && IsAdmission(step)
    ensures AdmissionLeft(Apply(s, step).admission, |s.children|) < AdmissionLeft(s.admission, |s.children|)
    ensures Apply(s, step).loop == s.loop
  {
  }

  lemma LoopProgress(s: State, step: Step)
    requires Enabled(s, step) && !IsAdmission(step)
    ensures var s', n := Apply(s, step), |s.children|;
      && s'.admission == s.admission
      && (if IsTurn(step) then TurnLeft(s'.loop, n) < TurnLeft(s.loop, n)
          else if step.Look? then s'.loop.Scanning?
          else if step.Return? then s'.loop.Returned? else s'.loop == s.loop)
  {
  }

  /** The admission goroutine stops before it has offered every child only if the batch was cancelled or
      the pool stopped. */
  ghost predicate StopsForCause(s: State) {
    s.admission.Closed? ==> s.parent.stats.admitted == |s.children| || s.cancelled || s.stopped
  }

  lemma StopsForCauseStep(s: State, step: Step)
    requires StopsForCause(s) && AdmissionInv(s.admission, s.parent.stats.admitted, |s.children|) && Enabled(s, step)
    ensures StopsForCause(Apply(s, step))
  {
    hide Finished, Over, Verdict, Tallied;
  }

  lemma {:induction false} AdmissionStopsForCause(run: seq<State>, i: nat)
    requires IsRun(run) && i < |run|
    ensures StopsForCause(run[i])
  {
    if i > 0 {
      AdmissionStopsForCause(run, i - 1);
      RunKeepsInv(run, i - 1);
      assert StepAt(run, i - 1);
      var step :| Enabled(run[i - 1], step) && run[i] == Apply(run[i - 1], step);
      StopsForCauseStep(run[i - 1], step);
    }
  }

  // ---------------------------------------------------------------- the parent before that

  /** Before the last report only a cancel request makes the parent terminal. */
  ghost predicate ParentEndsByCancelling(s: State) {
    !Concluded(s) && R.Terminal(s.parent.status) ==> s.parent.status.Cancelled? && s.cancelled
  }

  lemma ParentEndStep(s: State, step: Step)
    requires ParentEndsByCancelling(s) && Enabled(s, step)
    ensures ParentEndsByCancelling(Apply(s, step))
  {
  }

  lemma {:induction false} ParentEndRun(run: seq<State>, i: nat)
    requires IsRun(run) && i < |run|
    ensures ParentEndsByCancelling(run[i])
  {
    if i > 0 {
      ParentEndRun(run, i - 1);
      assert StepAt(run, i - 1);
      var step :| Enabled(run[i - 1], step) && run[i] == Apply(run[i - 1], step);
      ParentEndStep(run[i - 1], step);
    }
  }

  /** Terminal statuses are not absorbing for batch parents. A terminal status survives a step exactly
      if the step is no report, or the report of a turn that saw the cancellation; its completion time
      survives exactly if the step is no last report, or one at that very time. The last report always
      writes a completion time, any other one leaves the earlier time beside the status "downloading".
      Before the last report the status in question is "cancelled". */
  lemma TerminalParentSurvivesIff(run: seq<State>, i: nat, step: Step)
    requires IsRun(run) && i < |run| && Enabled(run[i], step) && R.Terminal(run[i].parent.status)
    ensures var s, s' := run[i], Apply(run[i], step);
      && (!Concluded(s) ==> s.parent.status.Cancelled?)
      && (s'.parent.status == s.parent.status <==> !step.Report? || s.loop.turn.flag)
      && (s'.parent.completedAt == s.parent.completedAt <==>
            !step.Report? || !Over(s, s.loop.turn) || s.parent.completedAt == Some(step.now))
      && (step.Report? ==>
            if Over(s, s.loop.turn) then R.Terminal(s'.parent.status) && s'.parent.completedAt == Some(step.now)
            else s'.parent.status.Downloading? && s'.parent.completedAt == s.parent.completedAt)
  {
    ParentEndRun(run, i);
  }

  lemma Extended(run: seq<State>, step: Step, last: State)
    requires IsRun(run) && Enabled(run[|run| - 1], step) && last == Apply(run[|run| - 1], step)
    ensures IsRun(run + [last])
  {
    hide Init, Apply, Enabled;
    var longer := run + [last];
    assert Next(longer[|run| - 1], longer[|run|]);
    forall k: nat
      ensures StepAt(longer, k)
    {
      assert StepAt(run, k);
    }
  }

  /** The start of a batch with one child, whose status is `status` before the first turn. */
  function Single(status: R.Status): State {
    State([Child(status, true)], Parent(R.Queued, None, Stats(0, 0, 0, 0)), false, false, Top, Offering(0), [])
  }

  /** A first turn over the only child, the context fired and the parent marked before its report. */
  lemma CancelledDuringTurn(run: seq<State>, status: R.Status, turn: Turn) returns (longer: seq<State>)
    requires IsRun(run) && run[|run| - 1] == Single(status)
    requires var verdict := if R.Terminal(status) then Some(status) else None;
      turn == Turn(false, Tallied(Stats(0, 0, 0, 0), verdict), [verdict])
    ensures IsRun(longer) && run <= longer
    ensures longer[|longer| - 1] == Marked(status, turn)
  {
    hide IsRun;
    var empty := Turn(false, Stats(0, 0, 0, 0), []);
    var s0 := Single(status);
    var s1 := s0.(loop := Scanning(empty));
    var s2 := s0.(loop := Found(empty));
    var s3 := s0.(loop := Settled(empty));
    var s4 := s0.(loop := Scanning(turn));
    var s5 := s4.(cancelled := true);
    var s6 := s5.(parent := Parent(R.Cancelled, Some(7), Stats(0, 0, 0, 0)));
    longer := run + [s1];
    Extended(run, Look, s1);
    Extended(longer, Visit, s2);
    longer := longer + [s2];
    assert s2.children[0 := Child(status, true)] == s2.children;
    Extended(longer, Settle, s3);
    longer := longer + [s3];
    assert [] + turn.verdicts == turn.verdicts;
    Extended(longer, Count, s4);
    longer := longer + [s4];
    Extended(longer, FireParent, s5);
    longer := longer + [s5];
    Extended(longer, MarkParent(7), s6);
    longer := longer + [s6];
  }

  lemma Begins()
    ensures IsRun([Single(R.WaitingForCapacity)])
  {
  }

  /** The first turn marked as above. */
  function Marked(status: R.Status, turn: Turn): State {
    Single(status).(loop := Scanning(turn), cancelled := true, parent := Parent(R.Cancelled, Some(7), Stats(0, 0, 0, 0)))
  }

  /** The report of a marked turn. */
  lemma MarkedReports(s: State, status: R.Status, turn: Turn) returns (s': State)
    requires s == Marked(status, turn) && |turn.verdicts| == 1 && !turn.flag
    ensures Enabled(s, Report(8)) && s' == Apply(s, Report(8))
    ensures if Finished(turn.tally) == 1 then s'.parent.status == Verdict(turn) && s'.parent.completedAt == Some(8)
            else s'.parent.status.Downloading? && s'.parent.completedAt == Some(7)
  {
    s' := Apply(s, Report(8));
  }

  /** A run whose last report overwrites the cancellation. */
  lemma Overwritten(start: seq<State>, status: R.Status, turn: Turn) returns (run: seq<State>, i: nat)
    requires IsRun(start) && start[|start| - 1] == Single(status)
    requires var verdict := if R.Terminal(status) then Some(status) else None;
      turn == Turn(false, Tallied(Stats(0, 0, 0, 0), verdict), [verdict])
    ensures IsRun(run) && i + 1 < |run|
    ensures run[i].parent.status.Cancelled? && run[i].parent.completedAt == Some(7)
    ensures var parent := run[i + 1].parent;
      if Finished(turn.tally) == 1 then parent.status == Verdict(turn) && parent.completedAt == Some(8)
      else parent.status.Downloading? && parent.completedAt == Some(7)
  {
    hide IsRun, Apply, Enabled;
    run := CancelledDuringTurn(start, status, turn);
    i := |run| - 1;
    var last := MarkedReports(run[i], status, turn);
    Extended(run, Report(8), last);
    run := run + [last];
  }

  /** A run in which a cancel request that comes between the loop's look at the context and its report
      is overwritten with "downloading". */
  lemma CancelledParentGoesBackToDownloading() returns (run: seq<State>, i: nat)
    ensures IsRun(run) && i + 1 < |run|
    ensures run[i].parent.status.Cancelled? && run[i + 1].parent.status.Downloading?
    ensures run[i].parent.completedAt == run[i + 1].parent.completedAt == Some(7)
  {
    hide IsRun;
    Begins();
    run, i := Overwritten([Single(R.WaitingForCapacity)], R.WaitingForCapacity, Turn(false, Stats(0, 0, 0, 0), [None]));
  }

  lemma ChildCompletes()
    ensures var s := Single(R.WaitingForCapacity); var step := ChildMoves(0, R.Completed);
      Enabled(s, step) && Apply(s, step) == Single(R.Completed)
  {
    assert Single(R.WaitingForCapacity).children[0 := Child(R.Completed, true)] == Single(R.Completed).children;
  }

  /** And one in which it is overwritten with "completed" and a later completion time, because the
      turn had counted every child. */
  lemma CancelledParentCompletes() returns (run: seq<State>, i: nat)
    ensures IsRun(run) && i + 1 < |run|
    ensures run[i].parent.status.Cancelled? && run[i + 1].parent.status.Completed?
    ensures run[i].parent.completedAt == Some(7) && run[i + 1].parent.completedAt == Some(8)
  {
    hide IsRun, Apply, Enabled;
    var turn := Turn(false, Stats(0, 1, 0, 0), [Some(R.Completed)]);
    Begins();
    ChildCompletes();
    run := [Single(R.WaitingForCapacity)];
    Extended(run, ChildMoves(0, R.Completed), Single(R.Completed));
    run, i := Overwritten(run + [Single(R.Completed)], R.Completed, turn);
  }

  /** A child that completes and is then removed from the history before the batch has counted it. */
  lemma ForgottenChild(s: State, done: State, gone: State)
    requires s == Single(R.WaitingForCapacity) && done == Single(R.Completed)
    requires gone == done.(children := [Child(R.Completed, false)])
    ensures Enabled(s, ChildMoves(0, R.Completed)) && Apply(s, ChildMoves(0, R.Completed)) == done
    ensures Enabled(done, ChildForgotten(0)) && Apply(done, ChildForgotten(0)) == gone
  {
    ChildCompletes();
  }

  lemma GoneIsCancelled(gone: State, turn: Turn, last: State)
    requires gone == Single(R.Completed).(children := [Child(R.Completed, false)])
    requires turn == Turn(false, Stats(0, 0, 0, 1), [Some(R.Cancelled)])
    requires last == gone.(parent := Parent(R.Completed, Some(8), Stats(0, 0, 0, 1)), loop := Awaiting, last := [Some(R.Cancelled)])
    ensures Enabled(gone, Look) && Enabled(gone.(loop := Scanning(Turn(false, Stats(0, 0, 0, 0), []))), Visit)
    ensures Apply(gone, Look) == gone.(loop := Scanning(Turn(false, Stats(0, 0, 0, 0), [])))
    ensures Apply(gone.(loop := Scanning(Turn(false, Stats(0, 0, 0, 0), []))), Visit) == gone.(loop := Scanning(turn))
    ensures Enabled(gone.(loop := Scanning(turn)), Report(8)) && Apply(gone.(loop := Scanning(turn)), Report(8)) == last
  {
    assert [] + [Some(R.Cancelled)] == [Some(R.Cancelled)];
  }

  /** A run in which a completed child counts as cancelled, because it was removed in between. */
  lemma RemovedChildCountsAsCancelled() returns (run: seq<State>)
    ensures IsRun(run) && run[|run| - 1].loop.Awaiting?
    ensures run[|run| - 1].children == [Child(R.Completed, false)] && run[|run| - 1].parent.stats == Stats(0, 0, 0, 1)
  {
    hide IsRun, Apply, Enabled;
    Begins();
    var s, done := Single(R.WaitingForCapacity), Single(R.Completed);
    var gone := done.(children := [Child(R.Completed, false)]);
    var turn := Turn(false, Stats(0, 0, 0, 1), [Some(R.Cancelled)]);
    var begun := gone.(loop := Scanning(Turn(false, Stats(0, 0, 0, 0), [])));
    var last := gone.(parent := Parent(R.Completed, Some(8), Stats(0, 0, 0, 1)), loop := Awaiting, last := [Some(R.Cancelled)]);
    ForgottenChild(s, done, gone);
    GoneIsCancelled(gone, turn, last);
    run := [s];
    Extended(run, ChildMoves(0, R.Completed), done);
    run := run + [done];
    Extended(run, ChildForgotten(0), gone);
    run := run + [gone];
    Extended(run, Look, begun);
    run := run + [begun];
    Extended(run, Visit, gone.(loop := Scanning(turn)));
    run := run + [gone.(loop := Scanning(turn))];
    Extended(run, Report(8), last);
    run := run + [last];
  }

  /** Stopping the pool ends the admission of a batch that nobody has cancelled, and so does cancelling it. */
  lemma StoppedPoolEndsAdmission(cancelling: bool) returns (run: seq<State>)
    ensures IsRun(run) && var last := run[|run| - 1];
      last.admission.Closed? && last.parent.stats.admitted == 0 && last.cancelled == cancelling && last.stopped == !cancelling
  {
    hide IsRun;
    Begins();
    var s := Single(R.WaitingForCapacity);
    var step := if cancelling then FireParent else StopPool;
    var stopped := if cancelling then s.(cancelled := true) else s.(stopped := true);
    run := [s];
    Extended(run, step, stopped);
    run := run + [stopped];
    Extended(run, Refuse, stopped.(admission := Closed));
    run := run + [stopped.(admission := Closed)];
  }
}
