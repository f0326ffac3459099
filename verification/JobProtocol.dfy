/** One job from acceptance to the end of its worker, interleaved with any number of cancel
    requests, cleanups, history removals and file responses (internal/worker/worker.go,
    internal/handlers/handler_files.go, handler_status.go, handler_results.go). */
module JobProtocol {
  import opened Wrappers
  import Pool
  import R = Record

  /** Where Run stands. */
  datatype Pc =
    | Idle | Entered | HasRecord
    | Locked            // holds FilesMu for reading, context not looked at yet
    | Cleared           // saw a live context
    | DirectoryMade | Started | Prepared | Executing
    | Exited(failed: bool)
    | Bailing           // saw a cancelled context
    | Failing
    | Unlocking | Done

  /** A cancel request or the cancelling turn of a batch: Cancel, then RemoveQueued, then Update. */
  datatype Canceller = Fetched | Fired | Unqueued

  /** HandleCleanupFiles and HandleDeleteDownload: observe a terminal status, then TryLock. */
  datatype Purpose = Clean | Forget

  datatype Remover = Observed(purpose: Purpose) | Holding(purpose: Purpose)

  datatype Reader = Worker | Response(n: nat)

  /** FilesMu. */
  datatype RWLock = RWLock(readers: set<Reader>, writer: Option<nat>)

  /** `cancelled` is the job's context, `stopped` the pool's. `writes` counts the steps in which the
      worker writes to the job's directory, `cleaned` is whether a cleanup has ever held FilesMu. */
  datatype State = State(
    place: Pool.Place,
    pc: Pc,
    fields: R.Fields,
    cancelled: bool,
    stopped: bool,
    stored: bool,
    lock: RWLock,
    cancellers: map<nat, Canceller>,
    removers: map<nat, Remover>,
    writes: nat,
    cleaned: bool)

  datatype WorkerStep =
    | Dispatch | Lookup | WorkerLock | CheckContext | Bail(now: R.Time)
    | MakeDirectory(ok: bool) | Begin(now: R.Time) | BuildFails | Fail(now: R.Time) | Prepare
    | Launch(ok: bool) | WriteFile | ReadLine(line: R.Line, now: R.Time) | ProcessEnds(failed: bool)
    | Conclude(now: R.Time, timedOut: bool) | WorkerUnlock | Retire

  datatype CancelStep = Fetch | Fire | Unqueue | Mark(now: R.Time)

  datatype RemoverStep = Observe(purpose: Purpose) | TryLock | ForgetRecord | Unlock

  datatype OtherStep =
    | Move(to: Pool.Place)          // the queue, and the dispatcher up to the hand-over
    | ReadLock(n: nat) | ReadUnlock(n: nat)
    | Admitted | Note | Expire | StopPool

  datatype Step = Work(w: WorkerStep) | Cancel(n: nat, c: CancelStep) | Remove(n: nat, r: RemoverStep) | Other(o: OtherStep)

  predicate WorkerEnabled(s: State, w: WorkerStep) {
    match w
    case Dispatch => s.place.InHand? && s.pc.Idle?
    case Lookup => s.pc.Entered?
    case WorkerLock => s.pc.HasRecord? && s.lock.writer.None?
    case CheckContext => s.pc.Locked?
    case Bail(_) => s.pc.Bailing?
    case MakeDirectory(_) => s.pc.Cleared?
    case Begin(_) => s.pc.DirectoryMade?
    case BuildFails => s.pc.Started?
    case Fail(_) => s.pc.Failing?
    case Prepare => s.pc.Started?
    case Launch(_) => s.pc.Prepared?
    case WriteFile => s.pc.Executing?
    case ReadLine(_, _) => s.pc.Executing? || s.pc.Exited?
    case ProcessEnds(_) => s.pc.Executing?
    case Conclude(_, _) => s.pc.Exited?
    case WorkerUnlock => s.pc.Unlocking?
    case Retire => s.place.Running? && s.pc.Done?
  }

  predicate CancelEnabled(s: State, n: nat, c: CancelStep) {
    match c
    case Fetch => s.stored && n !in s.cancellers
    case Fire => n in s.cancellers && s.cancellers[n].Fetched?
    case Unqueue => n in s.cancellers && s.cancellers[n].Fired?
    case Mark(_) => n in s.cancellers && s.cancellers[n].Unqueued?
  }

  predicate RemoverEnabled(s: State, n: nat, r: RemoverStep) {
    match r
    case Observe(_) => s.stored && R.Terminal(s.fields.status) && n !in s.removers
    case TryLock => n in s.removers && s.removers[n].Observed?
    case ForgetRecord => n in s.removers && s.removers[n] == Holding(Forget)
    case Unlock => n in s.removers && s.removers[n].Holding?
  }

  predicate OtherEnabled(s: State, o: OtherStep) {
    match o
    case Move(to) => Pool.Edge(s.place, to) && !to.Running? && !to.Finished?
    case ReadLock(_) => s.lock.writer.None?
    case ReadUnlock(n) => Response(n) in s.lock.readers
    case Expire => R.Terminal(s.fields.status)
    case Admitted | Note | StopPool => true
  }

  predicate Enabled(s: State, step: Step) {
    match step
    case Work(w) => WorkerEnabled(s, w)
    case Cancel(n, c) => CancelEnabled(s, n, c)
    case Remove(n, r) => RemoverEnabled(s, n, r)
    case Other(o) => OtherEnabled(s, o)
  }

  function Updated(s: State, u: R.Update): State {
    s.(fields := R.Apply(s.fields, u))
  }

  function Dequeued(place: Pool.Place): Pool.Place {
    if place.Queued? then Pool.Removed else place
  }

  function WorkerApply(s: State, w: WorkerStep): State
    requires WorkerEnabled(s, w)
  {
    match w
    case Dispatch => s.(place := Pool.Running, pc := Entered)
    case Lookup => s.(pc := if s.stored then HasRecord else Done)
    case WorkerLock => s.(pc := Locked, lock := s.lock.(readers := s.lock.readers + {Worker}))
    case CheckContext => s.(pc := if s.cancelled then Bailing else Cleared)
    case Bail(now) => Updated(s, R.Update.Cancel(now)).(pc := Unlocking)
    case MakeDirectory(ok) => s.(writes := s.writes + 1, pc := if ok then DirectoryMade else Failing)
    case Begin(now) => Updated(s, R.Update.Start(now)).(pc := Started)
    case BuildFails => s.(pc := Failing)
    case Fail(now) => Updated(s, R.Update.Fail(now)).(pc := Unlocking)
    case Prepare => Updated(s, R.Update.Prepare).(pc := Prepared)
    case Launch(ok) => s.(pc := if ok then Executing else Exited(true))
    case WriteFile => s.(writes := s.writes + 1)
    case ReadLine(line, now) => Updated(s, R.Update.Progress(line, now))
    case ProcessEnds(failed) => s.(pc := Exited(failed))
    case Conclude(now, timedOut) =>
      Updated(s, R.Update.Conclude(now, R.Ending(timedOut, s.stopped || s.cancelled, s.pc.failed))).(pc := Unlocking)
    case WorkerUnlock => s.(pc := Done, lock := s.lock.(readers := s.lock.readers - {Worker}))
    case Retire => s.(place := Pool.Finished)
  }

  function CancelApply(s: State, n: nat, c: CancelStep): State
    requires CancelEnabled(s, n, c)
  {
    match c
    case Fetch => s.(cancellers := s.cancellers[n := Fetched])
    case Fire => s.(cancelled := true, cancellers := s.cancellers[n := Fired])
    case Unqueue => s.(place := Dequeued(s.place), cancellers := s.cancellers[n := Unqueued])
    case Mark(now) => Updated(s, R.Update.Cancel(now)).(cancellers := s.cancellers - {n})
  }

  function RemoverApply(s: State, n: nat, r: RemoverStep): State
    requires RemoverEnabled(s, n, r)
  {
    match r
    case Observe(purpose) => s.(removers := s.removers[n := Observed(purpose)])
    case TryLock =>
      if s.lock == RWLock({}, None) then
        s.(lock := RWLock({}, Some(n)), removers := s.removers[n := Holding(s.removers[n].purpose)],
           cleaned := s.cleaned || s.removers[n].purpose.Clean?)
      else s.(removers := s.removers - {n})
    case ForgetRecord => s.(cancelled := true, place := Dequeued(s.place), stored := false)
    case Unlock => s.(lock := s.lock.(writer := None), removers := s.removers - {n})
  }

  function OtherApply(s: State, o: OtherStep): State
    requires OtherEnabled(s, o)
  {
    match o
    case Move(to) => s.(place := to)
    case ReadLock(n) => s.(lock := s.lock.(readers := s.lock.readers + {Response(n)}))
    case ReadUnlock(n) => s.(lock := s.lock.(readers := s.lock.readers - {Response(n)}))
    case Admitted => Updated(s, R.Update.Admitted)
    case Note => Updated(s, R.Update.Note)
    case Expire => s.(stored := false)
    case StopPool => s.(stopped := true)
  }

  function Apply(s: State, step: Step): State
    requires Enabled(s, step)
  {
    match step
    case Work(w) => WorkerApply(s, w)
    case Cancel(n, c) => CancelApply(s, n, c)
    case Remove(n, r) => RemoverApply(s, n, r)
    case Other(o) => OtherApply(s, o)
  }

  /** A job is stored as queued, or waiting for capacity inside a batch, before it is offered to the queue. */
  ghost predicate Init(s: State) {
    && s.place.Outside? && s.pc.Idle? && s.stored && s.writes == 0
    && !s.cancelled && !s.stopped && !s.cleaned
    && s.lock == RWLock({}, None) && s.cancellers == map[] && s.removers == map[]
    && (s.fields.status.Queued? || s.fields.status.WaitingForCapacity?) && s.fields.completedAt.None?
  }

  ghost predicate Next(s: State, s': State) {
    exists step :: Enabled(s, step) && s' == Apply(s, step)
  }

  ghost predicate StepAt(run: seq<State>, i: nat) {
    i + 1 < |run| ==> Next(run[i], run[i + 1])
  }

  ghost predicate IsRun(run: seq<State>) {
    |run| > 0 && Init(run[0]) && forall i: nat :: StepAt(run, i)
  }

  // ---------------------------------------------------------------- invariant

  predicate HoldsLock(pc: Pc) {
    !pc.Idle? && !pc.Entered? && !pc.HasRecord? && !pc.Done?
  }

  /** The worker has not looked at the job's context yet. */
  predicate BeforeCheck(pc: Pc) {
    pc.Idle? || pc.Entered? || pc.HasRecord? || pc.Locked?
  }

  /** The worker saw a live context and may still write. */
  predicate MayWrite(pc: Pc) {
    pc.Cleared? || pc.DirectoryMade? || pc.Started? || pc.Prepared? || pc.Executing? || pc.Exited? || pc.Failing?
  }

  ghost predicate LockInv(s: State) {
    && (Worker in s.lock.readers <==> HoldsLock(s.pc))
    && (s.lock.writer.Some? ==> s.lock.readers == {})
    && (forall n :: n in s.removers && s.removers[n].Holding? ==> s.lock.writer == Some(n))
  }

  ghost predicate StatusInv(s: State) {
    && R.Consistent(s.fields)
    && (s.fields.status.Completed? ==> s.pc.Unlocking? || s.pc.Done?)
    && (R.Terminal(s.fields.status) && BeforeCheck(s.pc) ==> s.cancelled)
    && (s.pc.Bailing? ==> s.cancelled)
  }

  ghost predicate CancelInv(s: State) {
    forall n :: n in s.cancellers && !s.cancellers[n].Fetched? ==> s.cancelled
  }

  /** Whoever is about to remove files or history observed a terminal status. */
  ghost predicate RemoverInv(s: State) {
    && (s.removers != map[] ==> R.Terminal(s.fields.status))
    && (s.cleaned ==> R.Terminal(s.fields.status) && !MayWrite(s.pc))
    && (forall n :: n in s.removers && s.removers[n] == Holding(Clean) ==> s.cleaned)
  }

  ghost predicate PlaceInv(s: State) {
    && (s.pc.Idle? <==> !s.place.Running? && !s.place.Finished?)
    && (s.place.Finished? ==> s.pc.Done?)
  }

  /** Only finished records leave the store, and no worker returns without a terminal status. */
  ghost predicate EndInv(s: State) {
    !s.stored || s.pc.Unlocking? || s.pc.Done? ==> R.Terminal(s.fields.status)
  }

  ghost predicate Inv(s: State) {
    LockInv(s) && StatusInv(s) && CancelInv(s) && RemoverInv(s) && PlaceInv(s) && EndInv(s)
  }

  /** What every step keeps besides the invariant: a terminal outcome, the order of places, and,
      once a cleanup has held FilesMu, the contents of the directory as far as the worker goes. */
  ghost predicate Kept(s: State, s': State) {
    && (R.Terminal(s.fields.status) ==>
          s'.fields.status == s.fields.status && s'.fields.completedAt == s.fields.completedAt)
    && Pool.Edge(s.place, s'.place)
    && (s.cleaned ==> s'.cleaned && s'.writes == s.writes)
  }

  /** A terminal outcome is not changed. */
  ghost predicate OutcomeKept(f: R.Fields, f': R.Fields) {
    R.Terminal(f.status) ==> f'.status == f.status && f'.completedAt == f.completedAt
  }

  /** No update of the worker's but a conclusion over a completed record changes a terminal outcome. */
  lemma UpdateKeepsOutcome(f: R.Fields, u: R.Update)
    requires R.Consistent(f) && (u.Conclude? ==> !f.status.Completed?)
    ensures R.Consistent(R.Apply(f, u)) && OutcomeKept(f, R.Apply(f, u))
    ensures R.Apply(f, u).status.Completed? ==> f.status.Completed? || u.Conclude?
    ensures u.Conclude? || u.Cancel? || u.Fail? ==> R.Terminal(R.Apply(f, u).status)
  {
  }

  function UpdateOf(s: State, w: WorkerStep): Option<R.Update>
    requires WorkerEnabled(s, w)
  {
    match w
    case Bail(now) => Some(R.Update.Cancel(now))
    case Begin(now) => Some(R.Update.Start(now))
    case Fail(now) => Some(R.Update.Fail(now))
    case Prepare => Some(R.Update.Prepare)
    case ReadLine(line, now) => Some(R.Update.Progress(line, now))
    case Conclude(now, timedOut) => Some(R.Update.Conclude(now, R.Ending(timedOut, s.stopped || s.cancelled, s.pc.failed)))
    case _ => None
  }

  lemma WorkerUpdates(s: State, w: WorkerStep)
    requires WorkerEnabled(s, w)
    ensures WorkerApply(s, w).fields == if UpdateOf(s, w).Some? then R.Apply(s.fields, UpdateOf(s, w).value) else s.fields
  {
    hide R.Apply;
    assert {} + {Worker} == {Worker} && {Worker} - {Worker} == {};
  }

  lemma WorkerFields(s: State, w: WorkerStep)
    requires StatusInv(s) && EndInv(s) && WorkerEnabled(s, w)
    ensures var s' := WorkerApply(s, w); StatusInv(s') && EndInv(s') && OutcomeKept(s.fields, s'.fields)
  {
    hide R.Apply, R.Consistent;
    WorkerUpdates(s, w);
    if UpdateOf(s, w).Some? {
      UpdateKeepsOutcome(s.fields, UpdateOf(s, w).value);
    }
  }

  lemma WorkerLocks(s: State, w: WorkerStep)
    requires LockInv(s) && PlaceInv(s) && WorkerEnabled(s, w)
    ensures LockInv(WorkerApply(s, w)) && PlaceInv(WorkerApply(s, w))
    ensures Pool.Edge(s.place, WorkerApply(s, w).place)
  {
    hide R.Apply;
    assert {} + {Worker} == {Worker} && {Worker} - {Worker} == {};
  }

  /** It begins to write only after it saw a live context. */
  lemma WorkerWrites(s: State, w: WorkerStep)
    requires WorkerEnabled(s, w)
    ensures WorkerApply(s, w).writes == s.writes || MayWrite(s.pc)
    ensures MayWrite(WorkerApply(s, w).pc) ==> MayWrite(s.pc) || (s.pc.Locked? && !s.cancelled)
  {
    hide R.Apply;
    assert {} + {Worker} == {Worker} && {Worker} - {Worker} == {};
  }

  lemma WorkerOthers(s: State, w: WorkerStep)
    requires RemoverInv(s) && CancelInv(s) && StatusInv(s) && WorkerEnabled(s, w)
    requires OutcomeKept(s.fields, WorkerApply(s, w).fields)
    ensures RemoverInv(WorkerApply(s, w)) && CancelInv(WorkerApply(s, w))
    ensures s.cleaned ==> WorkerApply(s, w).cleaned && WorkerApply(s, w).writes == s.writes
  {
    WorkerWrites(s, w);
  }

  lemma WorkerKeeps(s: State, w: WorkerStep)
    requires Inv(s) && WorkerEnabled(s, w)
    ensures Inv(WorkerApply(s, w)) && Kept(s, WorkerApply(s, w))
  {
    hide LockInv, PlaceInv, RemoverInv, CancelInv, StatusInv, EndInv, WorkerApply;
    WorkerFields(s, w);
    WorkerLocks(s, w);
    WorkerOthers(s, w);
  }

  lemma CancelKeeps(s: State, n: nat, c: CancelStep)
    requires Inv(s) && CancelEnabled(s, n, c)
    ensures Inv(CancelApply(s, n, c)) && Kept(s, CancelApply(s, n, c))
  {
  }

  lemma RemoverLocks(s: State, n: nat, r: RemoverStep)
    requires LockInv(s) && RemoverEnabled(s, n, r)
    ensures LockInv(RemoverApply(s, n, r))
  {
  }

  lemma RemoverObserves(s: State, n: nat, r: RemoverStep)
    requires LockInv(s) && StatusInv(s) && RemoverInv(s) && RemoverEnabled(s, n, r)
    ensures RemoverInv(RemoverApply(s, n, r))
  {
    if r.TryLock? && s.lock == RWLock({}, None) {
      assert !HoldsLock(s.pc);
    }
  }

  lemma RemoverKeeps(s: State, n: nat, r: RemoverStep)
    requires Inv(s) && RemoverEnabled(s, n, r)
    ensures Inv(RemoverApply(s, n, r)) && Kept(s, RemoverApply(s, n, r))
  {
    hide LockInv, RemoverInv, StatusInv;
    RemoverLocks(s, n, r);
    RemoverObserves(s, n, r);
    RemoverRest(s, n, r);
  }

  lemma RemoverRest(s: State, n: nat, r: RemoverStep)
    requires RemoverInv(s) && StatusInv(s) && CancelInv(s) && PlaceInv(s) && EndInv(s) && RemoverEnabled(s, n, r)
    ensures var s' := RemoverApply(s, n, r);
      StatusInv(s') && CancelInv(s') && PlaceInv(s') && EndInv(s') && Kept(s, s')
  {
    assert s.removers == map[] || R.Terminal(s.fields.status);
  }

  lemma OtherKeeps(s: State, o: OtherStep)
    requires Inv(s) && OtherEnabled(s, o)
    ensures Inv(OtherApply(s, o)) && Kept(s, OtherApply(s, o))
  {
  }

  lemma InvStep(s: State, step: Step)
    requires Inv(s) && Enabled(s, step)
    ensures Inv(Apply(s, step)) && Kept(s, Apply(s, step))
  {
    match step
    case Work(w) => WorkerKeeps(s, w);
    case Cancel(n, c) => CancelKeeps(s, n, c);
    case Remove(n, r) => RemoverKeeps(s, n, r);
    case Other(o) => OtherKeeps(s, o);
  }

  /** The facts about one step of a run. */
  lemma RunStep(run: seq<State>, i: nat)
    requires IsRun(run) && i + 1 < |run| && Inv(run[i])
    ensures Inv(run[i + 1]) && Kept(run[i], run[i + 1])
  {
    assert StepAt(run, i);
    var step :| Enabled(run[i], step) && run[i + 1] == Apply(run[i], step);
    InvStep(run[i], step);
  }

  lemma {:induction false} RunKeepsInv(run: seq<State>, i: nat)
    requires IsRun(run) && i < |run|
    ensures Inv(run[i])
  {
    if i > 0 {
      RunKeepsInv(run, i - 1);
      RunStep(run, i - 1);
    }
  }

  // ---------------------------------------------------------------- theorems

  /** A cleanup holds FilesMu. */
  ghost predicate CleanupHolds(s: State) {
    exists n :: n in s.removers && s.removers[n] == Holding(Clean)
  }

  lemma {:induction false} CleanedStopsWrites(run: seq<State>, i: nat, j: nat)
    requires IsRun(run) && i <= j < |run| && run[i].cleaned
    ensures run[j].cleaned && run[j].writes == run[i].writes
    decreases j
  {
    if i < j {
      CleanedStopsWrites(run, i, j - 1);
      RunKeepsInv(run, j - 1);
      RunStep(run, j - 1);
    }
  }

  /** Once a cleanup has acquired FilesMu, the worker of that job never writes to the directory
      again: neither while the cleanup holds the lock nor at any later time. */
  lemma NoWriteAfterCleanup(run: seq<State>, i: nat, j: nat)
    requires IsRun(run) && i <= j < |run| && CleanupHolds(run[i])
    ensures run[j].writes == run[i].writes
  {
    RunKeepsInv(run, i);
    CleanedStopsWrites(run, i, j);
  }

  /** Terminal statuses are absorbing for ordinary jobs, together with their completion time. */
  lemma {:induction false} TerminalIsAbsorbing(run: seq<State>, i: nat, j: nat)
    requires IsRun(run) && i <= j < |run| && R.Terminal(run[i].fields.status)
    ensures run[j].fields.status == run[i].fields.status
    ensures run[j].fields.completedAt == run[i].fields.completedAt
    decreases j
  {
    if i < j {
      TerminalIsAbsorbing(run, i, j - 1);
      RunKeepsInv(run, j - 1);
      RunStep(run, j - 1);
    }
  }

  lemma CompletedAtIffTerminal(run: seq<State>, i: nat)
    requires IsRun(run) && i < |run|
    ensures run[i].fields.completedAt.Some? <==> R.Terminal(run[i].fields.status)
  {
    RunKeepsInv(run, i);
  }

  /** The worker holds FilesMu whenever it may write, so no remover holds it then. */
  lemma WriterExcludesRemovers(run: seq<State>, i: nat)
    requires IsRun(run) && i < |run| && MayWrite(run[i].pc)
    ensures Worker in run[i].lock.readers && run[i].lock.writer.None?
    ensures forall n :: n in run[i].removers ==> !run[i].removers[n].Holding?
    ensures !run[i].fields.status.Completed?
  {
    RunKeepsInv(run, i);
  }

  /** A worker that has returned leaves a terminal status, and it keeps it. */
  lemma ReturnedWorkerIsTerminal(run: seq<State>, i: nat, j: nat)
    requires IsRun(run) && i <= j < |run| && run[i].pc.Done?
    ensures R.Terminal(run[j].fields.status) && run[j].fields.status == run[i].fields.status
  {
    RunKeepsInv(run, i);
    TerminalIsAbsorbing(run, i, j);
  }

  // ---------------------------------------------------------------- outcomes

  /** The worker concludes without a time-out, and nobody has cancelled the job or stopped the pool. */
  predicate ConcludesUndisturbed(s: State, step: Step) {
    step.Work? && step.w.Conclude? && !step.w.timedOut && !s.cancelled && !s.stopped
  }

  predicate Fails(s: State, step: Step) {
    || (step.Work? && (step.w.Fail? || (step.w.ReadLine? && step.w.line.Error?)))
    || (step.Work? && step.w.Conclude? && step.w.timedOut)
    || (ConcludesUndisturbed(s, step) && s.pc == Exited(true))
  }

  predicate Cancels(s: State, step: Step) {
    || (step.Work? && step.w.Bail?) || (step.Cancel? && step.c.Mark?)
    || (step.Work? && step.w.Conclude? && !step.w.timedOut && (s.cancelled || s.stopped))
  }

  /** The step by which a job ends says how it ends, whatever else goes on. It is completed exactly by a
      worker whose process has ended without failure, in time and with neither the job cancelled nor the
      pool stopped; failed exactly by an error line, a failure before the process, a time-out, or a
      failure of the process that nobody's cancelling explains; cancelled in the remaining cases. */
  lemma OutcomeIs(run: seq<State>, i: nat, step: Step)
    requires IsRun(run) && i < |run| && Enabled(run[i], step)
    requires !R.Terminal(run[i].fields.status) && R.Terminal(Apply(run[i], step).fields.status)
    ensures var status := Apply(run[i], step).fields.status;
      && (status.Completed? <==> ConcludesUndisturbed(run[i], step) && run[i].pc == Exited(false))
      && (status.Failed? <==> Fails(run[i], step))
      && (status.Cancelled? <==> Cancels(run[i], step))
  {
    hide WorkerApply, WorkerEnabled, ConcludesUndisturbed, Fails, Cancels;
    if step.Work? {
      WorkerOutcome(run[i], step.w);
    } else {
      OthersOutcome(run[i], step);
    }
  }

  lemma WorkerOutcome(s: State, w: WorkerStep)
    requires WorkerEnabled(s, w) && !R.Terminal(s.fields.status) && R.Terminal(WorkerApply(s, w).fields.status)
    ensures var status := WorkerApply(s, w).fields.status;
      && (status.Completed? <==> ConcludesUndisturbed(s, Work(w)) && s.pc == Exited(false))
      && (status.Failed? <==> Fails(s, Work(w)))
      && (status.Cancelled? <==> Cancels(s, Work(w)))
  {
    hide WorkerApply;
    WorkerUpdates(s, w);
  }

  lemma OthersOutcome(s: State, step: Step)
    requires Enabled(s, step) && !step.Work? && !R.Terminal(s.fields.status) && R.Terminal(Apply(s, step).fields.status)
    ensures Apply(s, step).fields.status.Cancelled? && step.Cancel? && step.c.Mark?
    ensures !ConcludesUndisturbed(s, step) && !Fails(s, step) && Cancels(s, step)
  {
    hide CancelApply, CancelEnabled, RemoverApply, RemoverEnabled, OtherApply, OtherEnabled;
    match step {
      case Cancel(n, c) => CancelOutcome(s, n, c);
      case Remove(n, r) => RemoverKeepsFields(s, n, r);
      case Other(o) => OtherOutcome(s, o);
    }
  }

  lemma CancelOutcome(s: State, n: nat, c: CancelStep)
    requires CancelEnabled(s, n, c) && !R.Terminal(s.fields.status) && R.Terminal(CancelApply(s, n, c).fields.status)
    ensures CancelApply(s, n, c).fields.status.Cancelled? && c.Mark?
  {
  }

  lemma RemoverKeepsFields(s: State, n: nat, r: RemoverStep)
    requires RemoverEnabled(s, n, r)
    ensures RemoverApply(s, n, r).fields == s.fields
  {
  }

  lemma OtherOutcome(s: State, o: OtherStep)
    requires OtherEnabled(s, o) && !R.Terminal(s.fields.status)
    ensures !R.Terminal(OtherApply(s, o).fields.status)
  {
  }

  /** A worker's conclusion always leaves a terminal status, with a completion time. */
  lemma ConclusionEnds(run: seq<State>, i: nat, now: R.Time, timedOut: bool)
    requires IsRun(run) && i < |run| && run[i].pc.Exited?
    ensures var s' := Apply(run[i], Work(Conclude(now, timedOut)));
      && R.Terminal(s'.fields.status) && s'.fields.completedAt.Some?
      && (!R.Terminal(run[i].fields.status) ==> s'.fields.completedAt == Some(now))
  {
    RunKeepsInv(run, i);
    InvStep(run[i], Work(Conclude(now, timedOut)));
  }

  /** A job is only reported as cancelled if somebody cancelled it or the pool was stopped. */
  lemma {:induction false} CancelledHasCause(run: seq<State>, i: nat)
    requires IsRun(run) && i < |run| && run[i].fields.status.Cancelled?
    ensures run[i].cancelled || run[i].stopped
    decreases i
  {
    if i > 0 {
      RunKeepsInv(run, i - 1);
      assert StepAt(run, i - 1);
      var step :| Enabled(run[i - 1], step) && run[i] == Apply(run[i - 1], step);
      hide Enabled, Apply;
      CausesStay(run[i - 1], step);
      if R.Terminal(run[i - 1].fields.status) {
        TerminalIsAbsorbing(run, i - 1, i);
        CancelledHasCause(run, i - 1);
      } else {
        OutcomeIs(run, i - 1, step);
        CancelsHasCause(run, i - 1, step);
      }
    }
  }

  lemma CancelsHasCause(run: seq<State>, i: nat, step: Step)
    requires IsRun(run) && i < |run| && Enabled(run[i], step) && Cancels(run[i], step)
    ensures run[i].cancelled || run[i].stopped
  {
    RunKeepsInv(run, i);
  }

  /** Contexts stay cancelled. */
  lemma CausesStay(s: State, step: Step)
    requires Enabled(s, step)
    ensures (s.cancelled ==> Apply(s, step).cancelled) && (s.stopped ==> Apply(s, step).stopped)
  {
    hide R.Apply, WorkerApply, WorkerEnabled;
    if step.Work? {
      WorkerKeepsContexts(s, step.w);
    }
  }

  lemma WorkerKeepsContexts(s: State, w: WorkerStep)
    requires WorkerEnabled(s, w)
    ensures WorkerApply(s, w).cancelled == s.cancelled && WorkerApply(s, w).stopped == s.stopped
  {
    hide R.Apply;
  }

  /** A completed job's process has ended without failure, and at its conclusion there was no time-out, no
      stop of the pool and no cancellation. */
  lemma {:induction false} CompletedHasCause(run: seq<State>, i: nat) returns (j: nat)
    requires IsRun(run) && i < |run| && run[i].fields.status.Completed?
    ensures j < i && run[j].pc == Exited(false) && !run[j].cancelled && !run[j].stopped
    ensures !R.Terminal(run[j].fields.status) && CompletedBy(run[j], run[j + 1])
    decreases i
  {
    assert StepAt(run, i - 1);
    var step :| Enabled(run[i - 1], step) && run[i] == Apply(run[i - 1], step);
    hide Enabled, Apply;
    if R.Terminal(run[i - 1].fields.status) {
      TerminalIsAbsorbing(run, i - 1, i);
      j := CompletedHasCause(run, i - 1);
    } else {
      CompletesBy(run, i - 1, step);
      j := i - 1;
    }
  }

  lemma CompletesBy(run: seq<State>, i: nat, step: Step)
    requires IsRun(run) && i < |run| && Enabled(run[i], step)
    requires !R.Terminal(run[i].fields.status) && Apply(run[i], step).fields.status.Completed?
    ensures run[i].pc == Exited(false) && !run[i].cancelled && !run[i].stopped && CompletedBy(run[i], Apply(run[i], step))
  {
    OutcomeIs(run, i, step);
    hide Enabled, Apply, IsRun;
    assert step == Work(Conclude(step.w.now, false));
  }

  ghost predicate CompletedBy(s: State, s': State) {
    s.pc.Exited? && exists now :: s' == Apply(s, Work(Conclude(now, false)))
  }

  // ---------------------------------------------------------------- progress

  /** How far the worker has come. */
  function Progress(pc: Pc): nat {
    match pc
    case Idle => 0
    case Entered => 1
    case HasRecord => 2
    case Locked => 3
    case Cleared => 4
    case DirectoryMade => 5
    case Started => 6
    case Prepared => 7
    case Executing => 8
    case Exited(_) => 9
    case Bailing => 9
    case Failing => 9
    case Unlocking => 10
    case Done => 11
  }

  /** Each step of the worker brings it nearer to its end, but for the lines it reads and the files it writes
      while its process runs; and each write is counted. */
  lemma WorkerAdvances(s: State, w: WorkerStep)
    requires WorkerEnabled(s, w)
    ensures var s' := WorkerApply(s, w);
      && (if w.WriteFile? || w.ReadLine? || w.Retire? then s'.pc == s.pc else Progress(s'.pc) > Progress(s.pc))
      && s'.writes == s.writes + (if w.WriteFile? || w.MakeDirectory? then 1 else 0)
      && (s'.pc.Executing? && !s.pc.Executing? ==> w == Launch(true))
      && (s'.pc.Exited? && !s.pc.Exited? ==> (w == Launch(false) && s'.pc.failed) || w == ProcessEnds(s'.pc.failed))
      && (w.Dispatch? ==> s'.place.Running?) && (w.Retire? ==> s'.place.Finished?)
  {
    hide R.Apply, LockInv, HoldsLock;
  }

  /** Each state of the run follows from the one before by a step of the worker. */
  ghost predicate WorkersRun(run: seq<State>) {
    forall i :: 0 <= i < |run| - 1 ==> WorkersStep(run[i], run[i + 1])
  }

  /** A worker that nobody disturbs and whose process ends without failure completes its job: it writes to the
      directory, gives the lock back, and leaves the times of its start and its conclusion. */
  lemma CleanRunCompletes(s: State, begun: R.Time, ended: R.Time) returns (run: seq<State>, last: State)
    requires s.pc.Entered? && s.stored && !s.cancelled && !s.stopped && s.lock == RWLock({}, None)
    requires !R.Terminal(s.fields.status) && s.fields.completedAt.None?
    ensures WorkersRun(run) && |run| == 13 && run[0] == s && run[12] == last
    ensures last.pc.Done? && last.lock == RWLock({}, None) && last.writes == s.writes + 2
    ensures last.fields.status.Completed? && last.fields.startedAt == Some(begun) && last.fields.completedAt == Some(ended)
  {
    hide R.Apply, WorkersStep;
    var first, e := FirstHalf(s, begun);
    var second;
    second, last := SecondHalf(e, ended);
    run := first + second;
    CleanFields(s.fields, begun, ended);
  }

  lemma CleanFields(f: R.Fields, begun: R.Time, ended: R.Time)
    requires !R.Terminal(f.status) && f.completedAt.None?
    ensures var conclusion := R.Update.Conclude(ended, R.Ending(false, false, false));
      var g := R.Apply(R.Apply(R.Apply(R.Apply(f, R.Update.Start(begun)), R.Update.Prepare), R.Update.Progress(R.Advancing, ended)), conclusion);
      g.status.Completed? && g.startedAt == Some(begun) && g.completedAt == Some(ended)
  {
  }

  /** One step of the worker. */
  ghost predicate WorkersStep(s: State, s': State) {
    exists w :: WorkerEnabled(s, w) && s' == WorkerApply(s, w)
  }

  lemma ByStep(s: State, w: WorkerStep, s': State)
    requires WorkerEnabled(s, w) && s' == WorkerApply(s, w)
    ensures WorkersStep(s, s')
  {
  }

  /** Up to the start of the process. */
  lemma FirstHalf(s: State, begun: R.Time) returns (run: seq<State>, e: State)
    requires s.pc.Entered? && s.stored && !s.cancelled && s.lock == RWLock({}, None)
    ensures WorkersRun(run) && |run| == 5 && run[0] == s && WorkersStep(run[4], e)
    ensures e == s.(pc := Started, writes := s.writes + 1, lock := RWLock({Worker}, None), fields := R.Apply(s.fields, R.Update.Start(begun)))
  {
    hide R.Apply, WorkersStep;
    var a := s.(pc := HasRecord);
    var b := s.(pc := Locked, lock := RWLock({Worker}, None));
    var c := b.(pc := Cleared);
    var d := c.(pc := DirectoryMade, writes := s.writes + 1);
    e := Updated(d, R.Update.Start(begun)).(pc := Started);
    assert {} + {Worker} == {Worker};
    ByStep(s, Lookup, a);
    ByStep(a, WorkerLock, b);
    ByStep(b, CheckContext, c);
    ByStep(c, MakeDirectory(true), d);
    ByStep(d, Begin(begun), e);
    run := [s, a, b, c, d];
  }

  /** From there to the end. */
  lemma SecondHalf(e: State, ended: R.Time) returns (run: seq<State>, last: State)
    requires e.pc.Started? && !e.cancelled && !e.stopped && e.lock == RWLock({Worker}, None)
    ensures WorkersRun(run) && |run| == 8 && run[0] == e && run[7] == last
    ensures var conclusion := R.Update.Conclude(ended, R.Ending(false, false, false));
      var fields := R.Apply(R.Apply(R.Apply(e.fields, R.Update.Prepare), R.Update.Progress(R.Advancing, ended)), conclusion);
      last == e.(pc := Done, writes := e.writes + 1, lock := RWLock({}, None), fields := fields)
  {
    hide R.Apply, WorkersStep;
    var f := Updated(e, R.Update.Prepare).(pc := Prepared);
    var g := f.(pc := Executing);
    var h := g.(writes := e.writes + 1);
    var i, j, k;
    i, j, k, last := Conclusion(h, ended);
    ByStep(e, Prepare, f);
    ByStep(f, Launch(true), g);
    ByStep(g, WriteFile, h);
    run := [e, f, g, h, i, j, k, last];
  }

  lemma Conclusion(h: State, ended: R.Time) returns (i: State, j: State, k: State, last: State)
    requires h.pc.Executing? && !h.cancelled && !h.stopped && h.lock == RWLock({Worker}, None)
    ensures WorkersStep(h, i) && WorkersStep(i, j) && WorkersStep(j, k) && WorkersStep(k, last)
    ensures var conclusion := R.Update.Conclude(ended, R.Ending(false, false, false));
      last == h.(pc := Done, lock := RWLock({}, None),
                 fields := R.Apply(R.Apply(h.fields, R.Update.Progress(R.Advancing, ended)), conclusion))
  {
    hide R.Apply, WorkersStep;
    i := Updated(h, R.Update.Progress(R.Advancing, ended));
    j := i.(pc := Exited(false));
    k := Updated(j, R.Update.Conclude(ended, R.Ending(false, false, false))).(pc := Unlocking);
    last := k.(pc := Done, lock := RWLock({}, None));
    assert {Worker} - {Worker} == {};
    ByStep(h, ReadLine(R.Advancing, ended), i);
    ByStep(i, ProcessEnds(false), j);
    ByStep(j, Conclude(ended, false), k);
    ByStep(k, WorkerUnlock, last);
  }

  /** A cancel request that is carried through: the context is cancelled, the job is not left in the queue, and
      its status is terminal. */
  lemma CancelRequestWorks(s: State, n: nat, now: R.Time)
    requires s.stored && n !in s.cancellers
    ensures var a := CancelApply(s, n, Fetch);
      && CancelEnabled(s, n, Fetch) && CancelEnabled(a, n, Fire) && var b := CancelApply(a, n, Fire);
      b.cancelled && CancelEnabled(b, n, Unqueue) && var c := CancelApply(b, n, Unqueue);
      !c.place.Queued? && CancelEnabled(c, n, Mark(now)) && var d := CancelApply(c, n, Mark(now));
      && d.cancelled && d.cancellers == s.cancellers && R.Terminal(d.fields.status)
      && (!R.Terminal(s.fields.status) ==> d.fields.status.Cancelled? && d.fields.completedAt == Some(now))
  {
    assert s.cancellers[n := Fetched][n := Fired][n := Unqueued] - {n} == s.cancellers;
  }

  /** A cleanup of a finished job whose files nobody uses gets the lock and gives it back; a removal from the
      history takes the record away with the job's context cancelled. */
  lemma RemoverWorks(s: State, n: nat, purpose: Purpose)
    requires s.stored && R.Terminal(s.fields.status) && n !in s.removers && s.lock == RWLock({}, None)
    ensures var a := RemoverApply(s, n, Observe(purpose));
      RemoverEnabled(s, n, Observe(purpose)) && RemoverEnabled(a, n, TryLock)
    ensures var b := RemoverApply(RemoverApply(s, n, Observe(purpose)), n, TryLock);
      && b.lock == RWLock({}, Some(n)) && n in b.removers && b.removers[n] == Holding(purpose) && (purpose.Clean? ==> b.cleaned)
      && RemoverEnabled(b, n, Unlock)
      && RemoverApply(b, n, Unlock).lock == RWLock({}, None) && RemoverApply(b, n, Unlock).removers == s.removers
    ensures var b := RemoverApply(RemoverApply(s, n, Observe(purpose)), n, TryLock);
      purpose.Forget? ==>
        && RemoverEnabled(b, n, ForgetRecord) && !RemoverApply(b, n, ForgetRecord).stored
        && RemoverApply(b, n, ForgetRecord).cancelled && !RemoverApply(b, n, ForgetRecord).place.Queued?
  {
    assert s.removers[n := Observed(purpose)][n := Holding(purpose)] - {n} == s.removers;
  }

  /** What the other goroutines do: a file response holds the lock for reading and so keeps a cleanup off,
      a child that was waiting becomes queued, a record expires, the pool stops. */
  lemma OthersWork(s: State, n: nat)
    requires s.lock.writer.None?
    ensures var reading := OtherApply(s, ReadLock(n));
      && OtherEnabled(s, ReadLock(n)) && Response(n) in reading.lock.readers && reading.lock != RWLock({}, None)
      && OtherEnabled(reading, ReadUnlock(n)) && Response(n) !in OtherApply(reading, ReadUnlock(n)).lock.readers
    ensures s.fields.status.WaitingForCapacity? ==> OtherApply(s, Admitted).fields.status.Queued?
    ensures OtherApply(s, Note).fields == s.fields.(version := s.fields.version + 1)
    ensures R.Terminal(s.fields.status) ==> OtherEnabled(s, Expire) && !OtherApply(s, Expire).stored
    ensures OtherApply(s, StopPool).stopped
  {
  }

  // ---------------------------------------------------------------- cancelling

  /** The worker will not write any more. */
  predicate WillNotWrite(s: State) {
    s.cancelled && !MayWrite(s.pc)
  }

  lemma WillNotWriteStays(s: State, step: Step)
    requires Enabled(s, step) && WillNotWrite(s)
    ensures WillNotWrite(Apply(s, step)) && Apply(s, step).writes == s.writes
  {
    hide R.Apply, WorkerApply, WorkerEnabled, MayWrite;
    if step.Work? {
      WorkerKeepsContexts(s, step.w);
      WorkerWillNotWrite(s, step.w);
    }
  }

  lemma WorkerWillNotWrite(s: State, w: WorkerStep)
    requires WorkerEnabled(s, w) && s.cancelled && !MayWrite(s.pc)
    ensures !MayWrite(WorkerApply(s, w).pc) && WorkerApply(s, w).writes == s.writes
  {
    hide R.Apply;
  }

  /** A job whose context is cancelled before its worker looks at it never gets anything written to its
      directory. */
  lemma {:induction false} CancelledInTimeNeverWrites(run: seq<State>, i: nat, j: nat)
    requires IsRun(run) && i <= j < |run| && run[i].cancelled && BeforeCheck(run[i].pc)
    ensures WillNotWrite(run[j]) && run[j].writes == run[i].writes
    decreases j
  {
    if i < j {
      CancelledInTimeNeverWrites(run, i, j - 1);
      assert StepAt(run, j - 1);
      var step :| Enabled(run[j - 1], step) && run[j] == Apply(run[j - 1], step);
      WillNotWriteStays(run[j - 1], step);
    }
  }

  /** A cancel request, and a removal from the history, takes a queued job out of the queue, and then it
      is never handed to a worker. */
  lemma RemovedNeverRuns(run: seq<State>, i: nat, j: nat, step: Step)
    requires IsRun(run) && i < j < |run| && Enabled(run[i], step) && run[i + 1] == Apply(run[i], step)
    requires (step.Cancel? && step.c.Unqueue?) || (step.Remove? && step.r.ForgetRecord?)
    requires run[i].place.Queued?
    ensures run[i + 1].place.Removed? && run[j].place.Removed? && run[j].pc.Idle?
  {
    RemovedStays(run, i + 1, j);
    RunKeepsInv(run, j);
  }

  lemma {:induction false} RemovedStays(run: seq<State>, i: nat, j: nat)
    requires IsRun(run) && i <= j < |run| && run[i].place.Removed?
    ensures run[j].place.Removed?
    decreases j
  {
    if i < j {
      RemovedStays(run, i, j - 1);
      RunKeepsInv(run, j - 1);
      RunStep(run, j - 1);
    }
  }

  // ---------------------------------------------------------------- the pool

  /** The step of this protocol by which the pool moves a job. */
  function PoolStep(to: Pool.Place): Step {
    if to.Running? then Work(Dispatch) else if to.Finished? then Work(Retire) else Other(Move(to))
  }

  /** Seen from one job, a run of the pool is a run of the place of this protocol: whenever the pool moves
      the job, the protocol, standing at the same place, has the step that moves it there. The pool lets
      go of a job only when its Run has returned. */
  lemma PoolMovesAreSteps(run: seq<Pool.State>, i: nat, id: Pool.JobId, s: State)
    requires Pool.IsRun(run) && i + 1 < |run| && Inv(s) && s.place == Pool.PlaceOf(run[i], id)
    requires Pool.PlaceOf(run[i + 1], id).Finished? ==> s.pc.Done?
    ensures var to := Pool.PlaceOf(run[i + 1], id);
      to == s.place || (Enabled(s, PoolStep(to)) && Apply(s, PoolStep(to)).place == to)
  {
    Pool.RunFollowsEdges(run, i, id);
  }

  /** A run of this protocol that passes through the places of a job in a run of the pool: it has come to
      position at[i] when the pool has come to i, and in between the job moves only as the pool moves it. */
  ghost predicate Tracks(run: seq<Pool.State>, id: Pool.JobId, jobs: seq<State>, at: seq<nat>) {
    && IsRun(jobs) && |at| == |run| > 0 && at[0] == 0
    && (forall i :: 0 <= i < |run| ==> at[i] < |jobs| && jobs[at[i]].place == Pool.PlaceOf(run[i], id))
    && (forall i :: 0 <= i < |run| - 1 ==> at[i] <= at[i + 1] && Between(run, id, jobs, at, i))
  }

  ghost predicate Between(run: seq<Pool.State>, id: Pool.JobId, jobs: seq<State>, at: seq<nat>, i: nat)
    requires i + 1 < |run| && |at| == |run|
  {
    forall k :: at[i] <= k <= at[i + 1] && k < |jobs| ==>
      jobs[k].place == Pool.PlaceOf(run[i], id) || jobs[k].place == Pool.PlaceOf(run[i + 1], id)
  }

  /** Between which positions of the pool the job's run is at some position of its own. */
  lemma {:induction false} PoolPosition(at: seq<nat>, n: nat, k: nat) returns (i: nat)
    requires n < |at| && at[0] <= k < at[n]
    requires forall i :: 0 <= i < |at| - 1 ==> at[i] <= at[i + 1]
    ensures i < n && at[i] <= k < at[i + 1]
    decreases n
  {
    if at[n - 1] <= k {
      i := n - 1;
    } else {
      i := PoolPosition(at, n - 1, k);
    }
  }

  /** While the worker of a job may write, the pool has it running, in one of at most max slots, at one of
      its two positions around that moment. */
  lemma WriterHoldsASlot(run: seq<Pool.State>, id: Pool.JobId, jobs: seq<State>, at: seq<nat>, k: nat) returns (i: nat)
    requires Pool.IsRun(run) && Tracks(run, id, jobs, at) && k <= at[|run| - 1] && MayWrite(jobs[k].pc)
    ensures i < |run| && id in run[i].running && |run[i].running| <= run[i].slots <= run[i].max
    ensures k == at[i] || (i > 0 && at[i - 1] <= k <= at[i]) || (i + 1 < |run| && at[i] <= k <= at[i + 1])
  {
    RunKeepsInv(jobs, k);
    if k == at[|run| - 1] {
      i := |run| - 1;
    } else {
      var n := PoolPosition(at, |run| - 1, k);
      assert Between(run, id, jobs, at, n);
      i := if Pool.PlaceOf(run[n], id) == jobs[k].place then n else n + 1;
    }
    Pool.ConcurrencyBound(run, i);
  }

  /** The worker begins exactly when the pool hands the job over, and it begins at most once. */
  lemma TrackedJobIsDispatchedOnce(run: seq<Pool.State>, id: Pool.JobId, jobs: seq<State>, at: seq<nat>, k: nat) returns (i: nat)
    requires Pool.IsRun(run) && Tracks(run, id, jobs, at) && k < at[|run| - 1]
    requires jobs[k].pc.Idle? && !jobs[k + 1].pc.Idle?
    ensures i + 1 < |run| && at[i] <= k < at[i + 1]
    ensures Pool.PlaceOf(run[i], id).InHand? && Pool.PlaceOf(run[i + 1], id).Running?
    ensures forall l :: k < l < |jobs| - 1 ==> !(jobs[l].pc.Idle? && !jobs[l + 1].pc.Idle?)
  {
    i := PoolPosition(at, |run| - 1, k);
    assert Between(run, id, jobs, at, i);
    RunKeepsInv(jobs, k);
    RunStep(jobs, k);
    Pool.RunFollowsEdges(run, i, id);
    forall l | k < l < |jobs| - 1
      ensures !jobs[l].pc.Idle?
    {
      WorkerStays(jobs, k + 1, l);
    }
  }

  lemma {:induction false} WorkerStays(run: seq<State>, i: nat, j: nat)
    requires IsRun(run) && i <= j < |run| && !run[i].pc.Idle?
    ensures !run[j].pc.Idle?
    decreases j
  {
    if i < j {
      WorkerStays(run, i, j - 1);
      RunKeepsInv(run, j - 1);
      RunStep(run, j - 1);
      RunKeepsInv(run, j);
    }
  }

  /** Nobody but the worker has anything to do with the job. */
  predicate Alone(s: State) {
    s.stored && !s.cancelled && s.lock == RWLock({}, None) && (s.place.Running? ==> s.pc.Done?)
  }

  lemma Extended(run: seq<State>, step: Step)
    requires IsRun(run) && Enabled(run[|run| - 1], step)
    ensures IsRun(run + [Apply(run[|run| - 1], step)])
  {
    hide Init, Enabled, Apply;
    var longer := run + [Apply(run[|run| - 1], step)];
    assert Next(longer[|run| - 1], longer[|run|]);
    forall i: nat
      ensures StepAt(longer, i)
    {
      assert StepAt(run, i);
    }
  }

  lemma Worked(run: seq<State>, w: WorkerStep)
    requires IsRun(run) && WorkerEnabled(run[|run| - 1], w)
    ensures IsRun(run + [WorkerApply(run[|run| - 1], w)])
  {
    hide WorkerEnabled, WorkerApply, IsRun;
    Extended(run, Work(w));
  }

  /** A worker that has been handed its job can run to its end while nobody else does anything. */
  lemma WorkerRuns(run: seq<State>, s: State) returns (longer: seq<State>)
    requires IsRun(run) && run[|run| - 1] == s && s.pc.Entered? && s.place.Running?
    requires s.stored && !s.cancelled && s.lock == RWLock({}, None)
    ensures IsRun(longer) && run <= longer && longer[|longer| - 1].pc.Done? && Alone(longer[|longer| - 1])
    ensures forall k :: |run| <= k < |longer| ==> longer[k].place.Running?
  {
    hide IsRun, R.Apply;
    Worked(run, Lookup);
    var found := s.(pc := HasRecord);
    Worked(run + [found], WorkerLock);
    var locked := s.(pc := Locked, lock := RWLock({Worker}, None));
    assert {} + {Worker} == {Worker};
    Worked(run + [found] + [locked], CheckContext);
    var cleared := locked.(pc := Cleared);
    longer := WorkerFails(run + [found] + [locked] + [cleared], cleared);
  }

  /** Its directory cannot be made. */
  lemma WorkerFails(run: seq<State>, s: State) returns (longer: seq<State>)
    requires IsRun(run) && run[|run| - 1] == s && s.pc.Cleared? && s.place.Running?
    requires s.stored && !s.cancelled && s.lock == RWLock({Worker}, None)
    ensures IsRun(longer) && run <= longer && longer[|longer| - 1].pc.Done? && Alone(longer[|longer| - 1])
    ensures forall k :: |run| <= k < |longer| ==> longer[k].place.Running?
  {
    hide IsRun, R.Apply;
    Worked(run, MakeDirectory(false));
    var failing := s.(pc := Failing, writes := s.writes + 1);
    Worked(run + [failing], Fail(0));
    var unlocking := Updated(failing, R.Update.Fail(0)).(pc := Unlocking);
    Worked(run + [failing] + [unlocking], WorkerUnlock);
    assert {Worker} - {Worker} == {};
    longer := run + [failing] + [unlocking] + [unlocking.(pc := Done, lock := RWLock({}, None))];
  }

  /** Whenever the pool moves a job, the protocol can follow, and let the worker run to its end at once. */
  lemma Follow(run: seq<Pool.State>, i: nat, id: Pool.JobId, jobs: seq<State>) returns (longer: seq<State>)
    requires Pool.IsRun(run) && i + 1 < |run| && IsRun(jobs)
    requires Alone(jobs[|jobs| - 1]) && jobs[|jobs| - 1].place == Pool.PlaceOf(run[i], id)
    ensures IsRun(longer) && jobs <= longer && Alone(longer[|longer| - 1])
    ensures longer[|longer| - 1].place == Pool.PlaceOf(run[i + 1], id)
    ensures forall k :: |jobs| <= k < |longer| ==> longer[k].place == Pool.PlaceOf(run[i + 1], id)
  {
    hide Enabled, Pool.PlaceOf, Pool.IsRun;
    var s, to := jobs[|jobs| - 1], Pool.PlaceOf(run[i + 1], id);
    longer := jobs;
    if to != s.place {
      RunKeepsInv(jobs, |jobs| - 1);
      Pool.RunFollowsEdges(run, i, id);
      PoolMovesAreSteps(run, i, id, s);
      Extended(jobs, PoolStep(to));
      longer := jobs + [Apply(s, PoolStep(to))];
      if to.Running? {
        longer := WorkerRuns(longer, longer[|jobs|]);
      }
    }
  }

  /** For every run of the pool and every job there is such a run of the protocol. */
  lemma {:induction false} EveryJobIsTracked(run: seq<Pool.State>, id: Pool.JobId) returns (jobs: seq<State>, at: seq<nat>)
    requires Pool.IsRun(run)
    ensures Tracks(run, id, jobs, at) && at[|run| - 1] == |jobs| - 1 && Alone(jobs[|jobs| - 1])
    decreases |run|
  {
    if |run| == 1 {
      jobs := [State(Pool.Outside, Idle, R.Fields(0, R.Queued, None, None), false, false, true, RWLock({}, None), map[], map[], 0, false)];
      at := [0];
    } else {
      var n := |run| - 1;
      Prefix(run, n);
      var before, places := EveryJobIsTracked(run[..n], id);
      jobs := Follow(run, n - 1, id, before);
      at := places + [|jobs| - 1];
      StillTracked(run, id, before, places, jobs);
    }
  }

  lemma StillTracked(run: seq<Pool.State>, id: Pool.JobId, before: seq<State>, places: seq<nat>, jobs: seq<State>)
    requires |run| > 1 && Tracks(run[..|run| - 1], id, before, places) && places[|run| - 2] == |before| - 1
    requires IsRun(jobs) && before <= jobs && jobs[|jobs| - 1].place == Pool.PlaceOf(run[|run| - 1], id)
    requires forall k :: |before| <= k < |jobs| ==> jobs[k].place == Pool.PlaceOf(run[|run| - 1], id)
    ensures Tracks(run, id, jobs, places + [|jobs| - 1])
  {
    hide IsRun, Pool.PlaceOf;
    var n, at := |run| - 1, places + [|jobs| - 1];
    forall i | 0 <= i < n
      ensures at[i] <= at[i + 1] && Between(run, id, jobs, at, i)
    {
      if i < n - 1 {
        assert Between(run[..n], id, before, places, i);
      }
    }
  }

  lemma Prefix(run: seq<Pool.State>, n: nat)
    requires Pool.IsRun(run) && 0 < n <= |run|
    ensures Pool.IsRun(run[..n])
  {
    forall i: nat
      ensures Pool.StepAt(run[..n], i)
    {
      assert Pool.StepAt(run, i);
    }
  }
}
