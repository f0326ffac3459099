/** The lifecycle fields of one download record and every writer of them: the Update callbacks
    of internal/worker, internal/handlers and internal/store/progress.go. */
module Record {
  import opened Wrappers

  type Time = int

  datatype Status =
    | Initializing | WaitingForCapacity | Queued | Starting | Preparing | Downloading | Processing
    | Completed | Failed | Cancelled

  predicate Terminal(status: Status) {
    status.Completed? || status.Failed? || status.Cancelled?
  }

  datatype Fields = Fields(version: nat, status: Status, startedAt: Option<Time>, completedAt: Option<Time>)

  /** A status line of the downloader, as HandleProgress tells them apart. */
  datatype Line = Advancing | Finished | Error | Other

  /** What Run knows when the process has ended. */
  datatype Ending = Ending(timedOut: bool, interrupted: bool, exitError: bool)

  /** One call of DownloadProgress.Update. */
  datatype Update =
    | Admitted
    | Start(now: Time)
    | Prepare
    | Progress(line: Line, now: Time)
    | Fail(now: Time)
    | Cancel(now: Time)
    | Conclude(now: Time, ending: Ending)
    | Note                      // a callback that leaves the lifecycle fields alone

  function Verdict(status: Status, ending: Ending): Status {
    if status.Failed? || status.Cancelled? then status
    else if ending.timedOut then Failed
    else if ending.interrupted then Cancelled
    else if ending.exitError then Failed
    else Completed
  }

  function Body(f: Fields, u: Update): Fields {
    match u
    case Admitted => if f.status.WaitingForCapacity? then f.(status := Queued) else f
    case Start(now) => if Terminal(f.status) then f else f.(status := Starting, startedAt := Some(now))
    case Prepare => if Terminal(f.status) then f else f.(status := Preparing)
    case Progress(line, now) =>
      if Terminal(f.status) then f
      else (match line
            case Advancing => f.(status := Downloading)
            case Finished => f.(status := Processing)
            case Error => f.(status := Failed, completedAt := Some(now))
            case Other => f)
    case Fail(now) => if Terminal(f.status) then f else f.(status := Failed, completedAt := Some(now))
    case Cancel(now) => if Terminal(f.status) then f else f.(status := Cancelled, completedAt := Some(now))
    case Conclude(now, ending) =>
      f.(completedAt := if f.completedAt.None? then Some(now) else f.completedAt, status := Verdict(f.status, ending))
    case Note => f
  }

  /** Update runs the callback and then bumps the version. */
  function Apply(f: Fields, u: Update): Fields {
    var g := Body(f, u);
    g.(version := g.version + 1)
  }

  /** CompletedAt is set exactly when the status is terminal. */
  predicate Consistent(f: Fields) {
    f.completedAt.Some? <==> Terminal(f.status)
  }

  lemma UpdateKeepsConsistent(f: Fields, u: Update)
    requires Consistent(f)
    ensures Consistent(Apply(f, u))
  {
  }

  /** The first terminal transition wins against every writer, except that the worker's
      conclusion would overwrite a completion. */
  lemma FirstTerminalWins(f: Fields, u: Update)
    requires Consistent(f) && Terminal(f.status)
    ensures Apply(f, u).completedAt == f.completedAt
    ensures Apply(f, u).status == f.status <==>
            !(u.Conclude? && f.status.Completed? && (u.ending.timedOut || u.ending.interrupted || u.ending.exitError))
  {
  }

  /** The fields after a series of updates by whichever writers. */
  function After(f: Fields, updates: seq<Update>): Fields
    decreases |updates|
  {
    if updates == [] then f
    else Apply(After(f, updates[..|updates| - 1]), updates[|updates| - 1])
  }

  function Conclusions(updates: seq<Update>): nat
    decreases |updates|
  {
    if updates == [] then 0
    else Conclusions(updates[..|updates| - 1]) + if updates[|updates| - 1].Conclude? then 1 else 0
  }

  lemma {:induction false} AfterIsConsistent(f: Fields, updates: seq<Update>)
    requires Consistent(f) && !f.status.Completed?
    ensures Consistent(After(f, updates)) && After(f, updates).version == f.version + |updates|
    ensures After(f, updates).status.Completed? ==> Conclusions(updates) > 0
    decreases |updates|
  {
    if updates != [] {
      AfterIsConsistent(f, updates[..|updates| - 1]);
      UpdateKeepsConsistent(After(f, updates[..|updates| - 1]), updates[|updates| - 1]);
    }
  }

  lemma {:induction false} ConclusionsGrow(updates: seq<Update>, i: nat)
    requires i <= |updates|
    ensures Conclusions(updates[..i]) <= Conclusions(updates)
    decreases |updates|
  {
    if i < |updates| {
      ConclusionsGrow(updates[..|updates| - 1], i);
      assert updates[..|updates| - 1][..i] == updates[..i];
    } else {
      assert updates[..i] == updates;
    }
  }

  /** Over any series of updates by any writers, of which one at most is a worker's conclusion, the first
      terminal status and its completion time stay. */
  lemma {:induction false} FirstTerminalIsFinal(f: Fields, updates: seq<Update>, i: nat)
    requires Consistent(f) && !f.status.Completed? && Conclusions(updates) <= 1
    requires i <= |updates| && Terminal(After(f, updates[..i]).status)
    ensures After(f, updates).status == After(f, updates[..i]).status
    ensures After(f, updates).completedAt == After(f, updates[..i]).completedAt
    decreases |updates|
  {
    if i == |updates| {
      assert updates[..i] == updates;
    } else {
      var before, u := updates[..|updates| - 1], updates[|updates| - 1];
      assert before[..i] == updates[..i];
      FirstTerminalIsFinal(f, before, i);
      AfterIsConsistent(f, before);
      FirstTerminalWins(After(f, before), u);
    }
  }

  /** The record itself. `published` lists the snapshots handed to OnUpdate, which is called while
      notifyMu is still held. */
  class DownloadProgress {
    var Version: nat
    var Status: Status
    var StartedAt: Option<Time>
    var CompletedAt: Option<Time>
    var published: seq<Fields>

    ghost function State(): Fields
      reads this
    {
      Fields(Version, Status, StartedAt, CompletedAt)
    }

    /** Snapshots go out in version order, the last one being the present state. */
    ghost predicate Valid()
      reads this
    {
      && Consistent(State())
      && (forall i, j :: 0 <= i < j < |published| ==> published[i].version < published[j].version)
      && (forall i :: 0 <= i < |published| ==> published[i].version <= Version)
    }

    constructor (now: Time)
      ensures Valid() && published == []
      ensures State() == Fields(0, Initializing, Some(now), None)
    {
      Version, Status, StartedAt, CompletedAt := 0, Initializing, Some(now), None;
      published := [];
    }

    /** The tail of Update, after its callback. */
    method Publish()
      requires Valid()
      modifies this
      ensures Valid()
      ensures State() == old(State()).(version := old(Version) + 1)
      ensures published == old(published) + [State()]
    {
      Version := Version + 1;
      published := published + [Fields(Version, Status, StartedAt, CompletedAt)];
    }

    method MarkAdmitted()
      requires Valid()
      modifies this
      ensures Valid() && State() == Apply(old(State()), Update.Admitted)
      ensures Status == if old(Status).WaitingForCapacity? then Queued else old(Status)
      ensures StartedAt == old(StartedAt) && CompletedAt == old(CompletedAt)
      ensures published == old(published) + [State()]
    {
      if Status == WaitingForCapacity {
        Status := Queued;
      }
      Publish();
    }

    method MarkStarting(now: Time)
      requires Valid()
      modifies this
      ensures Valid() && State() == Apply(old(State()), Update.Start(now))
      ensures old(Terminal(Status)) ==> Status == old(Status) && StartedAt == old(StartedAt)
      ensures !old(Terminal(Status)) ==> Status == Starting && StartedAt == Some(now)
      ensures CompletedAt == old(CompletedAt)
      ensures published == old(published) + [State()]
    {
      if !Terminal(Status) {
        Status := Starting;
        StartedAt := Some(now);
      }
      Publish();
    }

    method MarkPreparing()
      requires Valid()
      modifies this
      ensures Valid() && State() == Apply(old(State()), Update.Prepare)
      ensures Status == if old(Terminal(Status)) then old(Status) else Preparing
      ensures StartedAt == old(StartedAt) && CompletedAt == old(CompletedAt)
      ensures published == old(published) + [State()]
    {
      if !Terminal(Status) {
        Status := Preparing;
      }
      Publish();
    }

    method HandleProgress(line: Line, now: Time)
      requires Valid()
      modifies this
      ensures Valid() && State() == Apply(old(State()), Update.Progress(line, now))
      ensures old(Terminal(Status)) || line.Other? ==> Status == old(Status)
      ensures !old(Terminal(Status)) && line.Advancing? ==> Status == Downloading
      ensures !old(Terminal(Status)) && line.Finished? ==> Status == Processing
      ensures !old(Terminal(Status)) && line.Error? ==> Status == Failed && CompletedAt == Some(now)
      ensures old(Terminal(Status)) || !line.Error? ==> CompletedAt == old(CompletedAt)
      ensures StartedAt == old(StartedAt)
      ensures published == old(published) + [State()]
    {
      if Terminal(Status) {
      } else if line == Advancing {
        Status := Downloading;
      } else if line == Finished {
        Status := Processing;
      } else if line == Error {
        Status := Failed;
        CompletedAt := Some(now);
      }
      Publish();
    }

    /** fail. */
    method MarkFailed(now: Time)
      requires Valid()
      modifies this
      ensures Valid() && State() == Apply(old(State()), Update.Fail(now))
      ensures old(Terminal(Status)) ==> Status == old(Status) && CompletedAt == old(CompletedAt)
      ensures !old(Terminal(Status)) ==> Status == Failed && CompletedAt == Some(now)
      ensures StartedAt == old(StartedAt)
      ensures published == old(published) + [State()]
    {
      if !Terminal(Status) {
        Status := Failed;
        CompletedAt := Some(now);
      }
      Publish();
    }

    /** failCancelled, cancelRecord and HandleCancelDownload. */
    method MarkCancelled(now: Time)
      requires Valid()
      modifies this
      ensures Valid() && State() == Apply(old(State()), Update.Cancel(now))
      ensures old(Terminal(Status)) ==> Status == old(Status) && CompletedAt == old(CompletedAt)
      ensures !old(Terminal(Status)) ==> Status == Cancelled && CompletedAt == Some(now)
      ensures StartedAt == old(StartedAt)
      ensures published == old(published) + [State()]
    {
      if !Terminal(Status) {
        Status := Cancelled;
        CompletedAt := Some(now);
      }
      Publish();
    }

    /** The last Update of Run. */
    method Finish(now: Time, ending: Ending)
      requires Valid()
      modifies this
      ensures Valid() && State() == Apply(old(State()), Update.Conclude(now, ending))
      ensures old(Status).Failed? || old(Status).Cancelled? ==> Status == old(Status)
      ensures !old(Status).Failed? && !old(Status).Cancelled? ==>
        && (Status.Failed? <==> ending.timedOut || (!ending.interrupted && ending.exitError))
        && (Status.Cancelled? <==> !ending.timedOut && ending.interrupted)
        && (Status.Completed? <==> !ending.timedOut && !ending.interrupted && !ending.exitError)
      ensures CompletedAt == (if old(CompletedAt).Some? then old(CompletedAt) else Some(now)) && StartedAt == old(StartedAt)
      ensures published == old(published) + [State()]
    {
      if CompletedAt.None? {
        CompletedAt := Some(now);
      }
      if Status.Failed? || Status.Cancelled? {
      } else if ending.timedOut {
        Status := Failed;
      } else if ending.interrupted {
        Status := Cancelled;
      } else if ending.exitError {
        Status := Failed;
      } else {
        Status := Completed;
      }
      Publish();
    }
  }
}
