/** The retained records: the order in which they are listed, the methods that trim them and let them
    expire, and the restoration after a restart (internal/store/history.go, CleanupOldDownloads and
    SnapshotAll in internal/store/progress.go). */
module History {
  import opened Retention
  import opened Sorting
  import opened Wrappers
  import R = Record

  const MAX_RECORDS: nat := 1000

  // ---------------------------------------------------------------- order

  /** The comparison of SnapshotAll. */
  predicate ComesFirst(a: Option<R.Time>, x: JobId, b: Option<R.Time>, y: JobId) {
    if a.Some? && b.Some? && a.value != b.value then a.value > b.value else Less(x, y)
  }

  const NEWEST_FIRST: (Snapshot, Snapshot) -> bool :=
    (s: Snapshot, t: Snapshot) => ComesFirst(s.rec.queuedAt, s.id, t.rec.queuedAt, t.id)

  /** x comes before y by its time, y before z and z before x by their identifiers. */
  predicate Circle(x: Snapshot, y: Snapshot, z: Snapshot) {
    && x.rec.queuedAt.Some? && y.rec.queuedAt.Some? && z.rec.queuedAt.None?
    && x.rec.queuedAt.value > y.rec.queuedAt.value
    && Less(y.id, z.id) && Less(z.id, x.id)
  }

  /** No record without a queueing time stands, by identifier, between two that are queued in the other order. */
  ghost predicate Orderly(data: Records) {
    forall x, y, z :: x in data && y in data && z in data ==>
      !Circle(Snapshot(x, data[x]), Snapshot(y, data[y]), Snapshot(z, data[z]))
  }

  /** For different identifiers the comparison decides one way or the other. */
  lemma ComparisonIsTotal(a: Snapshot, b: Snapshot)
    ensures !(NEWEST_FIRST(a, b) && NEWEST_FIRST(b, a))
    ensures a.id != b.id ==> NEWEST_FIRST(a, b) || NEWEST_FIRST(b, a)
  {
    LessIsTotal(a.id, b.id);
  }

  /** Any circle of the comparison is one of that kind. */
  lemma CircleKind(a: Snapshot, b: Snapshot, c: Snapshot)
    requires NEWEST_FIRST(a, b) && NEWEST_FIRST(b, c) && NEWEST_FIRST(c, a)
    ensures Circle(a, b, c) || Circle(b, c, a) || Circle(c, a, b)
  {
    LessIsTotal(a.id, b.id);
    LessIsTotal(b.id, c.id);
    LessIsTotal(c.id, a.id);
    if Less(a.id, b.id) && Less(b.id, c.id) {
      LessIsTransitive(a.id, b.id, c.id);
    }
  }

  lemma NoCircle(all: seq<Snapshot>, data: Records, a: Snapshot, b: Snapshot, c: Snapshot)
    requires IsListing(all, data) && Orderly(data)
    requires a in all && b in all && c in all && !NEWEST_FIRST(b, a) && !NEWEST_FIRST(c, b)
    ensures !NEWEST_FIRST(c, a)
  {
    ComparisonIsTotal(a, b);
    ComparisonIsTotal(b, c);
    ComparisonIsTotal(a, c);
    assert Listed(a, data) && Listed(b, data) && Listed(c, data);
    if NEWEST_FIRST(a, b) && NEWEST_FIRST(b, c) && NEWEST_FIRST(c, a) {
      CircleKind(a, b, c);
    }
  }

  predicate Listed(s: Snapshot, data: Records) {
    s.id in data && s == Snapshot(s.id, data[s.id])
  }

  /** Exactly when the comparison is a strict weak order on the records; it is one when all of them have
      a queueing time, as those that the store makes do. */
  lemma OrdersIffOrderly(all: seq<Snapshot>, data: Records)
    requires IsListing(all, data)
    ensures OrdersOn(all, NEWEST_FIRST) <==> Orderly(data)
    ensures (forall id :: id in data ==> data[id].queuedAt.Some?) ==> Orderly(data)
  {
    if forall id :: id in data ==> data[id].queuedAt.Some? {
      TimedIsOrderly(data);
    }
    hide IsListing, Orderly;
    if Orderly(data) {
      OrderlyOrders(all, data);
    } else {
      DisorderlyCircle(all, data);
    }
  }

  lemma TimedIsOrderly(data: Records)
    requires forall id :: id in data ==> data[id].queuedAt.Some?
    ensures Orderly(data)
  {
  }

  lemma OrderlyOrders(all: seq<Snapshot>, data: Records)
    requires IsListing(all, data) && Orderly(data)
    ensures OrdersOn(all, NEWEST_FIRST)
  {
    hide IsListing, Orderly;
    forall a: Snapshot, b: Snapshot
      ensures !(NEWEST_FIRST(a, b) && NEWEST_FIRST(b, a))
    {
      ComparisonIsTotal(a, b);
    }
    forall a, b, c | a in all && b in all && c in all && !NEWEST_FIRST(b, a) && !NEWEST_FIRST(c, b)
      ensures !NEWEST_FIRST(c, a)
    {
      NoCircle(all, data, a, b, c);
    }
  }

  lemma DisorderlyCircle(all: seq<Snapshot>, data: Records)
    requires IsListing(all, data) && !Orderly(data)
    ensures !OrdersOn(all, NEWEST_FIRST)
  {
    var x, y, z :| x in data && y in data && z in data && Circle(Snapshot(x, data[x]), Snapshot(y, data[y]), Snapshot(z, data[z]));
    var a, b, c := Snapshot(x, data[x]), Snapshot(y, data[y]), Snapshot(z, data[z]);
    assert a in all && b in all && c in all;
    assert NEWEST_FIRST(a, b) && NEWEST_FIRST(b, c) && NEWEST_FIRST(c, a);
    ComparisonIsTotal(a, c);
  }

  // ---------------------------------------------------------------- protection

  /** Records that leave the store do not change who is protected as long as active ones stay. */
  lemma ProtectionStays(data: Records, gone: set<JobId>, id: JobId)
    requires gone <= Removable(data)
    ensures Protected(data - gone, id) <==> Protected(data, id)
  {
    if Protected(data, id) {
      var parent :| parent in data && Protects(data, parent, id);
      assert Protects(data - gone, parent, id);
    }
  }

  // ---------------------------------------------------------------- restoration

  /** An interrupted job is not started again but reported as failed. */
  function Recovered(rec: Rec, now: R.Time): (r: Rec)
    ensures R.Terminal(r.status)
    ensures R.Terminal(rec.status) ==> r == rec
    ensures !R.Terminal(rec.status) ==> r.status.Failed? && r.completedAt == Some(now) && r.version == rec.version + 1
    ensures r.queuedAt == rec.queuedAt && r.children == rec.children && r.batch == rec.batch
  {
    if R.Terminal(rec.status) then rec
    else rec.(status := R.Failed, completedAt := Some(now), version := rec.version + 1)
  }

  /** The records after reading a history file; a later entry replaces an earlier one with its identifier. */
  function Restored(saved: seq<Snapshot>, now: R.Time): Records {
    if saved == [] then map[]
    else
      var last := saved[|saved| - 1];
      Restored(saved[..|saved| - 1], now)[last.id := Recovered(last.rec, now)]
  }

  lemma {:induction false} RestoredEntry(saved: seq<Snapshot>, i: nat, now: R.Time)
    requires i < |saved| && forall j :: i < j < |saved| ==> saved[j].id != saved[i].id
    ensures saved[i].id in Restored(saved, now) && Restored(saved, now)[saved[i].id] == Recovered(saved[i].rec, now)
  {
    if i < |saved| - 1 {
      RestoredEntry(saved[..|saved| - 1], i, now);
    }
  }

  lemma {:induction false} RestoredIsTerminal(saved: seq<Snapshot>, now: R.Time)
    ensures |Restored(saved, now)| <= |saved|
    ensures forall id :: id in Restored(saved, now) ==>
      R.Terminal(Restored(saved, now)[id].status) && exists i :: 0 <= i < |saved| && saved[i].id == id
  {
    if saved != [] {
      var rest := saved[..|saved| - 1];
      RestoredIsTerminal(rest, now);
      assert forall i :: 0 <= i < |rest| ==> rest[i] == saved[i];
    }
  }

  /** What a restart makes of a history file that lists the records: the same records, the finished ones
      unchanged, every other one failed, and none protected; so a second restart changes nothing. */
  lemma RestartFailsWhatWasActive(data: Records, saved: seq<Snapshot>, now: R.Time)
    requires IsListing(saved, data)
    ensures Restored(saved, now) == map id | id in data :: Recovered(data[id], now)
    ensures forall id :: !Protected(Restored(saved, now), id)
  {
    RestoredIsTerminal(saved, now);
    forall id | id in data
      ensures id in Restored(saved, now) && Restored(saved, now)[id] == Recovered(data[id], now)
    {
      var i :| 0 <= i < |saved| && saved[i] == Snapshot(id, data[id]);
      RestoredEntry(saved, i, now);
    }
  }

  /** A history file with one entry without a queueing time can leave the store without an order. */
  lemma RestoreMayBeDisorderly() returns (saved: seq<Snapshot>)
    ensures |saved| == 3 && forall now :: !Orderly(Restored(saved, now))
  {
    var early, young := Rec(1, R.Completed, Some(1), None, Some(5), false, []), Rec(1, R.Completed, Some(2), None, Some(6), false, []);
    var bare := Rec(1, R.Completed, None, None, Some(7), false, []);
    saved := [Snapshot("c", young), Snapshot("a", early), Snapshot("b", bare)];
    assert Less("a", "b") && Less("b", "c");
    forall now
      ensures !Orderly(Restored(saved, now))
    {
      RestoredEntry(saved, 0, now);
      RestoredEntry(saved, 1, now);
      RestoredEntry(saved, 2, now);
      var data := Restored(saved, now);
      assert Circle(Snapshot("c", data["c"]), Snapshot("a", data["a"]), Snapshot("b", data["b"]));
    }
  }

  lemma {:induction false} SecondRestartChangesNothing(data: Records, saved: seq<Snapshot>, again: seq<Snapshot>, now: R.Time, later: R.Time)
    requires IsListing(saved, data) && IsListing(again, Restored(saved, now))
    ensures Restored(again, later) == Restored(saved, now)
  {
    RestoredIsTerminal(saved, now);
    RestartFailsWhatWasActive(Restored(saved, now), again, later);
  }

  // ---------------------------------------------------------------- the store

  class ProgressStore {
    const others: nat -> Option<Records>    // what other goroutines do at each opportunity
    var clock: nat                          // the opportunities they have had
    var data: Records
    var used: set<JobId>                    // identifiers are never used again

    ghost predicate Valid()
      reads this
    {
      data.Keys <= used
    }

    /** Nobody else changes the store. */
    ghost predicate Quiet() {
      forall n :: others(n).None?
    }

    ghost function Now(phase: Phase): State
      reads this
    {
      State(data, used, phase)
    }

    constructor (others: nat -> Option<Records>)
      ensures Valid() && data == map[] && this.others == others
    {
      this.others := others;
      clock, data, used := 0, map[], {};
    }

    method Interfere(ghost phase: Phase)
      requires Valid()
      modifies this
      ensures Valid() && clock == old(clock) + 1
      ensures Now(phase) == Apply(old(Now(phase)), Other(others(old(clock))))
      ensures Quiet() ==> data == old(data) && used == old(used)
    {
      var change := others(clock);
      if change.Some? && MayBecome(State(data, used, Idle), change.value) {
        data, used := change.value, used + change.value.Keys;
      }
      clock := clock + 1;
    }

    method Delete(id: JobId)
      modifies this`data
      ensures data == old(data) - {id}
    {
      data := data - {id};
    }

    /** Reads a history file of at most 1000 records. */
    method Restore(saved: seq<Snapshot>, now: R.Time) returns (ok: bool)
      requires Valid()
      modifies this
      ensures Valid()
      ensures ok <==> |saved| <= 1000
      ensures ok ==> data == Restored(saved, now)
      ensures !ok ==> data == old(data)
    {
      ok := |saved| <= MAX_RECORDS;
      if !ok {
        return;
      }
      data := map[];
      var index := 0;
      while index < |saved|
        invariant Valid()
        invariant index <= |saved| && data == Restored(saved[..index], now)
      {
        assert saved[..index + 1][..index] == saved[..index];
        data := data[saved[index].id := Recovered(saved[index].rec, now)];
        used := used + {saved[index].id};
        index := index + 1;
      }
      assert saved[..index] == saved;
    }

    method SnapshotAll() returns (out: seq<Snapshot>)
      ensures IsListing(out, data)
      ensures Orderly(data) ==> Arranged(out, NEWEST_FIRST)
      // That is, newest first where both times are known; equal and unknown times by identifier.
      ensures Orderly(data) ==> forall i, j :: 0 <= i < j < |out| ==>
        if out[i].rec.queuedAt.Some? && out[j].rec.queuedAt.Some? && out[i].rec.queuedAt != out[j].rec.queuedAt
        then out[i].rec.queuedAt.value > out[j].rec.queuedAt.value
        else Less(out[i].id, out[j].id)
    {
      var all: seq<Snapshot>, left := [], data.Keys;
      while left != {}
        invariant left <= data.Keys
        invariant forall i :: 0 <= i < |all| ==> all[i].id in data && all[i].id !in left && data[all[i].id] == all[i].rec
        invariant forall i, j :: 0 <= i < j < |all| ==> all[i].id != all[j].id
        invariant forall id :: id in data && id !in left ==> Snapshot(id, data[id]) in all
        decreases |left|
      {
        var id :| id in left;
        assert (all + [Snapshot(id, data[id])])[|all|] == Snapshot(id, data[id]);
        all := all + [Snapshot(id, data[id])];
        left := left - {id};
      }
      OrdersIffOrderly(all, data);
      out := Slice(all, NEWEST_FIRST);
      SortedLists(all, out, data);
      if Orderly(data) {
        ArrangedMeans(out);
      }
    }

    method ActiveBatchContains(id: JobId) returns (found: bool)
      ensures found <==> Protected(data, id)
    {
      var all := SnapshotAll();
      ProtectedIffListed(all, data, id);
      var index := 0;
      while index < |all|
        invariant index <= |all| && id !in ProtectedIn(all[..index])
      {
        OneMoreProtects(all, index);
        if Active(all[index].rec) && id in all[index].rec.children {
          return true;
        }
        index := index + 1;
      }
      assert all[..index] == all;
      return false;
    }

    /** The children of active batches, as both trimming and expiry collect them. */
    method ProtectedIds(all: seq<Snapshot>) returns (protected: set<JobId>)
      ensures protected == ProtectedIn(all)
    {
      protected := {};
      var index := 0;
      while index < |all|
        invariant index <= |all| && protected == ProtectedIn(all[..index])
      {
        OneMoreProtects(all, index);
        if Active(all[index].rec) {
          protected := protected + set id | id in all[index].rec.children;
        }
        index := index + 1;
      }
      assert all[..index] == all;
    }

    /** What the loop of TrimHistory does with a snapshot. */
    method TrimNext(snap: Snapshot, protected: set<JobId>, full: bool, ghost phase: Phase,
                    ghost start: State, ghost from: nat, ghost run: seq<State>, ghost steps: seq<Step>)
      returns (deleted: bool, ghost longer: seq<State>, ghost more: seq<Step>)
      requires Valid() && phase.Trimming? && phase.index < |phase.all| && snap == phase.all[phase.index]
      requires protected == ProtectedIn(phase.all) && full == (phase.terminal >= phase.limit)
      requires Leads(run, steps, start, Now(phase), others, from, clock) && Passing(steps, phase.limit)
      modifies this
      ensures Valid() && deleted == (IsCandidate(snap, protected) && full)
      ensures var terminal := phase.terminal + if IsCandidate(snap, protected) then 1 else 0;
        Leads(longer, more, start, Now(phase.(index := phase.index + 1, terminal := terminal)), others, from, clock)
      ensures Deletions(longer, more) == Deletions(run, steps) + if deleted then {snap.id} else {}
      ensures Passing(more, phase.limit)
      ensures Quiet() ==> data == old(data) - if deleted then {snap.id} else {}
    {
      hide Leads, Deletions, ProtectedIn, Passing, Apply, MayBecome;
      longer, more := AdvanceOther(run, steps, start, Now(phase), others, from, clock);
      Interfere(phase);
      longer, more := AdvanceNext(longer, more, start, Now(phase), others, from, clock);
      deleted := IsCandidate(snap, protected) && full;
      assert data - {} == data;
      if deleted {
        Delete(snap.id);
      }
    }

    /** TrimHistory. `removed` are the identifiers it deleted; `run` is how it and the other goroutines
        have brought the store from its old state to the present one. */
    method TrimHistory(limit: nat) returns (removed: set<JobId>, ghost run: seq<State>, ghost steps: seq<Step>)
      requires Valid()
      modifies this
      ensures Valid() && TrimPass(steps, limit)
      ensures Leads(run, steps, old(Now(Idle)), Now(Idle), others, old(clock), clock)
      ensures removed == Deletions(run, steps)
      ensures removed <= Removable(old(data)) && |removed| == Excess(|Removable(old(data))|, limit)
      // Of the others the newest ones stay.
      ensures Orderly(old(data)) ==>
        forall id, x :: id in removed && x in Removable(old(data)) - removed ==> Newer(old(data), x, id)
      ensures Quiet() ==> data == old(data) - removed
    {
      hide Removable, Newer, Protected, Arranged, IsListing, Orderly, Trimmed, Candidates, Leads, Deletions, ProtectedIn,
        IsRun, Passing, Apply, MayBecome, Excess, IsCandidate, TrimPass;
      ghost var start, from := Now(Idle), clock;
      var snapshots := SnapshotAll();
      var protected := ProtectedIds(snapshots);
      removed := {};
      var terminal, index := 0, 0;
      ghost var kept: set<JobId> := {};
      NothingTrimmed(snapshots, protected, limit, start.data);
      run, steps := TrimBegins(snapshots, limit, start, others, from);
      while index < |snapshots|
        invariant index <= |snapshots| && Valid() && Passing(steps, limit)
        invariant Leads(run, steps, start, Now(Trimming(snapshots, index, terminal, limit)), others, from, clock)
        invariant removed == Deletions(run, steps)
        invariant Trimmed(snapshots, index, protected, limit, start.data, kept, removed)
        invariant terminal == |removed| + |kept|
        invariant Quiet() ==> data == start.data - removed
      {
        var snap := snapshots[index];
        ListedAs(snapshots, index, start.data);
        kept := TrimStep(snapshots, index, protected, start.data, limit, kept, removed);
        var deleted;
        deleted, run, steps := TrimNext(snap, protected, terminal >= limit,
                                        Trimming(snapshots, index, terminal, limit), start, from, run, steps);
        if IsCandidate(snap, protected) {
          terminal := terminal + 1;
        }
        removed := removed + if deleted then {snap.id} else {};
        index := index + 1;
      }
      run, steps := TrimEnds(run, steps, start, Now(Trimming(snapshots, index, terminal, limit)), others, from, clock);
      CandidatesAreRemovable(snapshots, protected, start.data);
      AllTrimmed(snapshots, protected, limit, start.data, kept, removed);
    }

    /** The loop of CleanupOldDownloads under the store's lock. */
    method CollectStale(protected: set<JobId>, maxAge: int, now: R.Time) returns (toRemove: set<JobId>)
      ensures toRemove == Outdated(data, protected, maxAge, now)
    {
      toRemove := {};
      var left := data.Keys;
      while left != {}
        invariant left <= data.Keys
        invariant toRemove ==
          set id | id in data && id !in left && id !in protected && R.Terminal(data[id].status) && Expired(data[id], now, maxAge)
        decreases |left|
      {
        var id :| id in left;
        if id !in protected && R.Terminal(data[id].status) && Expired(data[id], now, maxAge) {
          toRemove := toRemove + {id};
        }
        left := left - {id};
      }
    }

    /** CleanupOldDownloads, in the same way. */
    method CleanupOldDownloads(maxAge: int, now: R.Time) returns (count: nat, ghost run: seq<State>, ghost steps: seq<Step>)
      requires Valid()
      modifies this
      ensures Valid() && ExpiryPass(steps, maxAge, now)
      ensures Leads(run, steps, old(Now(Idle)), Now(Idle), others, old(clock), clock)
      ensures count == |Deletions(run, steps)|
      ensures Quiet() ==> data == old(data) - Stale(old(data), maxAge, now) && count == |Stale(old(data), maxAge, now)|
      // That is, a record goes if it is finished and unprotected and was completed, or else started, too long ago.
      ensures Quiet() ==> forall id :: id in old(data) ==>
        var rec := old(data)[id];
        (id !in data <==>
          && R.Terminal(rec.status) && !Protected(old(data), id)
          && if rec.completedAt.Some? then now - rec.completedAt.value > maxAge
             else rec.startedAt.Some? && now - rec.startedAt.value > maxAge)
    {
      hide IsListing, Orderly, Protected, Arranged, Leads, Deletions, ProtectedIn, Stale, Outdated, IsRun, Apply;
      ghost var start, from := Now(Idle), clock;
      var snapshots := SnapshotAll();
      run, steps := ExpiryBegins(snapshots, start, others, from);
      var protected := ProtectedIds(snapshots);
      run, steps := AdvanceOther(run, steps, start, Now(Looked(protected)), others, from, from);
      Interfere(Looked(protected));
      run, steps := AdvanceCollect(run, steps, start, Now(Looked(protected)), others, from, from + 1, maxAge, now);
      var toRemove := CollectStale(protected, maxAge, now);
      run, steps := AdvanceOther(run, steps, start, Now(Collected(toRemove)), others, from, from + 1);
      Interfere(Collected(toRemove));
      run, steps := AdvanceDelete(run, steps, start, Now(Collected(toRemove)), others, from, from + 2);
      data := data - toRemove;
      StaleIfQuiet(start.data, snapshots, maxAge, now);
      StaleMeans(start.data, maxAge, now);
      return |toRemove|, run, steps;
    }
  }

  lemma StaleMeans(data: Records, maxAge: int, now: R.Time)
    ensures forall id :: id in data ==>
      var rec := data[id];
      (id in Stale(data, maxAge, now) <==>
        && R.Terminal(rec.status) && !Protected(data, id)
        && if rec.completedAt.Some? then now - rec.completedAt.value > maxAge
           else rec.startedAt.Some? && now - rec.startedAt.value > maxAge)
  {
    hide Protected;
  }

  lemma StaleIfQuiet(data: Records, snapshots: seq<Snapshot>, maxAge: int, now: R.Time)
    requires IsListing(snapshots, data)
    ensures Outdated(data, ProtectedIn(snapshots), maxAge, now) == Stale(data, maxAge, now)
  {
    hide ProtectedIn, Protected;
    forall id
      ensures id in ProtectedIn(snapshots) <==> Protected(data, id)
    {
      ProtectedIffListed(snapshots, data, id);
    }
  }

  lemma OneMoreProtects(all: seq<Snapshot>, i: nat)
    requires i < |all|
    ensures ProtectedIn(all[..i]) <= ProtectedIn(all)
    ensures ProtectedIn(all[..i + 1])
         == ProtectedIn(all[..i]) + if Active(all[i].rec) then set id | id in all[i].rec.children else {}
  {
    assert all[..i + 1] == all[..i] + [all[i]];
  }

  /** The removable records that are too old. */
  function Stale(data: Records, maxAge: int, now: R.Time): set<JobId> {
    set id | id in Removable(data) && Expired(data[id], now, maxAge)
  }

  function Excess(n: nat, limit: nat): nat {
    if n <= limit then 0 else n - limit
  }

  /** Listed before. */
  predicate Newer(data: Records, x: JobId, id: JobId) {
    x in data && id in data && NEWEST_FIRST(Snapshot(x, data[x]), Snapshot(id, data[id]))
  }

  predicate NotQueuedBefore(x: Option<R.Time>, y: Option<R.Time>) {
    x.Some? && y.Some? ==> x.value >= y.value
  }

  /** Of two records with known times the newer one was not queued before the other. */
  lemma NewerMeans(data: Records)
    ensures forall x, id :: Newer(data, x, id) ==>
      x in data && id in data && NotQueuedBefore(data[x].queuedAt, data[id].queuedAt)
  {
  }

  /** The first `limit` of the candidates are kept. */
  ghost predicate SplitAt(kept: set<JobId>, removed: set<JobId>, candidates: set<JobId>, limit: nat) {
    && removed !! kept && removed + kept == candidates
    && |kept| <= limit && (removed != {} ==> |kept| == limit)
  }

  /** Each of them is listed before every removed one. */
  ghost predicate Ahead(kept: set<JobId>, removed: set<JobId>, data: Records) {
    forall id, x :: id in removed && x in kept ==> Newer(data, x, id)
  }

  lemma NothingSplit(snapshots: seq<Snapshot>, protected: set<JobId>, limit: nat, data: Records)
    ensures SplitAt({}, {}, Candidates(snapshots[..0], protected), limit) && Ahead({}, {}, data)
  {
    assert Candidates(snapshots[..0], protected) == {};
  }

  lemma KeepOne(kept: set<JobId>, removed: set<JobId>, candidates: set<JobId>, limit: nat, id: JobId)
    requires SplitAt(kept, removed, candidates, limit) && id !in candidates && |kept| + |removed| < limit
    ensures SplitAt(kept + {id}, removed, candidates + {id}, limit) && |kept + {id}| == |kept| + 1
    ensures removed == {}
  {
  }

  lemma NoneBehind(kept: set<JobId>, data: Records)
    ensures Ahead(kept, {}, data)
  {
  }

  lemma RemoveOne(kept: set<JobId>, removed: set<JobId>, candidates: set<JobId>, limit: nat, id: JobId)
    requires SplitAt(kept, removed, candidates, limit) && id !in candidates && |kept| + |removed| >= limit
    ensures SplitAt(kept, removed + {id}, candidates + {id}, limit) && |removed + {id}| == |removed| + 1
    ensures kept <= candidates
  {
    assert removed == {} ==> |kept| == limit;
  }

  lemma RemovedBehind(snapshots: seq<Snapshot>, i: nat, protected: set<JobId>, data: Records, kept: set<JobId>, removed: set<JobId>)
    requires Arranged(snapshots, NEWEST_FIRST) && IsListing(snapshots, data) && i < |snapshots|
    requires kept <= Candidates(snapshots[..i], protected) && Ahead(kept, removed, data)
    ensures Ahead(kept, removed + {snapshots[i].id}, data)
  {
    hide Newer;
    EarlierIsNewer(snapshots, i, protected, data);
  }

  /** How far trimming has come when the first `i` records have been looked at. */
  ghost predicate Trimmed(snapshots: seq<Snapshot>, i: nat, protected: set<JobId>, limit: nat, data: Records,
                          kept: set<JobId>, removed: set<JobId>)
    requires i <= |snapshots|
  {
    && SplitAt(kept, removed, Candidates(snapshots[..i], protected), limit)
    && (Arranged(snapshots, NEWEST_FIRST) ==> Ahead(kept, removed, data))
  }

  lemma NothingTrimmed(snapshots: seq<Snapshot>, protected: set<JobId>, limit: nat, data: Records)
    ensures Trimmed(snapshots, 0, protected, limit, data, {}, {})
  {
    NothingSplit(snapshots, protected, limit, data);
  }

  /** One more record: kept while there is room, and removed behind all that are kept. */
  lemma TrimStep(snapshots: seq<Snapshot>, i: nat, protected: set<JobId>, data: Records, limit: nat,
                 kept: set<JobId>, removed: set<JobId>) returns (kept': set<JobId>)
    requires IsListing(snapshots, data) && i < |snapshots|
    requires Trimmed(snapshots, i, protected, limit, data, kept, removed)
    ensures var id, candidate, full := snapshots[i].id, IsCandidate(snapshots[i], protected), |kept| + |removed| >= limit;
      && id !in removed
      && (!candidate ==> kept' == kept && Trimmed(snapshots, i + 1, protected, limit, data, kept', removed))
      && (candidate && !full ==> |kept'| == |kept| + 1 && Trimmed(snapshots, i + 1, protected, limit, data, kept', removed))
      && (candidate && full ==> kept' == kept && |removed + {id}| == |removed| + 1
                                && Trimmed(snapshots, i + 1, protected, limit, data, kept', removed + {id}))
  {
    hide Candidates, Ahead, IsListing, Arranged;
    kept' := kept;
    var id, candidates := snapshots[i].id, Candidates(snapshots[..i], protected);
    OneMoreCandidate(snapshots, i, protected, data);
    if IsCandidate(snapshots[i], protected) {
      if |kept| + |removed| >= limit {
        RemoveOne(kept, removed, candidates, limit, id);
        if Arranged(snapshots, NEWEST_FIRST) {
          RemovedBehind(snapshots, i, protected, data, kept, removed);
        }
      } else {
        KeepOne(kept, removed, candidates, limit, id);
        NoneBehind(kept + {id}, data);
        kept' := kept + {id};
      }
    }
  }

  lemma AllTrimmed(snapshots: seq<Snapshot>, protected: set<JobId>, limit: nat, data: Records,
                   kept: set<JobId>, removed: set<JobId>)
    requires Trimmed(snapshots, |snapshots|, protected, limit, data, kept, removed)
    ensures var candidates := Candidates(snapshots, protected);
      && removed <= candidates && |removed| == Excess(|candidates|, limit)
      && (Arranged(snapshots, NEWEST_FIRST) ==>
            forall id, x :: id in removed && x in candidates - removed ==> Newer(data, x, id))
  {
    hide Candidates, Newer;
    assert snapshots[..|snapshots|] == snapshots;
    SplitAll(kept, removed, Candidates(snapshots, protected), limit, data);
  }

  lemma SplitAll(kept: set<JobId>, removed: set<JobId>, candidates: set<JobId>, limit: nat, data: Records)
    requires SplitAt(kept, removed, candidates, limit)
    ensures removed <= candidates && |removed| == Excess(|candidates|, limit)
    ensures Ahead(kept, removed, data) ==>
      forall id, x :: id in removed && x in candidates - removed ==> Newer(data, x, id)
  {
    hide Newer;
    assert |removed + kept| == |removed| + |kept|;
    assert candidates - removed == kept;
  }

  function Candidates(snapshots: seq<Snapshot>, protected: set<JobId>): set<JobId> {
    set s | s in snapshots && IsCandidate(s, protected) :: s.id
  }

  lemma ListedAs(snapshots: seq<Snapshot>, i: nat, data: Records)
    requires IsListing(snapshots, data) && i < |snapshots|
    ensures snapshots[i].id in data && data[snapshots[i].id] == snapshots[i].rec
  {
  }

  lemma OneMoreCandidate(snapshots: seq<Snapshot>, i: nat, protected: set<JobId>, data: Records)
    requires i < |snapshots| && IsListing(snapshots, data)
    ensures var before, after := Candidates(snapshots[..i], protected), Candidates(snapshots[..i + 1], protected);
      && snapshots[i].id !in before
      && (IsCandidate(snapshots[i], protected) ==> after == before + {snapshots[i].id})
      && (!IsCandidate(snapshots[i], protected) ==> after == before)
  {
    assert snapshots[..i + 1] == snapshots[..i] + [snapshots[i]];
  }

  lemma EarlierIsNewer(snapshots: seq<Snapshot>, i: nat, protected: set<JobId>, data: Records)
    requires Arranged(snapshots, NEWEST_FIRST) && IsListing(snapshots, data) && i < |snapshots|
    ensures forall x :: x in Candidates(snapshots[..i], protected) ==> Newer(data, x, snapshots[i].id)
  {
    forall x | x in Candidates(snapshots[..i], protected)
      ensures Newer(data, x, snapshots[i].id)
    {
      var j :| 0 <= j < i && snapshots[j].id == x;
      assert !NEWEST_FIRST(snapshots[i], snapshots[j]);
      LessIsTotal(x, snapshots[i].id);
    }
  }

  lemma CandidatesAreRemovable(snapshots: seq<Snapshot>, protected: set<JobId>, data: Records)
    requires IsListing(snapshots, data) && protected == ProtectedIn(snapshots)
    ensures Candidates(snapshots, protected) == Removable(data)
  {
    hide ProtectedIn, Protected;
    forall id
      ensures id in protected <==> Protected(data, id)
    {
      ProtectedIffListed(snapshots, data, id);
    }
    forall id | id in Removable(data)
      ensures id in Candidates(snapshots, protected)
    {
      assert Snapshot(id, data[id]) in snapshots;
    }
  }

  lemma ArrangedMeans(out: seq<Snapshot>)
    requires Arranged(out, NEWEST_FIRST) && forall i, j :: 0 <= i < j < |out| ==> out[i].id != out[j].id
    ensures forall i, j :: 0 <= i < j < |out| ==>
      if out[i].rec.queuedAt.Some? && out[j].rec.queuedAt.Some? && out[i].rec.queuedAt != out[j].rec.queuedAt
      then out[i].rec.queuedAt.value > out[j].rec.queuedAt.value
      else Less(out[i].id, out[j].id)
  {
    forall i, j | 0 <= i < j < |out|
      ensures NEWEST_FIRST(out[i], out[j])
    {
      assert !NEWEST_FIRST(out[j], out[i]);
      ComparisonIsTotal(out[i], out[j]);
    }
  }

  lemma SortedLists(all: seq<Snapshot>, sorted: seq<Snapshot>, data: Records)
    requires IsListing(all, data) && multiset(sorted) == multiset(all)
    ensures IsListing(sorted, data)
  {
    PermutationIsDistinct(all, sorted);
    forall i | 0 <= i < |sorted|
      ensures sorted[i].id in data && data[sorted[i].id] == sorted[i].rec
    {
      assert sorted[i] in all;
    }
    forall i, j | 0 <= i < j < |sorted|
      ensures sorted[i].id != sorted[j].id
    {
      assert sorted[i] in all && sorted[j] in all && sorted[i] != sorted[j];
    }
  }
}
