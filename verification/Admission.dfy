/** Admission of single downloads and batches in internal/handlers/handler_download.go and
    handler_batch.go: the record cap and the idempotency cache. Admissions exclude each other through
    workMu; history removal and trimming do not take it and may run at any point in between. */
module Admission {
  import opened Wrappers

  type JobId = nat
  type Key = string
  type Hash = nat       // of the request; equal hashes stand for equal requests

  const MAX_RECORDS: nat := 1000
  const MAX_KEYS: nat := 1000
  const MAX_ENTRIES: nat := 500

  datatype Entry = Entry(id: JobId, hash: Hash)

  datatype Reply =
    | Accepted(id: JobId)
    | Conflict              // the key was used for different options
    | AtCapacity
    | Invalid
    | QueueFull

  /** The retained records, the cache, the next fresh identifier, and what other goroutines remove at
      each of their opportunities, of which they have had `clock`. */
  datatype State = State(
    store: set<JobId>, admissions: map<Key, Entry>, next: JobId, others: nat -> set<JobId>, clock: nat)

  /** Other goroutines have removed the record since some opportunity. */
  ghost predicate Taken(s: State, since: nat, id: JobId) {
    exists n: nat :: since <= n < s.clock && id in s.others(n)
  }

  ghost predicate Injective(admissions: map<Key, Entry>) {
    forall k, l :: k in admissions && l in admissions && admissions[k].id == admissions[l].id ==> k == l
  }

  /** An injective cache whose jobs all lie in a set has at most as many keys. */
  lemma {:induction false} InjectiveIsSmall(admissions: map<Key, Entry>, ids: set<JobId>)
    requires Injective(admissions)
    requires forall k :: k in admissions ==> admissions[k].id in ids
    ensures |admissions| <= |ids|
    decreases |admissions|
  {
    if admissions.Keys != {} {
      var k :| k in admissions.Keys;
      var rest := admissions - {k};
      assert admissions.Keys == rest.Keys + {k};
      InjectiveIsSmall(rest, ids - {admissions[k].id});
    }
  }

  ghost predicate Sound(s: State) {
    && |s.store| <= MAX_RECORDS && |s.admissions| <= MAX_KEYS
    && (forall id :: id in s.store ==> id < s.next)
    && (forall k :: k in s.admissions ==> s.admissions[k].id < s.next)
    && Injective(s.admissions)
  }

  /** At most 1000 records are retained and at most 1000 keys are cached. */
  lemma WithinLimits(s: State)
    requires Sound(s)
    ensures |s.store| <= 1000 && |s.admissions| <= 1000
  {
  }

  /** What stays whatever is admitted and removed: new records are fresh ones, records vanish only when
      others remove them, and no key of a job that is still retained is lost or changed. */
  ghost predicate Steady(s: State, s': State) {
    && s.next <= s'.next && s.clock <= s'.clock && s'.others == s.others
    && (forall id :: id in s'.store ==> id in s.store || id >= s.next)
    && (forall id :: id in s.store ==> id in s'.store || Taken(s', s.clock, id))
    && (forall k :: k in s.admissions && s.admissions[k].id in s'.store ==>
          k in s'.admissions && s'.admissions[k] == s.admissions[k])
  }

  lemma SteadyTransitive(a: State, b: State, c: State)
    requires Sound(a) && Steady(a, b) && Steady(b, c)
    ensures Steady(a, c)
  {
    forall k | k in a.admissions && a.admissions[k].id in c.store
      ensures k in c.admissions && c.admissions[k] == a.admissions[k]
    {
      assert a.admissions[k].id in b.store;
    }
    forall id | id in a.store
      ensures id in c.store || Taken(c, a.clock, id)
    {
      if id in b.store {
        TakenLater(c, b.clock, c, a.clock, id);
      } else {
        TakenLater(b, a.clock, c, a.clock, id);
      }
    }
  }

  lemma TakenLater(s: State, since: nat, s': State, from: nat, id: JobId)
    requires from <= since && s.clock <= s'.clock && s'.others == s.others
    ensures Taken(s, since, id) ==> Taken(s', from, id)
  {
  }

  /** The others' next opportunity. */
  function Shrunk(s: State): State {
    s.(store := s.store - s.others(s.clock), clock := s.clock + 1)
  }

  lemma ShrinkIsSteady(s: State)
    requires Sound(s)
    ensures Sound(Shrunk(s)) && Steady(s, Shrunk(s))
  {
    SubsetIsSmaller(Shrunk(s).store, s.store);
    forall id | id in s.store
      ensures id in Shrunk(s).store || Taken(Shrunk(s), s.clock, id)
    {
      assert id in s.others(s.clock) ==> Taken(Shrunk(s), s.clock, id);
    }
  }

  /** Dropping the key of a job that is no longer retained. */
  lemma ForgetIsSteady(s: State, k: Key)
    requires Sound(s) && k in s.admissions && s.admissions[k].id !in s.store
    ensures var s' := s.(admissions := s.admissions - {k}); Sound(s') && Steady(s, s')
  {
    var rest := s.admissions - {k};
    assert s.admissions.Keys == rest.Keys + {k};
  }

  /** Recording a job under a key that is new or whose job is no longer retained. */
  lemma RecordIsSteady(s: State, k: Key, e: Entry)
    requires Sound(s) && e.id < s.next && (forall l :: l in s.admissions ==> s.admissions[l].id != e.id)
    requires k in s.admissions || |s.admissions| < MAX_KEYS
    requires k in s.admissions ==> s.admissions[k].id !in s.store
    ensures var s' := s.(admissions := s.admissions[k := e]); Sound(s') && Steady(s, s')
  {
    assert s.admissions[k := e].Keys == s.admissions.Keys + {k};
  }

  lemma AddIsSteady(s: State)
    requires Sound(s) && |s.store| < MAX_RECORDS
    ensures var s' := s.(store := s.store + {s.next}, next := s.next + 1); Sound(s') && Steady(s, s')
  {
  }

  /** Withdrawing a record that is not there from the beginning. */
  lemma WithdrawIsSteady(s: State, s': State, id: JobId)
    requires Sound(s) && Sound(s') && Steady(s, s') && id >= s.next
    ensures var t := s'.(store := s'.store - {id}); Sound(t) && Steady(s, t)
  {
    SubsetIsSmaller(s'.store - {id}, s'.store);
  }

  /** The records made since an earlier state are there, unless others have removed them. */
  ghost predicate Accounted(start: State, s: State) {
    forall id :: start.next <= id < s.next ==> id in s.store || Taken(s, start.clock, id)
  }

  /** Nobody else removes records. */
  ghost predicate Quiet(s: State) {
    forall n :: s.others(n) == {}
  }

  function Numbers(first: JobId, end: JobId): (ids: set<JobId>)
    ensures forall id :: id in ids <==> first <= id < end
    decreases end
  {
    if end <= first then {} else Numbers(first, end - 1) + {end - 1}
  }

  /** Undisturbed, the store has grown by exactly the records that were made, or not at all. */
  ghost predicate GrownBy(start: State, s: State, accepted: bool) {
    Quiet(s) ==> s.store == if accepted then start.store + Numbers(start.next, s.next) else start.store
  }

  lemma QuietlyGrown(start: State, s: State)
    requires Sound(s) && Steady(start, s) && Quiet(s)
    ensures start.store <= s.store <= start.store + Numbers(start.next, s.next)
    ensures Accounted(start, s) ==> s.store == start.store + Numbers(start.next, s.next)
  {
    assert forall id :: !Taken(s, start.clock, id);
  }

  // ---------------------------------------------------------------- replies

  ghost predicate Known(s: State, key: Option<Key>) {
    key.Some? && key.value in s.admissions
  }

  /** The key, if known, belongs to this very request, and its job is no longer retained. */
  ghost predicate Forgotten(s: State, key: Option<Key>, hash: Hash) {
    Known(s, key) ==> s.admissions[key.value].hash == hash && s.admissions[key.value].id !in s.store
  }

  /** What the reply says: either the job already admitted under the key, and then nothing new is stored,
      or a conflict, or a refusal that leaves no record, or a new job, recorded under its key. */
  ghost predicate Answered(s: State, s': State, key: Option<Key>, hash: Hash, reply: Reply) {
    && (Known(s, key) && s.admissions[key.value].hash != hash ==>
          reply.Conflict? && s'.store <= s.store && s'.next == s.next)
    && (Known(s, key) && s.admissions[key.value].hash == hash && s.admissions[key.value].id in s'.store ==>
          reply == Accepted(s.admissions[key.value].id) && s'.store <= s.store && s'.next == s.next)
    && (reply.Conflict? ==> Known(s, key) && s.admissions[key.value].hash != hash)
    && (reply.Accepted? ==> reply.id < s'.next)
    && (reply.Accepted? && key.Some? ==> key.value in s'.admissions && s'.admissions[key.value] == Entry(reply.id, hash))
    && (reply.Accepted? && reply.id < s.next ==> Known(s, key) && s.admissions[key.value] == Entry(reply.id, hash) && s'.next == s.next)
    && (reply.Accepted? && reply.id < s.next ==> s'.store <= s.store)
    && (!reply.Accepted? ==> s'.store <= s.store)
  }

  ghost predicate Admitted(s: State, s': State, key: Option<Key>, hash: Hash, reply: Reply) {
    Sound(s') && Steady(s, s') && Answered(s, s', key, hash, reply)
  }

  /** After a lookup without reply a refusal that leaves no record is an answer. */
  lemma Refused(s: State, looked: State, s': State, key: Option<Key>, hash: Hash, reply: Reply)
    requires Sound(s) && looked.admissions == s.admissions && looked.next == s.next && looked.store <= s.store
    requires Forgotten(looked, key, hash) && Steady(looked, s') && s'.store <= s.store
    requires !reply.Accepted? && !reply.Conflict?
    ensures Answered(s, s', key, hash, reply)
  {
    assert Known(s, key) ==> s.admissions[key.value].id !in s'.store;
  }

  /** And so is a new job. */
  lemma NewJob(s: State, looked: State, s': State, key: Option<Key>, hash: Hash, id: JobId)
    requires Sound(s) && looked.admissions == s.admissions && looked.next == s.next && looked.store <= s.store
    requires Forgotten(looked, key, hash) && Steady(looked, s') && s.next <= id < s'.next
    requires key.Some? ==> key.value in s'.admissions && s'.admissions[key.value] == Entry(id, hash)
    ensures Answered(s, s', key, hash, Accepted(id))
  {
    assert Known(s, key) ==> s.admissions[key.value].id !in s'.store;
  }

  datatype Request =
    | Single(key: Option<Key>, hash: Hash, prepared: bool, room: bool)
    | Playlist(key: Option<Key>, hash: Hash, entries: nat, prepared: bool)

  /** A batch of a size that is refused before anything is looked up. */
  predicate WrongSize(r: Request) {
    r.Playlist? && (r.entries == 0 || r.entries > MAX_ENTRIES)
  }

  class App {
    var store: set<JobId>               // the retained records
    var admissions: map<Key, Entry>
    var closing: bool
    var next: JobId                     // identifiers are never reused
    const others: nat -> set<JobId>     // what other goroutines remove at each opportunity
    var clock: nat                      // the opportunities they have had

    ghost function Now(): State
      reads this
    {
      State(store, admissions, next, others, clock)
    }

    ghost predicate Valid()
      reads this
    {
      Sound(Now())
    }

    /** History of more than 1000 records is refused at start. */
    constructor (restored: set<JobId>, next: JobId, others: nat -> set<JobId>)
      ensures |restored| <= MAX_RECORDS && (forall id :: id in restored ==> id < next) ==> Valid()
      ensures Now() == State(restored, map[], next, others, 0) && !closing
    {
      store, admissions, closing, this.next, this.others, clock := restored, map[], false, next, others, 0;
    }

    /** Other goroutines: without workMu they can only remove records. */
    method Interfere()
      requires Valid()
      modifies this`store, this`clock
      ensures Valid() && Now() == Shrunk(old(Now())) && Steady(old(Now()), Now())
    {
      ShrinkIsSteady(Now());
      store := store - others(clock);
      clock := clock + 1;
    }

    /** The eviction loop of recordAdmission; `filled` is a state of the store when it began or before. */
    method EvictForgotten(ghost filled: set<JobId>)
      requires Valid() && store <= filled
      modifies this`admissions, this`store, this`clock
      ensures Valid() && Steady(old(Now()), Now()) && store <= old(store)
      ensures admissions.Keys <= old(admissions).Keys
      ensures forall k :: k in admissions ==> admissions[k] == old(admissions)[k] && admissions[k].id in filled
    {
      hide Sound, Steady;
      ghost var start := Now();
      SteadyItself(start);
      var left := admissions.Keys;
      while left != {}
        invariant Valid() && Sound(start) && Steady(start, Now()) && store <= old(store) && next == old(next)
        invariant left <= admissions.Keys <= old(admissions).Keys
        invariant forall k :: k in admissions ==> admissions[k] == old(admissions)[k]
        invariant forall k :: k in admissions && k !in left ==> admissions[k].id in filled
        decreases |left|
      {
        ghost var before := Now();
        Interfere();
        SteadyTransitive(start, before, Now());
        var k :| k in left;
        if admissions[k].id !in store {
          before := Now();
          ForgetIsSteady(before, k);
          admissions := admissions - {k};
          SteadyTransitive(start, before, Now());
        }
        left := left - {k};
      }
    }

    lemma SteadyItself(s: State)
      ensures Steady(s, s) && Accounted(s, s)
    {
    }

    /** recordAdmission; `filled` is the store when the new record had just been added to it. */
    method RecordAdmission(key: Key, id: JobId, hash: Hash, ghost filled: set<JobId>)
      requires Valid() && id < next && Forgotten(Now(), Some(key), hash)
      requires forall k :: k in admissions ==> admissions[k].id != id
      requires id in filled && |filled| <= MAX_RECORDS && store <= filled
      modifies this`admissions, this`store, this`clock
      ensures Valid() && Steady(old(Now()), Now()) && store <= old(store)
      ensures key in admissions && admissions[key] == Entry(id, hash)
    {
      hide Steady;
      ghost var start := Now();
      SteadyItself(start);
      if |admissions| >= MAX_KEYS {
        EvictForgotten(filled);
        InjectiveIsSmall(admissions, filled - {id});
      }
      ghost var before := Now();
      RecordIsSteady(before, key, Entry(id, hash));
      admissions := admissions[key := Entry(id, hash)];
      SteadyTransitive(start, before, Now());
    }

    /** Store.Set of `count` fresh records; others may remove records after each. */
    method NewRecords(count: nat) returns (ghost filled: set<JobId>)
      requires count > 0 && Valid() && |store| + count <= MAX_RECORDS
      modifies this`store, this`next, this`clock
      ensures Valid() && Steady(old(Now()), Now()) && next == old(next) + count
      ensures next - 1 in filled && |filled| <= MAX_RECORDS && store <= filled
      ensures Accounted(old(Now()), Now())
    {
      hide Sound, Steady, Accounted;
      ghost var start := Now();
      SteadyItself(start);
      var index := 0;
      filled := {};
      while index < count
        invariant index <= count && next == start.next + index
        invariant Valid() && Sound(start) && Steady(start, Now()) && |store| + (count - index) <= MAX_RECORDS
        invariant index > 0 ==> next - 1 in filled && |filled| <= MAX_RECORDS && store <= filled
        invariant Accounted(start, Now())
      {
        filled := AddOne(start);
        index := index + 1;
      }
    }

    method AddOne(ghost start: State) returns (ghost filled: set<JobId>)
      requires Valid() && |store| < MAX_RECORDS && Sound(start) && Steady(start, Now())
      requires Accounted(start, Now())
      modifies this`store, this`next, this`clock
      ensures Valid() && Steady(start, Now()) && next == old(next) + 1
      ensures old(next) in filled && |filled| <= MAX_RECORDS && store <= filled && |store| <= |old(store)| + 1
      ensures Accounted(start, Now())
    {
      hide Steady, Accounted;
      ghost var before := Now();
      AddIsSteady(before);
      store := store + {next};
      next := next + 1;
      filled := store;
      ghost var added := Now();
      Interfere();
      SteadyTransitive(start, before, added);
      SteadyTransitive(start, added, Now());
      StillAccounted(start, before, added, Now());
      SubsetIsSmaller(store, filled);
    }

    lemma StillAccounted(start: State, before: State, added: State, after: State)
      requires Accounted(start, before) && Steady(start, before)
      requires added == before.(store := before.store + {before.next}, next := before.next + 1)
      requires Steady(added, after) && after.next == added.next
      ensures Accounted(start, after)
    {
      forall id | start.next <= id < after.next
        ensures id in after.store || Taken(after, start.clock, id)
      {
        if id in added.store {
          TakenLater(after, added.clock, after, start.clock, id);
        } else {
          TakenLater(before, start.clock, after, start.clock, id);
        }
      }
    }

    lemma AccountedLater(start: State, s: State, s': State)
      requires Accounted(start, s) && Steady(s, s') && s'.next == s.next && Steady(start, s)
      ensures Accounted(start, s')
    {
      forall id | start.next <= id < s'.next
        ensures id in s'.store || Taken(s', start.clock, id)
      {
        if id in s.store {
          TakenLater(s', s.clock, s', start.clock, id);
        } else {
          TakenLater(s, start.clock, s', start.clock, id);
        }
      }
    }

    /** The lookup at the head of both admission handlers: a reply, or None to go on. */
    method Lookup(key: Option<Key>, hash: Hash) returns (reply: Option<Reply>)
      requires Valid()
      modifies this`store, this`clock
      ensures Valid() && Steady(old(Now()), Now()) && store <= old(store) && |store| <= |old(store)|
      ensures reply.Some? ==> Answered(old(Now()), Now(), key, hash, reply.value)
      ensures reply.Some? && reply.value.Accepted? ==> reply.value.id < old(next)
      ensures reply.Some? ==> reply.value.Accepted? || reply.value.Conflict?
      ensures reply.None? ==> Forgotten(Now(), key, hash)
      ensures GrownBy(old(Now()), Now(), false)
    {
      Interfere();
      SubsetIsSmaller(store, old(store));
      reply := None;
      if key.Some? && key.value in admissions {
        var existing := admissions[key.value];
        if existing.hash != hash {
          return Some(Conflict);
        }
        if existing.id in store {
          return Some(Accepted(existing.id));
        }
      }
    }

    /** Records the job under its key, if it has one. */
    method Remember(key: Option<Key>, id: JobId, hash: Hash, ghost filled: set<JobId>)
      requires Valid() && id < next && Forgotten(Now(), key, hash)
      requires forall k :: k in admissions ==> admissions[k].id != id
      requires id in filled && |filled| <= MAX_RECORDS && store <= filled
      modifies this`admissions, this`store, this`clock
      ensures Valid() && Steady(old(Now()), Now()) && store <= old(store)
      ensures key.Some? ==> key.value in admissions && admissions[key.value] == Entry(id, hash)
    {
      hide Sound, Steady;
      SteadyItself(Now());
      if key.Some? {
        RecordAdmission(key.value, id, hash, filled);
      }
    }

    /** The state before a request and the one after its lookup, which has given no reply. */
    ghost predicate LookedUp(start: State, looked: State, key: Option<Key>, hash: Hash) {
      && Sound(start) && Sound(looked) && Steady(start, looked) && looked.store <= start.store
      && looked.admissions == start.admissions && looked.next == start.next && Forgotten(looked, key, hash)
    }

    /** The new job does not fit into the queue: its record is withdrawn. */
    method Withdraw(key: Option<Key>, hash: Hash, id: JobId, ghost start: State, ghost looked: State)
      requires Valid() && LookedUp(start, looked, key, hash) && Steady(looked, Now()) && looked.next == id && next == id + 1
      modifies this`store
      ensures Admitted(start, Now(), key, hash, QueueFull) && GrownBy(start, Now(), false)
    {
      hide Sound, Steady, Answered, Accounted, Forgotten, GrownBy;
      WithdrawIsSteady(looked, Now(), id);
      WithdrawnLeavesNothing(looked, Now(), id);
      store := store - {id};
      Refused(start, looked, Now(), key, hash, QueueFull);
      SteadyTransitive(start, looked, Now());
      QuietlyAdmitted(start, looked, Now(), false);
    }

    /** The new job, the last record made, is recorded under the key. */
    method Confirm(key: Option<Key>, hash: Hash, id: JobId, ghost filled: set<JobId>, ghost start: State, ghost looked: State)
      requires Valid() && LookedUp(start, looked, key, hash) && Steady(looked, Now()) && Accounted(looked, Now())
      requires looked.next <= id && next == id + 1 && admissions == looked.admissions
      requires id in filled && |filled| <= MAX_RECORDS && store <= filled
      modifies this`admissions, this`store, this`clock
      ensures Admitted(start, Now(), key, hash, Accepted(id))
      ensures Accounted(start, Now()) && GrownBy(start, Now(), true)
    {
      hide Sound, Steady, Answered, Accounted, Forgotten, GrownBy;
      ghost var added := Now();
      StillForgotten(looked, added, key, hash, id);
      Remember(key, id, hash, filled);
      SteadyTransitive(looked, added, Now());
      AccountedLater(looked, added, Now());
      NewJob(start, looked, Now(), key, hash, id);
      SteadyTransitive(start, looked, Now());
      AccountedEarlier(start, looked, Now());
      QuietlyAdmitted(start, looked, Now(), true);
    }

    lemma AccountedEarlier(start: State, looked: State, s: State)
      requires Accounted(looked, s) && Steady(start, looked) && Steady(looked, s) && looked.next == start.next
      ensures Accounted(start, s)
    {
      forall id | start.next <= id < s.next
        ensures id in s.store || Taken(s, start.clock, id)
      {
        TakenLater(s, looked.clock, s, start.clock, id);
      }
    }

    /** What both handlers do once everything is prepared: `count` new records, the last of which is
        recorded under the key unless it does not fit into the queue. */
    method Admit(key: Option<Key>, hash: Hash, count: nat, room: bool, ghost start: State) returns (reply: Reply)
      requires Valid() && count > 0 && |store| + count <= MAX_RECORDS && LookedUp(start, Now(), key, hash)
      requires !room ==> count == 1
      modifies this
      ensures Admitted(start, Now(), key, hash, reply) && closing == old(closing)
      ensures next == old(next) + count && GrownBy(start, Now(), room)
      ensures if room then reply == Accepted(next - 1) && Accounted(start, Now()) else reply == QueueFull
    {
      hide Sound, Steady, Answered, Accounted, Forgotten, GrownBy, LookedUp;
      ghost var looked := Now();
      LookedUpMeans(start, looked, key, hash);
      var filled := NewRecords(count);
      var id := next - 1;
      if !room {
        Withdraw(key, hash, id, start, looked);
        return QueueFull;
      }
      Confirm(key, hash, id, filled, start, looked);
      return Accepted(id);
    }

    lemma LookedUpMeans(start: State, looked: State, key: Option<Key>, hash: Hash)
      requires LookedUp(start, looked, key, hash)
      ensures looked.next == start.next
    {
    }

    lemma NothingGrown(s: State)
      ensures GrownBy(s, s, false)
    {
    }

    lemma QuietlyAdmitted(start: State, looked: State, s: State, room: bool)
      requires Sound(looked) && Sound(s) && Steady(start, looked) && Steady(looked, s)
      requires looked.store <= start.store && looked.next == start.next
      requires if room then Accounted(looked, s) else s.store <= start.store
      ensures GrownBy(start, s, room)
    {
      if Quiet(s) {
        QuietlyGrown(start, looked);
        QuietlyGrown(looked, s);
      }
    }

    lemma WithdrawnLeavesNothing(looked: State, added: State, id: JobId)
      requires Steady(looked, added) && Sound(added) && looked.next == id && added.next == id + 1
      ensures added.store - {id} <= looked.store
    {
    }

    lemma StillForgotten(looked: State, added: State, key: Option<Key>, hash: Hash, id: JobId)
      requires Sound(looked) && Forgotten(looked, key, hash) && Steady(looked, added)
      requires added.admissions == looked.admissions && looked.next <= id
      ensures Forgotten(added, key, hash)
      ensures forall k :: k in added.admissions ==> added.admissions[k].id != id
    {
    }

    /** HandleStartDownload; `prepared` and `room` are the outcomes of prepareJob and Pool.Enqueue. */
    method StartDownload(key: Option<Key>, hash: Hash, prepared: bool, room: bool) returns (reply: Reply)
      requires Valid()
      modifies this
      ensures Admitted(old(Now()), Now(), key, hash, reply) && closing == old(closing)
      ensures reply.Accepted? && reply.id >= old(next) ==>
        && reply.id == old(next) && next == old(next) + 1 && Accounted(old(Now()), Now())
        && prepared && room && !closing
      ensures GrownBy(old(Now()), Now(), reply.Accepted? && reply.id >= old(next))
      ensures closing ==> next == old(next) && store <= old(store)
      ensures reply.AtCapacity? ==> closing || |old(store)| >= 1000
      ensures reply.Invalid? ==> !prepared
      ensures reply.QueueFull? ==> !room
    {
      hide Sound, Steady, Answered, Accounted, GrownBy, Forgotten;
      ghost var start := Now();
      var known := Lookup(key, hash);
      if known.Some? {
        return known.value;
      }
      if closing || |store| >= MAX_RECORDS {
        SteadyItself(Now());
        Refused(start, Now(), Now(), key, hash, AtCapacity);
        return AtCapacity;
      }
      if !prepared {
        SteadyItself(Now());
        Refused(start, Now(), Now(), key, hash, Invalid);
        return Invalid;
      }
      reply := Admit(key, hash, 1, room, start);
    }

    /** HandleStartBatch with `entries` children. */
    method StartBatch(key: Option<Key>, hash: Hash, entries: nat, prepared: bool) returns (reply: Reply)
      requires Valid()
      modifies this
      ensures entries == 0 || entries > 500 ==> reply.Invalid? && Now() == old(Now())
      ensures 0 < entries <= 500 ==> Admitted(old(Now()), Now(), key, hash, reply)
      ensures Valid() && closing == old(closing)
      ensures reply.Accepted? && reply.id >= old(next) ==>
        && next == old(next) + entries + 1 && reply.id == next - 1 && prepared && !closing
        && Accounted(old(Now()), Now())
      ensures GrownBy(old(Now()), Now(), reply.Accepted? && reply.id >= old(next))
      ensures closing ==> next == old(next) && store <= old(store)
      ensures reply.AtCapacity? ==> closing || |old(store)| + entries + 1 > 1000
      ensures reply.Invalid? ==> !prepared || entries == 0 || entries > 500
      ensures !reply.QueueFull?
    {
      hide Sound, Steady, Answered, Accounted, GrownBy, Forgotten;
      NothingGrown(Now());
      if entries == 0 || entries > MAX_ENTRIES {
        return Invalid;
      }
      ghost var start := Now();
      var known := Lookup(key, hash);
      if known.Some? {
        return known.value;
      }
      if closing || |store| + entries + 1 > MAX_RECORDS {
        SteadyItself(Now());
        Refused(start, Now(), Now(), key, hash, AtCapacity);
        return AtCapacity;
      }
      if !prepared {
        SteadyItself(Now());
        Refused(start, Now(), Now(), key, hash, Invalid);
        return Invalid;
      }
      reply := Admit(key, hash, entries + 1, true, start);
    }

    /** Close begins by refusing further work. */
    method BeginClosing()
      requires Valid()
      modifies this`closing
      ensures Valid() && closing && Now() == old(Now())
    {
      closing := true;
    }

    method Handle(r: Request) returns (reply: Reply)
      requires Valid()
      modifies this
      ensures Valid() && Steady(old(Now()), Now())
      ensures WrongSize(r) ==> reply.Invalid? && Now() == old(Now())
      ensures !WrongSize(r) ==> Answered(old(Now()), Now(), r.key, r.hash, reply)
      ensures closing == old(closing) && (closing ==> next == old(next) && store <= old(store))
    {
      hide Sound, Steady, Answered;
      SteadyItself(Now());
      match r
      case Single(key, hash, prepared, room) => reply := StartDownload(key, hash, prepared, room);
      case Playlist(key, hash, entries, prepared) => reply := StartBatch(key, hash, entries, prepared);
    }

    /** Any further requests, with anything that others remove in between. Once closing has begun none
        of them is admitted. */
    method HandleAll(requests: seq<Request>)
      requires Valid()
      modifies this
      ensures Valid() && Steady(old(Now()), Now())
      ensures closing == old(closing) && (closing ==> next == old(next) && store <= old(store))
    {
      hide Sound, Steady;
      ghost var start := Now();
      SteadyItself(start);
      var index := 0;
      while index < |requests|
        invariant index <= |requests| && Valid() && Sound(start) && Steady(start, Now())
        invariant closing == old(closing) && (closing ==> next == old(next) && store <= old(store))
      {
        ghost var before := Now();
        Interfere();
        SteadyTransitive(start, before, Now());
        before := Now();
        var reply := Handle(requests[index]);
        SteadyTransitive(start, before, Now());
        index := index + 1;
      }
    }

    /** Repeating a request under its key, after whatever other requests for downloads and batches, answers
        with the same job as long as that job is retained, and admits nothing new. */
    method RepeatedRequest(r: Request, requests: seq<Request>, again: Request)
      returns (first: Reply, second: Reply, ghost before: State)
      requires Valid() && r.key.Some? && again.key == r.key && again.hash == r.hash && (WrongSize(again) ==> WrongSize(r))
      modifies this
      ensures Valid()
      ensures first.Accepted? && first.id in store ==> second == first && next == before.next && store <= before.store
    {
      first := Handle(r);
      ghost var admitted := Now();
      HandleAll(requests);
      before := Now();
      second := Handle(again);
      if first.Accepted? && first.id in store {
        SameAnswer(admitted, before, Now(), r.key, r.hash, first, second);
      }
    }

    lemma SameAnswer(admitted: State, before: State, after: State, key: Option<Key>, hash: Hash, first: Reply, second: Reply)
      requires first.Accepted? && first.id in after.store && Sound(admitted) && first.id < admitted.next
      requires Known(admitted, key) && admitted.admissions[key.value] == Entry(first.id, hash)
      requires Steady(admitted, before) && Steady(before, after) && Answered(before, after, key, hash, second)
      ensures second == first && after.next == before.next && after.store <= before.store
    {
      assert first.id in before.store;
    }
  }
}
