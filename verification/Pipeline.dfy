/** From DownloadProgress.Update to the frames of an SSE client: records, bus, gateway and clients
    together, over all interleavings. */
module Pipeline {
  import opened Wrappers
  import opened Bus
  import D = Delivery
  import G = Gateway

  /** `inFlight` is a snapshot that Update has taken and not yet finished publishing; notifyMu allows one. */
  datatype Job = Job(version: nat, inFlight: Option<Snapshot>)

  /** A frame remembers the place in publication order of the entry it was made from. */
  datatype Frame = ProgressFrame(i: nat, snap: Snapshot) | ResyncFrame(key: nat)

  /** A snapshot that the listener took, when, and whether it made a frame of it. */
  datatype Hearing = Hearing(i: nat, snap: Snapshot, now: int, shown: bool)

  /** `pending` is a frame that the listener is about to broadcast; `since` is, for each client, the
      number of events published before it registered; `listening` is whether listenLoop is subscribed;
      `heard` is what the listener has made of the snapshots so far. */
  datatype State = State(
    jobs: map<JobId, Job>,
    d: D.State,
    filter: G.Filter,
    pending: Option<Frame>,
    hub: G.Hub<Frame>,
    since: map<nat, nat>,
    listening: bool,
    heard: seq<Hearing>)

  datatype Step =
    | Mutate(id: JobId, terminal: bool, progress: real)
    | Publish(id: JobId)
    | Delete                    // ProgressStore.Delete publishes a resync
    | Advance(own: D.Step)      // a step of a Publish that found the listener's buffer full
    | Listen(now: int)
    | StopListening             // after Close of the gateway; Unsubscribe waits for a Publish under way
    | Broadcast
    | Register(c: nat)
    | Client(step: G.HubStep<Frame>)

  predicate Idle(s: State, id: JobId) {
    id in s.jobs ==> s.jobs[id].inFlight.None?
  }

  predicate Enabled(s: State, step: Step) {
    match step
    case Mutate(id, _, _) => Idle(s, id)
    case Publish(id) => !Idle(s, id) && s.d.phase.Idle?
    case Delete => s.d.phase.Idle?
    case Advance(d) => !d.Offer? && !d.Receive? && D.Enabled(s.d, d)
    case Listen(_) => s.listening && s.pending.None? && s.d.buf != []
    case StopListening => s.listening && s.pending.None? && s.d.phase.Idle?
    case Broadcast => s.pending.Some?
    case Register(c) => G.HubEnabled(s.hub, G.Register(c))
    case Client(h) => !h.Register? && !h.Broadcast? && G.HubEnabled(s.hub, h)
  }

  function FrameOf(pub: seq<Event>, e: D.Entry): Frame
    requires e.Published? ==> e.i < |pub|
  {
    if D.EventOf(pub, e).Progress? then ProgressFrame(e.i, pub[e.i].snap) else ResyncFrame(D.Key(e))
  }

  /** Publishing ends the flight of the job whose snapshot went out. */
  function Landed(jobs: map<JobId, Job>, e: Event): map<JobId, Job> {
    if e.Progress? && e.snap.id in jobs then jobs[e.snap.id := jobs[e.snap.id].(inFlight := None)] else jobs
  }

  function Offered(s: State, e: Event): State
    requires s.d.phase.Idle?
  {
    if !s.listening then s.(jobs := Landed(s.jobs, e))
    else
      var d := D.Apply(s.d, D.Offer(e));
      s.(d := d, jobs := if d.phase.Idle? then Landed(s.jobs, e) else s.jobs)
  }

  /** A step of the Publish under way; its last send ends it. */
  function Advanced(s: State, step: D.Step): State
    requires !step.Offer? && !step.Receive? && D.Enabled(s.d, step)
  {
    s.(d := D.Apply(s.d, step), jobs := if step.SendEvent? then Landed(s.jobs, s.d.phase.e) else s.jobs)
  }

  /** The listener takes one entry and decides whether to show it. */
  function Heard(s: State, now: int): State
    requires s.d.buf != []
  {
    var e := s.d.buf[0];
    var d := D.Apply(s.d, D.Receive);
    if e.Published? && e.i < |s.d.pub| && s.d.pub[e.i].Progress? then
      var snap := s.d.pub[e.i].snap;
      var (filter, show) := G.Filtered(s.filter, snap, now);
      s.(d := d, filter := filter, pending := if show then Some(ProgressFrame(e.i, snap)) else None,
         heard := s.heard + [Hearing(e.i, snap, now, show)])
    else
      s.(d := d, pending := Some(ResyncFrame(D.Key(e))))
  }

  function Apply(s: State, step: Step): State
    requires Enabled(s, step)
  {
    match step
    case Mutate(id, terminal, progress) =>
      var v := (if id in s.jobs then s.jobs[id].version else 0) + 1;
      s.(jobs := s.jobs[id := Job(v, Some(Snapshot(id, v, terminal, progress)))])
    case Publish(id) => Offered(s, Progress(s.jobs[id].inFlight.value))
    case Delete => Offered(s, Resync)
    case Advance(d) => Advanced(s, d)
    case StopListening => s.(listening := false)
    case Listen(now) => Heard(s, now)
    case Broadcast => s.(pending := None, hub := G.HubApply(s.hub, G.HubStep.Broadcast(s.pending.value)))
    case Register(c) => s.(hub := G.HubApply(s.hub, G.Register(c)), since := s.since[c := |s.d.pub|])
    case Client(h) => s.(hub := G.HubApply(s.hub, h))
  }

  /** At the start the records are those restored from the history, with whatever versions they have. */
  function Init(restored: map<JobId, nat>): State {
    State(map id | id in restored :: Job(restored[id], None), D.Init(), G.Filter(map[], map[]), None,
          G.Hub(map[], [], false), map[], true, [])
  }

  function Exec(s: State, steps: seq<Step>): Option<State>
    decreases |steps|
  {
    if steps == [] then Some(s)
    else
      var last := |steps| - 1;
      var before := Exec(s, steps[..last]);
      if before.Some? && Enabled(before.value, steps[last]) then Some(Apply(before.value, steps[last])) else None
  }

  ghost predicate Reachable(s: State) {
    exists restored: map<JobId, nat>, steps: seq<Step> :: Exec(Init(restored), steps) == Some(s)
  }

  // ---------------------------------------------------------------- versions

  /** The versions of each job go up in publication order. */
  ghost predicate Ordered(pub: seq<Event>) {
    forall i, j :: 0 <= i < j < |pub| && pub[i].Progress? && pub[j].Progress? && pub[i].snap.id == pub[j].snap.id ==>
      pub[i].snap.version < pub[j].snap.version
  }

  /** A published snapshot is older than the record, and than a snapshot in flight. */
  ghost predicate Behind(jobs: map<JobId, Job>, snap: Snapshot) {
    && snap.id in jobs && 0 < snap.version <= jobs[snap.id].version
    && (jobs[snap.id].inFlight.Some? ==> snap.version < jobs[snap.id].version)
  }

  ghost predicate InFlight(jobs: map<JobId, Job>, snap: Snapshot) {
    snap.id in jobs && jobs[snap.id].inFlight == Some(snap) && 0 < snap.version == jobs[snap.id].version
  }

  ghost predicate VersionInv(s: State) {
    && Ordered(s.d.pub)
    && (forall i :: 0 <= i < |s.d.pub| && s.d.pub[i].Progress? ==> Behind(s.jobs, s.d.pub[i].snap))
    && (forall id :: id in s.jobs && s.jobs[id].inFlight.Some? ==>
          s.jobs[id].inFlight.value.id == id && InFlight(s.jobs, s.jobs[id].inFlight.value))
    && (!s.d.phase.Idle? && s.d.phase.e.Progress? ==> InFlight(s.jobs, s.d.phase.e.snap))
    && (!s.listening ==> s.d.phase.Idle?)
  }

  lemma LandingKeeps(s: State, s': State, e: Event)
    requires VersionInv(s) && (e.Progress? ==> InFlight(s.jobs, e.snap))
    requires s'.jobs == Landed(s.jobs, e) && s'.d.phase.Idle?
    requires s'.d.pub == s.d.pub + [e] || s'.d.pub == s.d.pub
    ensures VersionInv(s')
  {
    var n, m := |s.d.pub|, |s'.d.pub|;
    forall i | 0 <= i < m && s'.d.pub[i].Progress? ensures Behind(s'.jobs, s'.d.pub[i].snap) {
      if i < n {
        assert Behind(s.jobs, s.d.pub[i].snap);
      }
    }
    forall i, j | 0 <= i < j < m && s'.d.pub[i].Progress? && s'.d.pub[j].Progress?
                  && s'.d.pub[i].snap.id == s'.d.pub[j].snap.id
      ensures s'.d.pub[i].snap.version < s'.d.pub[j].snap.version
    {
      if j == n {
        assert Behind(s.jobs, s.d.pub[i].snap);
      }
    }
  }

  lemma VersionStep(s: State, step: Step)
    requires VersionInv(s) && Enabled(s, step)
    ensures VersionInv(Apply(s, step))
  {
    var s' := Apply(s, step);
    if step.Mutate? {
      forall i | 0 <= i < |s.d.pub| && s.d.pub[i].Progress? ensures Behind(s'.jobs, s.d.pub[i].snap) {
        assert Behind(s.jobs, s.d.pub[i].snap);
      }
    } else if (step.Publish? || step.Delete?) && s'.d.phase.Idle? {
      LandingKeeps(s, s', if step.Publish? then Progress(s.jobs[step.id].inFlight.value) else Resync);
    } else if step.Advance? && step.own.SendEvent? {
      LandingKeeps(s, s', s.d.phase.e);
    }
  }

  // ---------------------------------------------------------------- the listener

  /** The place in publication order of the last entry the listener took. */
  function LastKey(recv: seq<D.Entry>): int {
    if recv == [] then -1 else D.Key(recv[|recv| - 1])
  }

  ghost predicate Witness(pub: seq<Event>, last: int, id: JobId, version: nat, i: nat) {
    i < |pub| && 2 * i + 1 <= last && pub[i].Progress? && pub[i].snap.id == id && pub[i].snap.version == version
  }

  /** The filter only remembers versions of snapshots it has seen. */
  ghost predicate FilterInv(s: State) {
    forall id :: id in s.filter.versions ==>
      exists i :: Witness(s.d.pub, LastKey(s.d.recv), id, s.filter.versions[id], i)
  }

  /** Because snapshots arrive in version order, the version filter never drops one: clearing its
      map cannot let an older frame through. */
  lemma NeverStale(s: State)
    requires VersionInv(s) && D.Inv(s.d) && FilterInv(s) && s.d.buf != []
    requires s.d.buf[0].Published? && s.d.buf[0].i < |s.d.pub| && s.d.pub[s.d.buf[0].i].Progress?
    ensures !G.Stale(s.filter, s.d.pub[s.d.buf[0].i].snap)
  {
    var j := s.d.buf[0].i;
    var snap := s.d.pub[j].snap;
    if snap.id in s.filter.versions {
      var i :| Witness(s.d.pub, LastKey(s.d.recv), snap.id, s.filter.versions[snap.id], i);
      NextKey(s.d);
      assert i < j;
    }
  }

  lemma NextKey(d: D.State)
    requires D.Inv(d) && d.buf != []
    ensures LastKey(d.recv) < D.Key(d.buf[0]) <= 2 * |d.pub|
    ensures LastKey(D.Apply(d, D.Receive).recv) == D.Key(d.buf[0])
  {
    var all, n := D.All(d), |d.recv|;
    assert all[n] == d.buf[0];
    if n > 0 {
      assert all[n - 1] == d.recv[n - 1];
    }
  }

  /** A version the filter knew already. */
  lemma WitnessStays(pub: seq<Event>, last: int, pub': seq<Event>, last': int, id: JobId, version: nat)
    requires pub <= pub' && last <= last' && exists i :: Witness(pub, last, id, version, i)
    ensures exists i :: Witness(pub', last', id, version, i)
  {
    var i :| Witness(pub, last, id, version, i);
    assert Witness(pub', last', id, version, i);
  }

  lemma FilterListen(s: State, now: int)
    requires FilterInv(s) && D.Inv(s.d) && Enabled(s, Listen(now))
    ensures FilterInv(Heard(s, now))
  {
    var s' := Heard(s, now);
    NextKey(s.d);
    hide D.Inv;
    forall id | id in s'.filter.versions
      ensures exists i :: Witness(s'.d.pub, LastKey(s'.d.recv), id, s'.filter.versions[id], i)
    {
      if id in s.filter.versions && s'.filter.versions[id] == s.filter.versions[id] {
        WitnessStays(s.d.pub, LastKey(s.d.recv), s'.d.pub, LastKey(s'.d.recv), id, s.filter.versions[id]);
      } else {
        assert Witness(s'.d.pub, LastKey(s'.d.recv), id, s'.filter.versions[id], s.d.buf[0].i);
      }
    }
  }

  lemma FilterStep(s: State, step: Step)
    requires FilterInv(s) && D.Inv(s.d) && Enabled(s, step)
    ensures FilterInv(Apply(s, step))
  {
    hide D.Inv, Witness;
    var s' := Apply(s, step);
    PubGrows(s, step);
    if step.Listen? {
      FilterListen(s, step.now);
    } else {
      assert s'.filter == s.filter && s'.d.recv == s.d.recv;
      forall id | id in s'.filter.versions
        ensures exists i :: Witness(s'.d.pub, LastKey(s'.d.recv), id, s'.filter.versions[id], i)
      {
        WitnessStays(s.d.pub, LastKey(s.d.recv), s'.d.pub, LastKey(s'.d.recv), id, s.filter.versions[id]);
      }
    }
  }

  // ---------------------------------------------------------------- frames

  function FrameKey(f: Frame): int {
    match f
    case ProgressFrame(i, _) => 2 * i + 1
    case ResyncFrame(key) => key
  }

  /** Entries that the listener may not swallow: resyncs and terminal snapshots. */
  predicate MustShow(pub: seq<Event>, e: D.Entry) {
    e.Published? && e.i < |pub| && pub[e.i].Progress? ==> pub[e.i].snap.terminal
  }

  ghost predicate Faithful(pub: seq<Event>, f: Frame) {
    f.ProgressFrame? ==> f.i < |pub| && pub[f.i] == Progress(f.snap)
  }

  /** All frames made so far, the pending one last. */
  function Frames(s: State): seq<Frame> {
    s.hub.broadcasts + if s.pending.Some? then [s.pending.value] else []
  }

  ghost predicate FrameInv(s: State) {
    && (forall x, y :: 0 <= x < y < |Frames(s)| ==> FrameKey(Frames(s)[x]) < FrameKey(Frames(s)[y]))
    && (forall x :: 0 <= x < |Frames(s)| ==> FrameKey(Frames(s)[x]) <= LastKey(s.d.recv) && Faithful(s.d.pub, Frames(s)[x]))
    && (forall k :: 0 <= k < |s.d.recv| && MustShow(s.d.pub, s.d.recv[k]) ==> Shown(s, s.d.recv[k]))
  }

  ghost predicate Shown(s: State, e: D.Entry) {
    (e.Published? ==> e.i < |s.d.pub|) && FrameOf(s.d.pub, e) in Frames(s)
  }

  /** Publishing does not change what earlier entries mean. */
  lemma PublishKeepsFrames(s: State, s': State)
    requires FrameInv(s) && D.Inv(s.d)
    requires s.d.pub <= s'.d.pub && s'.d.recv == s.d.recv && s'.pending == s.pending && s'.hub == s.hub
    ensures FrameInv(s')
  {
    assert Frames(s') == Frames(s);
    forall x | 0 <= x < |Frames(s)| ensures Faithful(s'.d.pub, Frames(s)[x]) {
      assert Faithful(s.d.pub, Frames(s)[x]);
    }
    forall k | 0 <= k < |s'.d.recv| && MustShow(s'.d.pub, s'.d.recv[k]) ensures Shown(s', s'.d.recv[k]) {
      assert D.All(s.d)[k] == s.d.recv[k];
      assert MustShow(s.d.pub, s.d.recv[k]) && Shown(s, s.d.recv[k]);
    }
  }

  /** Listening makes at most one frame, and makes one for every entry that must be shown. */
  lemma ListenMakesFrame(s: State, now: int)
    requires D.Inv(s.d) && VersionInv(s) && FilterInv(s) && Enabled(s, Listen(now))
    ensures var s', e := Heard(s, now), s.d.buf[0];
      && LastKey(s.d.recv) < LastKey(s'.d.recv) == D.Key(e)
      && s'.d.pub == s.d.pub && s'.d.recv == s.d.recv + [e] && s'.hub == s.hub
      && (e.Published? ==> e.i < |s.d.pub|)
      && FrameKey(FrameOf(s.d.pub, e)) == D.Key(e) && Faithful(s.d.pub, FrameOf(s.d.pub, e))
      && (s'.pending == Some(FrameOf(s.d.pub, e)) || (s'.pending.None? && !MustShow(s.d.pub, e)))
  {
    var e := s.d.buf[0];
    NextKey(s.d);
    if e.Published? && s.d.pub[e.i].Progress? {
      NeverStale(s);
    }
  }

  lemma ListenKeepsFrames(s: State, now: int)
    requires FrameInv(s) && D.Inv(s.d) && VersionInv(s) && FilterInv(s) && Enabled(s, Listen(now))
    ensures FrameInv(Heard(s, now))
  {
    hide D.Inv, VersionInv, FilterInv, Heard;
    var s', e := Heard(s, now), s.d.buf[0];
    ListenMakesFrame(s, now);
    assert Frames(s) == s.hub.broadcasts && Frames(s) <= Frames(s');
    forall k | 0 <= k < |s'.d.recv| && MustShow(s'.d.pub, s'.d.recv[k]) ensures Shown(s', s'.d.recv[k]) {
      if k < |s.d.recv| {
        assert Shown(s, s.d.recv[k]);
      } else {
        assert Frames(s')[|Frames(s)|] == FrameOf(s.d.pub, e);
      }
    }
  }

  lemma FrameStep(s: State, step: Step)
    requires FrameInv(s) && D.Inv(s.d) && VersionInv(s) && FilterInv(s) && Enabled(s, step)
    ensures FrameInv(Apply(s, step))
  {
    hide FrameInv, D.Inv, VersionInv, FilterInv;
    if step.Listen? {
      ListenKeepsFrames(s, step.now);
    } else if step.Broadcast? || step.Register? || step.Client? {
      HubMovesFrames(s, step);
      SameFrames(s, Apply(s, step));
    } else {
      PubGrows(s, step);
      PublishKeepsFrames(s, Apply(s, step));
    }
  }

  /** A frame moves from the listener's hand into the broadcasts, or nothing happens to the frames. */
  lemma HubMovesFrames(s: State, step: Step)
    requires Enabled(s, step) && (step.Broadcast? || step.Register? || step.Client?)
    ensures Frames(Apply(s, step)) == Frames(s) && Apply(s, step).d == s.d
  {
  }

  lemma SameFrames(s: State, s': State)
    requires FrameInv(s) && Frames(s') == Frames(s) && s'.d == s.d
    ensures FrameInv(s')
  {
    hide FrameOf, MustShow;
    assert forall e :: Shown(s, e) ==> Shown(s', e);
  }

  // ---------------------------------------------------------------- what is shown

  /** The last snapshot of a job that was shown. */
  function LastShown(heard: seq<Hearing>, id: JobId): Option<Hearing>
    decreases |heard|
  {
    if heard == [] then None
    else
      var last := heard[|heard| - 1];
      if last.shown && last.snap.id == id then Some(last) else LastShown(heard[..|heard| - 1], id)
  }

  /** The throttle knows of each job what was shown last, unless that was its end. */
  ghost predicate Remembers(throttle: map<JobId, G.Meta>, heard: seq<Hearing>) {
    forall id :: var last := LastShown(heard, id);
      && (id in throttle <==> last.Some? && !last.value.snap.terminal)
      && (id in throttle ==> throttle[id] == G.Meta(last.value.now, last.value.snap.progress))
  }

  /** There is something new to show: the end of a job, its beginning, half a percent, or half a second. */
  predicate News(last: Option<Hearing>, h: Hearing) {
    || h.snap.terminal || last.None? || last.value.snap.terminal
    || h.snap.progress - last.value.snap.progress >= 0.5 || last.value.snap.progress - h.snap.progress >= 0.5
    || h.now - last.value.now >= 500
  }

  ghost predicate ShownIfNews(heard: seq<Hearing>) {
    forall k :: 0 <= k < |heard| ==> heard[k].shown == News(LastShown(heard[..k], heard[k].snap.id), heard[k])
  }

  lemma HearOne(filter: G.Filter, heard: seq<Hearing>, i: nat, snap: Snapshot, now: int)
    requires Remembers(filter.throttle, heard) && ShownIfNews(heard) && !G.Stale(filter, snap)
    ensures var (filter', show) := G.Filtered(filter, snap, now);
      var more := heard + [Hearing(i, snap, now, show)];
      Remembers(filter'.throttle, more) && ShownIfNews(more)
  {
    var (filter', show) := G.Filtered(filter, snap, now);
    var more := heard + [Hearing(i, snap, now, show)];
    assert more[..|heard|] == heard;
    forall k | 0 <= k < |more|
      ensures more[k].shown == News(LastShown(more[..k], more[k].snap.id), more[k])
    {
      assert k < |heard| ==> more[..k] == heard[..k];
    }
  }

  /** Each snapshot is taken once, in publication order, and none is passed over. */
  ghost predicate HeardInv(s: State) {
    && (forall k, l :: 0 <= k < l < |s.heard| ==> s.heard[k].i < s.heard[l].i)
    && (forall k :: 0 <= k < |s.heard| ==> 2 * s.heard[k].i + 1 <= LastKey(s.d.recv))
    && (forall k :: 0 <= k < |s.heard| ==> s.heard[k].i < |s.d.pub| && s.d.pub[s.heard[k].i] == Progress(s.heard[k].snap))
    && (forall e :: e in s.d.recv && e.Published? ==> IsHeard(s, e.i))
  }

  /** The frames of snapshots are those of the shown ones. */
  ghost predicate SentInv(s: State) {
    && (forall f :: f in Frames(s) && f.ProgressFrame? ==> Makes(s.heard, f))
    && (forall k :: 0 <= k < |s.heard| && s.heard[k].shown ==> ProgressFrame(s.heard[k].i, s.heard[k].snap) in Frames(s))
  }

  /** A published snapshot was taken by the listener. */
  ghost predicate IsHeard(s: State, i: nat) {
    i < |s.d.pub| && (s.d.pub[i].Progress? ==> exists k :: 0 <= k < |s.heard| && s.heard[k].i == i)
  }

  ghost predicate Makes(heard: seq<Hearing>, f: Frame)
    requires f.ProgressFrame?
  {
    exists k :: 0 <= k < |heard| && heard[k].shown && heard[k].i == f.i && heard[k].snap == f.snap
  }

  ghost predicate ShowInv(s: State) {
    HeardInv(s) && SentInv(s) && Remembers(s.filter.throttle, s.heard) && ShownIfNews(s.heard)
  }

  lemma SameShow(s: State, s': State)
    requires ShowInv(s) && s'.heard == s.heard && s'.filter == s.filter && Frames(s') == Frames(s)
    requires s'.d.recv == s.d.recv && s.d.pub <= s'.d.pub
    ensures ShowInv(s')
  {
    forall e | e in s'.d.recv && e.Published?
      ensures IsHeard(s', e.i)
    {
      assert IsHeard(s, e.i);
    }
  }

  lemma HeardEntries(s: State, now: int, e: D.Entry)
    requires HeardInv(s) && D.Inv(s.d) && Enabled(s, Listen(now)) && e in Heard(s, now).d.recv && e.Published?
    ensures IsHeard(Heard(s, now), e.i)
  {
    hide D.Inv, G.Filtered;
    var s' := Heard(s, now);
    EntryInRange(s.d);
    if e in s.d.recv {
      assert IsHeard(s, e.i);
      if s.d.pub[e.i].Progress? {
        var k :| 0 <= k < |s.heard| && s.heard[k].i == e.i;
        assert s'.heard[k] == s.heard[k];
      }
    } else if s.d.pub[e.i].Progress? {
      assert s'.heard[|s.heard|].i == e.i;
    }
  }

  lemma EntryInRange(d: D.State)
    requires D.Inv(d) && d.buf != []
    ensures d.buf[0].Published? ==> d.buf[0].i < |d.pub|
  {
    NextKey(d);
  }

  lemma ListenHears(s: State, now: int)
    requires HeardInv(s) && D.Inv(s.d) && Enabled(s, Listen(now))
    ensures HeardInv(Heard(s, now))
  {
    hide D.Inv, G.Filtered;
    var s' := Heard(s, now);
    NextKey(s.d);
    EntryInRange(s.d);
    forall e | e in s'.d.recv && e.Published?
      ensures IsHeard(s', e.i)
    {
      HeardEntries(s, now, e);
    }
  }

  lemma ListenSends(s: State, now: int)
    requires SentInv(s) && Enabled(s, Listen(now))
    ensures SentInv(Heard(s, now))
  {
    hide G.Filtered;
    var s' := Heard(s, now);
    assert Frames(s) == s.hub.broadcasts && Frames(s) <= Frames(s');
    forall f | f in Frames(s') && f.ProgressFrame?
      ensures Makes(s'.heard, f)
    {
      if f in Frames(s) {
        var k :| 0 <= k < |s.heard| && s.heard[k].shown && s.heard[k].i == f.i && s.heard[k].snap == f.snap;
        assert s'.heard[k] == s.heard[k];
      } else {
        assert s'.heard[|s.heard|].i == f.i;
      }
    }
    forall k | 0 <= k < |s'.heard| && s'.heard[k].shown
      ensures ProgressFrame(s'.heard[k].i, s'.heard[k].snap) in Frames(s')
    {
      if k == |s.heard| {
        assert Frames(s')[|Frames(s)|] == ProgressFrame(s'.heard[k].i, s'.heard[k].snap);
      }
    }
  }

  lemma ListenShows(s: State, now: int)
    requires ShowInv(s) && D.Inv(s.d) && VersionInv(s) && FilterInv(s) && Enabled(s, Listen(now))
    ensures ShowInv(Heard(s, now))
  {
    hide D.Inv, VersionInv, FilterInv, G.Filtered, Remembers, ShownIfNews, HeardInv, SentInv;
    var e := s.d.buf[0];
    ListenHears(s, now);
    ListenSends(s, now);
    if e.Published? && e.i < |s.d.pub| && s.d.pub[e.i].Progress? {
      NeverStale(s);
      HearOne(s.filter, s.heard, e.i, s.d.pub[e.i].snap, now);
    }
  }

  lemma ShowStep(s: State, step: Step)
    requires ShowInv(s) && D.Inv(s.d) && VersionInv(s) && FilterInv(s) && Enabled(s, step)
    ensures ShowInv(Apply(s, step))
  {
    hide ShowInv, D.Inv, VersionInv, FilterInv;
    if step.Listen? {
      ListenShows(s, step.now);
    } else {
      if step.Broadcast? || step.Register? || step.Client? {
        HubMovesFrames(s, step);
      } else {
        PubGrows(s, step);
      }
      SameShow(s, Apply(s, step));
    }
  }

  // ---------------------------------------------------------------- clients

  /** A client's stretch of broadcasts begins after frames that are older than its registration;
      `n` is the number of events published. */
  ghost predicate Since(since: map<nat, nat>, n: nat, hub: G.Hub<Frame>) {
    && since.Keys == hub.clients.Keys
    && forall c :: c in since ==>
      && since[c] <= n
      && hub.clients[c].start <= |hub.broadcasts|
      && forall x :: 0 <= x < hub.clients[c].start ==> FrameKey(hub.broadcasts[x]) <= 2 * since[c]
  }

  ghost predicate SinceInv(s: State) {
    Since(s.since, |s.d.pub|, s.hub)
  }

  lemma SinceGrows(since: map<nat, nat>, n: nat, hub: G.Hub<Frame>, n': nat, hub': G.Hub<Frame>)
    requires Since(since, n, hub) && n <= n'
    requires hub.broadcasts <= hub'.broadcasts && hub'.clients.Keys == hub.clients.Keys
    requires forall c :: c in hub.clients ==> hub'.clients[c].start == hub.clients[c].start
    ensures Since(since, n', hub')
  {
  }

  lemma SinceRegister(s: State, c: nat)
    requires SinceInv(s) && FrameInv(s) && D.Inv(s.d) && Enabled(s, Register(c))
    ensures SinceInv(Apply(s, Register(c)))
  {
    LastKeyBound(s.d);
    forall x | 0 <= x < |s.hub.broadcasts|
      ensures FrameKey(s.hub.broadcasts[x]) <= 2 * |s.d.pub|
    {
      assert Frames(s)[x] == s.hub.broadcasts[x];
    }
  }

  lemma HubGrows(h: G.Hub<Frame>, step: G.HubStep<Frame>)
    requires G.HubEnabled(h, step)
    ensures var h' := G.HubApply(h, step);
      && h.broadcasts <= h'.broadcasts && h.clients.Keys <= h'.clients.Keys
      && (forall c :: c in h.clients ==> h'.clients[c].start == h.clients[c].start)
      && (!step.Register? ==> h'.clients.Keys == h.clients.Keys)
  {
  }

  lemma PubGrows(s: State, step: Step)
    requires Enabled(s, step)
    ensures s.d.pub <= Apply(s, step).d.pub
  {
  }

  lemma SinceStep(s: State, step: Step)
    requires SinceInv(s) && FrameInv(s) && D.Inv(s.d) && Enabled(s, step)
    ensures SinceInv(Apply(s, step))
  {
    hide Since, FrameInv, D.Inv, G.HubApply;
    PubGrows(s, step);
    var s' := Apply(s, step);
    if step.Register? {
      SinceRegister(s, step.c);
    } else if step.Broadcast? {
      HubGrows(s.hub, G.HubStep.Broadcast(s.pending.value));
      SinceGrows(s.since, |s.d.pub|, s.hub, |s'.d.pub|, s'.hub);
    } else if step.Client? {
      HubGrows(s.hub, step.step);
      SinceGrows(s.since, |s.d.pub|, s.hub, |s'.d.pub|, s'.hub);
    } else {
      SinceGrows(s.since, |s.d.pub|, s.hub, |s'.d.pub|, s'.hub);
    }
  }

  lemma LastKeyBound(d: D.State)
    requires D.Inv(d)
    ensures LastKey(d.recv) <= 2 * |d.pub|
  {
    if d.recv != [] {
      assert D.All(d)[|d.recv| - 1] == d.recv[|d.recv| - 1];
    }
  }

  ghost predicate Inv(s: State) {
    D.Inv(s.d) && VersionInv(s) && FilterInv(s) && FrameInv(s) && ShowInv(s) && SinceInv(s) && G.HubInv(s.hub)
  }

  lemma InvStep(s: State, step: Step)
    requires Inv(s) && Enabled(s, step)
    ensures Inv(Apply(s, step))
  {
    VersionStep(s, step);
    FilterStep(s, step);
    FrameStep(s, step);
    ShowStep(s, step);
    SinceStep(s, step);
    ComponentStep(s, step);
  }

  lemma ComponentStep(s: State, step: Step)
    requires D.Inv(s.d) && G.HubInv(s.hub) && Enabled(s, step)
    ensures D.Inv(Apply(s, step).d) && G.HubInv(Apply(s, step).hub)
  {
    match step
    case Mutate(_, _, _) =>
    case Publish(id) =>
      if s.listening {
        D.StepKeeps(s.d, D.Offer(Progress(s.jobs[id].inFlight.value)));
      }
    case Delete =>
      if s.listening {
        D.StepKeeps(s.d, D.Offer(Resync));
      }
    case Advance(d) => D.StepKeeps(s.d, d);
    case StopListening =>
    case Listen(_) => D.StepKeeps(s.d, D.Receive);
    case Broadcast => G.HubKeeps(s.hub, G.HubStep.Broadcast(s.pending.value));
    case Register(c) => G.HubKeeps(s.hub, G.HubStep<Frame>.Register(c));
    case Client(h) => G.HubKeeps(s.hub, h);
  }

  lemma InitShows(restored: map<JobId, nat>)
    ensures ShowInv(Init(restored))
  {
  }

  lemma InitVersions(restored: map<JobId, nat>)
    ensures VersionInv(Init(restored)) && FilterInv(Init(restored))
  {
  }

  lemma InitFrames(restored: map<JobId, nat>)
    ensures FrameInv(Init(restored))
  {
  }

  lemma InitComponents(restored: map<JobId, nat>)
    ensures D.Inv(Init(restored).d) && SinceInv(Init(restored)) && G.HubInv(Init(restored).hub)
  {
  }

  lemma InitHolds(restored: map<JobId, nat>)
    ensures Inv(Init(restored))
  {
    hide ShowInv, VersionInv, FilterInv, FrameInv, D.Inv, SinceInv, G.HubInv, Init;
    InitShows(restored);
    InitVersions(restored);
    InitFrames(restored);
    InitComponents(restored);
  }

  lemma {:induction false} RunKeepsInv(restored: map<JobId, nat>, steps: seq<Step>)
    requires Exec(Init(restored), steps).Some?
    ensures Inv(Exec(Init(restored), steps).value)
    decreases |steps|
  {
    InitHolds(restored);
    hide Inv, Init, Apply, Enabled;
    if steps != [] {
      var last := |steps| - 1;
      RunKeepsInv(restored, steps[..last]);
      InvStep(Exec(Init(restored), steps[..last]).value, steps[last]);
    }
  }

  lemma ReachableHolds(s: State)
    requires Reachable(s)
    ensures Inv(s)
  {
    var restored: map<JobId, nat>, steps: seq<Step> :| Exec(Init(restored), steps) == Some(s);
    RunKeepsInv(restored, steps);
  }

  // ---------------------------------------------------------------- theorems

  /** The entry that stands for event i: its own, or a later resync. */
  lemma EntryFor(s: State, i: nat) returns (e: D.Entry)
    requires D.Inv(s.d) && (s.d.phase.Idle? || s.d.phase.Sending?) && i < |s.d.pub|
    ensures e in s.d.recv || e in s.d.buf
    ensures D.Key(e) <= 2 * |s.d.pub|
    ensures e == D.Published(i) || (e.Overflow? && e.at > i)
  {
    assert s.d.phase.Idle? ==> D.Covered(D.All(s.d), i);
    if s.d.phase.Sending? {
      e := D.Overflow(|s.d.pub|);
    } else if D.Published(i) in D.All(s.d) {
      e := D.Published(i);
    } else {
      var m :| m > i && D.Overflow(m) in D.All(s.d);
      e := D.Overflow(m);
    }
    var k :| 0 <= k < |D.All(s.d)| && D.All(s.d)[k] == e;
  }

  lemma BroadcastIsSeen(client: G.Client<Frame>, broadcasts: seq<Frame>, closed: bool, x: nat)
    requires G.ClientInv(client, broadcasts, closed) && client.registered && client.start <= x < |broadcasts|
    ensures broadcasts[x] in G.Seen(client)
  {
    assert G.Seen(client)[x - client.start] == broadcasts[x];
  }

  /** A registered client has every broadcast frame from after its registration. */
  lemma BroadcastReaches(s: State, c: nat, f: Frame)
    requires SinceInv(s) && G.HubInv(s.hub) && c in s.since && s.hub.clients[c].registered
    requires f in s.hub.broadcasts && FrameKey(f) > 2 * s.since[c]
    ensures f in G.Seen(s.hub.clients[c])
  {
    hide G.ClientInv, G.Seen;
    var client, b := s.hub.clients[c], s.hub.broadcasts;
    var x :| 0 <= x < |b| && b[x] == f;
    assert x >= client.start;
    assert G.ClientInv(client, b, s.hub.closed);
    BroadcastIsSeen(client, b, s.hub.closed, x);
  }

  lemma ReceivedIsShown(s: State, e: D.Entry)
    requires FrameInv(s) && e in s.d.recv && MustShow(s.d.pub, e)
    ensures Shown(s, e)
  {
    var k :| 0 <= k < |s.d.recv| && s.d.recv[k] == e;
  }

  /** End to end. Take a client still registered and a terminal update published since it registered,
      while the gateway has not stopped listening. That update's frame, or a resync frame from a later
      place in publication order, is on the client's channel or taken from it, or on its way: about to be
      broadcast, made from an entry the listener has yet to take, or the resync that a Publish which has
      found the buffer full is about to send. */
  lemma TerminalUpdateArrives(s: State, c: nat, i: nat) returns (f: Frame)
    requires Reachable(s) && s.listening
    requires c in s.since && c in s.hub.clients && s.hub.clients[c].registered && s.since[c] <= i < |s.d.pub|
    requires s.d.pub[i].Progress? && s.d.pub[i].snap.terminal
    ensures f == ProgressFrame(i, s.d.pub[i].snap) || (f.ResyncFrame? && f.key > 2 * i + 1)
    ensures || f in G.Seen(s.hub.clients[c])
            || s.pending == Some(f)
            || (exists e :: e in s.d.buf && (e.Published? ==> e.i < |s.d.pub|) && FrameOf(s.d.pub, e) == f)
            || ((s.d.phase.Draining? || s.d.phase.Resyncing?) && f == FrameOf(s.d.pub, D.Overflow(|s.d.pub|)))
  {
    if s.d.phase.Draining? || s.d.phase.Resyncing? {
      return FrameOf(s.d.pub, D.Overflow(|s.d.pub|));
    }
    assert Inv(s) by {
      ReachableHolds(s);
    }
    var e := EntryFor(s, i);
    f := FrameOf(s.d.pub, e);
    if e in s.d.recv {
      ReceivedIsShown(s, e);
      if s.pending != Some(f) {
        BroadcastReaches(s, c, f);
      }
    }
  }

  /** Over all interleavings of broadcasts, evictions, disconnects and Close: a registered client's
      channel is open, so that no send hits a closed one; a channel is closed at most once; and what a
      client has received is a gap-free stretch of the broadcasts from its registration on. */
  lemma ClientsSeeAPrefix(s: State, c: nat)
    requires Reachable(s) && c in s.hub.clients
    ensures var client := s.hub.clients[c];
      && (client.registered ==> client.closes == 0 && !s.hub.closed)
      && client.closes <= 1 && |client.ch| <= CAPACITY
      && client.start <= |s.hub.broadcasts| && client.got <= s.hub.broadcasts[client.start..]
      && (client.registered ==> client.got + client.ch == s.hub.broadcasts[client.start..])
  {
    assert G.HubInv(s.hub) by {
      ReachableHolds(s);
    }
    G.SendsHitOpenChannels(s.hub, c);
    assert G.ClientInv(s.hub.clients[c], s.hub.broadcasts, s.hub.closed);
  }

  /** The progress frames that a client sees for one job carry strictly increasing versions, in
      every reachable state and whatever was cleared from the gateway's version map. */
  lemma VersionsIncrease(s: State, c: nat, x: nat, y: nat)
    requires Reachable(s) && c in s.hub.clients
    requires x < y < |G.Seen(s.hub.clients[c])|
    requires var seen := G.Seen(s.hub.clients[c]);
      seen[x].ProgressFrame? && seen[y].ProgressFrame? && seen[x].snap.id == seen[y].snap.id
    ensures var seen := G.Seen(s.hub.clients[c]); seen[x].snap.version < seen[y].snap.version
  {
    assert Inv(s) by {
      ReachableHolds(s);
    }
    var u, v := SeenAt(s, c, x), SeenAt(s, c, y);
    assert FrameKey(Frames(s)[u]) < FrameKey(Frames(s)[v]);
    assert Faithful(s.d.pub, Frames(s)[u]) && Faithful(s.d.pub, Frames(s)[v]);
  }

  function SeenAt(s: State, c: nat, x: nat): (u: nat)
    requires G.HubInv(s.hub) && c in s.hub.clients && x < |G.Seen(s.hub.clients[c])|
    ensures u == s.hub.clients[c].start + x && u < |Frames(s)| && Frames(s)[u] == G.Seen(s.hub.clients[c])[x]
  {
    assert G.ClientInv(s.hub.clients[c], s.hub.broadcasts, s.hub.closed);
    s.hub.clients[c].start + x
  }

  /** Snapshot j is the last one of its job that was shown before k, and not the job's end. */
  ghost predicate ShownBefore(heard: seq<Hearing>, j: nat, k: nat)
    requires j < k < |heard|
  {
    && heard[j].shown && heard[j].snap.id == heard[k].snap.id && !heard[j].snap.terminal
    && forall m :: j < m < k && heard[m].snap.id == heard[k].snap.id ==> !heard[m].shown
  }

  ghost predicate IsLastShown(heard: seq<Hearing>, j: nat, h: Hearing) {
    && j < |heard| && heard[j] == h
    && forall m :: j < m < |heard| && heard[m].snap.id == h.snap.id ==> !heard[m].shown
  }

  lemma {:induction false} LastShownIs(heard: seq<Hearing>, id: JobId)
    ensures var last := LastShown(heard, id);
      if last.None? then forall m :: 0 <= m < |heard| && heard[m].snap.id == id ==> !heard[m].shown
      else last.value.shown && last.value.snap.id == id && exists j: nat :: IsLastShown(heard, j, last.value)
    decreases |heard|
  {
    if heard != [] {
      var rest, last := heard[..|heard| - 1], heard[|heard| - 1];
      LastShownIs(rest, id);
      if last.shown && last.snap.id == id {
        assert IsLastShown(heard, |heard| - 1, last);
      } else if LastShown(rest, id).Some? {
        var j: nat :| IsLastShown(rest, j, LastShown(rest, id).value);
        assert IsLastShown(heard, j, LastShown(rest, id).value);
      }
    }
  }

  /** A snapshot that the listener takes is swallowed exactly if it does not end its job and the last one
      of the job that was shown did not either, had progress less than half a percent away, and was shown
      less than half a second before. So the first snapshot of a job is shown, and its end always. */
  lemma SwallowedIff(s: State, k: nat)
    requires Reachable(s) && k < |s.heard|
    ensures var h := s.heard[k];
      !h.shown <==>
        && !h.snap.terminal
        && (exists j: nat :: j < k && ShownBefore(s.heard, j, k)
              && -0.5 < h.snap.progress - s.heard[j].snap.progress < 0.5 && h.now - s.heard[j].now < 500)
  {
    assert ShownIfNews(s.heard) by {
      ReachableHolds(s);
    }
    hide Reachable, ShownIfNews, ShownBefore;
    SwallowedAt(s.heard, k);
  }

  lemma SwallowedAt(heard: seq<Hearing>, k: nat)
    requires ShownIfNews(heard) && k < |heard|
    ensures !heard[k].shown <==>
      && !heard[k].snap.terminal
      && (exists j: nat :: j < k && ShownBefore(heard, j, k)
            && -0.5 < heard[k].snap.progress - heard[j].snap.progress < 0.5 && heard[k].now - heard[j].now < 500)
  {
    var h, before := heard[k], heard[..k];
    LastShownIs(before, h.snap.id);
    hide LastShown;
    var last := LastShown(before, h.snap.id);
    assert h.shown == News(last, h);
    assert forall m :: 0 <= m < k ==> heard[m] == before[m];
    if last.Some? {
      var j: nat :| IsLastShown(before, j, last.value);
      assert !last.value.snap.terminal ==> ShownBefore(heard, j, k);
      assert forall l: nat :: l < k && ShownBefore(heard, l, k) ==> l == j;
    }
  }

  /** The listener passes over no snapshot. */
  lemma EverySnapshotIsHeard(s: State, i: nat)
    requires Reachable(s) && D.Published(i) in s.d.recv && i < |s.d.pub| && s.d.pub[i].Progress?
    ensures exists k :: 0 <= k < |s.heard| && s.heard[k].i == i && s.heard[k].snap == s.d.pub[i].snap
  {
    assert HeardInv(s) by {
      ReachableHolds(s);
    }
    assert IsHeard(s, i);
  }

  /** The frames that clients are sent are exactly the shown snapshots and the resyncs. */
  lemma ShownIsSent(s: State, k: nat)
    requires Reachable(s) && k < |s.heard|
    ensures s.heard[k].shown <==> ProgressFrame(s.heard[k].i, s.heard[k].snap) in Frames(s)
  {
    assert HeardInv(s) && SentInv(s) by {
      ReachableHolds(s);
    }
    var f := ProgressFrame(s.heard[k].i, s.heard[k].snap);
    if f in Frames(s) {
      assert Makes(s.heard, f);
    }
  }

  /** Nothing is under way between a record and a client that is registered and has room. */
  ghost predicate AtRest(s: State, c: nat) {
    && s.listening && s.pending.None? && s.d.phase.Idle? && s.d.buf == []
    && c in s.hub.clients && s.hub.clients[c].registered && |s.hub.clients[c].ch| < 100
  }

  /** From such a state the end of a job goes all the way: Update takes the next version, Publish hands it to the
      listener, the listener makes a frame, and the broadcast puts it on the client's channel. */
  lemma UpdateReachesClient(s: State, c: nat, id: JobId, progress: real, now: int)
    returns (mutated: State, published: State, heard: State, sent: State)
    requires Reachable(s) && AtRest(s, c) && Idle(s, id)
    ensures Enabled(s, Mutate(id, true, progress)) && mutated == Apply(s, Mutate(id, true, progress))
    ensures Enabled(mutated, Publish(id)) && published == Apply(mutated, Publish(id))
    ensures Enabled(published, Listen(now)) && heard == Apply(published, Listen(now))
    ensures Enabled(heard, Broadcast) && sent == Apply(heard, Broadcast)
    ensures var snap := Snapshot(id, (if id in s.jobs then s.jobs[id].version else 0) + 1, true, progress);
      && published.d.pub == s.d.pub + [Progress(snap)] && AtRest(heard.(pending := None), c)
      && c in sent.hub.clients && G.Seen(sent.hub.clients[c]) == G.Seen(s.hub.clients[c]) + [ProgressFrame(|s.d.pub|, snap)]
  {
    hide Inv, Reachable, G.HubApply, Heard, G.Seen;
    ReachableHolds(s);
    mutated, published := EndIsPublished(s, id, progress);
    heard := EndIsHeard(published, now);
    sent := Apply(heard, Broadcast);
    SentToClient(heard, c);
  }

  lemma EndIsPublished(s: State, id: JobId, progress: real) returns (mutated: State, published: State)
    requires Inv(s) && s.listening && s.d.phase.Idle? && s.d.buf == [] && Idle(s, id)
    ensures Enabled(s, Mutate(id, true, progress)) && mutated == Apply(s, Mutate(id, true, progress))
    ensures Enabled(mutated, Publish(id)) && published == Apply(mutated, Publish(id)) && Inv(published)
    ensures var snap := Snapshot(id, (if id in s.jobs then s.jobs[id].version else 0) + 1, true, progress);
      published.d.pub == s.d.pub + [Progress(snap)] && published.d.buf == [D.Published(|s.d.pub|)] && published.d.phase.Idle?
    ensures published.hub == s.hub && published.listening && published.pending == s.pending
  {
    hide Inv;
    mutated := Apply(s, Mutate(id, true, progress));
    published := Apply(mutated, Publish(id));
    InvStep(s, Mutate(id, true, progress));
    InvStep(mutated, Publish(id));
  }

  lemma EndIsHeard(s: State, now: int) returns (heard: State)
    requires Inv(s) && s.listening && s.pending.None? && s.d.pub != [] && s.d.buf == [D.Published(|s.d.pub| - 1)]
    requires var e := s.d.pub[|s.d.pub| - 1]; e.Progress? && e.snap.terminal
    ensures Enabled(s, Listen(now)) && heard == Apply(s, Listen(now))
    ensures heard.pending == Some(ProgressFrame(|s.d.pub| - 1, s.d.pub[|s.d.pub| - 1].snap))
    ensures heard.d.buf == [] && heard.d.phase == s.d.phase && heard.d.pub == s.d.pub
    ensures heard.hub == s.hub && heard.listening == s.listening
  {
    hide Inv, G.Stale, G.Filtered, Heard;
    StaleNever(s);
    TerminalIsShown(s.filter, s.d.pub[|s.d.pub| - 1].snap, now);
    HeardIs(s, |s.d.pub| - 1, now);
    heard := Heard(s, now);
  }

  lemma HeardIs(s: State, i: nat, now: int)
    requires i < |s.d.pub| && s.d.pub[i].Progress? && s.d.buf == [D.Published(i)]
    requires G.Filtered(s.filter, s.d.pub[i].snap, now).1
    ensures var heard := Heard(s, now);
      && heard.pending == Some(ProgressFrame(i, s.d.pub[i].snap)) && heard.hub == s.hub && heard.listening == s.listening
      && heard.d.buf == [] && heard.d.phase == s.d.phase && heard.d.pub == s.d.pub
  {
    hide G.Filtered;
    assert s.d.buf[1..] == [];
  }

  lemma TerminalIsShown(f: G.Filter, snap: Snapshot, now: int)
    requires snap.terminal && !G.Stale(f, snap)
    ensures G.Filtered(f, snap, now).1
  {
  }

  lemma StaleNever(s: State)
    requires Inv(s) && s.d.pub != [] && s.d.buf == [D.Published(|s.d.pub| - 1)] && s.d.pub[|s.d.pub| - 1].Progress?
    ensures !G.Stale(s.filter, s.d.pub[|s.d.pub| - 1].snap)
  {
    NeverStale(s);
  }

  lemma SentToClient(s: State, c: nat)
    requires s.pending.Some? && c in s.hub.clients && s.hub.clients[c].registered && |s.hub.clients[c].ch| < 100
    ensures var sent := Apply(s, Broadcast);
      && c in sent.hub.clients && sent.hub.clients[c].registered && sent.pending.None?
      && G.Seen(sent.hub.clients[c]) == G.Seen(s.hub.clients[c]) + [s.pending.value]
  {
    var before, after := s.hub.clients[c], Apply(s, Broadcast).hub.clients[c];
    assert after.got + after.ch == before.got + before.ch + [s.pending.value];
  }

  /** The removal of a record is announced in the same way, as a resync. */
  lemma RemovalReachesClient(s: State, c: nat, now: int) returns (published: State, heard: State, sent: State)
    requires AtRest(s, c)
    ensures Enabled(s, Delete) && published == Apply(s, Delete)
    ensures Enabled(published, Listen(now)) && heard == Apply(published, Listen(now))
    ensures Enabled(heard, Broadcast) && sent == Apply(heard, Broadcast)
    ensures c in sent.hub.clients
      && G.Seen(sent.hub.clients[c]) == G.Seen(s.hub.clients[c]) + [ResyncFrame(2 * |s.d.pub| + 1)]
  {
    published := Apply(s, Delete);
    heard := Apply(published, Listen(now));
    sent := Apply(heard, Broadcast);
    SentToClient(heard, c);
  }

  /** A new client begins with an empty channel behind everything published so far; it takes from its channel what
      was put there first; and the gateway can stop listening. */
  lemma ClientsAndListener(s: State, c: nat)
    ensures c !in s.hub.clients && !s.hub.closed ==>
      && Enabled(s, Register(c)) && var t := Apply(s, Register(c));
        t.hub.clients[c].registered && t.hub.clients[c].ch == [] && t.hub.clients[c].got == []
        && t.since == s.since[c := |s.d.pub|] && t.hub.clients[c].start == |s.hub.broadcasts|
    ensures c in s.hub.clients && s.hub.clients[c].ch != [] ==>
      && Enabled(s, Client(G.Take(c))) && var t := Apply(s, Client(G.Take(c)));
        t.hub.clients[c].got == s.hub.clients[c].got + [s.hub.clients[c].ch[0]] && t.hub.clients[c].ch == s.hub.clients[c].ch[1..]
    ensures Enabled(s, StopListening) ==> !Apply(s, StopListening).listening
  {
  }
}
