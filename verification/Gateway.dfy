/** The SSE gateway of internal/sse/gateway.go: the version filter with its throttle, and the
    registered clients with their channels. */
module Gateway {
  import opened Wrappers
  import opened Bus

  // ---------------------------------------------------------------- filter and throttle

  const MAX_VERSIONS: nat := 2000
  const MIN_DELTA: real := 0.5
  const MAX_INTERVAL: int := 500       // milliseconds

  datatype Meta = Meta(lastBroadcast: int, lastProgress: real)

  datatype Filter = Filter(versions: map<JobId, nat>, throttle: map<JobId, Meta>)

  predicate Stale(f: Filter, snap: Snapshot) {
    snap.version > 0 && snap.id in f.versions && snap.version <= f.versions[snap.id]
  }

  predicate Due(f: Filter, snap: Snapshot, now: int) {
    || snap.terminal
    || snap.id !in f.throttle
    || snap.progress - f.throttle[snap.id].lastProgress >= MIN_DELTA
    || f.throttle[snap.id].lastProgress - snap.progress >= MIN_DELTA
    || now - f.throttle[snap.id].lastBroadcast >= MAX_INTERVAL
  }

  /** The new filter, and whether the snapshot is broadcast. */
  function Filtered(f: Filter, snap: Snapshot, now: int): (Filter, bool) {
    if Stale(f, snap) then (f, false)
    else
      var versions := if snap.version == 0 then f.versions
                      else (if |f.versions| > MAX_VERSIONS then map[] else f.versions)[snap.id := snap.version];
      var throttle := if snap.terminal then f.throttle - {snap.id}
                      else if Due(f, snap, now) then f.throttle[snap.id := Meta(now, snap.progress)]
                      else f.throttle;
      (Filter(versions, throttle), Due(f, snap, now))
  }

  /** The filter after the snapshots, each with its time of arrival, that it was given since the start. */
  function Fed(inputs: seq<(Snapshot, int)>): Filter
    decreases |inputs|
  {
    if inputs == [] then Filter(map[], map[])
    else Filtered(Fed(inputs[..|inputs| - 1]), inputs[|inputs| - 1].0, inputs[|inputs| - 1].1).0
  }

  function JobsOf(inputs: seq<(Snapshot, int)>): set<JobId> {
    set input | input in inputs :: input.0.id
  }

  /** The largest version of each job, if it had any. */
  ghost predicate KnowsVersions(versions: map<JobId, nat>, inputs: seq<(Snapshot, int)>) {
    && versions.Keys <= JobsOf(inputs)
    && (forall input :: input in inputs && input.0.version > 0 ==>
          input.0.id in versions && input.0.version <= versions[input.0.id])
    && (forall id :: id in versions ==> exists input :: input in inputs && input.0.id == id && input.0.version == versions[id])
  }

  lemma {:induction false} FedKnowsVersions(inputs: seq<(Snapshot, int)>)
    requires |JobsOf(inputs)| <= 2000
    ensures KnowsVersions(Fed(inputs).versions, inputs)
    decreases |inputs|
  {
    if inputs != [] {
      var rest, last := inputs[..|inputs| - 1], inputs[|inputs| - 1];
      assert inputs == rest + [last];
      SubsetIsSmaller(JobsOf(rest), JobsOf(inputs));
      FedKnowsVersions(rest);
      SubsetIsSmaller(Fed(rest).versions.Keys, JobsOf(rest));
      assert |Fed(rest).versions| == |Fed(rest).versions.Keys|;
      KnowsOneMore(Fed(rest).versions, rest, last);
    }
  }

  lemma KnowsOneMore(versions: map<JobId, nat>, rest: seq<(Snapshot, int)>, last: (Snapshot, int))
    requires KnowsVersions(versions, rest)
    ensures var snap := last.0; var known := if snap.id in versions then versions[snap.id] else 0;
      KnowsVersions(if snap.version > known then versions[snap.id := snap.version] else versions, rest + [last])
  {
    var inputs := rest + [last];
    assert forall input :: input in inputs <==> input in rest || input == last;
  }

  /** For up to 2000 jobs, when the version map is never cleared: a snapshot is dropped as stale exactly if
      one of the same job with at least its version came before. */
  lemma StaleIff(inputs: seq<(Snapshot, int)>, snap: Snapshot)
    requires |JobsOf(inputs)| <= 2000
    ensures Stale(Fed(inputs), snap) <==>
      snap.version > 0 && exists input :: input in inputs && input.0.id == snap.id && input.0.version >= snap.version
  {
    FedKnowsVersions(inputs);
  }

  /** However many jobs there are, the map never holds more than 2001 of them. */
  lemma {:induction false} VersionsAreBounded(inputs: seq<(Snapshot, int)>)
    ensures |Fed(inputs).versions| <= 2001
    decreases |inputs|
  {
    if inputs != [] {
      var f, snap := Fed(inputs[..|inputs| - 1]), inputs[|inputs| - 1].0;
      VersionsAreBounded(inputs[..|inputs| - 1]);
      assert f.versions[snap.id := snap.version].Keys == f.versions.Keys + {snap.id};
    }
  }

  // ---------------------------------------------------------------- clients

  /** `start` is the number of broadcasts before registration; `ch` is the channel, `got` what
      ServeHTTP has taken out of it. `closers` counts the goroutines that have taken the client out of
      the map and have yet to call close, `closes` how often the channel was closed. */
  datatype Client<F> = Client(registered: bool, start: nat, ch: seq<F>, got: seq<F>, closers: nat, closes: nat)

  datatype Hub<F> = Hub(clients: map<nat, Client<F>>, broadcasts: seq<F>, closed: bool)

  datatype HubStep<F> =
    | Register(c: nat)
    | Broadcast(frame: F)
    | CloseChannel(c: nat)      // client.close, after broadcast, ServeHTTP or Close released the lock
    | Take(c: nat)
    | Disconnect(c: nat)
    | Shutdown

  predicate HubEnabled<F>(h: Hub<F>, step: HubStep<F>) {
    match step
    case Register(c) => c !in h.clients && !h.closed
    case Broadcast(_) => true
    case CloseChannel(c) => c in h.clients && h.clients[c].closers > 0
    case Take(c) => c in h.clients && h.clients[c].ch != []
    case Disconnect(c) => c in h.clients
    case Shutdown => true
  }

  /** A goroutine takes the client out of the map and is going to close its channel. */
  function Removed<F>(client: Client<F>): Client<F> {
    client.(registered := false, closers := client.closers + 1)
  }

  /** The non-blocking send, and the eviction of a client whose channel is full. */
  function Offered<F>(client: Client<F>, frame: F): Client<F> {
    if !client.registered then client
    else if |client.ch| < CAPACITY then client.(ch := client.ch + [frame])
    else Removed(client)
  }

  /** close; its sync.Once closes the channel only the first time. */
  function Closed<F>(client: Client<F>): Client<F>
    requires client.closers > 0
  {
    client.(closers := client.closers - 1, closes := if client.closes == 0 then 1 else client.closes)
  }

  function HubApply<F>(h: Hub<F>, step: HubStep<F>): Hub<F>
    requires HubEnabled(h, step)
  {
    match step
    case Register(c) => h.(clients := h.clients[c := Client(true, |h.broadcasts|, [], [], 0, 0)])
    case Broadcast(frame) =>
      h.(clients := map c | c in h.clients :: Offered(h.clients[c], frame), broadcasts := h.broadcasts + [frame])
    case CloseChannel(c) => h.(clients := h.clients[c := Closed(h.clients[c])])
    case Take(c) =>
      var client := h.clients[c];
      h.(clients := h.clients[c := client.(ch := client.ch[1..], got := client.got + [client.ch[0]])])
    case Disconnect(c) => h.(clients := h.clients[c := Removed(h.clients[c])])
    case Shutdown =>
      h.(closed := true,
         clients := map c | c in h.clients :: if h.clients[c].registered then Removed(h.clients[c]) else h.clients[c])
  }

  function Seen<F>(client: Client<F>): seq<F> { client.got + client.ch }

  ghost predicate ClientInv<F>(client: Client<F>, broadcasts: seq<F>, closed: bool) {
    && (client.registered ==> client.closers == 0 && client.closes == 0 && !closed)
    && client.closes <= 1
    && |client.ch| <= CAPACITY
    && client.start + |Seen(client)| <= |broadcasts|
    && Seen(client) == broadcasts[client.start..client.start + |Seen(client)|]
    && (client.registered ==> client.start + |Seen(client)| == |broadcasts|)
  }

  /** Registered clients have open channels, and every client has a gap-free stretch of the
      broadcasts, beginning at its registration. */
  ghost predicate HubInv<F>(h: Hub<F>) {
    forall c :: c in h.clients ==> ClientInv(h.clients[c], h.broadcasts, h.closed)
  }

  lemma OfferedKeeps<F>(client: Client<F>, broadcasts: seq<F>, closed: bool, frame: F)
    requires ClientInv(client, broadcasts, closed)
    ensures ClientInv(Offered(client, frame), broadcasts + [frame], closed)
  {
    var client' := Offered(client, frame);
    if client.registered && |client.ch| < CAPACITY {
      assert Seen(client') == Seen(client) + [frame];
    }
  }

  lemma TakeKeeps<F>(client: Client<F>, broadcasts: seq<F>, closed: bool)
    requires ClientInv(client, broadcasts, closed) && client.ch != []
    ensures ClientInv(client.(ch := client.ch[1..], got := client.got + [client.ch[0]]), broadcasts, closed)
  {
    assert client.got + [client.ch[0]] + client.ch[1..] == Seen(client);
  }

  lemma NewKeeps<F>(broadcasts: seq<F>)
    ensures ClientInv(Client(true, |broadcasts|, [], [], 0, 0), broadcasts, false)
  {
  }

  lemma ClosedKeeps<F>(client: Client<F>, broadcasts: seq<F>, closed: bool)
    requires ClientInv(client, broadcasts, closed) && client.closers > 0
    ensures ClientInv(Closed(client), broadcasts, closed)
  {
    assert Seen(Closed(client)) == Seen(client);
  }

  /** A client out of the map is right whether or not the hub is shutting down. */
  lemma RemovedKeeps<F>(client: Client<F>, broadcasts: seq<F>, closed: bool, closing: bool)
    requires ClientInv(client, broadcasts, closed)
    ensures ClientInv(Removed(client), broadcasts, closing)
    ensures !client.registered ==> ClientInv(client, broadcasts, closing)
  {
    assert Seen(Removed(client)) == Seen(client);
  }

  lemma HubKeeps<F>(h: Hub<F>, step: HubStep<F>)
    requires HubInv(h) && HubEnabled(h, step)
    ensures HubInv(HubApply(h, step))
    ensures h.broadcasts <= HubApply(h, step).broadcasts
  {
    hide ClientInv, Offered, Removed, Closed;
    var h' := HubApply(h, step);
    forall c | c in h'.clients ensures ClientInv(h'.clients[c], h'.broadcasts, h'.closed) {
      if c !in h.clients || step == HubStep<F>.Register(c) {
        NewKeeps(h.broadcasts);
      } else {
        var client := h.clients[c];
        assert ClientInv(client, h.broadcasts, h.closed);
        RemovedKeeps(client, h.broadcasts, h.closed, h'.closed);
        match step
        case Broadcast(frame) => OfferedKeeps(client, h.broadcasts, h.closed, frame);
        case Take(d) => if d == c { TakeKeeps(client, h.broadcasts, h.closed); }
        case CloseChannel(d) => if d == c { ClosedKeeps(client, h.broadcasts, h.closed); }
        case _ =>
      }
    }
  }

  /** A broadcast sends to open channels only, whoever is about to close one has unregistered its
      client, and closing happens at most once. */
  lemma SendsHitOpenChannels<F>(h: Hub<F>, c: nat)
    requires HubInv(h) && c in h.clients
    ensures h.clients[c].registered ==> h.clients[c].closes == 0
    ensures HubEnabled(h, HubStep<F>.CloseChannel(c)) ==> !h.clients[c].registered
    ensures h.clients[c].closes <= 1
    ensures h.clients[c].got <= h.broadcasts[h.clients[c].start..]
  {
    assert ClientInv(h.clients[c], h.broadcasts, h.closed);
    var client := h.clients[c];
    assert client.got == Seen(client)[..|client.got|];
  }

  /** The registered clients of a hub, as the gateway's map. */
  function Registered<F>(h: Hub<F>): map<nat, seq<F>> {
    map c | c in h.clients && h.clients[c].registered :: h.clients[c].ch
  }

  /** The loop in Broadcast, the map of registrations and the hub's steps are the same thing. */
  lemma BroadcastMatchesHub<F>(h: Hub<F>, frame: F)
    ensures Registered(HubApply(h, HubStep.Broadcast(frame))) ==
      map c | c in Registered(h) && |Registered(h)[c]| < CAPACITY :: Registered(h)[c] + [frame]
  {
  }

  // ---------------------------------------------------------------- the gateway object

  /** What the loop of broadcast has done to a client it has passed. */
  ghost predicate Tried<F>(before: map<nat, seq<F>>, after: map<nat, seq<F>>, zombies: set<nat>, c: nat, msg: F)
    requires c in before
  {
    if |before[c]| < CAPACITY then c in after && after[c] == before[c] + [msg] && c !in zombies
    else c !in after && c in zombies
  }

  lemma AllTried<F>(before: map<nat, seq<F>>, after: map<nat, seq<F>>, zombies: set<nat>, msg: F)
    requires after.Keys <= before.Keys && zombies <= before.Keys
    requires forall c :: c in before ==> Tried(before, after, zombies, c, msg)
    ensures zombies == set c | c in before && |before[c]| >= CAPACITY
    ensures after == map c | c in before && |before[c]| < CAPACITY :: before[c] + [msg]
  {
  }

  class Gateway<F> {
    var versions: map<JobId, nat>
    var throttle: map<JobId, Meta>
    var clients: map<nat, seq<F>>         // the registered clients and their channels
    var closed: bool
    var closedChannels: set<nat>
    ghost var hub: Hub<F>                 // all clients there have been

    /** The gateway's map is that of a hub which keeps its invariant. */
    ghost predicate Valid()
      reads this
    {
      && HubInv(hub) && hub.closed == closed
      && clients == Registered(hub)
      && closedChannels == set c | c in hub.clients && hub.clients[c].closes > 0
    }

    /** So no registered client's channel is closed, and none holds more than 100 messages. */
    lemma ChannelsAreOpen()
      requires Valid()
      ensures forall c :: c in clients ==> c !in closedChannels && |clients[c]| <= CAPACITY
    {
      forall c | c in clients
        ensures c !in closedChannels && |clients[c]| <= CAPACITY
      {
        assert ClientInv(hub.clients[c], hub.broadcasts, hub.closed);
      }
    }

    ghost function FilterState(): Filter
      reads this
    {
      Filter(versions, throttle)
    }

    constructor ()
      ensures Valid() && FilterState() == Filter(map[], map[]) && hub == Hub(map[], [], false)
    {
      versions, throttle, clients, closed := map[], map[], map[], false;
      closedChannels, hub := {}, Hub(map[], [], false);
    }

    /** The critical section of handleProgressEvent. */
    method HandleProgressEvent(snap: Snapshot, now: int) returns (shouldBroadcast: bool)
      modifies this`versions, this`throttle
      ensures (FilterState(), shouldBroadcast) == Filtered(old(FilterState()), snap, now)
    {
      if snap.version > 0 {
        if snap.version <= if snap.id in versions then versions[snap.id] else 0 {
          return false;
        }
        if |versions| > MAX_VERSIONS {
          versions := map[];
        }
        versions := versions[snap.id := snap.version];
      }
      var known := snap.id in throttle;
      var delta := if known then snap.progress - throttle[snap.id].lastProgress else 0.0;
      if delta < 0.0 {
        delta := -delta;
      }
      shouldBroadcast := false;
      if snap.terminal {
        shouldBroadcast := true;
        throttle := throttle - {snap.id};
      } else if !known || delta >= MIN_DELTA || now - throttle[snap.id].lastBroadcast >= MAX_INTERVAL {
        shouldBroadcast := true;
        throttle := throttle[snap.id := Meta(now, snap.progress)];
      }
    }

    /** The loop of broadcast. */
    method SendAll(msg: F) returns (zombies: set<nat>)
      modifies this`clients
      ensures zombies == set c | c in old(clients) && |old(clients)[c]| >= CAPACITY
      ensures clients == map c | c in old(clients) && |old(clients)[c]| < CAPACITY :: old(clients)[c] + [msg]
    {
      zombies := {};
      var left := clients.Keys;
      while left != {}
        invariant left <= clients.Keys <= old(clients).Keys && zombies <= old(clients).Keys - left
        invariant forall c :: c in left ==> clients[c] == old(clients)[c]
        invariant forall c :: c in old(clients) && c !in left ==> Tried(old(clients), clients, zombies, c, msg)
        decreases |left|
      {
        var c :| c in left;
        if |clients[c]| < CAPACITY {
          clients := clients[c := clients[c] + [msg]];
        } else {
          zombies := zombies + {c};
          clients := clients - {c};
        }
        left := left - {c};
      }
      AllTried(old(clients), clients, zombies, msg);
    }

    /** The critical section of broadcast; the zombies are closed after it. */
    method Broadcast(msg: F) returns (zombies: set<nat>)
      requires Valid()
      modifies this`clients, this`hub
      ensures Valid() && hub == HubApply(old(hub), HubStep.Broadcast(msg))
      ensures zombies == set c | c in old(clients) && |old(clients)[c]| >= 100
      ensures clients == map c | c in old(clients) && |old(clients)[c]| < 100 :: old(clients)[c] + [msg]
      ensures forall c :: c in zombies ==> HubEnabled(hub, HubStep<F>.CloseChannel(c))
      ensures forall c :: c in clients ==> c !in closedChannels && |clients[c]| <= CAPACITY
    {
      hide HubInv, HubApply, Registered;
      Sending(hub, msg, clients);
      zombies := SendAll(msg);
      hub := HubApply(hub, HubStep.Broadcast(msg));
      ChannelsAreOpen();
    }

    /** The registration in ServeHTTP, refused while shutting down; c is a new client. */
    method Register(c: nat) returns (ok: bool)
      requires Valid() && c !in hub.clients
      modifies this`clients, this`hub
      ensures Valid() && ok == !closed
      ensures hub == if ok then HubApply(old(hub), HubStep<F>.Register(c)) else old(hub)
    {
      hide HubInv;
      ok := !closed;
      if ok {
        HubKeeps(hub, HubStep<F>.Register(c));
        clients := clients[c := []];
        hub := HubApply(hub, HubStep<F>.Register(c));
      }
    }

    /** The deferred removal in ServeHTTP, which then closes the channel. */
    method Disconnect(c: nat)
      requires Valid() && c in hub.clients
      modifies this`clients, this`hub
      ensures Valid() && hub == HubApply(old(hub), HubStep<F>.Disconnect(c))
      ensures HubEnabled(hub, HubStep<F>.CloseChannel(c))
    {
      hide HubInv;
      HubKeeps(hub, HubStep<F>.Disconnect(c));
      clients := clients - {c};
      hub := HubApply(hub, HubStep<F>.Disconnect(c));
    }

    /** The critical section of Close; the clients it returns are closed after it. */
    method Close() returns (leaving: set<nat>)
      requires Valid()
      modifies this`clients, this`closed, this`hub
      ensures Valid() && hub == HubApply(old(hub), HubStep<F>.Shutdown)
      ensures closed && clients == map[] && leaving == old(clients).Keys
      ensures forall c :: c in leaving ==> HubEnabled(hub, HubStep<F>.CloseChannel(c))
    {
      hide HubInv;
      HubKeeps(hub, HubStep<F>.Shutdown);
      closed := true;
      leaving := clients.Keys;
      clients := map[];
      hub := HubApply(hub, HubStep<F>.Shutdown);
    }

    /** client.close by one of those who removed the client. */
    method CloseChannel(c: nat)
      requires Valid() && HubEnabled(hub, HubStep<F>.CloseChannel(c))
      modifies this`closedChannels, this`hub
      ensures Valid() && hub == HubApply(old(hub), HubStep<F>.CloseChannel(c))
      ensures closedChannels == old(closedChannels) + {c} && c !in clients
    {
      hide HubInv;
      HubKeeps(hub, HubStep<F>.CloseChannel(c));
      SendsHitOpenChannels(hub, c);
      closedChannels := closedChannels + {c};
      hub := HubApply(hub, HubStep<F>.CloseChannel(c));
    }
  }

  /** What a broadcast does to the hub behind a gateway. */
  lemma Sending<F>(h: Hub<F>, frame: F, clients: map<nat, seq<F>>)
    requires HubInv(h) && clients == Registered(h)
    ensures var h' := HubApply(h, HubStep.Broadcast(frame));
      && HubInv(h') && h'.closed == h.closed && h'.clients.Keys == h.clients.Keys
      && Registered(h') == (map c | c in clients && |clients[c]| < CAPACITY :: clients[c] + [frame])
      && (forall c :: c in h.clients ==> h'.clients[c].closes == h.clients[c].closes)
      && (forall c :: c in clients ==> |clients[c]| <= CAPACITY)
      && (forall c :: c in clients && |clients[c]| >= CAPACITY ==> HubEnabled(h', HubStep<F>.CloseChannel(c)))
  {
    HubKeeps(h, HubStep.Broadcast(frame));
    BroadcastMatchesHub(h, frame);
    forall c | c in clients
      ensures |clients[c]| <= CAPACITY
    {
      assert ClientInv(h.clients[c], h.broadcasts, h.closed);
    }
  }
}
