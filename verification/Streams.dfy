/** Per-stream accumulators, stream groups and the aggregate of a download: handleIdentifiedStream in
    internal/worker/progress.go and RecalculateAggregate in internal/store/progress.go. */
module Streams {
  import opened Wrappers

  type StreamId = string        // media identifier, a colon, format identifier

  datatype Kind = Video | Audio | Combined

  datatype Status = Unset | Waiting | NotRequested | Downloading | Completed

  datatype Stream = Stream(
    kind: Kind, combined: bool, status: Status, progress: real, speed: real, eta: Option<int>,
    downloaded: nat, total: nat)

  datatype Group = Group(
    expected: bool, combined: bool, status: Status, progress: real, speed: real, eta: Option<int>,
    downloaded: int, total: int)

  /** An optional JSON number; the decoder may also hand over an infinity or a NaN. */
  datatype Number = Absent | NotFinite | Finite(value: real)

  datatype Event = Event(
    id: StreamId, finished: bool, hasVideo: bool, hasAudio: bool, total: Number, estimate: Number,
    downloaded: Number, speed: Number, eta: Number, fragmentIndex: Number, fragmentCount: Number)

  /** float64(math.MaxInt64 - 1024). */
  const LARGEST: real := 9223372036854774784.0

  function Min(a: real, b: real): real { if a <= b then a else b }

  // ---------------------------------------------------------------- int64 sums

  const TWO63: int := 0x8000_0000_0000_0000

  /** The int64 with the low 64 bits of x. */
  function Wrap64(x: int): (r: int)
    ensures -TWO63 <= r < TWO63
    ensures -TWO63 <= x < TWO63 ==> r == x
  {
    (x + TWO63) % (2 * TWO63) - TWO63
  }

  /** An int64 accumulator of amounts that add up to `exact`. */
  predicate IsWrapped(sum: int, exact: real) {
    exact.Floor as real == exact && sum == Wrap64(exact.Floor)
  }

  lemma WrapAgain(x: int, n: int)
    ensures Wrap64(Wrap64(x) + n) == Wrap64(x + n)
  {
    var q := (x + TWO63) / (2 * TWO63);
    assert Wrap64(x) == x - q * (2 * TWO63);
    WrapShift(x + n, -q);
  }

  lemma {:induction false} WrapShift(x: int, q: int)
    ensures Wrap64(x + q * (2 * TWO63)) == Wrap64(x)
    decreases if q < 0 then -q else q
  {
    hide Wrap64;
    var p := if q > 0 then q - 1 else q + 1;
    if q != 0 {
      WrapShift(x, p);
      WrapOnce(x + if q > 0 then p * (2 * TWO63) else q * (2 * TWO63));
      assert q * (2 * TWO63) == p * (2 * TWO63) + if q > 0 then 2 * TWO63 else -2 * TWO63;
    }
  }

  lemma WrapOnce(x: int)
    ensures Wrap64(x + 2 * TWO63) == Wrap64(x)
  {
  }

  lemma WrapAdds(sum: int, exact: real, n: nat)
    requires IsWrapped(sum, exact)
    ensures IsWrapped(Wrap64(sum + n), exact + n as real)
  {
    WrapAgain(exact.Floor, n);
    assert (exact + n as real).Floor == exact.Floor + n;
  }

  /** Exactly when an int64 sum of amounts is their sum. */
  lemma ExactIff(sum: int, exact: real)
    requires IsWrapped(sum, exact) && exact >= 0.0
    ensures sum as real == exact <==> exact < TWO63 as real
  {
    assert exact == exact.Floor as real;
  }

  // ---------------------------------------------------------------- amounts

  /** A number that is absent, negative, infinite or no number counts as zero, a huge one as the largest amount. */
  function Amount(n: Number): (r: real)
    ensures 0.0 <= r <= LARGEST
    ensures !n.Finite? || n.value < 0.0 ==> r == 0.0
    ensures n.Finite? && 0.0 <= n.value <= LARGEST ==> r == n.value
    ensures n.Finite? && n.value > LARGEST ==> r == LARGEST
  {
    if n.Finite? && n.value >= 0.0 then Min(n.value, LARGEST) else 0.0
  }

  function Whole(n: Number): (k: nat)
    ensures k as real <= Amount(n) < k as real + 1.0
  {
    Amount(n).Floor
  }

  function Clamp(v: real): (r: real)
    ensures 0.0 <= r <= 100.0
    ensures 0.0 <= v <= 100.0 ==> r == v
    ensures (v < 0.0 ==> r == 0.0) && (v > 100.0 ==> r == 100.0)
  {
    if v < 0.0 then 0.0 else if v > 100.0 then 100.0 else v
  }

  lemma Share(part: real, whole: real)
    requires whole > 0.0
    ensures part / whole * whole == part && (part >= whole <==> part / whole >= 1.0)
  {
    var share := part / whole;
    assert share * whole == part;
    if share < 1.0 {
      assert share * whole < 1.0 * whole;
    } else {
      assert share * whole >= 1.0 * whole;
    }
  }

  lemma ShareSign(part: real, whole: real)
    requires whole > 0.0
    ensures part < 0.0 <==> part / whole < 0.0
  {
    var share := part / whole;
    assert share * whole == part;
    if share < 0.0 {
      assert share * whole < 0.0;
    } else {
      assert share * whole >= 0.0;
    }
  }

  lemma MeanInRange(sum: real, count: real)
    requires count > 0.0
    ensures sum / count * count == sum
    ensures 0.0 <= sum <= 100.0 * count ==> 0.0 <= sum / count <= 100.0
  {
    if 0.0 <= sum <= 100.0 * count {
      Average(sum, count);
    }
  }

  /** The share of `part` in `whole`, in percent and at most 100. */
  function Percent(part: real, whole: real): (r: real)
    requires whole > 0.0
    ensures r <= 100.0 && (part >= 0.0 ==> r >= 0.0)
    ensures part >= whole ==> r == 100.0
    ensures part < whole ==> r * whole == part * 100.0
  {
    Share(part, whole);
    Min(100.0, part / whole * 100.0)
  }

  // ---------------------------------------------------------------- one stream

  const NEW_STREAM := Stream(Combined, false, Unset, 0.0, 0.0, None, 0, 0)

  function KindOf(e: Event, audioOnly: bool): Kind {
    if e.hasVideo && e.hasAudio then Combined
    else if e.hasAudio then Audio
    else if e.hasVideo then Video
    else if audioOnly then Audio
    else Combined
  }

  /** The accumulator of the event's stream after the event; `audioOnly` is whether only audio is expected. */
  function Advanced(s: Stream, e: Event, audioOnly: bool): (r: Stream)
    requires 0.0 <= s.progress <= 100.0
    ensures 0.0 <= r.progress <= 100.0
    ensures e.finished ==> r.status == Completed && r.progress == 100.0 && r.speed == 0.0 && r.eta == None
    ensures e.finished && (e.downloaded.Absent? || Whole(e.downloaded) == 0) ==> r.downloaded == r.total
  {
    var kind := KindOf(e, audioOnly);
    var total := if Whole(e.total) > 0 then Whole(e.total)
                 else if Whole(e.estimate) > 0 then Whole(e.estimate) else s.total;
    var downloaded := if e.downloaded.Absent? then s.downloaded else Whole(e.downloaded);
    var progress := if total > 0 then Percent(downloaded as real, total as real)
                    else if Amount(e.fragmentCount) > 0.0 then Percent(Amount(e.fragmentIndex), Amount(e.fragmentCount))
                    else s.progress;
    var running := Stream(kind, s.combined || kind.Combined?, Downloading, progress, Amount(e.speed),
                          if Whole(e.eta) > 0 then Some(Whole(e.eta)) else None, downloaded, total);
    if !e.finished then running
    else
      var total' := if total == 0 then downloaded else total;
      var downloaded' := if e.downloaded.Absent? || downloaded == 0 then total' else downloaded;
      running.(status := Completed, progress := 100.0, speed := 0.0, eta := None, total := total', downloaded := downloaded')
  }

  /** An event's stream counts for audio unless it is video alone, and for video unless it is audio
      alone, or has neither codec while only audio is expected. */
  predicate Belongs(s: Stream, e: Event, audioOnly: bool) {
    && (Member(s, Audio) <==> e.hasAudio || !e.hasVideo)
    && (Member(s, Video) <==> e.hasVideo || (!e.hasAudio && !audioOnly))
  }

  /** r percent of the whole is the part, if that is no more. */
  predicate IsPercent(r: real, part: real, whole: real) {
    if part >= whole then r == 100.0 else r * whole == part * 100.0
  }

  /** The bytes that are known after an event: the total before the estimate, and what the event does not
      tell stays. */
  predicate ReportsBytes(s: Stream, known: Stream, e: Event) {
    var total := if Whole(e.total) > 0 then Whole(e.total) else if Whole(e.estimate) > 0 then Whole(e.estimate) else known.total;
    var downloaded := if e.downloaded.Absent? then known.downloaded else Whole(e.downloaded);
    if !e.finished then s.total == total && s.downloaded == downloaded
    else
      && s.total == (if total > 0 then total else downloaded)
      && s.downloaded == (if e.downloaded.Absent? || downloaded == 0 then s.total else downloaded)
  }

  /** The share of the bytes before that of the fragments; a finished stream is completed. */
  predicate ReportsProgress(s: Stream, known: Stream, e: Event) {
    if e.finished then s.status == Completed && s.progress == 100.0 && s.speed == 0.0 && s.eta == None
    else
      && s.status == Downloading && s.speed == Amount(e.speed)
      && s.eta == (if Whole(e.eta) > 0 then Some(Whole(e.eta)) else None)
      && if s.total > 0 then IsPercent(s.progress, s.downloaded as real, s.total as real)
         else if Amount(e.fragmentCount) > 0.0 then IsPercent(s.progress, Amount(e.fragmentIndex), Amount(e.fragmentCount))
         else s.progress == known.progress
  }

  predicate Reports(s: Stream, known: Stream, e: Event, audioOnly: bool) {
    Belongs(s, e, audioOnly) && ReportsBytes(s, known, e) && ReportsProgress(s, known, e)
  }

  lemma AdvancedReports(known: Stream, e: Event, audioOnly: bool)
    requires 0.0 <= known.progress <= 100.0
    ensures Reports(Advanced(known, e, audioOnly), known, e, audioOnly)
  {
    hide Whole, Amount;
    ProgressReported(known, e, audioOnly);
  }

  lemma ProgressReported(known: Stream, e: Event, audioOnly: bool)
    requires 0.0 <= known.progress <= 100.0
    ensures ReportsProgress(Advanced(known, e, audioOnly), known, e)
  {
    hide Whole, Amount, Percent, KindOf;
  }

  /** The accumulator of the event's own stream after the event. */
  function Next(streams: map<StreamId, Stream>, e: Event, audioOnly: bool): Stream
    requires forall id :: id in streams ==> 0.0 <= streams[id].progress <= 100.0
  {
    Advanced(if e.id in streams then streams[e.id] else NEW_STREAM, e, audioOnly)
  }

  // ---------------------------------------------------------------- sums over a map

  /** The sum of w over the streams, in whatever order they come. */
  ghost function Sum(streams: map<StreamId, Stream>, w: Stream -> real): real
    decreases |streams|
  {
    if streams == map[] then 0.0
    else
      assert streams.Keys != {};
      var id :| id in streams;
      w(streams[id]) + Sum(streams - {id}, w)
  }

  lemma {:induction false} SumSplit(streams: map<StreamId, Stream>, w: Stream -> real, id: StreamId)
    requires id in streams
    ensures Sum(streams, w) == w(streams[id]) + Sum(streams - {id}, w)
    decreases |streams|
  {
    assert streams.Keys != {};
    var first :| first in streams && Sum(streams, w) == w(streams[first]) + Sum(streams - {first}, w);
    if first != id {
      SumSplit(streams - {first}, w, id);
      SumSplit(streams - {id}, w, first);
      assert streams - {first} - {id} == streams - {id} - {first};
    }
  }

  lemma {:induction false} SumAdds(streams: map<StreamId, Stream>, u: Stream -> real, v: Stream -> real, w: Stream -> real)
    requires forall id :: id in streams ==> u(streams[id]) + v(streams[id]) == w(streams[id])
    ensures Sum(streams, u) + Sum(streams, v) == Sum(streams, w)
    decreases |streams|
  {
    if streams.Keys != {} {
      var id :| id in streams;
      SumSplit(streams, u, id);
      SumSplit(streams, v, id);
      SumSplit(streams, w, id);
      SumAdds(streams - {id}, u, v, w);
    }
  }

  lemma {:induction false} SumNonNegative(streams: map<StreamId, Stream>, w: Stream -> real)
    requires forall id :: id in streams ==> w(streams[id]) >= 0.0
    ensures Sum(streams, w) >= 0.0
    decreases |streams|
  {
    if streams.Keys != {} {
      var id :| id in streams;
      SumSplit(streams, w, id);
      SumNonNegative(streams - {id}, w);
    }
  }

  // What is summed.
  const TOTAL: Stream -> real := (s: Stream) => s.total as real
  const DOWNLOADED: Stream -> real := (s: Stream) => s.downloaded as real
  const PROGRESS: Stream -> real := (s: Stream) => s.progress
  const SPEED: Stream -> real := (s: Stream) => s.speed
  const ONE: Stream -> real := (s: Stream) => 1.0

  predicate Member(s: Stream, kind: Kind) {
    s.kind == kind || s.kind.Combined?
  }

  /** w on the members of a group, and zero elsewhere. */
  function In(kind: Kind, w: Stream -> real): Stream -> real {
    (s: Stream) => if Member(s, kind) then w(s) else 0.0
  }

  lemma SumOneMore(seen: map<StreamId, Stream>, id: StreamId, s: Stream, w: Stream -> real)
    requires id !in seen
    ensures Sum(seen[id := s], w) == Sum(seen, w) + w(s)
  {
    SumSplit(seen[id := s], w, id);
    assert seen[id := s] - {id} == seen;
  }

  ghost predicate InRange(streams: map<StreamId, Stream>) {
    forall id :: id in streams ==> 0.0 <= streams[id].progress <= 100.0
  }

  /** The progress values of a group sum to at most 100 for each member. */
  lemma {:induction false} ProgressBound(streams: map<StreamId, Stream>, w: Stream -> real, one: Stream -> real)
    requires forall id :: id in streams ==> 0.0 <= w(streams[id]) <= 100.0 * one(streams[id])
    ensures 0.0 <= Sum(streams, w) <= 100.0 * Sum(streams, one)
    decreases |streams|
  {
    if streams.Keys != {} {
      var id :| id in streams;
      SumSplit(streams, w, id);
      SumSplit(streams, one, id);
      ProgressBound(streams - {id}, w, one);
    }
  }

  lemma Average(sum: real, count: real)
    requires 0.0 <= sum <= 100.0 * count && count > 0.0
    ensures 0.0 <= sum / count <= 100.0
  {
    assert sum == sum / count * count;
  }

  // ---------------------------------------------------------------- groups

  ghost predicate AllComplete(streams: map<StreamId, Stream>, kind: Kind) {
    forall id :: id in streams && Member(streams[id], kind) ==> streams[id].status == Completed
  }

  ghost predicate AllKnown(streams: map<StreamId, Stream>, kind: Kind) {
    forall id :: id in streams && Member(streams[id], kind) ==> streams[id].total > 0
  }

  /** What the members of a group add up to. */
  datatype Totals = Totals(total: real, downloaded: real, speed: real, progress: real, members: real)

  ghost function TotalsOf(streams: map<StreamId, Stream>, kind: Kind): Totals {
    Totals(Sum(streams, In(kind, TOTAL)), Sum(streams, In(kind, DOWNLOADED)), Sum(streams, In(kind, SPEED)),
           Sum(streams, In(kind, PROGRESS)), Sum(streams, In(kind, ONE)))
  }

  /** All of a group but `combined` and `eta` follows from the sums and from what holds of every member. */
  predicate Matches(g: Group, t: Totals, allComplete: bool, allKnown: bool) {
    && IsWrapped(g.total, t.total) && IsWrapped(g.downloaded, t.downloaded) && g.speed == t.speed
    && g.progress <= 100.0 && (g.downloaded >= 0 ==> g.progress >= 0.0)
    && if !g.expected then g.status == NotRequested && g.progress == 0.0
       else if t.members == 0.0 then g.status == Waiting && g.progress == 0.0
       else if allComplete then g.status == Completed && g.progress == 100.0
       else
         && g.status == Downloading
         && if allKnown && g.total > 0 then g.progress == Percent(g.downloaded as real, g.total as real)
            else g.progress * t.members == t.progress
  }

  /** `combined` is taken from whichever member comes last, and `eta` from whichever incomplete one. */
  ghost predicate FromMembers(combined: bool, eta: Option<int>, streams: map<StreamId, Stream>, kind: Kind) {
    CombinedFrom(combined, streams, kind) && EtaFrom(eta, streams, kind)
  }

  ghost predicate CombinedFrom(combined: bool, streams: map<StreamId, Stream>, kind: Kind) {
    if HasMember(streams, kind) then exists id :: id in streams && Member(streams[id], kind) && streams[id].combined == combined
    else !combined
  }

  ghost predicate EtaFrom(eta: Option<int>, streams: map<StreamId, Stream>, kind: Kind) {
    if HasIncomplete(streams, kind) then exists id :: id in streams && Incomplete(streams[id], kind) && streams[id].eta == eta
    else eta.None?
  }

  predicate Incomplete(s: Stream, kind: Kind) {
    Member(s, kind) && s.status != Completed
  }

  predicate HasMember(streams: map<StreamId, Stream>, kind: Kind) {
    exists id :: id in streams && Member(streams[id], kind)
  }

  predicate HasIncomplete(streams: map<StreamId, Stream>, kind: Kind) {
    exists id :: id in streams && Incomplete(streams[id], kind)
  }

  ghost predicate IsGroup(g: Group, streams: map<StreamId, Stream>, kind: Kind) {
    && Matches(g, TotalsOf(streams, kind), AllComplete(streams, kind), AllKnown(streams, kind))
    && FromMembers(g.combined, g.eta, streams, kind)
  }

  /** The local variables of the loop over the members of a group. */
  datatype Tally = Tally(
    total: int, downloaded: int, speed: real, combined: bool, eta: Option<int>,
    allComplete: bool, knownTotals: bool, progressSum: real, members: real)

  function Tallied(t: Tally, s: Stream, kind: Kind): Tally {
    if !Member(s, kind) then t
    else Tally(
      Wrap64(t.total + s.total), Wrap64(t.downloaded + s.downloaded), t.speed + s.speed, s.combined,
      if s.status != Completed then s.eta else t.eta,
      t.allComplete && s.status == Completed, t.knownTotals && s.total > 0,
      t.progressSum + s.progress, t.members + 1.0)
  }

  predicate Accumulated(t: Tally, exact: Totals) {
    && IsWrapped(t.total, exact.total) && IsWrapped(t.downloaded, exact.downloaded)
    && t.speed == exact.speed && t.progressSum == exact.progress && t.members == exact.members
  }

  ghost predicate Sums(t: Tally, seen: map<StreamId, Stream>, kind: Kind) {
    Accumulated(t, TotalsOf(seen, kind))
  }

  ghost predicate Flags(t: Tally, seen: map<StreamId, Stream>, kind: Kind) {
    && t.allComplete == AllComplete(seen, kind)
    && t.knownTotals == AllKnown(seen, kind)
    && FromMembers(t.combined, t.eta, seen, kind)
  }

  lemma TallyStep(t: Tally, seen: map<StreamId, Stream>, id: StreamId, s: Stream, kind: Kind)
    requires Sums(t, seen, kind) && Flags(t, seen, kind) && id !in seen
    ensures Sums(Tallied(t, s, kind), seen[id := s], kind)
    ensures Flags(Tallied(t, s, kind), seen[id := s], kind)
  {
    hide Wrap64, IsWrapped, Sum, AllComplete, AllKnown, FromMembers;
    SumOneMore(seen, id, s, In(kind, TOTAL));
    SumOneMore(seen, id, s, In(kind, DOWNLOADED));
    SumOneMore(seen, id, s, In(kind, SPEED));
    SumOneMore(seen, id, s, In(kind, PROGRESS));
    SumOneMore(seen, id, s, In(kind, ONE));
    if Member(s, kind) {
      WrapAdds(t.total, Sum(seen, In(kind, TOTAL)), s.total);
      WrapAdds(t.downloaded, Sum(seen, In(kind, DOWNLOADED)), s.downloaded);
    }
    FlagsStep(t, seen, id, s, kind);
  }

  lemma FlagsStep(t: Tally, seen: map<StreamId, Stream>, id: StreamId, s: Stream, kind: Kind)
    requires Flags(t, seen, kind) && id !in seen
    ensures Flags(Tallied(t, s, kind), seen[id := s], kind)
  {
    hide CombinedFrom, EtaFrom;
    var more := seen[id := s];
    assert more[id] == s;
    assert forall x :: x in seen ==> more[x] == seen[x];
    var t' := Tallied(t, s, kind);
    assert FromMembers(t'.combined, t'.eta, more, kind) by {
      CombinedStep(t.combined, seen, id, s, kind);
      EtaStep(t.eta, seen, id, s, kind);
    }
  }

  lemma CombinedStep(combined: bool, seen: map<StreamId, Stream>, id: StreamId, s: Stream, kind: Kind)
    requires id !in seen
    requires CombinedFrom(combined, seen, kind)
    ensures CombinedFrom(if Member(s, kind) then s.combined else combined, seen[id := s], kind)
  {
    var more := seen[id := s];
    assert more[id] == s;
    if !Member(s, kind) && HasMember(seen, kind) {
      var x :| x in seen && Member(seen[x], kind) && seen[x].combined == combined;
      assert more[x] == seen[x];
    }
  }

  lemma EtaStep(eta: Option<int>, seen: map<StreamId, Stream>, id: StreamId, s: Stream, kind: Kind)
    requires id !in seen
    requires EtaFrom(eta, seen, kind)
    ensures EtaFrom(if Incomplete(s, kind) then s.eta else eta, seen[id := s], kind)
  {
    var more := seen[id := s];
    assert more[id] == s;
    if !Incomplete(s, kind) && HasIncomplete(seen, kind) {
      var x :| x in seen && Incomplete(seen[x], kind) && seen[x].eta == eta;
      assert more[x] == seen[x];
    }
  }

  /** The loop over the streams, in any order. */
  method TallyOf(streams: map<StreamId, Stream>, kind: Kind) returns (t: Tally)
    ensures Sums(t, streams, kind) && Flags(t, streams, kind)
  {
    hide Sums, Flags, Tallied;
    t := Tally(0, 0, 0.0, false, None, true, true, 0.0, 0.0);
    var left := streams.Keys;
    NothingSeen(t, streams, kind);
    while left != {}
      invariant left <= streams.Keys
      invariant Sums(t, streams - left, kind) && Flags(t, streams - left, kind)
      decreases |left|
    {
      var id :| id in left;
      TallyStep(t, streams - left, id, streams[id], kind);
      SeeOne(streams, left, id);
      t := Tallied(t, streams[id], kind);
      left := left - {id};
    }
    assert streams - {} == streams;
  }

  lemma SeeOne(streams: map<StreamId, Stream>, left: set<StreamId>, id: StreamId)
    requires id in left && left <= streams.Keys
    ensures id !in streams - left && (streams - left)[id := streams[id]] == streams - (left - {id})
  {
  }

  lemma NothingSeen(t: Tally, streams: map<StreamId, Stream>, kind: Kind)
    requires t == Tally(0, 0, 0.0, false, None, true, true, 0.0, 0.0)
    ensures Sums(t, streams - streams.Keys, kind) && Flags(t, streams - streams.Keys, kind)
  {
    assert streams - streams.Keys == map[];
  }

  /** The group made from the sums. */
  function Settled(t: Tally, expected: bool): Group {
    var g := Group(expected, t.combined, Waiting, 0.0, t.speed, t.eta, t.downloaded, t.total);
    if !expected then g.(status := NotRequested)
    else if t.members > 0.0 && t.allComplete then g.(status := Completed, progress := 100.0)
    else if t.members > 0.0 then
      g.(status := Downloading,
         progress := if t.knownTotals && t.total > 0 then Percent(t.downloaded as real, t.total as real)
                     else t.progressSum / t.members)
    else g
  }

  lemma SettledMatches(t: Tally, expected: bool, exact: Totals)
    requires 0.0 <= t.progressSum <= 100.0 * t.members && t.members >= 0.0
    requires Accumulated(t, exact)
    ensures Matches(Settled(t, expected), exact, t.allComplete, t.knownTotals)
  {
    if t.members > 0.0 {
      Average(t.progressSum, t.members);
      assert t.progressSum / t.members * t.members == t.progressSum;
    }
  }

  lemma MembersBound(streams: map<StreamId, Stream>, kind: Kind)
    requires InRange(streams)
    ensures var t := TotalsOf(streams, kind); 0.0 <= t.progress <= 100.0 * t.members && t.members >= 0.0
  {
    SumNonNegative(streams, In(kind, ONE));
    ProgressBound(streams, In(kind, PROGRESS), In(kind, ONE));
  }

  lemma SettledIsGroup(t: Tally, expected: bool, streams: map<StreamId, Stream>, kind: Kind)
    requires Sums(t, streams, kind) && Flags(t, streams, kind) && InRange(streams)
    ensures IsGroup(Settled(t, expected), streams, kind)
  {
    MembersBound(streams, kind);
    SettledMatches(t, expected, TotalsOf(streams, kind));
  }

  lemma MatchesDetermines(g: Group, h: Group, t: Totals, allComplete: bool, allKnown: bool)
    requires Matches(g, t, allComplete, allKnown) && Matches(h, t, allComplete, allKnown) && g.expected == h.expected
    ensures g.(combined := h.combined, eta := h.eta) == h
  {
    if t.members != 0.0 && g.progress * t.members == h.progress * t.members {
      assert (g.progress - h.progress) * t.members == 0.0;
    }
  }

  /** Two groups of the same streams agree on all but `combined` and `eta`. */
  lemma GroupIsOrderIndependent(g: Group, h: Group, streams: map<StreamId, Stream>, kind: Kind)
    requires IsGroup(g, streams, kind) && IsGroup(h, streams, kind) && g.expected == h.expected
    ensures g.(combined := h.combined, eta := h.eta) == h
  {
    MatchesDetermines(g, h, TotalsOf(streams, kind), AllComplete(streams, kind), AllKnown(streams, kind));
  }

  /** w on combined streams, and zero elsewhere. */
  function OnCombined(w: Stream -> real): Stream -> real {
    (s: Stream) => if s.kind.Combined? then w(s) else 0.0
  }

  lemma BothGroups(streams: map<StreamId, Stream>, w: Stream -> real)
    ensures Sum(streams, In(Video, w)) + Sum(streams, In(Audio, w)) == Sum(streams, w) + Sum(streams, OnCombined(w))
  {
    var both := (s: Stream) => In(Video, w)(s) + In(Audio, w)(s);
    SumAdds(streams, In(Video, w), In(Audio, w), both);
    SumAdds(streams, w, OnCombined(w), both);
  }

  /** The amounts of a group fit into an int64. */
  ghost predicate Fits(streams: map<StreamId, Stream>, kind: Kind) {
    Sum(streams, In(kind, TOTAL)) < TWO63 as real && Sum(streams, In(kind, DOWNLOADED)) < TWO63 as real
  }

  /** The bytes of a group are the sums over its members exactly if both sums are below 2^63; then its
      progress lies between 0 and 100. */
  lemma GroupExactIff(g: Group, streams: map<StreamId, Stream>, kind: Kind)
    requires IsGroup(g, streams, kind)
    ensures Fits(streams, kind) <==>
      g.total as real == Sum(streams, In(kind, TOTAL)) && g.downloaded as real == Sum(streams, In(kind, DOWNLOADED))
    ensures Sum(streams, In(kind, DOWNLOADED)) < TWO63 as real ==> 0.0 <= g.progress <= 100.0
  {
    SumNonNegative(streams, In(kind, TOTAL));
    SumNonNegative(streams, In(kind, DOWNLOADED));
    ExactIff(g.total, Sum(streams, In(kind, TOTAL)));
    ExactIff(g.downloaded, Sum(streams, In(kind, DOWNLOADED)));
  }

  /** Where x lies within the range of 64 bits: in its upper half an int64 sum is negative. */
  function Residue64(x: int): (r: int)
    ensures 0 <= r < 2 * TWO63 && (r < TWO63 ==> Wrap64(x) == r) && (r >= TWO63 ==> Wrap64(x) == r - 2 * TWO63)
  {
    x % (2 * TWO63)
  }

  lemma NegativePercent(part: real, whole: real)
    requires part < 0.0 && whole > 0.0
    ensures Percent(part, whole) < 0.0
  {
    assert part / whole * whole == part;
    assert part / whole < 0.0;
  }

  lemma MeanIs(progress: real, sum: real, members: real)
    requires progress * members == sum && members > 0.0 && 0.0 <= sum <= 100.0 * members
    ensures 0.0 <= progress <= 100.0
  {
    assert progress == sum / members;
    Average(sum, members);
  }

  lemma ProgressInRangeIff(g: Group, t: Totals, allComplete: bool, allKnown: bool)
    requires Matches(g, t, allComplete, allKnown) && 0.0 <= t.progress <= 100.0 * t.members && t.members >= 0.0
    ensures 0.0 <= g.progress <= 100.0 <==> !(g.status == Downloading && allKnown && g.total > 0 && g.downloaded < 0)
  {
    hide IsWrapped, Percent;
    if g.status == Downloading {
      if allKnown && g.total > 0 {
        if g.downloaded < 0 {
          NegativePercent(g.downloaded as real, g.total as real);
        }
      } else {
        MeanIs(g.progress, t.progress, t.members);
      }
    }
  }

  /** The progress of a group lies between 0 and 100 exactly if it does not come from a negative
      percentage: a downloading group of which all totals are known and whose sums, modulo 2^64, are
      positive for the totals and not below 2^63 for what has been downloaded. */
  lemma GroupProgressIff(g: Group, streams: map<StreamId, Stream>, kind: Kind)
    requires IsGroup(g, streams, kind) && InRange(streams)
    ensures var total, downloaded := Residue64(Sum(streams, In(kind, TOTAL)).Floor), Residue64(Sum(streams, In(kind, DOWNLOADED)).Floor);
      0.0 <= g.progress <= 100.0 <==>
      !(g.status == Downloading && AllKnown(streams, kind) && 0 < total < TWO63 && downloaded >= TWO63)
  {
    hide AllKnown, AllComplete, FromMembers, Sum, Wrap64;
    MembersBound(streams, kind);
    ProgressInRangeIff(g, TotalsOf(streams, kind), AllComplete(streams, kind), AllKnown(streams, kind));
  }

  /** The bytes of the two groups are the bytes of all streams, those of combined streams twice. */
  lemma GroupsCountCombinedTwice(video: Group, audio: Group, streams: map<StreamId, Stream>)
    requires IsGroup(video, streams, Video) && IsGroup(audio, streams, Audio)
    requires Fits(streams, Video) && Fits(streams, Audio)
    ensures (video.total + audio.total) as real == Sum(streams, TOTAL) + Sum(streams, OnCombined(TOTAL))
    ensures (video.downloaded + audio.downloaded) as real == Sum(streams, DOWNLOADED) + Sum(streams, OnCombined(DOWNLOADED))
  {
    GroupExactIff(video, streams, Video);
    GroupExactIff(audio, streams, Audio);
    BothGroups(streams, TOTAL);
    BothGroups(streams, DOWNLOADED);
  }

  /** Without that bound the same holds up to multiples of 2^64. */
  lemma GroupsCountCombinedTwiceModulo(video: Group, audio: Group, streams: map<StreamId, Stream>)
    requires IsGroup(video, streams, Video) && IsGroup(audio, streams, Audio)
    ensures IsWrapped(Wrap64(video.total + audio.total), Sum(streams, TOTAL) + Sum(streams, OnCombined(TOTAL)))
    ensures IsWrapped(Wrap64(video.downloaded + audio.downloaded), Sum(streams, DOWNLOADED) + Sum(streams, OnCombined(DOWNLOADED)))
  {
    hide Wrap64, IsWrapped, Sum, AllComplete, AllKnown, FromMembers;
    BothGroups(streams, TOTAL);
    BothGroups(streams, DOWNLOADED);
    WrappedTwo(video.total, Sum(streams, In(Video, TOTAL)), audio.total, Sum(streams, In(Audio, TOTAL)));
    WrappedTwo(video.downloaded, Sum(streams, In(Video, DOWNLOADED)), audio.downloaded, Sum(streams, In(Audio, DOWNLOADED)));
  }

  lemma WrappedTwo(a: int, x: real, b: int, y: real)
    requires IsWrapped(a, x) && IsWrapped(b, y)
    ensures IsWrapped(Wrap64(a + b), x + y)
  {
    WrapAgain(x.Floor, b);
    WrapAgain(y.Floor, x.Floor);
    assert (x + y).Floor == x.Floor + y.Floor;
  }

  // ---------------------------------------------------------------- the aggregate

  /** The local variables of the loop over all streams. */
  datatype Overall = Overall(total: int, downloaded: int, progress: real, allKnown: bool, video: bool, audio: bool)

  function Added(a: Overall, s: Stream): Overall {
    Overall(Wrap64(a.total + s.total), Wrap64(a.downloaded + s.downloaded), a.progress + s.progress,
            a.allKnown && s.total > 0, a.video || Member(s, Video), a.audio || Member(s, Audio))
  }

  ghost predicate Covers(a: Overall, seen: map<StreamId, Stream>) {
    && IsWrapped(a.total, Sum(seen, TOTAL))
    && IsWrapped(a.downloaded, Sum(seen, DOWNLOADED))
    && a.progress == Sum(seen, PROGRESS)
    && a.allKnown == (forall id :: id in seen ==> seen[id].total > 0)
    && a.video == HasMember(seen, Video)
    && a.audio == HasMember(seen, Audio)
  }

  lemma CoverStep(a: Overall, seen: map<StreamId, Stream>, id: StreamId, s: Stream)
    requires Covers(a, seen) && id !in seen
    ensures Covers(Added(a, s), seen[id := s])
  {
    hide Wrap64, IsWrapped, Sum, HasMember;
    SumOneMore(seen, id, s, TOTAL);
    SumOneMore(seen, id, s, DOWNLOADED);
    SumOneMore(seen, id, s, PROGRESS);
    WrapAdds(a.total, Sum(seen, TOTAL), s.total);
    WrapAdds(a.downloaded, Sum(seen, DOWNLOADED), s.downloaded);
    OneMoreMember(seen, id, s, Video);
    OneMoreMember(seen, id, s, Audio);
    var more := seen[id := s];
    assert more[id] == s && forall x :: x in seen ==> more[x] == seen[x];
  }

  lemma OneMoreMember(seen: map<StreamId, Stream>, id: StreamId, s: Stream, kind: Kind)
    requires id !in seen
    ensures HasMember(seen[id := s], kind) == (HasMember(seen, kind) || Member(s, kind))
  {
    var more := seen[id := s];
    if Member(s, kind) {
      assert more[id] == s;
    } else if HasMember(seen, kind) {
      var x :| x in seen && Member(seen[x], kind);
      assert more[x] == seen[x];
    }
  }

  method OverallOf(streams: map<StreamId, Stream>) returns (a: Overall)
    ensures Covers(a, streams)
  {
    a := Overall(0, 0, 0.0, true, false, false);
    var left := streams.Keys;
    assert streams - left == map[];
    while left != {}
      invariant left <= streams.Keys && Covers(a, streams - left)
      decreases |left|
    {
      var id :| id in left;
      CoverStep(a, streams - left, id, streams[id]);
      SeeOne(streams, left, id);
      a := Added(a, streams[id]);
      left := left - {id};
    }
    assert streams - {} == streams;
  }

  /** By bytes when every expected stream has announced its size, else the mean progress over
      `count` streams, in which an expected kind without a stream counts as zero. */
  function OverallProgress(byBytes: bool, total: int, downloaded: int, sum: real, count: nat): (r: real)
    requires count > 0 && (byBytes ==> total > 0)
    ensures 0.0 <= r <= 100.0
    ensures byBytes ==> if downloaded < 0 then r == 0.0 else IsPercent(r, downloaded as real, total as real)
    ensures !byBytes && 0.0 <= sum <= 100.0 * count as real ==> r * count as real == sum
  {
    if byBytes then
      Share(downloaded as real, total as real);
      ShareSign(downloaded as real, total as real);
      Clamp(downloaded as real / total as real * 100.0)
    else
      MeanInRange(sum, count as real);
      Clamp(sum / count as real)
  }

  /** How many expected kinds have no stream yet. */
  ghost function Missing(streams: map<StreamId, Stream>, expectVideo: bool, expectAudio: bool): nat {
    (if expectVideo && !HasMember(streams, Video) then 1 else 0) + (if expectAudio && !HasMember(streams, Audio) then 1 else 0)
  }

  ghost predicate SizesKnown(streams: map<StreamId, Stream>) {
    forall id :: id in streams ==> streams[id].total > 0
  }

  ghost predicate IsAggregate(streams: map<StreamId, Stream>, expectVideo: bool, expectAudio: bool,
                              total: int, downloaded: int, progress: real)
    requires |streams| > 0
  {
    var missing := Missing(streams, expectVideo, expectAudio);
    && IsWrapped(total, Sum(streams, TOTAL)) && IsWrapped(downloaded, Sum(streams, DOWNLOADED))
    && progress == OverallProgress(SizesKnown(streams) && missing == 0 && total > 0, total, downloaded,
                                   Sum(streams, PROGRESS), |streams| + missing)
  }

  /** The aggregate bytes are the sums over all streams exactly if both are below 2^63. */
  lemma AggregateExactIff(streams: map<StreamId, Stream>, expectVideo: bool, expectAudio: bool, total: int, downloaded: int, progress: real)
    requires |streams| > 0 && IsAggregate(streams, expectVideo, expectAudio, total, downloaded, progress)
    ensures total as real == Sum(streams, TOTAL) <==> Sum(streams, TOTAL) < TWO63 as real
    ensures downloaded as real == Sum(streams, DOWNLOADED) <==> Sum(streams, DOWNLOADED) < TWO63 as real
    ensures 0.0 <= progress <= 100.0
  {
    SumNonNegative(streams, TOTAL);
    SumNonNegative(streams, DOWNLOADED);
    ExactIff(total, Sum(streams, TOTAL));
    ExactIff(downloaded, Sum(streams, DOWNLOADED));
  }

  /** The streams after an event: no other stream is touched. */
  method Accumulate(streams: map<StreamId, Stream>, e: Event, audioOnly: bool)
    returns (all: map<StreamId, Stream>, stream: Stream)
    requires InRange(streams)
    ensures all == streams[e.id := Next(streams, e, audioOnly)] && stream == all[e.id]
    ensures Reports(stream, if e.id in streams then streams[e.id] else NEW_STREAM, e, audioOnly)
    ensures InRange(all) && |all| > 0
  {
    AdvancedReports(if e.id in streams then streams[e.id] else NEW_STREAM, e, audioOnly);
    stream := Next(streams, e, audioOnly);
    all := streams[e.id := stream];
    assert e.id in all;
  }

  /** One turn of the loop over the two kinds. */
  method Regrouped(streams: map<StreamId, Stream>, kind: Kind, expected: bool) returns (g: Group)
    requires InRange(streams)
    ensures IsGroup(g, streams, kind) && g.expected == expected
  {
    var t := TallyOf(streams, kind);
    SettledIsGroup(t, expected, streams, kind);
    g := Settled(t, expected);
  }

  /** RecalculateAggregate for a download with identified streams. */
  method Aggregate(streams: map<StreamId, Stream>, expectVideo: bool, expectAudio: bool)
    returns (total: int, downloaded: int, progress: real)
    requires |streams| > 0
    ensures IsAggregate(streams, expectVideo, expectAudio, total, downloaded, progress)
    ensures 0.0 <= progress <= 100.0
  {
    var o := OverallOf(streams);
    total, downloaded := o.total, o.downloaded;
    var count, allKnown := |streams|, o.allKnown;
    if expectVideo && !o.video {
      count := count + 1;
      allKnown := false;
    }
    if expectAudio && !o.audio {
      count := count + 1;
      allKnown := false;
    }
    progress := OverallProgress(allKnown && total > 0, total, downloaded, o.progress, count);
  }

  // ---------------------------------------------------------------- the record

  class Progress {
    var streams: map<StreamId, Stream>
    var video: Group
    var audio: Group
    var total: int
    var downloaded: int
    var progress: real
    var speed: real
    var eta: Option<int>
    var processing: bool          // status "processing" rather than "downloading"

    ghost predicate Valid()
      reads this
    {
      InRange(streams) && 0.0 <= progress <= 100.0
    }

    /** What every identified event establishes. */
    ghost predicate Aggregated()
      reads this
    {
      && |streams| > 0 && IsAggregate(streams, video.expected, audio.expected, total, downloaded, progress)
      && IsGroup(video, streams, Video) && IsGroup(audio, streams, Audio)
    }

    /** What is known of a stream; nothing, at first. */
    ghost function Known(id: StreamId): Stream
      reads this
    {
      if id in streams then streams[id] else NEW_STREAM
    }

    constructor (expectedVideo: bool, expectedAudio: bool)
      ensures Valid() && streams == map[]
      ensures video.expected == expectedVideo && audio.expected == expectedAudio
    {
      streams := map[];
      video := Group(expectedVideo, false, if expectedVideo then Waiting else NotRequested, 0.0, 0.0, None, 0, 0);
      audio := Group(expectedAudio, false, if expectedAudio then Waiting else NotRequested, 0.0, 0.0, None, 0, 0);
      total, downloaded, progress, speed, eta, processing := 0, 0, 0.0, 0.0, None, false;
    }

    method HandleIdentifiedStream(e: Event)
      requires Valid()
      modifies this
      ensures Valid() && Aggregated()
      ensures streams == old(streams)[e.id := Next(old(streams), e, old(audio).expected && !old(video).expected)]
      ensures Reports(streams[e.id], old(Known(e.id)), e, old(audio).expected && !old(video).expected)
      ensures forall id :: id in old(streams) && id != e.id ==> id in streams && streams[id] == old(streams)[id]
      ensures video.expected == old(video).expected && audio.expected == old(audio).expected
      ensures speed == streams[e.id].speed && eta == streams[e.id].eta && processing == e.finished
    {
      hide IsGroup, IsAggregate, InRange, Next, Reports;
      var all, stream := Accumulate(streams, e, audio.expected && !video.expected);
      var v := Regrouped(all, Video, video.expected);
      var a := Regrouped(all, Audio, audio.expected);
      var t, d, p := Aggregate(all, video.expected, audio.expected);
      streams, video, audio, total, downloaded, progress := all, v, a, t, d, p;
      speed, eta, processing := stream.speed, stream.eta, e.finished;
    }
  }

  // ---------------------------------------------------------------- an overflow

  /** An event of a video stream that reports one byte in all and the largest amount downloaded. */
  function Excessive(id: StreamId): Event {
    Event(id, false, true, false, Finite(1.0), Absent, Finite(LARGEST), Absent, Absent, Absent, Absent)
  }

  function AfterExcess(): map<StreamId, Stream> {
    var one := map["m:1" := Next(map[], Excessive("m:1"), false)];
    one["m:2" := Next(one, Excessive("m:2"), false)]
  }

  lemma TwoVideos(streams: map<StreamId, Stream>, x: StreamId, y: StreamId, w: Stream -> real)
    requires streams.Keys == {x, y} && x != y
    ensures Sum(streams, w) == w(streams[x]) + w(streams[y])
  {
    SumSplit(streams, w, x);
    SumSplit(streams - {x}, w, y);
    assert streams - {x} - {y} == map[];
  }

  lemma ExcessiveStream(id: StreamId)
    ensures var s := Advanced(NEW_STREAM, Excessive(id), false);
      s.kind == Video && s.status == Downloading && s.total == 1 && s.downloaded == TWO63 - 1024
  {
    assert LARGEST.Floor == TWO63 - 1024;
    assert (1.0).Floor == 1;
  }

  lemma ExcessTotals()
    ensures var streams := AfterExcess(); var t := TotalsOf(streams, Video);
      && t.total == 2.0 && t.downloaded == (2 * (TWO63 - 1024)) as real && t.members == 2.0
      && !AllComplete(streams, Video) && AllKnown(streams, Video)
  {
    hide Advanced, Sum;
    var streams := AfterExcess();
    ExcessiveStream("m:1");
    ExcessiveStream("m:2");
    assert streams.Keys == {"m:1", "m:2"} && streams["m:1"] == Advanced(NEW_STREAM, Excessive("m:1"), false)
        && streams["m:2"] == Advanced(NEW_STREAM, Excessive("m:2"), false);
    TwoVideos(streams, "m:1", "m:2", In(Video, TOTAL));
    TwoVideos(streams, "m:1", "m:2", In(Video, DOWNLOADED));
    TwoVideos(streams, "m:1", "m:2", In(Video, ONE));
  }

  /** Two such events make the bytes of the video group negative, and with them its progress. */
  lemma OverflowingGroup(g: Group)
    requires g.expected && IsGroup(g, AfterExcess(), Video)
    ensures g.total == 2 && g.downloaded == -2048 && g.progress == -102400.0
  {
    hide AfterExcess, TotalsOf, AllComplete, AllKnown, FromMembers;
    ExcessTotals();
    assert Wrap64(2 * (TWO63 - 1024)) == -2048;
  }
}
