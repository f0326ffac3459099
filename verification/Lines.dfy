/** The streaming line splitter of internal/process/process.go. */
module Lines {
  import opened Bytes
  import opened Utf8

  const NEWLINE: Byte := 10
  const LIMIT: nat := 0x10_0000

  // ---------------------------------------------------------------- white space

  /** The length of the UTF-8 encoding of a Unicode white-space character at the start, or 0. */
  function SpacePrefix(s: Bytes): (n: nat)
    ensures n <= |s|
  {
    if |s| >= 1 && (9 <= s[0] <= 13 || s[0] == 32) then 1
    else if |s| >= 2 && IsSpace2(s[0], s[1]) then 2
    else if |s| >= 3 && IsSpace3(s[0], s[1], s[2]) then 3
    else 0
  }

  function SpaceSuffix(s: Bytes): (n: nat)
    ensures n <= |s|
  {
    var k := |s|;
    if k >= 1 && (9 <= s[k - 1] <= 13 || s[k - 1] == 32) then 1
    else if k >= 2 && IsSpace2(s[k - 2], s[k - 1]) then 2
    else if k >= 3 && IsSpace3(s[k - 3], s[k - 2], s[k - 1]) then 3
    else 0
  }

  /** U+0085 and U+00A0. */
  predicate IsSpace2(a: Byte, b: Byte) {
    a == 0xC2 && (b == 0x85 || b == 0xA0)
  }

  /** U+1680, U+2000 to U+200A, U+2028, U+2029, U+202F, U+205F and U+3000. */
  predicate IsSpace3(a: Byte, b: Byte, c: Byte) {
    || (a == 0xE1 && b == 0x9A && c == 0x80)
    || (a == 0xE2 && b == 0x80 && (0x80 <= c <= 0x8A || c == 0xA8 || c == 0xA9 || c == 0xAF))
    || (a == 0xE2 && b == 0x81 && c == 0x9F)
    || (a == 0xE3 && b == 0x80 && c == 0x80)
  }

  lemma PrefixIsWhite(s: Bytes) returns (c: Scalar)
    requires SpacePrefix(s) > 0
    ensures IsWhite(c) && Encode(c) == s[..SpacePrefix(s)]
  {
    var n := SpacePrefix(s);
    if n == 1 {
      c := s[0];
    } else if n == 2 {
      c := White2(s[0], s[1]);
    } else {
      c := White3(s[0], s[1], s[2]);
    }
  }

  lemma SuffixIsWhite(s: Bytes) returns (c: Scalar)
    requires SpaceSuffix(s) > 0
    ensures IsWhite(c) && Encode(c) == s[|s| - SpaceSuffix(s)..]
  {
    var n, k := SpaceSuffix(s), |s|;
    if n == 1 {
      c := s[k - 1];
    } else if n == 2 {
      c := White2(s[k - 2], s[k - 1]);
    } else {
      c := White3(s[k - 3], s[k - 2], s[k - 1]);
    }
  }

  lemma White2(a: Byte, b: Byte) returns (c: Scalar)
    requires IsSpace2(a, b)
    ensures IsWhite(c) && Encode(c) == [a, b]
  {
    c := if b == 0x85 then 0x85 else 0xA0;
  }

  lemma White3(a: Byte, b: Byte, d: Byte) returns (c: Scalar)
    requires IsSpace3(a, b, d)
    ensures IsWhite(c) && Encode(c) == [a, b, d]
  {
    if a == 0xE1 {
      c := 0x1680;
    } else if a == 0xE3 {
      c := 0x3000;
    } else if b == 0x81 {
      c := 0x205F;
    } else {
      var last: int := d;
      c := 0x2000 + (last - 0x80);
    }
  }

  /** All white space of Unicode is recognised, at either end. */
  lemma WhiteIsRecognised(c: Scalar, rest: Bytes)
    requires IsWhite(c)
    ensures SpacePrefix(Encode(c) + rest) == |Encode(c)| && SpaceSuffix(rest + Encode(c)) == |Encode(c)|
  {
    if c < 0x80 {
      assert Encode(c) == [c];
    } else if c < 0x800 {
      assert IsSpace2(Encode(c)[0], Encode(c)[1]);
    } else {
      assert IsSpace3(Encode(c)[0], Encode(c)[1], Encode(c)[2]);
    }
  }

  function TrimLeft(s: Bytes): Bytes
    decreases |s|
  {
    if SpacePrefix(s) == 0 then s else TrimLeft(s[SpacePrefix(s)..])
  }

  function TrimRight(s: Bytes): Bytes
    decreases |s|
  {
    if SpaceSuffix(s) == 0 then s else TrimRight(s[..|s| - SpaceSuffix(s)])
  }

  function TrimSpace(s: Bytes): Bytes {
    TrimRight(TrimLeft(s))
  }

  // ---------------------------------------------------------------- the writer

  /** What the handler receives for one line. */
  function Emit(line: Bytes): seq<Bytes> {
    var trimmed := TrimSpace(line);
    if trimmed == [] then [] else [trimmed]
  }

  datatype Splitter = Splitter(buffer: Bytes, handled: seq<Bytes>)

  datatype Outcome = Outcome(state: Splitter, overflow: bool)

  function Flushed(w: Splitter): Splitter {
    Splitter([], w.handled + Emit(w.buffer))
  }

  function IndexByte(p: Bytes, b: Byte): (i: nat)
    ensures i <= |p|
    ensures i < |p| ==> p[i] == b
    ensures b !in p[..i]
  {
    if p == [] || p[0] == b then 0
    else
      var i := 1 + IndexByte(p[1..], b);
      assert p[..i] == [p[0]] + p[1..][..i - 1];
      i
  }

  /** One call of Write: segment by segment, refusing a segment that would make the line too long. */
  function Written(w: Splitter, p: Bytes): Outcome
    decreases |p|
  {
    var i := IndexByte(p, NEWLINE);
    if p == [] then Outcome(w, false)
    else if |w.buffer| + i > LIMIT then Outcome(w, true)
    else
      var grown := w.(buffer := w.buffer + p[..i]);
      if i == |p| then Outcome(grown, false) else Written(Flushed(grown), p[i + 1..])
  }

  class LineWriter {
    var buffer: Bytes
    var handled: seq<Bytes>     // the calls of Handle so far
    var cancelled: bool         // whether Cancel was called

    ghost function State(): Splitter
      reads this
    {
      Splitter(buffer, handled)
    }

    constructor ()
      ensures State() == Splitter([], []) && !cancelled
    {
      buffer, handled, cancelled := [], [], false;
    }

    method Flush()
      modifies this`buffer, this`handled
      ensures State() == Flushed(old(State()))
    {
      var line := TrimSpace(buffer);
      if line != [] {
        handled := handled + [line];
      }
      buffer := [];
    }

    method Write(p: Bytes) returns (n: nat, ok: bool)
      modifies this
      ensures State() == Written(old(State()), p).state
      ensures ok == !Written(old(State()), p).overflow
      ensures n == (if ok then |p| else 0)
      ensures cancelled == (old(cancelled) || !ok)
    {
      var rest := p;
      while |rest| > 0
        invariant cancelled == old(cancelled)
        invariant Written(old(State()), p) == Written(State(), rest)
      {
        var i := IndexByte(rest, NEWLINE);
        if |buffer| + i > LIMIT {
          cancelled := true;
          return 0, false;
        }
        buffer := buffer + rest[..i];
        if i == |rest| {
          rest := [];
          break;
        }
        Flush();
        rest := rest[i + 1..];
      }
      return |p|, true;
    }
  }

  // ---------------------------------------------------------------- one byte at a time

  /** The reference: a machine that sees single bytes, so that it cannot depend on chunks. */
  datatype Scan = Scan(buffer: Bytes, handled: seq<Bytes>, overflow: bool)

  function Fed(c: Scan, b: Byte): Scan {
    if c.overflow then c
    else if b == NEWLINE then Scan([], c.handled + Emit(c.buffer), false)
    else if |c.buffer| == LIMIT then c.(overflow := true)
    else c.(buffer := c.buffer + [b])
  }

  function FedAll(c: Scan, s: Bytes): Scan
    decreases |s|
  {
    if s == [] then c else FedAll(Fed(c, s[0]), s[1..])
  }

  lemma {:induction false} FedAppend(c: Scan, s: Bytes, t: Bytes)
    ensures FedAll(c, s + t) == FedAll(FedAll(c, s), t)
    decreases |s|
  {
    if s == [] {
      assert s + t == t;
    } else {
      assert (s + t)[1..] == s[1..] + t;
      FedAppend(Fed(c, s[0]), s[1..], t);
    }
  }

  lemma {:induction false} FedOverflow(c: Scan, s: Bytes)
    requires c.overflow
    ensures FedAll(c, s) == c
  {
    if s != [] {
      FedOverflow(c, s[1..]);
    }
  }

  lemma {:induction false} FedPlain(c: Scan, s: Bytes)
    requires !c.overflow && |c.buffer| <= LIMIT && NEWLINE !in s
    ensures |c.buffer| + |s| <= LIMIT ==> FedAll(c, s) == c.(buffer := c.buffer + s)
    ensures |c.buffer| + |s| > LIMIT ==> FedAll(c, s).overflow && FedAll(c, s).handled == c.handled
    decreases |s|
  {
    if s != [] {
      if |c.buffer| == LIMIT {
        FedOverflow(Fed(c, s[0]), s[1..]);
      } else {
        FedPlain(Fed(c, s[0]), s[1..]);
        assert c.buffer + [s[0]] + s[1..] == c.buffer + s;
      }
    }
  }

  ghost predicate Agrees(o: Outcome, c: Scan) {
    && o.overflow == c.overflow
    && o.state.handled == c.handled
    && (!o.overflow ==> o.state.buffer == c.buffer)
    && |o.state.buffer| <= LIMIT
  }

  /** One Write and the byte machine hand over the same lines and overflow on the same input. */
  lemma {:induction false} WriteAgrees(w: Splitter, p: Bytes)
    requires |w.buffer| <= LIMIT
    ensures Agrees(Written(w, p), FedAll(Scan(w.buffer, w.handled, false), p))
    decreases |p|
  {
    var c := Scan(w.buffer, w.handled, false);
    var i := IndexByte(p, NEWLINE);
    if p == [] {
    } else {
      var line, rest := p[..i], p[i..];
      FedPlain(c, line);
      assert FedAll(c, p) == FedAll(FedAll(c, line), rest) by {
        assert p == line + rest;
        FedAppend(c, line, rest);
      }
      if |w.buffer| + i > LIMIT {
        FedOverflow(FedAll(c, line), rest);
      } else if i < |p| {
        assert rest[0] == NEWLINE && rest[1..] == p[i + 1..];
        WriteAgrees(Flushed(w.(buffer := w.buffer + line)), p[i + 1..]);
      }
    }
  }

  // ---------------------------------------------------------------- sessions

  /** The copy loop of the process runner: it stops writing at the first error. */
  function Session(w: Splitter, chunks: seq<Bytes>): Outcome
    decreases |chunks|
  {
    if chunks == [] then Outcome(w, false)
    else
      var first := Written(w, chunks[0]);
      if first.overflow then first else Session(first.state, chunks[1..])
  }

  function Concat(chunks: seq<Bytes>): Bytes {
    if chunks == [] then [] else chunks[0] + Concat(chunks[1..])
  }

  lemma {:induction false} SessionAgrees(w: Splitter, chunks: seq<Bytes>)
    requires |w.buffer| <= LIMIT
    ensures Agrees(Session(w, chunks), FedAll(Scan(w.buffer, w.handled, false), Concat(chunks)))
    decreases |chunks|
  {
    if chunks != [] {
      var c := Scan(w.buffer, w.handled, false);
      var first := Written(w, chunks[0]);
      WriteAgrees(w, chunks[0]);
      FedAppend(c, chunks[0], Concat(chunks[1..]));
      if first.overflow {
        FedOverflow(FedAll(c, chunks[0]), Concat(chunks[1..]));
      } else {
        SessionAgrees(first.state, chunks[1..]);
      }
    }
  }

  // ---------------------------------------------------------------- lines of the whole output

  /** The newline-separated segments of a byte string; the last one is unterminated. */
  function Segments(s: Bytes): (segments: seq<Bytes>)
    ensures |segments| > 0
  {
    if s == [] then [[]]
    else
      var rest := Segments(s[1..]);
      if s[0] == NEWLINE then [[]] + rest else [[s[0]] + rest[0]] + rest[1..]
  }

  /** The position of the first segment over the limit, or the number of segments. */
  function FirstLong(segments: seq<Bytes>): (i: nat)
    ensures i <= |segments|
    ensures i < |segments| ==> |segments[i]| > LIMIT
    ensures forall j :: 0 <= j < i ==> |segments[j]| <= LIMIT
  {
    if segments == [] || |segments[0]| > LIMIT then 0 else 1 + FirstLong(segments[1..])
  }

  /** The trimmed non-empty lines, in order. */
  function Lines(segments: seq<Bytes>): seq<Bytes> {
    if segments == [] then [] else Emit(segments[0]) + Lines(segments[1..])
  }

  /** What the byte machine knows once it has read the segments. */
  ghost predicate Reads(c: Scan, handled: seq<Bytes>, segments: seq<Bytes>)
    requires |segments| > 0
    decreases |segments|
  {
    if |segments[0]| > LIMIT then c.overflow && c.handled == handled
    else if |segments| == 1 then c == Scan(segments[0], handled, false)
    else Reads(c, handled + Emit(segments[0]), segments[1..])
  }

  function Prepended(buffer: Bytes, segments: seq<Bytes>): seq<Bytes>
    requires |segments| > 0
  {
    [buffer + segments[0]] + segments[1..]
  }

  lemma PrependedNothing(segments: seq<Bytes>)
    requires |segments| > 0
    ensures Prepended([], segments) == segments
  {
    assert [] + segments[0] == segments[0];
  }

  lemma {:induction false} FedSegments(buffer: Bytes, handled: seq<Bytes>, s: Bytes)
    requires |buffer| <= LIMIT
    ensures Reads(FedAll(Scan(buffer, handled, false), s), handled, Prepended(buffer, Segments(s)))
    decreases |s|
  {
    if s == [] {
      assert buffer + [] == buffer;
    } else if s[0] == NEWLINE {
      FedNewline(buffer, handled, s);
    } else {
      FedLetter(buffer, handled, s);
    }
  }

  lemma {:induction false} FedNewline(buffer: Bytes, handled: seq<Bytes>, s: Bytes)
    requires |buffer| <= LIMIT && s != [] && s[0] == NEWLINE
    ensures Reads(FedAll(Scan(buffer, handled, false), s), handled, Prepended(buffer, Segments(s)))
    decreases |s|, 0
  {
    var rest := Segments(s[1..]);
    FedSegments([], handled + Emit(buffer), s[1..]);
    PrependedNothing(rest);
    var all := [buffer] + rest;
    assert buffer + [] == buffer;
    assert ([[]] + rest)[1..] == rest;
    assert all[1..] == rest;
  }

  lemma {:induction false} FedLetter(buffer: Bytes, handled: seq<Bytes>, s: Bytes)
    requires |buffer| <= LIMIT && s != [] && s[0] != NEWLINE
    ensures Reads(FedAll(Scan(buffer, handled, false), s), handled, Prepended(buffer, Segments(s)))
    decreases |s|, 0
  {
    var c := Scan(buffer, handled, false);
    var rest := Segments(s[1..]);
    assert Prepended(buffer, Segments(s)) == Prepended(buffer + [s[0]], rest) by {
      assert buffer + ([s[0]] + rest[0]) == buffer + [s[0]] + rest[0];
    }
    if |buffer| == LIMIT {
      FedOverflow(Fed(c, s[0]), s[1..]);
    } else {
      FedSegments(buffer + [s[0]], handled, s[1..]);
    }
  }

  /** The lines handed over before the unterminated or the first overlong segment. */
  function Before(segments: seq<Bytes>): seq<Bytes> {
    if |segments| <= 1 || |segments[0]| > LIMIT then [] else Emit(segments[0]) + Before(segments[1..])
  }

  lemma {:induction false} ReadsMeans(c: Scan, handled: seq<Bytes>, segments: seq<Bytes>)
    requires |segments| > 0 && Reads(c, handled, segments)
    ensures c.overflow == (FirstLong(segments) < |segments|)
    ensures c.handled == handled + Before(segments)
    ensures !c.overflow ==> c.buffer == segments[|segments| - 1]
    decreases |segments|
  {
    if |segments[0]| <= LIMIT && |segments| > 1 {
      ReadsMeans(c, handled + Emit(segments[0]), segments[1..]);
      assert c.handled == handled + (Emit(segments[0]) + Before(segments[1..]));
    }
  }

  /** Without an overlong segment those are all lines but the unterminated one. */
  lemma {:induction false} BeforeLast(segments: seq<Bytes>)
    requires |segments| > 0 && FirstLong(segments) == |segments|
    ensures Before(segments) + Emit(segments[|segments| - 1]) == Lines(segments)
    decreases |segments|
  {
    hide Emit;
    if |segments| > 1 {
      BeforeLast(segments[1..]);
      assert Emit(segments[0]) + Before(segments[1..]) + Emit(segments[|segments| - 1])
          == Emit(segments[0]) + (Before(segments[1..]) + Emit(segments[|segments| - 1]));
    } else {
      assert segments[1..] == [];
      assert Emit(segments[0]) + [] == Emit(segments[0]);
    }
  }

  /** Otherwise they are the lines of the segments in front of it. */
  lemma {:induction false} BeforeLong(segments: seq<Bytes>)
    requires FirstLong(segments) < |segments|
    ensures Before(segments) == Lines(segments[..FirstLong(segments)])
    decreases |segments|
  {
    hide Emit;
    if |segments[0]| <= LIMIT {
      BeforeLong(segments[1..]);
      var k := FirstLong(segments[1..]);
      assert segments[..k + 1][0] == segments[0] && segments[..k + 1][1..] == segments[1..][..k];
    }
  }

  // ---------------------------------------------------------------- theorems

  lemma {:induction false} TrimRightKeepsStart(s: Bytes)
    requires SpacePrefix(s) == 0
    ensures SpacePrefix(TrimRight(s)) == 0 && SpaceSuffix(TrimRight(s)) == 0
    decreases |s|
  {
    if SpaceSuffix(s) > 0 {
      TrimRightKeepsStart(s[..|s| - SpaceSuffix(s)]);
    }
  }

  lemma {:induction false} TrimLeftStops(s: Bytes)
    ensures SpacePrefix(TrimLeft(s)) == 0
    decreases |s|
  {
    if SpacePrefix(s) > 0 {
      TrimLeftStops(s[SpacePrefix(s)..]);
    }
  }

  /** Only characters of white space. */
  ghost predicate AllWhite(s: Bytes) {
    exists text: seq<Scalar> :: s == EncodeAll(text) && forall c :: c in text ==> IsWhite(c)
  }

  lemma NothingIsWhite()
    ensures AllWhite([])
  {
    assert [] == EncodeAll([]);
  }

  lemma WhiteInFront(c: Scalar, s: Bytes)
    requires IsWhite(c) && AllWhite(s)
    ensures AllWhite(Encode(c) + s)
  {
    var text: seq<Scalar> :| s == EncodeAll(text) && forall d :: d in text ==> IsWhite(d);
    assert ([c] + text)[1..] == text;
    assert Encode(c) + s == EncodeAll([c] + text);
  }

  lemma {:induction false} EncodeAllAppend(a: seq<Scalar>, b: seq<Scalar>)
    ensures EncodeAll(a + b) == EncodeAll(a) + EncodeAll(b)
  {
    hide Encode;
    if a == [] {
      assert a + b == b;
    } else {
      EncodeAllAppend(a[1..], b);
      assert (a + b)[1..] == a[1..] + b;
    }
  }

  lemma WhiteBehind(s: Bytes, c: Scalar)
    requires IsWhite(c) && AllWhite(s)
    ensures AllWhite(s + Encode(c))
  {
    var text: seq<Scalar> :| s == EncodeAll(text) && forall d :: d in text ==> IsWhite(d);
    EncodeAllAppend(text, [c]);
    assert EncodeAll([c]) == Encode(c);
    assert s + Encode(c) == EncodeAll(text + [c]);
  }

  lemma {:induction false} TrimLeftCuts(s: Bytes) returns (front: Bytes)
    ensures s == front + TrimLeft(s) && AllWhite(front)
    decreases |s|
  {
    hide Encode, SpacePrefix, SpaceSuffix, IsWhite, AllWhite;
    if SpacePrefix(s) == 0 {
      front := [];
      NothingIsWhite();
    } else {
      var c := PrefixIsWhite(s);
      front := TrimLeftCuts(s[SpacePrefix(s)..]);
      WhiteInFront(c, front);
      front := Encode(c) + front;
    }
  }

  lemma {:induction false} TrimRightCuts(s: Bytes) returns (back: Bytes)
    ensures s == TrimRight(s) + back && AllWhite(back)
    decreases |s|
  {
    hide Encode, SpacePrefix, SpaceSuffix, IsWhite, AllWhite;
    if SpaceSuffix(s) == 0 {
      back := [];
      NothingIsWhite();
    } else {
      var c := SuffixIsWhite(s);
      back := TrimRightCuts(s[..|s| - SpaceSuffix(s)]);
      WhiteBehind(back, c);
      back := back + Encode(c);
    }
  }

  /** What a line hands over is the line without the white space around it, and nothing if that is all. */
  lemma EmitCuts(line: Bytes) returns (front: Bytes, middle: Bytes, back: Bytes)
    ensures line == front + middle + back && AllWhite(front) && AllWhite(back)
    ensures Emit(line) == if middle == [] then [] else [middle]
    ensures forall c: Scalar :: IsWhite(c) ==> !(Encode(c) <= middle) && !EndsWith(middle, Encode(c))
  {
    hide Encode, SpacePrefix, SpaceSuffix, IsWhite, AllWhite, TrimLeft, TrimRight, EndsWith;
    front := TrimLeftCuts(line);
    back := TrimRightCuts(TrimLeft(line));
    middle := TrimSpace(line);
    assert front + (middle + back) == front + middle + back;
    TrimLeftStops(line);
    TrimRightKeepsStart(TrimLeft(line));
    forall c: Scalar | IsWhite(c)
      ensures !(Encode(c) <= middle) && !EndsWith(middle, Encode(c))
    {
      NoWhiteEnds(middle, c);
    }
  }

  lemma NoWhiteEnds(s: Bytes, c: Scalar)
    requires SpacePrefix(s) == 0 && SpaceSuffix(s) == 0 && IsWhite(c)
    ensures !(Encode(c) <= s) && !EndsWith(s, Encode(c))
  {
    hide Encode, SpacePrefix, SpaceSuffix, IsWhite;
    var n := |Encode(c)|;
    if Encode(c) <= s {
      assert s == Encode(c) + s[n..];
      WhiteIsRecognised(c, s[n..]);
    }
    if EndsWith(s, Encode(c)) {
      assert s == s[..|s| - n] + Encode(c);
      WhiteIsRecognised(c, s[..|s| - n]);
    }
  }

  predicate EndsWith(s: Bytes, t: Bytes) {
    |t| <= |s| && s[|s| - |t|..] == t
  }

  /** The segments with newlines in between. */
  function Glued(segments: seq<Bytes>): Bytes
    requires |segments| > 0
  {
    if |segments| == 1 then segments[0] else segments[0] + [10] + Glued(segments[1..])
  }

  /** The segments are the text cut at its newlines. */
  lemma {:induction false} SegmentsAre(s: Bytes)
    ensures Glued(Segments(s)) == s && forall segment :: segment in Segments(s) ==> 10 !in segment
    decreases |s|
  {
    if s != [] {
      SegmentsAre(s[1..]);
      var rest := Segments(s[1..]);
      if s[0] == NEWLINE {
        assert ([[]] + rest)[1..] == rest;
        assert [] + [10] + Glued(rest) == s;
      } else {
        var more := [[s[0]] + rest[0]] + rest[1..];
        assert more[1..] == rest[1..];
        assert Glued(more) == [s[0]] + Glued(rest);
      }
    }
  }

  /** The handler never sees an empty line, nor white space at either end. */
  lemma {:induction false} LinesAreTrimmed(segments: seq<Bytes>)
    ensures forall line :: line in Lines(segments) ==>
      line != [] && SpacePrefix(line) == 0 && SpaceSuffix(line) == 0
  {
    if segments != [] {
      LinesAreTrimmed(segments[1..]);
      TrimLeftStops(segments[0]);
      TrimRightKeepsStart(TrimLeft(segments[0]));
    }
  }

  const FRESH := Splitter([], [])

  lemma SessionReads(chunks: seq<Bytes>)
    ensures var o := Session(FRESH, chunks); var segments := Segments(Concat(chunks));
      && |o.state.buffer| <= LIMIT
      && o.overflow == (FirstLong(segments) < |segments|)
      && o.state.handled == Before(segments)
      && (!o.overflow ==> o.state.buffer == segments[|segments| - 1])
  {
    hide Session, FedAll, Concat, Segments, Before, FirstLong;
    var c := FedAll(Scan([], [], false), Concat(chunks));
    SessionAgrees(FRESH, chunks);
    var segments := Segments(Concat(chunks));
    assert Reads(c, [], segments) by {
      FedSegments([], [], Concat(chunks));
      PrependedNothing(segments);
    }
    ReadsMeans(c, [], segments);
  }

  /** However the output is cut into chunks, Write overflows exactly when some line is over the limit. */
  lemma OverflowIffLongLine(chunks: seq<Bytes>)
    ensures Session(FRESH, chunks).overflow <==>
            exists k :: 0 <= k < |Segments(Concat(chunks))| && |Segments(Concat(chunks))[k]| > 0x10_0000
    ensures |Session(FRESH, chunks).state.buffer| <= LIMIT
  {
    SessionReads(chunks);
  }

  /** Without an overlong line the handler receives, after the final Flush, exactly the trimmed
      non-empty lines of the whole output. */
  lemma {:induction false} ChunkingInvariant(chunks: seq<Bytes>)
    requires !Session(FRESH, chunks).overflow
    ensures Flushed(Session(FRESH, chunks).state).handled == Lines(Segments(Concat(chunks)))
  {
    hide Session, Segments, Lines, Concat, Before, FirstLong, Emit;
    SessionReads(chunks);
    BeforeLast(Segments(Concat(chunks)));
  }

  /** With an overlong line it has received, when Write fails, exactly the lines before it. */
  lemma OverflowAfterSameLines(chunks: seq<Bytes>)
    requires Session(FRESH, chunks).overflow
    ensures var segments := Segments(Concat(chunks));
      Session(FRESH, chunks).state.handled == Lines(segments[..FirstLong(segments)])
  {
    SessionReads(chunks);
    BeforeLong(Segments(Concat(chunks)));
  }

  // ---------------------------------------------------------------- the last flush

  /** Everything the handler receives, the final Flush included. */
  function Final(chunks: seq<Bytes>): seq<Bytes> {
    Flushed(Session(FRESH, chunks).state).handled
  }

  /** The segments of a text that goes on. */
  function Continued(x: seq<Bytes>, y: seq<Bytes>): seq<Bytes>
    requires |x| > 0 && |y| > 0
  {
    x[..|x| - 1] + Prepended(x[|x| - 1], y)
  }

  lemma ContinuedNewline(x: seq<Bytes>, y: seq<Bytes>)
    requires |x| > 0 && |y| > 0
    ensures Continued([[]] + x, y) == [[]] + Continued(x, y)
  {
    var all := [[]] + x;
    assert all[..|x|] == [[]] + x[..|x| - 1] && all[|x|] == x[|x| - 1];
  }

  lemma ContinuedLetter(c: Byte, x: seq<Bytes>, y: seq<Bytes>)
    requires |x| > 0 && |y| > 0
    ensures var rest := Continued(x, y);
      Continued([[c] + x[0]] + x[1..], y) == [[c] + rest[0]] + rest[1..]
  {
    if |x| == 1 {
      assert [c] + (x[0] + y[0]) == [c] + x[0] + y[0];
    }
  }

  lemma {:induction false} SegmentsAppend(a: Bytes, b: Bytes)
    ensures Segments(a + b) == Continued(Segments(a), Segments(b))
    decreases |a|
  {
    hide Continued;
    if a == [] {
      assert a + b == b;
      ContinuedNothing(Segments(b));
    } else {
      SegmentsAppend(a[1..], b);
      assert (a + b)[1..] == a[1..] + b;
      ContinuedNewline(Segments(a[1..]), Segments(b));
      ContinuedLetter(a[0], Segments(a[1..]), Segments(b));
    }
  }

  lemma ContinuedNothing(y: seq<Bytes>)
    requires |y| > 0
    ensures Continued([[]], y) == y
  {
    PrependedNothing(y);
  }

  lemma {:induction false} SegmentsHead(p: Bytes)
    ensures var i := IndexByte(p, NEWLINE);
      Segments(p) == [p[..i]] + if i < |p| then Segments(p[i + 1..]) else []
    decreases |p|
  {
    if p != [] && p[0] != NEWLINE {
      SegmentsHead(p[1..]);
      var i := IndexByte(p[1..], NEWLINE);
      assert p[..i + 1] == [p[0]] + p[1..][..i];
      if i < |p[1..]| {
        assert p[1..][i + 1..] == p[i + 2..];
      }
    }
  }

  /** What a refused Write leaves in the buffer: what was there before if the line that it continues is
      too long, and otherwise nothing. */
  lemma {:induction false} WrittenOverflow(w: Splitter, p: Bytes)
    requires |w.buffer| <= LIMIT && Written(w, p).overflow
    ensures var segments := Prepended(w.buffer, Segments(p));
      && FirstLong(segments) < |segments|
      && Written(w, p).state.buffer == if |segments[0]| > LIMIT then w.buffer else []
    decreases |p|
  {
    var i := IndexByte(p, NEWLINE);
    SegmentsHead(p);
    var segments := Prepended(w.buffer, Segments(p));
    if |w.buffer| + i <= LIMIT {
      assert i < |p|;
      WrittenOverflow(Flushed(w.(buffer := w.buffer + p[..i])), p[i + 1..]);
      PrependedNothing(Segments(p[i + 1..]));
      assert segments[1..] == Segments(p[i + 1..]);
    }
  }

  /** The copy loop stops at the first chunk that is refused. */
  lemma {:induction false} SessionStops(w: Splitter, chunks: seq<Bytes>) returns (m: nat)
    requires Session(w, chunks).overflow
    ensures m < |chunks| && !Session(w, chunks[..m]).overflow
    ensures Session(w, chunks) == Written(Session(w, chunks[..m]).state, chunks[m])
    decreases |chunks|
  {
    var first := Written(w, chunks[0]);
    if first.overflow {
      m := 0;
    } else {
      m := SessionStops(first.state, chunks[1..]);
      m := m + 1;
      assert chunks[..m][1..] == chunks[1..][..m - 1];
    }
  }

  lemma {:induction false} ConcatSplit(chunks: seq<Bytes>, m: nat)
    requires m < |chunks|
    ensures Concat(chunks) == Concat(chunks[..m]) + (chunks[m] + Concat(chunks[m + 1..]))
  {
    if m > 0 {
      ConcatSplit(chunks[1..], m - 1);
      assert chunks[..m][1..] == chunks[1..][..m - 1] && chunks[1..][m..] == chunks[m + 1..];
    }
  }

  lemma FirstLongIs(segments: seq<Bytes>, k: nat)
    requires k <= |segments| && forall j :: 0 <= j < k ==> |segments[j]| <= LIMIT
    requires k < |segments| ==> |segments[k]| > LIMIT
    ensures FirstLong(segments) == k
  {
    hide FirstLong;
  }

  /** How far the accepted bytes reach into line k. */
  function Reach(accepted: Bytes, k: nat): nat {
    var segments := Segments(accepted);
    if |segments| == k + 1 then |segments[k]| else 0
  }

  /** The first overlong line of a text that goes on: the one that a refused chunk makes too long. */
  lemma LongLine(x: seq<Bytes>, z: seq<Bytes>, y: seq<Bytes>)
    requires |x| > 0 && FirstLong(x) == |x| && |z| > 0 && |y| > 0
    requires var w := Prepended(x[|x| - 1], z); FirstLong(w) < |w|
    ensures var k := FirstLong(Continued(x, Continued(z, y)));
      && k < |Continued(x, Continued(z, y))|
      && if |x[|x| - 1]| + |z[0]| > LIMIT then k == |x| - 1 else k >= |x|
  {
    hide FirstLong;
    var n := |x| - 1;
    var w, all := Prepended(x[n], z), Continued(x, Continued(z, y));
    var k := n + FirstLong(w);
    assert |w[0]| == |x[n]| + |z[0]|;
    assert FirstLong(w) == 0 <==> |w[0]| > LIMIT;
    assert forall j :: 0 <= j < n ==> all[j] == x[j];
    assert forall j :: 0 <= j < |z| - 1 ==> all[n + j] == w[j];
    assert w[|z| - 1] <= all[n + |z| - 1];
    assert forall j :: n <= j < k ==> all[j] == w[j - n];
    assert |all[k]| >= |w[k - n]|;
    FirstLongIs(all, k);
  }

  lemma RefusedLine(accepted: Bytes, buffer: Bytes, p: Bytes, more: Bytes)
    requires var x := Segments(accepted); FirstLong(x) == |x| && buffer == x[|x| - 1]
    requires Written(Splitter(buffer, []), p).overflow
    ensures var segments := Segments(accepted + (p + more)); var k := FirstLong(segments); var n := Reach(accepted, k);
      && k < |segments| && n <= |segments[k]| && n <= LIMIT
      && Written(Splitter(buffer, []), p).state.buffer == segments[k][..n]
  {
    hide FirstLong, Written;
    var x, z, y := Segments(accepted), Segments(p), Segments(more);
    SegmentsAppend(p, more);
    SegmentsAppend(accepted, p + more);
    WrittenOverflow(Splitter(buffer, []), p);
    LongLine(x, z, y);
    assert |buffer| + |z[0]| == |Prepended(buffer, z)[0]|;
    assert Continued(x, Continued(z, y))[|x| - 1][..|buffer|] == buffer;
  }

  lemma WrittenBuffer(w: Splitter, handled: seq<Bytes>, p: Bytes)
    ensures Written(w, p).overflow == Written(w.(handled := handled), p).overflow
    ensures Written(w, p).state.buffer == Written(w.(handled := handled), p).state.buffer
    decreases |p|
  {
    var i := IndexByte(p, NEWLINE);
    if p != [] && |w.buffer| + i <= LIMIT && i < |p| {
      var grown := w.(buffer := w.buffer + p[..i]);
      WrittenBuffer(Flushed(grown), handled + Emit(grown.buffer), p[i + 1..]);
    }
  }

  /** After an overflow the final Flush hands over, behind the lines in front of the first overlong
      one, as much of that line as the accepted chunks hold. */
  lemma FlushAfterOverflow(chunks: seq<Bytes>) returns (m: nat)
    requires Session(FRESH, chunks).overflow
    ensures m < |chunks| && !Session(FRESH, chunks[..m]).overflow
    ensures Written(Session(FRESH, chunks[..m]).state, chunks[m]).overflow
    ensures var segments := Segments(Concat(chunks)); var k := FirstLong(segments);
      var n := Reach(Concat(chunks[..m]), k);
      && k < |segments| && n <= |segments[k]| && n <= LIMIT
      && Final(chunks) == Lines(segments[..k]) + Emit(segments[k][..n])
  {
    m := SessionStops(FRESH, chunks);
    var accepted := Concat(chunks[..m]);
    SessionReads(chunks[..m]);
    ConcatSplit(chunks, m);
    var w := Session(FRESH, chunks[..m]).state;
    WrittenBuffer(w, [], chunks[m]);
    RefusedLine(accepted, w.buffer, chunks[m], Concat(chunks[m + 1..]));
    OverflowAfterSameLines(chunks);
  }

  /** A text cut n bytes into line k. */
  lemma {:induction false} Cut(s: Bytes, k: nat, n: nat) returns (a: Bytes, b: Bytes)
    requires k < |Segments(s)| && n <= |Segments(s)[k]|
    ensures s == a + b && Segments(a) == CutAt(Segments(s), k, n)
    decreases |s|
  {
    hide CutAt;
    CutNothing(Segments(s));
    if k == 0 && n == 0 {
      a, b := [], s;
    } else if s[0] == NEWLINE {
      var rest;
      rest, b := Cut(s[1..], k - 1, n);
      a := [NEWLINE] + rest;
      assert a[1..] == rest;
      CutNewline(Segments(s[1..]), k, n);
    } else {
      var rest;
      rest, b := Cut(s[1..], k, if k == 0 then n - 1 else n);
      a := [s[0]] + rest;
      assert a[1..] == rest;
      CutLetter(s[0], Segments(s[1..]), k, n);
    }
  }

  function CutAt(segments: seq<Bytes>, k: nat, n: nat): seq<Bytes>
    requires k < |segments| && n <= |segments[k]|
  {
    segments[..k] + [segments[k][..n]]
  }

  lemma CutNothing(x: seq<Bytes>)
    requires |x| > 0
    ensures CutAt(x, 0, 0) == [[]]
  {
  }

  lemma CutNewline(x: seq<Bytes>, k: nat, n: nat)
    requires 0 < k <= |x| && n <= |x[k - 1]|
    ensures CutAt([[]] + x, k, n) == [[]] + CutAt(x, k - 1, n)
  {
    assert ([[]] + x)[..k] == [[]] + x[..k - 1];
  }

  lemma CutLetter(c: Byte, x: seq<Bytes>, k: nat, n: nat)
    requires k < |x| && (k == 0 ==> 0 < n <= |x[0]| + 1) && (k > 0 ==> n <= |x[k]|)
    ensures var cut := CutAt(x, k, if k == 0 then n - 1 else n);
      CutAt([[c] + x[0]] + x[1..], k, n) == [[c] + cut[0]] + cut[1..]
  {
    if k == 0 {
      assert ([c] + x[0])[..n] == [c] + x[0][..n - 1];
    } else {
      assert ([[c] + x[0]] + x[1..])[..k] == [[c] + x[0]] + x[1..k];
      assert CutAt(x, k, n)[1..] == x[1..k] + [x[k][..n]];
    }
  }

  /** Each part of the line within the limit is what some partition hands over. */
  lemma EveryReachHappens(output: Bytes, n: nat) returns (chunks: seq<Bytes>)
    requires FirstLong(Segments(output)) < |Segments(output)| && n <= LIMIT
    ensures Concat(chunks) == output
    ensures var segments := Segments(output); var k := FirstLong(segments);
      Final(chunks) == Lines(segments[..k]) + Emit(segments[k][..n])
  {
    var segments := Segments(output);
    var k := FirstLong(segments);
    var a, b := Cut(output, k, n);
    chunks := [a, b];
    hide Segments, Lines, FirstLong, Written, Session, Concat, Emit, CutAt;
    PairOfChunks(a, b);
    SessionReads(chunks);
    SessionReads([a]);
    CutIsShort(segments, k, n);
    var m := FlushAfterOverflow(chunks);
    assert m == 1 && chunks[..1] == [a];
    CutReaches(a, segments, k, n);
  }

  lemma PairOfChunks(a: Bytes, b: Bytes)
    ensures Concat([a, b]) == a + b && Concat([a]) == a
    ensures [a, b][..0] == [] && Session(FRESH, [])== Outcome(FRESH, false)
    ensures Session(FRESH, [a]).overflow == Written(FRESH, a).overflow
  {
    assert Concat([a]) == a + Concat([]) && Concat([b]) == b + Concat([]) by {
      assert [a][1..] == [] && [b][1..] == [];
    }
    assert Concat([a, b]) == a + Concat([b]) by {
      assert [a, b][1..] == [b];
    }
    hide Written;
    assert [a][1..] == [];
  }

  lemma CutReaches(a: Bytes, segments: seq<Bytes>, k: nat, n: nat)
    requires k < |segments| && n <= |segments[k]| && Segments(a) == CutAt(segments, k, n)
    ensures Reach(a, k) == n
  {
    hide Segments;
  }

  lemma CutIsShort(segments: seq<Bytes>, k: nat, n: nat)
    requires k == FirstLong(segments) < |segments| && n <= LIMIT
    ensures FirstLong(CutAt(segments, k, n)) == k + 1
  {
    hide FirstLong;
    FirstLongIs(CutAt(segments, k, n), k + 1);
  }

  predicate AsciiSpace(b: Byte) {
    9 <= b <= 13 || b == 32
  }

  lemma {:induction false} TrimSpaces(s: Bytes, rest: Bytes)
    requires forall i :: 0 <= i < |s| ==> AsciiSpace(s[i])
    ensures TrimLeft(s + rest) == TrimLeft(rest)
  {
    if s == [] {
      assert s + rest == rest;
    } else {
      assert SpacePrefix(s + rest) == 1 && (s + rest)[1..] == s[1..] + rest;
      TrimSpaces(s[1..], rest);
    }
  }

  /** No part of a line is handed over exactly if the line begins with ASCII white space only. */
  lemma NothingEmittedIff(line: Bytes, limit: nat)
    requires limit <= |line|
    ensures (forall n :: 0 <= n <= limit ==> Emit(line[..n]) == []) <==> forall i :: 0 <= i < limit ==> AsciiSpace(line[i])
  {
    if forall i :: 0 <= i < limit ==> AsciiSpace(line[i]) {
      forall n | 0 <= n <= limit
        ensures Emit(line[..n]) == []
      {
        TrimSpaces(line[..n], []);
        assert line[..n] + [] == line[..n];
      }
    } else {
      var i := FirstInk(line[..limit]);
      assert line[..limit][..i] == line[..i] && line[..i + 1] == line[..i] + [line[i]];
      TrimSpaces(line[..i], [line[i]]);
      assert Emit(line[..i + 1]) == [[line[i]]];
    }
  }

  /** The first byte that is not ASCII white space. */
  lemma {:induction false} FirstInk(s: Bytes) returns (i: nat)
    requires exists j :: 0 <= j < |s| && !AsciiSpace(s[j])
    ensures i < |s| && !AsciiSpace(s[i]) && forall j :: 0 <= j < i ==> AsciiSpace(s[..i][j])
  {
    if !AsciiSpace(s[0]) {
      i := 0;
    } else {
      var k := FirstInk(s[1..]);
      i := k + 1;
      assert s[1..][..k] == s[1..i];
      forall j | 0 <= j < i
        ensures AsciiSpace(s[..i][j])
      {
        assert j > 0 ==> s[..i][j] == s[1..][..k][j - 1];
      }
    }
  }

  /** All partitions of an output into chunks hand over the same lines. */
  ghost predicate PartitionsAgree(output: Bytes) {
    forall one: seq<Bytes>, two: seq<Bytes> :: Concat(one) == output && Concat(two) == output ==> Final(one) == Final(two)
  }

  /** What the handler receives is independent of the chunks exactly if no line is over the limit, or
      the first one that is begins with a limit's worth of ASCII white space. */
  lemma PartitionsAgreeIff(output: Bytes)
    ensures PartitionsAgree(output) <==>
      var segments := Segments(output); var k := FirstLong(segments);
      k == |segments| || forall i :: 0 <= i < LIMIT ==> AsciiSpace(segments[k][i])
  {
    var segments := Segments(output);
    var k := FirstLong(segments);
    if k == |segments| {
      forall chunks: seq<Bytes> | Concat(chunks) == output
        ensures Final(chunks) == Lines(segments)
      {
        SessionReads(chunks);
        ChunkingInvariant(chunks);
      }
    } else {
      NothingEmittedIff(segments[k], LIMIT);
      if forall i :: 0 <= i < LIMIT ==> AsciiSpace(segments[k][i]) {
        AgreeOnSpaces(output);
      } else {
        var n :| 0 <= n <= LIMIT && Emit(segments[k][..n]) != [];
        Disagree(output, n);
      }
    }
  }

  lemma AgreeOnSpaces(output: Bytes)
    requires var segments := Segments(output); var k := FirstLong(segments);
      k < |segments| && forall n :: 0 <= n <= LIMIT ==> Emit(segments[k][..n]) == []
    ensures PartitionsAgree(output)
  {
    var segments := Segments(output);
    var k := FirstLong(segments);
    forall chunks: seq<Bytes> | Concat(chunks) == output
      ensures Final(chunks) == Lines(segments[..k])
    {
      SessionReads(chunks);
      var m := FlushAfterOverflow(chunks);
      assert Lines(segments[..k]) + [] == Lines(segments[..k]);
    }
  }

  lemma Disagree(output: Bytes, n: nat)
    requires FirstLong(Segments(output)) < |Segments(output)| && n <= LIMIT
    requires Emit(Segments(output)[FirstLong(Segments(output))][..n]) != []
    ensures !PartitionsAgree(output)
  {
    var segments := Segments(output);
    var k := FirstLong(segments);
    var one := EveryReachHappens(output, 0);
    var two := EveryReachHappens(output, n);
    assert Emit(segments[k][..0]) == [];
    assert |Final(one)| < |Final(two)|;
  }

  function Letters(n: nat): (s: Bytes)
    ensures |s| == n && NEWLINE !in s
  {
    seq(n, _ => 120)
  }

  /** Two partitions of one output that hand over nothing and a full buffer of its overlong line. */
  lemma FlushAfterOverflowDependsOnChunks()
    ensures var one, two := [Letters(LIMIT + 1)], [Letters(LIMIT), Letters(1)];
      && Concat(one) == Concat(two)
      && Session(FRESH, one).overflow && Session(FRESH, two).overflow
      && Final(one) == []
      && Final(two) == [Letters(LIMIT)]
  {
    var one, two := [Letters(LIMIT + 1)], [Letters(LIMIT), Letters(1)];
    assert Concat(one) == Letters(LIMIT + 1);
    assert two[1..] == [Letters(1)] && Concat([Letters(1)]) == Letters(1);
    assert Written(FRESH, Letters(LIMIT)).state.buffer == Letters(LIMIT);
    assert Written(Splitter(Letters(LIMIT), []), Letters(1)).overflow;
    assert TrimSpace(Letters(LIMIT)) == Letters(LIMIT);
    assert TrimSpace([]) == [];
  }
}
