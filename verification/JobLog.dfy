/** The bounded job log of internal/store/progress.go. */
module JobLog {
  import opened Bytes
  import opened Utf8

  const MAX_LINES: nat := 200
  const MAX_BYTES: nat := 0x1_0000
  const MAX_LINE: nat := 4096

  /** "… [truncated]" in UTF-8. */
  const MARK: Bytes := [0xE2, 0x80, 0xA6, 32, 91, 116, 114, 117, 110, 99, 97, 116, 101, 100, 93]

  // ---------------------------------------------------------------- truncation

  predicate Continues(b: Byte) { 0x80 <= b <= 0xBF }

  /** The length of the well-formed UTF-8 sequence at the start, or 0. */
  function RuneLength(s: Bytes): (n: nat)
    ensures n <= |s|
  {
    if |s| >= 1 && s[0] < 0x80 then 1
    else if |s| >= 2 && 0xC2 <= s[0] <= 0xDF && Continues(s[1]) then 2
    else if |s| >= 3 && Continues(s[1]) && Continues(s[2])
         && ((s[0] == 0xE0 && s[1] >= 0xA0) || (0xE1 <= s[0] <= 0xEF && (s[0] == 0xED ==> s[1] <= 0x9F))) then 3
    else if |s| >= 4 && Continues(s[1]) && Continues(s[2]) && Continues(s[3])
         && ((s[0] == 0xF0 && s[1] >= 0x90) || 0xF1 <= s[0] <= 0xF3 || (s[0] == 0xF4 && s[1] <= 0x8F)) then 4
    else 0
  }

  /** strings.ToValidUTF8 with an empty replacement. */
  function ToValidUtf8(s: Bytes): (r: Bytes)
    ensures |r| <= |s|
    decreases |s|
  {
    if s == [] then []
    else if RuneLength(s) == 0 then ToValidUtf8(s[1..])
    else s[..RuneLength(s)] + ToValidUtf8(s[RuneLength(s)..])
  }

  /** The digits of a number in base 64. */
  lemma Digits(a: nat, b: nat, d: nat, e: nat)
    requires b < 64 && d < 64 && e < 64
    ensures var c := a * 262144 + b * 4096 + d * 64 + e;
      c / 262144 == a && c / 4096 == a * 64 + b && c / 64 == a * 4096 + b * 64 + d
      && c / 4096 % 64 == b && c / 64 % 64 == d && c % 64 == e
  {
    var c := a * 262144 + b * 4096 + d * 64 + e;
    assert c / 64 == a * 4096 + b * 64 + d;
    assert c / 4096 == a * 64 + b;
    assert (a * 4096 + b * 64 + d) % 64 == d;
  }

  lemma RuneIsEncoded(s: Bytes) returns (c: Scalar)
    requires RuneLength(s) > 0
    ensures Encode(c) == s[..RuneLength(s)]
  {
    var n := RuneLength(s);
    var b := seq(n, i requires 0 <= i < n => s[i] as int);
    var value: int;
    if n == 1 {
      value := b[0];
    } else if n == 2 {
      value := (b[0] - 0xC0) * 64 + (b[1] - 0x80);
      Digits(0, 0, b[0] - 0xC0, b[1] - 0x80);
    } else if n == 3 {
      value := (b[0] - 0xE0) * 4096 + (b[1] - 0x80) * 64 + (b[2] - 0x80);
      Digits(0, b[0] - 0xE0, b[1] - 0x80, b[2] - 0x80);
    } else {
      value := (b[0] - 0xF0) * 262144 + (b[1] - 0x80) * 4096 + (b[2] - 0x80) * 64 + (b[3] - 0x80);
      Digits(b[0] - 0xF0, b[1] - 0x80, b[2] - 0x80, b[3] - 0x80);
    }
    c := value;
    assert |Encode(c)| == n;
  }

  lemma EncodedIsRune(c: Scalar, rest: Bytes)
    ensures RuneLength(Encode(c) + rest) == |Encode(c)|
  {
    var s := Encode(c) + rest;
    assert forall i :: 0 <= i < |Encode(c)| ==> s[i] == Encode(c)[i];
    if 0x800 <= c < 0x1_0000 {
      assert s[0] == 0xE0 + c / 4096 && s[1] == 0x80 + c / 64 % 64;
    } else if c >= 0x1_0000 {
      assert s[0] == 0xF0 + c / 262144 && s[1] == 0x80 + c / 4096 % 64;
    }
  }

  /** Characters stay, and a byte at which no character begins is dropped; so what comes out is well-formed
      UTF-8, and well-formed text comes out unchanged. */
  lemma ToValidUtf8Is(s: Bytes)
    ensures forall c: Scalar, rest :: s == Encode(c) + rest ==> ToValidUtf8(s) == Encode(c) + ToValidUtf8(rest)
    ensures s != [] && (forall c: Scalar :: !(Encode(c) <= s)) ==> ToValidUtf8(s) == ToValidUtf8(s[1..])
  {
    forall c: Scalar, rest | s == Encode(c) + rest
      ensures ToValidUtf8(s) == Encode(c) + ToValidUtf8(rest)
    {
      EncodedIsRune(c, rest);
      assert s[..|Encode(c)|] == Encode(c) && s[|Encode(c)|..] == rest;
    }
    if RuneLength(s) > 0 {
      var c := RuneIsEncoded(s);
      assert Encode(c) <= s;
    }
  }

  lemma {:induction false} ResultIsWellFormed(s: Bytes) returns (text: seq<Scalar>)
    ensures ToValidUtf8(s) == EncodeAll(text)
    decreases |s|
  {
    if s == [] {
      text := [];
    } else if RuneLength(s) == 0 {
      text := ResultIsWellFormed(s[1..]);
    } else {
      var c := RuneIsEncoded(s);
      text := ResultIsWellFormed(s[RuneLength(s)..]);
      text := [c] + text;
    }
  }

  lemma {:induction false} WellFormedStays(text: seq<Scalar>)
    ensures ToValidUtf8(EncodeAll(text)) == EncodeAll(text)
  {
    if text != [] {
      WellFormedStays(text[1..]);
      ToValidUtf8Is(EncodeAll(text));
    }
  }

  /** So the stored line is the message, or its first 4096 bytes and the mark, less bytes that are part of no
      character. */
  lemma StoredIs(message: Bytes, text: seq<Scalar>)
    ensures |message| <= 4096 ==> Stored(message) == message
    ensures |message| > 4096 && message[..4096] == EncodeAll(text) ==> Stored(message) == message[..4096] + MARK
  {
    WellFormedStays(text);
  }

  /** A line as it is stored, after redaction. */
  function Stored(message: Bytes): (line: Bytes)
    ensures |line| <= MAX_LINE + |MARK|
  {
    if |message| > MAX_LINE then ToValidUtf8(message[..MAX_LINE]) + MARK else message
  }

  // ---------------------------------------------------------------- the log

  function Size(log: seq<Bytes>): nat {
    if log == [] then 0 else |log[0]| + Size(log[1..])
  }

  predicate Fits(log: seq<Bytes>) {
    |log| <= MAX_LINES && Size(log) <= MAX_BYTES
  }

  /** Oldest lines go first until the rest fits. */
  function Evicted(log: seq<Bytes>): seq<Bytes> {
    if log == [] || Fits(log) then log else Evicted(log[1..])
  }

  class Log {
    var lines: seq<Bytes>

    constructor ()
      ensures lines == []
    {
      lines := [];
    }

    /** AddLogLocked; `redact` stands for the redaction of secrets. */
    method AddLogLocked(message: Bytes, redact: Bytes -> Bytes)
      modifies this
      ensures lines == Evicted(old(lines) + [Stored(redact(message))])
    {
      var line := redact(message);
      if |line| > MAX_LINE {
        line := ToValidUtf8(line[..MAX_LINE]) + MARK;
      }
      lines := lines + [line];
      ghost var all := lines;
      var bytes := 0;
      for i := 0 to |lines|
        invariant lines == all
        invariant bytes + Size(lines[i..]) == Size(lines)
      {
        assert lines[i..] == [lines[i]] + lines[i + 1..];
        bytes := bytes + |lines[i]|;
      }
      assert lines[|lines|..] == [];
      while |lines| > MAX_LINES || bytes > MAX_BYTES
        invariant bytes == Size(lines)
        invariant Evicted(lines) == Evicted(all)
        decreases |lines|
      {
        bytes := bytes - |lines[0]|;
        lines := lines[1..];
      }
    }
  }

  // ---------------------------------------------------------------- whole histories

  /** The log after storing the lines of a history one by one. */
  function Logged(history: seq<Bytes>): seq<Bytes>
    decreases |history|
  {
    if history == [] then []
    else Evicted(Logged(history[..|history| - 1]) + [history[|history| - 1]])
  }

  lemma {:induction false} SizeAppend(log: seq<Bytes>, line: Bytes)
    ensures Size(log + [line]) == Size(log) + |line|
  {
    if log == [] {
      assert log + [line] == [line];
    } else {
      assert (log + [line])[1..] == log[1..] + [line];
      SizeAppend(log[1..], line);
    }
  }

  /** Evicting before a line is added makes no difference: what did not fit never fits again. */
  lemma {:induction false} EvictTwice(log: seq<Bytes>, line: Bytes)
    ensures Evicted(Evicted(log) + [line]) == Evicted(log + [line])
  {
    if log != [] && !Fits(log) {
      SizeAppend(log, line);
      EvictTwice(log[1..], line);
      assert (log + [line])[1..] == log[1..] + [line];
    }
  }

  lemma {:induction false} LoggedStep(history: seq<Bytes>)
    requires history != [] && var n := |history| - 1; Logged(history[..n]) == Evicted(history[..n])
    ensures Logged(history) == Evicted(history)
  {
    hide Evicted;
    var n := |history| - 1;
    EvictTwice(history[..n], history[n]);
    assert history == history[..n] + [history[n]];
  }

  lemma {:induction false} LoggedIsEvicted(history: seq<Bytes>)
    ensures Logged(history) == Evicted(history)
    decreases |history|
  {
    if history != [] {
      LoggedIsEvicted(history[..|history| - 1]);
      LoggedStep(history);
    }
  }

  lemma {:induction false} EvictedIsLongest(log: seq<Bytes>) returns (k: nat)
    ensures k <= |log| && Evicted(log) == log[k..] && Fits(log[k..])
    ensures forall j :: 0 <= j < k ==> !Fits(log[j..])
  {
    if log == [] || Fits(log) {
      k := 0;
      assert log[0..] == log;
    } else {
      var m := EvictedIsLongest(log[1..]);
      k := m + 1;
      assert log[k..] == log[1..][m..];
      forall j | 0 <= j < k ensures !Fits(log[j..]) {
        if j > 0 {
          assert log[j..] == log[1..][j - 1..];
        } else {
          assert log[0..] == log;
        }
      }
    }
  }

  /** The log is always the longest suffix of everything ever logged that has at most 200 lines
      and 64 KiB, and it ends with the newest line. */
  lemma LogIsLongestSuffix(history: seq<Bytes>) returns (k: nat)
    ensures k <= |history| && Logged(history) == history[k..] && |history[k..]| <= 200 && Size(history[k..]) <= 0x1_0000
    ensures forall j :: 0 <= j < k ==> |history[j..]| > 200 || Size(history[j..]) > 0x1_0000
    ensures history != [] && |history[|history| - 1]| <= MAX_LINE + |MARK| ==> k < |history|
  {
    LoggedIsEvicted(history);
    k := EvictedIsLongest(history);
    if history != [] && k == |history| {
      var n := |history| - 1;
      assert !Fits(history[n..]);
      assert history[n..] == [history[n]];
      assert Size([history[n]]) == |history[n]|;
    }
  }

  /** The lines that messages leave. */
  function StoredAll(messages: seq<Bytes>): (history: seq<Bytes>)
    ensures |history| == |messages| && forall i :: 0 <= i < |messages| ==> history[i] == Stored(messages[i])
  {
    seq(|messages|, i requires 0 <= i < |messages| => Stored(messages[i]))
  }

  /** With the truncation of AddLogLocked the newest line is never evicted. */
  lemma {:induction false} NewestLineSurvives(messages: seq<Bytes>)
    requires messages != []
    ensures var log := Logged(StoredAll(messages)); log != [] && log[|log| - 1] == Stored(messages[|messages| - 1])
  {
    hide Logged, Stored, Fits, Size, StoredAll;
    var history := StoredAll(messages);
    var k := LogIsLongestSuffix(history);
    assert history[k..][|history| - k - 1] == history[|history| - 1];
  }
}
