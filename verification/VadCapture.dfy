/** Voice-activity detection on the microphone: waiting for speech, and the two captures that
    follow it, one into a buffer and one to a callback; beside them the desk-top simulator of
    the waiting loop. */
module VadCapture {
  import opened Bytes

  const MIC_ERROR := "read"

  datatype Settings = Settings(
    chunk: nat, buffer: nat, minBytes: nat, silenceBytes: nat, startLevel: nat, silenceLevel: nat,
    holdBytes: nat, armMs: int, timeoutMs: int)

  /** What the firmware's compile-time checks ask of the settings. */
  predicate Sound(s: Settings) {
    s.chunk > 0 && s.minBytes <= s.buffer && s.silenceBytes > 0 && s.holdBytes > 0
  }

  const DEMO := Settings(2048, 128000, 32000, 22400, 450, 300, 4096, 150, 3000)

  // ---------------------------------------------------------------- the level of a chunk

  /** Two's complement, low byte first. */
  function Sample(low: Byte, high: Byte): (x: int)
    ensures -32768 <= x < 32768
    ensures x == low as int + 256 * high as int || x == low as int + 256 * high as int - 65536
  {
    var raw := low as int + 256 * high as int;
    if raw < 32768 then raw else raw - 65536
  }

  function Abs(x: int): (a: nat)
    ensures a == x || a == -x
  {
    if x < 0 then -x else x
  }

  function SumAbs(pcm: seq<Byte>, samples: nat): (sum: nat)
    requires 2 * samples <= |pcm|
    ensures sum <= 32768 * samples
  {
    if samples == 0 then 0
    else SumAbs(pcm, samples - 1) + Abs(Sample(pcm[2 * samples - 2], pcm[2 * samples - 1]))
  }

  /** Whole samples in a chunk; a last odd byte is no sample. */
  function Samples(pcm: seq<Byte>): (n: nat)
    ensures 2 * n <= |pcm| < 2 * n + 2
  {
    |pcm| / 2
  }

  function Mean(sum: nat, count: nat): (mean: nat)
    requires count > 0
    ensures sum <= 32768 * count ==> mean <= 32768
  {
    MeanBound(sum, count);
    sum / count
  }

  lemma MeanBound(sum: nat, count: nat)
    requires count > 0
    ensures sum <= 32768 * count ==> sum / count <= 32768
  {
    var mean := sum / count;
    assert mean * count <= sum;
    assert mean > 32768 ==> mean * count >= 32769 * count;
  }

  /** The mean absolute sample, rounded down; 0 without a whole sample. */
  function AvgAbs(pcm: seq<Byte>): (level: nat)
    ensures level <= 32768
  {
    if Samples(pcm) == 0 then 0 else Mean(SumAbs(pcm, Samples(pcm)), Samples(pcm))
  }

  /** The level of samples whose magnitudes lie between two bounds lies between them too: it
      leaves out no sample and counts none twice. */
  lemma LevelIsBetween(pcm: seq<Byte>, low: nat, high: nat)
    requires |pcm| >= 2
    requires forall i :: 0 <= i < |pcm| / 2 ==> low <= Abs(Sample(pcm[2 * i], pcm[2 * i + 1])) <= high
    ensures low <= AvgAbs(pcm) <= high
  {
    hide Sample, Abs;
    var n := Samples(pcm);
    SumIsBetween(pcm, n, low, high);
    MeanIsBetween(SumAbs(pcm, n), n, low, high);
  }

  lemma OneMore(x: nat, k: nat)
    ensures x * (k + 1) == x * k + x
  {
  }

  lemma {:induction false} SumIsBetween(pcm: seq<Byte>, n: nat, low: nat, high: nat)
    requires 2 * n <= |pcm|
    requires forall i :: 0 <= i < n ==> low <= Abs(Sample(pcm[2 * i], pcm[2 * i + 1])) <= high
    ensures low * n <= SumAbs(pcm, n) <= high * n
  {
    hide Sample, Abs;
    if n > 0 {
      SumIsBetween(pcm, n - 1, low, high);
      var k := n - 1;
      assert low <= Abs(Sample(pcm[2 * k], pcm[2 * k + 1])) <= high;
      OneMore(low, k);
      OneMore(high, k);
    }
  }

  lemma MeanIsBetween(sum: nat, count: nat, low: nat, high: nat)
    requires count > 0 && low * count <= sum <= high * count
    ensures low <= Mean(sum, count) <= high
  {
    var mean := sum / count;
    MeanTimesCount(sum, count);
    if mean < low { AtLeastTimes(mean + 1, low, count); }
    if mean > high { AtLeastTimes(high + 1, mean, count); }
    OneMore(count, mean);
    OneMore(count, high);
  }

  lemma MeanTimesCount(sum: nat, count: nat)
    requires count > 0
    ensures sum / count * count <= sum < sum / count * count + count
  {
  }

  lemma AtLeastTimes(a: nat, b: nat, n: nat)
    requires a <= b
    ensures a * n <= b * n
  {
  }

  /** The firmware's loop over the bytes. */
  method AvgAbsPcm16Le(pcm: seq<Byte>) returns (level: nat)
    ensures level == AvgAbs(pcm)
  {
    hide Samples, Mean;
    if |pcm| < 2 {
      return 0;
    }
    var count, sum := Samples(pcm), 0;
    for i := 0 to count
      invariant sum == SumAbs(pcm, i)
    {
      sum := sum + MagnitudeAt(pcm, i);
    }
    level := Mean(sum, count);
  }

  /** The absolute value of a little-endian sample. */
  function MagnitudeAt(pcm: seq<Byte>, i: nat): (a: nat)
    requires 2 * i + 1 < |pcm|
    ensures a == Abs(Sample(pcm[2 * i], pcm[2 * i + 1]))
  {
    var raw := pcm[2 * i] as int + 256 * pcm[2 * i + 1] as int;
    var sample := if raw >= 32768 then raw - 65536 else raw;
    if sample < 0 then -sample else sample
  }

  /** The simulator's: unpack first, then add. */
  method AvgAbsOfSamples(pcm: seq<Byte>) returns (level: nat)
    ensures level == AvgAbs(pcm)
  {
    hide Samples, Mean, Sample;
    var n := Samples(pcm);
    if n == 0 {
      return 0;
    }
    var samples := Unpacked(pcm, n);
    var total := 0;
    for i := 0 to n
      invariant total == SumAbs(pcm, i)
    {
      total := total + if samples[i] < 0 then -samples[i] else samples[i];
    }
    level := Mean(total, n);
  }

  function Unpacked(pcm: seq<Byte>, n: nat): (samples: seq<int>)
    requires 2 * n <= |pcm|
    ensures |samples| == n
    ensures forall i :: 0 <= i < n ==> samples[i] == Sample(pcm[2 * i], pcm[2 * i + 1])
  {
    seq(n, i requires 0 <= i < n => Sample(pcm[2 * i], pcm[2 * i + 1]))
  }

  // ---------------------------------------------------------------- capture after speech started

  /** Read number `k` of `n` bytes: the bytes, or None for a driver error. */
  type Mic = (nat, nat) -> Option<seq<Byte>>

  ghost predicate FillsReads(mic: Mic) {
    forall k, n :: mic(k, n).Some? ==> |mic(k, n).value| == n
  }

  function Total(chunks: seq<seq<Byte>>): nat {
    if chunks == [] then 0 else Total(chunks[..|chunks| - 1]) + |chunks[|chunks| - 1]|
  }

  predicate Loud(s: Settings, chunk: seq<Byte>) {
    AvgAbs(chunk) >= s.startLevel
  }

  predicate Quiet(s: Settings, chunk: seq<Byte>) {
    AvgAbs(chunk) <= s.silenceLevel
  }

  /** Speech was heard: in the prefix or in a chunk. */
  predicate Voiced(s: Settings, prefix: seq<Byte>, chunks: seq<seq<Byte>>) {
    prefix != [] || exists i :: 0 <= i < |chunks| && Loud(s, chunks[i])
  }

  /** Bytes of the unbroken run of quiet chunks at the end, as far as speech came before. */
  function QuietTail(s: Settings, prefix: seq<Byte>, chunks: seq<seq<Byte>>): nat {
    if chunks == [] then 0
    else
      var n := |chunks| - 1;
      if Voiced(s, prefix, chunks[..n]) && Quiet(s, chunks[n]) then
        QuietTail(s, prefix, chunks[..n]) + |chunks[n]|
      else 0
  }

  function Peak(prefix: seq<Byte>, chunks: seq<seq<Byte>>): nat {
    if chunks == [] then AvgAbs(prefix)
    else
      var n := |chunks| - 1;
      if AvgAbs(chunks[n]) > Peak(prefix, chunks[..n]) then AvgAbs(chunks[n]) else Peak(prefix, chunks[..n])
  }

  /** After these chunks the utterance is over. */
  predicate Over(s: Settings, prefix: seq<Byte>, chunks: seq<seq<Byte>>) {
    && chunks != [] && Voiced(s, prefix, chunks)
    && |prefix| + Total(chunks) >= s.minBytes
    && QuietTail(s, prefix, chunks) >= s.silenceBytes
  }

  function ReadSize(s: Settings, have: nat): nat
    requires have < s.buffer
  {
    Min(s.chunk, s.buffer - have)
  }

  /** With these chunks read, a further one was wanted and this is the microphone's. */
  ghost predicate Follows(s: Settings, mic: Mic, prefix: seq<Byte>, before: seq<seq<Byte>>, c: seq<Byte>) {
    && |prefix| + Total(before) < s.buffer && !Over(s, prefix, before)
    && mic(|before|, ReadSize(s, |prefix| + Total(before))) == Some(c)
  }

  /** The chunks are the microphone's, and every one was still wanted. */
  ghost predicate Reads(s: Settings, mic: Mic, prefix: seq<Byte>, chunks: seq<seq<Byte>>) {
    forall i :: 0 <= i < |chunks| ==> Follows(s, mic, prefix, chunks[..i], chunks[i])
  }

  /** A complete capture: it stopped because the utterance was over or the buffer full. */
  ghost predicate IsCapture(s: Settings, mic: Mic, prefix: seq<Byte>, chunks: seq<seq<Byte>>) {
    Reads(s, mic, prefix, chunks) && (Over(s, prefix, chunks) || |prefix| + Total(chunks) >= s.buffer)
  }

  /** A capture that the driver cut short. */
  ghost predicate IsBroken(s: Settings, mic: Mic, prefix: seq<Byte>, chunks: seq<seq<Byte>>) {
    && Reads(s, mic, prefix, chunks) && !Over(s, prefix, chunks) && |prefix| + Total(chunks) < s.buffer
    && mic(|chunks|, ReadSize(s, |prefix| + Total(chunks))).None?
  }

  datatype Metrics = Metrics(stopped: bool, voiced: bool, peak: nat, bytes: nat)

  function MetricsOf(s: Settings, prefix: seq<Byte>, chunks: seq<seq<Byte>>): Metrics {
    Metrics(Over(s, prefix, chunks), Voiced(s, prefix, chunks), Peak(prefix, chunks), |prefix| + Total(chunks))
  }

  lemma SentSnoc(base: seq<Byte>, prefix: seq<Byte>, chunks: seq<seq<Byte>>, c: seq<Byte>)
    ensures (prefix + Concat(chunks)) + c == prefix + Concat(chunks + [c])
    ensures (base + (prefix + Concat(chunks))) + c == base + (prefix + Concat(chunks + [c]))
  {
    hide Concat;
    ConcatSnoc(chunks, c);
    var sent := prefix + Concat(chunks);
    assert sent + c == prefix + (Concat(chunks) + c);
    assert (base + sent) + c == base + (sent + c);
  }

  lemma ReadsSnoc(s: Settings, mic: Mic, prefix: seq<Byte>, chunks: seq<seq<Byte>>, c: seq<Byte>)
    requires Reads(s, mic, prefix, chunks) && Follows(s, mic, prefix, chunks, c)
    ensures Reads(s, mic, prefix, chunks + [c])
  {
    hide Follows;
    var longer := chunks + [c];
    forall i | 0 <= i < |longer| ensures Follows(s, mic, prefix, longer[..i], longer[i]) {
      assert longer[..i] == if i < |chunks| then chunks[..i] else chunks;
    }
  }

  /** The running variables of both loops. */
  datatype Ear = Ear(voiced: bool, quiet: nat, peak: nat)

  function EarOf(s: Settings, prefix: seq<Byte>, chunks: seq<seq<Byte>>): Ear {
    Ear(Voiced(s, prefix, chunks), QuietTail(s, prefix, chunks), Peak(prefix, chunks))
  }

  predicate Finished(s: Settings, ear: Ear, have: nat) {
    ear.voiced && have >= s.minBytes && ear.quiet >= s.silenceBytes
  }

  lemma FinishedIsOver(s: Settings, prefix: seq<Byte>, chunks: seq<seq<Byte>>)
    requires Sound(s)
    ensures Finished(s, EarOf(s, prefix, chunks), |prefix| + Total(chunks)) <==> Over(s, prefix, chunks)
  {
  }

  /** What both loops do with a chunk they have read. */
  method Listen(s: Settings, ear: Ear, chunk: seq<Byte>, ghost mic: Mic, ghost prefix: seq<Byte>,
                ghost chunks: seq<seq<Byte>>)
    returns (now: Ear)
    requires Sound(s) && ear == EarOf(s, prefix, chunks)
    requires Reads(s, mic, prefix, chunks) && Follows(s, mic, prefix, chunks, chunk)
    ensures var longer := chunks + [chunk];
            && now == EarOf(s, prefix, longer) && Reads(s, mic, prefix, longer)
            && |longer| == |chunks| + 1 && Total(longer) == Total(chunks) + |chunk|
            && (Finished(s, now, |prefix| + Total(longer)) <==> Over(s, prefix, longer))
  {
    hide AvgAbs, Reads, Follows;
    assert (chunks + [chunk])[..|chunks|] == chunks;
    VoicedSnoc(s, prefix, chunks, chunk);
    ReadsSnoc(s, mic, prefix, chunks, chunk);
    FinishedIsOver(s, prefix, chunks + [chunk]);
    var level := AvgAbsPcm16Le(chunk);
    now := ear;
    if level > now.peak {
      now := now.(peak := level);
    }
    if !now.voiced && level >= s.startLevel {
      now := now.(voiced := true, quiet := 0);
    } else if now.voiced {
      now := now.(quiet := if level <= s.silenceLevel then now.quiet + |chunk| else 0);
    }
  }

  lemma VoicedSnoc(s: Settings, prefix: seq<Byte>, chunks: seq<seq<Byte>>, c: seq<Byte>)
    ensures Voiced(s, prefix, chunks + [c]) <==> Voiced(s, prefix, chunks) || Loud(s, c)
    ensures !Voiced(s, prefix, chunks) ==> QuietTail(s, prefix, chunks) == 0
  {
    hide Loud;
    var longer := chunks + [c];
    assert longer[|chunks|] == c;
    assert forall i :: 0 <= i < |chunks| ==> longer[i] == chunks[i];
    if chunks != [] {
      var n := |chunks| - 1;
      assert Voiced(s, prefix, chunks[..n]) ==> Voiced(s, prefix, chunks) by {
        if Voiced(s, prefix, chunks[..n]) && prefix == [] {
          var i :| 0 <= i < n && Loud(s, chunks[..n][i]);
          assert Loud(s, chunks[i]);
        }
      }
    }
  }

  /** The buffered capture: speech prefix and microphone into one buffer. */
  method RecordAfterSpeechStart(s: Settings, mic: Mic, prefix: seq<Byte>)
    returns (r: Result<(array<Byte>, Metrics), string>, ghost chunks: seq<seq<Byte>>)
    requires Sound(s) && FillsReads(mic)
    ensures |prefix| > s.buffer <==> r == Err("invalid_arg")
    ensures r.Ok? ==> IsCapture(s, mic, prefix, chunks) && r.value.1 == MetricsOf(s, prefix, chunks) &&
                      r.value.0.Length == s.buffer && r.value.1.bytes <= s.buffer &&
                      r.value.0[..r.value.1.bytes] == prefix + Concat(chunks)
    ensures r == Err(MIC_ERROR) ==> IsBroken(s, mic, prefix, chunks)
    ensures r.Err? ==> r.error == "invalid_arg" || r.error == MIC_ERROR
  {
    hide Reads, Over, Total, QuietTail, Concat, Peak, Voiced, Finished;
    chunks := [];
    if |prefix| > s.buffer {
      return Err("invalid_arg"), [];
    }
    var buffer := new Byte[s.buffer](_ => 0);
    CopyInto(buffer, 0, prefix);
    var offset, k := |prefix|, 0;
    var ear := Start(s, mic, prefix);
    var stopped := false;
    while offset < s.buffer
      invariant |prefix| <= offset <= s.buffer && k == |chunks| && offset == |prefix| + Total(chunks)
      invariant Reads(s, mic, prefix, chunks) && ear == EarOf(s, prefix, chunks) && !Over(s, prefix, chunks)
      invariant buffer[..offset] == prefix + Concat(chunks) && !stopped
      decreases s.buffer - offset
    {
      var size := ReadSize(s, offset);
      var read := mic(k, size);
      if read.None? {
        return Err(MIC_ERROR), chunks;
      }
      CopyInto(buffer, offset, read.value);
      ear := Listen(s, ear, read.value, mic, prefix, chunks);
      SentSnoc([], prefix, chunks, read.value);
      offset, k, chunks := offset + size, k + 1, chunks + [read.value];
      if Finished(s, ear, offset) {
        stopped := true;
        break;
      }
    }
    return Ok((buffer, Metrics(stopped, ear.voiced, ear.peak, offset))), chunks;
  }

  method Start(s: Settings, ghost mic: Mic, prefix: seq<Byte>) returns (ear: Ear)
    ensures ear == EarOf(s, prefix, []) && Reads(s, mic, prefix, []) && !Over(s, prefix, [])
    ensures Concat<Byte>([]) == [] && prefix + [] == prefix && Total([]) == 0
  {
    var peak := 0;
    if prefix != [] {
      peak := AvgAbsPcm16Le(prefix);
    }
    ear := Ear(prefix != [], 0, peak);
  }

  /** The receiver of a streamed capture; its `n`-th call fails if the oracle says so. */
  class Sink {
    const fails: nat -> bool
    var calls: nat
    var received: seq<Byte>

    constructor (fails: nat -> bool)
      ensures this.fails == fails && calls == 0 && received == []
    {
      this.fails, calls, received := fails, 0, [];
    }

    method Call(data: seq<Byte>) returns (ok: bool)
      modifies this
      ensures calls == old(calls) + 1 && ok == !fails(old(calls))
      ensures received == if ok then old(received) + data else old(received)
    {
      ok := !fails(calls);
      if ok {
        received := received + data;
      }
      calls := calls + 1;
    }
  }

  const CALLBACK_ERROR := "callback"

  /** The streaming capture: the same chunks go to a callback. */
  method StreamAfterSpeechStart(s: Settings, mic: Mic, prefix: seq<Byte>, sink: Sink)
    returns (r: Result<Metrics, string>, ghost chunks: seq<seq<Byte>>)
    requires Sound(s) && FillsReads(mic)
    modifies sink
    ensures r.Ok? ==> IsCapture(s, mic, prefix, chunks) && r.value == MetricsOf(s, prefix, chunks)
    ensures r == Err(MIC_ERROR) ==> IsBroken(s, mic, prefix, chunks)
    ensures r.Err? ==> r.error == MIC_ERROR || r.error == CALLBACK_ERROR
    ensures r == Err(CALLBACK_ERROR) <==> sink.calls > old(sink.calls) && sink.fails(sink.calls - 1)
    ensures r != Err(CALLBACK_ERROR) ==> sink.received == old(sink.received) + (prefix + Concat(chunks))
  {
    hide Reads, Over, Total, QuietTail, Concat, Peak, Voiced, Finished;
    chunks := [];
    ghost var base, sent := sink.received, prefix;
    var ear := Start(s, mic, prefix);
    var bytes, k, ok := 0, 0, true;
    if prefix != [] {
      ok := sink.Call(prefix);
      if !ok {
        return Err(CALLBACK_ERROR), [];
      }
      bytes := |prefix|;
    }
    var stopped := false;
    while bytes < s.buffer
      invariant k == |chunks| && bytes == |prefix| + Total(chunks)
      invariant Reads(s, mic, prefix, chunks) && ear == EarOf(s, prefix, chunks) && !Over(s, prefix, chunks)
      invariant sink.received == base + sent && sent == prefix + Concat(chunks) && !stopped
      invariant sink.calls >= old(sink.calls)
      invariant sink.calls > old(sink.calls) ==> !sink.fails(sink.calls - 1)
      decreases s.buffer - bytes
    {
      var size := ReadSize(s, bytes);
      var read := mic(k, size);
      if read.None? {
        return Err(MIC_ERROR), chunks;
      }
      ok := sink.Call(read.value);
      if !ok {
        return Err(CALLBACK_ERROR), chunks;
      }
      ear := Listen(s, ear, read.value, mic, prefix, chunks);
      SentSnoc(base, prefix, chunks, read.value);
      sent := prefix + Concat(chunks + [read.value]);
      bytes, k, chunks := bytes + size, k + 1, chunks + [read.value];
      if Finished(s, ear, bytes) {
        stopped := true;
        break;
      }
    }
    return Ok(Metrics(stopped, ear.voiced, ear.peak, bytes)), chunks;
  }

  // ---------------------------------------------------------------- what a capture is

  lemma NothingFollows(s: Settings, mic: Mic, prefix: seq<Byte>, chunks: seq<seq<Byte>>, c: seq<Byte>)
    requires IsCapture(s, mic, prefix, chunks) || IsBroken(s, mic, prefix, chunks)
    ensures !Follows(s, mic, prefix, chunks, c)
  {
  }

  lemma NoLonger(s: Settings, mic: Mic, prefix: seq<Byte>, a: seq<seq<Byte>>, b: seq<seq<Byte>>)
    requires IsCapture(s, mic, prefix, a) || IsBroken(s, mic, prefix, a)
    requires Reads(s, mic, prefix, a) && Reads(s, mic, prefix, b)
    ensures |b| <= |a|
  {
    hide Follows, IsCapture, IsBroken;
    if |a| < |b| {
      SamePrefix(s, mic, prefix, a, b, |a|);
      assert a[..|a|] == a;
      assert Follows(s, mic, prefix, b[..|a|], b[|a|]);
      NothingFollows(s, mic, prefix, a, b[|a|]);
    }
  }

  /** Two captures of one microphone read the same chunks: since bytes and metrics of both
      methods are functions of the prefix and the chunks, they agree; and a driver error cuts
      short the one exactly if it cuts short the other. */
  lemma CaptureIsUnique(s: Settings, mic: Mic, prefix: seq<Byte>, a: seq<seq<Byte>>, b: seq<seq<Byte>>)
    requires IsCapture(s, mic, prefix, a) || IsBroken(s, mic, prefix, a)
    requires IsCapture(s, mic, prefix, b) || IsBroken(s, mic, prefix, b)
    ensures a == b && (IsCapture(s, mic, prefix, a) <==> IsCapture(s, mic, prefix, b))
  {
    hide Over, Follows;
    NoLonger(s, mic, prefix, a, b);
    NoLonger(s, mic, prefix, b, a);
    SamePrefix(s, mic, prefix, a, b, |a|);
    assert a[..|a|] == a && b[..|b|] == b;
  }

  lemma SameNext(s: Settings, mic: Mic, prefix: seq<Byte>, before: seq<seq<Byte>>, c: seq<Byte>, d: seq<Byte>)
    requires Follows(s, mic, prefix, before, c) && Follows(s, mic, prefix, before, d)
    ensures c == d
  {
  }

  lemma {:induction false} SamePrefix(s: Settings, mic: Mic, prefix: seq<Byte>, a: seq<seq<Byte>>,
                                      b: seq<seq<Byte>>, n: nat)
    requires Reads(s, mic, prefix, a) && Reads(s, mic, prefix, b) && n <= |a| && n <= |b|
    ensures a[..n] == b[..n]
    decreases n
  {
    hide Over, Follows;
    if n > 0 {
      SamePrefix(s, mic, prefix, a, b, n - 1);
      assert Follows(s, mic, prefix, a[..n - 1], a[n - 1]) && Follows(s, mic, prefix, b[..n - 1], b[n - 1]);
      SameNext(s, mic, prefix, a[..n - 1], a[n - 1], b[n - 1]);
      assert a[..n] == a[..n - 1] + [a[n - 1]] && b[..n] == b[..n - 1] + [b[n - 1]];
    }
  }

  /** The quiet tail is contiguous: the last chunks, all of them quiet. */
  lemma {:induction false} QuietTailIsContiguous(s: Settings, prefix: seq<Byte>, chunks: seq<seq<Byte>>)
    returns (j: nat)
    ensures j <= |chunks| && Total(chunks) == Total(chunks[..j]) + QuietTail(s, prefix, chunks)
    ensures forall i :: j <= i < |chunks| ==> AvgAbs(chunks[i]) <= s.silenceLevel
    ensures QuietTail(s, prefix, chunks) > 0 ==> Voiced(s, prefix, chunks[..j])
    decreases |chunks|
  {
    hide AvgAbs;
    if chunks == [] {
      return 0;
    }
    var n := |chunks| - 1;
    if Voiced(s, prefix, chunks[..n]) && Quiet(s, chunks[n]) {
      j := QuietTailIsContiguous(s, prefix, chunks[..n]);
      assert chunks[..n][..j] == chunks[..j];
      assert chunks[..n][..n] == chunks[..n];
      forall i | j <= i < n ensures Quiet(s, chunks[i]) {
        assert chunks[..n][i] == chunks[i];
      }
      if QuietTail(s, prefix, chunks[..n]) == 0 {
        j := n;
      }
    } else {
      j := n + 1;
      assert chunks[..j] == chunks;
    }
  }

  /** Silence from chunk `j` on: quiet chunks of the required size, after speech. */
  predicate SilentFrom(s: Settings, prefix: seq<Byte>, chunks: seq<seq<Byte>>, j: nat) {
    && j <= |chunks|
    && (prefix != [] || exists i :: 0 <= i < j && AvgAbs(chunks[i]) >= s.startLevel)
    && (forall i :: j <= i < |chunks| ==> AvgAbs(chunks[i]) <= s.silenceLevel)
    && |Concat(chunks[j..])| >= s.silenceBytes
  }

  lemma {:induction false} TotalIsLength(chunks: seq<seq<Byte>>, j: nat)
    requires j <= |chunks|
    ensures Total(chunks) == Total(chunks[..j]) + |Concat(chunks[j..])|
    decreases |chunks|
  {
    if j == |chunks| {
      assert chunks[..j] == chunks;
    } else {
      var n := |chunks| - 1;
      TotalIsLength(chunks[..n], j);
      assert chunks[..n][..j] == chunks[..j] && chunks[..n][j..] + [chunks[n]] == chunks[j..];
      ConcatSnoc(chunks[..n][j..], chunks[n]);
    }
  }

  /** A quiet run after speech is counted in full. */
  lemma {:induction false} QuietRunCounts(s: Settings, prefix: seq<Byte>, chunks: seq<seq<Byte>>, j: nat)
    requires j <= |chunks| && Voiced(s, prefix, chunks[..j])
    requires forall i :: j <= i < |chunks| ==> Quiet(s, chunks[i])
    ensures Voiced(s, prefix, chunks) && Total(chunks) <= Total(chunks[..j]) + QuietTail(s, prefix, chunks)
    decreases |chunks|
  {
    hide Quiet, Loud;
    if j == |chunks| {
      assert chunks[..j] == chunks;
    } else {
      var n := |chunks| - 1;
      assert chunks[..n][..j] == chunks[..j];
      QuietRunCounts(s, prefix, chunks[..n], j);
      assert chunks[..n] + [chunks[n]] == chunks;
      VoicedSnoc(s, prefix, chunks[..n], chunks[n]);
    }
  }

  lemma NoTotal()
    ensures Total([]) == 0
  {
  }

  /** The utterance is over exactly when the minimum has been recorded and it ends in silence. */
  lemma OverExactlyWhen(s: Settings, prefix: seq<Byte>, chunks: seq<seq<Byte>>)
    requires Sound(s)
    ensures Over(s, prefix, chunks) <==>
            |prefix + Concat(chunks)| >= s.minBytes && exists j :: SilentFrom(s, prefix, chunks, j)
  {
    hide Total, QuietTail, AvgAbs, Concat;
    TotalIsLength(chunks, 0);
    NoTotal();
    assert chunks[0..] == chunks && chunks[..0] == [];
    if Over(s, prefix, chunks) {
      var j := QuietTailIsContiguous(s, prefix, chunks);
      TotalIsLength(chunks, j);
      assert SilentFrom(s, prefix, chunks, j);
    }
    if j :| SilentFrom(s, prefix, chunks, j) {
      TotalIsLength(chunks, j);
      QuietRunCounts(s, prefix, chunks, j);
    }
  }

  /** A capture stops early at the first moment at which it has the minimum length and ends in
      silence, and not before. */
  lemma EarlyStop(s: Settings, mic: Mic, prefix: seq<Byte>, chunks: seq<seq<Byte>>, k: nat)
    requires Sound(s) && IsCapture(s, mic, prefix, chunks) && k <= |chunks|
    ensures k < |chunks| || !MetricsOf(s, prefix, chunks).stopped <==>
            !(|prefix + Concat(chunks[..k])| >= s.minBytes && exists j :: SilentFrom(s, prefix, chunks[..k], j))
  {
    hide Over;
    OverExactlyWhen(s, prefix, chunks[..k]);
    if k < |chunks| {
      assert Follows(s, mic, prefix, chunks[..k], chunks[k]);
    } else {
      assert chunks[..k] == chunks;
    }
  }

  /** Every read but the last brings a whole chunk; the last one as much as still fits. */
  lemma ChunksAreWhole(s: Settings, mic: Mic, prefix: seq<Byte>, chunks: seq<seq<Byte>>, i: nat)
    requires Reads(s, mic, prefix, chunks) && FillsReads(mic) && i < |chunks|
    ensures i < |chunks| - 1 ==> |chunks[i]| == s.chunk
    ensures var before := |prefix + Concat(chunks[..i])|;
            before < s.buffer && |chunks[i]| == Min(s.chunk, s.buffer - before)
  {
    hide Over, Concat;
    assert Follows(s, mic, prefix, chunks[..i], chunks[i]);
    TotalIsLength(chunks[..i], 0);
    assert chunks[..i][0..] == chunks[..i] && chunks[..i][..0] == [];
    if i < |chunks| - 1 {
      assert Follows(s, mic, prefix, chunks[..i + 1], chunks[i + 1]);
      assert chunks[..i + 1][..i] == chunks[..i];
    }
  }

  /** The reported peak is the largest level among the prefix and the chunks. */
  lemma {:induction false} PeakIsLargest(prefix: seq<Byte>, chunks: seq<seq<Byte>>)
    ensures AvgAbs(prefix) <= Peak(prefix, chunks)
    ensures forall i :: 0 <= i < |chunks| ==> AvgAbs(chunks[i]) <= Peak(prefix, chunks)
    ensures Peak(prefix, chunks) == AvgAbs(prefix) ||
            exists i :: 0 <= i < |chunks| && AvgAbs(chunks[i]) == Peak(prefix, chunks)
    decreases |chunks|
  {
    hide AvgAbs;
    if chunks != [] {
      var n := |chunks| - 1;
      PeakIsLargest(prefix, chunks[..n]);
      assert forall i :: 0 <= i < n ==> chunks[..n][i] == chunks[i];
    }
  }

  /** A capture exceeds the buffer only by a prefix that did so by itself, which the buffered
      capture refuses and the streaming one passes on. */
  lemma FitsTheBuffer(s: Settings, mic: Mic, prefix: seq<Byte>, chunks: seq<seq<Byte>>)
    requires IsCapture(s, mic, prefix, chunks) && FillsReads(mic)
    ensures |prefix| + Total(chunks) <= s.buffer <==> |prefix| <= s.buffer
  {
    if chunks != [] {
      var n := |chunks| - 1;
      hide Over;
      assert Follows(s, mic, prefix, chunks[..n], chunks[n]);
    }
  }

  // ---------------------------------------------------------------- waiting for speech

  /** One turn of the waiting loop, in microseconds since the wait began: the clock at the loop
      test, what the microphone gave, and the clock after the read. */
  datatype Tick = Tick(guard: int, read: Option<seq<Byte>>, after: int)

  ghost predicate WholeChunks(s: Settings, ticks: seq<Tick>) {
    forall i :: 0 <= i < |ticks| && ticks[i].read.Some? ==> |ticks[i].read.value| == s.chunk
  }

  ghost predicate ClockRuns(ticks: seq<Tick>) {
    forall i, j :: 0 <= i < j < |ticks| ==> ticks[i].after <= ticks[j].after
  }

  predicate Armed(s: Settings, t: Tick) {
    t.after >= s.armMs * 1000
  }

  predicate Hit(s: Settings, t: Tick) {
    t.read.Some? && Armed(s, t) && Loud(s, t.read.value)
  }

  /** The bytes of the unbroken run of loud chunks, read while armed, that ends before tick `k`. */
  function Streak(s: Settings, ticks: seq<Tick>, k: nat): seq<Byte>
    requires k <= |ticks|
  {
    if k == 0 || !Hit(s, ticks[k - 1]) then [] else Streak(s, ticks, k - 1) + ticks[k - 1].read.value
  }

  predicate Detected(s: Settings, ticks: seq<Tick>, k: nat)
    requires k < |ticks|
  {
    |Streak(s, ticks, k + 1)| >= s.holdBytes
  }

  function PeakUpTo(ticks: seq<Tick>, k: nat): nat
    requires k <= |ticks|
  {
    if k == 0 then 0
    else if ticks[k - 1].read.Some? && AvgAbs(ticks[k - 1].read.value) > PeakUpTo(ticks, k - 1) then
      AvgAbs(ticks[k - 1].read.value)
    else PeakUpTo(ticks, k - 1)
  }

  /** The first `k` ticks went by without ending the wait. */
  ghost predicate StillWaiting(s: Settings, ticks: seq<Tick>, k: nat) {
    k <= |ticks| && forall i :: 0 <= i < k ==>
      ticks[i].guard < s.timeoutMs * 1000 && ticks[i].read.Some? && !Detected(s, ticks, i)
  }

  datatype Wait = Speech(at: nat, prefix: seq<Byte>, peak: nat) | TimedOut(at: nat, peak: nat) | MicFailed(at: nat)

  /** How the wait ends: at the first detection, a driver error or the first test of the clock
      past the timeout, whichever comes first. */
  ghost predicate WaitEnds(s: Settings, ticks: seq<Tick>, w: Wait) {
    && StillWaiting(s, ticks, w.at)
    && match w
       case Speech(at, prefix, peak) =>
         && at < |ticks| && ticks[at].guard < s.timeoutMs * 1000 && ticks[at].read.Some? && Detected(s, ticks, at)
         && prefix == Streak(s, ticks, at + 1) && peak == PeakUpTo(ticks, at + 1)
       case TimedOut(at, peak) =>
         (at < |ticks| ==> ticks[at].guard >= s.timeoutMs * 1000) && peak == PeakUpTo(ticks, at)
       case MicFailed(at) =>
         at < |ticks| && ticks[at].guard < s.timeoutMs * 1000 && ticks[at].read.None?
  }

  /** While the microphone is not armed there is no streak. */
  lemma NoStreakUnarmed(s: Settings, ticks: seq<Tick>, k: nat)
    requires ClockRuns(ticks) && k < |ticks| && !Armed(s, ticks[k])
    ensures Streak(s, ticks, k) == []
  {
    if k > 0 {
      assert ticks[k - 1].after <= ticks[k].after;
    }
  }

  /** The ticks run out when the clock has passed the timeout. */
  method WaitForSpeechStart(s: Settings, ticks: seq<Tick>) returns (w: Wait)
    requires Sound(s) && WholeChunks(s, ticks) && ClockRuns(ticks)
    ensures WaitEnds(s, ticks, w)
  {
    hide Streak, AvgAbs, ClockRuns;
    var capacity := s.holdBytes + s.chunk;
    var speechPrefix := new Byte[capacity](_ => 0);
    var hold, prefixBytes, peak, k := 0, 0, 0, 0;
    NoStreakYet(s, ticks);
    while k < |ticks| && ticks[k].guard < s.timeoutMs * 1000
      invariant StillWaiting(s, ticks, k) && peak == PeakUpTo(ticks, k)
      invariant 0 <= hold == prefixBytes < s.holdBytes
      invariant speechPrefix[..prefixBytes] == Streak(s, ticks, k)
    {
      if ticks[k].read.None? {
        return MicFailed(k);
      }
      var chunk := ticks[k].read.value;
      var level := AvgAbsPcm16Le(chunk);
      if level > peak {
        peak := level;
      }
      StreakStep(s, ticks, k);
      if ticks[k].after >= s.armMs * 1000 {
        if level >= s.startLevel {
          if prefixBytes + s.chunk > capacity {
            // The shift of the prefix by one chunk: never reached.
            assert false;
          }
          CopyInto(speechPrefix, prefixBytes, chunk);
          prefixBytes, hold := prefixBytes + s.chunk, hold + s.chunk;
          if hold >= s.holdBytes {
            return Speech(k, speechPrefix[..prefixBytes], peak);
          }
        } else {
          hold, prefixBytes := 0, 0;
        }
      }
      k := k + 1;
    }
    return TimedOut(k, peak);
  }

  lemma NoStreakYet(s: Settings, ticks: seq<Tick>)
    ensures Streak(s, ticks, 0) == []
  {
  }

  lemma StreakStep(s: Settings, ticks: seq<Tick>, k: nat)
    requires k < |ticks| && ClockRuns(ticks) && ticks[k].read.Some?
    ensures Streak(s, ticks, k + 1) ==
            if !Armed(s, ticks[k]) then Streak(s, ticks, k)
            else if Loud(s, ticks[k].read.value) then Streak(s, ticks, k) + ticks[k].read.value
            else []
  {
    if !Armed(s, ticks[k]) {
      NoStreakUnarmed(s, ticks, k);
    }
  }

  function ReadsOf(ticks: seq<Tick>, j: nat, k: nat): seq<seq<Byte>>
    requires j <= k <= |ticks| && (forall i :: j <= i < k ==> ticks[i].read.Some?)
  {
    seq(k - j, i requires 0 <= i < k - j => ticks[j + i].read.value)
  }

  /** The prefix handed on is exactly the last consecutive loud chunks: from just after the last
      tick that was not a hit. */
  lemma {:induction false} StreakIsMaximal(s: Settings, ticks: seq<Tick>, k: nat) returns (j: nat)
    requires k <= |ticks|
    ensures j <= k && (forall i :: j <= i < k ==> Hit(s, ticks[i])) && (j > 0 ==> !Hit(s, ticks[j - 1]))
    ensures (forall i :: j <= i < k ==> ticks[i].read.Some?) && Streak(s, ticks, k) == Concat(ReadsOf(ticks, j, k))
    decreases k
  {
    hide Hit;
    HitsAreReads(s);
    if k == 0 || !Hit(s, ticks[k - 1]) {
      j := k;
      assert ReadsOf(ticks, k, k) == [];
    } else {
      j := StreakIsMaximal(s, ticks, k - 1);
      assert ReadsOf(ticks, j, k) == ReadsOf(ticks, j, k - 1) + [ticks[k - 1].read.value];
      ConcatSnoc(ReadsOf(ticks, j, k - 1), ticks[k - 1].read.value);
    }
  }

  /** Speech is reported with the chunks it was heard in: armed, loud, consecutive, enough of
      them, and no more than were needed. */
  lemma SpeechWasLoud(s: Settings, ticks: seq<Tick>, w: Wait) returns (j: nat)
    requires Sound(s) && WholeChunks(s, ticks) && WaitEnds(s, ticks, w) && w.Speech?
    ensures j <= w.at < |ticks| && s.holdBytes <= |w.prefix| < s.holdBytes + s.chunk
    ensures forall i :: j <= i <= w.at ==>
              ticks[i].after >= s.armMs * 1000 && ticks[i].read.Some? && AvgAbs(ticks[i].read.value) >= s.startLevel
    ensures w.prefix == Concat(ReadsOf(ticks, j, w.at + 1))
  {
    hide AvgAbs, Streak;
    j := StreakIsMaximal(s, ticks, w.at + 1);
    assert Detected(s, ticks, w.at);
    LastOfStreak(s, ticks, w.at);
    assert w.at > 0 ==> !Detected(s, ticks, w.at - 1);
  }

  lemma LastOfStreak(s: Settings, ticks: seq<Tick>, k: nat)
    requires WholeChunks(s, ticks) && k < |ticks|
    ensures Streak(s, ticks, k + 1) != [] ==>
              Hit(s, ticks[k]) && |Streak(s, ticks, k + 1)| == |Streak(s, ticks, k)| + s.chunk
    ensures Streak(s, ticks, 0) == []
  {
  }

  /** Nothing is missed: consecutive armed, loud chunks of the required size, read before the
      timeout, end the wait with speech at the latest there. */
  lemma SpeechIsHeard(s: Settings, ticks: seq<Tick>, w: Wait, a: nat, b: nat)
    requires WholeChunks(s, ticks) && WaitEnds(s, ticks, w) && a <= b < |ticks|
    requires forall i :: 0 <= i <= b ==> ticks[i].guard < s.timeoutMs * 1000 && ticks[i].read.Some?
    requires forall i :: a <= i <= b ==>
               ticks[i].after >= s.armMs * 1000 && AvgAbs(ticks[i].read.value) >= s.startLevel
    requires (b + 1 - a) * s.chunk >= s.holdBytes
    ensures w.Speech? && w.at <= b
  {
    hide AvgAbs, Streak;
    HitsCount(s, ticks, a, b + 1);
    assert Detected(s, ticks, b);
  }

  lemma {:induction false} HitsCount(s: Settings, ticks: seq<Tick>, a: nat, k: nat)
    requires WholeChunks(s, ticks) && a <= k <= |ticks| && forall i :: a <= i < k ==> Hit(s, ticks[i])
    ensures |Streak(s, ticks, k)| >= (k - a) * s.chunk
    decreases k
  {
    hide Hit;
    HitsAreReads(s);
    if a < k {
      HitsCount(s, ticks, a, k - 1);
      assert (k - a) * s.chunk == (k - 1 - a) * s.chunk + s.chunk;
    }
  }

  /** The peak the wait reports is the largest level read. */
  lemma {:induction false} WaitPeakIsLargest(ticks: seq<Tick>, k: nat)
    requires k <= |ticks|
    ensures forall i :: 0 <= i < k && ticks[i].read.Some? ==> AvgAbs(ticks[i].read.value) <= PeakUpTo(ticks, k)
    ensures PeakUpTo(ticks, k) == 0 ||
            exists i :: 0 <= i < k && ticks[i].read.Some? && AvgAbs(ticks[i].read.value) == PeakUpTo(ticks, k)
  {
    hide AvgAbs;
    if k > 0 {
      WaitPeakIsLargest(ticks, k - 1);
    }
  }

  lemma HitsAreReads(s: Settings)
    ensures forall t: Tick :: Hit(s, t) ==> t.read.Some?
  {
  }

  // ---------------------------------------------------------------- the simulator

  /** A recording seen through the firmware's clock: chunk `i` is read from `64 i` to
      `64 (i + 1)` milliseconds. */
  function TicksOf(pcm: seq<Byte>): (ticks: seq<Tick>)
    ensures |ticks| == |pcm| / 2048 && WholeChunks(DEMO, ticks) && ClockRuns(ticks)
  {
    seq(|pcm| / 2048, i requires 0 <= i < |pcm| / 2048 =>
      Tick(64000 * i, Some(pcm[2048 * i..2048 * (i + 1)]), 64000 * (i + 1)))
  }

  /** The first chunk from `from` on at which speech is detected, with no timeout. */
  function FirstDetection(ticks: seq<Tick>, from: nat): (found: Option<nat>)
    requires from <= |ticks|
    ensures found.Some? ==> from <= found.value < |ticks| && Detected(DEMO, ticks, found.value)
    ensures forall i :: from <= i < (if found.Some? then found.value else |ticks|) ==> !Detected(DEMO, ticks, i)
    decreases |ticks| - from
  {
    if from == |ticks| then None
    else if Detected(DEMO, ticks, from) then Some(from)
    else FirstDetection(ticks, from + 1)
  }

  method Simulate(recording: seq<Byte>, skipMs: nat) returns (detectedMs: Option<int>, maxLevel: nat)
    ensures var pcm := recording[Min(32 * skipMs, |recording|)..];
            var found := FirstDetection(TicksOf(pcm), 0);
            && detectedMs == (if found.Some? then Some(64 * (found.value + 1) + skipMs) else None)
            && maxLevel == PeakUpTo(TicksOf(pcm), if found.Some? then found.value + 1 else |pcm| / 2048)
  {
    hide Streak, AvgAbs, ClockRuns;
    var pcm := recording[Min(32 * skipMs, |recording|)..];
    ghost var ticks := TicksOf(pcm);
    var hold := 0;
    maxLevel := 0;
    NoStreakYet(DEMO, ticks);
    for idx := 0 to |pcm| / 2048
      invariant maxLevel == PeakUpTo(ticks, idx) && hold == |Streak(DEMO, ticks, idx)| < 4096
      invariant FirstDetection(ticks, idx) == FirstDetection(ticks, 0)
    {
      var chunk := pcm[2048 * idx..2048 * (idx + 1)];
      var chunkEndMs := (idx + 1) * 64 + skipMs;
      var level := AvgAbsOfSamples(chunk);
      if level > maxLevel {
        maxLevel := level;
      }
      StreakStep(DEMO, ticks, idx);
      assert ticks[idx].read == Some(chunk) && (Armed(DEMO, ticks[idx]) <==> chunkEndMs >= 150 + skipMs);
      if chunkEndMs >= 150 + skipMs {
        if level >= 450 {
          hold := hold + 2048;
          if hold >= 4096 {
            return Some(chunkEndMs), maxLevel;
          }
        } else {
          hold := 0;
        }
      }
    }
    return None, maxLevel;
  }

  /** The simulator finds what the firmware finds, except that it knows no timeout: they differ
      exactly on speech it first reports in a chunk that the firmware no longer reads. */
  lemma SimulatorAgrees(pcm: seq<Byte>, w: Wait)
    requires WaitEnds(DEMO, TicksOf(pcm), w)
    ensures var found := FirstDetection(TicksOf(pcm), 0);
            && (w.Speech? <==> found.Some? && 64 * found.value < 3000)
            && (w.Speech? ==> w.at == found.value)
            && (w.TimedOut? || w.Speech?)
  {
    hide Detected, ClockRuns;
    var ticks := TicksOf(pcm);
    assert forall i :: 0 <= i < |ticks| ==> ticks[i].guard == 64000 * i && ticks[i].read.Some?;
    assert forall i :: 0 <= i < |ticks| && i < w.at ==> !Detected(DEMO, ticks, i);
  }
}
