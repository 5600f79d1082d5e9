/** The two keys of the device, polled on a 32-bit tick counter that wraps around: the voice
    button, which reports a short press on release, and the boot key, which reports a long
    press while it is held. */
module TriggerInput {
  import opened Bytes

  /** What one poll sees: the level of the pin and the time, as an unbounded tick count of
      which the device knows only the low 32 bits. */
  datatype Sample = Sample(level: int, tick: nat)

  datatype Limits = Limits(active: int, debounce: nat, long: nat)

  datatype Key = Key(debounced: int, lastSample: int, lastChange: nat, since: nat, pressing: bool)

  function Wrap(tick: nat): (t: nat)
    ensures t < TWO_TO_32
  {
    tick % TWO_TO_32
  }

  /** Unsigned 32-bit subtraction. */
  function Elapsed(now: nat, since: nat): (t: nat)
    ensures t < TWO_TO_32
  {
    (now - since) % TWO_TO_32
  }

  lemma ElapsedOfWrapped(since: nat, now: nat)
    requires since <= now
    ensures Elapsed(Wrap(now), Wrap(since)) == (now - since) % TWO_TO_32 <= now - since
    ensures now - since < TWO_TO_32 ==> Elapsed(Wrap(now), Wrap(since)) == now - since
  {
    var q, r := now / TWO_TO_32, since / TWO_TO_32;
    assert now == q * TWO_TO_32 + Wrap(now) && since == r * TWO_TO_32 + Wrap(since);
    SameResidue(Wrap(now) - Wrap(since), now - since, q - r);
  }

  lemma SameResidue(a: int, b: int, k: int)
    requires b == a + k * TWO_TO_32
    ensures a % TWO_TO_32 == b % TWO_TO_32
  {
    var u, v := a / TWO_TO_32, b / TWO_TO_32;
    assert a == u * TWO_TO_32 + a % TWO_TO_32;
    assert b == v * TWO_TO_32 + b % TWO_TO_32;
    assert (v - u - k) * TWO_TO_32 == a % TWO_TO_32 - b % TWO_TO_32;
  }

  // ---------------------------------------------------------------- one key

  function NewKey(s: Sample): Key {
    Key(s.level, s.level, Wrap(s.tick), 0, false)
  }

  /** The level has been the same for the debounce time, as far as the device can tell. */
  predicate Settled(c: Limits, k: Key, s: Sample) {
    s.level == k.lastSample && Elapsed(Wrap(s.tick), k.lastChange) >= c.debounce
  }

  /** What a poll does to a key, of either kind. */
  function Track(c: Limits, k: Key, s: Sample): Key {
    if s.level != k.lastSample then k.(lastSample := s.level, lastChange := Wrap(s.tick))
    else if !Settled(c, k, s) || k.debounced == s.level then k
    else if s.level == c.active then k.(debounced := s.level, pressing := true, since := Wrap(s.tick))
    else k.(debounced := s.level, pressing := false, since := if k.pressing then 0 else k.since)
  }

  /** Whether a poll of the voice button reports a press. */
  predicate ButtonFires(c: Limits, k: Key, s: Sample) {
    && Settled(c, k, s) && k.debounced != s.level && s.level != c.active
    && k.pressing && Elapsed(Wrap(s.tick), k.since) < c.long
  }

  /** Whether a poll of the boot key reports a long press. */
  predicate ReconfigFires(c: Limits, k: Key, reported: bool, s: Sample) {
    && Settled(c, k, s) && k.debounced == s.level && s.level == c.active
    && k.pressing && !reported && Elapsed(Wrap(s.tick), k.since) >= c.long
  }

  function ReportedAfter(c: Limits, k: Key, reported: bool, s: Sample): bool {
    if ReconfigFires(c, k, reported, s) then true
    else if Settled(c, k, s) && k.debounced != s.level && (s.level == c.active || k.pressing) then false
    else reported
  }

  // ---------------------------------------------------------------- the device

  datatype Event = NoEvent | ButtonEvent | ReconfigEvent

  class Trigger {
    var activeLevel: int
    var debouncedLevel: int
    var lastSampleLevel: int
    var lastChangeTick: nat
    var debounceTicks: nat
    var buttonActiveSinceTick: nat
    var buttonPressInProgress: bool
    var reconfigActiveLevel: int
    var reconfigDebouncedLevel: int
    var reconfigLastSampleLevel: int
    var reconfigLastChangeTick: nat
    var reconfigActiveSinceTick: nat
    var reconfigPressInProgress: bool
    var reconfigLongPressReported: bool
    const longPressTicks: nat
    // what the two pins have shown so far
    ghost var buttonSamples: seq<Sample>
    ghost var bootSamples: seq<Sample>

    function Button(): Key
      reads this
    {
      Key(debouncedLevel, lastSampleLevel, lastChangeTick, buttonActiveSinceTick, buttonPressInProgress)
    }

    function ButtonLimits(): Limits
      reads this
    {
      Limits(activeLevel, debounceTicks, longPressTicks)
    }

    function BootKey(): Key
      reads this
    {
      Key(reconfigDebouncedLevel, reconfigLastSampleLevel, reconfigLastChangeTick, reconfigActiveSinceTick,
          reconfigPressInProgress)
    }

    function BootLimits(): Limits
      reads this
    {
      Limits(reconfigActiveLevel, debounceTicks, longPressTicks)
    }

    /** Each key is where the samples it has been polled with take it. */
    ghost predicate Valid()
      reads this
    {
      && IsRun(buttonSamples) && Button() == KeyAt(ButtonLimits(), buttonSamples, |buttonSamples| - 1)
      && IsRun(bootSamples) && BootKey() == KeyAt(BootLimits(), bootSamples, |bootSamples| - 1)
      && reconfigLongPressReported == ReportedAt(BootLimits(), bootSamples, |bootSamples| - 1)
    }

    /** Both keys start with the level found on their pin. */
    constructor (buttonActive: int, bootActive: int, debounce: nat, long: nat, button: Sample, boot: Sample)
      ensures Button() == NewKey(button) && BootKey() == NewKey(boot) && !reconfigLongPressReported
      ensures ButtonLimits() == Limits(buttonActive, debounce, long)
      ensures BootLimits() == Limits(bootActive, debounce, long)
      ensures Valid() && buttonSamples == [button] && bootSamples == [boot]
    {
      longPressTicks := long;
      reconfigActiveLevel := bootActive;
      reconfigDebouncedLevel, reconfigLastSampleLevel := boot.level, boot.level;
      reconfigLastChangeTick, reconfigActiveSinceTick := Wrap(boot.tick), 0;
      reconfigPressInProgress, reconfigLongPressReported := false, false;
      activeLevel := buttonActive;
      debouncedLevel, lastSampleLevel := button.level, button.level;
      lastChangeTick, debounceTicks := Wrap(button.tick), debounce;
      buttonActiveSinceTick, buttonPressInProgress := 0, false;
      buttonSamples, bootSamples := [button], [boot];
    }

    method PollReconfigButton(s: Sample) returns (fired: bool)
      modifies this
      ensures unchanged(`buttonSamples) && unchanged(`bootSamples)
      ensures fired == old(ReconfigFires(BootLimits(), BootKey(), reconfigLongPressReported, s))
      ensures BootKey() == old(Track(BootLimits(), BootKey(), s))
      ensures reconfigLongPressReported == old(ReportedAfter(BootLimits(), BootKey(), reconfigLongPressReported, s))
      ensures Button() == old(Button()) && ButtonLimits() == old(ButtonLimits()) && BootLimits() == old(BootLimits())
    {
      var now := Wrap(s.tick);
      if s.level != reconfigLastSampleLevel {
        reconfigLastSampleLevel, reconfigLastChangeTick := s.level, now;
        return false;
      }
      if Elapsed(now, reconfigLastChangeTick) < debounceTicks {
        return false;
      }
      if reconfigDebouncedLevel == s.level {
        if s.level == reconfigActiveLevel && reconfigPressInProgress && !reconfigLongPressReported &&
           Elapsed(now, reconfigActiveSinceTick) >= longPressTicks {
          reconfigLongPressReported := true;
          return true;
        }
        return false;
      }
      reconfigDebouncedLevel := s.level;
      if s.level == reconfigActiveLevel {
        reconfigPressInProgress, reconfigActiveSinceTick, reconfigLongPressReported := true, now, false;
        return false;
      }
      if reconfigPressInProgress {
        reconfigPressInProgress, reconfigActiveSinceTick, reconfigLongPressReported := false, 0, false;
      }
      return false;
    }

    method PollButton(s: Sample) returns (fired: bool)
      modifies this
      ensures unchanged(`buttonSamples) && unchanged(`bootSamples)
      ensures fired == old(ButtonFires(ButtonLimits(), Button(), s))
      ensures Button() == old(Track(ButtonLimits(), Button(), s))
      ensures BootKey() == old(BootKey()) && reconfigLongPressReported == old(reconfigLongPressReported)
      ensures ButtonLimits() == old(ButtonLimits()) && BootLimits() == old(BootLimits())
    {
      var now := Wrap(s.tick);
      if s.level != lastSampleLevel {
        lastSampleLevel, lastChangeTick := s.level, now;
        return false;
      }
      if Elapsed(now, lastChangeTick) < debounceTicks {
        return false;
      }
      if debouncedLevel == s.level {
        return false;
      }
      debouncedLevel := s.level;
      if s.level == activeLevel {
        buttonPressInProgress, buttonActiveSinceTick := true, now;
        return false;
      }
      if buttonPressInProgress {
        var held := Elapsed(now, buttonActiveSinceTick);
        buttonPressInProgress, buttonActiveSinceTick := false, 0;
        return held < longPressTicks;
      }
      return false;
    }

    /** One poll of the device: the boot key first; when it fires, the voice button is not
        looked at, and its pin not sampled. The events are those of the two runs of samples. */
    method Poll(boot: Sample, button: Sample) returns (event: Event)
      requires Valid() && Later(bootSamples, boot) && Later(buttonSamples, button)
      modifies this
      ensures Valid() && ButtonLimits() == old(ButtonLimits()) && BootLimits() == old(BootLimits())
      ensures bootSamples == old(bootSamples) + [boot]
      ensures event.ReconfigEvent? <==> ReconfigAt(BootLimits(), bootSamples, |bootSamples| - 1)
      ensures buttonSamples == if event.ReconfigEvent? then old(buttonSamples) else old(buttonSamples) + [button]
      ensures event.ButtonEvent? <==>
              !event.ReconfigEvent? && ButtonAt(ButtonLimits(), buttonSamples, |buttonSamples| - 1)
    {
      hide Track, ButtonFires, ReconfigFires, ReportedAfter, KeyAt, ReportedAt;
      NextSample(BootLimits(), bootSamples, boot);
      NextSample(ButtonLimits(), buttonSamples, button);
      var fired := PollReconfigButton(boot);
      bootSamples := bootSamples + [boot];
      if fired {
        return ReconfigEvent;
      }
      fired := PollButton(button);
      buttonSamples := buttonSamples + [button];
      return if fired then ButtonEvent else NoEvent;
    }
  }

  // ---------------------------------------------------------------- a key over a whole run

  /** The first sample is the one taken when the key is set up; time does not run backwards. */
  ghost predicate IsRun(samples: seq<Sample>) {
    samples != [] && forall i, j :: 0 <= i < j < |samples| ==> samples[i].tick <= samples[j].tick
  }

  function KeyAt(c: Limits, samples: seq<Sample>, i: nat): Key
    requires i < |samples|
  {
    if i == 0 then NewKey(samples[0]) else Track(c, KeyAt(c, samples, i - 1), samples[i])
  }

  /** Time does not run backwards. */
  predicate Later(samples: seq<Sample>, s: Sample) {
    samples != [] && samples[|samples| - 1].tick <= s.tick
  }

  lemma {:induction false} KeyOfPrefix(c: Limits, samples: seq<Sample>, s: Sample, i: nat)
    requires i < |samples|
    ensures KeyAt(c, samples + [s], i) == KeyAt(c, samples, i)
    ensures ReportedAt(c, samples + [s], i) == ReportedAt(c, samples, i)
    decreases i
  {
    hide Track, ReportedAfter;
    if i > 0 {
      KeyOfPrefix(c, samples, s, i - 1);
    }
  }

  /** One more sample takes one more step. */
  lemma NextSample(c: Limits, samples: seq<Sample>, s: Sample)
    requires IsRun(samples) && Later(samples, s)
    ensures IsRun(samples + [s])
    ensures var n, more := |samples|, samples + [s];
            var k, reported := KeyAt(c, samples, n - 1), ReportedAt(c, samples, n - 1);
            && KeyAt(c, more, n) == Track(c, k, s) && ReportedAt(c, more, n) == ReportedAfter(c, k, reported, s)
            && (ButtonAt(c, more, n) <==> ButtonFires(c, k, s))
            && (ReconfigAt(c, more, n) <==> ReconfigFires(c, k, reported, s))
  {
    hide Track, ReportedAfter, ButtonFires, ReconfigFires;
    KeyOfPrefix(c, samples, s, |samples| - 1);
  }

  predicate Down(c: Limits, samples: seq<Sample>, i: nat)
    requires i < |samples|
  {
    KeyAt(c, samples, i).debounced == c.active
  }

  /** The poll at which the press in progress after poll `i` began. */
  function PressStart(c: Limits, samples: seq<Sample>, i: nat): (p: Option<nat>)
    requires i < |samples|
    ensures p.Some? ==> 0 < p.value <= i && Down(c, samples, i)
  {
    if i == 0 || !Down(c, samples, i) then None
    else if Down(c, samples, i - 1) then PressStart(c, samples, i - 1)
    else Some(i)
  }

  /** The poll since which the level has been what it is. */
  function SameSince(samples: seq<Sample>, i: nat): (j: nat)
    requires i < |samples|
    ensures j <= i && forall m :: j <= m <= i ==> samples[m].level == samples[i].level
  {
    if i == 0 || samples[i - 1].level != samples[i].level then i else SameSince(samples, i - 1)
  }

  lemma {:induction false} PressBegan(c: Limits, samples: seq<Sample>, i: nat)
    requires i < |samples|
    ensures PressStart(c, samples, i).Some? <==>
            Down(c, samples, i) && exists j :: 0 <= j < i && !Down(c, samples, j)
    ensures PressStart(c, samples, i).Some? ==>
              var p := PressStart(c, samples, i).value;
              !Down(c, samples, p - 1) && forall m :: p <= m <= i ==> Down(c, samples, m)
    decreases i
  {
    hide KeyAt, Down;
    if i > 0 {
      PressBegan(c, samples, i - 1);
    }
  }

  /** What the fields of the key mean. */
  lemma {:induction false} KeyMeans(c: Limits, samples: seq<Sample>, i: nat)
    requires IsRun(samples) && i < |samples|
    ensures var k := KeyAt(c, samples, i);
            && k.lastSample == samples[i].level && k.lastChange == Wrap(samples[SameSince(samples, i)].tick)
            && (k.pressing <==> PressStart(c, samples, i).Some?)
            && (k.pressing ==> k.since == Wrap(samples[PressStart(c, samples, i).value].tick))
    decreases i
  {
    hide Wrap, Elapsed;
    if i > 0 {
      KeyMeans(c, samples, i - 1);
    }
  }

  /** How long the level has been stable at a poll, and a press held, in 32-bit ticks. */
  function Span(samples: seq<Sample>, from: nat, to: nat): nat
    requires from <= to < |samples| && IsRun(samples)
  {
    assert from < to ==> samples[from].tick <= samples[to].tick;
    (samples[to].tick - samples[from].tick) % TWO_TO_32
  }

  lemma SpanIsElapsed(samples: seq<Sample>, from: nat, to: nat)
    requires from <= to < |samples| && IsRun(samples)
    ensures Elapsed(Wrap(samples[to].tick), Wrap(samples[from].tick)) == Span(samples, from, to)
    ensures Span(samples, from, to) <= samples[to].tick - samples[from].tick
    ensures samples[to].tick - samples[from].tick < TWO_TO_32 ==>
              Span(samples, from, to) == samples[to].tick - samples[from].tick
  {
    assert from < to ==> samples[from].tick <= samples[to].tick;
    ElapsedOfWrapped(samples[from].tick, samples[to].tick);
  }

  /** No level shorter than the debounce time changes the state of a key. */
  lemma DebounceHolds(c: Limits, samples: seq<Sample>, i: nat)
    requires IsRun(samples) && 0 < i < |samples|
    requires KeyAt(c, samples, i).debounced != KeyAt(c, samples, i - 1).debounced
    ensures var j := SameSince(samples, i);
            && (forall m :: j <= m <= i ==> samples[m].level == KeyAt(c, samples, i).debounced)
            && samples[i].tick - samples[j].tick >= c.debounce
  {
    hide Wrap, Elapsed;
    KeyMeans(c, samples, i - 1);
    SpanIsElapsed(samples, SameSince(samples, i - 1), i);
  }

  /** The level was the same at the last poll and has been, in 32-bit ticks, for the debounce
      time. */
  predicate Steady(c: Limits, samples: seq<Sample>, i: nat)
    requires 0 < i < |samples| && IsRun(samples)
  {
    samples[i].level == samples[i - 1].level && Span(samples, SameSince(samples, i - 1), i) >= c.debounce
  }

  /** The state of a key follows the level exactly at the polls at which the level is steady. */
  lemma StateFollowsExactlyWhen(c: Limits, samples: seq<Sample>, i: nat)
    requires IsRun(samples) && 0 < i < |samples|
    ensures KeyAt(c, samples, i).debounced ==
            if Steady(c, samples, i) then samples[i].level else KeyAt(c, samples, i - 1).debounced
    ensures Settled(c, KeyAt(c, samples, i - 1), samples[i]) <==> Steady(c, samples, i)
  {
    KeyMeans(c, samples, i - 1);
    SpanIsElapsed(samples, SameSince(samples, i - 1), i);
    hide Wrap, Elapsed, SameSince, Span;
  }

  lemma KeySteps(c: Limits, samples: seq<Sample>, i: nat)
    requires 0 < i < |samples|
    ensures KeyAt(c, samples, i) == Track(c, KeyAt(c, samples, i - 1), samples[i])
    ensures PressStart(c, samples, i - 1).Some? ==> Down(c, samples, i - 1)
  {
  }

  predicate ButtonAt(c: Limits, samples: seq<Sample>, i: nat)
    requires 0 < i < |samples|
  {
    ButtonFires(c, KeyAt(c, samples, i - 1), samples[i])
  }

  /** The voice button reports exactly at the release of a press whose length, in 32-bit ticks,
      is less than the long-press time. */
  lemma ButtonFiresExactlyWhen(c: Limits, samples: seq<Sample>, i: nat)
    requires IsRun(samples) && 0 < i < |samples|
    ensures ButtonAt(c, samples, i) <==>
            var p := PressStart(c, samples, i - 1);
            p.Some? && !Down(c, samples, i) && Span(samples, p.value, i) < c.long
  {
    KeyMeans(c, samples, i - 1);
    KeySteps(c, samples, i);
    FiresOnRelease(c, KeyAt(c, samples, i - 1), samples[i]);
    hide Wrap, Elapsed, KeyAt, PressStart, SameSince, ButtonFires, Track;
    var p := PressStart(c, samples, i - 1);
    if p.Some? {
      SpanIsElapsed(samples, p.value, i);
    }
  }

  lemma FiresOnRelease(c: Limits, k: Key, s: Sample)
    requires k.pressing ==> k.debounced == c.active
    ensures ButtonFires(c, k, s) <==>
            k.pressing && Track(c, k, s).debounced != c.active && Elapsed(Wrap(s.tick), k.since) < c.long
  {
    hide Wrap, Elapsed;
  }

  /** Every press gives at most one report. */
  lemma OneReportPerPress(c: Limits, samples: seq<Sample>, i: nat, j: nat)
    requires IsRun(samples) && 0 < i < j < |samples|
    requires ButtonAt(c, samples, i) && ButtonAt(c, samples, j)
    ensures PressStart(c, samples, j - 1).Some? && PressStart(c, samples, j - 1).value > i
  {
    hide ButtonAt, Down, KeyAt;
    ButtonFiresExactlyWhen(c, samples, i);
    ButtonFiresExactlyWhen(c, samples, j);
    PressBegan(c, samples, j - 1);
  }

  /** A key that is down from the start reports nothing until it has been released and pressed
      again. */
  lemma DownAtStartIsSilent(c: Limits, samples: seq<Sample>, i: nat)
    requires IsRun(samples) && 0 < i < |samples|
    requires forall j :: 0 <= j < i ==> Down(c, samples, j)
    ensures !ButtonAt(c, samples, i) && !ReconfigAt(c, samples, i)
  {
    hide Down;
    PressBegan(c, samples, i - 1);
    KeyMeans(c, samples, i - 1);
  }

  /** A reported press was really shorter than the long-press time exactly if it did not last
      for a whole turn of the tick counter. */
  lemma ReportedPressIsShortExactlyWhen(c: Limits, samples: seq<Sample>, i: nat)
    requires IsRun(samples) && 0 < i < |samples| && c.long <= TWO_TO_32
    requires ButtonAt(c, samples, i)
    ensures PressStart(c, samples, i - 1).Some?
    ensures var held := samples[i].tick - samples[PressStart(c, samples, i - 1).value].tick;
            held < c.long <==> held < TWO_TO_32
  {
    hide ButtonAt, PressStart;
    ButtonFiresExactlyWhen(c, samples, i);
    SpanIsElapsed(samples, PressStart(c, samples, i - 1).value, i);
  }

  /** A press of one turn of the counter and nine ticks. */
  function LongestPress(): seq<Sample> {
    [Sample(0, 0), Sample(1, 1), Sample(1, 21), Sample(0, TWO_TO_32 + 10), Sample(0, TWO_TO_32 + 30)]
  }

  /** It is reported as a short one. */
  lemma WrappedPressIsReported()
    ensures IsRun(LongestPress()) && ButtonAt(Limits(1, 20, 5000), LongestPress(), 4)
  {
    var c, samples := Limits(1, 20, 5000), LongestPress();
    assert KeyAt(c, samples, 0) == Key(0, 0, 0, 0, false);
    assert KeyAt(c, samples, 1) == Key(0, 1, 1, 0, false);
    assert KeyAt(c, samples, 2) == Key(1, 1, 1, 21, true);
    assert KeyAt(c, samples, 3) == Key(1, 0, 10, 21, true);
  }

  function ReportedAt(c: Limits, samples: seq<Sample>, i: nat): bool
    requires i < |samples|
  {
    if i == 0 then false
    else ReportedAfter(c, KeyAt(c, samples, i - 1), ReportedAt(c, samples, i - 1), samples[i])
  }

  predicate ReconfigAt(c: Limits, samples: seq<Sample>, i: nat)
    requires 0 < i < |samples|
  {
    ReconfigFires(c, KeyAt(c, samples, i - 1), ReportedAt(c, samples, i - 1), samples[i])
  }

  ghost predicate LongReported(c: Limits, samples: seq<Sample>, from: nat, to: nat)
    requires to < |samples|
  {
    exists j :: from < j <= to && ReconfigAt(c, samples, j)
  }

  /** The flag says that the press in progress has been reported. */
  lemma {:induction false} ReportedMeans(c: Limits, samples: seq<Sample>, i: nat)
    requires IsRun(samples) && i < |samples|
    ensures ReportedAt(c, samples, i) <==>
            PressStart(c, samples, i).Some? && LongReported(c, samples, PressStart(c, samples, i).value, i)
    decreases i
  {
    hide Wrap, Elapsed;
    if i > 0 {
      ReportedMeans(c, samples, i - 1);
      KeyMeans(c, samples, i - 1);
      var p := PressStart(c, samples, i - 1);
      if p.Some? {
        assert LongReported(c, samples, p.value, i) <==>
               LongReported(c, samples, p.value, i - 1) || ReconfigAt(c, samples, i) by {
          hide ReconfigAt;
        }
      }
    }
  }

  /** The boot key reports exactly at the first settled poll of a press that has lasted, in
      32-bit ticks, at least the long-press time. */
  lemma ReconfigFiresExactlyWhen(c: Limits, samples: seq<Sample>, i: nat)
    requires IsRun(samples) && 0 < i < |samples|
    ensures ReconfigAt(c, samples, i) <==>
            var p := PressStart(c, samples, i - 1);
            && p.Some? && Steady(c, samples, i) && samples[i].level == c.active
            && Span(samples, p.value, i) >= c.long
            && forall j :: p.value < j < i ==> !ReconfigAt(c, samples, j)
    ensures ReconfigAt(c, samples, i) ==>
              var p := PressStart(c, samples, i - 1);
              p == PressStart(c, samples, i) && samples[i].tick - samples[p.value].tick >= c.long
  {
    StateFollowsExactlyWhen(c, samples, i);
    hide Wrap, Elapsed, Steady;
    KeyMeans(c, samples, i - 1);
    ReportedMeans(c, samples, i - 1);
    var p := PressStart(c, samples, i - 1);
    if p.Some? {
      SpanIsElapsed(samples, p.value, i);
    }
  }

  /** A key that is held for the long-press time and polled once a second. */
  function HeldKey(): seq<Sample> {
    [Sample(0, 0), Sample(1, 1000), Sample(1, 2000), Sample(1, 6000), Sample(1, 7000), Sample(1, 8000)]
  }

  /** It is reported at the first poll past that time, and only there. */
  lemma HeldKeyIsReported()
    ensures var c := Limits(1, 20, 5000);
            && IsRun(HeldKey()) && ReconfigAt(c, HeldKey(), 4)
            && !ReconfigAt(c, HeldKey(), 3) && !ReconfigAt(c, HeldKey(), 5)
  {
    var c, samples := Limits(1, 20, 5000), HeldKey();
    assert KeyAt(c, samples, 0) == Key(0, 0, 0, 0, false);
    assert KeyAt(c, samples, 1) == Key(0, 1, 1000, 0, false);
    assert KeyAt(c, samples, 2) == Key(1, 1, 1000, 2000, true);
    assert KeyAt(c, samples, 3) == Key(1, 1, 1000, 2000, true);
    assert KeyAt(c, samples, 4) == Key(1, 1, 1000, 2000, true);
    assert !ReportedAt(c, samples, 1) && !ReportedAt(c, samples, 2) && !ReportedAt(c, samples, 3);
  }

  /** Every press is reported as long at most once. */
  lemma OneLongReportPerPress(c: Limits, samples: seq<Sample>, i: nat, j: nat)
    requires IsRun(samples) && 0 < i < j < |samples|
    requires ReconfigAt(c, samples, i) && ReconfigAt(c, samples, j)
    ensures PressStart(c, samples, j - 1).Some? && PressStart(c, samples, j - 1).value > i
  {
    hide Settled, Steady, KeyAt, PressStart;
    ReconfigFiresExactlyWhen(c, samples, i);
    ReconfigFiresExactlyWhen(c, samples, j);
    PressBegan(c, samples, i - 1);
    PressBegan(c, samples, j - 1);
  }
}
