/** When the downlink returns ESP_OK: exactly if nothing interfered, something was received, no
    frame was cut off and no inner packet was bad. */
module DownlinkErrors {
  import opened Bytes
  import opened FramedV1
  import opened DownlinkPipeline

  /** What time, memory, the network or the callback do to a run. */
  predicate Interferes(step: Step) {
    match step
    case ByReader(a) => a.SendTimeout? || a.ReadFails? || a.TerminalLost? || a.JoinTimeout?
    case ByDecoder(a) => a.AppendFails? || a.EmitTimeout? || a.TerminalTimeout?
    case ByPlayback(a) => a == Callback(false)
  }

  /** No packet at all in what was read. */
  predicate NothingReceived(cfg: Config, bytesIn: seq<Byte>) {
    if cfg.framed then Parse(bytesIn).packets == [] else bytesIn == []
  }

  // ---------------------------------------------------------------- the first packet

  /** The reader has seen a packet exactly when there was one. */
  predicate Seen(cfg: Config, s: State) {
    s.sawFirst || (s.reader.Sending? && s.reader.left != []) <==> !NothingReceived(cfg, s.bytesIn)
  }

  lemma ReadSees(cfg: Config, s: State, chunk: seq<Byte>)
    requires ReaderInv(cfg, s) && chunk != []
    ensures NothingReceived(cfg, s.bytesIn + chunk) <==>
            NothingReceived(cfg, s.bytesIn) && Cut(cfg, s, chunk).packets == []
  {
    hide Parse, PayloadBytes, ReceivedBytes;
    if cfg.framed {
      ParseAppend(s.bytesIn, chunk);
    }
  }

  lemma ReaderSees(cfg: Config, s: State, a: ReaderAction, t: State)
    requires ReaderInv(cfg, s) && Seen(cfg, s) && ReaderStep(cfg, s, a, t)
    ensures Seen(cfg, t)
  {
    hide ReaderInv, Parse, PayloadBytes, FinalCode, Cut, NothingReceived;
    match a
    case Read(chunk) =>
      ReadSees(cfg, s, chunk);
    case SendPacket => case SendTimeout => case SendDone => case ReadFails => case ReadEnd =>
    case PostTerminal => case TerminalLost => case Join => case JoinTimeout =>
  }

  // ---------------------------------------------------------------- who is to blame

  /** Half a frame was left over when the body ended. */
  predicate HalfFrame(cfg: Config, s: State) {
    cfg.framed && s.framePending != [] && !s.reader.Reading? && !s.reader.Sending?
  }

  predicate BadPacket(cfg: Config, s: State) {
    cfg.opus && DecodeInner(cfg, s.fed).bad
  }

  predicate Blamed(cfg: Config, s: State) {
    HalfFrame(cfg, s) || BadPacket(cfg, s)
  }

  predicate Alarm(s: State) {
    || s.fault || s.reader == Ended(EspError) || s.reader == Joining(EspError)
    || Fault in s.encoded || s.decoder == Forward(Fault) || Fault in s.pcm || s.playbackResult == EspError
  }

  /** Without interference every alarm has half a frame or a bad packet behind it. */
  predicate Blame(cfg: Config, s: State) {
    && s.decodeResult == EspOk && (Alarm(s) ==> Blamed(cfg, s))
    && (s.reader == Returned(EspError) ==> Blamed(cfg, s) || !s.sawFirst)
  }

  lemma {:induction false} BadStays(cfg: Config, a: seq<Byte>, b: seq<Byte>)
    requires DecodeInner(cfg, a).bad
    ensures DecodeInner(cfg, a + b).bad
    decreases |a|
  {
    assert (a + b)[..2] == a[..2];
    if CompleteInner(a) {
      assert (a + b)[2..2 + InnerLen(a)] == a[2..2 + InnerLen(a)];
      assert DropInner(a + b) == DropInner(a) + b;
      if Decodable(cfg, a) {
        BadStays(cfg, DropInner(a), b);
      }
    }
  }

  lemma BadInPrefix(cfg: Config, a: seq<Byte>, b: seq<Byte>)
    requires a <= b && DecodeInner(cfg, a).bad
    ensures DecodeInner(cfg, b).bad
  {
    assert b == a + b[|a|..];
    BadStays(cfg, a, b[|a|..]);
  }

  lemma ReaderBlame(cfg: Config, s: State, a: ReaderAction, t: State)
    requires Blame(cfg, s) && ReaderStep(cfg, s, a, t) && !Interferes(ByReader(a))
    ensures Blame(cfg, t)
  {
    hide DecodeInner, Cut, PayloadBytes, Parse;
    match a
    case Read(_) => case SendPacket => case SendTimeout => case SendDone => case ReadFails => case ReadEnd =>
    case PostTerminal => case TerminalLost => case Join => case JoinTimeout =>
  }

  lemma RejectMeansBad(cfg: Config, s: State, t: State)
    requires DecoderInv(cfg, s) && DecoderStep(cfg, s, RejectInner, t)
    ensures BadPacket(cfg, s) && t.fed == s.fed
  {
    EmptyOrRejected(cfg, s.opusPending);
    hide DecodeInner;
  }

  lemma EmptyOrRejected(cfg: Config, s: seq<Byte>)
    ensures 2 <= |s| && InnerLen(s) == 0 ==> DecodeInner(cfg, s).bad
    ensures CompleteInner(s) && !Decodable(cfg, s) ==> DecodeInner(cfg, s).bad
  {
  }

  lemma DecoderBlame(cfg: Config, s: State, a: DecoderAction, t: State)
    requires DecoderInv(cfg, s) && Markers(s) && Blame(cfg, s)
    requires DecoderStep(cfg, s, a, t) && !Interferes(ByDecoder(a))
    ensures Blame(cfg, t)
  {
    hide DecoderInv, DecodeInner, Decodable, CompleteInner, InnerPcm, DropInner, WellMarked, AllData;
    match a
    case TakeEncoded =>
      if BadPacket(cfg, s) { BadStays(cfg, s.fed, Payload(s.encoded[0])); }
    case AppendFails =>
    case Starve =>
    case RejectInner =>
      RejectMeansBad(cfg, s, t);
    case SkipSilent => case DecodeOne => case EmitPcm => case EmitTimeout =>
    case SendTerminal => case TerminalTimeout =>
  }

  lemma PlaybackBlame(cfg: Config, s: State, a: PlaybackAction, t: State)
    requires Blame(cfg, s) && PlaybackStep(cfg, s, a, t) && !Interferes(ByPlayback(a))
    ensures Blame(cfg, t)
  {
    hide DecodeInner;
    match a
    case TakePcm => case Callback(_) =>
  }

  // ---------------------------------------------------------------- what interference leaves behind

  predicate Spoiled(s: State) {
    s.fault || s.reader == Ended(EspError) || s.reader == Joining(EspError) || s.reader == Returned(EspError)
  }

  lemma ReaderSpoils(cfg: Config, s: State, a: ReaderAction, t: State)
    requires ReaderStep(cfg, s, a, t)
    ensures Spoiled(s) || Interferes(ByReader(a)) ==> Spoiled(t)
    ensures !s.reader.Returned?
    ensures t.reader == Returned(EspOk) ==> t.sawFirst
  {
    hide Cut, PayloadBytes, Parse;
    match a
    case Read(_) => case SendPacket => case SendTimeout => case SendDone => case ReadFails => case ReadEnd =>
    case PostTerminal => case TerminalLost => case Join => case JoinTimeout =>
  }

  lemma DecoderSpoils(cfg: Config, s: State, a: DecoderAction, t: State)
    requires DecoderStep(cfg, s, a, t)
    ensures Spoiled(s) || Interferes(ByDecoder(a)) ==> Spoiled(t)
    ensures t.reader == s.reader && t.sawFirst == s.sawFirst && t.bytesIn == s.bytesIn
  {
    hide Decodable, CompleteInner, InnerPcm, DropInner, AfterTake, Payload, InnerLen;
    match a
    case TakeEncoded => case AppendFails => case Starve => case RejectInner => case SkipSilent =>
    case DecodeOne => case EmitPcm => case EmitTimeout => case SendTerminal => case TerminalTimeout =>
  }

  lemma PlaybackSpoils(cfg: Config, s: State, a: PlaybackAction, t: State)
    requires PlaybackStep(cfg, s, a, t)
    ensures Spoiled(s) || Interferes(ByPlayback(a)) ==> Spoiled(t)
    ensures t.reader == s.reader && t.sawFirst == s.sawFirst && t.bytesIn == s.bytesIn
  {
    match a
    case TakePcm => case Callback(_) =>
  }

  /** One step, for all that is said about a run so far. */
  lemma StepTells(cfg: Config, s: State, step: Step, t: State)
    requires Inv(cfg, s) && Seen(cfg, s) && Next(cfg, s, step, t)
    requires s.reader == Returned(EspOk) ==> s.sawFirst
    ensures Seen(cfg, t) && (t.reader == Returned(EspOk) ==> t.sawFirst)
    ensures Spoiled(s) || Interferes(step) ==> Spoiled(t)
    ensures Blame(cfg, s) && !Interferes(step) ==> Blame(cfg, t)
  {
    hide ReaderStep, DecoderStep, PlaybackStep, ReaderInv, DecoderInv, Queues, Markers, Blame, NothingReceived;
    hide Interferes, Spoiled;
    match step
    case ByReader(a) =>
      ReaderSees(cfg, s, a, t);
      ReaderSpoils(cfg, s, a, t);
      if Blame(cfg, s) && !Interferes(step) { ReaderBlame(cfg, s, a, t); }
    case ByDecoder(a) =>
      DecoderSpoils(cfg, s, a, t);
      if Blame(cfg, s) && !Interferes(step) { DecoderBlame(cfg, s, a, t); }
    case ByPlayback(a) =>
      PlaybackSpoils(cfg, s, a, t);
      if Blame(cfg, s) && !Interferes(step) { PlaybackBlame(cfg, s, a, t); }
  }

  ghost predicate Disturbed(steps: seq<Step>, i: nat)
    requires i <= |steps|
  {
    exists k :: 0 <= k < i && Interferes(steps[k])
  }

  lemma {:induction false} RunTells(cfg: Config, states: seq<State>, steps: seq<Step>, i: nat)
    requires Run(cfg, states, steps) && i <= |steps|
    ensures var s := states[i];
            && Seen(cfg, s) && (s.reader == Returned(EspOk) ==> s.sawFirst)
            && if Disturbed(steps, i) then Spoiled(s) else Blame(cfg, s)
    decreases i
  {
    hide Inv, Next, Seen, Spoiled, Blame, Interferes;
    if i == 0 {
      InitTells(cfg);
    } else {
      RunTells(cfg, states, steps, i - 1);
      RunKeeps(cfg, states, steps, i - 1);
      StepTells(cfg, states[i - 1], steps[i - 1], states[i]);
      assert Disturbed(steps, i) <==> Disturbed(steps, i - 1) || Interferes(steps[i - 1]);
    }
  }

  lemma InitTells(cfg: Config)
    ensures Seen(cfg, Init()) && Blame(cfg, Init()) && !Init().reader.Returned?
  {
    ParseIncomplete([]);
  }

  /** A run that has returned returned ESP_OK exactly if nothing interfered, something was
      received, the body did not end inside a frame, and no inner packet was bad. */
  lemma OkExactlyWhen(cfg: Config, states: seq<State>, steps: seq<Step>, i: nat)
    requires Run(cfg, states, steps) && i <= |steps| && states[i].reader.Returned?
    ensures var s := states[i];
            s.reader.code == EspOk <==>
            && (forall k :: 0 <= k < i ==> !Interferes(steps[k]))
            && !NothingReceived(cfg, s.bytesIn)
            && (cfg.framed ==> Parse(s.bytesIn).rest == [])
            && (cfg.opus ==> !DecodeInner(cfg, ReceivedBytes(cfg, s.bytesIn)).bad)
  {
    hide Next, DecodeInner, Parse, ReceivedBytes, PayloadBytes, Interferes, NothingReceived;
    var s := states[i];
    RunTells(cfg, states, steps, i);
    RunKeeps(cfg, states, steps, i);
    if s.reader.code == EspOk {
      OkMeansExactDelivery(cfg, states, steps, i);
    } else if !Disturbed(steps, i) {
      if BadPacket(cfg, s) { BadInPrefix(cfg, s.fed, s.received); }
    }
  }

  lemma ReadingIsOver(cfg: Config, s: State, step: Step, t: State)
    requires Next(cfg, s, step, t)
    ensures (!s.reader.Reading? && !s.reader.Sending?) || step == ByReader(ReadFails) ==>
              !t.reader.Reading? && !t.reader.Sending?
  {
    hide ReaderStep, DecoderStep, PlaybackStep;
    match step
    case ByReader(a) => ReaderStopsReading(cfg, s, a, t);
    case ByDecoder(a) => DecoderSpoils(cfg, s, a, t);
    case ByPlayback(a) => PlaybackSpoils(cfg, s, a, t);
  }

  lemma ReaderStopsReading(cfg: Config, s: State, a: ReaderAction, t: State)
    requires ReaderStep(cfg, s, a, t)
    ensures (!s.reader.Reading? && !s.reader.Sending?) || a == ReadFails ==> !t.reader.Reading? && !t.reader.Sending?
  {
    hide Cut, PayloadBytes, Parse, FinalCode;
    match a
    case Read(_) => case SendPacket => case SendTimeout => case SendDone => case ReadFails => case ReadEnd =>
    case PostTerminal => case TerminalLost => case Join => case JoinTimeout =>
  }

  /** A reader that still reads has met no read error. */
  lemma {:induction false} NoFailedRead(cfg: Config, states: seq<State>, steps: seq<Step>, i: nat)
    requires Run(cfg, states, steps) && i <= |steps| && (states[i].reader.Reading? || states[i].reader.Sending?)
    ensures ByReader(ReadFails) !in steps[..i]
    decreases i
  {
    hide Next;
    if i > 0 {
      ReadingIsOver(cfg, states[i - 1], steps[i - 1], states[i]);
      NoFailedRead(cfg, states, steps, i - 1);
      assert steps[..i] == steps[..i - 1] + [steps[i - 1]];
    }
  }
}
