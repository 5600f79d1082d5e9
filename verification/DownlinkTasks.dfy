/** The reader, the decoder task and the playback task of the downlink as the loops they are.
    Before each of its own actions a task lets the others run; each loop is shown to be a run
    of the step machine, so the theorems about all runs hold of it. */
module DownlinkTasks {
  import opened Bytes
  import opened FramedV1
  import opened DownlinkPipeline
  import opened DownlinkErrors
  import opened Http

  datatype Task = Reader | Decoder | Playback

  function Actor(step: Step): Task {
    match step
    case ByReader(_) => Reader
    case ByDecoder(_) => Decoder
    case ByPlayback(_) => Playback
  }

  /** What a task can rely on while others run: its own variables stay, and the queue it reads
      from only grows. */
  ghost predicate Leaves(self: Task, s: State, t: State) {
    match self
    case Reader =>
      && t.reader == s.reader && t.framePending == s.framePending && t.sawFirst == s.sawFirst
      && t.bytesIn == s.bytesIn && t.sent == s.sent
    case Decoder => t.decoder == s.decoder && t.opusPending == s.opusPending && s.encoded <= t.encoded
    case Playback => t.playback == s.playback && t.played == s.played && s.pcm <= t.pcm
  }

  lemma LeavesItself(self: Task, s: State)
    ensures Leaves(self, s, s)
  {
  }

  lemma ReaderLeaves(cfg: Config, u: State, a: ReaderAction, t: State)
    requires ReaderStep(cfg, u, a, t)
    ensures Leaves(Decoder, u, t) && Leaves(Playback, u, t)
  {
    hide Cut, FinalCode, PayloadBytes;
    match a
    case Read(_) => case SendPacket => case SendTimeout => case SendDone => case ReadFails =>
    case ReadEnd => case PostTerminal => case TerminalLost => case Join => case JoinTimeout =>
  }

  lemma DecoderLeaves(cfg: Config, u: State, a: DecoderAction, t: State)
    requires DecoderStep(cfg, u, a, t)
    ensures Leaves(Reader, u, t) && Leaves(Playback, u, t)
  {
    hide InnerPcm, DropInner;
    match a
    case TakeEncoded => case AppendFails => case Starve => case RejectInner => case SkipSilent => case DecodeOne =>
    case EmitPcm => case EmitTimeout => case SendTerminal => case TerminalTimeout =>
  }

  lemma PlaybackLeaves(cfg: Config, u: State, a: PlaybackAction, t: State)
    requires PlaybackStep(cfg, u, a, t)
    ensures Leaves(Reader, u, t) && Leaves(Decoder, u, t)
  {
    match a
    case TakePcm => case Callback(_) =>
  }

  lemma OthersLeave(cfg: Config, self: Task, s: State, u: State, step: Step, t: State)
    requires Leaves(self, s, u) && Next(cfg, u, step, t) && Actor(step) != self
    ensures Leaves(self, s, t)
  {
    hide ReaderStep, DecoderStep, PlaybackStep;
    match step
    case ByReader(a) => ReaderLeaves(cfg, u, a, t);
    case ByDecoder(a) => DecoderLeaves(cfg, u, a, t);
    case ByPlayback(a) => PlaybackLeaves(cfg, u, a, t);
  }

  /** The stream: the shared state, and how often the scheduler will still let the current
      task run. */
  class Pipeline {
    const cfg: Config
    var s: State
    var turns: nat
    ghost var states: seq<State>
    ghost var steps: seq<Step>

    ghost predicate Valid()
      reads this
    {
      Run(cfg, states, steps) && s == states[|steps|]
    }

    constructor (c: Config, budget: nat)
      ensures Valid() && cfg == c && turns == budget && s == Init()
    {
      cfg, s, turns, states, steps := c, Init(), budget, [Init()], [];
    }

    method Do(step: Step, t: State)
      requires Valid() && Next(cfg, s, step, t)
      modifies this`s, this`states, this`steps
      ensures Valid() && s == t && steps == old(steps) + [step]
    {
      hide Next, Run;
      RunIsIndexed(cfg, states, steps);
      ghost var longer, more := Extend(cfg, states, steps, step, t);
      s, states, steps := t, longer, more;
      RunIsIndexed(cfg, states, steps);
    }

    /** Any number of actions of the other tasks. False when `self` never runs again. */
    method Yield(self: Task) returns (scheduled: bool)
      requires Valid()
      modifies this
      ensures Valid() && Leaves(self, old(s), s)
      ensures turns <= old(turns) && (scheduled ==> turns < old(turns))
      ensures !scheduled ==> turns == 0
      ensures forall step :: step in steps && Actor(step) == self ==> step in old(steps)
    {
      hide Next, Run, Leaves;
      LeavesItself(self, s);
      if turns == 0 {
        return false;
      }
      turns := turns - 1;
      var others: nat :| others >= 0;
      for i := 0 to others
        invariant Valid() && Leaves(self, old(s), s) && turns < old(turns)
        invariant forall step :: step in steps && Actor(step) == self ==> step in old(steps)
      {
        var step: Step := *;
        var t: State := *;
        if Actor(step) != self && Next(cfg, s, step, t) {
          OthersLeave(cfg, self, old(s), s, step, t);
          Do(step, t);
        }
      }
      return true;
    }
  }

  lemma RunIsIndexed(cfg: Config, states: seq<State>, steps: seq<Step>)
    ensures Run(cfg, states, steps) ==> |states| == |steps| + 1
  {
  }

  // ---------------------------------------------------------------- playback

  method RunPlayback(p: Pipeline) returns (running: bool)
    requires p.Valid() && p.s.playbackAlive && !p.s.playback.PlaybackDone?
    modifies p
    ensures p.Valid() && p.turns <= old(p.turns)
    ensures running ==> p.turns < old(p.turns) && p.s.playbackAlive && p.s.playback == old(p.s.playback) &&
                        p.s.played == old(p.s.played) && old(p.s.pcm) <= p.s.pcm
    ensures !running ==> p.turns == 0 || !p.s.playbackAlive
  {
    var scheduled := p.Yield(Playback);
    return scheduled && p.s.playbackAlive;
  }

  function AfterTakePcm(s: State): State
    requires s.pcm != []
  {
    s.(playback := if s.pcm[0].Data? then Calling(s.pcm[0].bytes) else PlaybackDone,
       pcm := s.pcm[1..], eofPlayed := s.pcm[0].Eof?,
       playbackResult := if s.pcm[0].Fault? then EspError else EspOk)
  }

  function AfterCallback(s: State, accepted: bool): State
    requires s.playback.Calling?
  {
    s.(playback := if accepted then Listening else PlaybackDone,
       played := if accepted then s.played + s.playback.bytes else s.played,
       playbackResult := if accepted then EspOk else EspError, fault := s.fault || !accepted)
  }

  /** `cloud_playback_task`: it ends at a marker or at a refused callback. */
  method PlaybackTask(p: Pipeline) returns (finished: bool)
    requires p.Valid() && p.s.playbackAlive && p.s.playback.Listening?
    modifies p
    ensures p.Valid() && (finished ==> p.s.playback.PlaybackDone?)
    ensures !finished ==> p.turns == 0 || !p.s.playbackAlive
  {
    hide Run;
    while true
      invariant p.Valid() && p.s.playbackAlive && p.s.playback.Listening?
      decreases p.turns
    {
      var running := RunPlayback(p);
      if !running { return false; }
      if p.s.pcm == [] {
        continue;
      }
      var item := p.s.pcm[0];
      p.Do(ByPlayback(TakePcm), AfterTakePcm(p.s));
      if !item.Data? {
        return true;
      }
      running := RunPlayback(p);
      if !running { return false; }
      var accepted: bool := *;
      p.Do(ByPlayback(Callback(accepted)), AfterCallback(p.s, accepted));
      if !accepted {
        return true;
      }
    }
  }

  // ---------------------------------------------------------------- decoder

  method RunDecoder(p: Pipeline) returns (running: bool)
    requires p.Valid() && p.s.decoderAlive && !p.s.decoder.DecodeDone?
    modifies p
    ensures p.Valid() && p.turns <= old(p.turns)
    ensures running ==> p.turns < old(p.turns) && p.s.decoderAlive && p.s.decoder == old(p.s.decoder) &&
                        p.s.opusPending == old(p.s.opusPending) && old(p.s.encoded) <= p.s.encoded
    ensures !running ==> p.turns == 0 || !p.s.decoderAlive
  {
    var scheduled := p.Yield(Decoder);
    return scheduled && p.s.decoderAlive;
  }

  /** A task goes on, has a fault to report, or never runs again. */
  datatype Outcome = Going | Failing | Vanished

  function AfterEmit(cfg: Config, s: State): State
    requires s.decoder.Emit? && (cfg.opus ==> CompleteInner(s.opusPending))
  {
    s.(decoder := if cfg.opus then Inner else Idle, pcm := s.pcm + [Data(s.decoder.pcm)], out := s.out + s.decoder.pcm,
       opusPending := if cfg.opus then DropInner(s.opusPending) else s.opusPending)
  }

  /** `xQueueSend` of a decoded chunk: it waits for room, up to a timeout. */
  method EmitChunk(p: Pipeline) returns (r: Outcome)
    requires p.Valid() && p.s.decoderAlive && p.s.decoder.Emit? && (p.cfg.opus ==> CompleteInner(p.s.opusPending))
    modifies p
    ensures p.Valid() && p.turns <= old(p.turns) && (!r.Vanished? ==> p.s.decoderAlive && p.turns < old(p.turns))
    ensures r.Going? ==> p.s.decoder == (if p.cfg.opus then Inner else Idle)
    ensures r.Going? && p.cfg.opus ==> p.s.opusPending == DropInner(old(p.s.opusPending))
    ensures r.Failing? ==> p.s.decoder == Forward(Fault)
    ensures r.Vanished? ==> p.turns == 0 || !p.s.decoderAlive
  {
    hide Run;
    while true
      invariant p.Valid() && p.s.decoderAlive && p.s.decoder.Emit? && p.s.opusPending == old(p.s.opusPending)
      invariant p.turns <= old(p.turns)
      decreases p.turns
    {
      var running := RunDecoder(p);
      if !running { return Vanished; }
      var timeout: bool := *;
      if timeout {
        p.Do(ByDecoder(EmitTimeout), p.s.(decoder := Forward(Fault), fault := true));
        return Failing;
      }
      if |p.s.pcm| < p.cfg.pcmSlots {
        p.Do(ByDecoder(EmitPcm), AfterEmit(p.cfg, p.s));
        return Going;
      }
    }
  }

  lemma CanStarve(cfg: Config, s: State)
    requires s.decoderAlive && s.decoder.Inner? && |s.opusPending| < 2
    ensures Next(cfg, s, ByDecoder(Starve), s.(decoder := Idle))
  {
  }

  /** The packet at the front: decoded and handed on, rejected, or not all there yet. */
  method DecodeFront(p: Pipeline) returns (r: Outcome, complete: bool)
    requires p.Valid() && p.cfg.opus && p.s.decoderAlive && p.s.decoder.Inner? && |p.s.opusPending| >= 2
    modifies p
    ensures p.Valid() && p.turns <= old(p.turns) && (!r.Vanished? ==> p.s.decoderAlive)
    ensures r.Going? && complete ==> p.s.decoder.Inner? && |p.s.opusPending| < |old(p.s.opusPending)|
    ensures r.Going? && !complete ==> p.s.decoder.Idle? && !CompleteInner(p.s.opusPending)
    ensures r.Failing? ==> p.s.decoder == Forward(Fault)
    ensures r.Vanished? ==> p.turns == 0 || !p.s.decoderAlive
  {
    hide Run, ReaderStep, PlaybackStep;
    var pending := p.s.opusPending;
    var packetLen := FromBe16(pending[..2]);
    complete := true;
    if packetLen == 0 {
      p.Do(ByDecoder(RejectInner), p.s.(decoder := Forward(Fault), fault := true));
      return Failing, complete;
    }
    if |pending| < packetLen + 2 {
      p.Do(ByDecoder(Starve), p.s.(decoder := Idle));
      return Going, false;
    }
    var pcm := p.cfg.decode(pending[2..2 + packetLen]);
    if pcm.None? {
      p.Do(ByDecoder(RejectInner), p.s.(decoder := Forward(Fault), fault := true));
      return Failing, complete;
    }
    if pcm.value == [] {
      p.Do(ByDecoder(SkipSilent), p.s.(opusPending := DropInner(pending)));
      r := Going;
    } else {
      p.Do(ByDecoder(DecodeOne), p.s.(decoder := Emit(InnerPcm(p.cfg, pending))));
      r := EmitChunk(p);
    }
  }

  /** `cloud_decode_opus_pending_packets` inside the task. */
  method DecodePending(p: Pipeline) returns (r: Outcome)
    requires p.Valid() && p.cfg.opus && p.s.decoderAlive && p.s.decoder.Inner?
    modifies p
    ensures p.Valid() && p.turns <= old(p.turns) && (!r.Vanished? ==> p.s.decoderAlive)
    ensures r.Going? ==> p.s.decoder.Idle? && (|p.s.opusPending| < 2 || !CompleteInner(p.s.opusPending))
    ensures r.Failing? ==> p.s.decoder == Forward(Fault)
    ensures r.Vanished? ==> p.turns == 0 || !p.s.decoderAlive
  {
    hide Run, Next, CompleteInner;
    while |p.s.opusPending| >= 2
      invariant p.Valid() && p.s.decoderAlive && p.s.decoder.Inner? && p.turns <= old(p.turns)
      decreases |p.s.opusPending|
    {
      var complete;
      r, complete := DecodeFront(p);
      if !r.Going? || !complete { return; }
    }
    CanStarve(p.cfg, p.s);
    p.Do(ByDecoder(Starve), p.s.(decoder := Idle));
    return Going;
  }

  function AfterTerminal(s: State): State
    requires s.decoder.Forward?
  {
    s.(decoder := DecodeDone, pcm := s.pcm + [s.decoder.item], decodeResult := EspOk,
       eofForwarded := s.decoder.item.Eof?)
  }

  /** `cloud_forward_terminal_packet`. */
  method ForwardTerminal(p: Pipeline) returns (finished: bool)
    requires p.Valid() && p.s.decoderAlive && p.s.decoder.Forward?
    modifies p
    ensures p.Valid() && (finished ==> p.s.decoder.DecodeDone?)
    ensures !finished ==> p.turns == 0 || !p.s.decoderAlive
  {
    hide Run;
    while true
      invariant p.Valid() && p.s.decoderAlive && p.s.decoder.Forward?
      decreases p.turns
    {
      var running := RunDecoder(p);
      if !running { return false; }
      var timeout: bool := *;
      if timeout {
        p.Do(ByDecoder(TerminalTimeout), p.s.(decoder := DecodeDone, decodeResult := EspError, fault := true));
        return true;
      }
      if |p.s.pcm| < p.cfg.pcmSlots {
        p.Do(ByDecoder(SendTerminal), AfterTerminal(p.s));
        return true;
      }
    }
  }

  function AfterTakeEncoded(cfg: Config, s: State): State
    requires s.encoded != []
  {
    s.(decoder := AfterTake(cfg, s.encoded[0]), encoded := s.encoded[1..], fed := s.fed + Payload(s.encoded[0]),
       opusPending := if cfg.opus then s.opusPending + Payload(s.encoded[0]) else s.opusPending,
       eofTaken := s.eofTaken || s.encoded[0].Eof?)
  }

  /** One packet from the first queue. */
  method DecodeItem(p: Pipeline) returns (r: Outcome)
    requires p.Valid() && p.s.decoderAlive && p.s.decoder.Idle? && p.s.encoded != []
    modifies p
    ensures p.Valid() && p.turns <= old(p.turns) && (!r.Vanished? ==> p.s.decoderAlive)
    ensures r.Going? ==> p.s.decoder.Idle?
    ensures r.Failing? ==> p.s.decoder.Forward?
    ensures r.Vanished? ==> p.turns == 0 || !p.s.decoderAlive
  {
    hide Run;
    var item := p.s.encoded[0];
    var noMemory: bool := *;
    if item.Data? && noMemory {
      p.Do(ByDecoder(AppendFails), AfterAppendFails(p.s));
      return Failing;
    }
    TakeItem(p);
    if !item.Data? {
      return Failing;
    }
    if p.cfg.opus {
      r := DecodePending(p);
    } else {
      r := EmitChunk(p);
    }
  }

  function AfterAppendFails(s: State): State
    requires s.encoded != []
  {
    s.(decoder := Forward(Fault), encoded := s.encoded[1..], fault := true, fed := s.fed + Payload(s.encoded[0]))
  }

  method TakeItem(p: Pipeline)
    requires p.Valid() && p.s.decoderAlive && p.s.decoder.Idle? && p.s.encoded != []
    modifies p
    ensures p.Valid() && p.turns == old(p.turns) && p.s.decoderAlive
    ensures p.s.decoder == AfterTake(p.cfg, old(p.s.encoded)[0])
  {
    hide Run;
    p.Do(ByDecoder(TakeEncoded), AfterTakeEncoded(p.cfg, p.s));
  }

  /** `cloud_decode_task`: it ends by handing on a marker. */
  method DecodeTask(p: Pipeline) returns (finished: bool)
    requires p.Valid() && p.s.decoderAlive && p.s.decoder.Idle?
    modifies p
    ensures p.Valid() && (finished ==> p.s.decoder.DecodeDone?)
    ensures !finished ==> p.turns == 0 || !p.s.decoderAlive
  {
    hide Run;
    while true
      invariant p.Valid() && p.s.decoderAlive && p.s.decoder.Idle?
      decreases p.turns
    {
      var running := RunDecoder(p);
      if !running { return false; }
      if p.s.encoded == [] {
        continue;
      }
      var r := DecodeItem(p);
      if r.Vanished? { return false; }
      if r.Failing? {
        finished := ForwardTerminal(p);
        return;
      }
    }
  }

  // ---------------------------------------------------------------- reader

  ghost predicate ReadFailed(p: Pipeline)
    reads p
  {
    ByReader(ReadFails) in p.steps
  }

  method RunReader(p: Pipeline) returns (running: bool)
    requires p.Valid()
    modifies p
    ensures p.Valid() && p.turns <= old(p.turns) && Leaves(Reader, old(p.s), p.s)
    ensures running ==> p.turns < old(p.turns)
    ensures !running ==> p.turns == 0
    ensures ReadFailed(p) ==> old(ReadFailed(p))
  {
    hide Run;
    running := p.Yield(Reader);
  }

  function AfterSend(s: State): State
    requires s.reader.Sending? && s.reader.left != []
  {
    var first := s.reader.left[0].payload;
    s.(reader := Sending(s.reader.left[1..]), sawFirst := true,
       encoded := s.encoded + [Data(first)], sent := s.sent + first)
  }

  /** The packets of one read go into the first queue, each waiting for room up to a timeout. */
  method SendPackets(p: Pipeline) returns (r: Outcome)
    requires p.Valid() && p.s.reader.Sending?
    modifies p
    ensures p.Valid() && p.turns <= old(p.turns) && p.s.bytesIn == old(p.s.bytesIn)
    ensures r.Going? ==> p.s.reader.Reading?
    ensures r.Failing? ==> p.s.reader == Ended(EspError) && p.s.fault
    ensures r.Vanished? ==> p.turns == 0
    ensures ReadFailed(p) ==> old(ReadFailed(p))
  {
    hide Run;
    while p.s.reader.left != []
      invariant p.Valid() && p.s.reader.Sending? && p.turns <= old(p.turns) && p.s.bytesIn == old(p.s.bytesIn)
      invariant ReadFailed(p) ==> old(ReadFailed(p))
      decreases p.turns
    {
      var running := RunReader(p);
      if !running { return Vanished; }
      var timeout: bool := *;
      if timeout {
        p.Do(ByReader(SendTimeout), p.s.(reader := Ended(EspError), sawFirst := true, fault := true));
        return Failing;
      }
      if |p.s.encoded| < p.cfg.encodedSlots {
        p.Do(ByReader(SendPacket), AfterSend(p.s));
      }
    }
    p.Do(ByReader(SendDone), p.s.(reader := Reading));
    return Going;
  }

  function AfterRead(cfg: Config, s: State, chunk: seq<Byte>): State {
    s.(reader := Sending(Cut(cfg, s, chunk).packets), framePending := Cut(cfg, s, chunk).rest,
       bytesIn := s.bytesIn + chunk, received := s.received + PayloadBytes(Cut(cfg, s, chunk).packets))
  }

  /** One successful read. */
  method ReadChunk(p: Pipeline, bytes: seq<Byte>) returns (r: Outcome)
    requires p.Valid() && p.s.reader.Reading?
    modifies p
    ensures p.Valid() && p.turns <= old(p.turns)
    ensures p.s.bytesIn == old(p.s.bytesIn) + bytes
    ensures r.Going? ==> p.s.reader.Reading?
    ensures r.Failing? ==> p.s.reader == Ended(EspError) && p.s.fault
    ensures r.Vanished? ==> p.turns == 0
    ensures ReadFailed(p) ==> old(ReadFailed(p))
  {
    hide Run, Cut, PayloadBytes;
    if bytes == [] {
      return Going;
    }
    p.Do(ByReader(Read(bytes)), AfterRead(p.cfg, p.s, bytes));
    r := SendPackets(p);
  }

  /** The reading loop; the recorded reads end with the silence that times out. It ends without
      error only if the body was complete, and has then read all of it; it ends with an error
      only if the body was not complete, the first queue stayed full, or half a frame is left. */
  method ReadBody(p: Pipeline, responses: seq<HttpRead>) returns (running: bool)
    requires p.Valid() && p.s.reader.Reading?
    modifies p
    ensures p.Valid() && (running ==> p.s.reader.Ended?)
    ensures running && p.s.reader.result == EspOk ==>
              Completes(responses) && p.s.bytesIn == old(p.s.bytesIn) + Body(responses)
    ensures running && p.s.reader.result == EspError ==>
              !Completes(responses) || p.s.fault || (p.cfg.framed && Parse(p.s.bytesIn).rest != [])
    ensures ReadFailed(p) && !old(ReadFailed(p)) ==> !Completes(responses)
    ensures !running ==> p.turns == 0
  {
    hide Run, Cut, PayloadBytes, Parse, Body, Completes;
    NoBody();
    ghost var whole := p.s.bytesIn + Body(responses);
    assert responses[0..] == responses;
    for i := 0 to |responses|
      invariant p.Valid() && p.s.reader.Reading?
      invariant whole == p.s.bytesIn + Body(responses[i..]) && (Completes(responses) <==> Completes(responses[i..]))
      invariant ReadFailed(p) ==> old(ReadFailed(p))
    {
      running := RunReader(p);
      if !running { return; }
      BodyStep(responses, i);
      match responses[i] {
        case Chunk(bytes) =>
          assert (p.s.bytesIn + bytes) + Body(responses[i + 1..]) ==
                 p.s.bytesIn + (bytes + Body(responses[i + 1..]));
          var r := ReadChunk(p, bytes);
          if !r.Going? {
            return r.Failing?;
          }
        case Stall =>
          assert [] + Body(responses[i + 1..]) == Body(responses[i + 1..]);
        case Broken =>
          EndBody(p, false);
          return true;
        case BodyEnd =>
          EndBody(p, true);
          assert p.s.bytesIn + [] == p.s.bytesIn;
          return true;
      }
    }
    assert responses[|responses|..] == [];
    EndBody(p, false);
    return true;
  }

  /** The end of the body, or of the patience with it; half a frame left over is an error. */
  method EndBody(p: Pipeline, complete: bool)
    requires p.Valid() && p.s.reader.Reading?
    modifies p
    ensures p.Valid() && p.s.reader.Ended? && p.s.bytesIn == old(p.s.bytesIn)
    ensures p.s.reader.result == EspOk <==> complete && (p.cfg.framed ==> Parse(p.s.bytesIn).rest == [])
    ensures ReadFailed(p) ==> old(ReadFailed(p)) || !complete
  {
    hide Run, Next, Parse;
    PendingIsRest(p.cfg, p.states, p.steps);
    CanEnd(p.cfg, p.s, complete);
    p.Do(ByReader(if complete then ReadEnd else ReadFails), AfterEnd(p.cfg, p.s, complete));
  }

  lemma PendingIsRest(cfg: Config, states: seq<State>, steps: seq<Step>)
    requires Run(cfg, states, steps)
    ensures |states| == |steps| + 1
    ensures cfg.framed ==> states[|steps|].framePending == Parse(states[|steps|].bytesIn).rest
  {
    RunKeeps(cfg, states, steps, |steps|);
  }

  function AfterEnd(cfg: Config, s: State, complete: bool): State {
    s.(reader := Ended(if complete && (!cfg.framed || s.framePending == []) then EspOk else EspError))
  }

  lemma CanEnd(cfg: Config, s: State, complete: bool)
    requires s.reader.Reading?
    ensures Next(cfg, s, ByReader(if complete then ReadEnd else ReadFails), AfterEnd(cfg, s, complete))
  {
  }

  function AfterPost(s: State): State
    requires s.reader.Ended?
  {
    s.(reader := Joining(s.reader.result), eofSent := s.reader.result == EspOk,
       encoded := s.encoded + [if s.reader.result == EspOk then Eof else Fault])
  }

  /** The marker goes into the first queue, or is lost. */
  method PostMarker(p: Pipeline) returns (running: bool)
    requires p.Valid() && p.s.reader.Ended?
    modifies p
    ensures p.Valid() && (running ==> p.s.reader.Joining?) && p.s.bytesIn == old(p.s.bytesIn)
    ensures running && old(p.s.reader.result) == EspError ==> p.s.reader == Joining(EspError)
    ensures !running ==> p.turns == 0
    ensures ReadFailed(p) ==> old(ReadFailed(p))
  {
    hide Run, Next;
    while true
      invariant p.Valid() && p.s.reader == old(p.s.reader) && p.s.bytesIn == old(p.s.bytesIn)
      invariant ReadFailed(p) ==> old(ReadFailed(p))
      decreases p.turns
    {
      running := RunReader(p);
      if !running { return; }
      var timeout: bool := *;
      if timeout {
        CanPost(p.cfg, p.s);
        p.Do(ByReader(TerminalLost), p.s.(reader := Joining(EspError)));
        return true;
      }
      if |p.s.encoded| < p.cfg.encodedSlots {
        CanPost(p.cfg, p.s);
        p.Do(ByReader(PostTerminal), AfterPost(p.s));
        return true;
      }
    }
  }

  lemma CanPost(cfg: Config, s: State)
    requires s.reader.Ended?
    ensures Next(cfg, s, ByReader(TerminalLost), s.(reader := Joining(EspError)))
    ensures |s.encoded| < cfg.encodedSlots ==> Next(cfg, s, ByReader(PostTerminal), AfterPost(s))
  {
  }

  function AfterJoinTimeout(cfg: Config, s: State): State {
    s.(reader := Returned(FinalCode(cfg, s, EspError)), decoderAlive := s.decoder.DecodeDone?,
       playbackAlive := s.playback.PlaybackDone?)
  }

  /** Waits for both tasks, up to a timeout that deletes them. */
  method JoinTasks(p: Pipeline) returns (returned: bool)
    requires p.Valid() && p.s.reader.Joining?
    modifies p
    ensures p.Valid() && (returned ==> p.s.reader.Returned?) && p.s.bytesIn == old(p.s.bytesIn)
    ensures returned && p.s.reader.code == EspOk ==> old(p.s.reader.result) == EspOk
    ensures !returned ==> p.turns == 0
    ensures ReadFailed(p) ==> old(ReadFailed(p))
  {
    hide Run, Next, FinalCode;
    while true
      invariant p.Valid() && p.s.reader == old(p.s.reader) && p.s.bytesIn == old(p.s.bytesIn)
      invariant ReadFailed(p) ==> old(ReadFailed(p))
      decreases p.turns
    {
      var running := RunReader(p);
      if !running { return false; }
      if p.s.decoder.DecodeDone? && p.s.playback.PlaybackDone? {
        CanJoin(p.cfg, p.s);
        p.Do(ByReader(Join), p.s.(reader := Returned(FinalCode(p.cfg, p.s, p.s.reader.result))));
        return true;
      }
      var timeout: bool := *;
      if timeout {
        CanJoin(p.cfg, p.s);
        p.Do(ByReader(JoinTimeout), AfterJoinTimeout(p.cfg, p.s));
        return true;
      }
    }
  }

  lemma CanJoin(cfg: Config, s: State)
    requires s.reader.Joining?
    ensures var over := s.decoder.DecodeDone? && s.playback.PlaybackDone?;
            if over then Next(cfg, s, ByReader(Join), s.(reader := Returned(FinalCode(cfg, s, s.reader.result))))
            else Next(cfg, s, ByReader(JoinTimeout), AfterJoinTimeout(cfg, s))
    ensures FinalCode(cfg, s, s.reader.result) == EspOk ==> s.reader.result == EspOk
    ensures FinalCode(cfg, s, EspError) == EspError
  {
  }

  /** A timeout, missing memory, a refused callback or a lost marker. */
  ghost predicate Hindered(steps: seq<Step>) {
    exists step :: step in steps && Interferes(step) && step != ByReader(ReadFails)
  }

  /** `cloud_client_stream_realtime_audio` from its first read on: if it returns ESP_OK, the
      body was complete and the callback has been given exactly what it carried. It returns an
      error only if the body was not complete, nothing was in it, it ended inside a frame, an
      inner packet was bad, or something hindered the tasks. */
  method StreamRealtimeAudio(p: Pipeline, responses: seq<HttpRead>) returns (returned: bool, code: Code)
    requires p.Valid() && p.s.reader.Reading?
    modifies p
    ensures p.Valid() && (returned ==> p.s.reader == Returned(code))
    ensures returned && code == EspOk ==>
              && Completes(responses) && p.s.bytesIn == old(p.s.bytesIn) + Body(responses)
              && p.s.played == Expected(p.cfg, p.s.bytesIn) && !p.s.fault
              && (p.cfg.framed ==> Parse(p.s.bytesIn).rest == [])
    ensures returned && code == EspError ==>
              || !Completes(responses) || NothingReceived(p.cfg, p.s.bytesIn)
              || (p.cfg.framed && Parse(p.s.bytesIn).rest != [])
              || (p.cfg.opus && DecodeInner(p.cfg, ReceivedBytes(p.cfg, p.s.bytesIn)).bad)
              || Hindered(p.steps)
    ensures p.s.played <= Expected(p.cfg, p.s.bytesIn)
    ensures !returned ==> p.turns == 0
  {
    hide Run, Expected, Parse, Body, Completes, Hindered, NothingReceived, DecodeInner, ReceivedBytes;
    PlayedSoFar(p.cfg, p.states, p.steps);
    NoFailedReadYet(p.cfg, p.states, p.steps);
    code := EspError;
    returned := ReadBody(p, responses);
    if returned {
      returned := PostMarker(p);
    }
    if returned {
      returned := JoinTasks(p);
    }
    PlayedSoFar(p.cfg, p.states, p.steps);
    if returned {
      code := p.s.reader.code;
      if code == EspOk {
        DeliveredAll(p.cfg, p.states, p.steps);
      } else {
        ErrorHasCause(p.cfg, p.states, p.steps);
      }
    }
  }

  lemma NoFailedReadYet(cfg: Config, states: seq<State>, steps: seq<Step>)
    requires Run(cfg, states, steps) && states[|steps|].reader.Reading?
    ensures ByReader(ReadFails) !in steps
  {
    hide Next;
    NoFailedRead(cfg, states, steps, |steps|);
    assert steps[..|steps|] == steps;
  }

  lemma ErrorHasCause(cfg: Config, states: seq<State>, steps: seq<Step>)
    requires Run(cfg, states, steps) && states[|steps|].reader == Returned(EspError)
    ensures var bytesIn := states[|steps|].bytesIn;
            || ByReader(ReadFails) in steps || Hindered(steps) || NothingReceived(cfg, bytesIn)
            || (cfg.framed && Parse(bytesIn).rest != [])
            || (cfg.opus && DecodeInner(cfg, ReceivedBytes(cfg, bytesIn)).bad)
  {
    hide Next, Parse, DecodeInner, ReceivedBytes, NothingReceived, Interferes;
    OkExactlyWhen(cfg, states, steps, |steps|);
    if k :| 0 <= k < |steps| && Interferes(steps[k]) {
      assert steps[k] in steps;
    }
  }

  lemma PlayedSoFar(cfg: Config, states: seq<State>, steps: seq<Step>)
    requires Run(cfg, states, steps)
    ensures |states| == |steps| + 1 && states[|steps|].played <= Expected(cfg, states[|steps|].bytesIn)
  {
    PlayedIsPrefix(cfg, states, steps, |steps|);
  }

  lemma DeliveredAll(cfg: Config, states: seq<State>, steps: seq<Step>)
    requires Run(cfg, states, steps) && states[|steps|].reader == Returned(EspOk)
    ensures var s := states[|steps|];
            s.played == Expected(cfg, s.bytesIn) && !s.fault && (cfg.framed ==> Parse(s.bytesIn).rest == [])
  {
    OkMeansExactDelivery(cfg, states, steps, |steps|);
  }
}
