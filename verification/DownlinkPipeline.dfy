/** The audio downlink: an HTTP reader, a decoder task and a playback task joined by two
    bounded queues, with end-of-stream and error markers travelling in band. Any queue
    send may time out, any decode or callback may fail, and the join may time out. */
module DownlinkPipeline {
  import opened Bytes
  import opened FramedV1

  /** Stream format and queue lengths; `decode` stands for the Opus decoder. */
  datatype Config = Config(framed: bool, opus: bool, encodedSlots: nat, pcmSlots: nat,
                           decode: seq<Byte> -> Option<seq<Byte>>)

  datatype Code = EspOk | EspError

  datatype Item = Data(bytes: seq<Byte>) | Eof | Fault

  datatype ReaderAt =
    | Reading
    | Sending(left: seq<Packet>)
    | Ended(result: Code)
    | Joining(result: Code)
    | Returned(code: Code)

  datatype DecoderAt = Idle | Inner | Emit(pcm: seq<Byte>) | Forward(item: Item) | DecodeDone

  datatype PlaybackAt = Listening | Calling(bytes: seq<Byte>) | PlaybackDone

  datatype State = State(
    reader: ReaderAt, framePending: seq<Byte>, sawFirst: bool,
    encoded: seq<Item>,
    decoder: DecoderAt, decoderAlive: bool, opusPending: seq<Byte>, decodeResult: Code,
    pcm: seq<Item>,
    playback: PlaybackAt, playbackAlive: bool, playbackResult: Code,
    // history: bytes read from HTTP, payload bytes cut out of them, payload bytes that
    // entered the first queue, left it, entered the second queue, were played
    bytesIn: seq<Byte>, received: seq<Byte>, sent: seq<Byte>, fed: seq<Byte>, out: seq<Byte>, played: seq<Byte>,
    eofSent: bool, eofTaken: bool, eofForwarded: bool, eofPlayed: bool,
    fault: bool)

  function Init(): State {
    State(Reading, [], false, [], Idle, true, [], EspOk, [], Listening, true, EspOk,
          [], [], [], [], [], [], false, false, false, false, false)
  }

  // ---------------------------------------------------------------- reference meaning

  function PayloadBytes(ps: seq<Packet>): seq<Byte> {
    if ps == [] then [] else ps[0].payload + PayloadBytes(ps[1..])
  }

  /** The payload bytes of what HTTP delivered: all of it, or what is inside the frames. */
  function ReceivedBytes(cfg: Config, bytesIn: seq<Byte>): seq<Byte> {
    if cfg.framed then PayloadBytes(Parse(bytesIn).packets) else bytesIn
  }

  datatype Decoded = Decoded(pcm: seq<Byte>, rest: seq<Byte>, bad: bool)

  predicate CompleteInner(s: seq<Byte>) {
    2 <= |s| && 2 + FromBe16(s[..2]) <= |s|
  }

  function InnerLen(s: seq<Byte>): nat
    requires 2 <= |s|
  {
    FromBe16(s[..2])
  }

  /** The decodes of the complete inner packets of an Opus stream, and its residue; `bad`
      when a packet is empty or the decoder rejects it. */
  function DecodeInner(cfg: Config, s: seq<Byte>): Decoded
    decreases |s|
  {
    if 2 <= |s| && InnerLen(s) == 0 then Decoded([], s, true)
    else if !CompleteInner(s) then Decoded([], s, false)
    else
      var first := cfg.decode(s[2..2 + InnerLen(s)]);
      if first.None? then Decoded([], s, true)
      else
        var later := DecodeInner(cfg, s[2 + InnerLen(s)..]);
        Decoded(first.value + later.pcm, later.rest, later.bad)
  }

  /** What the callback should have been given: the payload bytes themselves, or the
      decodes of every complete inner packet in them. */
  function Expected(cfg: Config, bytesIn: seq<Byte>): seq<Byte> {
    var bytes := ReceivedBytes(cfg, bytesIn);
    if cfg.opus then DecodeInner(cfg, bytes).pcm else bytes
  }

  // ---------------------------------------------------------------- reader

  datatype ReaderAction =
    | Read(chunk: seq<Byte>)
    | SendPacket
    | SendTimeout
    | SendDone
    | ReadFails
    | ReadEnd
    | PostTerminal
    | TerminalLost
    | Join
    | JoinTimeout

  function Cut(cfg: Config, s: State, chunk: seq<Byte>): Parsed {
    if cfg.framed then Parse(s.framePending + chunk) else Parsed([Packet(0, chunk)], [])
  }

  /** End of the reader: the Opus residue is cleared before it is looked at. */
  function FinalCode(cfg: Config, s: State, streamResult: Code): Code {
    var cleaned := s.(opusPending := []);
    var result := if cfg.opus && cleaned.opusPending != [] && streamResult == EspOk then EspError else streamResult;
    if !s.sawFirst || result != EspOk || s.decodeResult != EspOk || s.playbackResult != EspOk then EspError
    else EspOk
  }

  /** `cloud_client_stream_realtime_audio` from the first read on. */
  predicate ReaderStep(cfg: Config, s: State, a: ReaderAction, t: State) {
    match a
    case Read(chunk) =>
      && s.reader.Reading? && chunk != []
      && t == s.(reader := Sending(Cut(cfg, s, chunk).packets), framePending := Cut(cfg, s, chunk).rest,
                 bytesIn := s.bytesIn + chunk, received := s.received + PayloadBytes(Cut(cfg, s, chunk).packets))
    case SendPacket =>
      && s.reader.Sending? && s.reader.left != [] && |s.encoded| < cfg.encodedSlots
      && t == s.(reader := Sending(s.reader.left[1..]), sawFirst := true,
                 encoded := s.encoded + [Data(s.reader.left[0].payload)], sent := s.sent + s.reader.left[0].payload)
    case SendTimeout =>
      && s.reader.Sending? && s.reader.left != []
      && t == s.(reader := Ended(EspError), sawFirst := true, fault := true)
    case SendDone =>
      s.reader.Sending? && s.reader.left == [] && t == s.(reader := Reading)
    case ReadFails =>
      s.reader.Reading? && t == s.(reader := Ended(EspError))
    case ReadEnd =>
      && s.reader.Reading?
      && t == s.(reader := Ended(if cfg.framed && s.framePending != [] then EspError else EspOk))
    case PostTerminal =>
      && s.reader.Ended? && |s.encoded| < cfg.encodedSlots
      && t == s.(reader := Joining(s.reader.result), eofSent := s.reader.result == EspOk,
                 encoded := s.encoded + [if s.reader.result == EspOk then Eof else Fault])
    case TerminalLost =>
      s.reader.Ended? && t == s.(reader := Joining(EspError))
    case Join =>
      && s.reader.Joining? && s.decoder.DecodeDone? && s.playback.PlaybackDone?
      && t == s.(reader := Returned(FinalCode(cfg, s, s.reader.result)))
    case JoinTimeout =>
      && s.reader.Joining? && !(s.decoder.DecodeDone? && s.playback.PlaybackDone?)
      && t == s.(reader := Returned(FinalCode(cfg, s, EspError)),
                 decoderAlive := s.decoder.DecodeDone?, playbackAlive := s.playback.PlaybackDone?)
  }

  // ---------------------------------------------------------------- decoder

  datatype DecoderAction =
    | TakeEncoded
    | AppendFails
    | Starve
    | RejectInner
    | SkipSilent
    | DecodeOne
    | EmitPcm
    | EmitTimeout
    | SendTerminal
    | TerminalTimeout

  function AfterTake(cfg: Config, item: Item): DecoderAt {
    match item
    case Data(bytes) => if cfg.opus then Inner else Emit(bytes)
    case Eof => Forward(Eof)
    case Fault => Forward(Fault)
  }

  function Payload(item: Item): seq<Byte> {
    if item.Data? then item.bytes else []
  }

  /** A complete inner packet the decoder accepts. */
  predicate Decodable(cfg: Config, s: seq<Byte>) {
    CompleteInner(s) && InnerLen(s) != 0 && cfg.decode(s[2..2 + InnerLen(s)]).Some?
  }

  function InnerPcm(cfg: Config, s: seq<Byte>): seq<Byte>
    requires Decodable(cfg, s)
  {
    cfg.decode(s[2..2 + InnerLen(s)]).value
  }

  function DropInner(s: seq<Byte>): seq<Byte>
    requires CompleteInner(s)
  {
    s[2 + InnerLen(s)..]
  }

  /** `cloud_decode_task`; in Opus mode `Inner` is `cloud_decode_opus_pending_packets`. */
  predicate DecoderStep(cfg: Config, s: State, a: DecoderAction, t: State) {
    s.decoderAlive &&
    match a
    case TakeEncoded =>
      && s.decoder.Idle? && s.encoded != []
      && t == s.(decoder := AfterTake(cfg, s.encoded[0]), encoded := s.encoded[1..],
                 fed := s.fed + Payload(s.encoded[0]),
                 opusPending := if cfg.opus then s.opusPending + Payload(s.encoded[0]) else s.opusPending,
                 eofTaken := s.eofTaken || s.encoded[0].Eof?)
    case AppendFails =>
      && s.decoder.Idle? && s.encoded != [] && s.encoded[0].Data?
      && t == s.(decoder := Forward(Fault), encoded := s.encoded[1..], fault := true,
                 fed := s.fed + Payload(s.encoded[0]))
    case Starve =>
      && s.decoder.Inner? && (|s.opusPending| < 2 || (InnerLen(s.opusPending) != 0 && !CompleteInner(s.opusPending)))
      && t == s.(decoder := Idle)
    case RejectInner =>
      && s.decoder.Inner? && 2 <= |s.opusPending|
      && (InnerLen(s.opusPending) == 0 || (CompleteInner(s.opusPending) && !Decodable(cfg, s.opusPending)))
      && t == s.(decoder := Forward(Fault), fault := true)
    case SkipSilent =>
      && s.decoder.Inner? && Decodable(cfg, s.opusPending) && InnerPcm(cfg, s.opusPending) == []
      && t == s.(opusPending := DropInner(s.opusPending))
    case DecodeOne =>
      && s.decoder.Inner? && Decodable(cfg, s.opusPending) && InnerPcm(cfg, s.opusPending) != []
      && t == s.(decoder := Emit(InnerPcm(cfg, s.opusPending)))
    case EmitPcm =>
      && s.decoder.Emit? && |s.pcm| < cfg.pcmSlots && (cfg.opus ==> CompleteInner(s.opusPending))
      && t == s.(decoder := if cfg.opus then Inner else Idle, pcm := s.pcm + [Data(s.decoder.pcm)],
                 out := s.out + s.decoder.pcm,
                 opusPending := if cfg.opus then DropInner(s.opusPending) else s.opusPending)
    case EmitTimeout =>
      s.decoder.Emit? && t == s.(decoder := Forward(Fault), fault := true)
    case SendTerminal =>
      && s.decoder.Forward? && |s.pcm| < cfg.pcmSlots
      && t == s.(decoder := DecodeDone, pcm := s.pcm + [s.decoder.item], decodeResult := EspOk,
                 eofForwarded := s.decoder.item.Eof?)
    case TerminalTimeout =>
      s.decoder.Forward? && t == s.(decoder := DecodeDone, decodeResult := EspError, fault := true)
  }

  // ---------------------------------------------------------------- playback

  datatype PlaybackAction = TakePcm | Callback(accepted: bool)

  /** `cloud_playback_task`. */
  predicate PlaybackStep(cfg: Config, s: State, a: PlaybackAction, t: State) {
    s.playbackAlive &&
    match a
    case TakePcm =>
      && s.playback.Listening? && s.pcm != []
      && t == s.(playback := if s.pcm[0].Data? then Calling(s.pcm[0].bytes) else PlaybackDone,
                 pcm := s.pcm[1..], eofPlayed := s.pcm[0].Eof?,
                 playbackResult := if s.pcm[0].Fault? then EspError else EspOk)
    case Callback(accepted) =>
      && s.playback.Calling?
      && t == s.(playback := if accepted then Listening else PlaybackDone,
                 played := if accepted then s.played + s.playback.bytes else s.played,
                 playbackResult := if accepted then EspOk else EspError, fault := s.fault || !accepted)
  }

  // ---------------------------------------------------------------- runs

  datatype Step = ByReader(r: ReaderAction) | ByDecoder(d: DecoderAction) | ByPlayback(p: PlaybackAction)

  predicate Next(cfg: Config, s: State, step: Step, t: State) {
    match step
    case ByReader(a) => ReaderStep(cfg, s, a, t)
    case ByDecoder(a) => DecoderStep(cfg, s, a, t)
    case ByPlayback(a) => PlaybackStep(cfg, s, a, t)
  }

  ghost predicate Run(cfg: Config, states: seq<State>, steps: seq<Step>) {
    && |states| == |steps| + 1 && states[0] == Init()
    && forall i :: 0 <= i < |steps| ==> Next(cfg, states[i], steps[i], states[i + 1])
  }

  // ---------------------------------------------------------------- invariants

  function QueueBytes(q: seq<Item>): seq<Byte> {
    if q == [] then [] else Payload(q[0]) + QueueBytes(q[1..])
  }

  ghost predicate AllData(q: seq<Item>) {
    forall i :: 0 <= i < |q| ==> q[i].Data?
  }

  /** Markers come last, and an end-of-stream marker is only there when `eof` says so. */
  ghost predicate WellMarked(q: seq<Item>, eof: bool) {
    forall i :: 0 <= i < |q| ==> q[i].Data? || (i == |q| - 1 && (q[i].Eof? ==> eof))
  }

  function InHand(s: State): seq<Byte> {
    if s.playback.Calling? then s.playback.bytes else []
  }

  /** The reader has given up: no end-of-stream marker will ever come from it. */
  predicate ReaderFailed(s: State) {
    s.reader == Ended(EspError) || ((s.reader.Joining? || s.reader.Returned?) && !s.eofSent)
  }

  predicate DecoderFailed(s: State) {
    s.decoder == Forward(Fault) || (s.decoder.DecodeDone? && !s.eofForwarded)
  }

  predicate PlaybackFailed(s: State) {
    s.playback.PlaybackDone? && s.playbackResult == EspError
  }

  /** The reader: what it cut out of the stream, and what of that is still to be sent. */
  ghost predicate ReaderInv(cfg: Config, s: State) {
    && s.received == ReceivedBytes(cfg, s.bytesIn) && s.sent <= s.received
    && s.framePending == (if cfg.framed then Parse(s.bytesIn).rest else [])
    && (s.reader.Sending? ==> s.sent + PayloadBytes(s.reader.left) == s.received)
    && (s.reader.Reading? || s.reader == Ended(EspOk) || s.eofSent ==> s.sent == s.received)
    && (s.reader == Ended(EspOk) || s.eofSent ==> s.framePending == [])
    && (s.eofSent ==> s.reader.Joining? || s.reader.Returned?)
  }

  /** The two queues lose nothing and keep the order. */
  ghost predicate Queues(s: State) {
    && s.fed + QueueBytes(s.encoded) == s.sent
    && s.played <= s.out
    && (!PlaybackFailed(s) ==> s.played + InHand(s) + QueueBytes(s.pcm) == s.out)
  }

  /** PCM of the bytes the decoder has taken. */
  function Meaning(cfg: Config, bytes: seq<Byte>): seq<Byte> {
    if cfg.opus then DecodeInner(cfg, bytes).pcm else bytes
  }

  /** Opus: what is decoded so far, followed by what the pending bytes will still give. */
  ghost predicate OpusInv(cfg: Config, s: State) {
    var later := DecodeInner(cfg, s.opusPending);
    && DecodeInner(cfg, s.fed) == Decoded(s.out + later.pcm, later.rest, later.bad)
    && (s.decoder.Emit? ==> Decodable(cfg, s.opusPending) && s.decoder.pcm == InnerPcm(cfg, s.opusPending))
    && (!s.decoder.Emit? && !s.decoder.Inner? ==> later == Decoded([], s.opusPending, false))
  }

  /** The decoder: what came out is what went in, or decodes to it. */
  ghost predicate DecoderInv(cfg: Config, s: State) {
    && s.out <= Meaning(cfg, s.fed)
    && (!DecoderFailed(s) ==>
          if cfg.opus then OpusInv(cfg, s)
          else !s.decoder.Inner? && s.fed == s.out + (if s.decoder.Emit? then s.decoder.pcm else []))
  }

  /** The markers: where the end of the stream is, and that no fault goes unnoticed. */
  ghost predicate Markers(s: State) {
    && WellMarked(s.encoded, s.eofSent) && WellMarked(s.pcm, s.eofForwarded)
    && (!s.reader.Joining? && !s.reader.Returned? ==> AllData(s.encoded))
    && (!s.decoder.DecodeDone? ==> AllData(s.pcm))
    && (s.decoder.Forward? ==> !s.decoder.item.Data? && (s.decoder.item.Eof? ==> s.eofTaken))
    && (s.eofTaken ==> s.eofSent && s.encoded == [])
    && (s.eofForwarded ==> s.eofTaken && s.decoder.DecodeDone?)
    && (s.eofPlayed ==> s.eofForwarded && s.pcm == [] && s.playback.PlaybackDone? && s.playbackResult == EspOk)
    && (s.playback.PlaybackDone? ==> s.playbackResult == EspError || s.eofPlayed)
    && (s.fault ==> ReaderFailed(s) || DecoderFailed(s) || PlaybackFailed(s))
    && (s.reader == Returned(EspOk) ==> s.eofPlayed)
    && (s.reader == Joining(EspOk) ==> s.eofSent)
  }

  ghost predicate Inv(cfg: Config, s: State) {
    ReaderInv(cfg, s) && Queues(s) && DecoderInv(cfg, s) && Markers(s)
  }

  // ---------------------------------------------------------------- byte lemmas

  lemma {:induction false} PayloadBytesAppend(a: seq<Packet>, b: seq<Packet>)
    ensures PayloadBytes(a + b) == PayloadBytes(a) + PayloadBytes(b)
  {
    if a == [] {
      assert a + b == b;
    } else {
      PayloadBytesAppend(a[1..], b);
      assert (a + b)[1..] == a[1..] + b;
      assert PayloadBytes(a + b) == a[0].payload + (PayloadBytes(a[1..]) + PayloadBytes(b));
    }
  }

  lemma QueueBytesPop(q: seq<Item>)
    requires q != []
    ensures QueueBytes(q) == Payload(q[0]) + QueueBytes(q[1..])
  {
  }

  lemma NothingQueued()
    ensures QueueBytes([]) == []
  {
  }

  lemma {:induction false} QueueBytesPush(q: seq<Item>, item: Item)
    ensures QueueBytes(q + [item]) == QueueBytes(q) + Payload(item)
    decreases |q|
  {
    hide QueueBytes;
    NothingQueued();
    QueueBytesPop(q + [item]);
    if q == [] {
      assert (q + [item])[1..] == [];
    } else {
      QueueBytesPop(q);
      QueueBytesPush(q[1..], item);
      assert (q + [item])[1..] == q[1..] + [item];
      assert Payload(q[0]) + (QueueBytes(q[1..]) + Payload(item)) == Payload(q[0]) + QueueBytes(q[1..]) + Payload(item);
    }
  }

  lemma DecodeStep(cfg: Config, s: seq<Byte>)
    ensures !Decodable(cfg, s) ==> DecodeInner(cfg, s).pcm == [] && DecodeInner(cfg, s).rest == s
    ensures Decodable(cfg, s) ==>
              var later := DecodeInner(cfg, DropInner(s));
              DecodeInner(cfg, s) == Decoded(InnerPcm(cfg, s) + later.pcm, later.rest, later.bad)
    ensures |s| < 2 || (InnerLen(s) != 0 && !CompleteInner(s)) ==> DecodeInner(cfg, s) == Decoded([], s, false)
  {
  }

  /** Decoding resumes from the residue as long as nothing was bad. */
  lemma {:induction false} DecodeAppend(cfg: Config, a: seq<Byte>, b: seq<Byte>)
    ensures !DecodeInner(cfg, a).bad ==>
              var later := DecodeInner(cfg, DecodeInner(cfg, a).rest + b);
              DecodeInner(cfg, a + b) == Decoded(DecodeInner(cfg, a).pcm + later.pcm, later.rest, later.bad)
    ensures DecodeInner(cfg, a).pcm <= DecodeInner(cfg, a + b).pcm
    decreases |a|
  {
    hide DecodeInner;
    DecodeStep(cfg, a);
    if Decodable(cfg, a) {
      assert (a + b)[..2] == a[..2];
      assert (a + b)[2..2 + InnerLen(a)] == a[2..2 + InnerLen(a)];
      assert DropInner(a + b) == DropInner(a) + b;
      DecodeStep(cfg, a + b);
      DecodeAppend(cfg, DropInner(a), b);
    }
  }

  lemma MeaningGrows(cfg: Config, a: seq<Byte>, b: seq<Byte>)
    requires a <= b
    ensures Meaning(cfg, a) <= Meaning(cfg, b)
  {
    assert b == a + b[|a|..];
    DecodeAppend(cfg, a, b[|a|..]);
  }

  // ---------------------------------------------------------------- the Opus residue buffer

  class OpusPending {
    const cfg: Config
    var pending: array<Byte>
    var pendingLen: nat

    constructor (c: Config, initial: seq<Byte>)
      ensures cfg == c && pendingLen <= pending.Length && Contents() == initial && fresh(pending)
    {
      cfg := c;
      pending := new Byte[|initial|](i requires 0 <= i < |initial| => initial[i]);
      pendingLen := |initial|;
    }

    ghost function Contents(): seq<Byte>
      reads this, pending
      requires pendingLen <= pending.Length
    {
      pending[..pendingLen]
    }

    /** `cloud_decode_opus_pending_packets`: decodes packet by packet and moves the rest of
        the buffer to the front each time. The callback takes `accepts` chunks before it
        refuses one; silent packets are not handed over. */
    method DecodePendingPackets(accepts: nat) returns (ok: bool, chunks: seq<seq<Byte>>)
      requires pendingLen <= pending.Length
      modifies this`pendingLen, pending
      ensures pendingLen <= pending.Length
      ensures ok ==> !DecodeInner(cfg, old(Contents())).bad
                     && Contents() == DecodeInner(cfg, old(Contents())).rest
                     && Concat(chunks) == DecodeInner(cfg, old(Contents())).pcm
      ensures !ok ==> Concat(chunks) <= DecodeInner(cfg, old(Contents())).pcm
      ensures !ok ==> DecodeInner(cfg, old(Contents())).bad || |chunks| == accepts
      ensures |chunks| <= accepts && forall i :: 0 <= i < |chunks| ==> chunks[i] != []
    {
      hide DecodeInner, Concat;
      chunks := [];
      ConcatNothing<Byte>();
      ghost var whole := DecodeInner(cfg, Contents());
      while pendingLen >= 2
        invariant pendingLen <= pending.Length
        invariant whole == After(Concat(chunks), DecodeInner(cfg, Contents()))
        invariant |chunks| <= accepts && forall i :: 0 <= i < |chunks| ==> chunks[i] != []
        decreases pendingLen
      {
        var view := pending[..pendingLen];
        DecodeStep(cfg, view);
        var packetLen := FromBe16(view[..2]);
        if packetLen == 0 {
          EmptyPacketIsBad(cfg, view);
          return false, chunks;
        }
        if pendingLen < packetLen + 2 {
          return true, chunks;
        }
        var frame := cfg.decode(view[2..2 + packetLen]);
        if frame.None? {
          RejectedPacketIsBad(cfg, view);
          return false, chunks;
        }
        PacketHandled(cfg, view, chunks);
        if frame.value != [] {
          if |chunks| == accepts {
            return false, chunks;
          }
          chunks := chunks + [frame.value];
        }
        CopyInto(pending, 0, view[2 + packetLen..]);
        pendingLen := pendingLen - (packetLen + 2);
        assert Contents() == view[2 + packetLen..];
      }
      DecodeStep(cfg, Contents());
      return true, chunks;
    }
  }

  /** A result that comes behind what was handed over before. */
  function After(before: seq<Byte>, d: Decoded): Decoded {
    d.(pcm := before + d.pcm)
  }

  lemma PacketHandled(cfg: Config, s: seq<Byte>, chunks: seq<seq<Byte>>)
    requires Decodable(cfg, s)
    ensures var all := if InnerPcm(cfg, s) == [] then chunks else chunks + [InnerPcm(cfg, s)];
            After(Concat(chunks), DecodeInner(cfg, s)) == After(Concat(all), DecodeInner(cfg, DropInner(s)))
  {
    hide DecodeInner, Concat;
    DecodeStep(cfg, s);
    ConcatSnoc(chunks, InnerPcm(cfg, s));
    var later := DecodeInner(cfg, DropInner(s)).pcm;
    assert Concat(chunks) + (InnerPcm(cfg, s) + later) == (Concat(chunks) + InnerPcm(cfg, s)) + later;
    assert InnerPcm(cfg, s) == [] ==> InnerPcm(cfg, s) + later == later;
  }

  lemma EmptyPacketIsBad(cfg: Config, s: seq<Byte>)
    requires 2 <= |s| && InnerLen(s) == 0
    ensures DecodeInner(cfg, s).bad
  {
  }

  lemma RejectedPacketIsBad(cfg: Config, s: seq<Byte>)
    requires CompleteInner(s) && cfg.decode(s[2..2 + InnerLen(s)]).None?
    ensures DecodeInner(cfg, s).bad
  {
  }

  // ---------------------------------------------------------------- preservation

  lemma InitInv(cfg: Config)
    ensures Inv(cfg, Init())
  {
    ParseIncomplete([]);
  }

  lemma ReadCuts(cfg: Config, s: State, chunk: seq<Byte>)
    requires s.received == ReceivedBytes(cfg, s.bytesIn)
    requires s.framePending == (if cfg.framed then Parse(s.bytesIn).rest else [])
    ensures s.received + PayloadBytes(Cut(cfg, s, chunk).packets) == ReceivedBytes(cfg, s.bytesIn + chunk)
    ensures Cut(cfg, s, chunk).rest == (if cfg.framed then Parse(s.bytesIn + chunk).rest else [])
  {
    hide Parse, PayloadBytes;
    if cfg.framed {
      ParseAppend(s.bytesIn, chunk);
      PayloadBytesAppend(Parse(s.bytesIn).packets, Parse(s.framePending + chunk).packets);
    } else {
      OnePayload(chunk);
    }
  }

  lemma OnePayload(chunk: seq<Byte>)
    ensures PayloadBytes([Packet(0, chunk)]) == chunk
  {
    assert PayloadBytes([Packet(0, chunk)][1..]) == [];
  }

  lemma PayloadStep(ps: seq<Packet>)
    ensures PayloadBytes(ps) == if ps == [] then [] else ps[0].payload + PayloadBytes(ps[1..])
  {
  }

  lemma ReaderKeepsReaderInv(cfg: Config, s: State, a: ReaderAction, t: State)
    requires ReaderInv(cfg, s) && ReaderStep(cfg, s, a, t)
    ensures ReaderInv(cfg, t)
  {
    hide Parse, PayloadBytes, ReceivedBytes, FinalCode, Cut;
    match a
    case Read(chunk) =>
      ReadCuts(cfg, s, chunk);
    case SendPacket =>
      var left := s.reader.left;
      PayloadStep(left);
      assert s.sent + (left[0].payload + PayloadBytes(left[1..])) ==
             (s.sent + left[0].payload) + PayloadBytes(left[1..]);
    case SendTimeout =>
    case SendDone =>
      PayloadStep(s.reader.left);
    case ReadFails =>
    case ReadEnd =>
    case PostTerminal =>
    case TerminalLost =>
    case Join =>
    case JoinTimeout =>
  }

  lemma ReaderKeepsQueues(cfg: Config, s: State, a: ReaderAction, t: State)
    requires Queues(s) && ReaderStep(cfg, s, a, t)
    ensures Queues(t)
  {
    hide Parse, PayloadBytes, QueueBytes, FinalCode, Cut;
    match a
    case Read(_) =>
    case SendPacket =>
      QueueBytesPush(s.encoded, Data(s.reader.left[0].payload));
    case SendTimeout =>
    case SendDone =>
    case ReadFails =>
    case ReadEnd =>
    case PostTerminal =>
      QueueBytesPush(s.encoded, if s.reader.result == EspOk then Eof else Fault);
    case TerminalLost =>
    case Join =>
    case JoinTimeout =>
  }

  lemma ReaderKeepsMarkers(cfg: Config, s: State, a: ReaderAction, t: State)
    requires Markers(s) && ReaderInv(cfg, s) && ReaderStep(cfg, s, a, t)
    ensures Markers(t)
  {
    hide Parse, PayloadBytes, ReceivedBytes, Cut;
    match a
    case Read(_) => case SendPacket => case SendTimeout => case SendDone => case ReadFails =>
    case ReadEnd => case PostTerminal => case TerminalLost => case Join => case JoinTimeout =>
  }

  lemma ReaderLeavesDecoder(cfg: Config, s: State, a: ReaderAction, t: State)
    requires ReaderStep(cfg, s, a, t)
    ensures t.decoder == s.decoder && t.fed == s.fed && t.out == s.out && t.opusPending == s.opusPending
    ensures t.eofForwarded == s.eofForwarded
  {
    hide Parse, PayloadBytes, FinalCode, Cut;
    match a
    case Read(_) => case SendPacket => case SendTimeout => case SendDone => case ReadFails =>
    case ReadEnd => case PostTerminal => case TerminalLost => case Join => case JoinTimeout =>
  }

  lemma ReaderKeeps(cfg: Config, s: State, a: ReaderAction, t: State)
    requires Inv(cfg, s) && ReaderStep(cfg, s, a, t)
    ensures Inv(cfg, t)
  {
    hide ReaderStep, ReaderInv, Queues, Markers, DecodeInner;
    ReaderKeepsReaderInv(cfg, s, a, t);
    ReaderKeepsQueues(cfg, s, a, t);
    ReaderKeepsMarkers(cfg, s, a, t);
    ReaderLeavesDecoder(cfg, s, a, t);
  }

  lemma DecoderKeepsQueues(cfg: Config, s: State, a: DecoderAction, t: State)
    requires Queues(s) && Markers(s) && DecoderStep(cfg, s, a, t)
    ensures Queues(t)
  {
    hide QueueBytes, DecodeInner;
    match a
    case TakeEncoded =>
      QueueBytesPop(s.encoded);
    case AppendFails =>
      QueueBytesPop(s.encoded);
    case Starve =>
    case RejectInner =>
    case SkipSilent =>
    case DecodeOne =>
    case EmitPcm =>
      QueueBytesPush(s.pcm, Data(s.decoder.pcm));
    case EmitTimeout =>
    case SendTerminal =>
      QueueBytesPush(s.pcm, s.decoder.item);
    case TerminalTimeout =>
  }

  lemma DecoderKeepsMarkers(cfg: Config, s: State, a: DecoderAction, t: State)
    requires Markers(s) && DecoderStep(cfg, s, a, t)
    ensures Markers(t)
  {
    hide Decodable, CompleteInner;
    match a
    case TakeEncoded => case AppendFails => case Starve => case RejectInner => case SkipSilent =>
    case DecodeOne => case EmitPcm => case EmitTimeout => case SendTerminal => case TerminalTimeout =>
  }

  /** Taking a payload: the pending bytes grow by it, and so does what they decode to. */
  lemma TakeDecodes(cfg: Config, s: State, bytes: seq<Byte>)
    requires OpusInv(cfg, s) && s.decoder.Idle?
    ensures var later := DecodeInner(cfg, s.opusPending + bytes);
            DecodeInner(cfg, s.fed + bytes) == Decoded(s.out + later.pcm, later.rest, later.bad)
    ensures s.out <= DecodeInner(cfg, s.fed + bytes).pcm
  {
    hide DecodeInner;
    DecodeAppend(cfg, s.fed, bytes);
    assert s.out + [] == s.out;
  }

  lemma DecoderKeepsPcm(cfg: Config, s: State, a: DecoderAction, t: State)
    requires !cfg.opus && DecoderInv(cfg, s) && Markers(s) && DecoderStep(cfg, s, a, t)
    ensures DecoderInv(cfg, t)
  {
    hide DecodeInner, Decodable, CompleteInner, WellMarked, AllData;
    match a
    case TakeEncoded => case AppendFails => case Starve => case RejectInner => case SkipSilent =>
    case DecodeOne => case EmitPcm => case EmitTimeout => case SendTerminal => case TerminalTimeout =>
  }

  lemma EmitDecodes(cfg: Config, s: State)
    requires OpusInv(cfg, s) && s.decoder.Emit?
    ensures var later := DecodeInner(cfg, DropInner(s.opusPending));
            && DecodeInner(cfg, s.fed) == Decoded(s.out + s.decoder.pcm + later.pcm, later.rest, later.bad)
            && s.out + s.decoder.pcm <= DecodeInner(cfg, s.fed).pcm
  {
    hide DecodeInner;
    DecodeStep(cfg, s.opusPending);
    var pcm, later := s.decoder.pcm, DecodeInner(cfg, DropInner(s.opusPending)).pcm;
    assert s.out + (pcm + later) == (s.out + pcm) + later;
  }

  lemma SkipDecodes(cfg: Config, s: seq<Byte>)
    requires Decodable(cfg, s) && InnerPcm(cfg, s) == []
    ensures DecodeInner(cfg, s) == DecodeInner(cfg, DropInner(s))
  {
    assert [] + DecodeInner(cfg, DropInner(s)).pcm == DecodeInner(cfg, DropInner(s)).pcm;
  }

  lemma DecoderKeepsOpus(cfg: Config, s: State, a: DecoderAction, t: State)
    requires cfg.opus && DecoderInv(cfg, s) && Markers(s) && DecoderStep(cfg, s, a, t)
    ensures DecoderInv(cfg, t)
  {
    hide DecodeInner, WellMarked, AllData, CompleteInner;
    match a
    case TakeEncoded =>
      TakeDecodes(cfg, s, Payload(s.encoded[0]));
      assert s.opusPending + [] == s.opusPending;
    case AppendFails =>
      MeaningGrows(cfg, s.fed, t.fed);
    case Starve =>
      DecodeStep(cfg, s.opusPending);
    case RejectInner =>
    case SkipSilent =>
      SkipDecodes(cfg, s.opusPending);
    case DecodeOne =>
    case EmitPcm =>
      EmitDecodes(cfg, s);
    case EmitTimeout =>
    case SendTerminal =>
    case TerminalTimeout =>
  }

  lemma DecoderLeavesReader(cfg: Config, s: State, a: DecoderAction, t: State)
    requires DecoderStep(cfg, s, a, t)
    ensures t.reader == s.reader && t.received == s.received && t.bytesIn == s.bytesIn && t.sent == s.sent
    ensures t.framePending == s.framePending && t.eofSent == s.eofSent
  {
    hide Decodable, CompleteInner, InnerPcm, DropInner, AfterTake, Payload, InnerLen;
    match a
    case TakeEncoded => case AppendFails => case Starve => case RejectInner => case SkipSilent =>
    case DecodeOne => case EmitPcm => case EmitTimeout => case SendTerminal => case TerminalTimeout =>
  }

  lemma DecoderKeeps(cfg: Config, s: State, a: DecoderAction, t: State)
    requires Inv(cfg, s) && DecoderStep(cfg, s, a, t)
    ensures Inv(cfg, t)
  {
    hide DecoderStep, DecoderInv, Queues, Markers, ReceivedBytes, Parse, PayloadBytes;
    DecoderKeepsQueues(cfg, s, a, t);
    DecoderKeepsMarkers(cfg, s, a, t);
    if cfg.opus { DecoderKeepsOpus(cfg, s, a, t); } else { DecoderKeepsPcm(cfg, s, a, t); }
    DecoderLeavesReader(cfg, s, a, t);
  }

  lemma PlaybackKeepsQueues(cfg: Config, s: State, a: PlaybackAction, t: State)
    requires Queues(s) && PlaybackStep(cfg, s, a, t)
    ensures Queues(t)
  {
    hide QueueBytes;
    match a
    case TakePcm =>
      QueueBytesPop(s.pcm);
      assert s.pcm[0].Data? ==> s.played + InHand(s) + QueueBytes(s.pcm) == s.played + InHand(t) + QueueBytes(t.pcm);
    case Callback(_) =>
      assert s.played + InHand(s) + QueueBytes(s.pcm) == (s.played + InHand(s)) + QueueBytes(s.pcm);
  }

  lemma PlaybackKeepsMarkers(cfg: Config, s: State, a: PlaybackAction, t: State)
    requires Markers(s) && PlaybackStep(cfg, s, a, t)
    ensures Markers(t)
  {
    match a
    case TakePcm => case Callback(_) =>
  }

  lemma PlaybackLeavesRest(cfg: Config, s: State, a: PlaybackAction, t: State)
    requires PlaybackStep(cfg, s, a, t)
    ensures t == s.(playback := t.playback, pcm := t.pcm, eofPlayed := t.eofPlayed, played := t.played,
                    playbackResult := t.playbackResult, fault := t.fault)
  {
    match a
    case TakePcm => case Callback(_) =>
  }

  lemma PlaybackKeeps(cfg: Config, s: State, a: PlaybackAction, t: State)
    requires Inv(cfg, s) && PlaybackStep(cfg, s, a, t)
    ensures Inv(cfg, t)
  {
    hide PlaybackStep, Queues, Markers, ReceivedBytes, Parse, PayloadBytes, DecodeInner;
    PlaybackKeepsQueues(cfg, s, a, t);
    PlaybackKeepsMarkers(cfg, s, a, t);
    PlaybackLeavesRest(cfg, s, a, t);
  }

  lemma {:induction false} RunKeeps(cfg: Config, states: seq<State>, steps: seq<Step>, i: nat)
    requires Run(cfg, states, steps) && i <= |steps|
    ensures Inv(cfg, states[i])
    decreases i
  {
    hide Inv, ReaderStep, DecoderStep, PlaybackStep;
    InitInv(cfg);
    if i > 0 {
      RunKeeps(cfg, states, steps, i - 1);
      var s, t := states[i - 1], states[i];
      assert Next(cfg, s, steps[i - 1], t);
      match steps[i - 1]
      case ByReader(a) => ReaderKeeps(cfg, s, a, t);
      case ByDecoder(a) => DecoderKeeps(cfg, s, a, t);
      case ByPlayback(a) => PlaybackKeeps(cfg, s, a, t);
    }
  }

  // ---------------------------------------------------------------- theorems over all runs

  /** At any moment, whatever has failed or timed out, the callback has been given an
      in-order prefix of what it should be given. */
  lemma PlayedIsPrefix(cfg: Config, states: seq<State>, steps: seq<Step>, i: nat)
    requires Run(cfg, states, steps) && i <= |steps|
    ensures states[i].played <= Expected(cfg, states[i].bytesIn)
  {
    hide DecodeInner, ReceivedBytes;
    RunKeeps(cfg, states, steps, i);
    var s := states[i];
    MeaningGrows(cfg, s.fed, s.sent);
    MeaningGrows(cfg, s.sent, s.received);
  }

  /** ESP_OK means exact delivery: everything HTTP delivered was cut into whole frames, and
      the callback got precisely the payload bytes (PCM) or the decodes of every complete
      inner packet (Opus). No send timed out, no decode and no callback failed. */
  lemma OkMeansExactDelivery(cfg: Config, states: seq<State>, steps: seq<Step>, i: nat)
    requires Run(cfg, states, steps) && i <= |steps|
    requires states[i].reader == Returned(EspOk)
    ensures var s := states[i];
            && s.played == Expected(cfg, s.bytesIn)
            && (cfg.framed ==> Parse(s.bytesIn).rest == [])
            && (cfg.opus ==> !DecodeInner(cfg, ReceivedBytes(cfg, s.bytesIn)).bad)
            && !s.fault
  {
    hide DecodeInner, ReceivedBytes, Parse;
    RunKeeps(cfg, states, steps, i);
    var s := states[i];
    assert s.eofPlayed && s.eofForwarded && s.eofTaken && s.eofSent;
    NothingQueued();
    assert s.fed == s.sent == s.received && s.played == s.out;
    assert s.out + [] == s.out;
  }

  /** The bytes are a sequence of whole inner packets. */
  predicate WholeInner(s: seq<Byte>)
    decreases |s|
  {
    s == [] || (CompleteInner(s) && WholeInner(DropInner(s)))
  }

  lemma {:induction false} WholeInnerMeansNoRest(cfg: Config, s: seq<Byte>)
    requires !DecodeInner(cfg, s).bad
    ensures DecodeInner(cfg, s).rest == [] <==> WholeInner(s)
    decreases |s|
  {
    if CompleteInner(s) {
      WholeInnerMeansNoRest(cfg, DropInner(s));
    }
  }

  /** The check of the residue at the end comes after the residue was cleared, so it never
      fires. What it misses: the decoder of an Opus run that returns ESP_OK is left with
      exactly the undecoded end of what was received, which is empty exactly if the received
      payload bytes are whole inner packets. */
  lemma ResidueIsIgnored(cfg: Config, states: seq<State>, steps: seq<Step>, i: nat)
    requires Run(cfg, states, steps) && i <= |steps|
    requires cfg.opus && states[i].reader == Returned(EspOk)
    ensures var s := states[i];
            && s.opusPending == DecodeInner(cfg, ReceivedBytes(cfg, s.bytesIn)).rest
            && (s.opusPending == [] <==> WholeInner(ReceivedBytes(cfg, s.bytesIn)))
  {
    hide DecodeInner, ReceivedBytes, Parse, WholeInner;
    OkMeansExactDelivery(cfg, states, steps, i);
    RunKeeps(cfg, states, steps, i);
    var s := states[i];
    assert s.eofPlayed && s.eofForwarded && s.eofTaken && s.eofSent;
    NothingQueued();
    assert s.fed == s.sent == s.received;
    assert s.out + [] == s.out;
    WholeInnerMeansNoRest(cfg, ReceivedBytes(cfg, s.bytesIn));
  }

  lemma {:induction false} WholeInnerAppend(a: seq<Byte>, b: seq<Byte>)
    requires WholeInner(a) && WholeInner(b)
    ensures WholeInner(a + b)
    decreases |a|
  {
    if a == [] {
      assert a + b == b;
    } else {
      assert (a + b)[..2] == a[..2];
      assert DropInner(a + b) == DropInner(a) + b;
      WholeInnerAppend(DropInner(a), b);
    }
  }

  /** Every payload on its own is a sequence of whole inner packets. */
  ghost predicate AllWhole(ps: seq<Packet>) {
    forall i :: 0 <= i < |ps| ==> WholeInner(ps[i].payload)
  }

  lemma {:induction false} WholePayloads(ps: seq<Packet>)
    requires AllWhole(ps)
    ensures WholeInner(PayloadBytes(ps))
  {
    if ps != [] {
      WholePayloads(ps[1..]);
      WholeInnerAppend(ps[0].payload, PayloadBytes(ps[1..]));
    }
  }

  /** A server that puts only whole inner packets into each frame leaves nothing undecoded. */
  lemma WholeFramesLeaveNothing(cfg: Config, states: seq<State>, steps: seq<Step>, i: nat)
    requires Run(cfg, states, steps) && i <= |steps|
    requires cfg.opus && cfg.framed && states[i].reader == Returned(EspOk)
    requires AllWhole(Parse(states[i].bytesIn).packets)
    ensures states[i].opusPending == []
  {
    hide DecodeInner, Parse, PayloadBytes, WholeInner, AllWhole;
    ResidueIsIgnored(cfg, states, steps, i);
    WholePayloads(Parse(states[i].bytesIn).packets);
  }

  lemma Extend(cfg: Config, states: seq<State>, steps: seq<Step>, step: Step, t: State)
    returns (states': seq<State>, steps': seq<Step>)
    requires Run(cfg, states, steps) && Next(cfg, states[|steps|], step, t)
    ensures Run(cfg, states', steps') && states'[|steps'|] == t && steps' == steps + [step]
  {
    hide Next;
    states', steps' := states + [t], steps + [step];
  }

  /** The start of an inner packet that is not all there. */
  predicate Unfinished(tail: seq<Byte>) {
    tail != [] && !CompleteInner(tail) && (2 <= |tail| ==> InnerLen(tail) != 0)
  }

  /** What the server sends to deliver one payload. */
  function Carrying(cfg: Config, payload: seq<Byte>): seq<Byte>
    requires |payload| < TWO_TO_32
  {
    if cfg.framed then Frame(Packet(0, payload)) else payload
  }

  lemma CarryingCarries(cfg: Config, payload: seq<Byte>)
    requires payload != [] && |payload| < TWO_TO_32
    ensures var chunk := Carrying(cfg, payload);
            && chunk != [] && Cut(cfg, Init(), chunk) == Parsed([Packet(0, payload)], [])
            && ReceivedBytes(cfg, chunk) == payload
  {
    var p := Packet(0, payload);
    OnePayload(payload);
    if cfg.framed {
      assert Frame(p) + [] == Frame(p) && [] + Frame(p) == Frame(p);
      ParseFrame(p, []);
      hide Frame, Head, Tail;
      ParseComplete(Frame(p));
      ParseIncomplete([]);
      assert [p] + [] == [p];
    }
  }

  /** The decoder has taken the unfinished packet and waits for the rest of it. */
  function Stuck(cfg: Config, tail: seq<Byte>): State
    requires |tail| < TWO_TO_32
  {
    Init().(sawFirst := true, bytesIn := Carrying(cfg, tail), received := tail, sent := tail, fed := tail,
            opusPending := tail)
  }

  lemma TailIsSent(cfg: Config, tail: seq<Byte>) returns (states: seq<State>, steps: seq<Step>)
    requires 0 < cfg.encodedSlots && tail != [] && |tail| < TWO_TO_32
    ensures Run(cfg, states, steps)
    ensures states[|steps|] == Stuck(cfg, tail).(encoded := [Data(tail)], fed := [], opusPending := [])
  {
    hide Run, Carrying, Parse, Cut, PayloadBytes;
    var chunk, packet := Carrying(cfg, tail), Packet(0, tail);
    CarryingCarries(cfg, tail);
    OnePayload(tail);
    assert [] + tail == tail && [] + chunk == chunk && [packet][1..] == [] && [] + [Data(tail)] == [Data(tail)];
    states, steps := [Init()], [];
    assert Run(cfg, states, steps) by { RunOfNothing(cfg); }
    var s1 := Init().(reader := Sending([packet]), bytesIn := chunk, received := tail);
    states, steps := Extend(cfg, states, steps, ByReader(Read(chunk)), s1);
    var s2 := s1.(reader := Sending([]), sawFirst := true, encoded := [Data(tail)], sent := tail);
    states, steps := Extend(cfg, states, steps, ByReader(SendPacket), s2);
    var s3 := s2.(reader := Reading);
    states, steps := Extend(cfg, states, steps, ByReader(SendDone), s3);
  }

  lemma TailIsTaken(cfg: Config, tail: seq<Byte>) returns (states: seq<State>, steps: seq<Step>)
    requires cfg.opus && 0 < cfg.encodedSlots && Unfinished(tail) && |tail| < TWO_TO_32
    ensures Run(cfg, states, steps) && states[|steps|] == Stuck(cfg, tail)
  {
    hide Run, Carrying, Parse, PayloadBytes;
    assert [] + tail == tail && [Data(tail)][1..] == [];
    states, steps := TailIsSent(cfg, tail);
    var s4 := Stuck(cfg, tail).(decoder := Inner);
    states, steps := Extend(cfg, states, steps, ByDecoder(TakeEncoded), s4);
    states, steps := Extend(cfg, states, steps, ByDecoder(Starve), Stuck(cfg, tail));
  }

  lemma RunOfNothing(cfg: Config)
    ensures Run(cfg, [Init()], [])
  {
  }

  /** So a stream that stops inside an inner packet still ends in ESP_OK, framed or not:
      whatever the unfinished packet is, there is a run that ends well and leaves it. */
  lemma TruncatedOpusStillOk(cfg: Config, tail: seq<Byte>) returns (states: seq<State>, steps: seq<Step>)
    requires cfg.opus && 0 < cfg.encodedSlots && 0 < cfg.pcmSlots && Unfinished(tail) && |tail| < TWO_TO_32
    ensures Run(cfg, states, steps) && states[|steps|].reader == Returned(EspOk)
    ensures states[|steps|].opusPending == DecodeInner(cfg, ReceivedBytes(cfg, states[|steps|].bytesIn)).rest == tail
    ensures states[|steps|].played == []
  {
    hide Run, Carrying, Parse, PayloadBytes;
    states, steps := TailIsTaken(cfg, tail);
    var s1 := Stuck(cfg, tail).(reader := Ended(EspOk));
    states, steps := Extend(cfg, states, steps, ByReader(ReadEnd), s1);
    var s2 := s1.(reader := Joining(EspOk), eofSent := true, encoded := [Eof]);
    states, steps := Extend(cfg, states, steps, ByReader(PostTerminal), s2);
    assert tail + [] == tail;
    var s3 := s2.(decoder := Forward(Eof), encoded := [], eofTaken := true);
    states, steps := Extend(cfg, states, steps, ByDecoder(TakeEncoded), s3);
    var s4 := s3.(decoder := DecodeDone, pcm := [Eof], eofForwarded := true);
    states, steps := Extend(cfg, states, steps, ByDecoder(SendTerminal), s4);
    var s5 := s4.(playback := PlaybackDone, pcm := [], eofPlayed := true);
    states, steps := Extend(cfg, states, steps, ByPlayback(TakePcm), s5);
    var s6 := s5.(reader := Returned(EspOk));
    states, steps := Extend(cfg, states, steps, ByReader(Join), s6);
    CarryingCarries(cfg, tail);
  }
}
