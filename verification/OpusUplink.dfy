/** The voice uplink: the device cuts PCM into codec frames and sends each as one
    framed-v1 message; the server decodes and acknowledges packet by packet. The codec
    is an opaque function of one frame. */
module OpusUplink {
  import opened Bytes
  import opened FramedV1
  import opened Blocks

  datatype Codec = Codec(
    frameBytes: nat,
    encode: seq<Byte> -> seq<Byte>,
    decode: seq<Byte> -> Option<seq<Byte>>)

  /** What the round trip assumes of the codec. */
  ghost predicate Lossless(c: Codec) {
    forall f :: |f| == c.frameBytes ==> c.decode(c.encode(f)) == Some(f)
  }

  datatype UplinkError = PacketTruncated | DecodeFailed | EmptyAudio | BadOriginalLength | Framing(e: FrameError)

  /** The encoder produced something a two-byte length and an output buffer of
      `capacity` bytes can hold. */
  predicate Encodable(c: Codec, capacity: nat, frame: seq<Byte>) {
    0 < |c.encode(frame)| <= capacity && |c.encode(frame)| < 0x1_0000
  }

  ghost predicate AllEncodable(c: Codec, capacity: nat, frames: seq<seq<Byte>>) {
    forall i :: 0 <= i < |frames| ==> Encodable(c, capacity, frames[i])
  }

  /** Payload of one codec frame: its length in two bytes, then the packet. */
  function Inner(c: Codec, frame: seq<Byte>): seq<Byte>
    requires |c.encode(frame)| < 0x1_0000
  {
    ToBe16(|c.encode(frame)|) + c.encode(frame)
  }

  ghost function Inners(c: Codec, capacity: nat, frames: seq<seq<Byte>>): (r: seq<seq<Byte>>)
    requires AllEncodable(c, capacity, frames)
    ensures |r| == |frames|
    ensures forall i :: 0 <= i < |r| ==> r[i] == Inner(c, frames[i]) && 2 < |r[i]| < TWO_TO_32
  {
    seq(|frames|, i requires 0 <= i < |frames| => Inner(c, frames[i]))
  }

  /** The messages of a stream: frame i travels as packet number i. */
  ghost function Messages(c: Codec, capacity: nat, frames: seq<seq<Byte>>): (ms: seq<seq<Byte>>)
    requires AllEncodable(c, capacity, frames) && |frames| < TWO_TO_32
    ensures |ms| == |frames|
    ensures forall i :: 0 <= i < |ms| ==> ms[i] == Frame(Packet(i, Inner(c, frames[i])))
  {
    Frames(Number(0, Inners(c, capacity, frames)))
  }

  // ---------------------------------------------------------------- device

  lemma PieceOfPcm(start: seq<Byte>, pcm: seq<Byte>, offset: nat, count: nat, n: nat)
    requires offset + count <= |pcm| && 0 < n
    ensures (start + pcm[..offset]) + pcm[offset..offset + count] == start + pcm[..offset + count]
    ensures Whole(start + pcm[..offset + count], n) <= Whole(start + pcm, n)
  {
    var next := start + pcm[..offset + count];
    assert next + pcm[offset + count..] == start + pcm;
    WholePrefix(next, pcm[offset + count..], n);
  }

  class Uplink {
    const codec: Codec
    const capacity: nat
    var pcmFrame: array<Byte>
    var pcmFrameLen: nat
    var sequence: nat
    /** Binary messages the WebSocket has taken. */
    var sent: seq<seq<Byte>>
    /** How many more sends succeed before the connection fails. */
    var linkCredit: nat
    /** All PCM accepted so far. */
    ghost var fed: seq<Byte>

    ghost predicate Shape()
      reads this
    {
      0 < codec.frameBytes == pcmFrame.Length && sequence == |sent| < TWO_TO_32
    }

    /** Complete frames have gone out, the rest waits in the frame buffer. */
    ghost predicate Valid()
      reads this, pcmFrame
    {
      && Shape()
      && pcmFrameLen < codec.frameBytes
      && pcmFrame[..pcmFrameLen] == Residue(fed, codec.frameBytes)
      && Sent(Whole(fed, codec.frameBytes))
    }

    ghost predicate Sent(frames: seq<seq<Byte>>)
      reads this
    {
      AllEncodable(codec, capacity, frames) && |frames| < TWO_TO_32 && sent == Messages(codec, capacity, frames)
    }

    constructor (c: Codec, outputCapacity: nat, credit: nat)
      requires 0 < c.frameBytes
      ensures Valid() && fresh(pcmFrame) && fed == [] && sent == []
      ensures codec == c && capacity == outputCapacity && linkCredit == credit
    {
      codec, capacity, linkCredit := c, outputCapacity, credit;
      pcmFrame := new Byte[c.frameBytes](_ => 0);
      pcmFrameLen, sequence, sent, fed := 0, 0, [], [];
    }

    method SendCurrentFrame(ghost frames: seq<seq<Byte>>) returns (ok: bool)
      requires Shape() && Sent(frames) && |frames| + 1 < TWO_TO_32
      modifies this`pcmFrameLen, this`sequence, this`sent, this`linkCredit
      ensures Shape()
      ensures ok <==> old(pcmFrameLen) == codec.frameBytes && old(linkCredit) > 0
                      && 0 < |codec.encode(pcmFrame[..])| <= Min(capacity, 65535)
      ensures ok ==> pcmFrameLen == 0 && linkCredit == old(linkCredit) - 1 && Sent(frames + [pcmFrame[..]])
      ensures !ok ==> sent == old(sent) && linkCredit == old(linkCredit)
    {
      hide ToBe16, ToBe32, FromBe16, FromBe32;
      if pcmFrameLen != pcmFrame.Length {
        return false;
      }
      var opus := codec.encode(pcmFrame[..]);
      if |opus| == 0 || |opus| > 0xFFFF {
        return false;
      }
      var payloadLen := 2 + |opus|;
      if 8 + payloadLen > 8 + 2 + capacity {
        return false;
      }
      var message := ToBe32(sequence) + ToBe32(payloadLen) + (ToBe16(|opus|) + opus);
      if linkCredit == 0 {
        return false;
      }
      linkCredit := linkCredit - 1;
      sent := sent + [message];
      sequence := sequence + 1;
      pcmFrameLen := 0;
      assert message == Frame(Packet(|frames|, Inner(codec, pcmFrame[..])));
      assert sent == Messages(codec, capacity, frames + [pcmFrame[..]]);
      return true;
    }

    /** `memcpy` of a piece that fits behind what the frame buffer holds. */
    method Fill(piece: seq<Byte>) returns (full: bool)
      requires Valid() && pcmFrameLen + |piece| <= codec.frameBytes
      modifies this`pcmFrameLen, this`fed, pcmFrame
      ensures Shape() && fed == old(fed) + piece && full == (pcmFrameLen == codec.frameBytes)
      ensures full ==> Sent(Whole(old(fed), codec.frameBytes))
                       && Residue(fed, codec.frameBytes) == []
                       && Whole(fed, codec.frameBytes) == Whole(old(fed), codec.frameBytes) + [pcmFrame[..]]
      ensures !full ==> Valid() && Whole(fed, codec.frameBytes) == Whole(old(fed), codec.frameBytes)
    {
      hide Whole, Residue;
      FillBlock(fed, piece, codec.frameBytes);
      CopyInto(pcmFrame, pcmFrameLen, piece);
      pcmFrameLen := pcmFrameLen + |piece|;
      assert pcmFrame[..pcmFrameLen] == Residue(fed, codec.frameBytes) + piece;
      fed := fed + piece;
      full := pcmFrameLen == codec.frameBytes;
      assert full ==> pcmFrame[..] == pcmFrame[..pcmFrameLen];
    }

    /** One turn of the sending loop: fill the frame buffer and send it if it is full. */
    method SendPiece(piece: seq<Byte>) returns (ok: bool)
      requires Valid() && pcmFrameLen + |piece| <= codec.frameBytes
      requires |Whole(fed + piece, codec.frameBytes)| < TWO_TO_32
      modifies this, pcmFrame
      ensures pcmFrame == old(pcmFrame) && old(sent) <= sent && |sent| + linkCredit == |old(sent)| + old(linkCredit)
      ensures ok ==> Valid() && fed == old(fed) + piece
      ensures !ok ==> var frames := Whole(old(fed) + piece, codec.frameBytes);
                      |sent| < |frames| && (linkCredit == 0 || !Encodable(codec, capacity, frames[|sent|]))
    {
      hide Whole, Residue, Messages;
      ghost var frames := Whole(fed, codec.frameBytes);
      var full := Fill(piece);
      if !full {
        return true;
      }
      assert Whole(fed, codec.frameBytes)[|frames|] == pcmFrame[..];
      ok := SendCurrentFrame(frames);
      assert pcmFrame[..0] == [];
    }

    /** Fills the frame buffer, sending it every time it is full. */
    method SendPcm(pcm: seq<Byte>, connected: bool) returns (ok: bool)
      requires Valid() && |Whole(fed + pcm, codec.frameBytes)| < TWO_TO_32
      modifies this, pcmFrame
      ensures pcmFrame == old(pcmFrame) && |sent| + linkCredit == |old(sent)| + old(linkCredit)
      ensures ok ==> Valid() && fed == old(fed) + pcm
      ensures ok <==> pcm != [] && connected && AllEncodable(codec, capacity, Whole(old(fed) + pcm, codec.frameBytes))
                      && |Whole(old(fed) + pcm, codec.frameBytes)| - |old(sent)| <= old(linkCredit)
      ensures old(sent) <= sent
    {
      if |pcm| == 0 || !connected {
        return false;
      }
      hide Whole, Residue, Encodable, Messages;
      var n := codec.frameBytes;
      ghost var start := fed;
      ghost var goal := Whole(start + pcm, n);
      var offset := 0;
      assert start + pcm[..0] == start;
      while offset < |pcm|
        invariant 0 <= offset <= |pcm| && pcmFrame == old(pcmFrame)
        invariant Valid() && fed == start + pcm[..offset]
        invariant old(sent) <= sent && |sent| + linkCredit == |old(sent)| + old(linkCredit)
      {
        var room := n - pcmFrameLen;
        var copyBytes := if |pcm| - offset < room then |pcm| - offset else room;
        ghost var next := start + pcm[..offset + copyBytes];
        PieceOfPcm(start, pcm, offset, copyBytes, n);
        var piece := SendPiece(pcm[offset..offset + copyBytes]);
        if !piece {
          assert goal[|sent|] == Whole(next, n)[|sent|];
          return false;
        }
        offset := offset + copyBytes;
      }
      assert pcm[..offset] == pcm;
      return true;
    }

    /** Pads and sends a partial last frame. */
    method Finish() returns (ok: bool)
      requires Valid() && |Padded(fed, codec.frameBytes)| < TWO_TO_32
      modifies this, pcmFrame
      ensures ok ==> Sent(Padded(old(fed), codec.frameBytes))
      ensures ok <==> AllEncodable(codec, capacity, Padded(old(fed), codec.frameBytes))
                      && |Padded(old(fed), codec.frameBytes)| - |old(sent)| <= old(linkCredit)
    {
      hide Whole, Residue;
      var n := codec.frameBytes;
      ghost var frames, residue := Whole(fed, n), Residue(fed, n);
      if pcmFrameLen > 0 {
        CopyInto(pcmFrame, pcmFrameLen, Zeros(n - pcmFrameLen));
        assert pcmFrame[..] == residue + Zeros(n - pcmFrameLen);
        assert Padded(fed, n) == frames + [pcmFrame[..]];
        assert Padded(fed, n)[|frames|] == pcmFrame[..];
        pcmFrameLen := n;
        ok := SendCurrentFrame(frames);
      } else {
        assert Padded(fed, n) == frames;
        ok := true;
      }
    }
  }

  /** Any chunking of a recording, then finish: the messages are those of the padded
      recording, whatever the chunks were. */
  method SendRecording(c: Codec, capacity: nat, chunks: seq<seq<Byte>>) returns (sent: seq<seq<Byte>>)
    requires 0 < c.frameBytes && |Padded(Concat(chunks), c.frameBytes)| < TWO_TO_32
    requires AllEncodable(c, capacity, Padded(Concat(chunks), c.frameBytes))
    requires forall i :: 0 <= i < |chunks| ==> chunks[i] != []
    ensures sent == Messages(c, capacity, Padded(Concat(chunks), c.frameBytes))
  {
    hide Whole, Residue, Concat;
    ghost var pcm := Concat(chunks);
    var n := c.frameBytes;
    var up := new Uplink(c, capacity, |Padded(Concat(chunks), n)|);
    ConcatNothing<Byte>();
    for i := 0 to |chunks|
      invariant up.Valid() && fresh(up) && fresh(up.pcmFrame) && up.codec == c && up.capacity == capacity
      invariant up.fed == Concat(chunks[..i])
      invariant |up.sent| + up.linkCredit == |Padded(pcm, n)|
    {
      assert chunks[..i + 1] == chunks[..i] + [chunks[i]];
      ConcatSnoc(chunks[..i], chunks[i]);
      assert chunks == chunks[..i + 1] + chunks[i + 1..];
      ConcatAppend(chunks[..i + 1], chunks[i + 1..]);
      WholePrefix(Concat(chunks[..i + 1]), Concat(chunks[i + 1..]), n);
      assert Whole(Concat(chunks[..i + 1]), n) <= Padded(pcm, n);
      var ok := up.SendPcm(chunks[i], true);
    }
    assert chunks[..|chunks|] == chunks;
    var ok := up.Finish();
    return up.sent;
  }

  // ---------------------------------------------------------------- server

  predicate WellFormedInner(payload: seq<Byte>) {
    2 <= |payload| && |payload| - 2 == FromBe16(payload[..2])
  }

  /** The decoder wrapper skips an empty packet without calling the codec. */
  function DecodePacket(c: Codec, packet: seq<Byte>): Option<seq<Byte>> {
    if packet == [] then Some([]) else c.decode(packet)
  }

  /** PCM of one payload, if it is well formed and the codec accepts it. */
  function PcmOf(c: Codec, payload: seq<Byte>): Option<seq<Byte>> {
    if WellFormedInner(payload) then DecodePacket(c, payload[2..]) else None
  }

  /** PCM of a whole list of packets; nothing if any of them is bad. */
  function DecodeAll(c: Codec, ps: seq<Packet>): Option<seq<Byte>> {
    if ps == [] then Some([])
    else
      var first := PcmOf(c, ps[0].payload);
      var later := DecodeAll(c, ps[1..]);
      if first.Some? && later.Some? then Some(first.value + later.value) else None
  }

  lemma {:induction false} DecodeAllAppend(c: Codec, a: seq<Packet>, b: seq<Packet>)
    ensures DecodeAll(c, a + b).Some? <==> DecodeAll(c, a).Some? && DecodeAll(c, b).Some?
    ensures DecodeAll(c, a + b).Some? ==>
              DecodeAll(c, a + b).value == DecodeAll(c, a).value + DecodeAll(c, b).value
    decreases |a|
  {
    if a == [] {
      assert a + b == b;
    } else {
      DecodeAllAppend(c, a[1..], b);
      assert (a + b)[1..] == a[1..] + b;
    }
  }

  lemma DecodeOne(c: Codec, p: Packet)
    ensures DecodeAll(c, [p]) == PcmOf(c, p.payload)
  {
    assert DecodeAll(c, [p][1..]) == Some([]);
    assert PcmOf(c, p.payload).Some? ==> PcmOf(c, p.payload).value + [] == PcmOf(c, p.payload).value;
  }

  lemma DecodeUpTo(c: Codec, ps: seq<Packet>, i: nat)
    requires i < |ps| && DecodeAll(c, ps[..i]).Some?
    ensures PcmOf(c, ps[i].payload).Some? ==>
              DecodeAll(c, ps[..i + 1]) == Some(DecodeAll(c, ps[..i]).value + PcmOf(c, ps[i].payload).value)
    ensures PcmOf(c, ps[i].payload).None? ==> DecodeAll(c, ps).None?
  {
    hide DecodeAll, PcmOf;
    assert ps[..i + 1] == ps[..i] + [ps[i]] && ps == ps[..i + 1] + ps[i + 1..];
    DecodeAllAppend(c, ps[..i], [ps[i]]);
    DecodeAllAppend(c, ps[..i + 1], ps[i + 1..]);
    DecodeOne(c, ps[i]);
  }

  method DecodeStreamPayload(c: Codec, payload: seq<Byte>) returns (r: Result<seq<Byte>, UplinkError>)
    ensures r.Ok? <==> PcmOf(c, payload).Some?
    ensures r.Ok? ==> r.value == PcmOf(c, payload).value
    ensures r == Err(PacketTruncated) <==>
              |payload| < 2 || |payload| - 2 != 256 * payload[0] as int + payload[1] as int
    ensures |payload| > 2 && r != Err(PacketTruncated) ==>
              var pcm := c.decode(payload[2..]); r == if pcm.Some? then Ok(pcm.value) else Err(DecodeFailed)
    ensures payload == [0, 0] ==> r == Ok([])
  {
    if |payload| < 2 {
      return Err(PacketTruncated);
    }
    var packetLen := FromBe16(payload[..2]);
    BigEndian(payload[..2]);
    var packet := payload[2..];
    if |packet| != packetLen {
      return Err(PacketTruncated);
    }
    var pcm := DecodePacket(c, packet);
    return if pcm.Some? then Ok(pcm.value) else Err(DecodeFailed);
  }

  datatype Ack = Ack(frameCount: nat, decodedPcmBytes: nat)

  /** The receive loop of the streaming endpoint. */
  class Receiver {
    const codec: Codec
    var expectedSequence: nat
    var decoded: seq<Byte>
    var acks: seq<Ack>

    constructor (c: Codec)
      ensures codec == c && expectedSequence == 0 && decoded == [] && acks == []
    {
      codec, expectedSequence, decoded, acks := c, 0, [], [];
    }

    /** The answer to packet `i` of a message: how many packets have arrived in all, and how
        much PCM they have brought. */
    ghost predicate Acknowledges(ack: Ack, before: nat, pcmBytes: nat, ps: seq<Packet>, i: nat) {
      && i < |ps| && DecodeAll(codec, ps[..i + 1]).Some?
      && ack == Ack(before + i + 1, pcmBytes + |DecodeAll(codec, ps[..i + 1]).value|)
    }

    /** One binary message: strict parse, then decode and acknowledge packet by packet. A packet
        that cannot be decoded leaves what came before it in the message acknowledged. */
    method ReceiveMessage(message: seq<Byte>) returns (r: Result<(), UplinkError>)
      modifies this
      ensures r.Ok? <==> Parse(message).rest == [] && Numbered(old(expectedSequence), Parse(message).packets)
                         && DecodeAll(codec, Parse(message).packets).Some?
      ensures r.Ok? ==>
                && expectedSequence == old(expectedSequence) + |Parse(message).packets|
                && decoded == old(decoded) + DecodeAll(codec, Parse(message).packets).value
                && |acks| == |old(acks)| + |Parse(message).packets|
      ensures old(acks) <= acks && expectedSequence - old(expectedSequence) == |acks| - |old(acks)|
      ensures forall k :: |old(acks)| <= k < |acks| ==>
                Acknowledges(acks[k], old(expectedSequence), |old(decoded)|, Parse(message).packets, k - |old(acks)|)
      ensures r.Err? && r.error.Framing? <==>
              Parse(message).rest != [] || !Numbered(old(expectedSequence), Parse(message).packets)
      ensures r.Err? && r.error.Framing? ==> decoded == old(decoded) && acks == old(acks)
      ensures r.Err? && !r.error.Framing? ==>
                var ps, n := Parse(message).packets, |acks| - |old(acks)|;
                && n < |ps| && PcmOf(codec, ps[n].payload).None? && DecodeAll(codec, ps[..n]).Some?
                && decoded == old(decoded) + DecodeAll(codec, ps[..n]).value
    {
      hide Parse, DecodeAll, PcmOf;
      var parsed := ParseStrict(message, expectedSequence);
      if parsed.Err? {
        return Err(Framing(parsed.error));
      }
      var ps := parsed.value;
      NothingToDecode(codec);
      for i := 0 to |ps|
        invariant expectedSequence == old(expectedSequence) + i
        invariant DecodeAll(codec, ps[..i]).Some? && decoded == old(decoded) + DecodeAll(codec, ps[..i]).value
        invariant |acks| == |old(acks)| + i && old(acks) <= acks
        invariant forall k :: |old(acks)| <= k < |acks| ==>
                    Acknowledges(acks[k], old(expectedSequence), |old(decoded)|, ps, k - |old(acks)|)
      {
        DecodeUpTo(codec, ps, i);
        var pcm := DecodeStreamPayload(codec, ps[i].payload);
        if pcm.Err? {
          return Err(pcm.error);
        }
        decoded := decoded + pcm.value;
        expectedSequence := ps[i].sequence + 1;
        acks := acks + [Ack(expectedSequence, |decoded|)];
      }
      assert ps[..|ps|] == ps;
      return Ok(());
    }

    /** After the end marker: the recording, cut to the length the client declared. */
    method Reconstruct(originalPcmBytes: Option<int>) returns (r: Result<seq<Byte>, UplinkError>)
      ensures r == Err(EmptyAudio) <==> decoded == []
      ensures r.Ok? <==> decoded != [] && (originalPcmBytes.Some? ==> 0 < originalPcmBytes.value <= |decoded|)
      ensures r.Ok? ==> r.value <= decoded
                        && |r.value| == if originalPcmBytes.Some? then originalPcmBytes.value else |decoded|
    {
      if |decoded| == 0 {
        return Err(EmptyAudio);
      }
      if originalPcmBytes.Some? {
        if originalPcmBytes.value <= 0 || originalPcmBytes.value > |decoded| {
          return Err(BadOriginalLength);
        }
        return Ok(decoded[..originalPcmBytes.value]);
      }
      return Ok(decoded);
    }
  }

  lemma NothingToDecode(c: Codec)
    ensures DecodeAll(c, []) == Some([])
  {
  }

  /** The server takes what the device sends: recording in, recording out. The codec is
      assumed lossless and each frame encodable; the padding is what Reconstruct cuts off. */
  method Roundtrip(c: Codec, capacity: nat, chunks: seq<seq<Byte>>) returns (r: Result<seq<Byte>, UplinkError>,
                                                                            server: Receiver)
    requires 0 < c.frameBytes && Lossless(c) && |Padded(Concat(chunks), c.frameBytes)| < TWO_TO_32
    requires AllEncodable(c, capacity, Padded(Concat(chunks), c.frameBytes))
    requires forall i :: 0 <= i < |chunks| ==> chunks[i] != []
    ensures fresh(server)
    ensures server.decoded == Concat(chunks) + Zeros(Padding(Concat(chunks), c.frameBytes))
    ensures server.expectedSequence == |server.acks| == |Padded(Concat(chunks), c.frameBytes)|
    ensures Concat(chunks) != [] ==> r == Ok(Concat(chunks))
    ensures Concat(chunks) == [] ==> r == Err(EmptyAudio)
  {
    hide Whole, Residue, Concat, Parse, DecodeAll, Lossless, AllEncodable;
    ghost var pcm := Concat(chunks);
    ghost var frames := Padded(pcm, c.frameBytes);
    var messages := SendRecording(c, capacity, chunks);
    server := new Receiver(c);
    ConcatNothing<Byte>();
    for i := 0 to |messages|
      invariant fresh(server) && server.codec == c
      invariant server.expectedSequence == |server.acks| == i
      invariant server.decoded == Concat(frames[..i])
    {
      OneMessage(c, capacity, frames, i);
      var ok := server.ReceiveMessage(messages[i]);
      assert frames[..i + 1] == frames[..i] + [frames[i]];
      ConcatSnoc(frames[..i], frames[i]);
    }
    assert frames[..|frames|] == frames;
    PaddedKeepsBytes(pcm, c.frameBytes);
    if |Concat(chunks)| == 0 {
      r := server.Reconstruct(None);
      NoBytesNoFrames(c.frameBytes);
    } else {
      r := server.Reconstruct(Some(|Concat(chunks)|));
      assert r.value == server.decoded[..|pcm|];
    }
  }

  lemma NoBytesNoFrames(n: nat)
    requires 0 < n
    ensures Padded([], n) == [] && Padding([], n) == 0
  {
  }

  lemma OneMessage(c: Codec, capacity: nat, frames: seq<seq<Byte>>, i: nat)
    requires Lossless(c) && AllEncodable(c, capacity, frames) && |frames| < TWO_TO_32 && i < |frames|
    requires |frames[i]| == c.frameBytes
    ensures Parse(Messages(c, capacity, frames)[i]) == Parsed([Packet(i, Inner(c, frames[i]))], [])
    ensures DecodeAll(c, [Packet(i, Inner(c, frames[i]))]) == Some(frames[i])
  {
    hide DecodeAll;
    assert Encodable(c, capacity, frames[i]);
    var p := Packet(i, Inner(c, frames[i]));
    ParseFrame(p, []);
    assert Frame(p) + [] == Frame(p);
    ParseIncomplete([]);
    DecodeOne(c, p);
    assert p.payload[..2] == ToBe16(|c.encode(frames[i])|) && p.payload[2..] == c.encode(frames[i]);
  }

  // ---------------------------------------------------------------- Python encoder path

  /** The Python encoder: `buffered` grows by chunks and shrinks by frames. A frame the
      encoder cannot turn into 1..capacity bytes ends the stream with an error. */
  method EncodePcmStream(c: Codec, capacity: nat, chunks: seq<seq<Byte>>) returns (r: Option<seq<seq<Byte>>>)
    requires 0 < c.frameBytes
    ensures r.Some? <==> AllEncodable(c, capacity, Padded(Concat(chunks), c.frameBytes))
    ensures r.Some? ==> r.value == Inners(c, capacity, Padded(Concat(chunks), c.frameBytes))
  {
    hide Whole, Residue, Concat;
    var n := c.frameBytes;
    var buffered: seq<Byte> := [];
    var out: seq<seq<Byte>> := [];
    ghost var fed: seq<Byte> := [];
    ghost var goal := Padded(Concat(chunks), n);
    ConcatNothing<Byte>();
    WholeStep([], n);
    for i := 0 to |chunks|
      invariant fed == Concat(chunks[..i]) && buffered == Residue(fed, n)
      invariant Whole(fed, n) <= goal
      invariant AllEncodable(c, capacity, Whole(fed, n)) && out == Inners(c, capacity, Whole(fed, n))
    {
      ghost var before := Whole(fed, n);
      WholeAppend(fed, chunks[i], n);
      assert chunks[..i + 1] == chunks[..i] + [chunks[i]];
      ConcatSnoc(chunks[..i], chunks[i]);
      fed := fed + chunks[i];
      assert chunks == chunks[..i + 1] + chunks[i + 1..];
      ConcatAppend(chunks[..i + 1], chunks[i + 1..]);
      WholePrefix(fed, Concat(chunks[i + 1..]), n);
      if chunks[i] == [] {
        assert fed == Concat(chunks[..i]);
        continue;
      }
      buffered := buffered + chunks[i];
      while |buffered| >= n
        invariant Residue(buffered, n) == Residue(fed, n)
        invariant before + Whole(buffered, n) == Whole(fed, n)
        invariant AllEncodable(c, capacity, before) && out == Inners(c, capacity, before)
        decreases |buffered|
      {
        var frame := buffered[..n];
        WholeStep(buffered, n);
        buffered := buffered[n..];
        assert Whole(fed, n)[|before|] == frame == goal[|before|];
        var packet := c.encode(frame);
        if |packet| == 0 || |packet| > capacity || |packet| >= 0x1_0000 {
          return None;
        }
        out := out + [ToBe16(|packet|) + packet];
        assert out == Inners(c, capacity, before + [frame]);
        before := before + [frame];
      }
      WholeStep(buffered, n);
    }
    assert chunks[..|chunks|] == chunks;
    if |buffered| > 0 {
      var padded := buffered + Zeros(n - |buffered|);
      assert goal[|Whole(fed, n)|] == padded;
      var packet := c.encode(padded);
      if |packet| == 0 || |packet| > capacity || |packet| >= 0x1_0000 {
        return None;
      }
      out := out + [ToBe16(|packet|) + packet];
    }
    assert out == Inners(c, capacity, goal);
    return Some(out);
  }

  /** Both senders put the same messages on the wire: the Python path (encode, then
      pack) and the device. */
  method BothPathsAgree(c: Codec, capacity: nat, chunks: seq<seq<Byte>>) returns (device: seq<seq<Byte>>,
                                                                                 python: seq<seq<Byte>>)
    requires 0 < c.frameBytes && |Padded(Concat(chunks), c.frameBytes)| < TWO_TO_32
    requires AllEncodable(c, capacity, Padded(Concat(chunks), c.frameBytes))
    requires forall i :: 0 <= i < |chunks| ==> chunks[i] != []
    ensures device == python
  {
    device := SendRecording(c, capacity, chunks);
    var payloads := EncodePcmStream(c, capacity, chunks);
    AllNonEmpty(payloads.value);
    var packed := Pack(payloads.value);
    python := packed.value;
  }

  lemma {:induction false} AllNonEmpty(payloads: seq<seq<Byte>>)
    requires forall i :: 0 <= i < |payloads| ==> payloads[i] != []
    ensures NonEmpty(payloads) == payloads
    decreases |payloads|
  {
    if payloads != [] {
      AllNonEmpty(payloads[1..]);
    }
  }

  // ---------------------------------------------------------------- the one-shot decoder

  function InnersFit(ps: seq<Packet>): bool {
    forall i :: 0 <= i < |ps| ==> WellFormedInner(ps[i].payload)
  }

  /** The body as a whole: a strict parse, a check of every inner length, then decoding. */
  method DecodeFramed(c: Codec, chunks: seq<seq<Byte>>) returns (r: Result<seq<Byte>, UplinkError>)
    ensures var p := Parse(Concat(chunks));
            && (r.Ok? <==> p.rest == [] && Numbered(0, p.packets) && DecodeAll(c, p.packets).Some?)
            && (r.Ok? ==> r.value == DecodeAll(c, p.packets).value)
            && (r == Err(PacketTruncated) <==> p.rest == [] && Numbered(0, p.packets) && !InnersFit(p.packets))
  {
    hide Parse, DecodeAll, Numbered, DecodePacket;
    var parsed := ParseStrict(Concat(chunks), 0);
    if parsed.Err? {
      return Err(Framing(parsed.error));
    }
    var ps := parsed.value;
    for i := 0 to |ps|
      invariant forall k :: 0 <= k < i ==> WellFormedInner(ps[k].payload)
    {
      if !WellFormedInner(ps[i].payload) {
        BadInner(c, ps, i);
        return Err(PacketTruncated);
      }
    }
    NothingToDecode(c);
    var decoded: seq<Byte> := [];
    for i := 0 to |ps|
      invariant DecodeAll(c, ps[..i]) == Some(decoded)
    {
      DecodeUpTo(c, ps, i);
      var pcm := DecodePacket(c, ps[i].payload[2..]);
      if pcm.None? {
        return Err(DecodeFailed);
      }
      decoded := decoded + pcm.value;
    }
    assert ps[..|ps|] == ps;
    return Ok(decoded);
  }

  lemma BadInner(c: Codec, ps: seq<Packet>, i: nat)
    requires i < |ps| && !WellFormedInner(ps[i].payload)
    ensures DecodeAll(c, ps).None?
  {
    hide DecodeAll;
    assert ps == ps[..i] + ([ps[i]] + ps[i + 1..]);
    DecodeAllAppend(c, ps[..i], [ps[i]] + ps[i + 1..]);
    DecodeAllAppend(c, [ps[i]], ps[i + 1..]);
    DecodeOne(c, ps[i]);
  }

  /** A received stream decodes to the frames that were encoded. */
  lemma {:induction false} DecodedFrames(c: Codec, capacity: nat, frames: seq<seq<Byte>>, from: nat)
    requires Lossless(c) && AllEncodable(c, capacity, frames)
    requires forall i :: 0 <= i < |frames| ==> |frames[i]| == c.frameBytes
    ensures DecodeAll(c, Number(from, Inners(c, capacity, frames))) == Some(Concat(frames))
    decreases |frames|
  {
    hide PcmOf, Inner, Lossless, Encodable, Concat, DecodeAll;
    var ps := Number(from, Inners(c, capacity, frames));
    if frames == [] {
      NothingToDecode(c);
      ConcatNothing<Byte>();
    } else {
      var later := frames[1..];
      InnerDecodes(c, capacity, frames[0]);
      DecodedFrames(c, capacity, later, from + 1);
      assert Inners(c, capacity, frames)[1..] == Inners(c, capacity, later);
      assert ps[1..] == Number(from + 1, Inners(c, capacity, later));
      DecodeNext(c, ps, frames);
    }
  }

  lemma DecodeNext(c: Codec, ps: seq<Packet>, frames: seq<seq<Byte>>)
    requires ps != [] && frames != [] && PcmOf(c, ps[0].payload) == Some(frames[0])
    requires DecodeAll(c, ps[1..]) == Some(Concat(frames[1..]))
    ensures DecodeAll(c, ps) == Some(Concat(frames))
  {
    hide PcmOf;
  }

  lemma InnerDecodes(c: Codec, capacity: nat, frame: seq<Byte>)
    requires Lossless(c) && Encodable(c, capacity, frame) && |frame| == c.frameBytes
    ensures PcmOf(c, Inner(c, frame)) == Some(frame)
  {
    var inner := Inner(c, frame);
    assert inner[..2] == ToBe16(|c.encode(frame)|) && inner[2..] == c.encode(frame);
  }

  /** Python to Python: encode a recording, pack it, send it in any pieces, decode it in one go:
      the recording comes back, padded to whole frames, just as it does from the device. */
  method PythonRoundtrip(c: Codec, capacity: nat, chunks: seq<seq<Byte>>) returns (r: Result<seq<Byte>, UplinkError>)
    requires 0 < c.frameBytes && Lossless(c) && |Padded(Concat(chunks), c.frameBytes)| < TWO_TO_32
    requires AllEncodable(c, capacity, Padded(Concat(chunks), c.frameBytes))
    ensures r == Ok(Concat(chunks) + Zeros(Padding(Concat(chunks), c.frameBytes)))
  {
    hide Whole, Residue, Concat, Parse, DecodeAll, Lossless;
    ghost var frames := Padded(Concat(chunks), c.frameBytes);
    var payloads := EncodePcmStream(c, capacity, chunks);
    AllNonEmpty(payloads.value);
    var packed := Pack(payloads.value);
    ParseInvertsFrames(Number(0, payloads.value));
    r := DecodeFramed(c, packed.value);
    DecodedFrames(c, capacity, frames, 0);
    PaddedKeepsBytes(Concat(chunks), c.frameBytes);
  }
}
