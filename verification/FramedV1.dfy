/** The framed-v1 wire format: a four-byte sequence number, a four-byte payload
    length, the payload. Two incremental parsers (firmware and smoke client),
    one strict parser (server) and the packer. */
module FramedV1 {
  import opened Bytes

  datatype Packet = Packet(sequence: nat, payload: seq<Byte>)

  datatype Parsed = Parsed(packets: seq<Packet>, rest: seq<Byte>)

  datatype FrameError = Truncated | SequenceGap | HeaderOverflow

  function PayloadLen(buf: seq<Byte>): nat
    requires 8 <= |buf|
  {
    FromBe32(buf[4..8])
  }

  /** The buffer starts with one whole packet. */
  predicate Complete(buf: seq<Byte>) {
    8 <= |buf| && 8 + PayloadLen(buf) <= |buf|
  }

  function Head(buf: seq<Byte>): Packet
    requires Complete(buf)
  {
    Packet(FromBe32(buf[..4]), buf[8..8 + PayloadLen(buf)])
  }

  function Tail(buf: seq<Byte>): seq<Byte>
    requires Complete(buf)
  {
    buf[8 + PayloadLen(buf)..]
  }

  /** Reference meaning of a byte stream: its whole packets, and what is left over. */
  function Parse(buf: seq<Byte>): (p: Parsed)
    decreases |buf|
  {
    if !Complete(buf) then Parsed([], buf)
    else
      var p := Parse(Tail(buf));
      Parsed([Head(buf)] + p.packets, p.rest)
  }

  /** One parsing step, read at an offset. */
  lemma ParseAt(buf: seq<Byte>, offset: nat)
    requires offset + 8 <= |buf|
    ensures var payloadLen := FromBe32(buf[offset + 4..offset + 8]);
            var end := offset + 8 + payloadLen;
            && PayloadLen(buf[offset..]) == payloadLen
            && (Complete(buf[offset..]) <==> end <= |buf|)
            && (end <= |buf| ==>
                  var head := Packet(FromBe32(buf[offset..offset + 4]), buf[offset + 8..end]);
                  && Head(buf[offset..]) == head
                  && Parse(buf[offset..]) == Parsed([head] + Parse(buf[end..]).packets, Parse(buf[end..]).rest))
  {
    var here := buf[offset..];
    assert here[..4] == buf[offset..offset + 4];
    assert here[4..8] == buf[offset + 4..offset + 8];
    if Complete(here) {
      var end := offset + 8 + PayloadLen(here);
      assert here[8..8 + PayloadLen(here)] == buf[offset + 8..end];
      assert Tail(here) == buf[end..];
    }
  }

  lemma ParseComplete(buf: seq<Byte>)
    requires Complete(buf)
    ensures Parse(buf) == Parsed([Head(buf)] + Parse(Tail(buf)).packets, Parse(Tail(buf)).rest)
  {
  }

  lemma ParseIncomplete(buf: seq<Byte>)
    requires !Complete(buf)
    ensures Parse(buf) == Parsed([], buf)
  {
  }

  /** Moving the boundary between what is done and what is left over one packet. */
  lemma MoveOne(done: seq<Packet>, p: Packet, left: seq<Packet>)
    ensures done + ([p] + left) == (done + [p]) + left
    ensures (done + ([p] + left))[|done|] == p
    ensures (done + ([p] + left))[..|done|] == done
    ensures (done + ([p] + left))[..|done| + 1] == done + [p]
  {
  }

  lemma {:induction false} RestIsIncomplete(buf: seq<Byte>)
    ensures !Complete(Parse(buf).rest)
    decreases |buf|
  {
    if Complete(buf) {
      RestIsIncomplete(Tail(buf));
    }
  }

  lemma FirstOfLonger(a: seq<Byte>, b: seq<Byte>)
    requires Complete(a)
    ensures Complete(a + b) && Head(a + b) == Head(a) && Tail(a + b) == Tail(a) + b
  {
    var n := PayloadLen(a);
    assert (a + b)[4..8] == a[4..8] && (a + b)[..4] == a[..4];
    hide FromBe32;
    assert (a + b)[8..8 + n] == a[8..8 + n];
    assert (a + b)[8 + n..] == a[8 + n..] + b;
  }

  /** Parsing resumes: bytes that arrive later only ever extend the residue. */
  lemma {:induction false} ParseAppend(a: seq<Byte>, b: seq<Byte>)
    ensures Parse(a + b) == Parsed(Parse(a).packets + Parse(Parse(a).rest + b).packets,
                                   Parse(Parse(a).rest + b).rest)
    decreases |a|
  {
    hide Parse, PayloadLen;
    if !Complete(a) {
      ParseIncomplete(a);
      assert [] + Parse(a + b).packets == Parse(a + b).packets;
    } else {
      ParseComplete(a);
      FirstOfLonger(a, b);
      ParseComplete(a + b);
      ParseAppend(Tail(a), b);
      var first, later := Parse(Tail(a)).packets, Parse(Parse(a).rest + b).packets;
      assert [Head(a)] + (first + later) == ([Head(a)] + first) + later;
    }
  }

  /** What a reader that keeps its residue between reads has seen after `chunks`. */
  function FeedAll(residue: seq<Byte>, chunks: seq<seq<Byte>>): Parsed
    decreases |chunks|
  {
    if chunks == [] then Parsed([], residue)
    else
      var first := Parse(residue + chunks[0]);
      var later := FeedAll(first.rest, chunks[1..]);
      Parsed(first.packets + later.packets, later.rest)
  }

  /** However a stream is cut into reads, the packets and the residue are those of
      parsing the whole stream at once. */
  lemma {:induction false} ChunkingIrrelevant(residue: seq<Byte>, chunks: seq<seq<Byte>>)
    requires !Complete(residue)
    ensures FeedAll(residue, chunks) == Parse(residue + Concat(chunks))
    decreases |chunks|
  {
    if chunks == [] {
      assert residue + Concat(chunks) == residue;
    } else {
      var first := Parse(residue + chunks[0]);
      RestIsIncomplete(residue + chunks[0]);
      ChunkingIrrelevant(first.rest, chunks[1..]);
      ParseAppend(residue + chunks[0], Concat(chunks[1..]));
      assert residue + chunks[0] + Concat(chunks[1..]) == residue + Concat(chunks);
    }
  }

  // ---------------------------------------------------------------- sequence gaps

  /** `sequence + 1` in a `uint32_t`. */
  function NextSequence(sequence: nat): nat {
    if sequence + 1 == TWO_TO_32 then 0 else sequence + 1
  }

  predicate Follows(prev: nat, next: nat) {
    next == NextSequence(prev)
  }

  /** Gap count of a reader whose last packet was numbered `prev`. */
  function GapCount(prev: Option<nat>, ps: seq<Packet>): nat
    decreases |ps|
  {
    if ps == [] then 0
    else (if prev.Some? && !Follows(prev.value, ps[0].sequence) then 1 else 0)
         + GapCount(Some(ps[0].sequence), ps[1..])
  }

  function LastSequence(prev: Option<nat>, ps: seq<Packet>): Option<nat> {
    if ps == [] then prev else Some(ps[|ps| - 1].sequence)
  }

  lemma {:induction false} GapCountAppend(prev: Option<nat>, a: seq<Packet>, b: seq<Packet>)
    ensures GapCount(prev, a + b) == GapCount(prev, a) + GapCount(LastSequence(prev, a), b)
    decreases |a|
  {
    if a == [] {
      assert a + b == b;
    } else {
      assert (a + b)[1..] == a[1..] + b;
      GapCountAppend(Some(a[0].sequence), a[1..], b);
    }
  }

  predicate Broken(ps: seq<Packet>, i: int) {
    1 <= i < |ps| && !Follows(ps[i - 1].sequence, ps[i].sequence)
  }

  /** Positions whose packet does not follow its neighbour. */
  ghost function BrokenNeighbours(ps: seq<Packet>): set<int> {
    set i | 0 <= i < |ps| && Broken(ps, i)
  }

  /** The counter of a reader that has seen the whole stream is the number of
      neighbours out of step, whatever the first number was. */
  lemma {:induction false} GapCountIsBrokenNeighbours(ps: seq<Packet>)
    ensures GapCount(None, ps) == |BrokenNeighbours(ps)|
  {
    if ps == [] {
      assert BrokenNeighbours(ps) == {};
    } else {
      var n := |ps| - 1;
      var front := ps[..n];
      assert ps == front + [ps[n]];
      GapCountIsBrokenNeighbours(front);
      GapCountAppend(None, front, [ps[n]]);
      if n > 0 {
        assert GapCount(Some(front[n - 1].sequence), [ps[n]])
            == (if Follows(ps[n - 1].sequence, ps[n].sequence) then 0 else 1);
        if Follows(ps[n - 1].sequence, ps[n].sequence) {
          assert BrokenNeighbours(ps) == BrokenNeighbours(front);
        } else {
          assert BrokenNeighbours(ps) == BrokenNeighbours(front) + {n};
        }
      } else {
        assert BrokenNeighbours(ps) == {} == BrokenNeighbours(front);
      }
    }
  }

  /** Two neighbours are out of step unless the numbers, of four bytes each, count up by one
      and start over behind the largest. */
  lemma BrokenExactlyWhen(ps: seq<Packet>, i: int)
    requires 1 <= i < |ps| && ps[i - 1].sequence < TWO_TO_32
    ensures Broken(ps, i) <==> ps[i].sequence != (ps[i - 1].sequence + 1) % 4294967296
  {
  }

  // ---------------------------------------------------------------- strict parsing

  /** Packets numbered `from`, `from + 1`, ... without wrap-around. */
  ghost predicate Numbered(from: nat, ps: seq<Packet>) {
    forall i :: 0 <= i < |ps| ==> ps[i].sequence == from + i
  }

  /** The leftover starts with a header that carries the wrong number; the server
      looks at the number before it looks at the length. */
  predicate MisnumberedHeader(rest: seq<Byte>, expected: nat) {
    8 <= |rest| && FromBe32(rest[..4]) != expected
  }

  /** The strict server parser against the reference parse. */
  method ParseStrict(body: seq<Byte>, expectedSequence: nat) returns (r: Result<seq<Packet>, FrameError>)
    ensures r.Ok? <==> Parse(body).rest == [] && Numbered(expectedSequence, Parse(body).packets)
    ensures r.Ok? ==> r.value == Parse(body).packets
    ensures r == Err(SequenceGap) <==>
              (!Numbered(expectedSequence, Parse(body).packets)
               || MisnumberedHeader(Parse(body).rest, expectedSequence + |Parse(body).packets|))
    ensures r.Err? ==> r.error in {Truncated, SequenceGap}
  {
    hide Parse;
    var packets: seq<Packet> := [];
    var offset := 0;
    assert body[0..] == body;
    while offset < |body|
      invariant 0 <= offset <= |body|
      invariant Parse(body) == Parsed(packets + Parse(body[offset..]).packets, Parse(body[offset..]).rest)
      invariant Numbered(expectedSequence, packets)
      decreases |body| - offset
    {
      if |body| - offset < 8 {
        ParseIncomplete(body[offset..]);
        return Err(Truncated);
      }
      ParseAt(body, offset);
      var sequence := FromBe32(body[offset..offset + 4]);
      var payloadLen := FromBe32(body[offset + 4..offset + 8]);
      var start := offset + 8;
      if sequence != expectedSequence + |packets| {
        if start + payloadLen <= |body| {
          assert Parse(body).packets[|packets|].sequence == sequence;
        } else {
          assert body[offset..][..4] == body[offset..offset + 4];
          ParseIncomplete(body[offset..]);
        }
        return Err(SequenceGap);
      }
      if |body| - start < payloadLen {
        assert body[offset..][..4] == body[offset..offset + 4];
        ParseIncomplete(body[offset..]);
        return Err(Truncated);
      }
      var packet := Packet(sequence, body[start..start + payloadLen]);
      MoveOne(packets, packet, Parse(body[start + payloadLen..]).packets);
      packets := packets + [packet];
      offset := start + payloadLen;
    }
    assert body[offset..] == [];
    ParseIncomplete([]);
    return Ok(packets);
  }

  // ---------------------------------------------------------------- packing

  predicate Fits(p: Packet) {
    p.sequence < TWO_TO_32 && |p.payload| < TWO_TO_32
  }

  function Frame(p: Packet): seq<Byte>
    requires Fits(p)
  {
    ToBe32(p.sequence) + ToBe32(|p.payload|) + p.payload
  }

  /** The payloads a packer sends: the empty ones are skipped without a number. */
  function NonEmpty(payloads: seq<seq<Byte>>): (r: seq<seq<Byte>>)
    ensures forall x :: x in r ==> x != []
  {
    if payloads == [] then []
    else if payloads[0] == [] then NonEmpty(payloads[1..])
    else [payloads[0]] + NonEmpty(payloads[1..])
  }

  lemma NonEmptyUnfolds(payloads: seq<seq<Byte>>)
    requires payloads != []
    ensures NonEmpty(payloads) == (if payloads[0] == [] then [] else [payloads[0]]) + NonEmpty(payloads[1..])
  {
  }

  lemma {:induction false} NonEmptyAppend(a: seq<seq<Byte>>, b: seq<seq<Byte>>)
    ensures NonEmpty(a + b) == NonEmpty(a) + NonEmpty(b)
  {
    hide NonEmpty;
    if a == [] {
      NothingNonEmpty();
      assert a + b == b;
    } else {
      NonEmptyUnfolds(a);
      NonEmptyUnfolds(a + b);
      NonEmptyAppend(a[1..], b);
      assert (a + b)[1..] == a[1..] + b;
    }
  }

  lemma NonEmptySingleton(x: seq<Byte>)
    ensures NonEmpty([x]) == if x == [] then [] else [x]
  {
  }

  lemma NonEmptyPrefix(payloads: seq<seq<Byte>>, k: nat)
    requires k <= |payloads|
    ensures NonEmpty(payloads[..k]) <= NonEmpty(payloads)
  {
    hide NonEmpty;
    var front, back := payloads[..k], payloads[k..];
    assert payloads == front + back;
    NonEmptyAppend(front, back);
    assert NonEmpty(front) <= NonEmpty(front) + NonEmpty(back);
  }

  /** The loop of the packer advances by one payload. */
  lemma NonEmptyUpTo(payloads: seq<seq<Byte>>, i: nat)
    requires i < |payloads|
    ensures NonEmpty(payloads[..i + 1]) == NonEmpty(payloads[..i]) + (if payloads[i] == [] then [] else [payloads[i]])
  {
    hide NonEmpty;
    NonEmptySingleton(payloads[i]);
    NonEmptyAppend(payloads[..i], [payloads[i]]);
    assert payloads[..i + 1] == payloads[..i] + [payloads[i]];
  }

  function Number(from: nat, payloads: seq<seq<Byte>>): (ps: seq<Packet>)
    ensures |ps| == |payloads| && Numbered(from, ps)
    ensures forall i :: 0 <= i < |ps| ==> ps[i].payload == payloads[i]
  {
    seq(|payloads|, i requires 0 <= i < |payloads| => Packet(from + i, payloads[i]))
  }

  ghost predicate AllFit(ps: seq<Packet>) {
    forall i :: 0 <= i < |ps| ==> Fits(ps[i])
  }

  ghost function Frames(ps: seq<Packet>): (fs: seq<seq<Byte>>)
    requires AllFit(ps)
    ensures |fs| == |ps|
    ensures forall i :: 0 <= i < |ps| ==> fs[i] == Frame(ps[i])
  {
    seq(|ps|, i requires 0 <= i < |ps| => Frame(ps[i]))
  }

  /** The packer; `to_bytes(4, "big")` raises on a number or length of 2^32 or more. */
  method Pack(payloads: seq<seq<Byte>>) returns (r: Result<seq<seq<Byte>>, FrameError>)
    ensures r.Ok? <==> AllFit(Number(0, NonEmpty(payloads)))
    ensures r.Ok? ==> r.value == Frames(Number(0, NonEmpty(payloads)))
  {
    hide NonEmpty;
    var out: seq<seq<Byte>> := [];
    var sequence := 0;
    NothingNonEmpty();
    for i := 0 to |payloads|
      invariant sequence == |NonEmpty(payloads[..i])|
      invariant AllFit(Number(0, NonEmpty(payloads[..i])))
      invariant out == Frames(Number(0, NonEmpty(payloads[..i])))
    {
      NonEmptyUpTo(payloads, i);
      NonEmptyPrefix(payloads, i + 1);
      if payloads[i] == [] {
        continue;
      }
      ghost var goal := Number(0, NonEmpty(payloads));
      assert goal[sequence] == Packet(sequence, payloads[i]);
      if sequence >= TWO_TO_32 || |payloads[i]| >= TWO_TO_32 {
        return Err(HeaderOverflow);
      }
      ghost var done := Number(0, NonEmpty(payloads[..i]));
      assert Number(0, NonEmpty(payloads[..i + 1])) == done + [Packet(sequence, payloads[i])];
      out := out + [ToBe32(sequence) + ToBe32(|payloads[i]|) + payloads[i]];
      sequence := sequence + 1;
    }
    assert payloads[..|payloads|] == payloads;
    return Ok(out);
  }

  /** What goes over the wire: packet `i` is its number and the length of its payload, each in
      four bytes in network order, and the payload. */
  lemma WireLayout(payloads: seq<seq<Byte>>, i: nat)
    requires i < |NonEmpty(payloads)| && AllFit(Number(0, NonEmpty(payloads)))
    ensures var f, payload := Frames(Number(0, NonEmpty(payloads)))[i], NonEmpty(payloads)[i];
            && |f| == 8 + |payload| && f[8..] == payload
            && i == 16777216 * f[0] as int + 65536 * f[1] as int + 256 * f[2] as int + f[3] as int
            && |payload| == 16777216 * f[4] as int + 65536 * f[5] as int + 256 * f[6] as int + f[7] as int
  {
    hide NonEmpty, ToBe32, FromBe32;
    var p := Number(0, NonEmpty(payloads))[i];
    assert Fits(p);
    var f := Frame(p);
    assert p.sequence == i;
    assert f[..4] == ToBe32(i) && f[4..8] == ToBe32(|p.payload|) && f[8..] == p.payload;
    BigEndian(f[..4]);
    BigEndian(f[4..8]);
  }

  lemma NothingNonEmpty()
    ensures NonEmpty([]) == []
  {
  }

  lemma ParseFrame(p: Packet, more: seq<Byte>)
    requires Fits(p)
    ensures Complete(Frame(p) + more)
    ensures Head(Frame(p) + more) == p && Tail(Frame(p) + more) == more
  {
    var s := Frame(p) + more;
    assert s[..4] == ToBe32(p.sequence);
    assert s[4..8] == ToBe32(|p.payload|);
    assert s[8..8 + |p.payload|] == p.payload;
    assert s[8 + |p.payload|..] == more;
  }

  /** Parsing inverts packing, for packets numbered in any way. */
  lemma {:induction false} ParseInvertsFrames(ps: seq<Packet>)
    requires AllFit(ps)
    ensures Parse(Concat(Frames(ps))) == Parsed(ps, [])
  {
    if ps == [] {
      assert Frames(ps) == [];
    } else {
      var fs := Frames(ps);
      assert fs[1..] == Frames(ps[1..]);
      ParseInvertsFrames(ps[1..]);
      ParseFrame(ps[0], Concat(fs[1..]));
      assert fs[0] == Frame(ps[0]);
    }
  }

  /** Packer to incremental reader, end to end: cut the packed stream anywhere and the
      reader sees the non-empty payloads in order, no residue and no gap. */
  lemma PackedStreamRoundTrip(payloads: seq<seq<Byte>>, chunks: seq<seq<Byte>>)
    requires AllFit(Number(0, NonEmpty(payloads)))
    requires Concat(chunks) == Concat(Frames(Number(0, NonEmpty(payloads))))
    ensures FeedAll([], chunks) == Parsed(Number(0, NonEmpty(payloads)), [])
    ensures GapCount(None, FeedAll([], chunks).packets) == 0
  {
    var ps := Number(0, NonEmpty(payloads));
    ChunkingIrrelevant([], chunks);
    assert [] + Concat(chunks) == Concat(chunks);
    ParseInvertsFrames(ps);
    forall i | 0 <= i < |ps| ensures !Broken(ps, i) {
      assert Fits(ps[i]);
    }
    GapCountIsBrokenNeighbours(ps);
    assert BrokenNeighbours(ps) == {};
  }

  // ---------------------------------------------------------------- incremental readers

  /** The smoke client's bytearray, consumed in place. */
  class ByteArray {
    var data: seq<Byte>

    constructor (initial: seq<Byte>)
      ensures data == initial
    {
      data := initial;
    }
  }

  method ParseBuffered(buffer: ByteArray) returns (packets: seq<Packet>)
    modifies buffer
    ensures Parsed(packets, buffer.data) == Parse(old(buffer.data))
  {
    hide Parse;
    packets := [];
    var data, offset := buffer.data, 0;
    assert data[0..] == data;
    while |data| - offset >= 8
      invariant 0 <= offset <= |data| && buffer.data == data
      invariant Parse(data) == Parsed(packets + Parse(data[offset..]).packets, Parse(data[offset..]).rest)
      decreases |data| - offset
    {
      ParseAt(data, offset);
      var sequence := FromBe32(data[offset..offset + 4]);
      var payloadLen := FromBe32(data[offset + 4..offset + 8]);
      var frameLen := 8 + payloadLen;
      if |data| - offset < frameLen {
        break;
      }
      var start := offset + 8;
      var packet := Packet(sequence, data[start..start + payloadLen]);
      MoveOne(packets, packet, Parse(data[offset + frameLen..]).packets);
      packets := packets + [packet];
      offset := offset + frameLen;
    }
    ParseIncomplete(data[offset..]);
    if offset > 0 {
      buffer.data := data[offset..];
    }
    assert buffer.data == data[offset..] && packets + [] == packets;
  }

  /** The firmware's frame assembler: a growable buffer, the number it expects next and
      the two counters it keeps. */
  class FrameStream {
    var pending: array<Byte>
    var pendingLen: nat
    var expectedSeq: nat
    var expectedSeqValid: bool
    var packetCount: nat
    var seqGapCount: nat
    /** Number of the last packet taken off the stream. */
    ghost var last: Option<nat>

    ghost predicate Valid()
      reads this
    {
      && pendingLen <= pending.Length
      && expectedSeqValid == last.Some?
      && (last.Some? ==> expectedSeq == NextSequence(last.value))
    }

    ghost function Contents(): seq<Byte>
      reads this, pending
      requires Valid()
    {
      pending[..pendingLen]
    }

    constructor ()
      ensures Valid() && fresh(pending) && Contents() == []
      ensures last == None && packetCount == 0 && seqGapCount == 0
    {
      pending := new Byte[0];
      pendingLen, expectedSeq, expectedSeqValid := 0, 0, false;
      packetCount, seqGapCount, last := 0, 0, None;
    }

    /** `realloc` may fail; the buffer doubles from 4096 until the data fits. */
    method Append(data: seq<Byte>, memoryLeft: bool) returns (ok: bool)
      requires Valid()
      modifies this`pending, this`pendingLen, pending
      ensures Valid() && (pending == old(pending) || fresh(pending))
      ensures Contents() == if ok then old(Contents()) + data else old(Contents())
      ensures !ok ==> !memoryLeft && pending.Length < pendingLen + |data|
    {
      if |data| == 0 {
        assert old(Contents()) + data == old(Contents());
        return true;
      }
      if pendingLen + |data| > pending.Length {
        var newCap := if pending.Length == 0 then 4096 else pending.Length;
        while pendingLen + |data| > newCap
          invariant newCap > 0
        {
          newCap := newCap * 2;
        }
        if !memoryLeft {
          return false;
        }
        var grown := new Byte[newCap](_ => 0);
        CopyInto(grown, 0, pending[..pendingLen]);
        assert grown[..pendingLen] == old(Contents());
        pending := grown;
      }
      CopyInto(pending, pendingLen, data);
      pendingLen := pendingLen + |data|;
      assert Contents() == old(Contents()) + data;
      return true;
    }

    /** Hands each whole packet to the encoded queue. `accepts` packets go through
        before an allocation fails or the queue times out; a refused packet is already
        counted and checked for a gap, and the buffer is then left uncompacted. */
    method ConsumePackets(accepts: nat) returns (ok: bool, sent: seq<Packet>)
      requires Valid()
      modifies this, pending
      ensures Valid() && pending == old(pending)
      ensures ok <==> |Parse(old(Contents())).packets| <= accepts
      ensures sent == Parse(old(Contents())).packets[..Min(accepts, |Parse(old(Contents())).packets|)]
      ensures Contents() == if ok then Parse(old(Contents())).rest else old(Contents())
      ensures Counted(old(last), old(packetCount), old(seqGapCount),
                      Parse(old(Contents())).packets[..Min(accepts + 1, |Parse(old(Contents())).packets|)])
    {
      var offset;
      ok, sent, offset := Scan(accepts);
      if ok && offset > 0 {
        // memmove of the unread tail
        CopyInto(pending, 0, pending[offset..pendingLen]);
        pendingLen := pendingLen - offset;
        assert Contents() == old(Contents())[offset..];
      }
    }

    /** The counters after the packets `seen` have gone by. */
    ghost predicate Counted(prev: Option<nat>, packets0: nat, gaps0: nat, seen: seq<Packet>)
      reads this
    {
      && packetCount == packets0 + |seen|
      && seqGapCount == gaps0 + GapCount(prev, seen)
      && last == LastSequence(prev, seen)
    }

    lemma NothingCounted()
      ensures Counted(last, packetCount, seqGapCount, [])
    {
    }

    method Scan(accepts: nat) returns (ok: bool, sent: seq<Packet>, offset: nat)
      requires Valid()
      modifies this`expectedSeq, this`expectedSeqValid, this`packetCount, this`seqGapCount, this`last
      ensures Valid()
      ensures ok <==> |Parse(Contents()).packets| <= accepts
      ensures sent == Parse(Contents()).packets[..Min(accepts, |Parse(Contents()).packets|)]
      ensures offset <= pendingLen && (ok ==> Parse(Contents()).rest == Contents()[offset..])
      ensures Counted(old(last), old(packetCount), old(seqGapCount),
                      Parse(Contents()).packets[..Min(accepts + 1, |Parse(Contents()).packets|)])
    {
      hide Parse, GapCount;
      var buf := pending[..pendingLen];
      sent, offset := [], 0;
      NothingCounted();
      assert buf[0..] == buf;
      while pendingLen - offset >= 8
        invariant Valid() && offset <= pendingLen
        invariant Parse(buf) == Parsed(sent + Parse(buf[offset..]).packets, Parse(buf[offset..]).rest)
        invariant |sent| <= accepts
        invariant Counted(old(last), old(packetCount), old(seqGapCount), sent)
        decreases pendingLen - offset
      {
        ParseAt(buf, offset);
        var sequence := FromBe32(buf[offset..offset + 4]);
        var payloadLen := FromBe32(buf[offset + 4..offset + 8]);
        var frameLen := payloadLen + 8;
        if pendingLen - offset < frameLen {
          break;
        }
        var packet := Packet(sequence, buf[offset + 8..offset + frameLen]);
        MoveOne(sent, packet, Parse(buf[offset + frameLen..]).packets);
        Count(packet, old(last), old(packetCount), old(seqGapCount), sent);
        if |sent| == accepts {
          return false, sent, offset;
        }
        sent := sent + [packet];
        offset := offset + frameLen;
      }
      ParseIncomplete(buf[offset..]);
      return true, sent, offset;
    }

    /** Sequence check and metrics for one packet. */
    method Count(packet: Packet, ghost prev: Option<nat>, ghost packets0: nat, ghost gaps0: nat,
                 ghost seen: seq<Packet>)
      requires Valid() && Counted(prev, packets0, gaps0, seen)
      modifies this`expectedSeq, this`expectedSeqValid, this`packetCount, this`seqGapCount, this`last
      ensures Valid() && Counted(prev, packets0, gaps0, seen + [packet])
    {
      GapCountAppend(prev, seen, [packet]);
      assert GapCount(last, [packet])
          == (if last.Some? && !Follows(last.value, packet.sequence) then 1 else 0)
             + GapCount(Some(packet.sequence), []);
      if expectedSeqValid && packet.sequence != expectedSeq {
        seqGapCount := seqGapCount + 1;
      }
      expectedSeq := NextSequence(packet.sequence);
      expectedSeqValid := true;
      packetCount := packetCount + 1;
      last := Some(packet.sequence);
    }
  }

  /** The reader loop when nothing fails: cut the stream anywhere, the packets, the
      residue and the gap counter are those of the whole stream. */
  method ReadStream(stream: FrameStream, chunks: seq<seq<Byte>>) returns (packets: seq<Packet>)
    requires stream.Valid() && stream.Contents() == []
    requires stream.last == None && stream.packetCount == 0 && stream.seqGapCount == 0
    modifies stream, stream.pending
    ensures stream.Valid() && stream.packetCount == |packets|
    ensures Parsed(packets, stream.Contents()) == Parse(Concat(chunks))
    ensures stream.seqGapCount == |BrokenNeighbours(packets)|
  {
    hide Parse, GapCount;
    ParseIncomplete([]);
    packets := [];
    NoGaps();
    for i := 0 to |chunks|
      invariant stream.Valid() && (stream.pending == old(stream.pending) || fresh(stream.pending))
      invariant Parsed(packets, stream.Contents()) == Parse(Concat(chunks[..i]))
      invariant stream.Counted(None, 0, 0, packets)
    {
      ghost var residue := stream.Contents();
      ConcatUpTo(chunks, i);
      ParseAppend(Concat(chunks[..i]), chunks[i]);
      PacketsShorterThanBytes(residue + chunks[i]);
      var more := ReadOnce(stream, chunks[i]);
      GapCountAppend(None, packets, more);
      packets := packets + more;
    }
    assert chunks[..|chunks|] == chunks;
    GapCountIsBrokenNeighbours(packets);
  }

  lemma NoGaps()
    ensures GapCount(None, []) == 0
  {
  }

  /** One read: append, then consume. */
  method ReadOnce(stream: FrameStream, chunk: seq<Byte>) returns (packets: seq<Packet>)
    requires stream.Valid()
    requires |Parse(stream.Contents() + chunk).packets| <= |stream.Contents() + chunk|
    modifies stream, stream.pending
    ensures stream.Valid() && (stream.pending == old(stream.pending) || fresh(stream.pending))
    ensures Parsed(packets, stream.Contents()) == Parse(old(stream.Contents()) + chunk)
    ensures stream.Counted(old(stream.last), old(stream.packetCount), old(stream.seqGapCount), packets)
  {
    hide Parse, GapCount;
    var appended := stream.Append(chunk, true);
    var ok;
    ok, packets := stream.ConsumePackets(stream.pendingLen);
    assert packets == Parse(old(stream.Contents()) + chunk).packets;
  }

  lemma {:induction false} PacketsShorterThanBytes(buf: seq<Byte>)
    ensures |Parse(buf).packets| <= |buf|
    decreases |buf|
  {
    if Complete(buf) {
      PacketsShorterThanBytes(Tail(buf));
    }
  }
}
