/** The RTP repacketizer of internal/media/packetizer.go: 20 ms packets cut from packets of any size. */
module Repacketizer {
  import opened GoNumbers
  import opened Wrappers

  const SIZE := 160

  datatype Packet = Packet(
    payloadType: Byte,
    marker: bool,
    sequence: Uint16,
    timestamp: Uint32,
    ssrc: Uint32,
    payload: seq<Byte>)

  // The input since the last discontinuity, as one stream that starts at a packet's numbers.
  datatype Segment = Segment(sequence: Uint16, timestamp: Uint32, ssrc: Uint32, stream: seq<Byte>)

  function Whole(stream: seq<Byte>): nat {
    |stream| / SIZE
  }

  // Output packet k of a segment, from the stream alone.
  function PacketAt(s: Segment, k: nat, payloadType: Byte): Packet
    requires k < Whole(s.stream)
  {
    WholePacket(s.stream, k);
    Packet(payloadType, k == 0, ToUint16(s.sequence + k), ToUint32(s.timestamp + SIZE * k), s.ssrc,
           s.stream[SIZE * k..SIZE * k + SIZE])
  }

  lemma WholePacket(stream: seq<Byte>, k: nat)
    requires k < Whole(stream)
    ensures SIZE * k + SIZE <= |stream|
  {
  }

  function Packets(s: Segment, payloadType: Byte): (out: seq<Packet>)
    ensures |out| == Whole(s.stream)
  {
    seq(Whole(s.stream), k requires 0 <= k < Whole(s.stream) => PacketAt(s, k, payloadType))
  }

  function Remainder(stream: seq<Byte>): (rest: seq<Byte>)
    ensures |rest| < SIZE
  {
    stream[SIZE * Whole(stream)..]
  }

  function ExpectedTimestamp(s: Segment): Uint32 {
    ToUint32(s.timestamp + |s.stream|)
  }

  function Joins(segment: Option<Segment>, p: Packet): bool {
    segment.Some? && p.ssrc == segment.value.ssrc && p.timestamp == ExpectedTimestamp(segment.value)
  }

  function Fed(segment: Option<Segment>, p: Packet): Option<Segment> {
    if |p.payload| == 0 then segment
    else if Joins(segment, p) then Some(segment.value.(stream := segment.value.stream + p.payload))
    else Some(Segment(p.sequence, p.timestamp, p.ssrc, p.payload))
  }

  function Sent(segment: Option<Segment>): nat {
    if segment == None then 0 else Whole(segment.value.stream)
  }

  // What one Push returns: the packets of the segment that were not complete before.
  function Emitted(segment: Option<Segment>, p: Packet, payloadType: Byte): seq<Packet> {
    if |p.payload| == 0 then []
    else
      var from := if Joins(segment, p) then Sent(segment) else 0;
      var all := Packets(Fed(segment, p).value, payloadType);
      if from <= |all| then all[from..] else []
  }

  lemma WholeGrows(stream: seq<Byte>, more: seq<Byte>)
    ensures Whole(stream) <= Whole(stream + more)
  {
  }

  // Packets that were complete do not change when more arrives.
  lemma PacketsAreStable(s: Segment, more: seq<Byte>, payloadType: Byte)
    ensures var t := s.(stream := s.stream + more);
            && Whole(s.stream) <= Whole(t.stream)
            && Packets(t, payloadType)[..Whole(s.stream)] == Packets(s, payloadType)
  {
    WholeGrows(s.stream, more);
    var t := s.(stream := s.stream + more);
    forall k | 0 <= k < Whole(s.stream)
      ensures PacketAt(t, k, payloadType) == PacketAt(s, k, payloadType)
    {
      WholePacket(s.stream, k);
      hide Whole;
      assert t.stream[SIZE * k..SIZE * k + SIZE] == s.stream[SIZE * k..SIZE * k + SIZE];
    }
  }

  function Payloads(packets: seq<Packet>): seq<Byte> {
    if packets == [] then [] else Payloads(packets[..|packets| - 1]) + packets[|packets| - 1].payload
  }

  lemma {:induction false} PayloadsOfPrefix(s: Segment, payloadType: Byte, n: nat)
    requires n <= Whole(s.stream)
    ensures SIZE * n <= |s.stream|
    ensures Payloads(Packets(s, payloadType)[..n]) == s.stream[..SIZE * n]
  {
    hide Whole;
    var all := Packets(s, payloadType);
    if n > 0 {
      PayloadsOfPrefix(s, payloadType, n - 1);
      WholePacket(s.stream, n - 1);
      assert all[..n][..n - 1] == all[..n - 1];
      assert all[..n][n - 1] == PacketAt(s, n - 1, payloadType);
      assert s.stream[..SIZE * n] == s.stream[..SIZE * (n - 1)] + s.stream[SIZE * (n - 1)..SIZE * n];
    }
  }

  // No byte is lost, added or reordered: what was sent and what still waits are the input.
  lemma BytesConserved(s: Segment, payloadType: Byte)
    ensures Payloads(Packets(s, payloadType)) + Remainder(s.stream) == s.stream
    ensures |Remainder(s.stream)| < SIZE
  {
    var all := Packets(s, payloadType);
    assert all[..|all|] == all;
    PayloadsOfPrefix(s, payloadType, Whole(s.stream));
  }

  // Every packet keeps the media time of its bytes, and so does what waits.
  lemma MediaTime(s: Segment, payloadType: Byte, k: nat, j: nat)
    requires k < Whole(s.stream) && j < SIZE
    ensures var p := Packets(s, payloadType)[k];
            && |p.payload| == SIZE && SIZE * k + j < |s.stream|
            && p.payload[j] == s.stream[SIZE * k + j]
            && ToUint32(p.timestamp + j) == ToUint32(s.timestamp + (SIZE * k + j))
            && p.marker == (k == 0)
    ensures k > 0 ==> var p, before := Packets(s, payloadType)[k], Packets(s, payloadType)[k - 1];
                      && p.sequence == ToUint16(before.sequence + 1)
                      && p.timestamp == ToUint32(before.timestamp + SIZE)
  {
    hide Whole, ToUint16, ToUint32;
    WholePacket(s.stream, k);
    WrapAdd(s.sequence, k - 1, 1);
    WrapAdd(s.timestamp, SIZE * (k - 1), SIZE);
    WrapAdd(s.timestamp, SIZE * k, j);
  }

  lemma WrapAdd(a: int, b: int, c: int)
    ensures ToUint16(ToUint16(a + b) + c) == ToUint16(a + b + c)
    ensures ToUint32(ToUint32(a + b) + c) == ToUint32(a + b + c)
  {
    WrapAdd16(a + b, c);
    WrapAdd32(a + b, c);
    hide ToUint16, ToUint32;
  }

  lemma WrapAdd16(x: int, c: int)
    ensures ToUint16(ToUint16(x) + c) == ToUint16(x + c)
  {
  }

  lemma WrapAdd32(x: int, c: int)
    ensures ToUint32(ToUint32(x) + c) == ToUint32(x + c)
  {
  }

  lemma Unwrapped(x: Uint32, y: Uint16)
    ensures ToUint32(x) == x && ToUint16(y) == y
  {
  }

  /* A run of packets without a discontinuity. */

  function Bytes(inputs: seq<Packet>): seq<Byte> {
    if inputs == [] then [] else Bytes(inputs[..|inputs| - 1]) + inputs[|inputs| - 1].payload
  }

  function SegmentOf(first: Packet, inputs: seq<Packet>): Segment {
    Segment(first.sequence, first.timestamp, first.ssrc, Bytes(inputs))
  }

  // Each packet starts where the ones before it end; empty ones may come in between.
  ghost predicate Contiguous(inputs: seq<Packet>) {
    && inputs != [] && inputs[0].payload != []
    && forall i {:trigger inputs[i]} :: 1 <= i < |inputs| ==>
         inputs[i].payload == [] || Joins(Some(SegmentOf(inputs[0], inputs[..i])), inputs[i])
  }

  datatype State = State(segment: Option<Segment>, out: seq<Packet>)

  function PushAll(start: Option<Segment>, inputs: seq<Packet>, payloadType: Byte): State {
    if inputs == [] then State(start, [])
    else
      var p := inputs[|inputs| - 1];
      var before := PushAll(start, inputs[..|inputs| - 1], payloadType);
      State(Fed(before.segment, p), before.out + Emitted(before.segment, p, payloadType))
  }

  lemma ContiguousPrefix(inputs: seq<Packet>, n: nat)
    requires Contiguous(inputs) && 1 <= n <= |inputs|
    ensures Contiguous(inputs[..n])
  {
    forall i | 1 <= i < n
      ensures inputs[..n][..i] == inputs[..i]
    {
    }
  }

  // The sizes of the incoming packets do not matter: the output is that of one packet holding it all.
  lemma {:induction false} SizesDoNotMatter(start: Option<Segment>, inputs: seq<Packet>, payloadType: Byte)
    requires Contiguous(inputs) && !Joins(start, inputs[0])
    ensures var s := SegmentOf(inputs[0], inputs);
            PushAll(start, inputs, payloadType) == State(Some(s), Packets(s, payloadType))
  {
    hide Joins, Packets;
    var n := |inputs| - 1;
    var p := inputs[n];
    if n == 0 {
      assert Bytes(inputs[..0]) == [] && [] + p.payload == p.payload;
      assert PushAll(start, inputs[..0], payloadType) == State(start, []);
      assert [] + Emitted(start, p, payloadType) == Packets(SegmentOf(p, inputs), payloadType);
    } else {
      ContiguousPrefix(inputs, n);
      SizesDoNotMatter(start, inputs[..n], payloadType);
      var s := SegmentOf(inputs[0], inputs[..n]);
      assert inputs[..n][0] == inputs[0];
      hide Contiguous;
      ExtendRun(s, p, payloadType);
    }
  }

  lemma ExtendRun(s: Segment, p: Packet, payloadType: Byte)
    requires p.payload == [] || Joins(Some(s), p)
    ensures var t := s.(stream := s.stream + p.payload);
            && Fed(Some(s), p) == Some(t)
            && Packets(s, payloadType) + Emitted(Some(s), p, payloadType) == Packets(t, payloadType)
  {
    PacketsAreStable(s, p.payload, payloadType);
    hide Packets, Whole;
    assert p.payload == [] ==> s.stream + p.payload == s.stream;
  }

  class RtpRepacketizer {
    var initialized: bool
    var inputSSRC: Uint32
    var expectedInputTS: Uint32
    var sequence: Uint16
    var timestamp: Uint32
    var ssrc: Uint32
    var markerNext: bool
    var buffer: seq<Byte>
    ghost var segment: Option<Segment>

    // The numbers kept are those of the packet that comes next.
    ghost predicate Follows(s: Segment, sent: nat)
      reads this
    {
      && SIZE * sent <= |s.stream|
      && initialized && inputSSRC == s.ssrc && ssrc == s.ssrc
      && expectedInputTS == ExpectedTimestamp(s)
      && sequence == ToUint16(s.sequence + sent)
      && timestamp == ToUint32(s.timestamp + SIZE * sent)
      && markerNext == (sent == 0)
      && buffer == s.stream[SIZE * sent..]
    }

    ghost predicate Valid()
      reads this
    {
      && (initialized <==> segment.Some?)
      && (segment.Some? ==> Follows(segment.value, Whole(segment.value.stream)))
    }

    constructor ()
      ensures Valid() && segment == None
    {
      initialized, inputSSRC, expectedInputTS, sequence, timestamp, ssrc := false, 0, 0, 0, 0, 0;
      markerNext, buffer, segment := false, [], None;
    }

    method Push(input: Packet, payloadType: Byte) returns (out: seq<Packet>)
      requires Valid()
      modifies this
      ensures Valid()
      ensures segment == Fed(old(segment), input)
      ensures out == Emitted(old(segment), input, payloadType)
      ensures segment.Some? ==> ToUint32(timestamp + |buffer|) == expectedInputTS
    {
      if |input.payload| == 0 {
        BufferTime();
        return [];
      }
      Accept(input);
      ghost var from := if Joins(old(segment), input) then Sent(old(segment)) else 0;
      out := Cut(payloadType, from);
      BufferTime();
    }

    lemma BufferTime()
      requires Valid()
      ensures segment.Some? ==> ToUint32(timestamp + |buffer|) == expectedInputTS
    {
    }

    method Accept(input: Packet)
      requires Valid() && |input.payload| > 0
      modifies this
      ensures segment == Fed(old(segment), input) && segment.Some?
      ensures Follows(segment.value, if Joins(old(segment), input) then Sent(old(segment)) else 0)
    {
      hide Whole, ToUint16, ToUint32;
      Unwrapped(input.timestamp, input.sequence);
      if initialized {
        WrapAdd(segment.value.timestamp, |segment.value.stream|, |input.payload|);
      }
      if !initialized || input.ssrc != inputSSRC || input.timestamp != expectedInputTS {
        initialized := true;
        inputSSRC := input.ssrc;
        sequence := input.sequence;
        timestamp := input.timestamp;
        ssrc := input.ssrc;
        markerNext := true;
        buffer := [];
      }
      segment := Fed(segment, input);
      expectedInputTS := ToUint32(input.timestamp + |input.payload|);
      buffer := buffer + input.payload;
    }

    // The loop that cuts whole packets off the buffer.
    method Cut(payloadType: Byte, ghost from: nat) returns (out: seq<Packet>)
      requires segment.Some? && Follows(segment.value, from)
      modifies this
      ensures segment == old(segment) && Valid()
      ensures from <= Whole(segment.value.stream)
      ensures out == Packets(segment.value, payloadType)[from..]
    {
      hide Whole, ToUint16, ToUint32;
      out := [];
      ghost var n := from;
      ghost var s := segment.value;
      while |buffer| >= SIZE
        invariant segment == old(segment) && Follows(s, n)
        invariant n == from + |out|
        invariant forall k :: 0 <= k < |out| ==> from + k < Whole(s.stream) && out[k] == PacketAt(s, from + k, payloadType)
        decreases |buffer|
      {
        NextPacket(s.stream, n);
        WrapAdd(s.sequence, n, 1);
        WrapAdd(s.timestamp, SIZE * n, SIZE);
        var payload := buffer[..SIZE];
        assert payload == s.stream[SIZE * n..SIZE * n + SIZE];
        assert buffer[SIZE..] == s.stream[SIZE * (n + 1)..];
        buffer := buffer[SIZE..];
        out := out + [Packet(payloadType, markerNext, sequence, timestamp, ssrc, payload)];
        markerNext := false;
        sequence := ToUint16(sequence + 1);
        timestamp := ToUint32(timestamp + SIZE);
        n := n + 1;
      }
      AllWhole(s.stream, n);
    }
  }

  lemma NextPacket(stream: seq<Byte>, n: nat)
    requires SIZE * n + SIZE <= |stream|
    ensures n < Whole(stream)
  {
  }

  lemma AllWhole(stream: seq<Byte>, n: nat)
    requires SIZE * n <= |stream| < SIZE * n + SIZE
    ensures n == Whole(stream)
  {
  }
}
