/** The bcmedia byte stream: the incremental parser of internal/baichuan/media.go and the talk
    serializer of internal/baichuan/talk.go. */
module BcMedia {
  import opened GoNumbers
  import opened Wrappers

  const INFO_V1 := 0x31303031
  const INFO_V2 := 0x32303031
  const IFRAME_MIN := 0x63643030
  const IFRAME_MAX := 0x63643039
  const PFRAME_MIN := 0x63643130
  const PFRAME_MAX := 0x63643139
  const AAC := 0x62773530
  const AAC_V2 := 0x62773531
  const ADPCM := 0x62773130
  const ADPCM_HEADER := 0x0100

  datatype Packet =
    | Info(v2: bool, width: Uint32, height: Uint32, fps: Byte)
    | Video(iframe: bool, codec: seq<Byte>, micros: Uint32, unixTime: Option<Uint32>, video: seq<Byte>)
    | Aac(data: seq<Byte>)
    | Adpcm(data: seq<Byte>)

  datatype Error =
    | InfoHeaderSize(size: Uint32)
    | VideoCodec(codec: seq<Byte>)
    | VideoSizes(payload: Uint32, header: Uint32)
    | AdpcmSize(payload16: Uint16)
    | AdpcmMarker(marker: Uint16)
    | UnknownMagic(magic: Uint32)

  // parseMediaPacket's three outcomes: not enough bytes yet, an error, or a packet of `used` bytes.
  datatype Step = More | Fail(error: Error) | Got(packet: Packet, used: nat)

  function PadLen(size: nat): nat {
    if size % 8 == 0 then 0 else 8 - size % 8
  }

  // "H264" and "H265".
  predicate KnownCodec(codec: seq<Byte>) {
    codec == [0x48, 0x32, 0x36, 0x34] || codec == [0x48, 0x32, 0x36, 0x35]
  }

  function ParseInfo(buf: seq<Byte>, v2: bool): Step
    requires |buf| >= 4
  {
    if |buf| < 32 then More
    else if Uint32At(buf, 4) != 32 then Fail(InfoHeaderSize(Uint32At(buf, 4)))
    else Got(Info(v2, Uint32At(buf, 8), Uint32At(buf, 12), buf[17]), 32)
  }

  function ParseVideo(buf: seq<Byte>, iframe: bool, copyPayload: bool): Step
    requires |buf| >= 4
  {
    if |buf| < 24 then More
    else if !KnownCodec(buf[4..8]) then Fail(VideoCodec(buf[4..8]))
    else
      var payload, header := Uint32At(buf, 8), Uint32At(buf, 12);
      if payload > 50 * 1024 * 1024 || header > 1024 * 1024 then Fail(VideoSizes(payload, header))
      else
        var total := 24 + header + payload + PadLen(payload);
        if |buf| < total then More
        else
          var unixTime := if iframe && header >= 4 then Some(Uint32At(buf, 24)) else None;
          var pos := 24 + header;
          Got(Video(iframe, buf[4..8], Uint32At(buf, 16), unixTime,
                    if copyPayload then buf[pos..pos + payload] else []), total)
  }

  function ParseAac(buf: seq<Byte>): Step
    requires |buf| >= 4
  {
    if |buf| < 8 then More
    else
      var size := Uint16At(buf, 4);
      var total := 8 + size + PadLen(size);
      if |buf| < total then More else Got(Aac(buf[8..8 + size]), total)
  }

  function ParseAdpcm(buf: seq<Byte>): Step
    requires |buf| >= 4
  {
    if |buf| < 12 then More
    else
      var size := Uint16At(buf, 4);
      if size < 4 then Fail(AdpcmSize(size))
      else
        var total := 8 + size + PadLen(size);
        if |buf| < total then More
        else if Uint16At(buf, 8) != ADPCM_HEADER then Fail(AdpcmMarker(Uint16At(buf, 8)))
        else Got(Adpcm(buf[12..8 + size]), total)
  }

  // The sixteen-bit AAC and ADPCM sizes cannot reach the source's one-megabyte guards.
  function ParsePacket(buf: seq<Byte>, copyVideo: bool): Step {
    if |buf| < 4 then More
    else
      var magic := Uint32At(buf, 0);
      if magic == INFO_V1 || magic == INFO_V2 then ParseInfo(buf, magic == INFO_V2)
      else if IFRAME_MIN <= magic <= IFRAME_MAX then ParseVideo(buf, true, copyVideo)
      else if PFRAME_MIN <= magic <= PFRAME_MAX then ParseVideo(buf, false, copyVideo)
      else if magic == AAC || magic == AAC_V2 then ParseAac(buf)
      else if magic == ADPCM then ParseAdpcm(buf)
      else Fail(UnknownMagic(magic))
  }

  // A packet takes at least its eight-byte prefix and never more than is buffered.
  lemma PacketConsumes(buf: seq<Byte>, copyVideo: bool)
    ensures var s := ParsePacket(buf, copyVideo); s.Got? ==> 8 <= s.used <= |buf|
  {
  }

  lemma SameNumbers(buf: seq<Byte>, more: seq<Byte>)
    ensures forall at: nat :: at + 2 <= |buf| ==> Uint16At(buf + more, at) == Uint16At(buf, at)
    ensures forall at: nat :: at + 4 <= |buf| ==> Uint32At(buf + more, at) == Uint32At(buf, at)
    ensures forall a: nat, b: nat :: a <= b <= |buf| ==> (buf + more)[a..b] == buf[a..b]
  {
  }

  // Bytes that arrive later never change a verdict already reached.
  lemma VerdictIsStable(buf: seq<Byte>, more: seq<Byte>, copyVideo: bool)
    requires !ParsePacket(buf, copyVideo).More?
    ensures ParsePacket(buf + more, copyVideo) == ParsePacket(buf, copyVideo)
  {
    SameNumbers(buf, more);
    var all := buf + more;
    var magic := Uint32At(buf, 0);
    assert Uint32At(all, 0) == magic;
    if IFRAME_MIN <= magic <= IFRAME_MAX || PFRAME_MIN <= magic <= PFRAME_MAX {
      VideoIsStable(buf, more, IFRAME_MIN <= magic <= IFRAME_MAX, copyVideo);
    }
  }

  lemma VideoIsStable(buf: seq<Byte>, more: seq<Byte>, iframe: bool, copyVideo: bool)
    requires |buf| >= 4 && !ParseVideo(buf, iframe, copyVideo).More?
    ensures ParseVideo(buf + more, iframe, copyVideo) == ParseVideo(buf, iframe, copyVideo)
  {
    hide KnownCodec, PadLen, Uint32At;
    SameNumbers(buf, more);
    assert (buf + more)[4..8] == buf[4..8];
  }

  predicate IsAudio(p: Packet) {
    p.Aac? || p.Adpcm?
  }

  // What one Append call leaves behind: packets in order, unconsumed bytes, and the error if any.
  datatype Outcome = Outcome(packets: seq<Packet>, rest: seq<Byte>, error: Option<Error>)

  // The whole parse of a buffer.
  function ParseAll(buf: seq<Byte>, audioOnly: bool): Outcome
    decreases |buf|
  {
    PacketConsumes(buf, !audioOnly);
    match ParsePacket(buf, !audioOnly)
    case More => Outcome([], buf, None)
    case Fail(e) => Outcome([], buf, Some(e))
    case Got(p, used) =>
      var tail := ParseAll(buf[used..], audioOnly);
      Outcome((if audioOnly && !IsAudio(p) then [] else [p]) + tail.packets, tail.rest, tail.error)
  }

  function Prepend(packets: seq<Packet>, o: Outcome): Outcome {
    Outcome(packets + o.packets, o.rest, o.error)
  }

  // One turn of the loop in Append, with `out` already collected.
  lemma AppendTurn(out: seq<Packet>, buf: seq<Byte>, audioOnly: bool)
    ensures var all, s := Prepend(out, ParseAll(buf, audioOnly)), ParsePacket(buf, !audioOnly);
            if s.Got? then
              && s.used <= |buf|
              && all == Prepend(if audioOnly && !IsAudio(s.packet) then out else out + [s.packet],
                                ParseAll(buf[s.used..], audioOnly))
            else all == Outcome(out, buf, if s.Fail? then Some(s.error) else None)
  {
    hide ParsePacket;
    PacketConsumes(buf, !audioOnly);
    var s := ParsePacket(buf, !audioOnly);
    if s.Got? {
      var tail := ParseAll(buf[s.used..], audioOnly).packets;
      assert out + ([s.packet] + tail) == (out + [s.packet]) + tail;
      assert [] + tail == tail;
    } else {
      assert out + [] == out;
    }
  }

  // Parsing in two instalments is parsing once.
  lemma {:induction false} ParseInTwo(buf: seq<Byte>, more: seq<Byte>, audioOnly: bool)
    ensures var first := ParseAll(buf, audioOnly);
            var second := ParseAll(first.rest + more, audioOnly);
            ParseAll(buf + more, audioOnly) == Outcome(first.packets + second.packets, second.rest, second.error)
    ensures var first := ParseAll(buf, audioOnly);
            first.error.Some? ==> ParseAll(first.rest + more, audioOnly) == Outcome([], first.rest + more, first.error)
    decreases |buf|
  {
    hide ParsePacket, ParseAll;
    AppendTurn([], buf, audioOnly);
    AppendTurn([], buf + more, audioOnly);
    PrependNone(ParseAll(buf, audioOnly));
    PrependNone(ParseAll(buf + more, audioOnly));
    PacketConsumes(buf, !audioOnly);
    var s := ParsePacket(buf, !audioOnly);
    if !s.More? {
      VerdictIsStable(buf, more, !audioOnly);
    }
    if s.Got? {
      assert (buf + more)[s.used..] == buf[s.used..] + more;
      ParseInTwo(buf[s.used..], more, audioOnly);
      var tail := ParseAll(buf[s.used..], audioOnly);
      var head := if audioOnly && !IsAudio(s.packet) then [] else [s.packet];
      assert [] + [s.packet] == [s.packet];
      var second := ParseAll(tail.rest + more, audioOnly);
      assert head + (tail.packets + second.packets) == (head + tail.packets) + second.packets;
    } else {
      PrependNone(ParseAll(buf + more, audioOnly));
      assert [] + ParseAll(buf + more, audioOnly).packets == ParseAll(buf + more, audioOnly).packets;
    }
  }

  lemma PrependNone(o: Outcome)
    ensures Prepend([], o) == o
  {
    assert [] + o.packets == o.packets;
  }

  // A run of Append calls from an empty parser: all packets returned, and the last call's leftovers.
  function AppendAll(chunks: seq<seq<Byte>>, audioOnly: bool): Outcome {
    if chunks == [] then Outcome([], [], None)
    else
      var before := AppendAll(chunks[..|chunks| - 1], audioOnly);
      var call := ParseAll(before.rest + chunks[|chunks| - 1], audioOnly);
      Outcome(before.packets + call.packets, call.rest, call.error)
  }

  // However the stream is cut into Append calls, the outcome is that of a single call.
  lemma {:induction false} SplitInvariance(chunks: seq<seq<Byte>>, audioOnly: bool)
    ensures AppendAll(chunks, audioOnly) == ParseAll(Concat(chunks), audioOnly)
  {
    if chunks == [] {
    } else {
      var front := chunks[..|chunks| - 1];
      SplitInvariance(front, audioOnly);
      ParseInTwo(Concat(front), chunks[|chunks| - 1], audioOnly);
    }
  }

  function AudioOf(packets: seq<Packet>): seq<Packet> {
    if packets == [] then []
    else (if IsAudio(packets[0]) then [packets[0]] else []) + AudioOf(packets[1..])
  }

  // Skipping video payloads changes no framing decision.
  lemma SameFraming(buf: seq<Byte>)
    ensures var full := ParsePacket(buf, true);
            var lean := ParsePacket(buf, false);
            match full {
              case Got(p, used) => lean.Got? && lean.used == used
                                   && (if IsAudio(p) then lean.packet == p else !IsAudio(lean.packet))
              case _ => lean == full
            }
  {
  }

  // AudioOnly output is the full parse with everything but AAC and ADPCM left out.
  lemma {:induction false} AudioOnlyFilters(buf: seq<Byte>)
    ensures var full := ParseAll(buf, false);
            ParseAll(buf, true) == Outcome(AudioOf(full.packets), full.rest, full.error)
    decreases |buf|
  {
    hide ParsePacket;
    SameFraming(buf);
    PacketConsumes(buf, true);
    var s := ParsePacket(buf, true);
    if s.Got? {
      AudioOnlyFilters(buf[s.used..]);
      var tail := ParseAll(buf[s.used..], false);
      assert ParseAll(buf, false).packets == [s.packet] + tail.packets;
      assert ([s.packet] + tail.packets)[1..] == tail.packets;
    }
  }

  // serializeTalkADPCMBlock; the size field keeps only sixteen bits.
  function Serialized(block: seq<Byte>, sequence: Uint16): (bytes: seq<Byte>) {
    var size := |block| + 4;
    PutUint32(ADPCM) + PutUint16(ToUint16(size)) + PutUint16(ToUint16(size))
    + PutUint16(ADPCM_HEADER) + PutUint16(sequence) + block + Zeros(PadLen(size))
  }

  function Zeros(n: nat): (z: seq<Byte>)
    ensures |z| == n
  {
    seq(n, _ => 0)
  }

  // The frame's fields, read back from any stream it begins.
  lemma SerializedFields(block: seq<Byte>, sequence: Uint16, tail: seq<Byte>)
    ensures var b := Serialized(block, sequence) + tail;
            && |Serialized(block, sequence)| == 8 + (|block| + 4) + PadLen(|block| + 4)
            && Uint32At(b, 0) == ADPCM
            && Uint16At(b, 4) == ToUint16(|block| + 4)
            && Uint16At(b, 8) == ADPCM_HEADER
            && b[12..12 + |block|] == block
  {
    var size := |block| + 4;
    var s := ToUint16(size);
    var head := PutUint32(ADPCM) + PutUint16(s) + PutUint16(s) + PutUint16(ADPCM_HEADER) + PutUint16(sequence);
    assert |head| == 12;
    assert Serialized(block, sequence) == head + block + Zeros(PadLen(size));
    var b := Serialized(block, sequence) + tail;
    assert b == head + (block + (Zeros(PadLen(size)) + tail));
    assert b[..12] == head;
    assert b[0] == ADPCM % 0x100 && b[1] == ADPCM / 0x100 % 0x100;
    assert b[2] == ADPCM / 0x1_0000 % 0x100 && b[3] == ADPCM / 0x100_0000;
    assert b[4] == s % 0x100 && b[5] == s / 0x100;
    assert b[8] == ADPCM_HEADER % 0x100 && b[9] == ADPCM_HEADER / 0x100;
  }

  // The parser takes back exactly the serialized frame if and only if its size fits sixteen bits.
  lemma FrameRoundTrip(block: seq<Byte>, sequence: Uint16, tail: seq<Byte>, copyVideo: bool)
    ensures ParsePacket(Serialized(block, sequence) + tail, copyVideo)
            == Got(Adpcm(block), |Serialized(block, sequence)|)
            <==> |block| + 4 <= 0xFFFF
  {
    SerializedFields(block, sequence, tail);
    var b := Serialized(block, sequence) + tail;
    assert ParsePacket(b, copyVideo) == ParseAdpcm(b);
    if |block| + 4 <= 0xFFFF {
      assert ToUint16(|block| + 4) == |block| + 4;
    } else {
      assert ToUint16(|block| + 4) < |block| + 4;
    }
  }

  class MediaParser {
    var buf: seq<Byte>
    const audioOnly: bool

    constructor (audioOnly: bool)
      ensures buf == [] && this.audioOnly == audioOnly
    {
      this.audioOnly := audioOnly;
      buf := [];
    }

    // The source returns the packets parsed so far together with the error.
    method Append(data: seq<Byte>) returns (out: seq<Packet>, error: Option<Error>)
      modifies this
      ensures Outcome(out, buf, error) == ParseAll(old(buf) + data, audioOnly)
    {
      buf := buf + data;
      out := [];
      ghost var whole := ParseAll(buf, audioOnly);
      while true
        invariant Prepend(out, ParseAll(buf, audioOnly)) == whole
        decreases |buf|
      {
        hide ParsePacket, ParseAll, IsAudio;
        AppendTurn(out, buf, audioOnly);
        PacketConsumes(buf, !audioOnly);
        var step := ParsePacket(buf, !audioOnly);
        if step.Fail? {
          return out, Some(step.error);
        }
        if step.More? {
          return out, None;
        }
        buf := buf[step.used..];
        if audioOnly && !IsAudio(step.packet) {
          continue;
        }
        out := out + [step.packet];
      }
    }
  }

  // TalkSession.WriteADPCMBlock: refused when closed or when the block is not the negotiated size.
  datatype WriteError = ContextDone | SessionClosed | BlockSize(got: nat, want: nat)

  // Every block a session accepts fits the sixteen-bit size field, so its frame is parsed back, whatever
  // follows it on the wire.
  lemma AcceptedBlockParses(samplesPerBlock: Uint16, block: seq<Byte>, sequence: Uint16, tail: seq<Byte>, copyVideo: bool)
    requires |block| == BytesPerBlock(samplesPerBlock)
    ensures |block| + 4 <= 0xFFFF
    ensures ParsePacket(Serialized(block, sequence) + tail, copyVideo)
            == Got(Adpcm(block), |Serialized(block, sequence)|)
  {
    hide ParsePacket, Serialized;
    FrameRoundTrip(block, sequence, tail, copyVideo);
  }

  function BytesPerBlock(samplesPerBlock: Uint16): nat {
    samplesPerBlock / 2 + 4
  }

  class TalkSession {
    const samplesPerBlock: Uint16
    const bytesPerBlock: nat
    var closed: bool
    var sequence: Uint16
    var sent: seq<Byte>  // the bodies handed to the camera connection, in order

    predicate Valid() {
      samplesPerBlock >= 2 && samplesPerBlock % 2 == 0 && bytesPerBlock == BytesPerBlock(samplesPerBlock)
    }

    // lengthPerEncoder is the profile's sixteen-bit field.
    constructor (lengthPerEncoder: Uint16)
      requires lengthPerEncoder >= 2 && lengthPerEncoder % 2 == 0
      ensures Valid() && samplesPerBlock == lengthPerEncoder && !closed && sequence == 0 && sent == []
    {
      samplesPerBlock := lengthPerEncoder;
      bytesPerBlock := BytesPerBlock(lengthPerEncoder);
      closed, sequence, sent := false, 0, [];
    }

    // The context is looked at before the session.
    method WriteADPCMBlock(contextDone: bool, block: seq<Byte>) returns (error: Option<WriteError>)
      requires Valid()
      modifies this
      ensures closed == old(closed)
      ensures error == if contextDone then Some(ContextDone)
                       else if old(closed) then Some(SessionClosed)
                       else if |block| != bytesPerBlock then Some(BlockSize(|block|, bytesPerBlock)) else None
      ensures error.Some? ==> sequence == old(sequence) && sent == old(sent)
      ensures error.None? ==> sequence == ToUint16(old(sequence) + 1)
                              && sent == old(sent) + Serialized(block, sequence) && |block| + 4 <= 0xFFFF
    {
      if contextDone {
        return Some(ContextDone);
      }
      if closed {
        return Some(SessionClosed);
      }
      if |block| != bytesPerBlock {
        return Some(BlockSize(|block|, bytesPerBlock));
      }
      sequence := ToUint16(sequence + 1);
      var frame := SerializeTalkADPCMBlock(block, sequence);
      sent := sent + frame[..];
      return None;
    }

    method Close()
      modifies this`closed
      ensures closed
    {
      closed := true;
    }
  }

  method SerializeTalkADPCMBlock(block: seq<Byte>, sequence: Uint16) returns (out: array<Byte>)
    ensures fresh(out) && out[..] == Serialized(block, sequence)
  {
    var payloadSize := |block| + 4;
    var total := 8 + payloadSize + PadLen(payloadSize);
    out := new Byte[total](_ => 0);
    var size := PutUint16(ToUint16(payloadSize));
    var head := PutUint32(ADPCM) + size + size + PutUint16(ADPCM_HEADER) + PutUint16(sequence);
    forall i | 0 <= i < 12 {
      out[i] := head[i];
    }
    forall i | 0 <= i < |block| {
      out[12 + i] := block[i];
    }
    assert out[..] == head + block + Zeros(PadLen(payloadSize));
  }

  // The last step of StartTalk: null stands for its error.
  method StartTalk(lengthPerEncoder: Uint16) returns (session: TalkSession?)
    ensures session == null <==> lengthPerEncoder < 2 || lengthPerEncoder % 2 != 0
    ensures session != null ==>
              && fresh(session) && session.Valid() && session.samplesPerBlock == lengthPerEncoder
              && !session.closed && session.sequence == 0 && session.sent == []
  {
    if lengthPerEncoder < 2 || lengthPerEncoder % 2 != 0 {
      return null;
    }
    session := new TalkSession(lengthPerEncoder);
  }
}
