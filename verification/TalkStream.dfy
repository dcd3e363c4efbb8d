/** The talk path end to end: one running encoder, the serializer, arbitrary network reads,
    the parser and a decoder. */
module TalkStream {
  import opened GoNumbers
  import opened Wrappers
  import A = Adpcm
  import B = BcMedia

  // Blocks EncodeBlock accepts.
  predicate EvenBlocks(blocks: seq<seq<Int16>>) {
    forall b :: b in blocks ==> |b| % 2 == 0
  }

  // Blocks EncodeBlock accepts and whose frame size fits the sixteen-bit field.
  predicate Sendable(blocks: seq<seq<Int16>>) {
    forall b :: b in blocks ==> |b| % 2 == 0 && |b| / 2 + 8 <= 0xFFFF
  }

  // The bytes on the wire: the encoder state and the sequence number run on from block to block.
  function Wire(p: A.Predictor, blocks: seq<seq<Int16>>, sequence: Uint16): seq<Byte>
    requires EvenBlocks(blocks)
    decreases |blocks|
  {
    if blocks == [] then []
    else B.Serialized(A.Block(p, blocks[0]), ToUint16(sequence + 1))
         + Wire(A.AfterSamples(p, blocks[0]), blocks[1..], ToUint16(sequence + 1))
  }

  // What the encoder believes the listener hears.
  function Heard(p: A.Predictor, blocks: seq<seq<Int16>>): seq<Int16>
    decreases |blocks|
  {
    if blocks == [] then [] else A.Trajectory(p, blocks[0]) + Heard(A.AfterSamples(p, blocks[0]), blocks[1..])
  }

  // A decoder fed every ADPCM packet in turn; other packets carry no talk audio.
  function Played(packets: seq<B.Packet>): seq<Int16> {
    if packets == [] then []
    else (if packets[0].Adpcm? then A.Decoded(packets[0].data) else []) + Played(packets[1..])
  }

  // The frame at the head of the stream comes back as one packet and leaves the rest untouched.
  lemma FirstFrame(block: seq<Byte>, sequence: Uint16, tail: seq<Byte>, audioOnly: bool)
    requires |block| + 4 <= 0xFFFF
    ensures B.ParseAll(B.Serialized(block, sequence) + tail, audioOnly)
            == B.Prepend([B.Adpcm(block)], B.ParseAll(tail, audioOnly))
  {
    hide B.ParsePacket, B.Serialized;
    var frame := B.Serialized(block, sequence);
    B.FrameRoundTrip(block, sequence, tail, !audioOnly);
    assert (frame + tail)[|frame|..] == tail;
  }

  lemma NothingToParse(audioOnly: bool)
    ensures B.ParseAll([], audioOnly) == B.Outcome([], [], None)
  {
  }

  lemma {:induction false} WireParses(p: A.Predictor, blocks: seq<seq<Int16>>, sequence: Uint16, audioOnly: bool)
    requires Sendable(blocks)
    ensures var o := B.ParseAll(Wire(p, blocks, sequence), audioOnly);
            && o.rest == [] && o.error.None?
            && |o.packets| == |blocks|
            && Played(o.packets) == Heard(p, blocks)
    decreases |blocks|
  {
    hide B.Serialized, B.ParseAll, B.ParsePacket, A.Block, A.AfterSamples, A.Trajectory, A.Decoded;
    NothingToParse(audioOnly);
    if blocks != [] {
      assert blocks[0] in blocks;
      var block := A.Block(p, blocks[0]);
      var next := ToUint16(sequence + 1);
      var tail := Wire(A.AfterSamples(p, blocks[0]), blocks[1..], next);
      FirstFrame(block, next, tail, audioOnly);
      WireParses(A.AfterSamples(p, blocks[0]), blocks[1..], next, audioOnly);
      var rest := B.ParseAll(tail, audioOnly);
      assert ([B.Adpcm(block)] + rest.packets)[1..] == rest.packets;
      A.BlockRoundTrip(p, blocks[0]);
    }
  }

  // Whatever the network does to the chunk boundaries, the listener hears the encoder's predictor
  // sample for sample, nothing is left over and nothing fails.
  lemma EndToEnd(p: A.Predictor, blocks: seq<seq<Int16>>, sequence: Uint16, chunks: seq<seq<Byte>>, audioOnly: bool)
    requires Sendable(blocks)
    requires Concat(chunks) == Wire(p, blocks, sequence)
    ensures var o := B.AppendAll(chunks, audioOnly);
            && o.rest == [] && o.error.None?
            && |o.packets| == |blocks|
            && Played(o.packets) == Heard(p, blocks)
  {
    B.SplitInvariance(chunks, audioOnly);
    WireParses(p, blocks, sequence, audioOnly);
  }

  /* What a talk session sends. */

  // Blocks of the size the session has agreed on with the camera, as its playout loop pops them.
  predicate SessionBlocks(blocks: seq<seq<Int16>>, samplesPerBlock: Uint16) {
    forall b :: b in blocks ==> |b| == samplesPerBlock
  }

  lemma SessionBlocksFit(blocks: seq<seq<Int16>>, samplesPerBlock: Uint16)
    requires samplesPerBlock >= 2 && samplesPerBlock % 2 == 0 && SessionBlocks(blocks, samplesPerBlock)
    ensures EvenBlocks(blocks) && Sendable(blocks)
  {
  }

  // A session never sends a block that does not fit, so nothing is assumed about sizes here.
  lemma SessionIsHeard(samplesPerBlock: Uint16, p: A.Predictor, blocks: seq<seq<Int16>>, sequence: Uint16,
                       chunks: seq<seq<Byte>>, audioOnly: bool)
    requires samplesPerBlock >= 2 && samplesPerBlock % 2 == 0 && SessionBlocks(blocks, samplesPerBlock)
    requires EvenBlocks(blocks) && Concat(chunks) == Wire(p, blocks, sequence)
    ensures var o := B.AppendAll(chunks, audioOnly);
            && o.rest == [] && o.error.None?
            && |o.packets| == |blocks|
            && Played(o.packets) == Heard(p, blocks)
  {
    SessionBlocksFit(blocks, samplesPerBlock);
    hide Wire, B.AppendAll, Played, Heard;
    EndToEnd(p, blocks, sequence, chunks, audioOnly);
  }

  lemma WireThen(p: A.Predictor, blocks: seq<seq<Int16>>, sequence: Uint16)
    requires EvenBlocks(blocks) && blocks != []
    ensures EvenBlocks(blocks[1..]) && blocks[0] in blocks && |blocks[0]| % 2 == 0
    ensures Wire(p, blocks, sequence)
            == B.Serialized(A.Block(p, blocks[0]), ToUint16(sequence + 1))
               + Wire(A.AfterSamples(p, blocks[0]), blocks[1..], ToUint16(sequence + 1))
  {
  }

  // One turn of the talk bridge's loop.
  method TalkBlock(encoder: A.ADPCMEncoder, session: B.TalkSession, pcm: seq<Int16>)
    requires session.Valid() && !session.closed && |pcm| == session.samplesPerBlock && |pcm| % 2 == 0
    modifies encoder, session
    ensures !session.closed && session.sequence == ToUint16(old(session.sequence) + 1)
    ensures encoder.State() == A.AfterSamples(old(encoder.State()), pcm)
    ensures session.sent == old(session.sent) + B.Serialized(A.Block(old(encoder.State()), pcm), session.sequence)
  {
    hide B.Serialized, A.AfterSamples;
    var ok, block := encoder.EncodeBlock(pcm);
    var error := session.WriteADPCMBlock(false, block[..]);
    assert error == None;
  }

  // The loop of the talk bridge: every block that is due is encoded and handed to the session.
  method Talk(encoder: A.ADPCMEncoder, session: B.TalkSession, blocks: seq<seq<Int16>>)
    requires session.Valid() && !session.closed
    requires SessionBlocks(blocks, session.samplesPerBlock) && EvenBlocks(blocks)
    modifies encoder, session
    ensures !session.closed
    ensures session.sent == old(session.sent) + Wire(old(encoder.State()), blocks, old(session.sequence))
  {
    hide Wire, B.Serialized, A.AfterSamples, A.Block;
    ghost var all := Wire(encoder.State(), blocks, session.sequence);
    ghost var done: seq<Byte> := [];
    assert blocks[0..] == blocks && session.sent + done == session.sent && done + all == all;
    for i := 0 to |blocks|
      invariant !session.closed && EvenBlocks(blocks[i..])
      invariant session.sent == old(session.sent) + done
      invariant all == done + Wire(encoder.State(), blocks[i..], session.sequence)
    {
      WireThen(encoder.State(), blocks[i..], session.sequence);
      assert blocks[i] in blocks && blocks[i..][1..] == blocks[i + 1..];
      ghost var frame := B.Serialized(A.Block(encoder.State(), blocks[i]), ToUint16(session.sequence + 1));
      TalkBlock(encoder, session, blocks[i]);
      Regroup(done, frame, Wire(encoder.State(), blocks[i + 1..], session.sequence));
      Regroup(old(session.sent), done, frame);
      done := done + frame;
    }
    NothingToSend(encoder.State(), session.sequence);
    assert blocks[|blocks|..] == [] && done + [] == done;
  }

  lemma Regroup(a: seq<Byte>, b: seq<Byte>, c: seq<Byte>)
    ensures a + (b + c) == (a + b) + c
  {
  }

  lemma NothingToSend(p: A.Predictor, sequence: Uint16)
    ensures Wire(p, [], sequence) == []
  {
  }
}
