/** The RFC 6455 frames of internal/ha/websocket.go on the wire, and the messages they make up. */
module WebSocketFrames {
  import opened GoNumbers
  import opened Wrappers

  const CONTINUATION := 0
  const TEXT := 1
  const CLOSE := 8
  const PING := 9
  const PONG := 10
  const MAX_MESSAGE := 16_777_216

  type Mask = m: seq<Byte> | |m| == 4 witness [0, 0, 0, 0]

  /* Masking. */

  // The exclusive or of the low `bits` bits, lowest bit first.
  function XorBits(a: nat, b: nat, bits: nat): nat {
    if bits == 0 then 0 else (a + b) % 2 + 2 * XorBits(a / 2, b / 2, bits - 1)
  }

  function Pow2(n: nat): nat {
    if n == 0 then 1 else 2 * Pow2(n - 1)
  }

  lemma {:induction false} XorTwice(a: nat, b: nat, bits: nat)
    requires a < Pow2(bits)
    ensures XorBits(a, b, bits) < Pow2(bits)
    ensures XorBits(XorBits(a, b, bits), b, bits) == a
  {
    if bits > 0 {
      XorTwice(a / 2, b / 2, bits - 1);
      OneBit(a, b, XorBits(a / 2, b / 2, bits - 1));
    }
  }

  lemma OneBit(a: nat, b: nat, high: nat)
    ensures var x := (a + b) % 2 + 2 * high;
            x / 2 == high && (x + b) % 2 == a % 2
  {
    assert ((a + b) % 2 + b) % 2 == a % 2;
  }

  lemma ByteBits()
    ensures Pow2(8) == 0x100
  {
    assert Pow2(4) == 16;
  }

  function Xor(a: Byte, b: Byte): Byte {
    ByteBits();
    XorTwice(a, b, 8);
    XorBits(a, b, 8)
  }

  function Masked(payload: seq<Byte>, mask: Mask): (out: seq<Byte>)
    ensures |out| == |payload|
  {
    seq(|payload|, i requires 0 <= i < |payload| => Xor(payload[i], mask[i % 4]))
  }

  lemma MaskTwice(payload: seq<Byte>, mask: Mask)
    ensures Masked(Masked(payload, mask), mask) == payload
  {
    hide Xor;
    forall i | 0 <= i < |payload|
      ensures Xor(Xor(payload[i], mask[i % 4]), mask[i % 4]) == payload[i]
    {
      XorOnce(payload[i], mask[i % 4]);
    }
  }

  lemma XorOnce(a: Byte, b: Byte)
    ensures Xor(Xor(a, b), b) == a
  {
    ByteBits();
    XorTwice(a, b, 8);
    hide XorBits;
  }

  /* Big-endian numbers. */

  function PutBE(n: nat, v: nat): (s: seq<Byte>)
    ensures |s| == n
  {
    if n == 0 then [] else PutBE(n - 1, v / 0x100) + [v % 0x100]
  }

  function BE(s: seq<Byte>): nat {
    if s == [] then 0 else 0x100 * BE(s[..|s| - 1]) + (s[|s| - 1] as int)
  }

  function Pow256(n: nat): nat {
    if n == 0 then 1 else 0x100 * Pow256(n - 1)
  }

  lemma {:induction false} BEOfPut(n: nat, v: nat)
    requires v < Pow256(n)
    ensures BE(PutBE(n, v)) == v
  {
    if n > 0 {
      BEOfPut(n - 1, v / 0x100);
      assert PutBE(n, v)[..n - 1] == PutBE(n - 1, v / 0x100);
    }
  }

  lemma LengthsFit()
    ensures Pow256(2) == 0x1_0000 && Pow256(8) > MAX_MESSAGE
  {
    assert Pow256(4) == 0x1_0000_0000;
    assert Pow256(6) >= Pow256(4);
  }

  /* One frame. */

  // 0x80 | b
  function SetHigh(b: Byte): Byte {
    if b >= 0x80 then b else b + 0x80
  }

  function Header(first: Byte, masked: bool, plen: nat): seq<Byte> {
    var flag := if masked then 0x80 else 0;
    if plen < 126 then [first, flag + plen]
    else if plen <= 0xFFFF then [first, flag + 126] + PutBE(2, plen)
    else [first, flag + 127] + PutBE(8, plen)
  }

  function Encode(first: Byte, payload: seq<Byte>, mask: Option<Mask>): seq<Byte> {
    Header(first, mask.Some?, |payload|)
    + if mask.Some? then mask.value + Masked(payload, mask.value) else payload
  }

  // What writeFrame sends.
  function Written(opcode: Byte, payload: seq<Byte>, mask: Mask): seq<Byte> {
    Encode(SetHigh(opcode), payload, Some(mask))
  }

  datatype FrameRead =
    | Frame(fin: bool, opcode: Byte, payload: seq<Byte>, used: nat)
    | Truncated
    | FrameTooLarge

  datatype Lengths = Lengths(plen: nat, used: nat)

  function ReadLength(stream: seq<Byte>): (r: Option<Lengths>)
    ensures r.Some? ==> 2 <= r.value.used <= |stream|
  {
    if |stream| < 2 then None
    else
      var short := stream[1] % 0x80;
      if short == 126 then
        if |stream| < 4 then None else Some(Lengths(BE(stream[2..4]), 4))
      else if short == 127 then
        if |stream| < 10 then None else Some(Lengths(BE(stream[2..10]), 10))
      else Some(Lengths(short, 2))
  }

  function ReadFrame(stream: seq<Byte>): (r: FrameRead)
    ensures r.Frame? ==> 2 <= r.used <= |stream| && |r.payload| <= MAX_MESSAGE
  {
    var lengths := ReadLength(stream);
    if lengths == None then Truncated
    else if lengths.value.plen > MAX_MESSAGE then FrameTooLarge
    else
      ReadBody(stream, lengths.value, stream[1] >= 0x80)
  }

  function ReadBody(stream: seq<Byte>, lengths: Lengths, masked: bool): (r: FrameRead)
    requires 2 <= lengths.used && 1 <= |stream| && lengths.plen <= MAX_MESSAGE
    ensures r.Frame? || r.Truncated?
    ensures r.Frame? ==> 2 <= r.used <= |stream| && |r.payload| <= MAX_MESSAGE
  {
    var start := lengths.used + if masked then 4 else 0;
    var end := start + lengths.plen;
    if |stream| < end then Truncated
    else
      var body := stream[start..end];
      Frame(stream[0] >= 0x80, stream[0] % 0x10,
            if masked then Masked(body, stream[start - 4..start]) else body, end)
  }

  // What a call of readFrame leaves unread: all of a stream that ended too early is used up.
  function Unread(stream: seq<Byte>): seq<Byte> {
    match ReadFrame(stream)
    case Frame(_, _, _, used) => stream[used..]
    case Truncated => []
    case FrameTooLarge => (match ReadLength(stream) case Some(l) => stream[l.used..] case None => [])
  }

  lemma HeaderRead(first: Byte, masked: bool, plen: nat, rest: seq<Byte>)
    requires plen <= MAX_MESSAGE
    ensures var h := Header(first, masked, plen);
            && |h| >= 2 && h[0] == first && (h[1] >= 0x80 <==> masked)
            && ReadLength(h + rest) == Some(Lengths(plen, |h|))
  {
    LengthsFit();
    hide Pow256, PutBE, BE;
    var h := Header(first, masked, plen);
    if plen >= 126 {
      var n := if plen <= 0xFFFF then 2 else 8;
      BEOfPut(n, plen);
      assert (h + rest)[2..2 + n] == PutBE(n, plen);
    }
  }

  // readFrame recovers every frame from its encoding, in all three length forms, and takes no more.
  lemma ReadInvertsEncode(first: Byte, payload: seq<Byte>, mask: Option<Mask>, rest: seq<Byte>)
    requires |payload| <= MAX_MESSAGE
    ensures ReadFrame(Encode(first, payload, mask) + rest)
            == Frame(first >= 0x80, first % 0x10, payload, |Encode(first, payload, mask)|)
  {
    hide Header, ReadLength, Masked, Encode;
    var h := Header(first, mask.Some?, |payload|);
    if mask.Some? {
      var body := Masked(payload, mask.value);
      HeaderRead(first, true, |payload|, mask.value + body + rest);
      MaskTwice(payload, mask.value);
      MaskedParts(h, mask.value, body, rest);
    } else {
      HeaderRead(first, false, |payload|, payload + rest);
      PlainPart(h, payload, rest);
    }
    Encoded(first, payload, mask);
  }

  lemma Encoded(first: Byte, payload: seq<Byte>, mask: Option<Mask>)
    ensures Encode(first, payload, mask)
            == Header(first, mask.Some?, |payload|)
               + if mask.Some? then mask.value + Masked(payload, mask.value) else payload
  {
  }

  lemma MaskedParts(h: seq<Byte>, mask: Mask, body: seq<Byte>, rest: seq<Byte>)
    ensures var stream := (h + (mask + body)) + rest;
            && stream == h + (mask + body + rest)
            && stream[|h|..|h| + 4] == mask
            && stream[|h| + 4..|h| + 4 + |body|] == body
  {
  }

  lemma PlainPart(h: seq<Byte>, body: seq<Byte>, rest: seq<Byte>)
    ensures var stream := (h + body) + rest;
            stream == h + (body + rest) && stream[|h|..|h| + |body|] == body
  {
  }

  // Every four-bit opcode survives; of a wider one only the low four bits do.
  lemma ReadInvertsWrite(opcode: Byte, payload: seq<Byte>, mask: Mask, rest: seq<Byte>)
    requires |payload| <= MAX_MESSAGE
    ensures var r := ReadFrame(Written(opcode, payload, mask) + rest);
            && r == Frame(true, opcode % 0x10, payload, |Written(opcode, payload, mask)|)
            && (r.opcode == opcode <==> opcode < 0x10)
            && (Written(opcode, payload, mask) + rest)[r.used..] == rest
  {
    ReadInvertsEncode(SetHigh(opcode), payload, Some(mask), rest);
    hide Encode, ReadFrame;
  }

  lemma ReadLengthPrefix(stream: seq<Byte>, n: nat)
    requires n <= |stream| && ReadLength(stream).Some?
    ensures ReadLength(stream[..n]) == if n < ReadLength(stream).value.used then None else ReadLength(stream)
  {
    hide BE;
    if n >= 4 { assert stream[..n][2..4] == stream[2..4]; }
    if n >= 10 { assert stream[..n][2..10] == stream[2..10]; }
  }

  // A frame cut short anywhere is never mistaken for another one.
  lemma CutFrameTruncated(stream: seq<Byte>, n: nat)
    requires ReadFrame(stream).Frame? && n < ReadFrame(stream).used
    ensures ReadFrame(stream[..n]) == Truncated
  {
    ReadLengthPrefix(stream, n);
    hide ReadLength;
  }

  /* Messages. */

  datatype Outcome =
    | Message(payload: seq<Byte>)
    | Closed
    | TextInMessage
    | StrayContinuation
    | MessageTooLarge
    | ReadFailed(error: FrameRead)

  // What ReadMessage has gathered so far, and what it does with the next frame.
  datatype Gathered = Gathered(started: bool, message: seq<Byte>)

  datatype Verdict = More(gathered: Gathered) | Reply(pong: seq<Byte>) | Done(outcome: Outcome)

  function Absorb(g: Gathered, fin: bool, opcode: Byte, payload: seq<Byte>): Verdict {
    if opcode == PING then Reply(payload)
    else if opcode == CLOSE then Done(Closed)
    else if opcode == TEXT || opcode == CONTINUATION then
      if opcode == TEXT && g.started then Done(TextInMessage)
      else if opcode == CONTINUATION && !g.started then Done(StrayContinuation)
      else
        var message := g.message + payload;
        if |message| > MAX_MESSAGE then Done(MessageTooLarge)
        else if fin then Done(Message(message))
        else More(Gathered(true, message))
    else More(g)
  }

  datatype Reading = Reading(outcome: Outcome, rest: seq<Byte>, pongs: seq<seq<Byte>>)

  function ReadMessage(stream: seq<Byte>, g: Gathered): Reading
    decreases |stream|
  {
    var r := ReadFrame(stream);
    if !r.Frame? then Reading(ReadFailed(r), Unread(stream), [])
    else
      var rest := stream[r.used..];
      match Absorb(g, r.fin, r.opcode, r.payload)
      case Done(outcome) => Reading(outcome, rest, [])
      case More(h) => ReadMessage(rest, h)
      case Reply(pong) =>
        Pinged(pong, ReadMessage(rest, g))
  }

  // One turn of ReadMessage's loop.
  lemma MessageTurn(stream: seq<Byte>, g: Gathered)
    ensures var r, rest := ReadFrame(stream), Unread(stream);
            ReadMessage(stream, g) ==
              if !r.Frame? then Reading(ReadFailed(r), rest, [])
              else match Absorb(g, r.fin, r.opcode, r.payload)
                   case Done(outcome) => Reading(outcome, rest, [])
                   case More(h) => ReadMessage(rest, h)
                   case Reply(pong) => Pinged(pong, ReadMessage(rest, g))
  {
    hide ReadFrame, Absorb;
  }

  function Pinged(pong: seq<Byte>, more: Reading): Reading {
    more.(pongs := [pong] + more.pongs)
  }

  // A frame as it was read.
  datatype Got = Got(fin: bool, opcode: Byte, payload: seq<Byte>)

  // The stream begins with these frames, in whatever length form each was sent, and goes on with the rest.
  ghost predicate Reads(stream: seq<Byte>, frames: seq<Got>, rest: seq<Byte>)
    decreases |frames|
  {
    if frames == [] then rest == stream
    else
      var r := ReadFrame(stream);
      r.Frame? && frames[0] == Got(r.fin, r.opcode, r.payload) && Reads(stream[r.used..], frames[1..], rest)
  }

  predicate IsData(f: Got) {
    f.opcode == TEXT || f.opcode == CONTINUATION
  }

  // One message: text, continuations, and the last frame alone marked final; anything but a close
  // may come in between.
  predicate Fragments(frames: seq<Got>, started: bool) {
    frames != []
    && var f := frames[0];
       if IsData(f) then
         && f.opcode == (if started then CONTINUATION else TEXT)
         && if f.fin then |frames| == 1 else Fragments(frames[1..], true)
       else f.opcode != CLOSE && Fragments(frames[1..], started)
  }

  function DataOf(frames: seq<Got>): seq<Byte> {
    if frames == [] then []
    else (if IsData(frames[0]) then frames[0].payload else []) + DataOf(frames[1..])
  }

  function PingsOf(frames: seq<Got>): seq<seq<Byte>> {
    if frames == [] then []
    else (if frames[0].opcode == PING then [frames[0].payload] else []) + PingsOf(frames[1..])
  }

  lemma {:induction false} GatherMessage(stream: seq<Byte>, frames: seq<Got>, g: Gathered, rest: seq<Byte>)
    requires Reads(stream, frames, rest) && Fragments(frames, g.started)
    requires |g.message| + |DataOf(frames)| <= MAX_MESSAGE
    ensures ReadMessage(stream, g) == Reading(Message(g.message + DataOf(frames)), rest, PingsOf(frames))
    decreases |frames|
  {
    hide ReadFrame;
    var f, more := frames[0], frames[1..];
    var tail := stream[ReadFrame(stream).used..];
    if IsData(f) {
      var message := g.message + f.payload;
      assert message + DataOf(more) == g.message + DataOf(frames);
      if f.fin {
        assert more == [] && message + [] == message;
      } else {
        GatherMessage(tail, more, Gathered(true, message), rest);
      }
    } else {
      assert DataOf(frames) == DataOf(more);
      GatherMessage(tail, more, g, rest);
    }
  }

  lemma {:induction false} OnlyFragments(stream: seq<Byte>, g: Gathered) returns (frames: seq<Got>)
    requires ReadMessage(stream, g).outcome.Message?
    ensures Reads(stream, frames, ReadMessage(stream, g).rest) && Fragments(frames, g.started)
    ensures |g.message| + |DataOf(frames)| <= MAX_MESSAGE
    decreases |stream|
  {
    hide ReadFrame;
    var r := ReadFrame(stream);
    var f := Got(r.fin, r.opcode, r.payload);
    var tail := stream[r.used..];
    if IsData(f) && f.fin {
      frames := [f];
      assert frames[1..] == [] && DataOf(frames) == f.payload + [];
    } else {
      var more := OnlyFragments(tail, if IsData(f) then Gathered(true, g.message + f.payload) else g);
      frames := [f] + more;
      assert frames[1..] == more;
    }
  }

  const NothingYet := Gathered(false, [])

  // For every byte stream: ReadMessage returns a message, leaves a rest and answers pings if and only if
  // the stream begins with frames that are the fragments of that message, within the limit, has that
  // rest, and those pings came in between.
  lemma MessageIff(stream: seq<Byte>, message: seq<Byte>, rest: seq<Byte>, pongs: seq<seq<Byte>>)
    ensures ReadMessage(stream, NothingYet) == Reading(Message(message), rest, pongs)
            <==> exists frames :: Reads(stream, frames, rest) && Fragments(frames, false)
                                  && DataOf(frames) == message && |message| <= MAX_MESSAGE && PingsOf(frames) == pongs
  {
    hide ReadMessage, Reads, Fragments, DataOf, PingsOf;
    if ReadMessage(stream, NothingYet) == Reading(Message(message), rest, pongs) {
      var frames := OnlyFragments(stream, NothingYet);
      GatherMessage(stream, frames, NothingYet, rest);
      assert [] + DataOf(frames) == DataOf(frames);
    }
    forall frames | Reads(stream, frames, rest) && Fragments(frames, false)
                    && DataOf(frames) == message && |message| <= MAX_MESSAGE && PingsOf(frames) == pongs
      ensures ReadMessage(stream, NothingYet) == Reading(Message(message), rest, pongs)
    {
      GatherMessage(stream, frames, NothingYet, rest);
      assert [] + message == message;
    }
  }

  /* Frames as the other end sends them. */

  // The first byte with its flags, and a mask or none.
  datatype Sent = Sent(first: Byte, payload: seq<Byte>, mask: Option<Mask>)

  function Wire(frames: seq<Sent>): seq<Byte> {
    if frames == [] then []
    else Encode(frames[0].first, frames[0].payload, frames[0].mask) + Wire(frames[1..])
  }

  function ViewOf(f: Sent): Got {
    Got(f.first >= 0x80, f.first % 0x10, f.payload)
  }

  function Views(frames: seq<Sent>): (views: seq<Got>)
    ensures |views| == |frames|
  {
    seq(|frames|, i requires 0 <= i < |frames| => ViewOf(frames[i]))
  }

  ghost predicate Bounded(frames: seq<Sent>) {
    forall i :: 0 <= i < |frames| ==> |frames[i].payload| <= MAX_MESSAGE
  }

  lemma AfterPrefix(w: seq<Byte>, x: seq<Byte>)
    ensures (w + x)[|w|..] == x
  {
  }

  lemma WireNone(rest: seq<Byte>)
    ensures Reads(Wire([]) + rest, Views([]), rest)
  {
    assert Wire([]) + rest == rest && Views([]) == [];
  }

  lemma WireCons(frames: seq<Sent>, rest: seq<Byte>)
    requires frames != []
    ensures var f := frames[0];
            Wire(frames) + rest == Encode(f.first, f.payload, f.mask) + (Wire(frames[1..]) + rest)
  {
    hide Encode;
    var f := frames[0];
    var w, more := Encode(f.first, f.payload, f.mask), Wire(frames[1..]);
    assert Wire(frames) == w + more;
    hide Wire;
    assert (w + more) + rest == w + (more + rest);
  }

  lemma ViewsCons(frames: seq<Sent>)
    requires frames != []
    ensures Views(frames) == [ViewOf(frames[0])] + Views(frames[1..])
  {
    hide ViewOf;
  }

  lemma {:induction false} WireReads(frames: seq<Sent>, rest: seq<Byte>)
    requires Bounded(frames)
    ensures Reads(Wire(frames) + rest, Views(frames), rest)
  {
    hide ReadFrame, Encode, Reads, Wire, Views;
    if frames == [] {
      WireNone(rest);
    } else {
      var f, tail := frames[0], Wire(frames[1..]) + rest;
      WireReads(frames[1..], rest);
      WireCons(frames, rest);
      ViewsCons(frames);
      ReadInvertsEncode(f.first, f.payload, f.mask, tail);
      ReadsCons(Encode(f.first, f.payload, f.mask), tail, ViewOf(f), Views(frames[1..]), rest);
    }
  }

  lemma ReadsCons(w: seq<Byte>, tail: seq<Byte>, f: Got, frames: seq<Got>, rest: seq<Byte>)
    requires ReadFrame(w + tail) == Frame(f.fin, f.opcode, f.payload, |w|)
    requires Reads(tail, frames, rest)
    ensures Reads(w + tail, [f] + frames, rest)
  {
    hide ReadFrame;
    AfterPrefix(w, tail);
    assert ([f] + frames)[1..] == frames;
  }

  // However a message is cut up and whatever pings and pongs come in between, ReadMessage returns all
  // of it, answers each ping once and in order, and leaves the stream after its last frame.
  lemma FragmentsReassemble(frames: seq<Sent>, rest: seq<Byte>)
    requires Bounded(frames) && Fragments(Views(frames), false) && |DataOf(Views(frames))| <= MAX_MESSAGE
    ensures ReadMessage(Wire(frames) + rest, NothingYet)
            == Reading(Message(DataOf(Views(frames))), rest, PingsOf(Views(frames)))
  {
    hide ReadMessage, Wire, Views, Reads, Fragments, DataOf, PingsOf;
    WireReads(frames, rest);
    GatherMessage(Wire(frames) + rest, Views(frames), NothingYet, rest);
    assert [] + DataOf(Views(frames)) == DataOf(Views(frames));
  }
}
