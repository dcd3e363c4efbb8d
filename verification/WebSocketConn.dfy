/** wsConn of internal/ha/websocket.go, over the bytes still to be read and the bytes sent so far. */
module WebSocketConn {
  import opened GoNumbers
  import opened Wrappers
  import opened WebSocketFrames

  // The pongs ReadMessage sends, each under a mask of its own.
  function PongBytes(pongs: seq<seq<Byte>>, masks: seq<Mask>): seq<Byte>
    requires |pongs| == |masks|
  {
    if pongs == [] then []
    else PongBytes(pongs[..|pongs| - 1], masks[..|pongs| - 1])
         + Written(PONG, pongs[|pongs| - 1], masks[|pongs| - 1])
  }

  lemma PongAppend(pongs: seq<seq<Byte>>, masks: seq<Mask>, pong: seq<Byte>, mask: Mask)
    requires |pongs| == |masks|
    ensures PongBytes(pongs + [pong], masks + [mask]) == PongBytes(pongs, masks) + Written(PONG, pong, mask)
  {
    assert (pongs + [pong])[..|pongs|] == pongs && (masks + [mask])[..|pongs|] == masks;
  }

  class WsConn {
    var input: seq<Byte>
    var output: seq<Byte>

    constructor (incoming: seq<Byte>)
      ensures input == incoming && output == []
    {
      input, output := incoming, [];
    }

    method WriteFrame(opcode: Byte, payload: seq<Byte>, mask: Mask) returns (ok: bool)
      modifies this`output
      ensures ok == (|payload| <= MAX_MESSAGE)
      ensures output == if ok then old(output) + Written(opcode, payload, mask) else old(output)
    {
      if |payload| > MAX_MESSAGE {
        return false;
      }
      var plen := |payload|;
      var header: seq<Byte>;
      if plen < 126 {
        header := [SetHigh(opcode), 0x80 + plen];
      } else if plen <= 0xFFFF {
        header := [SetHigh(opcode), 0x80 + 126] + PutBE(2, plen);
      } else {
        header := [SetHigh(opcode), 0x80 + 127] + PutBE(8, plen);
      }
      header := header + mask;
      var frame := MaskedFrame(header, payload, mask);
      hide Header, Masked;
      assert frame[..] == Written(opcode, payload, mask);
      output := output + frame[..];
      return true;
    }

    method MaskedFrame(header: seq<Byte>, payload: seq<Byte>, mask: Mask) returns (frame: array<Byte>)
      ensures fresh(frame) && frame[..] == header + Masked(payload, mask)
    {
      var n := |header|;
      frame := new Byte[n + |payload|](i requires 0 <= i < n + |payload| => if i < n then header[i] else 0);
      hide Xor;
      for i := 0 to |payload|
        invariant forall j :: 0 <= j < n ==> frame[j] == header[j]
        invariant forall j :: n <= j < n + i ==> frame[j] == Masked(payload, mask)[j - n]
      {
        frame[n + i] := Xor(payload[i], mask[i % 4]);
      }
    }

    // io.ReadFull: all n bytes, or a failed connection.
    method ReadFull(n: nat) returns (data: Option<seq<Byte>>)
      modifies this`input
      ensures data == if |old(input)| < n then None else Some(old(input)[..n])
      ensures input == if |old(input)| < n then [] else old(input)[n..]
    {
      if |input| < n {
        input := [];
        return None;
      }
      data := Some(input[..n]);
      input := input[n..];
    }

    method ReadLengths() returns (first: Byte, masked: bool, plen: Option<nat>)
      modifies this`input
      ensures plen == match ReadLength(old(input)) { case None => None case Some(l) => Some(l.plen) }
      ensures plen.None? ==> input == []
      ensures plen.Some? ==>
                && first == old(input)[0] && masked == (old(input)[1] >= 0x80)
                && ReadLength(old(input)).value.used <= |old(input)|
                && input == old(input)[ReadLength(old(input)).value.used..]
    {
      hide BE;
      first, masked := 0, false;
      var h := ReadFull(2);
      if h == None {
        return first, masked, None;
      }
      first, masked := h.value[0], h.value[1] >= 0x80;
      var short := h.value[1] % 0x80;
      if short != 126 && short != 127 {
        return first, masked, Some(short);
      }
      ghost var after := input;
      var size := if short == 126 then 2 else 8;
      var b := ReadFull(size);
      if b == None {
        return first, masked, None;
      }
      assert after[..size] == old(input)[2..2 + size] && after[size..] == old(input)[2 + size..];
      return first, masked, Some(BE(b.value));
    }

    method ReadFrame() returns (r: FrameRead)
      modifies this`input
      ensures r == WebSocketFrames.ReadFrame(old(input))
      ensures input == Unread(old(input))
    {
      hide ReadLength, WebSocketFrames.ReadBody;
      var total := |input|;
      var first, masked, plen := ReadLengths();
      if plen == None {
        return Truncated;
      }
      if plen.value > MAX_MESSAGE {
        return FrameTooLarge;
      }
      r := ReadBody(first, masked, plen.value, total - |input|, old(input));
    }

    // The mask, if there is one, and the payload.
    method ReadBody(first: Byte, masked: bool, plen: nat, used: nat, ghost stream: seq<Byte>) returns (r: FrameRead)
      requires 2 <= used <= |stream| && input == stream[used..] && first == stream[0] && plen <= MAX_MESSAGE
      modifies this`input
      ensures r == WebSocketFrames.ReadBody(stream, Lengths(plen, used), masked)
      ensures input == if r.Frame? then stream[r.used..] else []
    {
      hide Masked;
      var mask: Option<Mask> := None;
      if masked {
        var m := ReadFull(4);
        if m == None {
          return Truncated;
        }
        mask := Some(m.value);
        assert m.value == stream[used..used + 4] && input == stream[used + 4..];
      }
      r := ReadPayload(first, mask, plen, used + if masked then 4 else 0, stream);
    }

    method ReadPayload(first: Byte, mask: Option<Mask>, plen: nat, start: nat, ghost stream: seq<Byte>)
      returns (r: FrameRead)
      requires start <= |stream| && input == stream[start..]
      modifies this`input
      ensures r == if |stream| < start + plen then Truncated
                   else
                     var body := stream[start..start + plen];
                     Frame(first >= 0x80, first % 0x10,
                           if mask.Some? then Masked(body, mask.value) else body, start + plen)
      ensures input == if r.Frame? then stream[r.used..] else []
    {
      hide Masked;
      var payload := ReadFull(plen);
      if payload == None {
        return Truncated;
      }
      assert payload.value == stream[start..start + plen] && input == stream[start + plen..];
      var plain := payload.value;
      if mask.Some? {
        var unmasked := Unmask(payload.value, mask.value);
        plain := unmasked[..];
      }
      r := Frame(first >= 0x80, first % 0x10, plain, start + plen);
    }

    // The loop that unmasks a payload where it lies.
    method Unmask(body: seq<Byte>, mask: Mask) returns (payload: array<Byte>)
      ensures fresh(payload) && payload[..] == Masked(body, mask)
    {
      payload := new Byte[|body|](i requires 0 <= i < |body| => body[i]);
      hide Xor;
      for i := 0 to |body|
        invariant forall j :: 0 <= j < i ==> payload[j] == Masked(body, mask)[j]
        invariant forall j :: i <= j < |body| ==> payload[j] == body[j]
      {
        payload[i] := Xor(payload[i], mask[i % 4]);
      }
    }

    method ReadMessage() returns (outcome: Outcome, ghost pongs: seq<seq<Byte>>, ghost masks: seq<Mask>)
      modifies this
      ensures var reading := WebSocketFrames.ReadMessage(old(input), NothingYet);
              outcome == reading.outcome && pongs == reading.pongs && input == reading.rest
      ensures |masks| == |pongs| && output == old(output) + PongBytes(pongs, masks)
    {
      var g := NothingYet;
      pongs, masks := [], [];
      ghost var whole := WebSocketFrames.ReadMessage(input, g);
      hide WebSocketFrames.ReadFrame, WebSocketFrames.ReadMessage, Written, Unread, PongBytes, Absorb;
      NoPongs();
      while true
        invariant |masks| == |pongs| && output == old(output) + PongBytes(pongs, masks)
        invariant var reading := WebSocketFrames.ReadMessage(input, g);
                  whole == Reading(reading.outcome, reading.rest, pongs + reading.pongs)
        decreases |input|
      {
        MessageTurn(input, g);
        UnreadShrinks(input);
        var r := ReadFrame();
        if !r.Frame? {
          return ReadFailed(r), pongs, masks;
        }
        match Absorb(g, r.fin, r.opcode, r.payload)
        case Done(result) =>
          return result, pongs, masks;
        case More(h) =>
          g := h;
        case Reply(pong) =>
          ReplyIsPayload(g, r.fin, r.opcode, r.payload);
          ghost var rest := WebSocketFrames.ReadMessage(input, g).pongs;
          assert pongs + ([pong] + rest) == (pongs + [pong]) + rest;
          var mask: Mask := *;
          var sent := WriteFrame(PONG, pong, mask);
          PongAppend(pongs, masks, pong, mask);
          pongs, masks := pongs + [pong], masks + [mask];
      }
    }
  }

  lemma NoPongs()
    ensures PongBytes([], []) == []
  {
  }

  lemma UnreadShrinks(stream: seq<Byte>)
    ensures ReadFrame(stream).Frame? ==> |Unread(stream)| < |stream| && |ReadFrame(stream).payload| <= MAX_MESSAGE
  {
    hide ReadFrame;
  }

  lemma ReplyIsPayload(g: Gathered, fin: bool, opcode: Byte, payload: seq<Byte>)
    ensures Absorb(g, fin, opcode, payload).Reply? ==> Absorb(g, fin, opcode, payload).pong == payload
  {
  }
}
