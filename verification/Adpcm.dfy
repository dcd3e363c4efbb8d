/** The IMA ADPCM codec of internal/codec/adpcm.go: both ends quantise against the same
    predictor, so the decoder replays exactly what the encoder believed it sent. */
module Adpcm {
  import opened GoNumbers

  type StepIndex = x: int | 0 <= x <= 88

  // Four bits: the sign and the weights step, step>>1 and step>>2.
  datatype Nibble = Nibble(minus: bool, whole: bool, half: bool, quarter: bool)

  // The pair of fields both codecs carry from sample to sample.
  datatype Predictor = Predictor(predicted: Int16, index: StepIndex)

  // imaStepTable
  function ImaStep(i: StepIndex): (step: int)
    ensures 7 <= step <= 32767
  {
    match i
    case 0 => 7 case 1 => 8 case 2 => 9 case 3 => 10 case 4 => 11 case 5 => 12
    case 6 => 13 case 7 => 14 case 8 => 16 case 9 => 17 case 10 => 19 case 11 => 21
    case 12 => 23 case 13 => 25 case 14 => 28 case 15 => 31 case 16 => 34 case 17 => 37
    case 18 => 41 case 19 => 45 case 20 => 50 case 21 => 55 case 22 => 60 case 23 => 66
    case 24 => 73 case 25 => 80 case 26 => 88 case 27 => 97 case 28 => 107 case 29 => 118
    case 30 => 130 case 31 => 143 case 32 => 157 case 33 => 173 case 34 => 190 case 35 => 209
    case 36 => 230 case 37 => 253 case 38 => 279 case 39 => 307 case 40 => 337 case 41 => 371
    case 42 => 408 case 43 => 449 case 44 => 494 case 45 => 544 case 46 => 598 case 47 => 658
    case 48 => 724 case 49 => 796 case 50 => 876 case 51 => 963 case 52 => 1060 case 53 => 1166
    case 54 => 1282 case 55 => 1411 case 56 => 1552 case 57 => 1707 case 58 => 1878 case 59 => 2066
    case 60 => 2272 case 61 => 2499 case 62 => 2749 case 63 => 3024 case 64 => 3327 case 65 => 3660
    case 66 => 4026 case 67 => 4428 case 68 => 4871 case 69 => 5358 case 70 => 5894 case 71 => 6484
    case 72 => 7132 case 73 => 7845 case 74 => 8630 case 75 => 9493 case 76 => 10442 case 77 => 11487
    case 78 => 12635 case 79 => 13899 case 80 => 15289 case 81 => 16818 case 82 => 18500 case 83 => 20350
    case 84 => 22385 case 85 => 24623 case 86 => 27086 case 87 => 29794 case _ => 32767
  }

  // imaIndexTable: the sign bit does not take part.
  function ImaIndex(n: Nibble): int {
    if !n.whole then -1 else if !n.half then (if n.quarter then 4 else 2) else (if n.quarter then 8 else 6)
  }

  function ClampIndex(i: int): StepIndex {
    if i < 0 then 0 else if i > 88 then 88 else i
  }

  // The four bits as the number 0..15 that indexes the table and is packed into bytes.
  function Code(n: Nibble): (c: int)
    ensures 0 <= c < 16 && NibbleOf(c) == n
  {
    (if n.minus then 8 else 0) + (if n.whole then 4 else 0) + (if n.half then 2 else 0) + (if n.quarter then 1 else 0)
  }

  function NibbleOf(c: int): Nibble
    requires 0 <= c < 16
  {
    Nibble(c >= 8, c % 8 >= 4, c % 4 >= 2, c % 2 == 1)
  }

  // The magnitude the decoder rebuilds from a nibble.
  function Magnitude(step: int, n: Nibble): int {
    step / 8
    + (if n.quarter then step / 4 else 0)
    + (if n.half then step / 2 else 0)
    + (if n.whole then step else 0)
  }

  // One decoded nibble.
  function Advance(p: Predictor, n: Nibble): Predictor {
    var d := Magnitude(ImaStep(p.index), n);
    Predictor(ClampInt16(if n.minus then p.predicted - d else p.predicted + d),
              ClampIndex(p.index + ImaIndex(n)))
  }

  // The nibble a sample is quantised to: successive comparison of the remaining difference.
  function Quantise(p: Predictor, sample: Int16): Nibble {
    var step := ImaStep(p.index);
    var diff := sample - p.predicted;
    var d0 := if diff < 0 then -diff else diff;
    var d1 := if d0 >= step then d0 - step else d0;
    var d2 := if d1 >= step / 2 then d1 - step / 2 else d1;
    Nibble(diff < 0, d0 >= step, d1 >= step / 2, d2 >= step / 4)
  }

  // What the decoder must say while fed these nibbles: the predictor after each one.
  function Replay(p: Predictor, nibbles: seq<Nibble>): (out: seq<Int16>)
    ensures |out| == |nibbles|
    decreases |nibbles|
  {
    if nibbles == [] then []
    else var q := Advance(p, nibbles[0]); [q.predicted] + Replay(q, nibbles[1..])
  }

  function AfterNibbles(p: Predictor, nibbles: seq<Nibble>): Predictor
    decreases |nibbles|
  {
    if nibbles == [] then p else AfterNibbles(Advance(p, nibbles[0]), nibbles[1..])
  }

  function QuantiseAll(p: Predictor, pcm: seq<Int16>): (nibbles: seq<Nibble>)
    ensures |nibbles| == |pcm|
    decreases |pcm|
  {
    if pcm == [] then []
    else var n := Quantise(p, pcm[0]); [n] + QuantiseAll(Advance(p, n), pcm[1..])
  }

  // The encoder's own predictor after each sample, and after all of them.
  function Trajectory(p: Predictor, pcm: seq<Int16>): (out: seq<Int16>)
    ensures |out| == |pcm|
    decreases |pcm|
  {
    if pcm == [] then []
    else var q := Advance(p, Quantise(p, pcm[0])); [q.predicted] + Trajectory(q, pcm[1..])
  }

  function AfterSamples(p: Predictor, pcm: seq<Int16>): Predictor
    decreases |pcm|
  {
    if pcm == [] then p else AfterSamples(Advance(p, Quantise(p, pcm[0])), pcm[1..])
  }

  function PackByte(high: Nibble, low: Nibble): (b: Byte)
    ensures NibbleOf(b / 16) == high && NibbleOf(b % 16) == low
  {
    Code(high) * 16 + Code(low)
  }

  // Two nibbles a byte, the first sample in the high half.
  function Pack(nibbles: seq<Nibble>): (bytes: seq<Byte>)
    requires |nibbles| % 2 == 0
    ensures |bytes| == |nibbles| / 2
  {
    if nibbles == [] then [] else [PackByte(nibbles[0], nibbles[1])] + Pack(nibbles[2..])
  }

  function Unpack(bytes: seq<Byte>): (nibbles: seq<Nibble>)
    ensures |nibbles| == 2 * |bytes|
  {
    if bytes == [] then [] else [NibbleOf(bytes[0] / 16), NibbleOf(bytes[0] % 16)] + Unpack(bytes[1..])
  }

  // The four header bytes name the predictor the block starts from.
  function Header(p: Predictor): seq<Byte> {
    PutUint16(ToUint16(p.predicted)) + [p.index, 0]
  }

  // EncodeBlock on a block of even length; an empty block encodes to nothing.
  function Block(p: Predictor, pcm: seq<Int16>): (bytes: seq<Byte>)
    requires |pcm| % 2 == 0
    ensures |bytes| == if pcm == [] then 0 else 4 + |pcm| / 2
  {
    if pcm == [] then [] else Header(p) + Pack(QuantiseAll(p, pcm))
  }

  function HeaderOf(data: seq<Byte>): Predictor
    requires |data| >= 4
  {
    Predictor(ToInt16(Uint16At(data, 0)), ClampIndex(data[2]))
  }

  // Decode on any bytes: nothing below four, otherwise the replay of the payload.
  function Decoded(data: seq<Byte>): seq<Int16> {
    if |data| < 4 then [] else Replay(HeaderOf(data), Unpack(data[4..]))
  }

  lemma {:induction false} UnpackInvertsPack(nibbles: seq<Nibble>)
    requires |nibbles| % 2 == 0
    ensures Unpack(Pack(nibbles)) == nibbles
  {
    if nibbles == [] {
    } else {
      hide PackByte, NibbleOf;
      UnpackInvertsPack(nibbles[2..]);
      assert Pack(nibbles)[1..] == Pack(nibbles[2..]);
      assert nibbles == [nibbles[0], nibbles[1]] + nibbles[2..];
    }
  }

  // The decoder, started where the encoder started, follows the encoder's predictor.
  lemma {:induction false} DecoderFollowsEncoder(p: Predictor, pcm: seq<Int16>)
    ensures Replay(p, QuantiseAll(p, pcm)) == Trajectory(p, pcm)
    ensures AfterNibbles(p, QuantiseAll(p, pcm)) == AfterSamples(p, pcm)
    decreases |pcm|
  {
    if pcm == [] {
    } else {
      var n := Quantise(p, pcm[0]);
      DecoderFollowsEncoder(Advance(p, n), pcm[1..]);
      assert QuantiseAll(p, pcm)[1..] == QuantiseAll(Advance(p, n), pcm[1..]);
    }
  }

  // The two samples behind one payload byte, seen from the encoder and from the decoder.
  lemma EncodeTwo(p: Predictor, pcm: seq<Int16>)
    requires |pcm| >= 2 && |pcm| % 2 == 0
    ensures var n := Quantise(p, pcm[0]);
            var q := Advance(p, n);
            var m := Quantise(q, pcm[1]);
            var r := Advance(q, m);
            && Pack(QuantiseAll(p, pcm)) == [PackByte(n, m)] + Pack(QuantiseAll(r, pcm[2..]))
            && AfterSamples(p, pcm) == AfterSamples(r, pcm[2..])
  {
    hide Advance, Quantise, PackByte, NibbleOf;
    var n := Quantise(p, pcm[0]);
    var q := Advance(p, n);
    var m := Quantise(q, pcm[1]);
    var r := Advance(q, m);
    assert pcm[1..][1..] == pcm[2..];
    assert QuantiseAll(p, pcm) == [n] + ([m] + QuantiseAll(r, pcm[2..]));
    assert ([n] + ([m] + QuantiseAll(r, pcm[2..])))[2..] == QuantiseAll(r, pcm[2..]);
  }

  lemma NothingLeft(p: Predictor)
    ensures Pack(QuantiseAll(p, [])) == [] && AfterSamples(p, []) == p
    ensures Replay(p, Unpack([])) == [] && AfterNibbles(p, Unpack([])) == p
  {
  }

  lemma DecodeTwo(p: Predictor, bytes: seq<Byte>)
    requires |bytes| >= 1
    ensures var q := Advance(p, NibbleOf(bytes[0] / 16));
            var r := Advance(q, NibbleOf(bytes[0] % 16));
            && Replay(p, Unpack(bytes)) == [q.predicted, r.predicted] + Replay(r, Unpack(bytes[1..]))
            && AfterNibbles(p, Unpack(bytes)) == AfterNibbles(r, Unpack(bytes[1..]))
  {
    var n, m := NibbleOf(bytes[0] / 16), NibbleOf(bytes[0] % 16);
    var rest := Unpack(bytes[1..]);
    assert Unpack(bytes) == [n] + ([m] + rest);
    assert ([n] + ([m] + rest))[1..] == [m] + rest;
    assert ([m] + rest)[1..] == rest;
  }

  lemma HeaderRoundTrip(p: Predictor, payload: seq<Byte>)
    ensures HeaderOf(Header(p) + payload) == p
  {
    var v := ToUint16(p.predicted);
    var bytes := Header(p) + payload;
    assert bytes[0] == v % 0x100 && bytes[1] == v / 0x100 && bytes[2] == p.index;
    assert Uint16At(bytes, 0) == v;
  }

  // One block decodes to the encoder's trajectory, whatever the decoder held before.
  lemma BlockRoundTrip(p: Predictor, pcm: seq<Int16>)
    requires |pcm| % 2 == 0
    ensures Decoded(Block(p, pcm)) == Trajectory(p, pcm)
  {
    if pcm != [] {
      var nibbles := QuantiseAll(p, pcm);
      HeaderRoundTrip(p, Pack(nibbles));
      assert Block(p, pcm)[4..] == Pack(nibbles);
      UnpackInvertsPack(nibbles);
      DecoderFollowsEncoder(p, pcm);
    }
  }

  // Away from slope overload the reconstruction misses by at most (step>>2)+1.
  lemma QuantisationError(p: Predictor, sample: Int16)
    requires -2 * ImaStep(p.index) < sample - p.predicted < 2 * ImaStep(p.index)
    ensures var e := Advance(p, Quantise(p, sample)).predicted - sample;
            var bound := ImaStep(p.index) / 4 + 1; -bound <= e <= bound
  {
    var step := ImaStep(p.index);
    var diff := sample - p.predicted;
    var d0 := if diff < 0 then -diff else diff;
    assert -(step / 4) - 1 <= d0 - Magnitude(step, Quantise(p, sample)) <= step / 4 + 1;
  }

  class ADPCMEncoder {
    var predicted: Int16
    var index: StepIndex

    function State(): Predictor
      reads this
    {
      Predictor(predicted, index)
    }

    constructor ()
      ensures State() == Predictor(0, 0)
    {
      predicted, index := 0, 0;
    }

    method EncodeNibble(sample: Int16) returns (nibble: Nibble)
      modifies this
      ensures nibble == old(Quantise(State(), sample))
      ensures State() == old(Advance(State(), Quantise(State(), sample)))
    {
      hide ImaStep, Quantise, Magnitude;
      var delta;
      nibble, delta := Choose(sample);
      var next := if nibble.minus then predicted - delta else predicted + delta;
      if next > 32767 {
        next := 32767;
      }
      if next < -32768 {
        next := -32768;
      }
      predicted := next;
      index := ClampIndex(index + ImaIndex(nibble));
    }

    // The bits of the nibble, and the distance they stand for.
    method Choose(sample: Int16) returns (n: Nibble, delta: int)
      ensures n == Quantise(State(), sample) && delta == Magnitude(ImaStep(index), n)
    {
      hide ImaStep;
      var step := ImaStep(index);
      var diff := sample - predicted;
      n := Nibble(false, false, false, false);
      if diff < 0 {
        n := n.(minus := true);
        diff := -diff;
      }
      delta := step / 8;
      if diff >= step {
        n := n.(whole := true);
        diff := diff - step;
        delta := delta + step;
      }
      if diff >= step / 2 {
        n := n.(half := true);
        diff := diff - step / 2;
        delta := delta + step / 2;
      }
      if diff >= step / 4 {
        n := n.(quarter := true);
        delta := delta + step / 4;
      }
    }

    method EncodeBlock(pcm: seq<Int16>) returns (ok: bool, block: array<Byte>)
      modifies this
      ensures fresh(block)
      ensures ok <==> |pcm| % 2 == 0
      ensures ok ==> block[..] == old(Block(State(), pcm)) && State() == old(AfterSamples(State(), pcm))
      ensures !ok ==> block.Length == 0 && State() == old(State())
    {
      if |pcm| == 0 {
        block := new Byte[0];
        return true, block;
      }
      if |pcm| % 2 != 0 {
        block := new Byte[0];
        return false, block;
      }
      block := new Byte[4 + |pcm| / 2];
      var raw := ToUint16(predicted);
      block[0], block[1], block[2], block[3] := raw % 0x100, raw / 0x100, index, 0;
      assert block[..4] == old(Header(State()));
      FillPayload(pcm, block);
      assert block[..] == block[..4] + block[4..];
      ok := true;
    }

    // The loop of EncodeBlock: two samples a byte behind the header.
    method FillPayload(pcm: seq<Int16>, block: array<Byte>)
      requires |pcm| % 2 == 0 && block.Length == 4 + |pcm| / 2
      modifies this, block
      ensures block[..4] == old(block[..4])
      ensures block[4..] == old(Pack(QuantiseAll(State(), pcm)))
      ensures State() == old(AfterSamples(State(), pcm))
    {
      hide Advance, Quantise, PackByte, NibbleOf, Pack, QuantiseAll, AfterSamples;
      ghost var start := State();
      ghost var head := block[..4];
      var i := 0;
      assert pcm[0..] == pcm;
      while i < |pcm|
        invariant 0 <= i <= |pcm| && i % 2 == 0
        invariant AfterSamples(State(), pcm[i..]) == AfterSamples(start, pcm)
        invariant block[..4] == head
        invariant block[4..4 + i / 2] + Pack(QuantiseAll(State(), pcm[i..])) == Pack(QuantiseAll(start, pcm))
      {
        ghost var written := block[4..4 + i / 2];
        EncodeTwo(State(), pcm[i..]);
        assert pcm[i..][2..] == pcm[i + 2..];
        var first := EncodeNibble(pcm[i]);
        var second := EncodeNibble(pcm[i + 1]);
        block[4 + i / 2] := PackByte(first, second);
        i := i + 2;
        assert block[4..4 + i / 2] == written + [PackByte(first, second)];
      }
      assert pcm[i..] == [] && block[4..4 + i / 2] == block[4..];
      NothingLeft(State());
    }
  }

  class ADPCMDecoder {
    var predicted: int
    var index: int

    // The previous state does not matter: every block carries its own predictor.
    method Decode(data: seq<Byte>) returns (out: array<Int16>)
      modifies this
      ensures fresh(out)
      ensures out[..] == Decoded(data)
      ensures |data| >= 4 ==>
                var end := AfterNibbles(HeaderOf(data), Unpack(data[4..]));
                predicted == end.predicted && index == end.index
      ensures |data| < 4 ==> predicted == old(predicted) && index == old(index)
    {
      if |data| < 4 {
        out := new Int16[0];
        return;
      }
      predicted := ToInt16(Uint16At(data, 0));
      index := data[2];
      if index > 88 {
        index := 88;
      }
      var payload := data[4..];
      out := new Int16[|payload| * 2];
      FillSamples(payload, out);
    }

    // The loop of Decode: two samples from every payload byte, high nibble first.
    method FillSamples(payload: seq<Byte>, out: array<Int16>)
      requires -32768 <= predicted <= 32767 && 0 <= index <= 88
      requires out.Length == 2 * |payload|
      modifies this, out
      ensures out[..] == old(Replay(Predictor(predicted, index), Unpack(payload)))
      ensures -32768 <= predicted <= 32767 && 0 <= index <= 88
      ensures Predictor(predicted, index) == old(AfterNibbles(Predictor(predicted, index), Unpack(payload)))
    {
      hide Advance, NibbleOf, Unpack, Replay, AfterNibbles;
      ghost var start := Predictor(predicted, index);
      ghost var all := Unpack(payload);
      assert payload[0..] == payload;
      for i := 0 to |payload|
        invariant -32768 <= predicted <= 32767 && 0 <= index <= 88
        invariant AfterNibbles(Predictor(predicted, index), Unpack(payload[i..])) == AfterNibbles(start, all)
        invariant out[..2 * i] + Replay(Predictor(predicted, index), Unpack(payload[i..])) == Replay(start, all)
      {
        ghost var written := out[..2 * i];
        DecodeTwo(Predictor(predicted, index), payload[i..]);
        assert payload[i..][1..] == payload[i + 1..];
        DecodeNibble(NibbleOf(payload[i] / 16));
        var a := predicted;
        out[2 * i] := a;
        DecodeNibble(NibbleOf(payload[i] % 16));
        out[2 * i + 1] := predicted;
        assert out[..2 * (i + 1)] == written + [a, predicted];
      }
      assert out[..2 * |payload|] == out[..];
      assert payload[|payload|..] == [];
      NothingLeft(Predictor(predicted, index));
    }

    method DecodeNibble(nibble: Nibble)
      requires -32768 <= predicted <= 32767 && 0 <= index <= 88
      modifies this
      ensures -32768 <= predicted <= 32767 && 0 <= index <= 88
      ensures Predictor(predicted, index) == Advance(Predictor(old(predicted), old(index)), nibble)
    {
      var step := ImaStep(index);
      var diff: int := step / 8;
      if nibble.quarter {
        diff := diff + step / 4;
      }
      if nibble.half {
        diff := diff + step / 2;
      }
      if nibble.whole {
        diff := diff + step;
      }
      if nibble.minus {
        predicted := predicted - diff;
      } else {
        predicted := predicted + diff;
      }
      if predicted > 32767 {
        predicted := 32767;
      }
      if predicted < -32768 {
        predicted := -32768;
      }
      index := index + ImaIndex(nibble);
      if index < 0 {
        index := 0;
      }
      if index > 88 {
        index := 88;
      }
    }
  }
}
