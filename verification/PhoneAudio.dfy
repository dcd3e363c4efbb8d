/** phoneAudioBuffer of internal/media/talkback_audio.go: the RTP timeline of the phone's audio, with
    silence for short gaps, trimming of overlaps and a fresh start after long gaps. */
module PhoneAudio {
  import opened GoNumbers
  import opened Wrappers
  import opened Resampler
  import opened SampleFifo
  import opened ElasticPlayout
  import ElasticPop
  import opened ElasticTalkback

  const MAX_GAP := 1600

  // G.711 companding: one sample for every byte.
  type Companding = t: seq<Int16> | |t| == 256 witness seq(256, _ => 0)

  datatype Frame = Frame(reset: bool, timestamp: Uint32, payload: seq<Byte>)

  // What one accepted packet added: silence for the gap before it, then its bytes from `skipped` on.
  datatype PieceData = Piece(timestamp: Uint32, payload: seq<Byte>, silence: nat, skipped: nat)
  type Piece = p: PieceData | p.skipped < |p.payload| witness Piece(0, [0], 0, 0)

  // The timeline, with what it accepted since it was last reset.
  datatype Timeline = Timeline(have: bool, next: Uint32, pieces: seq<Piece>)

  datatype Verdict = Empty | Late | Crash | Accept(restart: bool, silence: nat, skipped: nat)

  const Cleared := Timeline(false, 0, [])

  function Delta(t: Timeline, f: Frame): int {
    ToInt32(f.timestamp - t.next)
  }

  // payload[overlap:]; None where Go panics on the bounds.
  function CutAt(payload: seq<Byte>, overlap: int): (rest: Option<seq<Byte>>)
    ensures rest.Some? ==> 0 <= overlap <= |payload| && rest.value == payload[overlap..]
  {
    if 0 <= overlap <= |payload| then Some(payload[overlap..]) else None
  }

  // What becomes of a frame, once a reset it asks for is done. The overlap is negated in 32 bits.
  function Judge(t: Timeline, f: Frame): Verdict {
    if |f.payload| == 0 then Empty
    else if !t.have || Delta(t, f) == 0 then Accept(false, 0, 0)
    else if Delta(t, f) > MAX_GAP then Accept(true, 0, 0)
    else if Delta(t, f) > 0 then Accept(false, Delta(t, f), 0)
    else
      var overlap := ToInt32(-Delta(t, f));
      if overlap >= |f.payload| then Late
      else if CutAt(f.payload, overlap).None? then Crash
      else Accept(false, 0, overlap)
  }

  function Accepted(t: Timeline, f: Frame, v: Verdict): Timeline
    requires v.Accept? && v.skipped < |f.payload|
  {
    var base := if v.restart then Cleared else t;
    Timeline(true,
             ToUint32(ToUint32(f.timestamp + v.skipped) + (|f.payload| - v.skipped)),
             base.pieces + [Piece(f.timestamp, f.payload, v.silence, v.skipped)])
  }

  function Ready(t: Timeline, f: Frame): Timeline {
    if f.reset then Cleared else t
  }

  function Next(t: Timeline, f: Frame): Timeline {
    var base := Ready(t, f);
    var v := Judge(base, f);
    if v.Accept? then Accepted(base, f, v) else base
  }

  // Negation in 32 bits leaves one negative number negative.
  lemma NegatedStaysNegative(delta: int)
    requires -0x8000_0000 <= delta < 0
    ensures ToInt32(-delta) < 0 <==> delta == -0x8000_0000
    ensures delta != -0x8000_0000 ==> ToInt32(-delta) == -delta
  {
  }

  // Exactly the frames half the timestamp range away from the timeline cannot be cut.
  lemma CrashesIff(t: Timeline, f: Frame)
    ensures Judge(Ready(t, f), f) == Crash
            <==> !f.reset && t.have && f.payload != [] && ToUint32(f.timestamp - t.next) == 0x8000_0000
  {
    var base := Ready(t, f);
    if Delta(base, f) < 0 {
      NegatedStaysNegative(Delta(base, f));
    }
  }

  // Two frames are enough.
  lemma TwoFramesCrash(a: Byte, b: Byte)
    ensures var first, second := Frame(false, 0, [a]), Frame(false, 0x8000_0001, [b]);
            var t := Run([first]);
            t.have && Judge(Ready(t, second), second) == Crash
  {
    var first, second := Frame(false, 0, [a]), Frame(false, 0x8000_0001, [b]);
    assert [first][..0] == [];
    assert Run([first]) == Next(Cleared, first);
    CrashesIff(Run([first]), second);
  }

  lemma JudgedSkip(t: Timeline, f: Frame)
    ensures var v := Judge(t, f); v.Accept? ==> v.skipped < |f.payload|
  {
  }

  /* The samples fed to the resampler since the last reset. */

  function Decoded(payload: seq<Byte>, table: Companding): (pcm: seq<Int16>)
    ensures |pcm| == |payload|
  {
    seq(|payload|, i requires 0 <= i < |payload| => table[payload[i]])
  }

  function Fed(pieces: seq<Piece>, table: Companding): (pcm: seq<Int16>)
    ensures |pcm| == Length(pieces)
  {
    if pieces == [] then []
    else
      var p := pieces[|pieces| - 1];
      Fed(pieces[..|pieces| - 1], table) + Silence(p.silence) + Decoded(p.payload[p.skipped..], table)
  }

  function Length(pieces: seq<Piece>): nat {
    if pieces == [] then 0
    else
      var p := pieces[|pieces| - 1];
      Length(pieces[..|pieces| - 1]) + p.silence + |p.payload| - p.skipped
  }

  // The end of piece i is where its RTP timestamps put it.
  ghost predicate InPlace(pieces: seq<Piece>, i: nat)
    requires i < |pieces|
  {
    && pieces[i].silence <= MAX_GAP
    && (pieces[i].silence == 0 || pieces[i].skipped == 0)
    && ToUint32(pieces[0].timestamp + Length(pieces[..i + 1])) == ToUint32(pieces[i].timestamp + |pieces[i].payload|)
  }

  ghost predicate Inv(t: Timeline) {
    && (t.have <==> t.pieces != [])
    && (t.have ==>
          && t.pieces[0].silence == 0 && t.pieces[0].skipped == 0
          && t.next == ToUint32(t.pieces[0].timestamp + Length(t.pieces)))
    && (forall i :: 0 <= i < |t.pieces| ==> InPlace(t.pieces, i))
  }

  lemma InPlaceExtends(pieces: seq<Piece>, p: Piece, i: nat)
    requires i < |pieces| && InPlace(pieces, i)
    ensures InPlace(pieces + [p], i)
  {
    assert (pieces + [p])[..i + 1] == pieces[..i + 1];
  }

  lemma LengthGrows(pieces: seq<Piece>, p: Piece)
    ensures Length(pieces + [p]) == Length(pieces) + p.silence + |p.payload| - p.skipped
  {
    assert (pieces + [p])[..|pieces|] == pieces;
  }

  lemma EndTime(start: int, length: int, next: Uint32, timestamp: int, shift: int, n: int)
    requires next == ToUint32(start + length) && ToInt32(timestamp - next) == shift
    ensures ToUint32(start + (length + shift + n)) == ToUint32(timestamp + n)
  {
  }

  lemma AddTwice(timestamp: int, skipped: int, n: int)
    ensures ToUint32(ToUint32(timestamp + skipped) + (n - skipped)) == ToUint32(timestamp + n)
  {
  }

  // Silence is inserted and bytes are skipped by exactly the distance.
  lemma JudgedShift(t: Timeline, f: Frame)
    requires Judge(t, f).Accept?
    ensures var v := Judge(t, f);
            && v.silence <= MAX_GAP && v.skipped < |f.payload| && (v.silence == 0 || v.skipped == 0)
            && (if v.restart || !t.have then v.silence == v.skipped == 0 else v.silence - v.skipped == Delta(t, f))
  {
    if Delta(t, f) < 0 {
      NegatedStaysNegative(Delta(t, f));
    }
    hide ToInt32;
  }

  lemma AcceptInv(t: Timeline, f: Frame)
    requires Inv(t) && Judge(t, f).Accept?
    ensures Inv(Accepted(t, f, Judge(t, f)))
  {
    JudgedShift(t, f);
    ClearedInv();
    hide ToUint32, Delta, Judge, Inv, Accepted;
    var v := Judge(t, f);
    var base := if v.restart then Cleared else t;
    AcceptedIs(t, f, v);
    PieceInv(base, f, v.silence, v.skipped);
  }

  lemma AcceptedIs(t: Timeline, f: Frame, v: Verdict)
    requires v.Accept? && v.skipped < |f.payload|
    ensures Accepted(t, f, v)
            == Timeline(true, ToUint32(ToUint32(f.timestamp + v.skipped) + (|f.payload| - v.skipped)),
                        (if v.restart then Cleared else t).pieces + [Piece(f.timestamp, f.payload, v.silence, v.skipped)])
  {
    hide ToUint32;
  }

  lemma ClearedInv()
    ensures Inv(Cleared)
  {
  }

  lemma PieceInv(t: Timeline, f: Frame, silence: nat, skipped: nat)
    requires Inv(t) && skipped < |f.payload| && silence <= MAX_GAP && (silence == 0 || skipped == 0)
    requires if t.have then silence - skipped == Delta(t, f) else silence == skipped == 0
    ensures Inv(Timeline(true, ToUint32(ToUint32(f.timestamp + skipped) + (|f.payload| - skipped)),
                         t.pieces + [Piece(f.timestamp, f.payload, silence, skipped)]))
  {
    hide ToUint32, ToInt32, Length, InPlace;
    var p := Piece(f.timestamp, f.payload, silence, skipped);
    LengthGrows(t.pieces, p);
    AddTwice(f.timestamp, skipped, |f.payload|);
    if t.have {
      EndTime(t.pieces[0].timestamp, Length(t.pieces), t.next, f.timestamp, silence - skipped, |f.payload|);
    }
    AppendInv(t, p);
  }

  lemma AppendInv(t: Timeline, p: Piece)
    requires Inv(t) && p.silence <= MAX_GAP && (p.silence == 0 || p.skipped == 0)
    requires !t.have ==> p.silence == 0 && p.skipped == 0
    requires t.have ==> ToUint32(t.pieces[0].timestamp + Length(t.pieces + [p])) == ToUint32(p.timestamp + |p.payload|)
    ensures Inv(Timeline(true, ToUint32(p.timestamp + |p.payload|), t.pieces + [p]))
  {
    hide ToUint32;
    var all := t.pieces + [p];
    assert all[..|all|] == all && all[|t.pieces|] == p;
    LengthGrows(t.pieces, p);
    forall i | 0 <= i < |t.pieces|
      ensures InPlace(all, i)
    {
      InPlaceExtends(t.pieces, p, i);
    }
  }

  lemma NextInv(t: Timeline, f: Frame)
    requires Inv(t)
    ensures Inv(Next(t, f))
  {
    var base := Ready(t, f);
    assert Inv(base);
    if Judge(base, f).Accept? {
      AcceptInv(base, f);
    }
  }

  function Run(frames: seq<Frame>): Timeline {
    if frames == [] then Cleared else Next(Run(frames[..|frames| - 1]), frames[|frames| - 1])
  }

  lemma {:induction false} RunInv(frames: seq<Frame>)
    ensures Inv(Run(frames))
  {
    if frames != [] {
      RunInv(frames[..|frames| - 1]);
      NextInv(Run(frames[..|frames| - 1]), frames[|frames| - 1]);
    }
  }

  // Since the last reset exactly as many samples were fed as the timestamps say went by.
  lemma FedMatchesTimestamps(frames: seq<Frame>, table: Companding)
    requires Run(frames).have
    ensures var t := Run(frames);
            t.pieces != [] && ToUint32(|Fed(t.pieces, table)|) == ToUint32(t.next - t.pieces[0].timestamp)
  {
    RunInv(frames);
    hide Run, Length, Fed, InPlace;
    var t := Run(frames);
    Elapsed(t.pieces[0].timestamp, Length(t.pieces), t.next);
  }

  lemma Elapsed(start: int, length: int, next: Uint32)
    requires next == ToUint32(start + length)
    ensures ToUint32(length) == ToUint32(next - start)
  {
  }

  lemma {:induction false} FedPrefix(pieces: seq<Piece>, i: nat, table: Companding)
    requires i <= |pieces|
    ensures Length(pieces[..i]) <= Length(pieces)
    ensures Fed(pieces, table)[..Length(pieces[..i])] == Fed(pieces[..i], table)
  {
    if i == |pieces| {
      assert pieces[..i] == pieces;
    } else {
      var shorter := pieces[..|pieces| - 1];
      FedPrefix(shorter, i, table);
      assert shorter[..i] == pieces[..i];
    }
  }

  lemma FedLast(pieces: seq<Piece>, i: nat, table: Companding)
    requires i < |pieces|
    ensures var p := pieces[i];
            Fed(pieces[..i + 1], table)
            == Fed(pieces[..i], table) + Silence(p.silence) + Decoded(p.payload[p.skipped..], table)
  {
    assert pieces[..i + 1][..i] == pieces[..i];
  }

  lemma FedAppend(pieces: seq<Piece>, p: Piece, table: Companding)
    ensures Fed(pieces + [p], table)
            == Fed(pieces, table) + Silence(p.silence) + Decoded(p.payload[p.skipped..], table)
  {
    assert (pieces + [p])[..|pieces|] == pieces;
  }

  // Every byte that was kept is heard at its own timestamp, whatever was lost, late or sent twice.
  lemma ByteAtItsTime(frames: seq<Frame>, table: Companding, i: nat, j: nat)
    requires i < |Run(frames).pieces|
    requires var p := Run(frames).pieces[i]; p.skipped <= j < |p.payload|
    ensures var pieces := Run(frames).pieces;
            var k := Length(pieces[..i + 1]) - |pieces[i].payload| + j;
            && 0 <= k < |Fed(pieces, table)|
            && Fed(pieces, table)[k] == table[pieces[i].payload[j]]
            && ToUint32(pieces[0].timestamp + k) == ToUint32(pieces[i].timestamp + j)
  {
    RunInv(frames);
    hide Run, Judge, Inv;
    var pieces := Run(frames).pieces;
    KeptByte(pieces, table, i, j);
    assert InPlace(pieces, i);
    SameTime(pieces[0].timestamp, Length(pieces[..i + 1]), pieces[i].timestamp, |pieces[i].payload|, j);
  }

  lemma SameTime(a: int, m: int, b: int, n: int, j: int)
    requires ToUint32(a + m) == ToUint32(b + n)
    ensures ToUint32(a + (m - n + j)) == ToUint32(b + j)
  {
  }

  lemma PieceInPlace(pieces: seq<Piece>, table: Companding, i: nat)
    requires i < |pieces|
    ensures var p := pieces[i];
            var upTo := Fed(pieces[..i], table) + Silence(p.silence) + Decoded(p.payload[p.skipped..], table);
            && |upTo| == Length(pieces[..i + 1]) <= |Fed(pieces, table)|
            && Fed(pieces, table)[..|upTo|] == upTo
  {
    hide Length, Fed, Decoded, Silence;
    FedPrefix(pieces, i + 1, table);
    FedLast(pieces, i, table);
  }

  lemma KeptByte(pieces: seq<Piece>, table: Companding, i: nat, j: nat)
    requires i < |pieces| && pieces[i].skipped <= j < |pieces[i].payload|
    ensures var k := Length(pieces[..i + 1]) - |pieces[i].payload| + j;
            && 0 <= k < |Fed(pieces, table)|
            && Fed(pieces, table)[k] == table[pieces[i].payload[j]]
  {
    hide Length, Fed, Decoded, Silence;
    var p := pieces[i];
    PieceInPlace(pieces, table, i);
    DecodedAt(p.payload, p.skipped, j, table);
    InTail(Fed(pieces, table), Fed(pieces[..i], table) + Silence(p.silence),
           Decoded(p.payload[p.skipped..], table), j - p.skipped);
  }

  lemma InTail(whole: seq<Int16>, head: seq<Int16>, tail: seq<Int16>, k: nat)
    requires k < |tail| && |head + tail| <= |whole| && whole[..|head + tail|] == head + tail
    ensures whole[|head| + k] == tail[k]
  {
    assert whole[..|head + tail|][|head| + k] == tail[k];
  }

  lemma DecodedAt(payload: seq<Byte>, from: nat, j: nat, table: Companding)
    requires from <= j < |payload|
    ensures Decoded(payload[from..], table)[j - from] == table[payload[j]]
  {
  }

  // Between pieces there is silence, never more than 200 ms of it.
  lemma SilenceInGaps(frames: seq<Frame>, table: Companding, i: nat, k: nat)
    requires i < |Run(frames).pieces|
    requires var pieces := Run(frames).pieces;
             Length(pieces[..i]) <= k < Length(pieces[..i]) + pieces[i].silence
    ensures var pieces := Run(frames).pieces;
            k < |Fed(pieces, table)| && Fed(pieces, table)[k] == 0 && pieces[i].silence <= MAX_GAP
  {
    RunInv(frames);
    hide Run, Judge, Inv;
    var pieces := Run(frames).pieces;
    assert InPlace(pieces, i);
    hide Length, Fed, Decoded;
    PieceInPlace(pieces, table, i);
    assert Fed(pieces, table)[k] == Silence(pieces[i].silence)[k - Length(pieces[..i])];
  }

  lemma EmittedJoins(before: seq<Int16>, chunk: seq<Int16>, rate: nat)
    requires rate > 0
    ensures Streamed(before, rate) + Emitted(before, chunk, rate) == Streamed(before + chunk, rate)
  {
    hide Streamed;
    StreamIsStable(before, chunk, rate);
  }

  class PhoneAudioBuffer {
    const table: Companding
    const resampler: LinearResampler
    const fifo: SampleFIFO
    const elastic: ElasticTalkbackPlayout
    var haveTimeline: bool
    var nextTimestamp: Uint32
    var receivedAudio: bool
    ghost var pieces: seq<Piece>

    ghost function State(): Timeline
      reads this
    {
      Timeline(haveTimeline, nextTimestamp, pieces)
    }

    // The queue is fed the resampled timeline, all of it.
    ghost predicate Valid()
      reads this, resampler, fifo
    {
      && resampler.Valid() && fifo.Valid()
      && Inv(State())
      && resampler.fed == Fed(pieces, table)
      && fifo.pushed == Streamed(Fed(pieces, table), resampler.outRate)
    }

    constructor (companding: Companding, outputRate: nat, blockSamples: int, window: seq<int>)
      requires 8000 <= outputRate <= 48000 && IsWindow(window)
      ensures Valid() && State() == Cleared && table == companding
      ensures fresh(resampler) && fresh(fifo) && fresh(elastic)
      ensures fifo.max == (if blockSamples < 1 then 1 else 4 * blockSamples) && resampler.outRate == outputRate
    {
      table := companding;
      resampler := new LinearResampler(outputRate);
      fifo := new SampleFIFO(blockSamples * 4);
      elastic := new ElasticTalkbackPlayout(window);
      haveTimeline, nextTimestamp, receivedAudio, pieces := false, 0, false, [];
    }

    method Reset()
      requires Valid()
      modifies this, resampler, fifo, elastic
      ensures Valid() && State() == Cleared && fifo.buf == []
      ensures elastic.State() == ResetTimeline(old(elastic.State()))
      ensures receivedAudio == old(receivedAudio)
    {
      haveTimeline, nextTimestamp, pieces := false, 0, [];
      resampler.Reset();
      fifo.Reset();
      elastic.Restart();
    }

    method PushPCM8(pcm: seq<Int16>, ghost before: seq<Int16>)
      requires resampler.Valid() && fifo.Valid() && resampler.fed == before
      requires fifo.pushed == Streamed(before, resampler.outRate)
      modifies resampler, fifo, elastic
      ensures resampler.Valid() && fifo.Valid() && resampler.fed == before + pcm
      ensures fifo.pushed == Streamed(before + pcm, resampler.outRate)
      ensures fifo.consumed == old(fifo.consumed)
      ensures elastic.State() == if fifo.dropped > old(fifo.dropped) then MarkOverflow(old(elastic.State()))
                                 else old(elastic.State())
    {
      hide Streamed, Emitted, SampleFIFO.Valid, MarkOverflow;
      EmittedJoins(before, pcm, resampler.outRate);
      var resampled := resampler.Push(pcm);
      QueueResampled(resampled);
    }

    // The resampled part: an overflow is noted.
    method QueueResampled(samples: seq<Int16>)
      requires fifo.Valid()
      modifies fifo, elastic
      ensures fifo.Valid() && fifo.pushed == old(fifo.pushed) + samples && fifo.consumed == old(fifo.consumed)
      ensures elastic.State() == if fifo.dropped > old(fifo.dropped) then MarkOverflow(old(elastic.State()))
                                 else old(elastic.State())
    {
      hide SampleFIFO.Valid, Newest;
      var dropped := fifo.Push(samples);
      if dropped > 0 {
        elastic.NoteOverflow();
      }
    }

    // The switch on the distance between the packet and the timeline.
    method Decide(frame: Frame) returns (v: Verdict)
      ensures v == Judge(State(), frame)
    {
      hide ToInt32;
      if |frame.payload| == 0 {
        return Empty;
      }
      v := Accept(false, 0, 0);
      if haveTimeline {
        var delta := ToInt32(frame.timestamp - nextTimestamp);
        if 0 < delta <= MAX_GAP {
          return Accept(false, delta, 0);
        } else if delta > MAX_GAP {
          return Accept(true, 0, 0);
        } else if delta < 0 {
          var overlap := ToInt32(-delta);
          if overlap >= |frame.payload| {
            return Late;
          }
          var payload := CutAt(frame.payload, overlap);
          if payload == None {
            return Crash;
          }
          return Accept(false, 0, overlap);
        }
      }
    }

    method ResetIf(wanted: bool)
      requires Valid()
      modifies this, resampler, fifo, elastic
      ensures Valid() && State() == if wanted then Cleared else old(State())
    {
      hide Inv, Streamed, Fed;
      if wanted {
        Reset();
      }
    }

    // The rest of Push once the frame is judged.
    method Apply(frame: Frame, v: Verdict)
      requires Valid() && v == Judge(State(), frame)
      modifies this, resampler, fifo, elastic
      ensures Valid() && State() == if v.Accept? then Accepted(old(State()), frame, v) else old(State())
    {
      hide Inv, Streamed, Fed, Judge, ToUint32, LinearResampler.Valid, SampleFIFO.Valid;
      JudgedSkip(State(), frame);
      if v.Accept? {
        AcceptInv(State(), frame);
        ResetIf(v.restart);
        AcceptPayload(frame, v.skipped, v.silence);
      }
    }

    // False where the source would panic on the negated distance.
    method Push(frame: Frame) returns (ok: bool)
      requires Valid()
      modifies this, resampler, fifo, elastic
      ensures Valid()
      ensures State() == Next(old(State()), frame)
      ensures ok == (Judge(Ready(old(State()), frame), frame) != Crash)
    {
      hide Judge, Accepted, Valid;
      JudgedSkip(Ready(State(), frame), frame);
      ResetIf(frame.reset);
      var v := Decide(frame);
      Apply(frame, v);
      ok := v != Crash;
    }

    method AcceptPayload(frame: Frame, skipped: nat, silence: nat)
      requires Valid() && skipped < |frame.payload|
      modifies this, resampler, fifo, elastic
      ensures State() == Timeline(true, ToUint32(ToUint32(frame.timestamp + skipped) + (|frame.payload| - skipped)),
                                  old(pieces) + [Piece(frame.timestamp, frame.payload, silence, skipped)])
      ensures resampler.Valid() && fifo.Valid()
      ensures resampler.fed == Fed(pieces, table)
      ensures fifo.pushed == Streamed(Fed(pieces, table), resampler.outRate)
      ensures receivedAudio
    {
      hide Inv, Streamed, Fed, Decoded, ToUint32;
      var payload := frame.payload[skipped..];
      var timestamp := ToUint32(frame.timestamp + skipped);
      ghost var p := Piece(frame.timestamp, frame.payload, silence, skipped);
      FedAppend(pieces, p, table);
      FeedGap(silence);
      PushPCM8(Decoded(payload, table), resampler.fed);
      haveTimeline := true;
      nextTimestamp := ToUint32(timestamp + |payload|);
      receivedAudio := true;
      pieces := pieces + [p];
    }

    method FeedGap(silence: nat)
      requires Valid()
      modifies resampler, fifo, elastic
      ensures resampler.Valid() && fifo.Valid()
      ensures resampler.fed == Fed(pieces, table) + Silence(silence)
      ensures fifo.pushed == Streamed(resampler.fed, resampler.outRate)
    {
      hide Inv, Streamed, Fed;
      if silence > 0 {
        PushPCM8(Silence(silence), resampler.fed);
      } else {
        assert Fed(pieces, table) + Silence(0) == Fed(pieces, table);
      }
    }

    method PopBlock(n: int) returns (block: seq<Int16>)
      requires Valid()
      modifies fifo, elastic
      ensures Valid()
      ensures var p := ElasticPop.Pop(old(elastic.State()), old(fifo.buf), n, elastic.fadeInQ15);
              block == p.outcome.block && fifo.buf == p.queue && elastic.State() == p.controller
    {
      hide ElasticPop.Pop, Inv, Streamed, Fed;
      var result := elastic.Pop(fifo, n);
      block := result.block;
    }
  }

  // newPhoneAudioBuffer: null stands for its errors, an unknown codec or an unsupported rate.
  method NewPhoneAudioBuffer(companding: Option<Companding>, outputRate: int, blockSamples: int, window: seq<int>)
    returns (buffer: PhoneAudioBuffer?)
    requires IsWindow(window)
    ensures buffer == null <==> companding == None || outputRate < 8000 || outputRate > 48000
    ensures buffer != null ==>
              && fresh(buffer) && buffer.Valid() && buffer.State() == Cleared
              && buffer.table == companding.value && buffer.resampler.outRate == outputRate
              && buffer.fifo.max == (if blockSamples < 1 then 1 else 4 * blockSamples)
  {
    if companding == None || outputRate < 8000 || outputRate > 48000 {
      return null;
    }
    buffer := new PhoneAudioBuffer(companding.value, outputRate, blockSamples, window);
  }
}
