/** The phone's audio from the network to the resampler: the reorder window of
    internal/media/talkback_audio.go followed by its timeline. */
module TalkbackPath {
  import opened GoNumbers
  import opened Wrappers
  import opened Sequencer
  import opened Reordering
  import PhoneAudio
  import SampleFifo

  // What the bridge passes on for a packet that comes out of the reorder window.
  function FrameOf(q: Sequenced): PhoneAudio.Frame {
    PhoneAudio.Frame(q.reset, q.packet.timestamp, q.packet.payload)
  }

  function Frames(out: seq<Sequenced>): (frames: seq<PhoneAudio.Frame>)
    ensures |frames| == |out|
  {
    seq(|out|, i requires 0 <= i < |out| => FrameOf(out[i]))
  }

  // The timeline after these frames, whatever it was before.
  function FeedAll(t: PhoneAudio.Timeline, frames: seq<PhoneAudio.Frame>): PhoneAudio.Timeline {
    if frames == [] then t
    else PhoneAudio.Next(FeedAll(t, frames[..|frames| - 1]), frames[|frames| - 1])
  }

  function PayloadsOf(run: seq<Packet>): (payloads: seq<seq<Byte>>)
    ensures |payloads| == |run|
  {
    seq(|run|, j requires 0 <= j < |run| => run[j].payload)
  }

  predicate Follows(run: seq<Packet>, j: nat)
    requires j + 1 < |run|
  {
    run[j + 1].timestamp == ToUint32(run[j].timestamp + |run[j].payload|)
  }

  // No packet is empty and each starts where the one before it ends, in 32-bit media time.
  ghost predicate Contiguous(run: seq<Packet>) {
    && (forall j :: 0 <= j < |run| ==> run[j].payload != [])
    && (forall j {:trigger Follows(run, j)} :: 0 <= j < |run| - 1 ==> Follows(run, j))
  }

  lemma FramesPrefix(run: seq<Packet>, k: nat)
    requires 1 <= k <= |run|
    ensures Frames(Marked(run[..k], true))
            == Frames(Marked(run[..k - 1], true)) + [PhoneAudio.Frame(k == 1, run[k - 1].timestamp, run[k - 1].payload)]
  {
  }

  lemma DecodedJoin(a: seq<Byte>, b: seq<Byte>, table: PhoneAudio.Companding)
    ensures PhoneAudio.Decoded(a + b, table) == PhoneAudio.Decoded(a, table) + PhoneAudio.Decoded(b, table)
  {
  }

  lemma BytesPrefix(run: seq<Packet>, k: nat)
    requires 1 <= k <= |run|
    ensures Concat(PayloadsOf(run[..k])) == Concat(PayloadsOf(run[..k - 1])) + run[k - 1].payload
  {
    assert PayloadsOf(run[..k])[..k - 1] == PayloadsOf(run[..k - 1]);
  }

  // Where the timeline stands after k packets of the run.
  ghost predicate FedUpTo(t: PhoneAudio.Timeline, run: seq<Packet>, k: nat, table: PhoneAudio.Companding)
    requires 1 <= k <= |run|
  {
    && t.have && t.pieces != [] && t.pieces[0].timestamp == run[0].timestamp
    && t.next == ToUint32(run[k - 1].timestamp + |run[k - 1].payload|)
    && PhoneAudio.Fed(t.pieces, table) == PhoneAudio.Decoded(Concat(PayloadsOf(run[..k])), table)
  }

  lemma NextOfRun(t: PhoneAudio.Timeline, run: seq<Packet>, k: nat, table: PhoneAudio.Companding)
    requires 1 <= k <= |run| && Contiguous(run) && (k > 1 ==> FedUpTo(t, run, k - 1, table))
    ensures FedUpTo(PhoneAudio.Next(t, PhoneAudio.Frame(k == 1, run[k - 1].timestamp, run[k - 1].payload)), run, k, table)
  {
    hide PhoneAudio.Judge, PhoneAudio.Delta, PhoneAudio.Accepted, PhoneAudio.Fed, PhoneAudio.Decoded, PhoneAudio.Length;
    hide Concat, PayloadsOf, ToUint32;
    var f := PhoneAudio.Frame(k == 1, run[k - 1].timestamp, run[k - 1].payload);
    var base := PhoneAudio.Ready(t, f);
    if k > 1 {
      assert Follows(run, k - 2);
      NoDistance(base, f);
    }
    OnTime(base, f);
    FedOneMore(base.pieces, run, k, table);
  }

  lemma NoDistance(t: PhoneAudio.Timeline, f: PhoneAudio.Frame)
    requires t.next == f.timestamp
    ensures PhoneAudio.Delta(t, f) == 0
  {
  }

  lemma FedOneMore(pieces: seq<PhoneAudio.Piece>, run: seq<Packet>, k: nat, table: PhoneAudio.Companding)
    requires 1 <= k <= |run| && run[k - 1].payload != []
    requires k == 1 ==> pieces == []
    requires k > 1 ==> PhoneAudio.Fed(pieces, table) == PhoneAudio.Decoded(Concat(PayloadsOf(run[..k - 1])), table)
    ensures PhoneAudio.Fed(pieces + [PhoneAudio.Piece(run[k - 1].timestamp, run[k - 1].payload, 0, 0)], table)
            == PhoneAudio.Decoded(Concat(PayloadsOf(run[..k])), table)
  {
    hide PhoneAudio.Fed, PhoneAudio.Decoded, PhoneAudio.Length, Concat, PayloadsOf;
    var p := PhoneAudio.Piece(run[k - 1].timestamp, run[k - 1].payload, 0, 0);
    PhoneAudio.FedAppend(pieces, p, table);
    BytesPrefix(run, k);
    FirstBytes(run, table);
    DecodedJoin(Concat(PayloadsOf(run[..k - 1])), p.payload, table);
    NoSilence(PhoneAudio.Fed(pieces, table));
    assert p.payload[p.skipped..] == p.payload;
  }

  // A frame that starts a timeline or is on time is fed as it is.
  lemma OnTime(t: PhoneAudio.Timeline, f: PhoneAudio.Frame)
    requires f.payload != [] && (t.have ==> PhoneAudio.Delta(t, f) == 0)
    ensures PhoneAudio.Judge(t, f) == PhoneAudio.Accept(false, 0, 0)
    ensures PhoneAudio.Accepted(t, f, PhoneAudio.Accept(false, 0, 0))
            == PhoneAudio.Timeline(true, ToUint32(f.timestamp + |f.payload|),
                                   t.pieces + [PhoneAudio.Piece(f.timestamp, f.payload, 0, 0)])
  {
    PhoneAudio.AddTwice(f.timestamp, 0, |f.payload|);
    hide PhoneAudio.Delta;
  }

  lemma FirstBytes(run: seq<Packet>, table: PhoneAudio.Companding)
    ensures run[..0] == [] && Concat(PayloadsOf(run[..0])) == []
    ensures PhoneAudio.Fed([], table) == [] == PhoneAudio.Decoded([], table)
  {
  }

  lemma NoSilence(pcm: seq<Int16>)
    ensures pcm + SampleFifo.Silence(0) == pcm
  {
  }

  lemma {:induction false} RunIsFed(t: PhoneAudio.Timeline, run: seq<Packet>, k: nat, table: PhoneAudio.Companding)
    requires 1 <= k <= |run| && Contiguous(run)
    ensures FedUpTo(FeedAll(t, Frames(Marked(run[..k], true))), run, k, table)
  {
    hide Contiguous, FedUpTo, Frames, Marked, PhoneAudio.Next;
    FramesPrefix(run, k);
    var before := Frames(Marked(run[..k - 1], true));
    var f := PhoneAudio.Frame(k == 1, run[k - 1].timestamp, run[k - 1].payload);
    assert (before + [f])[..|before|] == before;
    if k > 1 {
      RunIsFed(t, run, k - 1, table);
    }
    NextOfRun(FeedAll(t, before), run, k, table);
  }

  // However a run of packets is reordered within the window, whatever was played before, and however
  // often its numbers and timestamps wrap: the resampler is fed the decoded original, byte for byte.
  lemma OriginalIsFed(window: nat, run: seq<Packet>, order: seq<nat>, t: PhoneAudio.Timeline, table: PhoneAudio.Companding)
    requires window >= 1 && IsRun(run) && Gentle(order, |run|, window) && Contiguous(run)
    ensures var after := FeedAll(t, Frames(Run(window, Feed(run, order)).1));
            && after.have && after.pieces != [] && after.pieces[0].timestamp == run[0].timestamp
            && PhoneAudio.Fed(after.pieces, table) == PhoneAudio.Decoded(Concat(PayloadsOf(run)), table)
  {
    OrderRestored(window, run, order);
    assert run[..|run|] == run;
    hide IsRun, Gentle, Contiguous, Feed, Run;
    RunIsFed(t, run, |run|, table);
  }
}
