/** The echo canceller's render timeline of internal/media/echo_cancel.go: what is kept of the played
    samples, and the reference windows rebuilt from it. */
module EchoReference {
  import opened GoNumbers
  import opened Wrappers

  const FRAME := 80
  const FRAME_NS := 10_000_000
  const SAMPLE_NS := 125_000
  const MILLISECOND := 1_000_000

  datatype TimedFrame = TimedFrame(at: int, samples: seq<Int16>)

  // One stretch of playback between two rebases: every sample it was given, and how many whole
  // frames of them were filed.
  datatype Epoch = Epoch(start: int, flat: seq<Int16>, frames: nat)

  // Where a filed frame came from.
  datatype Tag = Tag(epoch: nat, index: nat)

  // `epochs` and `tags` are history: nothing computed depends on them.
  datatype Render = Render(
    next: Option<int>,
    pending: seq<Int16>,
    history: seq<TimedFrame>,
    epochs: seq<Epoch>,
    tags: seq<Tag>)

  const Silent := Render(None, [], [], [], [])

  /* AddRender. */

  function NeedsRebase(next: Option<int>, now: int): bool {
    next == None || now - next.value > 120 * MILLISECOND || next.value - now > 80 * MILLISECOND
  }

  function Rebased(r: Render, now: int): Render {
    if NeedsRebase(r.next, now) then
      r.(next := Some(now), pending := [], epochs := r.epochs + [Epoch(now, [], 0)])
    else r
  }

  function LastEpoch(r: Render): Epoch
    requires r.epochs != []
  {
    r.epochs[|r.epochs| - 1]
  }

  function WithLast(r: Render, e: Epoch): seq<Epoch>
    requires r.epochs != []
  {
    r.epochs[|r.epochs| - 1 := e]
  }

  function Gathered(r: Render, pcm: seq<Int16>): Render
    requires r.epochs != []
  {
    var e := LastEpoch(r);
    r.(pending := r.pending + pcm, epochs := WithLast(r, e.(flat := e.flat + pcm)))
  }

  function CutOne(r: Render): Render
    requires r.next.Some? && r.epochs != [] && |r.pending| >= FRAME
  {
    var e := LastEpoch(r);
    Render(Some(r.next.value + FRAME_NS),
           r.pending[FRAME..],
           r.history + [TimedFrame(r.next.value, r.pending[..FRAME])],
           WithLast(r, e.(frames := e.frames + 1)),
           r.tags + [Tag(|r.epochs| - 1, e.frames)])
  }

  function CutAll(r: Render): Render
    requires r.next.Some? && r.epochs != []
    decreases |r.pending|
  {
    if |r.pending| < FRAME then r else CutAll(CutOne(r))
  }

  // How many frames at the front are older than the cutoff.
  function Stale(history: seq<TimedFrame>, cutoff: int): (n: nat)
    ensures n <= |history|
    ensures forall i :: 0 <= i < n ==> history[i].at < cutoff
    ensures n < |history| ==> history[n].at >= cutoff
  {
    if history == [] || history[0].at >= cutoff then 0 else 1 + Stale(history[1..], cutoff)
  }

  function Pruned(r: Render, cutoff: int): Render {
    var n := Stale(r.history, cutoff);
    r.(history := r.history[n..], tags := if n <= |r.tags| then r.tags[n..] else [])
  }

  function AddRender(r: Render, pcm: seq<Int16>, now: int, keep: int): Render
    requires r.next.Some? ==> r.epochs != []
  {
    if pcm == [] then r
    else Pruned(CutAll(Gathered(Rebased(r, now), pcm)), now - keep)
  }

  /* The windows. */

  function Contains(history: seq<TimedFrame>, i: int, target: int): bool {
    && 0 <= i < |history|
    && |history[i].samples| >= FRAME
    && history[i].at <= target < history[i].at + FRAME_NS
  }

  // The newest of the first n frames that holds the target, or -1.
  function ReverseScan(history: seq<TimedFrame>, target: int, n: nat): (i: int)
    requires n <= |history|
    ensures -1 <= i < n
    ensures i >= 0 ==> Contains(history, i, target)
    ensures forall j :: i < j < n ==> !Contains(history, j, target)
  {
    if n == 0 then -1
    else if Contains(history, n - 1, target) then n - 1
    else ReverseScan(history, target, n - 1)
  }

  function Find(history: seq<TimedFrame>, target: int, hint: int): int {
    if hint >= 0 && Contains(history, hint + 1, target) then hint + 1
    else if hint >= 0 && Contains(history, hint, target) then hint
    else if hint >= 0 && Contains(history, hint + 2, target) then hint + 2
    else ReverseScan(history, target, |history|)
  }

  // The sample of a frame nearest to the target.
  function Offset(at: int, target: int): int {
    (target - at + SAMPLE_NS / 2) / SAMPLE_NS
  }

  function Continues(history: seq<TimedFrame>, i: nat): bool
    requires i < |history|
  {
    && i + 1 < |history|
    && |history[i + 1].samples| >= FRAME
    && -(SAMPLE_NS / 2) <= history[i + 1].at - (history[i].at + FRAME_NS) <= SAMPLE_NS / 2
  }

  function Fill(history: seq<TimedFrame>, i: int, target: int): (w: Option<seq<Int16>>)
    ensures w.Some? ==> |w.value| == FRAME
  {
    if !Contains(history, i, target) then None
    else
      var f := history[i];
      var offset := Offset(f.at, target);
      var gridError := f.at + offset * SAMPLE_NS - target;
      if offset < 0 || offset > FRAME || gridError > SAMPLE_NS / 2 || -gridError > SAMPLE_NS / 2 then None
      else if offset == 0 then Some(f.samples[..FRAME])
      else if !Continues(history, i) then None
      else Some(f.samples[offset..FRAME] + history[i + 1].samples[..offset])
  }

  function ReferenceAt(history: seq<TimedFrame>, target: int): Option<seq<Int16>> {
    Fill(history, Find(history, target, -1), target)
  }

  /* What holds of every timeline. */

  ghost predicate Placed(r: Render, i: nat)
    requires i < |r.history| == |r.tags|
  {
    var t := r.tags[i];
    && t.epoch < |r.epochs|
    && var e := r.epochs[t.epoch];
       && t.index < e.frames
       && (t.index + 1) * FRAME <= |e.flat|
       && r.history[i] == TimedFrame(e.start + t.index * FRAME_NS, e.flat[t.index * FRAME..(t.index + 1) * FRAME])
  }

  ghost predicate NoFrames(epochs: seq<Epoch>, from: nat, to: nat) {
    forall m :: from <= m < to && m < |epochs| ==> epochs[m].frames == 0
  }

  // Frame i+1 follows frame i in its epoch, or opens the next epoch that filed any.
  ghost predicate Adjacent(r: Render, i: nat)
    requires i + 1 < |r.tags|
  {
    var t, u := r.tags[i], r.tags[i + 1];
    || u == Tag(t.epoch, t.index + 1)
    || (&& t.epoch < u.epoch < |r.epochs| && u.index == 0
        && t.index + 1 == r.epochs[t.epoch].frames
        && NoFrames(r.epochs, t.epoch + 1, u.epoch))
  }

  ghost predicate NewestTag(r: Render) {
    r.tags != [] ==>
      var t := r.tags[|r.tags| - 1];
      && t.epoch < |r.epochs| && t.index + 1 == r.epochs[t.epoch].frames
      && NoFrames(r.epochs, t.epoch + 1, |r.epochs|)
  }

  function End(e: Epoch): int {
    e.start + e.frames * FRAME_NS
  }

  // A rebase jumps by more than 80 ms.
  ghost predicate Jump(epochs: seq<Epoch>, m: nat)
    requires m + 1 < |epochs|
  {
    var gap := epochs[m + 1].start - End(epochs[m]);
    gap > 80 * MILLISECOND || gap < -80 * MILLISECOND
  }

  ghost predicate Inv(r: Render) {
    && |r.tags| == |r.history|
    && (r.next == None <==> r.epochs == [])
    && (r.epochs == [] ==> r.history == [])
    && (r.epochs != [] ==>
          var e := LastEpoch(r);
          && r.next == Some(End(e))
          && e.frames * FRAME <= |e.flat|
          && r.pending == e.flat[e.frames * FRAME..])
    && (forall i {:trigger Placed(r, i)} :: 0 <= i < |r.history| ==> Placed(r, i))
    && (forall i {:trigger Adjacent(r, i)} :: 0 <= i < |r.history| - 1 ==> Adjacent(r, i))
    && NewestTag(r)
    && (forall m {:trigger Jump(r.epochs, m)} :: 0 <= m < |r.epochs| - 1 ==> Jump(r.epochs, m))
  }

  lemma RebasedInv(r: Render, now: int)
    requires Inv(r)
    ensures Inv(Rebased(r, now)) && Rebased(r, now).epochs != [] && Rebased(r, now).next.Some?
  {
    var s := Rebased(r, now);
    if NeedsRebase(r.next, now) {
      forall i | 0 <= i < |s.history| ensures Placed(s, i) {
        assert Placed(r, i);
      }
      forall i | 0 <= i < |s.history| - 1 ensures Adjacent(s, i) {
        assert Adjacent(r, i);
      }
      forall m | 0 <= m < |s.epochs| - 1 ensures Jump(s.epochs, m) {
        if m < |r.epochs| - 1 {
          assert Jump(r.epochs, m);
        }
      }
    }
  }

  lemma GatheredInv(r: Render, pcm: seq<Int16>)
    requires Inv(r) && r.epochs != []
    ensures Inv(Gathered(r, pcm))
  {
    var s := Gathered(r, pcm);
    forall i | 0 <= i < |s.history| ensures Placed(s, i) {
      assert Placed(r, i);
    }
    forall i | 0 <= i < |s.history| - 1 ensures Adjacent(s, i) {
      assert Adjacent(r, i);
    }
    forall m | 0 <= m < |s.epochs| - 1 ensures Jump(s.epochs, m) {
      assert Jump(r.epochs, m);
    }
  }

  lemma CutOneInv(r: Render)
    requires Inv(r) && r.epochs != [] && |r.pending| >= FRAME
    ensures Inv(CutOne(r))
  {
    var s := CutOne(r);
    var e := LastEpoch(r);
    forall i | 0 <= i < |s.history| ensures Placed(s, i) {
      if i < |r.history| {
        assert Placed(r, i);
      }
    }
    forall i | 0 <= i < |s.history| - 1 ensures Adjacent(s, i) {
      if i < |r.history| - 1 {
        assert Adjacent(r, i);
        assert Placed(r, i) && Placed(r, i + 1);
      }
    }
    forall m | 0 <= m < |s.epochs| - 1 ensures Jump(s.epochs, m) {
      assert Jump(r.epochs, m);
    }
  }

  lemma {:induction false} CutAllInv(r: Render)
    requires Inv(r) && r.epochs != []
    ensures Inv(CutAll(r)) && |CutAll(r).pending| < FRAME && CutAll(r).epochs != []
    ensures |CutAll(r).epochs| == |r.epochs|
    ensures forall m :: 0 <= m < |r.epochs| - 1 ==> CutAll(r).epochs[m] == r.epochs[m]
    ensures var e := LastEpoch(r);
            LastEpoch(CutAll(r)) == e.(frames := e.frames + |r.pending| / FRAME)
    decreases |r.pending|
  {
    if |r.pending| >= FRAME {
      CutOneInv(r);
      hide Inv;
      CutAllInv(CutOne(r));
    }
  }

  lemma PrunedInv(r: Render, cutoff: int)
    requires Inv(r)
    ensures Inv(Pruned(r, cutoff))
  {
    var s := Pruned(r, cutoff);
    var n := Stale(r.history, cutoff);
    forall i | 0 <= i < |s.history| ensures Placed(s, i) {
      assert Placed(r, i + n);
    }
    forall i | 0 <= i < |s.history| - 1 ensures Adjacent(s, i) {
      assert Adjacent(r, i + n);
    }
  }

  lemma AddRenderInv(r: Render, pcm: seq<Int16>, now: int, keep: int)
    requires Inv(r)
    ensures Inv(AddRender(r, pcm, now, keep))
  {
    if pcm != [] {
      RebasedInv(r, now);
      hide Inv;
      var s := Rebased(r, now);
      GatheredInv(s, pcm);
      CutAllInv(Gathered(s, pcm));
      PrunedInv(CutAll(Gathered(s, pcm)), now - keep);
    }
  }
}
