/** The echo canceller of internal/media/echo_cancel.go, as far as it keeps and rebuilds what was played. */
module EchoCanceller {
  import opened GoNumbers
  import opened Wrappers
  import opened EchoReference

  class EchoCanceller {
    const maxDelayMS: int
    var renderNextAt: Option<int>
    var renderPending: seq<Int16>
    var renderHistory: seq<TimedFrame>
    ghost var epochs: seq<Epoch>
    ghost var tags: seq<Tag>

    ghost function State(): Render
      reads this
    {
      Render(renderNextAt, renderPending, renderHistory, epochs, tags)
    }

    ghost predicate Valid()
      reads this
    {
      Inv(State()) && |renderPending| < FRAME
    }

    function Keep(): int {
      Max((maxDelayMS + 1200) * MILLISECOND, 2500 * MILLISECOND)
    }

    constructor (aecMaxDelayMS: int)
      ensures Valid() && State() == Silent && maxDelayMS == aecMaxDelayMS
    {
      maxDelayMS := aecMaxDelayMS;
      renderNextAt, renderPending, renderHistory, epochs, tags := None, [], [], [], [];
    }

    method AddRender(pcm: seq<Int16>, now: int)
      requires Valid()
      modifies this
      ensures Valid()
      ensures State() == EchoReference.AddRender(old(State()), pcm, now, Keep())
    {
      if |pcm| == 0 {
        return;
      }
      hide Inv, CutAll, Pruned, Rebased, Gathered;
      Rebase(now);
      Gather(pcm);
      CutFrames();
      PruneRender(now);
    }

    method Rebase(now: int)
      requires Inv(State())
      modifies this
      ensures State() == Rebased(old(State()), now) && Inv(State())
      ensures renderNextAt.Some? && epochs != []
    {
      RebasedInv(State(), now);
      hide Inv;
      if NeedsRebase(renderNextAt, now) {
        renderNextAt := Some(now);
        renderPending := [];
        epochs := epochs + [Epoch(now, [], 0)];
      }
    }

    method Gather(pcm: seq<Int16>)
      requires Inv(State()) && renderNextAt.Some? && epochs != []
      modifies this
      ensures State() == Gathered(old(State()), pcm) && Inv(State())
      ensures renderNextAt.Some? && epochs != []
    {
      GatheredInv(State(), pcm);
      hide Inv;
      ghost var e := LastEpoch(State());
      epochs := WithLast(State(), e.(flat := e.flat + pcm));
      renderPending := renderPending + pcm;
    }

    // The loop that files whole frames.
    method CutFrames()
      requires Inv(State()) && renderNextAt.Some? && epochs != []
      modifies this
      ensures State() == CutAll(old(State())) && Inv(State())
      ensures |renderPending| < FRAME && renderNextAt.Some? && epochs != []
    {
      while |renderPending| >= FRAME
        invariant Inv(State()) && renderNextAt.Some? && epochs != []
        invariant CutAll(State()) == CutAll(old(State()))
      {
        ghost var r := State();
        CutOneInv(r);
        hide Inv;
        var frame := renderPending[..FRAME];
        renderPending := renderPending[FRAME..];
        renderHistory := renderHistory + [TimedFrame(renderNextAt.value, frame)];
        renderNextAt := Some(renderNextAt.value + FRAME_NS);
        epochs, tags := CutOne(r).epochs, CutOne(r).tags;
        assert State() == CutOne(r);
      }
    }

    method PruneRender(now: int)
      requires Inv(State())
      modifies this`renderHistory, this`tags
      ensures State() == Pruned(old(State()), now - Keep()) && Inv(State())
      ensures |renderPending| == old(|renderPending|)
    {
      PrunedInv(State(), now - Keep());
      hide Inv;
      ghost var r := State();
      var first := 0;
      while first < |renderHistory| && renderHistory[first].at < now - Keep()
        invariant 0 <= first <= |renderHistory|
        invariant Stale(renderHistory, now - Keep()) == first + Stale(renderHistory[first..], now - Keep())
      {
        first := first + 1;
      }
      renderHistory := renderHistory[first..];
      tags := Pruned(r, now - Keep()).tags;
    }

    method FindReferenceFrame(target: int, hint: int) returns (i: int)
      ensures i == Find(renderHistory, target, hint)
    {
      if hint >= 0 {
        if Contains(renderHistory, hint + 1, target) {
          return hint + 1;
        }
        if Contains(renderHistory, hint, target) {
          return hint;
        }
        if Contains(renderHistory, hint + 2, target) {
          return hint + 2;
        }
      }
      i := |renderHistory| - 1;
      while i >= 0
        invariant -1 <= i < |renderHistory|
        invariant ReverseScan(renderHistory, target, |renderHistory|) == ReverseScan(renderHistory, target, i + 1)
      {
        if Contains(renderHistory, i, target) {
          return i;
        }
        i := i - 1;
      }
    }

    // On success the caller's buffer starts with the window; the rest of it is never touched.
    method FillReferenceFromFrame(i: int, target: int, dst: array<Int16>) returns (ok: bool)
      modifies dst
      ensures ok == (dst.Length >= FRAME && Fill(renderHistory, i, target).Some?)
      ensures ok ==> dst[..FRAME] == Fill(renderHistory, i, target).value
      ensures forall j :: FRAME <= j < dst.Length ==> dst[j] == old(dst[j])
    {
      if dst.Length < FRAME || !Contains(renderHistory, i, target) {
        return false;
      }
      var frame := renderHistory[i];
      var offset := Offset(frame.at, target);
      if offset < 0 || offset > FRAME {
        return false;
      }
      var gridError := frame.at + offset * SAMPLE_NS - target;
      if gridError > SAMPLE_NS / 2 || -gridError > SAMPLE_NS / 2 {
        return false;
      }
      hide Offset, Contains;
      CopyInto(dst, 0, frame.samples[offset..FRAME]);
      if offset == 0 {
        return true;
      }
      if !Continues(renderHistory, i) {
        return false;
      }
      CopyInto(dst, FRAME - offset, renderHistory[i + 1].samples[..offset]);
      assert dst[..FRAME] == dst[..FRAME - offset] + dst[FRAME - offset..FRAME];
      return true;
    }

    method CopyInto(dst: array<Int16>, at: nat, samples: seq<Int16>)
      requires at + |samples| <= dst.Length
      modifies dst
      ensures dst[at..at + |samples|] == samples
      ensures forall j :: 0 <= j < at || at + |samples| <= j < dst.Length ==> dst[j] == old(dst[j])
    {
      forall j | at <= j < at + |samples| {
        dst[j] := samples[j - at];
      }
    }

    method ReferenceAt(target: int) returns (window: Option<seq<Int16>>)
      ensures window == EchoReference.ReferenceAt(renderHistory, target)
    {
      hide Fill, Find;
      var i := FindReferenceFrame(target, -1);
      var out := new Int16[FRAME](_ => 0);
      var ok := FillReferenceFromFrame(i, target, out);
      return if ok then Some(out[..FRAME]) else None;
    }
  }
}
