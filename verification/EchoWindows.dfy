/** What the echo canceller's reference windows are: slices of the stream that was played. */
module EchoWindows {
  import opened GoNumbers
  import opened Wrappers
  import opened EchoReference

  // The window is the 80 samples of one epoch that start nearest to the target.
  ghost predicate SliceAt(r: Render, epoch: nat, target: int, w: seq<Int16>) {
    && epoch < |r.epochs|
    && var e := r.epochs[epoch];
       var k := Nearest(e, target);
       && 0 <= k && k + FRAME <= |e.flat|
       && w == e.flat[k..k + FRAME]
       && -(SAMPLE_NS / 2) <= e.start + k * SAMPLE_NS - target <= SAMPLE_NS / 2
  }

  function Nearest(e: Epoch, target: int): int {
    Offset(e.start, target)
  }

  lemma OffsetInFrame(start: int, index: int, target: int)
    ensures Offset(start, target) == index * FRAME + Offset(start + index * FRAME_NS, target)
  {
    assert start + index * FRAME_NS == start + (index * FRAME) * SAMPLE_NS;
  }

  lemma OffsetError(at: int, target: int)
    requires at <= target < at + FRAME_NS
    ensures 0 <= Offset(at, target) <= FRAME
    ensures -(SAMPLE_NS / 2) <= at + Offset(at, target) * SAMPLE_NS - target <= SAMPLE_NS / 2
  {
  }

  lemma TwoSlices(flat: seq<Int16>, index: nat, offset: nat)
    requires offset <= FRAME && (index + 1) * FRAME <= |flat|
    requires offset > 0 ==> (index + 2) * FRAME <= |flat|
    ensures var first := flat[index * FRAME..(index + 1) * FRAME];
            var k := index * FRAME + offset;
            && k + FRAME <= |flat|
            && (offset == 0 ==> first[..FRAME] == flat[k..k + FRAME])
            && (offset > 0 ==>
                  var second := flat[(index + 1) * FRAME..(index + 2) * FRAME];
                  first[offset..FRAME] + second[..offset] == flat[k..k + FRAME])
  {
    var k, middle := index * FRAME + offset, (index + 1) * FRAME;
    if offset > 0 {
      SubSlice(flat, index * FRAME, middle, offset, FRAME);
      SubSlice(flat, middle, middle + FRAME, 0, offset);
      assert flat[k..middle] + flat[middle..k + FRAME] == flat[k..k + FRAME];
    }
  }

  lemma SubSlice(s: seq<Int16>, from: nat, to: nat, i: nat, j: nat)
    requires from + j <= to <= |s| && i <= j
    ensures s[from..to][i..j] == s[from + i..from + j]
  {
    forall k | 0 <= k < j - i
      ensures s[from..to][i..j][k] == s[from + i..from + j][k]
    {
    }
  }

  // A window taken from frame i, and from frame i+1 of the same epoch.
  lemma WindowOfFrame(r: Render, i: nat, target: int)
    requires Inv(r) && i < |r.history|
    requires Fill(r.history, i, target).Some?
    requires Offset(r.history[i].at, target) > 0 ==> r.tags[i + 1] == Tag(r.tags[i].epoch, r.tags[i].index + 1)
    ensures SliceAt(r, r.tags[i].epoch, target, Fill(r.history, i, target).value)
  {
    assert Placed(r, i);
    var t := r.tags[i];
    var e := r.epochs[t.epoch];
    var offset := Offset(r.history[i].at, target);
    OffsetInFrame(e.start, t.index, target);
    OffsetError(r.history[i].at, target);
    if offset > 0 {
      assert Placed(r, i + 1);
    }
    hide Offset, Inv, Placed;
    TwoSlices(e.flat, t.index, offset);
    assert e.start + Nearest(e, target) * SAMPLE_NS == r.history[i].at + offset * SAMPLE_NS;
  }

  // Every epoch but the current one filed at least a frame.
  ghost predicate NoShortEpoch(r: Render) {
    forall m :: 0 <= m < |r.epochs| - 1 ==> r.epochs[m].frames >= 1
  }

  lemma ContinuesWithinEpoch(r: Render, i: nat)
    requires Inv(r) && NoShortEpoch(r) && i + 1 < |r.history|
    requires Continues(r.history, i)
    ensures r.tags[i + 1] == Tag(r.tags[i].epoch, r.tags[i].index + 1)
  {
    assert Adjacent(r, i) && Placed(r, i) && Placed(r, i + 1);
    var t, u := r.tags[i], r.tags[i + 1];
    if u.epoch > t.epoch {
      NextEpoch(r, i);
      var jump := Jump(r.epochs, t.epoch);
    }
  }

  lemma NextEpoch(r: Render, i: nat)
    requires NoShortEpoch(r) && i + 1 < |r.tags| && Adjacent(r, i)
    requires r.tags[i + 1].epoch > r.tags[i].epoch
    ensures r.tags[i + 1].epoch == r.tags[i].epoch + 1
  {
    var between := r.epochs[r.tags[i].epoch + 1];
  }

  // No window joins samples from two sides of a rebase.
  lemma WindowsAreSlices(r: Render, target: int)
    requires Inv(r) && NoShortEpoch(r)
    requires ReferenceAt(r.history, target).Some?
    ensures exists epoch :: SliceAt(r, epoch, target, ReferenceAt(r.history, target).value)
  {
    var i := Find(r.history, target, -1);
    if Offset(r.history[i].at, target) > 0 {
      hide Offset, Inv;
      ContinuesWithinEpoch(r, i);
    }
    hide Inv, Offset;
    WindowOfFrame(r, i, target);
  }

  /* Retained history without a rebase. */

  ghost predicate OneStretch(r: Render) {
    r.history != [] && |r.tags| == |r.history| && r.tags[0].epoch == |r.epochs| - 1
  }

  lemma {:induction false} StretchTags(r: Render, i: nat)
    requires Inv(r) && OneStretch(r) && i < |r.history|
    ensures r.tags[i] == Tag(|r.epochs| - 1, r.tags[0].index + i)
  {
    if i > 0 {
      StretchTags(r, i - 1);
      assert Adjacent(r, i - 1);
    }
  }

  lemma FrameTime(r: Render, i: nat)
    requires Inv(r) && OneStretch(r) && i < |r.history|
    ensures r.history[i].at == LastEpoch(r).start + (r.tags[0].index + i) * FRAME_NS
    ensures |r.history[i].samples| == FRAME
  {
    StretchTags(r, i);
    assert Placed(r, i);
  }

  lemma StretchLength(r: Render)
    requires Inv(r) && OneStretch(r)
    ensures r.tags[0].index + |r.history| == LastEpoch(r).frames
  {
    StretchTags(r, |r.history| - 1);
  }

  // Inside what is retained, a window is found exactly when its 80 samples are filed.
  lemma WindowFoundIff(r: Render, target: int)
    requires Inv(r) && OneStretch(r)
    ensures var e := LastEpoch(r);
            ReferenceAt(r.history, target).Some?
            <==> r.history[0].at <= target < End(e) && Nearest(e, target) + FRAME <= e.frames * FRAME
    ensures ReferenceAt(r.history, target).Some? ==>
              SliceAt(r, |r.epochs| - 1, target, ReferenceAt(r.history, target).value)
  {
    var e := LastEpoch(r);
    var base := r.tags[0].index;
    FrameTime(r, 0);
    StretchLength(r);
    hide Inv, Offset, Fill;
    var i := Find(r.history, target, -1);
    if i >= 0 {
      FrameTime(r, i);
      StretchTags(r, i);
      FillIff(r, i, target);
    } else if r.history[0].at <= target < End(e) {
      FrameHolding(r, target);
    }
  }

  lemma FrameHolding(r: Render, target: int)
    requires Inv(r) && OneStretch(r)
    requires r.history[0].at <= target < End(LastEpoch(r))
    ensures exists j :: 0 <= j < |r.history| && Contains(r.history, j, target)
  {
    FrameTime(r, 0);
    StretchLength(r);
    var j := (target - r.history[0].at) / FRAME_NS;
    FrameTime(r, j);
    assert Contains(r.history, j, target);
  }

  lemma FillIff(r: Render, i: nat, target: int)
    requires Inv(r) && OneStretch(r) && i < |r.history| && Contains(r.history, i, target)
    ensures var e := LastEpoch(r);
            Fill(r.history, i, target).Some? <==> Nearest(e, target) + FRAME <= e.frames * FRAME
    ensures Fill(r.history, i, target).Some? ==>
              SliceAt(r, |r.epochs| - 1, target, Fill(r.history, i, target).value)
  {
    var e := LastEpoch(r);
    FrameTime(r, i);
    StretchLength(r);
    OffsetError(r.history[i].at, target);
    OffsetInFrame(e.start, r.tags[0].index + i, target);
    if i + 1 < |r.history| {
      FrameTime(r, i + 1);
      StretchTags(r, i + 1);
    }
    StretchTags(r, i);
    hide Inv, Offset;
    if Fill(r.history, i, target).Some? {
      WindowOfFrame(r, i, target);
    }
  }

  /* The hinted search. */

  ghost predicate Overlap(history: seq<TimedFrame>, i: nat, j: nat)
    requires i < |history| && j < |history|
  {
    history[i].at < history[j].at + FRAME_NS && history[j].at < history[i].at + FRAME_NS
  }

  lemma HintAgrees(history: seq<TimedFrame>, target: int, hint: int)
    requires forall i, j :: 0 <= i < j < |history| ==> !Overlap(history, i, j)
    ensures Find(history, target, hint) == Find(history, target, -1)
  {
    var found := Find(history, target, hint);
    var plain := ReverseScan(history, target, |history|);
    if found != plain && found >= 0 && plain >= 0 {
      assert Overlap(history, Min(found, plain), Max(found, plain));
    }
  }

  // Frames filed by a clock that never jumps back follow one another.
  ghost predicate Ascending(r: Render) {
    && (forall i :: 0 <= i < |r.history| - 1 ==> r.history[i].at + FRAME_NS <= r.history[i + 1].at)
    && (r.history != [] ==> r.next.Some? && r.history[|r.history| - 1].at + FRAME_NS <= r.next.value)
  }

  lemma {:induction false} AscendingApart(history: seq<TimedFrame>, i: nat, j: nat)
    requires forall k :: 0 <= k < |history| - 1 ==> history[k].at + FRAME_NS <= history[k + 1].at
    requires i < j < |history|
    ensures history[i].at + FRAME_NS <= history[j].at
    decreases j - i
  {
    if i + 1 < j {
      AscendingApart(history, i, j - 1);
      assert history[j - 1].at + FRAME_NS <= history[j - 1 + 1].at;
    }
  }

  lemma {:induction false} CutAllAscending(r: Render)
    requires r.next.Some? && r.epochs != [] && Ascending(r)
    ensures Ascending(CutAll(r))
    decreases |r.pending|
  {
    if |r.pending| >= FRAME {
      CutAllAscending(CutOne(r));
    }
  }

  lemma PrunedAscending(r: Render, cutoff: int)
    requires Ascending(r)
    ensures Ascending(Pruned(r, cutoff))
  {
    var n := Stale(r.history, cutoff);
    var kept := r.history[n..];
    forall i | 0 <= i < |kept| - 1
      ensures kept[i].at + FRAME_NS <= kept[i + 1].at
    {
      assert kept[i] == r.history[i + n] && kept[i + 1] == r.history[i + n + 1];
    }
    assert kept != [] ==> kept[|kept| - 1] == r.history[|r.history| - 1];
  }

  lemma GatheredAscending(r: Render, pcm: seq<Int16>, now: int)
    requires Ascending(r) && Rebased(r, now).epochs != []
    requires r.next.Some? ==> r.next.value - now <= 80 * MILLISECOND
    ensures Ascending(Gathered(Rebased(r, now), pcm))
    ensures var s := Gathered(Rebased(r, now), pcm); s.next == Rebased(r, now).next && s.epochs != []
  {
  }

  lemma AddRenderAscending(r: Render, pcm: seq<Int16>, now: int, keep: int)
    requires Inv(r) && Ascending(r)
    requires r.next.Some? ==> r.next.value - now <= 80 * MILLISECOND
    ensures Ascending(AddRender(r, pcm, now, keep))
  {
    hide Inv, Ascending, Rebased, Gathered, CutAll, Pruned;
    if pcm != [] {
      RebasedInv(r, now);
      GatheredAscending(r, pcm, now);
      var s := Gathered(Rebased(r, now), pcm);
      CutAllAscending(s);
      PrunedAscending(CutAll(s), now - keep);
    }
  }

  /* When a window can join two stretches. */

  // A frame that continues another in time continues its stretch.
  ghost predicate WholeAt(r: Render, i: nat)
    requires i + 1 < |r.history| == |r.tags|
  {
    Continues(r.history, i) ==> r.tags[i + 1].epoch == r.tags[i].epoch
  }

  ghost predicate Whole(r: Render)
    requires |r.tags| == |r.history|
  {
    forall i {:trigger WholeAt(r, i)} :: 0 <= i < |r.history| - 1 ==> WholeAt(r, i)
  }

  // The window starting in frame i takes samples from a frame of another stretch.
  predicate JoinsStretches(r: Render, i: nat, target: int)
    requires |r.tags| == |r.history|
  {
    && i + 1 < |r.history| && Fill(r.history, i, target).Some?
    && Offset(r.history[i].at, target) > 0
    && r.tags[i + 1].epoch != r.tags[i].epoch
  }

  lemma ContinuedWindow(r: Render, i: nat)
    requires Inv(r) && i + 1 < |r.history| && Continues(r.history, i)
    ensures var target := r.history[i].at + 40 * SAMPLE_NS;
            Fill(r.history, i, target).Some? && Offset(r.history[i].at, target) == 40
  {
    assert Placed(r, i);
    hide Inv;
  }

  // So a timeline is whole if and only if no window of it joins two stretches.
  lemma WholeIff(r: Render)
    requires Inv(r)
    ensures Whole(r) <==> forall i: nat, target :: !JoinsStretches(r, i, target)
  {
    if Whole(r) {
      forall i: nat, target
        ensures !JoinsStretches(r, i, target)
      {
        if i + 1 < |r.history| {
          assert WholeAt(r, i);
        }
      }
    } else {
      var i :| 0 <= i < |r.history| - 1 && !WholeAt(r, i);
      ContinuedWindow(r, i);
      hide Inv;
      assert JoinsStretches(r, i, r.history[i].at + 40 * SAMPLE_NS);
    }
  }

  lemma SameEpochNext(r: Render, i: nat)
    requires Inv(r) && i + 1 < |r.history| && r.tags[i + 1].epoch == r.tags[i].epoch
    ensures r.tags[i + 1] == Tag(r.tags[i].epoch, r.tags[i].index + 1)
  {
    assert Adjacent(r, i);
    hide Inv;
  }

  // And then every window handed out is a slice of what was played.
  lemma WholeIsUnbroken(r: Render)
    requires Inv(r) && Whole(r)
    ensures Unbroken(r)
  {
    forall target | ReferenceAt(r.history, target).Some?
      ensures exists epoch :: SliceAt(r, epoch, target, ReferenceAt(r.history, target).value)
    {
      var i := Find(r.history, target, -1);
      hide Inv, Offset;
      if Offset(r.history[i].at, target) > 0 {
        assert WholeAt(r, i);
        SameEpochNext(r, i);
      }
      WindowOfFrame(r, i, target);
    }
  }

  // A target for which the window starting in frame i reaches into the next one.
  predicate Reaches(history: seq<TimedFrame>, i: nat, target: int)
    requires i < |history|
  {
    Contains(history, i, target) && Offset(history[i].at, target) > 0
  }

  // Every such target lies in a newer frame too, and the search finds that one.
  ghost predicate Shadowed(history: seq<TimedFrame>, i: nat)
    requires i < |history|
  {
    forall target {:trigger Reaches(history, i, target)} :: Reaches(history, i, target) ==>
      exists j :: i < j < |history| && Contains(history, j, target)
  }

  // No window that referenceAt hands out joins two stretches.
  ghost predicate HandsOutWhole(r: Render)
    requires |r.tags| == |r.history|
  {
    forall target :: var i := Find(r.history, target, -1); i >= 0 ==> !JoinsStretches(r, i, target)
  }

  lemma ReachingWindow(r: Render, i: nat, target: int)
    requires Inv(r) && i + 1 < |r.history| && Continues(r.history, i) && Reaches(r.history, i, target)
    ensures Fill(r.history, i, target).Some?
  {
    assert Placed(r, i);
    OffsetError(r.history[i].at, target);
    hide Inv, Offset;
  }

  // Exactly: wherever a frame continues one of another stretch, newer frames hide the joint.
  lemma HandedOutIff(r: Render)
    requires Inv(r)
    ensures HandsOutWhole(r)
            <==> forall i :: 0 <= i < |r.history| - 1 && !WholeAt(r, i) ==> Shadowed(r.history, i)
  {
    hide Offset, Fill;
    if HandsOutWhole(r) {
      forall i | 0 <= i < |r.history| - 1 && !WholeAt(r, i)
        ensures Shadowed(r.history, i)
      {
        JointIsShadowed(r, i);
      }
    } else {
      var target :| Find(r.history, target, -1) >= 0 && JoinsStretches(r, Find(r.history, target, -1), target);
      var i := Find(r.history, target, -1);
      JoinedFill(r, i, target);
    }
  }

  lemma JointIsShadowed(r: Render, i: nat)
    requires Inv(r) && HandsOutWhole(r) && i < |r.history| - 1 && !WholeAt(r, i)
    ensures Shadowed(r.history, i)
  {
    forall target | Reaches(r.history, i, target)
      ensures exists j :: i < j < |r.history| && Contains(r.history, j, target)
    {
      ReachingWindow(r, i, target);
      hide Inv, Offset, Fill;
      assert JoinsStretches(r, i, target);
      assert Find(r.history, target, -1) != i;
    }
  }

  lemma JoinedFill(r: Render, i: nat, target: int)
    requires |r.tags| == |r.history| && JoinsStretches(r, i, target)
    requires forall j :: i < j < |r.history| ==> !Contains(r.history, j, target)
    ensures i + 1 < |r.history| && !WholeAt(r, i) && !Shadowed(r.history, i)
  {
    assert Reaches(r.history, i, target);
  }

  // With frames in order nothing is hidden, so the windows handed out are whole if and only if all are.
  lemma HandedOutIfAscending(r: Render)
    requires Inv(r) && Ascending(r)
    ensures HandsOutWhole(r) <==> Whole(r)
  {
    HandedOutIff(r);
    forall i | 0 <= i < |r.history| - 1 && !WholeAt(r, i)
      ensures !Shadowed(r.history, i)
    {
      NothingHides(r, i);
    }
    hide Inv, Ascending, HandsOutWhole;
  }

  lemma NothingHides(r: Render, i: nat)
    requires Inv(r) && Ascending(r) && i < |r.history|
    ensures !Shadowed(r.history, i)
  {
    assert Placed(r, i);
    var target := r.history[i].at + 40 * SAMPLE_NS;
    assert Reaches(r.history, i, target);
    hide Inv, Offset;
    forall j | i < j < |r.history|
      ensures !Contains(r.history, j, target)
    {
      AscendingApart(r.history, i, j);
    }
  }

  // The first frame of a stretch, about to be filed right where the frames before it ended.
  predicate AbutsAt(history: seq<TimedFrame>, start: int) {
    && history != []
    && -(SAMPLE_NS / 2) <= start - (history[|history| - 1].at + FRAME_NS) <= SAMPLE_NS / 2
  }

  // The same for one call of AddRender: it files a frame, none was filed since the last rebase, and the
  // stretch starts within half a sample of the end of the newest frame.
  predicate Abuts(r: Render, pcm: seq<Int16>, now: int) {
    if NeedsRebase(r.next, now) then |pcm| >= FRAME && AbutsAt(r.history, now)
    else
      && r.epochs != [] && LastEpoch(r).frames == 0
      && |r.pending| + |pcm| >= FRAME && AbutsAt(r.history, r.next.value)
  }

  lemma CutOneWhole(r: Render)
    requires Inv(r) && r.epochs != [] && |r.pending| >= FRAME && Whole(r)
    ensures Whole(CutOne(r)) <==> !(LastEpoch(r).frames == 0 && AbutsAt(r.history, LastEpoch(r).start))
  {
    CutOneInv(r);
    var s := CutOne(r);
    var n := |r.history|;
    forall i | 0 <= i < n - 1
      ensures WholeAt(s, i)
    {
      assert WholeAt(r, i);
    }
    if n > 0 {
      NewFrame(r);
      assert Whole(s) <==> WholeAt(s, n - 1);
    }
  }

  // The frame that is filed next, beside the newest one.
  lemma NewFrame(r: Render)
    requires Inv(r) && r.epochs != [] && |r.pending| >= FRAME && r.history != []
    ensures var s, n := CutOne(r), |r.history|;
            && Continues(s.history, n - 1) == AbutsAt(r.history, r.next.value)
            && (r.tags[n - 1].epoch == |r.epochs| - 1 <==> LastEpoch(r).frames > 0)
            && s.tags[n].epoch == |r.epochs| - 1 && s.tags[n - 1] == r.tags[n - 1]
            && (LastEpoch(r).frames == 0 ==> r.next.value == LastEpoch(r).start)
  {
    var n := |r.history|;
    assert Placed(r, n - 1);
    var t := r.tags[n - 1];
    assert NewestTag(r);
    if t.epoch < |r.epochs| - 1 {
      assert r.epochs[|r.epochs| - 1].frames == 0;
    }
  }

  // Filing what waits puts the first frame of a stretch right behind the newest one.
  predicate Breaks(r: Render)
    requires r.epochs != []
  {
    |r.pending| >= FRAME && LastEpoch(r).frames == 0 && AbutsAt(r.history, LastEpoch(r).start)
  }

  lemma {:induction false} CutAllWhole(r: Render)
    requires Inv(r) && r.epochs != [] && Whole(r)
    ensures |CutAll(r).tags| == |CutAll(r).history|
    ensures && (Whole(CutAll(r)) <==> !Breaks(r))
            && (Breaks(r) ==> 0 < |r.history| < |CutAll(r).history| && !WholeAt(CutAll(r), |r.history| - 1))
    decreases |r.pending|
  {
    CutAllInv(r);
    if |r.pending| >= FRAME {
      CutOneInv(r);
      CutOneWhole(r);
      var s := CutOne(r);
      if Whole(s) {
        hide Inv, Whole;
        CutAllWhole(s);
      } else {
        hide Inv;
        CutAllKeepsAt(s, |r.history| - 1);
      }
    }
  }

  lemma {:induction false} CutAllPrefix(r: Render)
    requires r.next.Some? && r.epochs != []
    ensures |r.history| <= |CutAll(r).history|
    ensures forall i :: 0 <= i < |r.history| ==> CutAll(r).history[i] == r.history[i]
    decreases |r.pending|
  {
    if |r.pending| >= FRAME {
      CutAllPrefix(CutOne(r));
    }
  }

  lemma {:induction false} CutAllKeepsAt(r: Render, i: nat)
    requires r.next.Some? && r.epochs != [] && i + 1 < |r.history| == |r.tags|
    ensures |CutAll(r).tags| == |CutAll(r).history| >= |r.history|
    ensures WholeAt(CutAll(r), i) <==> WholeAt(r, i)
    ensures forall k :: 0 <= k < |r.history| ==> CutAll(r).history[k] == r.history[k]
    decreases |r.pending|
  {
    if |r.pending| >= FRAME {
      assert WholeAt(CutOne(r), i) <==> WholeAt(r, i);
      CutAllKeepsAt(CutOne(r), i);
    }
  }

  lemma PrunedWhole(r: Render, cutoff: int)
    requires |r.tags| == |r.history|
    ensures |Pruned(r, cutoff).tags| == |Pruned(r, cutoff).history|
    ensures Whole(r) ==> Whole(Pruned(r, cutoff))
    ensures forall i :: 0 <= i < |r.history| - 1 && !WholeAt(r, i) && r.history[i].at >= cutoff ==> !Whole(Pruned(r, cutoff))
  {
    var n := Stale(r.history, cutoff);
    var s := Pruned(r, cutoff);
    forall i | 0 <= i < |s.history| - 1
      ensures WholeAt(s, i) <==> WholeAt(r, i + n)
    {
      assert s.history[i] == r.history[i + n] && s.history[i + 1] == r.history[i + 1 + n];
    }
    forall i | 0 <= i < |r.history| - 1 && !WholeAt(r, i) && r.history[i].at >= cutoff
      ensures !Whole(s)
    {
      assert n <= i;
      assert !WholeAt(s, i - n);
    }
  }

  // Before the frames are cut, only the stretch may have changed.
  lemma GatheredWhole(r: Render, pcm: seq<Int16>, now: int)
    requires Inv(r) && Whole(r) && |r.pending| < FRAME && pcm != []
    ensures var s := Rebased(r, now);
            && s.epochs != [] && Inv(Gathered(s, pcm)) && Gathered(s, pcm).epochs != []
            && Gathered(s, pcm).history == r.history && Whole(Gathered(s, pcm))
            && (Abuts(r, pcm, now) <==> Breaks(Gathered(s, pcm)))
  {
    RebasedInv(r, now);
    var s := Rebased(r, now);
    GatheredInv(s, pcm);
    var g := Gathered(s, pcm);
    assert LastEpoch(g).frames == 0 ==> g.next == Some(LastEpoch(g).start);
    hide Inv, AbutsAt;
    forall i | 0 <= i < |g.history| - 1
      ensures WholeAt(g, i)
    {
      assert WholeAt(r, i);
    }
  }

  // What a stretch abuts is recent, and is not pruned.
  lemma AbutsRecent(r: Render, pcm: seq<Int16>, now: int, keep: int)
    requires Abuts(r, pcm, now) && keep >= 2500 * MILLISECOND
    ensures r.history != [] && r.history[|r.history| - 1].at >= now - keep
  {
  }

  lemma CutAndPruned(g: Render, cutoff: int)
    requires Inv(g) && g.epochs != [] && Whole(g)
    requires Breaks(g) ==> g.history != [] && g.history[|g.history| - 1].at >= cutoff
    ensures var s := Pruned(CutAll(g), cutoff);
            |s.tags| == |s.history| && |s.pending| < FRAME && (Whole(s) <==> !Breaks(g))
  {
    CutAllInv(g);
    CutAllWhole(g);
    CutAllPrefix(g);
    hide Inv, Whole, CutAll, Stale, WholeAt;
    PrunedWhole(CutAll(g), cutoff);
    PrunedPending(CutAll(g), cutoff);
  }

  // One call of AddRender keeps the timeline whole if and only if it does not abut.
  lemma AddRenderWhole(r: Render, pcm: seq<Int16>, now: int, keep: int)
    requires Inv(r) && Whole(r) && |r.pending| < FRAME && keep >= 2500 * MILLISECOND
    ensures Inv(AddRender(r, pcm, now, keep)) && |AddRender(r, pcm, now, keep).pending| < FRAME
    ensures Whole(AddRender(r, pcm, now, keep)) <==> !Abuts(r, pcm, now)
  {
    hide Inv, Whole, AddRender, Abuts;
    AddRenderInv(r, pcm, now, keep);
    if pcm == [] {
      NothingAdded(r, now, keep);
    } else {
      SomethingAdded(r, pcm, now, keep);
    }
  }

  lemma NothingAdded(r: Render, now: int, keep: int)
    requires Inv(r) && |r.pending| < FRAME
    ensures AddRender(r, [], now, keep) == r && !Abuts(r, [], now)
  {
    hide Inv, AbutsAt;
  }

  lemma AddedIs(r: Render, pcm: seq<Int16>, now: int, keep: int)
    requires (r.next.Some? ==> r.epochs != []) && pcm != []
    requires Rebased(r, now).epochs != [] && Gathered(Rebased(r, now), pcm).next.Some? && Gathered(Rebased(r, now), pcm).epochs != []
    ensures AddRender(r, pcm, now, keep) == Pruned(CutAll(Gathered(Rebased(r, now), pcm)), now - keep)
  {
    hide Rebased, Gathered, CutAll, Pruned;
  }

  lemma SomethingAdded(r: Render, pcm: seq<Int16>, now: int, keep: int)
    requires Inv(r) && Whole(r) && |r.pending| < FRAME && keep >= 2500 * MILLISECOND && pcm != []
    ensures var s := AddRender(r, pcm, now, keep);
            |s.tags| == |s.history| && |s.pending| < FRAME && (Whole(s) <==> !Abuts(r, pcm, now))
  {
    HasEpoch(r);
    hide Inv, Whole, Rebased, Gathered, CutAll, Pruned, AbutsAt, Abuts, AddRender, Breaks;
    GatheredWhole(r, pcm, now);
    var g := Gathered(Rebased(r, now), pcm);
    HasEpoch(g);
    AddedIs(r, pcm, now, keep);
    if Abuts(r, pcm, now) {
      AbutsRecent(r, pcm, now, keep);
    }
    CutAndPruned(g, now - keep);
  }

  lemma HasEpoch(r: Render)
    requires Inv(r)
    ensures r.next.Some? <==> r.epochs != []
  {
  }

  lemma PrunedPending(r: Render, cutoff: int)
    ensures Pruned(r, cutoff).pending == r.pending
  {
  }

  /* Whole runs. */

  datatype Chunk = Chunk(pcm: seq<Int16>, now: int)

  function Run(chunks: seq<Chunk>, keep: int): (r: Render)
    ensures Inv(r)
  {
    if chunks == [] then Silent
    else
      var before := Run(chunks[..|chunks| - 1], keep);
      var c := chunks[|chunks| - 1];
      AddRenderInv(before, c.pcm, c.now, keep);
      AddRender(before, c.pcm, c.now, keep)
  }

  ghost predicate AbutsNext(chunks: seq<Chunk>, keep: int, i: nat)
    requires i < |chunks|
  {
    Abuts(Run(chunks[..i], keep), chunks[i].pcm, chunks[i].now)
  }

  ghost predicate NeverAbuts(chunks: seq<Chunk>, keep: int) {
    forall i :: 0 <= i < |chunks| ==> !AbutsNext(chunks, keep, i)
  }

  ghost predicate WholeAfter(chunks: seq<Chunk>, keep: int, i: nat)
    requires i <= |chunks|
  {
    Whole(Run(chunks[..i], keep))
  }

  ghost predicate AlwaysWhole(chunks: seq<Chunk>, keep: int) {
    forall i :: 0 <= i <= |chunks| ==> WholeAfter(chunks, keep, i)
  }

  ghost predicate HandsOutWholeAfter(chunks: seq<Chunk>, keep: int, i: nat)
    requires i <= |chunks|
  {
    HandsOutWhole(Run(chunks[..i], keep))
  }

  lemma {:induction false} RunPending(chunks: seq<Chunk>, keep: int)
    ensures |Run(chunks, keep).pending| < FRAME
  {
    if chunks != [] {
      var n := |chunks| - 1;
      RunPending(chunks[..n], keep);
      AddRenderPending(Run(chunks[..n], keep), chunks[n].pcm, chunks[n].now, keep);
    }
  }

  lemma AddRenderPending(r: Render, pcm: seq<Int16>, now: int, keep: int)
    requires Inv(r) && |r.pending| < FRAME
    ensures |AddRender(r, pcm, now, keep).pending| < FRAME
  {
    hide Inv, Rebased, Gathered, CutAll, Pruned;
    if pcm != [] {
      RebasedInv(r, now);
      GatheredInv(Rebased(r, now), pcm);
      var g := Gathered(Rebased(r, now), pcm);
      GatheredEpochs(Rebased(r, now), pcm);
      CutAllInv(g);
      PrunedPending(CutAll(g), now - keep);
    }
  }

  lemma GatheredEpochs(r: Render, pcm: seq<Int16>)
    requires r.epochs != []
    ensures Gathered(r, pcm).epochs != []
  {
  }

  // Over whole runs: no window ever joins two stretches if and only if no call of AddRender abuts.
  lemma {:induction false} WholeRunsIff(chunks: seq<Chunk>, keep: int)
    requires keep >= 2500 * MILLISECOND
    ensures AlwaysWhole(chunks, keep) <==> NeverAbuts(chunks, keep)
  {
    hide Run, Whole, Abuts, AlwaysWhole, NeverAbuts;
    if chunks == [] {
      NoChunks(keep);
    } else {
      var n := |chunks| - 1;
      var front := chunks[..n];
      WholeRunsIff(front, keep);
      RunPending(front, keep);
      RunMore(front, chunks[n], keep);
      assert front + [chunks[n]] == chunks;
      PrefixWhole(chunks, front, keep);
      if AlwaysWhole(front, keep) {
        AddRenderWhole(Run(front, keep), chunks[n].pcm, chunks[n].now, keep);
      }
    }
  }

  lemma NoChunks(keep: int)
    ensures AlwaysWhole([], keep) && NeverAbuts([], keep)
  {
    forall i | 0 <= i <= 0 ensures WholeAfter([], keep, i) {
      var none: seq<Chunk> := [];
      assert none[..0] == none;
    }
  }

  // With a clock that never jumps back far enough for a backward rebase, the same for the windows that
  // are handed out.
  lemma HandedOutRunsIff(chunks: seq<Chunk>, keep: int)
    requires keep >= 2500 * MILLISECOND && NeverBack(chunks, keep)
    ensures (forall i :: 0 <= i <= |chunks| ==> HandsOutWholeAfter(chunks, keep, i)) <==> NeverAbuts(chunks, keep)
  {
    hide HandsOutWholeAfter, WholeAfter, NeverBack, NeverAbuts;
    WholeRunsIff(chunks, keep);
    forall i | 0 <= i <= |chunks|
      ensures HandsOutWholeAfter(chunks, keep, i) <==> WholeAfter(chunks, keep, i)
    {
      HandedOutAt(chunks, keep, i);
    }
  }

  lemma HandedOutAt(chunks: seq<Chunk>, keep: int, i: nat)
    requires NeverBack(chunks, keep) && i <= |chunks|
    ensures HandsOutWholeAfter(chunks, keep, i) <==> WholeAfter(chunks, keep, i)
  {
    hide Run, Whole, HandsOutWhole, Ascending;
    NeverBackPrefix(chunks, keep, i);
    RunAscending(chunks[..i], keep);
    HandedOutIfAscending(Run(chunks[..i], keep));
  }

  lemma NeverBackPrefix(chunks: seq<Chunk>, keep: int, i: nat)
    requires NeverBack(chunks, keep) && i <= |chunks|
    ensures NeverBack(chunks[..i], keep)
  {
    hide Run;
    forall k | 0 <= k < i ensures chunks[..i][..k] == chunks[..k] {}
  }

  lemma PrefixWhole(chunks: seq<Chunk>, front: seq<Chunk>, keep: int)
    requires chunks != [] && front == chunks[..|chunks| - 1]
    ensures AlwaysWhole(chunks, keep) <==> AlwaysWhole(front, keep) && Whole(Run(chunks, keep))
    ensures NeverAbuts(chunks, keep) <==>
            NeverAbuts(front, keep) && !Abuts(Run(front, keep), chunks[|front|].pcm, chunks[|front|].now)
    ensures AlwaysWhole(front, keep) ==> Whole(Run(front, keep))
  {
    hide Run, Whole, Abuts, AlwaysWhole, NeverAbuts;
    PrefixAlwaysWhole(chunks, front, keep);
    PrefixNeverAbuts(chunks, front, keep);
  }

  lemma PrefixAlwaysWhole(chunks: seq<Chunk>, front: seq<Chunk>, keep: int)
    requires chunks != [] && front == chunks[..|chunks| - 1]
    ensures AlwaysWhole(chunks, keep) <==> AlwaysWhole(front, keep) && Whole(Run(chunks, keep))
    ensures AlwaysWhole(front, keep) ==> Whole(Run(front, keep))
  {
    hide WholeAfter, Run, Whole;
    forall i | 0 <= i <= |front|
      ensures WholeAfter(front, keep, i) <==> WholeAfter(chunks, keep, i)
    {
      SamePrefix(chunks, front, keep, i);
    }
    WholeAtEnd(chunks, keep);
    WholeAtEnd(front, keep);
  }

  lemma SamePrefix(chunks: seq<Chunk>, front: seq<Chunk>, keep: int, i: nat)
    requires chunks != [] && front == chunks[..|chunks| - 1] && i <= |front|
    ensures WholeAfter(front, keep, i) <==> WholeAfter(chunks, keep, i)
  {
    hide Run, Whole;
    assert front[..i] == chunks[..i];
  }

  lemma WholeAtEnd(chunks: seq<Chunk>, keep: int)
    ensures WholeAfter(chunks, keep, |chunks|) <==> Whole(Run(chunks, keep))
  {
    assert chunks[..|chunks|] == chunks;
  }

  lemma PrefixNeverAbuts(chunks: seq<Chunk>, front: seq<Chunk>, keep: int)
    requires chunks != [] && front == chunks[..|chunks| - 1]
    ensures NeverAbuts(chunks, keep) <==>
            NeverAbuts(front, keep) && !Abuts(Run(front, keep), chunks[|front|].pcm, chunks[|front|].now)
  {
    hide Run, Abuts;
    forall i | 0 <= i < |front|
      ensures AbutsNext(front, keep, i) <==> AbutsNext(chunks, keep, i)
    {
      assert front[..i] == chunks[..i];
    }
    assert AbutsNext(chunks, keep, |front|) <==> Abuts(Run(front, keep), chunks[|front|].pcm, chunks[|front|].now);
    hide AbutsNext;
  }

  // No rebase backward: the hint never changes what is found.
  ghost predicate NeverBack(chunks: seq<Chunk>, keep: int) {
    forall i :: 0 <= i < |chunks| ==>
      var next := Run(chunks[..i], keep).next;
      next.Some? ==> next.value - chunks[i].now <= 80 * MILLISECOND
  }

  lemma {:induction false} RunAscending(chunks: seq<Chunk>, keep: int)
    requires NeverBack(chunks, keep)
    ensures Ascending(Run(chunks, keep))
  {
    if chunks != [] {
      var n := |chunks| - 1;
      forall i | 0 <= i < n ensures chunks[..n][..i] == chunks[..i] {}
      RunAscending(chunks[..n], keep);
      hide Ascending;
      AddRenderAscending(Run(chunks[..n], keep), chunks[n].pcm, chunks[n].now, keep);
    }
  }

  lemma HintAgreesInRuns(chunks: seq<Chunk>, keep: int, target: int, hint: int)
    requires NeverBack(chunks, keep)
    ensures var h := Run(chunks, keep).history;
            Find(h, target, hint) == Find(h, target, -1)
  {
    RunAscending(chunks, keep);
    var h := Run(chunks, keep).history;
    forall i, j | 0 <= i < j < |h|
      ensures !Overlap(h, i, j)
    {
      AscendingApart(h, i, j);
    }
    HintAgrees(h, target, hint);
  }

  ghost predicate AtLeast(chunks: seq<Chunk>, m: nat) {
    forall i :: 0 <= i < |chunks| ==> |chunks[i].pcm| >= m
  }

  lemma GatheredFull(r: Render, pcm: seq<Int16>, now: int)
    requires Inv(r) && |pcm| >= FRAME
    requires NoShortEpoch(r) && (r.epochs != [] ==> LastEpoch(r).frames >= 1)
    ensures var s := Rebased(r, now);
            && s.epochs != [] && NoShortEpoch(s) && NoShortEpoch(Gathered(s, pcm))
            && Gathered(s, pcm).epochs != [] && |Gathered(s, pcm).pending| >= FRAME
  {
    RebasedInv(r, now);
    hide Inv;
  }

  lemma CutFull(r: Render)
    requires Inv(r) && r.epochs != [] && NoShortEpoch(r) && |r.pending| >= FRAME
    ensures NoShortEpoch(CutAll(r)) && CutAll(r).epochs != [] && LastEpoch(CutAll(r)).frames >= 1
  {
    hide Inv, CutAll;
    CutAllInv(r);
  }

  lemma FullChunk(r: Render, pcm: seq<Int16>, now: int, keep: int)
    requires Inv(r) && |pcm| >= FRAME
    requires NoShortEpoch(r) && (r.epochs != [] ==> LastEpoch(r).frames >= 1)
    ensures var s := AddRender(r, pcm, now, keep);
            NoShortEpoch(s) && s.epochs != [] && LastEpoch(s).frames >= 1
  {
    hide Inv, Rebased, Gathered, CutAll, Stale;
    RebasedInv(r, now);
    var s := Rebased(r, now);
    GatheredFull(r, pcm, now);
    GatheredInv(s, pcm);
    CutFull(Gathered(s, pcm));
  }

  lemma {:induction false} FullChunks(chunks: seq<Chunk>, keep: int)
    requires AtLeast(chunks, FRAME)
    ensures NoShortEpoch(Run(chunks, keep))
    ensures Run(chunks, keep).epochs != [] ==> LastEpoch(Run(chunks, keep)).frames >= 1
  {
    if chunks != [] {
      var n := |chunks| - 1;
      FullChunks(chunks[..n], keep);
      hide NoShortEpoch;
      FullChunk(Run(chunks[..n], keep), chunks[n].pcm, chunks[n].now, keep);
    }
  }

  // A call of AddRender that follows a filed frame does not abut: a rebase jumps by more than 80 ms.
  lemma FiledNeverAbuts(r: Render, pcm: seq<Int16>, now: int)
    requires Inv(r) && (r.epochs != [] ==> LastEpoch(r).frames >= 1)
    ensures !Abuts(r, pcm, now)
  {
    if r.history != [] {
      var n := |r.history|;
      assert Placed(r, n - 1) && NewestTag(r);
      assert r.epochs[|r.epochs| - 1].frames >= 1;
      assert r.tags[n - 1].epoch == |r.epochs| - 1;
    }
  }

  // Chunks of at least a frame never abut.
  lemma LongChunksNeverAbut(chunks: seq<Chunk>, keep: int)
    requires AtLeast(chunks, FRAME)
    ensures NeverAbuts(chunks, keep)
  {
    forall i | 0 <= i < |chunks|
      ensures !AbutsNext(chunks, keep, i)
    {
      FullChunks(chunks[..i], keep);
      hide NoShortEpoch, Abuts, Inv;
      FiledNeverAbuts(Run(chunks[..i], keep), chunks[i].pcm, chunks[i].now);
    }
  }

  // Every window that is handed out is a stretch of what was played without a break.
  ghost predicate Unbroken(r: Render) {
    forall target :: ReferenceAt(r.history, target).Some? ==>
      exists epoch :: SliceAt(r, epoch, target, ReferenceAt(r.history, target).value)
  }

  ghost predicate AlwaysUnbroken(m: nat, keep: int) {
    forall chunks :: AtLeast(chunks, m) && Monotone(chunks) ==> Unbroken(Run(chunks, keep))
  }

  ghost predicate Monotone(chunks: seq<Chunk>) {
    forall i :: 0 <= i < |chunks| - 1 ==> chunks[i].now <= chunks[i + 1].now
  }

  lemma LongChunksUnbroken(chunks: seq<Chunk>, keep: int)
    requires AtLeast(chunks, FRAME)
    ensures Unbroken(Run(chunks, keep))
  {
    FullChunks(chunks, keep);
    hide NoShortEpoch;
    var r := Run(chunks, keep);
    forall target | ReferenceAt(r.history, target).Some?
      ensures exists epoch :: SliceAt(r, epoch, target, ReferenceAt(r.history, target).value)
    {
      WindowsAreSlices(r, target);
    }
  }

  /* A stretch too short to file a frame hides one rebase behind another: two of them can bring the
     clock back to where the frames before them ended, and a window then joins both sides. */

  function Level(n: nat, v: Int16): (s: seq<Int16>)
    ensures |s| == n
  {
    seq(n, _ => v)
  }

  const ShortBetween := [Chunk(Level(1040, 0), 0), Chunk(Level(79, 1), 0), Chunk(Level(80, 1), 130 * MILLISECOND)]

  lemma {:induction false} CutGrows(r: Render)
    requires r.next.Some? && r.epochs != []
    ensures |CutAll(r).history| == |r.history| + |r.pending| / FRAME
    decreases |r.pending|
  {
    if |r.pending| >= FRAME {
      CutGrows(CutOne(r));
    }
  }

  lemma FirstStep(keep: int)
    requires keep >= 2500 * MILLISECOND
    ensures var r := AddRender(Silent, Level(1040, 0), 0, keep);
            && r.epochs == [Epoch(0, Level(1040, 0), 13)] && r.next == Some(130 * MILLISECOND)
            && |r.history| == |r.tags| == 13 && r.history[0].at == 0
            && r.history[12] == TimedFrame(120 * MILLISECOND, Level(80, 0))
  {
    var pcm := Level(1040, 0);
    RebasedInv(Silent, 0);
    var g := Gathered(Rebased(Silent, 0), pcm);
    assert [] + pcm == pcm;
    assert g == Render(Some(0), pcm, [], [Epoch(0, pcm, 0)], []);
    GatheredInv(Rebased(Silent, 0), pcm);
    CutAllInv(g);
    CutGrows(g);
    hide CutAll;
    var c := CutAll(g);
    assert |c.epochs| == 1 && c.epochs[0] == Epoch(0, pcm, 13);
    assert c.tags[12].epoch == 0 && c.tags[12].index == 12;
    Untouched(c, pcm);
  }

  lemma Untouched(c: Render, pcm: seq<Int16>)
    requires Inv(c) && |c.epochs| == 1 && c.epochs[0] == Epoch(0, pcm, 13) && pcm == Level(1040, 0)
    requires |c.history| == 13 && c.tags[12] == Tag(0, 12)
    ensures c.history[0].at == 0 && c.history[12] == TimedFrame(120 * MILLISECOND, Level(80, 0))
  {
    assert Placed(c, 0);
    assert OneStretch(c);
    StretchTags(c, 12);
    FrameTime(c, 0);
    assert Placed(c, 12);
    assert pcm[12 * FRAME..13 * FRAME] == Level(80, 0);
  }

  lemma SecondStep(r: Render, keep: int)
    requires keep >= 2500 * MILLISECOND
    requires r.epochs == [Epoch(0, Level(1040, 0), 13)] && r.next == Some(130 * MILLISECOND)
    requires r.history != [] && r.history[0].at == 0
    ensures AddRender(r, Level(79, 1), 0, keep)
            == Render(Some(0), Level(79, 1), r.history,
                      [Epoch(0, Level(1040, 0), 13), Epoch(0, Level(79, 1), 0)], AddRender(r, Level(79, 1), 0, keep).tags)
  {
    var pcm := Level(79, 1);
    assert [] + pcm == pcm;
    var g := Gathered(Rebased(r, 0), pcm);
    assert g.epochs == [Epoch(0, Level(1040, 0), 13), Epoch(0, pcm, 0)];
    assert CutAll(g) == g;
    assert Stale(r.history, -keep) == 0;
  }

  lemma ThirdStep(r: Render, keep: int)
    requires keep >= 2500 * MILLISECOND
    requires r.epochs == [Epoch(0, Level(1040, 0), 13), Epoch(0, Level(79, 1), 0)] && r.next == Some(0)
    requires r.history != [] && r.history[0].at == 0
    ensures var s := AddRender(r, Level(80, 1), 130 * MILLISECOND, keep);
            && s.history == r.history + [TimedFrame(130 * MILLISECOND, Level(80, 1))]
            && |s.epochs| == 3 && s.epochs[..2] == r.epochs && s.epochs[2].flat == Level(80, 1)
  {
    var pcm := Level(80, 1);
    assert [] + pcm == pcm && pcm[..FRAME] == pcm;
    var now := 130 * MILLISECOND;
    var g := Gathered(Rebased(r, now), pcm);
    assert g.pending == pcm && g.next == Some(now);
    assert CutAll(g) == CutOne(g);
    assert Stale(CutOne(g).history, now - keep) == 0;
  }

  lemma RunMore(chunks: seq<Chunk>, c: Chunk, keep: int)
    ensures Run(chunks + [c], keep) == AddRender(Run(chunks, keep), c.pcm, c.now, keep)
  {
    assert (chunks + [c])[..|chunks|] == chunks;
  }

  lemma ShortBetweenBreaks(keep: int)
    requires keep >= 2500 * MILLISECOND
    ensures !Unbroken(Run(ShortBetween, keep))
  {
    hide AddRender, Inv, Unbroken, Level;
    var one, two := ShortBetween[..1], ShortBetween[..2];
    assert one == [] + [ShortBetween[0]] && two == one + [ShortBetween[1]] && ShortBetween == two + [ShortBetween[2]];
    RunMore([], ShortBetween[0], keep);
    RunMore(one, ShortBetween[1], keep);
    RunMore(two, ShortBetween[2], keep);
    assert Run([], keep) == Silent;
    hide Run;
    FirstStep(keep);
    SecondStep(Run(one, keep), keep);
    ThirdStep(Run(two, keep), keep);
    JoinedWindow(Run(ShortBetween, keep));
  }

  lemma JoinedWindow(r: Render)
    requires |r.history| == 14
    requires r.history[12] == TimedFrame(120 * MILLISECOND, Level(80, 0))
    requires r.history[13] == TimedFrame(130 * MILLISECOND, Level(80, 1))
    requires |r.epochs| == 3 && r.epochs[0].flat == Level(1040, 0) && r.epochs[1].flat == Level(79, 1)
    requires r.epochs[2].flat == Level(80, 1)
    ensures !Unbroken(r)
  {
    var target := 125 * MILLISECOND;
    assert Contains(r.history, 12, target) && !Contains(r.history, 13, target);
    assert ReverseScan(r.history, target, 14) == ReverseScan(r.history, target, 13) == 12;
    assert Offset(120 * MILLISECOND, target) == 40;
    var w := ReferenceAt(r.history, target);
    assert w == Some(Level(80, 0)[40..80] + Level(80, 1)[..40]);
    assert w.value[0] == 0 && w.value[79] == 1;
    forall epoch
      ensures !SliceAt(r, epoch, target, w.value)
    {
    }
  }

  // As a rule about chunk sizes alone, a frame is the smallest bound that keeps every window unbroken in
  // every run, even with a clock that only moves forward.
  lemma LeastSafeChunk(m: nat, keep: int)
    requires keep >= 2500 * MILLISECOND
    ensures AlwaysUnbroken(m, keep) <==> m >= FRAME
  {
    hide Run, Unbroken;
    if m >= FRAME {
      forall chunks | AtLeast(chunks, m) && Monotone(chunks)
        ensures Unbroken(Run(chunks, keep))
      {
        LongChunksUnbroken(chunks, keep);
      }
    } else {
      ShortBetweenBreaks(keep);
      assert AtLeast(ShortBetween, m) && Monotone(ShortBetween);
    }
  }
}
