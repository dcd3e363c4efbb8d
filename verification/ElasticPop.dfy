/** elasticTalkbackPlayout.Pop of internal/media/elastic_talkback.go: the accounting of one block, the
    edges between blocks over whole runs, and the method itself over the sample queue. */
module ElasticPop {
  import opened GoNumbers
  import opened SampleFifo
  import opened ElasticPlayout

  datatype Outcome = Outcome(
    block: seq<Int16>,
    depthBefore: int,
    depthAfter: int,
    consumed: int,
    validOutput: int,
    rawShortage: int,
    missing: int,
    ratioPPM: int,
    stretched: int,
    compressed: int,
    fadeOut: bool,
    fadeIn: bool,
    overflowSplice: bool,
    supplyTrend: real)

  function Idle(n: int): Outcome {
    Outcome(Silence(Max(n, 0)), 0, 0, 0, 0, 0, 0, SCALE, 0, 0, false, false, false, 0.0)
  }

  // How much of a block of n the taken samples can fill.
  function ValidOutput(consumed: nat, n: nat): nat {
    if consumed == 0 then 0
    else if consumed < MinimumInput(n) then
      Min(n, Max(consumed, consumed * SCALE / (SCALE - STRETCH)))
    else n
  }

  function RatioPPM(consumed: nat, valid: nat): nat {
    if valid == 0 then SCALE else consumed * SCALE / valid
  }

  function FadesIn(c: Controller, valid: nat): bool {
    valid > 0 && c.recoveryPending
  }

  function Splices(c: Controller, valid: nat): bool {
    valid > 0 && !c.recoveryPending && c.overflowPending && c.haveLastOutput
  }

  // The leading edge of the played part.
  function Opened(c: Controller, played: seq<Int16>, w: seq<int>): (y: seq<Int16>)
    ensures |y| == |played|
  {
    if FadesIn(c, |played|) then FadedIn(played, w)
    else if Splices(c, |played|) then Spliced(played, c.lastOutput, w)
    else played
  }

  function Block(c: Controller, input: seq<Int16>, n: nat, w: seq<int>): (block: seq<Int16>)
    requires n >= 1
    ensures |block| == n
  {
    var valid := ValidOutput(|input|, n);
    if valid == 0 then
      if c.haveLastOutput && c.lastOutput != 0 then Tail(Silence(n), c.lastOutput, w) else Silence(n)
    else
      Closed(Opened(c, Resampled(input, valid), w), n, w)
  }

  // The trailing edge, padded with silence to the block that is due.
  function Closed(played: seq<Int16>, n: nat, w: seq<int>): (block: seq<Int16>)
    requires |played| <= n
    ensures |block| == n
  {
    if |played| < n then FadedOut(played, w) + Silence(n - |played|) else played
  }

  function After(c: Controller, block: seq<Int16>, valid: nat, depthAfter: int): Controller
    requires |block| >= 1
  {
    var d := c.(lastOutput := block[|block| - 1],
                haveLastOutput := true,
                overflowPending := false,
                recoveryPending := valid < |block|);
    if valid < |block| then d.(havePostDepth := false, haveTrend := false, supplyTrend := 0.0)
    else d.(havePostDepth := true, lastPostDepth := depthAfter)
  }

  // The trend that is reported is the one left after a shortage has cleared it.
  function Report(c: Controller, trend: real, depth: nat, consumed: nat, valid: nat, block: seq<Int16>): Outcome {
    var n := |block|;
    Outcome(block, depth, depth - consumed, consumed, valid, Max(0, n - depth), n - valid,
            RatioPPM(consumed, valid), Max(0, valid - consumed), Max(0, consumed - valid),
            valid < n && (valid > 0 || (c.haveLastOutput && c.lastOutput != 0)),
            FadesIn(c, valid), Splices(c, valid), if valid < n then 0.0 else trend)
  }

  datatype Popped = Popped(controller: Controller, queue: seq<Int16>, outcome: Outcome)

  function Taken(c: Controller, depth: nat, n: nat): (consumed: nat)
    ensures consumed <= depth
  {
    if n == 0 then 0
    else
      ConsumeBounds(Observed(c, depth, n), depth, n);
      Consume(Observed(c, depth, n), depth, n)
  }

  function Pop(c: Controller, queue: seq<Int16>, n: int, w: seq<int>): Popped {
    if n <= 0 then Popped(c, queue, Idle(n))
    else
      var consumed := Taken(c, |queue|, n);
      var valid := ValidOutput(consumed, n);
      var block := Block(c, queue[..consumed], n, w);
      Popped(After(Observed(c, |queue|, n), block, valid, |queue| - consumed),
             queue[consumed..],
             Report(c, Observed(c, |queue|, n).supplyTrend, |queue|, consumed, valid, block))
  }

  // Nothing but the trend differs once the queue has been observed.
  lemma PopObserved(c: Controller, queue: seq<Int16>, n: nat, w: seq<int>)
    requires n >= 1
    ensures var d := Observed(c, |queue|, n);
            var consumed := Taken(c, |queue|, n);
            var valid := ValidOutput(consumed, n);
            var block := Block(d, queue[..consumed], n, w);
            Pop(c, queue, n, w) == Popped(After(d, block, valid, |queue| - consumed), queue[consumed..],
                                          Report(d, d.supplyTrend, |queue|, consumed, valid, block))
  {
    hide ValidOutput, Taken, Closed, Resampled, Tail, FadedIn, Spliced, After;
  }

  /* The accounting of one block. */

  lemma ValidOutputBounds(consumed: nat, n: nat)
    requires 1 <= n && consumed <= MaximumInput(n)
    ensures 0 <= ValidOutput(consumed, n) <= n
    ensures ValidOutput(consumed, n) == n <==> consumed >= MinimumInput(n)
    ensures ValidOutput(consumed, n) == 0 <==> consumed == 0
    ensures consumed > 0 ==> 980000 <= RatioPPM(consumed, ValidOutput(consumed, n)) <= 1030000
  {
    InputLimits(n);
    var valid := ValidOutput(consumed, n);
    if consumed < MinimumInput(n) {
      ShortInput(consumed, n);
    }
    if consumed > 0 {
      hide MinimumInput, MaximumInput;
      QuotientBounds(consumed * SCALE, 980000, 1030000, valid);
    }
  }

  lemma ShortInput(consumed: nat, n: nat)
    requires n >= 1 && consumed < MinimumInput(n)
    ensures consumed <= ValidOutput(consumed, n) < n
    ensures 980000 * ValidOutput(consumed, n) <= consumed * 1000000
  {
    InputLimits(n);
  }

  // What one block takes, plays and misses, whatever the queue and the trend.
  ghost predicate Accounted(o: Outcome, n: nat) {
    && |o.block| == n
    && 0 <= o.consumed <= Min(o.depthBefore, MaximumInput(n))
    && o.depthAfter == o.depthBefore - o.consumed
    && 0 <= o.validOutput && 0 <= o.missing && o.validOutput + o.missing == n
    && (o.missing == 0 <==> o.depthBefore >= MinimumInput(n))
    && (o.consumed > 0 ==> 980000 <= o.ratioPPM <= 1030000)
    && (o.consumed == 0 <==> o.validOutput == 0)
    && o.stretched - o.compressed == o.validOutput - o.consumed
    && o.rawShortage == Max(0, n - o.depthBefore)
  }

  lemma TakenBounds(c: Controller, depth: nat, n: nat)
    requires n >= 1
    ensures Taken(c, depth, n) <= Min(depth, MaximumInput(n))
    ensures Taken(c, depth, n) >= MinimumInput(n) <==> depth >= MinimumInput(n)
    ensures Taken(c, depth, n) == 0 ==> depth < MinimumInput(n)
  {
    InputLimits(n);
    ConsumeBounds(Observed(c, depth, n), depth, n);
    hide MinimumInput, MaximumInput, Consume, Observed;
  }

  lemma ReportAccounts(c: Controller, trend: real, depth: nat, consumed: nat, block: seq<Int16>)
    requires |block| >= 1 && consumed <= Min(depth, MaximumInput(|block|))
    requires consumed >= MinimumInput(|block|) <==> depth >= MinimumInput(|block|)
    ensures Accounted(Report(c, trend, depth, consumed, ValidOutput(consumed, |block|), block), |block|)
  {
    ValidOutputBounds(consumed, |block|);
    hide MinimumInput, MaximumInput, ValidOutput, RatioPPM;
  }

  lemma PopAccounting(c: Controller, queue: seq<Int16>, n: nat, w: seq<int>)
    requires n >= 1
    ensures Accounted(Pop(c, queue, n, w).outcome, n)
    ensures Pop(c, queue, n, w).outcome.depthBefore == |queue|
    ensures Pop(c, queue, n, w).queue == queue[Pop(c, queue, n, w).outcome.consumed..]
  {
    hide Block, Observed, Accounted, MinimumInput, MaximumInput, ValidOutput;
    TakenBounds(c, |queue|, n);
    hide Taken, After;
    var consumed := Taken(c, |queue|, n);
    ReportAccounts(c, Observed(c, |queue|, n).supplyTrend, |queue|, consumed, Block(c, queue[..consumed], n, w));
  }

  /* The edges of one block. */

  lemma ClosedEdges(played: seq<Int16>, n: nat, w: seq<int>)
    requires IsWindow(w) && 1 <= |played| <= n
    ensures |played| < n ==> Closed(played, n, w)[n - 1] == 0
    ensures |played| >= 2 || |played| == n || played[0] == 0 ==> Closed(played, n, w)[0] == played[0]
  {
    if |played| < n {
      FadeOutEndsSilent(played, w);
    }
  }

  // After a shortage the block opens in silence; after a drop it opens where the last one ended.
  lemma BlockEdges(c: Controller, input: seq<Int16>, n: nat, w: seq<int>)
    requires IsWindow(w) && n >= 2 && |input| <= MaximumInput(n)
    ensures var valid, block := ValidOutput(|input|, n), Block(c, input, n, w);
            && (valid < n ==> block[n - 1] == 0)
            && (valid > 0 && c.recoveryPending ==> block[0] == 0)
            && (valid == 0 ==> block[0] == if c.haveLastOutput then c.lastOutput else 0)
            && (valid >= 2 && Splices(c, valid) ==> block[0] == c.lastOutput)
            && (valid >= 2 && !FadesIn(c, valid) && !Splices(c, valid) ==> block[0] == input[0])
  {
    ValidOutputBounds(|input|, n);
    hide ValidOutput, RatioPPM, MaximumInput;
    var valid := ValidOutput(|input|, n);
    if valid == 0 {
      hide Tail;
      if c.haveLastOutput && c.lastOutput != 0 {
        TailDecays(Silence(n), c.lastOutput, w);
      }
    } else {
      var x := Resampled(input, valid);
      hide Resampled, FadedIn, Spliced, Closed;
      FadeInStartsSilent(x, w);
      SpliceStartsAtPrevious(x, c.lastOutput, w);
      ClosedEdges(Opened(c, x, w), n, w);
      if valid >= 2 {
        ResamplingKeepsEnds(input, valid);
      }
    }
  }

  /* Whole runs. */

  datatype Op = Feed(samples: seq<Int16>) | Restart | Due

  // `disturbed` says whether samples were dropped or the timeline restarted since the last block, and
  // `disturbances` whether that was so before each of the blocks played.
  datatype Playout = Playout(
    controller: Controller,
    queue: seq<Int16>,
    played: seq<Outcome>,
    disturbed: bool,
    disturbances: seq<bool>)

  const Started := Playout(Fresh, [], [], false, [])

  // What arrives, a restarted timeline, and a block of n that is due.
  function Step(s: Playout, op: Op, n: nat, max: nat, w: seq<int>): Playout {
    match op
    case Feed(samples) =>
      var queue := Newest(s.queue + samples, max);
      var lossy := |queue| < |s.queue| + |samples|;
      s.(queue := queue, disturbed := s.disturbed || lossy,
         controller := if lossy then MarkOverflow(s.controller) else s.controller)
    case Restart =>
      s.(queue := [], disturbed := true, controller := ResetTimeline(s.controller))
    case Due =>
      var p := Pop(s.controller, s.queue, n, w);
      Playout(p.controller, p.queue, s.played + [p.outcome], false, s.disturbances + [s.disturbed])
  }

  function Run(ops: seq<Op>, n: nat, max: nat, w: seq<int>): Playout {
    if ops == [] then Started else Step(Run(ops[..|ops| - 1], n, max, w), ops[|ops| - 1], n, max, w)
  }

  // The edges of block i of a run.
  ghost predicate Smooth(played: seq<Outcome>, i: nat)
    requires i < |played|
    requires forall k :: 0 <= k < |played| ==> |played[k].block| >= 2
  {
    var o := played[i];
    var before := if i == 0 then 0 else Last(played[i - 1].block);
    && (o.missing > 0 ==> Last(o.block) == 0)
    && (o.validOutput == 0 ==> o.block[0] == before)
    && (i > 0 && played[i - 1].missing > 0 && o.validOutput > 0 ==> o.block[0] == 0)
    && (o.overflowSplice ==> i > 0 && played[i - 1].missing == 0)
    && (o.overflowSplice && o.validOutput >= 2 ==> o.block[0] == before)
  }

  // Block i is spliced on exactly when something was dropped or restarted since the block before it, that
  // one was complete, and this one plays anything.
  ghost predicate SpliceRight(s: Playout, i: nat)
    requires i < |s.played| == |s.disturbances|
  {
    s.played[i].overflowSplice
    <==> s.disturbances[i] && i > 0 && s.played[i - 1].missing == 0 && s.played[i].validOutput > 0
  }

  // And it fades in exactly when the one before had samples missing.
  ghost predicate FadeInRight(s: Playout, i: nat)
    requires i < |s.played|
  {
    s.played[i].fadeIn <==> i > 0 && s.played[i - 1].missing > 0 && s.played[i].validOutput > 0
  }

  function Last(s: seq<Int16>): Int16
    requires |s| >= 1
  {
    s[|s| - 1]
  }

  ghost predicate Inv(s: Playout, n: nat) {
    && n >= 2
    && (forall i :: 0 <= i < |s.played| ==> Accounted(s.played[i], n))
    && (forall i :: 0 <= i < |s.played| ==> Smooth(s.played, i))
    && |s.disturbances| == |s.played| && s.controller.overflowPending == s.disturbed
    && (forall i {:trigger SpliceRight(s, i)} :: 0 <= i < |s.played| ==> SpliceRight(s, i))
    && (forall i {:trigger FadeInRight(s, i)} :: 0 <= i < |s.played| ==> FadeInRight(s, i))
    && s.controller.haveLastOutput == (|s.played| > 0)
    && (s.played == [] ==> !s.controller.recoveryPending)
    && (s.played != [] ==>
          && s.controller.lastOutput == Last(s.played[|s.played| - 1].block)
          && s.controller.recoveryPending == (s.played[|s.played| - 1].missing > 0))
  }

  lemma SmoothExtends(played: seq<Outcome>, o: Outcome, i: nat)
    requires i < |played| && |o.block| >= 2
    requires forall k :: 0 <= k < |played| ==> |played[k].block| >= 2
    requires Smooth(played, i)
    ensures Smooth(played + [o], i)
  {
    var longer := played + [o];
    assert longer[i] == played[i] && (i > 0 ==> longer[i - 1] == played[i - 1]);
  }

  lemma PopEdges(s: Playout, n: nat, w: seq<int>)
    requires Inv(s, n) && IsWindow(w)
    ensures var o := Pop(s.controller, s.queue, n, w).outcome;
            Accounted(o, n) && Smooth(s.played + [o], |s.played|)
  {
    hide MinimumInput, MaximumInput, ValidOutput, RatioPPM, Block, Taken, IsWindow;
    PopAccounting(s.controller, s.queue, n, w);
    TakenBounds(s.controller, |s.queue|, n);
    BlockEdges(s.controller, s.queue[..Taken(s.controller, |s.queue|, n)], n, w);
  }

  lemma PopSplices(s: Playout, n: nat, max: nat, w: seq<int>)
    requires Inv(s, n)
    ensures var t := Step(s, Due, n, max, w);
            && |t.played| == |t.disturbances| == |s.played| + 1
            && !t.controller.overflowPending && !t.disturbed
            && forall i :: 0 <= i <= |s.played| ==> SpliceRight(t, i) && FadeInRight(t, i)
  {
    hide MinimumInput, MaximumInput, ValidOutput, RatioPPM, Block, Taken, Smooth, Observed;
    var t := Step(s, Due, n, max, w);
    forall i | 0 <= i < |s.played|
      ensures SpliceRight(t, i) && FadeInRight(t, i)
    {
      assert SpliceRight(s, i) && FadeInRight(s, i);
    }
  }

  lemma DueInv(s: Playout, n: nat, max: nat, w: seq<int>)
    requires Inv(s, n) && IsWindow(w)
    ensures Inv(Step(s, Due, n, max, w), n)
  {
    hide IsWindow, MinimumInput, MaximumInput, ValidOutput, RatioPPM, Block, Taken;
    PopEdges(s, n, w);
    PopSplices(s, n, max, w);
    hide Smooth, SpliceRight, FadeInRight;
    var o := Pop(s.controller, s.queue, n, w).outcome;
    forall i | 0 <= i < |s.played|
      ensures Smooth(s.played + [o], i)
    {
      SmoothExtends(s.played, o, i);
    }
  }

  lemma StepInv(s: Playout, op: Op, n: nat, max: nat, w: seq<int>)
    requires Inv(s, n) && IsWindow(w)
    ensures Inv(Step(s, op, n, max, w), n)
  {
    hide Accounted, Smooth, Pop;
    if op == Due {
      DueInv(s, n, max, w);
    } else {
      var t := Step(s, op, n, max, w);
      forall i | 0 <= i < |t.played|
        ensures SpliceRight(t, i) && FadeInRight(t, i)
      {
        assert SpliceRight(s, i) && FadeInRight(s, i);
      }
    }
  }

  // Continuous edges over whole runs, whatever arrives and whenever the timeline restarts.
  lemma {:induction false} EdgesOverRuns(ops: seq<Op>, n: nat, max: nat, w: seq<int>)
    requires n >= 2 && IsWindow(w)
    ensures Inv(Run(ops, n, max, w), n)
  {
    if ops != [] {
      EdgesOverRuns(ops[..|ops| - 1], n, max, w);
      hide Inv, Step;
      StepInv(Run(ops[..|ops| - 1], n, max, w), ops[|ops| - 1], n, max, w);
    }
  }

  // Over whole runs, exactly which blocks are spliced onto the one before. An empty block in between ends
  // in silence, and what follows it fades in instead.
  lemma SplicedIff(ops: seq<Op>, n: nat, max: nat, w: seq<int>, i: nat)
    requires n >= 2 && IsWindow(w) && i < |Run(ops, n, max, w).played|
    ensures var s := Run(ops, n, max, w);
            && |s.disturbances| == |s.played|
            && (s.played[i].overflowSplice
                <==> s.disturbances[i] && i > 0 && s.played[i - 1].missing == 0 && s.played[i].validOutput > 0)
            && (s.played[i].fadeIn <==> i > 0 && s.played[i - 1].missing > 0 && s.played[i].validOutput > 0)
  {
    EdgesOverRuns(ops, n, max, w);
    hide Run, Accounted, Smooth;
    assert SpliceRight(Run(ops, n, max, w), i) && FadeInRight(Run(ops, n, max, w), i);
  }

  // Samples lost to overflow after a complete block: if the very next block plays anything, it is spliced on.
  lemma DropsAreSpliced(c: Controller, queue: seq<Int16>, n: nat, w: seq<int>)
    requires n >= 2 && IsWindow(w)
    requires c.overflowPending && c.haveLastOutput && !c.recoveryPending
    ensures var o := Pop(c, queue, n, w).outcome;
            && (o.validOutput > 0 ==> o.overflowSplice && !Pop(c, queue, n, w).controller.overflowPending)
            && (o.validOutput >= 2 ==> o.block[0] == c.lastOutput)
  {
    hide Block, MaximumInput, MinimumInput, ValidOutput, RatioPPM, Taken, IsWindow;
    PopAccounting(c, queue, n, w);
    TakenBounds(c, |queue|, n);
    BlockEdges(c, queue[..Taken(c, |queue|, n)], n, w);
  }
}
