/** elasticTalkbackPlayout as internal/media/elastic_talkback.go runs it: a block filled and faded in place. */
module ElasticTalkback {
  import opened GoNumbers
  import opened SampleFifo
  import opened ElasticPlayout
  import opened ElasticPop

  method ResamplePCMBlock(input: seq<Int16>, m: nat) returns (output: array<Int16>)
    ensures fresh(output) && output[..] == Resampled(input, m)
  {
    output := new Int16[m](_ => 0);
    if |input| == 0 || m == 0 {
      return;
    }
    hide ResampledAt;
    for i := 0 to m
      invariant |input| == 1 ==> forall j :: 0 <= j < i ==> output[j] == input[0]
      invariant |input| == m ==> forall j :: 0 <= j < i ==> output[j] == input[j]
      invariant |input| >= 2 && m >= 2 && |input| != m ==>
                  forall j :: 0 <= j < i ==> output[j] == ResampledAt(input, m, j)
      invariant |input| >= 2 && m == 1 && i > 0 ==> output[0] == input[0]
    {
      if |input| == 1 || m == 1 {
        output[i] := input[0];
      } else if |input| == m {
        output[i] := input[i];
      } else {
        output[i] := InterpolatedSample(input, m, i);
      }
    }
  }

  method InterpolatedSample(input: seq<Int16>, m: nat, i: nat) returns (y: Int16)
    requires |input| >= 2 && m >= 2 && i < m
    ensures y == ResampledAt(input, m, i)
  {
    hide TruncDiv, ClampInt16;
    MulMono(0, i, |input| - 1);
    QuotientFromZero(i * (|input| - 1), m - 1);
    var position := i * (|input| - 1);
    var index := position / (m - 1);
    var fraction := position % (m - 1);
    if index >= |input| - 1 {
      return input[|input| - 1];
    }
    var a: int, b: int := input[index], input[index + 1];
    return ClampInt16(a + TruncDiv((b - a) * fraction, m - 1));
  }

  lemma QuotientFromZero(p: int, d: int)
    requires p >= 0 && d > 0
    ensures p / d >= 0
  {
  }

  // The first `valid` samples of the block are the slice the source hands to each of these.
  method ApplyFadeIn(block: array<Int16>, valid: nat, window: seq<int>)
    requires valid <= block.Length
    modifies block
    ensures block[..valid] == FadedIn(old(block[..valid]), window)
    ensures block[valid..] == old(block[valid..])
  {
    var count := Min(valid, |window|);
    hide Scaled, Gain;
    for i := 0 to count
      invariant forall j :: 0 <= j < i ==> block[j] == Scaled(old(block[j]), Gain(window, j, count))
      invariant forall j :: i <= j < block.Length ==> block[j] == old(block[j])
    {
      block[i] := Scaled(block[i], Gain(window, i, count));
    }
  }

  method ApplyFadeOut(block: array<Int16>, valid: nat, window: seq<int>)
    requires 1 <= valid <= block.Length
    modifies block
    ensures block[..valid] == FadedOut(old(block[..valid]), window)
    ensures block[valid..] == old(block[valid..])
  {
    var count := Min(valid, |window|);
    if count == 1 {
      block[valid - 1] := 0;
      return;
    }
    var start := valid - count;
    ghost var x := block[..valid];
    hide Scaled, Gain, FadedOut;
    for i := 0 to count
      invariant forall j :: start <= j < start + i ==>
                              block[j] == Scaled(x[j], GAIN - Gain(window, j - start, count))
      invariant forall j :: 0 <= j < start || start + i <= j < block.Length ==> block[j] == old(block[j])
    {
      block[start + i] := Scaled(block[start + i], GAIN - Gain(window, i, count));
    }
    FadedOutIs(x, window, block[..valid]);
  }

  method ApplyBoundarySplice(block: array<Int16>, valid: nat, previous: Int16, window: seq<int>)
    requires valid <= block.Length
    modifies block
    ensures block[..valid] == Spliced(old(block[..valid]), previous, window)
    ensures block[valid..] == old(block[valid..])
  {
    var count := Min(valid, |window|);
    hide Blend, Gain;
    for i := 0 to count
      invariant forall j :: 0 <= j < i ==> block[j] == Blend(previous, old(block[j]), Gain(window, j, count))
      invariant forall j :: i <= j < block.Length ==> block[j] == old(block[j])
    {
      block[i] := Blend(previous, block[i], Gain(window, i, count));
    }
  }

  method ApplyDecayingTail(block: array<Int16>, previous: Int16, window: seq<int>)
    modifies block
    ensures block[..] == Tail(old(block[..]), previous, window)
  {
    var count := Min(block.Length, |window|);
    hide Scaled, Gain;
    for i := 0 to count
      invariant forall j :: 0 <= j < i ==> block[j] == Scaled(previous, GAIN - Gain(window, j, count))
      invariant forall j :: i <= j < block.Length ==> block[j] == old(block[j])
    {
      block[i] := Scaled(previous, GAIN - Gain(window, i, count));
    }
  }

  class ElasticTalkbackPlayout {
    const fadeInQ15: seq<int>
    var havePostDepth: bool
    var lastPostDepth: int
    var haveTrend: bool
    var supplyTrend: real
    var recoveryPending: bool
    var overflowPending: bool
    var haveLastOutput: bool
    var lastOutput: Int16

    function State(): Controller
      reads this
    {
      Controller(havePostDepth, lastPostDepth, haveTrend, supplyTrend, recoveryPending, overflowPending,
                 haveLastOutput, lastOutput)
    }

    constructor (window: seq<int>)
      requires IsWindow(window)
      ensures State() == Fresh && fadeInQ15 == window
    {
      fadeInQ15 := window;
      havePostDepth, lastPostDepth, haveTrend, supplyTrend := false, 0, false, 0.0;
      recoveryPending, overflowPending, haveLastOutput, lastOutput := false, false, false, 0;
    }

    method Restart()
      modifies this
      ensures State() == ResetTimeline(old(State()))
    {
      havePostDepth, lastPostDepth, haveTrend, supplyTrend := false, 0, false, 0.0;
      overflowPending := true;
    }

    method NoteOverflow()
      modifies this
      ensures State() == MarkOverflow(old(State()))
    {
      havePostDepth, haveTrend, supplyTrend := false, false, 0.0;
      overflowPending := true;
    }

    method Target(depth: nat, n: nat) returns (consume: int)
      requires n >= 1
      ensures consume == Wanted(State(), depth, n)
    {
      consume := n;
      var projected := depth as real;
      if haveTrend {
        projected := projected + supplyTrend;
      }
      if depth < n {
        consume := depth;
      } else if projected < n as real {
        consume := n - Min(n - MinimumInput(n), Ceil(n as real - projected));
      } else {
        var pressure := if projected > depth as real then projected else depth as real;
        if pressure > n as real {
          consume := n + Compression(pressure, n);
        }
      }
    }

    method ChooseConsume(depth: nat, n: nat) returns (consume: int)
      modifies this`supplyTrend, this`haveTrend
      ensures State() == Observed(old(State()), depth, n)
      ensures consume == Consume(State(), depth, n)
    {
      if depth == 0 || n == 0 {
        return 0;
      }
      if havePostDepth {
        var drift := (depth - lastPostDepth - n) as real;
        if haveTrend {
          supplyTrend := 0.75 * supplyTrend + 0.25 * drift;
        } else {
          supplyTrend := drift;
          haveTrend := true;
        }
      }
      hide MinimumInput, MaximumInput, Wanted;
      consume := Target(depth, n);
      if consume < MinimumInput(n) && depth >= MinimumInput(n) {
        consume := MinimumInput(n);
      }
      if consume > MaximumInput(n) {
        consume := MaximumInput(n);
      }
      if consume > depth {
        consume := depth;
      }
    }

    // The leading edge, for the first `valid` samples of the block.
    method OpenBlock(block: array<Int16>, valid: nat) returns (fadeIn: bool, splice: bool)
      requires 1 <= valid <= block.Length
      modifies block, this`recoveryPending, this`overflowPending
      ensures fadeIn == FadesIn(old(State()), valid) && splice == Splices(old(State()), valid)
      ensures block[..valid] == Opened(old(State()), old(block[..valid]), fadeInQ15)
      ensures block[valid..] == old(block[valid..])
      ensures !recoveryPending && !overflowPending
    {
      fadeIn, splice := false, false;
      hide FadedIn, Spliced;
      if recoveryPending {
        ApplyFadeIn(block, valid, fadeInQ15);
        fadeIn := true;
        recoveryPending := false;
      } else if overflowPending && haveLastOutput {
        ApplyBoundarySplice(block, valid, lastOutput, fadeInQ15);
        splice := true;
      }
      overflowPending := false;
    }

    // The trailing edge of a block with samples missing, or the tail of one with none at all.
    method CloseBlock(block: array<Int16>, valid: nat) returns (fadeOut: bool)
      requires valid < block.Length
      requires forall i :: valid <= i < block.Length ==> block[i] == 0
      modifies block
      ensures fadeOut == (valid > 0 || (haveLastOutput && lastOutput != 0))
      ensures valid > 0 ==> block[..] == Closed(old(block[..valid]), block.Length, fadeInQ15)
      ensures valid == 0 ==> block[..] == if fadeOut then Tail(Silence(block.Length), lastOutput, fadeInQ15)
                                          else Silence(block.Length)
    {
      fadeOut := false;
      hide FadedOut, Tail;
      ghost var tail := block[valid..];
      assert tail == Silence(block.Length - valid);
      if valid > 0 {
        ApplyFadeOut(block, valid, fadeInQ15);
        fadeOut := true;
        assert block[..] == block[..valid] + block[valid..];
      } else if haveLastOutput && lastOutput != 0 {
        assert block[..] == tail;
        ApplyDecayingTail(block, lastOutput, fadeInQ15);
        fadeOut := true;
      } else {
        assert block[..] == tail;
      }
    }

    method ReshapedBlock(input: seq<Int16>, n: nat, valid: nat) returns (block: array<Int16>)
      requires valid <= n
      ensures fresh(block) && block.Length == n
      ensures valid > 0 ==> block[..valid] == Resampled(input, valid)
      ensures forall i :: valid <= i < n ==> block[i] == 0
    {
      block := new Int16[n](_ => 0);
      if valid > 0 {
        var resampled := ResamplePCMBlock(input, valid);
        hide Resampled;
        ghost var x := resampled[..];
        for i := 0 to valid
          invariant resampled[..] == x
          invariant forall j :: 0 <= j < i ==> block[j] == x[j]
          invariant forall j :: i <= j < n ==> block[j] == 0
        {
          block[i] := resampled[i];
        }
        assert block[..valid] == x;
      }
    }

    method FillBlock(input: seq<Int16>, n: nat)
      returns (block: array<Int16>, fadeIn: bool, splice: bool, fadeOut: bool)
      requires n >= 1 && ValidOutput(|input|, n) <= n
      modifies this`recoveryPending, this`overflowPending
      ensures fresh(block)
      ensures block[..] == Block(old(State()), input, n, fadeInQ15)
      ensures var valid := ValidOutput(|input|, n);
              && fadeIn == FadesIn(old(State()), valid) && splice == Splices(old(State()), valid)
              && fadeOut == (valid < n && (valid > 0 || (haveLastOutput && lastOutput != 0)))
              && (valid > 0 ==> !recoveryPending && !overflowPending)
              && (valid == 0 ==> State() == old(State()))
    {
      fadeIn, splice, fadeOut := false, false, false;
      var valid := ValidOutput(|input|, n);
      hide ValidOutput, Resampled, Tail, FadedOut, Opened;
      block := ReshapedBlock(input, n, valid);
      if valid > 0 {
        ghost var rest := block[valid..];
        assert forall i :: 0 <= i < n - valid ==> rest[i] == 0;
        fadeIn, splice := OpenBlock(block, valid);
        assert forall i :: valid <= i < n ==> block[i] == block[valid..][i - valid];
      }
      if valid < n {
        fadeOut := CloseBlock(block, valid);
      } else {
        assert block[..] == block[..valid];
      }
    }

    // The flags the next block depends on.
    method Settle(block: array<Int16>, valid: nat, depthAfter: int)
      requires 1 <= block.Length && valid <= block.Length
      requires valid > 0 ==> !recoveryPending && !overflowPending
      modifies this
      ensures State() == After(old(State()), block[..], valid, depthAfter)
    {
      if valid < block.Length {
        recoveryPending, overflowPending := true, false;
        havePostDepth, haveTrend, supplyTrend := false, false, 0.0;
      }
      lastOutput, haveLastOutput := block[block.Length - 1], true;
      if valid == block.Length {
        lastPostDepth, havePostDepth := depthAfter, true;
      }
    }

    method Take(fifo: SampleFIFO, n: nat) returns (input: seq<Int16>)
      requires fifo.Valid() && n >= 1
      modifies this`supplyTrend, this`haveTrend, fifo
      ensures fifo.Valid() && fifo.pushed == old(fifo.pushed) && fifo.dropped == old(fifo.dropped)
      ensures State() == Observed(old(State()), |old(fifo.buf)|, n)
      ensures input + fifo.buf == old(fifo.buf)
      ensures |input| == Taken(old(State()), |old(fifo.buf)|, n)
    {
      TakenBounds(State(), |fifo.buf|, n);
      hide Consume, Observed, MinimumInput, MaximumInput;
      var consume := ChooseConsume(|fifo.buf|, n);
      input := fifo.Pop(consume);
    }

    method Shape(input: seq<Int16>, depth: nat, n: nat) returns (result: Outcome)
      requires n >= 1 && |input| <= depth && |input| <= MaximumInput(n)
      modifies this
      ensures var valid, block := ValidOutput(|input|, n), Block(old(State()), input, n, fadeInQ15);
              && State() == After(old(State()), block, valid, depth - |input|)
              && result == Report(old(State()), old(supplyTrend), depth, |input|, valid, block)
    {
      ValidOutputBounds(|input|, n);
      hide Block, MaximumInput, ValidOutput, RatioPPM, FadesIn, Splices, After;
      var valid := ValidOutput(|input|, n);
      var block, fadeIn, splice, fadeOut := FillBlock(input, n);
      Settle(block, valid, depth - |input|);
      result := Outcome(block[..], depth, depth - |input|, |input|, valid, Max(0, n - depth), n - valid,
                        RatioPPM(|input|, valid), Max(0, valid - |input|), Max(0, |input| - valid),
                        fadeOut, fadeIn, splice, supplyTrend);
    }

    // The block that is due, shaped from what is taken off the queue.
    method Pop(fifo: SampleFIFO, n: int) returns (result: Outcome)
      requires fifo.Valid()
      modifies this, fifo
      ensures fifo.Valid() && fifo.pushed == old(fifo.pushed) && fifo.dropped == old(fifo.dropped)
      ensures var p := ElasticPop.Pop(old(State()), old(fifo.buf), n, fadeInQ15);
              State() == p.controller && fifo.buf == p.queue && result == p.outcome
    {
      if n <= 0 {
        return Idle(n);
      }
      hide Observed, Block, MaximumInput, MinimumInput, ValidOutput, ElasticPop.Pop, Taken, After, Report;
      var depth := |fifo.buf|;
      TakenBounds(State(), depth, n);
      PopObserved(State(), fifo.buf, n, fadeInQ15);
      var input := Take(fifo, n);
      assert input == old(fifo.buf)[..|input|] && fifo.buf == old(fifo.buf)[|input|..];
      result := Shape(input, depth, n);
    }
  }
}
