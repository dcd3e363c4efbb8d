/** The elastic talkback playout of internal/media/elastic_talkback.go: how much it takes from the
    queue for each block that is due, and how it keeps the block edges free of jumps. */
module ElasticPlayout {
  import opened GoNumbers
  import opened SampleFifo

  const SCALE := 1_000_000
  const STRETCH := 20_000
  const COMPRESSION := 30_000
  const GAIN := 32_768

  /* How many samples to take. */

  // ceil(0.98n) and floor(1.03n)
  function MinimumInput(n: nat): nat {
    (n * (SCALE - STRETCH) + SCALE - 1) / SCALE
  }

  function MaximumInput(n: nat): nat {
    n * (SCALE + COMPRESSION) / SCALE
  }

  datatype Controller = Controller(
    havePostDepth: bool,
    lastPostDepth: int,
    haveTrend: bool,
    supplyTrend: real,
    recoveryPending: bool,
    overflowPending: bool,
    haveLastOutput: bool,
    lastOutput: Int16)

  const Fresh := Controller(false, 0, false, 0.0, false, false, false, 0)

  function ResetTimeline(c: Controller): Controller {
    c.(havePostDepth := false, lastPostDepth := 0, haveTrend := false, supplyTrend := 0.0, overflowPending := true)
  }

  function MarkOverflow(c: Controller): Controller {
    c.(havePostDepth := false, haveTrend := false, supplyTrend := 0.0, overflowPending := true)
  }

  function Ceil(x: real): int {
    -((-x).Floor)
  }

  function RoundUp(x: real): int
    requires x >= 0.0
  {
    (x + 0.5).Floor
  }

  // The supply trend is a running average of the drift since the previous full block.
  function Observed(c: Controller, depth: nat, n: nat): Controller {
    if depth == 0 || n == 0 || !c.havePostDepth then c
    else
      var drift := (depth - c.lastPostDepth - n) as real;
      if c.haveTrend then c.(supplyTrend := 0.75 * c.supplyTrend + 0.25 * drift)
      else c.(supplyTrend := drift, haveTrend := true)
  }

  function Pressure(c: Controller, depth: nat): real {
    if c.haveTrend && c.supplyTrend > 0.0 then depth as real + c.supplyTrend else depth as real
  }

  // How far the queue has filled beyond the block that is due, out of three blocks more.
  function Compression(pressure: real, n: nat): int
    requires n >= 1 && pressure > n as real
  {
    InputLimits(n);
    var share := (pressure - n as real) / (3 * n) as real;
    RoundUp((if share > 1.0 then 1.0 else share) * (MaximumInput(n) - n) as real)
  }

  // What chooseConsume aims at, once the trend has been updated.
  function Wanted(c: Controller, depth: nat, n: nat): int
    requires n >= 1
  {
    var projected := (depth as real) + (if c.haveTrend then c.supplyTrend else 0.0);
    if depth < n then depth
    else if projected < n as real then n - Min(n - MinimumInput(n), Ceil(n as real - projected))
    else if Pressure(c, depth) > n as real then n + Compression(Pressure(c, depth), n)
    else n
  }

  function Limited(wanted: int, depth: nat, n: nat): int {
    var raised := if wanted < MinimumInput(n) && depth >= MinimumInput(n) then MinimumInput(n) else wanted;
    Min(Min(raised, MaximumInput(n)), depth)
  }

  function Consume(c: Controller, depth: nat, n: nat): int {
    if depth == 0 || n == 0 then 0 else Limited(Wanted(c, depth, n), depth, n)
  }

  lemma InputLimits(n: nat)
    requires n >= 1
    ensures 1 <= MinimumInput(n) <= n <= MaximumInput(n)
    ensures 980000 * n <= MinimumInput(n) * 1000000 < 980000 * n + 1000000
    ensures MaximumInput(n) * 1000000 <= 1030000 * n
  {
  }

  // Whatever the trend, the controller takes everything when too little is queued for a stretched
  // block, and otherwise an amount the block can be stretched or compressed from.
  lemma ConsumeBounds(c: Controller, depth: nat, n: nat)
    requires n >= 1
    ensures 0 <= Consume(c, depth, n) <= depth && Consume(c, depth, n) <= MaximumInput(n)
    ensures depth < MinimumInput(n) ==> Consume(c, depth, n) == depth
    ensures depth >= MinimumInput(n) ==> Consume(c, depth, n) >= MinimumInput(n)
  {
    InputLimits(n);
    WantedBounds(c, depth, n);
    hide MinimumInput, MaximumInput, Wanted;
  }

  lemma WantedBounds(c: Controller, depth: nat, n: nat)
    requires n >= 1
    ensures depth < n ==> Wanted(c, depth, n) == depth
    ensures depth >= n ==> Wanted(c, depth, n) >= MinimumInput(n)
  {
    InputLimits(n);
    hide MinimumInput, MaximumInput, Compression, Ceil;
    if Pressure(c, depth) > n as real {
      CompressionAdds(Pressure(c, depth), n);
    }
  }

  lemma CompressionAdds(pressure: real, n: nat)
    requires n >= 1 && pressure > n as real
    ensures Compression(pressure, n) >= 0
  {
    InputLimits(n);
    hide MinimumInput, MaximumInput;
    var share := (pressure - n as real) / (3 * n) as real;
    RealQuotient(pressure - n as real, (3 * n) as real);
    RealProduct(if share > 1.0 then 1.0 else share, (MaximumInput(n) - n) as real);
  }

  /* The linear map of the taken samples onto the block. */

  // Output i of m, taken at position i*(|input|-1)/(m-1).
  function ResampledAt(input: seq<Int16>, m: nat, i: nat): (y: Int16)
    requires |input| >= 2 && m >= 2 && i < m
  {
    var position := i * (|input| - 1);
    var index := position / (m - 1);
    if index >= |input| - 1 then input[|input| - 1]
    else
      ClampInt16((input[index] as int)
                 + TruncDiv(((input[index + 1] as int) - (input[index] as int)) * (position % (m - 1)), m - 1))
  }

  function Resampled(input: seq<Int16>, m: nat): (out: seq<Int16>)
    ensures |out| == m
  {
    if |input| == 0 then seq(m, _ => 0)
    else if |input| == 1 then seq(m, _ => input[0])
    else if |input| == m then input
    else if m == 1 then [input[0]]
    else seq(m, i requires 0 <= i < m => ResampledAt(input, m, i))
  }

  lemma QuotientOfMultiple(q: nat, d: nat)
    requires d > 0
    ensures (d * q) / d == q
    ensures 0 / d == 0 && 0 % d == 0
  {
    assert d * q == q * d + 0;
    FloorIs(d * q, q, d);
  }

  // Both ends of the input survive whenever there is room for two samples.
  lemma ResamplingKeepsEnds(input: seq<Int16>, m: nat)
    requires |input| >= 1 && m >= 2
    ensures Resampled(input, m)[0] == input[0]
    ensures Resampled(input, m)[m - 1] == input[|input| - 1]
  {
    if |input| >= 2 && |input| != m {
      hide ClampInt16, TruncDiv;
      QuotientOfMultiple(|input| - 1, m - 1);
      assert ResampledAt(input, m, m - 1) == input[|input| - 1];
      FirstOutput(input, m);
    }
  }

  lemma FirstOutput(input: seq<Int16>, m: nat)
    requires |input| >= 2 && m >= 2
    ensures ResampledAt(input, m, 0) == input[0]
  {
    assert 0 * (|input| - 1) == 0;
    QuotientOfMultiple(0, m - 1);
    assert ((input[1] as int) - (input[0] as int)) * 0 == 0;
  }

  // Every sample lies between the two input samples around its position.
  lemma ResamplingInterpolates(input: seq<Int16>, m: nat, i: nat)
    requires |input| >= 2 && m >= 2 && i < m
    ensures var k := i * (|input| - 1) / (m - 1);
            && 0 <= k < |input|
            && var next := if k + 1 < |input| then input[k + 1] else input[k];
               Min(input[k], next) <= ResampledAt(input, m, i) <= Max(input[k], next)
  {
    var position := i * (|input| - 1);
    MulMono(i, m - 1, |input| - 1);
    MulMono(0, i, |input| - 1);
    QuotientBounds(position, 0, |input| - 1, m - 1);
    var k := position / (m - 1);
    hide TruncDiv, ClampInt16;
    if k < |input| - 1 {
      InRangeAfterClamp(input[k], input[k + 1], position % (m - 1), m - 1);
      BetweenNeighbours(input[k], input[k + 1], position % (m - 1), m - 1);
    }
  }

  // The clamp to sixteen bits never acts between two sixteen-bit neighbours.
  lemma InRangeAfterClamp(a: Int16, b: Int16, num: int, den: int)
    requires 0 <= num < den
    ensures var y := (a as int) + TruncDiv(((b as int) - (a as int)) * num, den); ClampInt16(y) == y
  {
    hide TruncDiv;
    BetweenNeighbours(a, b, num, den);
  }

  /* Edges. */

  // Any rising table from 0 to full gain; the source fills it with half a Hann window.
  ghost predicate IsWindow(w: seq<int>) {
    && |w| >= 2 && w[0] == 0 && w[|w| - 1] == GAIN
    && (forall i :: 0 <= i < |w| ==> 0 <= w[i] <= GAIN)
    && (forall i, j :: 0 <= i < j < |w| ==> w[i] <= w[j])
  }

  // mappedWindowGain: the whole table, however few samples there are.
  function Gain(w: seq<int>, position: nat, count: nat): int {
    if |w| == 0 || count == 0 then GAIN
    else if count == 1 || |w| == 1 then w[0]
    else
      var index := (position * (|w| - 1) + (count - 1) / 2) / (count - 1);
      w[Max(0, Min(index, |w| - 1))]
  }

  lemma GainAtEnds(w: seq<int>, count: nat)
    requires IsWindow(w) && count >= 1
    ensures Gain(w, 0, count) == 0
    ensures count >= 2 ==> Gain(w, count - 1, count) == GAIN
  {
    if count >= 2 {
      var c := count - 1;
      assert 0 * (|w| - 1) == 0 && c / 2 < c && (c / 2) / c == 0;
      FloorOfSum(|w| - 1, c);
    }
  }

  lemma FloorOfSum(q: nat, c: nat)
    requires c >= 1
    ensures (c * q + c / 2) / c == q
  {
    var x := c * q + c / 2;
    assert q * c <= x < q * c + c;
    assert x == q * c + c / 2;
    FloorIs(x, q, c);
  }

  function Scaled(sample: Int16, gain: int): Int16 {
    ClampInt16(TruncDiv(sample * gain, GAIN))
  }

  function Blend(previous: Int16, sample: Int16, gain: int): Int16 {
    ClampInt16(TruncDiv(previous * (GAIN - gain) + sample * gain, GAIN))
  }

  function FadedIn(x: seq<Int16>, w: seq<int>): (y: seq<Int16>)
    ensures |y| == |x|
  {
    var count := Min(|x|, |w|);
    seq(|x|, i requires 0 <= i < |x| => if i < count then Scaled(x[i], Gain(w, i, count)) else x[i])
  }

  function FadedOut(x: seq<Int16>, w: seq<int>): (y: seq<Int16>)
    ensures |y| == |x|
  {
    var count := Min(|x|, |w|);
    var start := |x| - count;
    if count == 1 then x[|x| - 1 := 0]
    else seq(|x|, i requires 0 <= i < |x| =>
               if i >= start then Scaled(x[i], GAIN - Gain(w, i - start, count)) else x[i])
  }

  function Spliced(x: seq<Int16>, previous: Int16, w: seq<int>): (y: seq<Int16>)
    ensures |y| == |x|
  {
    var count := Min(|x|, |w|);
    seq(|x|, i requires 0 <= i < |x| => if i < count then Blend(previous, x[i], Gain(w, i, count)) else x[i])
  }

  function Tail(x: seq<Int16>, previous: Int16, w: seq<int>): (y: seq<Int16>)
    ensures |y| == |x|
  {
    var count := Min(|x|, |w|);
    seq(|x|, i requires 0 <= i < |x| => if i < count then Scaled(previous, GAIN - Gain(w, i, count)) else x[i])
  }

  lemma FadedOutIs(x: seq<Int16>, w: seq<int>, y: seq<Int16>)
    requires |y| == |x| && Min(|x|, |w|) != 1
    requires var start := |x| - Min(|x|, |w|);
             && (forall i :: 0 <= i < start ==> y[i] == x[i])
             && (forall i :: start <= i < |x| ==> y[i] == Scaled(x[i], GAIN - Gain(w, i - start, |x| - start)))
    ensures y == FadedOut(x, w)
  {
  }

  lemma FadeInStartsSilent(x: seq<Int16>, w: seq<int>)
    requires IsWindow(w) && |x| >= 1
    ensures FadedIn(x, w)[0] == 0
  {
    GainAtEnds(w, Min(|x|, |w|));
  }

  // A fade-out ends in silence and, with two samples to work on, leaves the first one alone.
  lemma FadeOutEndsSilent(x: seq<Int16>, w: seq<int>)
    requires IsWindow(w) && |x| >= 1
    ensures FadedOut(x, w)[|x| - 1] == 0
    ensures |x| >= 2 ==> FadedOut(x, w)[0] == x[0]
    ensures x[0] == 0 ==> FadedOut(x, w)[0] == 0
  {
    hide Gain;
    GainAtEnds(w, Min(|x|, |w|));
  }

  lemma SpliceStartsAtPrevious(x: seq<Int16>, previous: Int16, w: seq<int>)
    requires IsWindow(w) && |x| >= 1
    ensures Spliced(x, previous, w)[0] == previous
  {
    hide Gain;
    GainAtEnds(w, Min(|x|, |w|));
  }

  // A total underrun decays from the last played sample to silence.
  lemma TailDecays(x: seq<Int16>, previous: Int16, w: seq<int>)
    requires IsWindow(w) && |x| >= 2 && forall i :: 0 <= i < |x| ==> x[i] == 0
    ensures Tail(x, previous, w)[0] == previous
    ensures Tail(x, previous, w)[|x| - 1] == 0
  {
    hide Gain;
    GainAtEnds(w, Min(|x|, |w|));
  }
}
