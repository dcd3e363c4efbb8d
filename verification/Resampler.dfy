/** The streaming linear resampler of internal/media/talkback_audio.go, against its closed form. */
module Resampler {
  import opened GoNumbers
  import opened Wrappers

  const SOURCE_RATE := 8000

  // Outputs that exist after n inputs: those whose right-hand neighbour has arrived.
  function OutCount(n: nat, rate: nat): nat {
    if n == 0 then 0 else ((n - 1) * rate + 7999) / 8000
  }

  lemma Neighbours(k: nat, n: nat, rate: nat)
    requires rate > 0 && k < OutCount(n, rate)
    ensures 8000 * k / rate + 1 < n
    ensures var i := 8000 * k / rate; i * rate <= 8000 * k < i * rate + rate
  {
    var i := 8000 * k / rate;
    QuotientSpec(8000 * k, rate);
    if i >= n - 1 {
      MulMono(n - 1, i, rate);
    }
  }

  // Output k, from the two inputs around tick 8000k.
  function Interpolated(xs: seq<Int16>, rate: nat, k: nat): (y: Int16)
    requires rate > 0 && k < OutCount(|xs|, rate)
    ensures var i := 8000 * k / rate;
            i + 1 < |xs| && Min(xs[i], xs[i + 1]) <= y <= Max(xs[i], xs[i + 1])
  {
    Neighbours(k, |xs|, rate);
    var i := 8000 * k / rate;
    BetweenNeighbours(xs[i], xs[i + 1], 8000 * k - i * rate, rate);
    xs[i] + TruncDiv((xs[i + 1] - xs[i]) * (8000 * k - i * rate), rate)
  }

  // Everything emitted after the inputs xs; at 8 kHz the stream passes through.
  function Streamed(xs: seq<Int16>, rate: nat): (ys: seq<Int16>)
    requires rate > 0
    ensures |ys| == if rate == SOURCE_RATE then |xs| else OutCount(|xs|, rate)
  {
    if rate == SOURCE_RATE then xs
    else seq(OutCount(|xs|, rate), k requires 0 <= k < OutCount(|xs|, rate) => Interpolated(xs, rate, k))
  }

  lemma CountGrows(m: nat, n: nat, rate: nat)
    requires m <= n
    ensures OutCount(m, rate) <= OutCount(n, rate)
  {
    if 0 < m {
      assert (m - 1) * rate <= (n - 1) * rate;
    }
  }

  // Later input never changes an output already emitted.
  lemma StreamIsStable(xs: seq<Int16>, more: seq<Int16>, rate: nat)
    requires rate > 0
    ensures |Streamed(xs, rate)| <= |Streamed(xs + more, rate)|
    ensures Streamed(xs + more, rate)[..|Streamed(xs, rate)|] == Streamed(xs, rate)
  {
    if rate != SOURCE_RATE {
      CountGrows(|xs|, |xs + more|, rate);
      forall k: nat | k < OutCount(|xs|, rate)
        ensures Interpolated(xs + more, rate, k) == Interpolated(xs, rate, k)
      {
        Neighbours(k, |xs|, rate);
      }
    }
  }

  // What one Push returns, given everything pushed before it.
  function Emitted(before: seq<Int16>, chunk: seq<Int16>, rate: nat): seq<Int16>
    requires rate > 0
  {
    StreamIsStable(before, chunk, rate);
    Streamed(before + chunk, rate)[|Streamed(before, rate)|..]
  }

  function PushAll(chunks: seq<seq<Int16>>, rate: nat): seq<Int16>
    requires rate > 0
  {
    if chunks == [] then []
    else
      var front := chunks[..|chunks| - 1];
      PushAll(front, rate) + Emitted(Concat(front), chunks[|chunks| - 1], rate)
  }

  // For every split of the input into pushes the concatenated output is the closed form.
  lemma {:induction false} SplitDoesNotMatter(chunks: seq<seq<Int16>>, rate: nat)
    requires rate > 0
    ensures PushAll(chunks, rate) == Streamed(Concat(chunks), rate)
  {
    if chunks == [] {
      assert Streamed([], rate) == [];
    } else {
      var front := chunks[..|chunks| - 1];
      var last := chunks[|chunks| - 1];
      SplitDoesNotMatter(front, rate);
      StreamIsStable(Concat(front), last, rate);
      var whole := Streamed(Concat(front) + last, rate);
      assert whole == whole[..|Streamed(Concat(front), rate)|] + whole[|Streamed(Concat(front), rate)|..];
    }
  }

  lemma NewOutputs(before: seq<Int16>, chunk: seq<Int16>, rate: nat, out: seq<Int16>)
    requires rate > 0 && rate != SOURCE_RATE
    requires OutCount(|before|, rate) + |out| == OutCount(|before + chunk|, rate)
    requires forall j :: 0 <= j < |out| ==> out[j] == Interpolated(before + chunk, rate, OutCount(|before|, rate) + j)
    ensures out == Emitted(before, chunk, rate)
  {
    hide OutCount, Interpolated;
    StreamIsStable(before, chunk, rate);
  }

  class LinearResampler {
    const outRate: nat
    var havePrev: bool
    var prev: Int16
    var sourceIndex: int
    var nextOutTick: int
    ghost var fed: seq<Int16>  // inputs since the last reset

    ghost predicate Valid()
      reads this
    {
      && 8000 <= outRate <= 48000
      && (outRate != SOURCE_RATE ==>
            && (havePrev <==> fed != [])
            && nextOutTick == 8000 * OutCount(|fed|, outRate)
            && (havePrev ==> prev == fed[|fed| - 1] && sourceIndex == |fed| - 1))
    }

    constructor (rate: nat)
      requires 8000 <= rate <= 48000
      ensures Valid() && fed == [] && outRate == rate
    {
      outRate := rate;
      havePrev, prev, sourceIndex, nextOutTick := false, 0, 0, 0;
      fed := [];
    }

    method Reset()
      requires Valid()
      modifies this
      ensures Valid() && fed == []
    {
      havePrev, prev, sourceIndex, nextOutTick := false, 0, 0, 0;
      fed := [];
    }

    method Push(chunk: seq<Int16>) returns (out: seq<Int16>)
      requires Valid()
      modifies this
      ensures Valid()
      ensures fed == old(fed) + chunk
      ensures out == Emitted(old(fed), chunk, outRate)
    {
      StreamIsStable(fed, chunk, outRate);
      if |chunk| == 0 {
        assert fed + chunk == fed;
        return [];
      }
      if outRate == SOURCE_RATE {
        fed := fed + chunk;
        return chunk;
      }
      ghost var before := fed;
      out := Interpolate(chunk);
      NewOutputs(before, chunk, outRate, out);
    }

    // The loop over the inputs.
    method Interpolate(chunk: seq<Int16>) returns (out: seq<Int16>)
      requires Valid() && outRate != SOURCE_RATE
      modifies this
      ensures Valid() && fed == old(fed) + chunk
      ensures OutCount(|old(fed)|, outRate) + |out| == OutCount(|fed|, outRate)
      ensures forall j :: 0 <= j < |out| ==> out[j] == Interpolated(fed, outRate, OutCount(|old(fed)|, outRate) + j)
    {
      hide OutCount, Interpolated;
      ghost var xs := fed + chunk;
      ghost var n0, first := |fed|, OutCount(|fed|, outRate);
      CountGrows(|fed|, |xs|, outRate);
      out := [];
      for n := 0 to |chunk|
        invariant Valid() && fed == xs[..n0 + n]
        invariant first + |out| == OutCount(|fed|, outRate) <= OutCount(|xs|, outRate)
        invariant forall j :: 0 <= j < |out| ==> out[j] == Interpolated(xs, outRate, first + j)
      {
        assert xs[..n0 + n] + [chunk[n]] == xs[..n0 + n + 1];
        var more := Accept(chunk[n], xs, first + |out|);
        out := out + more;
      }
      assert fed == xs;
    }

    // One input: the first only starts the stream, any other completes a segment.
    method Accept(cur: Int16, ghost xs: seq<Int16>, ghost k0: nat) returns (out: seq<Int16>)
      requires Valid() && outRate != SOURCE_RATE
      requires |fed| < |xs| && fed == xs[..|fed|] && xs[|fed|] == cur
      requires k0 == OutCount(|fed|, outRate)
      modifies this
      ensures Valid() && fed == old(fed) + [cur]
      ensures k0 + |out| == OutCount(|fed|, outRate) <= OutCount(|xs|, outRate)
      ensures forall j :: 0 <= j < |out| ==> out[j] == Interpolated(xs, outRate, k0 + j)
    {
      CountGrows(|fed| + 1, |xs|, outRate);
      out := [];
      if !havePrev {
        prev := cur;
        havePrev := true;
        sourceIndex := 0;
        nextOutTick := 0;
      } else {
        out := Segment(cur, xs, k0);
        prev := cur;
      }
      fed := fed + [cur];
    }

    // The inner loop of Push: all outputs between the previous input and `cur`.
    method Segment(cur: Int16, ghost xs: seq<Int16>, ghost k0: nat) returns (out: seq<Int16>)
      requires Valid() && outRate != SOURCE_RATE && havePrev
      requires |fed| < |xs| && fed == xs[..|fed|] && xs[|fed|] == cur
      requires k0 == OutCount(|fed|, outRate)
      modifies this`sourceIndex, this`nextOutTick
      ensures sourceIndex == |fed| && nextOutTick == 8000 * OutCount(|fed| + 1, outRate)
      ensures k0 + |out| == OutCount(|fed| + 1, outRate) <= OutCount(|xs|, outRate)
      ensures forall j :: 0 <= j < |out| ==> out[j] == Interpolated(xs, outRate, k0 + j)
    {
      CountGrows(|fed| + 1, |xs|, outRate);
      ghost var i := sourceIndex;
      TicksOfCount(|fed|, outRate);
      hide OutCount, Interpolated;
      var startTick := sourceIndex * outRate;
      sourceIndex := sourceIndex + 1;
      var endTick := sourceIndex * outRate;
      NextMultiple(i, outRate);
      out := [];
      while nextOutTick < endTick
        invariant sourceIndex == i + 1 && nextOutTick == 8000 * (k0 + |out|)
        invariant startTick <= nextOutTick < endTick + 8000
        invariant forall j :: 0 <= j < |out| ==>
                    k0 + j < OutCount(|xs|, outRate) && out[j] == Interpolated(xs, outRate, k0 + j)
        decreases endTick - nextOutTick
      {
        var num := nextOutTick - startTick;
        if num < 0 {
          num := 0;
        }
        var delta := (cur as int) - (prev as int);
        var value := (prev as int) + TruncDiv(delta * num, outRate);
        OutputInSegment(xs, outRate, k0 + |out|, i);
        if value > 32767 {
          value := 32767;
        } else if value < -32768 {
          value := -32768;
        }
        out := out + [value];
        nextOutTick := nextOutTick + 8000;
      }
      CountOfTicks(|fed| + 1, outRate, k0 + |out|);
    }
  }

  // newLinearResampler: null stands for its error.
  method NewLinearResampler(outRate: int) returns (r: LinearResampler?)
    ensures r == null <==> outRate < 8000 || outRate > 48000
    ensures r != null ==> fresh(r) && r.Valid() && r.fed == [] && r.outRate == outRate
  {
    if outRate < SOURCE_RATE || outRate > 48000 {
      return null;
    }
    r := new LinearResampler(outRate);
  }

  lemma NextMultiple(i: int, rate: int)
    ensures (i + 1) * rate == i * rate + rate
  {
  }

  // 8000 * OutCount is the first output tick at or after the newest input.
  lemma TicksOfCount(n: nat, rate: nat)
    requires n >= 1
    ensures (n - 1) * rate <= 8000 * OutCount(n, rate) < (n - 1) * rate + 8000
  {
  }

  lemma CountOfTicks(n: nat, rate: nat, k: int)
    requires n >= 1 && (n - 1) * rate <= 8000 * k < (n - 1) * rate + 8000
    ensures k == OutCount(n, rate)
  {
  }

  // A tick between inputs i and i+1 belongs to an output that exists, and to those two.
  lemma TickInSegment(n: nat, rate: nat, k: nat, i: nat)
    requires rate > 0 && i + 1 < n
    requires i * rate <= 8000 * k < i * rate + rate
    ensures k < OutCount(n, rate) && 8000 * k / rate == i
  {
    assert (i + 1) * rate == i * rate + rate;
    MulMono(i + 1, n - 1, rate);
    FloorIs(8000 * k, i, rate);
    TickExists(n, rate, k);
  }

  lemma TickExists(n: nat, rate: nat, k: nat)
    requires n >= 1 && 8000 * k < (n - 1) * rate
    ensures k < OutCount(n, rate)
  {
  }

  // The output at a tick between inputs i and i+1.
  lemma OutputInSegment(xs: seq<Int16>, rate: nat, k: nat, i: nat)
    requires rate > 0 && i + 1 < |xs|
    requires i * rate <= 8000 * k < i * rate + rate
    ensures k < OutCount(|xs|, rate)
    ensures Interpolated(xs, rate, k) == xs[i] + TruncDiv((xs[i + 1] - xs[i]) * (8000 * k - i * rate), rate)
  {
    hide OutCount, TruncDiv;
    TickInSegment(|xs|, rate, k, i);
  }
}
