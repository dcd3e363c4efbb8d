/** The camera jitter smoother of internal/media/playout_pll.go and its virtual media clock.
    Times are nanoseconds; one 8 kHz sample lasts exactly 125000 of them. Reals stand for float64. */
module PlayoutPLL {
  import opened GoNumbers
  import opened Wrappers

  const FRAME := 160
  const FRAME_NS := 20_000_000
  const SAMPLE_NS := 125_000
  const STARTUP := 960
  const MAXIMUM := 2560
  const RECOVERY := 1440
  const LOW_WATERMARK := 480
  const HIGH_WATERMARK := 2080
  const REBASE_NS := 750_000_000
  const MAX_CORRECTION := 0.20
  const INTEGRAL_LIMIT := 0.10

  // 159.8 sample times: a frame played at the fastest permitted rate.
  const MIN_STEP_NS := 19_975_000

  // A zero time.Time is None.
  datatype State = State(
    buf: seq<Int16>,
    phase: real,
    integral: real,
    correction: real,
    active: bool,
    bufStartAt: Option<int>,
    inputNextAt: Option<int>,
    lastFrameAt: Option<int>)

  const Fresh := State([], 0.0, 0.0, 0.0, false, None, None, None)

  function Abs(x: int): int {
    if x < 0 then -x else x
  }

  // time.Duration(x): float64 to integer truncates toward zero.
  function Truncate(x: real): int {
    if x >= 0.0 then x.Floor else -((-x).Floor)
  }

  function SamplesDuration(n: real): int {
    Truncate(n * 125000.0)
  }

  /* Push */

  // Where the chunk belongs on the media timeline, and whether the timeline is rebased to get there.
  function ChunkStart(s: State, nominal: int): (int, bool) {
    if s.inputNextAt.Some? && Abs(nominal - s.inputNextAt.value) <= REBASE_NS then (s.inputNextAt.value, false)
    else (nominal, s.inputNextAt.Some?)
  }

  // After an underrun late samples resume at the next frame boundary, never before it.
  function NotBefore(s: State, start: int): (at: int)
    ensures at >= start
    ensures s.active && s.buf == [] && s.lastFrameAt.Some? ==> at >= s.lastFrameAt.value + FRAME_NS
  {
    if s.active && s.buf == [] && s.lastFrameAt.Some? then Max(start, s.lastFrameAt.value + FRAME_NS) else start
  }

  // A rebase forgets what is buffered and the controller's state.
  function Rebased(s: State): State {
    s.(buf := [], phase := 0.0, integral := 0.0, correction := 0.0, bufStartAt := None)
  }

  // A backlog beyond the ceiling falls back to the recovery depth.
  function Capped(s: State): State {
    if |s.buf| <= MAXIMUM then s
    else
      var drop := |s.buf| - RECOVERY;
      s.(buf := s.buf[drop..], phase := 0.0,
         bufStartAt := if s.bufStartAt.Some? then Some(s.bufStartAt.value + SamplesDuration(drop as real)) else None)
  }

  function Pushed(s: State, samples: seq<Int16>, arrival: int): State {
    if samples == [] then s
    else
      var duration := |samples| * SAMPLE_NS;
      var (start, rebase) := ChunkStart(s, arrival - duration);
      var r := if rebase then Rebased(s) else s;
      var at := NotBefore(r, start);
      var t := Capped(r.(buf := r.buf + samples,
                         bufStartAt := if r.buf == [] then Some(at) else r.bufStartAt,
                         inputNextAt := Some(at + duration)));
      t.(active := t.active || |t.buf| >= STARTUP)
  }

  /* PopFrame */

  function Clamp(x: real, limit: real): real {
    if x > limit then limit else if x < -limit then -limit else x
  }

  // The samples by which the queue lies outside its broad deadband.
  function QueueError(depth: nat): real {
    if depth < LOW_WATERMARK then (depth - LOW_WATERMARK) as real
    else if depth > HIGH_WATERMARK then (depth - HIGH_WATERMARK) as real
    else 0.0
  }

  function NextIntegral(depth: nat, integral: real): real {
    var relaxed := if LOW_WATERMARK <= depth <= HIGH_WATERMARK then integral * 0.98 else integral;
    Clamp(relaxed + QueueError(depth) * (1.0 / 800000.0), INTEGRAL_LIMIT)
  }

  function NextCorrection(depth: nat, integral: real): real {
    Clamp(QueueError(depth) * (1.0 / 4000.0) + NextIntegral(depth, integral), MAX_CORRECTION)
  }

  function MediaAt(s: State, now: int): int {
    if s.buf != [] && s.bufStartAt.Some? then s.bufStartAt.value + SamplesDuration(s.phase)
    else if s.lastFrameAt.Some? then s.lastFrameAt.value + FRAME_NS
    else now
  }

  function Ratio(correction: real): real {
    (160.0 + correction) / 160.0
  }

  function Position(phase: real, ratio: real, i: nat): real {
    phase + (i as real) * ratio
  }

  // math.Round rounds halves away from zero.
  function Round(x: real): int {
    if x >= 0.0 then (x + 0.5).Floor else -((-x + 0.5).Floor)
  }

  // The played value at a position, or None beyond the buffer.
  function Played(buf: seq<Int16>, pos: real): (v: Option<Int16>)
    ensures v.Some? <==> 0 <= pos.Floor < |buf|
    ensures v.Some? ==>
              var i := pos.Floor;
              var b := if i + 1 < |buf| then buf[i + 1] else buf[i];
              Min(buf[i], b) <= v.value <= Max(buf[i], b)
  {
    var i := pos.Floor;
    if i < 0 || i >= |buf| then None
    else
      var frac := pos - (i as real);
      var a := buf[i] as real;
      var b := (if i + 1 < |buf| then buf[i + 1] else buf[i]) as real;
      assert 0.0 <= frac < 1.0;
      Between(a, b, frac);
      Some(Round(a + (b - a) * frac))
  }

  lemma Between(a: real, b: real, frac: real)
    requires 0.0 <= frac <= 1.0
    ensures (if a < b then a else b) <= a + (b - a) * frac <= (if a < b then b else a)
  {
    if a < b {
      RealProduct(b - a, frac);
      RealProduct(b - a, 1.0 - frac);
    } else {
      RealProduct(a - b, frac);
      RealProduct(a - b, 1.0 - frac);
    }
  }

  // How many of the first n output samples have nothing to play.
  function Missing(buf: seq<Int16>, phase: real, ratio: real, n: nat): nat {
    if n == 0 then 0
    else Missing(buf, phase, ratio, n - 1) + (if Played(buf, Position(phase, ratio, n - 1)).None? then 1 else 0)
  }

  function Consumed(s: State, ratio: real, missing: nat): State {
    var end := s.phase + 160.0 * ratio;
    var consume := end.Floor;
    var left := end - (consume as real);
    if consume >= |s.buf| then
      s.(buf := [], phase := if missing > 0 then 0.0 else left, bufStartAt := Advanced(s.bufStartAt, |s.buf|))
    else if consume > 0 then
      s.(buf := s.buf[consume..], phase := left, bufStartAt := Advanced(s.bufStartAt, consume))
    else s.(phase := left)
  }

  function Popped(s: State, now: int): State {
    var correction := NextCorrection(|s.buf|, s.integral);
    var ratio := Ratio(correction);
    Consumed(s, ratio, Missing(s.buf, s.phase, ratio, FRAME))
      .(integral := NextIntegral(|s.buf|, s.integral), correction := correction, lastFrameAt := Some(MediaAt(s, now)))
  }

  function Advanced(at: Option<int>, samples: nat): Option<int> {
    if at.None? || samples == 0 then at else Some(at.value + SamplesDuration(samples as real))
  }

  /* The invariant of every reachable state. */

  ghost predicate Inv(s: State) {
    && 0.0 <= s.phase < 1.0
    && -MAX_CORRECTION <= s.correction <= MAX_CORRECTION
    && -INTEGRAL_LIMIT <= s.integral <= INTEGRAL_LIMIT
    && |s.buf| <= MAXIMUM
    && (s.lastFrameAt.Some? ==> s.active)
    // Every buffered sample has its place on one continuous timeline that ends at inputNextAt ...
    && (s.buf != [] ==> s.bufStartAt.Some? && s.inputNextAt == Some(s.bufStartAt.value + |s.buf| * SAMPLE_NS))
    // ... and the next one to be played lies a full frame after the last frame.
    && (s.buf != [] && s.lastFrameAt.Some? ==>
          s.bufStartAt.value + SamplesDuration(s.phase) >= s.lastFrameAt.value + MIN_STEP_NS)
  }

  lemma WholeSamples(n: nat)
    ensures SamplesDuration(n as real) == n * SAMPLE_NS
  {
    assert (n as real) * 125000.0 == ((n * 125000) as real);
  }

  lemma PushInv(s: State, samples: seq<Int16>, arrival: int)
    requires Inv(s)
    ensures Inv(Pushed(s, samples, arrival))
    ensures samples != [] ==> Pushed(s, samples, arrival).buf != []
  {
    if samples != [] {
      var duration := |samples| * SAMPLE_NS;
      var (start, rebase) := ChunkStart(s, arrival - duration);
      var r := if rebase then Rebased(s) else s;
      var at := NotBefore(r, start);
      var u := r.(buf := r.buf + samples,
                  bufStartAt := if r.buf == [] then Some(at) else r.bufStartAt,
                  inputNextAt := Some(at + duration));
      if |u.buf| > MAXIMUM {
        WholeSamples(|u.buf| - RECOVERY);
      }
    }
  }

  // Playing 160 + correction samples moves the media time by at least 159.8 of them.
  lemma ClockStep(phase: real, correction: real)
    requires 0.0 <= phase < 1.0 && -MAX_CORRECTION <= correction <= MAX_CORRECTION
    ensures var end := phase + 160.0 + correction;
            var consume := end.Floor;
            var left := end - (consume as real);
            && 159 <= consume <= 161 && 0.0 <= left < 1.0
            && consume * SAMPLE_NS + SamplesDuration(left) >= SamplesDuration(phase) + MIN_STEP_NS
  {
    var end := phase + 160.0 + correction;
    var consume := end.Floor;
    var left := end - (consume as real);
    assert left * 125000.0 == end * 125000.0 - ((consume * 125000) as real);
    assert end * 125000.0 >= phase * 125000.0 + 19975000.0;
  }

  lemma PopInv(s: State, now: int)
    requires Inv(s) && s.active
    ensures Inv(Popped(s, now))
  {
    var correction := NextCorrection(|s.buf|, s.integral);
    assert 160.0 * Ratio(correction) == 160.0 + correction;
    ClockStep(s.phase, correction);
    var consume := (s.phase + 160.0 * Ratio(correction)).Floor;
    WholeSamples(consume);
    WholeSamples(|s.buf|);
  }

  // Each frame's media time lies at least 159.8 samples after the previous frame's.
  lemma PopAdvances(s: State, now: int)
    requires Inv(s) && s.active && s.lastFrameAt.Some?
    ensures Popped(s, now).lastFrameAt.value >= s.lastFrameAt.value + MIN_STEP_NS
  {
  }

  /* Whole runs. */

  datatype Event = Push(samples: seq<Int16>, arrival: int) | Pop(now: int)

  // The state and the media times of all frames returned so far. PopFrame returns nothing until
  // the startup prebuffer has filled once.
  function Run(events: seq<Event>): (State, seq<int>) {
    if events == [] then (Fresh, [])
    else
      var (s, times) := Run(events[..|events| - 1]);
      match events[|events| - 1]
      case Push(samples, arrival) => (Pushed(s, samples, arrival), times)
      case Pop(now) => if !s.active then (s, times) else (Popped(s, now), times + [MediaAt(s, now)])
  }

  // Through overflows, rebases, underruns and any arrival times, the media clock never moves
  // backward or stalls.
  lemma {:induction false} ClockNeverMovesBack(events: seq<Event>)
    ensures var (s, times) := Run(events);
            && Inv(s)
            && (times != [] ==> s.lastFrameAt == Some(times[|times| - 1]))
            && (times == [] ==> s.lastFrameAt.None?)
            && forall i :: 0 < i < |times| ==> times[i] >= times[i - 1] + MIN_STEP_NS
  {
    if events == [] {
    } else {
      hide Inv, Pushed, Popped;
      var (s, times) := Run(events[..|events| - 1]);
      ClockNeverMovesBack(events[..|events| - 1]);
      match events[|events| - 1]
      case Push(samples, arrival) =>
        PushInv(s, samples, arrival);
        PushKeepsLastFrame(s, samples, arrival);
      case Pop(now) =>
        if s.active {
          PopInv(s, now);
          PopSetsLastFrame(s, now);
          if times != [] {
            PopAdvances(s, now);
          }
        }
    }
  }

  lemma PushKeepsLastFrame(s: State, samples: seq<Int16>, arrival: int)
    ensures Pushed(s, samples, arrival).lastFrameAt == s.lastFrameAt
  {
  }

  lemma PopSetsLastFrame(s: State, now: int)
    ensures Popped(s, now).lastFrameAt == Some(MediaAt(s, now))
  {
  }

  // Nothing is lost but what is reported as dropped: the buffer is always the newest samples.
  lemma PushConserves(s: State, samples: seq<Int16>, arrival: int)
    ensures var t := Pushed(s, samples, arrival);
            |t.buf| <= |s.buf| + |samples| && t.buf == (s.buf + samples)[|s.buf| + |samples| - |t.buf|..]
  {
  }

  // A frame with silence in it leaves the buffer empty, so the next input starts a fresh stretch.
  lemma UnderrunEmpties(s: State, now: int, i: nat)
    requires Inv(s) && s.active && i < FRAME
    requires Played(s.buf, Position(s.phase, Ratio(NextCorrection(|s.buf|, s.integral)), i)).None?
    ensures Popped(s, now).buf == []
  {
    var correction := NextCorrection(|s.buf|, s.integral);
    CorrectionBounded(|s.buf|, s.integral);
    PositionBelowEnd(s.phase, Ratio(correction), i);
    PlayedMeansInside(s.buf, Position(s.phase, Ratio(correction), i));
    hide Played, Missing, NextCorrection, NextIntegral, Position, Ratio;
  }

  lemma CorrectionBounded(depth: nat, integral: real)
    ensures -MAX_CORRECTION <= NextCorrection(depth, integral) <= MAX_CORRECTION
    ensures -INTEGRAL_LIMIT <= NextIntegral(depth, integral) <= INTEGRAL_LIMIT
  {
  }

  lemma PositionBelowEnd(phase: real, ratio: real, i: nat)
    requires phase >= 0.0 && ratio > 0.0 && i <= 160
    ensures 0 <= Position(phase, ratio, i).Floor <= (phase + 160.0 * ratio).Floor
  {
    RealProduct((160 - i) as real, ratio);
    RealProduct(i as real, ratio);
    assert ((160 - i) as real) * ratio + (i as real) * ratio == 160.0 * ratio;
  }

  lemma PlayedMeansInside(buf: seq<Int16>, pos: real)
    ensures Played(buf, pos).None? <==> pos.Floor < 0 || pos.Floor >= |buf|
  {
  }

  class CameraPlayoutPLL {
    var buf: seq<Int16>
    var phase: real
    var integral: real
    var correction: real
    var active: bool
    var bufStartAt: Option<int>
    var inputNextAt: Option<int>
    var lastFrameAt: Option<int>

    function Now(): State
      reads this
    {
      State(buf, phase, integral, correction, active, bufStartAt, inputNextAt, lastFrameAt)
    }

    constructor ()
      ensures Now() == Fresh
    {
      buf, phase, integral, correction, active := [], 0.0, 0.0, 0.0, false;
      bufStartAt, inputNextAt, lastFrameAt := None, None, None;
    }

    method Push(samples: seq<Int16>, arrival: int) returns (dropped: nat, timelineRebase: bool)
      modifies this
      ensures Now() == Pushed(old(Now()), samples, arrival)
      ensures dropped == |old(buf)| + |samples| - |buf|
      ensures dropped > 0 ==> timelineRebase
    {
      hide SamplesDuration, Capped, ChunkStart;
      dropped, timelineRebase := 0, false;
      if |samples| == 0 {
        return;
      }
      var chunkDur := |samples| * SAMPLE_NS;
      var chunkStart;
      chunkStart, timelineRebase, dropped := PlaceChunk(arrival - chunkDur);
      ghost var r := Now();
      ghost var at := NotBefore(r, chunkStart);
      if active && |buf| == 0 && lastFrameAt.Some? {
        var playoutNext := lastFrameAt.value + FRAME_NS;
        if chunkStart < playoutNext {
          chunkStart := playoutNext;
          timelineRebase := true;
        }
      }
      assert chunkStart == at;
      inputNextAt := Some(chunkStart + chunkDur);
      if |buf| == 0 {
        bufStartAt := Some(chunkStart);
      }
      buf := buf + samples;
      assert Now() == r.(buf := r.buf + samples, inputNextAt := Some(at + chunkDur),
                         bufStartAt := if r.buf == [] then Some(at) else r.bufStartAt);
      var drop := CapBacklog();
      if drop > 0 {
        dropped := dropped + drop;
        timelineRebase := true;
      }
      if !active && |buf| >= STARTUP {
        active := true;
      }
    }

    // Continue the input timeline, or rebase it after a discontinuity of more than 750 ms.
    method PlaceChunk(nominalStart: int) returns (chunkStart: int, rebase: bool, dropped: nat)
      modifies this
      ensures (chunkStart, rebase) == ChunkStart(old(Now()), nominalStart)
      ensures Now() == if rebase then Rebased(old(Now())) else old(Now())
      ensures dropped == if rebase then |old(buf)| else 0
    {
      if inputNextAt.None? {
        return nominalStart, false, 0;
      }
      var delta := nominalStart - inputNextAt.value;
      if delta < 0 {
        delta := -delta;
      }
      if delta <= REBASE_NS {
        return inputNextAt.value, false, 0;
      }
      dropped := |buf|;
      ForgetBacklog();
      return nominalStart, true, dropped;
    }

    method ForgetBacklog()
      modifies this
      ensures Now() == Rebased(old(Now()))
    {
      buf := [];
      phase, integral, correction := 0.0, 0.0, 0.0;
      bufStartAt := None;
    }

    method CapBacklog() returns (drop: nat)
      modifies this`buf, this`bufStartAt, this`phase
      ensures Now() == Capped(old(Now())) && drop == |old(buf)| - |buf|
    {
      if |buf| <= MAXIMUM {
        return 0;
      }
      drop := |buf| - RECOVERY;
      buf := buf[drop..];
      bufStartAt := Advanced(bufStartAt, drop);
      phase := 0.0;
    }

    // One 20 ms frame, or ready == false before the startup prebuffer has filled.
    method PopFrame(now: int) returns (out: array<Int16>, missing: nat, mediaAt: int, ready: bool)
      modifies this
      ensures fresh(out) && ready == old(active)
      ensures !ready ==> out.Length == 0 && missing == 0 && Now() == old(Now())
      ensures ready ==>
                && out.Length == FRAME
                && Now() == Popped(old(Now()), now) && mediaAt == MediaAt(old(Now()), now)
                && missing == Missing(old(buf), old(phase), Ratio(correction), FRAME)
                && forall i :: 0 <= i < FRAME ==>
                     var v := Played(old(buf), Position(old(phase), Ratio(correction), i));
                     out[i] == if v.Some? then v.value else 0
    {
      hide NextIntegral, NextCorrection, Missing, Played, Position, SamplesDuration, Advanced;
      if !active {
        out := new Int16[0];
        return out, 0, 0, false;
      }
      var depth := |buf|;
      integral, correction := NextIntegral(depth, integral), NextCorrection(depth, integral);
      mediaAt := MediaAt(Now(), now);
      var ratio := Ratio(correction);
      out, missing := Resample(ratio);
      Consume(ratio, missing);
      lastFrameAt := Some(mediaAt);
      ready := true;
    }

    // What the frame used up leaves the buffer.
    method Consume(ratio: real, missing: nat)
      modifies this`phase, this`buf, this`bufStartAt
      ensures Now() == Consumed(old(Now()), ratio, missing)
    {
      hide Advanced;
      var endPos := phase + 160.0 * ratio;
      var consume := endPos.Floor;
      phase := endPos - (consume as real);
      if consume >= |buf| {
        bufStartAt := Advanced(bufStartAt, |buf|);
        buf := [];
        if missing > 0 {
          phase := 0.0;
        }
      } else if consume > 0 {
        bufStartAt := Advanced(bufStartAt, consume);
        buf := buf[consume..];
      }
    }

    // The output loop of PopFrame.
    method Resample(ratio: real) returns (out: array<Int16>, missing: nat)
      ensures fresh(out) && out.Length == FRAME
      ensures missing == Missing(buf, phase, ratio, FRAME)
      ensures forall i :: 0 <= i < FRAME ==>
                var v := Played(buf, Position(phase, ratio, i)); out[i] == if v.Some? then v.value else 0
    {
      out := new Int16[FRAME](_ => 0);
      missing := 0;
      for i := 0 to FRAME
        invariant missing == Missing(buf, phase, ratio, i)
        invariant forall j :: 0 <= j < i ==>
                    var v := Played(buf, Position(phase, ratio, j)); out[j] == if v.Some? then v.value else 0
        invariant forall j :: i <= j < FRAME ==> out[j] == 0
      {
        var v := Played(buf, Position(phase, ratio, i));
        if v.None? {
          missing := missing + 1;
        } else {
          out[i] := v.value;
        }
      }
    }
  }
}
