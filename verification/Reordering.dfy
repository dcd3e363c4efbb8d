/** Reordered arrivals of one consecutive run of packets: the sequencer puts the run back in order,
    across any number of wraps of the sixteen-bit number. */
module Reordering {
  import opened GoNumbers
  import opened Sequencer

  // A consecutive run of packets of one stream, of any length, wrapping around as often as it likes.
  ghost predicate IsRun(run: seq<Packet>) {
    run != [] && forall j :: 0 <= j < |run| ==> IsPlace(run, j)
  }

  predicate IsPlace(run: seq<Packet>, j: nat)
    requires j < |run|
  {
    run[j].sequence == Forward(run[0].sequence, j) && run[j].ssrc == run[0].ssrc
  }

  // The first place at or after e that has not arrived.
  function Gap(got: set<nat>, e: nat, n: nat): (gap: nat)
    ensures e <= gap && (gap < n ==> gap !in got) && (e <= n ==> gap <= n)
    ensures forall m :: e <= m < gap ==> m in got
    decreases if e < n then n - e else 0
  {
    if e < n && e in got then Gap(got, e + 1, n) else e
  }

  lemma {:induction false} GapIs(got: set<nat>, n: nat, from: nat, to: nat)
    requires from <= to <= n && forall m :: from <= m < to ==> m in got
    ensures Gap(got, from, n) == Gap(got, to, n)
    decreases n - from
  {
    if from < to {
      GapIs(got, n, from + 1, to);
    }
  }

  function Got(order: seq<nat>, i: nat): set<nat>
    requires i <= |order|
  {
    set k | 0 <= k < i :: order[k]
  }

  // Each place of the run arrives once, the first one first, never more than the window's reach
  // ahead of the expected packet, and never with a whole window waiting behind a gap.
  ghost predicate Gentle(order: seq<nat>, n: nat, window: nat) {
    && |order| == n && n > 0 && order[0] == 0
    && (forall i :: 0 <= i < n ==> order[i] < n) && (forall m: nat :: m < n ==> m in order)
    && (forall i, k :: 0 <= i < k < n ==> order[i] != order[k])
    && (forall i :: 0 < i < n ==> InTime(order, i, n, window))
  }

  predicate InTime(order: seq<nat>, i: nat, n: nat, window: nat)
    requires i < |order|
  {
    var e := Gap(Got(order, i), 0, n);
    order[i] - e <= Reach(window) && (order[i] == e || i + 1 - e < window)
  }

  // A held-back number k stands for the place Ahead(k) beyond e ...
  predicate KeyMirrors(s: State, run: seq<Packet>, got: set<nat>, e: nat, k: Uint16)
    requires k in s.pending
  {
    var m := e + Ahead(k, s.expected);
    m in got && m < |run| && m - e < 0x8000 && s.pending[k] == run[m]
  }

  // ... and every place from e on that has arrived is held back under its number.
  predicate PlaceMirrors(s: State, e: nat, m: nat)
    requires e <= m
  {
    m - e < 0x8000 && Forward(s.expected, m - e) in s.pending
  }

  // The sequencer's state mirrors the places that have arrived from place e on.
  ghost predicate Mirrors(s: State, run: seq<Packet>, got: set<nat>, e: nat) {
    && s.initialized && IsRun(run) && s.ssrc == run[0].ssrc
    && s.expected == Forward(run[0].sequence, e)
    && (forall k {:trigger KeyMirrors(s, run, got, e, k)} :: k in s.pending ==> KeyMirrors(s, run, got, e, k))
    && (forall m {:trigger PlaceMirrors(s, e, m)} :: m in got && m >= e ==> PlaceMirrors(s, e, m))
  }

  lemma ForwardAdds(n: Uint16, i: nat, j: nat)
    ensures Forward(Forward(n, i), j) == Forward(n, i + j)
  {
  }

  lemma ForwardAhead(from: Uint16, to: Uint16)
    ensures Forward(from, Ahead(to, from)) == to
  {
  }

  lemma KeyNumber(s: State, run: seq<Packet>, got: set<nat>, e: nat, k: Uint16)
    requires Mirrors(s, run, got, e) && k in s.pending
    ensures Ahead(k, s.expected) <= 0x7FFF && s.pending[k].sequence == k && s.pending[k].ssrc == s.ssrc
  {
    hide Forward, Ahead;
    assert KeyMirrors(s, run, got, e, k);
    var m := e + Ahead(k, s.expected);
    assert IsPlace(run, m);
    ForwardAdds(run[0].sequence, e, m - e);
    ForwardAhead(s.expected, k);
  }

  lemma MirrorWithin(s: State, run: seq<Packet>, got: set<nat>, e: nat)
    requires Mirrors(s, run, got, e)
    ensures Within(s, 0x7FFF)
  {
    hide Forward, Ahead, Mirrors;
    forall k | k in s.pending
      ensures Ahead(k, s.expected) <= 0x7FFF && s.pending[k].sequence == k && s.pending[k].ssrc == s.ssrc
    {
      KeyNumber(s, run, got, e, k);
    }
  }

  lemma MirrorHead(s: State, run: seq<Packet>, got: set<nat>, e: nat)
    requires Mirrors(s, run, got, e)
    ensures s.expected in s.pending <==> e in got
    ensures e in got ==> e < |run| && s.pending[s.expected] == run[e]
  {
    hide Forward, IsRun;
    ForwardBump(s.expected, 0);
    if s.expected in s.pending {
      assert KeyMirrors(s, run, got, e, s.expected);
    }
    if e in got {
      assert PlaceMirrors(s, e, e);
    }
  }

  lemma MirrorDrainOne(s: State, run: seq<Packet>, got: set<nat>, e: nat)
    requires Mirrors(s, run, got, e) && e in got
    ensures s.expected in s.pending && Mirrors(DrainOne(s), run, got, e + 1)
  {
    MirrorHead(s, run, got, e);
    hide Forward, IsRun, Bump, Ahead;
    var t := DrainOne(s);
    ForwardBump(run[0].sequence, e);
    forall k | k in t.pending ensures KeyMirrors(t, run, got, e + 1, k) {
      assert KeyMirrors(s, run, got, e, k);
      OneCloser(k, s.expected);
    }
    forall m | m in got && m >= e + 1 ensures PlaceMirrors(t, e + 1, m) {
      assert PlaceMirrors(s, e, m);
      ForwardBump(s.expected, m - e - 1);
      ForwardBump(s.expected, m - e);
      NotItself(s.expected, m - e);
    }
  }

  lemma NotItself(n: Uint16, j: nat)
    requires 0 < j < 0x8000
    ensures Forward(n, j) != n
  {
  }

  // drain emits exactly the run from the expected place up to the first gap.
  lemma {:induction false} DrainEmitsRun(s: State, run: seq<Packet>, got: set<nat>, e: nat)
    requires Mirrors(s, run, got, e) && e <= |run|
    ensures var gap := Gap(got, e, |run|);
            && gap <= |run| && Drained(s) == run[e..gap]
            && Mirrors(AfterDrain(s), run, got, gap)
    decreases |s.pending|
  {
    hide Mirrors;
    MirrorHead(s, run, got, e);
    if e in got {
      MirrorDrainOne(s, run, got, e);
      DrainEmitsRun(DrainOne(s), run, got, e + 1);
    } else {
      assert run[e..e] == [];
    }
  }

  lemma PlaceNumber(s: State, run: seq<Packet>, got: set<nat>, e: nat, m: nat)
    requires Mirrors(s, run, got, e) && e <= m < |run| && m - e < 0x8000
    ensures run[m].sequence == Forward(s.expected, m - e) && Ahead(run[m].sequence, s.expected) == m - e
    ensures run[m].ssrc == s.ssrc
    ensures m !in got ==> run[m].sequence !in s.pending
  {
    hide Forward, Ahead;
    assert IsPlace(run, m);
    ForwardAdds(run[0].sequence, e, m - e);
    ForwardBump(s.expected, m - e);
    if run[m].sequence in s.pending {
      assert KeyMirrors(s, run, got, e, run[m].sequence);
    }
  }

  lemma MirrorAdd(s: State, run: seq<Packet>, got: set<nat>, e: nat, m: nat)
    requires Mirrors(s, run, got, e) && e <= m < |run| && m - e < 0x8000
    ensures Mirrors(s.(pending := s.pending[run[m].sequence := run[m]]), run, got + {m}, e)
  {
    PlaceNumber(s, run, got, e, m);
    var k := run[m].sequence;
    var t := s.(pending := s.pending[k := run[m]]);
    hide Forward, Ahead, IsRun;
    forall x | x in t.pending ensures KeyMirrors(t, run, got + {m}, e, x) {
      if x != k {
        assert KeyMirrors(s, run, got, e, x);
      }
    }
    forall p | p in got + {m} && p >= e ensures PlaceMirrors(t, e, p) {
      if p != m {
        assert PlaceMirrors(s, e, p);
      }
    }
  }

  // One arrival: the packet either fills the gap and releases the run behind it, or waits.
  lemma GentleStep(s: State, window: nat, run: seq<Packet>, got: set<nat>, e: nat, m: nat)
    requires Inv(s, window) && Mirrors(s, run, got, e) && e <= |run|
    requires m !in got && e <= m < |run| && m - e <= Reach(window)
    requires m == e || |s.pending| + 1 < window
    ensures var (t, out) := Pushed(s, window, run[m]);
            var gap := Gap(got + {m}, e, |run|);
            && gap <= |run| && out == Marked(run[e..gap], false)
            && Mirrors(t, run, got + {m}, gap)
            && |t.pending| == |s.pending| + 1 - (gap - e)
  {
    hide Inv, Mirrors, IsRun, Reach, Placed, ToInt16, Gap;
    Ready(s, window, run, got, e, m);
    PushedWithinReach(s, window, run[m]);
    if m == e {
      ExpectedArrives(s, window, run, got, e);
    } else {
      HeldBack(s, window, run, got, e, m);
    }
  }

  // The packet at place m is new to the sequencer and within its reach.
  lemma Ready(s: State, window: nat, run: seq<Packet>, got: set<nat>, e: nat, m: nat)
    requires Inv(s, window) && Mirrors(s, run, got, e)
    requires m !in got && e <= m < |run| && m - e <= Reach(window)
    ensures s.initialized && run[m].ssrc == s.ssrc && run[m].sequence !in s.pending && s.expected !in s.pending
    ensures 0 <= ToInt16(run[m].sequence - s.expected) <= Reach(window) < 0x8000
    ensures m == e <==> run[m].sequence == s.expected
  {
    hide Inv;
    ReachBound(window);
    PlaceNumber(s, run, got, e, m);
    SignedDistance(run[m].sequence, s.expected);
    ExpectedGap(s, window);
  }

  lemma ExpectedGap(s: State, window: nat)
    requires Inv(s, window)
    ensures s.expected !in s.pending
  {
  }

  lemma OneMore(s: State, p: Packet)
    requires p.sequence !in s.pending
    ensures |s.(pending := s.pending[p.sequence := p]).pending| == |s.pending| + 1
  {
    assert s.pending[p.sequence := p].Keys == s.pending.Keys + {p.sequence};
  }

  lemma ExpectedArrives(s: State, window: nat, run: seq<Packet>, got: set<nat>, e: nat)
    requires Mirrors(s, run, got, e) && e < |run| && e !in got && run[e].sequence == s.expected
    requires run[e].sequence !in s.pending
    ensures var (t, out) := Placed(s, window, run[e]);
            var gap := Gap(got + {e}, e, |run|);
            && gap <= |run| && out == Marked(run[e..gap], false)
            && Mirrors(t, run, got + {e}, gap)
            && |t.pending| == |s.pending| + 1 - (gap - e)
  {
    hide Mirrors, Gap, Ahead, Forward;
    OneMore(s, run[e]);
    MirrorAdd(s, run, got, e, e);
    var u := s.(pending := s.pending[run[e].sequence := run[e]]);
    MirrorWithin(u, run, got + {e}, e);
    DrainEmitsRun(u, run, got + {e}, e);
    DrainFacts(u, 0x7FFF);
  }

  lemma HeldBack(s: State, window: nat, run: seq<Packet>, got: set<nat>, e: nat, m: nat)
    requires Mirrors(s, run, got, e) && e < m < |run| && m - e < 0x8000 && m !in got
    requires run[m].sequence !in s.pending && run[m].sequence != s.expected && s.expected !in s.pending
    requires |s.pending| + 1 < window
    ensures var (t, out) := Placed(s, window, run[m]);
            && Gap(got + {m}, e, |run|) == e && out == Marked(run[e..e], false)
            && Mirrors(t, run, got + {m}, e)
            && |t.pending| == |s.pending| + 1
  {
    MirrorHead(s, run, got, e);
    hide Mirrors;
    OneMore(s, run[m]);
    MirrorAdd(s, run, got, e, m);
    assert run[e..e] == [] && Marked([], false) == [];
  }

  function Feed(run: seq<Packet>, order: seq<nat>): seq<Event>
    requires forall i :: 0 <= i < |order| ==> order[i] < |run|
  {
    seq(|order|, i requires 0 <= i < |order| => Arrive(run[order[i]]))
  }

  lemma MarkedJoin(a: seq<Packet>, b: seq<Packet>)
    requires a != []
    ensures Marked(a, true) + Marked(b, false) == Marked(a + b, true)
  {
  }

  // The first arrival resets the sequencer to the start of the run.
  lemma FirstArrival(window: nat, run: seq<Packet>, s: State)
    requires window >= 1 && IsRun(run) && !s.initialized
    ensures var (t, out) := Pushed(s, window, run[0]);
            && out == Marked(run[..1], true) && t.pending == map[]
            && Mirrors(t, run, {0}, 1)
  {
    ResetInv(s, window, run[0]);
    ForwardBump(run[0].sequence, 0);
    assert run[..1] == [run[0]];
    assert Marked(run[..1], true) == [Sequenced(run[0], true)];
  }

  // After i arrivals: everything up to the first gap is out, the rest is held back.
  ghost predicate Restored(s: State, out: seq<Sequenced>, run: seq<Packet>, got: set<nat>, i: nat) {
    var e := Gap(got, 0, |run|);
    && 1 <= e <= |run| && Mirrors(s, run, got, e)
    && out == Marked(run[..e], true) && |s.pending| == i - e
  }

  lemma NextArrival(s: State, out: seq<Sequenced>, window: nat, run: seq<Packet>, got: set<nat>, i: nat, m: nat)
    requires Inv(s, window) && Restored(s, out, run, got, i)
    requires m < |run| && m !in got
    requires var e := Gap(got, 0, |run|); m - e <= Reach(window) && (m == e || i + 1 - e < window)
    ensures var (t, more) := Pushed(s, window, run[m]); Restored(t, out + more, run, got + {m}, i + 1)
  {
    hide Inv, Mirrors, Pushed, Reach, Gap, Marked;
    var e := Gap(got, 0, |run|);
    GentleStep(s, window, run, got, e, m);
    GapIs(got + {m}, |run|, 0, e);
    var gap := Gap(got + {m}, e, |run|);
    MarkedJoin(run[..e], run[e..gap]);
    assert run[..e] + run[e..gap] == run[..gap];
  }

  // The first of the run always arrives first.
  lemma OneArrived(window: nat, run: seq<Packet>, order: seq<nat>)
    requires window >= 1 && IsRun(run) && |order| >= 1 && order[0] == 0
    requires forall i :: 0 <= i < |order| ==> order[i] < |run|
    ensures var (s, out) := Run(window, Feed(run, order)[..1]);
            Restored(s, out, run, Got(order, 1), 1)
  {
    var events := Feed(run, order)[..1];
    assert events[..0] == [] && events[0] == Arrive(run[0]);
    var s := Run(window, []).0;
    hide IsRun, Mirrors, Pushed;
    assert Got(order, 1) == {0};
    FirstArrival(window, run, s);
    GapIs({0}, |run|, 0, 1);
    assert [] + Marked(run[..1], true) == Marked(run[..1], true);
  }

  lemma {:induction false} AfterArrivals(window: nat, run: seq<Packet>, order: seq<nat>, i: nat)
    requires window >= 1 && IsRun(run) && Gentle(order, |run|, window) && 1 <= i <= |order|
    ensures var (s, out) := Run(window, Feed(run, order)[..i]);
            Inv(s, window) && Restored(s, out, run, Got(order, i), i)
  {
    hide Inv, Mirrors, IsRun, Pushed, InOrder, Restored;
    var events := Feed(run, order)[..i];
    assert events[..i - 1] == Feed(run, order)[..i - 1] && events[i - 1] == Arrive(run[order[i - 1]]);
    EmittedInOrder(window, events);
    if i == 1 {
      OneArrived(window, run, order);
    } else {
      assert Got(order, i) == Got(order, i - 1) + {order[i - 1]};
      var (s, out) := Run(window, events[..i - 1]);
      assert InTime(order, i - 1, |run|, window);
      assert order[i - 1] !in Got(order, i - 1);
      AfterArrivals(window, run, order, i - 1);
      NextArrival(s, out, window, run, Got(order, i - 1), i - 1, order[i - 1]);
    }
  }

  // Whatever the gentle reordering, the whole run comes out once, in order, the first packet
  // marking the start of a new timeline.
  lemma OrderRestored(window: nat, run: seq<Packet>, order: seq<nat>)
    requires window >= 1 && IsRun(run) && Gentle(order, |run|, window)
    ensures Run(window, Feed(run, order)).1 == Marked(run, true)
  {
    assert Feed(run, order)[..|order|] == Feed(run, order);
    EveryPlaceArrived(order, |run|, window);
    hide Gentle, Inv, IsRun, Mirrors;
    AfterArrivals(window, run, order, |order|);
    var e := Gap(Got(order, |order|), 0, |run|);
    assert run[..e] == run;
  }

  lemma EveryPlaceArrived(order: seq<nat>, n: nat, window: nat)
    requires Gentle(order, n, window)
    ensures |order| == n && Gap(Got(order, n), 0, n) == n
  {
    var e := Gap(Got(order, n), 0, n);
    forall m: nat | m < n ensures m in Got(order, n) {
      assert m in order;
      var i :| 0 <= i < |order| && order[i] == m;
      assert order[i] in Got(order, n);
    }
  }
}
