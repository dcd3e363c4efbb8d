/** The RTP reorder window of internal/media/talkback_audio.go: sixteen-bit sequence numbers put
    back into one increasing order. */
module Sequencer {
  import opened GoNumbers

  // The payload stands for everything the sequencer does not look at.
  datatype Packet = Packet(ssrc: Uint32, sequence: Uint16, timestamp: Uint32, payload: seq<Byte>)

  datatype Sequenced = Sequenced(packet: Packet, reset: bool)

  datatype State = State(initialized: bool, ssrc: Uint32, expected: Uint16, pending: map<Uint16, Packet>)

  // How far a number lies ahead of the expected one, counted forward around the circle.
  function Ahead(number: Uint16, expected: Uint16): (d: nat)
    ensures d < 0x1_0000 && (d == 0 <==> number == expected)
  {
    if number >= expected then number - expected else number - expected + 0x1_0000
  }

  // The largest jump Push accepts without a reset: int16(window*8).
  function Reach(window: nat): int {
    ToInt16(window * 8)
  }

  // expected++
  function Bump(n: Uint16): Uint16 {
    if n == 0xFFFF then 0 else n + 1
  }

  // The number j places further on, around the circle.
  function Forward(n: Uint16, j: nat): (m: Uint16)
    ensures j == 0 ==> m == n
  {
    ToUint16(n + j)
  }

  lemma ForwardBump(n: Uint16, j: nat)
    ensures Forward(Bump(n), j) == Forward(n, j + 1) == Bump(Forward(n, j))
    ensures j < 0x1_0000 ==> Ahead(Forward(n, j), n) == j
  {
    hide Ahead;
    AheadOfForward(n, j);
  }

  lemma AheadOfForward(n: Uint16, j: nat)
    ensures j < 0x1_0000 ==> Ahead(Forward(n, j), n) == j
  {
  }

  // drain: the run of pending packets that starts at the expected number.
  function Drained(s: State): seq<Packet>
    decreases |s.pending|
  {
    if s.expected !in s.pending then []
    else [s.pending[s.expected]] + Drained(DrainOne(s))
  }

  function DrainOne(s: State): (t: State)
    requires s.expected in s.pending
    ensures |t.pending| < |s.pending|
  {
    assert (s.pending - {s.expected}).Keys == s.pending.Keys - {s.expected};
    s.(pending := s.pending - {s.expected}, expected := Bump(s.expected))
  }

  function AfterDrain(s: State): State
    decreases |s.pending|
  {
    if s.expected !in s.pending then s else AfterDrain(DrainOne(s))
  }

  function Marked(packets: seq<Packet>, resetFirst: bool): seq<Sequenced> {
    seq(|packets|, i requires 0 <= i < |packets| => Sequenced(packets[i], resetFirst && i == 0))
  }

  function Emit(s: State, resetFirst: bool): (State, seq<Sequenced>) {
    (AfterDrain(s), Marked(Drained(s), resetFirst))
  }

  function ResetAt(s: State, p: Packet): (State, seq<Sequenced>) {
    Emit(State(true, p.ssrc, p.sequence, map[p.sequence := p]), true)
  }

  /* drain */

  // Everything pending lies between the expected number and `reach` past it.
  ghost predicate Within(s: State, reach: int) {
    forall n :: n in s.pending ==>
      Ahead(n, s.expected) <= reach && s.pending[n].sequence == n && s.pending[n].ssrc == s.ssrc
  }

  lemma OneCloser(n: Uint16, expected: Uint16)
    requires n != expected
    ensures Ahead(n, Bump(expected)) == Ahead(n, expected) - 1
  {
  }

  // drain emits consecutive numbers from the expected one and stops at the first gap.
  lemma {:induction false} DrainFacts(s: State, reach: int)
    requires Within(s, reach)
    ensures var out, t := Drained(s), AfterDrain(s);
            && t.initialized == s.initialized && t.ssrc == s.ssrc
            && t.expected == Forward(s.expected, |out|)
            && t.expected !in t.pending && Within(t, reach - |out|)
            && |t.pending| + |out| == |s.pending|
            && (forall n :: n in t.pending ==> n in s.pending && t.pending[n] == s.pending[n])
    decreases |s.pending|
  {
    hide Forward;
    if s.expected in s.pending {
      var u := DrainOne(s);
      assert (s.pending - {s.expected}).Keys == s.pending.Keys - {s.expected};
      forall n | n in u.pending ensures Ahead(n, u.expected) <= reach - 1 {
        OneCloser(n, s.expected);
      }
      hide Ahead, Bump;
      DrainFacts(u, reach - 1);
      ForwardBump(s.expected, |Drained(u)|);
    } else {
      ForwardBump(s.expected, 0);
    }
  }

  lemma {:induction false} DrainNumbers(s: State, reach: int, j: nat)
    requires Within(s, reach) && j < |Drained(s)|
    ensures var p := Drained(s)[j];
            p.sequence == Forward(s.expected, j) && p.ssrc == s.ssrc
            && p.sequence in s.pending && s.pending[p.sequence] == p
    decreases j
  {
    hide Forward;
    ForwardBump(s.expected, 0);
    if j > 0 {
      var u := DrainOne(s);
      forall n | n in u.pending ensures Ahead(n, u.expected) <= reach {
        OneCloser(n, s.expected);
      }
      hide Ahead, Bump;
      DrainNumbers(u, reach, j - 1);
      assert Drained(s)[j] == Drained(u)[j - 1];
      ForwardBump(s.expected, j - 1);
    }
  }

  /* The invariant between calls. */

  // Everything held back lies ahead of the expected packet, within reach, and there is less than a
  // window of it.
  ghost predicate Inv(s: State, window: nat) {
    && window >= 1
    && (s.pending != map[] ==> s.initialized)
    && Within(s, Reach(window)) && s.expected !in s.pending
    && |s.pending| < window
  }

  // The pending number nearest ahead of the expected one.
  ghost predicate Nearest(s: State, best: Uint16) {
    best in s.pending && forall n :: n in s.pending ==> Ahead(best, s.expected) <= Ahead(n, s.expected)
  }

  lemma NearestIsUnique(s: State, a: Uint16, b: Uint16)
    requires Nearest(s, a) && Nearest(s, b)
    ensures a == b
  {
    assert Ahead(a, s.expected) == Ahead(b, s.expected);
  }

  lemma {:induction false} NearestExists(s: State, among: set<Uint16>) returns (best: Uint16)
    requires among != {}
    ensures best in among && forall m :: m in among ==> Ahead(best, s.expected) <= Ahead(m, s.expected)
    decreases among
  {
    hide Ahead;
    var x :| x in among;
    best := x;
    if among != {x} {
      var y := NearestExists(s, among - {x});
      best := if Ahead(x, s.expected) < Ahead(y, s.expected) then x else y;
      forall m | m in among ensures Ahead(best, s.expected) <= Ahead(m, s.expected) {
        assert m == x || m in among - {x};
      }
    }
  }

  ghost function NearestOf(s: State): (best: Uint16)
    requires s.pending != map[]
    ensures Nearest(s, best)
  {
    SomeNearest(s);
    var best :| Nearest(s, best);
    best
  }

  lemma SomeNearest(s: State)
    requires s.pending != map[]
    ensures exists best :: Nearest(s, best)
  {
    assert s.pending.Keys != {};
    var best := NearestExists(s, s.pending.Keys);
    assert Nearest(s, best);
  }

  // FlushGap: give up on the missing packets in front of the nearest one.
  ghost function Flushed(s: State): (State, seq<Sequenced>) {
    if !s.initialized || s.pending == map[] then (s, [])
    else Emit(s.(expected := NearestOf(s)), false)
  }

  ghost function Pushed(s: State, window: nat, p: Packet): (State, seq<Sequenced>) {
    if !s.initialized || p.ssrc != s.ssrc then ResetAt(s, p)
    else if p.sequence in s.pending then (s, [])
    else
      var diff := ToInt16(p.sequence - s.expected);
      if diff < 0 then (s, [])
      else if diff > Reach(window) then ResetAt(s, p)
      else
        var t := s.(pending := s.pending[p.sequence := p]);
        if diff == 0 then Emit(t, false)
        else if |t.pending| >= window then Flushed(t)
        else (t, [])
  }

  /* What one call emits. */

  // Consecutive packets of one stream, except that a reset may start over anywhere.
  ghost predicate Follows(from: Sequenced, to: Sequenced, reach: int) {
    to.reset || (to.packet.ssrc == from.packet.ssrc && 1 <= Ahead(to.packet.sequence, from.packet.sequence) <= reach + 1)
  }

  ghost predicate InOrder(out: seq<Sequenced>, reach: int) {
    forall i :: 0 < i < |out| ==> Follows(out[i - 1], out[i], reach)
  }

  // A call's output continues the stream whose next expected number was s.expected, and leaves the
  // state expecting the number after its last packet.
  ghost predicate Continues(s: State, t: State, out: seq<Sequenced>, reach: int) {
    && InOrder(out, reach)
    && (out == [] ==> t.expected == s.expected && t.ssrc == s.ssrc && t.initialized == s.initialized)
    && (out != [] ==>
          && t.initialized
          && (out[0].reset || (s.initialized && out[0].packet.ssrc == s.ssrc
                               && Ahead(out[0].packet.sequence, s.expected) <= reach))
          && t.expected == Bump(out[|out| - 1].packet.sequence) && t.ssrc == out[|out| - 1].packet.ssrc)
  }

  lemma DrainInOrder(s: State, resetFirst: bool, reach: int, i: nat)
    requires Within(s, reach) && 0 <= reach && 0 < i < |Drained(s)|
    ensures Follows(Marked(Drained(s), resetFirst)[i - 1], Marked(Drained(s), resetFirst)[i], reach)
  {
    hide Ahead, Forward, Bump;
    DrainNumbers(s, reach, i);
    DrainNumbers(s, reach, i - 1);
    ForwardBump(s.expected, i - 1);
    ForwardBump(Drained(s)[i - 1].sequence, 1);
    ForwardBump(Drained(s)[i - 1].sequence, 0);
  }

  lemma EmitContinues(s: State, resetFirst: bool, reach: int)
    requires Within(s, reach) && 0 <= reach < 0x8000 && s.initialized && s.expected in s.pending
    ensures var (t, out) := Emit(s, resetFirst);
            && out != [] && InOrder(out, reach) && t.initialized && t.ssrc == s.ssrc
            && out[0] == Sequenced(s.pending[s.expected], resetFirst)
            && t.expected == Bump(out[|out| - 1].packet.sequence) && out[|out| - 1].packet.ssrc == s.ssrc
            && Within(t, reach - |out|) && t.expected !in t.pending && |t.pending| < |s.pending|
  {
    assert Drained(s)[0] == s.pending[s.expected];
    hide Ahead, Forward, Bump, Drained, AfterDrain, Follows, Within;
    DrainFacts(s, reach);
    var (t, out) := Emit(s, resetFirst);
    forall i | 0 < i < |out| ensures Follows(out[i - 1], out[i], reach) {
      DrainInOrder(s, resetFirst, reach, i);
    }
    DrainNumbers(s, reach, |out| - 1);
    ForwardBump(s.expected, |out| - 1);
  }

  lemma ResetInv(s: State, window: nat, p: Packet)
    requires window >= 1
    ensures var (t, out) := ResetAt(s, p);
            && Inv(t, window) && Continues(s, t, out, Max(Reach(window), 0)) && out == [Sequenced(p, true)]
            && t == State(true, p.ssrc, Bump(p.sequence), map[])
  {
    var u := State(true, p.ssrc, p.sequence, map[p.sequence := p]);
    EmitContinues(u, true, 0);
    var (t, out) := ResetAt(s, p);
    assert t.pending == map[] by {
      assert |u.pending| == 1;
    }
    DrainFacts(u, 0);
    assert |out| == 1;
  }

  lemma FlushInv(s: State, window: nat)
    requires window >= 1 && s.initialized && s.pending != map[]
    requires Within(s, Reach(window)) && s.expected !in s.pending && |s.pending| <= window
    ensures var (t, out) := Flushed(s);
            Inv(t, window) && Continues(s, t, out, Reach(window)) && out != []
  {
    var best := NearestOf(s);
    var u := s.(expected := best);
    var skip := Ahead(best, s.expected);
    forall n | n in u.pending ensures Ahead(n, best) <= Reach(window) - skip {
      assert Ahead(best, s.expected) <= Ahead(n, s.expected);
    }
    assert Within(u, Reach(window));
    EmitContinues(u, false, Reach(window));
  }

  // int16(number - expected) is the distance ahead, or negative for the far half of the circle.
  lemma SignedDistance(number: Uint16, expected: Uint16)
    ensures var diff := ToInt16(number - expected);
            if Ahead(number, expected) < 0x8000 then diff == Ahead(number, expected) else diff < 0
  {
  }

  lemma Inserted(s: State, p: Packet, reach: int)
    requires Within(s, reach) && Ahead(p.sequence, s.expected) <= reach
    requires p.sequence !in s.pending && p.ssrc == s.ssrc
    ensures var t := s.(pending := s.pending[p.sequence := p]);
            Within(t, reach) && |t.pending| == |s.pending| + 1
  {
    assert s.pending[p.sequence := p].Keys == s.pending.Keys + {p.sequence};
  }

  lemma WithinMore(s: State, reach: int, more: int)
    requires Within(s, reach) && reach <= more
    ensures Within(s, more)
  {
  }

  // The expected packet arrives.
  lemma EmitInv(s: State, t: State, window: nat)
    requires s.initialized && t == s.(pending := t.pending) && s.expected in t.pending
    requires window >= 1 && Reach(window) >= 0 && Within(t, Reach(window)) && |t.pending| <= window
    ensures var (u, out) := Emit(t, false);
            Inv(u, window) && Continues(s, u, out, Reach(window))
  {
    ReachBound(window);
    hide Ahead, Bump, ToInt16, Emit, Within, InOrder, Reach;
    EmitContinues(t, false, Reach(window));
    var (u, out) := Emit(t, false);
    WithinMore(u, Reach(window) - |out|, Reach(window));
    Expected(t, Reach(window));
  }

  lemma ReachBound(window: nat)
    ensures Reach(window) < 0x8000
  {
  }

  lemma Expected(s: State, reach: int)
    requires Within(s, reach) && s.expected in s.pending
    ensures Ahead(s.pending[s.expected].sequence, s.expected) == 0 && s.pending[s.expected].ssrc == s.ssrc
  {
  }

  lemma ContinuesFrom(s: State, t: State, u: State, out: seq<Sequenced>, reach: int)
    requires Continues(t, u, out, reach) && t == s.(pending := t.pending)
    ensures Continues(s, u, out, reach)
  {
  }

  // What becomes of a packet within reach.
  ghost function Placed(s: State, window: nat, p: Packet): (State, seq<Sequenced>) {
    var t := s.(pending := s.pending[p.sequence := p]);
    if p.sequence == s.expected then Emit(t, false) else if |t.pending| >= window then Flushed(t) else (t, [])
  }

  lemma PushedWithinReach(s: State, window: nat, p: Packet)
    requires s.initialized && p.ssrc == s.ssrc && p.sequence !in s.pending
    requires 0 <= ToInt16(p.sequence - s.expected) <= Reach(window)
    ensures Pushed(s, window, p) == Placed(s, window, p)
  {
    SignedDistance(p.sequence, s.expected);
    hide Emit, Flushed, Reach;
  }

  lemma PlacedInv(s: State, window: nat, p: Packet)
    requires Inv(s, window) && s.initialized && p.ssrc == s.ssrc && p.sequence !in s.pending
    requires Ahead(p.sequence, s.expected) <= Reach(window)
    ensures var (t, out) := Placed(s, window, p);
            Inv(t, window) && Continues(s, t, out, Max(Reach(window), 0))
  {
    assert 0 <= Reach(window);
    ReachBound(window);
    Inserted(s, p, Reach(window));
    hide Ahead, Emit, Flushed, Within, Reach;
    var t := s.(pending := s.pending[p.sequence := p]);
    if p.sequence == s.expected {
      EmitInv(s, t, window);
    } else if |t.pending| >= window {
      FlushInv(t, window);
      ContinuesFrom(s, t, Flushed(t).0, Flushed(t).1, Reach(window));
    }
  }

  lemma PushInv(s: State, window: nat, p: Packet)
    requires Inv(s, window)
    ensures var (t, out) := Pushed(s, window, p);
            Inv(t, window) && Continues(s, t, out, Max(Reach(window), 0))
  {
    hide Inv, Bump, Emit;
    if !s.initialized || p.ssrc != s.ssrc {
      assert window >= 1 by { InvWindow(s, window); }
      ResetInv(s, window, p);
    } else if p.sequence !in s.pending {
      SignedDistance(p.sequence, s.expected);
      var diff := ToInt16(p.sequence - s.expected);
      if diff > Reach(window) && diff >= 0 {
        InvWindow(s, window);
        ResetInv(s, window, p);
      } else if diff >= 0 {
        PushedWithinReach(s, window, p);
        PlacedInv(s, window, p);
      }
    }
  }

  lemma InvWindow(s: State, window: nat)
    requires Inv(s, window)
    ensures window >= 1
  {
  }

  /* Whole runs: arrivals and read timeouts in any order. */

  datatype Event = Arrive(packet: Packet) | Timeout

  ghost function Step(s: State, window: nat, e: Event): (State, seq<Sequenced>) {
    match e
    case Arrive(p) => Pushed(s, window, p)
    case Timeout => Flushed(s)
  }

  ghost function Run(window: nat, events: seq<Event>): (State, seq<Sequenced>) {
    if events == [] then (State(false, 0, 0, map[]), [])
    else
      var (s, out) := Run(window, events[..|events| - 1]);
      var (t, more) := Step(s, window, events[|events| - 1]);
      (t, out + more)
  }

  lemma StepInv(s: State, window: nat, e: Event)
    requires Inv(s, window)
    ensures var (t, out) := Step(s, window, e);
            Inv(t, window) && Continues(s, t, out, Max(Reach(window), 0))
  {
    if e.Timeout? {
      if s.initialized && s.pending != map[] {
        FlushInv(s, window);
      }
    } else {
      PushInv(s, window, e.packet);
    }
  }

  // Between resets packets come out in strictly increasing order around the circle, each at most
  // 8*window+1 places after the one before; fewer than a window are ever held back between calls,
  // never the expected one.
  lemma {:induction false} EmittedInOrder(window: nat, events: seq<Event>)
    requires window >= 1
    ensures var (s, out) := Run(window, events);
            && Inv(s, window)
            && InOrder(out, Max(Reach(window), 0))
            && (s.initialized <==> out != [])
            && (out != [] ==> out[0].reset && s.expected == Bump(out[|out| - 1].packet.sequence)
                              && s.ssrc == out[|out| - 1].packet.ssrc)
  {
    if events == [] {
    } else {
      var reach := Max(Reach(window), 0);
      var front, e := events[..|events| - 1], events[|events| - 1];
      EmittedInOrder(window, front);
      hide Inv, Step, Reach;
      var (s, out) := Run(window, front);
      StepInv(s, window, e);
      var (t, more) := Step(s, window, e);
      if out != [] && more != [] {
        JoinInOrder(s, out, more, reach);
      } else {
        assert out + more == if out == [] then more else out;
      }
    }
  }

  lemma JoinInOrder(s: State, out: seq<Sequenced>, more: seq<Sequenced>, reach: nat)
    requires reach < 0x8000
    requires out != [] && more != [] && InOrder(out, reach) && InOrder(more, reach)
    requires s.expected == Bump(out[|out| - 1].packet.sequence) && s.ssrc == out[|out| - 1].packet.ssrc
    requires more[0].reset || (more[0].packet.ssrc == s.ssrc && Ahead(more[0].packet.sequence, s.expected) <= reach)
    ensures InOrder(out + more, reach)
  {
    var both := out + more;
    forall i | 0 < i < |both| ensures Follows(both[i - 1], both[i], reach) {
      if i < |out| {
        assert Follows(out[i - 1], out[i], reach);
      } else if i > |out| {
        assert Follows(more[i - |out| - 1], more[i - |out|], reach);
      }
    }
  }

  function Packets(out: seq<Sequenced>): (packets: seq<Packet>)
    ensures |packets| == |out|
  {
    seq(|out|, i requires 0 <= i < |out| => out[i].packet)
  }

  function Arrivals(events: seq<Event>): seq<Packet> {
    if events == [] then []
    else
      var e := events[|events| - 1];
      Arrivals(events[..|events| - 1]) + (if e.Arrive? then [e.packet] else [])
  }

  function Count(packets: seq<Packet>, p: Packet): nat {
    multiset(packets)[p]
  }

  lemma CountJoin(a: seq<Packet>, b: seq<Packet>, p: Packet)
    ensures Count(a + b, p) == Count(a, p) + Count(b, p)
    ensures Count([], p) == 0 && Count([p], p) == 1
    ensures forall q :: q != p ==> Count([q], p) == 0
  {
  }

  // Whether a packet is being held back; its number is the only place it can be.
  function Held(s: State, p: Packet): nat {
    if p.sequence in s.pending && s.pending[p.sequence] == p then 1 else 0
  }

  lemma {:induction false} DrainConserves(s: State, reach: int, p: Packet)
    requires Within(s, reach)
    ensures Count(Drained(s), p) + Held(AfterDrain(s), p) == Held(s, p)
    decreases |s.pending|
  {
    if s.expected in s.pending {
      var u := DrainOne(s);
      forall n | n in u.pending ensures Ahead(n, u.expected) <= reach - 1 {
        OneCloser(n, s.expected);
      }
      hide Ahead, Bump, Count;
      DrainConserves(u, reach - 1, p);
      CountJoin([s.pending[s.expected]], Drained(u), p);
    }
  }

  lemma EmitConserves(s: State, resetFirst: bool, reach: int, p: Packet)
    requires Within(s, reach)
    ensures var (t, out) := Emit(s, resetFirst);
            Count(Packets(out), p) + Held(t, p) == Held(s, p)
  {
    DrainConserves(s, reach, p);
    assert Packets(Emit(s, resetFirst).1) == Drained(s);
  }

  lemma AheadBound(n: Uint16, expected: Uint16)
    ensures Ahead(n, expected) <= 0xFFFF
  {
  }

  // No number is further ahead than the whole circle, whatever is expected.
  lemma AnyDistance(s: State, expected: Uint16, reach: int)
    requires Within(s, reach)
    ensures Within(s.(expected := expected), 0xFFFF)
  {
  }

  lemma FlushConserves(s: State, reach: int, p: Packet)
    requires Within(s, reach)
    ensures var (t, out) := Flushed(s);
            Count(Packets(out), p) + Held(t, p) == Held(s, p)
  {
    if s.initialized && s.pending != map[] {
      var u := s.(expected := NearestOf(s));
      AnyDistance(s, u.expected, reach);
      EmitConserves(u, false, 0xFFFF, p);
    } else {
      assert Packets([]) == [];
    }
  }

  lemma ResetConserves(s: State, q: Packet, p: Packet)
    ensures var (t, out) := ResetAt(s, q);
            Count(Packets(out), p) + Held(t, p) <= Held(s, p) + (if q == p then 1 else 0)
  {
    EmitConserves(State(true, q.ssrc, q.sequence, map[q.sequence := q]), true, 0, p);
  }

  lemma PushConserves(s: State, window: nat, q: Packet, p: Packet)
    requires Inv(s, window)
    ensures var (t, out) := Pushed(s, window, q);
            Count(Packets(out), p) + Held(t, p) <= Held(s, p) + (if q == p then 1 else 0)
  {
    hide Count, Packets, Ahead, Emit, Within, ResetAt, Flushed, Reach, ToInt16;
    NothingAtFirst(p);
    ResetConserves(s, q, p);
    if s.initialized && q.ssrc == s.ssrc && q.sequence !in s.pending {
      var t := s.(pending := s.pending[q.sequence := q]);
      AnyDistance(s, s.expected, Reach(window));
      AheadBound(q.sequence, s.expected);
      Inserted(s, q, 0xFFFF);
      EmitConserves(t, false, 0xFFFF, p);
      FlushConserves(t, 0xFFFF, p);
      assert Held(t, p) == Held(s, p) + (if q == p then 1 else 0);
    }
  }

  lemma StepConserves(s: State, window: nat, e: Event, p: Packet)
    requires Inv(s, window)
    ensures var (t, out) := Step(s, window, e);
            Count(Packets(out), p) + Held(t, p) <= Held(s, p) + (if e == Arrive(p) then 1 else 0)
  {
    if e.Timeout? {
      FlushConserves(s, Reach(window), p);
    } else {
      hide Inv, Pushed;
      PushConserves(s, window, e.packet, p);
    }
  }

  lemma NothingAtFirst(p: Packet)
    ensures Packets([]) == [] && Count([], p) == 0 && Held(State(false, 0, 0, map[]), p) == 0
  {
  }

  // No packet comes out more often than it arrived: what is out or still held back was received,
  // and nothing is emitted twice.
  lemma {:induction false} NothingInvented(window: nat, events: seq<Event>, p: Packet)
    requires window >= 1
    ensures var (s, out) := Run(window, events);
            Count(Packets(out), p) + Held(s, p) <= Count(Arrivals(events), p)
  {
    hide Inv, Step, Held, InOrder, Count;
    if events == [] {
      NothingAtFirst(p);
    } else {
      var front, e := events[..|events| - 1], events[|events| - 1];
      NothingInvented(window, front, p);
      EmittedInOrder(window, front);
      var (s, out) := Run(window, front);
      StepConserves(s, window, e, p);
      var (t, more) := Step(s, window, e);
      assert Packets(out + more) == Packets(out) + Packets(more);
      CountJoin(Packets(out), Packets(more), p);
      CountJoin(Arrivals(front), if e.Arrive? then [e.packet] else [], p);
    }
  }

  // One turn of the loop in drain.
  lemma DrainTurn(packets: seq<Packet>, s: State)
    ensures if s.expected in s.pending then
              && packets + Drained(s) == (packets + [s.pending[s.expected]]) + Drained(DrainOne(s))
              && AfterDrain(s) == AfterDrain(DrainOne(s))
            else packets + Drained(s) == packets && AfterDrain(s) == s
  {
  }

  class RTPSequencer {
    var initialized: bool
    var ssrc: Uint32
    var expected: Uint16
    var pending: map<Uint16, Packet>
    const window: nat

    ghost function Now(): State
      reads this
    {
      State(initialized, ssrc, expected, pending)
    }

    ghost predicate Valid()
      reads this
    {
      Inv(Now(), window)
    }

    // What FlushGap needs: Push calls it with a whole window waiting.
    ghost predicate Flushable()
      reads this
    {
      && window >= 1 && (pending != map[] ==> initialized)
      && Within(Now(), Reach(window)) && expected !in pending && |pending| <= window
    }

    constructor (size: int)
      ensures Valid() && Now() == State(false, 0, 0, map[]) && window == (if size < 1 then 1 else size)
    {
      window := if size < 1 then 1 else size;
      initialized, ssrc, expected, pending := false, 0, 0, map[];
    }

    // `for seq := range q.pending`, in any order: the entry nearest ahead wins.
    method FindNearest() returns (best: Uint16)
      requires Flushable() && pending != map[]
      ensures best == NearestOf(Now())
    {
      ghost var reach := Reach(window);
      var left := pending.Keys;
      assert left != {};
      best :| best in left;
      left := left - {best};
      var bestDiff := ToInt16(best - expected);
      SignedDistance(best, expected);
      while left != {}
        invariant left <= pending.Keys && best in pending && best !in left
        invariant bestDiff == Ahead(best, expected)
        invariant forall n :: n in pending && n !in left ==> bestDiff <= Ahead(n, expected)
        decreases left
      {
        var number :| number in left;
        left := left - {number};
        SignedDistance(number, expected);
        var d := ToInt16(number - expected);
        // d < 0 cannot happen: everything pending lies ahead.
        if d < bestDiff {
          best, bestDiff := number, d;
        }
      }
      assert Nearest(Now(), best);
      NearestIsUnique(Now(), best, NearestOf(Now()));
    }

    method FlushGap() returns (out: seq<Sequenced>)
      requires Flushable()
      modifies this
      ensures (Now(), out) == Flushed(old(Now()))
      ensures Valid()
    {
      if initialized && pending != map[] {
        FlushInv(Now(), window);
      }
      if !initialized || pending == map[] {
        return [];
      }
      var best := FindNearest();
      expected := best;
      out := Drain(false);
    }

    method Drain(resetFirst: bool) returns (out: seq<Sequenced>)
      modifies this`pending, this`expected
      ensures (Now(), out) == Emit(old(Now()), resetFirst)
    {
      hide Drained, AfterDrain, Bump;
      ghost var start := Now();
      var packets: seq<Packet> := [];
      assert packets + Drained(start) == Drained(start);
      while expected in pending
        invariant initialized == old(initialized) && ssrc == old(ssrc)
        invariant packets + Drained(Now()) == Drained(start) && AfterDrain(Now()) == AfterDrain(start)
        decreases |pending|
      {
        DrainTurn(packets, Now());
        assert DrainOne(Now()).pending == pending - {expected};
        packets := packets + [pending[expected]];
        pending := pending - {expected};
        expected := Bump(expected);
      }
      DrainTurn(packets, Now());
      out := Marked(packets, resetFirst);
    }

    method ResetTo(p: Packet) returns (out: seq<Sequenced>)
      modifies this
      ensures (Now(), out) == ResetAt(old(Now()), p)
    {
      ssrc, expected, initialized := p.ssrc, p.sequence, true;
      pending := map[p.sequence := p];
      out := Drain(true);
    }

    method Push(p: Packet) returns (out: seq<Sequenced>)
      requires Valid()
      modifies this
      ensures Valid() && (Now(), out) == Pushed(old(Now()), window, p)
    {
      hide Continues, Emit, ResetAt, Flushed;
      PushInv(Now(), window, p);
      if !initialized || p.ssrc != ssrc {
        out := ResetTo(p);
        return;
      }
      if p.sequence in pending {
        return [];
      }
      var diff := ToInt16(p.sequence - expected);
      if diff < 0 {
        return [];
      }
      if diff > ToInt16(window * 8) {
        out := ResetTo(p);
        return;
      }
      PushedWithinReach(Now(), window, p);
      out := Place(p, diff);
    }

    // A packet within reach: emitted, held back, or the last one to wait for a gap.
    method Place(p: Packet, diff: int) returns (out: seq<Sequenced>)
      requires Valid() && initialized && p.ssrc == ssrc && p.sequence !in pending
      requires diff == ToInt16(p.sequence - expected) && 0 <= diff <= Reach(window)
      modifies this
      ensures (Now(), out) == Placed(old(Now()), window, p)
    {
      SignedDistance(p.sequence, expected);
      hide Emit, ResetAt, Flushed, ToInt16;
      Inserted(Now(), p, Reach(window));
      assert pending[p.sequence := p].Keys == pending.Keys + {p.sequence};
      pending := pending[p.sequence := p];
      if diff == 0 {
        out := Drain(false);
        return;
      }
      if |pending| >= window {
        out := FlushGap();
        return;
      }
      return [];
    }
  }
}
