/** First-answer-wins forking of internal/callcontrol/fork.go: one dial goroutine per leg, the
    caller's receive loop, the drain goroutine and its hang-ups, in every interleaving. */
module Fork {
  import opened Wrappers

  // What a leg's Dial function returned: an error, no dialog, or an established dialog.
  datatype Dialed = Error | NoDialog | Dialog

  datatype Leg = Dialing | Returned(result: Dialed) | Sent(result: Dialed)

  datatype Caller = Racing(remaining: nat) | Won(leg: nat) | GaveUp | AllFailed

  // drainLosingDialogs: receiving, in hangups.Wait, LosersDone closed.
  datatype Drain = NotStarted | Draining(remaining: nat) | Awaiting | Closed

  datatype State = State(
    legs: seq<Leg>,
    results: seq<nat>,        // the buffered channel, capacity |legs|
    failures: seq<nat>,
    caller: Caller,
    drain: Drain,
    canceled: bool,           // the shared dialing context
    taken: multiset<nat>,     // results received so far
    hangups: multiset<nat>,   // Hangup calls made so far
    running: set<nat>)        // Hangup calls that have not returned

  datatype Event =
    | DialReturns(leg: nat, result: Dialed) | Send(leg: nat)
    | Receive | ContextDone
    | DrainReceive | DrainEnds | HangupReturns(leg: nat) | CloseLosersDone

  function Start(n: nat): State {
    State(seq(n, _ => Dialing), [], [], Racing(n), NotStarted, false, multiset{}, multiset{}, {})
  }

  function Receives(s: State): Option<State> {
    if !s.caller.Racing? || s.caller.remaining == 0 || s.results == [] || s.results[0] >= |s.legs| then None
    else
      var leg := s.results[0];
      var left := s.caller.remaining - 1;
      var t := s.(results := s.results[1..], taken := s.taken + multiset{leg});
      if s.legs[leg] != Sent(Dialog) then
        Some(if left == 0 then t.(failures := s.failures + [leg], caller := AllFailed, canceled := true)
             else t.(failures := s.failures + [leg], caller := Racing(left)))
      else Some(t.(caller := Won(leg), drain := Draining(left), canceled := true))
  }

  function Drains(s: State): Option<State> {
    if !s.drain.Draining? || s.drain.remaining == 0 || s.results == [] || s.results[0] >= |s.legs| then None
    else
      var leg := s.results[0];
      var t := s.(results := s.results[1..], taken := s.taken + multiset{leg}, drain := Draining(s.drain.remaining - 1));
      Some(if s.legs[leg] != Sent(Dialog) then t
           else t.(hangups := s.hangups + multiset{leg}, running := s.running + {leg}))
  }

  function Next(s: State, e: Event): Option<State> {
    match e
    case DialReturns(i, r) =>
      if i >= |s.legs| || s.legs[i] != Dialing then None else Some(s.(legs := s.legs[i := Returned(r)]))
    case Send(i) =>
      if i >= |s.legs| || !s.legs[i].Returned? || |s.results| >= |s.legs| then None
      else Some(s.(legs := s.legs[i := Sent(s.legs[i].result)], results := s.results + [i]))
    case Receive => Receives(s)
    case ContextDone =>
      if !s.caller.Racing? then None
      else Some(s.(caller := GaveUp, drain := Draining(s.caller.remaining), canceled := true))
    case DrainReceive => Drains(s)
    case DrainEnds => if s.drain != Draining(0) then None else Some(s.(drain := Awaiting))
    case HangupReturns(i) => if i !in s.running then None else Some(s.(running := s.running - {i}))
    case CloseLosersDone => if s.drain != Awaiting || s.running != {} then None else Some(s.(drain := Closed))
  }

  function Run(n: nat, events: seq<Event>): Option<State> {
    if events == [] then Some(Start(n))
    else
      match Run(n, events[..|events| - 1])
      case None => None
      case Some(s) => Next(s, events[|events| - 1])
  }

  function Left(s: State): nat {
    match s.caller
    case Racing(k) => k
    case AllFailed => 0
    case _ => if s.drain.Draining? then s.drain.remaining else 0
  }

  function HasSent(s: State, i: nat): nat {
    if i < |s.legs| && s.legs[i].Sent? then 1 else 0
  }

  predicate Established(s: State, i: nat) {
    i < |s.legs| && s.legs[i] == Sent(Dialog)
  }

  // Every sent result is in the channel or received, and the outstanding ones are counted.
  ghost predicate Accounting(s: State, n: nat) {
    && |s.legs| == n && n > 0
    && (forall i: nat :: s.taken[i] + multiset(s.results)[i] == HasSent(s, i))
    && |s.taken| + Left(s) == n
  }

  function HangupsDue(s: State, i: nat): nat {
    if s.taken[i] == 1 && Established(s, i) && s.caller != Won(i) then 1 else 0
  }

  ghost predicate Hangups(s: State) {
    && (forall i: nat :: s.hangups[i] == HangupsDue(s, i))
    && (forall i :: i in s.running ==> s.hangups[i] == 1)
  }

  ghost predicate Phases(s: State) {
    && (s.caller.Racing? ==> s.caller.remaining > 0)
    && (s.caller.Won? ==> s.taken[s.caller.leg] == 1 && Established(s, s.caller.leg))
    && (s.caller.Racing? || s.caller.AllFailed? ==>
          && s.drain == NotStarted && s.hangups == multiset{}
          && multiset(s.failures) == s.taken)
    && (s.caller.Won? || s.caller.GaveUp? ==> s.drain != NotStarted)
    && (s.drain == Closed ==> s.running == {})
  }

  ghost predicate Inv(s: State, n: nat) {
    Accounting(s, n) && Hangups(s) && Phases(s)
  }

  lemma StartInv(n: nat)
    requires n > 0
    ensures Inv(Start(n), n)
  {
  }

  lemma HeadTaken(results: seq<nat>)
    requires results != []
    ensures multiset(results) == multiset{results[0]} + multiset(results[1..])
  {
    assert results == [results[0]] + results[1..];
  }

  // The head of the channel is a sent result that nobody has received yet.
  lemma HeadIsNew(s: State, n: nat)
    requires Inv(s, n) && s.results != []
    ensures var leg := s.results[0];
            leg < n && s.legs[leg].Sent? && s.taken[leg] == 0 && s.hangups[leg] == 0
    ensures var leg := s.results[0];
            forall i: nat :: (s.taken + multiset{leg})[i] + multiset(s.results[1..])[i] == HasSent(s, i)
  {
    HeadTaken(s.results);
    var leg := s.results[0];
    assert s.taken[leg] + multiset(s.results)[leg] == HasSent(s, leg);
    forall i: nat ensures (s.taken + multiset{leg})[i] + multiset(s.results[1..])[i] == HasSent(s, i) {
      assert s.taken[i] + multiset(s.results)[i] == HasSent(s, i);
    }
  }

  lemma TakeAccounting(s: State, t: State, n: nat)
    requires Inv(s, n) && s.results != [] && t.legs == s.legs
    requires t.taken == s.taken + multiset{s.results[0]} && t.results == s.results[1..] && Left(t) + 1 == Left(s)
    ensures Accounting(t, n)
  {
    HeadIsNew(s, n);
    forall i: nat ensures t.taken[i] + multiset(t.results)[i] == HasSent(t, i) {
      assert (s.taken + multiset{s.results[0]})[i] + multiset(s.results[1..])[i] == HasSent(s, i);
    }
  }

  // Nobody has hung up while the caller is racing.
  lemma FailureHangups(s: State, t: State)
    requires Hangups(s) && s.hangups == multiset{} && !t.caller.Won? && !s.caller.Won?
    requires t.hangups == s.hangups && t.running == s.running && t.legs == s.legs
    requires forall i: nat :: Established(s, i) ==> t.taken[i] == s.taken[i]
    ensures Hangups(t)
  {
    forall i: nat ensures t.hangups[i] == HangupsDue(t, i) {
      assert s.hangups[i] == HangupsDue(s, i);
    }
  }

  lemma FailureInv(s: State, n: nat)
    requires Inv(s, n) && Receives(s).Some? && s.legs[s.results[0]] != Sent(Dialog)
    ensures Inv(Receives(s).value, n)
  {
    hide HasSent, Accounting, Hangups, HangupsDue;
    HeadIsNew(s, n);
    var t := Receives(s).value;
    TakeAccounting(s, t, n);
    FailureHangups(s, t);
    assert multiset(s.failures + [s.results[0]]) == multiset(s.failures) + multiset{s.results[0]};
  }

  lemma WinInv(s: State, n: nat)
    requires Inv(s, n) && Receives(s).Some? && s.legs[s.results[0]] == Sent(Dialog)
    ensures Inv(Receives(s).value, n)
  {
    HeadIsNew(s, n);
    var t := Receives(s).value;
    TakeAccounting(s, t, n);
    hide HasSent, Accounting;
    assert Hangups(t) by {
      forall i: nat ensures t.hangups[i] == HangupsDue(t, i) {
        assert s.hangups[i] == HangupsDue(s, i);
      }
    }
  }

  lemma DrainInv(s: State, n: nat)
    requires Inv(s, n) && Drains(s).Some?
    ensures Inv(Drains(s).value, n)
  {
    hide HasSent, Accounting, Hangups;
    HeadIsNew(s, n);
    var t := Drains(s).value;
    TakeAccounting(s, t, n);
    DrainHangups(s, n);
  }

  lemma DrainHangups(s: State, n: nat)
    requires Inv(s, n) && Drains(s).Some?
    ensures Hangups(Drains(s).value)
  {
    HeadIsNew(s, n);
    var t := Drains(s).value;
    var leg := s.results[0];
    assert t.legs == s.legs && t.caller == s.caller && t.taken == s.taken + multiset{leg};
    assert Established(s, leg) ==> t.hangups == s.hangups + multiset{leg} && t.running == s.running + {leg};
    assert !Established(s, leg) ==> t.hangups == s.hangups && t.running == s.running;
    assert s.caller != Won(leg);
    hide Drains, Accounting, Phases, HasSent;
    forall i: nat ensures t.hangups[i] == HangupsDue(t, i) {
      assert s.hangups[i] == HangupsDue(s, i);
    }
  }

  lemma StepInv(s: State, e: Event, n: nat)
    requires Inv(s, n) && Next(s, e).Some?
    ensures Inv(Next(s, e).value, n)
  {
    hide Inv;
    match e
    case Receive =>
      if s.legs[s.results[0]] == Sent(Dialog) {
        WinInv(s, n);
      } else {
        FailureInv(s, n);
      }
    case DrainReceive => DrainInv(s, n);
    case Send(i) => SendInv(s, i, n);
    case DialReturns(i, r) => DialReturnsInv(s, i, r, n);
    case ContextDone => ContextDoneInv(s, n);
    case _ => CleanupInv(s, e, n);
  }

  lemma AccountingKept(s: State, t: State, n: nat)
    requires Accounting(s, n)
    requires t.taken == s.taken && t.results == s.results && Left(t) == Left(s) && |t.legs| == |s.legs|
    requires forall j: nat :: HasSent(t, j) == HasSent(s, j)
    ensures Accounting(t, n)
  {
  }

  lemma HangupsKept(s: State, t: State)
    requires Hangups(s)
    requires t.taken == s.taken && t.hangups == s.hangups && t.running <= s.running
    requires t.caller == s.caller || (!t.caller.Won? && !s.caller.Won?)
    requires forall j: nat :: Established(t, j) == Established(s, j)
    ensures Hangups(t)
  {
    forall i: nat ensures t.hangups[i] == HangupsDue(t, i) {
      assert s.hangups[i] == HangupsDue(s, i);
    }
  }

  lemma DialReturnsInv(s: State, i: nat, r: Dialed, n: nat)
    requires Inv(s, n) && Next(s, DialReturns(i, r)).Some?
    ensures Inv(Next(s, DialReturns(i, r)).value, n)
  {
    hide Accounting, Hangups, HangupsDue;
    var t := Next(s, DialReturns(i, r)).value;
    AccountingKept(s, t, n);
    HangupsKept(s, t);
  }

  lemma ContextDoneInv(s: State, n: nat)
    requires Inv(s, n) && Next(s, ContextDone).Some?
    ensures Inv(Next(s, ContextDone).value, n)
  {
    hide Accounting, Hangups, HangupsDue;
    var t := Next(s, ContextDone).value;
    AccountingKept(s, t, n);
    HangupsKept(s, t);
  }

  lemma CleanupInv(s: State, e: Event, n: nat)
    requires Inv(s, n) && Next(s, e).Some?
    requires e.DrainEnds? || e.HangupReturns? || e.CloseLosersDone?
    ensures Inv(Next(s, e).value, n)
  {
    hide Accounting, Hangups, HangupsDue;
    var t := Next(s, e).value;
    AccountingKept(s, t, n);
    HangupsKept(s, t);
  }

  lemma SendInv(s: State, i: nat, n: nat)
    requires Inv(s, n) && Next(s, Send(i)).Some?
    ensures Inv(Next(s, Send(i)).value, n)
  {
    hide Accounting, Hangups, HangupsDue;
    SendAccounting(s, i, n);
    SendHangups(s, i, n);
  }

  lemma SendAccounting(s: State, i: nat, n: nat)
    requires Accounting(s, n) && Next(s, Send(i)).Some?
    ensures Accounting(Next(s, Send(i)).value, n) && s.taken[i] == 0
  {
    var t := Next(s, Send(i)).value;
    assert s.taken[i] + multiset(s.results)[i] == HasSent(s, i);
    assert multiset(t.results) == multiset(s.results) + multiset{i};
    forall j: nat ensures t.taken[j] + multiset(t.results)[j] == HasSent(t, j) {
      assert s.taken[j] + multiset(s.results)[j] == HasSent(s, j);
    }
  }

  lemma SendHangups(s: State, i: nat, n: nat)
    requires Hangups(s) && Next(s, Send(i)).Some? && s.taken[i] == 0
    ensures Hangups(Next(s, Send(i)).value)
  {
    var t := Next(s, Send(i)).value;
    forall j: nat ensures t.hangups[j] == HangupsDue(t, j) {
      assert s.hangups[j] == HangupsDue(s, j);
    }
  }

  lemma {:induction false} RunInv(n: nat, events: seq<Event>)
    requires n > 0 && Run(n, events).Some?
    ensures Inv(Run(n, events).value, n)
  {
    if events == [] {
      StartInv(n);
    } else {
      hide Inv;
      var front := events[..|events| - 1];
      RunInv(n, front);
      StepInv(Run(n, front).value, events[|events| - 1], n);
    }
  }

  // A multiset of distinct numbers below n has at most n members, and n only if none is missing.
  lemma {:induction false} DistinctBelow(m: multiset<nat>, n: nat)
    requires forall i: nat :: m[i] <= if i < n then 1 else 0
    ensures |m| <= n
    ensures |m| == n <==> forall i: nat :: i < n ==> m[i] == 1
  {
    if n == 0 {
      assert m == multiset{};
    } else {
      var rest := m[n - 1 := 0];
      DistinctBelow(rest, n - 1);
      assert m == rest + multiset{n - 1}[n - 1 := m[n - 1]];
      assert |m| == |rest| + m[n - 1];
      if forall i: nat :: i < n - 1 ==> rest[i] == 1 {
        forall i: nat | i < n - 1 ensures m[i] == 1 {
          assert rest[i] == 1;
        }
      } else {
        var i: nat :| i < n - 1 && rest[i] != 1;
        assert m[i] == rest[i];
      }
    }
  }

  /* What holds in every run. */

  // No leg's result is received twice, no dialog is hung up twice, and the winner never is.
  lemma AtMostOnce(n: nat, events: seq<Event>, s: State, i: nat)
    requires n > 0 && Run(n, events) == Some(s)
    ensures s.taken[i] <= 1 && s.hangups[i] <= 1
    ensures s.hangups[i] == 1 ==> Established(s, i)
    ensures s.caller == Won(i) ==> Established(s, i) && s.hangups[i] == 0
  {
    hide Run;
    RunInv(n, events);
    assert s.taken[i] + multiset(s.results)[i] == HasSent(s, i);
  }

  // A dial goroutine whose Dial has returned always finds room for its result.
  lemma ResultNeverBlocks(n: nat, events: seq<Event>, s: State, i: nat)
    requires n > 0 && Run(n, events) == Some(s)
    requires i < |s.legs| && s.legs[i].Returned?
    ensures Next(s, Send(i)).Some?
  {
    hide Run;
    RunInv(n, events);
    var all := s.taken + multiset(s.results);
    assert forall j: nat :: all[j] == HasSent(s, j);
    DistinctBelow(all, n);
    assert all[i] == 0;
  }

  // LosersDone is closed, or no cleanup was needed because every leg failed.
  predicate Ended(s: State) {
    s.drain == Closed || s.caller == AllFailed
  }

  // At the end every result has been received exactly once, every established dialog but the
  // winner's has been hung up exactly once, and every hang-up has returned.
  lemma NothingLeaks(n: nat, events: seq<Event>, s: State)
    requires n > 0 && Run(n, events) == Some(s) && Ended(s)
    ensures |s.legs| == n && forall i: nat :: i < n ==> s.legs[i].Sent? && s.taken[i] == 1
    ensures forall i: nat :: s.hangups[i] == if Established(s, i) && s.caller != Won(i) then 1 else 0
    ensures s.running == {}
    ensures s.caller == AllFailed ==>
              multiset(s.failures) == s.taken && forall i: nat :: !Established(s, i)
  {
    hide Run;
    RunInv(n, events);
    assert Left(s) == 0;
    forall i: nat ensures s.taken[i] <= if i < n then 1 else 0 {
      assert s.taken[i] + multiset(s.results)[i] == HasSent(s, i);
    }
    DistinctBelow(s.taken, n);
    forall i: nat | i < n ensures s.legs[i].Sent? && s.taken[i] == 1 {
      assert s.taken[i] + multiset(s.results)[i] == HasSent(s, i);
    }
    forall i: nat ensures s.hangups[i] == if Established(s, i) && s.caller != Won(i) then 1 else 0 {
    }
  }

  // LosersDone can only close after the caller has returned and every loser's hang-up is over.
  lemma CloseComesLast(n: nat, events: seq<Event>, s: State)
    requires n > 0 && Run(n, events) == Some(s)
    requires Next(s, CloseLosersDone).Some?
    ensures (s.caller.Won? || s.caller.GaveUp?) && s.running == {}
    ensures forall i: nat :: i < n ==> s.taken[i] == 1
  {
    hide Run;
    RunInv(n, events);
    assert Next(s, CloseLosersDone).value == s.(drain := Closed);
    forall i: nat ensures s.taken[i] <= if i < n then 1 else 0 {
      assert s.taken[i] + multiset(s.results)[i] == HasSent(s, i);
    }
    DistinctBelow(s.taken, n);
  }

  // Until the end somebody can move, provided that every Dial returns.
  lemma NeverStuck(n: nat, events: seq<Event>, s: State)
    requires n > 0 && Run(n, events) == Some(s) && !Ended(s)
    ensures exists e: Event :: !e.ContextDone? && Next(s, e).Some?
  {
    hide Run;
    RunInv(n, events);
    if exists i :: 0 <= i < n && !s.legs[i].Sent? {
      var i :| 0 <= i < n && !s.legs[i].Sent?;
      if s.legs[i] == Dialing {
        assert Next(s, DialReturns(i, Error)).Some?;
      } else {
        ResultNeverBlocks(n, events, s, i);
      }
    } else if s.running != {} {
      var i :| i in s.running;
      assert Next(s, HangupReturns(i)).Some?;
    } else if Left(s) > 0 {
      AllSentMeansQueued(s, n);
      assert Next(s, if s.caller.Racing? then Receive else DrainReceive).Some?;
    } else {
      assert Next(s, if s.drain.Draining? then DrainEnds else CloseLosersDone).Some?;
    }
  }

  lemma AllSentMeansQueued(s: State, n: nat)
    requires Inv(s, n) && Left(s) > 0
    requires forall i :: 0 <= i < n ==> s.legs[i].Sent?
    ensures s.results != [] && s.results[0] < n
  {
    if s.results == [] {
      forall i: nat ensures s.taken[i] == if i < n then 1 else 0 {
        assert s.taken[i] + multiset(s.results)[i] == HasSent(s, i);
      }
      DistinctBelow(s.taken, n);
      assert false;
    }
    var head := s.results[0];
    assert head in s.results;
    assert s.taken[head] + multiset(s.results)[head] == HasSent(s, head);
  }

  /* The fields and channel the goroutines share; each method is one step of one of them. */

  datatype StartError = ContextCanceled | NoDialLegs | NoDialFunction(leg: nat)

  // The checks before any goroutine starts: the first leg without a dial function is reported.
  method CheckLegs(contextCanceled: bool, hasDial: seq<bool>) returns (error: Option<StartError>)
    ensures contextCanceled ==> error == Some(ContextCanceled)
    ensures !contextCanceled ==> (error == Some(NoDialLegs) <==> hasDial == [])
    ensures error.None? <==> !contextCanceled && hasDial != [] && forall i :: 0 <= i < |hasDial| ==> hasDial[i]
    ensures error.Some? && error.value.NoDialFunction? ==>
              var bad := error.value.leg;
              bad < |hasDial| && !hasDial[bad] && forall i :: 0 <= i < bad ==> hasDial[i]
  {
    if contextCanceled {
      return Some(ContextCanceled);
    }
    if |hasDial| == 0 {
      return Some(NoDialLegs);
    }
    for i := 0 to |hasDial|
      invariant forall j :: 0 <= j < i ==> hasDial[j]
    {
      if !hasDial[i] {
        return Some(NoDialFunction(i));
      }
    }
    return None;
  }

  class Race {
    var legs: seq<Leg>
    var results: seq<nat>
    var failures: seq<nat>
    var caller: Caller
    var drain: Drain
    var canceled: bool
    ghost var taken: multiset<nat>
    ghost var hangups: multiset<nat>
    var running: set<nat>

    ghost function Now(): State
      reads this
    {
      State(legs, results, failures, caller, drain, canceled, taken, hangups, running)
    }

    constructor (n: nat)
      ensures Now() == Start(n)
    {
      legs := seq(n, _ => Dialing);
      results, failures, caller, drain, canceled := [], [], Racing(n), NotStarted, false;
      taken, hangups, running := multiset{}, multiset{}, {};
    }

    // A dial goroutine puts its result into the channel.
    method SendResult(leg: nat)
      requires Next(Now(), Send(leg)).Some?
      modifies this
      ensures Now() == Next(old(Now()), Send(leg)).value
    {
      results := results + [leg];
      legs := legs[leg := Sent(legs[leg].result)];
    }

    // One turn of DialFirst's loop: either a result or the caller's context.
    method CallerTurn(contextDone: bool) returns (returned: bool)
      requires Next(Now(), if contextDone then ContextDone else Receive).Some?
      modifies this
      ensures Now() == Next(old(Now()), if contextDone then ContextDone else Receive).value
      ensures returned <==> !caller.Racing?
    {
      var remaining := caller.remaining;
      if contextDone {
        canceled := true;
        caller, drain := GaveUp, Draining(remaining);
        return true;
      }
      var leg := results[0];
      results := results[1..];
      taken := taken + multiset{leg};
      remaining := remaining - 1;
      if legs[leg] != Sent(Dialog) {
        failures := failures + [leg];
        if remaining > 0 {
          caller := Racing(remaining);
          return false;
        }
        canceled := true;
        caller := AllFailed;
        return true;
      }
      canceled := true;
      caller, drain := Won(leg), Draining(remaining);
      return true;
    }

    // One turn of drainLosingDialogs.
    method DrainTurn()
      requires Next(Now(), DrainReceive).Some?
      modifies this
      ensures Now() == Next(old(Now()), DrainReceive).value
    {
      var leg := results[0];
      results := results[1..];
      taken := taken + multiset{leg};
      drain := Draining(drain.remaining - 1);
      if legs[leg] == Sent(Dialog) {
        hangups := hangups + multiset{leg};
        running := running + {leg};
      }
    }
  }
}
