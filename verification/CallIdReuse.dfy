/** An incoming INVITE may name the Call-ID of a dialed call: internal/sip/incoming.go puts it into the
    active entry without looking at the other maps. When the Call-ID then ends up in two of them, and
    the check that would prevent it. */
module CallIdReuse {
  import opened Wrappers
  import opened InviteProtocol

  // In how many of canceledInvites, active and completedDialogs the Call-ID is found.
  function Places(v: View): nat {
    B(v.tombstone.Some?) + B(v.active || v.foreign) + B(v.completed)
  }

  /* The check that is missing. */

  // The Call-ID is in none of dialing, active, canceledInvites and completedDialogs.
  predicate Unused(v: View) {
    !v.dialing && !v.active && !v.foreign && v.tombstone.None? && !v.completed
  }

  // Every incoming INVITE under this Call-ID was admitted while the Call-ID was unused.
  ghost predicate Checked(events: seq<Event>) {
    forall i :: 0 <= i < |events| && events[i] == PeerReuses ==>
      Run(events[..i]).Some? && Unused(Run(events[..i]).value.view)
  }

  // What such admissions keep: a dialog that goes on is active, and an incoming call is alone.
  predicate Tidy(s: State) {
    && (s.view.call.Some? && !s.view.call.value.finished ==> s.view.active)
    && (s.view.foreign ==> Unused(Vacated(s.view)))
  }

  lemma TidyStep(s: State, e: Event)
    requires Inv(s) && Tidy(s) && Next(s, e).Some?
    requires e.PeerReuses? ==> Unused(s.view)
    ensures Tidy(Next(s, e).value)
  {
    ActiveIsOurs(s);
    hide Inv, Tidy, Next;
    if e.LookUp? || e.Deadline? || e.HandleFinal? {
      TidyMove(s, e);
    } else {
      TidyOtherwise(s, e);
    }
  }

  lemma ActiveIsOurs(s: State)
    requires Inv(s)
    ensures s.view.active ==> !s.view.foreign
  {
  }

  lemma TidyOtherwise(s: State, e: Event)
    requires Tidy(s) && (s.view.active ==> !s.view.foreign) && Next(s, e).Some?
    requires !e.LookUp? && !e.Deadline? && !e.HandleFinal?
    requires e.PeerReuses? ==> Unused(s.view)
    ensures Tidy(Next(s, e).value)
  {
    if e.SendBye? || e.ByeDone? || e.FailReturn? || e.LateBye? || e.LateByeDone? || e.RemoteBye? {
      TidyEnding(s, e);
    } else {
      TidyRest(s, e);
    }
    hide Next, Tidy;
  }

  lemma TidyEnding(s: State, e: Event)
    requires Tidy(s) && (s.view.active ==> !s.view.foreign) && Next(s, e).Some?
    requires e.SendBye? || e.ByeDone? || e.FailReturn? || e.LateBye? || e.LateByeDone? || e.RemoteBye?
    ensures Tidy(Next(s, e).value)
  {
  }

  lemma TidyRest(s: State, e: Event)
    requires Tidy(s) && Next(s, e).Some?
    requires !e.LookUp? && !e.Deadline? && !e.HandleFinal?
    requires !e.SendBye? && !e.ByeDone? && !e.FailReturn? && !e.LateBye? && !e.LateByeDone? && !e.RemoteBye?
    requires e.PeerReuses? ==> Unused(s.view)
    ensures Tidy(Next(s, e).value)
  {
    if e.PeerReuses? || e.PeerCallEnds? || e.ExpireTombstone? || e.ExpireCompleted? {
      TidyEntries(s, e);
    } else {
      TidySame(s, e);
    }
    hide Next, Tidy;
  }

  lemma TidyEntries(s: State, e: Event)
    requires Tidy(s) && Next(s, e).Some? && (e.PeerReuses? ==> Unused(s.view))
    requires e.PeerReuses? || e.PeerCallEnds? || e.ExpireTombstone? || e.ExpireCompleted?
    ensures Tidy(Next(s, e).value)
  {
  }

  lemma TidySame(s: State, e: Event)
    requires Tidy(s) && Next(s, e).Some?
    requires e.Open? || e.CancelContext? || e.Receive? || e.ContextDone? || e.SendDueCancel? || e.CloseTransaction?
             || e.SendAck? || e.Check? || e.Arrive? || e.Act?
    ensures Tidy(Next(s, e).value)
  {
  }

  lemma TidyMove(s: State, e: Event)
    requires Inv(s) && Tidy(s) && Next(s, e).Some?
    requires e.LookUp? || e.Deadline? || e.HandleFinal?
    ensures Tidy(Next(s, e).value)
  {
  }

  lemma TidyIsOnePlace(s: State)
    requires Inv(s) && Tidy(s)
    ensures Places(s.view) <= 1
  {
  }

  lemma {:induction false} CheckedTidy(events: seq<Event>)
    requires Run(events).Some? && Checked(events)
    ensures Tidy(Run(events).value)
  {
    if events != [] {
      var n := |events| - 1;
      var front := events[..n];
      forall i | 0 <= i < n ensures front[..i] == events[..i] {}
      CheckedTidy(front);
      RunInv(front);
      hide Inv, Tidy, Next;
      TidyStep(Run(front).value, events[n]);
    }
  }

  // With the check in place a dialed Call-ID is in at most one of the three maps, in every run.
  lemma CheckedAdmissionsKeepOnePlace(events: seq<Event>, s: State)
    requires Run(events) == Some(s) && Checked(events)
    ensures Places(s.view) <= 1
  {
    hide Run, Inv, Tidy, Places, Checked;
    CheckedTidy(events);
    RunInv(events);
    TidyIsOnePlace(s);
  }

  /* Without it. */

  predicate NoReuse(more: seq<Event>) {
    forall e :: e in more ==> !e.PeerReuses?
  }

  function Resume(s: State, more: seq<Event>): Option<State>
    decreases |more|
  {
    if more == [] then Some(s)
    else match Next(s, more[0]) case None => None case Some(t) => Resume(t, more[1..])
  }

  // Whatever else happens after the state s, one place is enough: further such INVITEs included, as
  // long as each of them finds the dialed call settled.
  ghost predicate StaysInOnePlace(s: State) {
    forall more :: HarmlessReuses(s, more) && Resume(s, more).Some? ==> Places(Resume(s, more).value.view) <= 1
  }

  function Reused(s: State): State {
    s.(view := Overwritten(s.view))
  }

  // The first attempt is challenged and will be repeated.
  predicate Challenges(s: State, r: Response) {
    (r.status == 401 || r.status == 407) && s.dialer.cseq == 1
  }

  // A tombstone can still come of the dialing call: no final response is there to prevent it, or only
  // one that leads to another attempt.
  predicate MayBeHandedOff(s: State) {
    || s.dialer.pc == Starting
    || (s.dialer.pc == Waiting && s.dialer.cseq in s.view.transactions
        && var first := FirstFinal(s.view.transactions[s.dialer.cseq]);
           (first.Some? ==> Challenges(s, first.value)))
    || (HoldsFinal(s.dialer.pc) && Challenges(s, s.dialer.pc.final))
  }

  // Neither a tombstone nor a completed dialog is there or can still come.
  predicate Settled(s: State) {
    && s.view.tombstone.None? && !s.view.completed
    && (s.view.call.Some? ==> s.view.call.value.finished)
    && !MayBeHandedOff(s)
  }

  // Every further INVITE under the Call-ID comes when the dialed call is settled.
  predicate HarmlessReuses(s: State, more: seq<Event>)
    decreases |more|
  {
    more != [] && Next(s, more[0]).Some? ==>
      (more[0].PeerReuses? ==> Settled(s)) && HarmlessReuses(Next(s, more[0]).value, more[1..])
  }

  lemma {:induction false} NoReuseIsHarmless(s: State, more: seq<Event>)
    requires NoReuse(more)
    ensures HarmlessReuses(s, more)
    decreases |more|
  {
    if more != [] && Next(s, more[0]).Some? {
      assert more[0] in more;
      NoReuseIsHarmless(Next(s, more[0]).value, more[1..]);
    }
  }

  // What has to hold as long as the incoming call is in the active entry.
  predicate Kept(s: State, t: State) {
    && (t.view.foreign ==> Settled(t))
    && (t.view.foreign ==> s.view.foreign)
  }

  lemma SettledWaiting(s: State, e: Event)
    requires Inv(s) && Settled(s) && Next(s, e).Some?
    requires e.Receive? || e.Deadline? || e.Arrive?
    ensures Kept(s, Next(s, e).value)
  {
    var d := s.dialer;
    if d.cseq in s.view.transactions {
      var queue := s.view.transactions[d.cseq];
      if e.Arrive? {
        FirstFinalAppend(queue, e.response);
      }
      assert queue != [] ==> FirstFinal(queue) == if Final(queue[0]) then Some(queue[0]) else FirstFinal(queue[1..]);
    }
  }

  lemma SettledHandling(s: State, e: Event)
    requires Inv(s) && Settled(s) && Next(s, e).Some?
    requires e.Open? || e.CloseTransaction? || e.HandleFinal? || e.LookUp?
    ensures Kept(s, Next(s, e).value)
  {
  }

  lemma SettledOtherwise(s: State, e: Event)
    requires Settled(s) && Next(s, e).Some?
    requires e.CancelContext? || e.ContextDone? || e.SendDueCancel? || e.SendAck? || e.Check? || e.Act? || e.SendBye?
             || e.ByeDone? || e.FailReturn?
    ensures Kept(s, Next(s, e).value)
  {
  }

  lemma SettledEnding(s: State, e: Event)
    requires Settled(s) && Next(s, e).Some?
    requires e.LateBye? || e.LateByeDone? || e.RemoteBye? || e.ExpireTombstone? || e.ExpireCompleted? || e.PeerCallEnds?
    ensures Kept(s, Next(s, e).value)
  {
  }

  lemma SettledStep(s: State, e: Event)
    requires Inv(s) && Settled(s) && Next(s, e).Some? && !e.PeerReuses?
    ensures Kept(s, Next(s, e).value)
  {
    hide Inv, Settled, Next, Kept;
    if e.Receive? || e.Deadline? || e.Arrive? {
      SettledWaiting(s, e);
    } else if e.Open? || e.CloseTransaction? || e.HandleFinal? || e.LookUp? {
      SettledHandling(s, e);
    } else if e.LateBye? || e.LateByeDone? || e.RemoteBye? || e.ExpireTombstone? || e.ExpireCompleted? || e.PeerCallEnds? {
      SettledEnding(s, e);
    } else {
      SettledOtherwise(s, e);
    }
  }

  lemma VacantStep(s: State, e: Event)
    requires !s.view.foreign && Next(s, e).Some? && !e.PeerReuses?
    ensures !Next(s, e).value.view.foreign
  {
    hide Unmatched, HandedOff;
    if e.LookUp? {
      VacantLookUp(s.view, s.reader);
    }
    if e.Deadline? && s.dialer.cseq in s.view.transactions {
      VacantHandOff(s.view, s.dialer.cseq, s.dialer.cancelSent);
    }
  }

  lemma VacantLookUp(v: View, r: Reader)
    ensures r.Looking? ==> Unmatched(v, r.response).0.foreign == v.foreign
  {
  }

  lemma VacantHandOff(v: View, cseq: nat, cancelSent: bool)
    requires cseq in v.transactions
    ensures HandedOff(v, cseq, cancelSent).0.foreign == v.foreign
  {
  }

  lemma {:induction false} SettledStays(s: State, more: seq<Event>)
    requires Inv(s) && (s.view.foreign ==> Settled(s))
    requires HarmlessReuses(s, more) && Resume(s, more).Some?
    ensures Places(Resume(s, more).value.view) <= 1
    decreases |more|
  {
    if more == [] {
    } else {
      var e := more[0];
      var t := Next(s, e).value;
      StepInv(s, e);
      ReusedNext(s);
      SettledAlike(s);
      hide Inv, Next, Settled, Places;
      if e.PeerReuses? {
      } else if s.view.foreign {
        SettledStep(s, e);
      } else {
        VacantStep(s, e);
      }
      SettledStays(t, more[1..]);
    }
  }

  lemma ReusedNext(s: State)
    ensures Next(s, PeerReuses) == Some(Reused(s))
  {
  }

  lemma SettledAlike(s: State)
    ensures Settled(Reused(s)) <==> Settled(s)
  {
  }

  /* How the second place is reached. */

  // A dialog that goes on without its active entry is still hung up, and then filed as completed.
  predicate GoesOn(s: State) {
    s.view.foreign && s.view.call.Some? && !s.view.call.value.finished
  }

  function HangupStep(s: State): Event {
    if s.view.call.Some? && s.view.call.value.late then
      match s.late
      case NotLate => Act
      case LateHanging => LateBye
      case _ => LateByeDone
    else
      match s.dialer.pc
      case Acking => SendAck
      case Checking => Check(false)
      case ByeSent => ByeDone
      case _ => SendBye
  }

  function HangupSteps(s: State): nat {
    if s.view.call.Some? && s.view.call.value.late then
      match s.late
      case NotLate => 3
      case LateHanging => 2
      case _ => 1
    else
      match s.dialer.pc
      case Acking => 4
      case Checking => 3
      case ByeSent => 1
      case _ => 2
  }

  lemma HangupProceeds(s: State)
    requires Inv(s) && GoesOn(s)
    ensures Next(s, HangupStep(s)).Some?
    ensures var t := Next(s, HangupStep(s)).value;
            if HangupSteps(s) == 1 then Places(t.view) >= 2 else GoesOn(t) && HangupSteps(t) < HangupSteps(s)
  {
    if s.view.call.value.late {
      assert s.log.value.released;
    } else {
      assert !s.log.value.released;
    }
  }

  lemma {:induction false} HangupCompletes(s: State) returns (more: seq<Event>)
    requires Inv(s) && GoesOn(s)
    ensures NoReuse(more) && Resume(s, more).Some? && Places(Resume(s, more).value.view) >= 2
    decreases HangupSteps(s)
  {
    var e := HangupStep(s);
    HangupProceeds(s);
    StepInv(s, e);
    var t := Next(s, e).value;
    hide Inv, Next, HangupSteps, GoesOn, Places;
    var rest := [];
    if HangupSteps(s) > 1 {
      rest := HangupCompletes(t);
    }
    more := [e] + rest;
    assert more[1..] == rest;
  }

  // A call that can still be handed off is, once it is canceled, as long as nobody answers.
  predicate Undecided(s: State) {
    s.view.foreign && MayBeHandedOff(s)
  }

  function HandOffStep(s: State): Event {
    match s.dialer.pc
    case Starting => Open
    case Waiting =>
      if s.dialer.cancelRequested then Deadline else if s.dialer.canceled then ContextDone else CancelContext
    case Releasing(_) => CloseTransaction
    case _ => HandleFinal(true)
  }

  function HandOffSteps(s: State): nat {
    (if s.dialer.cseq == 1 then 10 else 0)
    + match s.dialer.pc
      case Starting => 6
      case Waiting => if s.dialer.cancelRequested then 3 else if s.dialer.canceled then 4 else 5
      case Releasing(_) => 2
      case _ => 1
  }

  lemma HandOffProceeds(s: State)
    requires Inv(s) && Undecided(s)
    ensures Next(s, HandOffStep(s)).Some?
    ensures var t := Next(s, HandOffStep(s)).value;
            Places(t.view) >= 2 || (Undecided(t) && HandOffSteps(t) < HandOffSteps(s))
  {
  }

  lemma {:induction false} HandOffComes(s: State) returns (more: seq<Event>)
    requires Inv(s) && Undecided(s)
    ensures NoReuse(more) && Resume(s, more).Some? && Places(Resume(s, more).value.view) >= 2
    decreases HandOffSteps(s)
  {
    var e := HandOffStep(s);
    HandOffProceeds(s);
    StepInv(s, e);
    var t := Next(s, e).value;
    hide Inv, Next, HandOffSteps, Undecided, Places;
    var rest := [];
    if Places(t.view) < 2 {
      rest := HandOffComes(t);
    }
    more := [e] + rest;
    assert more[1..] == rest;
  }

  lemma NotSettledBreaks(s: State) returns (more: seq<Event>)
    requires Inv(s) && s.view.foreign && !Settled(s)
    ensures NoReuse(more) && Resume(s, more).Some? && Places(Resume(s, more).value.view) >= 2
  {
    if s.view.tombstone.Some? || s.view.completed {
      more := [];
    } else if s.view.call.Some? && !s.view.call.value.finished {
      more := HangupCompletes(s);
    } else {
      more := HandOffComes(s);
    }
  }

  // An incoming INVITE admitted under a dialed Call-ID in the state s of any run: one place stays enough
  // if and only if the dialed call is settled. In every other phase, waiting, active, tombstoned or
  // completed, some continuation puts the Call-ID into two.
  lemma ReuseHarmlessIff(events: seq<Event>, s: State)
    requires Run(events) == Some(s)
    ensures StaysInOnePlace(Reused(s)) <==> Settled(s)
  {
    hide Run, Inv, Settled, Resume, NoReuse, HarmlessReuses, Places;
    RunInv(events);
    ReuseInv(s);
    SettledAlike(s);
    if Settled(s) {
      forall more | HarmlessReuses(Reused(s), more) && Resume(Reused(s), more).Some?
        ensures Places(Resume(Reused(s), more).value.view) <= 1
      {
        SettledStays(Reused(s), more);
      }
    } else {
      var more := NotSettledBreaks(Reused(s));
      NoReuseIsHarmless(Reused(s), more);
    }
  }

  // The missing check is enough: an unused Call-ID is settled, unless an earlier INVITE that was let
  // through has taken the active entry from a dialog that goes on.
  lemma UnusedIsSettled(s: State)
    requires Inv(s) && Unused(s.view) && Tidy(s)
    ensures Settled(s)
  {
  }

  lemma AnsweredCall() returns (events: seq<Event>)
    ensures Run(events).Some?
    ensures var s := Run(events).value;
            && s.dialer.pc == Acking && !s.dialer.canceled && s.log.Some?
            && s.view == View(false, map[], None, Some(Call(1, 1, false, false)), true, false, false)
  {
    hide Run;
    var answer := Arrive(Response(1, 200));
    RunThen([], Open);
    var e1 := [] + [Open];
    RunThen(e1, answer);
    var e2 := e1 + [answer];
    RunThen(e2, Receive);
    var e3 := e2 + [Receive];
    RunThen(e3, CloseTransaction);
    var e4 := e3 + [CloseTransaction];
    RunThen(e4, HandleFinal(true));
    assert Run(e4).value.view.transactions == map[];
    events := e4 + [HandleFinal(true)];
  }

  lemma ReInvitedCall() returns (events: seq<Event>)
    ensures Run(events).Some?
    ensures var s := Run(events).value;
            && s.dialer.pc == InCall && s.log.Some?
            && s.view == View(false, map[], None, Some(Call(1, 1, false, false)), false, false, true)
  {
    hide Run;
    var e5 := AnsweredCall();
    RunThen(e5, SendAck);
    var e6 := e5 + [SendAck];
    RunThen(e6, Check(true));
    var e7 := e6 + [Check(true)];
    RunThen(e7, PeerReuses);
    events := e7 + [PeerReuses];
  }

  // A re-INVITE of an established dialog, taken for a new call: after the hang-up the Call-ID is
  // completed and still active.
  lemma ReInviteBreaksUniqueness()
    ensures exists events :: Run(events).Some? && Run(events).value.view.completed && Run(events).value.view.foreign
                             && Places(Run(events).value.view) == 2
  {
    hide Run;
    var e8 := ReInvitedCall();
    RunThen(e8, SendBye);
    var e9 := e8 + [SendBye];
    RunThen(e9, ByeDone);
    var e10 := e9 + [ByeDone];
    assert Run(e10).Some?;
  }
}
