/** How many calls internal/sip/client.go lets go on at once. Its capacity check counts the entries of two
    maps; a call whose entry is overwritten goes on without being counted. */
module CallLimit {
  import opened Wrappers
  import opened InviteProtocol
  import opened CallIdReuse
  import opened SipClient
  import opened ClientRuns

  /* The calls themselves. */

  // A dialed call that was answered and has not ended; late dialogs being torn down do not count.
  predicate Ongoing(s: State) {
    s.view.call.Some? && !s.view.call.value.finished && !s.view.call.value.late
  }

  function Dialogs(w: World): set<CallId> {
    set id | id in w.dialed && Ongoing(w.dialed[id])
  }

  // Calls being dialed, dialed calls that go on, and incoming calls that were admitted and have not ended.
  function OpenCalls(w: World): nat {
    |w.maps.dialing| + |Dialogs(w)| + |w.incoming|
  }

  // Every call that goes on has an active entry of its own.
  ghost predicate InStep(w: World) {
    && (forall id :: id in w.dialed && Ongoing(w.dialed[id]) ==> w.dialed[id].view.active)
    && (forall p :: p in w.incoming ==> p.0 in w.maps.active && w.maps.active[p.0] == Theirs(p.1))
  }

  // Every entry leads to a call.
  ghost predicate Grounded(w: World) {
    && (forall id :: id in w.maps.active && w.maps.active[id].Theirs? ==> (id, w.maps.active[id].number) in w.incoming)
    && (forall id :: id in w.maps.calls ==> id in w.dialed)
  }

  /* Which steps take an entry away from a call. */

  predicate Establishes(s: State, e: Event) {
    e.HandleFinal? && s.dialer.pc.Returned? && Success(s.dialer.pc.final)
  }

  // An incoming INVITE under a Call-ID with a call that counts, or an answered call under a Call-ID that
  // an incoming one holds.
  predicate Overwrites(w: World, h: Happening) {
    match h
    case IncomingInvite(id, _) => id in Admitted(w.maps)
    case CallStep(id, e) => id in w.dialed && Establishes(w.dialed[id], e) && id in w.maps.active
    case _ => false
  }

  // What a section of a dialed call does to the active entries and the Call objects.
  lemma SectionEntries(m: Maps, id: CallId, s: State, e: Event)
    ensures var n := Section(m, id, s, e);
            && (forall o :: o != id ==> (o in n.active <==> o in m.active))
            && (forall o :: o != id && o in m.active ==> n.active[o] == m.active[o])
            && (id in n.active && n.active[id].Theirs? ==> id in m.active && m.active[id] == n.active[id])
            && (id in m.active && m.active[id].Theirs? && !Establishes(s, e) ==>
                  id in n.active && n.active[id] == m.active[id])
            && n.calls.Keys <= m.calls.Keys + {id}
  {
    hide TransactionsOf;
  }

  lemma GroundedStep(w: World, limit: nat, h: Happening)
    requires Grounded(w) && Step(w, limit, h).Some?
    ensures Grounded(Step(w, limit, h).value)
  {
    if h.CallStep? {
      SectionEntries(w.maps, h.id, w.dialed[h.id], h.event);
    }
    hide Section, Next;
  }

  lemma {:induction false} RunGrounded(limit: nat, happenings: seq<Happening>)
    requires RunWorld(limit, happenings).Some?
    ensures Grounded(RunWorld(limit, happenings).value)
  {
    if happenings != [] {
      var n := |happenings| - 1;
      RunGrounded(limit, happenings[..n]);
      hide Grounded, Step;
      GroundedStep(RunWorld(limit, happenings[..n]).value, limit, happenings[n]);
    }
  }

  // A dialed call keeps its entry as long as it goes on; it gets one when it is answered.
  lemma OngoingKept(s: State, e: Event)
    requires Inv(s) && Next(s, e).Some? && !e.PeerReuses?
    requires Ongoing(s) ==> s.view.active
    ensures var t := Next(s, e).value; Ongoing(t) ==> t.view.active
  {
    if e.LookUp? || e.Deadline? || e.HandleFinal? {
      OngoingMove(s, e);
    } else {
      OngoingOtherwise(s, e);
    }
  }

  lemma OngoingMove(s: State, e: Event)
    requires Inv(s) && Next(s, e).Some? && (e.LookUp? || e.Deadline? || e.HandleFinal?)
    requires Ongoing(s) ==> s.view.active
    ensures var t := Next(s, e).value; Ongoing(t) ==> t.view.active
  {
  }

  lemma OngoingOtherwise(s: State, e: Event)
    requires Next(s, e).Some? && !e.PeerReuses? && !e.LookUp? && !e.Deadline? && !e.HandleFinal?
    requires Ongoing(s) ==> s.view.active
    ensures var t := Next(s, e).value; Ongoing(t) ==> t.view.active
  {
  }

  lemma StepOfCall(w: World, limit: nat, id: CallId, e: Event)
    requires Step(w, limit, CallStep(id, e)).Some?
    ensures id in w.dialed && Next(w.dialed[id], e).Some? && !e.PeerReuses?
    ensures Step(w, limit, CallStep(id, e)).value
            == w.(maps := Section(w.maps, id, w.dialed[id], e), dialed := w.dialed[id := Next(w.dialed[id], e).value])
  {
    hide Section, Next;
  }

  lemma CallStepInStep(w: World, limit: nat, id: CallId, e: Event)
    requires WorldInv(w, limit) && Grounded(w) && InStep(w) && Step(w, limit, CallStep(id, e)).Some?
    ensures InStep(Step(w, limit, CallStep(id, e)).value) <==> !Overwrites(w, CallStep(id, e))
  {
    hide Inv, Ok, ViewOf, Section, Next, Ongoing, Step, Establishes;
    StepOfCall(w, limit, id, e);
    var s := w.dialed[id];
    SectionEntries(w.maps, id, s, e);
    OngoingKept(s, e);
    if Establishes(s, e) {
      EstablishedEntry(w, id, e);
    }
  }

  // An answered call takes the entry, and no call of its own had it before.
  lemma EstablishedEntry(w: World, id: CallId, e: Event)
    requires id in w.dialed && ViewOf(w.maps, id) == w.dialed[id].view && Inv(w.dialed[id])
    requires Establishes(w.dialed[id], e)
    ensures var n := Section(w.maps, id, w.dialed[id], e); id in n.active && n.active[id] == Ours
    ensures id in w.maps.active ==> w.maps.active[id].Theirs?
    ensures id in w.maps.dialing
  {
    hide TransactionsOf;
    var s := w.dialed[id];
    assert s.view.call.None? && s.view.dialing;
  }

  lemma StepOfInvite(w: World, limit: nat, id: CallId, n: nat)
    requires Step(w, limit, IncomingInvite(id, n)).Some?
    ensures (id, n) !in w.incoming
    ensures Step(w, limit, IncomingInvite(id, n)).value
            == World(w.maps.(active := w.maps.active[id := Theirs(n)]), Meets(w, id, PeerReuses), w.incoming + {(id, n)})
  {
    hide Meets;
  }

  lemma InviteInStep(w: World, limit: nat, id: CallId, n: nat)
    requires WorldInv(w, limit) && Grounded(w) && InStep(w) && Step(w, limit, IncomingInvite(id, n)).Some?
    ensures InStep(Step(w, limit, IncomingInvite(id, n)).value) <==> !Overwrites(w, IncomingInvite(id, n))
  {
    hide Inv, Ok, ViewOf, Next, Ongoing, SipClient.Late, Admitted, Step;
    StepOfInvite(w, limit, id, n);
    var t := Step(w, limit, IncomingInvite(id, n)).value;
    if id in w.dialed {
      CountedEntry(w, id);
      OverwrittenCall(w.dialed[id]);
      assert t.dialed[id] == Next(w.dialed[id], PeerReuses).value;
    } else {
      Owned(w, limit);
      UndialedEntry(w, id);
    }
    if id in Admitted(w.maps) {
      if w.maps.active[id].Theirs? {
        assert (id, w.maps.active[id].number) in t.incoming;
      } else {
        assert id in t.dialed && Ongoing(t.dialed[id]) && !t.dialed[id].view.active;
      }
    } else {
      forall p | p in t.incoming
        ensures p.0 in t.maps.active && t.maps.active[p.0] == Theirs(p.1)
      {
        assert p != (id, n) ==> p in w.incoming;
      }
      forall o | o in t.dialed && Ongoing(t.dialed[o])
        ensures t.dialed[o].view.active
      {
        assert o in w.dialed && (o != id ==> t.dialed[o] == w.dialed[o]);
      }
    }
  }

  lemma Owned(w: World, limit: nat)
    requires WorldInv(w, limit)
    ensures forall o :: o in w.maps.active && w.maps.active[o] == Ours ==> o in w.maps.calls
  {
  }

  lemma OverwrittenCall(s: State)
    ensures Next(s, PeerReuses).Some?
    ensures var t := Next(s, PeerReuses).value; !t.view.active && (Ongoing(t) <==> Ongoing(s))
  {
  }

  // The entry of a dialed Call-ID counts if and only if it leads to a call that goes on.
  lemma CountedEntry(w: World, id: CallId)
    requires id in w.dialed && ViewOf(w.maps, id) == w.dialed[id].view && Inv(w.dialed[id]) && Grounded(w)
    ensures var s := w.dialed[id];
            && (id in w.maps.active && w.maps.active[id] == Ours <==> s.view.active)
            && (s.view.active ==> (id in Admitted(w.maps) <==> Ongoing(s)))
            && (id in w.maps.active && w.maps.active[id].Theirs? ==> id in Admitted(w.maps))
            && (id in Admitted(w.maps) ==> id in w.maps.active)
  {
    hide TransactionsOf;
    assert w.dialed[id].view.active ==> w.dialed[id].view.call.Some? && !w.dialed[id].view.call.value.finished;
    hide Inv;
  }

  lemma UndialedEntry(w: World, id: CallId)
    requires id !in w.dialed && Grounded(w) && (forall o :: o in w.maps.active && w.maps.active[o] == Ours ==> o in w.maps.calls)
    ensures id in w.maps.active <==> id in Admitted(w.maps)
    ensures id in w.maps.active ==> w.maps.active[id].Theirs?
  {
  }

  lemma StepOfEnd(w: World, limit: nat, id: CallId, n: nat)
    requires Step(w, limit, IncomingEnds(id, n)).Some?
    ensures var t, after := Step(w, limit, IncomingEnds(id, n)).value, AfterFinishIncoming(w.maps, id, n);
            t == World(after, if after == w.maps then w.dialed else Meets(w, id, PeerCallEnds), w.incoming - {(id, n)})
  {
    hide Meets, AfterFinishIncoming;
  }

  lemma EndInStep(w: World, limit: nat, id: CallId, n: nat)
    requires WorldInv(w, limit) && InStep(w) && Step(w, limit, IncomingEnds(id, n)).Some?
    ensures InStep(Step(w, limit, IncomingEnds(id, n)).value)
  {
    hide WorldInv, Next, Ongoing, Step;
    StepOfEnd(w, limit, id, n);
    if id in w.dialed {
      VacatedCall(w.dialed[id]);
    }
  }

  lemma VacatedCall(s: State)
    ensures Next(s, PeerCallEnds).Some? ==>
              var t := Next(s, PeerCallEnds).value; t.view.active == s.view.active && (Ongoing(t) <==> Ongoing(s))
  {
  }

  // One step keeps calls and entries in step if and only if it overwrites nothing.
  lemma InStepIff(w: World, limit: nat, h: Happening)
    requires WorldInv(w, limit) && Grounded(w) && InStep(w) && Step(w, limit, h).Some?
    ensures InStep(Step(w, limit, h).value) <==> !Overwrites(w, h)
  {
    hide WorldInv, Grounded, InStep;
    match h
    case Dial(id) => DialInStep(w, limit, id);
    case CallStep(id, e) => CallStepInStep(w, limit, id, e);
    case IncomingInvite(id, n) => InviteInStep(w, limit, id, n);
    case IncomingEnds(id, n) => EndInStep(w, limit, id, n);
  }

  // What an overwriting INVITE does to the capacity check: there is one call more, and not one entry.
  lemma OverwrittenUncounted(w: World, limit: nat, id: CallId, n: nat)
    requires WorldInv(w, limit) && Step(w, limit, IncomingInvite(id, n)).Some?
    requires Overwrites(w, IncomingInvite(id, n))
    ensures var t := Step(w, limit, IncomingInvite(id, n)).value;
            && OpenCalls(t) == OpenCalls(w) + 1
            && |t.maps.active| + |t.maps.dialing| == |w.maps.active| + |w.maps.dialing|
  {
    hide Inv, Ok, ViewOf, Next, Ongoing, Step, WorldInv;
    StepOfInvite(w, limit, id, n);
    var t := Step(w, limit, IncomingInvite(id, n)).value;
    if id in w.dialed {
      OverwrittenCall(w.dialed[id]);
    }
    assert Dialogs(t) == Dialogs(w);
    assert t.maps.active.Keys == w.maps.active.Keys;
  }

  lemma DialInStep(w: World, limit: nat, id: CallId)
    requires InStep(w) && Step(w, limit, Dial(id)).Some?
    ensures InStep(Step(w, limit, Dial(id)).value)
  {
    assert !Ongoing(Reserved);
  }

  /* Whole runs. */

  ghost predicate InStepAfter(limit: nat, happenings: seq<Happening>, i: nat)
    requires i <= |happenings|
  {
    RunWorld(limit, happenings[..i]).Some? && InStep(RunWorld(limit, happenings[..i]).value)
  }

  ghost predicate AlwaysInStep(limit: nat, happenings: seq<Happening>) {
    forall i :: 0 <= i <= |happenings| ==> InStepAfter(limit, happenings, i)
  }

  ghost predicate KeepsEntries(limit: nat, happenings: seq<Happening>, i: nat)
    requires i < |happenings|
  {
    RunWorld(limit, happenings[..i]).Some? && !Overwrites(RunWorld(limit, happenings[..i]).value, happenings[i])
  }

  ghost predicate NeverOverwrites(limit: nat, happenings: seq<Happening>) {
    forall i :: 0 <= i < |happenings| ==> KeepsEntries(limit, happenings, i)
  }

  lemma InStepAtEnd(limit: nat, happenings: seq<Happening>)
    ensures InStepAfter(limit, happenings, |happenings|)
            <==> RunWorld(limit, happenings).Some? && InStep(RunWorld(limit, happenings).value)
  {
    assert happenings[..|happenings|] == happenings;
  }

  lemma LastInStep(limit: nat, happenings: seq<Happening>, front: seq<Happening>)
    requires happenings != [] && front == happenings[..|happenings| - 1]
    ensures AlwaysInStep(limit, happenings) <==>
              AlwaysInStep(limit, front)
              && RunWorld(limit, happenings).Some? && InStep(RunWorld(limit, happenings).value)
    ensures AlwaysInStep(limit, front) ==> RunWorld(limit, front).Some? && InStep(RunWorld(limit, front).value)
  {
    hide RunWorld, InStep;
    forall i | 0 <= i <= |front|
      ensures InStepAfter(limit, front, i) <==> InStepAfter(limit, happenings, i)
    {
      assert front[..i] == happenings[..i];
    }
    InStepAtEnd(limit, happenings);
    InStepAtEnd(limit, front);
    hide InStepAfter;
  }

  lemma LastOverwrites(limit: nat, happenings: seq<Happening>, front: seq<Happening>)
    requires happenings != [] && front == happenings[..|happenings| - 1]
    ensures NeverOverwrites(limit, happenings) <==>
              NeverOverwrites(limit, front)
              && RunWorld(limit, front).Some? && !Overwrites(RunWorld(limit, front).value, happenings[|front|])
  {
    hide RunWorld, Overwrites;
    forall i | 0 <= i < |front|
      ensures KeepsEntries(limit, front, i) <==> KeepsEntries(limit, happenings, i)
    {
      assert front[..i] == happenings[..i];
    }
    assert KeepsEntries(limit, happenings, |front|) <==>
           RunWorld(limit, front).Some? && !Overwrites(RunWorld(limit, front).value, happenings[|front|]);
    hide KeepsEntries;
  }

  // Over whole runs too: calls and entries are always in step if and only if no step ever overwrites.
  lemma {:induction false} AlwaysInStepIff(limit: nat, happenings: seq<Happening>)
    requires RunWorld(limit, happenings).Some?
    ensures AlwaysInStep(limit, happenings) <==> NeverOverwrites(limit, happenings)
  {
    if happenings == [] {
      InStepAtEnd(limit, happenings);
    } else {
      var n := |happenings| - 1;
      var front := happenings[..n];
      AlwaysInStepIff(limit, front);
      LastInStep(limit, happenings, front);
      LastOverwrites(limit, happenings, front);
      RunWorldInv(limit, front);
      RunGrounded(limit, front);
      hide WorldInv, Grounded, InStep, Overwrites, Step, AlwaysInStep, NeverOverwrites;
      if AlwaysInStep(limit, front) {
        InStepIff(RunWorld(limit, front).value, limit, happenings[n]);
      }
    }
  }

  /* Counting. */

  function CallIds(incoming: set<(CallId, nat)>): set<CallId> {
    set p | p in incoming :: p.0
  }

  lemma {:induction false} OnePerCallId(incoming: set<(CallId, nat)>)
    requires forall p, q :: p in incoming && q in incoming && p.0 == q.0 ==> p == q
    ensures |CallIds(incoming)| == |incoming|
  {
    if incoming != {} {
      var p :| p in incoming;
      var rest := incoming - {p};
      OnePerCallId(rest);
      assert CallIds(incoming) == CallIds(rest) + {p.0};
      assert p.0 !in CallIds(rest);
    }
  }

  // In step, the entries that count are as many as the calls.
  lemma EntriesAreCalls(w: World, limit: nat)
    requires WorldInv(w, limit) && Grounded(w) && InStep(w)
    ensures OpenCalls(w) == |Admitted(w.maps)| + |w.maps.dialing| <= limit
  {
    OnePerCallId(w.incoming);
    forall id
      ensures id in Admitted(w.maps) <==> id in Dialogs(w) || id in CallIds(w.incoming)
      ensures !(id in Dialogs(w) && id in CallIds(w.incoming))
    {
      EntryOfCall(w, limit, id);
    }
    hide WorldInv, Grounded, InStep, Ongoing, SipClient.Late;
    assert Admitted(w.maps) == Dialogs(w) + CallIds(w.incoming) && Dialogs(w) !! CallIds(w.incoming);
    Kept(w, limit);
  }

  lemma Kept(w: World, limit: nat)
    requires WorldInv(w, limit)
    ensures |Admitted(w.maps)| + |w.maps.dialing| <= limit
  {
  }

  lemma EntryOfCall(w: World, limit: nat, id: CallId)
    requires WorldInv(w, limit) && Grounded(w) && InStep(w)
    ensures id in Admitted(w.maps) <==> id in Dialogs(w) || id in CallIds(w.incoming)
    ensures !(id in Dialogs(w) && id in CallIds(w.incoming))
  {
    if id in w.dialed {
      CountedEntry(w, id);
    } else {
      UndialedEntry(w, id);
    }
    hide Inv, Ok, ViewOf, Ongoing, SipClient.Late;
    if id in CallIds(w.incoming) {
      var p :| p in w.incoming && p.0 == id;
    }
    if id in w.maps.active && w.maps.active[id].Theirs? {
      assert (id, w.maps.active[id].number) in w.incoming;
    }
  }

  // As long as no step overwrites an entry, the calls keep the limit.
  lemma CallsWithinLimit(limit: nat, happenings: seq<Happening>, w: World)
    requires RunWorld(limit, happenings) == Some(w) && NeverOverwrites(limit, happenings)
    ensures OpenCalls(w) == |Admitted(w.maps)| + |w.maps.dialing| <= limit
  {
    AlwaysInStepIff(limit, happenings);
    RunWorldInv(limit, happenings);
    RunGrounded(limit, happenings);
    InStepAtEnd(limit, happenings);
    hide WorldInv, Grounded, InStep, InStepAfter, NeverOverwrites, RunWorld, OpenCalls;
    EntriesAreCalls(w, limit);
  }

  /* The check that is missing makes it so. */

  lemma {:induction false} PrefixRuns(limit: nat, happenings: seq<Happening>, i: nat)
    requires RunWorld(limit, happenings).Some? && i <= |happenings|
    ensures RunWorld(limit, happenings[..i]).Some?
  {
    if i == |happenings| {
      assert happenings[..i] == happenings;
    } else {
      var front := happenings[..|happenings| - 1];
      PrefixRuns(limit, front, i);
      assert front[..i] == happenings[..i];
    }
  }

  lemma UnusedNotOverwritten(w: World, limit: nat, h: Happening)
    requires WorldInv(w, limit) && Grounded(w) && AllTidy(w) && Step(w, limit, h).Some?
    requires h.IncomingInvite? ==> UnusedIn(w.maps, h.id)
    ensures !Overwrites(w, h)
  {
    if h.CallStep? && h.id in w.dialed && Establishes(w.dialed[h.id], h.event) {
      EstablishedEntry(w, h.id, h.event);
      hide Inv, Ok, Section, Next;
      assert Tidy(w.dialed[h.id]);
      ForeignView(w.maps, h.id);
    }
  }

  lemma ForeignView(m: Maps, id: CallId)
    ensures ViewOf(m, id).foreign <==> id in m.active && m.active[id].Theirs?
    ensures ViewOf(m, id).dialing <==> id in m.dialing
  {
  }

  // Were every incoming INVITE admitted only under an unused Call-ID, the calls would keep the limit in
  // every reachable state of the client.
  lemma CheckedCallsWithinLimit(limit: nat, happenings: seq<Happening>, w: World)
    requires RunWorld(limit, happenings) == Some(w) && CheckedWorld(limit, happenings)
    ensures OpenCalls(w) <= limit
  {
    forall i | 0 <= i < |happenings|
      ensures KeepsEntries(limit, happenings, i)
    {
      CheckedStep(limit, happenings, i);
    }
    hide RunWorld, Overwrites, CheckedWorld, OpenCalls;
    CallsWithinLimit(limit, happenings, w);
  }

  lemma CheckedStep(limit: nat, happenings: seq<Happening>, i: nat)
    requires RunWorld(limit, happenings).Some? && CheckedWorld(limit, happenings) && i < |happenings|
    ensures KeepsEntries(limit, happenings, i)
  {
    var front := happenings[..i];
    PrefixRuns(limit, happenings, i);
    PrefixRuns(limit, happenings, i + 1);
    assert happenings[..i + 1][..i] == front;
    forall k | 0 <= k < i ensures front[..k] == happenings[..k] {}
    CheckedWorldTidy(limit, front);
    RunWorldInv(limit, front);
    RunGrounded(limit, front);
    hide WorldInv, Grounded, AllTidy, Overwrites, Step;
    UnusedNotOverwritten(RunWorld(limit, front).value, limit, happenings[i]);
  }

  /* Without the check. */

  // With room for one call there is never an entry to overwrite.
  lemma SmallNeverOverwrites(w: World, limit: nat, h: Happening)
    requires limit <= 1 && WorldInv(w, limit) && Grounded(w) && Step(w, limit, h).Some?
    ensures !Overwrites(w, h)
  {
    if h.CallStep? && h.id in w.dialed && Establishes(w.dialed[h.id], h.event) {
      EstablishedEntry(w, h.id, h.event);
      hide Inv, Section, Next, ViewOf;
      SubsetSize({h.id}, w.maps.dialing);
      assert Admitted(w.maps) == {};
      TheirsCounts(w.maps, h.id);
    } else if h.IncomingInvite? {
      assert w.maps.active == map[];
    }
  }

  lemma TheirsCounts(m: Maps, id: CallId)
    ensures id in m.active && m.active[id].Theirs? ==> id in Admitted(m)
  {
  }

  lemma SmallCallsWithinLimit(limit: nat, happenings: seq<Happening>)
    requires limit <= 1 && RunWorld(limit, happenings).Some?
    ensures OpenCalls(RunWorld(limit, happenings).value) <= limit
  {
    forall i | 0 <= i < |happenings|
      ensures KeepsEntries(limit, happenings, i)
    {
      SmallStep(limit, happenings, i);
    }
    hide RunWorld, Overwrites, OpenCalls;
    CallsWithinLimit(limit, happenings, RunWorld(limit, happenings).value);
  }

  lemma SmallStep(limit: nat, happenings: seq<Happening>, i: nat)
    requires limit <= 1 && RunWorld(limit, happenings).Some? && i < |happenings|
    ensures KeepsEntries(limit, happenings, i)
  {
    PrefixRuns(limit, happenings, i);
    PrefixRuns(limit, happenings, i + 1);
    assert happenings[..i + 1][..i] == happenings[..i];
    RunWorldInv(limit, happenings[..i]);
    RunGrounded(limit, happenings[..i]);
    hide WorldInv, Grounded, Overwrites, Step;
    SmallNeverOverwrites(RunWorld(limit, happenings[..i]).value, limit, happenings[i]);
  }

  // Any number of incoming calls under one Call-ID, one entry for all of them.
  lemma {:induction false} ManyUnderOne(limit: nat, id: CallId, k: nat) returns (happenings: seq<Happening>)
    requires limit >= 2
    ensures RunWorld(limit, happenings).Some?
    ensures var w := RunWorld(limit, happenings).value;
            && w.maps.active.Keys <= {id} && w.maps.dialing == {} && w.dialed == map[]
            && |w.incoming| == k && forall p :: p in w.incoming ==> p.1 < k
  {
    if k == 0 {
      happenings := [];
    } else {
      var before := ManyUnderOne(limit, id, k - 1);
      WorldThen(limit, before, IncomingInvite(id, k - 1));
      happenings := before + [IncomingInvite(id, k - 1)];
      var w := RunWorld(limit, before).value;
      SubsetSize(w.maps.active.Keys, {id});
      hide RunWorld;
    }
  }

  // So without the check, and with room for two, there is no bound at all on the calls that go on.
  lemma UncheckedCallsUnbounded(limit: nat, k: nat)
    requires limit >= 2
    ensures exists happenings :: RunWorld(limit, happenings).Some? && OpenCalls(RunWorld(limit, happenings).value) == k
  {
    var happenings := ManyUnderOne(limit, "a", k);
    assert Dialogs(RunWorld(limit, happenings).value) == {};
    hide RunWorld;
  }

  // The calls keep the limit in every run if and only if the limit is at most one.
  lemma CallsLimitIff(limit: nat)
    ensures (forall happenings :: RunWorld(limit, happenings).Some? ==>
               OpenCalls(RunWorld(limit, happenings).value) <= limit)
            <==> limit <= 1
  {
    hide RunWorld, OpenCalls;
    if limit <= 1 {
      forall happenings | RunWorld(limit, happenings).Some?
        ensures OpenCalls(RunWorld(limit, happenings).value) <= limit
      {
        SmallCallsWithinLimit(limit, happenings);
      }
    } else {
      UncheckedCallsUnbounded(limit, limit + 1);
    }
  }
}
