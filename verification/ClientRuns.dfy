/** Whole runs of the SIP client: any number of dialed calls and incoming calls, every goroutine of
    every call interleaved, over the one set of maps. */
module ClientRuns {
  import opened Wrappers
  import opened InviteProtocol
  import opened CallIdReuse
  import opened SipClient

  // The maps, the goroutines of every Call-ID dialed so far, and the incoming calls that are admitted and
  // have not ended, whether or not an entry of the maps still leads to them.
  datatype World = World(maps: Maps, dialed: map<CallId, State>, incoming: set<(CallId, nat)>)

  const NoCalls := World(Maps(map[], map[], {}, map[], {}, map[]), map[], {})

  datatype Happening =
    | Dial(id: CallId)
    | CallStep(id: CallId, event: Event)
    | IncomingInvite(id: CallId, number: nat)
    | IncomingEnds(id: CallId, number: nat)

  // The critical section, if any, that an event of a dialed call runs.
  function Section(m: Maps, id: CallId, s: State, e: Event): Maps {
    var cseq := s.dialer.cseq;
    match e
    case Open => m.(transactions := m.transactions[(id, cseq) := []])
    case Receive =>
      if (id, cseq) in m.transactions && m.transactions[(id, cseq)] != [] then
        m.(transactions := m.transactions[(id, cseq) := m.transactions[(id, cseq)][1..]])
      else m
    case Deadline =>
      if s.dialer.cancelRequested && (id, cseq) in m.transactions then
        AfterTransition(m, id, cseq, s.dialer.cancelSent).0
      else m
    case CloseTransaction => m.(transactions := m.transactions - {(id, cseq)})
    case HandleFinal(_) =>
      if s.dialer.pc.Returned? && Success(s.dialer.pc.final) then AfterEstablish(m, id, cseq) else m
    case Arrive(r) => AfterDeliver(m, id, r)
    case LookUp => if s.reader.Looking? then AfterUnmatched(m, id, s.reader.response).0 else m
    case SendBye => if id in m.calls then AfterNextCSeq(m, id) else m
    case LateBye => if id in m.calls then AfterNextCSeq(m, id) else m
    case ByeDone => if id in m.calls then AfterFinish(m, id) else m
    case LateByeDone => if id in m.calls then AfterFinish(m, id) else m
    case RemoteBye => if id in m.calls then AfterFinish(m, id) else m
    case FailReturn => m.(dialing := m.dialing - {id})
    case ExpireTombstone => m.(canceled := m.canceled - {id})
    case ExpireCompleted => m.(completed := m.completed - {id})
    case _ => m
  }

  // What a dialed call under this Call-ID, if there is one, sees of an incoming one.
  function Meets(w: World, id: CallId, e: Event): map<CallId, State> {
    if id in w.dialed && Next(w.dialed[id], e).Some? then w.dialed[id := Next(w.dialed[id], e).value] else w.dialed
  }

  // Call-IDs of dialed calls are random: new when they are dialed. After that a peer knows them.
  function Step(w: World, limit: nat, h: Happening): Option<World> {
    match h
    case Dial(id) =>
      if id in w.dialed || ViewOf(w.maps, id) != View(false, map[], None, None, false, false, false)
         || !HasCapacity(w.maps, limit) then None
      else Some(w.(maps := w.maps.(dialing := w.maps.dialing + {id}), dialed := w.dialed[id := Reserved]))
    case CallStep(id, e) =>
      if id !in w.dialed || e.PeerReuses? || e.PeerCallEnds? then None
      else
        (match Next(w.dialed[id], e)
         case None => None
         case Some(s) => Some(w.(maps := Section(w.maps, id, w.dialed[id], e), dialed := w.dialed[id := s])))
    case IncomingInvite(id, n) =>
      if !HasCapacity(w.maps, limit) || (id, n) in w.incoming then None
      else
        Some(World(w.maps.(active := w.maps.active[id := Theirs(n)]), Meets(w, id, PeerReuses),
                   w.incoming + {(id, n)}))
    case IncomingEnds(id, n) =>
      if (id, n) !in w.incoming then None
      else
        var after := AfterFinishIncoming(w.maps, id, n);
        Some(World(after, if after == w.maps then w.dialed else Meets(w, id, PeerCallEnds), w.incoming - {(id, n)}))
  }

  function RunWorld(limit: nat, happenings: seq<Happening>): Option<World> {
    if happenings == [] then Some(NoCalls)
    else
      match RunWorld(limit, happenings[..|happenings| - 1])
      case None => None
      case Some(w) => Step(w, limit, happenings[|happenings| - 1])
  }

  // The maps say about every dialed call exactly what its own protocol run says.
  ghost predicate WorldInv(w: World, limit: nat) {
    && Ok(w.maps, limit)
    && forall id :: id in w.dialed ==> ViewOf(w.maps, id) == w.dialed[id].view && Inv(w.dialed[id])
  }

  lemma SectionRefines(m: Maps, limit: nat, id: CallId, s: State, e: Event)
    requires Ok(m, limit) && ViewOf(m, id) == s.view && Inv(s) && Next(s, e).Some?
    requires !e.PeerReuses? && !e.PeerCallEnds?
    ensures var n := Section(m, id, s, e);
            Ok(n, limit) && ViewOf(n, id) == Next(s, e).value.view && SameElsewhere(m, n, id)
  {
    var cseq := s.dialer.cseq;
    QueueAt(m, id, cseq);
    hide Ok, Inv, TransactionsOf;
    match e
    case Open => OpenSection(m, limit, id, cseq);
    case Receive => ReceiveSection(m, limit, id, s);
    case Deadline => DeadlineSection(m, limit, id, s);
    case CloseTransaction => CloseSection(m, limit, id, cseq);
    case HandleFinal(ok) => FinalSection(m, limit, id, s, ok);
    case Arrive(r) => ArriveSection(m, limit, id, s, r);
    case LookUp => LookUpSection(m, limit, id, s);
    case SendBye => ByeSection(m, limit, id, s, e);
    case LateBye => ByeSection(m, limit, id, s, e);
    case ByeDone => EndSection(m, limit, id, s, e);
    case LateByeDone => EndSection(m, limit, id, s, e);
    case RemoteBye => EndSection(m, limit, id, s, e);
    case FailReturn => ReleaseSection(m, limit, id);
    case ExpireTombstone => ExpirySections(m, limit, id);
    case ExpireCompleted => ExpirySections(m, limit, id);
    case CancelContext =>
    case ContextDone =>
    case SendDueCancel =>
    case SendAck =>
    case Check(_) =>
    case Act =>
    case PeerReuses =>
    case PeerCallEnds =>
  }

  lemma ReceiveSection(m: Maps, limit: nat, id: CallId, s: State)
    requires Ok(m, limit) && ViewOf(m, id) == s.view && Received(s).Some?
    ensures var n := Section(m, id, s, Receive);
            Ok(n, limit) && ViewOf(n, id) == Received(s).value.view && SameElsewhere(m, n, id)
  {
    var cseq := s.dialer.cseq;
    QueueAt(m, id, cseq);
    CallsUntouched(m, Section(m, id, s, Receive), limit);
    QueueSet(m, id, cseq, m.transactions[(id, cseq)][1..]);
    hide Ok, TransactionsOf;
  }

  lemma DeadlineSection(m: Maps, limit: nat, id: CallId, s: State)
    requires Ok(m, limit) && ViewOf(m, id) == s.view && DeadlineFired(s).Some?
    ensures var n := Section(m, id, s, Deadline);
            Ok(n, limit) && ViewOf(n, id) == DeadlineFired(s).value.view && SameElsewhere(m, n, id)
  {
    hide Ok, TransactionsOf, HandedOff, AfterTransition;
    QueueAt(m, id, s.dialer.cseq);
    if s.dialer.cancelRequested {
      TransitionSection(m, limit, id, s.dialer.cseq, s.dialer.cancelSent);
    }
  }

  lemma FinalSection(m: Maps, limit: nat, id: CallId, s: State, ok: bool)
    requires Ok(m, limit) && ViewOf(m, id) == s.view && Inv(s) && FinalHandled(s, ok).Some?
    ensures var n := Section(m, id, s, HandleFinal(ok));
            Ok(n, limit) && ViewOf(n, id) == FinalHandled(s, ok).value.view && SameElsewhere(m, n, id)
  {
    hide Ok, Inv, TransactionsOf;
    StillReserved(s);
    if Success(s.dialer.pc.final) {
      EstablishSection(m, limit, id, s.dialer.cseq);
    }
  }

  lemma StillReserved(s: State)
    requires Inv(s) && s.dialer.pc.Returned?
    ensures s.view.dialing
  {
  }

  lemma ArriveSection(m: Maps, limit: nat, id: CallId, s: State, r: Response)
    requires Ok(m, limit) && ViewOf(m, id) == s.view && Inv(s) && Arrived(s, r).Some?
    ensures var n := AfterDeliver(m, id, r);
            Ok(n, limit) && ViewOf(n, id) == Arrived(s, r).value.view && SameElsewhere(m, n, id)
  {
    assert r.cseq in s.view.transactions ==> s.log.Some?;
    hide Ok, Inv, TransactionsOf;
    DeliverSection(m, limit, id, r);
  }

  lemma LookUpSection(m: Maps, limit: nat, id: CallId, s: State)
    requires Ok(m, limit) && ViewOf(m, id) == s.view && Inv(s) && LookedUp(s).Some?
    ensures var n := Section(m, id, s, LookUp);
            Ok(n, limit) && ViewOf(n, id) == LookedUp(s).value.view && SameElsewhere(m, n, id)
  {
    hide Ok, Inv, ViewOf, Unmatched, AfterUnmatched, LookedUp, SameElsewhere;
    TombstoneMeansNoCall(m, id, s);
    LookUpView(s);
    UnmatchedSection(m, limit, id, s.reader.response);
  }

  lemma LookUpView(s: State)
    requires LookedUp(s).Some?
    ensures s.reader.Looking? && LookedUp(s).value.view == Unmatched(s.view, s.reader.response).0
  {
    hide Unmatched;
  }

  lemma TombstoneMeansNoCall(m: Maps, id: CallId, s: State)
    requires ViewOf(m, id) == s.view && Inv(s)
    ensures id in m.canceled ==> id !in m.calls
  {
    assert s.view.tombstone.Some? ==> s.view.call.None?;
  }

  lemma ByeSection(m: Maps, limit: nat, id: CallId, s: State, e: Event)
    requires Ok(m, limit) && ViewOf(m, id) == s.view && Inv(s) && Next(s, e).Some? && (e.SendBye? || e.LateBye?)
    ensures var n := Section(m, id, s, e);
            Ok(n, limit) && ViewOf(n, id) == Next(s, e).value.view && SameElsewhere(m, n, id)
  {
    hide Ok, Inv, TransactionsOf, AfterNextCSeq, Bumped;
    CallInDialog(s, e);
    NextCSeqSection(m, limit, id);
  }

  lemma CallInDialog(s: State, e: Event)
    requires Inv(s) && Next(s, e).Some?
    requires e.SendBye? || e.LateBye? || e.ByeDone? || e.LateByeDone? || e.RemoteBye?
    ensures s.view.call.Some?
  {
  }

  lemma EndSection(m: Maps, limit: nat, id: CallId, s: State, e: Event)
    requires Ok(m, limit) && ViewOf(m, id) == s.view && Inv(s) && Next(s, e).Some?
    requires e.ByeDone? || e.LateByeDone? || e.RemoteBye?
    ensures var n := Section(m, id, s, e);
            Ok(n, limit) && ViewOf(n, id) == Next(s, e).value.view && SameElsewhere(m, n, id)
  {
    hide Ok, Inv, TransactionsOf, AfterFinish, Finished;
    CallInDialog(s, e);
    FinishSection(m, limit, id);
  }

  lemma WorldStep(w: World, limit: nat, h: Happening)
    requires WorldInv(w, limit) && Step(w, limit, h).Some?
    ensures WorldInv(Step(w, limit, h).value, limit)
  {
    hide Ok, Inv, ViewOf, Section, Next;
    match h
    case Dial(id) =>
      ReserveSection(w.maps, limit, id);
      ReservedInv();
    case CallStep(id, e) =>
      SectionRefines(w.maps, limit, id, w.dialed[id], e);
      StepInv(w.dialed[id], e);
    case IncomingInvite(id, n) =>
      AdmitSection(w.maps, limit, id, n);
      if id in w.dialed {
        MeetsReuse(w.dialed[id]);
      }
    case IncomingEnds(id, n) =>
      FinishIncomingSection(w.maps, limit, id, n);
      if id in w.dialed {
        MeetsEnd(w.dialed[id]);
      }
  }

  lemma MeetsReuse(s: State)
    requires Inv(s)
    ensures Next(s, PeerReuses).Some?
    ensures var t := Next(s, PeerReuses).value; t.view == Overwritten(s.view) && Inv(t)
  {
    hide Inv;
    ReuseInv(s);
  }

  lemma MeetsEnd(s: State)
    requires Inv(s)
    ensures Next(s, PeerCallEnds).Some? <==> s.view.foreign
    ensures s.view.foreign ==> var t := Next(s, PeerCallEnds).value; t.view == Vacated(s.view) && Inv(t)
  {
    hide Inv;
    VacatedInv(s);
  }

  lemma {:induction false} RunWorldInv(limit: nat, happenings: seq<Happening>)
    requires RunWorld(limit, happenings).Some?
    ensures WorldInv(RunWorld(limit, happenings).value, limit)
  {
    if happenings == [] {
      assert Admitted(RunWorld(limit, happenings).value.maps) == {};
    } else {
      var front := happenings[..|happenings| - 1];
      RunWorldInv(limit, front);
      WorldStep(RunWorld(limit, front).value, limit, happenings[|happenings| - 1]);
    }
  }

  // In every reachable state of the client, whatever Call-IDs its peers name, the entries of the maps keep
  // the limit, counting everything but late dialogs being torn down. What that says about the calls
  // themselves is the matter of CallLimit.
  lemma EntriesWithinLimit(limit: nat, happenings: seq<Happening>, w: World)
    requires RunWorld(limit, happenings) == Some(w)
    ensures |Admitted(w.maps)| + |w.maps.dialing| <= limit
  {
    hide RunWorld;
    RunWorldInv(limit, happenings);
  }

  function PlacesOf(m: Maps, id: CallId): nat {
    B(id in m.canceled) + B(id in m.active) + B(id in m.completed)
  }

  // The check that is missing from the admission of incoming INVITEs.
  predicate UnusedIn(m: Maps, id: CallId) {
    id !in m.dialing && id !in m.active && id !in m.canceled && id !in m.completed
  }

  ghost predicate CheckedWorld(limit: nat, happenings: seq<Happening>) {
    forall i :: 0 <= i < |happenings| && happenings[i].IncomingInvite? ==>
      var w := RunWorld(limit, happenings[..i]);
      w.Some? && UnusedIn(w.value.maps, happenings[i].id)
  }

  ghost predicate AllTidy(w: World) {
    forall id :: id in w.dialed ==> Tidy(w.dialed[id])
  }

  lemma UnusedAlike(m: Maps, id: CallId)
    ensures UnusedIn(m, id) <==> Unused(ViewOf(m, id))
    ensures PlacesOf(m, id) == Places(ViewOf(m, id))
  {
    hide TransactionsOf;
  }

  lemma TidyWorldStep(w: World, limit: nat, h: Happening)
    requires WorldInv(w, limit) && AllTidy(w) && Step(w, limit, h).Some?
    requires h.IncomingInvite? && h.id in w.dialed ==> UnusedIn(w.maps, h.id)
    ensures AllTidy(Step(w, limit, h).value)
  {
    hide Ok, Inv, ViewOf, Section, Next, Tidy;
    match h
    case Dial(id) => ReservedTidy();
    case CallStep(id, e) => TidyStep(w.dialed[id], e);
    case IncomingInvite(id, n) =>
      if id in w.dialed {
        UnusedAlike(w.maps, id);
        MeetsReuse(w.dialed[id]);
        TidyStep(w.dialed[id], PeerReuses);
      }
    case IncomingEnds(id, n) =>
      if id in w.dialed && Next(w.dialed[id], PeerCallEnds).Some? {
        TidyStep(w.dialed[id], PeerCallEnds);
      }
  }

  lemma ReservedTidy()
    ensures Tidy(Reserved)
  {
  }

  lemma {:induction false} CheckedWorldTidy(limit: nat, happenings: seq<Happening>)
    requires RunWorld(limit, happenings).Some? && CheckedWorld(limit, happenings)
    ensures AllTidy(RunWorld(limit, happenings).value)
  {
    if happenings != [] {
      var n := |happenings| - 1;
      var front := happenings[..n];
      forall i | 0 <= i < n ensures front[..i] == happenings[..i] {}
      CheckedWorldTidy(limit, front);
      RunWorldInv(limit, front);
      hide WorldInv, AllTidy, Step;
      TidyWorldStep(RunWorld(limit, front).value, limit, happenings[n]);
    }
  }

  // With the check, in every reachable state of the client every dialed Call-ID is in at most one of the
  // three maps.
  lemma ClientSafety(limit: nat, happenings: seq<Happening>, w: World)
    requires RunWorld(limit, happenings) == Some(w) && CheckedWorld(limit, happenings)
    ensures forall id :: id in w.dialed ==> PlacesOf(w.maps, id) <= 1
  {
    CheckedWorldTidy(limit, happenings);
    RunWorldInv(limit, happenings);
    hide RunWorld, Inv, Tidy, Places, PlacesOf, ViewOf, Ok;
    forall id | id in w.dialed
      ensures PlacesOf(w.maps, id) <= 1
    {
      UnusedAlike(w.maps, id);
      TidyIsOnePlace(w.dialed[id]);
    }
  }

  // Only a dialog answered after its cancellation is exempt from the limit.
  lemma ExemptMeansLate(limit: nat, happenings: seq<Happening>, w: World, id: CallId)
    requires RunWorld(limit, happenings) == Some(w)
    requires id in w.dialed && id in w.maps.active && id !in Admitted(w.maps)
    ensures var s := w.dialed[id];
            && s.log.Some? && s.log.value.observed && s.log.value.owner.Some?
            && s.log.value.owner.value.Tomb? && Success(s.log.value.owner.value.response)
  {
    hide RunWorld;
    RunWorldInv(limit, happenings);
    assert ViewOf(w.maps, id) == w.dialed[id].view;
  }

  lemma WorldThen(limit: nat, happenings: seq<Happening>, h: Happening)
    ensures RunWorld(limit, happenings + [h])
            == match RunWorld(limit, happenings) case None => None case Some(w) => Step(w, limit, h)
  {
    assert (happenings + [h])[..|happenings|] == happenings;
  }

  // What a dialed call went through is a run of its protocol, so all that holds of those runs holds here.
  lemma {:induction false} EveryCallIsARun(limit: nat, happenings: seq<Happening>, id: CallId) returns (events: seq<Event>)
    requires RunWorld(limit, happenings).Some? && id in RunWorld(limit, happenings).value.dialed
    ensures Run(events) == Some(RunWorld(limit, happenings).value.dialed[id])
  {
    var n := |happenings| - 1;
    var front, h := happenings[..n], happenings[n];
    var w := RunWorld(limit, front).value;
    RunThen([], Open);
    if id !in w.dialed || (h.Dial? && h.id == id) {
      events := [];
    } else {
      var before := EveryCallIsARun(limit, front, id);
      var s := w.dialed[id];
      var t := RunWorld(limit, happenings).value.dialed[id];
      var step := if h.CallStep? then h.event else if h.IncomingInvite? then PeerReuses else PeerCallEnds;
      hide Run;
      RunThen(before, step);
      events := if Next(s, step) == Some(t) then before + [step] else before;
      assert Next(s, step) == Some(t) || s == t;
    }
  }

  // With room for a single call, and not a single re-INVITE: a peer that names the Call-ID of a call just
  // given up is admitted beside its tombstone.
  lemma UncheckedWorldBreaks(limit: nat)
    requires limit >= 1
    ensures exists happenings :: RunWorld(limit, happenings).Some? &&
              var w := RunWorld(limit, happenings).value;
              exists id :: id in w.dialed && PlacesOf(w.maps, id) == 2
  {
    var id := "a";
    var given, w := GivenUpWorld(limit, id);
    hide RunWorld;
    var h := IncomingInvite(id, 1);
    WorldThen(limit, given, h);
    var all := given + [h];
    assert RunWorld(limit, all).Some?;
    assert PlacesOf(RunWorld(limit, all).value.maps, id) == 2;
  }

  // The one call of a client that does nothing else.
  predicate Lone(w: World, id: CallId, d: Dialer, open: bool) {
    && id in w.dialed
    && w.dialed[id].dialer == d && (w.dialed[id].log.Some? <==> d.pc != Starting)
    && w.dialed[id].view.transactions == (if open then map[1 := []] else map[])
    && w.maps.transactions == (if open then map[(id, 1) := []] else map[])
    && w.maps.active == map[] && w.maps.dialing == {id} && w.maps.completed == {} && w.incoming == {}
  }

  lemma DialOnce(limit: nat, id: CallId)
    requires limit >= 1
    ensures var w := Step(NoCalls, limit, Dial(id));
            w.Some? && Lone(w.value, id, Reserved.dialer, false)
  {
    assert TransactionsOf(NoCalls.maps, id) == map[];
  }

  lemma OpenOnce(w: World, limit: nat, id: CallId)
    requires Lone(w, id, Reserved.dialer, false)
    ensures var t := Step(w, limit, CallStep(id, Open));
            t.Some? && Lone(t.value, id, Dialer(Waiting, 1, false, false, false, false), true)
  {
  }

  lemma CancelOnce(w: World, limit: nat, id: CallId)
    requires Lone(w, id, Dialer(Waiting, 1, false, false, false, false), true)
    ensures var t := Step(w, limit, CallStep(id, CancelContext));
            t.Some? && Lone(t.value, id, Dialer(Waiting, 1, true, false, false, false), true)
  {
  }

  lemma SeeOnce(w: World, limit: nat, id: CallId)
    requires Lone(w, id, Dialer(Waiting, 1, true, false, false, false), true)
    ensures var t := Step(w, limit, CallStep(id, ContextDone));
            t.Some? && Lone(t.value, id, Dialer(Waiting, 1, true, true, false, false), true)
  {
  }

  lemma HandOffOnce(w: World, limit: nat, id: CallId)
    requires Lone(w, id, Dialer(Waiting, 1, true, true, false, false), true)
    ensures var t := Step(w, limit, CallStep(id, Deadline));
            && t.Some? && Lone(t.value, id, Dialer(Tombstoned(false), 1, true, true, false, false), false)
            && id in t.value.maps.canceled
  {
    var queue := w.dialed[id].view.transactions[1];
    assert FirstFinal(queue) == None;
  }

  lemma ReleaseOnce(w: World, limit: nat, id: CallId)
    requires Lone(w, id, Dialer(Tombstoned(false), 1, true, true, false, false), false) && id in w.maps.canceled
    ensures var t := Step(w, limit, CallStep(id, SendDueCancel));
            && t.Some? && Lone(t.value, id, Dialer(Failing, 1, true, true, false, false), false)
            && id in t.value.maps.canceled
  {
  }

  lemma GiveUpOnce(w: World, limit: nat, id: CallId)
    requires Lone(w, id, Dialer(Failing, 1, true, true, false, false), false) && id in w.maps.canceled
    ensures var t := Step(w, limit, CallStep(id, FailReturn));
            && t.Some? && id in t.value.dialed && id in t.value.maps.canceled
            && t.value.maps.active == map[] && t.value.maps.dialing == {} && t.value.maps.completed == {}
            && t.value.incoming == {}
  {
  }

  lemma GivenUpWorld(limit: nat, id: CallId) returns (happenings: seq<Happening>, w: World)
    requires limit >= 1
    ensures RunWorld(limit, happenings) == Some(w)
    ensures id in w.dialed && id in w.maps.canceled && id !in w.maps.completed
    ensures w.maps.active == map[] && w.maps.dialing == {} && w.incoming == {}
  {
    assert RunWorld(limit, []) == Some(NoCalls);
    hide RunWorld, Step, Lone;
    DialOnce(limit, id);
    WorldThen(limit, [], Dial(id));
    var h0 := [] + [Dial(id)];
    OpenOnce(RunWorld(limit, h0).value, limit, id);
    WorldThen(limit, h0, CallStep(id, Open));
    var h1 := h0 + [CallStep(id, Open)];
    CancelOnce(RunWorld(limit, h1).value, limit, id);
    WorldThen(limit, h1, CallStep(id, CancelContext));
    var h2 := h1 + [CallStep(id, CancelContext)];
    SeeOnce(RunWorld(limit, h2).value, limit, id);
    WorldThen(limit, h2, CallStep(id, ContextDone));
    var h3 := h2 + [CallStep(id, ContextDone)];
    HandOffOnce(RunWorld(limit, h3).value, limit, id);
    WorldThen(limit, h3, CallStep(id, Deadline));
    var h4 := h3 + [CallStep(id, Deadline)];
    ReleaseOnce(RunWorld(limit, h4).value, limit, id);
    WorldThen(limit, h4, CallStep(id, SendDueCancel));
    var h5 := h4 + [CallStep(id, SendDueCancel)];
    GiveUpOnce(RunWorld(limit, h5).value, limit, id);
    WorldThen(limit, h5, CallStep(id, FailReturn));
    happenings := h5 + [CallStep(id, FailReturn)];
    w := RunWorld(limit, happenings).value;
  }
}
