/** Incoming INVITEs of internal/sip/incoming.go: the server transaction of one request against the
    application's answer, CANCEL, ACK, repeated requests and timers, and the table that keeps one
    entry per server key. */
module IncomingInvites {
  import opened Wrappers

  datatype Phase = Pending | Answered | Acknowledged | Rejected | Canceled

  // The response packets an INVITE can get; `lastResponse` holds one of them.
  datatype Packet = Trying | Ok(rtpPort: nat) | Refusal(code: nat, reason: string) | Terminated

  // serverInviteKey
  datatype Key = Key(callId: string, cseq: nat, branch: string)

  datatype Outcome = CallCanceled | CallRejected(code: nat) | AckTimeout | CallEnded

  // A copy of lastResponse on its way to the socket, and whether it was taken after the INVITE had
  // left the pending phase.
  datatype Copy = Copy(packet: Packet, settled: bool)

  datatype Invite = Invite(
    key: Key,
    phase: Phase,
    lastResponse: Packet,
    acked: bool,               // `acked` closed
    stopped: bool,             // `stop` closed
    expiring: bool,            // expiryOnce has fired
    outcomes: seq<Outcome>,    // results put into Done
    endings: nat,              // successful Answer, Reject and CANCEL
    ackedBy: Option<nat>,      // CSeq of the ACK that counted
    cancelReplies: seq<nat>,   // what the CANCELs of this INVITE were answered with
    inFlight: seq<Copy>,       // copied under the lock, not written yet
    sent: seq<Copy>)

  function Admitted(key: Key): Invite {
    Invite(key, Pending, Trying, false, false, false, [], 0, None, [], [], [])
  }

  datatype Verdict = Done | BadArgument | WasCanceled | NotPending

  function Refused(i: Invite): Verdict {
    if i.phase == Canceled then WasCanceled else NotPending
  }

  function Settle(i: Invite, phase: Phase, packet: Packet): Invite {
    i.(phase := phase, lastResponse := packet, endings := i.endings + 1, inFlight := i.inFlight + [Copy(packet, true)])
  }

  /* The critical sections under IncomingInvite.mu. */

  function AnswerSection(i: Invite, rtpPort: int): (Invite, Verdict) {
    if rtpPort < 1 || rtpPort > 65535 then (i, BadArgument)
    else if i.phase != Pending then (i, Refused(i))
    else (Settle(i, Answered, Ok(rtpPort)), Done)
  }

  function RejectSection(i: Invite, code: int, reason: string): (Invite, Verdict) {
    if code < 400 || code > 699 then (i, BadArgument)
    else if i.phase != Pending then (i, Refused(i))
    else (Settle(i, Rejected, Refusal(code, reason)), Done)
  }

  // The Verdict decides between 200 and 481 for the CANCEL itself.
  function CancelSection(i: Invite): (Invite, Verdict) {
    if i.phase != Pending then (i.(cancelReplies := i.cancelReplies + [481]), NotPending)
    else (Settle(i, Canceled, Terminated).(cancelReplies := i.cancelReplies + [200]), Done)
  }

  function AcknowledgeSection(i: Invite, cseq: nat): Invite {
    if cseq != i.key.cseq || i.phase != Answered then i
    else i.(phase := Acknowledged, acked := true, expiring := true, ackedBy := Some(cseq))
  }

  // A repeated INVITE or the retransmission timer copies whatever the last response is.
  function ResendSection(i: Invite): Invite {
    i.(inFlight := i.inFlight + [Copy(i.lastResponse, i.phase != Pending)])
  }

  // Call.finish for an incoming call, guarded by doneOnce.
  function Finished(i: Invite, o: Outcome): Invite {
    if i.outcomes != [] then i else i.(outcomes := [o], stopped := true, expiring := true)
  }

  // Which outcomes the program can report in a phase.
  predicate CanFinish(i: Invite, o: Outcome) {
    match o
    case CallCanceled => i.phase == Canceled
    case CallRejected(code) => i.phase == Rejected && i.lastResponse.Refusal? && i.lastResponse.code == code
    case AckTimeout => i.phase == Answered || i.phase == Acknowledged
    case CallEnded => true
  }

  datatype Event =
    | Answer(rtpPort: int) | Reject(code: int, reason: string) | Cancel | Ack(cseq: nat)
    | RepeatedInvite | RetransmitTimer | Write(at: nat) | Finish(outcome: Outcome)

  function Next(i: Invite, e: Event): Option<Invite> {
    match e
    case Answer(port) => Some(AnswerSection(i, port).0)
    case Reject(code, reason) => Some(RejectSection(i, code, reason).0)
    case Cancel => Some(CancelSection(i).0)
    case Ack(cseq) => Some(AcknowledgeSection(i, cseq))
    case RepeatedInvite => Some(ResendSection(i))
    case RetransmitTimer =>
      if i.acked || i.stopped || !(i.phase == Answered || i.phase == Acknowledged) then None else Some(ResendSection(i))
    case Write(at) =>
      if at >= |i.inFlight| then None
      else Some(i.(inFlight := i.inFlight[..at] + i.inFlight[at + 1..], sent := i.sent + [i.inFlight[at]]))
    case Finish(o) => if CanFinish(i, o) then Some(Finished(i, o)) else None
  }

  predicate GoodCopy(i: Invite, c: Copy) {
    && (c.settled ==> i.phase != Pending && c.packet == i.lastResponse)
    && (!c.settled ==> c.packet == Trying)
  }

  predicate PhaseFits(i: Invite) {
    match i.phase
    case Pending => i.lastResponse == Trying
    case Answered => i.lastResponse.Ok?
    case Acknowledged => i.lastResponse.Ok?
    case Rejected => i.lastResponse.Refusal?
    case Canceled => i.lastResponse == Terminated
  }

  function OkReplies(replies: seq<nat>): nat {
    multiset(replies)[200]
  }

  ghost predicate Inv(i: Invite) {
    && PhaseFits(i)
    && i.endings == (if i.phase == Pending then 0 else 1)
    && (i.phase == Acknowledged <==> i.acked) && (i.acked <==> i.ackedBy == Some(i.key.cseq))
    && (i.ackedBy.Some? ==> i.acked)
    && OkReplies(i.cancelReplies) == (if i.phase == Canceled then 1 else 0)
    && (forall r :: r in i.cancelReplies ==> r == 200 || r == 481)
    && (forall c :: c in i.inFlight ==> GoodCopy(i, c))
    && (forall c :: c in i.sent ==> GoodCopy(i, c))
    && |i.outcomes| <= 1
    && (forall o :: o in i.outcomes ==> CanFinish(i, o))
  }

  // The edges of the phase diagram.
  predicate Moves(from: Phase, to: Phase) {
    || to == from
    || (from == Pending && to in {Answered, Rejected, Canceled})
    || (from == Answered && to == Acknowledged)
  }

  lemma StepInv(i: Invite, e: Event)
    requires Inv(i) && Next(i, e).Some?
    ensures Inv(Next(i, e).value)
    ensures Moves(i.phase, Next(i, e).value.phase)
    ensures i.phase != Pending ==> Next(i, e).value.lastResponse == i.lastResponse
  {
    match e
    case Answer(port) => SettleInv(i, Answered, Ok(if port < 0 then 0 else port));
    case Reject(code, reason) => SettleInv(i, Rejected, Refusal(if code < 0 then 0 else code, reason));
    case Cancel => CancelInv(i);
    case Ack(cseq) => AckInv(i, cseq);
    case Write(at) => WriteInv(i, at);
    case Finish(o) =>
    case _ => ResendInv(i);
  }

  lemma CancelInv(i: Invite)
    requires Inv(i)
    ensures Inv(CancelSection(i).0)
  {
    var n := CancelSection(i).0;
    assert multiset(n.cancelReplies) == multiset(i.cancelReplies) + multiset{n.cancelReplies[|i.cancelReplies|]};
    assert forall c :: GoodCopy(i, c) ==> GoodCopy(n, c);
  }

  lemma SettleInv(i: Invite, phase: Phase, packet: Packet)
    requires Inv(i)
    requires match phase { case Answered => packet.Ok? case Rejected => packet.Refusal? case _ => false }
    ensures i.phase == Pending ==> Inv(Settle(i, phase, packet))
  {
    if i.phase == Pending {
      var n := Settle(i, phase, packet);
      forall c | c in n.inFlight ensures GoodCopy(n, c) {
        assert c in i.inFlight ==> GoodCopy(i, c);
      }
      forall c | c in n.sent ensures GoodCopy(n, c) {
        assert GoodCopy(i, c);
      }
    }
  }

  lemma AckInv(i: Invite, cseq: nat)
    requires Inv(i)
    ensures Inv(AcknowledgeSection(i, cseq))
  {
    var n := AcknowledgeSection(i, cseq);
    assert forall c :: GoodCopy(i, c) ==> GoodCopy(n, c);
  }

  lemma ResendInv(i: Invite)
    requires Inv(i)
    ensures Inv(ResendSection(i))
  {
    var n := ResendSection(i);
    assert forall c :: GoodCopy(n, c) <==> GoodCopy(i, c);
    assert GoodCopy(n, Copy(i.lastResponse, i.phase != Pending));
  }

  lemma WriteInv(i: Invite, at: nat)
    requires Inv(i) && at < |i.inFlight|
    ensures Inv(Next(i, Write(at)).value)
  {
    var n := Next(i, Write(at)).value;
    assert forall c :: GoodCopy(n, c) <==> GoodCopy(i, c);
    assert i.inFlight[at] in i.inFlight;
  }

  // The invite after a history of events, all of them enabled.
  function History(key: Key, events: seq<Event>): Option<Invite> {
    if events == [] then Some(Admitted(key))
    else
      match History(key, events[..|events| - 1])
      case None => None
      case Some(i) => Next(i, events[|events| - 1])
  }

  lemma {:induction false} HistoryInv(key: Key, events: seq<Event>)
    requires History(key, events).Some?
    ensures Inv(History(key, events).value) && History(key, events).value.key == key
  {
    if events != [] {
      hide Inv;
      var front := events[..|events| - 1];
      HistoryInv(key, front);
      StepInv(History(key, front).value, events[|events| - 1]);
    }
  }

  // Whatever races, an INVITE leaves the pending phase at most once: of all calls to Answer and
  // Reject and all CANCELs at most one succeeds, and the phase says which.
  lemma OneEnding(key: Key, events: seq<Event>, i: Invite)
    requires History(key, events) == Some(i)
    ensures i.endings <= 1 && (i.endings == 1 <==> i.phase != Pending)
  {
    HistoryInv(key, events);
  }

  // From pending the phase can only become answered, rejected or canceled, and only answered can
  // move on, to acknowledged, by an ACK that carries the INVITE's CSeq (section 13.3.1.4).
  lemma PhasesInOrder(key: Key, events: seq<Event>, i: Invite, e: Event)
    requires History(key, events) == Some(i) && Next(i, e).Some?
    ensures var n := Next(i, e).value;
            && Moves(i.phase, n.phase)
            && (i.phase == Answered && n.phase == Acknowledged ==> e == Ack(key.cseq))
  {
    HistoryInv(key, events);
    StepInv(i, e);
  }

  // A CANCEL gets its 200 if and only if it is the one that ends the INVITE; any other, a repeated one
  // included, gets 481, although its INVITE has a server transaction (section 9.2 asks for 200).
  lemma CancelOkIff(key: Key, events: seq<Event>, i: Invite)
    requires History(key, events) == Some(i)
    ensures var n := Next(i, Cancel).value;
            && Next(i, Cancel).Some? && |n.cancelReplies| == |i.cancelReplies| + 1
            && n.cancelReplies[..|i.cancelReplies|] == i.cancelReplies
            && var reply := n.cancelReplies[|i.cancelReplies|];
               (if i.phase == Pending then reply == 200 && n.phase == Canceled else reply == 481 && n.phase == i.phase)
    ensures OkReplies(i.cancelReplies) <= 1
    ensures 200 in i.cancelReplies <==> i.phase == Canceled
  {
    HistoryInv(key, events);
  }

  lemma HistoryThen(key: Key, events: seq<Event>, e: Event)
    ensures History(key, []) == Some(Admitted(key))
    ensures History(key, events + [e])
            == match History(key, events) case None => None case Some(i) => Next(i, e)
  {
    assert (events + [e])[..|events|] == events;
  }

  // A CANCEL that crosses the answer, and one that is repeated, are told that there is nothing to cancel.
  lemma RefusedCancels(key: Key, port: nat)
    requires 1 <= port <= 65535
    ensures var h := History(key, [Answer(port), Cancel]); h.Some? && h.value.cancelReplies == [481]
    ensures var h := History(key, [Cancel, Cancel]); h.Some? && h.value.cancelReplies == [200, 481]
  {
    HistoryThen(key, [], Answer(port));
    HistoryThen(key, [], Cancel);
    assert [] + [Answer(port)] == [Answer(port)] && [] + [Cancel] == [Cancel];
    HistoryThen(key, [Answer(port)], Cancel);
    HistoryThen(key, [Cancel], Cancel);
    assert [Answer(port)] + [Cancel] == [Answer(port), Cancel] && [Cancel] + [Cancel] == [Cancel, Cancel];
    hide History;
  }

  lemma AcknowledgedByItsCSeq(key: Key, events: seq<Event>, i: Invite)
    requires History(key, events) == Some(i)
    ensures i.phase == Acknowledged <==> i.ackedBy == Some(key.cseq)
  {
    HistoryInv(key, events);
  }

  // The caller sees one final response: everything written is the 100 or the stored final, and
  // every copy taken after the decision is that final, byte for byte (section 17.2.1).
  lemma OneFinalResponse(key: Key, events: seq<Event>, i: Invite)
    requires History(key, events) == Some(i)
    ensures forall c :: c in i.sent ==> c.packet == Trying || c.packet == i.lastResponse
    ensures forall c :: c in i.sent && c.settled ==> c.packet == i.lastResponse
    ensures forall c :: c in i.sent && c.packet != Trying ==> i.phase != Pending
  {
    HistoryInv(key, events);
  }

  function Resume(i: Invite, events: seq<Event>): Option<Invite> {
    if events == [] then Some(i)
    else
      match Resume(i, events[..|events| - 1])
      case None => None
      case Some(j) => Next(j, events[|events| - 1])
  }

  // Once made, the decision and its response stand for good.
  lemma {:induction false} DecisionStands(i: Invite, events: seq<Event>)
    requires Inv(i) && i.phase != Pending && Resume(i, events).Some?
    ensures var j := Resume(i, events).value;
            && Inv(j) && j.lastResponse == i.lastResponse
            && (j.phase == i.phase || (i.phase == Answered && j.phase == Acknowledged))
  {
    if events != [] {
      hide Inv;
      var front := events[..|events| - 1];
      DecisionStands(i, front);
      StepInv(Resume(i, front).value, events[|events| - 1]);
    }
  }

  // Done yields at most one result, and it agrees with how the INVITE ended.
  lemma OneOutcome(key: Key, events: seq<Event>, i: Invite)
    requires History(key, events) == Some(i)
    ensures |i.outcomes| <= 1
    ensures CallCanceled in i.outcomes ==> i.phase == Canceled
    ensures forall code :: CallRejected(code) in i.outcomes ==> i.phase == Rejected
    ensures AckTimeout in i.outcomes ==> i.lastResponse.Ok?
  {
    HistoryInv(key, events);
  }

  /* The table of server transactions. */

  const QUEUE := 4  // capacity of the channel to the application

  datatype Server = Server(
    invites: seq<Invite>,      // every IncomingInvite ever made
    entries: map<Key, nat>,    // serverInvites
    due: Option<nat>,          // readLoop is about to offer this one
    queue: seq<nat>,           // `incoming`
    offered: seq<nat>)         // everything ever put into `incoming`

  datatype ServerEvent =
    | InviteArrives(key: Key) | Offer | TakeCall | InviteEvent(invite: nat, event: Event) | EntryExpires(key: Key)

  function ServerNext(s: Server, e: ServerEvent): Option<Server> {
    match e
    case InviteArrives(key) =>
      if s.due.Some? then None
      else if key in s.entries then
        (if s.entries[key] >= |s.invites| then None
         else Some(s.(invites := s.invites[s.entries[key] := ResendSection(s.invites[s.entries[key]])])))
      else Some(s.(invites := s.invites + [Admitted(key)], entries := s.entries[key := |s.invites|], due := Some(|s.invites|)))
    case Offer =>
      if s.due.None? || s.due.value >= |s.invites| then None
      else if |s.queue| < QUEUE then
        Some(s.(due := None, queue := s.queue + [s.due.value], offered := s.offered + [s.due.value]))
      else
        var i := s.due.value;
        Some(s.(due := None, invites := s.invites[i := RejectSection(s.invites[i], 503, "Service Unavailable").0]))
    case TakeCall => if s.queue == [] then None else Some(s.(queue := s.queue[1..]))
    case InviteEvent(i, event) =>
      if i >= |s.invites| || Next(s.invites[i], event).None? then None
      else Some(s.(invites := s.invites[i := Next(s.invites[i], event).value]))
    case EntryExpires(key) =>
      if key !in s.entries || s.entries[key] >= |s.invites| || !s.invites[s.entries[key]].expiring then None
      else Some(s.(entries := s.entries - {key}))
  }

  function ServerRun(events: seq<ServerEvent>): Option<Server> {
    if events == [] then Some(Server([], map[], None, [], []))
    else
      match ServerRun(events[..|events| - 1])
      case None => None
      case Some(s) => ServerNext(s, events[|events| - 1])
  }

  ghost predicate ServerInv(s: Server) {
    && (forall i :: 0 <= i < |s.invites| ==> Inv(s.invites[i]))
    && (forall k :: k in s.entries ==> s.entries[k] < |s.invites| && s.invites[s.entries[k]].key == k)
    && (forall i :: i in s.offered ==> i < |s.invites|)
    && (forall a, b :: 0 <= a < b < |s.offered| ==> s.offered[a] != s.offered[b])
    && (s.due.Some? ==> s.due.value < |s.invites| && s.due.value !in s.offered)
  }

  lemma ServerStep(s: Server, e: ServerEvent)
    requires ServerInv(s) && ServerNext(s, e).Some?
    ensures ServerInv(ServerNext(s, e).value)
  {
    hide Inv, Next, ResendSection, RejectSection;
    match e
    case InviteArrives(key) =>
      if key in s.entries {
        SectionInv(s.invites[s.entries[key]]);
      } else {
        AdmittedInv(key);
      }
    case Offer => SectionInv(s.invites[s.due.value]);
    case InviteEvent(i, event) =>
      StepInv(s.invites[i], event);
      KeyStays(s.invites[i], event);
    case _ =>
  }

  lemma AdmittedInv(key: Key)
    ensures Inv(Admitted(key)) && Admitted(key).key == key
  {
  }

  lemma KeyStays(i: Invite, e: Event)
    requires Next(i, e).Some?
    ensures Next(i, e).value.key == i.key
  {
  }

  lemma SectionInv(i: Invite)
    requires Inv(i)
    ensures Inv(ResendSection(i)) && ResendSection(i).key == i.key
    ensures Inv(RejectSection(i, 503, "Service Unavailable").0)
    ensures RejectSection(i, 503, "Service Unavailable").0.key == i.key
  {
    StepInv(i, RepeatedInvite);
    StepInv(i, Reject(503, "Service Unavailable"));
    KeyStays(i, RepeatedInvite);
    KeyStays(i, Reject(503, "Service Unavailable"));
  }

  lemma {:induction false} ServerRunInv(events: seq<ServerEvent>)
    requires ServerRun(events).Some?
    ensures ServerInv(ServerRun(events).value)
  {
    if events != [] {
      hide ServerInv;
      var front := events[..|events| - 1];
      ServerRunInv(front);
      ServerStep(ServerRun(front).value, events[|events| - 1]);
    }
  }

  // While an entry lives its key belongs to one invite, which the application is offered at most
  // once; a repeated INVITE is answered from the entry and never offered again.
  lemma OfferedOnce(events: seq<ServerEvent>, s: Server, key: Key)
    requires ServerRun(events) == Some(s) && key in s.entries
    ensures s.entries[key] < |s.invites| && s.invites[s.entries[key]].key == key
    ensures forall a, b :: 0 <= a < b < |s.offered| ==> s.offered[a] != s.entries[key] || s.offered[b] != s.entries[key]
    ensures ServerNext(s, InviteArrives(key)).Some? ==>
              var t := ServerNext(s, InviteArrives(key)).value;
              t.offered == s.offered && t.due.None? && t.entries == s.entries && |t.invites| == |s.invites|
  {
    ServerRunInv(events);
  }

  /* Offers over a whole run. */

  // Event i admits a new INVITE of this key; a repeated one only resends.
  predicate AdmitsAt(events: seq<ServerEvent>, i: nat, key: Key) {
    && i < |events| && events[i] == InviteArrives(key)
    && ServerRun(events[..i]).Some? && ServerRun(events[..i]).value.due.None? && key !in ServerRun(events[..i]).value.entries
  }

  // Event j puts an INVITE of this key into the channel to the application.
  predicate OffersAt(events: seq<ServerEvent>, j: nat, key: Key) {
    && j < |events| && events[j] == Offer && ServerRun(events[..j]).Some?
    && var s := ServerRun(events[..j]).value;
       s.due.Some? && s.due.value < |s.invites| && |s.queue| < QUEUE && s.invites[s.due.value].key == key
  }

  lemma {:induction false} PrefixRuns(events: seq<ServerEvent>, i: nat)
    requires ServerRun(events).Some? && i <= |events|
    ensures ServerRun(events[..i]).Some?
  {
    if i == |events| {
      assert events[..i] == events;
    } else {
      PrefixRuns(events[..|events| - 1], i);
      assert events[..|events| - 1][..i] == events[..i];
    }
  }

  lemma RunStep(events: seq<ServerEvent>, i: nat)
    requires ServerRun(events).Some? && i < |events|
    ensures ServerRun(events[..i]).Some?
    ensures ServerRun(events[..i + 1]) == ServerNext(ServerRun(events[..i]).value, events[i])
  {
    PrefixRuns(events, i);
    assert events[..i + 1][..i] == events[..i];
  }

  lemma OnlyExpiryRemoves(s: Server, e: ServerEvent, key: Key)
    requires key in s.entries && ServerNext(s, e).Some? && key !in ServerNext(s, e).value.entries
    ensures e == EntryExpires(key)
  {
    hide Next, ResendSection, RejectSection;
  }

  // An entry that is gone has expired.
  lemma {:induction false} EntryLeaves(events: seq<ServerEvent>, i: nat, j: nat, key: Key) returns (k: nat)
    requires ServerRun(events).Some? && i <= j <= |events|
    requires ServerRun(events[..i]).Some? && key in ServerRun(events[..i]).value.entries
    requires ServerRun(events[..j]).Some? && key !in ServerRun(events[..j]).value.entries
    ensures i <= k < j && events[k] == EntryExpires(key)
    decreases j
  {
    hide ServerRun, ServerNext;
    RunStep(events, j - 1);
    if key in ServerRun(events[..j - 1]).value.entries {
      OnlyExpiryRemoves(ServerRun(events[..j - 1]).value, events[j - 1], key);
      k := j - 1;
    } else {
      k := EntryLeaves(events, i, j - 1, key);
    }
  }

  // Two INVITEs of one key are admitted only with the expiry of its entry in between.
  lemma AdmissionsSeparated(events: seq<ServerEvent>, i: nat, j: nat, key: Key) returns (k: nat)
    requires ServerRun(events).Some? && i < j && AdmitsAt(events, i, key) && AdmitsAt(events, j, key)
    ensures i < k < j && events[k] == EntryExpires(key)
  {
    RunStep(events, i);
    assert key in ServerRun(events[..i + 1]).value.entries;
    hide ServerRun, ServerNext;
    k := EntryLeaves(events, i + 1, j, key);
  }

  // Whatever is due was admitted, and nothing has been offered since.
  lemma {:induction false} DueWasAdmitted(events: seq<ServerEvent>, j: nat, key: Key) returns (i: nat)
    requires ServerRun(events).Some? && j <= |events| && ServerRun(events[..j]).Some?
    requires var s := ServerRun(events[..j]).value;
             s.due.Some? && s.due.value < |s.invites| && s.invites[s.due.value].key == key
    ensures i < j && AdmitsAt(events, i, key)
    ensures forall m :: i < m < j ==> events[m] != Offer
    decreases j
  {
    hide ServerRun, ServerNext, ServerInv;
    NothingDue();
    assert events[..0] == [];
    RunStep(events, j - 1);
    var before := ServerRun(events[..j - 1]).value;
    ServerRunInv(events[..j - 1]);
    DueStep(before, events[j - 1], key);
    if before.due.None? {
      i := j - 1;
    } else {
      i := DueWasAdmitted(events, j - 1, key);
    }
  }

  lemma NothingDue()
    ensures ServerRun([]).Some? && ServerRun([]).value.due.None?
  {
  }

  lemma DueStep(s: Server, e: ServerEvent, key: Key)
    requires ServerInv(s) && ServerNext(s, e).Some?
    requires var t := ServerNext(s, e).value;
             t.due.Some? && t.due.value < |t.invites| && t.invites[t.due.value].key == key
    ensures s.due.None? ==> e == InviteArrives(key) && key !in s.entries
    ensures s.due.Some? ==> e != Offer && s.due == ServerNext(s, e).value.due
                            && s.due.value < |s.invites| && s.invites[s.due.value].key == key
  {
    hide Inv, Next, ResendSection, RejectSection;
    if e.InviteEvent? {
      KeyStays(s.invites[e.invite], e.event);
    }
  }

  // Two offers of one key: between the admission of the first and the second its entry has expired.
  lemma OffersSeparated(events: seq<ServerEvent>, a: nat, b: nat, key: Key) returns (i: nat, k: nat)
    requires ServerRun(events).Some? && a < b && OffersAt(events, a, key) && OffersAt(events, b, key)
    ensures i < a && AdmitsAt(events, i, key) && (forall m :: i < m < a ==> events[m] != Offer)
    ensures i < k < b && events[k] == EntryExpires(key)
  {
    i := DueWasAdmitted(events, a, key);
    var j := DueWasAdmitted(events, b, key);
    assert events[a] == Offer && j > a;
    hide AdmitsAt, OffersAt, ServerRun;
    k := AdmissionsSeparated(events, i, j, key);
  }

  /* The object itself. */

  class IncomingInvite {
    const key: Key
    var phase: Phase
    var lastResponse: Packet
    var acked: bool
    var stopped: bool
    var expiring: bool
    ghost var outcomes: seq<Outcome>
    ghost var endings: nat
    ghost var ackedBy: Option<nat>
    ghost var cancelReplies: seq<nat>
    ghost var inFlight: seq<Copy>
    ghost var sent: seq<Copy>

    ghost function Now(): Invite
      reads this
    {
      Invite(key, phase, lastResponse, acked, stopped, expiring, outcomes, endings, ackedBy, cancelReplies, inFlight, sent)
    }

    constructor (key: Key)
      ensures Now() == Admitted(key)
    {
      this.key := key;
      phase, lastResponse := Pending, Trying;
      acked, stopped, expiring := false, false, false;
      outcomes, endings, ackedBy, cancelReplies, inFlight, sent := [], 0, None, [], [], [];
    }

    // Up to the unlock; on Done the packet goes out and the retransmission timer starts.
    method AnswerLocked(rtpPort: int) returns (v: Verdict)
      modifies this
      ensures (Now(), v) == AnswerSection(old(Now()), rtpPort)
    {
      if rtpPort < 1 || rtpPort > 65535 {
        return BadArgument;
      }
      if phase != Pending {
        return if phase == Canceled then WasCanceled else NotPending;
      }
      phase := Answered;
      lastResponse := Ok(rtpPort);
      endings, inFlight := endings + 1, inFlight + [Copy(lastResponse, true)];
      return Done;
    }

    method RejectLocked(code: int, reason: string) returns (v: Verdict)
      modifies this
      ensures (Now(), v) == RejectSection(old(Now()), code, reason)
    {
      if code < 400 || code > 699 {
        return BadArgument;
      }
      if phase != Pending {
        return if phase == Canceled then WasCanceled else NotPending;
      }
      phase := Rejected;
      lastResponse := Refusal(code, reason);
      endings, inFlight := endings + 1, inFlight + [Copy(lastResponse, true)];
      return Done;
    }

    method CancelLocked() returns (v: Verdict)
      modifies this
      ensures (Now(), v) == CancelSection(old(Now()))
    {
      var pending := phase == Pending;
      if pending {
        phase := Canceled;
        lastResponse := Terminated;
        endings, inFlight := endings + 1, inFlight + [Copy(lastResponse, true)];
      }
      cancelReplies := cancelReplies + [if pending then 200 else 481];
      return if pending then Done else NotPending;
    }

    method Acknowledge(cseq: nat)
      modifies this
      ensures Now() == AcknowledgeSection(old(Now()), cseq)
    {
      if cseq != key.cseq {
        return;
      }
      if phase == Answered {
        phase := Acknowledged;
        acked := true;
        ackedBy := Some(cseq);
        expiring := true;
      }
    }

    method ResendLastResponse() returns (packet: Packet)
      modifies this`inFlight
      ensures Now() == ResendSection(old(Now())) && packet == lastResponse
    {
      packet := lastResponse;
      inFlight := inFlight + [Copy(packet, phase != Pending)];
    }
  }
}
