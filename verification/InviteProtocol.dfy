/** One outgoing INVITE under cancellation, as internal/sip/client.go runs it: the Dial goroutine,
    readLoop, the hand-off from the live transaction to the cancellation tombstone, late dialogs
    and the expiry timers, interleaved at every lock and every send.

    Branches are random, so the branch of an INVITE is named by its CSeq within the call. Each call
    has its own reader here; the single readLoop of the source has fewer interleavings. */
module InviteProtocol {
  import opened GoNumbers
  import opened Wrappers

  const CHANNEL_CAPACITY := 8

  datatype Response = Response(cseq: nat, status: nat)

  predicate Provisional(r: Response) {
    r.status < 200
  }

  predicate Success(r: Response) {
    200 <= r.status < 300
  }

  predicate Final(r: Response) {
    r.status >= 200
  }

  // canceledInvite
  datatype Tombstone = Tombstone(cseq: nat, cancelSent: bool)

  // The Call object of an outgoing dialog; `late` marks one answered after its cancellation.
  datatype Call = Call(inviteCSeq: nat, cseq: nat, late: bool, finished: bool)

  // What the maps guarded by Client.mu say about one outgoing Call-ID. `foreign` means an incoming
  // INVITE that reused the Call-ID occupies the active entry.
  datatype View = View(
    dialing: bool,
    transactions: map<nat, seq<Response>>,
    tombstone: Option<Tombstone>,
    call: Option<Call>,
    active: bool,
    completed: bool,
    foreign: bool)

  /* The critical sections. */

  // readLoop, transaction found: a send that never blocks.
  function Delivered(v: View, r: Response): View
    requires r.cseq in v.transactions
  {
    var queue := v.transactions[r.cseq];
    if |queue| < CHANNEL_CAPACITY then v.(transactions := v.transactions[r.cseq := queue + [r]]) else v
  }

  function FirstFinal(queue: seq<Response>): (r: Option<Response>)
    ensures r.Some? ==> r.value in queue && Final(r.value)
    ensures r.None? ==> forall m :: m in queue ==> Provisional(m)
  {
    if queue == [] then None
    else if Final(queue[0]) then Some(queue[0])
    else FirstFinal(queue[1..])
  }

  lemma FirstFinalAppend(queue: seq<Response>, r: Response)
    ensures FirstFinal(queue + [r]) == if FirstFinal(queue).Some? then FirstFinal(queue)
                                       else if Final(r) then Some(r) else None
  {
    if queue == [] {
      assert queue + [r] == [r];
    } else {
      assert (queue + [r])[1..] == queue[1..] + [r];
    }
  }

  datatype HandOff = Owned(final: Response) | Released(sendCancel: bool)

  // transitionCanceledInvite: a queued final keeps the live transaction its owner; otherwise the
  // tombstone takes over, and any queued provisional makes the CANCEL due.
  function HandedOff(v: View, cseq: nat, cancelSent: bool): (View, HandOff)
    requires cseq in v.transactions
  {
    var queue := v.transactions[cseq];
    var closed := v.(transactions := v.transactions - {cseq});
    match FirstFinal(queue)
    case Some(r) => (closed, Owned(r))
    case None => (closed.(tombstone := Some(Tombstone(cseq, cancelSent || queue != []))),
                  Released(queue != [] && !cancelSent))
  }

  // What handleUnmatchedInviteResponse does after it has let go of the lock.
  datatype Action = Ignore | ReAck(cseq: nat) | LateAck(cseq: nat) | FinalAck(cseq: nat) | SendCancel(cseq: nat)

  function Unmatched(v: View, r: Response): (View, Action) {
    if v.foreign then (v, Ignore)
    else if (v.active || v.completed) && v.call.Some? then
      (v, if Success(r) && r.cseq == v.call.value.inviteCSeq then ReAck(v.call.value.inviteCSeq) else Ignore)
    else if v.tombstone.None? || v.tombstone.value.cseq != r.cseq then (v, Ignore)
    else
      var t := v.tombstone.value;
      if Provisional(r) then
        (v.(tombstone := Some(t.(cancelSent := true))), if t.cancelSent then Ignore else SendCancel(t.cseq))
      else if Success(r) then
        (v.(tombstone := None, call := Some(Call(t.cseq, t.cseq, true, false)), active := true), LateAck(t.cseq))
      else (v.(tombstone := None), FinalAck(t.cseq))
  }

  // Dial's assignment to the active entry, whoever held it.
  function Established(v: View, cseq: nat): View {
    v.(dialing := false, call := Some(Call(cseq, cseq, false, false)), active := true, foreign := false)
  }

  // Hangup takes the next CSeq for its BYE.
  function Bumped(v: View): View {
    match v.call
    case None => v
    case Some(c) => v.(call := Some(c.(cseq := ToUint32(c.cseq + 1))))
  }

  // Call.finish, guarded by doneOnce.
  function Finished(v: View): View {
    if v.call.None? || v.call.value.finished then v
    else v.(call := Some(v.call.value.(finished := true)), active := false, completed := true)
  }

  // handleIncomingInvite admits a call under this Call-ID: the active entry is overwritten.
  function Overwritten(v: View): View {
    v.(active := false, foreign := true)
  }

  // The incoming call in the active entry ends; an outgoing one is not filed anywhere for it.
  function Vacated(v: View): View {
    v.(foreign := false)
  }

  /* The goroutines. */

  datatype Pc =
    | Starting                       // about to register the next INVITE transaction
    | Waiting                        // in the select loop of transact
    | Abandoned                      // the transaction timed out; its deferred delete is pending
    | Releasing(final: Response)     // transact returns `final`; its deferred delete is pending
    | Tombstoned(sendCancel: bool)   // handed off; the CANCEL, if due, is not sent yet
    | Returned(final: Response)      // Dial looks at the final response
    | Acking                         // dialog active, ACK not sent yet
    | Checking                       // ACK sent, ctx.Err() and the SDP answer not checked yet
    | Hanging                        // Hangup called
    | ByeSent
    | InCall                         // Dial returned the call
    | Failing                        // error return, reservation not released yet
    | Done

  // The Dial goroutine with the flags of its current transact call.
  datatype Dialer = Dialer(
    pc: Pc,
    cseq: nat,
    canceled: bool,          // ctx.Err() != nil
    cancelRequested: bool,
    cancelSent: bool,
    receivedResponse: bool)

  datatype Reader = Idle | Looking(response: Response) | Acting(action: Action)

  // The goroutine that tears a late dialog down.
  datatype Late = NotLate | LateHanging | LateByeSent | LateDone

  datatype Owner = Live(response: Response) | Tomb(response: Response)

  // Ghost history of one INVITE: what arrived, what was sent, and who took the first final response.
  datatype Log = Log(
    provisional: bool,       // readLoop accepted a provisional response
    claimed: bool,           // someone has undertaken to send the CANCEL
    cancels: nat,
    owner: Option<Owner>,
    acks: nat,               // ACKs by the owner of the first final response
    reAcksDue: nat,          // repeated 2xx responses readLoop decided to acknowledge again
    reAcks: nat,             // such ACKs sent
    byes: nat,
    observed: bool,          // transact has seen the cancellation
    released: bool,          // a tombstone was installed
    expired: bool,           // the tombstone's 32 seconds ran out
    timedOut: bool)          // transact gave up without a tombstone

  const NewLog := Log(false, false, 0, None, 0, 0, 0, 0, false, false, false, false)

  datatype State = State(view: View, dialer: Dialer, reader: Reader, late: Late, past: Option<Log>, log: Option<Log>)

  // Dial right after it has reserved its Call-ID.
  const Reserved :=
    State(View(true, map[], None, None, false, false, false),
          Dialer(Starting, 1, false, false, false, false), Idle, NotLate, None, None)

  datatype Event =
    | Open | CancelContext | Receive | ContextDone | Deadline | SendDueCancel | CloseTransaction
    | HandleFinal(challengeParses: bool) | SendAck | Check(answerUsable: bool) | SendBye | ByeDone | FailReturn
    | Arrive(response: Response) | LookUp | Act
    | LateBye | LateByeDone | RemoteBye | ExpireTombstone | ExpireCompleted
    | PeerReuses | PeerCallEnds      // an incoming INVITE under this Call-ID is admitted; its call ends

  function Opened(s: State): Option<State> {
    if s.dialer.pc != Starting then None
    else Some(s.(view := s.view.(transactions := s.view.transactions[s.dialer.cseq := []]),
                 dialer := Dialer(Waiting, s.dialer.cseq, s.dialer.canceled, false, false, false),
                 log := Some(NewLog)))
  }

  // `case res := <-ch` of transact.
  function Received(s: State): Option<State> {
    var d := s.dialer;
    if d.pc != Waiting || d.cseq !in s.view.transactions || s.view.transactions[d.cseq] == [] || s.log.None? then None
    else
      var queue := s.view.transactions[d.cseq];
      var r := queue[0];
      var v := s.view.(transactions := s.view.transactions[d.cseq := queue[1..]]);
      if Final(r) then Some(s.(view := v, dialer := d.(pc := Releasing(r), receivedResponse := true)))
      else if d.cancelRequested && !d.cancelSent then
        Some(s.(view := v, dialer := d.(receivedResponse := true, cancelSent := true),
                log := Some(s.log.value.(claimed := true, cancels := s.log.value.cancels + 1))))
      else Some(s.(view := v, dialer := d.(receivedResponse := true)))
  }

  // `case <-ctxDone`.
  function ContextSeen(s: State): Option<State> {
    var d := s.dialer;
    if d.pc != Waiting || !d.canceled || d.cancelRequested || s.log.None? then None
    else
      var l := s.log.value.(observed := true);
      if d.receivedResponse && !d.cancelSent then
        Some(s.(dialer := d.(cancelRequested := true, cancelSent := true),
                log := Some(l.(claimed := true, cancels := l.cancels + 1))))
      else Some(s.(dialer := d.(cancelRequested := true), log := Some(l)))
  }

  // `case <-deadline.C`: 32 seconds, or five after the cancellation was seen.
  function DeadlineFired(s: State): Option<State> {
    var d := s.dialer;
    if d.pc != Waiting || d.cseq !in s.view.transactions || s.log.None? then None
    else if !d.cancelRequested then
      Some(s.(dialer := d.(pc := Abandoned), log := Some(s.log.value.(timedOut := true))))
    else
      var (v, h) := HandedOff(s.view, d.cseq, d.cancelSent);
      match h
      case Owned(r) => Some(s.(view := v, dialer := d.(pc := Releasing(r))))
      case Released(send) =>
        Some(s.(view := v, dialer := d.(pc := Tombstoned(send)),
                log := Some(s.log.value.(released := true, claimed := s.log.value.claimed || send))))
  }

  function DueCancelSent(s: State): Option<State> {
    if !s.dialer.pc.Tombstoned? || s.log.None? then None
    else
      var l := s.log.value;
      Some(s.(dialer := s.dialer.(pc := Failing),
              log := Some(if s.dialer.pc.sendCancel then l.(cancels := l.cancels + 1) else l)))
  }

  // transact's deferred delete.
  function TransactionClosed(s: State): Option<State> {
    var d := s.dialer;
    var v := s.view.(transactions := s.view.transactions - {d.cseq});
    match d.pc
    case Releasing(r) => Some(s.(view := v, dialer := d.(pc := Returned(r))))
    case Abandoned => Some(s.(view := v, dialer := d.(pc := Failing)))
    case _ => None
  }

  function FinalHandled(s: State, challengeParses: bool): Option<State> {
    var d := s.dialer;
    if !d.pc.Returned? || s.log.None? then None
    else
      var r, l := d.pc.final, s.log.value;
      if (r.status == 401 || r.status == 407) && d.cseq == 1 then
        var acked := l.(acks := l.acks + 1);
        if challengeParses then
          Some(s.(dialer := Dialer(Starting, 2, d.canceled, false, false, false), past := Some(acked), log := None))
        else Some(s.(dialer := d.(pc := Failing), log := Some(acked)))
      else if Success(r) then Some(s.(view := Established(s.view, d.cseq), dialer := d.(pc := Acking)))
      else Some(s.(dialer := d.(pc := Failing), log := Some(l.(acks := l.acks + 1))))
  }

  function AckSent(s: State): Option<State> {
    if s.dialer.pc != Acking || s.log.None? then None
    else Some(s.(dialer := s.dialer.(pc := Checking), log := Some(s.log.value.(acks := s.log.value.acks + 1))))
  }

  function Checked(s: State, answerUsable: bool): Option<State> {
    if s.dialer.pc != Checking then None
    else Some(s.(dialer := s.dialer.(pc := if s.dialer.canceled || !answerUsable then Hanging else InCall)))
  }

  // Hangup, called by Dial itself or by the application holding the call.
  function ByeStarted(s: State): Option<State> {
    if (s.dialer.pc != Hanging && s.dialer.pc != InCall) || s.log.None? then None
    else Some(s.(view := Bumped(s.view), dialer := s.dialer.(pc := ByeSent),
                 log := Some(s.log.value.(byes := s.log.value.byes + 1))))
  }

  // readLoop: into the transaction's channel if there is one, otherwise on to the tombstones.
  function Arrived(s: State, r: Response): Option<State> {
    var sent := if s.log.Some? then s.dialer.cseq else s.dialer.cseq - 1;
    if s.reader != Idle || !(1 <= r.cseq <= sent) then None
    else if r.cseq !in s.view.transactions then Some(s.(reader := Looking(r)))
    else if s.log.None? || |s.view.transactions[r.cseq]| >= CHANNEL_CAPACITY then Some(s)
    else
      var l := s.log.value;
      Some(s.(view := Delivered(s.view, r),
              log := Some(if Provisional(r) then l.(provisional := true)
                          else if l.owner.None? then l.(owner := Some(Live(r))) else l)))
  }

  function LookedUp(s: State): Option<State> {
    if !s.reader.Looking? then None
    else
      var r := s.reader.response;
      var (v, a) := Unmatched(s.view, r);
      var next := s.(view := v, reader := if a == Ignore then Idle else Acting(a));
      if s.log.None? then Some(next)
      else
        var l := s.log.value;
        if a.ReAck? then Some(next.(log := Some(l.(reAcksDue := l.reAcksDue + 1))))
        else if v.tombstone == s.view.tombstone then Some(next)
        else
          if Provisional(r) then Some(next.(log := Some(l.(provisional := true, claimed := true))))
          else Some(next.(log := Some(l.(owner := Some(Tomb(r))))))
  }

  function Acted(s: State): Option<State> {
    if !s.reader.Acting? || s.log.None? then None
    else
      var l := s.log.value;
      var idle := s.(reader := Idle);
      match s.reader.action
      case SendCancel(_) => Some(idle.(log := Some(l.(cancels := l.cancels + 1))))
      case FinalAck(_) => Some(idle.(log := Some(l.(acks := l.acks + 1))))
      case LateAck(_) => Some(idle.(late := LateHanging, log := Some(l.(acks := l.acks + 1))))
      case ReAck(_) => Some(idle.(log := Some(l.(reAcks := l.reAcks + 1))))
      case Ignore => Some(idle)
  }

  function ByeAnswered(s: State): Option<State> {
    if s.dialer.pc != ByeSent then None else Some(s.(view := Finished(s.view), dialer := s.dialer.(pc := Done)))
  }

  // Dial's deferred release of the reserved Call-ID.
  function ReservationDropped(s: State): Option<State> {
    if s.dialer.pc != Failing then None
    else Some(s.(view := s.view.(dialing := false), dialer := s.dialer.(pc := Done)))
  }

  function LateByeStarted(s: State): Option<State> {
    if s.late != LateHanging || s.log.None? then None
    else Some(s.(view := Bumped(s.view), late := LateByeSent,
                 log := Some(s.log.value.(byes := s.log.value.byes + 1))))
  }

  function LateByeAnswered(s: State): Option<State> {
    if s.late != LateByeSent then None else Some(s.(view := Finished(s.view), late := LateDone))
  }

  function TombstoneExpired(s: State): Option<State> {
    if s.view.tombstone.None? || s.log.None? then None
    else Some(s.(view := s.view.(tombstone := None), log := Some(s.log.value.(expired := true))))
  }

  function Next(s: State, e: Event): Option<State> {
    match e
    case Open => Opened(s)
    case CancelContext => Some(s.(dialer := s.dialer.(canceled := true)))
    case Receive => Received(s)
    case ContextDone => ContextSeen(s)
    case Deadline => DeadlineFired(s)
    case SendDueCancel => DueCancelSent(s)
    case CloseTransaction => TransactionClosed(s)
    case HandleFinal(ok) => FinalHandled(s, ok)
    case SendAck => AckSent(s)
    case Check(ok) => Checked(s, ok)
    case SendBye => ByeStarted(s)
    case ByeDone => ByeAnswered(s)
    case FailReturn => ReservationDropped(s)
    case Arrive(r) => Arrived(s, r)
    case LookUp => LookedUp(s)
    case Act => Acted(s)
    case LateBye => LateByeStarted(s)
    case LateByeDone => LateByeAnswered(s)
    case RemoteBye => if !s.view.active then None else Some(s.(view := Finished(s.view)))
    case ExpireTombstone => TombstoneExpired(s)
    case ExpireCompleted => if !s.view.completed then None else Some(s.(view := s.view.(completed := false)))
    case PeerReuses => Some(s.(view := Overwritten(s.view)))
    case PeerCallEnds => if !s.view.foreign then None else Some(s.(view := Vacated(s.view)))
  }

  // Any interleaving: the state after the events, or None once one of them was not enabled.
  function Run(events: seq<Event>): Option<State> {
    if events == [] then Some(Reserved)
    else
      match Run(events[..|events| - 1])
      case None => None
      case Some(s) => Next(s, events[|events| - 1])
  }

  /* The invariant of every reachable state. */

  function B(b: bool): nat {
    if b then 1 else 0
  }

  // The final response some goroutine of the live transaction is holding.
  predicate HoldsFinal(pc: Pc) {
    pc.Releasing? || pc.Returned?
  }

  predicate InDialog(pc: Pc) {
    pc in {Acking, Checking, Hanging, ByeSent, InCall}
  }

  // CANCEL bookkeeping: claimed once, then either sent or on somebody's list.
  predicate CancelInv(s: State, l: Log) {
    && l.cancels + B(s.dialer.pc == Tombstoned(true)) + B(s.reader == Acting(SendCancel(s.dialer.cseq))) == B(l.claimed)
    && (l.claimed ==> l.provisional)
    && (!l.released ==> s.dialer.cancelSent == l.claimed)
    && (s.dialer.cancelSent ==> s.dialer.cancelRequested && s.dialer.receivedResponse)
    && l.reAcks + B(s.reader.Acting? && s.reader.action.ReAck?) == l.reAcksDue
    && l.observed == s.dialer.cancelRequested
    && (l.observed ==> s.dialer.canceled)
    && (l.released ==> l.observed) && (l.timedOut ==> !l.observed)
  }

  // Nothing of this attempt has reached the tombstone stage.
  predicate NoTombstoneYet(s: State) {
    && s.view.tombstone.None? && s.late == NotLate
    && (s.reader.Acting? ==> s.reader.action.ReAck?)
  }

  predicate QueueInv(s: State, l: Log) {
    var d := s.dialer;
    && s.view.transactions.Keys == {d.cseq}
    && var queue := s.view.transactions[d.cseq];
       && |queue| <= CHANNEL_CAPACITY
       && (forall m :: m in queue ==> m.cseq == d.cseq && (Provisional(m) ==> l.provisional))
       && l.owner == (match FirstFinal(queue) case None => None case Some(r) => Some(Live(r)))
  }

  // The live transaction before any hand-off.
  predicate LiveInv(s: State, l: Log) {
    var d, v := s.dialer, s.view;
    && !d.pc.Tombstoned? && !l.expired
    && (l.owner.Some? ==> l.owner.value.Live? && Final(l.owner.value.response))
    && NoTombstoneYet(s)
    && (l.timedOut ==> d.pc in {Abandoned, Failing, Done} && l.acks == 0)
    && (s.reader.Looking? && s.reader.response.cseq == d.cseq ==> l.owner.Some? || l.timedOut)
    && (d.pc == Waiting ==>
          && QueueInv(s, l) && !l.timedOut && l.acks == 0
          && (d.receivedResponse ==> l.provisional)
          && (d.cancelRequested && d.receivedResponse ==> d.cancelSent))
    && (d.pc == Abandoned ==> l.timedOut && l.acks == 0)
    && (HoldsFinal(d.pc) ==> l.owner == Some(Live(d.pc.final)) && l.acks == 0)
    && (d.pc in {Waiting, Abandoned} || HoldsFinal(d.pc) || d.pc == Failing ==> v.dialing)
    && (d.pc !in {Waiting, Abandoned} && !d.pc.Releasing? ==> v.transactions == map[])
    && (d.pc == Failing || (d.pc == Done && v.call.None?) ==>
          l.timedOut || (l.owner.Some? && !Success(l.owner.value.response) && l.acks == 1))
    && (InDialog(d.pc) ==> v.call.Some?)
    && (v.call.Some? ==>
          && (InDialog(d.pc) || d.pc == Done)
          && !l.timedOut && !v.call.value.late && !v.dialing
          && l.owner.Some? && Success(l.owner.value.response)
          && l.acks == B(d.pc != Acking)
          && l.byes == B(d.pc in {ByeSent, Done})
          && (d.pc == Done ==> v.call.value.finished))
    && (v.call.None? ==> l.byes == 0)
    && (d.pc == InCall ==> !l.observed)
  }

  // After the hand-off: tombstone, expired, or owned by whoever took it from the tombstone.
  predicate TombInv(s: State, l: Log) {
    var d, v := s.dialer, s.view;
    && (d.pc.Tombstoned? || d.pc == Failing || d.pc == Done) && (d.pc != Done ==> v.dialing)
    && v.transactions == map[] && !l.timedOut
    && (v.tombstone.Some? <==> l.owner.None? && !l.expired)
    && (v.tombstone.Some? ==> v.tombstone.value.cancelSent == l.claimed)
    && (s.reader.Acting? ==> s.reader.action in {ReAck(d.cseq), SendCancel(d.cseq), FinalAck(d.cseq), LateAck(d.cseq)})
    && match l.owner {
         case None =>
           && v.call.None? && s.late == NotLate && l.acks == 0 && l.byes == 0
           && s.reader !in {Acting(FinalAck(d.cseq)), Acting(LateAck(d.cseq))}
         case Some(o) =>
           && o.Tomb? && Final(o.response) && !l.expired
           && if Success(o.response) then
                && v.call.Some? && v.call.value.late
                && l.acks + B(s.reader == Acting(LateAck(d.cseq))) == 1
                && s.reader != Acting(FinalAck(d.cseq))
                && (s.late == NotLate <==> s.reader == Acting(LateAck(d.cseq)))
                && l.byes == B(s.late in {LateByeSent, LateDone})
                && (s.late == LateDone ==> v.call.value.finished)
              else
                && v.call.None? && s.late == NotLate && l.byes == 0
                && l.acks + B(s.reader == Acting(FinalAck(d.cseq))) == 1
                && s.reader != Acting(LateAck(d.cseq))
       }
  }

  predicate ViewInv(s: State) {
    var d, v := s.dialer, s.view;
    && (v.active ==> v.call.Some? && !v.call.value.finished && !v.foreign)
    && (v.completed ==> v.call.Some? && v.call.value.finished)
    && (v.tombstone.Some? ==> v.call.None? && v.tombstone.value.cseq == d.cseq)
    && (v.call.Some? ==> v.call.value.inviteCSeq == d.cseq)
    && (s.reader.Acting? ==>
          && s.reader.action != Ignore && s.log.Some?
          && (s.reader.action.ReAck? ==> v.call.Some? && s.reader.action.cseq == d.cseq))
    && (s.reader.Looking? ==> s.reader.response.cseq <= d.cseq)
    && v.transactions.Keys <= {d.cseq}
  }

  // A first attempt that was challenged is over: owned by its live transaction and acknowledged once.
  predicate PastInv(s: State) {
    && 1 <= s.dialer.cseq <= 2
    && (s.past.Some? <==> s.dialer.cseq == 2)
    && (s.past.Some? ==>
          var p := s.past.value;
          && p.cancels == B(p.claimed) && (p.claimed ==> p.provisional)
          && p.owner.Some? && p.owner.value.Live? && p.owner.value.response.status in {401, 407}
          && p.acks == 1 && p.byes == 0 && !p.released && !p.timedOut)
  }

  predicate Inv(s: State) {
    && ViewInv(s) && PastInv(s)
    && match s.log {
         case None => s.dialer.pc == Starting && s.view.dialing && s.view.transactions == map[] && NoTombstoneYet(s)
                      && s.view.call.None? && (s.reader.Looking? ==> s.reader.response.cseq < s.dialer.cseq)
         case Some(l) => s.dialer.pc != Starting && CancelInv(s, l)
                         && if l.released then TombInv(s, l) else LiveInv(s, l)
       }
  }

  lemma ReservedInv()
    ensures Inv(Reserved)
  {
  }

  lemma StepInv(s: State, e: Event)
    requires Inv(s) && Next(s, e).Some?
    ensures Inv(Next(s, e).value)
  {
    hide Inv;
    match e
    case Open => OpenInv(s);
    case CancelContext => ContextCanceledInv(s);
    case Receive => ReceiveInv(s);
    case ContextDone => ContextInv(s);
    case Deadline => DeadlineInv(s);
    case SendDueCancel => DueCancelInv(s);
    case CloseTransaction => CloseInv(s);
    case HandleFinal(ok) => HandleInv(s, ok);
    case SendAck => AckInv(s);
    case Check(ok) => CheckInv(s, ok);
    case SendBye => ByeInv(s);
    case ByeDone => ByeDoneInv(s);
    case FailReturn => FailInv(s);
    case Arrive(r) => ArriveInv(s, r);
    case LookUp => LookUpInv(s);
    case Act => ActInv(s);
    case LateBye => LateByeInv(s);
    case LateByeDone => LateDoneInv(s);
    case RemoteBye => FinishInv(s);
    case ExpireTombstone => ExpireInv(s);
    case ExpireCompleted => ForgetInv(s);
    case PeerReuses => ReuseInv(s);
    case PeerCallEnds => VacatedInv(s);
  }

  lemma OpenInv(s: State)
    requires Inv(s) && Opened(s).Some?
    ensures Inv(Opened(s).value)
  {
  }

  lemma ReceiveInv(s: State)
    requires Inv(s) && Received(s).Some?
    ensures Inv(Received(s).value)
  {
    var queue := s.view.transactions[s.dialer.cseq];
    assert !s.log.value.released && QueueInv(s, s.log.value);
    assert FirstFinal(queue) == if Final(queue[0]) then Some(queue[0]) else FirstFinal(queue[1..]);
    hide FirstFinal;
  }

  lemma ContextInv(s: State)
    requires Inv(s) && ContextSeen(s).Some?
    ensures Inv(ContextSeen(s).value)
  {
  }

  lemma DeadlineInv(s: State)
    requires Inv(s) && DeadlineFired(s).Some?
    ensures Inv(DeadlineFired(s).value)
  {
    if s.dialer.cancelRequested {
      var queue := s.view.transactions[s.dialer.cseq];
      assert queue != [] && FirstFinal(queue).None? ==> Provisional(queue[0]);
    }
  }

  lemma DueCancelInv(s: State)
    requires Inv(s) && DueCancelSent(s).Some?
    ensures Inv(DueCancelSent(s).value)
  {
  }

  lemma CloseInv(s: State)
    requires Inv(s) && TransactionClosed(s).Some?
    ensures Inv(TransactionClosed(s).value)
  {
  }

  lemma HandleInv(s: State, ok: bool)
    requires Inv(s) && FinalHandled(s, ok).Some?
    ensures Inv(FinalHandled(s, ok).value)
  {
  }

  lemma AckInv(s: State)
    requires Inv(s) && AckSent(s).Some?
    ensures Inv(AckSent(s).value)
  {
  }

  lemma CheckInv(s: State, ok: bool)
    requires Inv(s) && Checked(s, ok).Some?
    ensures Inv(Checked(s, ok).value)
  {
  }

  lemma ByeInv(s: State)
    requires Inv(s) && ByeStarted(s).Some?
    ensures Inv(ByeStarted(s).value)
  {
  }

  lemma ByeDoneInv(s: State)
    requires Inv(s) && ByeAnswered(s).Some?
    ensures Inv(ByeAnswered(s).value)
  {
  }

  lemma FailInv(s: State)
    requires Inv(s) && ReservationDropped(s).Some?
    ensures Inv(ReservationDropped(s).value)
  {
  }

  lemma ArriveInv(s: State, r: Response)
    requires Inv(s) && Arrived(s, r).Some?
    ensures Inv(Arrived(s, r).value)
  {
    hide Inv;
    if r.cseq in s.view.transactions {
      DeliverInv(s, r);
    } else {
      UnmatchedInv(s, r);
    }
  }

  lemma DeliverInv(s: State, r: Response)
    requires Inv(s) && Arrived(s, r).Some? && r.cseq in s.view.transactions
    ensures Inv(Arrived(s, r).value)
  {
    FirstFinalAppend(s.view.transactions[r.cseq], r);
    hide FirstFinal;
  }

  lemma UnmatchedInv(s: State, r: Response)
    requires Inv(s) && Arrived(s, r).Some? && r.cseq !in s.view.transactions
    ensures Inv(Arrived(s, r).value)
  {
  }

  // No tombstone, or not this one: at most a re-ACK comes of it.
  lemma LookUpElsewhereInv(s: State)
    requires Inv(s) && LookedUp(s).Some?
    requires Unmatched(s.view, s.reader.response).0 == s.view
    ensures Inv(LookedUp(s).value)
  {
    OnlyReAck(s.view, s.reader.response);
    hide Unmatched;
  }

  lemma OnlyReAck(v: View, r: Response)
    requires Unmatched(v, r).0 == v
    ensures var a := Unmatched(v, r).1;
            a == Ignore || (a.ReAck? && v.call.Some? && a.cseq == v.call.value.inviteCSeq)
  {
  }

  lemma LookUpProvisionalInv(s: State)
    requires Inv(s) && LookedUp(s).Some?
    requires Unmatched(s.view, s.reader.response).0 != s.view && Provisional(s.reader.response)
    ensures Inv(LookedUp(s).value)
  {
  }

  lemma LookUpFinalInv(s: State)
    requires Inv(s) && LookedUp(s).Some?
    requires Unmatched(s.view, s.reader.response).0 != s.view && Final(s.reader.response)
    ensures Inv(LookedUp(s).value)
  {
  }

  lemma LookUpInv(s: State)
    requires Inv(s) && LookedUp(s).Some?
    ensures Inv(LookedUp(s).value)
  {
    hide Inv;
    if Unmatched(s.view, s.reader.response).0 == s.view {
      LookUpElsewhereInv(s);
    } else if Provisional(s.reader.response) {
      LookUpProvisionalInv(s);
    } else {
      LookUpFinalInv(s);
    }
  }

  lemma ActInv(s: State)
    requires Inv(s) && Acted(s).Some?
    ensures Inv(Acted(s).value)
  {
    if s.reader.action.LateAck? {
    } else if s.reader.action.FinalAck? {
    }
  }

  lemma LateByeInv(s: State)
    requires Inv(s) && LateByeStarted(s).Some?
    ensures Inv(LateByeStarted(s).value)
  {
  }

  lemma LateDoneInv(s: State)
    requires Inv(s) && LateByeAnswered(s).Some?
    ensures Inv(LateByeAnswered(s).value)
  {
  }

  lemma ExpireInv(s: State)
    requires Inv(s) && TombstoneExpired(s).Some?
    ensures Inv(TombstoneExpired(s).value)
  {
  }

  lemma ContextCanceledInv(s: State)
    requires Inv(s)
    ensures Inv(s.(dialer := s.dialer.(canceled := true)))
  {
  }

  lemma FinishInv(s: State)
    requires Inv(s) && s.view.active
    ensures Inv(s.(view := Finished(s.view)))
  {
  }

  lemma ForgetInv(s: State)
    requires Inv(s) && s.view.completed
    ensures Inv(s.(view := s.view.(completed := false)))
  {
  }

  lemma ReuseInv(s: State)
    requires Inv(s)
    ensures Inv(s.(view := Overwritten(s.view)))
  {
  }

  lemma VacatedInv(s: State)
    requires Inv(s)
    ensures Inv(s.(view := Vacated(s.view)))
  {
  }

  lemma {:induction false} RunInv(events: seq<Event>)
    requires Run(events).Some?
    ensures Inv(Run(events).value)
  {
    if events == [] {
      ReservedInv();
    } else {
      var front := events[..|events| - 1];
      RunInv(front);
      StepInv(Run(front).value, events[|events| - 1]);
    }
  }

  /* What holds in every run. */

  // CANCEL goes out at most once per INVITE and only after a provisional response (section 9.1 of RFC 3261).
  lemma CancelOnceAfterProvisional(events: seq<Event>, s: State)
    requires Run(events) == Some(s)
    ensures forall l :: (s.log == Some(l) || s.past == Some(l)) ==>
              l.cancels <= 1 && (l.cancels == 1 ==> l.provisional)
  {
    hide Run;
    RunInv(events);
  }

  // Every goroutine of the call has come to rest. The application does not hang up a call that the
  // other side has ended.
  predicate AtRest(s: State) {
    && (s.dialer.pc == Done || EndedByPeer(s))
    && s.reader == Idle && s.late in {NotLate, LateDone}
  }

  predicate EndedByPeer(s: State) {
    s.dialer.pc == InCall && s.view.call.Some? && s.view.call.value.finished
  }

  // The owner of the first final response acknowledges it exactly once and ends a 2xx dialog with
  // exactly one BYE, or with none if the other side has ended it while the call was up (sections 9.1 and
  // 13.2.2.4), if and only if transact did not time out before.
  lemma OwnerFinishesTheJob(events: seq<Event>, s: State)
    requires Run(events) == Some(s)
    ensures s.past.Some? ==> s.past.value.acks == 1
    ensures s.log.Some? ==>
              var l := s.log.value;
              && l.acks <= 1 && l.byes <= 1
              && (l.timedOut ==> !l.observed && l.acks == 0 && l.byes == 0)
              && (AtRest(s) && l.owner.Some? ==>
                    (l.acks == 1 && l.byes == B(Success(l.owner.value.response) && !EndedByPeer(s)) <==> !l.timedOut))
              && (EndedByPeer(s) ==> !l.observed)
  {
    hide Run;
    RunInv(events);
  }

  // Within one attempt, only the deadline branch taken before any cancellation was requested times out.
  predicate TimeoutRight(s: State, e: Event, t: State) {
    s.log.Some? && t.dialer.cseq == s.dialer.cseq ==>
      && t.log.Some?
      && (t.log.value.timedOut <==> s.log.value.timedOut || (e == Deadline && !s.dialer.cancelRequested))
  }

  lemma WaitingTimeout(s: State, e: Event)
    requires Next(s, e).Some?
    requires e.Receive? || e.ContextDone? || e.Deadline? || e.SendDueCancel? || e.CloseTransaction? || e.Arrive?
    ensures TimeoutRight(s, e, Next(s, e).value)
  {
    hide HandedOff;
  }

  lemma HandlingTimeout(s: State, e: Event)
    requires (s.log.Some? ==> s.dialer.pc != Starting) && s.dialer.cseq <= 2 && Next(s, e).Some?
    requires e.Open? || e.CancelContext? || e.HandleFinal? || e.SendAck? || e.Check? || e.Act? || e.LookUp?
    ensures TimeoutRight(s, e, Next(s, e).value)
  {
    hide Unmatched;
  }

  lemma EndingTimeout(s: State, e: Event)
    requires Next(s, e).Some?
    requires e.SendBye? || e.ByeDone? || e.FailReturn? || e.LateBye? || e.LateByeDone? || e.RemoteBye?
             || e.ExpireTombstone? || e.ExpireCompleted? || e.PeerReuses? || e.PeerCallEnds?
    ensures TimeoutRight(s, e, Next(s, e).value)
  {
  }

  lemma TimesOutIff(events: seq<Event>, s: State, e: Event)
    requires Run(events) == Some(s) && Next(s, e).Some?
    ensures TimeoutRight(s, e, Next(s, e).value)
  {
    RunInv(events);
    StartedIfLogged(s);
    hide Run, Inv, Next, TimeoutRight;
    if e.Receive? || e.ContextDone? || e.Deadline? || e.SendDueCancel? || e.CloseTransaction? || e.Arrive? {
      WaitingTimeout(s, e);
    } else if e.Open? || e.CancelContext? || e.HandleFinal? || e.SendAck? || e.Check? || e.Act? || e.LookUp? {
      HandlingTimeout(s, e);
    } else {
      EndingTimeout(s, e);
    }
  }

  lemma StartedIfLogged(s: State)
    requires Inv(s)
    ensures (s.log.Some? ==> s.dialer.pc != Starting) && s.dialer.cseq <= 2
  {
  }

  // Every re-ACK readLoop decides on is sent, once.
  lemma ReAcksAreSent(events: seq<Event>, s: State)
    requires Run(events) == Some(s) && s.log.Some?
    ensures s.log.value.reAcks + B(s.reader.Acting? && s.reader.action.ReAck?) == s.log.value.reAcksDue
  {
    hide Run;
    RunInv(events);
  }

  // Once the cancellation is seen the INVITE is in exactly one pair of hands: the open transaction,
  // the tombstone, the owner of its final response, or nobody because the tombstone expired.
  lemma OneHolder(events: seq<Event>, s: State)
    requires Run(events) == Some(s)
    ensures s.log.Some? && s.log.value.observed ==>
              var l := s.log.value;
              && B(s.dialer.pc == Waiting && l.owner.None?) + B(s.view.tombstone.Some?)
                 + B(l.owner.Some?) + B(l.expired) == 1
              && (s.view.tombstone.Some? ==> s.view.transactions == map[])
  {
    hide Run;
    RunInv(events);
  }

  lemma LookUpEvent(s: State)
    ensures Next(s, LookUp) == LookedUp(s)
  {
  }

  // A tombstone that is still there has no owner yet, so looking it up cannot replace one.
  lemma LookUpKeepsOwner(s: State)
    requires Inv(s) && LookedUp(s).Some? && s.log.Some? && s.log.value.owner.Some?
    ensures var t := LookedUp(s).value;
            t.dialer == s.dialer && OwnerKept(s, t)
  {
    assert s.view.tombstone.None?;
    hide Inv;
  }

  // The owner of the attempt that was under way in s is the same in t.
  predicate OwnerKept(s: State, t: State) {
    && s.log.Some?
    && var attempt := if t.dialer.cseq == s.dialer.cseq then t.log else t.past;
       attempt.Some? && attempt.value.owner == s.log.value.owner
  }

  lemma WaitingKeepsOwner(s: State, e: Event)
    requires s.log.Some? && s.log.value.owner.Some? && Next(s, e).Some?
    requires e.Receive? || e.ContextDone? || e.Deadline? || e.SendDueCancel? || e.CloseTransaction? || e.Arrive?
    ensures OwnerKept(s, Next(s, e).value)
  {
    hide HandedOff;
  }

  lemma HandlingKeepsOwner(s: State, e: Event)
    requires s.log.Some? && s.log.value.owner.Some? && s.dialer.pc != Starting && Next(s, e).Some?
    requires e.Open? || e.CancelContext? || e.HandleFinal? || e.SendAck? || e.Check? || e.Act?
    ensures OwnerKept(s, Next(s, e).value)
  {
    if e.HandleFinal? {
      FinalKeepsOwner(s, e.challengeParses);
    }
    hide FinalHandled;
  }

  lemma FinalKeepsOwner(s: State, challengeParses: bool)
    requires s.log.Some? && s.log.value.owner.Some? && FinalHandled(s, challengeParses).Some?
    ensures OwnerKept(s, FinalHandled(s, challengeParses).value)
  {
  }

  lemma EndingKeepsOwner(s: State, e: Event)
    requires s.log.Some? && s.log.value.owner.Some? && Next(s, e).Some?
    requires e.SendBye? || e.ByeDone? || e.FailReturn? || e.LateBye? || e.LateByeDone? || e.RemoteBye?
             || e.ExpireTombstone? || e.ExpireCompleted? || e.PeerReuses? || e.PeerCallEnds?
    ensures OwnerKept(s, Next(s, e).value)
  {
  }

  lemma StartedAttempt(s: State)
    requires Inv(s) && s.log.Some?
    ensures s.dialer.pc != Starting
  {
  }

  // Ownership, once taken, is never passed on or taken again.
  lemma OwnerNeverChanges(events: seq<Event>, s: State, e: Event)
    requires Run(events) == Some(s) && Next(s, e).Some?
    requires s.log.Some? && s.log.value.owner.Some?
    ensures OwnerKept(s, Next(s, e).value)
  {
    hide Run, Next, Inv;
    RunInv(events);
    StartedAttempt(s);
    if e.LookUp? {
      LookUpEvent(s);
      LookUpKeepsOwner(s);
    } else if e.Receive? || e.ContextDone? || e.Deadline? || e.SendDueCancel? || e.CloseTransaction? || e.Arrive? {
      WaitingKeepsOwner(s, e);
    } else if e.Open? || e.CancelContext? || e.HandleFinal? || e.SendAck? || e.Check? || e.Act? {
      HandlingKeepsOwner(s, e);
    } else {
      EndingKeepsOwner(s, e);
    }
  }

  // A final response that goes into the transaction has an owner; one that comes too late for it has
  // one if and only if the cancellation was seen, the tombstone lives and no incoming call has taken
  // over the Call-ID, or there was an owner already.
  lemma AcceptedFinalIsOwned(events: seq<Event>, s: State, e: Event)
    requires Run(events) == Some(s) && Next(s, e).Some? && s.log.Some?
    requires || (e.Arrive? && Final(e.response) && e.response.cseq in s.view.transactions
                 && |s.view.transactions[e.response.cseq]| < CHANNEL_CAPACITY)
             || (e.LookUp? && Final(s.reader.response) && s.reader.response.cseq == s.dialer.cseq)
    ensures var l, t := s.log.value, Next(s, e).value;
            && t.log.Some?
            && (t.log.value.owner.Some? <==>
                  e.Arrive? || l.owner.Some? || (l.observed && !l.expired && !s.view.foreign))
  {
    hide Run;
    RunInv(events);
    if e.Arrive? {
      assert Next(s, e) == Arrived(s, e.response);
    } else {
      assert Next(s, e) == LookedUp(s);
    }
  }

  // The exact limit of the guarantee. Once Dial has returned with no final response seen, a late one
  // finds an owner if and only if transact saw the cancellation before its deadline fired and nobody
  // has taken over the Call-ID.
  lemma LateFinalOwnedIffCancellationSeen(events: seq<Event>, s: State)
    requires Run(events) == Some(s)
    requires s.dialer.pc == Done && s.log.Some? && s.log.value.owner.None? && !s.log.value.expired
    requires s.reader.Looking? && Final(s.reader.response) && s.reader.response.cseq == s.dialer.cseq
    ensures LookedUp(s).value.log.value.owner.Some? <==> s.log.value.observed && !s.view.foreign
  {
    hide Run;
    RunInv(events);
  }

  // A canceled context alone is not enough: the 32-second deadline can be selected first, and then
  // nobody acknowledges the phone that answers.
  lemma UnseenCancellationLosesTheAnswer()
    ensures exists events :: Run(events).Some? &&
              var s := Run(events).value;
              && s.dialer.canceled && AtRest(s) && s.log.Some?
              && Arrive(Response(1, 200)) in events && s.log.value.owner.None? && s.log.value.acks == 0
  {
    hide Run;
    var answer := Arrive(Response(1, 200));
    RunThen([], Open);
    var e1 := [] + [Open];
    var e2 := e1 + [CancelContext];
    RunThen(e1, CancelContext);
    var e3 := e2 + [Deadline];
    RunThen(e2, Deadline);
    var e4 := e3 + [CloseTransaction];
    RunThen(e3, CloseTransaction);
    var e5 := e4 + [FailReturn];
    RunThen(e4, FailReturn);
    assert Run(e5).value.view.transactions == map[];
    var e6 := e5 + [answer];
    RunThen(e5, answer);
    var e7 := e6 + [LookUp];
    RunThen(e6, LookUp);
    assert e7[5] == answer;
  }

  // Nor is an answer that was already in the transaction's channel safe from that choice: readLoop
  // accepted it, and nobody acknowledges it or hangs up.
  lemma QueuedAnswerLost()
    ensures exists events :: Run(events).Some? &&
              var s := Run(events).value;
              && s.dialer.canceled && AtRest(s) && s.log.Some?
              && s.log.value.owner == Some(Live(Response(1, 200)))
              && s.log.value.acks == 0 && s.log.value.byes == 0
  {
    hide Run;
    RunThen([], Open);
    var e1 := [] + [Open];
    var e2 := e1 + [CancelContext];
    RunThen(e1, CancelContext);
    var e3 := e2 + [Arrive(Response(1, 200))];
    RunThen(e2, Arrive(Response(1, 200)));
    var e4 := e3 + [Deadline];
    RunThen(e3, Deadline);
    var e5 := e4 + [CloseTransaction];
    RunThen(e4, CloseTransaction);
    var e6 := e5 + [FailReturn];
    RunThen(e5, FailReturn);
  }

  // A call that nobody answered before its cancellation was handed to a tombstone.
  lemma HandedToTombstone() returns (events: seq<Event>)
    ensures Run(events).Some?
    ensures var s := Run(events).value;
            && s.dialer.pc == Done && s.dialer.canceled && s.dialer.cseq == 1 && s.reader == Idle
            && s.view.transactions == map[] && s.view.tombstone == Some(Tombstone(1, false))
            && !s.view.active && !s.view.completed && !s.view.foreign
            && s.log.Some? && s.log.value.owner.None? && s.log.value.acks == 0
  {
    hide Run;
    RunThen([], Open);
    var e1 := [] + [Open];
    var e2 := e1 + [CancelContext];
    RunThen(e1, CancelContext);
    var e3 := e2 + [ContextDone];
    RunThen(e2, ContextDone);
    var e4 := e3 + [Deadline];
    RunThen(e3, Deadline);
    var e5 := e4 + [SendDueCancel];
    RunThen(e4, SendDueCancel);
    events := e5 + [FailReturn];
    RunThen(e5, FailReturn);
    assert Run(events).value.view.transactions == map[];
  }

  // Once the cancellation was seen, the same answer finds an owner, who acknowledges it.
  lemma SeenCancellationKeepsTheAnswer()
    ensures exists events :: Run(events).Some? &&
              var s := Run(events).value;
              && s.dialer.canceled && s.dialer.pc == Done && s.log.Some?
              && Arrive(Response(1, 200)) in events && s.log.value.owner.Some? && s.log.value.acks == 1
  {
    hide Run;
    var answer := Arrive(Response(1, 200));
    var before := HandedToTombstone();
    RunThen(before, answer);
    var e1 := before + [answer];
    RunThen(e1, LookUp);
    var e2 := e1 + [LookUp];
    RunThen(e2, Act);
    var e3 := e2 + [Act];
    assert e3[|before|] == answer;
  }

  lemma RunThen(events: seq<Event>, e: Event)
    ensures Run([]) == Some(Reserved)
    ensures Run(events + [e]) == if Run(events).Some? then Next(Run(events).value, e) else None
  {
    assert (events + [e])[..|events|] == events;
  }

  // No goroutine is ever stuck: short of rest, something other than the network can move.
  lemma NeverStuck(events: seq<Event>, s: State)
    requires Run(events) == Some(s) && !AtRest(s)
    ensures exists e: Event :: !e.Arrive? && !e.CancelContext? && !e.PeerReuses? && !e.PeerCallEnds? && Next(s, e).Some?
  {
    hide Run;
    RunInv(events);
    var e :=
      if s.reader.Looking? then LookUp
      else if s.reader.Acting? then Act
      else if s.late == LateHanging then LateBye
      else if s.late == LateByeSent then LateByeDone
      else match s.dialer.pc
        case Starting => Open
        case Waiting => Deadline
        case Abandoned => CloseTransaction
        case Releasing(_) => CloseTransaction
        case Tombstoned(_) => SendDueCancel
        case Returned(_) => HandleFinal(true)
        case Acking => SendAck
        case Checking => Check(true)
        case Hanging => SendBye
        case ByeSent => ByeDone
        case InCall => SendBye
        case Failing => FailReturn
        case Done => Open;
    assert Next(s, e).Some?;
  }

  // An unmatched 2xx of a remembered dialog is acknowledged again with the CSeq of its INVITE,
  // however often BYE has advanced the dialog's own CSeq (section 13.2.2.4), unless an incoming call
  // has taken over the Call-ID.
  lemma ReAckNamesTheInvite(events: seq<Event>, s: State, r: Response)
    requires Run(events) == Some(s) && Success(r)
    requires s.view.active || s.view.completed
    ensures Unmatched(s.view, r)
            == (s.view, if r.cseq == s.dialer.cseq && !s.view.foreign then ReAck(s.dialer.cseq) else Ignore)
    ensures Unmatched(Bumped(s.view), r).1 == Unmatched(s.view, r).1
    ensures Bumped(s.view).call.Some? && s.view.call.Some?
    ensures Bumped(s.view).call.value.cseq != s.view.call.value.cseq
  {
    hide Run;
    RunInv(events);
    assert s.view.call.Some? && s.view.call.value.inviteCSeq == s.dialer.cseq;
  }
}
