/** The critical sections of internal/sip/client.go over the client's own maps. Each one acts on a
    single Call-ID exactly as the call protocol says, leaves every other Call-ID alone, and keeps the
    number of admitted calls within the configured limit. */
module SipClient {
  import opened GoNumbers
  import opened Wrappers
  import opened InviteProtocol

  type CallId = string

  // What an entry of `active` points to: the one Call dialed under this Call-ID, or an incoming one.
  datatype Ref = Ours | Theirs(number: nat)

  // The fields guarded by Client.mu. `calls` holds the Call objects of dialed Call-IDs, wherever
  // they are referenced from.
  datatype Maps = Maps(
    transactions: map<(CallId, nat), seq<Response>>,
    canceled: map<CallId, Tombstone>,
    completed: set<CallId>,
    active: map<CallId, Ref>,
    dialing: set<CallId>,
    calls: map<CallId, Call>)

  predicate Late(m: Maps, id: CallId) {
    id in m.active && m.active[id] == Ours && id in m.calls && m.calls[id].late
  }

  // The calls that count against the limit: everything active but late dialogs being torn down.
  function Admitted(m: Maps): set<CallId> {
    set id | id in m.active && !Late(m, id)
  }

  predicate Ok(m: Maps, limit: nat) {
    && (forall id :: id in m.active && m.active[id] == Ours ==> id in m.calls && !m.calls[id].finished)
    && m.completed <= m.calls.Keys
    && |Admitted(m)| + |m.dialing| <= limit
  }

  function TransactionsOf(m: Maps, id: CallId): map<nat, seq<Response>> {
    map key | key in m.transactions && key.0 == id :: key.1 := m.transactions[key]
  }

  // One Call-ID's part of the maps.
  function ViewOf(m: Maps, id: CallId): View {
    View(id in m.dialing,
         TransactionsOf(m, id),
         if id in m.canceled then Some(m.canceled[id]) else None,
         if id in m.calls then Some(m.calls[id]) else None,
         id in m.active && m.active[id] == Ours,
         id in m.completed,
         id in m.active && m.active[id] != Ours)
  }

  ghost predicate SameElsewhere(before: Maps, after: Maps, id: CallId) {
    forall o :: o != id ==> ViewOf(after, o) == ViewOf(before, o)
  }

  predicate HasCapacity(m: Maps, limit: nat) {
    |m.active| + |m.dialing| < limit
  }

  /* What each critical section leaves in the maps. */

  function AfterDeliver(m: Maps, id: CallId, r: Response): Maps {
    var key := (id, r.cseq);
    if key in m.transactions && |m.transactions[key]| < CHANNEL_CAPACITY then
      m.(transactions := m.transactions[key := m.transactions[key] + [r]])
    else m
  }

  function AfterTransition(m: Maps, id: CallId, cseq: nat, cancelSent: bool): (Maps, HandOff)
    requires (id, cseq) in m.transactions
  {
    var queue := m.transactions[(id, cseq)];
    var closed := m.(transactions := m.transactions - {(id, cseq)});
    match FirstFinal(queue)
    case Some(r) => (closed, Owned(r))
    case None => (closed.(canceled := closed.canceled[id := Tombstone(cseq, cancelSent || queue != [])]),
                  Released(queue != [] && !cancelSent))
  }

  function ReAckOrIgnore(c: Call, r: Response): Action {
    if Success(r) && r.cseq == c.inviteCSeq then ReAck(c.inviteCSeq) else Ignore
  }

  function AfterUnmatched(m: Maps, id: CallId, r: Response): (Maps, Action) {
    if id in m.active then (m, if m.active[id] == Ours && id in m.calls then ReAckOrIgnore(m.calls[id], r) else Ignore)
    else if id in m.completed then (m, if id in m.calls then ReAckOrIgnore(m.calls[id], r) else Ignore)
    else if id !in m.canceled || m.canceled[id].cseq != r.cseq then (m, Ignore)
    else
      var t := m.canceled[id];
      if Provisional(r) then
        (m.(canceled := m.canceled[id := t.(cancelSent := true)]), if t.cancelSent then Ignore else SendCancel(t.cseq))
      else if Success(r) then
        (m.(canceled := m.canceled - {id}, active := m.active[id := Ours],
            calls := m.calls[id := Call(t.cseq, t.cseq, true, false)]), LateAck(t.cseq))
      else (m.(canceled := m.canceled - {id}), FinalAck(t.cseq))
  }

  function AfterEstablish(m: Maps, id: CallId, cseq: nat): Maps {
    m.(dialing := m.dialing - {id}, active := m.active[id := Ours], calls := m.calls[id := Call(cseq, cseq, false, false)])
  }

  function AfterNextCSeq(m: Maps, id: CallId): Maps
    requires id in m.calls
  {
    m.(calls := m.calls[id := m.calls[id].(cseq := ToUint32(m.calls[id].cseq + 1))])
  }

  function AfterFinish(m: Maps, id: CallId): Maps
    requires id in m.calls
  {
    if m.calls[id].finished then m
    else m.(calls := m.calls[id := m.calls[id].(finished := true)],
            active := if id in m.active && m.active[id] == Ours then m.active - {id} else m.active,
            completed := m.completed + {id})
  }

  function AfterFinishIncoming(m: Maps, id: CallId, number: nat): Maps {
    if id in m.active && m.active[id] == Theirs(number) then m.(active := m.active - {id}) else m
  }

  /* Each section refines its step of the call protocol and keeps the limit. */

  lemma SubsetSize<T>(a: set<T>, b: set<T>)
    requires a <= b
    ensures |a| <= |b|
  {
    assert b == a + (b - a);
  }

  // Admission counts every active entry, late ones included, so it can only be too strict.
  lemma ReserveSection(m: Maps, limit: nat, id: CallId)
    requires Ok(m, limit) && HasCapacity(m, limit)
    ensures var n := m.(dialing := m.dialing + {id});
            Ok(n, limit) && ViewOf(n, id) == ViewOf(m, id).(dialing := true) && SameElsewhere(m, n, id)
  {
    var n := m.(dialing := m.dialing + {id});
    assert Admitted(n) == Admitted(m);
    SubsetSize(Admitted(m), m.active.Keys);
    hide TransactionsOf;
    TransactionsKept(m, n);
  }

  lemma ReleaseSection(m: Maps, limit: nat, id: CallId)
    requires Ok(m, limit)
    ensures var n := m.(dialing := m.dialing - {id});
            Ok(n, limit) && ViewOf(n, id) == ViewOf(m, id).(dialing := false) && SameElsewhere(m, n, id)
  {
    var n := m.(dialing := m.dialing - {id});
    assert Admitted(n) == Admitted(m);
    SubsetSize(n.dialing, m.dialing);
    hide TransactionsOf;
    TransactionsKept(m, n);
  }

  // Any change confined to the transactions and tombstones keeps the limit.
  lemma CallsUntouched(m: Maps, n: Maps, limit: nat)
    requires Ok(m, limit) && n == m.(transactions := n.transactions, canceled := n.canceled)
    ensures Ok(n, limit)
  {
    assert Admitted(n) == Admitted(m);
  }

  lemma QueueSet(m: Maps, id: CallId, cseq: nat, queue: seq<Response>)
    ensures var n := m.(transactions := m.transactions[(id, cseq) := queue]);
            && TransactionsOf(n, id) == TransactionsOf(m, id)[cseq := queue]
            && forall o :: o != id ==> TransactionsOf(n, o) == TransactionsOf(m, o)
  {
  }

  lemma QueueClosed(m: Maps, id: CallId, cseq: nat)
    ensures var n := m.(transactions := m.transactions - {(id, cseq)});
            && TransactionsOf(n, id) == TransactionsOf(m, id) - {cseq}
            && forall o :: o != id ==> TransactionsOf(n, o) == TransactionsOf(m, o)
  {
  }

  lemma OpenSection(m: Maps, limit: nat, id: CallId, cseq: nat)
    requires Ok(m, limit)
    ensures var n := m.(transactions := m.transactions[(id, cseq) := []]);
            var v := ViewOf(m, id);
            && Ok(n, limit) && SameElsewhere(m, n, id)
            && ViewOf(n, id) == v.(transactions := v.transactions[cseq := []])
  {
    hide Ok, TransactionsOf;
    CallsUntouched(m, m.(transactions := m.transactions[(id, cseq) := []]), limit);
    QueueSet(m, id, cseq, []);
  }

  lemma CloseSection(m: Maps, limit: nat, id: CallId, cseq: nat)
    requires Ok(m, limit)
    ensures var n := m.(transactions := m.transactions - {(id, cseq)});
            var v := ViewOf(m, id);
            && Ok(n, limit) && SameElsewhere(m, n, id)
            && ViewOf(n, id) == v.(transactions := v.transactions - {cseq})
  {
    hide Ok, TransactionsOf;
    CallsUntouched(m, m.(transactions := m.transactions - {(id, cseq)}), limit);
    QueueClosed(m, id, cseq);
  }

  lemma QueueAt(m: Maps, id: CallId, cseq: nat)
    ensures cseq in TransactionsOf(m, id) <==> (id, cseq) in m.transactions
    ensures (id, cseq) in m.transactions ==> TransactionsOf(m, id)[cseq] == m.transactions[(id, cseq)]
  {
  }

  lemma DeliverSection(m: Maps, limit: nat, id: CallId, r: Response)
    requires Ok(m, limit)
    ensures var n := AfterDeliver(m, id, r);
            var v := ViewOf(m, id);
            && Ok(n, limit) && SameElsewhere(m, n, id)
            && ViewOf(n, id) == if r.cseq in v.transactions then Delivered(v, r) else v
  {
    hide Ok, TransactionsOf;
    CallsUntouched(m, AfterDeliver(m, id, r), limit);
    QueueAt(m, id, r.cseq);
    if (id, r.cseq) in m.transactions {
      QueueSet(m, id, r.cseq, m.transactions[(id, r.cseq)] + [r]);
    }
  }

  lemma TransitionSection(m: Maps, limit: nat, id: CallId, cseq: nat, cancelSent: bool)
    requires Ok(m, limit) && (id, cseq) in m.transactions
    ensures var (n, h) := AfterTransition(m, id, cseq, cancelSent);
            && Ok(n, limit) && SameElsewhere(m, n, id)
            && (ViewOf(n, id), h) == HandedOff(ViewOf(m, id), cseq, cancelSent)
  {
    hide Ok, TransactionsOf, FirstFinal;
    CallsUntouched(m, AfterTransition(m, id, cseq, cancelSent).0, limit);
    QueueAt(m, id, cseq);
    QueueClosed(m, id, cseq);
    TransactionsKept(m.(transactions := m.transactions - {(id, cseq)}), AfterTransition(m, id, cseq, cancelSent).0);
  }

  // A tombstone is only ever left for a Call-ID that has no Call; a late dialog is not admitted.
  lemma UnmatchedSection(m: Maps, limit: nat, id: CallId, r: Response)
    requires Ok(m, limit) && (id in m.canceled ==> id !in m.calls)
    ensures var (n, a) := AfterUnmatched(m, id, r);
            && Ok(n, limit) && SameElsewhere(m, n, id)
            && (ViewOf(n, id), a) == Unmatched(ViewOf(m, id), r)
  {
    UnmatchedKeepsLimit(m, limit, id, r);
    assert m.completed <= m.calls.Keys && (id in m.active && m.active[id] == Ours ==> id in m.calls);
    hide Ok, ViewOf, AfterUnmatched, Unmatched;
    UnmatchedAtId(m, id, r);
    UnmatchedElsewhere(m, id, r);
  }

  lemma UnmatchedAtId(m: Maps, id: CallId, r: Response)
    requires id in m.active && m.active[id] == Ours ==> id in m.calls
    requires m.completed <= m.calls.Keys && (id in m.canceled ==> id !in m.calls)
    ensures var (n, a) := AfterUnmatched(m, id, r);
            (ViewOf(n, id), a) == Unmatched(ViewOf(m, id), r)
  {
    hide TransactionsOf;
    TransactionsKept(m, AfterUnmatched(m, id, r).0);
  }

  lemma UnmatchedElsewhere(m: Maps, id: CallId, r: Response)
    ensures SameElsewhere(m, AfterUnmatched(m, id, r).0, id)
  {
    hide TransactionsOf;
    TransactionsKept(m, AfterUnmatched(m, id, r).0);
  }

  lemma TransactionsKept(m: Maps, n: Maps)
    requires m.transactions == n.transactions
    ensures forall o :: TransactionsOf(n, o) == TransactionsOf(m, o)
  {
  }

  lemma UnmatchedKeepsLimit(m: Maps, limit: nat, id: CallId, r: Response)
    requires Ok(m, limit) && (id in m.canceled ==> id !in m.calls)
    ensures Ok(AfterUnmatched(m, id, r).0, limit)
  {
    assert Admitted(AfterUnmatched(m, id, r).0) == Admitted(m);
  }

  lemma EstablishKeepsLimit(m: Maps, limit: nat, id: CallId, cseq: nat)
    requires Ok(m, limit) && id in m.dialing
    ensures Ok(AfterEstablish(m, id, cseq), limit)
  {
    var n := AfterEstablish(m, id, cseq);
    assert Admitted(n) <= Admitted(m) + {id};
    SubsetSize(Admitted(n), Admitted(m) + {id});
    assert n.dialing + {id} == m.dialing;
  }

  lemma EstablishSection(m: Maps, limit: nat, id: CallId, cseq: nat)
    requires Ok(m, limit) && id in m.dialing
    ensures var n := AfterEstablish(m, id, cseq);
            Ok(n, limit) && ViewOf(n, id) == Established(ViewOf(m, id), cseq) && SameElsewhere(m, n, id)
  {
    EstablishKeepsLimit(m, limit, id, cseq);
    hide Ok, TransactionsOf;
    TransactionsKept(m, AfterEstablish(m, id, cseq));
  }

  lemma NextCSeqSection(m: Maps, limit: nat, id: CallId)
    requires Ok(m, limit) && id in m.calls
    ensures var n := AfterNextCSeq(m, id);
            Ok(n, limit) && ViewOf(n, id) == Bumped(ViewOf(m, id)) && SameElsewhere(m, n, id)
  {
    assert Admitted(AfterNextCSeq(m, id)) == Admitted(m);
  }

  lemma FinishKeepsLimit(m: Maps, limit: nat, id: CallId)
    requires Ok(m, limit) && id in m.calls
    ensures Ok(AfterFinish(m, id), limit)
  {
    var n := AfterFinish(m, id);
    assert Admitted(n) <= Admitted(m);
    SubsetSize(Admitted(n), Admitted(m));
  }

  lemma FinishSection(m: Maps, limit: nat, id: CallId)
    requires Ok(m, limit) && id in m.calls
    ensures var n := AfterFinish(m, id);
            Ok(n, limit) && ViewOf(n, id) == Finished(ViewOf(m, id)) && SameElsewhere(m, n, id)
  {
    FinishKeepsLimit(m, limit, id);
    hide Ok, TransactionsOf;
    TransactionsKept(m, AfterFinish(m, id));
  }

  lemma FinishIncomingKeepsLimit(m: Maps, limit: nat, id: CallId, number: nat)
    requires Ok(m, limit)
    ensures Ok(AfterFinishIncoming(m, id, number), limit)
  {
    var n := AfterFinishIncoming(m, id, number);
    assert Admitted(n) <= Admitted(m);
    SubsetSize(Admitted(n), Admitted(m));
  }

  lemma FinishIncomingSection(m: Maps, limit: nat, id: CallId, number: nat)
    requires Ok(m, limit)
    ensures var n := AfterFinishIncoming(m, id, number);
            && Ok(n, limit) && SameElsewhere(m, n, id)
            && ViewOf(n, id) == (if n == m then ViewOf(m, id) else Vacated(ViewOf(m, id)))
            && (n != m ==> ViewOf(m, id).foreign)
  {
    FinishIncomingKeepsLimit(m, limit, id, number);
    hide Ok, TransactionsOf;
    TransactionsKept(m, AfterFinishIncoming(m, id, number));
  }

  lemma AdmitKeepsLimit(m: Maps, limit: nat, id: CallId, number: nat)
    requires Ok(m, limit) && HasCapacity(m, limit)
    ensures Ok(m.(active := m.active[id := Theirs(number)]), limit)
  {
    var n := m.(active := m.active[id := Theirs(number)]);
    assert Admitted(n) <= m.active.Keys + {id};
    SubsetSize(Admitted(n), m.active.Keys + {id});
  }

  // An admitted incoming INVITE takes the active entry of its Call-ID, whoever held it.
  lemma AdmitSection(m: Maps, limit: nat, id: CallId, number: nat)
    requires Ok(m, limit) && HasCapacity(m, limit)
    ensures var n := m.(active := m.active[id := Theirs(number)]);
            Ok(n, limit) && ViewOf(n, id) == Overwritten(ViewOf(m, id)) && SameElsewhere(m, n, id)
  {
    AdmitKeepsLimit(m, limit, id, number);
    hide Ok, TransactionsOf;
    TransactionsKept(m, m.(active := m.active[id := Theirs(number)]));
  }

  lemma ForgetKeepsLimit(m: Maps, limit: nat, id: CallId)
    requires Ok(m, limit)
    ensures Ok(m.(completed := m.completed - {id}), limit)
  {
    assert Admitted(m.(completed := m.completed - {id})) == Admitted(m);
  }

  lemma ExpirySections(m: Maps, limit: nat, id: CallId)
    requires Ok(m, limit)
    ensures var n := m.(canceled := m.canceled - {id});
            Ok(n, limit) && ViewOf(n, id) == ViewOf(m, id).(tombstone := None) && SameElsewhere(m, n, id)
    ensures var n := m.(completed := m.completed - {id});
            Ok(n, limit) && ViewOf(n, id) == ViewOf(m, id).(completed := false) && SameElsewhere(m, n, id)
  {
    ForgetKeepsLimit(m, limit, id);
    CallsUntouched(m, m.(canceled := m.canceled - {id}), limit);
    hide Ok, TransactionsOf;
    TransactionsKept(m, m.(canceled := m.canceled - {id}));
    TransactionsKept(m, m.(completed := m.completed - {id}));
  }

  // The locals of one transact call for an INVITE; each method is one branch of its select loop,
  // for a call in protocol state `s`.
  class InviteTransaction {
    var cancelRequested: bool
    var cancelSent: bool
    var receivedResponse: bool
    var cancels: nat  // CANCEL requests started

    predicate Follows(s: State)
      reads this
    {
      && s.dialer.cancelRequested == cancelRequested && s.dialer.cancelSent == cancelSent
      && s.dialer.receivedResponse == receivedResponse
      && s.log.Some? && s.log.value.cancels == cancels
    }

    constructor (ghost s: State)
      requires Opened(s).Some?
      ensures Follows(Opened(s).value)
    {
      cancelRequested, cancelSent, receivedResponse, cancels := false, false, false, 0;
    }

    // `case res := <-ch`; the result says whether transact returns the response.
    method OnResponse(r: Response, ghost s: State) returns (done: bool)
      requires Follows(s) && Received(s).Some? && s.view.transactions[s.dialer.cseq][0] == r
      modifies this
      ensures Follows(Received(s).value) && done == Received(s).value.dialer.pc.Releasing?
    {
      receivedResponse := true;
      if r.status < 200 {
        if cancelRequested && !cancelSent {
          cancels := cancels + 1;
          cancelSent := true;
        }
        return false;
      }
      return true;
    }

    // `case <-ctxDone`
    method OnContextDone(ghost s: State)
      requires Follows(s) && ContextSeen(s).Some?
      modifies this
      ensures Follows(ContextSeen(s).value)
    {
      cancelRequested := true;
      if receivedResponse && !cancelSent {
        cancels := cancels + 1;
        cancelSent := true;
      }
    }

    // `case <-deadline.C`: None is the plain timeout.
    method OnDeadline(client: Client, id: CallId, cseq: nat, ghost s: State) returns (h: Option<HandOff>)
      requires Follows(s) && DeadlineFired(s).Some? && s.dialer.cseq == cseq
      requires client.Valid() && ViewOf(client.State(), id) == s.view
      modifies client
      ensures client.Valid() && ViewOf(client.State(), id) == DeadlineFired(s).value.view
      ensures DeadlineFired(s).value.dialer.pc ==
              (match h case None => Abandoned case Some(Owned(r)) => Releasing(r) case Some(Released(send)) => Tombstoned(send))
    {
      if !cancelRequested {
        return None;
      }
      QueueAt(client.State(), id, cseq);
      TransitionSection(client.State(), client.maxConcurrentCalls, id, cseq, cancelSent);
      var handOff := client.TransitionCanceledInvite(id, cseq, cancelSent);
      return Some(handOff);
    }
  }

  class Client {
    const maxConcurrentCalls: nat
    var transactions: map<(CallId, nat), seq<Response>>
    var canceledInvites: map<CallId, Tombstone>
    var completedDialogs: set<CallId>
    var active: map<CallId, Ref>
    var dialing: set<CallId>
    var calls: map<CallId, Call>

    function State(): Maps
      reads this
    {
      Maps(transactions, canceledInvites, completedDialogs, active, dialing, calls)
    }

    predicate Valid()
      reads this
    {
      Ok(State(), maxConcurrentCalls)
    }

    constructor (limit: int)
      ensures Valid() && maxConcurrentCalls == (if limit <= 0 then 1 else limit)
      ensures State() == Maps(map[], map[], {}, map[], {}, map[])
    {
      maxConcurrentCalls := if limit <= 0 then 1 else limit;
      transactions, canceledInvites, completedDialogs, active := map[], map[], {}, map[];
      dialing, calls := {}, map[];
      new;
      assert Admitted(State()) == {};
    }

    method HasCallCapacity() returns (ok: bool)
      ensures ok <==> HasCapacity(State(), maxConcurrentCalls)
    {
      ok := |active| + |dialing| < maxConcurrentCalls;
    }

    // Dial's admission under a fresh Call-ID.
    method Reserve(id: CallId) returns (ok: bool)
      requires Valid()
      modifies this`dialing
      ensures Valid() && ok == old(HasCapacity(State(), maxConcurrentCalls))
      ensures State() == if ok then old(State()).(dialing := old(dialing) + {id}) else old(State())
    {
      ok := HasCallCapacity();
      if ok {
        ReserveSection(State(), maxConcurrentCalls, id);
        dialing := dialing + {id};
      }
    }

    method ReleaseReservation(id: CallId)
      requires Valid()
      modifies this`dialing
      ensures Valid() && State() == old(State()).(dialing := old(dialing) - {id})
    {
      ReleaseSection(State(), maxConcurrentCalls, id);
      dialing := dialing - {id};
    }

    method OpenTransaction(id: CallId, cseq: nat)
      requires Valid()
      modifies this`transactions
      ensures Valid() && State() == old(State()).(transactions := old(transactions)[(id, cseq) := []])
    {
      OpenSection(State(), maxConcurrentCalls, id, cseq);
      transactions := transactions[(id, cseq) := []];
    }

    method CloseTransaction(id: CallId, cseq: nat)
      requires Valid()
      modifies this`transactions
      ensures Valid() && State() == old(State()).(transactions := old(transactions) - {(id, cseq)})
    {
      CloseSection(State(), maxConcurrentCalls, id, cseq);
      transactions := transactions - {(id, cseq)};
    }

    // The locked part of readLoop for an INVITE response.
    method Deliver(id: CallId, r: Response) returns (found: bool)
      requires Valid()
      modifies this`transactions
      ensures Valid() && State() == AfterDeliver(old(State()), id, r)
      ensures found <==> (id, r.cseq) in old(transactions)
    {
      DeliverSection(State(), maxConcurrentCalls, id, r);
      found := (id, r.cseq) in transactions;
      if found {
        var queue := transactions[(id, r.cseq)];
        if |queue| < CHANNEL_CAPACITY {
          transactions := transactions[(id, r.cseq) := queue + [r]];
        }
      }
    }

    // transitionCanceledInvite up to its unlock: drain the channel, then hand over.
    method TransitionCanceledInvite(id: CallId, cseq: nat, cancelSent: bool) returns (h: HandOff)
      requires Valid() && (id, cseq) in transactions
      modifies this`transactions, this`canceledInvites
      ensures Valid() && (State(), h) == AfterTransition(old(State()), id, cseq, cancelSent)
    {
      TransitionSection(State(), maxConcurrentCalls, id, cseq, cancelSent);
      var queue := transactions[(id, cseq)];
      ghost var all := queue;
      var provisionalReceived := false;
      while queue != []
        invariant FirstFinal(queue) == FirstFinal(all)
        invariant provisionalReceived == (|queue| < |all|) && |queue| <= |all|
        decreases |queue|
      {
        var response := queue[0];
        if response.status >= 200 {
          transactions := transactions - {(id, cseq)};
          return Owned(response);
        }
        queue := queue[1..];
        provisionalReceived := true;
      }
      transactions := transactions - {(id, cseq)};
      canceledInvites := canceledInvites[id := Tombstone(cseq, cancelSent || provisionalReceived)];
      return Released(provisionalReceived && !cancelSent);
    }

    // handleUnmatchedInviteResponse up to its unlock; the action is what it sends afterwards.
    method HandleUnmatchedInviteResponse(id: CallId, r: Response) returns (action: Action)
      requires Valid() && (id in canceledInvites ==> id !in calls)
      modifies this
      ensures Valid() && (State(), action) == AfterUnmatched(old(State()), id, r)
    {
      UnmatchedSection(State(), maxConcurrentCalls, id, r);
      if id in active {
        if active[id] == Ours && 200 <= r.status < 300 && r.cseq == calls[id].inviteCSeq {
          return ReAck(calls[id].inviteCSeq);
        }
        return Ignore;
      }
      if id in completedDialogs {
        if 200 <= r.status < 300 && r.cseq == calls[id].inviteCSeq {
          return ReAck(calls[id].inviteCSeq);
        }
        return Ignore;
      }
      if id !in canceledInvites || canceledInvites[id].cseq != r.cseq {
        return Ignore;
      }
      var invite := canceledInvites[id];
      if r.status < 200 {
        canceledInvites := canceledInvites[id := invite.(cancelSent := true)];
        return if invite.cancelSent then Ignore else SendCancel(invite.cseq);
      }
      canceledInvites := canceledInvites - {id};
      if r.status < 300 {
        active := active[id := Ours];
        calls := calls[id := Call(invite.cseq, invite.cseq, true, false)];
        return LateAck(invite.cseq);
      }
      return FinalAck(invite.cseq);
    }

    // Dial turns its reservation into an active dialog.
    method EstablishDialog(id: CallId, cseq: nat)
      requires Valid() && id in dialing
      modifies this
      ensures Valid() && State() == AfterEstablish(old(State()), id, cseq)
    {
      EstablishSection(State(), maxConcurrentCalls, id, cseq);
      dialing := dialing - {id};
      active := active[id := Ours];
      calls := calls[id := Call(cseq, cseq, false, false)];
    }

    // The locked increment in Hangup: the CSeq of the BYE.
    method NextCSeq(id: CallId) returns (cseq: nat)
      requires Valid() && id in calls
      modifies this`calls
      ensures Valid() && State() == AfterNextCSeq(old(State()), id) && cseq == calls[id].cseq
    {
      NextCSeqSection(State(), maxConcurrentCalls, id);
      cseq := ToUint32(calls[id].cseq + 1);
      calls := calls[id := calls[id].(cseq := cseq)];
    }

    method Finish(id: CallId)
      requires Valid() && id in calls
      modifies this
      ensures Valid() && State() == AfterFinish(old(State()), id)
    {
      FinishSection(State(), maxConcurrentCalls, id);
      if !calls[id].finished {
        calls := calls[id := calls[id].(finished := true)];
        if id in active && active[id] == Ours {
          active := active - {id};
        }
        completedDialogs := completedDialogs + {id};
      }
    }

    method FinishIncoming(id: CallId, number: nat)
      requires Valid()
      modifies this`active
      ensures Valid() && State() == AfterFinishIncoming(old(State()), id, number)
    {
      FinishIncomingSection(State(), maxConcurrentCalls, id, number);
      if id in active && active[id] == Theirs(number) {
        active := active - {id};
      }
    }

    // The second capacity check and the insertion of handleIncomingInvite.
    method AdmitIncoming(id: CallId, number: nat) returns (ok: bool)
      requires Valid()
      modifies this`active
      ensures Valid() && ok == old(HasCapacity(State(), maxConcurrentCalls))
      ensures State() == if ok then old(State()).(active := old(active)[id := Theirs(number)]) else old(State())
    {
      ok := HasCallCapacity();
      if ok {
        AdmitSection(State(), maxConcurrentCalls, id, number);
        active := active[id := Theirs(number)];
      }
    }

    method ExpireCanceledInvite(id: CallId)
      requires Valid()
      modifies this`canceledInvites
      ensures Valid() && State() == old(State()).(canceled := old(canceledInvites) - {id})
    {
      ExpirySections(State(), maxConcurrentCalls, id);
      canceledInvites := canceledInvites - {id};
    }

    method ExpireCompletedDialog(id: CallId)
      requires Valid()
      modifies this`completedDialogs
      ensures Valid() && State() == old(State()).(completed := old(completedDialogs) - {id})
    {
      ExpirySections(State(), maxConcurrentCalls, id);
      completedDialogs := completedDialogs - {id};
    }
  }
}
