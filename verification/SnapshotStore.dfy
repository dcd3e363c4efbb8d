/** The snapshot publisher of internal/status/server.go: every subscriber has one buffered snapshot,
    and updates replace it while readers take from it at any moment. */
module SnapshotStore {
  import opened GoNumbers
  import opened Wrappers

  const DTMF_QUEUE := 64

  datatype Snapshot = Snapshot(content: int, updatedAt: int, revision: nat)

  // A subscriber's channels, with what its reader took from them so far.
  datatype Channel = Channel(buffered: Option<Snapshot>, received: seq<Snapshot>, dtmf: Option<seq<int>>)

  // How far a running Update has got: whom it has not served, and the two half-done sends.
  datatype Stage = Offering | Full(id: nat) | Emptied(id: nat)
  datatype Publication = Idle | Publishing(waiting: set<nat>, stage: Stage)

  // `log` holds every snapshot there has been; the last is the stored one.
  datatype Store = Store(
    log: seq<Snapshot>,
    channels: map<nat, Channel>,
    live: set<nat>,
    lastId: nat,
    publication: Publication)

  datatype Event =
    | Update(content: int, updatedAt: int, now: int)
    | Offer(id: nat)
    | DropStale
    | Retry
    | Finish
    | Receive(id: nat)
    | Subscribe(withDtmf: bool)
    | Cancel(id: nat)
    | PublishDTMF(key: int)
    | ReceiveDTMF(id: nat)

  function New(content: int, now: int): Store {
    Store([Snapshot(content, now, 1)], map[], {}, 0, Idle)
  }

  function Current(s: Store): Snapshot
    requires s.log != []
  {
    s.log[|s.log| - 1]
  }

  /* What happens to one subscriber. */

  function Put(c: Channel, v: Snapshot): Channel {
    c.(buffered := Some(v))
  }

  function Emptying(c: Channel): Channel {
    c.(buffered := None)
  }

  function Took(c: Channel): Channel {
    if c.buffered == None then c else c.(buffered := None, received := c.received + [c.buffered.value])
  }

  function Keyed(c: Channel, key: int): Channel {
    if c.dtmf.Some? && |c.dtmf.value| < DTMF_QUEUE then c.(dtmf := Some(c.dtmf.value + [key])) else c
  }

  function Seen(c: Channel): seq<Snapshot> {
    c.received + if c.buffered == None then [] else [c.buffered.value]
  }

  /* One step. The store's lock lets only the running Update and the readers act between two of its
     steps; None where the event cannot happen. */

  function Next(s: Store, e: Event): Option<Store>
    requires s.log != []
  {
    match e
    case Update(content, updatedAt, now) =>
      if s.publication != Idle then None
      else if content == Current(s).content && updatedAt == Current(s).updatedAt then Some(s)
      else
        Some(s.(log := s.log + [Snapshot(content, now, Current(s).revision + 1)],
                publication := Publishing(s.live, Offering)))
    case Offer(id) =>
      if !s.publication.Publishing? || s.publication.stage != Offering
         || id !in s.publication.waiting || id !in s.channels then None
      else if s.channels[id].buffered == None then Some(Sent(s, id))
      else Some(s.(publication := Publishing(s.publication.waiting, Full(id))))
    case DropStale =>
      if !s.publication.Publishing? || !s.publication.stage.Full? || s.publication.stage.id !in s.channels then None
      else
        var id := s.publication.stage.id;
        Some(s.(channels := s.channels[id := Emptying(s.channels[id])],
                publication := Publishing(s.publication.waiting, Emptied(id))))
    case Retry =>
      if !s.publication.Publishing? || !s.publication.stage.Emptied? || s.publication.stage.id !in s.channels then None
      else
        var id := s.publication.stage.id;
        if s.channels[id].buffered == None then Some(Sent(s, id))
        else Some(s.(publication := Publishing(s.publication.waiting - {id}, Offering)))
    case Finish =>
      if s.publication != Publishing({}, Offering) then None else Some(s.(publication := Idle))
    case Receive(id) =>
      if id !in s.channels || s.channels[id].buffered == None then None
      else Some(s.(channels := s.channels[id := Took(s.channels[id])]))
    case Subscribe(withDtmf) =>
      if s.publication != Idle then None
      else
        var id := s.lastId + 1;
        Some(s.(lastId := id, live := s.live + {id},
                channels := s.channels[id := Channel(Some(Current(s)), [], if withDtmf then Some([]) else None)]))
    case Cancel(id) =>
      if s.publication != Idle then None else Some(s.(live := s.live - {id}))
    case PublishDTMF(key) =>
      if s.publication != Idle then None
      else
        Some(s.(channels := map id | id in s.channels ::
                              if id in s.live then Keyed(s.channels[id], key) else s.channels[id]))
    case ReceiveDTMF(id) =>
      if id !in s.channels || s.channels[id].dtmf == None || s.channels[id].dtmf.value == [] then None
      else
        var c := s.channels[id];
        Some(s.(channels := s.channels[id := c.(dtmf := Some(c.dtmf.value[1..]))]))
  }

  // The running Update's send to a subscriber with room.
  function Sent(s: Store, id: nat): Store
    requires s.log != [] && s.publication.Publishing? && id in s.channels
  {
    s.(channels := s.channels[id := Put(s.channels[id], Current(s))],
       publication := Publishing(s.publication.waiting - {id}, Offering))
  }

  /* What holds of one subscriber. */

  ghost predicate Numbered(log: seq<Snapshot>) {
    log != [] && forall k :: 0 <= k < |log| ==> log[k].revision == k + 1
  }

  ghost predicate FromLog(log: seq<Snapshot>, v: Snapshot) {
    1 <= v.revision <= |log| && v == log[v.revision - 1]
  }

  // Only published snapshots, each newer than the one before; never more keys than the queue holds.
  ghost predicate Ordered(log: seq<Snapshot>, c: Channel) {
    && (forall i :: 0 <= i < |Seen(c)| ==> FromLog(log, Seen(c)[i]))
    && (forall i, j :: 0 <= i < j < |Seen(c)| ==> Seen(c)[i].revision < Seen(c)[j].revision)
    && (c.dtmf.Some? ==> |c.dtmf.value| <= DTMF_QUEUE)
  }

  ghost predicate UpToDate(log: seq<Snapshot>, c: Channel)
    requires log != []
  {
    Seen(c) != [] && Seen(c)[|Seen(c)| - 1] == log[|log| - 1]
  }

  ghost predicate Behind(log: seq<Snapshot>, c: Channel) {
    forall i :: 0 <= i < |Seen(c)| ==> Seen(c)[i].revision < |log|
  }

  lemma PutKeeps(log: seq<Snapshot>, c: Channel)
    requires Numbered(log) && Ordered(log, c) && Behind(log, c) && c.buffered == None
    ensures Ordered(log, Put(c, log[|log| - 1])) && UpToDate(log, Put(c, log[|log| - 1]))
  {
    var v := log[|log| - 1];
    var seen := Seen(Put(c, v));
    assert seen == Seen(c) + [v] && FromLog(log, v);
    forall i | 0 <= i < |seen|
      ensures FromLog(log, seen[i])
    {
      if i < |Seen(c)| {
        assert FromLog(log, Seen(c)[i]);
      }
    }
  }

  lemma EmptyingKeeps(log: seq<Snapshot>, c: Channel)
    requires Ordered(log, c) && Behind(log, c)
    ensures Ordered(log, Emptying(c)) && Behind(log, Emptying(c))
  {
    assert forall i :: 0 <= i < |Seen(Emptying(c))| ==> Seen(Emptying(c))[i] == Seen(c)[i];
  }

  // A reader taking the buffered snapshot changes nothing of what it has or had.
  lemma TookKeeps(c: Channel)
    ensures Seen(Took(c)) == Seen(c) && Took(c).dtmf == c.dtmf
  {
  }

  lemma LogGrows(log: seq<Snapshot>, v: Snapshot, c: Channel)
    requires Numbered(log) && v.revision == |log| + 1 && Ordered(log, c)
    ensures Numbered(log + [v]) && Ordered(log + [v], c) && Behind(log + [v], c)
  {
    forall i | 0 <= i < |Seen(c)|
      ensures FromLog(log + [v], Seen(c)[i]) && Seen(c)[i].revision < |log + [v]|
    {
      assert FromLog(log, Seen(c)[i]);
    }
  }

  /* What holds of the store. */

  ghost predicate Served(s: Store, id: nat)
    requires s.log != [] && id in s.channels
  {
    var c := s.channels[id];
    match s.publication
    case Idle => UpToDate(s.log, c)
    case Publishing(waiting, stage) =>
      if id in waiting then Behind(s.log, c) && (stage == Emptied(id) ==> c.buffered == None)
      else UpToDate(s.log, c)
  }

  ghost predicate Inv(s: Store) {
    && Numbered(s.log)
    && (forall id :: id in s.live ==> id in s.channels)
    && (forall id :: id in s.channels ==> id <= s.lastId)
    && (s.publication.Publishing? ==>
          && s.publication.waiting <= s.live
          && (s.publication.stage.Full? ==> s.publication.stage.id in s.publication.waiting)
          && (s.publication.stage.Emptied? ==> s.publication.stage.id in s.publication.waiting))
    && (forall id {:trigger s.channels[id]} :: id in s.channels ==> Ordered(s.log, s.channels[id]))
    && (forall id {:trigger Served(s, id)} :: id in s.live ==> Served(s, id))
  }

  lemma SentInv(s: Store, id: nat)
    requires Inv(s) && s.publication.Publishing? && id in s.publication.waiting
    requires s.channels[id].buffered == None
    ensures Inv(Sent(s, id))
  {
    hide Ordered, UpToDate, Behind, Numbered;
    LogNotEmpty(s);
    var t := Sent(s, id);
    assert Served(s, id);
    PutKeeps(s.log, s.channels[id]);
    forall other | other in t.live
      ensures Served(t, other)
    {
      assert Served(s, other);
    }
  }

  lemma LogNotEmpty(s: Store)
    requires Numbered(s.log)
    ensures s.log != []
  {
  }

  lemma UpdateInv(s: Store, e: Event)
    requires Inv(s) && e.Update? && Next(s, e).Some?
    ensures Inv(Next(s, e).value)
  {
    var t := Next(s, e).value;
    if t != s {
      var v := t.log[|s.log|];
      assert t.log == s.log + [v] && Numbered(t.log);
      hide Ordered, UpToDate, Behind, Numbered;
      forall id | id in t.channels
        ensures Ordered(t.log, t.channels[id]) && (id in t.live ==> Served(t, id))
      {
        LogGrows(s.log, v, s.channels[id]);
      }
    }
  }

  // Steps that leave what was seen, and who is live, as they were.
  lemma SameSeenInv(s: Store, t: Store)
    requires Inv(s)
    requires t.log == s.log && t.live <= s.live && t.lastId == s.lastId && t.channels.Keys == s.channels.Keys
    requires t.publication == s.publication && (t.live == s.live || s.publication == Idle)
    requires forall id :: id in s.channels ==>
      && Seen(t.channels[id]) == Seen(s.channels[id])
      && (s.channels[id].buffered == None ==> t.channels[id].buffered == None)
      && (t.channels[id].dtmf.Some? ==> |t.channels[id].dtmf.value| <= DTMF_QUEUE)
    ensures Inv(t)
  {
    hide FromLog, Seen, Numbered;
    LogNotEmpty(s);
    forall id | id in t.channels
      ensures Ordered(t.log, t.channels[id])
    {
      assert Ordered(s.log, s.channels[id]);
    }
    forall id | id in t.live
      ensures Served(t, id)
    {
      assert Served(s, id);
    }
  }

  lemma ReaderInv(s: Store, e: Event)
    requires Inv(s) && Next(s, e).Some?
    requires e.Receive? || e.ReceiveDTMF? || e.PublishDTMF? || e.Cancel?
    ensures Inv(Next(s, e).value)
  {
    var t := Next(s, e).value;
    forall id | id in s.channels
      ensures Seen(t.channels[id]) == Seen(s.channels[id])
      ensures t.channels[id].dtmf.Some? ==> |t.channels[id].dtmf.value| <= DTMF_QUEUE
      ensures s.channels[id].buffered == None ==> t.channels[id].buffered == None
    {
      TookKeeps(s.channels[id]);
      assert Ordered(s.log, s.channels[id]);
    }
    hide Inv, Seen;
    SameSeenInv(s, t);
  }

  lemma SubscribeInv(s: Store, e: Event)
    requires Inv(s) && e.Subscribe? && Next(s, e).Some?
    ensures Inv(Next(s, e).value)
  {
    var t := Next(s, e).value;
    var id := s.lastId + 1;
    forall other | other in t.live
      ensures Served(t, other)
    {
      if other != id {
        assert Served(s, other);
      }
    }
    assert FromLog(t.log, Current(s));
  }

  lemma PublishingInv(s: Store, e: Event)
    requires Inv(s) && Next(s, e).Some?
    requires e.Offer? || e.DropStale? || e.Retry? || e.Finish?
    ensures Inv(Next(s, e).value)
  {
    hide Ordered, UpToDate, Behind, Numbered;
    LogNotEmpty(s);
    var t := Next(s, e).value;
    var stage := s.publication.stage;
    if e.DropStale? {
      assert Served(s, stage.id);
      EmptyingKeeps(s.log, s.channels[stage.id]);
    }
    if e.Retry? {
      assert Served(s, stage.id);
    }
    if e.Retry? || (e.Offer? && s.channels[e.id].buffered == None) {
      SentInv(s, if e.Retry? then stage.id else e.id);
    } else {
      forall id | id in t.live
        ensures Served(t, id)
      {
        assert Served(s, id);
      }
    }
  }

  lemma StepInv(s: Store, e: Event)
    requires Inv(s) && Next(s, e).Some?
    ensures Inv(Next(s, e).value)
  {
    hide Inv, Next;
    if e.Update? {
      UpdateInv(s, e);
    } else if e.Subscribe? {
      SubscribeInv(s, e);
    } else if e.Receive? || e.ReceiveDTMF? || e.PublishDTMF? || e.Cancel? {
      ReaderInv(s, e);
    } else {
      PublishingInv(s, e);
    }
  }

  function Run(content: int, start: int, events: seq<Event>): (s: Option<Store>)
    ensures s.Some? ==> s.value.log != []
  {
    if events == [] then Some(New(content, start))
    else
      var before := Run(content, start, events[..|events| - 1]);
      if before == None then None else Next(before.value, events[|events| - 1])
  }

  lemma {:induction false} RunInv(content: int, start: int, events: seq<Event>)
    requires Run(content, start, events).Some?
    ensures Inv(Run(content, start, events).value)
  {
    if events != [] {
      RunInv(content, start, events[..|events| - 1]);
      hide Inv, Next;
      StepInv(Run(content, start, events[..|events| - 1]).value, events[|events| - 1]);
    }
  }

  /* What subscribers rely on. */

  // Once an Update is through, every live subscriber holds the newest snapshot or has taken it, however
  // its reads fell between the steps of that Update and of all before it.
  lemma NewestDelivered(content: int, start: int, events: seq<Event>, s: Store, id: nat)
    requires Run(content, start, events) == Some(s) && s.publication == Idle && id in s.live
    ensures id in s.channels
    ensures var c := s.channels[id];
            || c.buffered == Some(Current(s))
            || (c.buffered == None && c.received != [] && c.received[|c.received| - 1] == Current(s))
  {
    hide Run;
    RunInv(content, start, events);
    assert Served(s, id);
  }

  // What a reader takes is published and newer than all it took before, even after it canceled.
  lemma RevisionsIncrease(content: int, start: int, events: seq<Event>, s: Store, id: nat, i: nat, j: nat)
    requires Run(content, start, events) == Some(s) && id in s.channels
    requires i < j < |s.channels[id].received|
    ensures var c := s.channels[id];
            && c.received[i].revision < c.received[j].revision
            && c.received[j] in s.log
            && (c.buffered.Some? ==> c.received[j].revision < c.buffered.value.revision)
  {
    hide Run;
    RunInv(content, start, events);
    var c := s.channels[id];
    assert Ordered(s.log, c);
    assert Seen(c)[i] == c.received[i] && Seen(c)[j] == c.received[j];
    assert FromLog(s.log, Seen(c)[j]);
    if c.buffered.Some? {
      assert Seen(c)[|c.received|] == c.buffered.value;
    }
  }

  // Nobody but the running Update sends, so its second attempt always finds room.
  lemma SecondAttemptSucceeds(content: int, start: int, events: seq<Event>, s: Store)
    requires Run(content, start, events) == Some(s) && s.publication.Publishing? && s.publication.stage.Emptied?
    ensures var id := s.publication.stage.id;
            id in s.channels && Next(s, Retry) == Some(Sent(s, id))
  {
    hide Run;
    RunInv(content, start, events);
    assert Served(s, s.publication.stage.id);
  }

  // An Update never waits for a reader: one of its own steps is always open to it.
  lemma NeverWaits(content: int, start: int, events: seq<Event>, s: Store)
    requires Run(content, start, events) == Some(s) && s.publication.Publishing?
    ensures exists e: Event :: (e.Offer? || e.DropStale? || e.Retry? || e.Finish?) && Next(s, e).Some?
  {
    hide Run;
    RunInv(content, start, events);
    match s.publication.stage
    case Full(_) => assert Next(s, DropStale).Some?;
    case Emptied(_) => assert Next(s, Retry).Some?;
    case Offering =>
      if s.publication.waiting == {} {
        assert Next(s, Finish).Some?;
      } else {
        var id :| id in s.publication.waiting;
        assert Next(s, Offer(id)).Some?;
      }
  }

  // Steps of an Update left to go, whatever the readers do in between.
  function Work(p: Publication): nat {
    match p
    case Idle => 0
    case Publishing(waiting, stage) =>
      match stage
      case Offering => 1 + 3 * |waiting|
      case Full(_) => Max(1, 3 * |waiting|)
      case Emptied(_) => Max(1, 3 * |waiting| - 1)
  }

  lemma StageWaits(s: Store)
    requires Inv(s) && s.publication.Publishing? && s.publication.stage != Offering
    ensures s.publication.stage.id in s.publication.waiting
  {
  }

  lemma UpdateEnds(content: int, start: int, events: seq<Event>, s: Store, e: Event)
    requires Run(content, start, events) == Some(s) && s.publication.Publishing? && Next(s, e).Some?
    ensures e.Receive? || e.ReceiveDTMF? || Work(Next(s, e).value.publication) < Work(s.publication)
    ensures e.Receive? || e.ReceiveDTMF? ==> Next(s, e).value.publication == s.publication
  {
    hide Run, Inv;
    RunInv(content, start, events);
    if s.publication.stage != Offering {
      StageWaits(s);
    }
    var waiting := s.publication.waiting;
    if e.Offer? {
      assert |waiting - {e.id}| == |waiting| - 1;
    } else if (e.Retry? || e.DropStale?) && s.publication.stage != Offering {
      assert |waiting - {s.publication.stage.id}| == |waiting| - 1;
    }
  }

  // Storing what is already there, and key presses, leave the snapshot, its revision and every
  // subscriber's snapshots alone.
  lemma QuietSteps(s: Store, e: Event)
    requires Inv(s) && Next(s, e).Some?
    requires e.PublishDTMF? || (e.Update? && e.content == Current(s).content && e.updatedAt == Current(s).updatedAt)
    ensures var t := Next(s, e).value;
            && t.log == s.log && Current(t) == Current(s) && t.publication == s.publication
            && t.channels.Keys == s.channels.Keys
            && forall id :: id in s.channels ==> Seen(t.channels[id]) == Seen(s.channels[id])
  {
  }
}
