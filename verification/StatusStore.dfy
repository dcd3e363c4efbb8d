/** Store of internal/status/server.go as an object: its lock sections, with readers taking from the
    subscribers' channels between any two channel operations. */
module StatusStore {
  import opened Wrappers
  import opened SnapshotStore

  lemma SameKeys(m: map<nat, Channel>, id: nat, c: Channel)
    requires id in m
    ensures m[id := c].Keys == m.Keys
  {
  }

  lemma InChannels(s: Store)
    requires Inv(s)
    ensures s.log != [] && Current(s).revision == |s.log|
    ensures forall id :: id in s.live ==> id in s.channels
  {
  }

  lemma FreshId(s: Store)
    requires Inv(s)
    ensures s.lastId + 1 !in s.channels
  {
  }

  class StatusStore {
    var value: Snapshot
    var subscribers: map<nat, Channel>
    var nextSubscriber: nat
    ghost var log: seq<Snapshot>

    ghost function State(p: Publication): Store
      reads this
    {
      Store(log, subscribers, subscribers.Keys, nextSubscriber, p)
    }

    // Between lock sections every subscriber has, or has had, the stored snapshot.
    ghost predicate Valid()
      reads this
    {
      During(Idle)
    }

    ghost predicate During(p: Publication)
      reads this
    {
      Inv(State(p)) && value == Current(State(p))
    }

    constructor (content: int, now: int)
      ensures Valid() && State(Idle) == New(content, now)
    {
      value := Snapshot(content, now, 1);
      subscribers, nextSubscriber := map[], 0;
      log := [Snapshot(content, now, 1)];
    }

    method Receive(id: nat, ghost p: Publication)
      requires During(p) && id in subscribers && subscribers[id].buffered.Some?
      modifies this`subscribers
      ensures During(p) && subscribers.Keys == old(subscribers.Keys)
      ensures subscribers == old(subscribers)[id := Took(old(subscribers)[id])]
      ensures Seen(subscribers[id]) == Seen(old(subscribers)[id])
    {
      hide Inv, Seen;
      StepInv(State(p), SnapshotStore.Receive(id));
      TookKeeps(subscribers[id]);
      SameKeys(subscribers, id, Took(subscribers[id]));
      subscribers := subscribers[id := Took(subscribers[id])];
    }

    // Any number of readers, each taking what its channel holds.
    method Readers(ghost p: Publication)
      requires During(p)
      modifies this`subscribers
      ensures During(p) && subscribers.Keys == old(subscribers.Keys)
      ensures forall id :: id in subscribers ==>
        && Seen(subscribers[id]) == Seen(old(subscribers)[id])
        && (old(subscribers)[id].buffered == None ==> subscribers[id].buffered == None)
    {
      var times: int := *;
      hide Inv, Seen;
      for i := 0 to if times < 0 then 0 else times
        invariant During(p) && subscribers.Keys == old(subscribers.Keys)
        invariant forall id :: id in subscribers ==>
          && Seen(subscribers[id]) == Seen(old(subscribers)[id])
          && (old(subscribers)[id].buffered == None ==> subscribers[id].buffered == None)
      {
        var id: int := *;
        if id >= 0 && id in subscribers && subscribers[id].buffered.Some? {
          Receive(id, p);
        }
      }
    }

    // The updater may rewrite everything but the revision.
    method Update(content: int, updatedAt: int, now: int)
      requires Valid()
      modifies this
      ensures Valid() && subscribers.Keys == old(subscribers.Keys) && nextSubscriber == old(nextSubscriber)
      ensures var same := content == old(value).content && updatedAt == old(value).updatedAt;
              && value == (if same then old(value) else Snapshot(content, now, old(value).revision + 1))
              && log == (if same then old(log) else old(log) + [value])
    {
      if content == value.content && updatedAt == value.updatedAt {
        return;
      }
      hide Inv;
      StepInv(State(Idle), SnapshotStore.Update(content, updatedAt, now));
      value := Snapshot(content, now, value.revision + 1);
      log := log + [value];
      Publish();
    }

    // The loop over the subscribers, in whatever order.
    method Publish()
      requires During(Publishing(subscribers.Keys, Offering))
      modifies this`subscribers
      ensures Valid() && subscribers.Keys == old(subscribers.Keys)
    {
      hide Inv;
      var waiting := subscribers.Keys;
      while waiting != {}
        invariant waiting <= subscribers.Keys == old(subscribers.Keys)
        invariant During(Publishing(waiting, Offering))
      {
        var id :| id in waiting;
        Send(id, waiting);
        waiting := waiting - {id};
      }
      StepInv(State(Publishing({}, Offering)), Finish);
    }

    // One subscriber: send, or take out what is stale and send again.
    method Send(id: nat, ghost waiting: set<nat>)
      requires id in waiting && waiting <= subscribers.Keys
      requires During(Publishing(waiting, Offering))
      modifies this`subscribers
      ensures During(Publishing(waiting - {id}, Offering)) && subscribers.Keys == old(subscribers.Keys)
    {
      hide Inv, Seen;
      Readers(Publishing(waiting, Offering));
      StepInv(State(Publishing(waiting, Offering)), Offer(id));
      if subscribers[id].buffered == None {
        SendNow(id, Publishing(waiting, Offering));
        return;
      }
      Readers(Publishing(waiting, Full(id)));
      StepInv(State(Publishing(waiting, Full(id))), DropStale);
      SameKeys(subscribers, id, Emptying(subscribers[id]));
      subscribers := subscribers[id := Emptying(subscribers[id])];
      Readers(Publishing(waiting, Emptied(id)));
      StepInv(State(Publishing(waiting, Emptied(id))), Retry);
      if subscribers[id].buffered == None {
        SendNow(id, Publishing(waiting, Emptied(id)));
      }
    }

    method SendNow(id: nat, ghost p: Publication)
      requires During(p) && p.Publishing? && id in p.waiting && id in subscribers
      requires subscribers[id].buffered == None
      modifies this`subscribers
      ensures During(Publishing(p.waiting - {id}, Offering)) && subscribers.Keys == old(subscribers.Keys)
    {
      InChannels(State(p));
      SentInv(State(p), id);
      hide Inv, Seen;
      SameKeys(subscribers, id, Put(subscribers[id], value));
      subscribers := subscribers[id := Put(subscribers[id], value)];
    }

    method Subscribe(withDtmf: bool) returns (id: nat)
      requires Valid()
      modifies this
      ensures Valid() && id !in old(subscribers) && value == old(value) && log == old(log)
      ensures subscribers == old(subscribers)[id := Channel(Some(value), [], if withDtmf then Some([]) else None)]
    {
      hide Inv;
      StepInv(State(Idle), SnapshotStore.Subscribe(withDtmf));
      FreshId(State(Idle));
      InChannels(State(Idle));
      nextSubscriber := nextSubscriber + 1;
      id := nextSubscriber;
      subscribers := subscribers[id := Channel(Some(value), [], if withDtmf then Some([]) else None)];
      assert State(Idle) == Next(old(State(Idle)), SnapshotStore.Subscribe(withDtmf)).value;
    }

    // Canceling twice is canceling once.
    method CancelSubscriber(id: nat)
      requires Valid()
      modifies this`subscribers
      ensures Valid() && subscribers == old(subscribers) - {id}
    {
      subscribers := subscribers - {id};
      forall other | other in subscribers
        ensures Served(State(Idle), other)
      {
        assert Served(old(State(Idle)), other);
      }
    }

    // A full queue loses the key; the snapshots are not touched.
    method PublishDTMF(key: int)
      requires Valid()
      modifies this`subscribers
      ensures Valid() && subscribers.Keys == old(subscribers.Keys)
      ensures forall id :: id in subscribers ==> subscribers[id] == Keyed(old(subscribers)[id], key)
    {
      StepInv(State(Idle), SnapshotStore.PublishDTMF(key));
      hide Inv;
      subscribers := map id | id in subscribers :: Keyed(subscribers[id], key);
      assert State(Idle) == Next(old(State(Idle)), SnapshotStore.PublishDTMF(key)).value;
    }
  }
}
