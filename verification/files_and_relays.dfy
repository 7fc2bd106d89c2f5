/**
 * The store with its storage map, its time index and its remote changed in place. The loops of a prune
 * visit stamps and ids in any order; a remote fetch is taken together with what findOne does around it.
 */
module FilesAndRelays {
  import opened Wrappers
  import opened StorageModel

  lemma SentTwice(c: Config, storage: map<Id, Obj>, a: set<Id>, b: set<Id>)
    ensures Sent(c, storage, a) + Sent(c, storage - a, b) == Sent(c, storage, a + b)
  {}

  lemma SentOne(c: Config, storage: map<Id, Obj>, id: Id)
    ensures Sent(c, storage, {id}) ==
            if c.messenger && id in storage then map[(PathOf(c, storage[id]), id) := storage[id]] else map[]
  {}

  lemma IdsInOneMore(b: Buckets, stamps: set<int>, t: int)
    requires t in b
    ensures IdsIn(b, stamps + {t}) == IdsIn(b, stamps) + b[t]
  {}

  /** The store once some of its ids have been sent away and dropped. */
  function Synced(c: Config, s: Store, ids: set<Id>): Store {
    s.(storage := s.storage - ids, remote := s.remote + Sent(c, s.storage, ids))
  }

  lemma SyncedNone(c: Config, s: Store)
    ensures Synced(c, s, {}) == s && Pruned(c, s, {}) == s
  {}

  lemma MapLaws<K, V>(m: map<K, V>, a: set<K>, b: set<K>, x: map<K, V>, y: map<K, V>)
    ensures m - a - b == m - (a + b) && m + x + y == m + (x + y)
  {}

  lemma SyncedMore(c: Config, s: Store, a: set<Id>, b: set<Id>)
    ensures Synced(c, Synced(c, s, a), b) == Synced(c, s, a + b)
  {
    SentTwice(c, s.storage, a, b);
    MapLaws(s.storage, a, b, map[], map[]);
    MapLaws(s.remote, {}, {}, Sent(c, s.storage, a), Sent(c, s.storage - a, b));
  }

  lemma PrunedOneMore(c: Config, s: Store, stamps: set<int>, t: int)
    requires t in s.buckets && t !in stamps
    ensures var u := Synced(c, Pruned(c, s, stamps), s.buckets[t]);
            u.(buckets := u.buckets - {t}) == Pruned(c, s, stamps + {t})
  {
    IdsInOneMore(s.buckets, stamps, t);
    SyncedMore(c, s, IdsIn(s.buckets, stamps), s.buckets[t]);
    MapLaws(s.buckets, stamps, {t}, map[], map[]);
  }

  lemma OldStampsAre(b: Buckets, done: set<int>, cutoff: int)
    requires forall t :: t in done <==> t in b && cutoff > t
    ensures done == OldStamps(b, cutoff)
  {
    forall t ensures t in done <==> t in OldStamps(b, cutoff) {}
  }

  class LocalStore {
    const conf: Config
    var storageMap: map<Id, Obj>
    var timeToId: Buckets
    var remote: Remote
    ghost var deleted: set<Id>

    ghost function Model(): Store
      reads this
    {
      Store(storageMap, timeToId, remote, deleted)
    }

    /** A process starts from the map it finds on disk, and its index is built by ChronoUpdateAll. */
    constructor (conf: Config, loaded: map<Id, Obj>, remote: Remote)
      ensures this.conf == conf && Model() == Store(loaded, map[], remote, {})
    {
      this.conf := conf;
      storageMap, timeToId, this.remote, deleted := loaded, map[], remote, {};
    }

    method AddTStamp(tstamp: int, id: Id)
      modifies this`timeToId
      ensures timeToId == AddStamp(old(timeToId), tstamp, id)
    {
      if tstamp !in timeToId {
        timeToId := timeToId[tstamp := {}];
      }
      timeToId := timeToId[tstamp := timeToId[tstamp] + {id}];
    }

    method UpdateStamp(tstamp: int, id: Id, now: int) returns (newT: int)
      modifies this`timeToId
      ensures newT == now && timeToId == MoveStamp(old(timeToId), tstamp, id, now)
    {
      if tstamp in timeToId {
        timeToId := timeToId[tstamp := timeToId[tstamp] - {id}];
      }
      newT := now;
      AddTStamp(newT, id);
    }

    method ObjectUpdateStamp(id: Id, now: int)
      requires id in storageMap
      modifies this`storageMap, this`timeToId
      ensures Model() == Restamp(old(Model()), id, now)
    {
      var newT := UpdateStamp(storageMap[id].tstamp, id, now);
      storageMap := storageMap[id := storageMap[id].(tstamp := newT)];
    }

    /** False when the object is already stored. */
    method AddToStorageMap(id: Id, obj: Obj, now: int) returns (added: bool)
      modifies this`storageMap, this`timeToId
      ensures added <==> id !in old(storageMap)
      ensures Model() == if added then AddToMap(old(Model()), id, obj, now) else old(Model())
    {
      if id in storageMap {
        return false;
      }
      storageMap := storageMap[id := obj];
      storageMap := storageMap[id := obj.(tstamp := now)];
      AddTStamp(now, id);
      added := true;
    }

    /** Sends a copy of a stored object, marked with the operation; nothing is sent for an id that is not stored. */
    method RemoteStoreMessage(id: Id, userOp: Option<string>)
      modifies this`storageMap, this`remote
      ensures userOp.Some? && id in old(storageMap) ==> Model() == Tell(conf, old(Model()), id, userOp.value)
      ensures userOp.None? || id !in old(storageMap) ==> storageMap == old(storageMap)
      ensures userOp.None? ==> remote == old(remote) + Sent(conf, old(storageMap), {id})
      ensures userOp.Some? && id in old(storageMap) && conf.messenger ==>
                ToldOf(conf, old(remote), remote, id, old(storageMap)[id], userOp.value)
      ensures id !in old(storageMap) ==> remote == old(remote)
    {
      SentOne(conf, storageMap, id);
      if !conf.messenger || id !in storageMap {
        return;
      }
      if userOp.Some? {
        storageMap := storageMap[id := storageMap[id].(userOp := userOp.value)];
      }
      var msg := storageMap[id];
      remote := remote[(PathOf(conf, msg), id) := msg];
    }

    /** remote_store_sync(ids, true): each id is sent and dropped, in any order. */
    method RemoteStoreSync(ids: set<Id>)
      modifies this`storageMap, this`remote
      ensures Model() == Synced(conf, old(Model()), ids)
    {
      var left := ids;
      ghost var done: set<Id> := {};
      SyncedNone(conf, Model());
      while left != {}
        invariant left + done == ids
        invariant Model() == Synced(conf, old(Model()), done)
      {
        var id :| id in left;
        SyncedMore(conf, old(Model()), done, {id});
        RemoteStoreMessage(id, None);
        storageMap := storageMap - {id};
        left := left - {id};
        done := done + {id};
      }
      assert done == ids;
    }

    /** The order in which old stamps are visited does not matter. */
    method PruneStorageMap(now: int)
      modifies this`storageMap, this`timeToId, this`remote
      ensures Model() == AfterPrune(conf, old(Model()), now)
    {
      var ctime := Cutoff(conf, now);
      var stamps := timeToId.Keys;
      ghost var was := Model();
      ghost var done: set<int> := {};
      SyncedNone(conf, was);
      while stamps != {}
        invariant stamps <= was.buckets.Keys
        invariant forall t :: t in done <==> t in was.buckets && t !in stamps && ctime > t
        invariant Model() == Pruned(conf, was, done)
      {
        var ts := AnyOf(stamps);
        stamps := stamps - {ts};
        if ctime > ts {
          PruneOne(was, done, ts);
          done := done + {ts};
        }
      }
      OldStampsAre(was.buckets, done, ctime);
    }

    method PruneOne(ghost was: Store, ghost done: set<int>, ts: int)
      requires ts in was.buckets && ts !in done && Model() == Pruned(conf, was, done)
      modifies this`storageMap, this`timeToId, this`remote
      ensures Model() == Pruned(conf, was, done + {ts})
    {
      PrunedOneMore(conf, was, done, ts);
      var ids := timeToId[ts];
      RemoteStoreSync(ids);
      timeToId := timeToId - {ts};
    }

    /** Rebuilds the index at start-up; afterwards every object is in exactly one bucket. */
    method ChronoUpdateAll(now: int)
      modifies this`storageMap, this`timeToId
      ensures storageMap == map id | id in old(storageMap) :: old(storageMap)[id].(tstamp := now)
      ensures StorageModel.Inv(Model())
    {
      timeToId := map[];
      assert forall t :: Bucket(timeToId, t) == {};
      var left := storageMap.Keys;
      while left != {}
        invariant left <= storageMap.Keys == old(storageMap).Keys
        invariant forall id | id in storageMap ::
                    storageMap[id] == if id in left then old(storageMap)[id] else old(storageMap)[id].(tstamp := now)
        invariant forall t, id :: id in Bucket(timeToId, t) <==> t == now && id in storageMap && id !in left
      {
        var id :| id in left;
        StampAdded(timeToId, now, id);
        AddTStamp(now, id);
        storageMap := storageMap[id := storageMap[id].(tstamp := now)];
        left := left - {id};
      }
    }

    /** The first half of findOne: the fields of a stored object; for any other the remote is asked, and this waits. */
    method FindOne(id: Id, now: int) returns (found: Option<Fields>)
      modifies this`storageMap, this`timeToId
      ensures found == if id in old(storageMap) then Known(conf, old(Model()), id) else None
      ensures Model() == AfterFind(old(Model()), id, now)
    {
      if id in storageMap {
        ObjectUpdateStamp(id, now);
        return Some(storageMap[id].fields);
      }
      found := None;
    }

    /** The second half, with what the remote answered: nothing, or an object, brought back if that is wanted. */
    method FetchArrives(id: Id, response: Option<Obj>, dontCreate: bool, now: int, later: int)
      returns (found: Option<Fields>)
      modifies this`storageMap, this`timeToId, this`remote
      ensures found == if response.Some? then Some(response.value.fields) else None
      ensures id !in old(storageMap) && response == Fetch(conf, old(remote), id) ==>
                found == Known(conf, old(Model()), id)
      ensures Model() == if response.None? || dontCreate then old(Model())
                         else AfterArrival(conf, old(Model()), id, response.value, now, later)
    {
      if response.None? {
        return None;
      }
      if dontCreate {
        return Some(response.value.fields);
      }
      var obj := response.value;
      var added := AddToStorageMap(id, obj, now);
      if added {
        RemoteStoreMessage(id, Some("create"));
        ObjectUpdateStamp(id, later);
      } else {
        SendDetached(id, obj, "create");
        var _ := UpdateStamp(obj.tstamp, id, later);
      }
      found := Some(obj.fields);
    }

    /** Sends an object that is not the stored one. */
    method SendDetached(id: Id, obj: Obj, userOp: string)
      modifies this`remote
      ensures Model() == AfterSend(conf, old(Model()), id, Some(obj), userOp)
    {
      if conf.messenger {
        var msg := obj.(userOp := userOp);
        remote := remote[(PathOf(conf, msg), id) := msg];
      }
    }

    /** The first half of update: an object is stored, or refused; unless told otherwise the remote is to hear of it. */
    method Update(id: Id, obj: Obj, dontRemote: bool, now: int) returns (refused: bool, tell: bool)
      modifies this`storageMap, this`timeToId
      ensures refused <==> id in old(storageMap)
      ensures tell <==> !refused && !dontRemote
      ensures Model() == AfterUpdate(old(Model()), id, obj, now)
    {
      var added := AddToStorageMap(id, obj, now);
      refused, tell := !added, added && !dontRemote;
    }

    /** The second half of update: the object is sent, whether or not it is still the stored one. */
    method SendUpdate(id: Id, sender: Option<Obj>, updateOp: string)
      requires sender.None? ==> id in storageMap
      modifies this`storageMap, this`remote
      ensures Model() == AfterSend(conf, old(Model()), id, sender, updateOp)
      ensures conf.messenger ==>
                ToldOf(conf, old(remote), remote, id,
                       if sender.Some? then sender.value else old(storageMap)[id], updateOp)
    {
      match sender
      case None => RemoteStoreMessage(id, Some(updateOp));
      case Some(obj) => SendDetached(id, obj, updateOp);
    }

    method Delete(id: Id, dontRemote: bool)
      modifies this
      ensures Model() == AfterDelete(conf, old(Model()), id, dontRemote)
    {
      if id in storageMap {
        storageMap := storageMap - {id};
      }
      if !dontRemote && conf.messenger {
        remote := remote - {(conf.defaultPath, id)};
      }
      deleted := deleted + {id};
    }
  }
}
