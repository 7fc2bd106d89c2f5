/**
 * The local store that ages out to a remote one: a storage map, an index from time stamps to the ids
 * stamped then, and a remote that keeps whatever it is sent under a path and an id.
 */
module StorageModel {
  import opened Wrappers

  type Id = string
  type Path = string
  type Fields = map<string, string>

  /** An object with its application fields; an empty mPath means the default path. */
  datatype Obj = Obj(fields: Fields, tstamp: int, userOp: string, mPath: Path)

  type Buckets = map<int, set<Id>>
  type Remote = map<(Path, Id), Obj>

  datatype Config = Config(ageOut: int, messenger: bool, defaultPath: Path)

  /** deleted is history: the ids that `delete` was called for. */
  datatype Store = Store(storage: map<Id, Obj>, buckets: Buckets, remote: Remote, deleted: set<Id>)

  function PathOf(c: Config, o: Obj): Path {
    if o.mPath != "" then o.mPath else c.defaultPath
  }

  // ---- the time index -------------------------------------------------------------------------

  function Bucket(b: Buckets, t: int): set<Id> {
    if t in b then b[t] else {}
  }

  function AddStamp(b: Buckets, t: int, id: Id): Buckets {
    b[t := Bucket(b, t) + {id}]
  }

  function RemoveStamp(b: Buckets, t: int, id: Id): Buckets {
    if t in b then b[t := b[t] - {id}] else b
  }

  function MoveStamp(b: Buckets, t: int, id: Id, now: int): Buckets {
    AddStamp(RemoveStamp(b, t, id), now, id)
  }

  // ---- the operations --------------------------------------------------------------------------

  function AddToMap(s: Store, id: Id, o: Obj, now: int): Store {
    s.(storage := s.storage[id := o.(tstamp := now)], buckets := AddStamp(s.buckets, now, id))
  }

  function Restamp(s: Store, id: Id, now: int): Store
    requires id in s.storage
  {
    var o := s.storage[id];
    s.(storage := s.storage[id := o.(tstamp := now)], buckets := MoveStamp(s.buckets, o.tstamp, id, now))
  }

  /** Telling the remote marks the local object with the operation and sends a copy of it. */
  function Tell(c: Config, s: Store, id: Id, userOp: string): Store
    requires id in s.storage
  {
    if !c.messenger then s
    else
      var o := s.storage[id].(userOp := userOp);
      s.(storage := s.storage[id := o], remote := s.remote[(PathOf(c, o), id) := o])
  }

  /** An object that is already stored is refused. */
  function AfterUpdate(s: Store, id: Id, o: Obj, now: int): Store {
    if id in s.storage then s else AddToMap(s, id, o, now)
  }

  /**
   * The second half of an update, after an await: the object is sent. `sender` is None when it is still the stored
   * object, and the object itself when it has been dropped or replaced in the meantime.
   */
  function AfterSend(c: Config, s: Store, id: Id, sender: Option<Obj>, userOp: string): Store {
    match sender
    case None => if id in s.storage then Tell(c, s, id, userOp) else s
    case Some(o) => if c.messenger then s.(remote := s.remote[(PathOf(c, o), id) := o.(userOp := userOp)]) else s
  }

  /** The remote is asked by id, on the default path. */
  function Fetch(c: Config, remote: Remote, id: Id): Option<Obj> {
    if c.messenger && (c.defaultPath, id) in remote then Some(remote[(c.defaultPath, id)]) else None
  }

  /** Looking a stored object up renews its stamp; otherwise the remote is asked, and the lookup waits. */
  function AfterFind(s: Store, id: Id, now: int): Store {
    if id in s.storage then Restamp(s, id, now) else s
  }

  /**
   * The second half of a lookup whose object has meanwhile been stored by another: adding it is refused, the
   * remote is told of the fetched copy, and the stamp of that copy, not of the stored object, is moved.
   */
  function AfterLateArrival(c: Config, s: Store, id: Id, fetched: Obj, later: int): Store
    requires id in s.storage
  {
    var o := fetched.(userOp := "create");
    s.(remote := if c.messenger then s.remote[(PathOf(c, o), id) := o] else s.remote,
       buckets := MoveStamp(s.buckets, fetched.tstamp, id, later))
  }

  /** The second half of a lookup, when the remote has answered with an object: it is brought back and stamped again. */
  function AfterArrival(c: Config, s: Store, id: Id, fetched: Obj, now: int, later: int): Store {
    if id in s.storage then AfterLateArrival(c, s, id, fetched, later)
    else Restamp(Tell(c, AddToMap(s, id, fetched, now), id, "create"), id, later)
  }

  function AfterDelete(c: Config, s: Store, id: Id, dontRemote: bool): Store {
    s.(storage := s.storage - {id}, deleted := s.deleted + {id},
       remote := if dontRemote || !c.messenger then s.remote else s.remote - {(c.defaultPath, id)})
  }

  /** An application that holds an object may change its fields in place. */
  function AfterMutate(s: Store, id: Id, fields: Fields): Store {
    if id in s.storage then s.(storage := s.storage[id := s.storage[id].(fields := fields)]) else s
  }

  /** What pruning sends away: a copy of every stored object among `ids`, each on its own path. */
  function Sent(c: Config, storage: map<Id, Obj>, ids: set<Id>): Remote {
    if !c.messenger then map[]
    else map k | k in (set id | id in ids && id in storage :: (PathOf(c, storage[id]), id)) :: storage[k.1]
  }

  function IdsIn(b: Buckets, stamps: set<int>): set<Id> {
    set t, id | t in stamps && t in b && id in b[t] :: id
  }

  function OldStamps(b: Buckets, cutoff: int): set<int> {
    set t | t in b && cutoff > t
  }

  /** The ids in the given buckets are sent away and dropped, with their buckets. */
  function Pruned(c: Config, s: Store, stamps: set<int>): Store {
    var ids := IdsIn(s.buckets, stamps);
    s.(storage := s.storage - ids, buckets := s.buckets - stamps, remote := s.remote + Sent(c, s.storage, ids))
  }

  function Cutoff(c: Config, now: int): int {
    now - c.ageOut
  }

  function AfterPrune(c: Config, s: Store, now: int): Store {
    Pruned(c, s, OldStamps(s.buckets, Cutoff(c, now)))
  }

  // ---- one bucket for each object --------------------------------------------------------------

  /** Every stored object is in exactly one bucket, that of its stamp. */
  ghost predicate OneBucket(s: Store) {
    forall id | id in s.storage :: InBucketOnly(s.buckets, id, s.storage[id].tstamp)
  }

  ghost predicate InBucketOnly(b: Buckets, id: Id, t: int) {
    forall u :: id in Bucket(b, u) <==> u == t
  }

  /** A bucket may still name an id that has been deleted, and no other that is not stored. */
  ghost predicate StaleOnlyDeleted(s: Store) {
    forall t, id | id in Bucket(s.buckets, t) :: id in s.storage || id in s.deleted
  }

  ghost predicate Inv(s: Store) {
    OneBucket(s) && StaleOnlyDeleted(s)
  }

  lemma StampAdded(b: Buckets, t: int, id: Id)
    ensures forall u, x :: x in Bucket(AddStamp(b, t, id), u) <==> x in Bucket(b, u) || (u == t && x == id)
  {}

  lemma StampMoved(b: Buckets, t: int, id: Id, now: int)
    ensures forall u, x :: x in Bucket(MoveStamp(b, t, id, now), u) <==>
              (x in Bucket(b, u) && !(u == t && x == id)) || (u == now && x == id)
  {}

  lemma AddKeeps(s: Store, id: Id, o: Obj, now: int)
    requires Inv(s) && id !in s.storage && id !in s.deleted
    ensures Inv(AddToMap(s, id, o, now))
  {
    assert forall t :: id !in Bucket(s.buckets, t);
    StampAdded(s.buckets, now, id);
    var u := AddToMap(s, id, o, now);
    forall x | x in u.storage ensures InBucketOnly(u.buckets, x, u.storage[x].tstamp) {
      if x != id { assert InBucketOnly(s.buckets, x, s.storage[x].tstamp); }
    }
  }

  /** Adding keeps the index exact if and only if no other bucket still names the id. */
  lemma AddKeepsOneBucketIff(s: Store, id: Id, o: Obj, now: int)
    requires OneBucket(s) && id !in s.storage
    ensures OneBucket(AddToMap(s, id, o, now)) <==> forall u | u != now :: id !in Bucket(s.buckets, u)
  {
    var u := AddToMap(s, id, o, now);
    StampAdded(s.buckets, now, id);
    if forall t | t != now :: id !in Bucket(s.buckets, t) {
      forall x | x in u.storage ensures InBucketOnly(u.buckets, x, u.storage[x].tstamp) {
        if x != id { assert InBucketOnly(s.buckets, x, s.storage[x].tstamp); }
      }
    } else {
      var t :| t != now && id in Bucket(s.buckets, t);
      assert id in Bucket(u.buckets, t);
      assert !InBucketOnly(u.buckets, id, now) && u.storage[id].tstamp == now;
    }
  }

  lemma RestampKeeps(s: Store, id: Id, now: int)
    requires Inv(s) && id in s.storage
    ensures Inv(Restamp(s, id, now))
  {
    var u, t := Restamp(s, id, now), s.storage[id].tstamp;
    StampMoved(s.buckets, t, id, now);
    assert InBucketOnly(s.buckets, id, t);
    forall x | x in u.storage ensures InBucketOnly(u.buckets, x, u.storage[x].tstamp) {
      if x != id { assert InBucketOnly(s.buckets, x, s.storage[x].tstamp); }
    }
    forall v, x | x in Bucket(u.buckets, v) ensures x in u.storage || x in u.deleted {
      assert x == id || x in Bucket(s.buckets, v);
    }
  }

  lemma TellKeeps(c: Config, s: Store, id: Id, userOp: string)
    requires Inv(s) && id in s.storage
    ensures Inv(Tell(c, s, id, userOp))
  {}

  lemma BucketAfterPrune(b: Buckets, cutoff: int, t: int)
    ensures Bucket(b - OldStamps(b, cutoff), t) == if t >= cutoff then Bucket(b, t) else {}
  {}

  lemma PruneKeeps(c: Config, s: Store, now: int)
    requires Inv(s)
    ensures Inv(AfterPrune(c, s, now))
  {
    var u, cutoff := AfterPrune(c, s, now), Cutoff(c, now);
    forall t { BucketAfterPrune(s.buckets, cutoff, t); }
    forall x | x in u.storage ensures InBucketOnly(u.buckets, x, u.storage[x].tstamp) {
      assert InBucketOnly(s.buckets, x, s.storage[x].tstamp);
      assert x in Bucket(s.buckets, s.storage[x].tstamp);
    }
    forall t, x | x in Bucket(u.buckets, t) ensures x in u.storage || x in u.deleted {
      assert x in Bucket(s.buckets, t);
      if x in s.storage {
        assert InBucketOnly(s.buckets, x, s.storage[x].tstamp);
        assert forall v :: v in OldStamps(s.buckets, cutoff) && x in s.buckets[v] ==> x in Bucket(s.buckets, v);
      }
    }
  }

  /** Pruning keeps exactly the objects stamped at or after the cutoff, and sends a copy of every other one away. */
  lemma PruneIsByAge(c: Config, s: Store, now: int)
    requires OneBucket(s)
    ensures AfterPrune(c, s, now).storage ==
            map id | id in s.storage && s.storage[id].tstamp >= now - c.ageOut :: s.storage[id]
    ensures c.messenger ==> forall id | id in s.storage && s.storage[id].tstamp < now - c.ageOut ::
              var k := (if s.storage[id].mPath != "" then s.storage[id].mPath else c.defaultPath, id);
              k in AfterPrune(c, s, now).remote && AfterPrune(c, s, now).remote[k] == s.storage[id]
    ensures forall k | k in AfterPrune(c, s, now).remote &&
                       (k.1 !in s.storage || s.storage[k.1].tstamp >= now - c.ageOut) ::
              k in s.remote && AfterPrune(c, s, now).remote[k] == s.remote[k]
  {
    var cutoff := Cutoff(c, now);
    var ids := IdsIn(s.buckets, OldStamps(s.buckets, cutoff));
    AgedIds(s, cutoff);
    SentIsHomed(c, s.storage, ids);
    if c.messenger {
      forall id | id in s.storage && s.storage[id].tstamp < cutoff
        ensures (PathOf(c, s.storage[id]), id) in Sent(c, s.storage, ids)
      {
        SentHas(c, s.storage, ids, id);
      }
    }
  }

  lemma SentHas(c: Config, storage: map<Id, Obj>, ids: set<Id>, id: Id)
    requires c.messenger && id in ids && id in storage
    ensures (PathOf(c, storage[id]), id) in Sent(c, storage, ids)
  {}

  lemma AgedIff(s: Store, cutoff: int, id: Id)
    requires id in s.storage && InBucketOnly(s.buckets, id, s.storage[id].tstamp)
    ensures id in IdsIn(s.buckets, OldStamps(s.buckets, cutoff)) <==> s.storage[id].tstamp < cutoff
  {
    var ids, t := IdsIn(s.buckets, OldStamps(s.buckets, cutoff)), s.storage[id].tstamp;
    assert id in Bucket(s.buckets, t);
    if t < cutoff { assert t in OldStamps(s.buckets, cutoff) && id in s.buckets[t]; }
    if id in ids {
      var v :| v in OldStamps(s.buckets, cutoff) && id in s.buckets[v];
      assert id in Bucket(s.buckets, v);
    }
  }

  lemma AgedIds(s: Store, cutoff: int)
    requires OneBucket(s)
    ensures forall id | id in s.storage ::
              id in IdsIn(s.buckets, OldStamps(s.buckets, cutoff)) <==> s.storage[id].tstamp < cutoff
  {
    forall id | id in s.storage
      ensures id in IdsIn(s.buckets, OldStamps(s.buckets, cutoff)) <==> s.storage[id].tstamp < cutoff
    {
      AgedIff(s, cutoff, id);
    }
  }

  // ---- what is known -----------------------------------------------------------------------------

  /** The application fields findOne would answer with. */
  function Known(c: Config, s: Store, id: Id): Option<Fields> {
    if id in s.storage then Some(s.storage[id].fields)
    else if Fetch(c, s.remote, id).Some? then Some(Fetch(c, s.remote, id).value.fields)
    else None
  }

  /** Whoever asks for the object again finds it: it was sent where findOne looks, or a copy is there anyway. */
  predicate Recoverable(c: Config, s: Store, id: Id)
    requires id in s.storage
  {
    && c.messenger
    && (PathOf(c, s.storage[id]) == c.defaultPath
        || (Fetch(c, s.remote, id).Some? && Fetch(c, s.remote, id).value.fields == s.storage[id].fields))
  }

  /** Whoever asks for the object again finds one under its id, if not with the same fields. */
  predicate Findable(c: Config, s: Store, id: Id)
    requires id in s.storage
  {
    c.messenger && (PathOf(c, s.storage[id]) == c.defaultPath || Fetch(c, s.remote, id).Some?)
  }

  lemma FetchAfterPrune(c: Config, s: Store, now: int, id: Id)
    ensures var ids := IdsIn(s.buckets, OldStamps(s.buckets, Cutoff(c, now)));
            Fetch(c, AfterPrune(c, s, now).remote, id) ==
              if c.messenger && id in ids && id in s.storage && PathOf(c, s.storage[id]) == c.defaultPath
              then Some(s.storage[id]) else Fetch(c, s.remote, id)
  {}

  /** The prune drops id from the local store. */
  predicate Evicts(c: Config, s: Store, now: int, id: Id) {
    id in s.storage && id !in AfterPrune(c, s, now).storage
  }

  lemma PruneKnown(c: Config, s: Store, now: int, id: Id)
    ensures Known(c, AfterPrune(c, s, now), id) == Known(c, s, id) <==>
              (Evicts(c, s, now, id) ==> Recoverable(c, s, id))
    ensures Known(c, s, id).Some? ==>
              (Known(c, AfterPrune(c, s, now), id).Some? <==> (Evicts(c, s, now, id) ==> Findable(c, s, id)))
  {
    FetchAfterPrune(c, s, now, id);
  }

  /** Eviction is invisible if and only if every evicted object is recoverable. */
  lemma PruneInvisibleIff(c: Config, s: Store, now: int)
    ensures (forall id :: Known(c, AfterPrune(c, s, now), id) == Known(c, s, id)) <==>
            forall id | Evicts(c, s, now, id) :: Recoverable(c, s, id)
  {
    forall id
      ensures Known(c, AfterPrune(c, s, now), id) == Known(c, s, id) <==>
              (Evicts(c, s, now, id) ==> Recoverable(c, s, id))
    {
      PruneKnown(c, s, now, id);
    }
  }

  // ---- what is stored, and what the remote is told -----------------------------------------------------

  /** Where an object is sent: to its own path, or to the default one when it has none. */
  predicate IsPathOf(c: Config, o: Obj, path: Path) {
    (o.mPath != "" && path == o.mPath) || (o.mPath == "" && path == c.defaultPath)
  }

  /** The remote has a copy of o, marked with the operation, under its path, and every other entry is as it was. */
  ghost predicate ToldOf(c: Config, before: Remote, after: Remote, id: Id, o: Obj, userOp: string) {
    && (forall path | IsPathOf(c, o, path) ::
          && (path, id) in after && after[(path, id)] == Obj(o.fields, o.tstamp, userOp, o.mPath)
          && forall k | k != (path, id) :: k in after <==> k in before)
    && (forall k | k in before && !(k.1 == id && IsPathOf(c, o, k.0)) :: k in after && after[k] == before[k])
  }

  /** Everything about the other ids stays as it is. */
  ghost predicate OthersStay(s: Store, t: Store, id: Id) {
    && (forall x | x != id :: x in t.storage <==> x in s.storage)
    && (forall x | x != id && x in s.storage :: t.storage[x] == s.storage[x])
  }

  /** Sending an object that is still stored: the remote gets its copy, and the stored object is marked too. */
  lemma SendTells(c: Config, s: Store, id: Id, userOp: string)
    requires id in s.storage
    ensures var o, t := s.storage[id], AfterSend(c, s, id, None, userOp);
            && t.buckets == s.buckets && OthersStay(s, t, id) && id in t.storage
            && if c.messenger then
                 && ToldOf(c, s.remote, t.remote, id, o, userOp)
                 && t.storage[id] == Obj(o.fields, o.tstamp, userOp, o.mPath)
               else t == s
  {}

  /** Sending an object that has been dropped or replaced tells the remote of it, and changes nothing here. */
  lemma SendDetachedTells(c: Config, s: Store, id: Id, o: Obj, userOp: string)
    ensures var t := AfterSend(c, s, id, Some(o), userOp);
            && t.buckets == s.buckets && t.storage == s.storage
            && if c.messenger then ToldOf(c, s.remote, t.remote, id, o, userOp) else t.remote == s.remote
  {}

  /** An object that arrives is stored with the time of its second stamp, and the remote is told that it was created. */
  lemma ArrivalTells(c: Config, s: Store, id: Id, o: Obj, now: int, later: int)
    ensures var t := AfterArrival(c, s, id, o, now, later);
            var sent := if id in s.storage then o else Obj(o.fields, now, o.userOp, o.mPath);
            && OthersStay(s, t, id) && id in t.storage
            && (if c.messenger then ToldOf(c, s.remote, t.remote, id, sent, "create") else t.remote == s.remote)
            && if id in s.storage then t.storage[id] == s.storage[id]
               else t.storage[id] == Obj(o.fields, later, if c.messenger then "create" else o.userOp, o.mPath)
  {}

  /** An update stores a new object with the present as its stamp, and refuses one whose id is stored. */
  lemma UpdateStores(s: Store, id: Id, o: Obj, now: int)
    ensures var t := AfterUpdate(s, id, o, now);
            && t.remote == s.remote && OthersStay(s, t, id) && id in t.storage
            && t.storage[id] == if id in s.storage then s.storage[id] else Obj(o.fields, now, o.userOp, o.mPath)
  {}

  /** Finding a stored object changes nothing but its stamp. */
  lemma FindStamps(s: Store, id: Id, now: int)
    ensures var t := AfterFind(s, id, now);
            && t.remote == s.remote && OthersStay(s, t, id)
            && (id in t.storage <==> id in s.storage)
            && (id in s.storage ==>
                  t.storage[id] == Obj(s.storage[id].fields, now, s.storage[id].userOp, s.storage[id].mPath))
  {}

  /** Deleting drops the object here and, unless told otherwise, the remote's copy on the default path. */
  lemma DeleteDrops(c: Config, s: Store, id: Id, dontRemote: bool)
    ensures var t := AfterDelete(c, s, id, dontRemote);
            && id !in t.storage && OthersStay(s, t, id)
            && (forall k :: k in t.remote <==>
                  k in s.remote && (dontRemote || !c.messenger || k != (c.defaultPath, id)))
            && (forall k | k in t.remote :: t.remote[k] == s.remote[k])
  {}

  // ---- runs -----------------------------------------------------------------------------------------

  /** Each stretch between two awaits is one operation; `fetched` is what the remote answered at some earlier time. */
  datatype Op =
    | Update(id: Id, obj: Obj)
    | Send(id: Id, sender: Option<Obj>, userOp: string)
    | Find(id: Id)
    | Arrive(id: Id, fetched: Obj, later: int)
    | Delete(id: Id, dontRemote: bool)
    | Mutate(id: Id, fields: Fields)
    | Prune

  function Step(c: Config, s: Store, op: Op, now: int): Store {
    match op
    case Update(id, o) => AfterUpdate(s, id, o, now)
    case Send(id, sender, userOp) => AfterSend(c, s, id, sender, userOp)
    case Find(id) => AfterFind(s, id, now)
    case Arrive(id, fetched, later) => AfterArrival(c, s, id, fetched, now, later)
    case Delete(id, dontRemote) => AfterDelete(c, s, id, dontRemote)
    case Mutate(id, fields) => AfterMutate(s, id, fields)
    case Prune => AfterPrune(c, s, now)
  }

  /** When an operation is over: bringing an object back reads the clock twice. */
  function EndOf(op: Op, now: int): int {
    if op.Arrive? then op.later else now
  }

  ghost predicate Timely(run: seq<(Op, int)>, clock: int)
    decreases |run|
  {
    run != [] ==> clock <= run[0].1 <= EndOf(run[0].0, run[0].1) && Timely(run[1..], EndOf(run[0].0, run[0].1))
  }

  function Run(c: Config, s: Store, run: seq<(Op, int)>): Store
    decreases |run|
  {
    if run == [] then s else Run(c, Step(c, s, run[0].0, run[0].1), run[1..])
  }

  /** The operation puts op.id into the local store. */
  predicate Adds(s: Store, op: Op) {
    (op.Update? || op.Arrive?) && op.id !in s.storage
  }

  /** The operation comes back from the remote after another one has stored the object. */
  predicate ArrivesLate(s: Store, op: Op) {
    op.Arrive? && op.id in s.storage
  }

  /** The buckets of id after an operation on it, and those of any other id. */
  lemma BucketsAfterArrival(b: Buckets, id: Id, now: int, later: int)
    ensures forall u, x :: x in Bucket(MoveStamp(AddStamp(b, now, id), now, id, later), u) <==>
              (x in Bucket(b, u) && !(u == now && x == id)) || (u == later && x == id)
  {
    StampAdded(b, now, id);
    StampMoved(AddStamp(b, now, id), now, id, later);
  }

  // ---- the index over runs --------------------------------------------------------------------------

  /** What an operation needs for the index to stay exact. */
  ghost predicate IndexFits(s: Store, op: Op, now: int) {
    match op
    case Update(id, _) => id !in s.storage ==> forall u | u != now :: id !in Bucket(s.buckets, u)
    case Arrive(id, _, later) =>
      if id in s.storage then later == s.storage[id].tstamp
      else forall u | u != now && u != later :: id !in Bucket(s.buckets, u)
    case _ => true
  }

  lemma ArrivalKeepsOneBucketIff(c: Config, s: Store, id: Id, fetched: Obj, now: int, later: int)
    requires OneBucket(s) && id !in s.storage
    ensures OneBucket(AfterArrival(c, s, id, fetched, now, later)) <==>
            forall u | u != now && u != later :: id !in Bucket(s.buckets, u)
  {
    var t := AfterArrival(c, s, id, fetched, now, later);
    BucketsAfterArrival(s.buckets, id, now, later);
    forall x | x in s.storage ensures InBucketOnly(t.buckets, x, t.storage[x].tstamp) {
      assert InBucketOnly(s.buckets, x, s.storage[x].tstamp);
    }
    assert t.storage[id].tstamp == later && id in Bucket(t.buckets, later);
    if u :| u != now && u != later && id in Bucket(s.buckets, u) {
      assert id in Bucket(t.buckets, u) && !InBucketOnly(t.buckets, id, later);
    } else {
      assert InBucketOnly(t.buckets, id, later);
    }
  }

  lemma FindKeepsOneBucket(s: Store, id: Id, now: int)
    requires OneBucket(s)
    ensures OneBucket(AfterFind(s, id, now))
  {
    if id in s.storage {
      var t := AfterFind(s, id, now);
      StampMoved(s.buckets, s.storage[id].tstamp, id, now);
      assert InBucketOnly(s.buckets, id, s.storage[id].tstamp);
      forall x | x in t.storage ensures InBucketOnly(t.buckets, x, t.storage[x].tstamp) {
        assert InBucketOnly(s.buckets, x, s.storage[x].tstamp);
      }
    }
  }

  lemma PruneKeepsOneBucket(c: Config, s: Store, now: int)
    requires OneBucket(s)
    ensures OneBucket(AfterPrune(c, s, now))
  {
    var t, cutoff := AfterPrune(c, s, now), Cutoff(c, now);
    forall x | x in t.storage ensures InBucketOnly(t.buckets, x, t.storage[x].tstamp) {
      assert InBucketOnly(s.buckets, x, s.storage[x].tstamp);
      AgedIff(s, cutoff, x);
      forall u { BucketAfterPrune(s.buckets, cutoff, u); }
    }
  }

  lemma SameIndex(s: Store, t: Store)
    requires OneBucket(s) && t.buckets == s.buckets && t.storage.Keys <= s.storage.Keys
    requires forall x | x in t.storage :: t.storage[x].tstamp == s.storage[x].tstamp
    ensures OneBucket(t)
  {
    forall x | x in t.storage ensures InBucketOnly(t.buckets, x, t.storage[x].tstamp) {
      assert InBucketOnly(s.buckets, x, s.storage[x].tstamp);
    }
  }

  lemma StepKeepsOneBucketIff(c: Config, s: Store, op: Op, now: int)
    requires OneBucket(s)
    ensures OneBucket(Step(c, s, op, now)) <==> IndexFits(s, op, now)
  {
    match op
    case Update(id, o) => if id !in s.storage { AddKeepsOneBucketIff(s, id, o, now); }
    case Send(id, sender, userOp) => SameIndex(s, Step(c, s, op, now));
    case Find(id) => FindKeepsOneBucket(s, id, now);
    case Arrive(id, fetched, later) =>
      if id in s.storage {
        LateArrivalKeepsOneBucketIff(c, s, id, fetched, later);
      } else {
        ArrivalKeepsOneBucketIff(c, s, id, fetched, now, later);
      }
    case Delete(id, dontRemote) => SameIndex(s, Step(c, s, op, now));
    case Mutate(id, fields) => SameIndex(s, Step(c, s, op, now));
    case Prune => PruneKeepsOneBucket(c, s, now);
  }

  ghost predicate IndexFitsThroughout(c: Config, s: Store, run: seq<(Op, int)>)
    decreases |run|
  {
    run != [] ==>
      IndexFits(s, run[0].0, run[0].1) && IndexFitsThroughout(c, Step(c, s, run[0].0, run[0].1), run[1..])
  }

  ghost predicate OneBucketThroughout(c: Config, s: Store, run: seq<(Op, int)>)
    decreases |run|
  {
    OneBucket(s) && (run != [] ==> OneBucketThroughout(c, Step(c, s, run[0].0, run[0].1), run[1..]))
  }

  /**
   * Every stored object is in exactly the bucket of its stamp, at every moment of a run, if and only if no object is
   * added while another bucket names its id, and no lookup comes back late at another time than the stored stamp.
   */
  lemma {:induction false} RunKeepsOneBucketIff(c: Config, s: Store, run: seq<(Op, int)>)
    requires OneBucket(s)
    ensures OneBucketThroughout(c, s, run) <==> IndexFitsThroughout(c, s, run)
    decreases |run|
  {
    if run != [] {
      StepKeepsOneBucketIff(c, s, run[0].0, run[0].1);
      if IndexFits(s, run[0].0, run[0].1) { RunKeepsOneBucketIff(c, Step(c, s, run[0].0, run[0].1), run[1..]); }
    }
  }

  /** No deleted id is added again, and no lookup comes back late at another time than the stored stamp. */
  ghost predicate Orderly(c: Config, s: Store, run: seq<(Op, int)>)
    decreases |run|
  {
    run != [] ==>
      && (Adds(s, run[0].0) ==> run[0].0.id !in s.deleted)
      && (ArrivesLate(s, run[0].0) ==> run[0].0.later == s.storage[run[0].0.id].tstamp)
      && Orderly(c, Step(c, s, run[0].0, run[0].1), run[1..])
  }

  lemma StepKeeps(c: Config, s: Store, op: Op, now: int)
    requires Inv(s) && (Adds(s, op) ==> op.id !in s.deleted)
    requires ArrivesLate(s, op) ==> op.later == s.storage[op.id].tstamp
    ensures Inv(Step(c, s, op, now))
  {
    match op
    case Update(id, o) => if id !in s.storage { AddKeeps(s, id, o, now); }
    case Send(id, sender, userOp) => if sender.None? && id in s.storage { TellKeeps(c, s, id, userOp); }
    case Find(id) => if id in s.storage { RestampKeeps(s, id, now); }
    case Arrive(id, fetched, later) =>
      if id in s.storage {
        LateArrivalKeepsOneBucketIff(c, s, id, fetched, later);
        StampMoved(s.buckets, fetched.tstamp, id, later);
      } else {
        AddKeeps(s, id, fetched, now);
        TellKeeps(c, AddToMap(s, id, fetched, now), id, "create");
        RestampKeeps(Tell(c, AddToMap(s, id, fetched, now), id, "create"), id, later);
      }
    case Delete(id, dontRemote) => DeleteKeeps(c, s, id, dontRemote);
    case Mutate(id, fields) => MutateKeeps(s, id, fields);
    case Prune => PruneKeeps(c, s, now);
  }

  lemma DeleteKeeps(c: Config, s: Store, id: Id, dontRemote: bool)
    requires Inv(s)
    ensures Inv(AfterDelete(c, s, id, dontRemote))
  {}

  lemma MutateKeeps(s: Store, id: Id, fields: Fields)
    requires Inv(s)
    ensures Inv(AfterMutate(s, id, fields))
  {}

  /** So in every orderly run each stored object is in the one bucket of its stamp. */
  lemma {:induction false} RunKeepsOneBucket(c: Config, s: Store, run: seq<(Op, int)>)
    requires Inv(s) && Orderly(c, s, run)
    ensures Inv(Run(c, s, run))
    decreases |run|
  {
    if run != [] {
      StepKeeps(c, s, run[0].0, run[0].1);
      RunKeepsOneBucket(c, Step(c, s, run[0].0, run[0].1), run[1..]);
    }
  }

  // ---- the index of one id ----------------------------------------------------------------------------

  /** No bucket names id when it is not stored, and only that of its stamp when it is. */
  ghost predicate IndexedOnce(s: Store, id: Id) {
    if id in s.storage then InBucketOnly(s.buckets, id, s.storage[id].tstamp)
    else forall u :: id !in Bucket(s.buckets, u)
  }

  /** The operation does not delete id from the store, and does not bring it back late at another time. */
  predicate LeavesIndexed(s: Store, op: Op, id: Id) {
    && (op.Delete? && op.id == id ==> id !in s.storage)
    && (ArrivesLate(s, op) && op.id == id ==> op.later == s.storage[id].tstamp)
  }

  lemma PruneKeepsIndexedOnce(c: Config, s: Store, now: int, id: Id)
    requires IndexedOnce(s, id)
    ensures IndexedOnce(AfterPrune(c, s, now), id)
  {
    if id in s.storage { AgedIff(s, Cutoff(c, now), id); }
    forall u { BucketAfterPrune(s.buckets, Cutoff(c, now), u); }
  }

  /** Updates, lookups and arrivals concern the buckets of their own id only. */
  lemma OtherBuckets(c: Config, s: Store, op: Op, now: int, id: Id)
    requires !op.Prune? && op.id != id
    ensures forall u :: id in Bucket(Step(c, s, op, now).buckets, u) <==> id in Bucket(s.buckets, u)
  {
    match op
    case Update(x, _) => StampAdded(s.buckets, now, x);
    case Find(x) => if x in s.storage { StampMoved(s.buckets, s.storage[x].tstamp, x, now); }
    case Arrive(x, fetched, later) =>
      StampMoved(s.buckets, fetched.tstamp, x, later);
      BucketsAfterArrival(s.buckets, x, now, later);
    case _ =>
  }

  lemma OtherStays(c: Config, s: Store, op: Op, now: int, id: Id)
    requires !op.Prune? && op.id != id
    ensures id in Step(c, s, op, now).storage <==> id in s.storage
    ensures id in s.storage ==> Step(c, s, op, now).storage[id] == s.storage[id]
  {}

  lemma OwnKeepsIndexedOnceIff(c: Config, s: Store, op: Op, now: int)
    requires !op.Prune? && IndexedOnce(s, op.id)
    ensures IndexedOnce(Step(c, s, op, now), op.id) <==> LeavesIndexed(s, op, op.id)
  {
    var id := op.id;
    match op
    case Update(_, _) => StampAdded(s.buckets, now, id);
    case Find(_) => if id in s.storage { StampMoved(s.buckets, s.storage[id].tstamp, id, now); }
    case Arrive(_, fetched, later) =>
      StampMoved(s.buckets, fetched.tstamp, id, later);
      BucketsAfterArrival(s.buckets, id, now, later);
      assert id in Bucket(Step(c, s, op, now).buckets, later);
    case Delete(_, _) =>
      if id in s.storage { assert id in Bucket(s.buckets, s.storage[id].tstamp); }
    case _ =>
  }

  lemma StepKeepsIndexedOnceIff(c: Config, s: Store, op: Op, now: int, id: Id)
    requires IndexedOnce(s, id)
    ensures IndexedOnce(Step(c, s, op, now), id) <==> LeavesIndexed(s, op, id)
  {
    if op.Prune? {
      PruneKeepsIndexedOnce(c, s, now, id);
    } else if op.id == id {
      OwnKeepsIndexedOnceIff(c, s, op, now);
    } else {
      OtherBuckets(c, s, op, now, id);
      OtherStays(c, s, op, now, id);
    }
  }

  ghost predicate LeavesIndexedThroughout(c: Config, s: Store, run: seq<(Op, int)>, id: Id)
    decreases |run|
  {
    run != [] ==>
      && LeavesIndexed(s, run[0].0, id)
      && LeavesIndexedThroughout(c, Step(c, s, run[0].0, run[0].1), run[1..], id)
  }

  ghost predicate IndexedOnceThroughout(c: Config, s: Store, run: seq<(Op, int)>, id: Id)
    decreases |run|
  {
    && IndexedOnce(s, id)
    && (run != [] ==> IndexedOnceThroughout(c, Step(c, s, run[0].0, run[0].1), run[1..], id))
  }

  /**
   * Whatever happens to other ids, an id is named at every moment by the bucket of its stamp alone, or by none when
   * it is not stored, if and only if it is never deleted from the store and no lookup of it comes back late at
   * another time than its stamp.
   */
  lemma {:induction false} RunKeepsIndexedOnceIff(c: Config, s: Store, run: seq<(Op, int)>, id: Id)
    requires IndexedOnce(s, id)
    ensures IndexedOnceThroughout(c, s, run, id) <==> LeavesIndexedThroughout(c, s, run, id)
    decreases |run|
  {
    if run != [] {
      StepKeepsIndexedOnceIff(c, s, run[0].0, run[0].1, id);
      if LeavesIndexed(s, run[0].0, id) {
        RunKeepsIndexedOnceIff(c, Step(c, s, run[0].0, run[0].1), run[1..], id);
      }
    }
  }

  // ---- retention ------------------------------------------------------------------------------------

  /** Pruning no later than t + ageOut, and no deletion of id. */
  ghost predicate Spares(c: Config, run: seq<(Op, int)>, id: Id, t: int) {
    forall i | 0 <= i < |run| ::
      (run[i].0.Delete? ==> run[i].0.id != id) && (run[i].0.Prune? ==> run[i].1 <= t + c.ageOut)
  }

  /** id is stored, and no bucket older than t names it. */
  ghost predicate Secured(s: Store, id: Id, t: int) {
    id in s.storage && NoneOlder(s.buckets, id, t)
  }

  ghost predicate NoneOlder(b: Buckets, id: Id, t: int) {
    forall u | u < t :: id !in Bucket(b, u)
  }

  /** A prune drops an object exactly when a bucket older than the cutoff names it, whatever its stamp. */
  lemma PruneDropsIff(c: Config, s: Store, now: int, id: Id)
    requires id in s.storage
    ensures id in AfterPrune(c, s, now).storage <==> NoneOlder(s.buckets, id, Cutoff(c, now))
  {
    var aged := OldStamps(s.buckets, Cutoff(c, now));
    if u :| u < Cutoff(c, now) && id in Bucket(s.buckets, u) {
      assert u in aged && id in s.buckets[u];
    }
    if id in IdsIn(s.buckets, aged) {
      var u :| u in aged && id in s.buckets[u];
      assert id in Bucket(s.buckets, u);
    }
  }

  lemma PruneSecures(c: Config, s: Store, now: int, id: Id, t: int)
    requires Secured(s, id, t) && now <= t + c.ageOut
    ensures Secured(AfterPrune(c, s, now), id, t)
  {
    PruneDropsIff(c, s, now, id);
    forall u { BucketAfterPrune(s.buckets, Cutoff(c, now), u); }
  }

  lemma OwnSecures(c: Config, s: Store, op: Op, now: int, t: int)
    requires !op.Prune? && !op.Delete? && Secured(s, op.id, t) && t <= now <= EndOf(op, now)
    ensures Secured(Step(c, s, op, now), op.id, t)
  {
    match op
    case Find(id) => StampMoved(s.buckets, s.storage[id].tstamp, id, now);
    case Arrive(id, fetched, later) => StampMoved(s.buckets, fetched.tstamp, id, later);
    case _ =>
  }

  lemma StepSecures(c: Config, s: Store, op: Op, now: int, id: Id, t: int)
    requires Secured(s, id, t) && t <= now <= EndOf(op, now)
    requires op.Delete? ==> op.id != id
    requires op.Prune? ==> now <= t + c.ageOut
    ensures Secured(Step(c, s, op, now), id, t)
  {
    if op.Prune? {
      PruneSecures(c, s, now, id, t);
    } else if op.id == id {
      OwnSecures(c, s, op, now, t);
    } else {
      OtherBuckets(c, s, op, now, id);
      OtherStays(c, s, op, now, id);
    }
  }

  lemma TimelyFromEarlier(run: seq<(Op, int)>, t: int, clock: int)
    requires t <= clock && Timely(run, clock)
    ensures Timely(run, t)
  {}

  /** A stored object that no bucket older than t names stays here through every prune up to t + ageOut. */
  lemma {:induction false} RunRetains(c: Config, s: Store, run: seq<(Op, int)>, id: Id, t: int)
    requires Secured(s, id, t) && Timely(run, t) && Spares(c, run, id, t)
    ensures Secured(Run(c, s, run), id, t)
    decreases |run|
  {
    if run != [] {
      var op, now := run[0].0, run[0].1;
      StepSecures(c, s, op, now, id, t);
      assert forall i | 0 <= i < |run| - 1 :: run[1..][i] == run[i + 1];
      TimelyFromEarlier(run[1..], t, EndOf(op, now));
      RunRetains(c, Step(c, s, op, now), run[1..], id, t);
    }
  }

  /** id stays through every run from time t that does not delete it and prunes no later than t + ageOut. */
  ghost predicate Retained(c: Config, s: Store, id: Id, t: int) {
    forall run | Timely(run, t) && Spares(c, run, id, t) :: id in Run(c, s, run).storage
  }

  lemma SecuredIsRetained(c: Config, s: Store, id: Id, t: int)
    requires Secured(s, id, t)
    ensures Retained(c, s, id, t)
  {
    forall run | Timely(run, t) && Spares(c, run, id, t) ensures id in Run(c, s, run).storage {
      RunRetains(c, s, run, id, t);
    }
  }

  lemma OnePrune(c: Config, s: Store, now: int)
    ensures Timely([(Prune, now)], now) && Run(c, s, [(Prune, now)]) == AfterPrune(c, s, now)
  {
    assert [(Prune, now)][1..] == [];
  }

  /** The last prune that is allowed drops an object that an older bucket names. */
  lemma OlderIsNotRetained(c: Config, s: Store, id: Id, t: int)
    requires c.ageOut >= 0 && id in s.storage && !NoneOlder(s.buckets, id, t)
    ensures !Retained(c, s, id, t)
  {
    var now := t + c.ageOut;
    OnePrune(c, s, now);
    assert Timely([(Prune, now)], t) && Spares(c, [(Prune, now)], id, t);
    PruneDropsIff(c, s, now, id);
  }

  /**
   * Retention, exactly: a stored object is safe from every prune up to t + ageOut if and only if no bucket older
   * than t names it. Its own stamp does not matter.
   */
  lemma RunRetainsIff(c: Config, s: Store, id: Id, t: int)
    requires c.ageOut >= 0 && id in s.storage
    ensures Retained(c, s, id, t) <==> NoneOlder(s.buckets, id, t)
  {
    if NoneOlder(s.buckets, id, t) {
      SecuredIsRetained(c, s, id, t);
    } else {
      OlderIsNotRetained(c, s, id, t);
    }
  }

  /** The operation adds an object, finds it, or brings it back. */
  predicate Touches(s: Store, op: Op) {
    Adds(s, op) || ArrivesLate(s, op) || (op.Find? && op.id in s.storage)
  }

  /** The bucket a touch takes its id out of: that of the stamp it replaces, which on a late arrival is the copy's. */
  function Vacates(s: Store, op: Op, now: int): Option<int>
    requires Touches(s, op)
  {
    match op
    case Find(id) => Some(s.storage[id].tstamp)
    case Arrive(id, fetched, _) => Some(if id in s.storage then fetched.tstamp else now)
    case _ => None
  }

  lemma BucketsAfterTouch(c: Config, s: Store, op: Op, now: int, u: int)
    requires Touches(s, op) && u < EndOf(op, now)
    ensures op.id in Bucket(Step(c, s, op, now).buckets, u) <==>
            op.id in Bucket(s.buckets, u) && Vacates(s, op, now) != Some(u)
  {
    match op
    case Update(id, _) => StampAdded(s.buckets, now, id);
    case Find(id) => StampMoved(s.buckets, s.storage[id].tstamp, id, now);
    case Arrive(id, fetched, later) =>
      StampMoved(s.buckets, fetched.tstamp, id, later);
      BucketsAfterArrival(s.buckets, id, now, later);
    case _ =>
  }

  /**
   * Adding, finding or bringing back an object secures it for the age limit from then on if and only if no older
   * bucket names its id, apart from the one the operation takes it out of.
   */
  lemma TouchedIsRetainedIff(c: Config, s: Store, op: Op, now: int)
    requires c.ageOut >= 0 && Touches(s, op)
    ensures Retained(c, Step(c, s, op, now), op.id, EndOf(op, now)) <==>
            forall u | u < EndOf(op, now) && Vacates(s, op, now) != Some(u) :: op.id !in Bucket(s.buckets, u)
  {
    var t := Step(c, s, op, now);
    RunRetainsIff(c, t, op.id, EndOf(op, now));
    forall u | u < EndOf(op, now)
      ensures op.id in Bucket(t.buckets, u) <==> op.id in Bucket(s.buckets, u) && Vacates(s, op, now) != Some(u)
    {
      BucketsAfterTouch(c, s, op, now, u);
    }
  }

  /** In particular an object that is indexed once is secured whenever it is found, added or fetched in time. */
  lemma TouchedIsRetained(c: Config, s: Store, op: Op, now: int)
    requires c.ageOut >= 0 && Touches(s, op) && IndexedOnce(s, op.id)
    requires ArrivesLate(s, op) ==> op.fetched.tstamp == s.storage[op.id].tstamp
    ensures Retained(c, Step(c, s, op, now), op.id, EndOf(op, now))
  {
    TouchedIsRetainedIff(c, s, op, now);
  }

  // ---- runs that prune too early ------------------------------------------------------------------------

  lemma RunThree(c: Config, s: Store, a: (Op, int), b: (Op, int), d: (Op, int))
    ensures Run(c, s, [a, b, d]) == Step(c, Step(c, Step(c, s, a.0, a.1), b.0, b.1), d.0, d.1)
  {
    var run := [a, b, d];
    assert run[1..] == [b, d] && [b, d][1..] == [d] && [d][1..] == [];
    var s1 := Step(c, s, a.0, a.1);
    assert Run(c, s1, [b, d]) == Run(c, Step(c, s1, b.0, b.1), [d]);
  }

  /** Add, delete, add again, prune: the object goes although it is younger than the age limit. */
  lemma ReaddedIsPrunedEarly(c: Config, o: Obj)
    requires c.ageOut == 50
    ensures var run := [(Op.Update("x", o), 0), (Op.Delete("x", true), 0), (Op.Update("x", o), 100)];
            var s := Run(c, Store(map[], map[], map[], {}), run);
            "x" in s.storage && s.storage["x"].tstamp == 100 && "x" !in AfterPrune(c, s, 101).storage
  {
    var s0 := Store(map[], map[], map[], {});
    RunThree(c, s0, (Op.Update("x", o), 0), (Op.Delete("x", true), 0), (Op.Update("x", o), 100));
    var s := Run(c, s0, [(Op.Update("x", o), 0), (Op.Delete("x", true), 0), (Op.Update("x", o), 100)]);
    assert "x" in Bucket(s.buckets, 0);
    PruneDropsIff(c, s, 101, "x");
  }

  /** Two lookups that both miss, at 10 and 40: a prune at 61 drops the object, with nothing deleted. */
  lemma LateArrivalIsPrunedEarly(c: Config, o: Obj)
    requires c.ageOut == 50 && o.tstamp == 0
    ensures var run := [(Op.Find("x"), 5), (Op.Arrive("x", o, 10), 10), (Op.Arrive("x", o, 40), 40)];
            var s := Run(c, Store(map[], map[], map[(c.defaultPath, "x") := o], {}), run);
            "x" in s.storage && "x" !in AfterPrune(c, s, 61).storage && 61 <= 40 + c.ageOut
  {
    var s0 := Store(map[], map[], map[(c.defaultPath, "x") := o], {});
    RunThree(c, s0, (Op.Find("x"), 5), (Op.Arrive("x", o, 10), 10), (Op.Arrive("x", o, 40), 40));
    var s1 := Step(c, s0, Op.Arrive("x", o, 10), 10);
    BucketsAfterArrival(s0.buckets, "x", 10, 10);
    assert "x" in Bucket(s1.buckets, 10);
    var s := Step(c, s1, Op.Arrive("x", o, 40), 40);
    StampMoved(s1.buckets, 0, "x", 40);
    assert "x" in Bucket(s.buckets, 10);
    PruneDropsIff(c, s, 61, "x");
  }

  // ---- eviction over runs ---------------------------------------------------------------------------

  /** What a lookup of id should answer after an operation, when it should have answered `want` before. */
  function Want(c: Config, s: Store, op: Op, id: Id, want: Option<Fields>): Option<Fields> {
    match op
    case Update(x, o) => if x == id && id !in s.storage then Some(o.fields) else want
    case Delete(x, dontRemote) =>
      if x != id then want
      else if dontRemote && Fetch(c, s.remote, id).Some? then Some(Fetch(c, s.remote, id).value.fields)
      else None
    case Mutate(x, fields) => if x == id && id in s.storage then Some(fields) else want
    case _ => want
  }

  /** A prune that drops id leaves it where a lookup finds it with the same fields. */
  predicate EvictsRecoverably(c: Config, s: Store, op: Op, now: int, id: Id) {
    op.Prune? && Evicts(c, s, now, id) ==> Recoverable(c, s, id)
  }

  /** What arrives for id, or is sent for it, while it is not stored, has the fields a lookup would answer anyway. */
  predicate NewsIsCurrent(c: Config, s: Store, op: Op, id: Id) {
    match op
    case Arrive(x, o, _) => x == id && id !in s.storage ==> Known(c, s, id) == Some(o.fields)
    case Send(x, sender, _) =>
      x == id && id !in s.storage && sender.Some? && c.messenger && PathOf(c, sender.value) == c.defaultPath ==>
        Known(c, s, id) == Some(sender.value.fields)
    case _ => true
  }

  lemma ArrivalKnown(c: Config, s: Store, id: Id, fetched: Obj, now: int, later: int, x: Id)
    ensures Known(c, AfterArrival(c, s, id, fetched, now, later), x) ==
            if x == id && id !in s.storage then Some(fetched.fields) else Known(c, s, x)
  {}

  lemma SendKnown(c: Config, s: Store, id: Id, sender: Option<Obj>, userOp: string, x: Id)
    ensures Known(c, AfterSend(c, s, id, sender, userOp), x) ==
            if x == id && id !in s.storage && sender.Some? && c.messenger && PathOf(c, sender.value) == c.defaultPath
            then Some(sender.value.fields) else Known(c, s, x)
  {}

  lemma DeleteKnown(c: Config, s: Store, x: Id, dontRemote: bool, id: Id)
    ensures Known(c, AfterDelete(c, s, x, dontRemote), id) == Want(c, s, Delete(x, dontRemote), id, Known(c, s, id))
  {}

  /** An operation does to what is known what it should, iff it evicts recoverably and its news is current. */
  lemma StepKnown(c: Config, s: Store, op: Op, now: int, id: Id)
    ensures Known(c, Step(c, s, op, now), id) == Want(c, s, op, id, Known(c, s, id)) <==>
            EvictsRecoverably(c, s, op, now, id) && NewsIsCurrent(c, s, op, id)
  {
    match op
    case Send(x, sender, userOp) => SendKnown(c, s, x, sender, userOp, id);
    case Arrive(x, fetched, later) => ArrivalKnown(c, s, x, fetched, now, later, id);
    case Delete(x, dontRemote) => DeleteKnown(c, s, x, dontRemote, id);
    case Prune => PruneKnown(c, s, now, id);
    case _ =>
  }

  ghost predicate RecoverableThroughout(c: Config, s: Store, run: seq<(Op, int)>, id: Id)
    decreases |run|
  {
    run != [] ==>
      && EvictsRecoverably(c, s, run[0].0, run[0].1, id)
      && RecoverableThroughout(c, Step(c, s, run[0].0, run[0].1), run[1..], id)
  }

  ghost predicate CurrentThroughout(c: Config, s: Store, run: seq<(Op, int)>, id: Id)
    decreases |run|
  {
    run != [] ==>
      && NewsIsCurrent(c, s, run[0].0, id)
      && CurrentThroughout(c, Step(c, s, run[0].0, run[0].1), run[1..], id)
  }

  ghost predicate KnownThroughout(c: Config, s: Store, run: seq<(Op, int)>, id: Id, want: Option<Fields>)
    decreases |run|
  {
    && Known(c, s, id) == want
    && (run != [] ==>
          KnownThroughout(c, Step(c, s, run[0].0, run[0].1), run[1..], id, Want(c, s, run[0].0, id, want)))
  }

  /**
   * Eviction is invisible, exactly: through any run, of writes, deletions, prunes and lookups, an id is answered at
   * every moment with the fields last written, if and only if each prune that drops it does so recoverably and what
   * arrives or is sent for it while it is away is current.
   */
  lemma {:induction false} EvictionIsInvisibleIff(c: Config, s: Store, run: seq<(Op, int)>, id: Id)
    ensures KnownThroughout(c, s, run, id, Known(c, s, id)) <==>
            RecoverableThroughout(c, s, run, id) && CurrentThroughout(c, s, run, id)
    decreases |run|
  {
    if run != [] {
      StepKnown(c, s, run[0].0, run[0].1, id);
      EvictionIsInvisibleIff(c, Step(c, s, run[0].0, run[0].1), run[1..], id);
    }
  }

  /** A lookup whose answer comes back after the object was changed and evicted again brings the old fields back. */
  lemma StaleArrivalReverts(c: Config, o: Obj, fields: Fields)
    requires c.ageOut == 50 && c.messenger && PathOf(c, o) == c.defaultPath && fields != o.fields
    ensures var s0 := Store(map[], map[], map[(c.defaultPath, "x") := o], {});
            var s := Run(c, s0, [(Op.Arrive("x", o, 10), 10), (Op.Mutate("x", fields), 20), (Prune, 61)]);
            && Known(c, s, "x") == Some(fields)
            && Known(c, Step(c, s, Op.Arrive("x", o, 70), 70), "x") == Some(o.fields)
  {
    var s0 := Store(map[], map[], map[(c.defaultPath, "x") := o], {});
    RunThree(c, s0, (Op.Arrive("x", o, 10), 10), (Op.Mutate("x", fields), 20), (Prune, 61));
    var s1 := Step(c, s0, Op.Arrive("x", o, 10), 10);
    var s2 := Step(c, s1, Op.Mutate("x", fields), 20);
    BucketsAfterArrival(s0.buckets, "x", 10, 10);
    assert "x" in Bucket(s2.buckets, 10);
    PruneDropsIff(c, s2, 61, "x");
    PruneKnown(c, s2, 61, "x");
  }

  /** A prune that drops id leaves something to find under it. */
  predicate EvictsFindably(c: Config, s: Store, op: Op, now: int, id: Id) {
    op.Prune? && Evicts(c, s, now, id) ==> Findable(c, s, id)
  }

  ghost predicate FindableThroughout(c: Config, s: Store, run: seq<(Op, int)>, id: Id)
    decreases |run|
  {
    run != [] ==>
      && EvictsFindably(c, s, run[0].0, run[0].1, id)
      && FindableThroughout(c, Step(c, s, run[0].0, run[0].1), run[1..], id)
  }

  ghost predicate NeverForgotten(c: Config, s: Store, run: seq<(Op, int)>, id: Id)
    decreases |run|
  {
    && Known(c, s, id).Some?
    && (run != [] ==> NeverForgotten(c, Step(c, s, run[0].0, run[0].1), run[1..], id))
  }

  lemma StepRemembersIff(c: Config, s: Store, op: Op, now: int, id: Id)
    requires Known(c, s, id).Some? && (op.Delete? ==> op.id != id)
    ensures Known(c, Step(c, s, op, now), id).Some? <==> EvictsFindably(c, s, op, now, id)
  {
    if op.Prune? { PruneKnown(c, s, now, id); }
  }

  /** A known id is never forgotten without a delete, if and only if each prune that evicts it leaves it findable. */
  lemma {:induction false} OnlyDeleteForgetsIff(c: Config, s: Store, run: seq<(Op, int)>, id: Id)
    requires Known(c, s, id).Some?
    requires forall i | 0 <= i < |run| && run[i].0.Delete? :: run[i].0.id != id
    ensures NeverForgotten(c, s, run, id) <==> FindableThroughout(c, s, run, id)
    decreases |run|
  {
    if run != [] {
      var op, now := run[0].0, run[0].1;
      StepRemembersIff(c, s, op, now, id);
      assert forall i | 0 <= i < |run| - 1 :: run[1..][i] == run[i + 1];
      if Known(c, Step(c, s, op, now), id).Some? { OnlyDeleteForgetsIff(c, Step(c, s, op, now), run[1..], id); }
    }
  }

  /** There is a remote, and everything goes by the default path. */
  ghost predicate Homed(c: Config, s: Store) {
    && c.messenger
    && (forall id | id in s.storage :: PathOf(c, s.storage[id]) == c.defaultPath)
  }

  /** The object an operation brings from outside, if it brings one. */
  function Brought(op: Op): Option<Obj> {
    match op
    case Update(_, o) => Some(o)
    case Arrive(_, o, _) => Some(o)
    case _ => None
  }

  ghost predicate HomedRun(c: Config, run: seq<(Op, int)>) {
    forall i | 0 <= i < |run| && Brought(run[i].0).Some? :: PathOf(c, Brought(run[i].0).value) == c.defaultPath
  }

  lemma SentIsHomed(c: Config, storage: map<Id, Obj>, ids: set<Id>)
    ensures forall k | k in Sent(c, storage, ids) ::
              k.1 in ids && k.1 in storage && Sent(c, storage, ids)[k] == storage[k.1] && PathOf(c, storage[k.1]) == k.0
  {}

  lemma StepKeepsHomed(c: Config, s: Store, op: Op, now: int)
    requires Homed(c, s) && (Brought(op).Some? ==> PathOf(c, Brought(op).value) == c.defaultPath)
    ensures Homed(c, Step(c, s, op, now))
  {}

  /** With a remote, and objects that go by the default path, every eviction of every run is recoverable. */
  lemma {:induction false} DefaultPathsRecover(c: Config, s: Store, run: seq<(Op, int)>, id: Id)
    requires Homed(c, s) && HomedRun(c, run)
    ensures RecoverableThroughout(c, s, run, id) && FindableThroughout(c, s, run, id)
    decreases |run|
  {
    if run != [] {
      StepKeepsHomed(c, s, run[0].0, run[0].1);
      assert forall i | 0 <= i < |run| - 1 :: run[1..][i] == run[i + 1];
      DefaultPathsRecover(c, Step(c, s, run[0].0, run[0].1), run[1..], id);
    }
  }

  // ---- two lookups at once --------------------------------------------------------------------------

  /** Two lookups of one id that both miss leave the index exact only when the second ends at the stored stamp. */
  lemma LateArrivalKeepsOneBucketIff(c: Config, s: Store, id: Id, fetched: Obj, later: int)
    requires OneBucket(s) && id in s.storage
    ensures OneBucket(AfterLateArrival(c, s, id, fetched, later)) <==> later == s.storage[id].tstamp
  {
    var u, t := AfterLateArrival(c, s, id, fetched, later), s.storage[id].tstamp;
    assert InBucketOnly(s.buckets, id, t);
    StampMoved(s.buckets, fetched.tstamp, id, later);
    assert id in Bucket(u.buckets, later);
    if later == t {
      forall x | x in u.storage ensures InBucketOnly(u.buckets, x, u.storage[x].tstamp) {
        assert InBucketOnly(s.buckets, x, s.storage[x].tstamp);
      }
    } else {
      assert !InBucketOnly(u.buckets, id, t);
    }
  }
}
