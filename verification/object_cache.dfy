/** The cache that carries a transition from its primary request to its secondary one. */
module ObjectCache {
  import opened Wrappers

  /** A transition object; an empty string or a zero time stands for a field that is not set. */
  datatype TObj = TObj(token: string, userOp: string, userKey: string, sessionToken: string,
                       secondaryAction: bool, transition: Option<string>, entryTime: int)

  /** `kind` is the action of a user operation, or the name of a transition. */
  datatype Cached = Cached(tobj: TObj, elements: map<string, string>, kind: string, entryTime: int)

  type Cache = map<string, Cached>

  /** The session token never stays in the cached object, and the object's own entry time is copied out. */
  function Stamped(e: Cached): Cached {
    Cached(e.tobj.(sessionToken := ""), e.elements, e.kind,
           if e.tobj.entryTime != 0 then e.tobj.entryTime else e.entryTime)
  }

  predicate TimedOut(e: Cached, maxCacheTime: int, now: int) {
    e.entryTime != 0 && now - e.entryTime > maxCacheTime
  }

  function Swept(cache: Cache, maxCacheTime: int, now: int): Cache {
    map t | t in cache && !TimedOut(cache[t], maxCacheTime, now) :: cache[t]
  }

  /** What is cached keeps nothing of the session token, and has the object's own entry time when that is set. */
  lemma CachedEntry(e: Cached)
    ensures Stamped(e).tobj.sessionToken == "" && Stamped(e).tobj == e.tobj.(sessionToken := "")
    ensures Stamped(e).elements == e.elements && Stamped(e).kind == e.kind
    ensures e.tobj.entryTime != 0 ==> Stamped(e).entryTime == e.tobj.entryTime
    ensures e.tobj.entryTime == 0 ==> Stamped(e).entryTime == e.entryTime
  {}

  /** A sweep keeps exactly the entries without an entry time, and those no older than the limit, as they are. */
  lemma SweepKeepsYoung(cache: Cache, maxCacheTime: int, now: int, t: string)
    ensures var kept := Swept(cache, maxCacheTime, now);
            && (t in kept <==> t in cache && (cache[t].entryTime == 0 || now - cache[t].entryTime <= maxCacheTime))
            && (t in kept ==> kept[t] == cache[t])
  {}

  class LocalTObjectCache {
    const maxCacheTime: int
    var cacheMap: Cache

    constructor (cacheTime: int)
      ensures maxCacheTime == cacheTime && cacheMap == map[]
    {
      maxCacheTime := cacheTime;
      cacheMap := map[];
    }

    method Add(token: string, entry: Cached)
      modifies this
      ensures cacheMap == old(cacheMap)[token := Stamped(entry)]
    {
      var e := entry;
      if e.tobj.sessionToken != "" {
        e := e.(tobj := e.tobj.(sessionToken := ""));
      }
      if e.tobj.entryTime != 0 {
        e := e.(entryTime := e.tobj.entryTime);
      }
      cacheMap := cacheMap[token := e];
    }

    /** Fetching takes the entry out, unless the caller says there is more to come. */
    method Fetch(token: string, next: bool) returns (found: Option<Cached>)
      modifies this
      ensures found == if token in old(cacheMap) then Some(old(cacheMap)[token]) else None
      ensures cacheMap == if next then old(cacheMap) else old(cacheMap) - {token}
    {
      found := if token in cacheMap then Some(cacheMap[token]) else None;
      if !next {
        cacheMap := cacheMap - {token};
      }
    }

    method TimeoutTransitionCache(now: int)
      modifies this
      ensures cacheMap == Swept(old(cacheMap), maxCacheTime, now)
      ensures forall t :: t in cacheMap <==>
                t in old(cacheMap) &&
                (old(cacheMap)[t].entryTime == 0 || now - old(cacheMap)[t].entryTime <= maxCacheTime)
    {
      var deleteThese: seq<string> := [];
      var tokens := cacheMap.Keys;
      while tokens != {}
        invariant tokens <= cacheMap.Keys
        invariant forall t :: t in deleteThese <==>
                              t in cacheMap && t !in tokens && TimedOut(cacheMap[t], maxCacheTime, now)
      {
        var token :| token in tokens;
        var tobj := cacheMap[token];
        if tobj.entryTime != 0 && now - tobj.entryTime > maxCacheTime {
          deleteThese := deleteThese + [token];
        }
        tokens := tokens - {token};
      }
      assert forall t | t in cacheMap :: t in deleteThese <==> TimedOut(cacheMap[t], maxCacheTime, now);
      ghost var was := cacheMap;
      for i := 0 to |deleteThese|
        invariant cacheMap == map t | t in was && t !in deleteThese[..i] :: was[t]
      {
        cacheMap := cacheMap - {deleteThese[i]};
        assert deleteThese[..i + 1] == deleteThese[..i] + [deleteThese[i]];
      }
      assert deleteThese[..|deleteThese|] == deleteThese;
    }
  }
}
