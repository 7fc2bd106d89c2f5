/**
 * The user handler and the session manager behind it. Every method below is the code that runs between
 * two awaits; a request that has to wait leaves what it will need in `inflight`. What the database, the
 * password check's inputs and the token maker produce comes in as arguments.
 */
module UserProcessing {
  import opened Wrappers
  import opened ObjectCache
  import opened LoginModel

  /** The answer to a secondary request; `elements` is set when the session state was initialised. */
  datatype Reply = Refused | Started(sessionToken: string, elements: Option<Data>)

  class UserHandling {
    const cache: LocalTObjectCache
    var releaseSessionData: map<string, Data>
    var inflight: map<Req, Phase>
    ghost var issued: map<string, Login>
    ghost var grants: seq<Grant>
    ghost var spent: set<string>

    ghost function Model(): State
      reads this, cache
    {
      State(cache.cacheMap, releaseSessionData, inflight, issued, grants, spent)
    }

    constructor (cacheTime: int)
      ensures Model() == Init() && fresh(cache)
    {
      cache := new LocalTObjectCache(cacheTime);
      releaseSessionData, inflight, issued, grants, spent := map[], map[], map[], [], {};
    }

    /** user_sessions_processing('login', body), up to fetching the user. */
    method BeginPrimary(req: Req, given: string)
      requires Enabled(Model(), Step.BeginPrimary(req, given))
      modifies this
      ensures Model() == Apply(old(Model()), Step.BeginPrimary(req, given))
    {
      inflight := inflight[req := Fetching(given)];
    }

    /** login_transition, up to the password check; without both passwords nothing more happens. */
    method LoginTransition(req: Req, user: Option<User>)
      requires Enabled(Model(), UserArrives(req, user))
      modifies this
      ensures Model() == Apply(old(Model()), UserArrives(req, user))
    {
      var given := inflight[req].given;
      if user.Some? && user.value.password != "" && given != "" {
        inflight := inflight[req := Checking(given, user.value)];
      } else {
        inflight := inflight - {req};
      }
    }

    /** loginTransitionFields and stash_session_token, once the password check has answered. */
    method LoginTransitionFields(req: Req, token: string, session: string, born: int)
      requires Enabled(Model(), Step.PasswordChecked(req, token, session, born))
      modifies this
      ensures Model() == Apply(old(Model()), Step.PasswordChecked(req, token, session, born))
      ensures old(inflight[req].given == inflight[req].user.password && inflight[req].given != "") <==> req in inflight
      ensures req !in inflight ==> releaseSessionData == old(releaseSessionData) && issued == old(issued)
    {
      var user, given := inflight[req].user, inflight[req].given;
      if PasswordPasses(user, given) {
        var tobj := TObj("", "login", user.key, "", true, None, born);
        tobj := tobj.(sessionToken := session);
        tobj := tobj.(token := token);
        var elements := map[MATCH := tobj.token];
        releaseSessionData := releaseSessionData[tobj.sessionToken := user.data];
        elements := elements[SESSION_DATA := tobj.sessionToken];
        inflight := inflight[req := Prepared(tobj, elements)];
        issued := issued[token := Login(session, user, given)];
      } else {
        inflight := inflight - {req};
      }
    }

    /** The rest of user_sessions_processing: the transition is cached and its elements stay behind. */
    method FinishPrimary(req: Req) returns (answer: TObj)
      requires Enabled(Model(), CachePrimary(req))
      modifies this, cache
      ensures Model() == Apply(old(Model()), CachePrimary(req))
      ensures answer == old(inflight[req].tobj).(sessionToken := "")
    {
      var tobj, elements := inflight[req].tobj, inflight[req].elements;
      inflight := inflight - {req};
      cache.Add(tobj.token, Cached(tobj, elements, "login", 0));
      answer := tobj.(sessionToken := "");
    }

    /** secondary_processing, up to the match. */
    method BeginSecondary(req: Req, action: string, token: Option<string>, shown: string) returns (reply: Option<Reply>)
      requires Enabled(Model(), Step.BeginSecondary(req, action, token, shown))
      modifies this, cache
      ensures Model() == Apply(old(Model()), Step.BeginSecondary(req, action, token, shown))
      ensures reply == if req in inflight then None else Some(Refused)
    {
      reply := Some(Refused);
      if token.Some? {
        var found := cache.Fetch(token.value, false);
        if found.Some? {
          var entry := found.value;
          spent := spent + {token.value};
          if action == entry.kind {
            entry := entry.(kind := entry.kind + "-secondary");
            inflight := inflight[req := Matching(entry, action, shown, Match(shown, entry))];
            reply := None;
          }
        } else {
          assert cache.cacheMap == old(cache.cacheMap);
        }
      }
    }

    /** The match has answered: the session token is unstashed, and the user fetched again. */
    method ContinueSecondary(req: Req) returns (reply: Option<Reply>)
      requires Enabled(Model(), MatchArrives(req))
      modifies this
      ensures Model() == Apply(old(Model()), MatchArrives(req))
      ensures reply == if req in inflight then None
                       else if grants == old(grants) then Some(Refused)
                       else Some(Started(grants[|old(grants)|].session, None))
    {
      var p := inflight[req];
      var elements, tobj := p.entry.elements, p.entry.tobj;
      reply := Some(Refused);
      if p.ok && SESSION_DATA in elements && elements[SESSION_DATA] != "" {
        var session := elements[SESSION_DATA];
        if tobj.userOp == "login" {
          inflight := inflight[req := Loading(tobj, p.action, p.shown, session)];
          return None;
        }
        grants := grants + [Grant(tobj.token, session, p.action, p.shown, tobj.userKey, None)];
        reply := Some(Started(session, None));
      }
      inflight := inflight - {req};
    }

    /** The rest of initialize_session_state: the session's data is handed over and forgotten. */
    method InitializeSessionState(req: Req, found: bool) returns (reply: Reply)
      requires Enabled(Model(), UserReloaded(req, found))
      modifies this
      ensures Model() == Apply(old(Model()), UserReloaded(req, found))
      ensures reply == Started(old(inflight[req].session), grants[|old(grants)|].released)
    {
      var p := inflight[req];
      var elements: Option<Data> := None;
      if found {
        elements := Some(if p.session in releaseSessionData then releaseSessionData[p.session] else None);
        releaseSessionData := releaseSessionData - {p.session};
      }
      inflight := inflight - {req};
      grants := grants + [Grant(p.tobj.token, p.session, p.action, p.shown, p.tobj.userKey, elements)];
      reply := Started(p.session, elements);
    }

    method Timeout(now: int)
      modifies cache
      ensures Model() == Apply(old(Model()), Step.Sweep(cache.maxCacheTime, now))
    {
      cache.TimeoutTransitionCache(now);
    }
  }
}
