/**
 * Logging in takes two requests: a primary one that checks the password and caches a transition under a
 * fresh token, and a secondary one that redeems the token and starts the session. Each stretch of code
 * between two awaits is one step, and the steps of any number of requests interleave freely.
 */
module LoginModel {
  import opened Wrappers
  import opened ObjectCache

  type Req = nat
  type Data = Option<string>

  /** What the user database answers; `data` is the field released to the session. */
  datatype User = User(key: string, password: string, data: Data)

  /** A request that is suspended at an await. */
  datatype Phase =
    | Fetching(given: string)
    | Checking(given: string, user: User)
    | Prepared(tobj: TObj, elements: map<string, string>)
    | Matching(entry: Cached, action: string, shown: string, ok: bool)
    | Loading(tobj: TObj, action: string, shown: string, session: string)

  /** History: the login a token was made for. */
  datatype Login = Login(session: string, user: User, given: string)

  /** History: a secondary request answered with a session token; `released` is set when the session was started. */
  datatype Grant = Grant(token: string, session: string, action: string, shown: string, userKey: string,
                         released: Option<Data>)

  /** issued, grants and spent are history: tokens made, secondary requests granted, tokens redeemed. */
  datatype State = State(cache: Cache, release: map<string, Data>, inflight: map<Req, Phase>,
                         issued: map<string, Login>, grants: seq<Grant>, spent: set<string>)

  const SESSION_DATA := "app_user_data"
  const MATCH := "match"

  function Init(): State {
    State(map[], map[], map[], map[], [], {})
  }

  // ---- the pieces an application may override, in their default form -----------------------

  function HashPass(password: string): string { password }

  predicate PasswordCheck(stored: string, given: string) { stored == given }

  predicate Match(shown: string, entry: Cached) {
    shown != "" && MATCH in entry.elements && entry.elements[MATCH] == shown
  }

  predicate PasswordPasses(user: User, given: string) {
    user.password != "" && given != "" && PasswordCheck(user.password, HashPass(given))
  }

  // ---- steps --------------------------------------------------------------------------------

  datatype Step =
    | BeginPrimary(req: Req, given: string)
    | UserArrives(req: Req, user: Option<User>)
    | PasswordChecked(req: Req, token: string, session: string, born: int)
    | CachePrimary(req: Req)
    | BeginSecondary(req: Req, action: string, presented: Option<string>, shown: string)
    | MatchArrives(req: Req)
    | UserReloaded(req: Req, found: bool)
    | Sweep(maxCacheTime: int, now: int)

  /** Request numbers and generated tokens are fresh; a step resumes a request where it was suspended. */
  predicate Enabled(s: State, step: Step) {
    match step
    case BeginPrimary(r, _) => r !in s.inflight
    case UserArrives(r, _) => r in s.inflight && s.inflight[r].Fetching?
    case PasswordChecked(r, token, session, _) =>
      && r in s.inflight && s.inflight[r].Checking?
      && token != "" && session != "" && token !in s.issued
      && forall t | t in s.issued :: s.issued[t].session != session
    case CachePrimary(r) => r in s.inflight && s.inflight[r].Prepared?
    case BeginSecondary(r, _, _, _) => r !in s.inflight
    case MatchArrives(r) => r in s.inflight && s.inflight[r].Matching?
    case UserReloaded(r, _) => r in s.inflight && s.inflight[r].Loading?
    case Sweep(_, _) => true
  }

  function Ended(s: State, r: Req): State {
    s.(inflight := s.inflight - {r})
  }

  function At(s: State, r: Req, p: Phase): State {
    s.(inflight := s.inflight[r := p])
  }

  function LoginElements(token: string, session: string): map<string, string> {
    map[MATCH := token, SESSION_DATA := session]
  }

  /** born is the object's entry time, zero when it has none. */
  function LoginObject(token: string, session: string, user: User, born: int): TObj {
    TObj(token, "login", user.key, session, true, None, born)
  }

  function LoginEntry(token: string, session: string, user: User, born: int): Cached {
    Stamped(Cached(LoginObject(token, session, user, born), LoginElements(token, session), "login", 0))
  }

  function AfterPasswordCheck(s: State, r: Req, p: Phase, token: string, session: string, born: int): State
    requires p.Checking?
  {
    if !PasswordPasses(p.user, p.given) then Ended(s, r)
    else
      At(s, r, Prepared(LoginObject(token, session, p.user, born), LoginElements(token, session)))
      .(issued := s.issued[token := Login(session, p.user, p.given)], release := s.release[session := p.user.data])
  }

  /** Redeeming takes the token out of the cache whatever happens next. */
  function AfterRedeem(s: State, r: Req, action: string, token: string, shown: string): State {
    if token !in s.cache then s
    else
      var entry := s.cache[token];
      var taken := s.(cache := s.cache - {token}, spent := s.spent + {token});
      if action != entry.kind then taken
      else At(taken, r, Matching(entry.(kind := entry.kind + "-secondary"), action, shown, Match(shown, entry)))
  }

  function Granted(s: State, r: Req, g: Grant): State {
    Ended(s, r).(grants := s.grants + [g])
  }

  function AfterMatch(s: State, r: Req, p: Phase): State
    requires p.Matching?
  {
    var el, tobj := p.entry.elements, p.entry.tobj;
    if !p.ok || SESSION_DATA !in el || el[SESSION_DATA] == "" then Ended(s, r)
    else if tobj.userOp == "login" then At(s, r, Loading(tobj, p.action, p.shown, el[SESSION_DATA]))
    else Granted(s, r, Grant(tobj.token, el[SESSION_DATA], p.action, p.shown, tobj.userKey, None))
  }

  function AfterReload(s: State, r: Req, p: Phase, found: bool): State
    requires p.Loading?
  {
    if found then
      var data := if p.session in s.release then s.release[p.session] else None;
      Granted(s, r, Grant(p.tobj.token, p.session, p.action, p.shown, p.tobj.userKey, Some(data)))
      .(release := s.release - {p.session})
    else Granted(s, r, Grant(p.tobj.token, p.session, p.action, p.shown, p.tobj.userKey, None))
  }

  function Apply(s: State, step: Step): State
    requires Enabled(s, step)
  {
    match step
    case BeginPrimary(r, given) => At(s, r, Fetching(given))
    case UserArrives(r, user) =>
      var given := s.inflight[r].given;
      if user.None? || user.value.password == "" || given == "" then Ended(s, r)
      else At(s, r, Checking(given, user.value))
    case PasswordChecked(r, token, session, born) => AfterPasswordCheck(s, r, s.inflight[r], token, session, born)
    case CachePrimary(r) =>
      var p := s.inflight[r];
      Ended(s, r).(cache := s.cache[p.tobj.token := Stamped(Cached(p.tobj, p.elements, "login", 0))])
    case BeginSecondary(r, action, token, shown) =>
      if token.None? then s else AfterRedeem(s, r, action, token.value, shown)
    case MatchArrives(r) => AfterMatch(s, r, s.inflight[r])
    case UserReloaded(r, found) => AfterReload(s, r, s.inflight[r], found)
    case Sweep(maxCacheTime, now) => s.(cache := Swept(s.cache, maxCacheTime, now))
  }

  // ---- the invariant ------------------------------------------------------------------------

  /** The token a suspended request carries, once there is one. */
  function TokenOf(p: Phase): Option<string> {
    match p
    case Prepared(tobj, _) => Some(tobj.token)
    case Matching(entry, _, _, _) => Some(entry.tobj.token)
    case Loading(tobj, _, _, _) => Some(tobj.token)
    case _ => None
  }

  predicate Genuine(issued: map<string, Login>, tobj: TObj) {
    && tobj.token in issued && tobj.userOp == "login" && tobj.userKey == issued[tobj.token].user.key
  }

  predicate GenuinePhase(issued: map<string, Login>, p: Phase) {
    match p
    case Prepared(tobj, el) => Genuine(issued, tobj) && el == LoginElements(tobj.token, issued[tobj.token].session)
    case Matching(entry, action, shown, ok) =>
      && Genuine(issued, entry.tobj) && action == "login"
      && entry.elements == LoginElements(entry.tobj.token, issued[entry.tobj.token].session)
      && (ok ==> shown == entry.tobj.token)
    case Loading(tobj, action, shown, session) =>
      && Genuine(issued, tobj) && action == "login" && session == issued[tobj.token].session && shown == tobj.token
    case _ => true
  }

  predicate GenuineGrant(issued: map<string, Login>, g: Grant) {
    && g.token in issued
    && PasswordPasses(issued[g.token].user, issued[g.token].given)
    && g.session == issued[g.token].session
    && g.action == "login"
    && g.shown == g.token
    && g.userKey == issued[g.token].user.key
    && (g.released.Some? ==> g.released.value == issued[g.token].user.data)
  }

  ghost predicate IssuedOk(s: State) {
    && (forall t | t in s.issued :: s.issued[t].session != "" && PasswordPasses(s.issued[t].user, s.issued[t].given))
    && (forall t, u | t in s.issued && u in s.issued && t != u :: s.issued[t].session != s.issued[u].session)
  }

  ghost predicate CacheOk(s: State) {
    forall t | t in s.cache ::
      && s.cache[t].tobj.token == t && Genuine(s.issued, s.cache[t].tobj) && s.cache[t].kind == "login"
      && s.cache[t].elements == LoginElements(t, s.issued[t].session)
  }

  ghost predicate PhasesOk(s: State) {
    forall r | r in s.inflight :: GenuinePhase(s.issued, s.inflight[r])
  }

  ghost predicate GrantsOk(s: State) {
    forall i | 0 <= i < |s.grants| :: GenuineGrant(s.issued, s.grants[i])
  }

  predicate Holds(s: State, r: Req, t: string) {
    r in s.inflight && TokenOf(s.inflight[r]) == Some(t)
  }

  predicate HasGrant(s: State, t: string) {
    exists i | 0 <= i < |s.grants| :: s.grants[i].token == t
  }

  /** A token is in one place at a time: with one request, in the cache, or among the grants. */
  ghost predicate Exclusive(s: State) {
    && (forall r, q, t | Holds(s, r, t) && Holds(s, q, t) :: r == q)
    && (forall r, t | Holds(s, r, t) :: t !in s.cache && !HasGrant(s, t))
    && (forall t | t in s.cache :: !HasGrant(s, t))
    && (forall i, j | 0 <= i < j < |s.grants| :: s.grants[i].token != s.grants[j].token)
  }

  ghost predicate SpentOk(s: State) {
    && (forall t | t in s.spent :: t in s.issued && t !in s.cache)
    && (forall r | r in s.inflight && s.inflight[r].Prepared? :: s.inflight[r].tobj.token !in s.spent)
  }

  /** The data of a login waits for it until its session is started. */
  ghost predicate ReleaseOk(s: State) {
    forall t | t in s.issued && (t in s.cache || exists r :: Holds(s, r, t)) ::
      s.issued[t].session in s.release && s.release[s.issued[t].session] == s.issued[t].user.data
  }

  /** Everything that carries a token carries what was made for it. */
  ghost predicate Records(s: State) {
    IssuedOk(s) && CacheOk(s) && PhasesOk(s) && GrantsOk(s)
  }

  ghost predicate Places(s: State) {
    Exclusive(s) && SpentOk(s) && ReleaseOk(s)
  }

  ghost predicate Inv(s: State) {
    Records(s) && Places(s)
  }

  lemma ElementsApart(token: string, session: string)
    ensures LoginElements(token, session)[MATCH] == token && LoginElements(token, session)[SESSION_DATA] == session
  {}

  /** Moving one request to a phase that carries the same token, or none, and nothing else. */
  lemma PhaseChangeKeeps(s: State, r: Req, p: Phase)
    requires Inv(s) && GenuinePhase(s.issued, p) && !p.Prepared?
    requires TokenOf(p).None? || Holds(s, r, TokenOf(p).value)
    ensures Inv(At(s, r, p))
  {
    var u := At(s, r, p);
    assert forall q, t :: Holds(u, q, t) ==> Holds(s, q, t);
    assert forall t :: HasGrant(u, t) <==> HasGrant(s, t);
  }

  lemma EndKeeps(s: State, r: Req)
    requires Inv(s)
    ensures Inv(Ended(s, r))
  {
    var u := Ended(s, r);
    assert forall q, t :: Holds(u, q, t) ==> Holds(s, q, t);
    assert forall t :: HasGrant(u, t) <==> HasGrant(s, t);
  }

  lemma GenuineStays(issued: map<string, Login>, token: string, login: Login, p: Phase)
    requires token !in issued && GenuinePhase(issued, p)
    ensures GenuinePhase(issued[token := login], p)
  {}

  /** The state with a new login on record and its data waiting. */
  function Issued(s: State, token: string, login: Login): State {
    s.(issued := s.issued[token := login], release := s.release[login.session := login.user.data])
  }

  /** Records made before a new token is issued stay good. */
  lemma NewTokenKeepsRecords(s: State, token: string, login: Login)
    requires Records(s) && token !in s.issued && login.session != "" && PasswordPasses(login.user, login.given)
    requires forall t | t in s.issued :: s.issued[t].session != login.session
    ensures Records(Issued(s, token, login))
  {
    var u := Issued(s, token, login);
    forall q | q in u.inflight ensures GenuinePhase(u.issued, u.inflight[q]) {
      GenuineStays(s.issued, token, login, s.inflight[q]);
    }
    assert PhasesOk(u);
    assert IssuedOk(u) && CacheOk(u);
    assert GrantsOk(u);
  }

  lemma PickUpKeepsRecords(s: State, r: Req, p: Phase)
    requires Records(s) && GenuinePhase(s.issued, p)
    ensures Records(At(s, r, p))
  {
    assert PhasesOk(At(s, r, p));
  }

  lemma IssueKeepsRecords(s: State, r: Req, token: string, session: string, born: int)
    requires Records(s) && Enabled(s, PasswordChecked(r, token, session, born))
    requires PasswordPasses(s.inflight[r].user, s.inflight[r].given)
    ensures Records(Apply(s, PasswordChecked(r, token, session, born)))
  {
    var p := s.inflight[r];
    var login := Login(session, p.user, p.given);
    NewTokenKeepsRecords(s, token, login);
    var prepared := Prepared(LoginObject(token, session, p.user, born), LoginElements(token, session));
    PickUpKeepsRecords(Issued(s, token, login), r, prepared);
  }

  /** No request carries the token, it is not cached and was not granted. */
  ghost predicate Nowhere(s: State, token: string) {
    token !in s.cache && !HasGrant(s, token) && forall q :: !Holds(s, q, token)
  }

  lemma PickUpHolds(s: State, r: Req, p: Phase, token: string, q: Req, t: string)
    requires TokenOf(p) == Some(token)
    ensures Holds(At(s, r, p), q, t) <==> (if q == r then t == token else Holds(s, q, t))
  {}

  /** Grants are where they were when the list of grants is. */
  lemma SameGrants(s: State, u: State)
    requires u.grants == s.grants
    ensures forall t :: HasGrant(u, t) <==> HasGrant(s, t)
  {}

  lemma PickUpKeepsExclusive(s: State, r: Req, p: Phase, token: string)
    requires Exclusive(s) && TokenOf(p) == Some(token) && Nowhere(s, token)
    ensures Exclusive(At(s, r, p))
  {
    var u := At(s, r, p);
    SameGrants(s, u);
    forall q, t ensures Holds(u, q, t) <==> (if q == r then t == token else Holds(s, q, t)) {
      PickUpHolds(s, r, p, token, q, t);
    }
    forall q ensures !Holds(s, q, token) {}
    forall q, o, t | Holds(u, q, t) && Holds(u, o, t) ensures q == o {
      if q != r && o != r { assert Holds(s, q, t) && Holds(s, o, t); }
    }
    forall q, t | Holds(u, q, t) ensures t !in u.cache && !HasGrant(u, t) {
      if q != r { assert Holds(s, q, t); }
    }
  }

  /** The data of the login made for t is waiting. */
  predicate Waits(s: State, t: string) {
    t in s.issued ==>
      s.issued[t].session in s.release && s.release[s.issued[t].session] == s.issued[t].user.data
  }

  lemma PickUpKeepsRelease(s: State, r: Req, p: Phase, token: string)
    requires ReleaseOk(s) && TokenOf(p) == Some(token) && Waits(s, token)
    ensures ReleaseOk(At(s, r, p))
  {
    var u := At(s, r, p);
    forall t | t in u.issued && (t in u.cache || exists q :: Holds(u, q, t)) ensures Waits(u, t) {
      if t != token && t !in u.cache {
        var q :| Holds(u, q, t);
        PickUpHolds(s, r, p, token, q, t);
        assert Holds(s, q, t);
      }
    }
  }

  /** A request may pick up a token that is nowhere, if its data is waiting. */
  lemma PickUpKeepsPlaces(s: State, r: Req, p: Phase, token: string)
    requires Places(s) && Nowhere(s, token) && Waits(s, token)
    requires TokenOf(p) == Some(token) && (p.Prepared? ==> token !in s.spent)
    ensures Places(At(s, r, p))
  {
    PickUpKeepsExclusive(s, r, p, token);
    PickUpKeepsRelease(s, r, p, token);
    assert SpentOk(At(s, r, p));
  }

  lemma HeldIsIssued(s: State, q: Req, t: string)
    requires PhasesOk(s) && Holds(s, q, t)
    ensures t in s.issued
  {
    assert GenuinePhase(s.issued, s.inflight[q]);
  }

  lemma GrantedIsIssued(s: State, t: string)
    requires GrantsOk(s) && HasGrant(s, t)
    ensures t in s.issued
  {}

  lemma SamePlaces(s: State, u: State)
    requires u.inflight == s.inflight && u.cache == s.cache && u.grants == s.grants && Exclusive(s)
    ensures Exclusive(u)
  {
    SameGrants(s, u);
    assert forall q, t :: Holds(u, q, t) <==> Holds(s, q, t);
  }

  lemma NewTokenKeepsRelease(s: State, token: string, login: Login)
    requires Records(s) && ReleaseOk(s) && token !in s.issued
    requires forall t | t in s.issued :: s.issued[t].session != login.session
    ensures ReleaseOk(Issued(s, token, login))
  {
    var u := Issued(s, token, login);
    forall t | t in u.issued && (t in u.cache || exists q :: Holds(u, q, t)) ensures Waits(u, t) {
      if t != token && t !in u.cache {
        var q :| Holds(u, q, t);
        assert Holds(s, q, t);
      }
    }
  }

  lemma NewTokenIsNowhere(s: State, token: string)
    requires Records(s) && token !in s.issued
    ensures Nowhere(s, token)
  {
    if HasGrant(s, token) { GrantedIsIssued(s, token); }
    forall q ensures !Holds(s, q, token) {
      if Holds(s, q, token) { HeldIsIssued(s, q, token); }
    }
  }

  /** Making a token and a session nobody has seen disturbs nothing. */
  lemma NewTokenKeepsPlaces(s: State, token: string, login: Login)
    requires Inv(s) && token !in s.issued && forall t | t in s.issued :: s.issued[t].session != login.session
    ensures Places(Issued(s, token, login)) && Nowhere(Issued(s, token, login), token) && token !in s.spent
  {
    SamePlaces(s, Issued(s, token, login));
    NewTokenKeepsRelease(s, token, login);
    NewTokenIsNowhere(s, token);
    NowhereStill(s, Issued(s, token, login), token);
    assert SpentOk(Issued(s, token, login));
  }

  lemma IssueKeepsPlaces(s: State, r: Req, token: string, session: string, born: int)
    requires Inv(s) && Enabled(s, PasswordChecked(r, token, session, born))
    requires PasswordPasses(s.inflight[r].user, s.inflight[r].given)
    ensures Places(Apply(s, PasswordChecked(r, token, session, born)))
  {
    var p := s.inflight[r];
    var login := Login(session, p.user, p.given);
    NewTokenKeepsPlaces(s, token, login);
    var prepared := Prepared(LoginObject(token, session, p.user, born), LoginElements(token, session));
    PickUpKeepsPlaces(Issued(s, token, login), r, prepared, token);
  }

  lemma NowhereStill(s: State, u: State, token: string)
    requires Nowhere(s, token) && u.cache.Keys <= s.cache.Keys && u.inflight == s.inflight && u.grants == s.grants
    ensures Nowhere(u, token)
  {
    forall q ensures !Holds(u, q, token) { assert !Holds(s, q, token); }
  }

  lemma IssueKeeps(s: State, r: Req, token: string, session: string, born: int)
    requires Inv(s) && Enabled(s, PasswordChecked(r, token, session, born))
    ensures Inv(Apply(s, PasswordChecked(r, token, session, born)))
  {
    if PasswordPasses(s.inflight[r].user, s.inflight[r].given) {
      IssueKeepsRecords(s, r, token, session, born);
      IssueKeepsPlaces(s, r, token, session, born);
    } else {
      EndKeeps(s, r);
    }
  }

  /** Caching puts the request's entry under its token, and ends the request. */
  lemma CacheKeepsRecords(s: State, r: Req)
    requires Records(s) && Enabled(s, CachePrimary(r))
    ensures Records(Apply(s, CachePrimary(r)))
  {
    assert GenuinePhase(s.issued, s.inflight[r]);
  }

  lemma CachingLetsGo(s: State, r: Req, q: Req, t: string)
    requires Enabled(s, CachePrimary(r))
    ensures Holds(Apply(s, CachePrimary(r)), q, t) <==> q != r && Holds(s, q, t)
  {}

  lemma CacheKeepsExclusive(s: State, r: Req)
    requires Exclusive(s) && Enabled(s, CachePrimary(r))
    ensures Exclusive(Apply(s, CachePrimary(r)))
  {
    var u, token := Apply(s, CachePrimary(r)), s.inflight[r].tobj.token;
    SameGrants(s, u);
    assert Holds(s, r, token);
    forall q, t ensures Holds(u, q, t) <==> q != r && Holds(s, q, t) { CachingLetsGo(s, r, q, t); }
  }

  lemma CacheKeepsRelease(s: State, r: Req)
    requires ReleaseOk(s) && Enabled(s, CachePrimary(r))
    ensures ReleaseOk(Apply(s, CachePrimary(r)))
  {
    var u, token := Apply(s, CachePrimary(r)), s.inflight[r].tobj.token;
    assert Holds(s, r, token);
    forall t | t in u.issued && (t in u.cache || exists q :: Holds(u, q, t)) ensures Waits(u, t) {
      if t != token && t !in s.cache {
        var q :| Holds(u, q, t);
        CachingLetsGo(s, r, q, t);
      }
    }
  }

  lemma CacheKeeps(s: State, r: Req)
    requires Inv(s) && Enabled(s, CachePrimary(r))
    ensures Inv(Apply(s, CachePrimary(r)))
  {
    CacheKeepsRecords(s, r);
    CacheKeepsExclusive(s, r);
    CacheKeepsRelease(s, r);
    assert SpentOk(Apply(s, CachePrimary(r)));
  }

  lemma RedeemKeepsRecords(s: State, r: Req, action: string, token: string, shown: string)
    requires Inv(s) && r !in s.inflight
    ensures Records(AfterRedeem(s, r, action, token, shown))
  {
    if token in s.cache {
      ElementsApart(token, s.issued[token].session);
    }
  }

  /** Taking a token out of the cache leaves it in no place at all. */
  lemma TakeKeepsPlaces(s: State, token: string)
    requires Inv(s) && token in s.cache
    ensures Places(s.(cache := s.cache - {token}, spent := s.spent + {token}))
    ensures Nowhere(s.(cache := s.cache - {token}, spent := s.spent + {token}), token)
  {
    var u := s.(cache := s.cache - {token}, spent := s.spent + {token});
    assert s.cache[token].tobj.token == token;
    assert forall q, t :: Holds(u, q, t) <==> Holds(s, q, t);
    assert forall q :: Holds(s, q, token) ==> token !in s.cache;
    assert forall t :: HasGrant(u, t) <==> HasGrant(s, t);
    forall r | r in s.inflight && s.inflight[r].Prepared? ensures s.inflight[r].tobj.token !in u.spent {
      assert Holds(s, r, s.inflight[r].tobj.token);
    }
  }

  lemma RedeemKeepsPlaces(s: State, r: Req, action: string, token: string, shown: string)
    requires Inv(s) && r !in s.inflight
    ensures Places(AfterRedeem(s, r, action, token, shown))
  {
    if token in s.cache {
      TakeKeepsPlaces(s, token);
      var taken, entry := s.(cache := s.cache - {token}, spent := s.spent + {token}), s.cache[token];
      if action == entry.kind {
        PickUpKeepsPlaces(taken, r, AfterRedeem(s, r, action, token, shown).inflight[r], token);
      }
    }
  }

  lemma GrantKeepsRecords(s: State, r: Req, found: bool)
    requires Inv(s) && Enabled(s, UserReloaded(r, found))
    ensures Records(Apply(s, UserReloaded(r, found)))
  {
    var token := s.inflight[r].tobj.token;
    assert Holds(s, r, token);
  }

  /** A token that is nowhere may be granted, and its session's data let go. */
  lemma AddGrantKeepsPlaces(s: State, g: Grant, release: map<string, Data>)
    requires Places(s) && IssuedOk(s) && Nowhere(s, g.token) && g.token in s.issued
    requires release == s.release || release == s.release - {s.issued[g.token].session}
    ensures Places(s.(grants := s.grants + [g], release := release))
  {
    var u := s.(grants := s.grants + [g], release := release);
    forall q, t | Holds(u, q, t) ensures Holds(s, q, t) && t != g.token {
      assert u.inflight[q] == s.inflight[q];
      assert !Holds(s, q, g.token);
    }
    forall t | HasGrant(u, t) ensures HasGrant(s, t) || t == g.token {
      var i :| 0 <= i < |u.grants| && u.grants[i].token == t;
      if i < |s.grants| { assert s.grants[i].token == t; }
    }
    forall i | 0 <= i < |s.grants| ensures s.grants[i].token != g.token {}
  }

  lemma EndLetsGo(s: State, r: Req, token: string)
    requires Inv(s) && Holds(s, r, token)
    ensures Nowhere(Ended(s, r), token)
  {
    forall q ensures !Holds(Ended(s, r), q, token) {
      if Holds(Ended(s, r), q, token) { assert Holds(s, q, token); }
    }
  }

  lemma GrantKeepsPlaces(s: State, r: Req, found: bool)
    requires Inv(s) && Enabled(s, UserReloaded(r, found))
    ensures Places(Apply(s, UserReloaded(r, found)))
  {
    var u := Apply(s, UserReloaded(r, found));
    EndKeeps(s, r);
    EndLetsGo(s, r, s.inflight[r].tobj.token);
    AddGrantKeepsPlaces(Ended(s, r), u.grants[|s.grants|], u.release);
  }

  lemma MatchKeeps(s: State, r: Req)
    requires Inv(s) && Enabled(s, MatchArrives(r))
    ensures Inv(Apply(s, MatchArrives(r)))
  {
    var p := s.inflight[r];
    assert GenuinePhase(s.issued, p);
    EndKeeps(s, r);
    ElementsApart(p.entry.tobj.token, s.issued[p.entry.tobj.token].session);
    assert Holds(s, r, p.entry.tobj.token);
    if p.ok {
      PhaseChangeKeeps(s, r, Loading(p.entry.tobj, p.action, p.shown, s.issued[p.entry.tobj.token].session));
    }
  }

  lemma SweepKeeps(s: State, maxCacheTime: int, now: int)
    requires Inv(s)
    ensures Inv(Apply(s, Sweep(maxCacheTime, now)))
  {
    var u := Apply(s, Sweep(maxCacheTime, now));
    SameGrants(s, u);
    assert forall q, t :: Holds(u, q, t) <==> Holds(s, q, t);
  }

  lemma StepKeeps(s: State, step: Step)
    requires Inv(s) && Enabled(s, step)
    ensures Inv(Apply(s, step))
  {
    match step
    case BeginPrimary(r, given) => PhaseChangeKeeps(s, r, Fetching(given));
    case UserArrives(r, user) =>
      EndKeeps(s, r);
      if user.Some? { PhaseChangeKeeps(s, r, Checking(s.inflight[r].given, user.value)); }
    case PasswordChecked(r, token, session, born) => IssueKeeps(s, r, token, session, born);
    case CachePrimary(r) => CacheKeeps(s, r);
    case BeginSecondary(r, action, token, shown) =>
      if token.Some? {
        RedeemKeepsRecords(s, r, action, token.value, shown);
        RedeemKeepsPlaces(s, r, action, token.value, shown);
      }
    case MatchArrives(r) =>
      MatchKeeps(s, r);
    case UserReloaded(r, found) => GrantKeepsRecords(s, r, found); GrantKeepsPlaces(s, r, found);
    case Sweep(maxCacheTime, now) => SweepKeeps(s, maxCacheTime, now);
  }

  // ---- runs -----------------------------------------------------------------------------------

  /** A run: every step is enabled where it is taken. */
  ghost predicate Possible(s: State, steps: seq<Step>)
    decreases |steps|
  {
    steps != [] ==> Enabled(s, steps[0]) && Possible(Apply(s, steps[0]), steps[1..])
  }

  function Run(s: State, steps: seq<Step>): State
    requires Possible(s, steps)
    decreases |steps|
  {
    if steps == [] then s else Run(Apply(s, steps[0]), steps[1..])
  }

  /** History only grows, and a step that adds a grant makes no token. */
  lemma StepGrows(s: State, step: Step)
    requires Enabled(s, step)
    ensures var u := Apply(s, step);
            && s.spent <= u.spent
            && (forall t | t in s.issued :: t in u.issued && u.issued[t] == s.issued[t])
            && (u.grants == s.grants ||
                (u.issued == s.issued && |u.grants| == |s.grants| + 1 && u.grants[..|s.grants|] == s.grants))
  {}

  lemma {:induction false} RunKeeps(s: State, steps: seq<Step>)
    requires Inv(s) && Possible(s, steps)
    ensures Inv(Run(s, steps))
    ensures s.spent <= Run(s, steps).spent
    ensures forall t | t in s.issued :: t in Run(s, steps).issued && Run(s, steps).issued[t] == s.issued[t]
    decreases |steps|
  {
    if steps != [] {
      StepKeeps(s, steps[0]);
      StepGrows(s, steps[0]);
      RunKeeps(Apply(s, steps[0]), steps[1..]);
    }
  }

  lemma InitInv()
    ensures Inv(Init())
  {}

  /**
   * In every interleaving: a secondary request is granted a session only for a token that a primary login made,
   * whose posted password is the stored one and not empty; as a login, by a client that showed the token; what it
   * gets is that login's own session token, user and data; and no token or session is granted twice.
   */
  lemma LoginSafety(steps: seq<Step>)
    requires Possible(Init(), steps)
    ensures var s := Run(Init(), steps);
            && (forall i | 0 <= i < |s.grants| ::
                  var g := s.grants[i];
                  g.token in s.issued &&
                  var l := s.issued[g.token];
                  && l.user.password == l.given != ""
                  && g.session == l.session && g.session != ""
                  && g.action == "login" && g.shown == g.token && g.userKey == l.user.key
                  && (g.released.Some? ==> g.released.value == l.user.data))
            && (forall i, j | 0 <= i < j < |s.grants| ::
                  s.grants[i].token != s.grants[j].token && s.grants[i].session != s.grants[j].session)
  {
    InitInv();
    RunKeeps(Init(), steps);
  }

  /** A login that a grant rests on was complete before the grant: it is there in the state the grant was made from. */
  lemma GrantedEarlier(before: seq<Step>, step: Step)
    requires Possible(Init(), before) && Enabled(Run(Init(), before), step)
    ensures var s := Run(Init(), before);
            var u := Apply(s, step);
            |u.grants| > |s.grants| ==>
              && u.grants == s.grants + [u.grants[|s.grants|]]
              && GenuineGrant(s.issued, u.grants[|s.grants|])
              && (forall i | 0 <= i < |s.grants| :: s.grants[i].token != u.grants[|s.grants|].token)
  {
    InitInv();
    RunKeeps(Init(), before);
    var s := Run(Init(), before);
    StepKeeps(s, step);
    StepGrows(s, step);
    var u := Apply(s, step);
    forall i | 0 <= i < |s.grants| ensures s.grants[i] == u.grants[i] {
      assert u.grants[..|s.grants|][i] == s.grants[i];
    }
  }

  /** Redeeming spends the token, whether or not action and match were right; a spent token buys nothing ever again. */
  lemma RedeemedOnce(before: seq<Step>, r: Req, action: string, token: string, shown: string, after: seq<Step>, q: Req)
    requires Possible(Init(), before) && r !in Run(Init(), before).inflight
    requires token in Run(Init(), before).cache
    requires Possible(Apply(Run(Init(), before), BeginSecondary(r, action, Some(token), shown)), after)
    requires q !in Run(Apply(Run(Init(), before), BeginSecondary(r, action, Some(token), shown)), after).inflight
    ensures var s := Run(Apply(Run(Init(), before), BeginSecondary(r, action, Some(token), shown)), after);
            token !in s.cache && forall a, m :: Apply(s, BeginSecondary(q, a, Some(token), m)) == s
  {
    InitInv();
    RunKeeps(Init(), before);
    SpentForGood(Run(Init(), before), r, action, token, shown, after);
  }

  lemma SpentForGood(s: State, r: Req, action: string, token: string, shown: string, after: seq<Step>)
    requires Inv(s) && r !in s.inflight && token in s.cache
    requires Possible(Apply(s, BeginSecondary(r, action, Some(token), shown)), after)
    ensures token !in Run(Apply(s, BeginSecondary(r, action, Some(token), shown)), after).cache
  {
    var u := Apply(s, BeginSecondary(r, action, Some(token), shown));
    assert token in u.spent;
    StepKeeps(s, BeginSecondary(r, action, Some(token), shown));
    RunKeeps(u, after);
    SpentIsNotCached(Run(u, after), token);
  }

  lemma SpentIsNotCached(s: State, token: string)
    requires SpentOk(s) && token in s.spent
    ensures token !in s.cache
  {}

  // ---- the password ----------------------------------------------------------------------------------

  /**
   * A password is accepted if and only if it is the stored one and not empty. Otherwise nothing is made: no token,
   * no session, nothing to release, and the request is over.
   */
  lemma PasswordIsCompared(s: State, r: Req, token: string, session: string, born: int)
    requires Enabled(s, PasswordChecked(r, token, session, born))
    ensures var p, u := s.inflight[r], Apply(s, PasswordChecked(r, token, session, born));
            if p.given == p.user.password && p.given != "" then
              && token in u.issued && u.issued[token] == Login(session, p.user, p.given)
              && session in u.release && u.release[session] == p.user.data
              && r in u.inflight && u.inflight[r].Prepared? && u.inflight[r].tobj.token == token
              && u.inflight[r].tobj.sessionToken == session && u.inflight[r].tobj.secondaryAction
              && u.inflight[r].elements == map["match" := token, "app_user_data" := session]
            else
              u == s.(inflight := s.inflight - {r})
  {}

  /** Without a user, or without both passwords, no check is made. */
  lemma NoPasswordNoCheck(s: State, r: Req, user: Option<User>)
    requires Enabled(s, UserArrives(r, user))
    ensures var given, u := s.inflight[r].given, Apply(s, UserArrives(r, user));
            if user.Some? && user.value.password != "" && given != "" then
              r in u.inflight && u.inflight[r] == Checking(given, user.value)
            else
              u == s.(inflight := s.inflight - {r})
  {}

  /** Caching: the entry is under its own token, for the action "login", and without the session token. */
  lemma PreparedIsCached(s: State, r: Req)
    requires Enabled(s, CachePrimary(r))
    ensures var p, u := s.inflight[r], Apply(s, CachePrimary(r));
            && r !in u.inflight && p.tobj.token in u.cache
            && var e := u.cache[p.tobj.token];
               && e.tobj == p.tobj.(sessionToken := "") && e.elements == p.elements && e.kind == "login"
               && e.entryTime == p.tobj.entryTime
               && u.cache == s.cache[p.tobj.token := e]
  {}

  /**
   * A secondary request takes its token out of the cache, and goes on for the cached action only; what it shows is
   * good if and only if it is the cached `match` element and not empty.
   */
  lemma SecondaryComparesIff(s: State, r: Req, action: string, token: string, shown: string)
    requires Enabled(s, BeginSecondary(r, action, Some(token), shown))
    ensures var u := Apply(s, BeginSecondary(r, action, Some(token), shown));
            if token !in s.cache then u == s
            else
              var e := s.cache[token];
              && u.cache == s.cache - {token}
              && (r in u.inflight <==> action == e.kind)
              && (action == e.kind ==>
                    && u.inflight[r].Matching? && u.inflight[r].entry == e.(kind := e.kind + "-secondary")
                    && (u.inflight[r].ok <==>
                          "match" in e.elements && e.elements["match"] == shown && shown != ""))
  {}

  /** After the match a login goes on if and only if it was good and there is a session to unstash. */
  lemma MatchGoesOnIff(s: State, r: Req)
    requires Enabled(s, MatchArrives(r)) && s.inflight[r].entry.tobj.userOp == "login"
    ensures var p, u := s.inflight[r], Apply(s, MatchArrives(r));
            && u.grants == s.grants && u.release == s.release
            && (r in u.inflight <==>
                  p.ok && SESSION_DATA in p.entry.elements && p.entry.elements[SESSION_DATA] != "")
            && (r in u.inflight ==>
                  u.inflight[r] == Loading(p.entry.tobj, p.action, p.shown, p.entry.elements[SESSION_DATA]))
  {}

  /** A login whose user is no longer found is still answered with its session, and its data stays held. */
  lemma VanishedUserIsGranted(s: State, r: Req)
    requires Enabled(s, UserReloaded(r, false))
    ensures var p, u := s.inflight[r], Apply(s, UserReloaded(r, false));
            && u.grants == s.grants + [Grant(p.tobj.token, p.session, p.action, p.shown, p.tobj.userKey, None)]
            && u.release == s.release
  {}

  // ---- what the trace says of a login ------------------------------------------------------------------

  /** A primary request posted this password. */
  ghost predicate Posted(steps: seq<Step>, n: nat, r: Req, given: string) {
    exists a: nat :: a < n && a < |steps| && steps[a] == BeginPrimary(r, given)
  }

  /** After posting, the database answered with this user. */
  ghost predicate Fetched(steps: seq<Step>, n: nat, r: Req, given: string, user: User) {
    exists b: nat :: b < n && b < |steps| && steps[b] == UserArrives(r, Some(user)) && Posted(steps, b, r, given)
  }

  /** After both, the password check answered, and this token and session were made. */
  ghost predicate Made(steps: seq<Step>, n: nat, token: string, login: Login) {
    exists d: nat, r, born :: d < n && d < |steps| && steps[d] == PasswordChecked(r, token, login.session, born)
                              && Fetched(steps, d, r, login.given, login.user)
  }

  ghost predicate FetchingTraced(steps: seq<Step>, s: State) {
    forall r | r in s.inflight && s.inflight[r].Fetching? :: Posted(steps, |steps|, r, s.inflight[r].given)
  }

  ghost predicate CheckingTraced(steps: seq<Step>, s: State) {
    forall r | r in s.inflight && s.inflight[r].Checking? ::
      Fetched(steps, |steps|, r, s.inflight[r].given, s.inflight[r].user)
  }

  ghost predicate IssuedTraced(steps: seq<Step>, s: State) {
    forall t | t in s.issued :: Made(steps, |steps|, t, s.issued[t])
  }

  ghost predicate Traced(steps: seq<Step>, s: State) {
    FetchingTraced(steps, s) && CheckingTraced(steps, s) && IssuedTraced(steps, s)
  }

  lemma PostedStays(steps: seq<Step>, step: Step, n: nat, m: nat, r: Req, given: string)
    requires Posted(steps, n, r, given) && n <= m
    ensures Posted(steps + [step], m, r, given)
  {
    var a: nat :| a < n && a < |steps| && steps[a] == BeginPrimary(r, given);
    assert (steps + [step])[a] == steps[a];
  }

  lemma FetchedStays(steps: seq<Step>, step: Step, n: nat, m: nat, r: Req, given: string, user: User)
    requires Fetched(steps, n, r, given, user) && n <= m
    ensures Fetched(steps + [step], m, r, given, user)
  {
    var b: nat :| b < n && b < |steps| && steps[b] == UserArrives(r, Some(user)) && Posted(steps, b, r, given);
    assert (steps + [step])[b] == steps[b];
    PostedStays(steps, step, b, b, r, given);
  }

  lemma MadeStays(steps: seq<Step>, step: Step, n: nat, m: nat, token: string, login: Login)
    requires Made(steps, n, token, login) && n <= m
    ensures Made(steps + [step], m, token, login)
  {
    var d: nat, r, born :| d < n && d < |steps| && steps[d] == PasswordChecked(r, token, login.session, born)
                           && Fetched(steps, d, r, login.given, login.user);
    assert (steps + [step])[d] == steps[d];
    FetchedStays(steps, step, d, d, r, login.given, login.user);
  }

  lemma StepIssues(s: State, step: Step, t: string)
    requires Enabled(s, step) && t in Apply(s, step).issued
    ensures || (t in s.issued && Apply(s, step).issued[t] == s.issued[t])
            || (step.PasswordChecked? && step.token == t && Apply(s, step).issued[t] ==
                  Login(step.session, s.inflight[step.req].user, s.inflight[step.req].given))
  {}

  lemma StepWaits(s: State, step: Step, r: Req)
    requires Enabled(s, step) && r in Apply(s, step).inflight
    ensures var p := Apply(s, step).inflight[r];
            && (p.Fetching? ==> (r in s.inflight && s.inflight[r] == p) || step == BeginPrimary(r, p.given))
            && (p.Checking? ==>
                  || (r in s.inflight && s.inflight[r] == p)
                  || (step == UserArrives(r, Some(p.user)) && s.inflight[r] == Fetching(p.given)))
  {}

  lemma TracedFetching(steps: seq<Step>, s: State, step: Step, r: Req)
    requires Traced(steps, s) && Enabled(s, step)
    requires r in Apply(s, step).inflight && Apply(s, step).inflight[r].Fetching?
    ensures Posted(steps + [step], |steps| + 1, r, Apply(s, step).inflight[r].given)
  {
    var p := Apply(s, step).inflight[r];
    StepWaits(s, step, r);
    if r in s.inflight && s.inflight[r] == p {
      PostedStays(steps, step, |steps|, |steps| + 1, r, p.given);
    } else {
      assert (steps + [step])[|steps|] == BeginPrimary(r, p.given);
    }
  }

  lemma TracedChecking(steps: seq<Step>, s: State, step: Step, r: Req)
    requires Traced(steps, s) && Enabled(s, step)
    requires r in Apply(s, step).inflight && Apply(s, step).inflight[r].Checking?
    ensures var p := Apply(s, step).inflight[r]; Fetched(steps + [step], |steps| + 1, r, p.given, p.user)
  {
    var p := Apply(s, step).inflight[r];
    StepWaits(s, step, r);
    if r in s.inflight && s.inflight[r] == p {
      FetchedStays(steps, step, |steps|, |steps| + 1, r, p.given, p.user);
    } else {
      assert (steps + [step])[|steps|] == UserArrives(r, Some(p.user));
      PostedStays(steps, step, |steps|, |steps|, r, p.given);
    }
  }

  lemma TracedIssued(steps: seq<Step>, s: State, step: Step, t: string)
    requires Traced(steps, s) && Enabled(s, step) && t in Apply(s, step).issued
    ensures Made(steps + [step], |steps| + 1, t, Apply(s, step).issued[t])
  {
    var l := Apply(s, step).issued[t];
    StepIssues(s, step, t);
    if t in s.issued && l == s.issued[t] {
      MadeStays(steps, step, |steps|, |steps| + 1, t, l);
    } else {
      assert (steps + [step])[|steps|] == PasswordChecked(step.req, t, l.session, step.born);
      FetchedStays(steps, step, |steps|, |steps|, step.req, l.given, l.user);
    }
  }

  lemma StepKeepsFetching(steps: seq<Step>, s: State, step: Step)
    requires Traced(steps, s) && Enabled(s, step)
    ensures FetchingTraced(steps + [step], Apply(s, step))
  {
    var u := Apply(s, step);
    forall r | r in u.inflight && u.inflight[r].Fetching?
      ensures Posted(steps + [step], |steps + [step]|, r, u.inflight[r].given)
    {
      TracedFetching(steps, s, step, r);
    }
  }

  lemma StepKeepsChecking(steps: seq<Step>, s: State, step: Step)
    requires Traced(steps, s) && Enabled(s, step)
    ensures CheckingTraced(steps + [step], Apply(s, step))
  {
    var u := Apply(s, step);
    forall r | r in u.inflight && u.inflight[r].Checking?
      ensures Fetched(steps + [step], |steps + [step]|, r, u.inflight[r].given, u.inflight[r].user)
    {
      TracedChecking(steps, s, step, r);
    }
  }

  lemma StepKeepsIssued(steps: seq<Step>, s: State, step: Step)
    requires Traced(steps, s) && Enabled(s, step)
    ensures IssuedTraced(steps + [step], Apply(s, step))
  {
    var u := Apply(s, step);
    forall t | t in u.issued ensures Made(steps + [step], |steps + [step]|, t, u.issued[t]) {
      TracedIssued(steps, s, step, t);
    }
  }

  lemma StepIsTraced(steps: seq<Step>, s: State, step: Step)
    requires Traced(steps, s) && Enabled(s, step)
    ensures Traced(steps + [step], Apply(s, step))
  {
    StepKeepsFetching(steps, s, step);
    StepKeepsChecking(steps, s, step);
    StepKeepsIssued(steps, s, step);
  }

  lemma {:induction false} RunIsTraced(before: seq<Step>, s: State, steps: seq<Step>)
    requires Traced(before, s) && Possible(s, steps)
    ensures Traced(before + steps, Run(s, steps))
    decreases |steps|
  {
    if steps == [] {
      assert before + steps == before;
    } else {
      StepIsTraced(before, s, steps[0]);
      RunIsTraced(before + [steps[0]], Apply(s, steps[0]), steps[1..]);
      assert before + [steps[0]] + steps[1..] == before + steps;
    }
  }

  lemma MadeIsTraced(steps: seq<Step>, token: string, login: Login) returns (a: nat, b: nat, d: nat, r: Req, born: int)
    requires Made(steps, |steps|, token, login)
    ensures a < b < d < |steps|
    ensures steps[a] == BeginPrimary(r, login.given) && steps[b] == UserArrives(r, Some(login.user))
    ensures steps[d] == PasswordChecked(r, token, login.session, born)
  {
    d, r, born :| d < |steps| && steps[d] == PasswordChecked(r, token, login.session, born)
                  && Fetched(steps, d, r, login.given, login.user);
    b :| b < d && steps[b] == UserArrives(r, Some(login.user)) && Posted(steps, b, r, login.given);
    a :| a < b && steps[a] == BeginPrimary(r, login.given);
  }

  lemma GrantIsGenuine(steps: seq<Step>, i: nat)
    requires Possible(Init(), steps) && i < |Run(Init(), steps).grants|
    ensures var s := Run(Init(), steps); GenuineGrant(s.issued, s.grants[i])
  {
    InitInv();
    RunKeeps(Init(), steps);
  }

  lemma IssuedIsTraced(steps: seq<Step>, token: string)
    requires Possible(Init(), steps) && token in Run(Init(), steps).issued
    ensures Made(steps, |steps|, token, Run(Init(), steps).issued[token])
  {
    RunIsTraced([], Init(), steps);
    assert [] + steps == steps;
  }

  /**
   * So the login behind a grant is one that the trace holds: a primary request posted the password, then the
   * database answered with the user, then the token and the session of the grant were made for that request.
   */
  lemma GrantIsTraced(steps: seq<Step>, i: nat)
    returns (a: nat, b: nat, d: nat, r: Req, given: string, user: User, born: int)
    requires Possible(Init(), steps) && i < |Run(Init(), steps).grants|
    ensures var g := Run(Init(), steps).grants[i];
            && a < b < d < |steps|
            && steps[a] == BeginPrimary(r, given)
            && steps[b] == UserArrives(r, Some(user))
            && steps[d] == PasswordChecked(r, g.token, g.session, born)
            && user.password == given != "" && g.userKey == user.key
            && (g.released.Some? ==> g.released.value == user.data)
  {
    var s := Run(Init(), steps);
    var token := s.grants[i].token;
    GrantIsGenuine(steps, i);
    IssuedIsTraced(steps, token);
    given, user := s.issued[token].given, s.issued[token].user;
    a, b, d, r, born := MadeIsTraced(steps, token, s.issued[token]);
  }

  /** The release table changes only where a session is made or started, and there as the login says. */
  lemma ReleaseChangesOnlyOwnSession(before: seq<Step>, step: Step, session: string)
    requires Possible(Init(), before) && Enabled(Run(Init(), before), step)
    ensures var s := Run(Init(), before);
            var u := Apply(s, step);
            ReleaseDiffers(s, u, session) ==>
              || (exists t :: t !in s.issued && t in u.issued && u.issued[t].session == session
                              && u.release == s.release[session := u.issued[t].user.data])
              || (|u.grants| == |s.grants| + 1 && u.grants[|s.grants|].session == session
                  && u.release == s.release - {session})
  {}

  predicate ReleaseDiffers(s: State, u: State, session: string) {
    || (session in u.release) != (session in s.release)
    || (session in s.release && u.release[session] != s.release[session])
  }

  // ---- a login that is let through -----------------------------------------------------------------

  /** If `step` can be taken in s, then the steps of `others` can be taken after it, and lead to t. */
  ghost predicate Leads(s: State, step: Step, others: seq<Step>, t: State) {
    Enabled(s, step) ==> Possible(Apply(s, step), others) && t == Run(Apply(s, step), others)
  }

  /** The request whose turn the step is. */
  predicate IsBy(step: Step, r: Req) {
    !step.Sweep? && step.req == r
  }

  predicate NoneBy(steps: seq<Step>, r: Req) {
    forall i | 0 <= i < |steps| :: !IsBy(steps[i], r)
  }

  /** Nobody presents the token, and no sweep finds a login born then too old. */
  predicate LeftAlone(steps: seq<Step>, token: string, born: int) {
    forall i | 0 <= i < |steps| ::
      && (steps[i].BeginSecondary? ==> steps[i].presented != Some(token))
      && (steps[i].Sweep? ==> born == 0 || steps[i].now - born <= steps[i].maxCacheTime)
  }

  lemma StepOfOther(s: State, step: Step, r: Req)
    requires Enabled(s, step) && !IsBy(step, r) && r in s.inflight
    ensures r in Apply(s, step).inflight && Apply(s, step).inflight[r] == s.inflight[r]
  {}

  /** A suspended request stays as it is while others run. */
  lemma {:induction false} StaysSuspended(s: State, steps: seq<Step>, r: Req)
    requires Possible(s, steps) && NoneBy(steps, r) && r in s.inflight
    ensures r in Run(s, steps).inflight && Run(s, steps).inflight[r] == s.inflight[r]
    decreases |steps|
  {
    if steps != [] {
      StepOfOther(s, steps[0], r);
      StaysSuspended(Apply(s, steps[0]), steps[1..], r);
    }
  }

  lemma StepLeavesCached(s: State, step: Step, token: string, entry: Cached)
    requires Exclusive(s) && Enabled(s, step) && LeftAlone([step], token, entry.entryTime)
    requires token in s.cache && s.cache[token] == entry
    ensures token in Apply(s, step).cache && Apply(s, step).cache[token] == entry
  {
    assert [step][0] == step;
    if step.CachePrimary? { assert Holds(s, step.req, s.inflight[step.req].tobj.token); }
  }

  /** A cached login stays cached while nobody presents its token and it is not too old. */
  lemma {:induction false} StaysCached(s: State, steps: seq<Step>, token: string, entry: Cached)
    requires Inv(s) && Possible(s, steps) && LeftAlone(steps, token, entry.entryTime)
    requires token in s.cache && s.cache[token] == entry
    ensures token in Run(s, steps).cache && Run(s, steps).cache[token] == entry
    decreases |steps|
  {
    if steps != [] {
      StepLeavesCached(s, steps[0], token, entry);
      StepKeeps(s, steps[0]);
      StaysCached(Apply(s, steps[0]), steps[1..], token, entry);
    }
  }

  lemma LeadKeeps(s: State, step: Step, others: seq<Step>, t: State)
    requires Inv(s) && Enabled(s, step) && Leads(s, step, others, t)
    ensures Inv(t)
    ensures forall k | k in Apply(s, step).issued :: k in t.issued && t.issued[k] == Apply(s, step).issued[k]
  {
    StepKeeps(s, step);
    RunKeeps(Apply(s, step), others);
  }

  /** The password check passes, whatever others do up to then. */
  lemma PrimaryIsChecked(s0: State, r: Req, user: User, a: seq<Step>, s1: State, b: seq<Step>, s2: State)
    requires Inv(s0) && r !in s0.inflight && user.password != ""
    requires Leads(s0, BeginPrimary(r, user.password), a, s1) && NoneBy(a, r)
    requires Leads(s1, UserArrives(r, Some(user)), b, s2) && NoneBy(b, r)
    ensures Enabled(s0, BeginPrimary(r, user.password)) && Enabled(s1, UserArrives(r, Some(user)))
    ensures Inv(s2) && r in s2.inflight && s2.inflight[r] == Checking(user.password, user)
  {
    LeadKeeps(s0, BeginPrimary(r, user.password), a, s1);
    StaysSuspended(Apply(s0, BeginPrimary(r, user.password)), a, r);
    LeadKeeps(s1, UserArrives(r, Some(user)), b, s2);
    StaysSuspended(Apply(s1, UserArrives(r, Some(user))), b, r);
  }

  /** The login is cached, and stays so until it is redeemed. */
  lemma CheckedIsCached(s2: State, r: Req, user: User, token: string, session: string, born: int,
                        c: seq<Step>, s3: State, d: seq<Step>, s4: State)
    requires Inv(s2) && r in s2.inflight && s2.inflight[r] == Checking(user.password, user) && user.password != ""
    requires Enabled(s2, PasswordChecked(r, token, session, born))
    requires Leads(s2, PasswordChecked(r, token, session, born), c, s3) && NoneBy(c, r)
    requires Leads(s3, CachePrimary(r), d, s4) && LeftAlone(d, token, born)
    ensures Enabled(s3, CachePrimary(r)) && Inv(s4)
    ensures token in s4.cache && s4.cache[token] == LoginEntry(token, session, user, born)
    ensures token in s4.issued && s4.issued[token] == Login(session, user, user.password)
  {
    var u := Apply(s2, PasswordChecked(r, token, session, born));
    LeadKeeps(s2, PasswordChecked(r, token, session, born), c, s3);
    StaysSuspended(u, c, r);
    assert s3.inflight[r] == Prepared(LoginObject(token, session, user, born), LoginElements(token, session));
    assert s3.issued[token] == u.issued[token] == Login(session, user, user.password);
    LeadKeeps(s3, CachePrimary(r), d, s4);
    StepKeeps(s3, CachePrimary(r));
    StaysCached(Apply(s3, CachePrimary(r)), d, token, LoginEntry(token, session, user, born));
  }

  lemma LoginStaysIssued(s: State, step: Step, others: seq<Step>, t: State, token: string)
    requires Inv(s) && Enabled(s, step) && Leads(s, step, others, t) && token in s.issued
    ensures token in t.issued && t.issued[token] == s.issued[token]
  {
    LeadKeeps(s, step, others, t);
    StepGrows(s, step);
  }

  lemma HolderWaits(s: State, q: Req, t: string)
    requires Inv(s) && Holds(s, q, t)
    ensures t in s.issued && Waits(s, t)
  {
    HeldIsIssued(s, q, t);
  }

  /** What the redeemed login waits with. */
  function Redeemed(token: string, session: string, user: User, born: int): Phase {
    Matching(LoginEntry(token, session, user, born).(kind := "login" + "-secondary"), "login", token, true)
  }

  function Matched(token: string, session: string, user: User, born: int): Phase {
    Loading(LoginEntry(token, session, user, born).tobj, "login", token, session)
  }

  lemma RedeemingMatches(s: State, q: Req, user: User, token: string, session: string, born: int)
    requires q !in s.inflight && token != ""
    requires token in s.cache && s.cache[token] == LoginEntry(token, session, user, born)
    ensures var u := Apply(s, BeginSecondary(q, "login", Some(token), token));
            q in u.inflight && u.inflight[q] == Redeemed(token, session, user, born)
  {
    ElementsApart(token, session);
  }

  /** A cached login that is presented with its token goes on to the match. */
  lemma CachedIsRedeemed(s4: State, q: Req, user: User, token: string, session: string, born: int,
                         e: seq<Step>, s5: State)
    requires Inv(s4) && q !in s4.inflight && token != ""
    requires token in s4.cache && s4.cache[token] == LoginEntry(token, session, user, born)
    requires Leads(s4, BeginSecondary(q, "login", Some(token), token), e, s5) && NoneBy(e, q)
    ensures Inv(s5) && q in s5.inflight && s5.inflight[q] == Redeemed(token, session, user, born)
  {
    RedeemingMatches(s4, q, user, token, session, born);
    LeadKeeps(s4, BeginSecondary(q, "login", Some(token), token), e, s5);
    StaysSuspended(Apply(s4, BeginSecondary(q, "login", Some(token), token)), e, q);
  }

  lemma RedeemedIsMatched(s5: State, q: Req, user: User, token: string, session: string, born: int,
                          f: seq<Step>, s6: State)
    requires Inv(s5) && q in s5.inflight && s5.inflight[q] == Redeemed(token, session, user, born) && session != ""
    requires Leads(s5, MatchArrives(q), f, s6) && NoneBy(f, q)
    ensures Enabled(s5, MatchArrives(q))
    ensures Inv(s6) && q in s6.inflight && s6.inflight[q] == Matched(token, session, user, born)
  {
    ElementsApart(token, session);
    LeadKeeps(s5, MatchArrives(q), f, s6);
    StaysSuspended(Apply(s5, MatchArrives(q)), f, q);
  }

  lemma MatchedIsGranted(s6: State, q: Req, user: User, token: string, session: string, born: int)
    requires Inv(s6) && q in s6.inflight && s6.inflight[q] == Matched(token, session, user, born)
    requires token in s6.issued && s6.issued[token] == Login(session, user, user.password)
    ensures Enabled(s6, UserReloaded(q, true))
    ensures var t := Apply(s6, UserReloaded(q, true));
            && t.grants == s6.grants + [Grant(token, session, "login", token, user.key, Some(user.data))]
            && t.release == s6.release - {session}
  {
    HolderWaits(s6, q, token);
  }

  /**
   * The other half: however the steps of other requests come in between, a login with the right password that is
   * redeemed with its token, by nobody else and before it is too old, is granted its session and its data, which
   * are then no longer held. Each of its own steps can be taken when its turn comes.
   */
  lemma LoginSucceeds(s0: State, r: Req, q: Req, user: User, token: string, session: string, born: int,
                      a: seq<Step>, s1: State, b: seq<Step>, s2: State, c: seq<Step>, s3: State,
                      d: seq<Step>, s4: State, e: seq<Step>, s5: State, f: seq<Step>, s6: State)
    requires Inv(s0) && r !in s0.inflight && user.password != "" && q !in s4.inflight
    requires token != "" && session != "" && token !in s2.issued
    requires forall t | t in s2.issued :: s2.issued[t].session != session
    requires Leads(s0, BeginPrimary(r, user.password), a, s1) && NoneBy(a, r)
    requires Leads(s1, UserArrives(r, Some(user)), b, s2) && NoneBy(b, r)
    requires Leads(s2, PasswordChecked(r, token, session, born), c, s3) && NoneBy(c, r)
    requires Leads(s3, CachePrimary(r), d, s4) && LeftAlone(d, token, born)
    requires Leads(s4, BeginSecondary(q, "login", Some(token), token), e, s5) && NoneBy(e, q)
    requires Leads(s5, MatchArrives(q), f, s6) && NoneBy(f, q)
    ensures && Enabled(s0, BeginPrimary(r, user.password)) && Enabled(s1, UserArrives(r, Some(user)))
            && Enabled(s2, PasswordChecked(r, token, session, born)) && Enabled(s3, CachePrimary(r))
            && Enabled(s4, BeginSecondary(q, "login", Some(token), token))
            && Enabled(s5, MatchArrives(q)) && Enabled(s6, UserReloaded(q, true))
    ensures var t := Apply(s6, UserReloaded(q, true));
            && t.grants == s6.grants + [Grant(token, session, "login", token, user.key, Some(user.data))]
            && t.release == s6.release - {session}
  {
    PrimaryIsChecked(s0, r, user, a, s1, b, s2);
    CheckedIsCached(s2, r, user, token, session, born, c, s3, d, s4);
    CachedIsRedeemed(s4, q, user, token, session, born, e, s5);
    LoginStaysIssued(s4, BeginSecondary(q, "login", Some(token), token), e, s5, token);
    RedeemedIsMatched(s5, q, user, token, session, born, f, s6);
    LoginStaysIssued(s5, MatchArrives(q), f, s6, token);
    MatchedIsGranted(s6, q, user, token, session, born);
  }
}
