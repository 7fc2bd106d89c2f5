/**
 * Transitions in one or two requests. The log of what has happened is the history that safety is stated
 * over: a secondary request may finalize only what a vetted primary request cached, and only while it is cached.
 */
module TransitionModel {
  import opened Wrappers
  import opened ObjectCache

  type Req = nat
  type Elements = map<string, string>

  datatype Way = Immediate | Secondary | OverWebSocket

  datatype Event =
    | Guarded(req: Req, name: string)
    | Validated(req: Req, name: string)
    | FoundFeasible(req: Req, name: string)
    | Kept(req: Req, asked: string, token: string, name: string, elements: Elements)
    | Redeemed(token: string, next: bool, shown: string)
    | Dropped(gone: set<string>)
    | Finalized(req: Req, token: string, name: string, elements: Elements, way: Way)

  datatype Phase =
    | Guarding(name: string)
    | Weighing(name: string)
    | Processing(name: string)
    | Gathering(name: string)

  datatype State = State(cache: Cache, inflight: map<Req, Phase>, seen: set<Req>, log: seq<Event>)

  function Init(): State {
    State(map[], map[], {}, [])
  }

  predicate Match(shown: string, entry: Cached) {
    shown != "" && "match" in entry.elements && entry.elements["match"] == shown
  }

  /**
   * What the application answers at each await comes with the step: the guard and the validator, the feasibility
   * test, the transition object, and the elements (None when fetching them throws; it may change the object).
   */
  datatype Step =
    | Begin(req: Req, name: string)
    | GuardAnswers(req: Req, proceed: bool, valid: bool)
    | FeasibleAnswers(req: Req, feasible: bool)
    | ProcessAnswers(req: Req, made: Option<TObj>)
    | ElementsArrive(req: Req, fetched: Option<(TObj, Elements)>)
    | Redeem(req: Req, presented: Option<string>, next: bool, shown: string)
    | WebSocket(req: Req, name: string, token: string, feasible: bool)
    | Sweep(maxCacheTime: int, now: int)

  predicate Enabled(s: State, step: Step) {
    match step
    case Begin(r, _) => r !in s.seen
    case GuardAnswers(r, _, _) => r in s.inflight && s.inflight[r].Guarding?
    case FeasibleAnswers(r, _) => r in s.inflight && s.inflight[r].Weighing?
    case ProcessAnswers(r, _) => r in s.inflight && s.inflight[r].Processing?
    case ElementsArrive(r, _) => r in s.inflight && s.inflight[r].Gathering?
    case Redeem(r, _, _, _) => r !in s.seen
    case WebSocket(r, _, _, _) => r !in s.seen
    case Sweep(_, _) => true
  }

  function Ended(s: State, r: Req): State {
    s.(inflight := s.inflight - {r})
  }

  function At(s: State, r: Req, p: Phase): State {
    s.(inflight := s.inflight[r := p])
  }

  function Note(s: State, e: Event): State {
    s.(log := s.log + [e])
  }

  /** The object may rename the transition. */
  function FinalName(tobj: TObj, name: string): string {
    if tobj.transition.Some? then tobj.transition.value else name
  }

  function Keep(s: State, r: Req, name: string, tobj: TObj, elements: Elements, kind: string): State {
    Note(s, Kept(r, name, tobj.token, kind, elements))
    .(cache := s.cache[tobj.token := Stamped(Cached(tobj, elements, kind, 0))])
  }

  function Take(s: State, token: string, next: bool, shown: string): State {
    Note(s.(cache := if next then s.cache else s.cache - {token}), Redeemed(token, next, shown))
  }

  function Finish(s: State, r: Req, token: string, entry: Cached): State {
    Note(s, Finalized(r, token, entry.kind, entry.elements, Secondary))
  }

  function AfterRedeem(s: State, r: Req, token: string, next: bool, shown: string): State {
    if token !in s.cache then s
    else
      var entry := s.cache[token];
      var taken := Take(s, token, next, shown);
      if Match(shown, entry) then Finish(taken, r, token, entry) else taken
  }

  function Apply(s: State, step: Step): State
    requires Enabled(s, step)
  {
    match step
    case Begin(r, name) => At(s, r, Guarding(name)).(seen := s.seen + {r})
    case GuardAnswers(r, proceed, valid) =>
      var name := s.inflight[r].name;
      if !proceed then Ended(s, r)
      else if !valid then Note(Ended(s, r), Guarded(r, name))
      else Note(Note(At(s, r, Weighing(name)), Guarded(r, name)), Validated(r, name))
    case FeasibleAnswers(r, feasible) =>
      var name := s.inflight[r].name;
      if feasible then Note(At(s, r, Processing(name)), FoundFeasible(r, name)) else Ended(s, r)
    case ProcessAnswers(r, made) =>
      var name := s.inflight[r].name;
      if made.None? then Ended(s, r)
      else if made.value.secondaryAction then At(s, r, Gathering(name))
      else Note(Ended(s, r), Finalized(r, made.value.token, name, map[], Immediate))
    case ElementsArrive(r, fetched) =>
      var name := s.inflight[r].name;
      if fetched.None? || !fetched.value.0.secondaryAction then Ended(s, r)
      else
        var (tobj, elements) := fetched.value;
        Keep(Ended(s, r), r, name, tobj, elements, FinalName(tobj, name))
    case Redeem(r, presented, next, shown) =>
      var u := s.(seen := s.seen + {r});
      if presented.None? then u else AfterRedeem(u, r, presented.value, next, shown)
    case WebSocket(r, name, token, feasible) =>
      var u := s.(seen := s.seen + {r});
      if feasible then Note(Note(u, FoundFeasible(r, name)), Finalized(r, token, name, map[], OverWebSocket)) else u
    case Sweep(maxCacheTime, now) =>
      var kept := Swept(s.cache, maxCacheTime, now);
      Note(s.(cache := kept), Dropped(s.cache.Keys - kept.Keys))
  }

  // ---- what the log proves -------------------------------------------------------------------

  ghost predicate GuardedBefore(log: seq<Event>, k: nat, r: Req, name: string) {
    exists a :: 0 <= a < k && a < |log| && log[a] == Guarded(r, name)
  }

  ghost predicate ValidatedBefore(log: seq<Event>, k: nat, r: Req, name: string) {
    exists b :: 0 <= b < k && b < |log| && log[b] == Validated(r, name) && GuardedBefore(log, b, r, name)
  }

  /** Before position k, request r passed the guard, then validation, then the feasibility test. */
  ghost predicate Vetted(log: seq<Event>, k: nat, r: Req, name: string) {
    exists c :: 0 <= c < k && c < |log| && log[c] == FoundFeasible(r, name) && ValidatedBefore(log, c, r, name)
  }

  /** e ends the time for which an earlier entry stays cached under token t. */
  predicate Closes(e: Event, t: string) {
    (e.Kept? && e.token == t) || (e.Redeemed? && e.token == t && !e.next) || (e.Dropped? && t in e.gone)
  }

  /** The entry cached under t at position k is still there at the end of the log. */
  ghost predicate OpenSince(log: seq<Event>, t: string, k: nat) {
    k < |log| && log[k].Kept? && log[k].token == t && forall j | k < j < |log| :: !Closes(log[j], t)
  }

  /** Event i - 1 redeems this token, and the client showed the `match` element that is finalized with. */
  predicate Redeems(log: seq<Event>, i: nat, token: string, elements: Elements)
    requires i < |log|
  {
    && i > 0 && log[i - 1].Redeemed? && log[i - 1].token == token
    && "match" in elements && elements["match"] == log[i - 1].shown != ""
  }

  /**
   * Finalization i comes right after a redemption of its token with the right match, and the entry redeemed is one
   * that a vetted request cached under this token, name and elements, and that was still open then.
   */
  ghost predicate Earned(log: seq<Event>, i: nat)
    requires i < |log| && log[i].Finalized?
  {
    && Redeems(log, i, log[i].token, log[i].elements)
    && exists k: nat :: k < i - 1 && OpenSince(log[..i - 1], log[i].token, k)
                        && Vetted(log, k, log[k].req, log[k].asked)
                        && log[k].name == log[i].name && log[k].elements == log[i].elements
  }

  /** Finalization i comes right after its own request was found feasible. */
  predicate JustFeasible(log: seq<Event>, i: nat)
    requires i < |log| && log[i].Finalized?
  {
    i > 0 && log[i - 1] == FoundFeasible(log[i].req, log[i].name)
  }

  ghost predicate LogOk(log: seq<Event>) {
    forall i | 0 <= i < |log| && log[i].Finalized? ::
      && (log[i].way.Secondary? ==> Earned(log, i))
      && (log[i].way.Immediate? ==> Vetted(log, i, log[i].req, log[i].name))
      && (log[i].way.OverWebSocket? ==> JustFeasible(log, i))
  }

  ghost predicate PhaseOk(log: seq<Event>, r: Req, p: Phase) {
    && (p.Weighing? ==> ValidatedBefore(log, |log|, r, p.name))
    && (p.Processing? || p.Gathering? ==> Vetted(log, |log|, r, p.name))
  }

  /** A cached entry is one that the log left open. */
  ghost predicate EntryOk(log: seq<Event>, t: string, entry: Cached) {
    exists k: nat :: OpenSince(log, t, k) && Vetted(log, k, log[k].req, log[k].asked)
                     && log[k].name == entry.kind && log[k].elements == entry.elements
  }

  ghost predicate PhasesOk(log: seq<Event>, inflight: map<Req, Phase>) {
    forall r | r in inflight :: PhaseOk(log, r, inflight[r])
  }

  ghost predicate HasOpen(log: seq<Event>, t: string) {
    exists k: nat :: OpenSince(log, t, k)
  }

  /** The cache is what the log says it is. */
  ghost predicate CacheOk(log: seq<Event>, cache: Cache) {
    EntriesOk(log, cache) && forall t | HasOpen(log, t) :: t in cache
  }

  ghost predicate EntriesOk(log: seq<Event>, cache: Cache) {
    forall t | t in cache :: EntryOk(log, t, cache[t])
  }

  ghost predicate Inv(s: State) {
    LogOk(s.log) && s.inflight.Keys <= s.seen && PhasesOk(s.log, s.inflight) && CacheOk(s.log, s.cache)
  }

  // ---- how the log's facts survive another event ------------------------------------------------

  lemma AdmittedStays(log: seq<Event>, e: Event, k: nat, m: nat, r: Req, name: string)
    requires k <= m
    ensures GuardedBefore(log, k, r, name) ==> GuardedBefore(log + [e], m, r, name)
    ensures ValidatedBefore(log, k, r, name) ==> ValidatedBefore(log + [e], m, r, name)
  {
    if GuardedBefore(log, k, r, name) {
      var a :| 0 <= a < k && a < |log| && log[a] == Guarded(r, name);
      assert (log + [e])[a] == log[a];
    }
    if ValidatedBefore(log, k, r, name) {
      var b :| 0 <= b < k && b < |log| && log[b] == Validated(r, name) && GuardedBefore(log, b, r, name);
      assert (log + [e])[b] == log[b];
      var a :| 0 <= a < b && a < |log| && log[a] == Guarded(r, name);
      assert (log + [e])[a] == log[a];
    }
  }

  lemma VettedStays(log: seq<Event>, e: Event, k: nat, m: nat, r: Req, name: string)
    requires Vetted(log, k, r, name) && k <= m
    ensures Vetted(log + [e], m, r, name)
  {
    var c :| 0 <= c < k && c < |log| && log[c] == FoundFeasible(r, name) && ValidatedBefore(log, c, r, name);
    assert (log + [e])[c] == log[c];
    AdmittedStays(log, e, c, c, r, name);
  }

  lemma OpenStays(log: seq<Event>, e: Event, t: string, k: nat)
    requires k < |log|
    ensures OpenSince(log + [e], t, k) <==> OpenSince(log, t, k) && !Closes(e, t)
  {
    var m := log + [e];
    assert m[|log|] == e && forall j | 0 <= j < |log| :: m[j] == log[j];
  }

  lemma EarnedStays(log: seq<Event>, e: Event, i: nat)
    requires i < |log| && log[i].Finalized? && Earned(log, i)
    ensures Earned(log + [e], i)
  {
    var k: nat :| k < i - 1 && OpenSince(log[..i - 1], log[i].token, k) && Vetted(log, k, log[k].req, log[k].asked)
                  && log[k].name == log[i].name && log[k].elements == log[i].elements;
    VettedStays(log, e, k, k, log[k].req, log[k].asked);
    assert (log + [e])[..i - 1] == log[..i - 1] && (log + [e])[i - 1] == log[i - 1];
  }

  lemma LogStays(log: seq<Event>, e: Event)
    requires LogOk(log)
    requires e.Finalized? && e.way.Secondary? ==> Earned(log + [e], |log|)
    requires e.Finalized? && e.way.Immediate? ==> Vetted(log, |log|, e.req, e.name)
    requires e.Finalized? && e.way.OverWebSocket? ==> JustFeasible(log + [e], |log|)
    ensures LogOk(log + [e])
  {
    var m := log + [e];
    forall i | 0 <= i < |m| && m[i].Finalized?
      ensures m[i].way.Secondary? ==> Earned(m, i)
      ensures m[i].way.Immediate? ==> Vetted(m, i, m[i].req, m[i].name)
      ensures m[i].way.OverWebSocket? ==> JustFeasible(m, i)
    {
      if i < |log| {
        assert m[i] == log[i] && (i > 0 ==> m[i - 1] == log[i - 1]);
        if m[i].way.Secondary? { EarnedStays(log, e, i); }
        if m[i].way.Immediate? { VettedStays(log, e, i, i, m[i].req, m[i].name); }
      } else if e.way.Immediate? {
        VettedStays(log, e, |log|, |log|, e.req, e.name);
      }
    }
  }

  lemma PhaseStays(log: seq<Event>, e: Event, r: Req, p: Phase)
    requires PhaseOk(log, r, p)
    ensures PhaseOk(log + [e], r, p)
  {
    if p.Weighing? { AdmittedStays(log, e, |log|, |log| + 1, r, p.name); }
    if p.Processing? || p.Gathering? { VettedStays(log, e, |log|, |log| + 1, r, p.name); }
  }

  lemma EntryStays(log: seq<Event>, e: Event, t: string, entry: Cached)
    requires EntryOk(log, t, entry) && !Closes(e, t)
    ensures EntryOk(log + [e], t, entry)
  {
    var k: nat :| OpenSince(log, t, k) && Vetted(log, k, log[k].req, log[k].asked)
                  && log[k].name == entry.kind && log[k].elements == entry.elements;
    OpenStays(log, e, t, k);
    VettedStays(log, e, k, k, log[k].req, log[k].asked);
    assert (log + [e])[k] == log[k];
  }

  lemma PhasesStay(log: seq<Event>, e: Event, inflight: map<Req, Phase>)
    requires PhasesOk(log, inflight)
    ensures PhasesOk(log + [e], inflight)
  {
    forall r | r in inflight ensures PhaseOk(log + [e], r, inflight[r]) { PhaseStays(log, e, r, inflight[r]); }
  }

  lemma HasOpenStays(log: seq<Event>, e: Event, t: string)
    ensures HasOpen(log + [e], t) ==> (HasOpen(log, t) && !Closes(e, t)) || (e.Kept? && e.token == t)
  {
    if k: nat :| OpenSince(log + [e], t, k) {
      if k < |log| { OpenStays(log, e, t, k); } else { assert (log + [e])[k] == e; }
    }
  }

  /** The entries an event leaves in the cache. */
  function Surviving(cache: Cache, e: Event): Cache {
    map t | t in cache && !Closes(e, t) :: cache[t]
  }

  lemma CacheStays(log: seq<Event>, e: Event, cache: Cache)
    requires CacheOk(log, cache) && !e.Kept?
    ensures CacheOk(log + [e], Surviving(cache, e))
  {
    forall t | t in Surviving(cache, e) ensures EntryOk(log + [e], t, cache[t]) { EntryStays(log, e, t, cache[t]); }
    forall t { HasOpenStays(log, e, t); }
  }

  lemma NewEntryOk(log: seq<Event>, e: Event, entry: Cached)
    requires e.Kept? && Vetted(log, |log|, e.req, e.asked) && entry.kind == e.name && entry.elements == e.elements
    ensures EntryOk(log + [e], e.token, entry)
  {
    VettedStays(log, e, |log|, |log|, e.req, e.asked);
    assert (log + [e])[|log|] == e && OpenSince(log + [e], e.token, |log|);
  }

  lemma EntriesGain(log: seq<Event>, e: Event, cache: Cache, entry: Cached)
    requires EntriesOk(log, cache) && e.Kept? && EntryOk(log + [e], e.token, entry)
    ensures EntriesOk(log + [e], cache[e.token := entry])
  {
    var all := cache[e.token := entry];
    forall t | t in all ensures EntryOk(log + [e], t, all[t]) {
      if t != e.token { EntryStays(log, e, t, cache[t]); }
    }
  }

  lemma CacheGains(log: seq<Event>, e: Event, cache: Cache, entry: Cached)
    requires CacheOk(log, cache) && e.Kept? && Vetted(log, |log|, e.req, e.asked)
    requires entry.kind == e.name && entry.elements == e.elements
    ensures CacheOk(log + [e], cache[e.token := entry])
  {
    NewEntryOk(log, e, entry);
    EntriesGain(log, e, cache, entry);
    forall t | HasOpen(log + [e], t) ensures t in cache[e.token := entry] { HasOpenStays(log, e, t); }
  }

  /** Appending an event that caches nothing; a finalization has to be justified. */
  lemma NoteKeeps(s: State, e: Event)
    requires Inv(s) && !e.Kept?
    requires e.Finalized? && e.way.Secondary? ==> Earned(s.log + [e], |s.log|)
    requires e.Finalized? && e.way.Immediate? ==> Vetted(s.log, |s.log|, e.req, e.name)
    requires e.Finalized? && e.way.OverWebSocket? ==> JustFeasible(s.log + [e], |s.log|)
    ensures Inv(Note(s, e).(cache := Surviving(s.cache, e)))
  {
    LogStays(s.log, e);
    PhasesStay(s.log, e, s.inflight);
    CacheStays(s.log, e, s.cache);
  }

  /** The same for an event that closes nothing. */
  lemma QuietNoteKeeps(s: State, e: Event)
    requires Inv(s) && !e.Kept? && !e.Redeemed? && !e.Dropped?
    requires e.Finalized? && e.way.Secondary? ==> Earned(s.log + [e], |s.log|)
    requires e.Finalized? && e.way.Immediate? ==> Vetted(s.log, |s.log|, e.req, e.name)
    requires e.Finalized? && e.way.OverWebSocket? ==> JustFeasible(s.log + [e], |s.log|)
    ensures Inv(Note(s, e))
  {
    NoteKeeps(s, e);
    assert Surviving(s.cache, e) == s.cache;
  }

  lemma KeepKeeps(s: State, r: Req, name: string, tobj: TObj, elements: Elements, kind: string)
    requires Inv(s) && Vetted(s.log, |s.log|, r, name)
    ensures Inv(Keep(s, r, name, tobj, elements, kind))
  {
    var e := Kept(r, name, tobj.token, kind, elements);
    LogStays(s.log, e);
    PhasesStay(s.log, e, s.inflight);
    CacheGains(s.log, e, s.cache, Stamped(Cached(tobj, elements, kind, 0)));
  }

  // ---- every step keeps the invariant --------------------------------------------------------------

  lemma EndKeeps(s: State, r: Req)
    requires Inv(s)
    ensures Inv(Ended(s, r))
  {}

  lemma AtKeeps(s: State, r: Req, p: Phase)
    requires Inv(s) && PhaseOk(s.log, r, p)
    ensures Inv(At(s, r, p).(seen := s.seen + {r}))
  {}

  lemma GuardKeeps(s: State, r: Req)
    requires Inv(s) && r in s.inflight && s.inflight[r].Guarding?
    ensures Inv(Apply(s, GuardAnswers(r, true, true)))
  {
    var name := s.inflight[r].name;
    var s1 := Note(s, Guarded(r, name));
    var s2 := Note(s1, Validated(r, name));
    QuietNoteKeeps(s, Guarded(r, name));
    QuietNoteKeeps(s1, Validated(r, name));
    var n := |s.log|;
    assert s2.log[n] == Guarded(r, name) && s2.log[n + 1] == Validated(r, name);
    assert s2.seen + {r} == s2.seen;
    AtKeeps(s2, r, Weighing(name));
  }

  lemma FeasibleKeeps(s: State, r: Req)
    requires Inv(s) && r in s.inflight && s.inflight[r].Weighing?
    ensures Inv(Apply(s, FeasibleAnswers(r, true)))
  {
    var name := s.inflight[r].name;
    assert PhaseOk(s.log, r, s.inflight[r]);
    var s1 := Note(s, FoundFeasible(r, name));
    QuietNoteKeeps(s, FoundFeasible(r, name));
    AdmittedStays(s.log, FoundFeasible(r, name), |s.log|, |s.log|, r, name);
    assert s1.log[|s.log|] == FoundFeasible(r, name);
    assert s1.seen + {r} == s1.seen;
    AtKeeps(s1, r, Processing(name));
  }

  /** An entry that the log accounts for makes its redemption earned. */
  lemma OpenEarns(log: seq<Event>, k: nat, e: Event, f: Event)
    requires e.Redeemed? && f.Finalized? && e.token == f.token
    requires "match" in f.elements && f.elements["match"] == e.shown != ""
    requires OpenSince(log, f.token, k) && Vetted(log, k, log[k].req, log[k].asked)
    requires log[k].name == f.name && log[k].elements == f.elements
    ensures Earned(log + [e] + [f], |log| + 1)
  {
    VettedStays(log, e, k, k, log[k].req, log[k].asked);
    VettedStays(log + [e], f, k, k, log[k].req, log[k].asked);
    var m := log + [e] + [f];
    assert m[..|log|] == log && m[k] == log[k];
  }

  lemma EntryEarns(log: seq<Event>, entry: Cached, e: Event, f: Event)
    requires e.Redeemed? && f.Finalized? && e.token == f.token
    requires "match" in f.elements && f.elements["match"] == e.shown != ""
    requires EntryOk(log, f.token, entry) && f.name == entry.kind && f.elements == entry.elements
    ensures Earned(log + [e] + [f], |log| + 1)
  {
    var k: nat :| OpenSince(log, f.token, k) && Vetted(log, k, log[k].req, log[k].asked)
                  && log[k].name == f.name && log[k].elements == f.elements;
    OpenEarns(log, k, e, f);
  }

  lemma CacheAfterRedeeming(cache: Cache, token: string, next: bool, shown: string)
    ensures Surviving(cache, Redeemed(token, next, shown)) == if next then cache else cache - {token}
  {}

  lemma TakeKeeps(s: State, token: string, next: bool, shown: string)
    requires Inv(s)
    ensures Inv(Take(s, token, next, shown))
  {
    NoteKeeps(s, Redeemed(token, next, shown));
    CacheAfterRedeeming(s.cache, token, next, shown);
  }

  lemma LogsAfterRedeeming(s: State, r: Req, token: string, next: bool, shown: string, entry: Cached)
    ensures var e, f := Redeemed(token, next, shown), Finalized(r, token, entry.kind, entry.elements, Secondary);
            && Take(s, token, next, shown).log == s.log + [e]
            && Finish(Take(s, token, next, shown), r, token, entry).log == s.log + [e] + [f]
  {}

  lemma TakenEarns(s: State, r: Req, token: string, next: bool, shown: string, entry: Cached)
    requires EntryOk(s.log, token, entry) && Match(shown, entry)
    ensures var f := Finalized(r, token, entry.kind, entry.elements, Secondary);
            Earned(s.log + [Redeemed(token, next, shown)] + [f], |s.log| + 1)
  {
    EntryEarns(s.log, entry, Redeemed(token, next, shown), Finalized(r, token, entry.kind, entry.elements, Secondary));
  }

  lemma FinishKeeps(s: State, r: Req, token: string, next: bool, shown: string, entry: Cached)
    requires Inv(Take(s, token, next, shown)) && EntryOk(s.log, token, entry) && Match(shown, entry)
    ensures Inv(Finish(Take(s, token, next, shown), r, token, entry))
  {
    TakenEarns(s, r, token, next, shown, entry);
    LogsAfterRedeeming(s, r, token, next, shown, entry);
    QuietNoteKeeps(Take(s, token, next, shown), Finalized(r, token, entry.kind, entry.elements, Secondary));
  }

  lemma CachedIsOk(s: State, token: string)
    requires Inv(s) && token in s.cache
    ensures EntryOk(s.log, token, s.cache[token])
  {}

  lemma RedeemKeeps(s: State, r: Req, token: string, next: bool, shown: string)
    requires Inv(s)
    ensures Inv(AfterRedeem(s, r, token, next, shown))
  {
    if token in s.cache {
      TakeKeeps(s, token, next, shown);
      if Match(shown, s.cache[token]) {
        CachedIsOk(s, token);
        FinishKeeps(s, r, token, next, shown, s.cache[token]);
      }
    }
  }

  lemma FinalizeKeeps(s: State, r: Req, token: string, name: string)
    requires Inv(s) && Vetted(s.log, |s.log|, r, name)
    ensures Inv(Note(s, Finalized(r, token, name, map[], Immediate)))
  {
    QuietNoteKeeps(s, Finalized(r, token, name, map[], Immediate));
  }

  lemma ProcessKeeps(s: State, r: Req, made: Option<TObj>)
    requires Inv(s) && Enabled(s, ProcessAnswers(r, made))
    ensures Inv(Apply(s, ProcessAnswers(r, made)))
  {
    assert PhaseOk(s.log, r, s.inflight[r]);
    EndKeeps(s, r);
    if made.Some? && made.value.secondaryAction {
      assert s.seen + {r} == s.seen;
      AtKeeps(s, r, Gathering(s.inflight[r].name));
    } else if made.Some? {
      FinalizeKeeps(Ended(s, r), r, made.value.token, s.inflight[r].name);
    }
  }

  lemma ElementsKeep(s: State, r: Req, fetched: Option<(TObj, Elements)>)
    requires Inv(s) && Enabled(s, ElementsArrive(r, fetched))
    ensures Inv(Apply(s, ElementsArrive(r, fetched)))
  {
    assert PhaseOk(s.log, r, s.inflight[r]);
    EndKeeps(s, r);
    if fetched.Some? && fetched.value.0.secondaryAction {
      var name := s.inflight[r].name;
      KeepKeeps(Ended(s, r), r, name, fetched.value.0, fetched.value.1, FinalName(fetched.value.0, name));
    }
  }

  lemma CacheAfterSweep(cache: Cache, maxCacheTime: int, now: int)
    ensures var kept := Swept(cache, maxCacheTime, now);
            Surviving(cache, Dropped(cache.Keys - kept.Keys)) == kept
  {}

  lemma SweepKeeps(s: State, maxCacheTime: int, now: int)
    requires Inv(s)
    ensures Inv(Apply(s, Sweep(maxCacheTime, now)))
  {
    NoteKeeps(s, Dropped(s.cache.Keys - Swept(s.cache, maxCacheTime, now).Keys));
    CacheAfterSweep(s.cache, maxCacheTime, now);
  }

  lemma GuardAnswerKeeps(s: State, r: Req, proceed: bool, valid: bool)
    requires Inv(s) && Enabled(s, GuardAnswers(r, proceed, valid))
    ensures Inv(Apply(s, GuardAnswers(r, proceed, valid)))
  {
    EndKeeps(s, r);
    if proceed && valid { GuardKeeps(s, r); } else { QuietNoteKeeps(Ended(s, r), Guarded(r, s.inflight[r].name)); }
  }

  lemma WebSocketKeeps(s: State, r: Req, name: string, token: string, feasible: bool)
    requires Inv(s) && Enabled(s, WebSocket(r, name, token, feasible))
    ensures Inv(Apply(s, WebSocket(r, name, token, feasible)))
  {
    SeenKeeps(s, r);
    var u := s.(seen := s.seen + {r});
    QuietNoteKeeps(u, FoundFeasible(r, name));
    QuietNoteKeeps(Note(u, FoundFeasible(r, name)), Finalized(r, token, name, map[], OverWebSocket));
  }

  lemma StepKeeps(s: State, step: Step)
    requires Inv(s) && Enabled(s, step)
    ensures Inv(Apply(s, step))
  {
    match step
    case Begin(r, name) => AtKeeps(s, r, Guarding(name));
    case GuardAnswers(r, proceed, valid) => GuardAnswerKeeps(s, r, proceed, valid);
    case FeasibleAnswers(r, feasible) => if feasible { FeasibleKeeps(s, r); } else { EndKeeps(s, r); }
    case ProcessAnswers(r, made) => ProcessKeeps(s, r, made);
    case ElementsArrive(r, fetched) => ElementsKeep(s, r, fetched);
    case Redeem(r, presented, next, shown) =>
      SeenKeeps(s, r);
      if presented.Some? { RedeemKeeps(s.(seen := s.seen + {r}), r, presented.value, next, shown); }
    case WebSocket(r, name, token, feasible) => WebSocketKeeps(s, r, name, token, feasible);
    case Sweep(maxCacheTime, now) => SweepKeeps(s, maxCacheTime, now);
  }

  lemma SeenKeeps(s: State, r: Req)
    requires Inv(s)
    ensures Inv(s.(seen := s.seen + {r}))
  {}

  // ---- runs ---------------------------------------------------------------------------------------

  ghost predicate Possible(s: State, steps: seq<Step>)
    decreases |steps|
  {
    steps != [] ==> Enabled(s, steps[0]) && Possible(Apply(s, steps[0]), steps[1..])
  }

  function Run(s: State, steps: seq<Step>): State
    requires Possible(s, steps)
    decreases |steps|
  {
    if steps == [] then s else Run(Apply(s, steps[0]), steps[1..])
  }

  lemma {:induction false} RunKeeps(s: State, steps: seq<Step>)
    requires Inv(s) && Possible(s, steps)
    ensures Inv(Run(s, steps))
    decreases |steps|
  {
    if steps != [] {
      StepKeeps(s, steps[0]);
      RunKeeps(Apply(s, steps[0]), steps[1..]);
    }
  }

  /**
   * In every interleaving, a secondary finalization directly follows a redemption of its token by a client that
   * showed the `match` element cached with it, which is not empty. It uses exactly the name and elements that a
   * request cached under the token after passing the guard, validation and feasibility in that order; nothing took
   * that entry out of the cache between its caching and this redemption. An immediate finalization has passed the
   * same three tests; one over a websocket directly follows its feasibility test.
   */
  lemma FinalizationSafety(steps: seq<Step>)
    requires Possible(Init(), steps)
    ensures LogOk(Run(Init(), steps).log)
  {
    RunKeeps(Init(), steps);
  }

  /** At every moment the cache holds exactly the tokens whose last entry the log leaves open. */
  lemma CacheIsOpenEntries(steps: seq<Step>, t: string)
    requires Possible(Init(), steps)
    ensures var s := Run(Init(), steps); t in s.cache <==> HasOpen(s.log, t)
  {
    RunKeeps(Init(), steps);
    var s := Run(Init(), steps);
    if t in s.cache { assert EntryOk(s.log, t, s.cache[t]); }
  }

  /**
   * A redemption without `next` spends the token, whether or not its match was right: it allows at most the
   * finalization that follows it at once, and any later one has the token cached anew before it.
   */
  lemma FinalizedOncePerCaching(steps: seq<Step>, p: nat, j: nat)
    requires Possible(Init(), steps)
    requires var log := Run(Init(), steps).log;
             && p + 1 < j < |log| && log[p].Redeemed? && !log[p].next
             && log[j].Finalized? && log[j].way.Secondary? && log[j].token == log[p].token
    ensures var log := Run(Init(), steps).log;
            exists k :: p < k < j && log[k].Kept? && log[k].token == log[p].token
  {
    FinalizationSafety(steps);
    var log := Run(Init(), steps).log;
    assert Earned(log, j);
    var k: nat :| k < j - 1 && OpenSince(log[..j - 1], log[j].token, k);
    assert log[k] == log[..j - 1][k];
    assert log[..j - 1][p] == log[p] && Closes(log[p], log[j].token);
    assert k > p;
  }

  // ---- what one step does ---------------------------------------------------------------------------

  /** The step bears the event out: an answer is noted only when the application gave it. */
  predicate Tells(step: Step, e: Event) {
    match e
    case Guarded(r, _) => step.GuardAnswers? && step.req == r && step.proceed
    case Validated(r, _) => step.GuardAnswers? && step.req == r && step.proceed && step.valid
    case FoundFeasible(r, name) =>
      || (step.FeasibleAnswers? && step.req == r && step.feasible)
      || (step.WebSocket? && step.req == r && step.name == name && step.feasible)
    case Kept(r, asked, token, name, elements) =>
      && step.ElementsArrive? && step.req == r && step.fetched.Some?
      && var (tobj, el) := step.fetched.value;
         && tobj.secondaryAction && tobj.token == token && el == elements
         && name == if tobj.transition.Some? then tobj.transition.value else asked
    case Redeemed(token, next, shown) =>
      step.Redeem? && step.presented == Some(token) && step.next == next && step.shown == shown
    case Dropped(_) => step.Sweep?
    case Finalized(r, token, name, el, way) =>
      match way
      case Immediate =>
        && step.ProcessAnswers? && step.req == r
        && step.made.Some? && !step.made.value.secondaryAction && step.made.value.token == token
      case Secondary =>
        && step.Redeem? && step.req == r && step.presented == Some(token)
        && step.shown != "" && "match" in el && el["match"] == step.shown
      case OverWebSocket => step == WebSocket(r, name, token, true)
  }

  lemma MoreTells(log: seq<Event>, more: seq<Event>, step: Step)
    requires forall i | 0 <= i < |more| :: Tells(step, more[i])
    ensures |log| <= |log + more| && (log + more)[..|log|] == log
    ensures forall i | |log| <= i < |log + more| :: Tells(step, (log + more)[i])
  {}

  /** What a step notes. */
  function Noted(s: State, step: Step): seq<Event>
    requires Enabled(s, step)
  {
    match step
    case Begin(_, _) => []
    case GuardAnswers(r, proceed, valid) =>
      var name := s.inflight[r].name;
      if !proceed then [] else if !valid then [Guarded(r, name)] else [Guarded(r, name), Validated(r, name)]
    case FeasibleAnswers(r, feasible) => if feasible then [FoundFeasible(r, s.inflight[r].name)] else []
    case ProcessAnswers(r, made) =>
      if made.None? || made.value.secondaryAction then []
      else [Finalized(r, made.value.token, s.inflight[r].name, map[], Immediate)]
    case ElementsArrive(r, fetched) =>
      if fetched.None? || !fetched.value.0.secondaryAction then []
      else
        var (tobj, el) := fetched.value;
        [Kept(r, s.inflight[r].name, tobj.token, FinalName(tobj, s.inflight[r].name), el)]
    case Redeem(r, presented, next, shown) =>
      if presented.None? || presented.value !in s.cache then []
      else
        var token, entry := presented.value, s.cache[presented.value];
        [Redeemed(token, next, shown)] +
        if Match(shown, entry) then [Finalized(r, token, entry.kind, entry.elements, Secondary)] else []
    case WebSocket(r, name, token, feasible) =>
      if feasible then [FoundFeasible(r, name), Finalized(r, token, name, map[], OverWebSocket)] else []
    case Sweep(maxCacheTime, now) => [Dropped(s.cache.Keys - Swept(s.cache, maxCacheTime, now).Keys)]
  }

  lemma StepNotes(s: State, step: Step)
    requires Enabled(s, step)
    ensures Apply(s, step).log == s.log + Noted(s, step)
  {}

  lemma NotedTells(s: State, step: Step)
    requires Enabled(s, step)
    ensures forall i | 0 <= i < |Noted(s, step)| :: Tells(step, Noted(s, step)[i])
  {}

  /** A step only adds to the log, and only what it bears out. */
  lemma StepTells(s: State, step: Step)
    requires Enabled(s, step)
    ensures var t := Apply(s, step);
            && |s.log| <= |t.log| && t.log[..|s.log|] == s.log
            && forall i | |s.log| <= i < |t.log| :: Tells(step, t.log[i])
  {
    StepNotes(s, step);
    NotedTells(s, step);
    MoreTells(s.log, Noted(s, step), step);
  }

  /** Every event of every run goes back to a step that bears it out. */
  lemma {:induction false} EventHasStep(s: State, steps: seq<Step>, i: nat) returns (j: nat)
    requires Possible(s, steps) && |s.log| <= i < |Run(s, steps).log|
    ensures j < |steps| && Tells(steps[j], Run(s, steps).log[i])
    decreases |steps|
  {
    if steps == [] {
      assert false;
    } else {
      var t := Apply(s, steps[0]);
      StepTells(s, steps[0]);
      if i < |t.log| {
        LogGrows(t, steps[1..]);
        assert Run(t, steps[1..]).log[..|t.log|][i] == t.log[i];
        j := 0;
      } else {
        var l := EventHasStep(t, steps[1..], i);
        j := l + 1;
      }
    }
  }

  lemma {:induction false} LogGrows(s: State, steps: seq<Step>)
    requires Possible(s, steps)
    ensures |s.log| <= |Run(s, steps).log| && Run(s, steps).log[..|s.log|] == s.log
    decreases |steps|
  {
    if steps != [] {
      var t := Apply(s, steps[0]);
      StepTells(s, steps[0]);
      LogGrows(t, steps[1..]);
      assert Run(t, steps[1..]).log[..|t.log|][..|s.log|] == Run(t, steps[1..]).log[..|s.log|];
    }
  }

  /** A primary request goes on to the next test exactly when the application lets it, with the name it asked for. */
  lemma PrimaryGoesOnIff(s: State, step: Step)
    requires Enabled(s, step) && !step.ElementsArrive? && !step.Redeem? && !step.WebSocket? && !step.Sweep?
    ensures var r, t := step.req, Apply(s, step);
            && t.cache == s.cache
            && match step {
                 case Begin(_, name) => r in t.inflight && t.inflight[r] == Guarding(name) && t.log == s.log
                 case GuardAnswers(_, proceed, valid) =>
                   && (r in t.inflight <==> proceed && valid)
                   && (r in t.inflight ==>
                         && t.inflight[r] == Weighing(s.inflight[r].name)
                         && t.log == s.log + [Guarded(r, s.inflight[r].name), Validated(r, s.inflight[r].name)])
                 case FeasibleAnswers(_, feasible) =>
                   && (r in t.inflight <==> feasible)
                   && (r in t.inflight ==>
                         && t.inflight[r] == Processing(s.inflight[r].name)
                         && t.log == s.log + [FoundFeasible(r, s.inflight[r].name)])
                 case ProcessAnswers(_, made) =>
                   && (r in t.inflight <==> made.Some? && made.value.secondaryAction)
                   && (r in t.inflight ==> t.inflight[r] == Gathering(s.inflight[r].name) && t.log == s.log)
                   && (made.Some? && !made.value.secondaryAction ==>
                         t.log == s.log + [Finalized(r, made.value.token, s.inflight[r].name, map[], Immediate)])
                 case _ => true
               }
  {}

  /** What is cached when the elements have arrived, if they have and a secondary action is still wanted. */
  lemma ElementsAreCachedIff(s: State, r: Req, fetched: Option<(TObj, Elements)>)
    requires Enabled(s, ElementsArrive(r, fetched))
    ensures var t := Apply(s, ElementsArrive(r, fetched));
            && r !in t.inflight
            && if fetched.Some? && fetched.value.0.secondaryAction then
                 var tobj, el := fetched.value.0, fetched.value.1;
                 var kind := if tobj.transition.Some? then tobj.transition.value else s.inflight[r].name;
                 && t.log == s.log + [Kept(r, s.inflight[r].name, tobj.token, kind, el)]
                 && tobj.token in t.cache
                 && t.cache[tobj.token].tobj == tobj.(sessionToken := "")
                 && t.cache[tobj.token].elements == el && t.cache[tobj.token].kind == kind
                 && t.cache[tobj.token].entryTime == tobj.entryTime
                 && (forall x | x != tobj.token :: x in t.cache <==> x in s.cache)
                 && (forall x | x != tobj.token && x in s.cache :: t.cache[x] == s.cache[x])
               else
                 t.cache == s.cache && t.log == s.log
  {}

  /**
   * A redemption finalizes the transition if and only if the token is cached with a `match` element, and that is what
   * the client showed, and not empty.
   */
  lemma RedeemFinalizesIff(s: State, r: Req, token: string, next: bool, shown: string)
    requires Enabled(s, Redeem(r, Some(token), next, shown))
    ensures var t := Apply(s, Redeem(r, Some(token), next, shown));
            if token !in s.cache then t.log == s.log
            else if "match" in s.cache[token].elements && s.cache[token].elements["match"] == shown && shown != "" then
              t.log == s.log + [Redeemed(token, next, shown),
                                Finalized(r, token, s.cache[token].kind, s.cache[token].elements, Secondary)]
            else
              t.log == s.log + [Redeemed(token, next, shown)]
  {}

  /** A websocket transition is finalized if and only if it is feasible. */
  lemma WebSocketFinalizesIff(s: State, r: Req, name: string, token: string, feasible: bool)
    requires Enabled(s, WebSocket(r, name, token, feasible))
    ensures var t := Apply(s, WebSocket(r, name, token, feasible));
            && t.cache == s.cache
            && t.log == if feasible then s.log + [FoundFeasible(r, name),
                                                  Finalized(r, token, name, map[], OverWebSocket)] else s.log
  {}

  /** A sweep drops exactly the entries that have an entry time and are too old. */
  lemma SweepDropsOld(s: State, maxCacheTime: int, now: int, t: string)
    ensures var u := Apply(s, Sweep(maxCacheTime, now));
            && (t in u.cache <==>
                  t in s.cache && (s.cache[t].entryTime == 0 || now - s.cache[t].entryTime <= maxCacheTime))
            && (t in u.cache ==> u.cache[t] == s.cache[t])
  {
    SweepKeepsYoung(s.cache, maxCacheTime, now, t);
  }

  lemma OpenIsOne(log: seq<Event>, t: string, k: nat, l: nat)
    requires OpenSince(log, t, k) && OpenSince(log, t, l)
    ensures k == l
  {}

  /**
   * The converse of safety, in every reachable state: an entry cached at event k and not closed since is finalized,
   * with its own name and elements, by any client that shows its `match` element.
   */
  lemma RightMatchIsFinalized(steps: seq<Step>, k: nat, r: Req, next: bool)
    requires Possible(Init(), steps)
    requires var log := Run(Init(), steps).log;
             && k < |log| && log[k].Kept? && OpenSince(log, log[k].token, k)
             && "match" in log[k].elements && log[k].elements["match"] != ""
    requires r !in Run(Init(), steps).seen
    ensures var s := Run(Init(), steps);
            var e := s.log[k];
            Apply(s, Redeem(r, Some(e.token), next, e.elements["match"])).log ==
              s.log + [Redeemed(e.token, next, e.elements["match"]),
                       Finalized(r, e.token, e.name, e.elements, Secondary)]
  {
    RunKeeps(Init(), steps);
    var s := Run(Init(), steps);
    var e := s.log[k];
    assert HasOpen(s.log, e.token);
    CachedIsOk(s, e.token);
    var l: nat :| OpenSince(s.log, e.token, l) && s.log[l].name == s.cache[e.token].kind
                  && s.log[l].elements == s.cache[e.token].elements;
    OpenIsOne(s.log, e.token, k, l);
    RedeemFinalizesIff(s, r, e.token, next, e.elements["match"]);
  }

  /** Redeeming with `next` keeps the entry for another redemption; redeeming without it removes just that entry. */
  lemma NextKeepsEntry(s: State, r: Req, token: string, next: bool, shown: string)
    requires Enabled(s, Redeem(r, Some(token), next, shown))
    ensures Apply(s, Redeem(r, Some(token), next, shown)).cache == if next then s.cache else s.cache - {token}
  {}
}
