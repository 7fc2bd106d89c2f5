/**
 * The transition handler. Every method is the code between two awaits of `transition_handler`,
 * `secondary_transition_handler` and `ws_transition`; what the application answers comes in as arguments,
 * and a call to `finalize_transition` is noted in the log with the arguments it is given.
 */
module TransitionProcessing {
  import opened Wrappers
  import opened ObjectCache
  import opened TransitionModel

  class TransitionHandling {
    const cache: LocalTObjectCache
    var inflight: map<Req, Phase>
    ghost var seen: set<Req>
    ghost var log: seq<Event>

    ghost function Model(): State
      reads this, cache
    {
      State(cache.cacheMap, inflight, seen, log)
    }

    constructor (cacheTime: int)
      ensures Model() == Init() && fresh(cache)
    {
      cache := new LocalTObjectCache(cacheTime);
      inflight, seen, log := map[], {}, [];
    }

    method TransitionHandler(req: Req, transition: string)
      requires Enabled(Model(), Begin(req, transition))
      modifies this
      ensures Model() == Apply(old(Model()), Begin(req, transition))
    {
      inflight := inflight[req := Guarding(transition)];
      seen := seen + {req};
    }

    /** True when the request goes on; otherwise it is answered as unavailable. */
    method AfterGuard(req: Req, proceed: bool, valid: bool) returns (goesOn: bool)
      requires Enabled(Model(), GuardAnswers(req, proceed, valid))
      modifies this
      ensures Model() == Apply(old(Model()), GuardAnswers(req, proceed, valid))
      ensures goesOn <==> req in inflight
      ensures goesOn <==> proceed && valid
    {
      var transition := inflight[req].name;
      inflight := inflight - {req};
      if !proceed {
        return false;
      }
      log := log + [Guarded(req, transition)];
      goesOn := valid;
      if valid {
        log := log + [Validated(req, transition)];
        inflight := inflight[req := Weighing(transition)];
      }
    }

    method AfterFeasible(req: Req, feasible: bool) returns (goesOn: bool)
      requires Enabled(Model(), FeasibleAnswers(req, feasible))
      modifies this
      ensures Model() == Apply(old(Model()), FeasibleAnswers(req, feasible))
      ensures goesOn <==> req in inflight
      ensures goesOn <==> feasible
    {
      var transition := inflight[req].name;
      inflight := inflight - {req};
      if feasible {
        log := log + [FoundFeasible(req, transition)];
        inflight := inflight[req := Processing(transition)];
      }
      goesOn := feasible;
    }

    /** A transition without a secondary action is finalized right away, under the token of its object. */
    method AfterProcess(req: Req, transitionObj: Option<TObj>) returns (goesOn: bool)
      requires Enabled(Model(), ProcessAnswers(req, transitionObj))
      modifies this
      ensures Model() == Apply(old(Model()), ProcessAnswers(req, transitionObj))
      ensures goesOn <==> req in inflight
      ensures goesOn <==> transitionObj.Some? && transitionObj.value.secondaryAction
    {
      var transition := inflight[req].name;
      inflight := inflight - {req};
      goesOn := false;
      if transitionObj.Some? {
        if transitionObj.value.secondaryAction {
          inflight := inflight[req := Gathering(transition)];
          goesOn := true;
        } else {
          var bodyToken := transitionObj.value.token;
          log := log + [Finalized(req, bodyToken, transition, map[], Immediate)];
        }
      }
    }

    method AfterElements(req: Req, fetched: Option<(TObj, Elements)>)
      requires Enabled(Model(), ElementsArrive(req, fetched))
      modifies this, cache
      ensures Model() == Apply(old(Model()), ElementsArrive(req, fetched))
    {
      var asked := inflight[req].name;
      inflight := inflight - {req};
      if fetched.Some? {
        var transitionObj, storeElements := fetched.value.0, fetched.value.1;
        var transition := if transitionObj.transition.Some? then transitionObj.transition.value else asked;
        if transitionObj.secondaryAction {
          cache.Add(transitionObj.token, Cached(transitionObj, storeElements, transition, 0));
          log := log + [Kept(req, asked, transitionObj.token, transition, storeElements)];
        }
      }
    }

    /** True when the transition was finalized; otherwise it is unavailable. */
    method SecondaryTransitionHandler(req: Req, token: Option<string>, next: bool, shown: string)
      returns (finalized: bool)
      requires Enabled(Model(), Redeem(req, token, next, shown))
      modifies this, cache
      ensures Model() == Apply(old(Model()), Redeem(req, token, next, shown))
      ensures finalized <==>
              && token.Some? && token.value in old(cache.cacheMap) && shown != ""
              && "match" in old(cache.cacheMap)[token.value].elements
              && old(cache.cacheMap)[token.value].elements["match"] == shown
      ensures finalized ==> |log| > 0 && log[|log| - 1].Finalized? && log[|log| - 1].token == token.value
    {
      seen := seen + {req};
      finalized := false;
      if token.Some? {
        var cachedTransition := cache.Fetch(token.value, next);
        if cachedTransition.Some? {
          log := log + [Redeemed(token.value, next, shown)];
          if Match(shown, cachedTransition.value) {
            var elements := cachedTransition.value.elements;
            log := log + [Finalized(req, token.value, cachedTransition.value.kind, elements, Secondary)];
            finalized := true;
          }
        } else {
          assert cache.cacheMap == old(cache.cacheMap);
        }
      }
    }

    method WsTransition(req: Req, transition: string, token: string, feasible: bool)
      requires Enabled(Model(), WebSocket(req, transition, token, feasible))
      modifies this
      ensures Model() == Apply(old(Model()), WebSocket(req, transition, token, feasible))
    {
      seen := seen + {req};
      if feasible {
        log := log + [FoundFeasible(req, transition)];
        log := log + [Finalized(req, token, transition, map[], OverWebSocket)];
      }
    }

    /** A message with a token is taken as a secondary request, one without as a primary. */
    method EndpointTransition(req: Req, transition: string, token: string, next: bool, shown: string)
      requires req !in seen
      modifies this, cache
      ensures Model() ==
              Apply(old(Model()), if token == "" then Begin(req, transition) else Redeem(req, Some(token), next, shown))
    {
      if token == "" {
        TransitionHandler(req, transition);
      } else {
        var _ := SecondaryTransitionHandler(req, Some(token), next, shown);
      }
    }

    method Timeout(now: int)
      modifies this, cache
      ensures Model() == Apply(old(Model()), Sweep(cache.maxCacheTime, now))
    {
      ghost var was := cache.cacheMap;
      cache.TimeoutTransitionCache(now);
      log := log + [Dropped(was.Keys - cache.cacheMap.Keys)];
    }
  }
}
