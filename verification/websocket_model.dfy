/**
 * Keeping track of which websocket clients still answer. A round pings every going session that has been
 * heard of and suspects every other one; a pong clears its sender; a sweep closes the suspects.
 */
module WebSocketModel {
  type Id = string

  /** alive holds the flag of every socket ever connected; closed is history: those a sweep has closed. */
  datatype State = State(alive: map<Id, bool>, going: set<Id>, suspects: set<Id>, closed: set<Id>)

  datatype Op = Connect(id: Id) | Round | Pong(id: Id) | Closed(id: Id) | Sweep

  const EMPTY := State(map[], {}, {}, {})

  predicate Silent(s: State, id: Id) {
    id in s.alive && !s.alive[id]
  }

  /** A round's visit to some of the going sessions: the silent ones are suspected, the others pinged. */
  function Visited(s: State, ids: set<Id>): State {
    s.(alive := map id | id in s.alive :: s.alive[id] && id !in ids,
       suspects := s.suspects + set id | id in ids && Silent(s, id))
  }

  function Swept(s: State, ids: set<Id>): State {
    s.(going := s.going - ids, suspects := s.suspects - ids, closed := s.closed + ids)
  }

  function Step(s: State, op: Op): State {
    match op
    case Connect(id) => if id in s.alive then s else s.(alive := s.alive[id := true], going := s.going + {id})
    case Round => Visited(s, s.going)
    case Pong(id) => if id in s.alive then s.(alive := s.alive[id := true], suspects := s.suspects - {id}) else s
    case Closed(id) => s.(going := s.going - {id})
    case Sweep => Swept(s, s.suspects)
  }

  function Run(ops: seq<Op>): State {
    if ops == [] then EMPTY else Step(Run(ops[..|ops| - 1]), ops[|ops| - 1])
  }

  // ---- what the trace says ------------------------------------------------------------------------

  /** Operation a is a round that pings id. */
  ghost predicate PingedAt(ops: seq<Op>, a: nat, id: Id) {
    a < |ops| && ops[a].Round? && id in Run(ops[..a]).going && id in Run(ops[..a]).alive && !Silent(Run(ops[..a]), id)
  }

  /** Operation b is a round in which id is still going. */
  ghost predicate RoundWith(ops: seq<Op>, b: nat, id: Id) {
    b < |ops| && ops[b].Round? && id in Run(ops[..b]).going
  }

  ghost predicate NoPongAfter(ops: seq<Op>, a: nat, id: Id) {
    forall c | a < c < |ops| :: ops[c] != Pong(id)
  }

  ghost predicate NoSweepAfter(ops: seq<Op>, b: nat) {
    forall c | b < c < |ops| :: !ops[c].Sweep?
  }

  ghost predicate UnansweredSince(ops: seq<Op>, a: nat, id: Id) {
    PingedAt(ops, a, id) && NoPongAfter(ops, a, id)
  }

  /** id was pinged, has not answered since, and a full later round found it so. */
  ghost predicate OverdueAt(ops: seq<Op>, b: nat, id: Id) {
    && RoundWith(ops, b, id) && NoPongAfter(ops, b, id) && NoSweepAfter(ops, b)
    && exists a: nat :: UnansweredSince(ops[..b], a, id)
  }

  lemma PrefixFacts(ops: seq<Op>, n: nat)
    requires n <= |ops|
    ensures forall a: nat | a <= n :: ops[..n][..a] == ops[..a]
  {}

  lemma UnansweredGrows(ops: seq<Op>, a: nat, id: Id)
    requires ops != []
    ensures var init := ops[..|ops| - 1];
            a < |init| ==> (UnansweredSince(ops, a, id) <==> UnansweredSince(init, a, id) && ops[|ops| - 1] != Pong(id))
  {
    PrefixFacts(ops, |ops| - 1);
  }

  /** A socket is silent exactly when some round pinged it and it has not answered since. */
  lemma {:induction false} SilentIffUnanswered(ops: seq<Op>, id: Id)
    ensures Silent(Run(ops), id) <==> exists a: nat :: UnansweredSince(ops, a, id)
    decreases |ops|
  {
    if ops != [] {
      var n := |ops| - 1;
      var init, op := ops[..n], ops[n];
      SilentIffUnanswered(init, id);
      forall a: nat { UnansweredGrows(ops, a, id); }
      if Silent(Run(ops), id) {
        if Silent(Run(init), id) {
          var a: nat :| UnansweredSince(init, a, id);
          assert UnansweredSince(ops, a, id);
        } else {
          assert UnansweredSince(ops, n, id);
        }
      }
      if a: nat :| UnansweredSince(ops, a, id) {
        if a < n { assert UnansweredSince(init, a, id); }
      }
    }
  }

  lemma OverdueGrows(ops: seq<Op>, b: nat, id: Id)
    requires ops != []
    ensures var init, op := ops[..|ops| - 1], ops[|ops| - 1];
            b < |init| ==> (OverdueAt(ops, b, id) <==> OverdueAt(init, b, id) && op != Pong(id) && !op.Sweep?)
  {
    PrefixFacts(ops, |ops| - 1);
  }

  /** The suspects are exactly the sockets with an unanswered ping, a full later round since, and no sweep yet. */
  lemma {:induction false} SuspectIffOverdue(ops: seq<Op>, id: Id)
    ensures id in Run(ops).suspects <==> exists b: nat :: OverdueAt(ops, b, id)
    decreases |ops|
  {
    if ops != [] {
      var n := |ops| - 1;
      var init, op := ops[..n], ops[n];
      SuspectIffOverdue(init, id);
      SilentIffUnanswered(init, id);
      forall b: nat { OverdueGrows(ops, b, id); }
      if id in Run(ops).suspects {
        if id in Run(init).suspects {
          var b: nat :| OverdueAt(init, b, id);
          if op == Pong(id) { PongedWereConnected(init, id); }
          assert OverdueAt(ops, b, id);
        } else {
          assert OverdueAt(ops, n, id);
        }
      }
      if b: nat :| OverdueAt(ops, b, id) {
        if b < n { assert OverdueAt(init, b, id); } else { assert Silent(Run(init), id); }
      }
    }
  }

  lemma {:induction false} PongedWereConnected(ops: seq<Op>, id: Id)
    ensures id in Run(ops).going || id in Run(ops).suspects ==> id in Run(ops).alive
    decreases |ops|
  {
    if ops != [] { PongedWereConnected(ops[..|ops| - 1], id); }
  }

  /** In every run every suspect is silent. */
  lemma {:induction false} SuspectsAreSilent(ops: seq<Op>, id: Id)
    ensures id in Run(ops).suspects ==> Silent(Run(ops), id)
    decreases |ops|
  {
    if ops != [] {
      SuspectsAreSilent(ops[..|ops| - 1], id);
    }
  }

  /** The client answers each ping before the next round it is part of. */
  ghost predicate Prompt(ops: seq<Op>, id: Id) {
    forall a: nat, b: nat | a < b && PingedAt(ops, a, id) && RoundWith(ops, b, id) :: AnsweredBetween(ops, a, b, id)
  }

  ghost predicate AnsweredBetween(ops: seq<Op>, a: nat, b: nat, id: Id) {
    exists c :: a < c < b && c < |ops| && ops[c] == Pong(id)
  }

  lemma PromptBefore(ops: seq<Op>, id: Id)
    requires ops != [] && Prompt(ops, id)
    ensures Prompt(ops[..|ops| - 1], id)
  {
    var init := ops[..|ops| - 1];
    PrefixFacts(ops, |ops| - 1);
    forall a: nat, b: nat | a < b && PingedAt(init, a, id) && RoundWith(init, b, id)
      ensures AnsweredBetween(init, a, b, id)
    {
      assert PingedAt(ops, a, id) && RoundWith(ops, b, id);
      var c :| a < c < b && ops[c] == Pong(id);
      assert init[c] == Pong(id);
    }
  }

  lemma OverdueIsNotPrompt(ops: seq<Op>, b: nat, id: Id)
    requires OverdueAt(ops, b, id)
    ensures !Prompt(ops, id)
  {
    PrefixFacts(ops, b);
    var a: nat :| UnansweredSince(ops[..b], a, id);
    assert PingedAt(ops, a, id);
    forall c | a < c < b ensures ops[c] != Pong(id) { assert ops[..b][c] == ops[c]; }
    assert !AnsweredBetween(ops, a, b, id);
  }

  /** A client that answers each ping before the next round is never suspected and never swept. */
  lemma {:induction false} PromptClientIsNeverSwept(ops: seq<Op>, id: Id)
    requires Prompt(ops, id)
    ensures id !in Run(ops).closed && id !in Run(ops).suspects
    decreases |ops|
  {
    if ops != [] {
      PromptBefore(ops, id);
      PromptClientIsNeverSwept(ops[..|ops| - 1], id);
      SuspectIffOverdue(ops, id);
      forall b: nat | OverdueAt(ops, b, id) ensures false { OverdueIsNotPrompt(ops, b, id); }
    }
  }

  ghost predicate SweptAt(ops: seq<Op>, i: nat, id: Id) {
    i < |ops| && ops[i].Sweep? && id in Run(ops[..i]).suspects
  }

  lemma {:induction false} ClosedIffSwept(ops: seq<Op>, id: Id)
    ensures id in Run(ops).closed <==> exists i: nat :: SweptAt(ops, i, id)
    decreases |ops|
  {
    if ops != [] {
      var n := |ops| - 1;
      var init := ops[..n];
      ClosedIffSwept(init, id);
      PrefixFacts(ops, n);
      forall i: nat | i < n ensures SweptAt(ops, i, id) <==> SweptAt(init, i, id) {}
      if id in Run(ops).closed && id !in Run(init).closed { assert SweptAt(ops, n, id); }
    }
  }

  /** Operation i connects id for the first time. */
  predicate ConnectedAt(ops: seq<Op>, i: nat, id: Id) {
    i < |ops| && ops[i] == Connect(id) && forall j | 0 <= j < i :: ops[j] != Connect(id)
  }

  ghost predicate NotEndedAfter(ops: seq<Op>, i: nat, id: Id) {
    forall j: nat | i < j < |ops| :: ops[j] != Closed(id) && !SweptAt(ops, j, id)
  }

  lemma {:induction false} KnownIffConnected(ops: seq<Op>, id: Id)
    ensures id in Run(ops).alive <==> Connect(id) in ops
    decreases |ops|
  {
    if ops != [] {
      KnownIffConnected(ops[..|ops| - 1], id);
      assert ops == ops[..|ops| - 1] + [ops[|ops| - 1]];
    }
  }

  lemma ConnectedGrows(ops: seq<Op>, i: nat, id: Id)
    requires ops != [] && i < |ops| - 1
    ensures var init := ops[..|ops| - 1];
            ConnectedAt(ops, i, id) && NotEndedAfter(ops, i, id) <==>
            ConnectedAt(init, i, id) && NotEndedAfter(init, i, id) &&
              ops[|ops| - 1] != Closed(id) && !SweptAt(ops, |ops| - 1, id)
  {
    var n := |ops| - 1;
    PrefixFacts(ops, n);
    forall j: nat | j < n ensures SweptAt(ops, j, id) <==> SweptAt(ops[..n], j, id) {}
  }

  lemma ConnectedOrNew(ops: seq<Op>, id: Id)
    requires ops != []
    ensures var init, op := ops[..|ops| - 1], ops[|ops| - 1];
            (exists i: nat :: ConnectedAt(ops, i, id) && NotEndedAfter(ops, i, id)) <==>
            || (op == Connect(id) && Connect(id) !in init)
            || (op != Closed(id) && !SweptAt(ops, |ops| - 1, id) &&
                exists i: nat :: ConnectedAt(init, i, id) && NotEndedAfter(init, i, id))
  {
    var n := |ops| - 1;
    var init := ops[..n];
    if i: nat :| ConnectedAt(ops, i, id) && NotEndedAfter(ops, i, id) {
      if i == n { FirstIsNew(ops, id); } else { ConnectedGrows(ops, i, id); }
    }
    if ops[n] == Connect(id) && Connect(id) !in init { assert ConnectedAt(ops, n, id) && NotEndedAfter(ops, n, id); }
    if i: nat :| ConnectedAt(init, i, id) && NotEndedAfter(init, i, id) { ConnectedGrows(ops, i, id); }
  }

  lemma FirstIsNew(ops: seq<Op>, id: Id)
    requires ops != [] && ConnectedAt(ops, |ops| - 1, id)
    ensures Connect(id) !in ops[..|ops| - 1]
  {}

  lemma GoingAfter(ops: seq<Op>, id: Id)
    requires ops != []
    ensures var init, op := ops[..|ops| - 1], ops[|ops| - 1];
            id in Run(ops).going <==>
            || (op == Connect(id) && id !in Run(init).alive)
            || (op != Closed(id) && !SweptAt(ops, |ops| - 1, id) && id in Run(init).going)
  {}

  /** A session is going exactly when it was connected, and has not been closed or swept since. */
  lemma {:induction false} GoingIffConnected(ops: seq<Op>, id: Id)
    ensures id in Run(ops).going <==> exists i: nat :: ConnectedAt(ops, i, id) && NotEndedAfter(ops, i, id)
    decreases |ops|
  {
    if ops != [] {
      GoingIffConnected(ops[..|ops| - 1], id);
      KnownIffConnected(ops[..|ops| - 1], id);
      ConnectedOrNew(ops, id);
      GoingAfter(ops, id);
    }
  }

  /** The sockets a sweep closes are exactly the ones overdue when it begins. */
  lemma SweepClosesTheOverdue(ops: seq<Op>, i: nat, id: Id)
    requires i < |ops| && ops[i].Sweep?
    ensures SweptAt(ops, i, id) <==> exists b: nat :: OverdueAt(ops[..i], b, id)
  {
    SuspectIffOverdue(ops[..i], id);
  }
}
