/**
 * The in-memory session table with its recency list. The list may name a key several times, deleting a
 * key takes out only its first mention, and the timed cull cuts off a prefix while leaving the table
 * alone. The moment each mention was pushed is kept as history, to say what the list still guarantees.
 */
module SessionTable {
  import opened Wrappers

  type Key = string
  type Value(==)
  datatype Entry = Entry(time: int, value: Value)

  /** max_session_stay, and the crowd allowance (50 unless configured). */
  datatype Config = Config(sessionTime: int, crowdAllowance: int)

  /** pushed[i] is when mention lru[i] was pushed; clock is the latest time seen. */
  datatype State = State(table: map<Key, Entry>, lru: seq<Key>, pushed: seq<int>, clock: int)

  const LEAST_CUT_LIMIT: nat := 5

  function Max(a: int, b: int): int { if a < b then b else a }

  function Min(a: int, b: int): int { if a < b then a else b }

  function AfterSet(s: State, k: Key, v: Value, now: int): State {
    State(s.table[k := Entry(now, v)], s.lru + [k], s.pushed + [now], now)
  }

  /** A sequence with one position taken out. */
  function Cut<T>(q: seq<T>, d: nat): seq<T>
    requires d < |q|
  {
    q[..d] + q[d + 1..]
  }

  function AfterDelete(s: State, k: Key): State
    requires |s.pushed| == |s.lru|
  {
    if k !in s.table then s
    else if k !in s.lru then s.(table := s.table - {k})
    else
      var i := IndexOf(s.lru, k);
      s.(table := s.table - {k}, lru := Cut(s.lru, i), pushed := Cut(s.pushed, i))
  }

  predicate Expired(c: Config, table: map<Key, Entry>, k: Key, now: int) {
    k in table && now - table[k].time > c.sessionTime
  }

  /** The last position below n that names an expired key, and 0 when there is none. */
  function LastExpired(c: Config, table: map<Key, Entry>, lru: seq<Key>, now: int, n: nat): (i: nat)
    requires n <= |lru|
    ensures i == 0 || (i < n && Expired(c, table, lru[i], now))
    ensures forall j | i < j < n :: !Expired(c, table, lru[j], now)
  {
    if n == 0 then 0
    else if Expired(c, table, lru[n - 1], now) then n - 1
    else LastExpired(c, table, lru, now, n - 1)
  }

  function CutLength(c: Config, s: State, now: int): (n: nat)
    ensures n <= |s.lru|
  {
    Min(LastExpired(c, s.table, s.lru, now, |s.lru|), Max(|s.lru| - c.crowdAllowance, LEAST_CUT_LIMIT))
  }

  function AfterCull(c: Config, s: State, now: int): State
    requires |s.pushed| == |s.lru|
  {
    var n := CutLength(c, s, now);
    s.(lru := s.lru[n..], pushed := s.pushed[n..], clock := now)
  }

  // ---- what every step keeps --------------------------------------------------------------

  /** Position i is the last mention of its key. */
  ghost predicate IsLast(lru: seq<Key>, i: nat)
    requires i < |lru|
  {
    forall j | i < j < |lru| :: lru[j] != lru[i]
  }

  ghost predicate InOrder(s: State) {
    && |s.pushed| == |s.lru|
    && (forall i, j | 0 <= i < j < |s.pushed| :: s.pushed[i] <= s.pushed[j])
    && (forall i | 0 <= i < |s.pushed| :: s.pushed[i] <= s.clock)
  }

  /** The last mention of a key in the table was pushed at the key's own time. */
  ghost predicate Dated(s: State)
    requires |s.pushed| == |s.lru|
  {
    forall i | 0 <= i < |s.lru| :: s.lru[i] in s.table && IsLast(s.lru, i) ==> s.pushed[i] == s.table[s.lru[i]].time
  }

  /** A key in the table that has not expired is still listed. */
  ghost predicate Listed(c: Config, s: State) {
    forall k | k in s.table :: Expired(c, s.table, k, s.clock) || k in s.lru
  }

  ghost predicate Inv(c: Config, s: State) {
    InOrder(s) && Dated(s) && Listed(c, s) && forall k | k in s.table :: s.table[k].time <= s.clock
  }

  lemma SetKeeps(c: Config, s: State, k: Key, v: Value, now: int)
    requires Inv(c, s) && s.clock <= now
    ensures Inv(c, AfterSet(s, k, v, now))
  {
    var t := AfterSet(s, k, v, now);
    forall i | 0 <= i < |t.lru| && t.lru[i] in t.table && IsLast(t.lru, i)
      ensures t.pushed[i] == t.table[t.lru[i]].time
    {
      if i < |s.lru| {
        assert t.lru[|s.lru|] == k;
        forall j | i < j < |s.lru| ensures s.lru[j] != s.lru[i] { assert t.lru[j] != t.lru[i]; }
      }
    }
    forall x | x in t.table ensures Expired(c, t.table, x, now) || x in t.lru {
      if x == k { assert t.lru[|s.lru|] == k; }
    }
  }

  lemma CutAt<T>(q: seq<T>, d: nat, i: nat)
    requires d < |q| && i < |q| - 1
    ensures |Cut(q, d)| == |q| - 1 && Cut(q, d)[i] == q[if i < d then i else i + 1]
  {}

  /** A mention that is last once a mention of another key is gone was last before. */
  lemma LastBeforeDeletion(lru: seq<Key>, d: nat, i: nat)
    requires d < |lru| && i < |Cut(lru, d)| && IsLast(Cut(lru, d), i) && Cut(lru, d)[i] != lru[d]
    ensures IsLast(lru, if i < d then i else i + 1)
  {
    var p := if i < d then i else i + 1;
    CutAt(lru, d, i);
    forall j | p < j < |lru| ensures lru[j] != lru[p] {
      if j != d {
        var l := if j < d then j else j - 1;
        CutAt(lru, d, l);
        assert Cut(lru, d)[l] != Cut(lru, d)[i];
      }
    }
  }

  lemma DeleteKeepsDated(c: Config, s: State, k: Key)
    requires InOrder(s) && Dated(s) && k in s.table && k in s.lru
    ensures Dated(AfterDelete(s, k))
  {
    var t, d := AfterDelete(s, k), IndexOf(s.lru, k);
    forall i | 0 <= i < |t.lru| && t.lru[i] in t.table && IsLast(t.lru, i)
      ensures t.pushed[i] == t.table[t.lru[i]].time
    {
      LastBeforeDeletion(s.lru, d, i);
      CutAt(s.lru, d, i);
      CutAt(s.pushed, d, i);
    }
  }

  lemma DeleteKeepsListed(c: Config, s: State, k: Key)
    requires InOrder(s) && Listed(c, s) && k in s.table && k in s.lru
    ensures Listed(c, AfterDelete(s, k))
  {}

  lemma DeleteKeepsOrder(s: State, k: Key)
    requires InOrder(s)
    ensures InOrder(AfterDelete(s, k))
  {
    var t := AfterDelete(s, k);
    if k in s.table && k in s.lru {
      var d := IndexOf(s.lru, k);
      forall i | 0 <= i < |t.pushed| ensures t.pushed[i] == s.pushed[if i < d then i else i + 1] {
        CutAt(s.pushed, d, i);
      }
    }
  }

  lemma DropKeepsDated(s: State, k: Key)
    requires InOrder(s) && Dated(s)
    ensures Dated(s.(table := s.table - {k}))
  {}

  lemma DeleteKeeps(c: Config, s: State, k: Key)
    requires Inv(c, s)
    ensures Inv(c, AfterDelete(s, k))
  {
    DeleteKeepsOrder(s, k);
    if k in s.table {
      if k in s.lru {
        DeleteKeepsDated(c, s, k);
        DeleteKeepsListed(c, s, k);
      } else {
        DropKeepsDated(s, k);
      }
    }
  }

  lemma LastMention(lru: seq<Key>, i: nat) returns (p: nat)
    requires i < |lru|
    ensures i <= p < |lru| && lru[p] == lru[i] && IsLast(lru, p)
    decreases |lru| - i
  {
    p := i;
    if j :| i < j < |lru| && lru[j] == lru[i] {
      p := LastMention(lru, j);
    }
  }

  /** The heart of the cull: whatever is listed before an expired key is at least as old. */
  lemma CutMentionIsStale(c: Config, s: State, now: int, i: nat)
    requires Inv(c, s) && i < CutLength(c, s, now)
    ensures s.lru[i] in s.table && IsLast(s.lru, i) ==> Expired(c, s.table, s.lru[i], now)
  {
    var e := LastExpired(c, s.table, s.lru, now, |s.lru|);
    var p := LastMention(s.lru, e);
    assert s.pushed[i] <= s.pushed[p];
  }

  lemma TickKeeps(c: Config, s: State, now: int)
    requires Inv(c, s) && s.clock <= now
    ensures Inv(c, s.(clock := now))
  {}

  lemma CullKeepsDated(c: Config, s: State, now: int)
    requires InOrder(s) && Dated(s)
    ensures Dated(AfterCull(c, s, now))
  {}

  lemma CullKeepsListed(c: Config, s: State, now: int)
    requires Inv(c, s) && s.clock <= now
    ensures Listed(c, AfterCull(c, s, now))
  {
    var n, t := CutLength(c, s, now), AfterCull(c, s, now);
    forall k | k in t.table ensures Expired(c, t.table, k, now) || k in t.lru {
      if k in s.lru {
        var p := LastMention(s.lru, IndexOf(s.lru, k));
        if p < n { CutMentionIsStale(c, s, now, p); } else { assert t.lru[p - n] == k; }
      }
    }
  }

  lemma CullKeepsOrder(c: Config, s: State, now: int)
    requires InOrder(s) && s.clock <= now
    ensures InOrder(AfterCull(c, s, now))
  {}

  lemma CullKeeps(c: Config, s: State, now: int)
    requires Inv(c, s) && s.clock <= now
    ensures Inv(c, AfterCull(c, s, now))
  {
    CullKeepsOrder(c, s, now);
    CullKeepsDated(c, s, now);
    CullKeepsListed(c, s, now);
  }

  /**
   * A cull cuts min(last expired position, max(length - allowance, 5)) mentions off the front, and each of
   * them names an expired key, a key no longer in the table, or a key that is mentioned again in what is left.
   */
  lemma CullCutsOnlyStaleMentions(c: Config, s: State, now: int, i: nat)
    requires Inv(c, s) && s.clock <= now && i < CutLength(c, s, now)
    ensures || s.lru[i] !in s.table
            || now - s.table[s.lru[i]].time > c.sessionTime
            || s.lru[i] in AfterCull(c, s, now).lru
  {
    var p := LastMention(s.lru, i);
    var n := CutLength(c, s, now);
    if p < n { CutMentionIsStale(c, s, now, p); } else { assert s.lru[n..][p - n] == s.lru[i]; }
  }

  /**
   * The cut, in numbers: with e the last listed position whose key has been in the table for longer than the session
   * time, and 0 when there is none, exactly min(e, max(length - allowance, 5)) mentions go from the front.
   */
  lemma CullCutsExactly(c: Config, s: State, now: int, e: nat)
    requires |s.pushed| == |s.lru| && (e == 0 || e < |s.lru|)
    requires e > 0 ==> s.lru[e] in s.table && now - s.table[s.lru[e]].time > c.sessionTime
    requires forall j | e < j < |s.lru| && s.lru[j] in s.table :: now - s.table[s.lru[j]].time <= c.sessionTime
    ensures var n := if |s.lru| - c.crowdAllowance > 5 then |s.lru| - c.crowdAllowance else 5;
            var cut := if e < n then e else n;
            var t := AfterCull(c, s, now);
            t.table == s.table && cut <= |s.lru| && t.lru == s.lru[cut..] && t.pushed == s.pushed[cut..]
  {
    LastExpiredIs(c, s.table, s.lru, now, |s.lru|, e);
  }

  lemma {:induction false} LastExpiredIs(c: Config, table: map<Key, Entry>, lru: seq<Key>, now: int, n: nat, e: nat)
    requires n <= |lru| && (e == 0 || e < n)
    requires e > 0 ==> lru[e] in table && now - table[lru[e]].time > c.sessionTime
    requires forall j | e < j < n && lru[j] in table :: now - table[lru[j]].time <= c.sessionTime
    ensures LastExpired(c, table, lru, now, n) == e
    decreases n
  {
    if n > 0 && n - 1 > e { LastExpiredIs(c, table, lru, now, n - 1, e); }
  }

  // ---- what setting and deleting do -----------------------------------------------------------

  /** Setting stores the entry with its time, leaves every other, and mentions the key once more, at the end. */
  lemma SetStores(s: State, k: Key, v: Value, now: int)
    ensures var t := AfterSet(s, k, v, now);
            && k in t.table && t.table[k] == Entry(now, v)
            && (forall x | x != k :: x in t.table <==> x in s.table)
            && (forall x | x != k && x in s.table :: t.table[x] == s.table[x])
            && |t.lru| == |s.lru| + 1 && t.lru[|s.lru|] == k && forall i | 0 <= i < |s.lru| :: t.lru[i] == s.lru[i]
  {}

  /** Deleting a key that is present removes its entry and no other, and takes exactly its first mention out. */
  lemma DeleteRemoves(s: State, k: Key, d: nat)
    requires |s.pushed| == |s.lru| && k in s.table
    requires d <= |s.lru| && (forall i | 0 <= i < d :: s.lru[i] != k) && (d < |s.lru| ==> s.lru[d] == k)
    ensures var t := AfterDelete(s, k);
            && k !in t.table
            && (forall x | x != k :: x in t.table <==> x in s.table)
            && (forall x | x in t.table :: t.table[x] == s.table[x])
            && if d == |s.lru| then t.lru == s.lru && t.pushed == s.pushed
               else t.lru == s.lru[..d] + s.lru[d + 1..] && t.pushed == s.pushed[..d] + s.pushed[d + 1..]
  {
    if k in s.lru { assert IndexOf(s.lru, k) == d; }
  }

  /** Deleting a key that is absent changes nothing. */
  lemma DeleteAbsent(s: State, k: Key)
    requires |s.pushed| == |s.lru| && k !in s.table
    ensures AfterDelete(s, k) == s
  {}

  // ---- runs ---------------------------------------------------------------------------------

  datatype Op = Set(key: Key, value: Value) | Delete(key: Key) | Cull

  /** One operation at a time no earlier than the last one. */
  function Step(c: Config, s: State, op: Op, now: int): State
    requires |s.pushed| == |s.lru|
  {
    match op
    case Set(k, v) => AfterSet(s, k, v, now)
    case Delete(k) => AfterDelete(s, k).(clock := now)
    case Cull => AfterCull(c, s, now)
  }

  ghost predicate Timely(run: seq<(Op, int)>, clock: int) {
    run != [] ==> clock <= run[0].1 && Timely(run[1..], run[0].1)
  }

  function Run(c: Config, s: State, run: seq<(Op, int)>): (t: State)
    requires |s.pushed| == |s.lru|
    ensures |t.pushed| == |t.lru|
    decreases |run|
  {
    if run == [] then s else Run(c, Step(c, s, run[0].0, run[0].1), run[1..])
  }

  lemma {:induction false} RunKeeps(c: Config, s: State, run: seq<(Op, int)>)
    requires Inv(c, s) && Timely(run, s.clock)
    ensures Inv(c, Run(c, s, run))
    decreases |run|
  {
    if run != [] {
      var op, now := run[0].0, run[0].1;
      match op {
        case Set(k, v) => SetKeeps(c, s, k, v, now);
        case Delete(k) => DeleteKeeps(c, s, k); TickKeeps(c, AfterDelete(s, k), now);
        case Cull => CullKeeps(c, s, now);
      }
      RunKeeps(c, Step(c, s, op, now), run[1..]);
    }
  }

  /** Operation i of the run is the last one that sets or deletes k. */
  predicate LastOn(run: seq<(Op, int)>, i: nat, k: Key) {
    && i < |run| && Concerns(run[i].0, k)
    && forall j | i < j < |run| :: !Concerns(run[j].0, k)
  }

  predicate Concerns(op: Op, k: Key) {
    (op.Set? || op.Delete?) && op.key == k
  }

  lemma UnconcernedStep(c: Config, s: State, op: Op, now: int, k: Key)
    requires |s.pushed| == |s.lru| && !Concerns(op, k)
    ensures k in Step(c, s, op, now).table <==> k in s.table
    ensures k in s.table ==> Step(c, s, op, now).table[k] == s.table[k]
  {
    match op
    case Set(x, v) => SetStores(s, x, v, now);
    case _ =>
  }

  lemma {:induction false} UnconcernedRun(c: Config, s: State, run: seq<(Op, int)>, k: Key)
    requires |s.pushed| == |s.lru| && forall j | 0 <= j < |run| :: !Concerns(run[j].0, k)
    ensures k in Run(c, s, run).table <==> k in s.table
    ensures k in s.table ==> Run(c, s, run).table[k] == s.table[k]
    decreases |run|
  {
    if run != [] {
      assert !Concerns(run[0].0, k);
      UnconcernedStep(c, s, run[0].0, run[0].1, k);
      assert forall j | 0 <= j < |run| - 1 :: run[1..][j] == run[j + 1];
      UnconcernedRun(c, Step(c, s, run[0].0, run[0].1), run[1..], k);
    }
  }

  /**
   * The table is the plain map of what was set and deleted: after any run a key is there if and only if the last
   * operation on it was a set, with the value and the time of that set.
   */
  lemma {:induction false} TableIsLastSet(c: Config, s: State, run: seq<(Op, int)>, i: nat, k: Key)
    requires |s.pushed| == |s.lru| && LastOn(run, i, k)
    ensures var t := Run(c, s, run);
            && (k in t.table <==> run[i].0.Set?)
            && (run[i].0.Set? ==> t.table[k] == Entry(run[i].1, run[i].0.value))
    decreases |run|
  {
    var t := Step(c, s, run[0].0, run[0].1);
    assert forall j | 0 <= j < |run| - 1 :: run[1..][j] == run[j + 1];
    if i == 0 {
      match run[0].0 {
        case Set(x, v) => SetStores(s, x, v, run[0].1);
        case Delete(x) =>
          if x in s.table { DeleteRemoves(s, x, if x in s.lru then IndexOf(s.lru, x) else |s.lru|); }
          else { DeleteAbsent(s, x); }
        case Cull => assert false;
      }
      UnconcernedRun(c, t, run[1..], k);
    } else {
      TableIsLastSet(c, t, run[1..], i - 1, k);
    }
  }

  /** In every reachable state a session that has not expired is listed, last at the moment it was last set. */
  lemma LiveSessionsAreListed(c: Config, run: seq<(Op, int)>, start: int, k: Key) returns (p: nat)
    requires Timely(run, start)
    requires var t := Run(c, State(map[], [], [], start), run);
             k in t.table && t.clock - t.table[k].time <= c.sessionTime
    ensures var t := Run(c, State(map[], [], [], start), run);
            p < |t.lru| && t.lru[p] == k && IsLast(t.lru, p) && t.pushed[p] == t.table[k].time
  {
    var t := Run(c, State(map[], [], [], start), run);
    RunKeeps(c, State(map[], [], [], start), run);
    p := LastMention(t.lru, IndexOf(t.lru, k));
  }

  /** Culling never takes a session away: only deleting it does. */
  lemma {:induction false} OnlyDeleteForgets(c: Config, s: State, run: seq<(Op, int)>, k: Key)
    requires |s.pushed| == |s.lru| && k in s.table
    requires forall i | 0 <= i < |run| :: run[i].0 != Delete(k)
    ensures k in Run(c, s, run).table
    decreases |run|
  {
    if run != [] {
      assert run[0].0 != Delete(k);
      OnlyDeleteForgets(c, Step(c, s, run[0].0, run[0].1), run[1..], k);
    }
  }

  // ---- the class ------------------------------------------------------------------------------

  class SessionKeyValueDBDefault {
    const conf: Config
    var table: map<Key, Entry>
    var lru: seq<Key>
    ghost var pushed: seq<int>
    ghost var clock: int

    ghost function Model(): State
      reads this
    {
      State(table, lru, pushed, clock)
    }

    ghost predicate Valid()
      reads this
    {
      Inv(conf, Model())
    }

    constructor (conf: Config, ghost now: int)
      ensures this.conf == conf && Valid() && Model() == State(map[], [], [], now)
    {
      this.conf, table, lru, pushed, clock := conf, map[], [], [], now;
    }

    method Set(key: Key, value: Value, now: int)
      requires Valid() && clock <= now
      modifies this
      ensures Valid() && Model() == AfterSet(old(Model()), key, value, now)
    {
      SetKeeps(conf, Model(), key, value, now);
      table := table[key := Entry(now, value)];
      lru := lru + [key];
      pushed, clock := pushed + [now], now;
    }

    method Get(key: Key) returns (entry: Option<Entry>)
      ensures entry == if key in table then Some(table[key]) else None
    {
      if key in table { return Some(table[key]); }
      entry := None;
    }

    method Delete(key: Key)
      requires Valid()
      modifies this
      ensures Valid() && Model() == AfterDelete(old(Model()), key)
      ensures table == old(table) - {key}
    {
      DeleteKeeps(conf, Model(), key);
      if key in table {
        table := table - {key};
        if key in lru {
          var i := IndexOf(lru, key);
          lru := lru[..i] + lru[i + 1..];
          pushed := pushed[..i] + pushed[i + 1..];
        }
      }
    }

    /** The scan of the cull: the last position that names an expired key. */
    method LargestExpiredIndex(now: int) returns (largestIndex: nat)
      ensures largestIndex == LastExpired(conf, table, lru, now, |lru|)
    {
      largestIndex := 0;
      for i := 0 to |lru|
        invariant largestIndex == LastExpired(conf, table, lru, now, i)
      {
        var key := lru[i];
        if key in table {
          var dtime := table[key].time;
          if now - dtime > conf.sessionTime {
            largestIndex := i;
          }
        }
      }
    }

    method TimedCull(now: int)
      requires Valid() && clock <= now
      modifies this`lru, this`pushed, this`clock
      ensures Valid() && Model() == AfterCull(conf, old(Model()), now)
    {
      CullKeeps(conf, Model(), now);
      var largestIndex := LargestExpiredIndex(now);
      var crowd := |lru| - conf.crowdAllowance;
      var deleteLimit := Max(crowd, LEAST_CUT_LIMIT);
      var delIndex := Min(largestIndex, deleteLimit);
      lru := lru[delIndex..];
      pushed, clock := pushed[delIndex..], now;
    }
  }
}
