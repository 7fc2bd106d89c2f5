/**
 * The two-tier key-value store as a value: an in-memory table in insertion order, a queue of
 * keys awaiting removal, and one disk file per category. What the outside world may rely on is
 * the view, the plain map that the three structures stand for together.
 */
module KeyValueModel {
  import opened Wrappers

  type Key = string
  type Category = string
  type Value(==)
  type Disk = map<Category, map<Key, Value>>

  /** fileCache is false when no file cache was configured: then nothing reaches the disk. */
  datatype Config = Config(maxInMem: nat, releaseSize: nat, fileCache: bool, removalInterval: bool)

  datatype Store = Store(order: seq<Key>, table: map<Key, Value>, pending: seq<Key>, disk: Disk)

  /** The table is an ordered map: `order` lists its keys once each, oldest insertion first. */
  ghost predicate Ordered(order: seq<Key>, table: map<Key, Value>) {
    Distinct(order) && Elements(order) == table.Keys
  }

  ghost predicate Valid(s: Store) {
    Ordered(s.order, s.table)
  }

  function CategoryOf(key: Key): Category {
    if |key| <= 8 then key else key[..8]
  }

  function Load(disk: Disk, c: Category): map<Key, Value> {
    if c in disk then disk[c] else map[]
  }

  predicate OnDisk(c: Config, s: Store, k: Key) {
    c.fileCache && k in Load(s.disk, CategoryOf(k))
  }

  predicate Stored(c: Config, s: Store, k: Key) {
    k in s.table || (k !in s.pending && OnDisk(c, s, k))
  }

  function Lookup(c: Config, s: Store, k: Key): Option<Value> {
    if k in s.table then Some(s.table[k])
    else if Stored(c, s, k) then Some(s.disk[CategoryOf(k)][k])
    else None
  }

  /** The plain map the store stands for. */
  ghost function View(c: Config, s: Store): (v: map<Key, Value>)
    ensures forall k :: k in v <==> Stored(c, s, k)
    ensures forall k :: k in v ==> Lookup(c, s, k) == Some(v[k])
  {
    var onDisk := set f, k | f in s.disk.Keys && k in s.disk[f].Keys :: k;
    map k | k in s.table.Keys + onDisk && Stored(c, s, k) :: Lookup(c, s, k).value
  }

  /** Every key on disk lies in the file its first eight characters name. */
  ghost predicate WellPlaced(disk: Disk) {
    forall f, k | f in disk && k in disk[f] :: CategoryOf(k) == f
  }

  // ---- the operations -------------------------------------------------------------------

  function SetKey(s: Store, k: Key, v: Value): Store {
    s.(order := if k in s.table then s.order else s.order + [k], table := s.table[k := v])
  }

  function DeleteKey(s: Store, k: Key): Store {
    s.(order := Without(s.order, k), table := s.table - {k}, pending := s.pending + [k])
  }

  /** Looking a key up on disk creates its category file when there is none yet. */
  function Touch(c: Config, s: Store, k: Key): Store {
    if k in s.table || k in s.pending || !c.fileCache || CategoryOf(k) in s.disk then s
    else s.(disk := s.disk[CategoryOf(k) := map[]])
  }

  function Erase(disk: Disk, gone: set<Key>): Disk {
    map f | f in disk :: map k | k in disk[f] && !(k in gone && CategoryOf(k) == f) :: disk[f][k]
  }

  function RemoveWhen(c: Config, s: Store): Store {
    s.(pending := [], disk := if c.fileCache then Erase(s.disk, Elements(s.pending)) else s.disk)
  }

  /** The entries of `m` whose key is listed in `ks`. */
  function Part(m: map<Key, Value>, ks: seq<Key>): map<Key, Value> {
    map k | k in m && k in ks :: m[k]
  }

  function Categories(batch: map<Key, Value>): set<Category> {
    set k | k in batch :: CategoryOf(k)
  }

  function Slice(batch: map<Key, Value>, f: Category): map<Key, Value> {
    map k | k in batch && CategoryOf(k) == f :: batch[k]
  }

  /** The disk once every entry of `batch` has been put into its category file. */
  function Merge(disk: Disk, batch: map<Key, Value>): Disk {
    map f | f in disk.Keys + Categories(batch) :: Load(disk, f) + Slice(batch, f)
  }

  /** The n entries inserted first move to disk; the rest stay, in the same order. */
  function Evict(c: Config, s: Store, n: nat): Store
    requires n <= |s.order|
  {
    s.(order := s.order[n..],
       table := Part(s.table, s.order[n..]),
       disk := if c.fileCache then Merge(s.disk, Part(s.table, s.order[..n])) else s.disk)
  }

  predicate Culls(c: Config, s: Store, all: bool) {
    all || |s.order| > c.maxInMem
  }

  function SendCount(c: Config, s: Store, all: bool): nat {
    if all then |s.order| else c.releaseSize
  }

  /** A partial cull asks for more entries than there are, and fails part of the way through. */
  predicate Overdraws(c: Config, s: Store, all: bool) {
    Culls(c, s, all) && SendCount(c, s, all) > |s.order|
  }

  function StoreAndCull(c: Config, s: Store, all: bool): Store
    requires !Overdraws(c, s, all)
  {
    if Culls(c, s, all) then Evict(c, s, SendCount(c, s, all)) else s
  }

  function Shutdown(c: Config, s: Store): Store {
    StoreAndCull(c, if c.removalInterval then RemoveWhen(c, s) else s, true)
  }

  /** A fresh process over the same disk. */
  function Restart(s: Store): Store {
    Store([], map[], [], s.disk)
  }

  // ---- writing one entry at a time ------------------------------------------------------

  function WriteOne(disk: Disk, k: Key, v: Value): Disk {
    disk[CategoryOf(k) := Load(disk, CategoryOf(k))[k := v]]
  }

  function WriteEach(disk: Disk, batch: map<Key, Value>, ks: seq<Key>): Disk
    requires forall k | k in ks :: k in batch
  {
    if ks == [] then disk
    else
      var k := ks[|ks| - 1];
      WriteOne(WriteEach(disk, batch, ks[..|ks| - 1]), k, batch[k])
  }

  /** One write per category at the end equals one write per entry, in whatever order. */
  lemma {:induction false} BatchEqualsEach(disk: Disk, batch: map<Key, Value>, ks: seq<Key>)
    requires Elements(ks) == batch.Keys
    ensures WriteEach(disk, batch, ks) == Merge(disk, batch)
  {
    EachIsMerge(disk, batch, ks);
    assert Part(batch, ks) == batch;
  }

  lemma {:induction false} EachIsMerge(disk: Disk, batch: map<Key, Value>, ks: seq<Key>)
    requires forall k | k in ks :: k in batch
    ensures WriteEach(disk, batch, ks) == Merge(disk, Part(batch, ks))
  {
    if ks != [] {
      var last, init := ks[|ks| - 1], ks[..|ks| - 1];
      EachIsMerge(disk, batch, init);
      assert forall k :: k in ks <==> k in init || k == last;
      var small := Part(batch, init);
      var big := Part(batch, ks);
      assert big == small[last := batch[last]];
      MergeOneMore(disk, small, last, batch[last]);
    } else {
      assert Part(batch, ks) == map[];
      assert Categories(map[]) == {};
      forall f | f in disk ensures Merge(disk, map[])[f] == disk[f] {}
      assert Merge(disk, map[]) == disk;
    }
  }

  lemma MergeOneMore(disk: Disk, small: map<Key, Value>, k: Key, v: Value)
    ensures WriteOne(Merge(disk, small), k, v) == Merge(disk, small[k := v])
  {
    var big := small[k := v];
    var a, b := WriteOne(Merge(disk, small), k, v), Merge(disk, big);
    assert a.Keys == b.Keys by { SlicesOneMore(small, k, v); }
    forall f | f in b ensures a[f] == b[f] {
      WrittenFile(disk, small, k, v, f);
    }
  }

  lemma WrittenFile(disk: Disk, small: map<Key, Value>, k: Key, v: Value, f: Category)
    ensures Load(WriteOne(Merge(disk, small), k, v), f) == Load(disk, f) + Slice(small[k := v], f)
  {}

  lemma SlicesOneMore(small: map<Key, Value>, k: Key, v: Value)
    ensures Categories(small[k := v]) == Categories(small) + {CategoryOf(k)}
    ensures forall f :: Slice(small[k := v], f) ==
                        if f == CategoryOf(k) then Slice(small, f)[k := v] else Slice(small, f)
  {}

  // ---- what one operation does to the view ----------------------------------------------

  lemma SetView(c: Config, s: Store, k: Key, v: Value)
    ensures View(c, SetKey(s, k, v)) == View(c, s)[k := v]
  {}

  lemma DeleteView(c: Config, s: Store, k: Key)
    ensures View(c, DeleteKey(s, k)) == View(c, s) - {k}
  {}

  lemma StepsKeepValid(s: Store, k: Key, v: Value)
    requires Valid(s)
    ensures Valid(SetKey(s, k, v)) && Valid(DeleteKey(s, k))
  {
    WithoutElements(s.order, k);
  }

  lemma TouchView(c: Config, s: Store, k: Key)
    ensures View(c, Touch(c, s, k)) == View(c, s)
  {
    forall x ensures Lookup(c, Touch(c, s, k), x) == Lookup(c, s, x) {}
  }

  lemma RemoveWhenView(c: Config, s: Store)
    ensures View(c, RemoveWhen(c, s)) == View(c, s)
  {
    forall x ensures Lookup(c, RemoveWhen(c, s), x) == Lookup(c, s, x) {}
  }

  /** Sweeping empties the queue, and takes from each file exactly the queued keys that the file is for. */
  lemma SweepErases(c: Config, s: Store, f: Category, k: Key)
    requires c.fileCache
    ensures var t := RemoveWhen(c, s);
            && t.order == s.order && t.table == s.table && t.pending == []
            && (f in t.disk <==> f in s.disk)
            && (f in s.disk ==>
                  && (k in t.disk[f] <==> k in s.disk[f] && !(k in s.pending && f == if |k| <= 8 then k else k[..8]))
                  && (k in t.disk[f] ==> t.disk[f][k] == s.disk[f][k]))
  {}

  lemma EvictSplits(s: Store, n: nat)
    requires Valid(s) && n <= |s.order|
    ensures forall k :: k in s.table <==> k in s.order[..n] || k in s.order[n..]
    ensures forall k :: !(k in s.order[..n] && k in s.order[n..])
    ensures Distinct(s.order[n..])
  {}

  /** What a key's category file holds for it once a batch has been written. */
  lemma MergedEntry(disk: Disk, batch: map<Key, Value>, k: Key)
    ensures var was, now := Load(disk, CategoryOf(k)), Load(Merge(disk, batch), CategoryOf(k));
            && (k in now <==> k in batch || k in was)
            && (k in now ==> now[k] == if k in batch then batch[k] else was[k])
  {
    var f := CategoryOf(k);
    if k in batch {
      assert f in Categories(batch);
      assert k in Slice(batch, f);
    }
  }

  lemma EvictLookup(c: Config, s: Store, n: nat, k: Key)
    requires Valid(s) && n <= |s.order|
    ensures Lookup(c, Evict(c, s, n), k) ==
            if k in s.order[..n] && (k in s.pending || !c.fileCache) then None else Lookup(c, s, k)
  {
    EvictSplits(s, n);
    MergedEntry(s.disk, Part(s.table, s.order[..n]), k);
  }

  lemma EvictValid(c: Config, s: Store, n: nat)
    requires Valid(s) && n <= |s.order|
    ensures Valid(Evict(c, s, n))
  {}

  /** The entries a cull makes unreachable: evicted while their key awaits removal, or evicted with no disk. */
  ghost predicate CullLoses(c: Config, s: Store, all: bool)
    requires !Overdraws(c, s, all)
  {
    Culls(c, s, all) && exists k :: k in s.order[..SendCount(c, s, all)] && (k in s.pending || !c.fileCache)
  }

  lemma EvictViewIs(c: Config, s: Store, n: nat, k: Key)
    requires Valid(s) && n <= |s.order|
    ensures var v, w := View(c, s), View(c, Evict(c, s, n));
            && (k in w <==> k in v && !(k in s.order[..n] && (k in s.pending || !c.fileCache)))
            && (k in w ==> w[k] == v[k])
  {
    EvictLookup(c, s, n, k);
  }

  /** A cull leaves the view alone exactly when it evicts no key awaiting removal; it never adds or alters an entry. */
  lemma CullView(c: Config, s: Store, all: bool)
    requires Valid(s) && !Overdraws(c, s, all)
    ensures forall k :: k in View(c, StoreAndCull(c, s, all)) ==>
              k in View(c, s) && View(c, StoreAndCull(c, s, all))[k] == View(c, s)[k]
    ensures forall k :: k in View(c, s) && k !in s.pending && c.fileCache ==> k in View(c, StoreAndCull(c, s, all))
    ensures View(c, StoreAndCull(c, s, all)) == View(c, s) <==> !CullLoses(c, s, all)
  {
    if Culls(c, s, all) {
      var n := SendCount(c, s, all);
      var v, w := View(c, s), View(c, Evict(c, s, n));
      forall k { EvictViewIs(c, s, n, k); }
      if k :| k in s.order[..n] && (k in s.pending || !c.fileCache) {
        assert k in Elements(s.order);
        assert k in v && k !in w;
      } else {
        assert w == v;
      }
    }
  }

  // ---- runs -----------------------------------------------------------------------------

  datatype Op = Set(key: Key, value: Value) | Delete(key: Key) | Read(key: Key) | Sweep | Cull(all: bool)

  /** A release size of at most one more than the memory bound never overdraws; any larger one can. */
  predicate Sane(c: Config) {
    c.releaseSize <= c.maxInMem + 1
  }

  /** A table of n entries: the keys "", "x", "xx" and so on. */
  function Filled(n: nat, v: Value): Store {
    var order := seq(n, i requires 0 <= i < n => seq(i, _ => 'x'));
    Store(order, map k | k in order :: v, [], map[])
  }

  lemma FilledIsValid(n: nat, v: Value)
    ensures Valid(Filled(n, v)) && |Filled(n, v).order| == n
  {
    var order := Filled(n, v).order;
    assert forall i | 0 <= i < n :: |order[i]| == i;
  }

  lemma SaneNeverOverdraws(c: Config, v: Value)
    ensures Sane(c) <==> forall s: Store, all | Valid(s) :: !Overdraws(c, s, all)
  {
    if !Sane(c) {
      FilledIsValid(c.maxInMem + 1, v);
      assert Overdraws(c, Filled(c.maxInMem + 1, v), false);
    }
  }

  function Step(c: Config, s: Store, op: Op): Store
    requires Sane(c)
  {
    match op
    case Set(k, v) => SetKey(s, k, v)
    case Delete(k) => DeleteKey(s, k)
    case Read(k) => Touch(c, s, k)
    case Sweep => RemoveWhen(c, s)
    case Cull(all) => StoreAndCull(c, s, all)
  }

  function Run(c: Config, s: Store, ops: seq<Op>): Store
    requires Sane(c)
    decreases |ops|
  {
    if ops == [] then s else Run(c, Step(c, s, ops[0]), ops[1..])
  }

  /** What the same operation does to a plain map. */
  function PlainStep(m: map<Key, Value>, op: Op): map<Key, Value> {
    match op
    case Set(k, v) => m[k := v]
    case Delete(k) => m - {k}
    case _ => m
  }

  ghost predicate TracksPlainMap(c: Config, s: Store, m: map<Key, Value>, ops: seq<Op>)
    requires Sane(c)
    decreases |ops|
  {
    View(c, s) == m && (ops != [] ==> TracksPlainMap(c, Step(c, s, ops[0]), PlainStep(m, ops[0]), ops[1..]))
  }

  ghost predicate NoCullLoses(c: Config, s: Store, ops: seq<Op>)
    requires Sane(c)
    decreases |ops|
  {
    ops != [] ==>
      (ops[0].Cull? ==> !CullLoses(c, s, ops[0].all)) && NoCullLoses(c, Step(c, s, ops[0]), ops[1..])
  }

  lemma StepView(c: Config, s: Store, op: Op)
    requires Sane(c) && Valid(s)
    ensures Valid(Step(c, s, op))
    ensures View(c, Step(c, s, op)) == PlainStep(View(c, s), op) <==> (op.Cull? ==> !CullLoses(c, s, op.all))
  {
    match op
    case Set(k, v) => SetView(c, s, k, v); StepsKeepValid(s, k, v);
    case Delete(k) => DeleteView(c, s, k); WithoutElements(s.order, k);
    case Read(k) => TouchView(c, s, k);
    case Sweep => RemoveWhenView(c, s);
    case Cull(all) =>
      CullView(c, s, all);
      if Culls(c, s, all) { EvictValid(c, s, SendCount(c, s, all)); }
  }

  /** Over a whole run the store behaves as a plain map if and only if no cull evicts a key awaiting removal. */
  lemma {:induction false} RunRefinesMap(c: Config, s: Store, ops: seq<Op>)
    requires Sane(c) && Valid(s)
    ensures Valid(Run(c, s, ops))
    ensures TracksPlainMap(c, s, View(c, s), ops) <==> NoCullLoses(c, s, ops)
    decreases |ops|
  {
    if ops != [] {
      var t := Step(c, s, ops[0]);
      StepView(c, s, ops[0]);
      RunRefinesMap(c, t, ops[1..]);
    }
  }

  /** Setting no key that still awaits removal is enough, and the caller can see to it. */
  ghost predicate NeverRevives(c: Config, s: Store, ops: seq<Op>)
    requires Sane(c)
    decreases |ops|
  {
    ops != [] ==>
      (ops[0].Set? ==> ops[0].key !in s.pending) && NeverRevives(c, Step(c, s, ops[0]), ops[1..])
  }

  lemma {:induction false} CarefulRunIsPlainMap(c: Config, s: Store, ops: seq<Op>)
    requires Sane(c) && Valid(s) && c.fileCache
    requires forall k | k in s.pending :: k !in s.table
    requires NeverRevives(c, s, ops)
    ensures TracksPlainMap(c, s, View(c, s), ops)
    decreases |ops|
  {
    if ops != [] {
      var t := Step(c, s, ops[0]);
      assert forall k :: k in s.order ==> k in Elements(s.order);
      StepView(c, s, ops[0]);
      CarefulRunIsPlainMap(c, t, ops[1..]);
    }
  }

  /** Delete, set again, cull: the value is gone, although a plain map would hold it. */
  lemma RevivedKeyIsLost(c: Config, v: Value)
    requires c.fileCache && c.maxInMem == 0 && c.releaseSize == 1
    ensures var s := SetKey(DeleteKey(Store([], map[], [], map[]), "k"), "k", v);
            && View(c, s) == map["k" := v]
            && !Overdraws(c, s, false)
            && View(c, StoreAndCull(c, s, false)) == map[]
  {}

  /** In every reachable state a key lies on disk only in the category of its first eight characters. */
  lemma PlacedByFirstEight(c: Config, ops: seq<Op>, f: Category, k: Key)
    requires Sane(c)
    ensures var t := Run(c, Store([], map[], [], map[]), ops);
            f in t.disk && k in t.disk[f] ==> f == if |k| <= 8 then k else k[..8]
  {
    RunKeepsPlacement(c, Store([], map[], [], map[]), ops);
    var t := Run(c, Store([], map[], [], map[]), ops);
    if f in t.disk && k in t.disk[f] { assert CategoryOf(k) == f; }
  }

  lemma {:induction false} RunKeepsPlacement(c: Config, s: Store, ops: seq<Op>)
    requires Sane(c) && WellPlaced(s.disk)
    ensures WellPlaced(Run(c, s, ops).disk)
    decreases |ops|
  {
    if ops != [] {
      RunKeepsPlacement(c, Step(c, s, ops[0]), ops[1..]);
    }
  }

  // ---- the order of the table -------------------------------------------------------------

  /** The store after the first n operations of a run that starts with an empty table. */
  function After(c: Config, disk: Disk, ops: seq<Op>, n: nat): Store
    requires Sane(c) && n <= |ops|
  {
    Run(c, Store([], map[], [], disk), ops[..n])
  }

  lemma {:induction false} RunSnoc(c: Config, s: Store, ops: seq<Op>, op: Op)
    requires Sane(c)
    ensures Run(c, s, ops + [op]) == Step(c, Run(c, s, ops), op)
    decreases |ops|
  {
    if ops == [] {
      assert [op][1..] == [];
    } else {
      assert (ops + [op])[1..] == ops[1..] + [op];
      RunSnoc(c, Step(c, s, ops[0]), ops[1..], op);
    }
  }

  lemma AfterOneMore(c: Config, disk: Disk, ops: seq<Op>, n: nat)
    requires Sane(c) && n < |ops|
    ensures After(c, disk, ops, n + 1) == Step(c, After(c, disk, ops, n), ops[n])
    ensures Valid(After(c, disk, ops, n))
  {
    assert ops[..n + 1] == ops[..n] + [ops[n]];
    RunSnoc(c, Store([], map[], [], disk), ops[..n], ops[n]);
    RunRefinesMap(c, Store([], map[], [], disk), ops[..n]);
  }

  /** Operation i sets k while it is absent, and k stays in the table up to moment n. */
  ghost predicate BornAt(c: Config, disk: Disk, ops: seq<Op>, n: nat, i: nat, k: Key)
    requires Sane(c) && n <= |ops|
  {
    && i < n && ops[i].Set? && ops[i].key == k
    && k !in After(c, disk, ops, i).table
    && forall m | i < m <= n :: k in After(c, disk, ops, m).table
  }

  predicate Before(q: seq<Key>, k: Key, l: Key) {
    exists a, b | 0 <= a < b < |q| :: q[a] == k && q[b] == l
  }

  lemma NothingAtFirst(c: Config, disk: Disk, ops: seq<Op>)
    requires Sane(c)
    ensures After(c, disk, ops, 0).table == map[]
  {}

  lemma {:induction false} EveryKeyIsBorn(c: Config, disk: Disk, ops: seq<Op>, n: nat, k: Key) returns (i: nat)
    requires Sane(c) && n <= |ops| && k in After(c, disk, ops, n).table
    ensures BornAt(c, disk, ops, n, i, k)
    decreases n
  {
    if n == 0 {
      NothingAtFirst(c, disk, ops);
      assert false;
    } else {
      AfterOneMore(c, disk, ops, n - 1);
      if k in After(c, disk, ops, n - 1).table {
        i := EveryKeyIsBorn(c, disk, ops, n - 1, k);
      } else {
        StepAddsOnlySetKeys(c, After(c, disk, ops, n - 1), ops[n - 1], k);
        i := n - 1;
      }
    }
  }

  lemma StepAddsOnlySetKeys(c: Config, s: Store, op: Op, k: Key)
    requires Sane(c) && k in Step(c, s, op).table && k !in s.table
    ensures op.Set? && op.key == k
  {}

  lemma CutAt(q: seq<Key>, d: nat, a: nat)
    requires d < |q| && a < |q| && a != d
    ensures var p := if a < d then a else a - 1;
            p < |q[..d] + q[d + 1..]| && (q[..d] + q[d + 1..])[p] == q[a]
  {}

  lemma CutBefore(q: seq<Key>, d: nat, a: nat, b: nat)
    requires d < |q| && a < b < |q| && a != d && b != d
    ensures Before(q[..d] + q[d + 1..], q[a], q[b])
  {
    CutAt(q, d, a);
    CutAt(q, d, b);
  }

  lemma CutKeepsBefore(q: seq<Key>, x: Key, k: Key, l: Key)
    requires Before(q, k, l) && x != k && x != l
    ensures Before(Without(q, x), k, l)
  {
    if x in q {
      var a, b :| 0 <= a < b < |q| && q[a] == k && q[b] == l;
      CutBefore(q, IndexOf(q, x), a, b);
    }
  }

  lemma DropKeepsBefore(q: seq<Key>, n: nat, k: Key, l: Key)
    requires Distinct(q) && n <= |q| && Before(q, k, l) && k in q[n..]
    ensures Before(q[n..], k, l)
  {
    var a, b :| 0 <= a < b < |q| && q[a] == k && q[b] == l;
    var d :| 0 <= d < |q[n..]| && q[n..][d] == k;
    assert q[n + d] == k && a == n + d;
    assert q[n..][a - n] == k && q[n..][b - n] == l;
  }

  /** No operation changes the relative order of two keys that stay in the table. */
  lemma StepKeepsBefore(c: Config, s: Store, op: Op, k: Key, l: Key)
    requires Sane(c) && Valid(s) && Before(s.order, k, l)
    requires k in Step(c, s, op).table && l in Step(c, s, op).table
    ensures Before(Step(c, s, op).order, k, l)
  {
    match op
    case Set(x, v) =>
      var a, b :| 0 <= a < b < |s.order| && s.order[a] == k && s.order[b] == l;
      var t := Step(c, s, op);
      assert t.order[a] == k && t.order[b] == l;
    case Delete(x) => CutKeepsBefore(s.order, x, k, l);
    case Cull(all) =>
      if Culls(c, s, all) {
        DropKeepsBefore(s.order, SendCount(c, s, all), k, l);
      }
    case _ =>
  }

  lemma BornBefore(c: Config, disk: Disk, ops: seq<Op>, n: nat, i: nat, k: Key)
    requires Sane(c) && n <= |ops| && BornAt(c, disk, ops, n, i, k)
    ensures k in After(c, disk, ops, n).table
    ensures i < n - 1 ==> BornAt(c, disk, ops, n - 1, i, k) && k in After(c, disk, ops, n - 1).table
    ensures i == n - 1 ==> k !in After(c, disk, ops, n - 1).table
  {}

  lemma NewestIsLast(c: Config, s: Store, op: Op, k: Key, l: Key)
    requires Sane(c) && Valid(s) && k in s.table && l !in s.table && l in Step(c, s, op).table
    ensures Before(Step(c, s, op).order, k, l)
  {
    var t := Step(c, s, op);
    StepAddsOnlySetKeys(c, s, op, l);
    assert k in Elements(s.order);
    var a :| 0 <= a < |s.order| && s.order[a] == k;
    assert t.order[a] == k && t.order[|s.order|] == l;
  }

  /**
   * The table is in insertion order, over every run: of two keys in it, the one that was last set while absent
   * earlier stands earlier. Setting a key that is present, and whatever happens to other keys, moves nothing.
   */
  lemma {:induction false} OrderIsByBirth(c: Config, disk: Disk, ops: seq<Op>, n: nat, i: nat, k: Key, j: nat, l: Key)
    requires Sane(c) && n <= |ops| && i < j
    requires BornAt(c, disk, ops, n, i, k) && BornAt(c, disk, ops, n, j, l)
    ensures Before(After(c, disk, ops, n).order, k, l)
    decreases n
  {
    BornBefore(c, disk, ops, n, i, k);
    BornBefore(c, disk, ops, n, j, l);
    AfterOneMore(c, disk, ops, n - 1);
    if j == n - 1 {
      NewestIsLast(c, After(c, disk, ops, n - 1), ops[n - 1], k, l);
    } else {
      OrderIsByBirth(c, disk, ops, n - 1, i, k, j, l);
      StepKeepsBefore(c, After(c, disk, ops, n - 1), ops[n - 1], k, l);
    }
  }

  lemma EvictTakesPrefix(c: Config, s: Store, n: nat, k: Key, l: Key)
    requires Valid(s) && n <= |s.order| && k in s.table && k !in Evict(c, s, n).table && l in Evict(c, s, n).table
    ensures l in s.table && Evict(c, s, n).table[l] == s.table[l] && Before(s.order, k, l)
  {
    EvictSplits(s, n);
    var a :| 0 <= a < n && s.order[..n][a] == k;
    var b :| 0 <= b < |s.order| - n && s.order[n..][b] == l;
    assert s.order[a] == k && s.order[n + b] == l;
  }

  lemma {:induction false} SizeIsLength(q: seq<Key>, keys: set<Key>)
    requires Distinct(q) && Elements(q) == keys
    ensures |keys| == |q|
    decreases |q|
  {
    if q == [] {
      assert keys == {};
    } else {
      var n := |q| - 1;
      assert keys == Elements(q[..n]) + {q[n]} by { assert q == q[..n] + [q[n]]; }
      SizeIsLength(q[..n], Elements(q[..n]));
    }
  }

  lemma OrderSize(s: Store)
    requires Valid(s)
    ensures |s.table| == |s.order|
  {
    SizeIsLength(s.order, s.table.Keys);
    assert |s.table| == |s.table.Keys|;
  }

  lemma EvictSize(c: Config, s: Store, n: nat)
    requires Valid(s) && n <= |s.order|
    ensures |Evict(c, s, n).table| == |s.table| - n && Evict(c, s, n).table.Keys <= s.table.Keys
  {
    OrderSize(s);
    EvictValid(c, s, n);
    OrderSize(Evict(c, s, n));
  }

  /** A cull takes nothing from a table that fits, and otherwise exactly releaseSize entries, or all of them. */
  lemma CullSize(c: Config, s: Store, all: bool)
    requires Sane(c) && Valid(s)
    ensures var t := Step(c, s, Cull(all));
            && t.table.Keys <= s.table.Keys
            && |t.table| == if all then 0 else if |s.table| <= c.maxInMem then |s.table|
                            else |s.table| - c.releaseSize
  {
    OrderSize(s);
    if Culls(c, s, all) { EvictSize(c, s, SendCount(c, s, all)); }
  }

  lemma BeforeIsOneWay(q: seq<Key>, k: Key, l: Key)
    requires Distinct(q) && Before(q, k, l)
    ensures !Before(q, l, k)
  {}

  lemma AfterIsValid(c: Config, disk: Disk, ops: seq<Op>, n: nat)
    requires Sane(c) && n <= |ops|
    ensures Valid(After(c, disk, ops, n))
  {
    RunRefinesMap(c, Store([], map[], [], disk), ops[..n]);
  }

  lemma CullLeavesLater(c: Config, s: Store, k: Key, l: Key)
    requires Sane(c) && Valid(s) && k in s.table
    requires k !in Step(c, s, Cull(false)).table && l in Step(c, s, Cull(false)).table
    ensures Before(s.order, k, l) && l in s.table && Step(c, s, Cull(false)).table[l] == s.table[l]
  {
    EvictTakesPrefix(c, s, c.releaseSize, k, l);
  }

  lemma BornInOrder(c: Config, disk: Disk, ops: seq<Op>, n: nat, k: Key, i: nat, l: Key, j: nat)
    requires Sane(c) && n <= |ops| && BornAt(c, disk, ops, n, i, k) && BornAt(c, disk, ops, n, j, l)
    requires Before(After(c, disk, ops, n).order, k, l)
    ensures i < j
  {
    AfterIsValid(c, disk, ops, n);
    var q := After(c, disk, ops, n).order;
    if j < i { OrderIsByBirth(c, disk, ops, n, j, l, i, k); }
    BeforeIsOneWay(q, k, l);
  }

  /**
   * A partial cull evicts the entries inserted earliest: whatever it evicts was last set while absent before
   * whatever it leaves, which keeps its value.
   */
  lemma CullEvictsEarliest(c: Config, disk: Disk, ops: seq<Op>, k: Key, i: nat, l: Key, j: nat)
    requires Sane(c) && BornAt(c, disk, ops, |ops|, i, k) && BornAt(c, disk, ops, |ops|, j, l)
    requires var t := Step(c, After(c, disk, ops, |ops|), Cull(false)); k !in t.table && l in t.table
    ensures i < j && Step(c, After(c, disk, ops, |ops|), Cull(false)).table[l] == After(c, disk, ops, |ops|).table[l]
  {
    AfterIsValid(c, disk, ops, |ops|);
    BornBefore(c, disk, ops, |ops|, i, k);
    CullLeavesLater(c, After(c, disk, ops, |ops|), k, l);
    BornInOrder(c, disk, ops, |ops|, k, i, l, j);
  }

  // ---- reading --------------------------------------------------------------------------

  /** A look-up of a key that is neither in the table nor queued leaves a file for its category, and no other trace. */
  lemma TouchLeavesFile(c: Config, s: Store, k: Key)
    ensures var t := Touch(c, s, k);
            && t.order == s.order && t.table == s.table && t.pending == s.pending
            && t.disk == if c.fileCache && k !in s.table && k !in s.pending && CategoryOf(k) !in s.disk
                         then s.disk[CategoryOf(k) := map[]] else s.disk
  {}

  /** What `get` answers: the table is consulted again after `exists`, and the disk value is never fetched. */
  function Get(s: Store, k: Key): Option<Value> {
    if k in s.table then Some(s.table[k]) else None
  }

  /** `get` never answers wrongly, and misses exactly the stored keys that have been culled. */
  lemma GetIsViewUnlessCulled(c: Config, s: Store, k: Key)
    ensures Get(s, k).Some? ==> k in View(c, s) && Get(s, k).value == View(c, s)[k]
    ensures Get(s, k) == Lookup(c, s, k) <==> (k in View(c, s) ==> k in s.table)
  {}

  /** Set and then culled, a key is in the view with its value, and `get` answers nothing. */
  lemma CulledKeyIsMissed(c: Config, s: Store, k: Key, v: Value)
    requires Valid(s) && c.fileCache && k !in s.pending
    ensures var t := StoreAndCull(c, SetKey(s, k, v), true);
            k in View(c, t) && View(c, t)[k] == v && Get(t, k).None?
  {
    StepsKeepValid(s, k, v);
    CullView(c, SetKey(s, k, v), true);
    FullCullEmpties(c, SetKey(s, k, v));
  }

  // ---- shutting down --------------------------------------------------------------------

  lemma FullCullEmpties(c: Config, s: Store)
    requires Valid(s)
    ensures var t := StoreAndCull(c, s, true); t.order == [] && t.table == map[] && t.pending == s.pending
  {
    assert s.order[|s.order|..] == [];
  }

  /** Emptying the memory with nothing awaiting removal is what a restart finds. */
  lemma RestartAfterFullCull(c: Config, s: Store)
    requires Valid(s) && c.fileCache && s.pending == []
    ensures View(c, Restart(StoreAndCull(c, s, true))) == View(c, s)
  {
    var t := StoreAndCull(c, s, true);
    FullCullEmpties(c, s);
    assert Restart(t) == t;
    CullView(c, s, true);
  }

  /** With a removal interval, shutdown writes the whole view to disk and a restart finds it again. */
  lemma ShutdownPersistsView(c: Config, s: Store)
    requires Valid(s) && c.fileCache && c.removalInterval
    ensures Shutdown(c, s).order == [] && Shutdown(c, s).table == map[] && Shutdown(c, s).pending == []
    ensures View(c, Restart(Shutdown(c, s))) == View(c, s)
  {
    var r := RemoveWhen(c, s);
    RemoveWhenView(c, s);
    FullCullEmpties(c, r);
    RestartAfterFullCull(c, r);
  }

  /** Without one, the queue is dropped: a restart agrees with the old view iff no queued key is still on disk. */
  lemma ShutdownWithoutInterval(c: Config, s: Store)
    requires Valid(s) && c.fileCache && !c.removalInterval
    ensures View(c, Restart(Shutdown(c, s))) == View(c, s) <==>
            forall k | k in s.pending && k !in s.table :: !OnDisk(c, s, k)
  {
    var u := s.(pending := []);
    assert Restart(StoreAndCull(c, s, true)) == Restart(StoreAndCull(c, u, true));
    RestartAfterFullCull(c, u);
    ForgettingPending(c, s);
  }

  lemma ForgettingPending(c: Config, s: Store)
    ensures View(c, s.(pending := [])) == View(c, s) <==>
            forall k | k in s.pending && k !in s.table :: !OnDisk(c, s, k)
  {
    var u := s.(pending := []);
    var v, w := View(c, s), View(c, u);
    if k :| k in s.pending && k !in s.table && OnDisk(c, s, k) {
      assert k in w && k !in v;
    } else {
      forall k ensures Lookup(c, u, k) == Lookup(c, s, k) {}
      assert v == w;
    }
  }
}
