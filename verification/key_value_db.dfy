/**
 * The store as the program keeps it: a table, a removal queue and files that the methods change in
 * place. Each method is proved to do what KeyValueModel says, for every outcome of the random draws.
 */
module KeyValueDB {
  import opened Wrappers
  import opened KeyValueModel

  // ---- the batches a cull collects before it writes them ---------------------------------

  /** What `selected_stores` holds once the entries of `gone` have been put aside. */
  function Batches(disk: Disk, gone: map<Key, Value>): Disk {
    map f | f in Categories(gone) :: Load(disk, f) + Slice(gone, f)
  }

  /** Loading a category that has no file yet creates an empty one. */
  function WithFiles(disk: Disk, files: set<Category>): Disk {
    disk + (map f | f in files && f !in disk :: map[])
  }

  lemma WithFilesKeepsContents(disk: Disk, files: set<Category>, f: Category)
    ensures Load(WithFiles(disk, files), f) == Load(disk, f)
    ensures f in files ==> WithFiles(disk, files) == WithFiles(disk, files + {f})
    ensures WithFiles(WithFiles(disk, files), {f}) == WithFiles(disk, files + {f})
  {
    assert f in files ==> files + {f} == files;
  }

  lemma FilesKeepContents(disk: Disk, files: set<Category>)
    ensures forall f :: Load(WithFiles(disk, files), f) == Load(disk, f)
  {
    forall f { WithFilesKeepsContents(disk, files, f); }
  }

  lemma OrderedPart(order: seq<Key>, table: map<Key, Value>)
    requires Ordered(order, table)
    ensures table == Part(table, order)
  {
    assert forall k :: k in order <==> k in Elements(order);
  }

  lemma WithOneFile(disk: Disk, f: Category)
    ensures WithFiles(disk, {f}) == if f in disk then disk else disk[f := map[]]
  {}

  lemma NothingSelected(disk: Disk, table: map<Key, Value>)
    ensures Part(table, []) == map[] && Batches(disk, map[]) == map[] && WithFiles(disk, {}) == disk
  {}

  /** A category that no entry of `gone` belongs to contributes nothing. */
  lemma UntouchedCategory(gone: map<Key, Value>, f: Category)
    ensures f !in Categories(gone) ==> Slice(gone, f) == map[]
  {}

  /** The batches after one more entry has gone into its category's batch. */
  function BatchesWith(disk: Disk, sel: Disk, k: Key, v: Value): Disk {
    var f := CategoryOf(k);
    sel[f := (if f in sel then sel[f] else Load(disk, f))[k := v]]
  }

  lemma BatchesWithKeys(disk: Disk, sel: Disk, k: Key, v: Value)
    ensures BatchesWith(disk, sel, k, v).Keys == sel.Keys + {CategoryOf(k)}
  {}

  lemma BatchesOneMore(disk: Disk, gone: map<Key, Value>, k: Key, v: Value)
    ensures BatchesWith(disk, Batches(disk, gone), k, v) == Batches(disk, gone[k := v])
  {
    var a, b := BatchesWith(disk, Batches(disk, gone), k, v), Batches(disk, gone[k := v]);
    assert a.Keys == b.Keys by { SlicesOneMore(gone, k, v); }
    forall f | f in b ensures a[f] == b[f] {
      BatchOneMore(disk, gone, k, v, f);
    }
  }

  lemma BatchOneMore(disk: Disk, gone: map<Key, Value>, k: Key, v: Value, f: Category)
    requires f in Categories(gone) || f == CategoryOf(k)
    ensures Load(BatchesWith(disk, Batches(disk, gone), k, v), f) == Load(disk, f) + Slice(gone[k := v], f)
  {
    SlicesOneMore(gone, k, v);
    UntouchedCategory(gone, f);
    var was := Load(disk, f) + Slice(gone, f);
    if f == CategoryOf(k) {
      assert was[k := v] == Load(disk, f) + Slice(gone, f)[k := v];
      if f !in Categories(gone) {
        assert was == Load(disk, f);
      }
    }
  }

  lemma WritingBatchesMerges(disk: Disk, gone: map<Key, Value>)
    ensures WithFiles(disk, Batches(disk, gone).Keys) + Batches(disk, gone) == Merge(disk, gone)
  {
    forall f { UntouchedCategory(gone, f); }
    assert forall f :: Load(disk, f) + map[] == Load(disk, f);
  }

  lemma PartOneMore(m: map<Key, Value>, ks: seq<Key>, k: Key)
    requires k in m
    ensures Part(m, ks + [k]) == Part(m, ks)[k := m[k]]
  {}

  lemma PartWithout(m: map<Key, Value>, ks: seq<Key>, k: Key)
    requires Distinct(ks)
    ensures Part(m, Without(ks, k)) == Part(m, ks) - {k}
  {}

  // ---- the loop of a cull -----------------------------------------------------------------

  /**
   * After i rounds the table still ends with the keys past the first m, and the m - i that remain before
   * them are the window the next draw falls into. A full cull reads `ks` front to back instead of cutting it.
   */
  ghost predicate Shape(all: bool, before: seq<Key>, m: nat, i: nat, ks: seq<Key>, order: seq<Key>) {
    && i <= m <= |before| && |order| == |before| - i
    && order[m - i..] == before[m..]
    && Distinct(order)
    && ks == (if all then before else order)
    && (all ==> order == before[i..])
  }

  /** Taking out a position before p moves what starts at p one place forward. */
  lemma TailMoves(q: seq<Key>, j: nat, p: nat)
    requires j < p <= |q|
    ensures (q[..j] + q[j + 1..])[p - 1..] == q[p..]
  {}

  lemma ShapeStep(all: bool, before: seq<Key>, m: nat, i: nat, ks: seq<Key>, order: seq<Key>, k: nat)
    requires Shape(all, before, m, i, ks, order) && i < m
    requires if all then k == i else k < m - i
    ensures ks[k] == order[if all then 0 else k]
    ensures Shape(all, before, m, i + 1, if all then ks else ks[..k] + ks[k + 1..], Without(order, ks[k]))
  {
    var j := if all then 0 else k;
    assert ks[k] == order[j];
    WithoutAt(order, j);
    TailMoves(order, j, m - i);
    if all { TailMoves(order, 0, 1); }
  }

  lemma ShapeEnds(all: bool, before: seq<Key>, m: nat, ks: seq<Key>, order: seq<Key>)
    requires Shape(all, before, m, m, ks, order)
    ensures m <= |before| && order == before[m..]
  {
    assert order[0..] == order;
  }

  /** `gone` names what has left the table, and its entries are in the batches. */
  ghost predicate Books(before: Store, gone: seq<Key>, order: seq<Key>, table: map<Key, Value>, sel: Disk, base: Disk) {
    && table == Part(before.table, order)
    && (forall k :: k in gone <==> k in before.order && k !in order)
    && sel == Batches(base, Part(before.table, gone))
  }

  lemma BooksStep(before: Store, gone: seq<Key>, order: seq<Key>, table: map<Key, Value>, sel: Disk, base: Disk,
                  ky: Key)
    requires KeyValueModel.Valid(before) && Books(before, gone, order, table, sel, base) && Distinct(order)
    requires ky in order && ky in before.order
    ensures ky in table && ky in before.table && table[ky] == before.table[ky]
    ensures Books(before, gone + [ky], Without(order, ky), table - {ky}, BatchesWith(base, sel, ky, table[ky]), base)
  {
    assert forall k :: k in before.table <==> k in Elements(before.order);
    PartWithout(before.table, order, ky);
    PartOneMore(before.table, gone, ky);
    BatchesOneMore(base, Part(before.table, gone), ky, before.table[ky]);
    WithoutElements(order, ky);
    assert forall x :: x in Without(order, ky) <==> x in Elements(order) - {ky};
  }

  lemma LoopStarts(all: bool, before: Store, m: nat, base: Disk)
    requires KeyValueModel.Valid(before) && m <= |before.order|
    ensures Shape(all, before.order, m, 0, before.order, before.order)
    ensures Books(before, [], before.order, before.table, map[], base) && WithFiles(before.disk, {}) == before.disk
  {
    NothingSelected(base, before.table);
    NothingSelected(before.disk, before.table);
    OrderedPart(before.order, before.table);
  }

  /** When the window is used up and the batches are written, the m oldest entries have been evicted. */
  lemma LoopDone(c: Config, before: Store, m: nat, gone: seq<Key>, order: seq<Key>, table: map<Key, Value>, sel: Disk)
    requires KeyValueModel.Valid(before) && m <= |before.order| && order == before.order[m..]
    requires Books(before, gone, order, table, sel, if c.fileCache then before.disk else map[])
    ensures var disk := if c.fileCache then WithFiles(before.disk, sel.Keys) + sel else before.disk;
            Store(order, table, before.pending, disk) == Evict(c, before, m)
  {
    EvictSplits(before, m);
    assert forall k :: k in before.table <==> k in Elements(before.order);
    assert Part(before.table, gone) == Part(before.table, before.order[..m]);
    WritingBatchesMerges(before.disk, Part(before.table, gone));
  }

  // ---- sweeping the removal queue -------------------------------------------------------

  lemma EraseNone(disk: Disk)
    ensures Erase(disk, {}) == disk
  {
    forall f | f in disk ensures Erase(disk, {})[f] == disk[f] {}
  }

  lemma EraseOne(disk: Disk, key: Key)
    ensures var f := CategoryOf(key);
            Erase(disk, {key}) == if f in disk && key in disk[f] then disk[f := disk[f] - {key}] else disk
  {
    forall f | f in disk
      ensures Erase(disk, {key})[f] == if f == CategoryOf(key) then disk[f] - {key} else disk[f]
    {}
    assert forall f | f in disk && key !in disk[f] :: disk[f] - {key} == disk[f];
  }

  lemma EraseTwice(disk: Disk, a: set<Key>, b: set<Key>)
    ensures Erase(Erase(disk, a), b) == Erase(disk, a + b)
  {
    forall f | f in disk ensures Erase(Erase(disk, a), b)[f] == Erase(disk, a + b)[f] {}
  }

  class KeyValueDBDefault {
    const conf: Config
    var order: seq<Key>
    var table: map<Key, Value>
    var keysToRemove: seq<Key>
    var disk: Disk

    ghost function Model(): Store
      reads this
    {
      Store(order, table, keysToRemove, disk)
    }

    ghost predicate Valid()
      reads this`order, this`table
    {
      Ordered(order, table)
    }

    /** A new process starts with whatever files its predecessor left. */
    constructor (conf: Config, disk: Disk)
      ensures this.conf == conf && Valid()
      ensures Model() == Restart(Store([], map[], [], disk))
    {
      this.conf := conf;
      this.order, this.table, this.keysToRemove, this.disk := [], map[], [], disk;
    }

    method Set(key: Key, value: Value)
      requires Valid()
      modifies this`order, this`table
      ensures Valid() && Model() == SetKey(old(Model()), key, value)
    {
      if key !in table {
        order := order + [key];
      }
      table := table[key := value];
      StepsKeepValid(old(Model()), key, value);
    }

    method DropFromTable(key: Key)
      requires Valid()
      modifies this`order, this`table
      ensures Valid() && order == Without(old(order), key) && table == old(table) - {key}
    {
      WithoutElements(order, key);
      order := Without(order, key);
      table := table - {key};
    }

    method Delete(key: Key)
      requires Valid()
      modifies this
      ensures Valid() && Model() == DeleteKey(old(Model()), key)
    {
      DropFromTable(key);
      keysToRemove := keysToRemove + [key];
    }

    method LoadDataCategory(file: Category) returns (keyMap: map<Key, Value>)
      modifies this`disk
      ensures keyMap == if conf.fileCache then Load(old(disk), file) else map[]
      ensures disk == if conf.fileCache && file !in old(disk) then old(disk)[file := map[]] else old(disk)
    {
      keyMap := map[];
      if conf.fileCache {
        if file !in disk {
          disk := disk[file := map[]];
        }
        keyMap := disk[file];
      }
    }

    method Exists(key: Key) returns (found: bool)
      requires Valid()
      modifies this`disk
      ensures Valid() && Model() == Touch(conf, old(Model()), key)
      ensures found <==> key in View(conf, old(Model()))
    {
      found := key in table;
      if !found && key !in keysToRemove {
        var storage := LoadDataCategory(CategoryOf(key));
        found := key in storage;
      }
    }

    function InTable(key: Key): Option<Value>
      reads this`table
    {
      if key in table then Some(table[key]) else None
    }

    method Get(key: Key) returns (value: Option<Value>)
      requires Valid()
      modifies this`disk
      ensures Valid() && Model() == Touch(conf, old(Model()), key)
      ensures value == KeyValueModel.Get(old(Model()), key)
    {
      if key in table {
        return InTable(key);
      }
      var canFind := Exists(key);
      if canFind {
        return InTable(key);   // nothing has been loaded into the table meanwhile
      }
      value := None;
    }

    method RemoveExistence(key: Key)
      modifies this`disk
      ensures disk == if conf.fileCache then Erase(old(disk), {key}) else old(disk)
    {
      if conf.fileCache {
        var file := CategoryOf(key);
        if file in disk && key in disk[file] {
          disk := disk[file := disk[file] - {key}];
        }
        EraseOne(old(disk), key);
      }
    }

    method RemoveWhen()
      requires Valid()
      modifies this`disk, this`keysToRemove
      ensures Valid() && Model() == KeyValueModel.RemoveWhen(conf, old(Model()))
    {
      ghost var done: set<Key> := {};
      EraseNone(disk);
      while |keysToRemove| > 0
        invariant Elements(old(keysToRemove)) == done + Elements(keysToRemove)
        invariant disk == if conf.fileCache then Erase(old(disk), done) else old(disk)
        invariant unchanged(`order) && unchanged(`table)
      {
        var key := keysToRemove[0];
        assert keysToRemove == [key] + keysToRemove[1..];
        keysToRemove := keysToRemove[1..];
        RemoveExistence(key);
        EraseTwice(old(disk), done, {key});
        done := done + {key};
      }
      assert keysToRemove == [] && done == Elements(old(keysToRemove));
    }

    /** Math.random: any index below the limit. */
    method GetRandomIndex(limit: nat) returns (index: nat)
      requires limit > 0
      ensures index < limit
    {
      index :| 0 <= index < limit;
    }

    method WriteDataCategories(stores: map<Category, map<Key, Value>>)
      modifies this`disk
      ensures disk == if conf.fileCache then old(disk) + stores else old(disk)
    {
      if conf.fileCache {
        var files := stores.Keys;
        while files != {}
          invariant files <= stores.Keys
          invariant disk == old(disk) + (map f | f in stores && f !in files :: stores[f])
        {
          var file :| file in files;
          disk := disk[file := stores[file]];
          files := files - {file};
        }
      }
    }

    /** The batch a category has, or else begins with: what its file holds. */
    method BatchFor(selected: Disk, file: Category) returns (batch: map<Key, Value>)
      modifies this`disk
      ensures batch == if file in selected then selected[file]
                       else Load(if conf.fileCache then old(disk) else map[], file)
      ensures disk == if conf.fileCache && file !in selected then WithFiles(old(disk), {file}) else old(disk)
    {
      if file in selected {
        return selected[file];
      }
      WithOneFile(disk, file);
      batch := LoadDataCategory(file);
    }

    /** One entry leaves the table for its category's batch. */
    method PutAside(selected: Disk, ky: Key) returns (next: Disk)
      requires Valid() && ky in table
      modifies this`order, this`table, this`disk
      ensures Valid() && order == Without(old(order), ky) && table == old(table) - {ky}
      ensures next == BatchesWith(if conf.fileCache then old(disk) else map[], selected, ky, old(table)[ky])
      ensures disk ==
              if conf.fileCache && CategoryOf(ky) !in selected then WithFiles(old(disk), {CategoryOf(ky)})
              else old(disk)
    {
      var value := table[ky];
      DropFromTable(ky);
      var batch := BatchFor(selected, CategoryOf(ky));
      next := selected[CategoryOf(ky) := batch[ky := value]];
    }

    /** One round of the cull's loop: key number k of `ks` leaves the table. */
    method Round(all: bool, ghost was: Store, ghost m: nat, ghost gone: seq<Key>,
                 i: nat, k: nat, ks: seq<Key>, selected: Disk)
      returns (ks': seq<Key>, selected': Disk)
      requires KeyValueModel.Valid(was) && Valid() && i < m
      requires if all then k == i else k < m - i
      requires Shape(all, was.order, m, i, ks, order)
      requires Books(was, gone, order, table, selected, if conf.fileCache then was.disk else map[])
      requires disk == if conf.fileCache then WithFiles(was.disk, selected.Keys) else was.disk
      modifies this`order, this`table, this`disk
      ensures Valid() && Shape(all, was.order, m, i + 1, ks', order)
      ensures k < |ks|
      ensures Books(was, gone + [ks[k]], order, table, selected', if conf.fileCache then was.disk else map[])
      ensures disk == if conf.fileCache then WithFiles(was.disk, selected'.Keys) else was.disk
    {
      var ky := ks[k];
      ShapeStep(all, was.order, m, i, ks, order, k);
      assert ky in Elements(order);
      assert ky in was.order by { assert ky in was.table && ky in Elements(was.order); }
      ghost var base: Disk := if conf.fileCache then was.disk else map[];
      BooksStep(was, gone, order, table, selected, base, ky);
      WithFilesKeepsContents(was.disk, selected.Keys, CategoryOf(ky));
      ks' := if all then ks else ks[..k] + ks[k + 1..];
      selected' := PutAside(selected, ky);
      BatchesWithKeys(base, selected, ky, old(table)[ky]);
    }

    /** The window is used up: the batches are written. */
    method WriteBatches(all: bool, ghost was: Store, ghost m: nat, ghost gone: seq<Key>, ghost ks: seq<Key>,
                        selected: Disk)
      requires KeyValueModel.Valid(was) && keysToRemove == was.pending && Shape(all, was.order, m, m, ks, order)
      requires Books(was, gone, order, table, selected, if conf.fileCache then was.disk else map[])
      requires disk == if conf.fileCache then WithFiles(was.disk, selected.Keys) else was.disk
      modifies this`disk
      ensures m <= |was.order| && Model() == Evict(conf, was, m)
    {
      ShapeEnds(all, was.order, m, ks, order);
      LoopDone(conf, was, m, gone, order, table, selected);
      WriteDataCategories(selected);
    }

    /** One draw: a key leaves the table, unless there is none left at the place drawn. */
    method Draw(all: bool, sendCount: nat, ghost was: Store, ghost m: nat, ghost gone: seq<Key>,
                i: nat, ks: seq<Key>, selected: Disk)
      returns (stop: bool, ks': seq<Key>, selected': Disk, ghost gone': seq<Key>)
      requires KeyValueModel.Valid(was) && Valid() && i < sendCount
      requires m == (if sendCount <= |was.order| then sendCount else |was.order|) && (all ==> m == sendCount)
      requires Shape(all, was.order, m, i, ks, order)
      requires Books(was, gone, order, table, selected, if conf.fileCache then was.disk else map[])
      requires disk == if conf.fileCache then WithFiles(was.disk, selected.Keys) else was.disk
      modifies this`order, this`table, this`disk
      ensures Valid() && (stop ==> m < sendCount)
      ensures Shape(all, was.order, m, if stop then i else i + 1, ks', order)
      ensures Books(was, gone', order, table, selected', if conf.fileCache then was.disk else map[])
      ensures disk == if conf.fileCache then WithFiles(was.disk, selected'.Keys) else was.disk
    {
      var k := i;
      if !all { k := GetRandomIndex(sendCount - i); }
      if k >= |ks| {
        return true, ks, selected, gone;   // ks[k] is undefined, and taking its prefix raises a TypeError
      }
      ks', selected' := Round(all, was, m, gone, i, k, ks, selected);
      stop, gone' := false, gone + [ks[k]];
    }

    /**
     * The loop: entries leave the table for the batches until `sendCount` have gone, or there is none left to draw.
     * `gone` and `m` say which and how many.
     */
    method Collect(all: bool, sendCount: nat)
      returns (threw: bool, selected: Disk, ghost m: nat, ghost gone: seq<Key>, ghost left: seq<Key>)
      requires Valid() && (all ==> sendCount == |order|)
      modifies this`order, this`table, this`disk
      ensures Valid() && m <= |old(order)| && (threw <==> sendCount > |old(order)|) && (!threw ==> m == sendCount)
      ensures !threw ==> Shape(all, old(order), m, m, left, order)
      ensures Books(old(Model()), gone, order, table, selected, if conf.fileCache then old(disk) else map[])
      ensures disk == if conf.fileCache then WithFiles(old(disk), selected.Keys) else old(disk)
    {
      var ks := order;
      selected := map[];
      ghost var was := Model();
      m := if sendCount <= |order| then sendCount else |order|;
      gone := [];
      LoopStarts(all, was, m, if conf.fileCache then disk else map[]);
      var i := 0;
      threw := false;
      while i < sendCount && !threw
        invariant Valid() && (threw ==> m < sendCount) && i <= m
        invariant Shape(all, was.order, m, i, ks, order)
        invariant Books(was, gone, order, table, selected, if conf.fileCache then was.disk else map[])
        invariant disk == if conf.fileCache then WithFiles(was.disk, selected.Keys) else was.disk
        decreases sendCount - i, !threw
      {
        threw, ks, selected, gone := Draw(all, sendCount, was, m, gone, i, ks, selected);
        i := if threw then i else i + 1;
      }
      left := ks;
    }

    /**
     * The draws do not matter: `sendCount` entries leave, the ones inserted first, and it fails exactly when there
     * are fewer entries than that.
     */
    method MoveToDisk(all: bool, sendCount: nat) returns (threw: bool)
      requires Valid() && (all ==> sendCount == |order|)
      modifies this`order, this`table, this`disk
      ensures Valid()
      ensures threw <==> sendCount > |old(order)|
      ensures !threw ==> Model() == Evict(conf, old(Model()), sendCount)
      ensures threw ==> table.Keys <= old(table).Keys && forall f :: Load(disk, f) == Load(old(disk), f)
    {
      ghost var was, m, gone, left := Model(), 0, [], [];
      var selected: Disk;
      threw, selected, m, gone, left := Collect(all, sendCount);
      if threw {
        FilesKeepContents(was.disk, selected.Keys);
      } else {
        WriteBatches(all, was, m, gone, left, selected);
      }
    }

    /** A failed cull has dropped entries from the table and written none of them. */
    method PersistenceStoreAndCull(all: bool) returns (threw: bool)
      requires Valid()
      modifies this`order, this`table, this`disk
      ensures Valid()
      ensures threw <==> old(Overdraws(conf, Model(), all))
      ensures !threw ==> Model() == StoreAndCull(conf, old(Model()), all)
      ensures threw ==> table.Keys <= old(table).Keys && forall f :: Load(disk, f) == Load(old(disk), f)
    {
      threw := false;
      var n := |order|;
      if n > conf.maxInMem || all {
        threw := MoveToDisk(all, if all then n else conf.releaseSize);
      }
    }

    method Shutdown() returns (threw: bool)
      requires Valid()
      modifies this
      ensures Valid() && !threw && Model() == KeyValueModel.Shutdown(conf, old(Model()))
    {
      if conf.removalInterval {
        RemoveWhen();
      }
      threw := PersistenceStoreAndCull(true);
    }
  }
}
