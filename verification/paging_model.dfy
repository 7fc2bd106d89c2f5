/**
 * Large objects of the static store. The full object is kept in a pageable element and its flat text is
 * written to a file; the object the caller passed is clipped to a skeleton. After a write the full object
 * may be paged out, and it is read back from the file when it is wanted. Writing and reading take time: what
 * happens between the start of a write or a read and its end is any mix of other operations.
 */
module PagingModel {
  import opened Wrappers
  import StorePath

  type Key = string
  type Req = nat
  type File = string
  datatype Val = Str(text: string) | Num(n: int)
  type Fields = map<string, Val>

  /** What stringify makes of an object; parsing it gives the object back. */
  datatype Text = Text(fields: Fields, length: nat)

  /**
   * obj is None when the object is paged out; flat is None when there is no text to write. added is history: the
   * identity fields that the object in memory has got from the store and that were not stashed.
   */
  datatype Element = Element(file: File, obj: Option<Fields>, flat: Option<Text>, unhooked: bool, added: set<string>)

  /** keepsFlat says whether reading an object back keeps its text; the program does not. */
  datatype Config = Config(maxGroupStorage: nat, keepsFlat: bool)

  /** What a load has read for an element: None when the file could not be read. */
  datatype Loaded = Loaded(key: Key, text: Option<Text>)

  /**
   * writing has the element of every backup write under way, and reading what every load under way has read.
   * stashed is history: the object last stashed under each key.
   */
  datatype Store = Store(rep: map<Key, Element>, files: map<File, Text>, writing: map<Req, Key>,
                         reading: map<Req, Loaded>, stashed: map<Key, Fields>)

  const KEY := "_key"
  const CLIP_LENGTH := 64

  /** The default hash makes a number; as a name in the table of elements it is decimal text. */
  function KeyOf(v: Val): Key {
    match v
    case Str(text) => text
    case Num(n) => if n < 0 then "-" + StorePath.Digits(-n) else StorePath.Digits(n)
  }

  /** An empty string and zero count as no key when an object is met again at start-up. */
  predicate Truthy(v: Val) {
    v != Str("") && v != Num(0)
  }

  lemma SignIsSeen(n: int)
    ensures KeyOf(Num(n)) != "" && (KeyOf(Num(n))[0] == '-' <==> n < 0)
    ensures KeyOf(Num(n)) == if n < 0 then "-" + StorePath.Digits(-n) else StorePath.Digits(n)
  {
    if n >= 0 { assert StorePath.IsDigit(StorePath.Digits(n)[0]); }
  }

  /** A text is its own name in the table, and different numbers have different names. */
  lemma KeysAreApart(a: int, b: int, text: string)
    ensures KeyOf(Str(text)) == text && (KeyOf(Num(a)) == KeyOf(Num(b)) ==> a == b)
  {
    if KeyOf(Num(a)) == KeyOf(Num(b)) {
      SignIsSeen(a);
      SignIsSeen(b);
      if a < 0 {
        assert KeyOf(Num(a))[1..] == StorePath.Digits(-a) && KeyOf(Num(b))[1..] == StorePath.Digits(-b);
        DigitsAreApart(-a, -b);
      } else {
        DigitsAreApart(a, b);
      }
    }
  }

  lemma DigitsAreApart(a: nat, b: nat)
    requires StorePath.Digits(a) == StorePath.Digits(b)
    ensures a == b
  {
    StorePath.ValueOfDigits(a);
    StorePath.ValueOfDigits(b);
  }

  // ---- clipping -----------------------------------------------------------------------------------

  predicate Long(v: Val) {
    v.Str? && |v.text| > CLIP_LENGTH
  }

  function Clip(o: Fields): Fields {
    map f | f in o :: if Long(o[f]) then Str("@" + f) else o[f]
  }

  /** A skeleton is what clipping once more leaves alone. */
  lemma ClipTwiceIsClip(o: Fields)
    ensures Clip(Clip(o)) == Clip(o)
  {}

  // ---- the operations -------------------------------------------------------------------------------

  /** A write or a read that ends after its element has been replaced no longer concerns the table. */
  function OtherWrites(writing: map<Req, Key>, k: Key): map<Req, Key> {
    map r | r in writing && writing[r] != k :: writing[r]
  }

  function OtherReads(reading: map<Req, Loaded>, k: Key): map<Req, Loaded> {
    map r | r in reading && reading[r].key != k :: reading[r]
  }

  /** What the caller's object has become: with the identity fields it did not have yet, and its key. */
  function Marked(o: Fields, marks: Fields, key: Val): Fields {
    (marks + o)[KEY := key]
  }

  /** A new element replaces any other under the key. */
  function AfterCreate(s: Store, key: Val, file: File, t: Text, marks: Fields): Store {
    var k := KeyOf(key);
    var e := Element(file, Some(Marked(t.fields, marks, key)), Some(t), false, marks.Keys - t.fields.Keys);
    Store(s.rep[k := e], s.files, OtherWrites(s.writing, k), OtherReads(s.reading, k), s.stashed[k := t.fields])
  }

  /** Stashing under a key that has no element does nothing. */
  function AfterUpdate(s: Store, k: Key, t: Text): Store {
    if k !in s.rep then s
    else s.(rep := s.rep[k := s.rep[k].(obj := Some(t.fields), flat := Some(t), unhooked := false, added := {})],
            stashed := s.stashed[k := t.fields])
  }

  /** Writing an element that has no text fails, and with it the rest of the backup. */
  predicate WriteFails(s: Store, k: Key) {
    k in s.rep && s.rep[k].flat.None?
  }

  function AfterWrite(s: Store, r: Req, k: Key): Store {
    if k !in s.rep || WriteFails(s, k) then s
    else s.(files := s.files[s.rep[k].file := s.rep[k].flat.value], writing := s.writing[r := k])
  }

  function PagedOut(e: Element): Element {
    e.(obj := None, unhooked := true, added := {})
  }

  /** Once the write is done the object may be dropped from memory. */
  function AfterWriteDone(s: Store, r: Req, pageOut: bool): Store {
    if r !in s.writing then s
    else
      var k := s.writing[r];
      var rep := if pageOut && k in s.rep then s.rep[k := PagedOut(s.rep[k])] else s.rep;
      s.(writing := s.writing - {r}, rep := rep)
  }

  function ReadFile(files: map<File, Text>, file: File): Option<Text> {
    if file in files then Some(files[file]) else None
  }

  /** A file that cannot be read parses to an object without fields. */
  function TextFields(t: Option<Text>): Fields {
    if t.Some? then t.value.fields else map[]
  }

  /** Only an object that is paged out is read back. */
  function AfterRead(s: Store, r: Req, k: Key): Store {
    if k !in s.rep || !s.rep[k].unhooked then s
    else s.(reading := s.reading[r := Loaded(k, ReadFile(s.files, s.rep[k].file))])
  }

  function ReadBack(c: Config, e: Element, t: Option<Text>): Element {
    e.(obj := Some(TextFields(t)), flat := if c.keepsFlat then t else None, unhooked := false, added := {})
  }

  /** What was read becomes the object, whatever has happened to the element in the meantime. */
  function AfterReadDone(c: Config, s: Store, r: Req): Store {
    if r !in s.reading then s
    else
      var l := s.reading[r];
      var rep := if l.key in s.rep then s.rep[l.key := ReadBack(c, s.rep[l.key], l.text)] else s.rep;
      s.(reading := s.reading - {r}, rep := rep)
  }

  function AfterClear(s: Store, k: Key): Store {
    Store(s.rep - {k}, s.files, OtherWrites(s.writing, k), OtherReads(s.reading, k), s.stashed - {k})
  }

  /** The object an element stands for: in memory, or else in its file. */
  function Current(s: Store, k: Key): Fields
    requires k in s.rep
  {
    var e := s.rep[k];
    if e.unhooked then TextFields(ReadFile(s.files, e.file))
    else if e.obj.Some? then e.obj.value
    else map[]
  }

  /**
   * What application_large_data_from_stash answers for an object, when nothing else comes in between: itself,
   * unless its key has an element.
   */
  function FromStash(s: Store, o: Fields): Fields {
    if KEY in o && KeyOf(o[KEY]) in s.rep then Current(s, KeyOf(o[KEY]))[KEY := o[KEY]] else o
  }

  datatype Op =
    | Create(key: Val, file: File, text: Text, marks: Fields)
    | Update(k: Key, text: Text)
    | Write(r: Req, k: Key)
    | WriteDone(r: Req, pageOut: bool)
    | Read(r: Req, k: Key)
    | ReadDone(r: Req)
    | Clear(k: Key)

  function Step(c: Config, s: Store, op: Op): Store {
    match op
    case Create(key, file, t, marks) => AfterCreate(s, key, file, t, marks)
    case Update(k, t) => AfterUpdate(s, k, t)
    case Write(r, k) => AfterWrite(s, r, k)
    case WriteDone(r, pageOut) => AfterWriteDone(s, r, pageOut)
    case Read(r, k) => AfterRead(s, r, k)
    case ReadDone(r) => AfterReadDone(c, s, r)
    case Clear(k) => AfterClear(s, k)
  }

  function Run(c: Config, s: Store, ops: seq<Op>): Store
    decreases |ops|
  {
    if ops == [] then s else Run(c, Step(c, s, ops[0]), ops[1..])
  }

  const EMPTY := Store(map[], map[], map[], map[], map[])

  // ---- what every run keeps -------------------------------------------------------------------------

  /** There is always something to answer with: an object in memory, or a file, which reads under way have read. */
  ghost predicate Present(s: Store) {
    && (forall k | k in s.rep :: if s.rep[k].unhooked then s.rep[k].file in s.files else s.rep[k].obj.Some?)
    && (forall r | r in s.writing && s.writing[r] in s.rep :: s.rep[s.writing[r]].file in s.files)
    && (forall r | r in s.reading && s.reading[r].key in s.rep :: s.reading[r].text.Some?)
  }

  lemma StepKeepsPresent(c: Config, s: Store, op: Op)
    requires Present(s)
    ensures Present(Step(c, s, op))
  {}

  /** Each element has a file that no other element has. */
  ghost predicate OwnFiles(s: Store) {
    forall k, l | k in s.rep && l in s.rep && k != l :: s.rep[k].file != s.rep[l].file
  }

  /** A new element comes with a file of its own; request numbers are fresh. */
  ghost predicate Fits(s: Store, op: Op) {
    match op
    case Create(key, file, _, _) => forall l | l in s.rep && l != KeyOf(key) :: s.rep[l].file != file
    case Write(r, _) => r !in s.writing
    case Read(r, _) => r !in s.reading
    case _ => true
  }

  ghost predicate FittingRun(c: Config, s: Store, ops: seq<Op>)
    decreases |ops|
  {
    ops != [] ==> Fits(s, ops[0]) && FittingRun(c, Step(c, s, ops[0]), ops[1..])
  }

  // ---- one object, in memory or on file ---------------------------------------------------------------

  /** The same fields, the key apart. */
  predicate Same(a: Fields, b: Fields) {
    a - {KEY} == b - {KEY}
  }

  /** What the element stands for, without the identity fields it has got from the store. */
  function Bare(s: Store, k: Key): Fields
    requires k in s.rep
  {
    Current(s, k) - s.rep[k].added
  }

  /** If there is an element for k, it stands for the object last stashed under k. */
  predicate Whole(s: Store, k: Key) {
    k in s.rep ==> k in s.stashed && Same(Bare(s, k), s.stashed[k])
  }

  /** The element's text is that of the object last stashed, and what a backup has just written is in the file. */
  ghost predicate TextOk(s: Store, k: Key) {
    k in s.rep ==>
      && (s.rep[k].flat.Some? && k in s.stashed ==> Same(s.rep[k].flat.value.fields, s.stashed[k]))
      && (s.rep[k].unhooked ==> s.rep[k].added == {} && s.rep[k].file in s.files)
      && (forall r | r in s.writing && s.writing[r] == k :: s.rep[k].file in s.files)
  }

  ghost predicate Sound(s: Store, k: Key) {
    OwnFiles(s) && Whole(s, k) && TextOk(s, k)
  }

  /** Paging k out drops nothing but what is in the file. */
  predicate PageOutFits(s: Store, op: Op, k: Key) {
    op.WriteDone? && op.pageOut && op.r in s.writing && s.writing[op.r] == k && k in s.rep ==>
      Same(TextFields(ReadFile(s.files, s.rep[k].file)), Bare(s, k))
  }

  /** When a read of k is done, what was read is still what the element stands for. */
  predicate ReadFits(s: Store, op: Op, k: Key) {
    op.ReadDone? && op.r in s.reading && s.reading[op.r].key == k && k in s.rep ==>
      Same(TextFields(s.reading[op.r].text), Bare(s, k))
  }

  lemma CreateKeeps(s: Store, key: Val, file: File, t: Text, marks: Fields, k: Key)
    requires Sound(s, k) && Fits(s, Create(key, file, t, marks))
    ensures Sound(AfterCreate(s, key, file, t, marks), k)
  {
    var u := AfterCreate(s, key, file, t, marks);
    if k == KeyOf(key) { MarkedIsSame(t.fields, marks, key); } else if k in s.rep { assert Bare(u, k) == Bare(s, k); }
  }

  lemma MarkedIsSame(o: Fields, marks: Fields, key: Val)
    ensures Same(Marked(o, marks, key) - (marks.Keys - o.Keys), o)
  {}

  lemma SameElement(s: Store, u: Store, k: Key)
    requires k in s.rep && k in u.rep && u.rep[k] == s.rep[k]
    requires s.rep[k].unhooked ==> ReadFile(u.files, s.rep[k].file) == ReadFile(s.files, s.rep[k].file)
    ensures Bare(u, k) == Bare(s, k)
  {}

  lemma UpdateKeeps(s: Store, l: Key, t: Text, k: Key)
    requires Sound(s, k)
    ensures Sound(AfterUpdate(s, l, t), k)
  {
    var u := AfterUpdate(s, l, t);
    if l == k && k in s.rep {
      assert Bare(u, k) == t.fields - {} == t.fields;
    } else if k in s.rep {
      SameElement(s, u, k);
    }
  }

  lemma WriteKeeps(s: Store, r: Req, l: Key, k: Key)
    requires Sound(s, k)
    ensures Sound(AfterWrite(s, r, l), k)
  {
    var u := AfterWrite(s, r, l);
    if k in s.rep {
      if l == k && s.rep[k].unhooked && s.rep[k].flat.Some? {
        assert Bare(u, k) == s.rep[k].flat.value.fields - {} == s.rep[k].flat.value.fields;
      } else {
        SameElement(s, u, k);
      }
    }
  }

  /**
   * Paging an object out when its write is done keeps it whole if and only if what is dropped from memory is what
   * is in the file: nothing else was stashed, or read back, while the write was under way.
   */
  lemma LatePageOutIff(s: Store, r: Req, k: Key)
    requires Sound(s, k) && r in s.writing && s.writing[r] == k && k in s.rep
    ensures Whole(AfterWriteDone(s, r, true), k) <==> PageOutFits(s, WriteDone(r, true), k)
  {
    var u := AfterWriteDone(s, r, true);
    var t := TextFields(ReadFile(s.files, s.rep[k].file));
    assert Bare(u, k) == t - {} == t;
  }

  lemma WriteDoneKeeps(s: Store, r: Req, pageOut: bool, k: Key)
    requires Sound(s, k) && PageOutFits(s, WriteDone(r, pageOut), k)
    ensures Sound(AfterWriteDone(s, r, pageOut), k)
  {
    var u := AfterWriteDone(s, r, pageOut);
    if k in s.rep {
      if pageOut && r in s.writing && s.writing[r] == k { LatePageOutIff(s, r, k); } else { SameElement(s, u, k); }
    }
  }

  lemma ReadKeeps(s: Store, r: Req, l: Key, k: Key)
    requires Sound(s, k)
    ensures Sound(AfterRead(s, r, l), k)
  {
    if k in s.rep { SameElement(s, AfterRead(s, r, l), k); }
  }

  /**
   * Ending a read keeps the object whole if and only if what was read is still what the element stands for:
   * nothing else was stashed while the read was under way.
   */
  lemma LateReadIff(c: Config, s: Store, r: Req, k: Key)
    requires Sound(s, k) && r in s.reading && s.reading[r].key == k && k in s.rep
    ensures Whole(AfterReadDone(c, s, r), k) <==> ReadFits(s, ReadDone(r), k)
  {
    var t := TextFields(s.reading[r].text);
    assert Bare(AfterReadDone(c, s, r), k) == t - {} == t;
  }

  lemma ReadDoneKeeps(c: Config, s: Store, r: Req, k: Key)
    requires Sound(s, k) && ReadFits(s, ReadDone(r), k)
    ensures Sound(AfterReadDone(c, s, r), k)
  {
    if k in s.rep {
      if r in s.reading && s.reading[r].key == k {
        LateReadIff(c, s, r, k);
      } else {
        SameElement(s, AfterReadDone(c, s, r), k);
      }
    }
  }

  lemma ClearKeeps(s: Store, l: Key, k: Key)
    requires Sound(s, k)
    ensures Sound(AfterClear(s, l), k)
  {
    if k in s.rep && k != l { SameElement(s, AfterClear(s, l), k); }
  }

  lemma StepKeeps(c: Config, s: Store, op: Op, k: Key)
    requires Sound(s, k) && Fits(s, op) && PageOutFits(s, op, k) && ReadFits(s, op, k)
    ensures Sound(Step(c, s, op), k)
  {
    match op
    case Create(key, file, t, marks) => CreateKeeps(s, key, file, t, marks, k);
    case Update(l, t) => UpdateKeeps(s, l, t, k);
    case Write(r, l) => WriteKeeps(s, r, l, k);
    case WriteDone(r, pageOut) => WriteDoneKeeps(s, r, pageOut, k);
    case Read(r, l) => ReadKeeps(s, r, l, k);
    case ReadDone(r) => ReadDoneKeeps(c, s, r, k);
    case Clear(l) => ClearKeeps(s, l, k);
  }

  /** Each write and each read ends once, and no other with it. */
  lemma EndsOnce(c: Config, s: Store, r: Req, pageOut: bool)
    ensures AfterWriteDone(s, r, pageOut).writing == s.writing - {r}
    ensures AfterWriteDone(s, r, pageOut).reading == s.reading
    ensures AfterReadDone(c, s, r).reading == s.reading - {r} && AfterReadDone(c, s, r).writing == s.writing
  {
    if r !in s.writing { assert s.writing - {r} == s.writing; }
    if r !in s.reading { assert s.reading - {r} == s.reading; }
  }

  // ---- runs ---------------------------------------------------------------------------------------------

  ghost predicate EndsFit(c: Config, s: Store, ops: seq<Op>, k: Key)
    decreases |ops|
  {
    ops != [] ==> PageOutFits(s, ops[0], k) && ReadFits(s, ops[0], k) && EndsFit(c, Step(c, s, ops[0]), ops[1..], k)
  }

  ghost predicate WholeThroughout(c: Config, s: Store, ops: seq<Op>, k: Key)
    decreases |ops|
  {
    Whole(s, k) && (ops != [] ==> WholeThroughout(c, Step(c, s, ops[0]), ops[1..], k))
  }

  lemma {:induction false} WholeThroughoutIff(c: Config, s: Store, ops: seq<Op>, k: Key)
    requires Sound(s, k) && FittingRun(c, s, ops)
    ensures WholeThroughout(c, s, ops, k) <==> EndsFit(c, s, ops, k)
    decreases |ops|
  {
    if ops != [] {
      if !PageOutFits(s, ops[0], k) {
        LatePageOutIff(s, ops[0].r, k);
      } else if !ReadFits(s, ops[0], k) {
        LateReadIff(c, s, ops[0].r, k);
      } else {
        StepKeeps(c, s, ops[0], k);
        WholeThroughoutIff(c, Step(c, s, ops[0]), ops[1..], k);
      }
    }
  }

  /**
   * Paging is transparent, exactly: in every run, whatever mix of stashes, writes, page-outs, reads and clears it
   * holds, an element stands for the object last stashed at every moment if and only if each page-out drops only
   * what is in the file, and each read ends while the element still stands for what was read. Whether reading back
   * keeps the text makes no difference.
   */
  lemma PagingIsTransparentIff(c: Config, ops: seq<Op>, k: Key)
    requires FittingRun(c, EMPTY, ops)
    ensures WholeThroughout(c, EMPTY, ops, k) <==> EndsFit(c, EMPTY, ops, k)
  {
    WholeThroughoutIff(c, EMPTY, ops, k);
  }

  lemma {:induction false} FittingRunIsSound(c: Config, s: Store, ops: seq<Op>, k: Key)
    requires Sound(s, k) && FittingRun(c, s, ops) && EndsFit(c, s, ops, k)
    ensures Sound(Run(c, s, ops), k)
    decreases |ops|
  {
    if ops != [] {
      StepKeeps(c, s, ops[0], k);
      FittingRunIsSound(c, Step(c, s, ops[0]), ops[1..], k);
    }
  }

  function Stashing(before: map<Key, Fields>, op: Op): map<Key, Fields> {
    match op
    case Create(key, _, t, _) => before[KeyOf(key) := t.fields]
    case Update(k, t) => if k in before then before[k := t.fields] else before
    case Clear(k) => before - {k}
    case _ => before
  }

  /** What the run has stashed under each key and not cleared since, read off the operations. */
  function Stashes(ops: seq<Op>): map<Key, Fields> {
    if ops == [] then map[] else Stashing(Stashes(ops[..|ops| - 1]), ops[|ops| - 1])
  }

  lemma StepStashes(c: Config, s: Store, op: Op)
    requires s.rep.Keys == s.stashed.Keys
    ensures Step(c, s, op).stashed == Stashing(s.stashed, op)
    ensures Step(c, s, op).rep.Keys == Stashing(s.stashed, op).Keys
  {}

  lemma RunSnoc(c: Config, ops: seq<Op>, op: Op)
    ensures Run(c, EMPTY, ops + [op]) == Step(c, Run(c, EMPTY, ops), op)
  {
    RunJoins(c, EMPTY, ops, [op]);
    assert [op][1..] == [];
  }

  /** The history of stashes is what the operations say, and exactly those keys have an element. */
  lemma {:induction false} StashedIsTrace(c: Config, ops: seq<Op>)
    ensures Run(c, EMPTY, ops).stashed == Stashes(ops) && Run(c, EMPTY, ops).rep.Keys == Stashes(ops).Keys
    decreases |ops|
  {
    if ops != [] {
      var n := |ops| - 1;
      StashedIsTrace(c, ops[..n]);
      assert ops == ops[..n] + [ops[n]];
      RunSnoc(c, ops[..n], ops[n]);
      StepStashes(c, Run(c, EMPTY, ops[..n]), ops[n]);
    }
  }

  /** A whole object asked for by a skeleton that carries its key comes back with every field last stashed. */
  lemma WholeComesBack(s: Store, o: Fields, k: Key)
    requires Whole(s, k) && k in s.rep && KEY in o && KeyOf(o[KEY]) == k
    ensures forall f | f in s.stashed[k] && f != KEY :: f in FromStash(s, o) && FromStash(s, o)[f] == s.stashed[k][f]
    ensures forall f | f in FromStash(s, o) && f != KEY && f !in s.rep[k].added :: f in s.stashed[k]
    ensures FromStash(s, o)[KEY] == o[KEY]
  {
    var bare, want := Bare(s, k), s.stashed[k];
    forall f | f in want && f != KEY ensures f in bare && bare[f] == want[f] {
      assert f in want - {KEY} && (bare - {KEY})[f] == (want - {KEY})[f];
    }
    forall f | f in bare && f != KEY ensures f in want { assert f in bare - {KEY}; }
  }

  /**
   * So at the end of any run whose page-outs and reads of this object fit, the caller gets back every field last
   * stashed, and no other but the identity fields.
   */
  lemma PagedObjectComesBack(c: Config, ops: seq<Op>, o: Fields, k: Key)
    requires FittingRun(c, EMPTY, ops) && EndsFit(c, EMPTY, ops, k)
    requires KEY in o && KeyOf(o[KEY]) == k && k in Stashes(ops)
    ensures var s := Run(c, EMPTY, ops);
            && k in s.rep
            && (forall f | f in Stashes(ops)[k] && f != KEY ::
                  f in FromStash(s, o) && FromStash(s, o)[f] == Stashes(ops)[k][f])
            && (forall f | f in FromStash(s, o) && f != KEY && f !in s.rep[k].added :: f in Stashes(ops)[k])
  {
    StashedIsTrace(c, ops);
    FittingRunIsSound(c, EMPTY, ops, k);
    WholeComesBack(Run(c, EMPTY, ops), o, k);
  }

  /** Only the object as it was when its element was made has fields from the store: those among the marks. */
  lemma CreatedObject(s: Store, key: Val, file: File, t: Text, marks: Fields, o: Fields)
    requires KEY in o && KeyOf(o[KEY]) == KeyOf(key)
    ensures var u := AfterCreate(s, key, file, t, marks);
            && (forall f | f in t.fields && f != KEY :: f in FromStash(u, o) && FromStash(u, o)[f] == t.fields[f])
            && (forall f | f in marks && f != KEY && f !in t.fields ::
                  f in FromStash(u, o) && FromStash(u, o)[f] == marks[f])
            && (forall f | f in FromStash(u, o) && f != KEY :: f in t.fields || f in marks)
  {}

  /**
   * The skeleton that the caller is left with: short and numeric fields as they were, and a long one replaced by its
   * own name. It names the element just made, if the key is a number or no longer than 64 characters.
   */
  lemma SkeletonIs(o: Fields, marks: Fields, key: Val, f: string)
    ensures var full, skeleton := Marked(o, marks, key), Clip(Marked(o, marks, key));
            && full[KEY] == key && (f in skeleton <==> f in o || f in marks || f == KEY)
            && (f in skeleton ==>
                  skeleton[f] == if full[f].Str? && |full[f].text| > 64 then Str("@" + f) else full[f])
            && (f in o && f != KEY ==> full[f] == o[f])
  {}

  /** A load that ends in time answers with the object last stashed. */
  lemma FittingReadAnswers(c: Config, s: Store, r: Req, k: Key)
    requires Sound(s, k) && r in s.reading && s.reading[r].key == k && k in s.rep && ReadFits(s, ReadDone(r), k)
    ensures Same(TextFields(s.reading[r].text), s.stashed[k])
  {}

  // ---- the two ways to lose a stash -----------------------------------------------------------------------

  lemma {:induction false} RunJoins(c: Config, s: Store, a: seq<Op>, b: seq<Op>)
    ensures Run(c, s, a + b) == Run(c, Run(c, s, a), b)
    decreases |a|
  {
    if a == [] {
      assert a + b == b;
    } else {
      assert (a + b)[1..] == a[1..] + b;
      RunJoins(c, Step(c, s, a[0]), a[1..], b);
    }
  }

  lemma RunTwo(c: Config, s: Store, a: Op, b: Op)
    ensures Run(c, s, [a, b]) == Step(c, Step(c, s, a), b)
  {
    assert [a, b][1..] == [b] && [b][1..] == [];
    assert Run(c, Step(c, s, a), [b]) == Step(c, Step(c, s, a), b);
  }

  /** One object, stashed and written. */
  function WrittenStore(file: File, t: Text): Store {
    Store(map["7" := Element(file, Some(t.fields[KEY := Num(7)]), Some(t), false, {})], map[file := t],
          map[0 := "7"], map[], map["7" := t.fields])
  }

  /** The same object paged out, and a read of it under way. */
  function ReadStore(file: File, t: Text): Store {
    Store(map["7" := Element(file, None, Some(t), true, {})], map[file := t],
          map[], map[1 := Loaded("7", Some(t))], map["7" := t.fields])
  }

  lemma Written(c: Config, file: File, t: Text)
    ensures Run(c, EMPTY, [Create(Num(7), file, t, map[]), Write(0, "7")]) == WrittenStore(file, t)
  {
    RunTwo(c, EMPTY, Create(Num(7), file, t, map[]), Write(0, "7"));
    assert KeyOf(Num(7)) == "7";
    var none: Fields := map[];
    assert none + t.fields == t.fields && none.Keys - t.fields.Keys == {};
  }

  lemma ReadUnderWay(c: Config, file: File, t: Text)
    ensures Run(c, WrittenStore(file, t), [WriteDone(0, true), Read(1, "7")]) == ReadStore(file, t)
  {
    RunTwo(c, WrittenStore(file, t), WriteDone(0, true), Read(1, "7"));
  }

  /** Stashed, written, stashed again, and only then paged out: the object that comes back is the one stashed first. */
  lemma StashDuringWriteIsLost(c: Config, file: File, first: Text, second: Text)
    ensures var ops := [Create(Num(7), file, first, map[]), Write(0, "7")] + [Update("7", second), WriteDone(0, true)];
            && FromStash(Run(c, EMPTY, ops), map[KEY := Num(7)]) == first.fields[KEY := Num(7)]
            && Run(c, EMPTY, ops).stashed == map["7" := second.fields]
  {
    var late := [Update("7", second), WriteDone(0, true)];
    RunJoins(c, EMPTY, [Create(Num(7), file, first, map[]), Write(0, "7")], late);
    Written(c, file, first);
    RunTwo(c, WrittenStore(file, first), Update("7", second), WriteDone(0, true));
    assert KeyOf(Num(7)) == "7";
  }

  lemma LateReadDone(c: Config, file: File, first: Text, second: Text)
    ensures var s := Run(c, ReadStore(file, first), [Update("7", second), ReadDone(1)]);
            && FromStash(s, map[KEY := Num(7)]) == first.fields[KEY := Num(7)]
            && s.stashed == map["7" := second.fields]
  {
    RunTwo(c, ReadStore(file, first), Update("7", second), ReadDone(1));
    assert KeyOf(Num(7)) == "7";
  }

  /** Paged out, read, stashed again, and only then the read ends: the object read overwrites the one stashed. */
  lemma StashDuringReadIsLost(c: Config, file: File, first: Text, second: Text)
    ensures var ops := [Create(Num(7), file, first, map[]), Write(0, "7")] + ([WriteDone(0, true), Read(1, "7")]
                       + [Update("7", second), ReadDone(1)]);
            && FromStash(Run(c, EMPTY, ops), map[KEY := Num(7)]) == first.fields[KEY := Num(7)]
            && Run(c, EMPTY, ops).stashed == map["7" := second.fields]
  {
    var paged, late := [WriteDone(0, true), Read(1, "7")], [Update("7", second), ReadDone(1)];
    RunJoins(c, EMPTY, [Create(Num(7), file, first, map[]), Write(0, "7")], paged + late);
    Written(c, file, first);
    RunJoins(c, WrittenStore(file, first), paged, late);
    ReadUnderWay(c, file, first);
    LateReadDone(c, file, first, second);
  }

  /** The caller's skeleton names the same element iff the key is a number or short enough not to be clipped. */
  lemma SkeletonKeepsKeyIff(o: Fields)
    requires KEY in o
    ensures KeyOf(Clip(o)[KEY]) == KeyOf(o[KEY]) <==> o[KEY].Num? || |o[KEY].text| <= 64
  {}

  // ---- backups after reading back --------------------------------------------------------------------------

  /** An object read back has no text left unless reading keeps it, so its next backup fails. */
  lemma ReadBackBreaksBackupIff(c: Config, s: Store, r: Req)
    requires Present(s) && r in s.reading && s.reading[r].key in s.rep
    ensures WriteFails(AfterReadDone(c, s, r), s.reading[r].key) <==> !c.keepsFlat
  {}

  ghost predicate TextsKept(s: Store) {
    forall k :: !WriteFails(s, k)
  }

  lemma StepKeepsTexts(c: Config, s: Store, op: Op)
    requires c.keepsFlat && TextsKept(s) && Present(s)
    ensures TextsKept(Step(c, s, op))
  {
    forall k ensures !WriteFails(Step(c, s, op), k) {
      assert !WriteFails(s, k);
    }
  }

  /** If reading back kept the text, as it is meant to, no backup of any run whatever would fail. */
  lemma {:induction false} KeptTextsNeverFail(c: Config, s: Store, ops: seq<Op>)
    requires c.keepsFlat && TextsKept(s) && Present(s)
    ensures TextsKept(Run(c, s, ops)) && Present(Run(c, s, ops))
    decreases |ops|
  {
    if ops != [] {
      StepKeepsPresent(c, s, ops[0]);
      StepKeepsTexts(c, s, ops[0]);
      KeptTextsNeverFail(c, Step(c, s, ops[0]), ops[1..]);
    }
  }
}
