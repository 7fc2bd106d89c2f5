/**
 * Files that arrive in chunks, under any number of transition tokens at once. The chunks of a token are
 * gathered by its chunk manager; completing stores each listed file under a path of its own, provided its
 * descriptor can write: the default store calls the descriptor's own writeFile, and throws when it has none.
 */
module UploadModel {
  import opened Wrappers
  import StorePath

  type Token = string
  type Name = string
  type Bytes = seq<bv8>

  /** What a client sends for one file: a buffer, a string, or something that is neither. */
  datatype Part = Data(bytes: Bytes) | Text(text: string) | Neither

  datatype Chunk = Buffer(bytes: Bytes) | Str(text: string)

  /** One array of chunks, or one for each file name. */
  datatype Manager = One(chunks: seq<Chunk>) | Many(chunkers: map<Name, seq<Chunk>>)

  /** A file list may hold descriptors that have no name. */
  type FileList = seq<Option<Name>>

  datatype State = State(managers: map<Token, Manager>, disk: map<string, Bytes>)

  datatype Op =
    | Start(token: Token, list: Option<FileList>)
    | Upload(token: Token, files: map<Name, Part>)
    | Store(token: Token, name: Name, path: string, canWrite: bool)

  /** Buffer.concat: it throws on a chunk that is a string. */
  function Join(chunks: seq<Chunk>): Option<Bytes> {
    if chunks == [] then Some([])
    else
      var init := Join(chunks[..|chunks| - 1]);
      if init.Some? && chunks[|chunks| - 1].Buffer? then Some(init.value + chunks[|chunks| - 1].bytes) else None
  }

  /** Joining fails exactly when there is a string among the chunks. */
  lemma {:induction false} JoinFailsIff(chunks: seq<Chunk>)
    ensures Join(chunks).None? <==> exists i :: 0 <= i < |chunks| && chunks[i].Str?
    decreases |chunks|
  {
    if chunks != [] {
      var n := |chunks| - 1;
      JoinFailsIff(chunks[..n]);
      assert forall i | 0 <= i < n :: chunks[..n][i] == chunks[i];
    }
  }

  function ChunksOf(p: Part): seq<Chunk> {
    match p
    case Data(bytes) => [Buffer(bytes)]
    case Text(text) => [Str(text)]
    case Neither => []
  }

  /** With one array for each file an empty string is passed over. */
  function NamedChunksOf(files: map<Name, Part>, name: Name): seq<Chunk> {
    if name in files && files[name] != Text("") then ChunksOf(files[name]) else []
  }

  /** The only file of a request, if it brings just one. */
  function OnlyPart(files: map<Name, Part>): Part {
    if k :| k in files && files.Keys == {k} then files[k] else Neither
  }

  function Names(list: FileList): set<Name> {
    set i | 0 <= i < |list| && list[i].Some? :: list[i].value
  }

  function NewManager(list: Option<FileList>): Manager {
    if list.None? then One([]) else Many(map n | n in Names(list.value) :: [])
  }

  function Uploaded(m: Manager, files: map<Name, Part>): Manager {
    match m
    case One(chunks) => One(chunks + ChunksOf(OnlyPart(files)))
    case Many(chunkers) => Many(map n | n in chunkers :: chunkers[n] + NamedChunksOf(files, n))
  }

  /** The chunks chunk_mover finds for a file. */
  function BlobOf(m: Manager, name: Name): Option<seq<Chunk>> {
    match m
    case One(chunks) => Some(chunks)
    case Many(chunkers) => if name in chunkers then Some(chunkers[name]) else None
  }

  /** The bytes a store writes, if it writes any: none without a manager, a blob, or a descriptor that can write. */
  function Writes(s: State, token: Token, name: Name, canWrite: bool): Option<Bytes> {
    if token !in s.managers || !canWrite then None
    else
      var blob := BlobOf(s.managers[token], name);
      if blob.None? then None else Join(blob.value)
  }

  function Stored(s: State, token: Token, name: Name, path: string, canWrite: bool): State {
    var w := Writes(s, token, name, canWrite);
    if w.Some? then s.(disk := s.disk[path := w.value]) else s
  }

  /** Completing a file throws when there is something to store and it cannot be joined or cannot be written. */
  predicate StoreThrows(m: Manager, name: Name, canWrite: bool) {
    var blob := BlobOf(m, name);
    blob.Some? && (Join(blob.value).None? || !canWrite)
  }

  function Step(s: State, op: Op): State {
    match op
    case Start(token, list) => s.(managers := s.managers[token := NewManager(list)])
    case Upload(token, files) =>
      if token !in s.managers || files == map[] then s
      else s.(managers := s.managers[token := Uploaded(s.managers[token], files)])
    case Store(token, name, path, canWrite) => Stored(s, token, name, path, canWrite)
  }

  function Run(s: State, ops: seq<Op>): State {
    if ops == [] then s else Step(Run(s, ops[..|ops| - 1]), ops[|ops| - 1])
  }

  const EMPTY := State(map[], map[])

  // ---- what the trace says about one token ---------------------------------------------------------

  /** The file list of the token's last start, and the requests under the token since then. */
  function Session(ops: seq<Op>, token: Token): Option<(Option<FileList>, seq<map<Name, Part>>)> {
    if ops == [] then None
    else
      var before, op := Session(ops[..|ops| - 1], token), ops[|ops| - 1];
      if op.token != token then before
      else
        match op
        case Start(_, list) => Some((list, []))
        case Upload(_, files) => if before.None? then None else Some((before.value.0, before.value.1 + [files]))
        case Store(_, _, _, _) => before
  }

  /** What the requests brought for one name, in the order they came. */
  function Pieces(requests: seq<map<Name, Part>>, name: Name): seq<Chunk> {
    if requests == [] then []
    else Pieces(requests[..|requests| - 1], name) + NamedChunksOf(requests[|requests| - 1], name)
  }

  /** What the requests that brought a single file brought. */
  function SinglePieces(requests: seq<map<Name, Part>>): seq<Chunk> {
    if requests == [] then []
    else SinglePieces(requests[..|requests| - 1]) + ChunksOf(OnlyPart(requests[|requests| - 1]))
  }

  /** The chunks that arrived for a file of a token, read off the trace. */
  function Arrived(ops: seq<Op>, token: Token, name: Name): Option<seq<Chunk>> {
    var s := Session(ops, token);
    if s.None? then None
    else if s.value.0.None? then Some(SinglePieces(s.value.1))
    else if name in Names(s.value.0.value) then Some(Pieces(s.value.1, name))
    else None
  }

  function ManagerOf(session: (Option<FileList>, seq<map<Name, Part>>)): Manager {
    if session.0.None? then One(SinglePieces(session.1))
    else Many(map n | n in Names(session.0.value) :: Pieces(session.1, n))
  }

  lemma ManagerGrows(list: Option<FileList>, requests: seq<map<Name, Part>>, files: map<Name, Part>)
    ensures Uploaded(ManagerOf((list, requests)), files) == ManagerOf((list, requests + [files]))
  {}

  lemma EmptyRequestAddsNothing(list: Option<FileList>, requests: seq<map<Name, Part>>)
    ensures ManagerOf((list, requests + [map[]])) == ManagerOf((list, requests))
  {
    assert (requests + [map[]])[..|requests|] == requests;
    assert OnlyPart(map[]) == Neither;
    forall n ensures Pieces(requests + [map[]], n) == Pieces(requests, n) {}
  }

  /** Every token's chunk manager holds what the trace says arrived under that token, whatever came in between. */
  lemma {:induction false} ManagerIsSession(ops: seq<Op>, token: Token)
    ensures token in Run(EMPTY, ops).managers <==> Session(ops, token).Some?
    ensures token in Run(EMPTY, ops).managers ==>
              Run(EMPTY, ops).managers[token] == ManagerOf(Session(ops, token).value)
    decreases |ops|
  {
    if ops != [] {
      var init, op := ops[..|ops| - 1], ops[|ops| - 1];
      ManagerIsSession(init, token);
      if op.token == token && Session(init, token).Some? && op.Upload? {
        var (list, requests) := Session(init, token).value;
        ManagerGrows(list, requests, op.files);
        if op.files == map[] { EmptyRequestAddsNothing(list, requests); }
      }
    }
  }

  lemma BlobIsArrived(ops: seq<Op>, token: Token, name: Name)
    ensures Arrived(ops, token, name) ==
            if token in Run(EMPTY, ops).managers then BlobOf(Run(EMPTY, ops).managers[token], name) else None
  {
    ManagerIsSession(ops, token);
  }

  /**
   * Storing a file writes exactly the bytes that arrived for it, in order, and touches no other path. It writes
   * if and only if something arrived, none of it is a string (JoinFailsIff), and the file's descriptor can write.
   */
  lemma StoreWritesWhatArrived(ops: seq<Op>, token: Token, name: Name, path: string, canWrite: bool)
    ensures var s, t := Run(EMPTY, ops), Run(EMPTY, ops + [Store(token, name, path, canWrite)]);
            && t.managers == s.managers
            && var a := Arrived(ops, token, name);
               t.disk == if canWrite && a.Some? && Join(a.value).Some? then s.disk[path := Join(a.value).value]
                         else s.disk
  {
    BlobIsArrived(ops, token, name);
    var more := ops + [Store(token, name, path, canWrite)];
    assert more[..|more| - 1] == ops;
  }

  /** Completing throws if and only if there is an array for the file and it holds a string or cannot be written. */
  lemma StoreThrowsIff(ops: seq<Op>, token: Token, name: Name, canWrite: bool)
    requires token in Run(EMPTY, ops).managers
    ensures StoreThrows(Run(EMPTY, ops).managers[token], name, canWrite) <==>
            var a := Arrived(ops, token, name);
            a.Some? && (!canWrite || exists i :: 0 <= i < |a.value| && a.value[i].Str?)
  {
    BlobIsArrived(ops, token, name);
    if Arrived(ops, token, name).Some? { JoinFailsIff(Arrived(ops, token, name).value); }
  }

  /** A descriptor that is only a name and an extension has no writeFile: no run of such completions stores a file. */
  lemma {:induction false} PlainDescriptorsStoreNothing(s: State, ops: seq<Op>)
    requires forall i | 0 <= i < |ops| && ops[i].Store? :: !ops[i].canWrite
    ensures Run(s, ops).disk == s.disk
    decreases |ops|
  {
    if ops != [] {
      PlainDescriptorsStoreNothing(s, ops[..|ops| - 1]);
    }
  }

  /** A started file list gives every name in it an empty array, and a start without one a single array. */
  lemma StartEmpties(ops: seq<Op>, token: Token, list: Option<FileList>, name: Name)
    ensures Arrived(ops + [Start(token, list)], token, name) ==
            if list.None? || Some(name) in list.value then Some([]) else None
  {
    var more := ops + [Start(token, list)];
    assert more[..|more| - 1] == ops;
    assert Session(more, token) == Some((list, []));
    assert SinglePieces([]) == [] && Pieces([], name) == [];
    if list.Some? { NamesAre(list.value, name); }
  }

  lemma NamesAre(list: FileList, name: Name)
    ensures name in Names(list) <==> Some(name) in list
  {
    if Some(name) in list {
      var i :| 0 <= i < |list| && list[i] == Some(name);
      assert list[i].Some? && list[i].value == name;
    }
  }

  lemma UploadExtends(ops: seq<Op>, token: Token, files: map<Name, Part>)
    requires Session(ops, token).Some?
    ensures var before := Session(ops, token).value;
            Session(ops + [Upload(token, files)], token) == Some((before.0, before.1 + [files]))
  {
    var more := ops + [Upload(token, files)];
    assert more[..|more| - 1] == ops;
  }

  /**
   * What a request adds to the array of a listed name: a buffer for data, a string for text that is not empty, and
   * nothing when it does not bring the name or brings something else.
   */
  lemma NamedRequestAdds(ops: seq<Op>, token: Token, files: map<Name, Part>, name: Name, had: seq<Chunk>)
    requires Session(ops, token).Some? && Session(ops, token).value.0.Some? && Arrived(ops, token, name) == Some(had)
    ensures Arrived(ops + [Upload(token, files)], token, name) ==
            if name in files && files[name].Data? then Some(had + [Buffer(files[name].bytes)])
            else if name in files && files[name].Text? && files[name].text != "" then
              Some(had + [Str(files[name].text)])
            else Some(had)
  {
    UploadExtends(ops, token, files);
    var (list, requests) := Session(ops, token).value;
    LastPieces(requests, files, name);
    assert Arrived(ops + [Upload(token, files)], token, name) == Some(Pieces(requests + [files], name));
    assert had + [] == had;
  }

  lemma LastPieces(requests: seq<map<Name, Part>>, files: map<Name, Part>, name: Name)
    ensures Pieces(requests + [files], name) == Pieces(requests, name) + NamedChunksOf(files, name)
    ensures SinglePieces(requests + [files]) == SinglePieces(requests) + ChunksOf(OnlyPart(files))
  {
    assert (requests + [files])[..|requests|] == requests;
  }

  /** What a request with one file adds to a single array, whatever the file is called. */
  lemma SingleRequestAdds(ops: seq<Op>, token: Token, k: Name, part: Part, name: Name, had: seq<Chunk>)
    requires Session(ops, token).Some? && Session(ops, token).value.0.None? && Arrived(ops, token, name) == Some(had)
    ensures Arrived(ops + [Upload(token, map[k := part])], token, name) ==
            if part.Data? then Some(had + [Buffer(part.bytes)])
            else if part.Text? then Some(had + [Str(part.text)])
            else Some(had)
  {
    var files: map<Name, Part> := map[k := part];
    UploadExtends(ops, token, files);
    OnlyKey(files, k);
    var (list, requests) := Session(ops, token).value;
    LastPieces(requests, files, name);
    assert Arrived(ops + [Upload(token, files)], token, name) == Some(SinglePieces(requests + [files]));
    assert had + [] == had;
  }

  lemma OnlyKey(files: map<Name, Part>, k: Name)
    requires k in files && |files| == 1
    ensures OnlyPart(files) == files[k]
  {
    assert |files.Keys - {k}| == 0;
    assert files.Keys == {k};
  }

  /** A manager with a single array gets nothing from a request that brings several files. */
  lemma ManyFilesAreLost(ops: seq<Op>, token: Token, files: map<Name, Part>, name: Name)
    requires Session(ops, token).Some? && Session(ops, token).value.0.None? && |files| != 1
    ensures Arrived(ops + [Upload(token, files)], token, name) == Arrived(ops, token, name)
  {
    var more, requests := ops + [Upload(token, files)], Session(ops, token).value.1;
    assert more[..|more| - 1] == ops;
    assert (requests + [files])[..|requests|] == requests;
    NotOnePart(files);
    assert SinglePieces(requests + [files]) == SinglePieces(requests) + [] == SinglePieces(requests);
  }

  lemma NotOnePart(files: map<Name, Part>)
    requires |files| != 1
    ensures OnlyPart(files) == Neither
  {}

  // ---- other tokens do not matter ---------------------------------------------------------------------

  function Only(ops: seq<Op>, token: Token): seq<Op> {
    if ops == [] then []
    else if ops[|ops| - 1].token == token then Only(ops[..|ops| - 1], token) + [ops[|ops| - 1]]
    else Only(ops[..|ops| - 1], token)
  }

  /** What arrives for a token is the same as if no other token had been used. */
  lemma {:induction false} OtherTokensDoNotMatter(ops: seq<Op>, token: Token)
    ensures Session(Only(ops, token), token) == Session(ops, token)
    decreases |ops|
  {
    if ops != [] {
      var init, op := ops[..|ops| - 1], ops[|ops| - 1];
      OtherTokensDoNotMatter(init, token);
      if op.token == token {
        assert (Only(init, token) + [op])[..|Only(init, token)|] == Only(init, token);
      }
    }
  }

  lemma InterleavingDoesNotMatter(a: seq<Op>, b: seq<Op>, token: Token, name: Name)
    requires Only(a, token) == Only(b, token)
    ensures Arrived(a, token, name) == Arrived(b, token, name)
  {
    OtherTokensDoNotMatter(a, token);
    OtherTokensDoNotMatter(b, token);
  }

  // ---- every way of cutting a file ------------------------------------------------------------------------

  function Flatten(cut: seq<Bytes>): Bytes {
    if cut == [] then [] else Flatten(cut[..|cut| - 1]) + cut[|cut| - 1]
  }

  function AsChunks(cut: seq<Bytes>): seq<Chunk> {
    seq(|cut|, i requires 0 <= i < |cut| => Buffer(cut[i]))
  }

  lemma {:induction false} JoinUndoesCut(cut: seq<Bytes>)
    ensures Join(AsChunks(cut)) == Some(Flatten(cut))
    decreases |cut|
  {
    if cut != [] {
      JoinUndoesCut(cut[..|cut| - 1]);
      assert AsChunks(cut)[..|cut| - 1] == AsChunks(cut[..|cut| - 1]);
    }
  }

  /** The parts that the requests bring under one name, in order. */
  function PartsFor(requests: seq<map<Name, Part>>, name: Name): seq<Part> {
    if requests == [] then []
    else
      var init, last := PartsFor(requests[..|requests| - 1], name), requests[|requests| - 1];
      if name in last then init + [last[name]] else init
  }

  function AsParts(cut: seq<Bytes>): seq<Part> {
    seq(|cut|, i requires 0 <= i < |cut| => Data(cut[i]))
  }

  /** The last part is the last piece, and the parts before it are the pieces before it. */
  lemma LastPart(init: seq<Part>, last: Part, cut: seq<Bytes>)
    requires init + [last] == AsParts(cut)
    ensures var m := |cut| - 1;
            && 0 <= m && last == Data(cut[m]) && init == AsParts(cut[..m])
            && AsChunks(cut) == AsChunks(cut[..m]) + [Buffer(cut[m])]
  {
    var m := |cut| - 1;
    assert |init + [last]| == |cut|;
    assert last == (init + [last])[m] == Data(cut[m]);
    assert init == (init + [last])[..m] == AsParts(cut)[..m] == AsParts(cut[..m]);
  }

  /** The pieces of a file reach its array in order, past whatever else the same requests bring. */
  lemma {:induction false} PiecesInOrder(requests: seq<map<Name, Part>>, name: Name, cut: seq<Bytes>)
    requires PartsFor(requests, name) == AsParts(cut)
    ensures Pieces(requests, name) == AsChunks(cut)
    decreases |requests|
  {
    if requests == [] {
      assert |cut| == |AsParts(cut)| == 0;
    } else {
      var n, m := |requests| - 1, |cut| - 1;
      if name in requests[n] {
        LastPart(PartsFor(requests[..n], name), requests[n][name], cut);
        PiecesInOrder(requests[..n], name, cut[..m]);
      } else {
        PiecesInOrder(requests[..n], name, cut);
      }
    }
  }

  /** The parts of the requests that bring one file each; a manager with a single array takes no others. */
  function SingleParts(requests: seq<map<Name, Part>>): seq<Part> {
    if requests == [] then []
    else
      var init, last := SingleParts(requests[..|requests| - 1]), requests[|requests| - 1];
      if |last| == 1 then init + [OnlyPart(last)] else init
  }

  /** The pieces of a file sent alone reach the single array in order. */
  lemma {:induction false} SinglePiecesInOrder(requests: seq<map<Name, Part>>, cut: seq<Bytes>)
    requires SingleParts(requests) == AsParts(cut)
    ensures SinglePieces(requests) == AsChunks(cut)
    decreases |requests|
  {
    if requests == [] {
      assert |cut| == |AsParts(cut)| == 0;
    } else {
      var n, m := |requests| - 1, |cut| - 1;
      if |requests[n]| == 1 {
        LastPart(SingleParts(requests[..n]), OnlyPart(requests[n]), cut);
        SinglePiecesInOrder(requests[..n], cut[..m]);
      } else {
        NotOnePart(requests[n]);
        SinglePiecesInOrder(requests[..n], cut);
      }
    }
  }

  /** Since the token's last start the pieces of a cut file were sent in order: under its name, or one to a request. */
  ghost predicate Sent(ops: seq<Op>, token: Token, name: Name, cut: seq<Bytes>) {
    var s := Session(ops, token);
    && s.Some?
    && if s.value.0.None? then SingleParts(s.value.1) == AsParts(cut)
       else Some(name) in s.value.0.value && PartsFor(s.value.1, name) == AsParts(cut)
  }

  /**
   * However a file is cut, and however its pieces interleave with other files and tokens, into one of many arrays
   * or into the only one: storing it puts the file itself at the path, if and only if its descriptor can write.
   */
  lemma CutFileIsStoredWhole(ops: seq<Op>, token: Token, name: Name, path: string, cut: seq<Bytes>, canWrite: bool)
    requires Sent(ops, token, name, cut)
    ensures var s, t := Run(EMPTY, ops), Run(EMPTY, ops + [Store(token, name, path, canWrite)]);
            t.disk == if canWrite then s.disk[path := Flatten(cut)] else s.disk
  {
    var requests := Session(ops, token).value.1;
    if Session(ops, token).value.0.None? {
      SinglePiecesInOrder(requests, cut);
    } else {
      NamesAre(Session(ops, token).value.0.value, name);
      PiecesInOrder(requests, name, cut);
    }
    StoreWritesWhatArrived(ops, token, name, path, canWrite);
    JoinUndoesCut(cut);
  }

  // ---- stored files stay ---------------------------------------------------------------------------------------

  predicate Holds(s: State, path: string, bytes: Bytes) {
    path in s.disk && s.disk[path] == bytes
  }

  /** The operation leaves other bytes at the path. */
  predicate Overwrites(s: State, op: Op, path: string, bytes: Bytes) {
    op.Store? && op.path == path && Writes(s, op.token, op.name, op.canWrite) !in {None, Some(bytes)}
  }

  lemma {:induction false} RunJoins(s: State, a: seq<Op>, b: seq<Op>)
    ensures Run(s, a + b) == Run(Run(s, a), b)
    decreases |b|
  {
    if b == [] {
      assert a + b == a;
    } else {
      assert (a + b)[..|a + b| - 1] == a + b[..|b| - 1];
      RunJoins(s, a, b[..|b| - 1]);
    }
  }

  lemma OneMore(s: State, ops: seq<Op>, i: nat)
    requires i < |ops|
    ensures Run(s, ops[..i + 1]) == Step(Run(s, ops[..i]), ops[i])
  {
    assert ops[..i + 1][..i] == ops[..i];
  }

  /** A stored file stays as it is for as long as no operation overwrites it. */
  lemma {:induction false} KeptUntilOverwritten(s: State, more: seq<Op>, path: string, bytes: Bytes, n: nat)
    requires Holds(s, path, bytes) && n <= |more|
    requires forall i | 0 <= i < n :: !Overwrites(Run(s, more[..i]), more[i], path, bytes)
    ensures Holds(Run(s, more[..n]), path, bytes)
    decreases n
  {
    if n > 0 {
      KeptUntilOverwritten(s, more, path, bytes, n - 1);
      OneMore(s, more, n - 1);
    }
  }

  /** Every store of the run goes to the path made of its file's name, a time and an extension without the mark. */
  ghost predicate ProperlyNamed(ops: seq<Op>, dir: string, times: seq<nat>, exts: seq<string>) {
    && |times| == |exts| == |ops|
    && forall i | 0 <= i < |ops| && ops[i].Store? ::
         !StorePath.Contains(exts[i]) && ops[i].path == StorePath.PathIn(dir, ops[i].name, times[i], exts[i])
  }

  /** Operation i stores a file of this very name, at this very time, with this very extension. */
  predicate StoresSame(ops: seq<Op>, times: seq<nat>, exts: seq<string>, i: nat, name: Name, time: nat, ext: string)
    requires i < |ops| == |times| == |exts|
  {
    ops[i].Store? && ops[i].name == name && times[i] == time && exts[i] == ext
  }

  lemma SamePathIff(ops: seq<Op>, dir: string, times: seq<nat>, exts: seq<string>, i: nat,
                    name: Name, time: nat, ext: string)
    requires !StorePath.Contains(ext) && ProperlyNamed(ops, dir, times, exts) && i < |ops| && ops[i].Store?
    ensures ops[i].path == StorePath.PathIn(dir, name, time, ext) <==> StoresSame(ops, times, exts, i, name, time, ext)
  {
    if ops[i].path == StorePath.PathIn(dir, name, time, ext) {
      StorePath.DistinctFilesDistinctPaths(dir, ops[i].name, times[i], exts[i], name, time, ext);
    }
  }

  /**
   * Exactly when a stored file stays as it is all through a run: every store of the same name, time and extension,
   * under whatever token, writes nothing or the same bytes. Other stores never matter.
   */
  lemma StoredFileStaysIff(s: State, more: seq<Op>, dir: string, times: seq<nat>, exts: seq<string>,
                           name: Name, time: nat, ext: string, bytes: Bytes)
    requires !StorePath.Contains(ext) && ProperlyNamed(more, dir, times, exts)
    requires Holds(s, StorePath.PathIn(dir, name, time, ext), bytes)
    ensures (forall i | 0 <= i <= |more| ::
               Holds(Run(s, more[..i]), StorePath.PathIn(dir, name, time, ext), bytes)) <==>
            forall i | 0 <= i < |more| && StoresSame(more, times, exts, i, name, time, ext) ::
              Writes(Run(s, more[..i]), more[i].token, name, more[i].canWrite) in {None, Some(bytes)}
  {
    var path := StorePath.PathIn(dir, name, time, ext);
    forall i | 0 <= i < |more| && more[i].Store?
      ensures more[i].path == path <==> StoresSame(more, times, exts, i, name, time, ext)
    {
      SamePathIff(more, dir, times, exts, i, name, time, ext);
    }
    if i :| 0 <= i < |more| && Overwrites(Run(s, more[..i]), more[i], path, bytes) {
      OneMore(s, more, i);
      assert !Holds(Run(s, more[..i + 1]), path, bytes);
    } else {
      forall i | 0 <= i <= |more| ensures Holds(Run(s, more[..i]), path, bytes) {
        KeptUntilOverwritten(s, more, path, bytes, i);
      }
    }
  }

  /** So files that differ in name, time or extension, stored later under any token, leave a stored file alone. */
  lemma StoredFileSurvives(s: State, more: seq<Op>, dir: string, times: seq<nat>, exts: seq<string>,
                           name: Name, time: nat, ext: string, bytes: Bytes)
    requires !StorePath.Contains(ext) && ProperlyNamed(more, dir, times, exts)
    requires Holds(s, StorePath.PathIn(dir, name, time, ext), bytes)
    requires forall i | 0 <= i < |more| :: !StoresSame(more, times, exts, i, name, time, ext)
    ensures Holds(Run(s, more), StorePath.PathIn(dir, name, time, ext), bytes)
  {
    StoredFileStaysIff(s, more, dir, times, exts, name, time, ext, bytes);
    assert more[..|more|] == more;
  }

  /**
   * From first chunk to last operation: a file whose pieces arrived in order, under whatever cutting and
   * interleaving, and was then stored by a descriptor that can write, is there whole at the end of any run that
   * does not store the same name at the same time with the same extension.
   */
  lemma UploadIsKeptWhole(ops: seq<Op>, token: Token, name: Name, cut: seq<Bytes>, dir: string, time: nat, ext: string,
                          more: seq<Op>, times: seq<nat>, exts: seq<string>)
    requires Sent(ops, token, name, cut)
    requires !StorePath.Contains(ext) && ProperlyNamed(more, dir, times, exts)
    requires forall i | 0 <= i < |more| :: !StoresSame(more, times, exts, i, name, time, ext)
    ensures var path := StorePath.PathIn(dir, name, time, ext);
            Holds(Run(EMPTY, ops + [Store(token, name, path, true)] + more), path, Flatten(cut))
  {
    var path := StorePath.PathIn(dir, name, time, ext);
    CutFileIsStoredWhole(ops, token, name, path, cut, true);
    StoredFileSurvives(Run(EMPTY, ops + [Store(token, name, path, true)]), more, dir, times, exts, name, time, ext,
                       Flatten(cut));
    RunJoins(EMPTY, ops + [Store(token, name, path, true)], more);
  }

  /** Two tokens that complete one name in the same millisecond under the same extension share a path. */
  lemma SameMomentOverwrites(ops: seq<Op>, t1: Token, t2: Token, name: Name, cut1: seq<Bytes>, cut2: seq<Bytes>,
                             dir: string, time: nat, ext: string)
    requires Sent(ops, t1, name, cut1) && Sent(ops, t2, name, cut2)
    ensures var path := StorePath.PathIn(dir, name, time, ext);
            var once := ops + [Store(t1, name, path, true)];
            && Holds(Run(EMPTY, once), path, Flatten(cut1))
            && Holds(Run(EMPTY, once + [Store(t2, name, path, true)]), path, Flatten(cut2))
  {
    var path := StorePath.PathIn(dir, name, time, ext);
    var once := ops + [Store(t1, name, path, true)];
    assert once[..|once| - 1] == ops;
    CutFileIsStoredWhole(ops, t1, name, path, cut1, true);
    CutFileIsStoredWhole(once, t2, name, path, cut2, true);
  }

  /** The smallest such run. */
  lemma SameMomentLosesFirst(dir: string, time: nat, ext: string)
    ensures var path := StorePath.PathIn(dir, "a", time, ext);
            var ops := [Start("s", None), Upload("s", map["a" := Data([1])]),
                        Start("t", None), Upload("t", map["a" := Data([2])]),
                        Store("s", "a", path, true), Store("t", "a", path, true)];
            && Holds(Run(EMPTY, ops[..5]), path, [1])
            && Holds(Run(EMPTY, ops), path, [2])
  {
    var path := StorePath.PathIn(dir, "a", time, ext);
    var ops := [Start("s", None), Upload("s", map["a" := Data([1])]),
                Start("t", None), Upload("t", map["a" := Data([2])]),
                Store("s", "a", path, true), Store("t", "a", path, true)];
    OneUpload([], "s", [1]);
    OneUpload(ops[..2], "t", [2]);
    assert ops[..2] == [] + [Start("s", None), Upload("s", map["a" := Data([1])])];
    assert ops[..4] == ops[..2] + [Start("t", None), Upload("t", map["a" := Data([2])])];
    assert ops[..4][..3] == ops[..3] && ops[..3][..2] == ops[..2];
    assert Session(ops[..4], "s") == Session(ops[..3], "s") == Session(ops[..2], "s");
    SameMomentOverwrites(ops[..4], "s", "t", "a", [[1]], [[2]], dir, time, ext);
    assert ops[..5] == ops[..4] + [Store("s", "a", path, true)];
    assert ops == ops[..5] + [Store("t", "a", path, true)];
    assert Flatten([[1]]) == [1] && Flatten([[2]]) == [2];
  }

  lemma OneUpload(ops: seq<Op>, token: Token, bytes: Bytes)
    ensures Sent(ops + [Start(token, None), Upload(token, map["a" := Data(bytes)])], token, "a", [bytes])
  {
    var files: map<Name, Part> := map["a" := Data(bytes)];
    var more := ops + [Start(token, None), Upload(token, files)];
    assert more[..|more| - 1] == ops + [Start(token, None)];
    assert files.Keys == {"a"} && OnlyPart(files) == Data(bytes);
    assert SingleParts([files]) == [Data(bytes)] == AsParts([bytes]);
  }
}
