/** The transition engine: chunk managers by token, filled and emptied in place, and the files it has written. */
module TransitionEngine {
  import opened Wrappers
  import opened UploadModel
  import StorePath

  /** canWrite: the descriptor brings a writeFile of its own. One that was posted as data does not. */
  datatype FileDescriptor = FileDescriptor(name: Name, ext: string, canWrite: bool)

  datatype UploadResult = Failed | Next | Threw

  function ExtOf(f: FileDescriptor): string {
    if f.ext != "" then f.ext else "media"
  }

  /** The stores that completing a list of files performs, one clock reading for each. */
  function StoresOf(token: Token, files: seq<FileDescriptor>, dir: string, times: seq<nat>): seq<Op>
    requires |times| == |files|
  {
    seq(|files|, i requires 0 <= i < |files| =>
      Store(token, files[i].name, StorePath.PathIn(dir, files[i].name, times[i], ExtOf(files[i])), files[i].canWrite))
  }

  class GeneralTransitionEngine {
    var managers: map<Token, Manager>
    var disk: map<string, Bytes>

    ghost function Model(): State
      reads this
    {
      State(managers, disk)
    }

    constructor ()
      ensures Model() == EMPTY
    {
      managers, disk := map[], map[];
    }

    method FilesComingInChunks(token: Token, fileList: Option<FileList>)
      modifies this`managers
      ensures Model() == Step(old(Model()), Start(token, fileList))
    {
      var manager := One([]);
      if fileList.Some? {
        var list := fileList.value;
        var chunkers: map<Name, seq<Chunk>> := map[];
        for i := 0 to |list|
          invariant chunkers == (map n | n in Names(list[..i]) :: []) && managers == old(managers)
        {
          NamesOneMore(list, i);
          if list[i].Some? {
            chunkers := chunkers[list[i].value := []];
          }
        }
        assert list[..|list|] == list;
        manager := Many(chunkers);
      }
      managers := managers[token := manager];
    }

    method UploadChunk(token: Token, files: map<Name, Part>) returns (result: UploadResult)
      modifies this`managers
      ensures Model() == Step(old(Model()), Upload(token, files))
      ensures result == if files == map[] then Failed else if token in old(managers) then Next else Threw
    {
      if files == map[] {
        return Failed;
      }
      if token !in managers {
        return Threw;   // a field of an undefined manager is read
      }
      var manager := managers[token];
      if |files| == 1 && manager.One? {
        var k := AnyOf(files.Keys);
        OnlyKey(files, k);
        manager := One(manager.chunks + ChunksOf(files[k]));
      } else if manager.Many? {
        var chunkers := PushParts(manager.chunkers, files);
        manager := Many(chunkers);
      } else {
        NotOnePart(files);
        assert manager.chunks + [] == manager.chunks;
      }
      managers := managers[token := manager];
      result := Next;
    }

    /** Each file of the request is added to the array of its name, if there is one. */
    method PushParts(arrays: map<Name, seq<Chunk>>, files: map<Name, Part>) returns (chunkers: map<Name, seq<Chunk>>)
      ensures chunkers == map n | n in arrays :: arrays[n] + NamedChunksOf(files, n)
    {
      chunkers := arrays;
      var left := files.Keys;
      assert forall n | n in arrays :: arrays[n] + [] == arrays[n];
      while left != {}
        invariant left <= files.Keys && chunkers.Keys == arrays.Keys
        invariant forall n | n in arrays ::
                    chunkers[n] == if n in left then arrays[n] else arrays[n] + NamedChunksOf(files, n)
      {
        var fileKey := AnyOf(left);
        left := left - {fileKey};
        if fileKey in chunkers && files[fileKey] != Text("") {
          chunkers := chunkers[fileKey := chunkers[fileKey] + ChunksOf(files[fileKey])];
        }
      }
    }

    /** chunk_mover and store_data: it throws when a chunk is a string, or the descriptor has no writeFile. */
    method ChunkMover(token: Token, file: FileDescriptor, targetPath: string) returns (threw: bool)
      requires token in managers
      modifies this`disk
      ensures Model() == Step(old(Model()), Store(token, file.name, targetPath, file.canWrite))
      ensures threw <==> StoreThrows(managers[token], file.name, file.canWrite)
    {
      var blob := BlobOf(managers[token], file.name);
      threw := false;
      if blob.Some? {
        var data := Join(blob.value);
        if data.None? { return true; }
        if !file.canWrite { return true; }
        disk := disk[targetPath := data.value];
      }
    }

    /**
     * Completes the listed files one after the other, up to the first that throws. No identifier is ever
     * returned: the default store hands back the false it was given.
     */
    method ChunksComplete(token: Token, files: seq<FileDescriptor>, dir: string, times: seq<nat>)
      returns (ids: seq<string>, ghost done: nat, threw: bool)
      requires |times| == |files|
      modifies this`disk
      ensures ids == [] && done <= |files|
      ensures Model() == Run(old(Model()), StoresOf(token, files, dir, times)[..done])
      ensures token !in managers ==> done == 0 && !threw
      ensures token in managers ==>
                forall i | 0 <= i < done :: !StoreThrows(managers[token], files[i].name, files[i].canWrite)
      ensures token in managers ==> (threw <==> done < |files|)
      ensures threw ==> StoreThrows(managers[token], files[done].name, files[done].canWrite)
    {
      ids, done, threw := [], 0, false;
      if token !in managers {
        return;
      }
      ghost var ops := StoresOf(token, files, dir, times);
      for i := 0 to |files|
        invariant done == i && !threw && managers == old(managers)
        invariant Model() == Run(old(Model()), ops[..i])
        invariant forall j | 0 <= j < i :: !StoreThrows(managers[token], files[j].name, files[j].canWrite)
      {
        var storeName := StorePath.StoreName(files[i].name, times[i], ExtOf(files[i]));
        threw := ChunkMover(token, files[i], dir + "/" + storeName);
        if threw {
          ThrowingStoresNothing(old(Model()), ops, i, managers[token]);
          return;
        }
        OneMore(old(Model()), ops, i);
        done := i + 1;
      }
    }
  }

  lemma ThrowingStoresNothing(s: State, ops: seq<Op>, i: nat, m: Manager)
    requires i < |ops| && ops[i].Store? && ops[i].token in Run(s, ops[..i]).managers
    requires Run(s, ops[..i]).managers[ops[i].token] == m && StoreThrows(m, ops[i].name, ops[i].canWrite)
    ensures Step(Run(s, ops[..i]), ops[i]) == Run(s, ops[..i])
  {}

  lemma NamesOneMore(list: FileList, i: nat)
    requires i < |list|
    ensures Names(list[..i + 1]) == Names(list[..i]) + if list[i].Some? then {list[i].value} else {}
  {}

  /** Each listed file goes to its name, "_file_", the time in decimal, a dot, and its extension or else "media". */
  lemma StoredUnder(token: Token, files: seq<FileDescriptor>, dir: string, times: seq<nat>, i: nat)
    requires |times| == |files| && i < |files|
    ensures var f, op := files[i], StoresOf(token, files, dir, times)[i];
            && op.Store? && op.token == token && op.name == f.name && op.canWrite == f.canWrite
            && op.path == dir + "/" + (f.name + "_file_" + StorePath.Digits(times[i]) + "."
                                       + (if f.ext == "" then "media" else f.ext))
  {}
}
