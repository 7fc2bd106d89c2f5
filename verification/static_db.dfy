/**
 * The static store's table of pageable elements and its files, changed in place. Stringifying happens
 * outside: its result, and a fresh hash and id where the program makes one, come in as arguments.
 */
module StaticDB {
  import opened Wrappers
  import opened PagingModel

  class LocalStaticDB {
    const conf: Config
    var idsToDataRep: map<Key, Element>
    var files: map<File, Text>
    var writing: map<Req, Key>
    var reading: map<Req, Loaded>
    ghost var stashed: map<Key, Fields>

    ghost function Model(): Store
      reads this
    {
      Store(idsToDataRep, files, writing, reading, stashed)
    }

    constructor (conf: Config)
      ensures this.conf == conf && Model() == EMPTY
    {
      this.conf := conf;
      idsToDataRep, files, writing, reading, stashed := map[], map[], map[], map[], map[];
    }

    /**
     * Stashes an object and hands back the skeleton that the caller's object has become. A small object is left
     * alone; an object without a key, or one met again at start-up, gets a new element, under its own key if it
     * has one. `hash` is what hash or hash_from_persitence answers.
     */
    method ApplicationStashLargeData(obj: Fields, flat: Text, fromDisk: bool, hash: Val, file: File, marks: Fields)
      returns (skeleton: Fields)
      requires flat.fields == obj
      modifies this
      ensures flat.length < conf.maxGroupStorage ==> skeleton == obj && Model() == old(Model())
      ensures flat.length >= conf.maxGroupStorage && KEY in obj && !fromDisk ==>
                && Model() == AfterUpdate(old(Model()), KeyOf(obj[KEY]), flat)
                && skeleton == if KeyOf(obj[KEY]) in old(idsToDataRep) then Clip(obj) else obj
      ensures flat.length >= conf.maxGroupStorage && (KEY !in obj || fromDisk) ==>
                var key := if KEY in obj && obj[KEY] !in {Str(""), Num(0)} then obj[KEY] else hash;
                && Model() == AfterCreate(old(Model()), key, file, flat, marks)
                && skeleton == Clip(Marked(obj, marks, key))
    {
      skeleton := obj;
      if flat.length < conf.maxGroupStorage {
        return;
      }
      if KEY in obj && !fromDisk {
        var hh := KeyOf(obj[KEY]);
        if hh in idsToDataRep {
          var pmse := idsToDataRep[hh];
          pmse := pmse.(obj := Some(obj), flat := Some(flat), unhooked := false, added := {});
          idsToDataRep := idsToDataRep[hh := pmse];
          skeleton := Clip(Clip(obj));
          ClipTwiceIsClip(obj);
          stashed := stashed[hh := obj];
        }
      } else {
        var key := hash;
        if fromDisk && KEY in obj && Truthy(obj[KEY]) {
          key := obj[KEY];
        }
        var hh := KeyOf(key);
        var full := marks + obj;
        full := full[KEY := key];
        skeleton := Clip(full);
        Detach(hh);
        idsToDataRep := idsToDataRep[hh := Element(file, Some(full), Some(flat), false, marks.Keys - obj.Keys)];
        stashed := stashed[hh := obj];
      }
    }

    /** Writes and reads under way for an element that leaves the table end without touching the table. */
    method Detach(hh: Key)
      modifies this`writing, this`reading
      ensures writing == OtherWrites(old(writing), hh) && reading == OtherReads(old(reading), hh)
    {
      writing := OtherWrites(writing, hh);
      reading := OtherReads(reading, hh);
    }

    /** One element of a backup, up to the end of its write; an element without text makes the write throw. */
    method BackupElement(req: Req, hh: Key) returns (threw: bool)
      requires hh in idsToDataRep
      modifies this
      ensures Model() == AfterWrite(old(Model()), req, hh)
      ensures threw <==> WriteFails(old(Model()), hh)
    {
      var pmse := idsToDataRep[hh];
      if pmse.flat.None? {
        return true;
      }
      files := files[pmse.file := pmse.flat.value];
      writing := writing[req := hh];
      threw := false;
    }

    /** After the write; an element that has left the table since is not touched. */
    method BackupElementDone(req: Req, pageOut: bool)
      modifies this
      ensures Model() == AfterWriteDone(old(Model()), req, pageOut)
    {
      if req in writing {
        var hh := writing[req];
        if pageOut && hh in idsToDataRep {
          var pmse := idsToDataRep[hh];
          pmse := pmse.(obj := None, added := {});
          idsToDataRep := idsToDataRep[hh := pmse.(unhooked := true)];
        }
        writing := writing - {req};
      }
    }

    /** application_large_data_from_stash up to the read: an answer at once, or None when the object is being read. */
    method ApplicationLargeDataFromStash(req: Req, obj: Fields) returns (found: Option<Fields>)
      requires Present(Model())
      modifies this`reading
      ensures found.Some? ==> found.value == FromStash(old(Model()), obj)
      ensures found.None? <==> KEY in obj && KeyOf(obj[KEY]) in idsToDataRep && idsToDataRep[KeyOf(obj[KEY])].unhooked
      ensures Model() == if KEY in obj then AfterRead(old(Model()), req, KeyOf(obj[KEY])) else old(Model())
    {
      found := Some(obj);
      if KEY in obj {
        var hh := KeyOf(obj[KEY]);
        if hh in idsToDataRep {
          var pmse := idsToDataRep[hh];
          if pmse.unhooked {
            reading := reading[req := Loaded(hh, ReadFile(files, pmse.file))];
            return None;
          }
          found := Some(pmse.obj.value[KEY := obj[KEY]]);
        }
      }
    }

    /** The rest of _load_object_pmse and of its caller: the object read replaces what the element has by now. */
    method LoadObjectPmse(req: Req, key: Val) returns (found: Fields)
      requires req in reading
      modifies this`idsToDataRep, this`reading
      ensures found == TextFields(old(reading)[req].text)[KEY := key]
      ensures Model() == AfterReadDone(conf, old(Model()), req)
    {
      var l := reading[req];
      var loaded := TextFields(l.text);
      if l.key in idsToDataRep {
        var pmse := idsToDataRep[l.key];
        pmse := pmse.(obj := Some(loaded), unhooked := false, added := {});
        pmse := pmse.(flat := if conf.keepsFlat then l.text else None);
        idsToDataRep := idsToDataRep[l.key := pmse];
      }
      reading := reading - {req};
      found := loaded[KEY := key];
    }

    method ApplicationClearLargeData(hh: Key)
      modifies this
      ensures Model() == AfterClear(old(Model()), hh)
    {
      idsToDataRep := idsToDataRep - {hh};
      Detach(hh);
      stashed := stashed - {hh};
    }
  }
}
