/**
  The cached files of an origin server and the write-back executor as objects: what localFileOp
  does to one file when nothing interferes, and what Executor.Exec makes of it. The updates are
  the file steps of the state machine in module WriteBack.
*/
module OriginFiles {
  import TT = TaskTable
  import WB = WriteBack

  datatype FileResult = Done | Exists | NotFound | Persisted

  class Origin {
    var disk: set<string>
    var cached: set<string>
    var persist: set<string>
    var backend: set<TT.Key>

    ghost function Files(): WB.Files
      reads this
    {
      WB.Files(disk, cached, persist)
    }

    ghost predicate Valid()
      reads this
    {
      persist <= disk && cached <= disk
    }

    constructor ()
      ensures Valid() && Files() == WB.Files({}, {}, {}) && backend == {}
    {
      disk, cached, persist, backend := {}, {}, {}, {};
    }

    // MoveUploadFileToCache: localFileEntry.MoveFrom refuses to replace a file.
    method Commit(name: string) returns (r: FileResult)
      requires Valid()
      modifies this`disk, this`cached
      ensures Valid() && r == if name in old(disk) then Exists else Done
      ensures if r.Done? then WB.FileStep(old(Files()), WB.Commit(name), Files())
              else WB.FileStep(old(Files()), WB.Reload(name), Files())
      ensures disk == old(disk) + {name} && cached == old(cached) + {name}
    {
      r := if name in disk then Exists else Done;
      disk, cached := disk + {name}, cached + {name};
      assert r.Exists? ==> disk == old(disk);
    }

    // DeleteFile: the entry is reloaded if need be and leaves the map whatever happens; the file
    // stays if its persist metadata is set.
    method DeleteFile(name: string) returns (r: FileResult)
      requires Valid()
      modifies this`disk, this`cached
      ensures Valid()
      ensures r == if name !in old(disk) then NotFound else if name in persist then Persisted else Done
      ensures name in disk <==> name in persist
      ensures disk == (if name in persist then old(disk) else old(disk) - {name}) && cached == old(cached) - {name}
      ensures name in old(disk) ==>
        WB.FileStep(old(Files()).(cached := old(cached) + {name}), WB.RemoveFile(name), Files())
      ensures name !in old(disk) ==> Files() == old(Files())
    {
      if name !in disk { return NotFound; }
      cached := cached + {name};
      if name in persist {
        r := Persisted;
      } else {
        disk := disk - {name};
        r := Done;
      }
      cached := cached - {name};
    }

    method SetPersist(name: string) returns (r: FileResult)
      requires Valid()
      modifies this`cached, this`persist
      ensures Valid() && r == if name in disk then Done else NotFound
      ensures persist == if r.Done? then old(persist) + {name} else old(persist)
      ensures cached == if r.Done? then old(cached) + {name} else old(cached)
    {
      if name !in disk { return NotFound; }
      cached, persist := cached + {name}, persist + {name};
      r := Done;
    }

    method DeletePersist(name: string) returns (r: FileResult)
      requires Valid()
      modifies this`cached, this`persist
      ensures Valid() && r == if name in disk then Done else NotFound
      ensures persist == old(persist) - {name}
      ensures cached == if r.Done? then old(cached) + {name} else old(cached)
    {
      if name !in disk { return NotFound; }
      cached, persist := cached + {name}, persist - {name};
      r := Done;
    }

    // Exec: the flags are the errors of finding the backend's client, of its Stat and Upload, of
    // opening the file, and of deleting the metadata. Undisturbed, it reports success only if the
    // backend has the blob or there was no file to upload, and it gives up the file's protection
    // exactly then.
    method Exec(k: TT.Key, clientFails: bool, statFails: bool, openFails: bool, uploadFails: bool, clearFails: bool)
        returns (ok: bool)
      requires Valid()
      modifies this`cached, this`persist, this`backend
      ensures Valid()
      ensures ok ==> k in backend || k.name !in disk
      ensures persist == if ok then old(persist) - {k.name} else old(persist)
      ensures var uploads := !clientFails && k.name in disk && (statFails || k !in old(backend));
              && backend == (if uploads && !openFails && !uploadFails then old(backend) + {k} else old(backend))
              && (!ok <==> clientFails || (uploads && (openFails || uploadFails)) || (k.name in disk && clearFails))
              && cached == (if uploads || (ok && k.name in disk) then old(cached) + {k.name} else old(cached))
    {
      ok := true;
      if clientFails { return false; }
      if statFails || k !in backend {
        if k.name in disk {
          cached := cached + {k.name};
          if openFails || uploadFails { return false; }
          backend := backend + {k};
        }
      }
      if clearFails && k.name in disk { return false; }
      var _ := DeletePersist(k.name);
    }
  }
}
