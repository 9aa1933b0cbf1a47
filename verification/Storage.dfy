/** The database and the blob store as objects. Unless an object is reliable, a method may fail
    with IO at any call, for any reason; a failed call has changed nothing. */
module Storage {
  import opened Foundations
  import opened Catalog

  datatype Filter = Filter(backupID: string, folderPath: string, filePath: string, allBackups: bool)

  predicate NoConditions(f: Filter) {
    f.backupID == "" && f.folderPath == "" && f.filePath == ""
  }

  /** The WHERE clause that QueryEntries and DeleteEntries build alike. */
  predicate Matches(under: (string, string) -> bool, f: Filter, e: BackupEntry) {
    && (f.backupID != "" ==> e.backupID == f.backupID)
    && (f.folderPath != "" ==> under(f.folderPath, e.filePath))
    && (f.filePath != "" ==> e.filePath == f.filePath)
  }

  function Selected(under: (string, string) -> bool, t: Table, f: Filter): set<nat> {
    set id | id in t && Matches(under, f, t[id])
  }

  function PathsOf(t: Table): set<string> {
    set id | id in t :: t[id].filePath
  }

  datatype RestoreRecord = RestoreRecord(hash: string, fileName: string, sourceBackup: string,
                                         restoredTo: string, success: bool)

  ghost predicate NewestFirst(rows: seq<BackupEntry>) {
    forall i, j | 0 <= i < j < |rows| :: rows[i].backupDate >= rows[j].backupDate
  }

  predicate IsNewest(t: Table, ids: set<nat>, id: nat) {
    id in ids && id in t && forall x | x in ids && x in t :: t[x].backupDate <= t[id].backupDate
  }

  lemma NewestExists(t: Table, ids: set<nat>)
    requires ids <= t.Keys && ids != {}
    ensures exists id :: IsNewest(t, ids, id)
    decreases ids
  {
    var y :| y in ids;
    if ids == {y} {
      assert IsNewest(t, ids, y);
    } else {
      NewestExists(t, ids - {y});
      var m :| IsNewest(t, ids - {y}, m);
      assert IsNewest(t, ids, if t[m].backupDate >= t[y].backupDate then m else y);
    }
  }

  class Repository {
    var entries: Table
    var jobs: set<string>
    var nextID: nat
    var history: seq<RestoreRecord>
    /** `file_path LIKE folder || '%'` */
    const under: (string, string) -> bool
    const reliable: bool

    ghost predicate Valid()
      reads this
    {
      WellKeyed(entries, nextID)
    }

    constructor (under: (string, string) -> bool, reliable: bool)
      ensures Valid() && entries == map[] && jobs == {} && history == []
      ensures this.under == under && this.reliable == reliable
    {
      entries, jobs, nextID, history := map[], {}, 1, [];
      this.under, this.reliable := under, reliable;
    }

    method CreateJob(backupID: string) returns (r: Result<(), Error>)
      modifies this`jobs
      ensures r.Ok? ==> jobs == old(jobs) + {backupID}
      ensures r.Err? ==> jobs == old(jobs)
      ensures reliable ==> r.Ok?
    {
      var failed := Glitch(reliable);
      if failed {
        return Err(IO);
      }
      jobs := jobs + {backupID};
      return Ok(());
    }

    /** AUTOINCREMENT: the new key exceeds every key ever used. */
    method InsertBackupEntry(e: BackupEntry) returns (r: Result<(), Error>)
      requires Valid()
      modifies this`entries, this`nextID
      ensures Valid()
      ensures r.Ok? ==> && entries == old(entries)[old(nextID) := RowFor(e, old(nextID))]
                        && IsRowFor(entries[old(nextID)], e, old(nextID))
                        && nextID == old(nextID) + 1
      ensures r.Err? ==> entries == old(entries) && nextID == old(nextID)
      ensures reliable ==> r.Ok?
    {
      var failed := Glitch(reliable);
      if failed {
        return Err(IO);
      }
      entries := entries[nextID := RowFor(e, nextID)];
      nextID := nextID + 1;
      return Ok(());
    }

    /** Reads the rows with the given keys, in some order. */
    method Select(ids: set<nat>) returns (rows: seq<BackupEntry>)
      requires Valid() && ids <= entries.Keys
      ensures Lists(rows, entries, ids)
    {
      rows := [];
      var todo := ids;
      while todo != {}
        invariant todo <= ids && Lists(rows, entries, ids - todo)
        decreases todo
      {
        var id :| id in todo;
        ListsAppend(rows, entries, ids - todo, id);
        assert ids - (todo - {id}) == ids - todo + {id};
        rows, todo := rows + [entries[id]], todo - {id};
      }
    }

    method QueryEntries(f: Filter) returns (r: Result<seq<BackupEntry>, Error>)
      requires Valid()
      ensures r.Ok? ==> Lists(r.value, entries, Selected(under, entries, f))
      ensures reliable ==> r.Ok?
    {
      var failed := Glitch(reliable);
      if failed {
        return Err(IO);
      }
      var rows := Select(Selected(under, entries, f));
      return Ok(rows);
    }

    method FindByHash(h: string) returns (r: Result<seq<BackupEntry>, Error>)
      requires Valid()
      ensures r.Ok? ==> Lists(r.value, entries, WithHash(entries, h))
      ensures reliable ==> r.Ok?
    {
      var failed := Glitch(reliable);
      if failed {
        return Err(IO);
      }
      var rows := Select(WithHash(entries, h));
      return Ok(rows);
    }

    /** ORDER BY backup_date DESC; rows of equal date come in any order. */
    method GetFileVersions(path: string) returns (r: Result<seq<BackupEntry>, Error>)
      requires Valid()
      ensures r.Ok? ==> Lists(r.value, entries, WithPath(entries, path)) && NewestFirst(r.value)
      ensures reliable ==> r.Ok?
    {
      var failed := Glitch(reliable);
      if failed {
        return Err(IO);
      }
      var rows: seq<BackupEntry> := [];
      var todo := WithPath(entries, path);
      while todo != {}
        invariant todo <= WithPath(entries, path)
        invariant Lists(rows, entries, WithPath(entries, path) - todo)
        invariant NewestFirst(rows)
        invariant forall i, x | 0 <= i < |rows| && x in todo :: rows[i].backupDate >= entries[x].backupDate
        decreases todo
      {
        NewestExists(entries, todo);
        var id :| IsNewest(entries, todo, id);
        ListsAppend(rows, entries, WithPath(entries, path) - todo, id);
        assert WithPath(entries, path) - (todo - {id}) == WithPath(entries, path) - todo + {id};
        rows, todo := rows + [entries[id]], todo - {id};
      }
      return Ok(rows);
    }

    method GetAllFilePaths() returns (r: Result<seq<string>, Error>)
      ensures r.Ok? ==> && (set p | p in r.value) == PathsOf(entries)
                        && (forall i, j | 0 <= i < j < |r.value| :: r.value[i] != r.value[j])
      ensures reliable ==> r.Ok?
    {
      var failed := Glitch(reliable);
      if failed {
        return Err(IO);
      }
      var paths: seq<string> := [];
      var todo := PathsOf(entries);
      while todo != {}
        invariant todo <= PathsOf(entries)
        invariant forall p :: p in paths <==> p in PathsOf(entries) && p !in todo
        invariant forall i, j | 0 <= i < j < |paths| :: paths[i] != paths[j]
        decreases todo
      {
        var p :| p in todo;
        paths, todo := paths + [p], todo - {p};
      }
      return Ok(paths);
    }

    method CountHashReferences(h: string) returns (r: Result<nat, Error>)
      ensures r.Ok? ==> r.value == |WithHash(entries, h)|
      ensures reliable ==> r.Ok?
    {
      var failed := Glitch(reliable);
      if failed {
        return Err(IO);
      }
      return Ok(|WithHash(entries, h)|);
    }

    /** Without conditions and without AllBackups nothing is deleted. */
    method DeleteEntries(f: Filter) returns (r: Result<nat, Error>)
      requires Valid()
      modifies this`entries
      ensures Valid()
      ensures r.Ok? ==>
                var gone := if NoConditions(f) && !f.allBackups then {} else Selected(under, old(entries), f);
                entries == old(entries) - gone && r.value == |gone|
      ensures r.Err? ==> entries == old(entries)
      ensures reliable ==> r.Ok?
    {
      if NoConditions(f) && !f.allBackups {
        return Ok(0);
      }
      var failed := Glitch(reliable);
      if failed {
        return Err(IO);
      }
      var gone := Selected(under, entries, f);
      entries := entries - gone;
      return Ok(|gone|);
    }

    method DeleteEntryByID(id: nat) returns (r: Result<(), Error>)
      requires Valid()
      modifies this`entries
      ensures Valid()
      ensures entries == if r.Ok? then old(entries) - {id} else old(entries)
      ensures reliable ==> r.Ok?
    {
      var failed := Glitch(reliable);
      if failed {
        return Err(IO);
      }
      entries := entries - {id};
      return Ok(());
    }

    method DeleteOrphanJobs() returns (r: Result<nat, Error>)
      modifies this`jobs
      ensures r.Ok? ==> && jobs == (set j | j in old(jobs) && WithJob(entries, j) != {})
                        && r.value == |old(jobs)| - |jobs|
      ensures r.Err? ==> jobs == old(jobs)
      ensures reliable ==> r.Ok?
    {
      var failed := Glitch(reliable);
      if failed {
        return Err(IO);
      }
      var kept := set j | j in jobs && WithJob(entries, j) != {};
      assert |jobs - kept| == |jobs| - |kept|;
      var removed := |jobs - kept|;
      jobs := kept;
      return Ok(removed);
    }

    method RecordRestore(rec: RestoreRecord)
      modifies this`history
      ensures history == old(history) + [rec] || history == old(history)
      ensures reliable ==> history == old(history) + [rec]
    {
      var failed := Glitch(reliable);
      if !failed {
        history := history + [rec];
      }
    }
  }

  class CAS {
    var blobs: map<string, bytes>
    /** The 64-lowercase-hex check. */
    const wellFormed: string -> bool
    const refCounter: Repository?
    const reliable: bool

    constructor (wellFormed: string -> bool, refCounter: Repository?, reliable: bool)
      ensures blobs == map[] && this.wellFormed == wellFormed && this.refCounter == refCounter
      ensures this.reliable == reliable
    {
      blobs, this.wellFormed, this.refCounter, this.reliable := map[], wellFormed, refCounter, reliable;
    }

    /** A write to a temporary file and a rename: all or nothing. */
    method Put(h: string, data: bytes) returns (r: Result<(), Error>)
      modifies this`blobs
      ensures r.Ok? ==> wellFormed(h) && blobs == old(blobs)[h := data]
      ensures r.Err? ==> blobs == old(blobs)
      ensures r == Err(InvalidHash) <==> !wellFormed(h)
      ensures reliable && wellFormed(h) ==> r.Ok?
    {
      if !wellFormed(h) {
        return Err(InvalidHash);
      }
      var failed := Glitch(reliable);
      if failed {
        return Err(IO);
      }
      blobs := blobs[h := data];
      return Ok(());
    }

    method Get(h: string) returns (r: Result<bytes, Error>)
      ensures r.Ok? ==> h in blobs && r.value == blobs[h]
      ensures r == Err(NotFound) ==> h !in blobs
      ensures r == Err(InvalidHash) <==> !wellFormed(h)
      ensures reliable && wellFormed(h) ==> r == if h in blobs then Ok(blobs[h]) else Err(NotFound)
    {
      if !wellFormed(h) {
        return Err(InvalidHash);
      }
      if h !in blobs {
        return Err(NotFound);
      }
      var failed := Glitch(reliable);
      if failed {
        return Err(IO);
      }
      return Ok(blobs[h]);
    }

    method Exists(h: string) returns (r: Result<bool, Error>)
      ensures r.Ok? ==> (r.value <==> h in blobs)
      ensures r == Err(InvalidHash) <==> !wellFormed(h)
      ensures reliable && wellFormed(h) ==> r.Ok?
    {
      if !wellFormed(h) {
        return Err(InvalidHash);
      }
      var failed := Glitch(reliable);
      if failed {
        return Err(IO);
      }
      return Ok(h in blobs);
    }

    method Delete(h: string) returns (r: Result<(), Error>)
      modifies this`blobs
      ensures r.Ok? ==> h in old(blobs) && blobs == old(blobs) - {h}
      ensures r == Err(NotFound) ==> h !in blobs
      ensures r.Err? ==> blobs == old(blobs)
      ensures r == Err(InvalidHash) <==> !wellFormed(h)
      ensures reliable && wellFormed(h) ==> if h in old(blobs) then r.Ok? else r == Err(NotFound)
    {
      if !wellFormed(h) {
        return Err(InvalidHash);
      }
      if h !in blobs {
        return Err(NotFound);
      }
      var failed := Glitch(reliable);
      if failed {
        return Err(IO);
      }
      blobs := blobs - {h};
      return Ok(());
    }

    /** Zero for every hash when no counter was configured. */
    method RefCount(h: string) returns (r: Result<nat, Error>)
      ensures r.Ok? ==> r.value == if refCounter == null then 0 else |WithHash(refCounter.entries, h)|
      ensures !wellFormed(h) ==> r == Err(InvalidHash)
      ensures wellFormed(h) && (refCounter == null || refCounter.reliable) ==> r.Ok?
    {
      if !wellFormed(h) {
        return Err(InvalidHash);
      }
      if refCounter == null {
        return Ok(0);
      }
      r := refCounter.CountHashReferences(h);
    }
  }

  ghost function View(repo: Repository, cas: CAS): State
    reads repo, cas
  {
    State(repo.entries, repo.jobs, cas.blobs, repo.nextID)
  }
}
