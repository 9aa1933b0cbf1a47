/** internal/restore/engine.go: finding the metadata, decrypting, checking the digest, writing. */
module Restore {
  import opened Foundations
  import opened Catalog
  import opened Storage
  import opened Encryption

  /** What a restore leaves at its destination. */
  datatype Restored = Wrote(data: bytes, permissions: Option<nat>) | Linked(target: string)

  datatype RestoreError = Missing | NoMasterKey | BadDecrypt | HashMismatch | Failed

  datatype Keys = Keys(hasEncryptor: bool, masterKey: bytes)

  predicate CanDecrypt(k: Keys) {
    k.hasEncryptor && |k.masterKey| > 0
  }

  predicate HasKey(e: BackupEntry) {
    |e.encryptedDEK| > 0 && |e.nonce| > 0
  }

  function FirstWithKey(rows: seq<BackupEntry>): Option<BackupEntry> {
    if rows == [] then None
    else if HasKey(rows[0]) then Some(rows[0])
    else FirstWithKey(rows[1..])
  }

  /** The fallback: metadata without a data key gives way to the first row that has one. */
  function ChooseMeta(meta: Option<BackupEntry>, alternatives: seq<BackupEntry>, k: Keys): Option<BackupEntry> {
    if meta.Some? && |meta.value.encryptedDEK| == 0 && CanDecrypt(k) then
      match FirstWithKey(alternatives)
      case Some(e) => Some(e)
      case None => meta
    else meta
  }

  function Place(meta: Option<BackupEntry>, data: bytes): Restored {
    if meta.Some? && meta.value.symlink && meta.value.symlinkTarget != "" then Linked(meta.value.symlinkTarget)
    else Wrote(data, if meta.Some? then meta.value.permissions else None)
  }

  /** The outcome for stored bytes, starting metadata and the rows found for the hash. */
  function RestoreOf(c: Primitives, k: Keys, blob: bytes, meta: Option<BackupEntry>, alternatives: seq<BackupEntry>,
                     h: string): Result<Restored, RestoreError>
  {
    var chosen := ChooseMeta(meta, alternatives, k);
    if chosen.Some? && HasKey(chosen.value) then
      if !CanDecrypt(k) then Err(NoMasterKey)
      else
        match Decrypt(c, blob, chosen.value.encryptedDEK, chosen.value.nonce, k.masterKey)
        case Err(_) => Err(BadDecrypt)
        case Ok(data) => if c.hash(data) == h then Ok(Place(chosen, data)) else Err(HashMismatch)
    else if c.hash(blob) == h then Ok(Place(chosen, blob))
    else Err(HashMismatch)
  }

  function First(rows: seq<BackupEntry>): Option<BackupEntry> {
    if rows == [] then None else Some(rows[0])
  }

  /** `RestoreFile` as a function of the order in which the rows are found. */
  function RestoreFileOf(c: Primitives, k: Keys, blobs: map<string, bytes>, found: seq<BackupEntry>, h: string)
    : Result<Restored, RestoreError>
  {
    if h !in blobs then Err(Missing) else RestoreOf(c, k, blobs[h], First(found), found, h)
  }

  /** None of the first n rows has both a data key and a nonce. */
  predicate KeylessBefore(rows: seq<BackupEntry>, n: nat)
    requires n <= |rows|
  {
    forall j | 0 <= j < n :: rows[j].encryptedDEK == [] || rows[j].nonce == []
  }

  /** What is left at the destination when the row e is used: a link if it names a target. */
  predicate Leaves(r: Result<Restored, RestoreError>, e: BackupEntry, data: bytes) {
    r == if e.symlink && e.symlinkTarget != "" then Ok(Linked(e.symlinkTarget)) else Ok(Wrote(data, e.permissions))
  }

  /** The outcome for the row that a restore ends up with, case by case: no key without a master
      key, and no bytes, decrypted or not, whose digest is another. */
  lemma OutcomeCases(c: Primitives, k: Keys, blob: bytes, meta: BackupEntry, found: seq<BackupEntry>, h: string,
                     e: BackupEntry)
    requires ChooseMeta(Some(meta), found, k) == Some(e)
    ensures var r, d := RestoreOf(c, k, blob, Some(meta), found, h), Decrypt(c, blob, e.encryptedDEK, e.nonce, k.masterKey);
      var sealed, able := e.encryptedDEK != [] && e.nonce != [], k.hasEncryptor && k.masterKey != [];
      && (sealed && !able ==> r == Err(NoMasterKey))
      && (sealed && able && d.Err? ==> r == Err(BadDecrypt))
      && (sealed && able && d.Ok? ==> if c.hash(d.value) == h then Leaves(r, e, d.value) else r == Err(HashMismatch))
      && (!sealed ==> if c.hash(blob) == h then Leaves(r, e, blob) else r == Err(HashMismatch))
  {
  }

  /** One more restore has been noted down, of this hash to this place. */
  predicate Recorded(before: seq<RestoreRecord>, after: seq<RestoreRecord>, h: string, dest: string, success: bool) {
    && |after| == |before| + 1 && after[..|before|] == before
    && var rec := after[|before|]; rec.hash == h && rec.restoredTo == dest && rec.success == success
  }

  class RestoreEngine {
    const repo: Repository
    const source: CAS
    const keys: Keys
    /** Reading the source and writing a destination never fail. */
    const reliable: bool
    /** What the restores of this engine have left at each path. */
    var files: map<string, Restored>

    constructor (repo: Repository, source: CAS, keys: Keys, reliable: bool)
      ensures this.repo == repo && this.source == source && this.keys == keys && files == map[]
      ensures this.reliable == reliable
    {
      this.repo, this.source, this.keys, this.reliable, files := repo, source, keys, reliable, map[];
    }

    /** `LocalDataSource.DownloadFile`: Missing is definite, Failed is any other read error. */
    method Download(h: string) returns (r: Result<bytes, RestoreError>)
      ensures r.Ok? ==> h in source.blobs && r.value == source.blobs[h]
      ensures r.Err? ==> r.error == Failed || (r.error == Missing && h !in source.blobs)
      ensures reliable ==> r != Err(Failed)
    {
      var failed := Glitch(reliable);
      if failed {
        return Err(Failed);
      }
      if h !in source.blobs {
        return Err(Missing);
      }
      return Ok(source.blobs[h]);
    }

    /** The fallback search. */
    method PickMeta(meta: Option<BackupEntry>, alternatives: seq<BackupEntry>) returns (chosen: Option<BackupEntry>)
      ensures chosen == ChooseMeta(meta, alternatives, keys)
      ensures meta.None? || |meta.value.encryptedDEK| > 0 || !keys.hasEncryptor || |keys.masterKey| == 0 ==> chosen == meta
      ensures meta.Some? && |meta.value.encryptedDEK| == 0 && keys.hasEncryptor && |keys.masterKey| > 0 ==>
        || (chosen == meta && KeylessBefore(alternatives, |alternatives|))
        || exists i :: 0 <= i < |alternatives| && chosen == Some(alternatives[i]) && KeylessBefore(alternatives, i)
                       && alternatives[i].encryptedDEK != [] && alternatives[i].nonce != []
    {
      chosen := meta;
      if meta.Some? && |meta.value.encryptedDEK| == 0 && CanDecrypt(keys) {
        for i := 0 to |alternatives|
          invariant FirstWithKey(alternatives) == FirstWithKey(alternatives[i..])
          invariant KeylessBefore(alternatives, i)
        {
          if HasKey(alternatives[i]) {
            return Some(alternatives[i]);
          }
        }
      }
    }

    /** Decryption, the digest check and the write, common to both entry points. A failed
        write may leave anything at the destination, and nothing elsewhere. */
    method Finish(c: Primitives, data: bytes, chosen: Option<BackupEntry>, h: string, dest: string,
                  ghost meta: Option<BackupEntry>, ghost alternatives: seq<BackupEntry>)
      returns (r: Result<(), RestoreError>)
      requires chosen == ChooseMeta(meta, alternatives, keys)
      modifies this`files
      ensures forall p | p != dest :: p in files <==> p in old(files)
      ensures forall p | p != dest && p in files :: files[p] == old(files)[p]
      ensures var spec := RestoreOf(c, keys, data, meta, alternatives, h);
              && (r.Ok? ==> spec.Ok? && files == old(files)[dest := spec.value])
              && (r.Err? && r.error != Failed ==> spec == Err(r.error) && files == old(files))
      ensures reliable ==> r != Err(Failed)
    {
      var fileData := data;
      if chosen.Some? && HasKey(chosen.value) {
        if !CanDecrypt(keys) {
          return Err(NoMasterKey);
        }
        var plain := Decrypt(c, data, chosen.value.encryptedDEK, chosen.value.nonce, keys.masterKey);
        if plain.Err? {
          return Err(BadDecrypt);
        }
        fileData := plain.value;
      }
      if c.hash(fileData) != h {
        return Err(HashMismatch);
      }
      var failed := Glitch(reliable);
      if failed {
        var remains: Restored := *;
        files := files[dest := remains];
        return Err(Failed);
      }
      files := files[dest := Place(chosen, fileData)];
      return Ok(());
    }

    /** `RestoreFile`. Unless some read or write failed, the outcome is the function's. */
    method RestoreFile(c: Primitives, h: string, dest: string)
      returns (r: Result<(), RestoreError>, ghost found: seq<BackupEntry>)
      requires repo.Valid()
      modifies this`files, repo`history
      ensures repo.Valid()
      ensures forall p | p != dest :: p in files <==> p in old(files)
      ensures forall p | p != dest && p in files :: files[p] == old(files)[p]
      ensures !(r.Err? && (r.error == Failed || r.error == Missing)) ==> Lists(found, repo.entries, WithHash(repo.entries, h))
      ensures var spec := RestoreFileOf(c, keys, source.blobs, found, h);
              && (r.Ok? ==> spec.Ok? && files == old(files)[dest := spec.value])
              && (r.Err? && r.error != Failed ==> spec == Err(r.error) && files == old(files))
      ensures r.Err? ==> repo.history == old(repo.history)
      ensures reliable && repo.reliable ==> r != Err(Failed)
      ensures r.Ok? && repo.reliable ==> Recorded(old(repo.history), repo.history, h, dest, true)
    {
      found := [];
      var data := Download(h);
      if data.Err? {
        return Err(data.error), found;
      }
      var rows := repo.FindByHash(h);
      if rows.Err? {
        return Err(Failed), found;
      }
      found := rows.value;
      var chosen := PickMeta(First(rows.value), rows.value);
      r := Finish(c, data.value, chosen, h, dest, First(found), found);
      if r.Ok? {
        repo.RecordRestore(RestoreRecord(h, if chosen.Some? then chosen.value.fileName else dest,
                                         if chosen.Some? then chosen.value.backupID else "unknown", dest, true));
      }
    }

    /** `restoreEntry`: the caller may supply the metadata, and a failed lookup is not an error. */
    method RestoreEntry(c: Primitives, h: string, supplied: Option<BackupEntry>, dest: string)
      returns (r: Result<(), RestoreError>, ghost meta: Option<BackupEntry>, ghost found: seq<BackupEntry>,
               ghost lookupFailed: bool)
      requires repo.Valid()
      modifies this`files, repo`history
      ensures repo.Valid()
      ensures supplied.Some? ==> meta == supplied
      ensures !lookupFailed && h in source.blobs && !(r.Err? && r.error == Failed) ==>
                && (supplied.None? ==> exists rows :: Lists(rows, repo.entries, WithHash(repo.entries, h)) && meta == First(rows))
                && (meta.Some? && |meta.value.encryptedDEK| == 0 && CanDecrypt(keys) ==>
                      Lists(found, repo.entries, WithHash(repo.entries, h)))
      ensures r.Ok? ==> && h in source.blobs && RestoreOf(c, keys, source.blobs[h], meta, found, h).Ok?
                        && files == old(files)[dest := RestoreOf(c, keys, source.blobs[h], meta, found, h).value]
      ensures r.Err? && r.error != Failed ==>
                && files == old(files)
                && (h in source.blobs ==> RestoreOf(c, keys, source.blobs[h], meta, found, h) == Err(r.error))
                && (h !in source.blobs ==> r.error == Missing)
      ensures reliable ==> r != Err(Failed)
      ensures repo.reliable ==> !lookupFailed && Recorded(old(repo.history), repo.history, h, dest, r.Ok?)
    {
      meta, found, lookupFailed := supplied, [], false;
      var data := Download(h);
      if data.Err? {
        repo.RecordRestore(RestoreRecord(h, "", "", dest, false));
        return Err(data.error), meta, found, lookupFailed;
      }
      var metadata := supplied;
      if metadata.None? {
        var rows := repo.FindByHash(h);
        if rows.Ok? {
          metadata := First(rows.value);
        } else {
          lookupFailed := true;
        }
      }
      meta := metadata;
      var alternatives: seq<BackupEntry> := [];
      if metadata.Some? && |metadata.value.encryptedDEK| == 0 && CanDecrypt(keys) {
        var rows := repo.FindByHash(h);
        if rows.Ok? {
          alternatives := rows.value;
        } else {
          lookupFailed := true;
        }
      }
      found := alternatives;
      var chosen := PickMeta(metadata, alternatives);
      r := Finish(c, data.value, chosen, h, dest, meta, found);
      repo.RecordRestore(RestoreRecord(h, "", "", dest, r.Ok?));
    }
  }
}
