/** internal/scheduler/ongoing.go: backing up one stable file reported by the watcher. */
module Ongoing {
  import opened Foundations
  import opened Catalog
  import opened Storage
  import opened Encryption
  import opened Backup

  /** One stable file and its surroundings: whether the path still exists, and what it holds
      when it is read (None fails). */
  datatype FileEvent = FileEvent(
    backupID: string, path: string, name: string, hash: string, size: int,
    present: bool, content: Option<bytes>,
    hasEncryptor: bool, masterKey: bytes, draw: Draw, date: int)

  datatype FileFault = NoFault | UploadFault | InsertFault

  datatype FileResult = FileResult(processed: int, bytesNew: int, deduped: int)

  datatype FileError = StatError | ReadError | EncryptError | UploadError | InsertError

  /** `buildEntry` */
  function FileEntry(ev: FileEvent, meta: EncMeta): BackupEntry {
    BackupEntry(0, ev.backupID, ev.hash, ev.name, ev.path, ev.size, None, false, "", meta.wrappedDEK, meta.nonce, ev.date)
  }

  function WithRow(st: State, e: BackupEntry): State {
    st.(entries := st.entries[st.nextID := RowFor(e, st.nextID)], nextID := st.nextID + 1)
  }

  function FilePayload(c: Primitives, ev: FileEvent): Option<(bytes, EncMeta)>
    requires ev.content.Some?
  {
    if ev.hasEncryptor && |ev.masterKey| > 0 then
      match Encrypt(c, ev.content.value, ev.masterKey, ev.draw)
      case Err(_) => None
      case Ok(s) => Some((s.ciphertext, EncMeta(s.wrappedDEK, s.nonce)))
    else Some((ev.content.value, EncMeta([], [])))
  }

  /** The node and the result of processing the file under one fault; `known` says that the
      server found the blob when asked. */
  function AfterFile(c: Primitives, ev: FileEvent, st: State, known: bool, fault: FileFault)
    : (State, Result<FileResult, FileError>)
  {
    if !ev.present then (st, Err(StatError))
    else if known then
      if fault.InsertFault? then (st, Err(InsertError))
      else (WithRow(st, FileEntry(ev, EncMeta([], []))), Ok(FileResult(1, 0, 1)))
    else if ev.content.None? then (st, Err(ReadError))
    else
      match FilePayload(c, ev)
      case None => (st, Err(EncryptError))
      case Some(p) =>
        if fault.UploadFault? then (st, Err(UploadError)) else
          var uploaded := st.(blobs := st.blobs[ev.hash := p.0]);
          if fault.InsertFault? then (uploaded, Err(InsertError))
          else (WithRow(uploaded, FileEntry(ev, p.1)), Ok(FileResult(1, |ev.content.value|, 0)))
  }

  /** The row is of the file as the event describes it. */
  predicate FileRow(row: BackupEntry, ev: FileEvent) {
    && row.backupID == ev.backupID && row.hash == ev.hash && row.fileName == ev.name && row.filePath == ev.path
    && row.fileSize == ev.size && row.permissions == None && !row.symlink
    && row.backupDate <= ev.date < row.backupDate + 1_000_000_000
  }

  class OngoingBackup {
    const server: LocalServer
    const repo: Repository

    constructor (server: LocalServer, repo: Repository)
      ensures this.server == server && this.repo == repo
    {
      this.server, this.repo := server, repo;
    }

    /** `processFile` */
    method ProcessFile(c: Primitives, ev: FileEvent)
      returns (r: Result<FileResult, FileError>, ghost known: bool, ghost fault: FileFault)
      requires repo.Valid()
      modifies repo`entries, repo`nextID, server.store`blobs
      ensures repo.Valid()
      ensures known ==> ev.hash in old(server.store.blobs)
      ensures (View(repo, server.store), r) == AfterFile(c, ev, old(View(repo, server.store)), known, fault)
      ensures server.reliable && repo.reliable ==>
                fault == NoFault && (known <==> ev.present && ev.hash in old(server.store.blobs))
      ensures r.Err? ==> repo.entries == old(repo.entries)
      ensures r.Ok? ==>
        && ev.present && old(repo.nextID) in repo.entries && FileRow(repo.entries[old(repo.nextID)], ev)
        && repo.entries == old(repo.entries)[old(repo.nextID) := repo.entries[old(repo.nextID)]]
        && r.value.processed == 1
        && (known ==> r.value.deduped == 1 && r.value.bytesNew == 0 && server.store.blobs == old(server.store.blobs))
        && (!known ==> ev.content.Some? && r.value.deduped == 0 && r.value.bytesNew == |ev.content.value|
                       && ev.hash in server.store.blobs)
    {
      known, fault := false, NoFault;
      if !ev.present {
        return Err(StatError), known, fault;
      }
      var m := [ManifestEntry(ev.hash, ev.path, ev.size)];
      var diff := server.ExchangeManifest(m);
      ghost var found :| found <= server.store.blobs.Keys && IsDiff(diff, m, found);
      OneEntryDiff(diff, m, found);
      known := ev.hash in found;
      if |diff.needed| == 0 {
        var deduped := repo.InsertBackupEntry(FileEntry(ev, EncMeta([], [])));
        if deduped.Err? {
          return Err(InsertError), known, InsertFault;
        }
        return Ok(FileResult(1, 0, 1)), known, fault;
      }
      if ev.content.None? {
        return Err(ReadError), known, fault;
      }
      var uploadData, meta := ev.content.value, EncMeta([], []);
      if ev.hasEncryptor && |ev.masterKey| > 0 {
        var s := Encrypt(c, ev.content.value, ev.masterKey, ev.draw);
        if s.Err? {
          return Err(EncryptError), known, fault;
        }
        uploadData, meta := s.value.ciphertext, EncMeta(s.value.wrappedDEK, s.value.nonce);
      }
      var ok := server.UploadFile(ev.hash, uploadData);
      if !ok {
        return Err(UploadError), known, UploadFault;
      }
      var inserted := repo.InsertBackupEntry(FileEntry(ev, meta));
      if inserted.Err? {
        return Err(InsertError), known, InsertFault;
      }
      return Ok(FileResult(1, |ev.content.value|, 0)), known, fault;
    }

    static lemma OneEntryDiff(d: ManifestDiff, m: seq<ManifestEntry>, server: set<string>)
      requires IsDiff(d, m, server) && |m| == 1
      ensures |d.needed| == 0 <==> m[0].hash in server
    {
      assert m[0] in m && forall e | e in m :: e == m[0];
      var needed := set h | h in d.needed;
      if |d.needed| > 0 {
        assert d.needed[0] in needed;
      }
      if m[0].hash !in server {
        assert m[0].hash in needed;
      }
    }
  }
}
