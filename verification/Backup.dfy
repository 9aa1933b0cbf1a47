/** internal/backup: manifest, diff, upload loop, entry insertion and counters of one run in
    local mode, under any pattern of read, upload and insert failures and any stop. */
module Backup {
  import opened Foundations
  import opened Catalog
  import opened Storage
  import opened Encryption

  datatype ScannedFile = ScannedFile(path: string, name: string, size: int, permissions: Option<nat>,
                                     symlink: bool, symlinkTarget: string)

  datatype ManifestEntry = ManifestEntry(hash: string, filePath: string, fileSize: int)

  datatype ManifestDiff = ManifestDiff(needed: seq<string>, dedupCount: nat, totalFiles: nat)

  /** The surroundings of one run: the scan, what each path holds when it is hashed and when
      it is read for upload (a missing path fails), the random draws and the clock. */
  datatype Job = Job(
    backupID: string, files: seq<ScannedFile>,
    atHash: map<string, bytes>, atRead: map<string, bytes>,
    encrypting: bool, masterKey: bytes,
    draws: nat -> Draw, dates: nat -> int)

  /** Which uploads and insertions failed (by position), and how many stop checks of each loop
      passed before the stop flag was seen. */
  datatype Faults = Faults(uploads: set<nat>, inserts: set<nat>, stopUpload: Option<nat>, stopInsert: Option<nat>)

  datatype Status = Completed | Stopped | Failed

  datatype BackupResult = BackupResult(filesProcessed: int, bytesNew: int, filesDeduped: int, status: Status)

  // ------------------------------------------------------------------ manifest and diff

  function Manifest(c: Primitives, files: seq<ScannedFile>, atHash: map<string, bytes>): seq<ManifestEntry> {
    if files == [] then [] else
      var f := files[|files| - 1];
      Manifest(c, files[..|files| - 1], atHash) +
        if f.path in atHash then [ManifestEntry(c.hash(atHash[f.path]), f.path, f.size)] else []
  }

  function HashesIn(m: seq<ManifestEntry>): set<string> {
    set e | e in m :: e.hash
  }

  predicate Distinct(hs: seq<string>) {
    forall i, j | 0 <= i < j < |hs| :: hs[i] != hs[j]
  }

  /** How many manifest entries have a hash in s. */
  function CountIn(m: seq<ManifestEntry>, s: set<string>): nat {
    if m == [] then 0
    else CountIn(m[..|m| - 1], s) + if m[|m| - 1].hash in s then 1 else 0
  }

  /** `BuildManifest`: a file that cannot be hashed is skipped. */
  method BuildManifest(c: Primitives, files: seq<ScannedFile>, atHash: map<string, bytes>)
    returns (entries: seq<ManifestEntry>)
    ensures entries == Manifest(c, files, atHash)
  {
    entries := [];
    for i := 0 to |files|
      invariant entries == Manifest(c, files[..i], atHash)
    {
      assert files[..i + 1][..i] == files[..i];
      if files[i].path in atHash {
        entries := entries + [ManifestEntry(c.hash(atHash[files[i].path]), files[i].path, files[i].size)];
      }
    }
    assert files[..|files|] == files;
  }

  /** The list lacks nothing, repeats nothing and names nothing else. */
  ghost predicate IsDiff(d: ManifestDiff, m: seq<ManifestEntry>, server: set<string>) {
    && Distinct(d.needed)
    && (set h | h in d.needed) == HashesIn(m) - server
    && d.dedupCount == CountIn(m, server)
    && d.totalFiles == |m|
  }

  /** `ComputeDiff` */
  method ComputeDiff(m: seq<ManifestEntry>, server: set<string>) returns (d: ManifestDiff)
    ensures IsDiff(d, m, server)
  {
    d := ManifestDiff([], 0, |m|);
    var seen: set<string> := {};
    for i := 0 to |m|
      invariant d.totalFiles == |m| && d.dedupCount == CountIn(m[..i], server)
      invariant Distinct(d.needed)
      invariant forall h :: h in d.needed <==> h in seen
      invariant seen == HashesIn(m[..i]) - server
    {
      var hash := m[i].hash;
      HashesInStep(m, i);
      assert m[..i + 1][..i] == m[..i];
      if hash in server {
        d := d.(dedupCount := d.dedupCount + 1);
      } else if hash !in seen {
        d := d.(needed := d.needed + [hash]);
        seen := seen + {hash};
      }
    }
    assert m[..|m|] == m;
  }

  lemma HashesInStep(m: seq<ManifestEntry>, i: nat)
    requires i < |m|
    ensures HashesIn(m[..i + 1]) == HashesIn(m[..i]) + {m[i].hash}
  {
    assert m[..i + 1] == m[..i] + [m[i]];
    assert (m[..i] + [m[i]])[i] == m[i];
    forall e | e in m[..i] ensures e in m[..i + 1] {}
  }

  // -------------------------------------------------------------------- the upload loop

  datatype EncMeta = EncMeta(wrappedDEK: bytes, nonce: bytes)

  /** The variables of the upload loop. */
  datatype Uploads = Uploads(blobs: map<string, bytes>, encryption: map<string, EncMeta>, uploaded: set<string>,
                             bytesNew: int, processed: int)

  /** The path of the first manifest entry with this hash. */
  function FirstPath(m: seq<ManifestEntry>, h: string): Option<string> {
    if m == [] then None
    else if m[0].hash == h then Some(m[0].filePath)
    else FirstPath(m[1..], h)
  }

  /** The bytes to store for a file and the metadata to record; None when encryption fails. */
  function Payload(c: Primitives, job: Job, data: bytes, k: nat): Option<(bytes, EncMeta)> {
    if !job.encrypting then Some((data, EncMeta([], []))) else
      match Encrypt(c, data, job.masterKey, job.draws(k))
      case Err(_) => None
      case Ok(s) => Some((s.ciphertext, EncMeta(s.wrappedDEK, s.nonce)))
  }

  /** Iteration k of the upload loop: the metadata is kept even if the upload then fails. */
  function UploadOne(c: Primitives, job: Job, m: seq<ManifestEntry>, u: Uploads, h: string, k: nat, fails: bool): Uploads {
    match FirstPath(m, h)
    case None => u
    case Some(path) =>
      if path !in job.atRead then u else
        match Payload(c, job, job.atRead[path], k)
        case None => u
        case Some(p) =>
          var noted := u.(encryption := u.encryption[h := p.1]);
          if fails then noted else
            noted.(blobs := u.blobs[h := p.0], uploaded := u.uploaded + {h},
                   bytesNew := u.bytesNew + |job.atRead[path]|, processed := u.processed + CountIn(m, {h}))
  }

  function UploadAll(c: Primitives, job: Job, m: seq<ManifestEntry>, blobs: map<string, bytes>,
                     needed: seq<string>, faults: Faults): Uploads
  {
    if needed == [] then Uploads(blobs, map[], {}, 0, 0) else
      var k := |needed| - 1;
      UploadOne(c, job, m, UploadAll(c, job, m, blobs, needed[..k], faults), needed[k], k, k in faults.uploads)
  }

  // ----------------------------------------------------------------- the insertion loop

  datatype Insertions = Insertions(entries: Table, nextID: nat, inserted: nat, seen: set<string>,
                                   processed: int, deduped: int)

  /** `pathToScanned`: a later file with the same path replaces an earlier one. */
  function Scanned(files: seq<ScannedFile>, path: string): Option<ScannedFile> {
    if files == [] then None
    else if files[|files| - 1].path == path then Some(files[|files| - 1])
    else Scanned(files[..|files| - 1], path)
  }

  function MetaOf(encryption: map<string, EncMeta>, h: string): EncMeta {
    if h in encryption then encryption[h] else EncMeta([], [])
  }

  /** `buildBackupEntry` */
  function BuildEntry(job: Job, h: string, f: ScannedFile, meta: EncMeta, i: nat): BackupEntry {
    BackupEntry(0, job.backupID, h, f.name, f.path, f.size, f.permissions, f.symlink, f.symlinkTarget,
                meta.wrappedDEK, meta.nonce, job.dates(i))
  }

  /** The counters after one insertion: the first entry of a needed hash was counted by its
      upload, every other one is deduplicated. */
  function AddRow(needed: set<string>, ins: Insertions, row: BackupEntry): Insertions {
    var stored := ins.(entries := ins.entries[ins.nextID := row], nextID := ins.nextID + 1, inserted := ins.inserted + 1);
    if row.hash !in needed then stored.(processed := ins.processed + 1, deduped := ins.deduped + 1)
    else if row.hash in ins.seen then stored.(deduped := ins.deduped + 1)
    else stored.(seen := ins.seen + {row.hash})
  }

  function InsertOne(job: Job, encryption: map<string, EncMeta>, needed: set<string>, ins: Insertions,
                     e: ManifestEntry, i: nat, fails: bool): Insertions
  {
    match Scanned(job.files, e.filePath)
    case None => ins
    case Some(f) =>
      if fails then ins else
        AddRow(needed, ins, RowFor(BuildEntry(job, e.hash, f, MetaOf(encryption, e.hash), i), ins.nextID))
  }

  function InsertAll(job: Job, encryption: map<string, EncMeta>, needed: set<string>, start: Insertions,
                     m: seq<ManifestEntry>, faults: Faults): Insertions
  {
    if m == [] then start else
      var i := |m| - 1;
      InsertOne(job, encryption, needed, InsertAll(job, encryption, needed, start, m[..i], faults), m[i], i,
                i in faults.inserts)
  }

  // ---------------------------------------------------------------------------- the run

  function Reached(stop: Option<nat>, n: nat): nat {
    if stop.Some? && stop.value < n then stop.value else n
  }

  function UploadPhase(c: Primitives, job: Job, st: State, needed: seq<string>, faults: Faults): Uploads {
    UploadAll(c, job, Manifest(c, job.files, job.atHash), st.blobs, needed[..Reached(faults.stopUpload, |needed|)], faults)
  }

  function InsertPhase(c: Primitives, job: Job, st: State, needed: seq<string>, faults: Faults): Insertions {
    var m, u := Manifest(c, job.files, job.atHash), UploadPhase(c, job, st, needed, faults);
    InsertAll(job, u.encryption, (set h | h in needed), Insertions(st.entries, st.nextID, 0, {}, u.processed, 0),
              m[..Reached(faults.stopInsert, |m|)], faults)
  }

  predicate StopsUploading(needed: seq<string>, faults: Faults) {
    Reached(faults.stopUpload, |needed|) < |needed|
  }

  /** The node after a run; a run stopped while uploading inserts nothing. */
  function AfterBackup(c: Primitives, job: Job, st: State, needed: seq<string>, faults: Faults): State {
    var uploaded := st.(blobs := UploadPhase(c, job, st, needed, faults).blobs, jobs := st.jobs + {job.backupID});
    if StopsUploading(needed, faults) then uploaded else
      var ins := InsertPhase(c, job, st, needed, faults);
      uploaded.(entries := ins.entries, nextID := ins.nextID)
  }

  function ResultOf(c: Primitives, job: Job, st: State, needed: seq<string>, faults: Faults): BackupResult {
    var u := UploadPhase(c, job, st, needed, faults);
    if StopsUploading(needed, faults) then BackupResult(u.processed, u.bytesNew, 0, Stopped) else
      var ins, m := InsertPhase(c, job, st, needed, faults), Manifest(c, job.files, job.atHash);
      BackupResult(ins.processed, u.bytesNew, ins.deduped,
                   if Reached(faults.stopInsert, |m|) < |m| then Stopped else Completed)
  }

  /** The diff against some of the stored hashes. */
  ghost predicate IsAnswer(d: ManifestDiff, m: seq<ManifestEntry>, stored: set<string>) {
    exists found: set<string> :: found <= stored && IsDiff(d, m, found)
  }

  /** The local-mode server: the blob directory reached without the store's hash check. */
  class LocalServer {
    const store: CAS
    /** Every check and every write succeeds. */
    const reliable: bool

    constructor (store: CAS, reliable: bool)
      ensures this.store == store && this.reliable == reliable
    {
      this.store, this.reliable := store, reliable;
    }

    /** Any failure of Stat counts as a missing blob, so a stored hash may be asked for again. */
    method ExchangeManifest(m: seq<ManifestEntry>) returns (d: ManifestDiff)
      ensures IsAnswer(d, m, store.blobs.Keys)
      ensures reliable ==> IsDiff(d, m, store.blobs.Keys)
    {
      var serverHashes: set<string> := {};
      for i := 0 to |m|
        invariant serverHashes <= store.blobs.Keys
        invariant reliable ==> forall k | 0 <= k < i && m[k].hash in store.blobs :: m[k].hash in serverHashes
      {
        var failed := Glitch(reliable);
        if !failed && m[i].hash in store.blobs {
          serverHashes := serverHashes + {m[i].hash};
        }
      }
      d := ComputeDiff(m, serverHashes);
      if reliable {
        SameDiff(d, m, serverHashes, store.blobs.Keys);
      }
    }

    static lemma {:induction false} SameCount(m: seq<ManifestEntry>, a: set<string>, b: set<string>)
      requires forall k | 0 <= k < |m| :: m[k].hash in a <==> m[k].hash in b
      ensures CountIn(m, a) == CountIn(m, b)
    {
      if m != [] {
        SameCount(m[..|m| - 1], a, b);
      }
    }

    static lemma SameDiff(d: ManifestDiff, m: seq<ManifestEntry>, a: set<string>, b: set<string>)
      requires IsDiff(d, m, a) && forall k | 0 <= k < |m| :: m[k].hash in a <==> m[k].hash in b
      ensures IsDiff(d, m, b)
    {
      SameCount(m, a, b);
      assert HashesIn(m) - a == HashesIn(m) - b;
    }

    method UploadFile(h: string, data: bytes) returns (ok: bool)
      modifies store`blobs
      ensures store.blobs == if ok then old(store.blobs)[h := data] else old(store.blobs)
      ensures reliable ==> ok
    {
      var failed := Glitch(reliable);
      ok := !failed;
      if ok {
        store.blobs := store.blobs[h := data];
      }
    }
  }

  class BackupEngine {
    const server: LocalServer
    const repo: Repository
    /** Set by another goroutine at any time; once seen it stays set. */
    var stopped: bool
    /** Nobody stops this engine, and its scans succeed. */
    const undisturbed: bool

    constructor (server: LocalServer, repo: Repository, undisturbed: bool)
      ensures this.server == server && this.repo == repo && this.undisturbed == undisturbed
    {
      this.server, this.repo, this.undisturbed, stopped := server, repo, undisturbed, false;
    }

    /** `RunBackup`: the node and the counters afterwards are those of the faults met. A run
        that ends early, before its first upload, has only created its job. */
    method RunBackup(c: Primitives, job: Job)
      returns (r: Result<BackupResult, Catalog.Error>, ghost early: bool, ghost found: set<string>,
               ghost diff: ManifestDiff, ghost faults: Faults)
      requires repo.Valid()
      modifies this, repo`entries, repo`nextID, repo`jobs, server.store`blobs
      ensures repo.Valid()
      ensures r.Err? ==> View(repo, server.store) == old(View(repo, server.store))
      ensures r.Ok? && early ==>
                && View(repo, server.store)
                   == old(View(repo, server.store)).(jobs := old(repo.jobs) + {job.backupID})
                && (r.value == BackupResult(0, 0, 0, Stopped) || r.value == BackupResult(0, 0, 0, Failed))
      ensures r.Ok? && !early ==>
                var st, m := old(View(repo, server.store)), Manifest(c, job.files, job.atHash);
                && found <= st.blobs.Keys && IsDiff(diff, m, found)
                && View(repo, server.store) == AfterBackup(c, job, st, diff.needed, faults)
                && r.value == ResultOf(c, job, st, diff.needed, faults)
      ensures repo.reliable ==> r.Ok? && faults.inserts == {}
      ensures server.reliable && !early ==>
                IsDiff(diff, Manifest(c, job.files, job.atHash), old(server.store.blobs).Keys) && faults.uploads == {}
      ensures undisturbed && r.Ok? ==> !early && faults.stopUpload == None && faults.stopInsert == None
    {
      early, found, diff, faults := true, {}, ManifestDiff([], 0, 0), Faults({}, {}, None, None);
      stopped := false;
      ghost var st := View(repo, server.store);
      var created := repo.CreateJob(job.backupID);
      if created.Err? {
        return Err(created.error), early, found, diff, faults;
      }
      var unscanned := Glitch(undisturbed);
      if unscanned {
        return Ok(BackupResult(0, 0, 0, Failed)), early, found, diff, faults;
      }
      stopped := Glitch(undisturbed);
      if stopped {
        return Ok(BackupResult(0, 0, 0, Stopped)), early, found, diff, faults;
      }
      var manifest := BuildManifest(c, job.files, job.atHash);
      stopped := Glitch(undisturbed);
      if stopped {
        return Ok(BackupResult(0, 0, 0, Stopped)), early, found, diff, faults;
      }
      var answer := server.ExchangeManifest(manifest);
      early, diff := false, answer;
      found :| found <= st.blobs.Keys && IsDiff(answer, manifest, found);
      ghost var needed := answer.needed;
      var uploads, uploadsStopped, uploadFaults := UploadLoop(c, job, manifest, answer.needed);
      faults := uploadFaults;
      assert UploadPhase(c, job, st, needed, faults) == uploads;
      if uploadsStopped {
        return Ok(BackupResult(uploads.processed, uploads.bytesNew, 0, Stopped)), early, found, diff, faults;
      }
      ghost var u0 := faults;
      var ins, insertsStopped, insertFaults := InsertLoop(job, manifest, answer.needed, uploads);
      faults := Faults(u0.uploads, insertFaults.inserts, u0.stopUpload, insertFaults.stopInsert);
      assert needed[..|needed|] == needed;
      SameUploads(c, job, manifest, st.blobs, needed, u0, faults);
      SameInserts(job, uploads.encryption, (set h | h in needed),
                  Insertions(st.entries, st.nextID, 0, {}, uploads.processed, 0),
                  manifest[..Reached(faults.stopInsert, |manifest|)], insertFaults, faults);
      return Ok(BackupResult(ins.processed, uploads.bytesNew, ins.deduped,
                             if insertsStopped then Stopped else Completed)), early, found, diff, faults;
    }

    static lemma {:induction false} SameUploads(c: Primitives, job: Job, m: seq<ManifestEntry>, blobs: map<string, bytes>,
                                                needed: seq<string>, f: Faults, g: Faults)
      requires f.uploads == g.uploads
      ensures UploadAll(c, job, m, blobs, needed, f) == UploadAll(c, job, m, blobs, needed, g)
    {
      if needed != [] {
        SameUploads(c, job, m, blobs, needed[..|needed| - 1], f, g);
      }
    }

    static lemma {:induction false} SameInserts(job: Job, encryption: map<string, EncMeta>, needed: set<string>,
                                                start: Insertions, m: seq<ManifestEntry>, f: Faults, g: Faults)
      requires f.inserts == g.inserts
      ensures InsertAll(job, encryption, needed, start, m, f) == InsertAll(job, encryption, needed, start, m, g)
    {
      if m != [] {
        SameInserts(job, encryption, needed, start, m[..|m| - 1], f, g);
      }
    }

    /** The inner search for a scanned file with this hash. */
    static method FindPath(m: seq<ManifestEntry>, h: string) returns (path: Option<string>)
      ensures path == FirstPath(m, h)
      ensures path.None? ==> forall i | 0 <= i < |m| :: m[i].hash != h
      ensures path.Some? ==> exists i :: 0 <= i < |m| && m[i].hash == h && m[i].filePath == path.value
                                         && forall j | 0 <= j < i :: m[j].hash != h
    {
      for i := 0 to |m|
        invariant FirstPath(m, h) == FirstPath(m[i..], h)
        invariant forall j | 0 <= j < i :: m[j].hash != h
      {
        if m[i].hash == h {
          return Some(m[i].filePath);
        }
      }
      return None;
    }

    /** `hashFileCount[h]` */
    static method FilesSharing(m: seq<ManifestEntry>, h: string) returns (n: nat)
      ensures n == CountIn(m, {h})
    {
      n := 0;
      for i := 0 to |m|
        invariant n == CountIn(m[..i], {h})
      {
        assert m[..i + 1][..i] == m[..i];
        if m[i].hash == h {
          n := n + 1;
        }
      }
      assert m[..|m|] == m;
    }

    /** Step 6. */
    method UploadLoop(c: Primitives, job: Job, m: seq<ManifestEntry>, needed: seq<string>)
      returns (u: Uploads, stop: bool, ghost faults: Faults)
      requires undisturbed ==> !stopped
      modifies this`stopped, server.store`blobs
      ensures undisturbed ==> !stopped && faults.stopUpload == None
      ensures server.reliable ==> faults.uploads == {}
      ensures faults.inserts == {} && faults.stopInsert == None
      ensures stop <==> StopsUploading(needed, faults)
      ensures u == UploadAll(c, job, m, old(server.store.blobs), needed[..Reached(faults.stopUpload, |needed|)], faults)
      ensures u.blobs == server.store.blobs
    {
      faults := Faults({}, {}, None, None);
      ghost var blobs := server.store.blobs;
      u := Uploads(server.store.blobs, map[], {}, 0, 0);
      for k := 0 to |needed|
        invariant faults.inserts == {} && faults.stopInsert == None && faults.stopUpload == None
        invariant (undisturbed ==> !stopped) && (server.reliable ==> faults.uploads == {})
        invariant forall i | i in faults.uploads :: i < k
        invariant u == UploadAll(c, job, m, blobs, needed[..k], faults) && u.blobs == server.store.blobs
      {
        var disturbed := Glitch(undisturbed);
        if disturbed {
          stopped := true;
        }
        if stopped {
          faults := faults.(stopUpload := Some(k));
          SameUploads(c, job, m, blobs, needed[..k], faults.(stopUpload := None), faults);
          return u, true, faults;
        }
        assert needed[..k + 1][..k] == needed[..k];
        var failed;
        u, failed := UploadHash(c, job, m, u, needed[k], k);
        if failed {
          MoreFaults(c, job, m, blobs, needed[..k], faults, k);
          faults := faults.(uploads := faults.uploads + {k});
        }
      }
      assert needed[..|needed|] == needed;
      return u, false, faults;
    }

    static lemma {:induction false} MoreFaults(c: Primitives, job: Job, m: seq<ManifestEntry>, blobs: map<string, bytes>,
                                               needed: seq<string>, f: Faults, k: nat)
      requires |needed| <= k
      ensures UploadAll(c, job, m, blobs, needed, f) ==
              UploadAll(c, job, m, blobs, needed, f.(uploads := f.uploads + {k}))
    {
      if needed != [] {
        MoreFaults(c, job, m, blobs, needed[..|needed| - 1], f, k);
      }
    }

    /** The body of the upload loop. */
    method UploadHash(c: Primitives, job: Job, m: seq<ManifestEntry>, u0: Uploads, h: string, k: nat)
      returns (u: Uploads, failed: bool)
      requires u0.blobs == server.store.blobs
      modifies server.store`blobs
      ensures u == UploadOne(c, job, m, u0, h, k, failed)
      ensures server.reliable ==> !failed
      ensures u.blobs == server.store.blobs
    {
      u, failed := u0, false;
      var path := FindPath(m, h);
      if path.None? || path.value !in job.atRead {
        return;
      }
      var data := job.atRead[path.value];
      var uploadData, meta := data, EncMeta([], []);
      if job.encrypting {
        var s := Encrypt(c, data, job.masterKey, job.draws(k));
        if s.Err? {
          return;
        }
        uploadData, meta := s.value.ciphertext, EncMeta(s.value.wrappedDEK, s.value.nonce);
      }
      u := u.(encryption := u.encryption[h := meta]);
      var ok := server.UploadFile(h, uploadData);
      if !ok {
        failed := true;
        return;
      }
      var sharing := FilesSharing(m, h);
      u := u.(blobs := server.store.blobs, uploaded := u.uploaded + {h},
              bytesNew := u.bytesNew + |data|, processed := u.processed + sharing);
    }

    /** Step 7. */
    method InsertLoop(job: Job, m: seq<ManifestEntry>, needed: seq<string>, u: Uploads)
      returns (ins: Insertions, stop: bool, ghost faults: Faults)
      requires repo.Valid() && (undisturbed ==> !stopped)
      modifies this`stopped, repo`entries, repo`nextID
      ensures undisturbed ==> faults.stopInsert == None
      ensures repo.reliable ==> faults.inserts == {}
      ensures repo.Valid()
      ensures stop <==> Reached(faults.stopInsert, |m|) < |m|
      ensures ins == InsertAll(job, u.encryption, (set h | h in needed),
                               Insertions(old(repo.entries), old(repo.nextID), 0, {}, u.processed, 0),
                               m[..Reached(faults.stopInsert, |m|)], faults)
      ensures ins.entries == repo.entries && ins.nextID == repo.nextID
    {
      faults := Faults({}, {}, None, None);
      var neededSet := set h | h in needed;
      var start := Insertions(repo.entries, repo.nextID, 0, {}, u.processed, 0);
      ins := start;
      for i := 0 to |m|
        invariant repo.Valid() && faults.stopInsert == None
        invariant (undisturbed ==> !stopped) && (repo.reliable ==> faults.inserts == {})
        invariant forall k | k in faults.inserts :: k < i
        invariant ins == InsertAll(job, u.encryption, neededSet, start, m[..i], faults)
        invariant ins.entries == repo.entries && ins.nextID == repo.nextID
      {
        var disturbed := Glitch(undisturbed);
        if disturbed {
          stopped := true;
        }
        if stopped {
          faults := faults.(stopInsert := Some(i));
          SameInserts(job, u.encryption, neededSet, start, m[..i], faults.(stopInsert := None), faults);
          return ins, true, faults;
        }
        assert m[..i + 1][..i] == m[..i];
        var failed;
        ins, failed := InsertEntry(job, u.encryption, neededSet, ins, m[i], i);
        if failed {
          MoreInsertFaults(job, u.encryption, neededSet, start, m[..i], faults, i);
          faults := faults.(inserts := faults.inserts + {i});
        }
      }
      assert m[..|m|] == m;
      return ins, false, faults;
    }

    static lemma {:induction false} MoreInsertFaults(job: Job, encryption: map<string, EncMeta>, needed: set<string>,
                                                     start: Insertions, m: seq<ManifestEntry>, f: Faults, i: nat)
      requires |m| <= i
      ensures InsertAll(job, encryption, needed, start, m, f) ==
              InsertAll(job, encryption, needed, start, m, f.(inserts := f.inserts + {i}))
    {
      if m != [] {
        MoreInsertFaults(job, encryption, needed, start, m[..|m| - 1], f, i);
      }
    }

    /** The body of the insertion loop. */
    method InsertEntry(job: Job, encryption: map<string, EncMeta>, needed: set<string>, ins0: Insertions,
                       e: ManifestEntry, i: nat)
      returns (ins: Insertions, failed: bool)
      requires repo.Valid() && ins0.entries == repo.entries && ins0.nextID == repo.nextID
      modifies repo`entries, repo`nextID
      ensures repo.Valid()
      ensures ins == InsertOne(job, encryption, needed, ins0, e, i, failed)
      ensures repo.reliable ==> !failed
      ensures ins.entries == repo.entries && ins.nextID == repo.nextID
    {
      ins, failed := ins0, false;
      var f := Scanned(job.files, e.filePath);
      if f.None? {
        return;
      }
      var inserted := repo.InsertBackupEntry(BuildEntry(job, e.hash, f.value, MetaOf(encryption, e.hash), i));
      if inserted.Err? {
        failed := true;
        return;
      }
      ins := ins.(entries := repo.entries, nextID := repo.nextID, inserted := ins.inserted + 1);
      if e.hash !in needed {
        ins := ins.(processed := ins.processed + 1, deduped := ins.deduped + 1);
      } else if e.hash in ins.seen {
        ins := ins.(deduped := ins.deduped + 1);
      } else {
        ins := ins.(seen := ins.seen + {e.hash});
      }
    }
  }
}
