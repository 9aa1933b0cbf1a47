/** What backups, watched files, deletions and retention runs leave of a node's blobs and keys,
    and what can be restored after any history of them. */
module History {
  import opened Foundations
  import opened Catalog
  import opened Storage
  import opened Encryption
  import opened Backup
  import opened Accounting
  import opened Records
  import opened Ongoing
  import opened Restore
  import opened Reclamation
  import opened Restorability

  const NoMeta: EncMeta := EncMeta([], [])

  /** A file that is read for upload still holds what was hashed, there is one master key, and
      the scanner has skipped every link (internal/backup/scanner.go:85, 97). */
  ghost predicate Regular(mk: bytes, job: Job) {
    && (forall p | p in job.atHash && p in job.atRead :: job.atHash[p] == job.atRead[p])
    && (job.encrypting ==> job.masterKey == mk)
    && NoLinks(job)
  }

  predicate NoLinks(job: Job) {
    forall f | f in job.files :: !f.symlink
  }

  // ------------------------------------------------------------- what the uploads leave

  lemma {:induction false} FirstPathIsListed(m: seq<ManifestEntry>, h: string)
    ensures FirstPath(m, h).Some? ==> exists e :: e in m && e.hash == h && e.filePath == FirstPath(m, h).value
    ensures FirstPath(m, h).None? ==> forall e | e in m :: e.hash != h
  {
    if m != [] {
      FirstPathIsListed(m[1..], h);
      assert m[0] in m;
      forall e | e in m[1..] ensures e in m {}
    }
  }

  lemma SourceHolds(c: Primitives, mk: bytes, job: Job, h: string)
    requires Regular(mk, job)
    ensures var path := FirstPath(Manifest(c, job.files, job.atHash), h);
            path.Some? && path.value in job.atRead ==> c.hash(job.atRead[path.value]) == h
  {
    FirstPathIsListed(Manifest(c, job.files, job.atHash), h);
    ManifestIsScanned(c, job.files, job.atHash);
  }

  /** The upload of hash h at position k of the list is attempted: its file can be read and, if
      need be, encrypted. */
  predicate Tried(c: Primitives, job: Job, m: seq<ManifestEntry>, h: string, k: nat) {
    var path := FirstPath(m, h);
    path.Some? && path.value in job.atRead && Payload(c, job, job.atRead[path.value], k).Some?
  }

  /** The bytes it sends and the metadata it notes. */
  function Sent(c: Primitives, job: Job, m: seq<ManifestEntry>, h: string, k: nat): (bytes, EncMeta)
    requires Tried(c, job, m, h, k)
  {
    Payload(c, job, job.atRead[FirstPath(m, h).value], k).value
  }

  ghost predicate UploadedAt(c: Primitives, job: Job, m: seq<ManifestEntry>, u: Uploads, h: string, k: nat, failed: bool) {
    && (h in u.encryption <==> Tried(c, job, m, h, k))
    && (h in u.encryption ==> u.encryption[h] == Sent(c, job, m, h, k).1)
    && (h in u.uploaded <==> Tried(c, job, m, h, k) && !failed)
    && (h in u.uploaded ==> h in u.blobs && u.blobs[h] == Sent(c, job, m, h, k).0)
  }

  /** Everything that the upload loop leaves, position by position. */
  ghost predicate UploadsDone(c: Primitives, job: Job, m: seq<ManifestEntry>, blobs: map<string, bytes>,
                              needed: seq<string>, faults: Faults, u: Uploads)
  {
    && u.encryption.Keys <= AsSet(needed) && u.uploaded <= u.encryption.Keys
    && (forall h | h !in u.uploaded :: (h in u.blobs <==> h in blobs) && (h in blobs ==> u.blobs[h] == blobs[h]))
    && (forall k | 0 <= k < |needed| :: UploadedAt(c, job, m, u, needed[k], k, k in faults.uploads))
  }

  lemma {:induction false} UploadsAreDone(c: Primitives, job: Job, m: seq<ManifestEntry>, blobs: map<string, bytes>,
                                          needed: seq<string>, faults: Faults)
    requires Distinct(needed)
    ensures UploadsDone(c, job, m, blobs, needed, faults, UploadAll(c, job, m, blobs, needed, faults))
  {
    if needed == [] {
      assert AsSet(needed) == {};
    } else {
      var n := |needed| - 1;
      UploadsAreDone(c, job, m, blobs, needed[..n], faults);
      AsSetStep(needed);
      OneMoreDone(c, job, m, blobs, needed, faults, UploadAll(c, job, m, blobs, needed[..n], faults));
    }
  }

  lemma OneMoreDone(c: Primitives, job: Job, m: seq<ManifestEntry>, blobs: map<string, bytes>,
                    needed: seq<string>, faults: Faults, before: Uploads)
    requires needed != [] && Distinct(needed)
    requires UploadsDone(c, job, m, blobs, needed[..|needed| - 1], faults, before)
    ensures var n := |needed| - 1;
      UploadsDone(c, job, m, blobs, needed, faults, UploadOne(c, job, m, before, needed[n], n, n in faults.uploads))
  {
    var n := |needed| - 1;
    var u := UploadOne(c, job, m, before, needed[n], n, n in faults.uploads);
    AsSetStep(needed);
    forall k | 0 <= k < |needed| ensures UploadedAt(c, job, m, u, needed[k], k, k in faults.uploads) {
      if k < n {
        assert needed[..n][k] == needed[k];
        assert UploadedAt(c, job, m, before, needed[k], k, k in faults.uploads);
      }
    }
  }

  /** Metadata is noted with both a key and a nonce, or with neither. */
  lemma SentHasKey(c: Primitives, job: Job, m: seq<ManifestEntry>, h: string, k: nat)
    requires Lawful(c) && Tried(c, job, m, h, k)
    ensures var meta := Sent(c, job, m, h, k).1;
      if job.encrypting then |meta.wrappedDEK| > 0 && |meta.nonce| > 0 else meta == NoMeta
  {
    if job.encrypting {
      EncryptRoundTrip(c, job.atRead[FirstPath(m, h).value], job.masterKey, job.draws(k), []);
    }
  }

  /** What is sent is the content, or opens to it with the key that is noted. */
  lemma SentIsContent(c: Primitives, mk: bytes, job: Job, h: string, k: nat)
    requires Lawful(c) && Regular(mk, job) && Tried(c, job, Manifest(c, job.files, job.atHash), h, k)
    ensures var s := Sent(c, job, Manifest(c, job.files, job.atHash), h, k);
      && HoldsContent(c, mk, s.0, h)
      && (if job.encrypting then |s.1.wrappedDEK| > 0 && |s.1.nonce| > 0 && KeyOpens(c, mk, s.0, s.1.wrappedDEK, h)
          else s.1 == NoMeta && c.hash(s.0) == h)
      && (job.encrypting ==> exists data :: c.hash(data) == h && s.1.nonce == job.draws(k).nonce
                                           && s.0 == job.draws(k).nonce + c.seal(job.draws(k).dek, job.draws(k).nonce, data))
  {
    SourceHolds(c, mk, job, h);
    var data := job.atRead[FirstPath(Manifest(c, job.files, job.atHash), h).value];
    if job.encrypting {
      EncryptRoundTrip(c, data, mk, job.draws(k), []);
      var s := Sent(c, job, Manifest(c, job.files, job.atHash), h, k);
      assert KeyOpens(c, mk, s.0, s.1.wrappedDEK, h);
    }
  }

  // ----------------------------------------------------------- what the insertions leave

  /** The hashes of the manifest entries whose insertion succeeds. */
  function InsertedHashes(job: Job, m: seq<ManifestEntry>, faults: Faults): set<string> {
    if m == [] then {}
    else
      var i := |m| - 1;
      InsertedHashes(job, m[..i], faults)
      + if Scanned(job.files, m[i].filePath).Some? && i !in faults.inserts then {m[i].hash} else {}
  }

  /** The row carries what was noted for its hash, and is no link if the scan had none. */
  predicate NotedRow(e: BackupEntry, encryption: map<string, EncMeta>, noLinks: bool) {
    EncMeta(e.encryptedDEK, e.nonce) == MetaOf(encryption, e.hash) && (noLinks ==> !e.symlink)
  }

  /** Such are the rows added since `start`, and their hashes are exactly the given ones. */
  ghost predicate RowsAdded(start: Insertions, ins: Insertions, encryption: map<string, EncMeta>, hashes: set<string>,
                            noLinks: bool)
  {
    && GrownFrom(start, ins) && WellKeyed(ins.entries, ins.nextID)
    && HashesOf(ins.entries, AddedRows(start, ins)) == hashes
    && forall id | id in AddedRows(start, ins) :: NotedRow(ins.entries[id], encryption, noLinks)
  }

  lemma {:induction false} ScannedIsListed(files: seq<ScannedFile>, path: string)
    ensures Scanned(files, path).Some? ==> Scanned(files, path).value in files
  {
    if files != [] {
      ScannedIsListed(files[..|files| - 1], path);
      forall f | f in files[..|files| - 1] ensures f in files {}
    }
  }

  lemma {:induction false} RowsAreAdded(job: Job, encryption: map<string, EncMeta>, needed: set<string>,
                                        start: Insertions, m: seq<ManifestEntry>, faults: Faults)
    requires WellKeyed(start.entries, start.nextID)
    ensures RowsAdded(start, InsertAll(job, encryption, needed, start, m, faults), encryption,
                      InsertedHashes(job, m, faults), NoLinks(job))
  {
    if m == [] {
      assert AddedRows(start, start) == {};
    } else {
      var i := |m| - 1;
      RowsAreAdded(job, encryption, needed, start, m[..i], faults);
      var f := Scanned(job.files, m[i].filePath);
      if f.Some? && i !in faults.inserts {
        ScannedIsListed(job.files, m[i].filePath);
        var before := InsertAll(job, encryption, needed, start, m[..i], faults);
        OneRowAdded(start, before, encryption, InsertedHashes(job, m[..i], faults), needed, NoLinks(job),
                    RowFor(BuildEntry(job, m[i].hash, f.value, MetaOf(encryption, m[i].hash), i), before.nextID));
      }
    }
  }

  lemma OneRowAdded(start: Insertions, before: Insertions, encryption: map<string, EncMeta>, hashes: set<string>,
                    needed: set<string>, noLinks: bool, row: BackupEntry)
    requires RowsAdded(start, before, encryption, hashes, noLinks)
    requires row.id == before.nextID && NotedRow(row, encryption, noLinks)
    ensures RowsAdded(start, AddRow(needed, before, row), encryption, hashes + {row.hash}, noLinks)
  {
    RowKeepsGrowth(start, before, AddRow(needed, before, row), row);
    OneHashAdded(start, before, hashes, needed, row);
    OneRowNoted(start, before, encryption, needed, noLinks, row);
  }

  lemma OneHashAdded(start: Insertions, before: Insertions, hashes: set<string>, needed: set<string>, row: BackupEntry)
    requires GrownFrom(start, before) && HashesOf(before.entries, AddedRows(start, before)) == hashes
    ensures var ins := AddRow(needed, before, row); HashesOf(ins.entries, AddedRows(start, ins)) == hashes + {row.hash}
  {
    RowAdded(start, before, row);
    HashAdded(start, before, row);
  }

  lemma OneRowNoted(start: Insertions, before: Insertions, encryption: map<string, EncMeta>, needed: set<string>,
                    noLinks: bool, row: BackupEntry)
    requires WellKeyed(before.entries, before.nextID) && row.id == before.nextID && NotedRow(row, encryption, noLinks)
    requires forall id | id in AddedRows(start, before) :: NotedRow(before.entries[id], encryption, noLinks)
    ensures var ins := AddRow(needed, before, row);
      && WellKeyed(ins.entries, ins.nextID)
      && forall id | id in AddedRows(start, ins) :: NotedRow(ins.entries[id], encryption, noLinks)
  {
  }

  // ------------------------------------------------------------------ what a run leaves

  /** The hashes of the rows that a run adds. */
  function RecordedHashes(c: Primitives, job: Job, needed: seq<string>, faults: Faults): set<string> {
    var m := Manifest(c, job.files, job.atHash);
    if StopsUploading(needed, faults) then {} else InsertedHashes(job, m[..Reached(faults.stopInsert, |m|)], faults)
  }

  function Attempts(needed: seq<string>, faults: Faults): seq<string> {
    needed[..Reached(faults.stopUpload, |needed|)]
  }

  ghost predicate Left(st: State, left: State, u: Uploads, hashes: set<string>, noLinks: bool) {
    var added := left.entries.Keys - st.entries.Keys;
    && left.blobs == u.blobs && WellKeyed(left.entries, left.nextID)
    && (forall id | id in st.entries :: id in left.entries && left.entries[id] == st.entries[id])
    && HashesOf(left.entries, added) == hashes
    && (forall id | id in added :: NotedRow(left.entries[id], u.encryption, noLinks))
  }

  lemma BackupLeaves(c: Primitives, job: Job, st: State, needed: seq<string>, faults: Faults)
    requires WellKeyed(st.entries, st.nextID)
    ensures Left(st, AfterBackup(c, job, st, needed, faults), UploadPhase(c, job, st, needed, faults),
                 RecordedHashes(c, job, needed, faults), NoLinks(job))
  {
    var m, u := Manifest(c, job.files, job.atHash), UploadPhase(c, job, st, needed, faults);
    if StopsUploading(needed, faults) {
      assert st.entries.Keys - st.entries.Keys == {};
    } else {
      RowsAreAdded(job, u.encryption, (set h | h in needed), Insertions(st.entries, st.nextID, 0, {}, u.processed, 0),
                   m[..Reached(faults.stopInsert, |m|)], faults);
    }
  }

  lemma AttemptsDistinct(needed: seq<string>, faults: Faults)
    requires Distinct(needed)
    ensures Distinct(Attempts(needed, faults))
  {
  }

  /** Every run pairs the keys and nonces of its rows, whatever fails and wherever it stops. */
  lemma BackupKeepsPaired(c: Primitives, job: Job, st: State, needed: seq<string>, faults: Faults)
    requires Lawful(c) && WellKeyed(st.entries, st.nextID) && AllPaired(st.entries) && Distinct(needed)
    ensures var left := AfterBackup(c, job, st, needed, faults);
      WellKeyed(left.entries, left.nextID) && AllPaired(left.entries)
  {
    var left := AfterBackup(c, job, st, needed, faults);
    BackupLeaves(c, job, st, needed, faults);
    forall id | id in left.entries ensures KeysPaired(left.entries[id]) {
      if id !in st.entries {
        NotedIsPaired(c, job, st, needed, faults, left.entries[id]);
      }
    }
  }

  /** And no run damages a blob. */
  lemma BackupKeepsIntact(c: Primitives, mk: bytes, job: Job, st: State, needed: seq<string>, faults: Faults)
    requires Lawful(c) && Intact(c, mk, st) && Regular(mk, job) && Distinct(needed)
    ensures Intact(c, mk, AfterBackup(c, job, st, needed, faults))
  {
    var m, u := Manifest(c, job.files, job.atHash), UploadPhase(c, job, st, needed, faults);
    var tries, left := Attempts(needed, faults), AfterBackup(c, job, st, needed, faults);
    AttemptsDistinct(needed, faults);
    UploadsAreDone(c, job, m, st.blobs, tries, faults);
    BackupLeaves(c, job, st, needed, faults);
    BackupKeepsPaired(c, job, st, needed, faults);
    forall h | h in left.blobs ensures HoldsContent(c, mk, left.blobs[h], h) {
      if h in u.uploaded {
        var k := PositionOf(tries, h);
        assert UploadedAt(c, job, m, u, tries[k], k, k in faults.uploads);
        SentIsContent(c, mk, job, h, k);
      }
    }
    forall id | id in left.entries ensures !left.entries[id].symlink {
      assert id !in st.entries ==> id in left.entries.Keys - st.entries.Keys;
    }
  }

  lemma PositionOf(hs: seq<string>, h: string) returns (k: nat)
    requires h in AsSet(hs)
    ensures k < |hs| && hs[k] == h
  {
    k :| 0 <= k < |hs| && hs[k] == h;
  }

  lemma NotedIsPaired(c: Primitives, job: Job, st: State, needed: seq<string>, faults: Faults, e: BackupEntry)
    requires Lawful(c) && Distinct(needed)
    requires NotedRow(e, UploadPhase(c, job, st, needed, faults).encryption, NoLinks(job))
    ensures KeysPaired(e)
  {
    var m, u, tries := Manifest(c, job.files, job.atHash), UploadPhase(c, job, st, needed, faults), Attempts(needed, faults);
    AttemptsDistinct(needed, faults);
    UploadsAreDone(c, job, m, st.blobs, tries, faults);
    if e.hash in u.encryption {
      var k := PositionOf(tries, e.hash);
      assert UploadedAt(c, job, m, u, tries[k], k, k in faults.uploads);
      SentHasKey(c, job, m, e.hash, k);
    }
  }

  // ----------------------------------------------------- when a run keeps the node sound

  /** The two ways in which an upload can leave a row with a key that opens nothing: it fails,
      and a row of the run still records its key; or it replaces a stored blob (whose check had
      failed), and an older row still carries the key of the bytes that are gone. */
  ghost predicate KeepsKeysAt(c: Primitives, mk: bytes, job: Job, m: seq<ManifestEntry>, st: State, recorded: set<string>,
                              failed: bool, h: string, k: nat)
    requires Tried(c, job, m, h, k)
  {
    if failed then
      job.encrypting && h in recorded ==>
        h in st.blobs && KeyOpens(c, mk, st.blobs[h], Sent(c, job, m, h, k).1.wrappedDEK, h)
    else
      h in st.blobs ==>
        forall id | id in st.entries && st.entries[id].hash == h && HasKey(st.entries[id]) ::
          KeyOpens(c, mk, Sent(c, job, m, h, k).0, st.entries[id].encryptedDEK, h)
  }

  ghost predicate KeepsKeys(c: Primitives, mk: bytes, job: Job, st: State, needed: seq<string>, faults: Faults) {
    var m, tries := Manifest(c, job.files, job.atHash), Attempts(needed, faults);
    forall k | 0 <= k < |tries| && Tried(c, job, m, tries[k], k) ::
      KeepsKeysAt(c, mk, job, m, st, RecordedHashes(c, job, needed, faults), k in faults.uploads, tries[k], k)
  }

  lemma KeptKeysFit(c: Primitives, mk: bytes, job: Job, st: State, needed: seq<string>, faults: Faults, id: nat)
    requires Lawful(c) && Sound(c, mk, st) && Regular(mk, job) && Distinct(needed)
    requires KeepsKeys(c, mk, job, st, needed, faults) && id in AfterBackup(c, job, st, needed, faults).entries
    ensures var left := AfterBackup(c, job, st, needed, faults); KeyFits(c, mk, left.blobs, left.entries[id])
  {
    var m, u := Manifest(c, job.files, job.atHash), UploadPhase(c, job, st, needed, faults);
    var tries, left := Attempts(needed, faults), AfterBackup(c, job, st, needed, faults);
    AttemptsDistinct(needed, faults);
    UploadsAreDone(c, job, m, st.blobs, tries, faults);
    BackupLeaves(c, job, st, needed, faults);
    var e := left.entries[id];
    if id in st.entries {
      assert KeyFits(c, mk, st.blobs, e);
    } else {
      assert id in left.entries.Keys - st.entries.Keys && NotedRow(e, u.encryption, NoLinks(job));
      assert e.hash in RecordedHashes(c, job, needed, faults);
    }
    if e.hash in u.encryption {
      var k := PositionOf(tries, e.hash);
      assert UploadedAt(c, job, m, u, tries[k], k, k in faults.uploads);
      assert KeepsKeysAt(c, mk, job, m, st, RecordedHashes(c, job, needed, faults), k in faults.uploads, tries[k], k);
      SentIsContent(c, mk, job, e.hash, k);
    }
  }

  lemma FittingKeysWereKept(c: Primitives, mk: bytes, job: Job, st: State, needed: seq<string>, faults: Faults, k: nat)
    requires Lawful(c) && Sound(c, mk, st) && Regular(mk, job) && Distinct(needed)
    requires Sound(c, mk, AfterBackup(c, job, st, needed, faults))
    requires k < |Attempts(needed, faults)|
    requires Tried(c, job, Manifest(c, job.files, job.atHash), Attempts(needed, faults)[k], k)
    ensures KeepsKeysAt(c, mk, job, Manifest(c, job.files, job.atHash), st, RecordedHashes(c, job, needed, faults),
                        k in faults.uploads, Attempts(needed, faults)[k], k)
  {
    var m, u := Manifest(c, job.files, job.atHash), UploadPhase(c, job, st, needed, faults);
    var tries, left := Attempts(needed, faults), AfterBackup(c, job, st, needed, faults);
    var h := tries[k];
    AttemptsDistinct(needed, faults);
    UploadsAreDone(c, job, m, st.blobs, tries, faults);
    assert UploadedAt(c, job, m, u, h, k, k in faults.uploads);
    BackupLeaves(c, job, st, needed, faults);
    SentIsContent(c, mk, job, h, k);
    if k in faults.uploads {
      if job.encrypting && h in RecordedHashes(c, job, needed, faults) {
        var id :| id in left.entries.Keys - st.entries.Keys && left.entries[id].hash == h;
        assert NotedRow(left.entries[id], u.encryption, NoLinks(job)) && KeyFits(c, mk, left.blobs, left.entries[id]);
      }
    } else {
      forall id | id in st.entries && st.entries[id].hash == h && HasKey(st.entries[id])
        ensures KeyOpens(c, mk, Sent(c, job, m, h, k).0, st.entries[id].encryptedDEK, h)
      {
        assert KeyFits(c, mk, left.blobs, left.entries[id]);
      }
    }
  }

  /** The exact condition, for any failures, any stop and any answer of the server: a run leaves
      a sound node sound if and only if no failed upload's key is recorded and no replaced blob's
      key is left behind, unless the key opens the stored bytes anyway. */
  lemma BackupSoundExactly(c: Primitives, mk: bytes, job: Job, st: State, needed: seq<string>, faults: Faults)
    requires Lawful(c) && Sound(c, mk, st) && Regular(mk, job) && Distinct(needed)
    ensures Sound(c, mk, AfterBackup(c, job, st, needed, faults)) <==> KeepsKeys(c, mk, job, st, needed, faults)
  {
    var left, tries := AfterBackup(c, job, st, needed, faults), Attempts(needed, faults);
    BackupKeepsIntact(c, mk, job, st, needed, faults);
    if KeepsKeys(c, mk, job, st, needed, faults) {
      forall id | id in left.entries ensures KeyFits(c, mk, left.blobs, left.entries[id]) {
        KeptKeysFit(c, mk, job, st, needed, faults, id);
      }
    }
    if Sound(c, mk, left) {
      forall k | 0 <= k < |tries| && Tried(c, job, Manifest(c, job.files, job.atHash), tries[k], k)
        ensures KeepsKeysAt(c, mk, job, Manifest(c, job.files, job.atHash), st, RecordedHashes(c, job, needed, faults),
                            k in faults.uploads, tries[k], k)
      {
        FittingKeysWereKept(c, mk, job, st, needed, faults, k);
      }
    }
  }

  /** An upload of a ciphertext fails and an entry with its hash is inserted all the same. */
  ghost predicate RecordsLostKey(c: Primitives, job: Job, needed: seq<string>, faults: Faults) {
    var m, tries := Manifest(c, job.files, job.atHash), Attempts(needed, faults);
    job.encrypting && exists k :: 0 <= k < |tries| && k in faults.uploads && Tried(c, job, m, tries[k], k)
                                  && tries[k] in RecordedHashes(c, job, needed, faults)
  }

  /** When the server finds every blob it has, the condition is about the faults alone. */
  lemma BackupSoundWhenAllFound(c: Primitives, mk: bytes, job: Job, st: State, d: ManifestDiff, faults: Faults)
    requires Lawful(c) && Sound(c, mk, st) && Regular(mk, job)
    requires IsDiff(d, Manifest(c, job.files, job.atHash), st.blobs.Keys)
    ensures Sound(c, mk, AfterBackup(c, job, st, d.needed, faults)) <==> !RecordsLostKey(c, job, d.needed, faults)
  {
    BackupSoundExactly(c, mk, job, st, d.needed, faults);
    var m, tries := Manifest(c, job.files, job.atHash), Attempts(d.needed, faults);
    forall k | 0 <= k < |tries| ensures tries[k] !in st.blobs {
      assert tries[k] in d.needed && tries[k] in (set h | h in d.needed);
    }
    if k :| 0 <= k < |tries| && k in faults.uploads && Tried(c, job, m, tries[k], k)
            && tries[k] in RecordedHashes(c, job, d.needed, faults) && job.encrypting {
      assert !KeepsKeysAt(c, mk, job, m, st, RecordedHashes(c, job, d.needed, faults), true, tries[k], k);
    }
  }

  // --------------------------------------------------------- what a watched file leaves

  ghost predicate RegularFile(c: Primitives, mk: bytes, ev: FileEvent) {
    && (ev.content.Some? ==> c.hash(ev.content.value) == ev.hash)
    && (ev.hasEncryptor && |ev.masterKey| > 0 ==> ev.masterKey == mk)
  }

  /** The file's bytes reach the store. */
  predicate FileStored(c: Primitives, ev: FileEvent, known: bool, fault: FileFault) {
    ev.present && !known && ev.content.Some? && FilePayload(c, ev).Some? && !fault.UploadFault?
  }

  /** A watched file is uploaded before anything is recorded, so only a blob that it replaces
      can leave an older key behind. */
  ghost predicate FileKeepsKeys(c: Primitives, mk: bytes, ev: FileEvent, st: State, known: bool, fault: FileFault) {
    FileStored(c, ev, known, fault) && ev.hash in st.blobs ==>
      forall id | id in st.entries && st.entries[id].hash == ev.hash && HasKey(st.entries[id]) ::
        KeyOpens(c, mk, FilePayload(c, ev).value.0, st.entries[id].encryptedDEK, ev.hash)
  }

  lemma FilePayloadIsContent(c: Primitives, mk: bytes, ev: FileEvent)
    requires Lawful(c) && RegularFile(c, mk, ev) && ev.content.Some? && FilePayload(c, ev).Some?
    ensures var p := FilePayload(c, ev).value;
      && HoldsContent(c, mk, p.0, ev.hash)
      && (if ev.hasEncryptor && |ev.masterKey| > 0
          then |p.1.wrappedDEK| > 0 && |p.1.nonce| > 0 && KeyOpens(c, mk, p.0, p.1.wrappedDEK, ev.hash)
          else p == (ev.content.value, NoMeta))
  {
    if ev.hasEncryptor && |ev.masterKey| > 0 {
      EncryptRoundTrip(c, ev.content.value, mk, ev.draw, []);
      var p := FilePayload(c, ev).value;
      assert KeyOpens(c, mk, p.0, p.1.wrappedDEK, ev.hash);
    }
  }

  lemma RowKeepsIntact(c: Primitives, mk: bytes, st: State, e: BackupEntry)
    requires Intact(c, mk, st) && KeysPaired(e) && !e.symlink
    ensures Intact(c, mk, WithRow(st, e))
    ensures Sound(c, mk, st) && KeyFits(c, mk, st.blobs, e) ==> Sound(c, mk, WithRow(st, e))
    ensures Sound(c, mk, WithRow(st, e)) ==> Sound(c, mk, st)
  {
    var left := WithRow(st, e);
    if Sound(c, mk, left) {
      forall id | id in st.entries ensures KeyFits(c, mk, st.blobs, st.entries[id]) {
        assert KeyFits(c, mk, left.blobs, left.entries[id]);
      }
    }
  }

  lemma BlobSoundExactly(c: Primitives, mk: bytes, st: State, h: string, blob: bytes)
    requires Sound(c, mk, st) && HoldsContent(c, mk, blob, h)
    ensures var left := st.(blobs := st.blobs[h := blob]);
      && Intact(c, mk, left)
      && (Sound(c, mk, left) <==>
          (h in st.blobs ==> forall id | id in st.entries && st.entries[id].hash == h && HasKey(st.entries[id]) ::
                               KeyOpens(c, mk, blob, st.entries[id].encryptedDEK, h)))
  {
    var left := st.(blobs := st.blobs[h := blob]);
    forall id | id in st.entries ensures KeyFits(c, mk, st.blobs, st.entries[id]) {}
    if Sound(c, mk, left) {
      forall id | id in st.entries && st.entries[id].hash == h && HasKey(st.entries[id])
        ensures KeyOpens(c, mk, blob, st.entries[id].encryptedDEK, h)
      {
        assert KeyFits(c, mk, left.blobs, left.entries[id]);
      }
    }
  }

  lemma FileKeepsIntact(c: Primitives, mk: bytes, ev: FileEvent, st: State, known: bool, fault: FileFault)
    requires Lawful(c) && Intact(c, mk, st) && RegularFile(c, mk, ev)
    ensures Intact(c, mk, AfterFile(c, ev, st, known, fault).0)
  {
    if ev.present && known {
      RowKeepsIntact(c, mk, st, FileEntry(ev, NoMeta));
    } else if FileStored(c, ev, known, fault) {
      FilePayloadIsContent(c, mk, ev);
      var p := FilePayload(c, ev).value;
      RowKeepsIntact(c, mk, st.(blobs := st.blobs[ev.hash := p.0]), FileEntry(ev, p.1));
    }
  }

  lemma FileSoundExactly(c: Primitives, mk: bytes, ev: FileEvent, st: State, known: bool, fault: FileFault)
    requires Lawful(c) && Sound(c, mk, st) && RegularFile(c, mk, ev)
    ensures Sound(c, mk, AfterFile(c, ev, st, known, fault).0) <==> FileKeepsKeys(c, mk, ev, st, known, fault)
  {
    if ev.present && known {
      RowKeepsIntact(c, mk, st, FileEntry(ev, NoMeta));
    } else if FileStored(c, ev, known, fault) {
      FilePayloadIsContent(c, mk, ev);
      var p := FilePayload(c, ev).value;
      BlobSoundExactly(c, mk, st, ev.hash, p.0);
      RowKeepsIntact(c, mk, st.(blobs := st.blobs[ev.hash := p.0]), FileEntry(ev, p.1));
    }
  }

  // ------------------------------------------------------------------------- histories

  datatype Event =
    | RunBackup(job: Job, found: set<string>, diff: ManifestDiff, faults: Faults)
    | BackUpFile(event: FileEvent, known: bool, fault: FileFault)
    | Reclaim(ops: seq<Op>)     // any deletion or retention run, complete or cut short

  function After(c: Primitives, st: State, e: Event): State {
    match e
    case RunBackup(job, _, d, faults) => AfterBackup(c, job, st, d.needed, faults)
    case BackUpFile(ev, known, fault) => AfterFile(c, ev, st, known, fault).0
    case Reclaim(ops) => Run(st, ops)
  }

  const Empty: State := State(map[], {}, map[], 1)

  function Node(c: Primitives, events: seq<Event>): State {
    if events == [] then Empty else After(c, Node(c, events[..|events| - 1]), events[|events| - 1])
  }

  /** The event can happen on st at all. */
  ghost predicate Possible(c: Primitives, st: State, e: Event) {
    match e
    case RunBackup(job, found, d, faults) =>
      found <= st.blobs.Keys && IsDiff(d, Manifest(c, job.files, job.atHash), found)
    case BackUpFile(ev, known, fault) => known ==> ev.hash in st.blobs
    case Reclaim(ops) => true
  }

  /** Files hold still, there is one master key, and no link is scanned. */
  ghost predicate Orderly(c: Primitives, mk: bytes, e: Event) {
    match e
    case RunBackup(job, _, _, _) => Regular(mk, job)
    case BackUpFile(ev, _, _) => RegularFile(c, mk, ev)
    case Reclaim(ops) => true
  }

  ghost predicate Occurred(c: Primitives, events: seq<Event>) {
    events == [] ||
    var n := |events| - 1;
    Occurred(c, events[..n]) && Possible(c, Node(c, events[..n]), events[n])
  }

  ghost predicate Happened(c: Primitives, mk: bytes, events: seq<Event>) {
    events == [] ||
    var n := |events| - 1;
    Happened(c, mk, events[..n]) && Possible(c, Node(c, events[..n]), events[n]) && Orderly(c, mk, events[n])
  }

  lemma {:induction false} HappenedOccurred(c: Primitives, mk: bytes, events: seq<Event>)
    requires Happened(c, mk, events)
    ensures Occurred(c, events)
  {
    if events != [] {
      HappenedOccurred(c, mk, events[..|events| - 1]);
    }
  }

  lemma FileKeepsPaired(c: Primitives, ev: FileEvent, st: State, known: bool, fault: FileFault)
    requires Lawful(c) && WellKeyed(st.entries, st.nextID) && AllPaired(st.entries)
    ensures var left := AfterFile(c, ev, st, known, fault).0;
      WellKeyed(left.entries, left.nextID) && AllPaired(left.entries)
  {
    if ev.content.Some? && ev.hasEncryptor {
      EncryptRoundTrip(c, ev.content.value, ev.masterKey, ev.draw, []);
    }
  }

  lemma {:induction false} HistoryIsPaired(c: Primitives, events: seq<Event>)
    requires Lawful(c) && Occurred(c, events)
    ensures var st := Node(c, events); WellKeyed(st.entries, st.nextID) && AllPaired(st.entries)
  {
    if events != [] {
      var st := Node(c, events[..|events| - 1]);
      HistoryIsPaired(c, events[..|events| - 1]);
      match events[|events| - 1]
      case RunBackup(job, _, d, faults) => BackupKeepsPaired(c, job, st, d.needed, faults);
      case BackUpFile(ev, known, fault) => FileKeepsPaired(c, ev, st, known, fault);
      case Reclaim(ops) => ReclaimingPreserves(st, ops);
    }
  }

  /** After any history whatsoever, whatever failed, whichever files changed and whichever master
      keys were used, and with any key at hand: a recorded hash restores to its content, from any
      of its rows and in any listing order, if and only if its blob is stored and every row that
      a restore can end up with gives the content. */
  lemma RestorableAfterHistory(c: Primitives, k: Keys, events: seq<Event>, h: string)
    requires Lawful(c) && Occurred(c, events) && WithHash(Node(c, events).entries, h) != {}
    ensures var st := Node(c, events);
            (exists p :: c.hash(p) == h && RestoresTo(c, k, st, h, p)) <==> Restorable(c, k, st, h)
  {
    HistoryIsPaired(c, events);
    RestorableExactly(c, k, Node(c, events), h);
  }

  lemma {:induction false} HistoryIsIntact(c: Primitives, mk: bytes, events: seq<Event>)
    requires Lawful(c) && Happened(c, mk, events)
    ensures Intact(c, mk, Node(c, events))
  {
    if events != [] {
      var st := Node(c, events[..|events| - 1]);
      HistoryIsIntact(c, mk, events[..|events| - 1]);
      match events[|events| - 1]
      case RunBackup(job, _, d, faults) => BackupKeepsIntact(c, mk, job, st, d.needed, faults);
      case BackUpFile(ev, known, fault) => FileKeepsIntact(c, mk, ev, st, known, fault);
      case Reclaim(ops) => ReclaimingKeepsSound(c, mk, st, ops);
    }
  }

  /** The event leaves no key behind that opens nothing. */
  ghost predicate EventKeepsKeys(c: Primitives, mk: bytes, st: State, e: Event) {
    match e
    case RunBackup(job, _, d, faults) => KeepsKeys(c, mk, job, st, d.needed, faults)
    case BackUpFile(ev, known, fault) => FileKeepsKeys(c, mk, ev, st, known, fault)
    case Reclaim(ops) => true
  }

  lemma EventSoundExactly(c: Primitives, mk: bytes, st: State, e: Event)
    requires Lawful(c) && Sound(c, mk, st) && Possible(c, st, e) && Orderly(c, mk, e)
    ensures Sound(c, mk, After(c, st, e)) <==> EventKeepsKeys(c, mk, st, e)
  {
    match e
    case RunBackup(job, _, d, faults) => BackupSoundExactly(c, mk, job, st, d.needed, faults);
    case BackUpFile(ev, known, fault) => FileSoundExactly(c, mk, ev, st, known, fault);
    case Reclaim(ops) => ReclaimingKeepsSound(c, mk, st, ops);
  }

  ghost predicate AlwaysSound(c: Primitives, mk: bytes, events: seq<Event>) {
    Sound(c, mk, Node(c, events)) && (events == [] || AlwaysSound(c, mk, events[..|events| - 1]))
  }

  ghost predicate AllKeepKeys(c: Primitives, mk: bytes, events: seq<Event>) {
    events == [] ||
    var n := |events| - 1;
    AllKeepKeys(c, mk, events[..n]) && EventKeepsKeys(c, mk, Node(c, events[..n]), events[n])
  }

  /** A node is sound at every moment of a history if and only if every event keeps its keys. */
  lemma {:induction false} HistorySoundExactly(c: Primitives, mk: bytes, events: seq<Event>)
    requires Lawful(c) && Happened(c, mk, events)
    ensures AlwaysSound(c, mk, events) <==> AllKeepKeys(c, mk, events)
  {
    if events != [] {
      var before := events[..|events| - 1];
      HistorySoundExactly(c, mk, before);
      if AlwaysSound(c, mk, before) {
        EventSoundExactly(c, mk, Node(c, before), events[|events| - 1]);
      }
    }
  }

  /** In such a history the condition is simple: the blob is stored and is either the content
      itself or a ciphertext that the keys at hand can decrypt and some row carries a key for. */
  lemma RestorableAfterSoundHistory(c: Primitives, mk: bytes, k: Keys, events: seq<Event>, h: string)
    requires Lawful(c) && Happened(c, mk, events) && AllKeepKeys(c, mk, events)
    requires (CanDecrypt(k) ==> k.masterKey == mk) && WithHash(Node(c, events).entries, h) != {}
    ensures var st := Node(c, events);
            (exists p :: c.hash(p) == h && RestoresTo(c, k, st, h, p)) <==>
            h in st.blobs && (c.hash(st.blobs[h]) == h || (CanDecrypt(k) && SomeKey(st.entries, h)))
  {
    HistorySoundExactly(c, mk, events);
    HappenedOccurred(c, mk, events);
    RestorableAfterHistory(c, k, events, h);
    SoundRestorable(c, mk, k, Node(c, events), h);
  }

  // --------------------------------------------- histories without failure or deletion

  ghost predicate Clean(c: Primitives, st: State, e: Event) {
    match e
    case RunBackup(job, found, d, faults) =>
      IsDiff(d, Manifest(c, job.files, job.atHash), st.blobs.Keys) && NothingFails(c, job, d.needed, faults)
    case BackUpFile(ev, known, fault) =>
      (known <==> ev.hash in st.blobs) && AfterFile(c, ev, st, known, fault).1.Ok?
    case Reclaim(ops) => false
  }

  /** Every recorded hash has its blob, and every ciphertext a row with its data key. */
  ghost predicate Keyed(c: Primitives, st: State) {
    && (forall id | id in st.entries :: st.entries[id].hash in st.blobs)
    && (forall h | h in st.blobs :: c.hash(st.blobs[h]) == h || SomeKey(st.entries, h))
  }

  ghost predicate Grown(st: State, left: State) {
    && (forall id | id in st.entries :: id in left.entries && left.entries[id] == st.entries[id])
    && (forall h | h in st.blobs :: h in left.blobs && left.blobs[h] == st.blobs[h])
  }

  lemma {:induction false} EveryHashInserted(job: Job, m: seq<ManifestEntry>, faults: Faults)
    requires faults.inserts == {} && forall e | e in m :: Scanned(job.files, e.filePath).Some?
    ensures InsertedHashes(job, m, faults) == HashesIn(m)
  {
    if m != [] {
      var i := |m| - 1;
      assert forall e | e in m[..i] :: e in m;
      EveryHashInserted(job, m[..i], faults);
      HashesInStep(m, i);
      assert m[..i + 1] == m && m[i] in m;
    }
  }

  lemma CleanBackupKeyed(c: Primitives, mk: bytes, job: Job, st: State, d: ManifestDiff, faults: Faults)
    requires Lawful(c) && Intact(c, mk, st) && Keyed(c, st) && Regular(mk, job)
    requires IsDiff(d, Manifest(c, job.files, job.atHash), st.blobs.Keys) && NothingFails(c, job, d.needed, faults)
    ensures var left := AfterBackup(c, job, st, d.needed, faults);
            && Keyed(c, left) && Grown(st, left)
            && forall e | e in Manifest(c, job.files, job.atHash) :: WithHash(left.entries, e.hash) != {}
  {
    var m, needed, left := Manifest(c, job.files, job.atHash), d.needed, AfterBackup(c, job, st, d.needed, faults);
    var u := UploadPhase(c, job, st, needed, faults);
    assert needed[..|needed|] == needed && m[..|m|] == m;
    UploadsAreDone(c, job, m, st.blobs, needed, faults);
    BackupLeaves(c, job, st, needed, faults);
    ManifestIsScanned(c, job.files, job.atHash);
    EveryHashInserted(job, m, faults);
    CleanUploads(c, job, m, st.blobs, needed, faults);
    forall h | h in AsSet(needed) ensures h !in st.blobs {}
    BlobsAfterCleanRun(c, mk, job, st, d, faults);
    forall e | e in m ensures WithHash(left.entries, e.hash) != {} {
      HashIsRecorded(left.entries, left.entries.Keys - st.entries.Keys, e.hash);
    }
  }

  lemma HashIsRecorded(t: Table, ids: set<nat>, h: string)
    requires h in HashesOf(t, ids)
    ensures WithHash(t, h) != {}
  {
    var id :| id in ids && id in t && t[id].hash == h;
    assert id in WithHash(t, h);
  }

  /** Every needed hash was uploaded and every entry of the manifest recorded. */
  ghost predicate CleanlyLeft(c: Primitives, job: Job, st: State, left: State, d: ManifestDiff, u: Uploads) {
    && IsDiff(d, Manifest(c, job.files, job.atHash), st.blobs.Keys)
    && Left(st, left, u, HashesIn(Manifest(c, job.files, job.atHash)), NoLinks(job)) && u.uploaded == AsSet(d.needed)
  }

  lemma BlobsAfterCleanRun(c: Primitives, mk: bytes, job: Job, st: State, d: ManifestDiff, faults: Faults)
    requires Lawful(c) && Keyed(c, st) && Regular(mk, job) && faults.stopUpload == None && faults.uploads == {}
    requires var left, u := AfterBackup(c, job, st, d.needed, faults), UploadPhase(c, job, st, d.needed, faults);
      CleanlyLeft(c, job, st, left, d, u)
      && UploadsDone(c, job, Manifest(c, job.files, job.atHash), st.blobs, d.needed, faults, u)
    ensures Keyed(c, AfterBackup(c, job, st, d.needed, faults))
  {
    var m, needed, left := Manifest(c, job.files, job.atHash), d.needed, AfterBackup(c, job, st, d.needed, faults);
    var u, added := UploadPhase(c, job, st, needed, faults), left.entries.Keys - st.entries.Keys;
    forall id | id in left.entries ensures left.entries[id].hash in left.blobs {
      if id in added {
        assert left.entries[id].hash in HashesIn(m);
        assert left.entries[id].hash in st.blobs.Keys || left.entries[id].hash in AsSet(needed);
      }
    }
    forall h | h in left.blobs ensures c.hash(left.blobs[h]) == h || SomeKey(left.entries, h) {
      if h in u.uploaded {
        var k := PositionOf(needed, h);
        assert UploadedAt(c, job, m, u, needed[k], k, k in faults.uploads);
        SentIsContent(c, mk, job, h, k);
        assert h in HashesOf(left.entries, added);
        var id :| id in added && left.entries[id].hash == h;
        assert NotedRow(left.entries[id], u.encryption, NoLinks(job));
      } else {
        KeyPersists(st.entries, left.entries, h);
      }
    }
  }

  lemma KeyPersists(t: Table, left: Table, h: string)
    requires forall id | id in t :: id in left && left[id] == t[id]
    ensures SomeKey(t, h) ==> SomeKey(left, h)
  {
    if id :| id in t && t[id].hash == h && HasKey(t[id]) {
      assert left[id] == t[id];
    }
  }

  lemma CleanFileKeyed(c: Primitives, mk: bytes, ev: FileEvent, st: State, known: bool, fault: FileFault)
    requires Lawful(c) && Intact(c, mk, st) && Keyed(c, st) && RegularFile(c, mk, ev)
    requires Clean(c, st, BackUpFile(ev, known, fault))
    ensures var left := AfterFile(c, ev, st, known, fault).0;
            Keyed(c, left) && Grown(st, left) && WithHash(left.entries, ev.hash) != {}
  {
    var left := AfterFile(c, ev, st, known, fault).0;
    assert st.nextID in WithHash(left.entries, ev.hash);
    assert Grown(st, left);
    if !known {
      NewFileKeyed(c, mk, ev, st, known, fault);
    }
    forall h | h in st.blobs ensures c.hash(left.blobs[h]) == h || SomeKey(left.entries, h) {
      KeyPersists(st.entries, left.entries, h);
    }
  }

  lemma NewFileKeyed(c: Primitives, mk: bytes, ev: FileEvent, st: State, known: bool, fault: FileFault)
    requires Lawful(c) && RegularFile(c, mk, ev) && !known && AfterFile(c, ev, st, known, fault).1.Ok?
    ensures var left := AfterFile(c, ev, st, known, fault).0;
            ev.hash in left.blobs && (c.hash(left.blobs[ev.hash]) == ev.hash || SomeKey(left.entries, ev.hash))
  {
    FilePayloadIsContent(c, mk, ev);
    var row := AfterFile(c, ev, st, known, fault).0.entries[st.nextID];
    assert row.hash == ev.hash && (FilePayload(c, ev).value.1 != NoMeta ==> HasKey(row));
  }

  /** A clean event keeps its keys. */
  lemma CleanKeepsKeys(c: Primitives, mk: bytes, st: State, e: Event)
    requires Lawful(c) && Sound(c, mk, st) && Possible(c, st, e) && Orderly(c, mk, e) && Clean(c, st, e)
    ensures EventKeepsKeys(c, mk, st, e)
  {
    match e
    case RunBackup(job, _, d, faults) =>
      BackupSoundWhenAllFound(c, mk, job, st, d, faults);
      BackupSoundExactly(c, mk, job, st, d.needed, faults);
    case BackUpFile(ev, known, fault) =>
  }

  ghost predicate AllClean(c: Primitives, events: seq<Event>) {
    events == [] ||
    var n := |events| - 1;
    AllClean(c, events[..n]) && Clean(c, Node(c, events[..n]), events[n])
  }

  lemma {:induction false} CleanHistoryKeepsKeys(c: Primitives, mk: bytes, events: seq<Event>)
    requires Lawful(c) && Happened(c, mk, events) && AllClean(c, events)
    ensures AllKeepKeys(c, mk, events)
  {
    if events != [] {
      var before := events[..|events| - 1];
      CleanHistoryKeepsKeys(c, mk, before);
      HistorySoundExactly(c, mk, before);
      CleanKeepsKeys(c, mk, Node(c, before), events[|events| - 1]);
    }
  }

  lemma {:induction false} CleanHistoryKeyed(c: Primitives, mk: bytes, events: seq<Event>)
    requires Lawful(c) && Happened(c, mk, events) && AllClean(c, events)
    ensures Keyed(c, Node(c, events))
    ensures events != [] ==> Grown(Node(c, events[..|events| - 1]), Node(c, events))
  {
    if events != [] {
      var st := Node(c, events[..|events| - 1]);
      CleanHistoryKeyed(c, mk, events[..|events| - 1]);
      HistoryIsIntact(c, mk, events[..|events| - 1]);
      match events[|events| - 1]
      case RunBackup(job, _, d, faults) => CleanBackupKeyed(c, mk, job, st, d, faults);
      case BackUpFile(ev, known, fault) => CleanFileKeyed(c, mk, ev, st, known, fault);
    }
  }

  /** The content that an event backs up under a hash. */
  ghost predicate BacksUp(c: Primitives, e: Event, h: string, content: bytes) {
    match e
    case RunBackup(job, _, _, _) =>
      h == c.hash(content) && exists f :: f in job.files && f.path in job.atHash && job.atHash[f.path] == content
    case BackUpFile(ev, _, _) => ev.hash == h && c.hash(content) == h
    case Reclaim(ops) => false
  }

  lemma RecordedNow(c: Primitives, mk: bytes, st: State, e: Event, h: string, content: bytes)
    requires Lawful(c) && Intact(c, mk, st) && Keyed(c, st)
    requires Possible(c, st, e) && Orderly(c, mk, e) && Clean(c, st, e) && BacksUp(c, e, h, content)
    ensures WithHash(After(c, st, e).entries, h) != {} && c.hash(content) == h
  {
    match e
    case RunBackup(job, _, d, faults) =>
      CleanBackupKeyed(c, mk, job, st, d, faults);
      ManifestCovers(c, job.files, job.atHash);
    case BackUpFile(ev, known, fault) => CleanFileKeyed(c, mk, ev, st, known, fault);
  }

  lemma GrownKeepsHash(st: State, left: State, h: string)
    requires Grown(st, left) && WithHash(st.entries, h) != {}
    ensures WithHash(left.entries, h) != {}
  {
    var id :| id in WithHash(st.entries, h);
    assert id in WithHash(left.entries, h);
  }

  lemma {:induction false} RecordedForGood(c: Primitives, mk: bytes, events: seq<Event>, i: nat, h: string, content: bytes)
    requires Lawful(c) && Happened(c, mk, events) && AllClean(c, events)
    requires i < |events| && BacksUp(c, events[i], h, content)
    ensures WithHash(Node(c, events).entries, h) != {} && c.hash(content) == h
  {
    var before := events[..|events| - 1];
    if i < |before| {
      assert before[i] == events[i];
      RecordedForGood(c, mk, before, i, h, content);
      CleanHistoryKeyed(c, mk, events);
      GrownKeepsHash(Node(c, before), Node(c, events), h);
    } else {
      RecordedLast(c, mk, events, h, content);
    }
  }

  lemma RecordedLast(c: Primitives, mk: bytes, events: seq<Event>, h: string, content: bytes)
    requires Lawful(c) && Happened(c, mk, events) && AllClean(c, events)
    requires events != [] && BacksUp(c, events[|events| - 1], h, content)
    ensures WithHash(Node(c, events).entries, h) != {} && c.hash(content) == h
  {
    var before := events[..|events| - 1];
    CleanHistoryKeyed(c, mk, before);
    HistoryIsIntact(c, mk, before);
    RecordedNow(c, mk, Node(c, before), events[|events| - 1], h, content);
  }

  // ------------------------------------------------------------- without encryption

  predicate Encrypts(e: Event) {
    match e
    case RunBackup(job, _, _, _) => job.encrypting
    case BackUpFile(ev, _, _) => ev.hasEncryptor && |ev.masterKey| > 0
    case Reclaim(_) => false
  }

  predicate NeverEncrypts(events: seq<Event>) {
    forall i | 0 <= i < |events| :: !Encrypts(events[i])
  }

  /** No row has a key and every blob is its own content. */
  ghost predicate Bare(c: Primitives, st: State) {
    && (forall id | id in st.entries :: !HasKey(st.entries[id]))
    && (forall h | h in st.blobs :: c.hash(st.blobs[h]) == h)
  }

  lemma BackupKeepsBare(c: Primitives, mk: bytes, job: Job, st: State, needed: seq<string>, faults: Faults)
    requires Lawful(c) && Intact(c, mk, st) && Bare(c, st) && Regular(mk, job) && Distinct(needed) && !job.encrypting
    ensures Bare(c, AfterBackup(c, job, st, needed, faults))
  {
    var m, u := Manifest(c, job.files, job.atHash), UploadPhase(c, job, st, needed, faults);
    var tries, left := Attempts(needed, faults), AfterBackup(c, job, st, needed, faults);
    AttemptsDistinct(needed, faults);
    UploadsAreDone(c, job, m, st.blobs, tries, faults);
    BackupLeaves(c, job, st, needed, faults);
    forall h | h in u.encryption
      ensures u.encryption[h] == NoMeta && (h in u.uploaded ==> c.hash(u.blobs[h]) == h)
    {
      var k := PositionOf(tries, h);
      assert UploadedAt(c, job, m, u, tries[k], k, k in faults.uploads);
      SentIsContent(c, mk, job, h, k);
    }
    forall id | id in left.entries ensures !HasKey(left.entries[id]) {
      if id !in st.entries {
        assert NotedRow(left.entries[id], u.encryption, NoLinks(job));
      }
    }
  }

  lemma {:induction false} BareHistory(c: Primitives, mk: bytes, events: seq<Event>)
    requires Lawful(c) && Happened(c, mk, events) && NeverEncrypts(events)
    ensures Bare(c, Node(c, events))
  {
    if events != [] {
      var before, last := events[..|events| - 1], events[|events| - 1];
      BareHistory(c, mk, before);
      HistoryIsIntact(c, mk, before);
      assert !Encrypts(last);
      match last
      case RunBackup(job, _, d, faults) => BackupKeepsBare(c, mk, job, Node(c, before), d.needed, faults);
      case BackUpFile(ev, known, fault) =>
      case Reclaim(ops) => ReclaimingPreserves(Node(c, before), ops);
    }
  }

  // --------------------------------------------------------------- encryption at rest

  predicate AlwaysEncrypts(events: seq<Event>) {
    forall i | 0 <= i < |events| :: Encrypts(events[i]) || events[i].Reclaim?
  }

  /** No blob is its own content. */
  ghost predicate AtRest(c: Primitives, st: State) {
    forall h | h in st.blobs :: c.hash(st.blobs[h]) != h
  }

  lemma OpenedIsNotPlain(c: Primitives, mk: bytes, blob: bytes, wrappedDEK: bytes, h: string)
    requires Lawful(c) && KeyOpens(c, mk, blob, wrappedDEK, h)
    ensures c.hash(blob) != h
  {
    if c.hash(blob) == h {
      PlainIsNotOpened(c, mk, blob, wrappedDEK, h);
    }
  }

  lemma BackupKeepsAtRest(c: Primitives, mk: bytes, job: Job, st: State, needed: seq<string>, faults: Faults)
    requires Lawful(c) && AtRest(c, st) && Regular(mk, job) && Distinct(needed) && job.encrypting
    requires WellKeyed(st.entries, st.nextID)
    ensures AtRest(c, AfterBackup(c, job, st, needed, faults))
  {
    var m, u := Manifest(c, job.files, job.atHash), UploadPhase(c, job, st, needed, faults);
    var tries, left := Attempts(needed, faults), AfterBackup(c, job, st, needed, faults);
    AttemptsDistinct(needed, faults);
    UploadsAreDone(c, job, m, st.blobs, tries, faults);
    BackupLeaves(c, job, st, needed, faults);
    forall h | h in left.blobs ensures c.hash(left.blobs[h]) != h {
      if h in u.uploaded {
        var k := PositionOf(tries, h);
        assert UploadedAt(c, job, m, u, tries[k], k, k in faults.uploads);
        SentIsContent(c, mk, job, h, k);
        OpenedIsNotPlain(c, mk, left.blobs[h], Sent(c, job, m, h, k).1.wrappedDEK, h);
      }
    }
  }

  lemma FileKeepsAtRest(c: Primitives, mk: bytes, ev: FileEvent, st: State, known: bool, fault: FileFault)
    requires Lawful(c) && AtRest(c, st) && RegularFile(c, mk, ev) && ev.hasEncryptor && |ev.masterKey| > 0
    ensures AtRest(c, AfterFile(c, ev, st, known, fault).0)
  {
    if FileStored(c, ev, known, fault) {
      FilePayloadIsContent(c, mk, ev);
      var p := FilePayload(c, ev).value;
      OpenedIsNotPlain(c, mk, p.0, p.1.wrappedDEK, ev.hash);
    }
  }

  /** After any history that always encrypts, with whatever failures, stops, deletions and answers
      of the server, no file lies in the store in the clear. */
  lemma {:induction false} SealedHistory(c: Primitives, mk: bytes, events: seq<Event>)
    requires Lawful(c) && Happened(c, mk, events) && AlwaysEncrypts(events)
    ensures AtRest(c, Node(c, events))
  {
    if events != [] {
      var before, last := events[..|events| - 1], events[|events| - 1];
      SealedHistory(c, mk, before);
      HistoryIsIntact(c, mk, before);
      assert Encrypts(last) || last.Reclaim?;
      match last
      case RunBackup(job, _, d, faults) => BackupKeepsAtRest(c, mk, job, Node(c, before), d.needed, faults);
      case BackUpFile(ev, known, fault) => FileKeepsAtRest(c, mk, ev, Node(c, before), known, fault);
      case Reclaim(ops) => ReclaimingPreserves(Node(c, before), ops);
    }
  }

  // -------------------------------------------------------------- every file restores

  /** After any sequence of clean backups every file that was ever backed up restores to exactly
      its bytes, whichever row is found first: with the master key, whatever mix of the runs
      encrypted; and without one, when none of them did. */
  lemma EveryFileRestores(c: Primitives, mk: bytes, k: Keys, events: seq<Event>, i: nat, h: string, content: bytes)
    requires Lawful(c) && Happened(c, mk, events) && AllClean(c, events)
    requires (CanDecrypt(k) && k.masterKey == mk) || NeverEncrypts(events)
    requires i < |events| && BacksUp(c, events[i], h, content)
    ensures WithHash(Node(c, events).entries, h) != {}
    ensures RestoresTo(c, k, Node(c, events), h, content)
  {
    var st := Node(c, events);
    RecordedForGood(c, mk, events, i, h, content);
    CleanHistoryKeyed(c, mk, events);
    var id :| id in WithHash(st.entries, h);
    assert st.entries[id].hash in st.blobs;
    CleanHistoryIsRestorable(c, mk, k, events, h);
    HappenedOccurred(c, mk, events);
    RestorableAfterHistory(c, k, events, h);
  }

  lemma CleanHistoryIsRestorable(c: Primitives, mk: bytes, k: Keys, events: seq<Event>, h: string)
    requires Lawful(c) && Happened(c, mk, events) && AllClean(c, events)
    requires (CanDecrypt(k) && k.masterKey == mk) || NeverEncrypts(events)
    requires WithHash(Node(c, events).entries, h) != {} && h in Node(c, events).blobs
    ensures Restorable(c, k, Node(c, events), h)
  {
    HistoryIsIntact(c, mk, events);
    if NeverEncrypts(events) {
      BareHistory(c, mk, events);
    } else {
      CleanHistoryKeepsKeys(c, mk, events);
      HistorySoundExactly(c, mk, events);
      CleanHistoryKeyed(c, mk, events);
      SoundRestorable(c, mk, k, Node(c, events), h);
    }
  }
}
