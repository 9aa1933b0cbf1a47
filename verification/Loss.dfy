/** Short histories after which a recorded file cannot be restored, or not from every row. */
module Loss {
  import opened Foundations
  import opened Catalog
  import opened Encryption
  import KW = KeyWrap
  import opened Backup
  import opened Accounting
  import opened Restore
  import opened Reclamation
  import opened Restorability
  import opened History

  /** An encrypting run over the single file /a with content p. */
  function OneFile(backupID: string, p: bytes, mk: bytes, d: Draw): Job {
    Job(backupID, [ScannedFile("/a", "a", |p|, None, false, "")], map["/a" := p], map["/a" := p], true, mk, _ => d, _ => 0)
  }

  const NoFaults: Faults := Faults({}, {}, None, None)
  const StopBeforeInsert: Faults := Faults({}, {}, None, Some(0))
  const UploadFails: Faults := Faults({0}, {}, None, None)

  function Row(c: Primitives, id: nat, backupID: string, p: bytes, meta: EncMeta): BackupEntry {
    BackupEntry(id, backupID, c.hash(p), "a", "/a", |p|, None, false, "", meta.wrappedDEK, meta.nonce, 0)
  }

  lemma OneFileManifest(c: Primitives, backupID: string, p: bytes, mk: bytes, d: Draw)
    ensures var job := OneFile(backupID, p, mk, d);
            Manifest(c, job.files, job.atHash) == [ManifestEntry(c.hash(p), "/a", |p|)]
  {
    var job := OneFile(backupID, p, mk, d);
    assert job.files[..0] == [];
  }

  lemma InsertsOne(job: Job, encryption: map<string, EncMeta>, needed: set<string>, start: Insertions,
                   m: seq<ManifestEntry>, faults: Faults)
    requires |m| == 1 && faults.inserts == {} && Scanned(job.files, m[0].filePath).Some?
    ensures var ins := InsertAll(job, encryption, needed, start, m, faults);
            && ins.nextID == start.nextID + 1
            && ins.entries == start.entries[start.nextID :=
                 RowFor(BuildEntry(job, m[0].hash, Scanned(job.files, m[0].filePath).value,
                                   MetaOf(encryption, m[0].hash), 0), start.nextID)]
  {
    assert m[..0] == [];
  }

  /** The content is missing: it is uploaded, and recorded unless the run is stopped first. */
  lemma Uploading(c: Primitives, backupID: string, p: bytes, mk: bytes, d: Draw, st: State, faults: Faults)
    requires Lawful(c) && |mk| == 32 && (faults == NoFaults || faults == StopBeforeInsert)
    ensures var s, h := Encrypt(c, p, mk, d), c.hash(p);
            s.Ok? && AfterBackup(c, OneFile(backupID, p, mk, d), st, [h], faults)
            == State(if faults == NoFaults
                     then st.entries[st.nextID := Row(c, st.nextID, backupID, p, EncMeta(s.value.wrappedDEK, s.value.nonce))]
                     else st.entries,
                     st.jobs + {backupID}, st.blobs[h := s.value.ciphertext],
                     if faults == NoFaults then st.nextID + 1 else st.nextID)
  {
    var job, h := OneFile(backupID, p, mk, d), c.hash(p);
    var m, u := Manifest(c, job.files, job.atHash), UploadPhase(c, job, st, [h], faults);
    OneFileManifest(c, backupID, p, mk, d);
    OneUpload(c, backupID, p, mk, d, st, faults);
    assert m[..1] == m && m[..0] == [] && Scanned(job.files, "/a") == Some(job.files[0]);
    if faults == NoFaults {
      InsertsOne(job, u.encryption, AsSet([h]), Insertions(st.entries, st.nextID, 0, {}, u.processed, 0), m, faults);
    }
  }

  /** What the upload loop leaves of the one file: its blob, unless the upload fails, and its key. */
  lemma OneUpload(c: Primitives, backupID: string, p: bytes, mk: bytes, d: Draw, st: State, faults: Faults)
    requires Lawful(c) && |mk| == 32 && faults.stopUpload == None
    ensures var s, h := Encrypt(c, p, mk, d), c.hash(p);
            var u := UploadPhase(c, OneFile(backupID, p, mk, d), st, [h], faults);
            && s.Ok? && u.blobs == (if 0 in faults.uploads then st.blobs else st.blobs[h := s.value.ciphertext])
            && u.encryption == map[h := EncMeta(s.value.wrappedDEK, s.value.nonce)]
  {
    var job, h := OneFile(backupID, p, mk, d), c.hash(p);
    var m := Manifest(c, job.files, job.atHash);
    OneFileManifest(c, backupID, p, mk, d);
    EncryptRoundTrip(c, p, mk, d, []);
    assert [h][..1] == [h] && [h][..0] == [] && FirstPath(m, h) == Some("/a");
    assert UploadPhase(c, job, st, [h], faults)
        == UploadOne(c, job, m, UploadAll(c, job, m, st.blobs, [], faults), h, 0, 0 in faults.uploads);
  }

  /** The content is stored already: only a row without a data key is added. */
  lemma Deduplicating(c: Primitives, backupID: string, p: bytes, mk: bytes, d: Draw, st: State)
    requires Lawful(c)
    ensures AfterBackup(c, OneFile(backupID, p, mk, d), st, [], NoFaults)
            == State(st.entries[st.nextID := Row(c, st.nextID, backupID, p, NoMeta)],
                     st.jobs + {backupID}, st.blobs, st.nextID + 1)
  {
    var job := OneFile(backupID, p, mk, d);
    var m := Manifest(c, job.files, job.atHash);
    OneFileManifest(c, backupID, p, mk, d);
    var none: seq<string> := [];
    assert none[..0] == none && m[..1] == m && m[..0] == [];
    assert Scanned(job.files, "/a") == Some(job.files[0]);
    InsertsOne(job, map[], AsSet(none), Insertions(st.entries, st.nextID, 0, {}, 0, 0), m, NoFaults);
  }

  lemma NoKeyNoRestore(c: Primitives, k: Keys, st: State, id: nat, p: bytes, d: Draw, found: seq<BackupEntry>)
    requires Lawful(c) && CanDecrypt(k) && |k.masterKey| == 32
    requires st.entries.Keys == {id} && st.entries[id].hash == c.hash(p) && !HasKey(st.entries[id])
    requires c.hash(p) in st.blobs && st.blobs[c.hash(p)] == Encrypt(c, p, k.masterKey, d).value.ciphertext
             && Encrypt(c, p, k.masterKey, d).Ok?
    requires Lists(found, st.entries, WithHash(st.entries, c.hash(p)))
    ensures RestoreFileOf(c, k, st.blobs, found, c.hash(p)) == Err(HashMismatch)
  {
    EncryptRoundTrip(c, p, k.masterKey, d, []);
    FirstWithKeySpec(found);
    forall e | e in found ensures !HasKey(e) {
      ListedRow(st.entries, c.hash(p), found, e);
    }
    assert id in IDs(found);
    assert found != [];
    assert found[0] in found;
  }

  /** Run 1 uploads the file, under the given faults; run 2 finds it stored, and nothing fails. */
  function TwoRuns(c: Primitives, mk: bytes, p: bytes, d: Draw, faults: Faults): State {
    AfterBackup(c, OneFile("2", p, mk, d), AfterBackup(c, OneFile("1", p, mk, d), Empty, [c.hash(p)], faults), [], NoFaults)
  }

  lemma DeletingRowOne(st: State, e: BackupEntry, f: BackupEntry, run: string)
    requires st.entries == map[1 := e, 2 := f] && e.backupID == run != f.backupID
    requires f.hash in st.blobs
    ensures WithJob(st.entries, run) == {1}
    ensures AfterDelete(st, {1}).entries == map[2 := f]
    ensures f.hash in AfterDelete(st, {1}).blobs && AfterDelete(st, {1}).blobs[f.hash] == st.blobs[f.hash]
  {
    assert WithJob(st.entries, run) == {1};
    var left := AfterDelete(st, {1});
    assert left.entries == map[2 := f];
    assert left.entries[2].hash == f.hash && f.hash in AllHashes(left.entries);
  }

  /** Run 1 uploads a file, run 2 deduplicates it, run 1 is deleted: the blob and the entry of
      run 2 survive, but no listing order lets that entry be restored any more. */
  lemma DeletingTheFirstRunLosesTheFile(c: Primitives, k: Keys, p: bytes, d: Draw, found: seq<BackupEntry>)
    requires Lawful(c) && CanDecrypt(k) && |k.masterKey| == 32
    ensures var st := TwoRuns(c, k.masterKey, p, d, NoFaults);
            var left := AfterDelete(st, WithJob(st.entries, "1"));
            && left.entries == map[2 := Row(c, 2, "2", p, NoMeta)]
            && c.hash(p) in left.blobs
            && (Lists(found, left.entries, WithHash(left.entries, c.hash(p))) ==>
                  RestoreFileOf(c, k, left.blobs, found, c.hash(p)) == Err(HashMismatch))
  {
    var h := c.hash(p);
    var st1, st := AfterBackup(c, OneFile("1", p, k.masterKey, d), Empty, [h], NoFaults), TwoRuns(c, k.masterKey, p, d, NoFaults);
    Uploading(c, "1", p, k.masterKey, d, Empty, NoFaults);
    Deduplicating(c, "2", p, k.masterKey, d, st1);
    DeletingRowOne(st, st.entries[1], Row(c, 2, "2", p, NoMeta), "1");
    var left := AfterDelete(st, {1});
    if Lists(found, left.entries, WithHash(left.entries, h)) {
      NoKeyNoRestore(c, k, left, 2, p, d, found);
    }
  }

  /** Run 1 is stopped between its upload and its insertions; run 2 completes without any
      failure, and still its file cannot be restored. */
  lemma AStoppedRunSpoilsTheNextOne(c: Primitives, k: Keys, p: bytes, d: Draw, found: seq<BackupEntry>)
    requires Lawful(c) && CanDecrypt(k) && |k.masterKey| == 32
    ensures var st := TwoRuns(c, k.masterKey, p, d, StopBeforeInsert);
            && st.entries == map[1 := Row(c, 1, "2", p, NoMeta)]
            && (Lists(found, st.entries, WithHash(st.entries, c.hash(p))) ==>
                  RestoreFileOf(c, k, st.blobs, found, c.hash(p)) == Err(HashMismatch))
  {
    var st1 := AfterBackup(c, OneFile("1", p, k.masterKey, d), Empty, [c.hash(p)], StopBeforeInsert);
    Uploading(c, "1", p, k.masterKey, d, Empty, StopBeforeInsert);
    Deduplicating(c, "2", p, k.masterKey, d, st1);
    var st := TwoRuns(c, k.masterKey, p, d, StopBeforeInsert);
    if Lists(found, st.entries, WithHash(st.entries, c.hash(p))) {
      NoKeyNoRestore(c, k, st, 1, p, d, found);
    }
  }

  /** The upload fails, and yet the row that is recorded carries the data key of its bytes. */
  lemma FailingUpload(c: Primitives, backupID: string, p: bytes, mk: bytes, d: Draw, st: State)
    requires Lawful(c) && |mk| == 32
    ensures var s, h := Encrypt(c, p, mk, d), c.hash(p);
            s.Ok? && AfterBackup(c, OneFile(backupID, p, mk, d), st, [h], UploadFails)
            == State(st.entries[st.nextID := Row(c, st.nextID, backupID, p, EncMeta(s.value.wrappedDEK, s.value.nonce))],
                     st.jobs + {backupID}, st.blobs, st.nextID + 1)
  {
    var job, h := OneFile(backupID, p, mk, d), c.hash(p);
    var m, u := Manifest(c, job.files, job.atHash), UploadPhase(c, job, st, [h], UploadFails);
    OneFileManifest(c, backupID, p, mk, d);
    OneUpload(c, backupID, p, mk, d, st, UploadFails);
    assert m[..1] == m && m[..0] == [] && Scanned(job.files, "/a") == Some(job.files[0]);
    InsertsOne(job, u.encryption, AsSet([h]), Insertions(st.entries, st.nextID, 0, {}, u.processed, 0), m, UploadFails);
  }

  /** The upload of run 1 fails; run 2 completes and stores the file under its own data key. A
      restore that starts from the row of run 1 takes that row's key and fails, unless the two
      keys happen to seal the file alike. */
  lemma AFailedUploadSpoilsTheNextOne(c: Primitives, k: Keys, p: bytes, d1: Draw, d2: Draw, found: seq<BackupEntry>)
    requires Lawful(c) && CanDecrypt(k) && |k.masterKey| == 32
    requires c.seal(d1.dek, d2.nonce, p) != c.seal(d2.dek, d2.nonce, p)
    ensures var st := AfterBackup(c, OneFile("2", p, k.masterKey, d2),
                        AfterBackup(c, OneFile("1", p, k.masterKey, d1), Empty, [c.hash(p)], UploadFails),
                        [c.hash(p)], NoFaults);
            && st.entries.Keys == {1, 2} && st.entries[1].hash == st.entries[2].hash == c.hash(p) && c.hash(p) in st.blobs
            && RestoreOf(c, k, st.blobs[c.hash(p)], Some(st.entries[1]), found, c.hash(p)).Err?
            && RestoreOf(c, k, st.blobs[c.hash(p)], Some(st.entries[2]), found, c.hash(p)).Ok?
  {
    var h := c.hash(p);
    var st1 := AfterBackup(c, OneFile("1", p, k.masterKey, d1), Empty, [h], UploadFails);
    FailingUpload(c, "1", p, k.masterKey, d1, Empty);
    Uploading(c, "2", p, k.masterKey, d2, st1, NoFaults);
    EncryptRoundTrip(c, p, k.masterKey, d1, []);
    EncryptRoundTrip(c, p, k.masterKey, d2, Encrypt(c, p, k.masterKey, d2).value.nonce);
    WrongKeyFails(c, p, k.masterKey, d1, d2, Encrypt(c, p, k.masterKey, d1).value.nonce);
  }

  /** Run 2 asks whether the blob is stored, the check fails, and it replaces the blob under a new
      data key. The row of run 1 keeps the key of the bytes that are gone. */
  lemma AFailedCheckSpoilsTheFirstRun(c: Primitives, k: Keys, p: bytes, d1: Draw, d2: Draw, found: seq<BackupEntry>)
    requires Lawful(c) && CanDecrypt(k) && |k.masterKey| == 32
    requires c.seal(d1.dek, d2.nonce, p) != c.seal(d2.dek, d2.nonce, p)
    ensures var st := AfterBackup(c, OneFile("2", p, k.masterKey, d2),
                        AfterBackup(c, OneFile("1", p, k.masterKey, d1), Empty, [c.hash(p)], NoFaults),
                        [c.hash(p)], NoFaults);
            && st.entries.Keys == {1, 2} && st.entries[1].hash == c.hash(p) && c.hash(p) in st.blobs
            && RestoreOf(c, k, st.blobs[c.hash(p)], Some(st.entries[1]), found, c.hash(p)).Err?
  {
    var st1 := AfterBackup(c, OneFile("1", p, k.masterKey, d1), Empty, [c.hash(p)], NoFaults);
    Uploading(c, "1", p, k.masterKey, d1, Empty, NoFaults);
    Uploading(c, "2", p, k.masterKey, d2, st1, NoFaults);
    EncryptRoundTrip(c, p, k.masterKey, d1, []);
    WrongKeyFails(c, p, k.masterKey, d1, d2, Encrypt(c, p, k.masterKey, d1).value.nonce);
  }

  /** A run over the same file without encryption. */
  function PlainFile(backupID: string, p: bytes, d: Draw): Job {
    OneFile(backupID, p, [], d).(encrypting := false)
  }

  lemma PlainUploading(c: Primitives, backupID: string, p: bytes, d: Draw, st: State)
    requires Lawful(c)
    ensures AfterBackup(c, PlainFile(backupID, p, d), st, [c.hash(p)], NoFaults)
            == State(st.entries[st.nextID := Row(c, st.nextID, backupID, p, NoMeta)],
                     st.jobs + {backupID}, st.blobs[c.hash(p) := p], st.nextID + 1)
  {
    var job, h := PlainFile(backupID, p, d), c.hash(p);
    var m := Manifest(c, job.files, job.atHash);
    OneFileManifest(c, backupID, p, [], d);
    assert [h][..1] == [h] && [h][..0] == [] && m[..1] == m && m[..0] == [];
    assert FirstPath(m, h) == Some("/a");
    var u := UploadPhase(c, job, st, [h], NoFaults);
    assert u == UploadOne(c, job, m, UploadAll(c, job, m, st.blobs, [], NoFaults), h, 0, false);
    assert Scanned(job.files, "/a") == Some(job.files[0]);
    InsertsOne(job, u.encryption, AsSet([h]), Insertions(st.entries, st.nextID, 0, {}, u.processed, 0), m, NoFaults);
  }

  /** The upload of an encrypting run fails, and a run without encryption then stores the file. As
      long as a master key is configured no row restores it, in any listing order: the fallback
      finds the key of the failed upload, which opens nothing. */
  lemma AFailedUploadHidesAPlainFile(c: Primitives, k: Keys, p: bytes, d: Draw, meta: BackupEntry, found: seq<BackupEntry>)
    requires Lawful(c) && CanDecrypt(k) && |k.masterKey| == 32
    ensures var st := AfterBackup(c, PlainFile("2", p, d),
                        AfterBackup(c, OneFile("1", p, k.masterKey, d), Empty, [c.hash(p)], UploadFails),
                        [c.hash(p)], NoFaults);
            && st.entries.Keys == {1, 2} && st.entries[2].hash == c.hash(p)
            && c.hash(p) in st.blobs && st.blobs[c.hash(p)] == p
            && (Lists(found, st.entries, WithHash(st.entries, c.hash(p))) && meta in found ==>
                  RestoreOf(c, k, p, Some(meta), found, c.hash(p)).Err?)
  {
    var h := c.hash(p);
    var st1 := AfterBackup(c, OneFile("1", p, k.masterKey, d), Empty, [h], UploadFails);
    FailingUpload(c, "1", p, k.masterKey, d, Empty);
    PlainUploading(c, "2", p, d, st1);
    var st := AfterBackup(c, PlainFile("2", p, d), st1, [h], NoFaults);
    EncryptRoundTrip(c, p, k.masterKey, d, []);
    if Lists(found, st.entries, WithHash(st.entries, h)) && meta in found {
      HiddenByKey(c, k, st, p, meta, found, 1);
    }
  }

  /** A blob that is its own content does not restore while some row carries a key for it. */
  lemma HiddenByKey(c: Primitives, k: Keys, st: State, p: bytes, meta: BackupEntry, found: seq<BackupEntry>, id: nat)
    requires Lawful(c) && CanDecrypt(k) && WellKeyed(st.entries, st.nextID) && AllPaired(st.entries)
    requires Lists(found, st.entries, WithHash(st.entries, c.hash(p))) && meta in found
    requires id in st.entries && st.entries[id].hash == c.hash(p) && HasKey(st.entries[id])
    ensures RestoreOf(c, k, p, Some(meta), found, c.hash(p)).Err?
  {
    ChosenIsListed(k, st.entries, st.nextID, c.hash(p), found, meta);
    var e := ChooseMeta(Some(meta), found, k).value;
    PlainIsNotOpened(c, k.masterKey, p, e.encryptedDEK, c.hash(p));
  }

  /** The data key of one draw opens the ciphertext of another only if both seal it alike. */
  lemma WrongKeyFails(c: Primitives, p: bytes, mk: bytes, d1: Draw, d2: Draw, nonce: bytes)
    requires Lawful(c) && |mk| == 32
    requires Encrypt(c, p, mk, d1).Ok? && Encrypt(c, p, mk, d2).Ok?
    ensures Decrypt(c, Encrypt(c, p, mk, d2).value.ciphertext, Encrypt(c, p, mk, d1).value.wrappedDEK, nonce, mk) == Ok(p)
            ==> c.seal(d1.dek, d2.nonce, p) == c.seal(d2.dek, d2.nonce, p)
  {
    var s, w := Encrypt(c, p, mk, d2).value.ciphertext, Encrypt(c, p, mk, d1).value.wrappedDEK;
    if Decrypt(c, s, w, nonce, mk) == Ok(p) {
      DecryptExact(c, s, w, nonce, mk, p);
      var dek, n :| SealedUnder(c, s, w, mk, p, dek, n);
      KW.UnwrapInvertsWrap(c.aes, mk, dek, w);
      KW.UnwrapInvertsWrap(c.aes, mk, d1.dek, w);
      assert s[..NONCE_SIZE] == n == d2.nonce && s[NONCE_SIZE..] == c.seal(dek, n, p);
    }
  }
}
