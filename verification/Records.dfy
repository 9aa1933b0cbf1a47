/** What the rows that a backup run adds say of its files (internal/backup/engine.go:404-445 and
    buildBackupEntry). */
module Records {
  import opened Foundations
  import opened Catalog
  import opened Encryption
  import opened Backup
  import opened Accounting

  /** The scan lists f last among the files with its path: it is the one that the run uses. */
  ghost predicate LastOfPath(files: seq<ScannedFile>, f: ScannedFile) {
    exists i :: 0 <= i < |files| && files[i] == f && forall j | i < j < |files| :: files[j].path != f.path
  }

  lemma LastStaysLast(files: seq<ScannedFile>, f: ScannedFile)
    requires files != [] && LastOfPath(files[..|files| - 1], f) && files[|files| - 1].path != f.path
    ensures LastOfPath(files, f)
  {
    var n := |files| - 1;
    var i :| 0 <= i < n && files[..n][i] == f && forall j | i < j < n :: files[..n][j].path != f.path;
    forall j | i < j < |files| ensures files[j].path != f.path {
      assert j < n ==> files[j] == files[..n][j];
    }
    assert files[i] == f;
  }

  lemma {:induction false} ScannedIsLast(files: seq<ScannedFile>, path: string)
    ensures Scanned(files, path).None? ==> forall f | f in files :: f.path != path
    ensures Scanned(files, path).Some? ==>
              Scanned(files, path).value.path == path && LastOfPath(files, Scanned(files, path).value)
  {
    if files != [] {
      var n := |files| - 1;
      ScannedIsLast(files[..n], path);
      if files[n].path == path {
        assert files[n] == Scanned(files, path).value;
      } else if Scanned(files[..n], path).Some? {
        LastStaysLast(files, Scanned(files[..n], path).value);
      }
    }
  }

  /** The row is of this run and says of the file what the scan did, under the hash h. */
  predicate Describes(e: BackupEntry, job: Job, f: ScannedFile, h: string) {
    && e.backupID == job.backupID && e.hash == h && e.fileName == f.name && e.filePath == f.path
    && e.fileSize == f.size && e.permissions == f.permissions
    && e.symlink == f.symlink && e.symlinkTarget == f.symlinkTarget
  }

  /** The row describes a scanned file that could be hashed, under the hash of its content. */
  ghost predicate IsRecord(c: Primitives, job: Job, e: BackupEntry) {
    && (exists f :: f in job.files && LastOfPath(job.files, f) && f.path in job.atHash
                    && Describes(e, job, f, c.hash(job.atHash[f.path])))
    && exists i: nat :: DatedBy(e, job.dates(i))
  }

  /** The row has the date in whole seconds. */
  predicate DatedBy(e: BackupEntry, date: int) {
    e.backupDate % 1_000_000_000 == 0 && e.backupDate <= date < e.backupDate + 1_000_000_000
  }

  ghost predicate Hashed(c: Primitives, job: Job, m: seq<ManifestEntry>) {
    forall e | e in m :: e.filePath in job.atHash && e.hash == c.hash(job.atHash[e.filePath])
  }

  lemma RowIsRecord(c: Primitives, job: Job, e: ManifestEntry, f: ScannedFile, meta: EncMeta, i: nat, id: nat)
    requires Scanned(job.files, e.filePath) == Some(f)
    requires e.filePath in job.atHash && e.hash == c.hash(job.atHash[e.filePath])
    ensures IsRecord(c, job, RowFor(BuildEntry(job, e.hash, f, meta, i), id))
  {
    ScannedIsLast(job.files, e.filePath);
    assert DatedBy(RowFor(BuildEntry(job, e.hash, f, meta, i), id), job.dates(i));
    assert Describes(RowFor(BuildEntry(job, e.hash, f, meta, i), id), job, f, c.hash(job.atHash[f.path]));
  }

  ghost predicate AddsRecords(c: Primitives, job: Job, start: Insertions, ins: Insertions) {
    GrownFrom(start, ins) && forall id | id in AddedRows(start, ins) :: IsRecord(c, job, ins.entries[id])
  }

  lemma OneRecordMore(c: Primitives, job: Job, start: Insertions, before: Insertions, needed: set<string>, row: BackupEntry)
    requires AddsRecords(c, job, start, before) && IsRecord(c, job, row)
    ensures AddsRecords(c, job, start, AddRow(needed, before, row))
  {
  }

  lemma {:induction false} InsertionsRecord(c: Primitives, job: Job, encryption: map<string, EncMeta>, needed: set<string>,
                                            start: Insertions, m: seq<ManifestEntry>, faults: Faults)
    requires Hashed(c, job, m) && forall id | id in start.entries :: id < start.nextID
    ensures AddsRecords(c, job, start, InsertAll(job, encryption, needed, start, m, faults))
  {
    if m != [] {
      var i := |m| - 1;
      var f := Scanned(job.files, m[i].filePath);
      assert m[i] in m && forall e | e in m[..i] :: e in m;
      InsertionsRecord(c, job, encryption, needed, start, m[..i], faults);
      if f.Some? && i !in faults.inserts {
        var before, meta := InsertAll(job, encryption, needed, start, m[..i], faults), MetaOf(encryption, m[i].hash);
        RowIsRecord(c, job, m[i], f.value, meta, i, before.nextID);
        OneRecordMore(c, job, start, before, needed, RowFor(BuildEntry(job, m[i].hash, f.value, meta, i), before.nextID));
      }
    }
  }

  /** Whatever fails and wherever a run stops, every row that it adds describes one of its files as
      the scan found it, under the hash of what the file held. */
  lemma RunRecordsFiles(c: Primitives, job: Job, st: State, needed: seq<string>, faults: Faults)
    requires WellKeyed(st.entries, st.nextID)
    ensures var left := AfterBackup(c, job, st, needed, faults);
      && (forall id | id in st.entries :: id in left.entries && left.entries[id] == st.entries[id])
      && (forall id | id in left.entries && id !in st.entries :: IsRecord(c, job, left.entries[id]))
  {
    var m := Manifest(c, job.files, job.atHash);
    if !StopsUploading(needed, faults) {
      ManifestIsScanned(c, job.files, job.atHash);
      var u := UploadPhase(c, job, st, needed, faults);
      InsertionsRecord(c, job, u.encryption, (set h | h in needed), Insertions(st.entries, st.nextID, 0, {}, u.processed, 0),
                       m[..Reached(faults.stopInsert, |m|)], faults);
    }
  }

  // ------------------------------------------------------------------ nothing is left out

  /** The positions of the files that can be hashed. */
  function Hashable(files: seq<ScannedFile>, atHash: map<string, bytes>): set<nat> {
    set i: nat | i < |files| && files[i].path in atHash
  }

  /** The manifest lists the file under the hash of its content. */
  ghost predicate Listed(c: Primitives, m: seq<ManifestEntry>, atHash: map<string, bytes>, f: ScannedFile)
    requires f.path in atHash
  {
    exists e :: e in m && e.filePath == f.path && e.fileSize == f.size && e.hash == c.hash(atHash[f.path])
  }

  /** The manifest has one entry for each of them. */
  lemma {:induction false} ManifestCovers(c: Primitives, files: seq<ScannedFile>, atHash: map<string, bytes>)
    ensures |Manifest(c, files, atHash)| == |Hashable(files, atHash)|
    ensures forall f | f in files && f.path in atHash :: Listed(c, Manifest(c, files, atHash), atHash, f)
  {
    if files != [] {
      var n := |files| - 1;
      ManifestCovers(c, files[..n], atHash);
      HashableStep(files, atHash);
      forall f | f in files && f.path in atHash ensures Listed(c, Manifest(c, files, atHash), atHash, f) {
        var m := Manifest(c, files, atHash);
        if f == files[n] {
          assert m[|m| - 1] == ManifestEntry(c.hash(atHash[f.path]), f.path, f.size) && m[|m| - 1] in m;
        } else {
          assert f in files[..n];
          StillListed(c, Manifest(c, files[..n], atHash), m, atHash, f);
        }
      }
    }
  }

  lemma StillListed(c: Primitives, before: seq<ManifestEntry>, m: seq<ManifestEntry>, atHash: map<string, bytes>,
                    f: ScannedFile)
    requires f.path in atHash && Listed(c, before, atHash, f) && before <= m
    ensures Listed(c, m, atHash, f)
  {
    var e :| e in before && e.filePath == f.path && e.fileSize == f.size && e.hash == c.hash(atHash[f.path]);
    assert e in m;
  }

  lemma HashableStep(files: seq<ScannedFile>, atHash: map<string, bytes>)
    requires files != []
    ensures var n := |files| - 1;
      |Hashable(files, atHash)| == |Hashable(files[..n], atHash)| + if files[n].path in atHash then 1 else 0
  {
    var n := |files| - 1;
    assert Hashable(files, atHash) == Hashable(files[..n], atHash) + if files[n].path in atHash then {n} else {};
  }

  /** A row for the entry has been added to t0 on the way to t. */
  ghost predicate HasAdded(t0: Table, t: Table, e: ManifestEntry) {
    exists id :: id in t && id !in t0 && t[id].filePath == e.filePath && t[id].hash == e.hash
  }

  lemma StillAdded(t0: Table, t: Table, id: nat, row: BackupEntry, e: ManifestEntry)
    requires id !in t && id !in t0 && (HasAdded(t0, t, e) || (row.filePath == e.filePath && row.hash == e.hash))
    ensures HasAdded(t0, t[id := row], e)
  {
    if x :| x in t && x !in t0 && t[x].filePath == e.filePath && t[x].hash == e.hash {
      assert t[id := row][x] == t[x];
    } else {
      assert t[id := row][id] == row;
    }
  }

  lemma {:induction false} InsertionsGrow(job: Job, encryption: map<string, EncMeta>, needed: set<string>,
                                          start: Insertions, m: seq<ManifestEntry>, faults: Faults)
    requires forall id | id in start.entries :: id < start.nextID
    ensures GrownFrom(start, InsertAll(job, encryption, needed, start, m, faults))
  {
    if m != [] {
      InsertionsGrow(job, encryption, needed, start, m[..|m| - 1], faults);
    }
  }

  lemma {:induction false} EveryEntryInserted(job: Job, encryption: map<string, EncMeta>, needed: set<string>,
                                              start: Insertions, m: seq<ManifestEntry>, faults: Faults, k: nat)
    requires faults.inserts == {} && k < |m| && forall x | x in m :: Scanned(job.files, x.filePath).Some?
    requires forall id | id in start.entries :: id < start.nextID
    ensures HasAdded(start.entries, InsertAll(job, encryption, needed, start, m, faults).entries, m[k])
  {
    var i := |m| - 1;
    InsertionsGrow(job, encryption, needed, start, m[..i], faults);
    if k < i {
      assert m[..i][k] == m[k] && forall x | x in m[..i] :: x in m;
      EveryEntryInserted(job, encryption, needed, start, m[..i], faults, k);
    }
    assert m[i] in m;
    EntryStaysInserted(job, encryption, needed, start, InsertAll(job, encryption, needed, start, m[..i], faults),
                       m[i], i, m[k]);
  }

  lemma EntryStaysInserted(job: Job, encryption: map<string, EncMeta>, needed: set<string>, start: Insertions,
                           before: Insertions, last: ManifestEntry, i: nat, e: ManifestEntry)
    requires GrownFrom(start, before) && Scanned(job.files, last.filePath).Some?
    requires HasAdded(start.entries, before.entries, e) || e == last
    ensures HasAdded(start.entries, InsertOne(job, encryption, needed, before, last, i, false).entries, e)
  {
    var f := Scanned(job.files, last.filePath).value;
    ScannedIsLast(job.files, last.filePath);
    StillAdded(start.entries, before.entries, before.nextID,
               RowFor(BuildEntry(job, last.hash, f, MetaOf(encryption, last.hash), i), before.nextID), e);
  }

  /** The node has a row, not there before, for the file under the hash of its content. */
  ghost predicate NewlyRecorded(c: Primitives, job: Job, st: State, left: State, f: ScannedFile)
    requires f.path in job.atHash
  {
    exists id :: id in left.entries && id !in st.entries
                 && left.entries[id].filePath == f.path && left.entries[id].hash == c.hash(job.atHash[f.path])
  }

  lemma CleanRunCountsRows(c: Primitives, job: Job, st: State, needed: seq<string>, faults: Faults)
    requires WellKeyed(st.entries, st.nextID) && NothingFails(c, job, needed, faults)
    ensures |AfterBackup(c, job, st, needed, faults).entries.Keys - st.entries.Keys| == |Hashable(job.files, job.atHash)|
  {
    var m, u := Manifest(c, job.files, job.atHash), UploadPhase(c, job, st, needed, faults);
    var start := Insertions(st.entries, st.nextID, 0, {}, u.processed, 0);
    assert m[..|m|] == m;
    ManifestCovers(c, job.files, job.atHash);
    ManifestIsScanned(c, job.files, job.atHash);
    CleanInsertions(job, u.encryption, (set h | h in needed), start, m, faults);
    InsertionsTallied(job, u.encryption, (set h | h in needed), start, m, faults);
  }

  lemma CleanRunRecordsEntry(c: Primitives, job: Job, st: State, needed: seq<string>, faults: Faults, k: nat)
    requires WellKeyed(st.entries, st.nextID) && NothingFails(c, job, needed, faults)
    requires k < |Manifest(c, job.files, job.atHash)|
    ensures var left, e := AfterBackup(c, job, st, needed, faults), Manifest(c, job.files, job.atHash)[k];
      HasAdded(st.entries, left.entries, e)
  {
    var m, u := Manifest(c, job.files, job.atHash), UploadPhase(c, job, st, needed, faults);
    var start := Insertions(st.entries, st.nextID, 0, {}, u.processed, 0);
    assert m[..|m|] == m;
    ManifestIsScanned(c, job.files, job.atHash);
    EveryEntryInserted(job, u.encryption, (set h | h in needed), start, m, faults, k);
  }

  /** A clean run adds one row for each file that can be hashed, and none of them is missing. */
  lemma CleanRunRecordsEveryFile(c: Primitives, job: Job, st: State, needed: seq<string>, faults: Faults)
    requires WellKeyed(st.entries, st.nextID) && NothingFails(c, job, needed, faults)
    ensures var left := AfterBackup(c, job, st, needed, faults);
      && |left.entries.Keys - st.entries.Keys| == |Hashable(job.files, job.atHash)|
      && forall f | f in job.files && f.path in job.atHash :: NewlyRecorded(c, job, st, left, f)
  {
    CleanRunCountsRows(c, job, st, needed, faults);
    ManifestCovers(c, job.files, job.atHash);
    forall f | f in job.files && f.path in job.atHash
      ensures NewlyRecorded(c, job, st, AfterBackup(c, job, st, needed, faults), f)
    {
      var m := Manifest(c, job.files, job.atHash);
      var e :| e in m && e.filePath == f.path && e.hash == c.hash(job.atHash[f.path]);
      var k :| 0 <= k < |m| && m[k] == e;
      CleanRunRecordsEntry(c, job, st, needed, faults, k);
    }
  }
}
