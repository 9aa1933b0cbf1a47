/** What the counters of a backup run mean. */
module Accounting {
  import opened Foundations
  import opened Catalog
  import opened Encryption
  import opened Backup

  function AsSet(hs: seq<string>): set<string> {
    set h | h in hs
  }

  lemma AsSetStep(hs: seq<string>)
    requires hs != []
    ensures AsSet(hs) == AsSet(hs[..|hs| - 1]) + {hs[|hs| - 1]}
    ensures Distinct(hs) ==> hs[|hs| - 1] !in AsSet(hs[..|hs| - 1]) && Distinct(hs[..|hs| - 1])
  {
    assert hs == hs[..|hs| - 1] + [hs[|hs| - 1]];
  }

  // ----------------------------------------------------------------- counting entries

  lemma {:induction false} CountInAdds(m: seq<ManifestEntry>, s: set<string>, h: string)
    requires h !in s
    ensures CountIn(m, s + {h}) == CountIn(m, s) + CountIn(m, {h})
  {
    if m != [] {
      CountInAdds(m[..|m| - 1], s, h);
    }
  }

  lemma {:induction false} CountInGrows(m: seq<ManifestEntry>, s: set<string>, t: set<string>)
    requires s <= t
    ensures CountIn(m, s) <= CountIn(m, t) <= |m|
  {
    if m != [] {
      CountInGrows(m[..|m| - 1], s, t);
    }
  }

  lemma {:induction false} CountInPositive(m: seq<ManifestEntry>, h: string)
    ensures h in HashesIn(m) ==> CountIn(m, {h}) > 0
    ensures CountIn(m, {}) == 0
  {
    if m != [] {
      var n := |m| - 1;
      CountInPositive(m[..n], h);
      HashesInStep(m, n);
      assert m[..n + 1] == m;
    }
  }

  /** What the upload counter adds up: each listed hash adds all the files that share it. */
  function SumCounts(m: seq<ManifestEntry>, needed: seq<string>): nat {
    if needed == [] then 0
    else SumCounts(m, needed[..|needed| - 1]) + CountIn(m, {needed[|needed| - 1]})
  }

  /** The sum counts each entry once exactly when no listed hash is repeated. */
  lemma {:induction false} SumCountsExact(m: seq<ManifestEntry>, needed: seq<string>)
    requires AsSet(needed) <= HashesIn(m)
    ensures SumCounts(m, needed) >= CountIn(m, AsSet(needed))
    ensures SumCounts(m, needed) == CountIn(m, AsSet(needed)) <==> Distinct(needed)
  {
    CountInPositive(m, "");
    if needed != [] {
      var rest, h := needed[..|needed| - 1], needed[|needed| - 1];
      AsSetStep(needed);
      SumCountsExact(m, rest);
      CountInPositive(m, h);
      if h in rest {
        assert h in AsSet(rest) && AsSet(needed) == AsSet(rest);
        var i :| 0 <= i < |rest| && rest[i] == h;
        assert needed[i] == needed[|needed| - 1];
      } else {
        CountInAdds(m, AsSet(rest), h);
        assert Distinct(needed) <==> Distinct(rest) by {
          assert needed == rest + [h];
        }
      }
    } else {
      assert AsSet(needed) == {};
    }
  }

  // ------------------------------------------------------------------------- uploads

  /** Whatever fails, the files counted by the upload loop are those with an uploaded hash. */
  lemma {:induction false} UploadsCounted(c: Primitives, job: Job, m: seq<ManifestEntry>, blobs: map<string, bytes>,
                                          needed: seq<string>, faults: Faults)
    requires Distinct(needed)
    ensures var u := UploadAll(c, job, m, blobs, needed, faults);
            && u.uploaded <= AsSet(needed)
            && u.processed == CountIn(m, u.uploaded)
            && u.blobs.Keys == blobs.Keys + u.uploaded
  {
    if needed == [] {
      CountInPositive(m, "");
    } else {
      var rest, h := needed[..|needed| - 1], needed[|needed| - 1];
      AsSetStep(needed);
      UploadsCounted(c, job, m, blobs, rest, faults);
      CountInAdds(m, UploadAll(c, job, m, blobs, rest, faults).uploaded, h);
    }
  }

  /** The file whose content is uploaded for hash h can be read and encrypted. */
  ghost predicate Uploadable(c: Primitives, job: Job, m: seq<ManifestEntry>, h: string) {
    && FirstPath(m, h).Some? && FirstPath(m, h).value in job.atRead
    && (job.encrypting ==> |job.masterKey| == 32)
  }

  /** The plaintext bytes read for the listed hashes. */
  function BytesRead(job: Job, m: seq<ManifestEntry>, needed: seq<string>): int {
    if needed == [] then 0 else
      var h := needed[|needed| - 1];
      BytesRead(job, m, needed[..|needed| - 1]) +
        if FirstPath(m, h).Some? && FirstPath(m, h).value in job.atRead then |job.atRead[FirstPath(m, h).value]| else 0
  }

  lemma {:induction false} CleanUploads(c: Primitives, job: Job, m: seq<ManifestEntry>, blobs: map<string, bytes>,
                                        needed: seq<string>, faults: Faults)
    requires Lawful(c) && faults.uploads == {}
    requires forall h | h in needed :: Uploadable(c, job, m, h)
    ensures var u := UploadAll(c, job, m, blobs, needed, faults);
            && u.uploaded == AsSet(needed)
            && u.processed == SumCounts(m, needed)
            && u.bytesNew == BytesRead(job, m, needed)
  {
    if needed != [] {
      var k := |needed| - 1;
      AsSetStep(needed);
      CleanUploads(c, job, m, blobs, needed[..k], faults);
      assert Uploadable(c, job, m, needed[k]);
      EncryptRoundTrip(c, job.atRead[FirstPath(m, needed[k]).value], job.masterKey, job.draws(k), []);
    } else {
      assert AsSet(needed) == {};
    }
  }

  // ---------------------------------------------------------------------- insertions

  ghost predicate StartsEmpty(start: Insertions) {
    && start.inserted == 0 && start.seen == {} && start.deduped == 0
    && (forall id | id in start.entries :: id < start.nextID)
  }

  function AddedRows(start: Insertions, ins: Insertions): set<nat> {
    ins.entries.Keys - start.entries.Keys
  }

  ghost predicate GrownFrom(start: Insertions, ins: Insertions) {
    && start.nextID <= ins.nextID
    && (forall id | id in start.entries :: id < start.nextID && id in ins.entries && ins.entries[id] == start.entries[id])
    && (forall id | id in ins.entries :: id < ins.nextID)
  }

  ghost predicate Tallied(start: Insertions, ins: Insertions, needed: set<string>) {
    CountsRows(start, ins) && SeesHashes(start, ins, needed) && ins.deduped == ins.inserted - |ins.seen|
  }

  ghost predicate CountsRows(start: Insertions, ins: Insertions) {
    GrownFrom(start, ins) && ins.inserted == |AddedRows(start, ins)|
  }

  ghost predicate SeesHashes(start: Insertions, ins: Insertions, needed: set<string>) {
    ins.seen == HashesOf(ins.entries, AddedRows(start, ins)) * needed
  }

  lemma RowAdded(start: Insertions, before: Insertions, row: BackupEntry)
    requires GrownFrom(start, before)
    ensures var t := before.entries[before.nextID := row];
            && t.Keys - start.entries.Keys == AddedRows(start, before) + {before.nextID}
            && |t.Keys - start.entries.Keys| == |AddedRows(start, before)| + 1
  {
    assert before.entries[before.nextID := row].Keys - start.entries.Keys == AddedRows(start, before) + {before.nextID};
  }

  lemma HashAdded(start: Insertions, before: Insertions, row: BackupEntry)
    requires GrownFrom(start, before)
    ensures HashesOf(before.entries[before.nextID := row], AddedRows(start, before) + {before.nextID})
         == HashesOf(before.entries, AddedRows(start, before)) + {row.hash}
  {
    var t, ids := before.entries[before.nextID := row], AddedRows(start, before);
    HashesOfAdds(t, ids, before.nextID);
    assert HashesOf(t, ids) == HashesOf(before.entries, ids);
  }

  lemma RowKeepsGrowth(start: Insertions, before: Insertions, ins: Insertions, row: BackupEntry)
    requires GrownFrom(start, before)
    requires ins.entries == before.entries[before.nextID := row] && ins.nextID == before.nextID + 1
    ensures GrownFrom(start, ins)
  {
  }

  lemma RowCounted(start: Insertions, before: Insertions, ins: Insertions, row: BackupEntry)
    requires CountsRows(start, before)
    requires ins.entries == before.entries[before.nextID := row] && ins.nextID == before.nextID + 1
    requires ins.inserted == before.inserted + 1
    ensures CountsRows(start, ins)
  {
    RowKeepsGrowth(start, before, ins, row);
    RowAdded(start, before, row);
  }

  lemma RowOfAddRowCounted(start: Insertions, before: Insertions, row: BackupEntry, needed: set<string>)
    requires CountsRows(start, before)
    ensures CountsRows(start, AddRow(needed, before, row))
  {
    RowCounted(start, before, AddRow(needed, before, row), row);
  }

  lemma HashSeen(start: Insertions, before: Insertions, row: BackupEntry, needed: set<string>)
    requires GrownFrom(start, before) && SeesHashes(start, before, needed)
    ensures SeesHashes(start, AddRow(needed, before, row), needed)
  {
    var hashes, ins := HashesOf(before.entries, AddedRows(start, before)), AddRow(needed, before, row);
    RowAdded(start, before, row);
    HashAdded(start, before, row);
    MeetAdds(hashes, row.hash, needed);
    assert HashesOf(ins.entries, AddedRows(start, ins)) == hashes + {row.hash};
  }

  lemma DedupCounted(before: Insertions, row: BackupEntry, needed: set<string>)
    requires before.deduped == before.inserted - |before.seen|
    ensures var ins := AddRow(needed, before, row); ins.deduped == ins.inserted - |ins.seen|
  {
  }

  lemma TallyStep(start: Insertions, before: Insertions, row: BackupEntry, needed: set<string>)
    requires Tallied(start, before, needed)
    ensures Tallied(start, AddRow(needed, before, row), needed)
  {
    RowOfAddRowCounted(start, before, row, needed);
    HashSeen(start, before, row, needed);
    DedupCounted(before, row, needed);
  }

  lemma InsertionTallied(job: Job, encryption: map<string, EncMeta>, needed: set<string>, start: Insertions,
                         before: Insertions, e: ManifestEntry, i: nat, fails: bool)
    requires Tallied(start, before, needed)
    ensures Tallied(start, InsertOne(job, encryption, needed, before, e, i, fails), needed)
  {
    var f := Scanned(job.files, e.filePath);
    if f.Some? && !fails {
      TallyStep(start, before, RowFor(BuildEntry(job, e.hash, f.value, MetaOf(encryption, e.hash), i), before.nextID), needed);
    }
  }

  lemma MeetAdds(hs: set<string>, h: string, needed: set<string>)
    ensures (hs + {h}) * needed == if h in needed then hs * needed + {h} else hs * needed
    ensures h in hs * needed ==> hs * needed + {h} == hs * needed
  {
  }

  /** Whatever fails, deduplicated files are the inserted ones less one for each distinct
      needed hash among them. */
  lemma {:induction false} InsertionsTallied(job: Job, encryption: map<string, EncMeta>, needed: set<string>,
                                             start: Insertions, m: seq<ManifestEntry>, faults: Faults)
    requires StartsEmpty(start)
    ensures Tallied(start, InsertAll(job, encryption, needed, start, m, faults), needed)
  {
    if m == [] {
      assert AddedRows(start, start) == {};
    } else {
      var i := |m| - 1;
      InsertionsTallied(job, encryption, needed, start, m[..i], faults);
      InsertionTallied(job, encryption, needed, start, InsertAll(job, encryption, needed, start, m[..i], faults),
                       m[i], i, i in faults.inserts);
    }
  }

  lemma {:induction false} InsertionsBounded(job: Job, encryption: map<string, EncMeta>, needed: set<string>,
                                             start: Insertions, m: seq<ManifestEntry>, faults: Faults)
    ensures InsertAll(job, encryption, needed, start, m, faults).processed
            <= start.processed + |m| - CountIn(m, needed)
  {
    if m != [] {
      InsertionsBounded(job, encryption, needed, start, m[..|m| - 1], faults);
    }
  }

  lemma {:induction false} CleanInsertions(job: Job, encryption: map<string, EncMeta>, needed: set<string>,
                                           start: Insertions, m: seq<ManifestEntry>, faults: Faults)
    requires StartsEmpty(start) && faults.inserts == {}
    requires forall e | e in m :: Scanned(job.files, e.filePath).Some?
    ensures var ins := InsertAll(job, encryption, needed, start, m, faults);
            && ins.inserted == |m| && ins.seen == HashesIn(m) * needed
            && ins.processed == start.processed + |m| - CountIn(m, needed)
  {
    if m != [] {
      var i := |m| - 1;
      assert forall e | e in m[..i] :: e in m;
      CleanInsertions(job, encryption, needed, start, m[..i], faults);
      CleanInsertion(job, encryption, needed, start, InsertAll(job, encryption, needed, start, m[..i], faults), m, faults);
    }
  }

  lemma CleanInsertion(job: Job, encryption: map<string, EncMeta>, needed: set<string>, start: Insertions,
                       before: Insertions, m: seq<ManifestEntry>, faults: Faults)
    requires m != [] && faults.inserts == {} && Scanned(job.files, m[|m| - 1].filePath).Some?
    requires before.inserted == |m| - 1 && before.seen == HashesIn(m[..|m| - 1]) * needed
    requires before.processed == start.processed + |m| - 1 - CountIn(m[..|m| - 1], needed)
    ensures var i := |m| - 1; var ins := InsertOne(job, encryption, needed, before, m[i], i, i in faults.inserts);
            && ins.inserted == |m| && ins.seen == HashesIn(m) * needed
            && ins.processed == start.processed + |m| - CountIn(m, needed)
  {
    var i := |m| - 1;
    HashesInStep(m, i);
    assert m[..i + 1] == m;
    MeetAdds(HashesIn(m[..i]), m[i].hash, needed);
  }

  // ------------------------------------------------------------------------ the run

  lemma {:induction false} ManifestIsScanned(c: Primitives, files: seq<ScannedFile>, atHash: map<string, bytes>)
    ensures forall e | e in Manifest(c, files, atHash) ::
              Scanned(files, e.filePath).Some? && e.filePath in atHash && e.hash == c.hash(atHash[e.filePath])
  {
    if files != [] {
      ManifestIsScanned(c, files[..|files| - 1], atHash);
    }
  }

  ghost predicate NothingFails(c: Primitives, job: Job, needed: seq<string>, faults: Faults) {
    && faults == Faults({}, {}, None, None)
    && forall h | h in needed :: Uploadable(c, job, Manifest(c, job.files, job.atHash), h)
  }

  /** A run reports that it was stopped exactly when a stop was seen before the end of either loop,
      and one that was stopped while uploading has recorded nothing. */
  lemma StoppedExactly(c: Primitives, job: Job, st: State, needed: seq<string>, faults: Faults)
    ensures var r, m := ResultOf(c, job, st, needed, faults), Manifest(c, job.files, job.atHash);
      var whileUploading := faults.stopUpload.Some? && faults.stopUpload.value < |needed|;
      && r.status in {Stopped, Completed}
      && (r.status == Stopped <==> whileUploading || (faults.stopInsert.Some? && faults.stopInsert.value < |m|))
      && (whileUploading ==> AfterBackup(c, job, st, needed, faults).entries == st.entries && r.filesDeduped == 0)
  {
  }

  /** Under any failures and any stop: the deduplication count is exact, and no file is counted
      as processed twice. */
  lemma CountersBounded(c: Primitives, job: Job, st: State, server: set<string>, d: ManifestDiff, faults: Faults)
    requires WellKeyed(st.entries, st.nextID)
    requires IsDiff(d, Manifest(c, job.files, job.atHash), server)
    ensures var r, st' := ResultOf(c, job, st, d.needed, faults), AfterBackup(c, job, st, d.needed, faults);
            var added := st'.entries.Keys - st.entries.Keys;
            && r.filesProcessed <= |Manifest(c, job.files, job.atHash)|
            && (!StopsUploading(d.needed, faults) ==>
                  r.filesDeduped == |added| - |HashesOf(st'.entries, added) * AsSet(d.needed)|)
  {
    var m := Manifest(c, job.files, job.atHash);
    var reached := d.needed[..Reached(faults.stopUpload, |d.needed|)];
    var u := UploadAll(c, job, m, st.blobs, reached, faults);
    UploadsCounted(c, job, m, st.blobs, reached, faults);
    forall h | h in AsSet(reached) ensures h in AsSet(d.needed) {}
    CountInGrows(m, u.uploaded, AsSet(d.needed));
    if !StopsUploading(d.needed, faults) {
      var start := Insertions(st.entries, st.nextID, 0, {}, u.processed, 0);
      var part := m[..Reached(faults.stopInsert, |m|)];
      InsertionsTallied(job, u.encryption, AsSet(d.needed), start, part, faults);
      InsertionsBounded(job, u.encryption, AsSet(d.needed), start, part, faults);
      CountInOfPrefix(m, |part|, AsSet(d.needed));
    }
  }

  lemma {:induction false} CountInOfPrefix(m: seq<ManifestEntry>, k: nat, s: set<string>)
    requires k <= |m|
    ensures k - CountIn(m[..k], s) <= |m| - CountIn(m, s)
  {
    if k == |m| {
      assert m[..k] == m;
    } else {
      CountInOfPrefix(m[..|m| - 1], k, s);
      assert m[..|m| - 1][..k] == m[..k];
    }
  }

  /** A run in which nothing fails, for any list that covers the missing hashes: the files
      processed are those of the manifest exactly when the list repeats no hash. */
  lemma CleanRunCounters(c: Primitives, job: Job, st: State, needed: seq<string>, faults: Faults)
    requires Lawful(c) && WellKeyed(st.entries, st.nextID)
    requires AsSet(needed) <= HashesIn(Manifest(c, job.files, job.atHash))
    requires NothingFails(c, job, needed, faults)
    ensures var r, m := ResultOf(c, job, st, needed, faults), Manifest(c, job.files, job.atHash);
            && r.status == Completed
            && r.bytesNew == BytesRead(job, m, needed)
            && r.filesDeduped == |m| - |AsSet(needed)|
            && r.filesProcessed >= |m|
            && (r.filesProcessed == |m| <==> Distinct(needed))
  {
    var m := Manifest(c, job.files, job.atHash);
    assert needed[..|needed|] == needed && m[..|m|] == m;
    CleanUploads(c, job, m, st.blobs, needed, faults);
    SumCountsExact(m, needed);
    var u := UploadAll(c, job, m, st.blobs, needed, faults);
    ManifestIsScanned(c, job.files, job.atHash);
    CleanInsertionCounters(job, u.encryption, AsSet(needed), Insertions(st.entries, st.nextID, 0, {}, u.processed, 0), m, faults);
  }

  lemma CleanInsertionCounters(job: Job, encryption: map<string, EncMeta>, needed: set<string>, start: Insertions,
                               m: seq<ManifestEntry>, faults: Faults)
    requires StartsEmpty(start) && faults.inserts == {} && needed <= HashesIn(m)
    requires forall e | e in m :: Scanned(job.files, e.filePath).Some?
    ensures var ins := InsertAll(job, encryption, needed, start, m, faults);
            ins.processed == start.processed + |m| - CountIn(m, needed) && ins.deduped == |m| - |needed|
  {
    CleanInsertions(job, encryption, needed, start, m, faults);
    InsertionsTallied(job, encryption, needed, start, m, faults);
    assert HashesIn(m) * needed == needed;
  }
}
