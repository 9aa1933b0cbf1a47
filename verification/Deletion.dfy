/** internal/deletion/engine.go: selecting rows, deleting them, and deleting the blobs and
    jobs that nothing refers to any more. */
module Deletion {
  import opened Foundations
  import opened Catalog
  import opened Storage
  import opened Reclamation

  datatype DeleteResult = DeleteResult(entriesDeleted: nat, bytesFreed: int, filesRemoved: nat, jobsRemoved: nat)

  /** The three counters that a dry run and a real run share. */
  ghost predicate Measures(r: DeleteResult, t: Table, ids: set<nat>)
    requires ids <= t.Keys
  {
    && r.entriesDeleted == |ids|
    && r.bytesFreed == TotalSize(t, ids)
    && r.filesRemoved == |Lost(t, t - ids)|
  }

  /** The jobs without entries once ids are gone: what a real run removes. */
  function JobsGone(st: State, ids: set<nat>): set<string> {
    set j | j in st.jobs && WithJob(st.entries - ids, j) == {}
  }

  /** The rows that the estimate's query for one job returns: an empty backup id puts no
      condition on the query. */
  function QueriedForJob(t: Table, j: string): set<nat> {
    if j == "" then t.Keys else WithJob(t, j)
  }

  /** What the dry run counts as emptied jobs. */
  function EstimatedOrphans(t: Table, ids: set<nat>): set<string> {
    set j | j in JobsOf(t, ids) && QueriedForJob(t, j) <= WithJob(t, j) * ids
  }

  function Emptied(t: Table, ids: set<nat>, jobs: seq<string>): set<string> {
    set j | j in jobs && QueriedForJob(t, j) <= WithJob(t, j) * ids
  }

  lemma EmptiedAppend(t: Table, ids: set<nat>, jobs: seq<string>, j: string)
    ensures Emptied(t, ids, jobs + [j]) ==
            Emptied(t, ids, jobs) + if QueriedForJob(t, j) <= WithJob(t, j) * ids then {j} else {}
  {
    assert (jobs + [j])[|jobs|] == j;
    forall g | g in jobs ensures g in jobs + [j] {}
  }

  lemma EmptiedStep(t: Table, ids: set<nat>, jobs: seq<string>, k: nat)
    requires k < |jobs| && forall i, j | 0 <= i < j < |jobs| :: jobs[i] != jobs[j]
    ensures |Emptied(t, ids, jobs[..k + 1])| == |Emptied(t, ids, jobs[..k])|
            + if QueriedForJob(t, jobs[k]) <= WithJob(t, jobs[k]) * ids then 1 else 0
  {
    assert jobs[..k + 1] == jobs[..k] + [jobs[k]];
    EmptiedAppend(t, ids, jobs[..k], jobs[k]);
    assert jobs[k] !in jobs[..k];
  }

  lemma EmptiedIsEstimate(t: Table, ids: set<nat>, jobs: seq<string>)
    requires (set j | j in jobs) == JobsOf(t, ids)
    ensures Emptied(t, ids, jobs) == EstimatedOrphans(t, ids)
  {
    forall j ensures j in jobs <==> j in JobsOf(t, ids) {
      assert j in jobs <==> j in (set g | g in jobs);
    }
  }

  // ---------------------------------------------------- the dry run predicts the real one

  /** Job ids that the estimate counts although no job has them: rows that the server stores for
      an uploaded file carry no job id at all (internal/grpc/data_server.go:207-222). */
  function Phantoms(st: State, ids: set<nat>): set<string> {
    set j | j in EstimatedOrphans(st.entries, ids) && j !in st.jobs
  }

  /** Jobs that the deletion empties and the estimate does not see. */
  function Overlooked(st: State, ids: set<nat>): set<string> {
    set j | j in st.jobs && j in JobsOf(st.entries, ids) && WithJob(st.entries, j) <= ids
            && j !in EstimatedOrphans(st.entries, ids)
  }

  /** The real count and the estimate, for every database: they differ by the jobs that were
      already empty, the phantoms and the overlooked. */
  lemma JobsBalance(st: State, ids: set<nat>)
    requires ids <= st.entries.Keys
    ensures |JobsGone(st, ids)| + |Phantoms(st, ids)|
            == |EstimatedOrphans(st.entries, ids)| + |JobsGone(st, {})| + |Overlooked(st, ids)|
  {
    PartsOfGone(st, ids);
    PartsApart(st, ids);
    CountParts(JobsGone(st, ids), EstimatedOrphans(st.entries, ids), Phantoms(st, ids), JobsGone(st, {}), Overlooked(st, ids));
  }

  lemma PartsOfGone(st: State, ids: set<nat>)
    requires ids <= st.entries.Keys
    ensures JobsGone(st, ids)
      == (EstimatedOrphans(st.entries, ids) - Phantoms(st, ids)) + JobsGone(st, {}) + Overlooked(st, ids)
  {
    forall j ensures j in JobsGone(st, ids) <==>
      j in (EstimatedOrphans(st.entries, ids) - Phantoms(st, ids)) + JobsGone(st, {}) + Overlooked(st, ids)
    {
      GoneJob(st, ids, j);
      EstimatedJob(st.entries, ids, j);
      EmptyJob(st, j);
    }
  }

  lemma PartsApart(st: State, ids: set<nat>)
    requires ids <= st.entries.Keys
    ensures EstimatedOrphans(st.entries, ids) + Overlooked(st, ids) !! JobsGone(st, {})
  {
    forall j | j in EstimatedOrphans(st.entries, ids) + Overlooked(st, ids) ensures j !in JobsGone(st, {}) {
      EmptyJob(st, j);
      var id :| id in ids && id in st.entries && st.entries[id].backupID == j;
      assert id in WithJob(st.entries, j);
    }
  }

  lemma CountParts(gone: set<string>, orphans: set<string>, phantoms: set<string>, empty: set<string>, overlooked: set<string>)
    requires phantoms <= orphans && orphans !! overlooked && orphans + overlooked !! empty
    requires gone == (orphans - phantoms) + empty + overlooked
    ensures |gone| + |phantoms| == |orphans| + |empty| + |overlooked|
  {
    assert |orphans - phantoms| == |orphans| - |phantoms|;
    assert (orphans - phantoms) !! empty && ((orphans - phantoms) + empty) !! overlooked;
  }

  lemma EmptyJob(st: State, j: string)
    ensures j in JobsGone(st, {}) <==> j in st.jobs && WithJob(st.entries, j) == {}
  {
    assert st.entries - {} == st.entries;
  }

  /** A job goes when it was empty, or when its last rows do. */
  lemma GoneJob(st: State, ids: set<nat>, j: string)
    requires ids <= st.entries.Keys
    ensures j in JobsGone(st, ids) <==>
            j in st.jobs && (WithJob(st.entries, j) == {} || (j in JobsOf(st.entries, ids) && WithJob(st.entries, j) <= ids))
  {
    var t := st.entries;
    SurvivorsOfJob(t, ids, j);
    if j in JobsGone(st, ids) {
      forall id | id in WithJob(t, j) ensures id in ids {
        assert id in ids || id in WithJob(t, j) - ids;
      }
    }
    if WithJob(t, j) != {} && WithJob(t, j) <= ids {
      var id :| id in WithJob(t, j);
      assert id in ids && t[id].backupID == j;
    }
  }

  lemma EstimatedJob(t: Table, ids: set<nat>, j: string)
    ensures j in EstimatedOrphans(t, ids) ==> j in JobsOf(t, ids) && WithJob(t, j) <= ids
  {
    if j in EstimatedOrphans(t, ids) {
      forall id | id in WithJob(t, j) ensures id in ids {
        assert id in QueriedForJob(t, j);
      }
    }
  }

  /** Only the job with the empty id can be overlooked: the query for it puts no condition on
      the rows. */
  lemma OnlyNamelessOverlooked(st: State, ids: set<nat>, j: string)
    requires j in Overlooked(st, ids)
    ensures j == ""
  {
  }

  /** Exactly when the estimate and the jobs already empty add up to what a real run removes. */
  lemma DryRunPredictsJobs(st: State, ids: set<nat>)
    requires ids <= st.entries.Keys
    ensures |JobsGone(st, ids)| == |EstimatedOrphans(st.entries, ids)| + |JobsGone(st, {})| <==>
            |Phantoms(st, ids)| == |Overlooked(st, ids)|
    ensures (forall id | id in ids :: st.entries[id].backupID in st.jobs && st.entries[id].backupID != "") ==>
            |JobsGone(st, ids)| == |EstimatedOrphans(st.entries, ids)| + |JobsGone(st, {})|
  {
    JobsBalance(st, ids);
    if forall id | id in ids :: st.entries[id].backupID in st.jobs && st.entries[id].backupID != "" {
      forall j | j in EstimatedOrphans(st.entries, ids) ensures j in st.jobs {
        var id :| id in ids && id in st.entries && st.entries[id].backupID == j;
      }
      assert Phantoms(st, ids) == {};
      forall j ensures j !in Overlooked(st, ids) {
        assert j in JobsOf(st.entries, ids) ==> exists id :: id in ids && id in st.entries && st.entries[id].backupID == j;
      }
      assert Overlooked(st, ids) == {};
    }
  }

  /** On a database of uploaded rows only, deleting everything is estimated to remove one job
      more than it does. */
  lemma UploadedRowsOvercount(st: State)
    requires st.entries.Keys != {} && "" !in st.jobs && forall id | id in st.entries :: st.entries[id].backupID == ""
    ensures var ids := st.entries.Keys;
      |EstimatedOrphans(st.entries, ids)| == 1 && JobsGone(st, ids) == JobsGone(st, {})
  {
    var t, ids := st.entries, st.entries.Keys;
    var id :| id in ids;
    assert WithJob(t, "") == t.Keys;
    assert t[id].backupID in JobsOf(t, ids);
    assert EstimatedOrphans(t, ids) == {""};
    forall j ensures j in JobsGone(st, ids) <==> j in JobsGone(st, {}) {
      GoneJob(st, ids, j);
      EmptyJob(st, j);
    }
  }

  lemma SurvivorsOfJob(t: Table, ids: set<nat>, j: string)
    ensures WithJob(t - ids, j) == WithJob(t, j) - ids
  {
  }

  /** Counting the selected rows of a job against all its rows compares the sets. */
  lemma CountsCompareSets(all: set<nat>, part: set<nat>)
    requires part <= all
    ensures |part| >= |all| <==> all <= part
  {
    if |part| >= |all| {
      assert |all - part| == |all| - |part|;
      assert all - part == {};
    }
    if all <= part {
      assert all == part;
    }
  }

  /** The run has done the first `writes` writes of its plan. */
  ghost predicate Performed(st: State, st': State, ids: set<nat>, order: seq<string>, writes: nat) {
    && (writes > 0 ==> (set h | h in order) == HashesOf(st.entries, ids))
    && writes <= |DeletePlan(ids, order)|
    && st' == Run(st, DeletePlan(ids, order)[..writes])
  }

  ghost predicate Finished(st: State, st': State, ids: set<nat>, r: DeleteResult) {
    && ids <= st.entries.Keys
    && st' == AfterDelete(st, ids)
    && Measures(r, st.entries, ids)
    && r.jobsRemoved == |JobsGone(st, ids)|
  }

  ghost predicate Estimated(st: State, ids: set<nat>, r: DeleteResult, allAnswered: bool) {
    && ids <= st.entries.Keys
    && Measures(r, st.entries, ids)
    && (allAnswered ==> r.jobsRemoved == |EstimatedOrphans(st.entries, ids)|)
  }

  /** The entry points never build the filter on which the query and the deletion differ. */
  ghost predicate Deletable(f: Filter) {
    NoConditions(f) ==> f.allBackups
  }

  /** The rows and the first k blobs of the plan are dealt with; `files` blobs had to go. */
  ghost predicate Collecting(st: State, cur: State, ids: set<nat>, order: seq<string>, k: nat, files: nat) {
    && k <= |order| && cur == Run(st, DeletePlan(ids, order)[..k + 1]) && cur.entries == st.entries - ids
    && files == |Unreferenced(st.entries - ids, order[..k])|
  }

  lemma CollectingStarts(st: State, ids: set<nat>, order: seq<string>)
    ensures Collecting(st, st.(entries := st.entries - ids), ids, order, 0, 0)
  {
    PlanStart(st, ids, order);
    assert Unreferenced(st.entries - ids, order[..0]) == {};
  }

  lemma CollectingStep(st: State, cur: State, ids: set<nat>, order: seq<string>, k: nat, files: nat)
    requires Collecting(st, cur, ids, order, k, files) && k < |order|
    requires forall i, j | 0 <= i < j < |order| :: order[i] != order[j]
    ensures Collecting(st, Apply(cur, Collect(order[k])), ids, order, k + 1,
                       files + if WithHash(cur.entries, order[k]) == {} then 1 else 0)
  {
    UnreferencedStep(st.entries - ids, order, k);
    PlanStep(st, ids, order, k);
  }

  lemma CollectingPerforms(st: State, cur: State, ids: set<nat>, order: seq<string>, k: nat, files: nat)
    requires Collecting(st, cur, ids, order, k, files) && (set h | h in order) == HashesOf(st.entries, ids)
    ensures Performed(st, cur, ids, order, k + 1)
  {
  }

  method AnyOrder(s: set<string>) returns (order: seq<string>)
    ensures (set h | h in order) == s
    ensures forall i, j | 0 <= i < j < |order| :: order[i] != order[j]
  {
    order := [];
    var todo := s;
    while todo != {}
      invariant todo <= s && forall h :: h in order <==> h in s && h !in todo
      invariant forall i, j | 0 <= i < j < |order| :: order[i] != order[j]
      decreases todo
    {
      var h :| h in todo;
      order, todo := order + [h], todo - {h};
    }
  }

  class DeletionEngine {
    const repo: Repository
    const store: CAS

    constructor (repo: Repository, store: CAS)
      ensures this.repo == repo && this.store == store
    {
      this.repo, this.store := repo, store;
    }

    /** Nothing outside fails the run: both stores are reliable, and the blobs have proper names. */
    ghost predicate Works(t: Table, ids: set<nat>, dryRun: bool) {
      repo.reliable && (dryRun || (store.reliable && forall id | id in ids && id in t :: store.wellFormed(t[id].hash)))
    }

    ghost function Chosen(f: Filter): set<nat>
      reads repo
    {
      Selected(repo.under, repo.entries, f)
    }

    /** `countHashInEntries` */
    static method CountHash(rows: seq<BackupEntry>, h: string, ghost t: Table, ghost ids: set<nat>)
      returns (count: nat)
      requires Lists(rows, t, ids)
      ensures count == |WithHash(t, h) * ids|
    {
      count := 0;
      assert IDs(rows[..0]) == {};
      for i := 0 to |rows|
        invariant count == |WithHash(t, h) * IDs(rows[..i])|
      {
        PrefixIDs(rows, t, ids, i);
        HashedAmongAdds(t, h, IDs(rows[..i]), rows[i].id);
        if rows[i].hash == h {
          count := count + 1;
        }
      }
      PrefixIDs(rows, t, ids, |rows|);
    }

    static method CountJob(rows: seq<BackupEntry>, j: string, ghost t: Table, ghost ids: set<nat>)
      returns (count: nat)
      requires Lists(rows, t, ids)
      ensures count == |WithJob(t, j) * ids|
    {
      count := 0;
      assert IDs(rows[..0]) == {};
      for i := 0 to |rows|
        invariant count == |WithJob(t, j) * IDs(rows[..i])|
      {
        PrefixIDs(rows, t, ids, i);
        OfJobAmongAdds(t, j, IDs(rows[..i]), rows[i].id);
        if rows[i].backupID == j {
          count := count + 1;
        }
      }
      PrefixIDs(rows, t, ids, |rows|);
    }

    /** The first loop of executeDelete: the bytes and the distinct hashes of the rows. */
    static method Tally(rows: seq<BackupEntry>, ghost t: Table, ghost ids: set<nat>)
      returns (bytesFreed: int, hashes: set<string>)
      requires Lists(rows, t, ids)
      ensures |rows| == |ids| && bytesFreed == TotalSize(t, ids) && hashes == HashesOf(t, ids)
    {
      bytesFreed, hashes := 0, {};
      ghost var seen: set<nat> := {};
      assert IDs(rows[..0]) == {};
      for i := 0 to |rows|
        invariant seen == IDs(rows[..i]) && seen <= ids
        invariant bytesFreed == TotalSize(t, seen) && hashes == HashesOf(t, seen)
      {
        PrefixIDs(rows, t, ids, i);
        TotalSizeAdds(t, seen, rows[i].id);
        HashesOfAdds(t, seen, rows[i].id);
        bytesFreed := bytesFreed + rows[i].fileSize;
        hashes := hashes + {rows[i].hash};
        seen := seen + {rows[i].id};
      }
      PrefixIDs(rows, t, ids, |rows|);
    }

    /** The first loop of estimateOrphanJobs. */
    static method JobIDs(rows: seq<BackupEntry>, ghost t: Table, ghost ids: set<nat>) returns (jobIDs: set<string>)
      requires Lists(rows, t, ids)
      ensures jobIDs == JobsOf(t, ids)
    {
      jobIDs := {};
      ghost var seen: set<nat> := {};
      assert IDs(rows[..0]) == {};
      for i := 0 to |rows|
        invariant seen == IDs(rows[..i]) && jobIDs == JobsOf(t, seen)
      {
        PrefixIDs(rows, t, ids, i);
        JobsOfAdds(t, seen, rows[i].id);
        jobIDs := jobIDs + {rows[i].backupID};
        seen := seen + {rows[i].id};
      }
      PrefixIDs(rows, t, ids, |rows|);
    }

    /** The body of the dry-run loop. */
    method EstimateHash(rows: seq<BackupEntry>, h: string, ghost ids: set<nat>) returns (r: Result<bool, Error>)
      requires repo.Valid() && Lists(rows, repo.entries, ids)
      ensures r.Ok? ==> (r.value <==> WithHash(repo.entries - ids, h) == {})
      ensures repo.reliable ==> r.Ok?
    {
      var refs := repo.CountHashReferences(h);
      if refs.Err? {
        return Err(refs.error);
      }
      var selected := CountHash(rows, h, repo.entries, ids);
      SurvivorsOfHash(repo.entries, ids, h);
      return Ok(refs.value as int - selected as int <= 0);
    }

    /** The dry-run loop: a hash counts when no other row refers to it. */
    method EstimateFiles(rows: seq<BackupEntry>, hashes: set<string>, ghost ids: set<nat>)
      returns (r: Result<nat, Error>)
      requires repo.Valid() && Lists(rows, repo.entries, ids) && hashes == HashesOf(repo.entries, ids)
      ensures r.Ok? ==> r.value == |Lost(repo.entries, repo.entries - ids)|
      ensures repo.reliable ==> r.Ok?
    {
      ghost var t := repo.entries;
      var order := AnyOrder(hashes);
      var files := 0;
      assert Unreferenced(t - ids, order[..0]) == {};
      for k := 0 to |order|
        invariant files == |Unreferenced(t - ids, order[..k])|
      {
        UnreferencedStep(t - ids, order, k);
        var last := EstimateHash(rows, order[k], ids);
        if last.Err? {
          return Err(last.error);
        }
        if last.value {
          files := files + 1;
        }
      }
      assert order[..|order|] == order;
      UnreferencedIsLost(t, ids, order);
      return Ok(files);
    }

    static lemma SurvivorsOfHash(t: Table, ids: set<nat>, h: string)
      ensures |WithHash(t, h)| - |WithHash(t, h) * ids| <= 0 <==> WithHash(t - ids, h) == {}
    {
      var all := WithHash(t, h);
      assert WithHash(t - ids, h) == all - ids;
      assert all == (all - ids) + (all * ids);
    }

    /** `estimateOrphanJobs`: a job whose query fails is not counted. */
    method EstimateOrphanJobs(rows: seq<BackupEntry>, ghost ids: set<nat>)
      returns (orphans: nat, ghost allAnswered: bool)
      requires repo.Valid() && Lists(rows, repo.entries, ids)
      ensures orphans <= |EstimatedOrphans(repo.entries, ids)|
      ensures allAnswered ==> orphans == |EstimatedOrphans(repo.entries, ids)|
      ensures repo.reliable ==> allAnswered
    {
      ghost var t := repo.entries;
      var jobIDs := JobIDs(rows, t, ids);
      var order := AnyOrder(jobIDs);
      orphans, allAnswered := 0, true;
      assert Emptied(t, ids, order[..0]) == {};
      for k := 0 to |order|
        invariant orphans <= |Emptied(t, ids, order[..k])|
        invariant allAnswered ==> orphans == |Emptied(t, ids, order[..k])|
        invariant repo.reliable ==> allAnswered
      {
        EmptiedStep(t, ids, order, k);
        var all := repo.QueryEntries(Filter(order[k], "", "", false));
        if all.Err? {
          allAnswered := false;
        } else {
          var selected := CountJob(rows, order[k], t, ids);
          WholeJobSelected(repo.under, t, ids, order[k], all.value);
          if selected >= |all.value| {
            orphans := orphans + 1;
          }
        }
      }
      assert order[..|order|] == order;
      EmptiedIsEstimate(t, ids, order);
    }

    static lemma WholeJobSelected(under: (string, string) -> bool, t: Table, ids: set<nat>, j: string,
                                  all: seq<BackupEntry>)
      requires Lists(all, t, Selected(under, t, Filter(j, "", "", false)))
      ensures |WithJob(t, j) * ids| >= |all| <==> QueriedForJob(t, j) <= WithJob(t, j) * ids
    {
      assert Selected(under, t, Filter(j, "", "", false)) == QueriedForJob(t, j);
      PrefixIDs(all, t, QueriedForJob(t, j), |all|);
      assert all[..|all|] == all;
      CountsCompareSets(QueriedForJob(t, j), WithJob(t, j) * ids);
    }

    /** `executeDelete`. A real run performs the first `writes` writes of its plan, all of them
        when it reports success; `allAnswered` says that no query of the job estimate failed. */
    method ExecuteDelete(filter: Filter, dryRun: bool)
      returns (r: Result<DeleteResult, Error>, ghost order: seq<string>, ghost writes: nat, ghost allAnswered: bool)
      requires repo.Valid() && Deletable(filter)
      modifies repo`entries, repo`jobs, store`blobs
      ensures repo.Valid()
      ensures Performed(old(View(repo, store)), View(repo, store), old(Chosen(filter)), order, writes)
      ensures dryRun ==> writes == 0 && View(repo, store) == old(View(repo, store))
      ensures r.Ok? && !dryRun ==> Finished(old(View(repo, store)), View(repo, store), old(Chosen(filter)), r.value)
      ensures r.Ok? && dryRun ==> Estimated(View(repo, store), Chosen(filter), r.value, allAnswered)
      ensures Works(old(repo.entries), old(Chosen(filter)), dryRun) ==> r.Ok? && allAnswered
    {
      ghost var st, ids := View(repo, store), Chosen(filter);
      allAnswered, writes, order := true, 0, [];
      assert DeletePlan(ids, order)[..0] == [];
      var rows := repo.QueryEntries(filter);
      if rows.Err? {
        return Err(rows.error), order, writes, allAnswered;
      }
      var bytesFreed, hashes := Tally(rows.value, st.entries, ids);
      if dryRun {
        var files := EstimateFiles(rows.value, hashes, ids);
        if files.Err? {
          return Err(files.error), order, writes, allAnswered;
        }
        var orphans;
        orphans, allAnswered := EstimateOrphanJobs(rows.value, ids);
        return Ok(DeleteResult(|rows.value|, bytesFreed, files.value, orphans)), order, writes, allAnswered;
      }
      r, order, writes := DeleteRows(filter, |rows.value|, bytesFreed, hashes);
    }

    /** Steps 2 to 4: the rows, then the blobs nothing refers to, then the empty jobs. */
    method DeleteRows(filter: Filter, selected: nat, bytesFreed: int, hashes: set<string>)
      returns (r: Result<DeleteResult, Error>, order: seq<string>, ghost writes: nat)
      requires repo.Valid() && Deletable(filter)
      requires selected == |Chosen(filter)| && bytesFreed == TotalSize(repo.entries, Chosen(filter))
      requires hashes == HashesOf(repo.entries, Chosen(filter))
      modifies repo`entries, repo`jobs, store`blobs
      ensures repo.Valid()
      ensures Performed(old(View(repo, store)), View(repo, store), old(Chosen(filter)), order, writes)
      ensures r.Ok? ==> Finished(old(View(repo, store)), View(repo, store), old(Chosen(filter)), r.value)
      ensures Works(old(repo.entries), old(Chosen(filter)), false) ==> r.Ok?
    {
      ghost var st, ids := View(repo, store), Chosen(filter);
      order := AnyOrder(hashes);
      PlanStart(st, ids, order);
      writes := 0;
      var deleted := repo.DeleteEntries(filter);
      if deleted.Err? {
        return Err(deleted.error), order, writes;
      }
      r, writes := Reclaim(order, selected, bytesFreed, st, ids);
    }

    /** Steps 3 and 4, once the rows are gone. */
    method Reclaim(order: seq<string>, selected: nat, bytesFreed: int, ghost st: State, ghost ids: set<nat>)
      returns (r: Result<DeleteResult, Error>, ghost writes: nat)
      requires ids <= st.entries.Keys && (set h | h in order) == HashesOf(st.entries, ids)
      requires forall i, j | 0 <= i < j < |order| :: order[i] != order[j]
      requires View(repo, store) == st.(entries := st.entries - ids)
      requires selected == |ids| && bytesFreed == TotalSize(st.entries, ids)
      modifies repo`jobs, store`blobs
      ensures Performed(st, View(repo, store), ids, order, writes)
      ensures r.Ok? ==> Finished(st, View(repo, store), ids, r.value)
      ensures Works(st.entries, ids, false) ==> r.Ok?
    {
      var files;
      files, writes := CollectBlobs(order, st, ids);
      if files.Err? {
        return Err(files.error), writes;
      }
      r, writes := RemoveOrphanJobs(order, DeleteResult(selected, bytesFreed, files.value, 0), st, ids);
    }

    /** Step 4. */
    method RemoveOrphanJobs(ghost order: seq<string>, counted: DeleteResult, ghost st: State, ghost ids: set<nat>)
      returns (r: Result<DeleteResult, Error>, ghost writes: nat)
      requires ids <= st.entries.Keys && (set h | h in order) == HashesOf(st.entries, ids)
      requires View(repo, store) == Run(st, DeletePlan(ids, order)[..|order| + 1])
      requires Measures(counted, st.entries, ids)
      modifies repo`jobs
      ensures Performed(st, View(repo, store), ids, order, writes)
      ensures r.Ok? ==> Finished(st, View(repo, store), ids, r.value)
      ensures repo.reliable ==> r.Ok?
    {
      AllCollected(st, ids, order);
      var jobs := repo.DeleteOrphanJobs();
      if jobs.Err? {
        return Err(jobs.error), |order| + 1;
      }
      WholePlan(st, ids, order);
      SweptJobs(st, ids);
      return Ok(counted.(jobsRemoved := jobs.value)), |order| + 2;
    }

    static lemma WholePlan(st: State, ids: set<nat>, order: seq<string>)
      requires (set h | h in order) == HashesOf(st.entries, ids)
      ensures Run(st, DeletePlan(ids, order)[..|order| + 2]) == AfterDelete(st, ids)
    {
      assert DeletePlan(ids, order)[..|order| + 2] == DeletePlan(ids, order);
      DeletePlanRuns(st, ids, order);
    }

    static lemma SweptJobs(st: State, ids: set<nat>)
      ensures |JobsGone(st, ids)| == |st.jobs| - |AfterDelete(st, ids).jobs|
    {
      var kept := AfterDelete(st, ids).jobs;
      assert JobsGone(st, ids) == st.jobs - kept;
      assert |st.jobs - kept| == |st.jobs| - |kept|;
    }

    /** Step 3, in the order given. */
    method CollectBlobs(order: seq<string>, ghost st: State, ghost ids: set<nat>)
      returns (r: Result<nat, Error>, ghost writes: nat)
      requires (set h | h in order) == HashesOf(st.entries, ids)
      requires forall i, j | 0 <= i < j < |order| :: order[i] != order[j]
      requires View(repo, store) == st.(entries := st.entries - ids)
      modifies store`blobs
      ensures Performed(st, View(repo, store), ids, order, writes)
      ensures r.Ok? ==> writes == |order| + 1 && r.value == |Lost(st.entries, st.entries - ids)|
      ensures Works(st.entries, ids, false) ==> r.Ok?
    {
      var files := 0;
      writes := 1;
      CollectingStarts(st, ids, order);
      for k := 0 to |order|
        invariant writes == k + 1 && Collecting(st, View(repo, store), ids, order, k, files)
      {
        CollectingStep(st, View(repo, store), ids, order, k, files);
        CollectingPerforms(st, View(repo, store), ids, order, k, files);
        assert order[k] in (set h | h in order) && order[k] in HashesOf(st.entries, ids);
        var collected := CollectBlob(order[k]);
        if collected.Err? {
          return Err(collected.error), writes;
        }
        if collected.value {
          files := files + 1;
        }
        writes := writes + 1;
      }
      CollectingPerforms(st, View(repo, store), ids, order, |order|, files);
      assert order[..|order|] == order;
      UnreferencedIsLost(st.entries, ids, order);
      return Ok(files), writes;
    }

    /** One iteration of step 3: a blob that is already missing counts as removed. */
    method CollectBlob(h: string) returns (r: Result<bool, Error>)
      modifies store`blobs
      ensures r.Ok? ==> (r.value <==> WithHash(repo.entries, h) == {})
      ensures repo.reliable && store.reliable && store.wellFormed(h) ==> r.Ok?
      ensures View(repo, store) == if r.Ok? then Apply(old(View(repo, store)), Collect(h)) else old(View(repo, store))
    {
      var refs := repo.CountHashReferences(h);
      if refs.Err? {
        return Err(refs.error);
      }
      if refs.value > 0 {
        return Ok(false);
      }
      var gone := store.Delete(h);
      if gone.Err? && gone.error != NotFound {
        return Err(gone.error);
      }
      return Ok(true);
    }

    // -------------------------------------------------------------- the entry points

    method DeleteByBackupID(backupID: string, dryRun: bool)
      returns (r: Result<DeleteResult, Error>, ghost ids: set<nat>)
      requires repo.Valid()
      modifies repo`entries, repo`jobs, store`blobs
      ensures repo.Valid() && ids == WithJob(old(repo.entries), backupID)
      ensures backupID == "" ==> r == Err(BadArgument)
      ensures backupID != "" && Works(old(repo.entries), ids, dryRun) ==> r.Ok?
      ensures DeletesExactly(old(View(repo, store)), View(repo, store), ids, r, dryRun)
    {
      ids := WithJob(repo.entries, backupID);
      NothingDone(View(repo, store), ids, dryRun);
      if backupID == "" {
        return Err(BadArgument), ids;
      }
      ghost var st, order, writes, answered := View(repo, store), [], 0, true;
      assert Chosen(Filter(backupID, "", "", false)) == ids;
      r, order, writes, answered := ExecuteDelete(Filter(backupID, "", "", false), dryRun);
      PlanDeletesExactly(st, View(repo, store), ids, r, dryRun, order, writes);
    }

    method DeleteByFile(filePath: string, backupID: string, allBackups: bool, dryRun: bool)
      returns (r: Result<DeleteResult, Error>, ghost ids: set<nat>)
      requires repo.Valid()
      modifies repo`entries, repo`jobs, store`blobs
      ensures repo.Valid()
      ensures ids == if allBackups then WithPath(old(repo.entries), filePath)
                     else WithPath(old(repo.entries), filePath) * WithJob(old(repo.entries), backupID)
      ensures filePath == "" || (!allBackups && backupID == "") ==> r == Err(BadArgument)
      ensures filePath != "" && (allBackups || backupID != "") && Works(old(repo.entries), ids, dryRun) ==> r.Ok?
      ensures DeletesExactly(old(View(repo, store)), View(repo, store), ids, r, dryRun)
    {
      ids := if allBackups then WithPath(repo.entries, filePath)
             else WithPath(repo.entries, filePath) * WithJob(repo.entries, backupID);
      NothingDone(View(repo, store), ids, dryRun);
      if filePath == "" || (!allBackups && backupID == "") {
        return Err(BadArgument), ids;
      }
      var f := Filter(if allBackups then "" else backupID, "", filePath, allBackups);
      ghost var st, order, writes, answered := View(repo, store), [], 0, true;
      assert Chosen(f) == ids;
      r, order, writes, answered := ExecuteDelete(f, dryRun);
      PlanDeletesExactly(st, View(repo, store), ids, r, dryRun, order, writes);
    }

    method DeleteByFolder(folderPath: string, backupID: string, allBackups: bool, dryRun: bool)
      returns (r: Result<DeleteResult, Error>, ghost ids: set<nat>)
      requires repo.Valid()
      modifies repo`entries, repo`jobs, store`blobs
      ensures repo.Valid()
      ensures forall id :: id in ids <==>
                id in old(repo.entries) && repo.under(folderPath, old(repo.entries)[id].filePath)
                && (allBackups || old(repo.entries)[id].backupID == backupID)
      ensures folderPath == "" || (!allBackups && backupID == "") ==> r == Err(BadArgument)
      ensures folderPath != "" && (allBackups || backupID != "") && Works(old(repo.entries), ids, dryRun) ==> r.Ok?
      ensures DeletesExactly(old(View(repo, store)), View(repo, store), ids, r, dryRun)
    {
      ids := set id | id in repo.entries && repo.under(folderPath, repo.entries[id].filePath)
                      && (allBackups || repo.entries[id].backupID == backupID);
      NothingDone(View(repo, store), ids, dryRun);
      if folderPath == "" || (!allBackups && backupID == "") {
        return Err(BadArgument), ids;
      }
      var f := Filter(if allBackups then "" else backupID, folderPath, "", allBackups);
      ghost var st, order, writes, answered := View(repo, store), [], 0, true;
      assert Chosen(f) == ids;
      r, order, writes, answered := ExecuteDelete(f, dryRun);
      PlanDeletesExactly(st, View(repo, store), ids, r, dryRun, order, writes);
    }

    method DeleteAll(dryRun: bool) returns (r: Result<DeleteResult, Error>, ghost ids: set<nat>)
      requires repo.Valid()
      modifies repo`entries, repo`jobs, store`blobs
      ensures repo.Valid() && ids == old(repo.entries).Keys
      ensures Works(old(repo.entries), ids, dryRun) ==> r.Ok?
      ensures DeletesExactly(old(View(repo, store)), View(repo, store), ids, r, dryRun)
    {
      ids := repo.entries.Keys;
      ghost var st, order, writes, answered := View(repo, store), [], 0, true;
      assert Chosen(Filter("", "", "", true)) == ids;
      r, order, writes, answered := ExecuteDelete(Filter("", "", "", true), dryRun);
      PlanDeletesExactly(st, View(repo, store), ids, r, dryRun, order, writes);
    }
  }

  /** What a caller of an entry point may rely on, whether or not the run got to its end. */
  ghost predicate DeletesExactly(st: State, st': State, ids: set<nat>, r: Result<DeleteResult, Error>, dryRun: bool) {
    && ids <= st.entries.Keys
    && Preserves(st, st')
    && (dryRun ==> st' == st)
    && (r.Ok? && !dryRun ==> LeavesExactly(st, st', ids) && r.value.jobsRemoved == |JobsGone(st, ids)|)
    && (r.Ok? ==> Measures(r.value, st.entries, ids))
  }

  /** The rows are gone and no others, each blob that lost its last reference is gone and no other,
      and of the jobs those with rows are left. */
  ghost predicate LeavesExactly(st: State, st': State, ids: set<nat>) {
    && st'.nextID == st.nextID
    && (forall id | id in st.entries ::
          (id !in st'.entries <==> id in ids) && (id in st'.entries ==> st'.entries[id] == st.entries[id]))
    && st'.entries.Keys <= st.entries.Keys && st'.blobs.Keys <= st.blobs.Keys
    && BlobsFollowRows(st, st')
    && (forall j :: j in st'.jobs <==> j in st.jobs && exists id :: id in st'.entries && st'.entries[id].backupID == j)
  }

  lemma DeletionLeaves(st: State, ids: set<nat>)
    ensures LeavesExactly(st, AfterDelete(st, ids), ids)
  {
    var st' := AfterDelete(st, ids);
    ReclaimedFollowsRows(st, st');
    forall j ensures j in st'.jobs <==> j in st.jobs && exists id :: id in st'.entries && st'.entries[id].backupID == j {
      if id :| id in st'.entries && st'.entries[id].backupID == j {
        assert id in WithJob(st'.entries, j);
      }
      if j in st'.jobs {
        var id :| id in WithJob(st'.entries, j);
      }
    }
  }

  lemma NothingDone(st: State, ids: set<nat>, dryRun: bool)
    requires ids <= st.entries.Keys
    ensures DeletesExactly(st, st, ids, Err(BadArgument), dryRun)
  {
  }

  lemma PlanDeletesExactly(st: State, st': State, ids: set<nat>, r: Result<DeleteResult, Error>, dryRun: bool,
                           order: seq<string>, writes: nat)
    requires ids <= st.entries.Keys && Performed(st, st', ids, order, writes)
    requires dryRun ==> st' == st && (r.Ok? ==> Measures(r.value, st.entries, ids))
    requires r.Ok? && !dryRun ==> Finished(st, st', ids, r.value)
    ensures DeletesExactly(st, st', ids, r, dryRun)
  {
    EveryPrefixPreserves(st, DeletePlan(ids, order), writes);
    if r.Ok? && !dryRun {
      DeletionLeaves(st, ids);
    }
  }
}
