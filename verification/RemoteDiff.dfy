/** internal/grpc/data_server.go: the server's answer to a manifest, which lists a missing hash
    once for every manifest entry that has it, and what that does to the counters of a run. */
module RemoteDiff {
  import opened Foundations
  import opened Catalog
  import opened Storage
  import opened Encryption
  import opened Backup
  import opened Accounting

  /** Entry i is asked for: its blob is missing, or the check for it failed. */
  predicate Asked(m: seq<ManifestEntry>, server: set<string>, failed: set<nat>, i: nat)
    requires i < |m|
  {
    i in failed || m[i].hash !in server
  }

  function RemoteNeeded(m: seq<ManifestEntry>, server: set<string>, failed: set<nat>): seq<string> {
    if m == [] then []
    else
      var i := |m| - 1;
      RemoteNeeded(m[..i], server, failed) + if Asked(m, server, failed, i) then [m[i].hash] else []
  }

  /** `DataServer.ExchangeManifest` */
  method ExchangeManifest(store: CAS, m: seq<ManifestEntry>) returns (d: ManifestDiff, ghost failed: set<nat>)
    ensures d.needed == RemoteNeeded(m, store.blobs.Keys, failed)
    ensures d.dedupCount + |d.needed| == d.totalFiles == |m|
  {
    var needed: seq<string>, dedupCount: nat := [], 0;
    failed := {};
    for i := 0 to |m|
      invariant forall k | k in failed :: k < i
      invariant needed == RemoteNeeded(m[..i], store.blobs.Keys, failed)
      invariant dedupCount + |needed| == i
    {
      assert m[..i + 1][..i] == m[..i];
      var present := store.Exists(m[i].hash);
      if present.Err? {
        LaterFailure(m[..i], store.blobs.Keys, failed, i);
        failed := failed + {i};
        needed := needed + [m[i].hash];
      } else if present.value {
        dedupCount := dedupCount + 1;
      } else {
        needed := needed + [m[i].hash];
      }
    }
    assert m[..|m|] == m;
    d := ManifestDiff(needed, dedupCount, |m|);
  }

  lemma {:induction false} LaterFailure(m: seq<ManifestEntry>, server: set<string>, failed: set<nat>, later: nat)
    requires |m| <= later
    ensures RemoteNeeded(m, server, failed + {later}) == RemoteNeeded(m, server, failed)
  {
    if m != [] {
      LaterFailure(m[..|m| - 1], server, failed, later);
    }
  }

  lemma {:induction false} NeededAsked(m: seq<ManifestEntry>, server: set<string>, failed: set<nat>, h: string)
    ensures h in RemoteNeeded(m, server, failed) <==>
            exists i :: 0 <= i < |m| && m[i].hash == h && Asked(m, server, failed, i)
  {
    if m != [] {
      var n := |m| - 1;
      NeededAsked(m[..n], server, failed, h);
      forall i: nat | i < n ensures Asked(m, server, failed, i) <==> Asked(m[..n], server, failed, i) {}
      if i :| 0 <= i < n && m[..n][i].hash == h && Asked(m[..n], server, failed, i) {
        assert m[i].hash == h && Asked(m, server, failed, i);
      }
      if i :| 0 <= i < |m| && m[i].hash == h && Asked(m, server, failed, i) {
        assert i < n ==> m[..n][i].hash == h && Asked(m[..n], server, failed, i);
      }
    }
  }

  /** No two entries that are asked for have the same hash. */
  ghost predicate NoSharedContent(m: seq<ManifestEntry>, server: set<string>, failed: set<nat>) {
    forall i, j | 0 <= i < j < |m| && Asked(m, server, failed, i) && Asked(m, server, failed, j) :: m[i].hash != m[j].hash
  }

  lemma {:induction false} DistinctExactly(m: seq<ManifestEntry>, server: set<string>, failed: set<nat>)
    ensures Distinct(RemoteNeeded(m, server, failed)) <==> NoSharedContent(m, server, failed)
  {
    if m != [] {
      var n := |m| - 1;
      var before := RemoteNeeded(m[..n], server, failed);
      DistinctExactly(m[..n], server, failed);
      NeededAsked(m[..n], server, failed, m[n].hash);
      SharedWithLast(m, server, failed);
      if Asked(m, server, failed, n) {
        DistinctAppend(before, m[n].hash);
        assert RemoteNeeded(m, server, failed) == before + [m[n].hash];
      } else {
        assert RemoteNeeded(m, server, failed) == before;
      }
    }
  }

  lemma DistinctAppend(hs: seq<string>, h: string)
    ensures Distinct(hs + [h]) <==> Distinct(hs) && h !in hs
  {
    if Distinct(hs + [h]) {
      forall i | 0 <= i < |hs| ensures hs[i] != h {
        assert (hs + [h])[i] != (hs + [h])[|hs|];
      }
      forall i, j | 0 <= i < j < |hs| ensures hs[i] != hs[j] {
        assert (hs + [h])[i] != (hs + [h])[j];
      }
    }
    if Distinct(hs) && h !in hs {
      forall i, j | 0 <= i < j < |hs + [h]| ensures (hs + [h])[i] != (hs + [h])[j] {
        assert hs[i] in hs;
      }
    }
  }

  lemma SharedWithLast(m: seq<ManifestEntry>, server: set<string>, failed: set<nat>)
    requires m != []
    ensures var n := |m| - 1;
      NoSharedContent(m, server, failed) <==>
      NoSharedContent(m[..n], server, failed)
      && !(Asked(m, server, failed, n)
           && exists i :: 0 <= i < n && m[..n][i].hash == m[n].hash && Asked(m[..n], server, failed, i))
  {
    var n := |m| - 1;
    forall i: nat | i < n
      ensures m[..n][i] == m[i] && (Asked(m, server, failed, i) <==> Asked(m[..n], server, failed, i))
    {
    }
  }

  /** A clean run against this server counts each file once exactly when no two files whose
      content is asked for are equal; with equal files it counts more than it was given. */
  lemma RemoteRunCounters(c: Primitives, job: Job, st: State, server: set<string>, failed: set<nat>, faults: Faults)
    requires Lawful(c) && WellKeyed(st.entries, st.nextID)
    requires NothingFails(c, job, RemoteNeeded(Manifest(c, job.files, job.atHash), server, failed), faults)
    ensures var m := Manifest(c, job.files, job.atHash);
            var r := ResultOf(c, job, st, RemoteNeeded(m, server, failed), faults);
            r.filesProcessed >= |m| && (r.filesProcessed == |m| <==> NoSharedContent(m, server, failed))
  {
    var m := Manifest(c, job.files, job.atHash);
    var needed := RemoteNeeded(m, server, failed);
    forall h | h in AsSet(needed) ensures h in HashesIn(m) {
      NeededAsked(m, server, failed, h);
      var i :| 0 <= i < |m| && m[i].hash == h && Asked(m, server, failed, i);
      assert m[i] in m;
    }
    DistinctExactly(m, server, failed);
    CleanRunCounters(c, job, st, needed, faults);
  }
}
