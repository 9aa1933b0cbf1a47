/** Deletion and retention change the node through three kinds of write. What any sequence of
    them keeps, at every point where it may be cut short, and what a whole one reclaims. */
module Reclamation {
  import opened Foundations
  import opened Catalog

  datatype Op =
    | Drop(ids: set<nat>)        // DELETE FROM backups
    | Collect(hash: string)      // count the references, then delete the blob if there are none
    | SweepJobs                  // delete the jobs that have no entries

  function Apply(st: State, op: Op): State {
    match op
    case Drop(ids) => st.(entries := st.entries - ids)
    case Collect(h) => if WithHash(st.entries, h) == {} then st.(blobs := st.blobs - {h}) else st
    case SweepJobs => st.(jobs := set j | j in st.jobs && WithJob(st.entries, j) != {})
  }

  function Run(st: State, ops: seq<Op>): State {
    if ops == [] then st else Apply(Run(st, ops[..|ops| - 1]), ops[|ops| - 1])
  }

  lemma RunAppend(st: State, ops: seq<Op>, op: Op)
    ensures Run(st, ops + [op]) == Apply(Run(st, ops), op)
  {
    assert (ops + [op])[..|ops|] == ops;
  }

  lemma {:induction false} RunConcat(st: State, a: seq<Op>, b: seq<Op>)
    ensures Run(st, a + b) == Run(Run(st, a), b)
  {
    if b == [] {
      assert a + b == a;
    } else {
      var b' := b[..|b| - 1];
      RunConcat(st, a, b');
      assert a + b == (a + b') + [b[|b| - 1]];
      RunAppend(st, a + b', b[|b| - 1]);
    }
  }

  // ----------------------------------------------------------------------- safety

  /** later holds no more than earlier, changes nothing it keeps, and every surviving entry
      that had its blob still has it, byte for byte. */
  ghost predicate Preserves(earlier: State, later: State) {
    && later.nextID == earlier.nextID
    && later.jobs <= earlier.jobs
    && (forall id | id in later.entries :: id in earlier.entries && later.entries[id] == earlier.entries[id])
    && (forall h | h in later.blobs :: h in earlier.blobs && later.blobs[h] == earlier.blobs[h])
    && (forall id | id in later.entries && later.entries[id].hash in earlier.blobs ::
          later.entries[id].hash in later.blobs)
  }

  lemma ApplyPreserves(earlier: State, st: State, op: Op)
    requires Preserves(earlier, st)
    ensures Preserves(earlier, Apply(st, op))
  {
    var st' := Apply(st, op);
    if op.Collect? {
      forall id | id in st'.entries && st'.entries[id].hash in earlier.blobs
        ensures st'.entries[id].hash in st'.blobs
      {
        assert id in WithHash(st.entries, st.entries[id].hash);
      }
    }
  }

  /** No write sequence, wherever it stops, removes a blob that a surviving entry refers to. */
  lemma {:induction false} EveryPrefixPreserves(st: State, ops: seq<Op>, k: nat)
    requires k <= |ops|
    ensures Preserves(st, Run(st, ops[..k]))
  {
    if k > 0 {
      EveryPrefixPreserves(st, ops, k - 1);
      assert ops[..k][..k - 1] == ops[..k - 1];
      ApplyPreserves(st, Run(st, ops[..k - 1]), ops[k - 1]);
    }
  }

  // ------------------------------------------------------------------- reclamation

  /** The hashes that t refers to and t' no longer does. */
  function Lost(t: Table, t': Table): set<string> {
    HashesOf(t, t.Keys) - HashesOf(t', t'.Keys)
  }

  /** Exactly the blobs whose last reference went away have been removed. */
  ghost predicate Reclaimed(earlier: State, later: State) {
    later.blobs == earlier.blobs - Lost(earlier.entries, later.entries)
  }

  ghost predicate NoGarbage(st: State) {
    st.blobs.Keys == HashesOf(st.entries, st.entries.Keys)
  }

  lemma ReferencedHash(t: Table, h: string)
    ensures h in HashesOf(t, t.Keys) <==> WithHash(t, h) != {}
  {
    if id :| id in t && t[id].hash == h {
      assert id in WithHash(t, h);
    }
    if WithHash(t, h) != {} {
      var id :| id in WithHash(t, h);
      assert t[id].hash in HashesOf(t, t.Keys);
    }
  }

  ghost predicate RefersTo(t: Table, h: string) {
    exists id :: id in t && t[id].hash == h
  }

  /** A blob is gone exactly if some row referred to it before and none does any more. */
  ghost predicate BlobsFollowRows(earlier: State, later: State) {
    forall h | h in earlier.blobs ::
      && (h !in later.blobs <==> RefersTo(earlier.entries, h) && !RefersTo(later.entries, h))
      && (h in later.blobs ==> later.blobs[h] == earlier.blobs[h])
  }

  lemma ReclaimedFollowsRows(earlier: State, later: State)
    requires Reclaimed(earlier, later)
    ensures BlobsFollowRows(earlier, later)
  {
    forall h ensures h in HashesOf(earlier.entries, earlier.entries.Keys) <==> RefersTo(earlier.entries, h) {}
    forall h ensures h in HashesOf(later.entries, later.entries.Keys) <==> RefersTo(later.entries, h) {}
  }

  lemma ReclaimedKeepsNoGarbage(earlier: State, later: State)
    requires Preserves(earlier, later) && Reclaimed(earlier, later) && NoGarbage(earlier)
    ensures NoGarbage(later)
  {
  }

  /** The writes of a complete deletion: one Drop, one Collect per hash, one sweep. */
  function DeletePlan(ids: set<nat>, hashes: seq<string>): seq<Op> {
    [Drop(ids)] + seq(|hashes|, i requires 0 <= i < |hashes| => Collect(hashes[i])) + [SweepJobs]
  }

  /** The node after a complete deletion of the given rows. */
  function AfterDelete(st: State, ids: set<nat>): State {
    var t := st.entries - ids;
    State(t, (set j | j in st.jobs && WithJob(t, j) != {}), st.blobs - Lost(st.entries, t), st.nextID)
  }

  /** The listed hashes that t does not refer to. */
  function Unreferenced(t: Table, hashes: seq<string>): set<string> {
    set h | h in hashes && WithHash(t, h) == {}
  }

  lemma UnreferencedAppend(t: Table, hashes: seq<string>, h: string)
    ensures Unreferenced(t, hashes + [h]) == Unreferenced(t, hashes) + if WithHash(t, h) == {} then {h} else {}
  {
    assert (hashes + [h])[|hashes|] == h;
    forall g | g in hashes ensures g in hashes + [h] {}
  }

  /** One more distinct hash adds itself to the unreferenced ones, or nothing. */
  lemma UnreferencedStep(t: Table, hashes: seq<string>, k: nat)
    requires k < |hashes| && forall i, j | 0 <= i < j < |hashes| :: hashes[i] != hashes[j]
    ensures Unreferenced(t, hashes[..k + 1])
            == Unreferenced(t, hashes[..k]) + if WithHash(t, hashes[k]) == {} then {hashes[k]} else {}
    ensures |Unreferenced(t, hashes[..k + 1])|
            == |Unreferenced(t, hashes[..k])| + if WithHash(t, hashes[k]) == {} then 1 else 0
  {
    assert hashes[..k + 1] == hashes[..k] + [hashes[k]];
    UnreferencedAppend(t, hashes[..k], hashes[k]);
    assert hashes[k] !in hashes[..k];
  }

  lemma {:induction false} CollectsInAnyOrder(st: State, ids: set<nat>, hashes: seq<string>, k: nat)
    requires k <= |hashes|
    ensures var t := st.entries - ids;
            Run(st, DeletePlan(ids, hashes)[..k + 1])
            == st.(entries := t, blobs := st.blobs - Unreferenced(t, hashes[..k]))
  {
    var t := st.entries - ids;
    if k == 0 {
      PlanStart(st, ids, hashes);
      assert Unreferenced(t, hashes[..0]) == {};
      assert st.blobs - {} == st.blobs;
    } else {
      CollectsInAnyOrder(st, ids, hashes, k - 1);
      PlanStep(st, ids, hashes, k - 1);
      assert hashes[..k] == hashes[..k - 1] + [hashes[k - 1]];
      UnreferencedAppend(t, hashes[..k - 1], hashes[k - 1]);
    }
  }

  lemma LostByDropping(t: Table, ids: set<nat>, h: string)
    ensures h in Lost(t, t - ids) <==> h in HashesOf(t, ids) && WithHash(t - ids, h) == {}
  {
    ReferencedHash(t - ids, h);
    if h in Lost(t, t - ids) {
      var id :| id in t && t[id].hash == h;
      assert id !in ids ==> id in WithHash(t - ids, h);
    }
  }

  /** Once the selected rows are dropped, their unreferenced hashes are the lost ones. */
  lemma UnreferencedIsLost(t: Table, ids: set<nat>, hashes: seq<string>)
    requires (set h | h in hashes) == HashesOf(t, ids)
    ensures Unreferenced(t - ids, hashes) == Lost(t, t - ids)
  {
    forall h ensures h in Unreferenced(t - ids, hashes) <==> h in Lost(t, t - ids) {
      LostByDropping(t, ids, h);
      assert h in hashes <==> h in (set g | g in hashes);
    }
  }

  lemma PlanStep(st: State, ids: set<nat>, hashes: seq<string>, k: nat)
    requires k < |hashes|
    ensures Run(st, DeletePlan(ids, hashes)[..k + 2]) == Apply(Run(st, DeletePlan(ids, hashes)[..k + 1]), Collect(hashes[k]))
  {
    assert DeletePlan(ids, hashes)[..k + 2] == DeletePlan(ids, hashes)[..k + 1] + [Collect(hashes[k])];
    RunAppend(st, DeletePlan(ids, hashes)[..k + 1], Collect(hashes[k]));
  }

  lemma PlanStart(st: State, ids: set<nat>, hashes: seq<string>)
    ensures Run(st, DeletePlan(ids, hashes)[..0]) == st
    ensures Run(st, DeletePlan(ids, hashes)[..1]) == st.(entries := st.entries - ids)
  {
    assert DeletePlan(ids, hashes)[..1] == [] + [Drop(ids)];
    RunAppend(st, [], Drop(ids));
  }

  lemma AllCollected(st: State, ids: set<nat>, hashes: seq<string>)
    requires (set h | h in hashes) == HashesOf(st.entries, ids)
    ensures Run(st, DeletePlan(ids, hashes)[..|hashes| + 1]) == AfterDelete(st, ids).(jobs := st.jobs)
  {
    CollectsInAnyOrder(st, ids, hashes, |hashes|);
    assert hashes[..|hashes|] == hashes;
    UnreferencedIsLost(st.entries, ids, hashes);
  }

  /** Whatever order the hashes are visited in, a complete deletion ends in the same node. */
  lemma DeletePlanRuns(st: State, ids: set<nat>, hashes: seq<string>)
    requires (set h | h in hashes) == HashesOf(st.entries, ids)
    ensures Run(st, DeletePlan(ids, hashes)) == AfterDelete(st, ids)
  {
    var plan := DeletePlan(ids, hashes);
    AllCollected(st, ids, hashes);
    assert plan == plan[..|hashes| + 1] + [SweepJobs];
    RunAppend(st, plan[..|hashes| + 1], SweepJobs);
  }

  lemma DeletePlanReclaims(st: State, ids: set<nat>, hashes: seq<string>)
    requires (set h | h in hashes) == HashesOf(st.entries, ids)
    ensures Reclaimed(st, AfterDelete(st, ids)) && Preserves(st, AfterDelete(st, ids))
  {
    var plan := DeletePlan(ids, hashes);
    DeletePlanRuns(st, ids, hashes);
    EveryPrefixPreserves(st, plan, |plan|);
    assert plan[..|plan|] == plan;
  }

  /** Retention's unit of work: drop one row, then collect its hash. */
  function Reap(st: State, id: nat, h: string): State {
    Apply(Apply(st, Drop({id})), Collect(h))
  }

  function AllHashes(t: Table): set<string> {
    HashesOf(t, t.Keys)
  }

  /** Dropping a row removes its hash from the referenced ones exactly when it was the last. */
  lemma HashesWithout(t: Table, id: nat)
    requires id in t
    ensures t[id].hash in AllHashes(t)
    ensures AllHashes(t - {id}) == if WithHash(t - {id}, t[id].hash) == {} then AllHashes(t) - {t[id].hash} else AllHashes(t)
  {
    var h, t' := t[id].hash, t - {id};
    ReferencedHash(t', h);
    forall g | g != h ensures g in AllHashes(t) <==> g in AllHashes(t') {
      if x :| x in t && t[x].hash == g {
        assert x in t';
      }
    }
  }

  lemma LostGrows(t0: Table, t: Table, id: nat)
    requires id in t && id in t0 && t0[id] == t[id]
    ensures var h, last := t[id].hash, WithHash(t - {id}, t[id].hash) == {};
            && Lost(t0, t - {id}) == Lost(t0, t) + (if last then {h} else {})
            && |Lost(t0, t - {id})| == |Lost(t0, t)| + (if last then 1 else 0)
  {
    HashesWithout(t, id);
    assert t0[id].hash in AllHashes(t0);
    RemovedFromSubtrahend(AllHashes(t0), AllHashes(t), t[id].hash);
  }

  lemma RemovedFromSubtrahend(a: set<string>, b: set<string>, h: string)
    requires h in a && h in b
    ensures a - (b - {h}) == a - b + {h} && |a - (b - {h})| == |a - b| + 1
  {
    assert a - (b - {h}) == a - b + {h};
  }

  /** The rows in `gone` have been reaped one by one; `files` of their hashes were the last. */
  ghost predicate Reaped(earlier: State, st: State, gone: set<nat>, files: nat) {
    && gone <= earlier.entries.Keys
    && st.entries == earlier.entries - gone
    && Preserves(earlier, st) && Reclaimed(earlier, st)
    && files == |Lost(earlier.entries, st.entries)|
  }

  lemma ReapPreserves(earlier: State, st: State, id: nat, h: string)
    requires Preserves(earlier, st)
    ensures Preserves(earlier, Reap(st, id, h))
  {
    ApplyPreserves(earlier, st, Drop({id}));
    ApplyPreserves(earlier, Apply(st, Drop({id})), Collect(h));
  }

  lemma MinusTwice(m: map<string, bytes>, s: set<string>, h: string)
    ensures m - s - {h} == m - (s + {h})
  {
  }

  lemma ReapReclaims(earlier: State, st: State, id: nat)
    requires Reclaimed(earlier, st) && id in st.entries && id in earlier.entries
    requires st.entries[id] == earlier.entries[id]
    ensures Reclaimed(earlier, Reap(st, id, st.entries[id].hash))
  {
    var h, lost := st.entries[id].hash, Lost(earlier.entries, st.entries);
    MinusTwice(earlier.blobs, lost, h);
    assert lost + {} == lost;
    assert Lost(earlier.entries, st.entries - {id})
        == lost + (if WithHash(st.entries - {id}, h) == {} then {h} else {}) by {
      LostGrows(earlier.entries, st.entries, id);
    }
  }

  /** Reaping one more row keeps the reclamation exact and counts it once. */
  lemma ReapStep(earlier: State, st: State, gone: set<nat>, files: nat, id: nat)
    requires Reaped(earlier, st, gone, files) && id in st.entries
    ensures Reaped(earlier, Reap(st, id, st.entries[id].hash), gone + {id},
                   files + if WithHash(st.entries - {id}, st.entries[id].hash) == {} then 1 else 0)
  {
    ReapPreserves(earlier, st, id, st.entries[id].hash);
    ReapReclaims(earlier, st, id);
    ReapCounts(earlier.entries, st.entries, gone, id);
  }

  lemma ReapCounts(earlier: Table, t: Table, gone: set<nat>, id: nat)
    requires gone <= earlier.Keys && t == earlier - gone && id in t
    ensures t - {id} == earlier - (gone + {id})
    ensures |Lost(earlier, t - {id})| == |Lost(earlier, t)| + if WithHash(t - {id}, t[id].hash) == {} then 1 else 0
  {
    LostGrows(earlier, t, id);
  }

  // ------------------------------------------------------------- reaping row by row

  /** The writes that reap the given rows: each row, then its hash. */
  function ReapPlan(t: Table, ids: seq<nat>): seq<Op>
    requires forall id | id in ids :: id in t
  {
    if ids == [] then []
    else
      var n := |ids| - 1;
      ReapPlan(t, ids[..n]) + [Drop({ids[n]}), Collect(t[ids[n]].hash)]
  }

  /** The writes reap distinct rows out of the allowed ones, and may stop at any of them. */
  ghost predicate Reaps(t: Table, ids: seq<nat>, allowed: set<nat>, ops: seq<Op>) {
    && (forall id | id in ids :: id in t && id in allowed)
    && (forall i, j | 0 <= i < j < |ids| :: ids[i] != ids[j])
    && ops <= ReapPlan(t, ids)
  }

  lemma {:induction false} ReapPlanConcat(t: Table, a: seq<nat>, b: seq<nat>)
    requires (forall id | id in a :: id in t) && (forall id | id in b :: id in t)
    ensures forall id | id in a + b :: id in t
    ensures ReapPlan(t, a + b) == ReapPlan(t, a) + ReapPlan(t, b)
  {
    if b == [] {
      assert a + b == a;
    } else {
      var n := |b| - 1;
      assert forall id | id in b[..n] :: id in b;
      ReapPlanConcat(t, a, b[..n]);
      assert (a + b)[..|a + b| - 1] == a + b[..n];
      assert (a + b)[|a + b| - 1] == b[n];
    }
  }

  /** Reaping from one set of rows and then from another that does not meet it. */
  lemma ReapsConcat(t: Table, a: seq<nat>, inA: set<nat>, b: seq<nat>, inB: set<nat>, ops: seq<Op>)
    requires forall id | id in a :: id in t
    requires Reaps(t, a, inA, ReapPlan(t, a)) && Reaps(t, b, inB, ops) && inA !! inB
    ensures Reaps(t, a + b, inA + inB, ReapPlan(t, a) + ops)
  {
    ReapPlanConcat(t, a, b);
    forall i, j | 0 <= i < j < |a + b| ensures (a + b)[i] != (a + b)[j] {
      assert i < |a| ==> a[i] in inA;
      assert j >= |a| ==> b[j - |a|] in inB;
    }
  }
}
