/** The tables of internal/db/repository.go and the content-addressable store of
    internal/storage/cas.go, as values and as the objects whose methods change them. */
module Catalog {
  import opened Foundations

  /** A row of the backups table. A missing data key or nonce is the empty byte string;
      instants are integers in nanoseconds. */
  datatype BackupEntry = BackupEntry(
    id: nat, backupID: string, hash: string, fileName: string, filePath: string, fileSize: int,
    permissions: Option<nat>, symlink: bool, symlinkTarget: string,
    encryptedDEK: bytes, nonce: bytes, backupDate: int)

  type Table = map<nat, BackupEntry>

  const SECOND: int := 1_000_000_000

  /** The row that an insertion writes: its key, and its date in whole seconds. */
  function RowFor(e: BackupEntry, id: nat): BackupEntry {
    e.(id := id, backupDate := e.backupDate / SECOND * SECOND)
  }

  /** The row is the entry itself but for its key and for the fraction of a second of its date. */
  predicate IsRowFor(row: BackupEntry, e: BackupEntry, id: nat) {
    && row.id == id && row.(id := e.id, backupDate := e.backupDate) == e
    && row.backupDate % 1_000_000_000 == 0 && row.backupDate <= e.backupDate < row.backupDate + 1_000_000_000
  }

  datatype State = State(entries: Table, jobs: set<string>, blobs: map<string, bytes>, nextID: nat)

  datatype Error = IO | InvalidHash | NotFound | BadArgument

  // ------------------------------------------------------------------- reading a table

  ghost predicate WellKeyed(t: Table, nextID: nat) {
    forall id | id in t :: t[id].id == id && id < nextID
  }

  function WithHash(t: Table, h: string): set<nat> {
    set id | id in t && t[id].hash == h
  }

  function WithPath(t: Table, p: string): set<nat> {
    set id | id in t && t[id].filePath == p
  }

  function WithJob(t: Table, j: string): set<nat> {
    set id | id in t && t[id].backupID == j
  }

  function HashesOf(t: Table, ids: set<nat>): set<string> {
    set id | id in ids && id in t :: t[id].hash
  }

  function JobsOf(t: Table, ids: set<nat>): set<string> {
    set id | id in ids && id in t :: t[id].backupID
  }

  lemma HashesOfAdds(t: Table, ids: set<nat>, id: nat)
    requires id in t
    ensures HashesOf(t, ids + {id}) == HashesOf(t, ids) + {t[id].hash}
  {
  }

  lemma JobsOfAdds(t: Table, ids: set<nat>, id: nat)
    requires id in t
    ensures JobsOf(t, ids + {id}) == JobsOf(t, ids) + {t[id].backupID}
  {
  }

  lemma HashedAmongAdds(t: Table, h: string, ids: set<nat>, id: nat)
    requires id in t && id !in ids
    ensures |WithHash(t, h) * (ids + {id})| == |WithHash(t, h) * ids| + if t[id].hash == h then 1 else 0
  {
    var seen := WithHash(t, h) * ids;
    assert WithHash(t, h) * (ids + {id}) == if t[id].hash == h then seen + {id} else seen;
  }

  lemma OfJobAmongAdds(t: Table, j: string, ids: set<nat>, id: nat)
    requires id in t && id !in ids
    ensures |WithJob(t, j) * (ids + {id})| == |WithJob(t, j) * ids| + if t[id].backupID == j then 1 else 0
  {
    var seen := WithJob(t, j) * ids;
    assert WithJob(t, j) * (ids + {id}) == if t[id].backupID == j then seen + {id} else seen;
  }

  /** The rows a query returned: each selected row once, in no particular order. */
  ghost predicate Lists(rows: seq<BackupEntry>, t: Table, ids: set<nat>) {
    && ids <= t.Keys
    && IDs(rows) == ids
    && (forall i | 0 <= i < |rows| :: rows[i].id in t && rows[i] == t[rows[i].id])
    && (forall i, j | 0 <= i < j < |rows| :: rows[i].id != rows[j].id)
  }

  function IDs(rows: seq<BackupEntry>): set<nat> {
    set e | e in rows :: e.id
  }

  ghost function TotalSize(t: Table, ids: set<nat>): int
    requires ids <= t.Keys
    decreases ids
  {
    if ids == {} then 0 else
      var id :| id in ids;
      t[id].fileSize + TotalSize(t, ids - {id})
  }

  lemma {:induction false} TotalSizeSplits(t: Table, ids: set<nat>, id: nat)
    requires id in ids && ids <= t.Keys
    ensures TotalSize(t, ids) == t[id].fileSize + TotalSize(t, ids - {id})
    decreases ids
  {
    var x :| x in ids && TotalSize(t, ids) == t[x].fileSize + TotalSize(t, ids - {x});
    if x != id {
      TotalSizeSplits(t, ids - {x}, id);
      TotalSizeSplits(t, ids - {id}, x);
      assert ids - {x} - {id} == ids - {id} - {x};
    }
  }

  lemma TotalSizeAdds(t: Table, ids: set<nat>, id: nat)
    requires ids <= t.Keys && id in t && id !in ids
    ensures TotalSize(t, ids + {id}) == TotalSize(t, ids) + t[id].fileSize
  {
    TotalSizeSplits(t, ids + {id}, id);
    assert ids + {id} - {id} == ids;
  }

  lemma IDsAppend(rows: seq<BackupEntry>, e: BackupEntry)
    ensures IDs(rows + [e]) == IDs(rows) + {e.id}
  {
    forall x | x in rows + [e] ensures x in rows || x == e {}
    forall x | x in rows ensures x in rows + [e] {}
    assert (rows + [e])[|rows|] == e;
  }

  lemma ListsAppend(rows: seq<BackupEntry>, t: Table, ids: set<nat>, id: nat)
    requires Lists(rows, t, ids) && id in t && id !in ids && t[id].id == id
    ensures Lists(rows + [t[id]], t, ids + {id})
  {
    IDsAppend(rows, t[id]);
    forall i | 0 <= i < |rows| ensures rows[i].id in IDs(rows) {
      assert rows[i] in rows;
    }
  }

  lemma IDsOfPrefix(rows: seq<BackupEntry>, k: nat)
    requires k < |rows|
    ensures IDs(rows[..k + 1]) == IDs(rows[..k]) + {rows[k].id}
  {
    assert rows[..k + 1] == rows[..k] + [rows[k]];
    IDsAppend(rows[..k], rows[k]);
  }

  lemma NextRowIsNew(rows: seq<BackupEntry>, t: Table, ids: set<nat>, k: nat)
    requires Lists(rows, t, ids) && k < |rows|
    ensures rows[k].id in ids && rows[k].id !in IDs(rows[..k])
  {
    assert rows[k] in rows;
    forall e | e in rows[..k] ensures e.id != rows[k].id {
      var i :| 0 <= i < k && rows[i] == e;
    }
  }

  /** The first k rows of a listing: as many ids as rows, and the next row is not among them. */
  lemma {:induction false} PrefixIDs(rows: seq<BackupEntry>, t: Table, ids: set<nat>, k: nat)
    requires Lists(rows, t, ids) && k <= |rows|
    ensures IDs(rows[..k]) <= ids && |IDs(rows[..k])| == k
    ensures k < |rows| ==> rows[k].id !in IDs(rows[..k]) && IDs(rows[..k + 1]) == IDs(rows[..k]) + {rows[k].id}
    ensures k == |rows| ==> IDs(rows[..k]) == ids
  {
    if k > 0 {
      PrefixIDs(rows, t, ids, k - 1);
      NextRowIsNew(rows, t, ids, k - 1);
    } else {
      assert rows[..0] == [];
    }
    if k == |rows| {
      assert rows[..k] == rows;
    } else {
      IDsOfPrefix(rows, k);
      NextRowIsNew(rows, t, ids, k);
    }
  }

  lemma ListingLength(rows: seq<BackupEntry>, t: Table, ids: set<nat>)
    requires Lists(rows, t, ids)
    ensures |rows| == |ids|
  {
    PrefixIDs(rows, t, ids, |rows|);
  }
}
