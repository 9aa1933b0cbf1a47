/** Which recorded files can be restored. Deduplicated entries carry no data key of their own, so
    the answer depends on entries of other runs. */
module Restorability {
  import opened Foundations
  import opened Catalog
  import opened Storage
  import opened Encryption
  import opened Backup
  import opened Restore
  import opened Reclamation

  // ---------------------------------------------------------------- what a restore does

  predicate KeysPaired(e: BackupEntry) {
    e.encryptedDEK == [] <==> e.nonce == []
  }

  predicate AllPaired(t: Table) {
    forall id | id in t :: KeysPaired(t[id])
  }

  /** The wrapped key opens the stored bytes to content with this hash. */
  predicate KeyOpens(c: Primitives, mk: bytes, blob: bytes, wrappedDEK: bytes, h: string) {
    var r := Decrypt(c, blob, wrappedDEK, [], mk);
    r.Ok? && c.hash(r.value) == h
  }

  predicate IsLink(e: BackupEntry) {
    e.symlink && e.symlinkTarget != ""
  }

  /** A restore that uses this row's metadata writes content with this hash. */
  predicate Writes(c: Primitives, k: Keys, blob: bytes, e: BackupEntry, h: string) {
    && !IsLink(e)
    && if HasKey(e) then CanDecrypt(k) && KeyOpens(c, k.masterKey, blob, e.encryptedDEK, h) else c.hash(blob) == h
  }

  ghost predicate SomeKey(t: Table, h: string) {
    exists id :: id in t && t[id].hash == h && HasKey(t[id])
  }

  /** A restore can end up with this row: it has a key, or it stays with the row it began with
      because no row has one or because no master key is configured. */
  ghost predicate Chosen(k: Keys, t: Table, id: nat)
    requires id in t
  {
    HasKey(t[id]) || !CanDecrypt(k) || !SomeKey(t, t[id].hash)
  }

  /** The blob is stored, and every row that a restore can end up with gives the content. */
  ghost predicate Restorable(c: Primitives, k: Keys, st: State, h: string) {
    && h in st.blobs
    && forall id | id in st.entries && st.entries[id].hash == h && Chosen(k, st.entries, id) ::
         Writes(c, k, st.blobs[h], st.entries[id], h)
  }

  /** Whatever row with hash h a restore starts from, and in whatever order the rows are listed,
      it writes p with the permissions of one of them. */
  ghost predicate RestoresTo(c: Primitives, k: Keys, st: State, h: string, p: bytes) {
    forall meta: BackupEntry, found: seq<BackupEntry> |
      Lists(found, st.entries, WithHash(st.entries, h)) && meta in found ::
      h in st.blobs && RestoresWith(c, k, st.blobs[h], meta, found, h, p)
  }

  ghost predicate RestoresWith(c: Primitives, k: Keys, blob: bytes, meta: BackupEntry, found: seq<BackupEntry>,
                               h: string, p: bytes)
  {
    exists e | e in found :: RestoreOf(c, k, blob, Some(meta), found, h) == Ok(Wrote(p, e.permissions))
  }

  lemma {:induction false} FirstWithKeySpec(rows: seq<BackupEntry>)
    ensures FirstWithKey(rows).Some? ==> FirstWithKey(rows).value in rows && HasKey(FirstWithKey(rows).value)
    ensures FirstWithKey(rows).None? ==> forall e | e in rows :: !HasKey(e)
  {
    if rows != [] {
      FirstWithKeySpec(rows[1..]);
    }
  }

  lemma ListedRow(t: Table, h: string, found: seq<BackupEntry>, e: BackupEntry)
    requires Lists(found, t, WithHash(t, h)) && e in found
    ensures e.id in t && t[e.id] == e && e.hash == h
  {
    assert e.id in IDs(found);
  }

  lemma KeyIsListed(t: Table, nextID: nat, h: string, found: seq<BackupEntry>)
    requires WellKeyed(t, nextID) && Lists(found, t, WithHash(t, h))
    ensures SomeKey(t, h) <==> exists e :: e in found && HasKey(e)
  {
    if SomeKey(t, h) {
      var id :| id in t && t[id].hash == h && HasKey(t[id]);
      assert id in IDs(found);
      var e :| e in found && e.id == id;
      ListedRow(t, h, found, e);
    }
    if e :| e in found && HasKey(e) {
      ListedRow(t, h, found, e);
    }
  }

  /** What the fallback ends up with is a row of the listing that can be chosen. */
  lemma ChosenIsListed(k: Keys, t: Table, nextID: nat, h: string, found: seq<BackupEntry>, meta: BackupEntry)
    requires WellKeyed(t, nextID) && AllPaired(t) && Lists(found, t, WithHash(t, h)) && meta in found
    ensures var e := ChooseMeta(Some(meta), found, k);
      e.Some? && e.value in found && e.value.id in t && t[e.value.id] == e.value && e.value.hash == h
      && Chosen(k, t, e.value.id)
  {
    FirstWithKeySpec(found);
    KeyIsListed(t, nextID, h, found);
    ListedRow(t, h, found, meta);
    ListedRow(t, h, found, ChooseMeta(Some(meta), found, k).value);
  }

  /** A row that can be chosen is what a restore that starts from it ends up with. */
  lemma ChosenStays(k: Keys, t: Table, nextID: nat, h: string, found: seq<BackupEntry>, id: nat)
    requires WellKeyed(t, nextID) && AllPaired(t) && Lists(found, t, WithHash(t, h))
    requires id in t && t[id].hash == h && Chosen(k, t, id)
    ensures t[id] in found && ChooseMeta(Some(t[id]), found, k) == Some(t[id])
  {
    assert id in IDs(found);
    var e :| e in found && e.id == id;
    ListedRow(t, h, found, e);
    FirstWithKeySpec(found);
    KeyIsListed(t, nextID, h, found);
  }

  function Content(c: Primitives, k: Keys, blob: bytes, e: BackupEntry): bytes {
    if !HasKey(e) then blob
    else
      var r := Decrypt(c, blob, e.encryptedDEK, [], k.masterKey);
      if r.Ok? then r.value else []
  }

  /** The outcome of a restore is decided by the row it ends up with. */
  lemma OutcomeOfRow(c: Primitives, k: Keys, blob: bytes, meta: BackupEntry, found: seq<BackupEntry>, h: string,
                     e: BackupEntry)
    requires ChooseMeta(Some(meta), found, k) == Some(e)
    ensures var r := RestoreOf(c, k, blob, Some(meta), found, h);
      && (Writes(c, k, blob, e, h) ==>
            r == Ok(Wrote(Content(c, k, blob, e), e.permissions)) && c.hash(Content(c, k, blob, e)) == h)
      && (r.Ok? && r.value.Wrote? ==> Writes(c, k, blob, e, h))
  {
  }

  /** The exact condition, for every node whatever its history: a recorded hash restores to its
      content from any of its rows and in any listing order if and only if its blob is stored and
      every row that a restore can end up with gives the content. */
  lemma RestorableExactly(c: Primitives, k: Keys, st: State, h: string)
    requires Lawful(c) && WellKeyed(st.entries, st.nextID) && AllPaired(st.entries)
    requires WithHash(st.entries, h) != {}
    ensures (exists p :: c.hash(p) == h && RestoresTo(c, k, st, h, p)) <==> Restorable(c, k, st, h)
  {
    if Restorable(c, k, st, h) {
      var id := SomeChosen(k, st.entries, h);
      RestorableRestores(c, k, st, h, id);
    }
    forall p | RestoresTo(c, k, st, h, p) ensures Restorable(c, k, st, h) {
      RestoredIsRestorable(c, k, st, h, p);
    }
  }

  lemma SomeChosen(k: Keys, t: Table, h: string) returns (id: nat)
    requires WithHash(t, h) != {}
    ensures id in t && t[id].hash == h && Chosen(k, t, id)
  {
    if SomeKey(t, h) {
      id :| id in t && t[id].hash == h && HasKey(t[id]);
    } else {
      id :| id in WithHash(t, h);
    }
  }

  lemma RestorableRestores(c: Primitives, k: Keys, st: State, h: string, id: nat)
    requires Lawful(c) && WellKeyed(st.entries, st.nextID) && AllPaired(st.entries) && Restorable(c, k, st, h)
    requires id in st.entries && st.entries[id].hash == h && Chosen(k, st.entries, id)
    ensures var p := Content(c, k, st.blobs[h], st.entries[id]); c.hash(p) == h && RestoresTo(c, k, st, h, p)
  {
    var blob, p := st.blobs[h], Content(c, k, st.blobs[h], st.entries[id]);
    forall meta, found: seq<BackupEntry> | Lists(found, st.entries, WithHash(st.entries, h)) && meta in found
      ensures RestoresWith(c, k, blob, meta, found, h, p)
    {
      ChosenIsListed(k, st.entries, st.nextID, h, found, meta);
      var e := ChooseMeta(Some(meta), found, k).value;
      OutcomeOfRow(c, k, blob, meta, found, h, e);
    }
  }

  lemma RestoredIsRestorable(c: Primitives, k: Keys, st: State, h: string, p: bytes)
    requires WellKeyed(st.entries, st.nextID) && AllPaired(st.entries) && WithHash(st.entries, h) != {}
    requires RestoresTo(c, k, st, h, p)
    ensures Restorable(c, k, st, h)
  {
    var rows := AnyListing(st.entries, st.nextID, WithHash(st.entries, h));
    BlobIsThere(c, k, st, h, p, rows);
    forall id | id in st.entries && st.entries[id].hash == h && Chosen(k, st.entries, id)
      ensures Writes(c, k, st.blobs[h], st.entries[id], h)
    {
      RestoredFromRow(c, k, st, h, p, rows, id);
    }
  }

  lemma BlobIsThere(c: Primitives, k: Keys, st: State, h: string, p: bytes, rows: seq<BackupEntry>)
    requires RestoresTo(c, k, st, h, p) && WithHash(st.entries, h) != {}
    requires Lists(rows, st.entries, WithHash(st.entries, h))
    ensures h in st.blobs
  {
    ListingLength(rows, st.entries, WithHash(st.entries, h));
    assert rows[0] in rows;
  }

  lemma RestoredFromRow(c: Primitives, k: Keys, st: State, h: string, p: bytes, rows: seq<BackupEntry>, id: nat)
    requires WellKeyed(st.entries, st.nextID) && AllPaired(st.entries) && RestoresTo(c, k, st, h, p) && h in st.blobs
    requires Lists(rows, st.entries, WithHash(st.entries, h))
    requires id in st.entries && st.entries[id].hash == h && Chosen(k, st.entries, id)
    ensures Writes(c, k, st.blobs[h], st.entries[id], h)
  {
    ChosenStays(k, st.entries, st.nextID, h, rows, id);
    assert RestoresWith(c, k, st.blobs[h], st.entries[id], rows, h, p);
    OutcomeOfRow(c, k, st.blobs[h], st.entries[id], rows, h, st.entries[id]);
  }

  lemma AnyListing(t: Table, nextID: nat, ids: set<nat>) returns (rows: seq<BackupEntry>)
    requires WellKeyed(t, nextID) && ids <= t.Keys
    ensures Lists(rows, t, ids)
    decreases ids
  {
    if ids == {} {
      rows := [];
    } else {
      var id :| id in ids;
      var rest := AnyListing(t, nextID, ids - {id});
      ListsAppend(rest, t, ids - {id}, id);
      rows := rest + [t[id]];
      assert ids - {id} + {id} == ids;
    }
  }

  // ------------------------------------------------------------------------ sound nodes

  /** The stored bytes are the content, or a ciphertext of it under some key wrapped for mk. */
  ghost predicate HoldsContent(c: Primitives, mk: bytes, blob: bytes, h: string) {
    c.hash(blob) == h || exists w :: KeyOpens(c, mk, blob, w, h)
  }

  /** A key that the row carries opens the stored bytes. */
  predicate KeyFits(c: Primitives, mk: bytes, blobs: map<string, bytes>, e: BackupEntry) {
    HasKey(e) ==> e.hash in blobs && KeyOpens(c, mk, blobs[e.hash], e.encryptedDEK, e.hash)
  }

  /** No blob is damaged, no row is a link. */
  ghost predicate Intact(c: Primitives, mk: bytes, st: State) {
    && WellKeyed(st.entries, st.nextID) && AllPaired(st.entries)
    && (forall id | id in st.entries :: !st.entries[id].symlink)
    && (forall h | h in st.blobs :: HoldsContent(c, mk, st.blobs[h], h))
  }

  /** And every key that a row carries opens its blob. */
  ghost predicate Sound(c: Primitives, mk: bytes, st: State) {
    Intact(c, mk, st) && forall id | id in st.entries :: KeyFits(c, mk, st.blobs, st.entries[id])
  }

  /** No key opens bytes that are their own content: a ciphertext is longer than its plaintext. */
  lemma PlainIsNotOpened(c: Primitives, mk: bytes, blob: bytes, wrappedDEK: bytes, h: string)
    requires Lawful(c) && c.hash(blob) == h
    ensures !KeyOpens(c, mk, blob, wrappedDEK, h)
  {
    var r := Decrypt(c, blob, wrappedDEK, [], mk);
    if r.Ok? {
      SealedIsLonger(c, blob, wrappedDEK, [], mk, r.value);
    }
  }

  /** On a sound node a recorded hash is restorable, with or without a master key at hand, if and
      only if its blob is stored and either is the content itself or can be decrypted and belongs
      to a hash for which some row carries a key. */
  lemma SoundRestorable(c: Primitives, mk: bytes, k: Keys, st: State, h: string)
    requires Lawful(c) && Sound(c, mk, st) && (CanDecrypt(k) ==> k.masterKey == mk)
    requires WithHash(st.entries, h) != {}
    ensures Restorable(c, k, st, h) <==>
            h in st.blobs && (c.hash(st.blobs[h]) == h || (CanDecrypt(k) && SomeKey(st.entries, h)))
  {
    var id := SomeChosen(k, st.entries, h);
    if h in st.blobs && c.hash(st.blobs[h]) == h {
      forall x | x in st.entries && st.entries[x].hash == h ensures !HasKey(st.entries[x]) {
        assert KeyFits(c, mk, st.blobs, st.entries[x]);
        PlainIsNotOpened(c, mk, st.blobs[h], st.entries[x].encryptedDEK, h);
      }
    }
    forall x | x in st.entries && st.entries[x].hash == h ensures KeyFits(c, mk, st.blobs, st.entries[x]) {}
  }

  // ------------------------------------------------------------ deletion and retention

  lemma ReclaimingPreserves(st: State, ops: seq<Op>)
    ensures Preserves(st, Run(st, ops))
  {
    EveryPrefixPreserves(st, ops, |ops|);
    assert ops[..|ops|] == ops;
  }

  /** Every deletion and retention run, complete or cut short, keeps the node intact and sound. */
  lemma ReclaimingKeepsSound(c: Primitives, mk: bytes, st: State, ops: seq<Op>)
    requires Intact(c, mk, st)
    ensures Intact(c, mk, Run(st, ops))
    ensures Sound(c, mk, st) ==> Sound(c, mk, Run(st, ops))
  {
    ReclaimingPreserves(st, ops);
    var left := Run(st, ops);
    if Sound(c, mk, st) {
      forall id | id in left.entries ensures KeyFits(c, mk, left.blobs, left.entries[id]) {
        assert KeyFits(c, mk, st.blobs, st.entries[id]);
      }
    }
  }

  /** A surviving entry restores after a deletion or a retention run if and only if its blob is
      the content itself, or decryption is possible and some surviving entry carries its key. */
  lemma SurvivorRestorableExactly(c: Primitives, mk: bytes, k: Keys, st: State, ops: seq<Op>, h: string)
    requires Lawful(c) && Sound(c, mk, st) && (CanDecrypt(k) ==> k.masterKey == mk)
    requires WithHash(Run(st, ops).entries, h) != {} && h in st.blobs
    ensures (exists p :: c.hash(p) == h && RestoresTo(c, k, Run(st, ops), h, p)) <==>
            c.hash(st.blobs[h]) == h || (CanDecrypt(k) && SomeKey(Run(st, ops).entries, h))
  {
    ReclaimingPreserves(st, ops);
    ReclaimingKeepsSound(c, mk, st, ops);
    RestorableExactly(c, k, Run(st, ops), h);
    SoundRestorable(c, mk, k, Run(st, ops), h);
    var id :| id in WithHash(Run(st, ops).entries, h);
    assert Run(st, ops).entries[id].hash in Run(st, ops).blobs;
  }
}
