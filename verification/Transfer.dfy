/** Across the wire: a file that a client encrypts, uploads in a chunk stream
    (internal/grpc/remote_connection.go, data_server.go) and restores from the server. */
module Transfer {
  import opened Foundations
  import opened Catalog
  import opened Encryption
  import opened Restore
  import opened Framing

  /** A local file as the client sends it: sealed under the master key with a fresh data key, or
      as it is. The stream may split it in any way. */
  datatype Sending = Encrypted(draw: Draw) | Plain

  ghost predicate SentAs(c: Primitives, mk: bytes, f: Section, e: BackupEntry, content: bytes, how: Sending) {
    match how
    case Encrypted(d) =>
      var s := Encrypt(c, content, mk, d);
      s.Ok? && Flatten(f.parts) == s.value.ciphertext
      && f.header == HeaderOf(c.hash(content), s.value.wrappedDEK, s.value.nonce, e)
    case Plain =>
      Flatten(f.parts) == content && f.header == HeaderOf(c.hash(content), [], [], e)
  }

  /** What the server has stored at the end of a stream of sections. */
  function Stored(fs: seq<Section>): seq<(FileHeader, bytes)> {
    AtEnd(ReceiveAll(Start, Print(fs))).stored
  }

  ghost predicate Streamed(fs: seq<Section>, i: nat) {
    && i < |fs| && (forall f | f in fs :: WellFormed(f))
    && forall j | i < j < |fs| :: fs[j].header.hash != fs[i].header.hash
  }

  /** Permissions of zero are not told from none on the wire. */
  function Received(e: BackupEntry): Option<nat> {
    if e.permissions == Some(0) then None else e.permissions
  }

  lemma StoredInOrder(fs: seq<Section>)
    requires forall f | f in fs :: WellFormed(f)
    ensures |Stored(fs)| == |fs| && forall j | 0 <= j < |fs| :: Stored(fs)[j] == (fs[j].header, Flatten(fs[j].parts))
  {
    SectionsReceived(fs);
    if fs != [] {
      ContentsAt(fs, 0);
    }
    forall j | 0 <= j < |fs| ensures Contents(fs)[j] == (fs[j].header, Flatten(fs[j].parts)) {
      ContentsAt(fs, j);
    }
  }

  /** The blob and the row of the last file uploaded under its hash. */
  lemma ArrivesWhole(blobs: map<string, bytes>, rows: Table, first: nat, fs: seq<Section>, i: nat)
    requires Streamed(fs, i)
    ensures var h := fs[i].header;
      && h.hash in PutAll(blobs, Stored(fs)) && PutAll(blobs, Stored(fs))[h.hash] == Flatten(fs[i].parts)
      && HasRow(WithRows(rows, first, Stored(fs)), first + i, h)
  {
    StoredInOrder(fs);
    WithRowsSay(rows, first, Stored(fs));
    LastWriteWins(blobs, Stored(fs), i);
  }

  /** The row of a sealed file opens its bytes, whatever other rows are found for the hash. */
  lemma SealedRowRestores(c: Primitives, k: Keys, row: BackupEntry, f: Section, e: BackupEntry, content: bytes, d: Draw,
                          found: seq<BackupEntry>)
    requires Lawful(c) && SentAs(c, k.masterKey, f, e, content, Encrypted(d)) && CanDecrypt(k) && !e.symlink
    requires RowSays(row, f.header)
    ensures RestoreOf(c, k, Flatten(f.parts), Some(row), found, c.hash(content)) == Ok(Wrote(content, Received(e)))
  {
    var s := Encrypt(c, content, k.masterKey, d).value;
    EncryptRoundTrip(c, content, k.masterKey, d, row.nonce);
    RowOfHeader(c.hash(content), s.wrappedDEK, s.nonce, e, row);
  }

  /** And so does the row of a file sent as it is, if it is the only one. */
  lemma PlainRowRestores(c: Primitives, k: Keys, row: BackupEntry, f: Section, e: BackupEntry, content: bytes)
    requires SentAs(c, k.masterKey, f, e, content, Plain) && !e.symlink && RowSays(row, f.header)
    ensures RestoreOf(c, k, Flatten(f.parts), Some(row), [row], c.hash(content)) == Ok(Wrote(content, Received(e)))
  {
    RowOfHeader(c.hash(content), [], [], e, row);
    assert [row][1..] == [] && FirstWithKey([row][1..]).None?;
  }

  /** From encryption over the wire and back. Any files, each split into data messages in any way,
      with any trailers dropped, are uploaded in one stream to any node. What the server then sends
      for the last one under its hash, restored from its row, is the original content with its
      permissions, whatever other rows there are. */
  lemma SealedUploadRestores(c: Primitives, k: Keys, blobs: map<string, bytes>, rows: Table, first: nat, fs: seq<Section>,
                             i: nat, e: BackupEntry, content: bytes, d: Draw, sent: Section, found: seq<BackupEntry>)
    requires Lawful(c) && Streamed(fs, i) && SentAs(c, k.masterKey, fs[i], e, content, Encrypted(d))
    requires CanDecrypt(k) && !e.symlink
    requires var h := c.hash(content);
             h in PutAll(blobs, Stored(fs)) ==> Carries(sent, h, PutAll(blobs, Stored(fs))[h])
    ensures first + i in WithRows(rows, first, Stored(fs))
    ensures var row := WithRows(rows, first, Stored(fs))[first + i];
            RestoreOf(c, k, Collect(PrintFile(sent)), Some(row), found, c.hash(content)) == Ok(Wrote(content, Received(e)))
  {
    ArrivesWhole(blobs, rows, first, fs, i);
    CollectSection(sent, c.hash(content), Flatten(fs[i].parts));
    SealedRowRestores(c, k, WithRows(rows, first, Stored(fs))[first + i], fs[i], e, content, d, found);
  }

  /** No other row and no other file of the stream has the hash of file i. */
  ghost predicate OnlyOne(rows: Table, fs: seq<Section>, i: nat)
    requires i < |fs|
  {
    && (forall id | id in rows :: rows[id].hash != fs[i].header.hash)
    && (forall j | 0 <= j < |fs| && j != i :: fs[j].header.hash != fs[i].header.hash)
  }

  /** A row with the hash of file i is the row of file i. */
  lemma RowIsItsOwn(t: Table, rows: Table, first: nat, files: seq<(FileHeader, bytes)>, i: nat, id: nat)
    requires RowsSay(t, rows, first, files) && i < |files| && forall x | x in rows :: rows[x].hash != files[i].0.hash
    requires forall j | 0 <= j < |files| && j != i :: files[j].0.hash != files[i].0.hash
    requires id in t && t[id].hash == files[i].0.hash
    ensures id == first + i
  {
    if first <= id < first + |files| {
      var j := id - first;
      assert HasRow(t, first + j, files[j].0);
    }
  }

  lemma SingleListing(t: Table, id: nat, found: seq<BackupEntry>)
    requires Lists(found, t, {id})
    ensures id in t && found == [t[id]]
  {
    ListingLength(found, t, {id});
    assert found[0] in found && found[0].id in IDs(found);
  }

  lemma OnlyID(rows: Table, first: nat, fs: seq<Section>, i: nat)
    requires Streamed(fs, i) && OnlyOne(rows, fs, i)
    ensures WithHash(WithRows(rows, first, Stored(fs)), fs[i].header.hash) == {first + i}
  {
    var t := WithRows(rows, first, Stored(fs));
    ArrivesWhole(map[], rows, first, fs, i);
    StoredInOrder(fs);
    WithRowsSay(rows, first, Stored(fs));
    forall id | id in WithHash(t, fs[i].header.hash) ensures id == first + i {
      RowIsItsOwn(t, rows, first, Stored(fs), i, id);
    }
  }

  /** Uploaded to a node that does not know its content, a file restores by its hash alone: a
      sealed one with the master key, and one sent as it is with or without. */
  lemma UploadedFileRestores(c: Primitives, k: Keys, blobs: map<string, bytes>, rows: Table, first: nat, fs: seq<Section>,
                             i: nat, e: BackupEntry, content: bytes, how: Sending, found: seq<BackupEntry>)
    requires Lawful(c) && Streamed(fs, i) && OnlyOne(rows, fs, i) && !e.symlink
    requires SentAs(c, k.masterKey, fs[i], e, content, how) && (how.Encrypted? ==> CanDecrypt(k))
    requires var t := WithRows(rows, first, Stored(fs)); Lists(found, t, WithHash(t, c.hash(content)))
    ensures RestoreFileOf(c, k, PutAll(blobs, Stored(fs)), found, c.hash(content)) == Ok(Wrote(content, Received(e)))
  {
    ArrivesWhole(blobs, rows, first, fs, i);
    OnlyID(rows, first, fs, i);
    SingleListing(WithRows(rows, first, Stored(fs)), first + i, found);
    match how
    case Encrypted(d) => SealedRowRestores(c, k, found[0], fs[i], e, content, d, found);
    case Plain => PlainRowRestores(c, k, found[0], fs[i], e, content);
  }
}
