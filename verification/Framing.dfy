/** internal/grpc: the chunk stream that carries files to the server and back. */
module Framing {
  import opened Foundations
  import opened Catalog
  import opened Storage

  datatype FileHeader = FileHeader(hash: string, fileName: string, filePath: string, fileSize: int,
                                   permissions: nat, symlink: bool, symlinkTarget: string,
                                   encryptedDEK: bytes, nonce: bytes)

  datatype Chunk = Header(header: FileHeader) | Data(data: bytes) | Trailer(hash: string, bytesTotal: nat)

  const CHUNK_SIZE: nat := 64 * 1024

  // ----------------------------------------------------------- streams as lists of files

  /** One file as it may appear in a stream: its header, its data messages, the trailer if it
      was sent, and after a trailer whatever other messages came before the next header. */
  datatype Section = Section(header: FileHeader, parts: seq<bytes>, trailer: Option<Chunk>, stray: seq<Chunk>)

  ghost predicate NoHeaders(cs: seq<Chunk>) {
    forall c | c in cs :: !c.Header?
  }

  ghost predicate WellFormed(f: Section) {
    && (f.trailer.Some? ==> f.trailer.value.Trailer?)
    && (f.trailer.None? ==> f.stray == [])
    && NoHeaders(f.stray)
  }

  function Flatten(parts: seq<bytes>): bytes {
    if parts == [] then [] else Flatten(parts[..|parts| - 1]) + parts[|parts| - 1]
  }

  function DataOf(parts: seq<bytes>): seq<Chunk> {
    seq(|parts|, i requires 0 <= i < |parts| => Data(parts[i]))
  }

  function PrintFile(f: Section): seq<Chunk> {
    [Header(f.header)] + DataOf(f.parts) + (if f.trailer.Some? then [f.trailer.value] else []) + f.stray
  }

  function Print(fs: seq<Section>): seq<Chunk> {
    if fs == [] then [] else Print(fs[..|fs| - 1]) + PrintFile(fs[|fs| - 1])
  }

  /** Adds one message to the sections read so far; `lead` holds messages before any header. */
  function ParseStep(lead: seq<Chunk>, fs: seq<Section>, c: Chunk): (seq<Chunk>, seq<Section>) {
    if c.Header? then (lead, fs + [Section(c.header, [], None, [])])
    else if fs == [] then (lead + [c], fs)
    else (lead, fs[|fs| - 1 := Extended(fs[|fs| - 1], c)])
  }

  function Parse(cs: seq<Chunk>): (seq<Chunk>, seq<Section>) {
    if cs == [] then ([], []) else
      var p := Parse(cs[..|cs| - 1]);
      ParseStep(p.0, p.1, cs[|cs| - 1])
  }

  lemma PrintLast(fs: seq<Section>, f: Section)
    requires fs != []
    ensures Print(fs[|fs| - 1 := f]) == Print(fs[..|fs| - 1]) + PrintFile(f)
  {
    var gs := fs[|fs| - 1 := f];
    assert gs[..|gs| - 1] == fs[..|fs| - 1];
  }

  lemma PrintAppend(fs: seq<Section>, f: Section)
    ensures Print(fs + [f]) == Print(fs) + PrintFile(f)
  {
    assert (fs + [f])[..|fs|] == fs;
  }

  /** The last section after one more message that is not a header. */
  function Extended(f: Section, c: Chunk): Section {
    if f.trailer.Some? then f.(stray := f.stray + [c])
    else if c.Data? then f.(parts := f.parts + [c.data])
    else f.(trailer := Some(c))
  }

  lemma ExtendedPrints(f: Section, c: Chunk)
    requires WellFormed(f) && !c.Header?
    ensures WellFormed(Extended(f, c)) && PrintFile(Extended(f, c)) == PrintFile(f) + [c]
  {
  }

  lemma ParseStepPrints(lead: seq<Chunk>, fs: seq<Section>, c: Chunk)
    requires NoHeaders(lead) && forall f | f in fs :: WellFormed(f)
    ensures var p := ParseStep(lead, fs, c);
            && NoHeaders(p.0) && (forall f | f in p.1 :: WellFormed(f))
            && p.0 + Print(p.1) == lead + Print(fs) + [c]
  {
    if c.Header? {
      OpensSection(fs, c);
    } else if fs != [] {
      ExtendsLast(fs, c);
    }
  }

  lemma OpensSection(fs: seq<Section>, c: Chunk)
    requires c.Header?
    ensures Print(fs + [Section(c.header, [], None, [])]) == Print(fs) + [c]
  {
    PrintAppend(fs, Section(c.header, [], None, []));
    assert PrintFile(Section(c.header, [], None, [])) == [c];
  }

  lemma ExtendsLast(fs: seq<Section>, c: Chunk)
    requires fs != [] && !c.Header? && forall f | f in fs :: WellFormed(f)
    ensures var gs := fs[|fs| - 1 := Extended(fs[|fs| - 1], c)];
      (forall f | f in gs :: WellFormed(f)) && Print(gs) == Print(fs) + [c]
  {
    var f := fs[|fs| - 1];
    assert f in fs;
    ExtendedPrints(f, c);
    PrintLast(fs, Extended(f, c));
    assert Print(fs) == Print(fs[..|fs| - 1]) + PrintFile(f);
  }

  /** Every stream is a list of sections after some leading messages. */
  lemma {:induction false} ParseCoversStream(cs: seq<Chunk>)
    ensures var p := Parse(cs);
            NoHeaders(p.0) && (forall f | f in p.1 :: WellFormed(f)) && p.0 + Print(p.1) == cs
  {
    if cs != [] {
      var n := |cs| - 1;
      ParseCoversStream(cs[..n]);
      var p := Parse(cs[..n]);
      ParseStepPrints(p.0, p.1, cs[n]);
      assert cs == cs[..n] + [cs[n]];
    }
  }

  // ------------------------------------------------------------------ the upload parser

  /** The variables of `Upload`: the pending header, the temporary file, and what was stored. */
  datatype Receiver = Receiver(header: Option<FileHeader>, tmp: Option<bytes>,
                               stored: seq<(FileHeader, bytes)>, filesCount: nat, bytesTotal: nat)

  const Start: Receiver := Receiver(None, None, [], 0, 0)

  /** `finishCurrentFile` */
  function FinishFile(r: Receiver): Receiver {
    if r.header.None? || r.tmp.None? then r
    else Receiver(None, None, r.stored + [(r.header.value, r.tmp.value)], r.filesCount + 1, r.bytesTotal + |r.tmp.value|)
  }

  function Receive(r: Receiver, c: Chunk): Receiver {
    match c
    case Header(h) =>
      var r' := if r.header.Some? then FinishFile(r) else r;
      r'.(header := Some(h), tmp := Some([]))
    case Data(d) => if r.tmp.None? then r else r.(tmp := Some(r.tmp.value + d))
    case Trailer(_, _) => FinishFile(r)
  }

  function ReceiveAll(r: Receiver, cs: seq<Chunk>): Receiver {
    if cs == [] then r else Receive(ReceiveAll(r, cs[..|cs| - 1]), cs[|cs| - 1])
  }

  /** The end of the stream stores a file whose trailer never came. */
  function AtEnd(r: Receiver): Receiver {
    if r.header.Some? then FinishFile(r) else r
  }

  /** What the sections of a stream amount to. */
  function Contents(fs: seq<Section>): seq<(FileHeader, bytes)> {
    if fs == [] then [] else
      var f := fs[|fs| - 1];
      Contents(fs[..|fs| - 1]) + [(f.header, Flatten(f.parts))]
  }

  function TotalBytes(files: seq<(FileHeader, bytes)>): nat {
    if files == [] then 0 else TotalBytes(files[..|files| - 1]) + |files[|files| - 1].1|
  }

  /** The receiver has stored the given files, and counts them. */
  ghost predicate HasStored(r: Receiver, files: seq<(FileHeader, bytes)>) {
    r.stored == files && r.filesCount == |files| && r.bytesTotal == TotalBytes(files)
  }

  lemma {:induction false} ReceiveConcat(r: Receiver, a: seq<Chunk>, b: seq<Chunk>)
    ensures ReceiveAll(r, a + b) == ReceiveAll(ReceiveAll(r, a), b)
  {
    if b == [] {
      assert a + b == a;
    } else {
      var n := |b| - 1;
      ReceiveConcat(r, a, b[..n]);
      assert (a + b)[..|a + b| - 1] == a + b[..n];
    }
  }

  /** Without a pending file, messages other than headers change nothing. */
  lemma {:induction false} StrayIgnored(r: Receiver, cs: seq<Chunk>)
    requires r.header.None? && r.tmp.None? && NoHeaders(cs)
    ensures ReceiveAll(r, cs) == r
  {
    if cs != [] {
      var n := |cs| - 1;
      assert cs[n] in cs;
      forall c | c in cs[..n] ensures c in cs {}
      StrayIgnored(r, cs[..n]);
    }
  }

  lemma {:induction false} DataAccumulates(r: Receiver, parts: seq<bytes>)
    requires r.tmp.Some?
    ensures ReceiveAll(r, DataOf(parts)) == r.(tmp := Some(r.tmp.value + Flatten(parts)))
  {
    if parts == [] {
      assert r.tmp.value + [] == r.tmp.value;
    } else {
      var n := |parts| - 1;
      DataAccumulates(r, parts[..n]);
      assert DataOf(parts)[..n] == DataOf(parts[..n]);
      assert r.tmp.value + Flatten(parts[..n]) + parts[n] == r.tmp.value + Flatten(parts);
    }
  }

  /** One section: the file before it is finished, and its own file is pending or stored. */
  lemma SectionReceived(r: Receiver, f: Section)
    requires WellFormed(f) && (r.header.Some? <==> r.tmp.Some?)
    ensures AtEnd(ReceiveAll(r, PrintFile(f)))
            == AtEnd(AtEnd(r).(header := Some(f.header), tmp := Some(Flatten(f.parts))))
    ensures var r' := ReceiveAll(r, PrintFile(f)); r'.header.Some? <==> r'.tmp.Some?
  {
    var begun := AtEnd(r).(header := Some(f.header), tmp := Some([]));
    var full := begun.(tmp := Some(Flatten(f.parts)));
    var tail := if f.trailer.Some? then [f.trailer.value] else [];
    var h := [Header(f.header)];
    assert ReceiveAll(r, h) == begun by {
      assert h[..0] == [];
    }
    ReceiveConcat(r, h, DataOf(f.parts));
    DataAccumulates(begun, f.parts);
    assert [] + Flatten(f.parts) == Flatten(f.parts);
    ReceiveConcat(r, h + DataOf(f.parts), tail);
    ReceiveConcat(r, h + DataOf(f.parts) + tail, f.stray);
    if f.trailer.Some? {
      assert tail[..0] == [];
      StrayIgnored(FinishFile(full), f.stray);
    }
  }

  lemma StoredMore(r: Receiver, files: seq<(FileHeader, bytes)>, h: FileHeader, d: bytes)
    requires HasStored(AtEnd(r), files)
    ensures HasStored(AtEnd(AtEnd(r).(header := Some(h), tmp := Some(d))), files + [(h, d)])
  {
    assert (files + [(h, d)])[..|files|] == files;
  }

  /** The sections of a stream are stored one by one, in order, trailers or not. */
  lemma {:induction false} SectionsReceived(fs: seq<Section>)
    requires forall f | f in fs :: WellFormed(f)
    ensures var r := ReceiveAll(Start, Print(fs));
            (r.header.Some? <==> r.tmp.Some?) && HasStored(AtEnd(r), Contents(fs))
  {
    if fs != [] {
      var n := |fs| - 1;
      assert fs[n] in fs;
      forall f | f in fs[..n] ensures f in fs {}
      SectionsReceived(fs[..n]);
      ReceiveConcat(Start, Print(fs[..n]), PrintFile(fs[n]));
      var r := ReceiveAll(Start, Print(fs[..n]));
      SectionReceived(r, fs[n]);
      StoredMore(r, Contents(fs[..n]), fs[n].header, Flatten(fs[n].parts));
    }
  }

  /** On every stream whatsoever, Upload stores one file per header, in order: the data messages
      up to the next trailer or header. Everything else is ignored. */
  lemma UploadOfAnyStream(cs: seq<Chunk>)
    ensures HasStored(AtEnd(ReceiveAll(Start, cs)), Contents(Parse(cs).1))
  {
    var p := Parse(cs);
    ParseCoversStream(cs);
    ReceiveConcat(Start, p.0, Print(p.1));
    StrayIgnored(Start, p.0);
    SectionsReceived(p.1);
  }

  lemma {:induction false} StoredGrows(r: Receiver, cs: seq<Chunk>)
    ensures r.stored <= ReceiveAll(r, cs).stored <= AtEnd(ReceiveAll(r, cs)).stored
  {
    if cs != [] {
      StoredGrows(r, cs[..|cs| - 1]);
    }
  }

  lemma PrefixStored(cs: seq<Chunk>, i: nat)
    requires i <= |cs|
    ensures ReceiveAll(Start, cs[..i]).stored <= ReceiveAll(Start, cs).stored
  {
    ReceiveConcat(Start, cs[..i], cs[i..]);
    assert cs[..i] + cs[i..] == cs;
    StoredGrows(ReceiveAll(Start, cs[..i]), cs[i..]);
  }

  /** What has been stored before the end of a stream is a prefix of what the stream amounts to. */
  lemma StoredIsPrefix(cs: seq<Chunk>)
    ensures ReceiveAll(Start, cs).stored <= Contents(Parse(cs).1)
  {
    UploadOfAnyStream(cs);
    StoredGrows(Start, cs);
  }

  // ----------------------------------------------------------------- the server's loops

  datatype UploadSummary = UploadSummary(filesReceived: nat, bytesTotal: nat)

  /** Later writes of a hash replace earlier ones. */
  function PutAll(blobs: map<string, bytes>, files: seq<(FileHeader, bytes)>): map<string, bytes> {
    if files == [] then blobs else
      var f := files[|files| - 1];
      PutAll(blobs, files[..|files| - 1])[f.0.hash := f.1]
  }

  lemma PutAllAppend(blobs: map<string, bytes>, files: seq<(FileHeader, bytes)>, f: (FileHeader, bytes))
    ensures PutAll(blobs, files + [f]) == PutAll(blobs, files)[f.0.hash := f.1]
  {
    assert (files + [f])[..|files|] == files;
  }

  function EntryOf(h: FileHeader): BackupEntry {
    BackupEntry(0, "", h.hash, h.fileName, h.filePath, h.fileSize,
                if h.permissions != 0 then Some(h.permissions) else None, h.symlink, h.symlinkTarget,
                h.encryptedDEK, h.nonce, 0)
  }

  /** One row per file, in order, from id `first` on. */
  function WithRows(rows: Table, first: nat, files: seq<(FileHeader, bytes)>): Table {
    if files == [] then rows
    else
      var n := |files| - 1;
      WithRows(rows, first, files[..n])[first + n := RowFor(EntryOf(files[n].0), first + n)]
  }

  lemma WithRowsAppend(rows: Table, first: nat, files: seq<(FileHeader, bytes)>, f: (FileHeader, bytes))
    ensures WithRows(rows, first, files + [f])
      == WithRows(rows, first, files)[first + |files| := RowFor(EntryOf(f.0), first + |files|)]
  {
    assert (files + [f])[..|files|] == files;
  }

  /** The row says of the file what its header says, with no permissions for zero. */
  predicate RowSays(e: BackupEntry, h: FileHeader) {
    && e.hash == h.hash && e.fileName == h.fileName && e.filePath == h.filePath && e.fileSize == h.fileSize
    && e.permissions == (if h.permissions == 0 then None else Some(h.permissions))
    && e.symlink == h.symlink && e.symlinkTarget == h.symlinkTarget
    && e.encryptedDEK == h.encryptedDEK && e.nonce == h.nonce && e.backupID == ""
  }

  predicate HasRow(t: Table, id: nat, h: FileHeader) {
    id in t && t[id].id == id && RowSays(t[id], h)
  }

  /** File i has row first + i, the rows that were there before are still the same, and there is
      no other. */
  ghost predicate RowsSay(t: Table, rows: Table, first: nat, files: seq<(FileHeader, bytes)>) {
    && (forall i | 0 <= i < |files| :: HasRow(t, first + i, files[i].0))
    && (forall id | id in rows && !(first <= id < first + |files|) :: id in t && t[id] == rows[id])
    && (forall id | id in t :: id in rows || first <= id < first + |files|)
  }

  lemma {:induction false} WithRowsSay(rows: Table, first: nat, files: seq<(FileHeader, bytes)>)
    ensures RowsSay(WithRows(rows, first, files), rows, first, files)
  {
    var t := WithRows(rows, first, files);
    if files == [] {
      assert t == rows;
    } else {
      var n := |files| - 1;
      var t0 := WithRows(rows, first, files[..n]);
      WithRowsSay(rows, first, files[..n]);
      assert t == t0[first + n := RowFor(EntryOf(files[n].0), first + n)];
      forall i | 0 <= i < |files| ensures HasRow(t, first + i, files[i].0) {
        if i < n {
          assert HasRow(t0, first + i, files[..n][i].0);
        }
      }
    }
  }

  class DataServer {
    const store: CAS
    const repo: Repository
    /** Temporary files never fail. */
    const reliable: bool

    constructor (store: CAS, repo: Repository, reliable: bool)
      ensures this.store == store && this.repo == repo && this.reliable == reliable
    {
      this.store, this.repo, this.reliable := store, repo, reliable;
    }

    /** Nothing outside fails the upload of these files, and their hashes are proper names. */
    ghost predicate Works(files: seq<(FileHeader, bytes)>) {
      && reliable && store.reliable && repo.reliable
      && forall k | 0 <= k < |files| :: store.wellFormed(files[k].0.hash)
    }

    /** `storeFileFromReader`: the blob, then the row. */
    method StoreFile(h: FileHeader, data: bytes) returns (ok: bool)
      requires repo.Valid()
      modifies store`blobs, repo`entries, repo`nextID
      ensures repo.Valid()
      ensures ok ==> && store.blobs == old(store.blobs)[h.hash := data]
                     && repo.entries == old(repo.entries)[old(repo.nextID) := RowFor(EntryOf(h), old(repo.nextID))]
                     && repo.nextID == old(repo.nextID) + 1
      ensures !ok ==> && repo.entries == old(repo.entries) && repo.nextID == old(repo.nextID)
                      && (store.blobs == old(store.blobs) || store.blobs == old(store.blobs)[h.hash := data])
      ensures store.reliable && repo.reliable && store.wellFormed(h.hash) ==> ok
    {
      var put := store.Put(h.hash, data);
      if put.Err? {
        return false;
      }
      var inserted := repo.InsertBackupEntry(EntryOf(h));
      return inserted.Ok?;
    }

    /** `Upload`. The stream may break after the given messages; then nothing is summarised. On
        every exit the first n files are stored with their rows; if that is not all of them, the
        blob of the next one may be there without its row. */
    method Upload(cs: seq<Chunk>, broken: bool) returns (r: Result<UploadSummary, Error>, ghost n: nat)
      requires repo.Valid()
      modifies store`blobs, repo`entries, repo`nextID
      ensures repo.Valid()
      ensures broken ==> r.Err?
      ensures !broken && Works(Contents(Parse(cs).1)) ==> r.Ok?
      ensures n <= |Contents(Parse(cs).1)| && (r.Ok? ==> n == |Contents(Parse(cs).1)|)
      ensures RowsSay(repo.entries, old(repo.entries), old(repo.nextID), Contents(Parse(cs).1)[..n])
      ensures var files := Contents(Parse(cs).1);
              Partly(old(store.blobs), old(repo.entries), old(repo.nextID), files[..n], files)
      ensures r.Ok? ==>
                var files := Contents(Parse(cs).1);
                && store.blobs == PutAll(old(store.blobs), files)
                && repo.nextID == old(repo.nextID) + |files|
                && repo.entries == WithRows(old(repo.entries), old(repo.nextID), files)
                && r.value == UploadSummary(|files|, TotalBytes(files))
    {
      ghost var blobs, rows, first := store.blobs, repo.entries, repo.nextID;
      ghost var files := Contents(Parse(cs).1);
      var st, ok;
      ghost var done;
      st, ok, done := ReceiveLoop(cs);
      StoredIsPrefix(cs);
      UploadOfAnyStream(cs);
      if !ok {
        PartlyMore(blobs, rows, first, done, ReceiveAll(Start, cs).stored, files);
        WithRowsSay(rows, first, files[..|done|]);
        return Err(IO), |done|;
      }
      if broken {
        RecordedIsPartly(blobs, rows, first, st, files);
        WithRowsSay(rows, first, files[..|st.stored|]);
        return Err(IO), |st.stored|;
      }
      if st.header.Some? {
        ghost var was := st;
        st, ok := Finish(st, blobs, rows, first);
        if !ok {
          PartlyMore(blobs, rows, first, was.stored, FinishFile(was).stored, files);
          WithRowsSay(rows, first, files[..|was.stored|]);
          return Err(IO), |was.stored|;
        }
      }
      RecordedIsPartly(blobs, rows, first, st, files);
      WithRowsSay(rows, first, files[..|st.stored|]);
      return Ok(UploadSummary(st.filesCount, st.bytesTotal)), |st.stored|;
    }

    /** The receive loop: at its end, or where it stopped with an error. */
    method ReceiveLoop(cs: seq<Chunk>) returns (st: Receiver, ok: bool, ghost done: seq<(FileHeader, bytes)>)
      requires repo.Valid()
      modifies store`blobs, repo`entries, repo`nextID
      ensures repo.Valid()
      ensures ok ==> st == ReceiveAll(Start, cs) && Recorded(old(store.blobs), old(repo.entries), old(repo.nextID), st)
      ensures !ok ==> Partly(old(store.blobs), old(repo.entries), old(repo.nextID), done, ReceiveAll(Start, cs).stored)
      ensures Works(Contents(Parse(cs).1)) ==> ok
    {
      ghost var blobs, rows, first := store.blobs, repo.entries, repo.nextID;
      st, ok, done := Start, true, [];
      for i := 0 to |cs|
        invariant repo.Valid() && ok && st == ReceiveAll(Start, cs[..i])
        invariant Recorded(blobs, rows, first, st)
      {
        assert cs[..i + 1][..i] == cs[..i];
        PrefixStored(cs, i + 1);
        StoredIsPrefix(cs);
        WorksPrefix(ReceiveAll(Start, cs[..i + 1]).stored, Contents(Parse(cs).1));
        st, ok, done := Accept(st, cs[i], blobs, rows, first);
        if !ok {
          PartlyMore(blobs, rows, first, done, ReceiveAll(Start, cs[..i + 1]).stored, ReceiveAll(Start, cs).stored);
          assert ReceiveAll(Start, cs).stored[..|done|] == done;
          return;
        }
      }
      assert cs[..|cs|] == cs;
    }

    lemma WorksPrefix(some: seq<(FileHeader, bytes)>, all: seq<(FileHeader, bytes)>)
      requires some <= all
      ensures Works(all) ==> Works(some)
    {
    }

    /** The node holds what the receiver has stored, on top of what was there before. */
    ghost predicate Recorded(blobs: map<string, bytes>, rows: Table, first: nat, st: Receiver)
      reads store, repo
    {
      && store.blobs == PutAll(blobs, st.stored)
      && repo.nextID == first + |st.stored|
      && repo.entries == WithRows(rows, first, st.stored)
    }

    /** The files in `done` are stored with their rows, and no others of `all`, except that the
        blob of the next one may be stored already. */
    ghost predicate Partly(blobs: map<string, bytes>, rows: Table, first: nat, done: seq<(FileHeader, bytes)>,
                           all: seq<(FileHeader, bytes)>)
      reads store, repo
    {
      && done <= all && repo.nextID == first + |done| && repo.entries == WithRows(rows, first, done)
      && (store.blobs == PutAll(blobs, done)
          || (|done| < |all| && store.blobs == PutAll(blobs, all[..|done| + 1])))
    }

    lemma PartlyMore(blobs: map<string, bytes>, rows: Table, first: nat, done: seq<(FileHeader, bytes)>,
                     some: seq<(FileHeader, bytes)>, all: seq<(FileHeader, bytes)>)
      requires Partly(blobs, rows, first, done, some) && some <= all
      ensures |done| <= |all| && all[..|done|] == done && Partly(blobs, rows, first, all[..|done|], all)
    {
      assert all[..|done|] == done;
      assert |done| < |some| ==> all[..|done| + 1] == some[..|done| + 1];
    }

    lemma RecordedIsPartly(blobs: map<string, bytes>, rows: Table, first: nat, st: Receiver, all: seq<(FileHeader, bytes)>)
      requires Recorded(blobs, rows, first, st) && st.stored <= all
      ensures |st.stored| <= |all| && Partly(blobs, rows, first, all[..|st.stored|], all)
    {
      assert all[..|st.stored|] == st.stored;
    }

    /** The body of the receive loop. */
    method Accept(st: Receiver, c: Chunk, ghost blobs: map<string, bytes>, ghost rows: Table, ghost first: nat)
      returns (st': Receiver, ok: bool, ghost done: seq<(FileHeader, bytes)>)
      requires repo.Valid() && Recorded(blobs, rows, first, st)
      modifies store`blobs, repo`entries, repo`nextID
      ensures repo.Valid()
      ensures ok ==> st' == Receive(st, c) && Recorded(blobs, rows, first, st')
      ensures !ok ==> Partly(blobs, rows, first, done, Receive(st, c).stored)
      ensures Works(Receive(st, c).stored) ==> ok
    {
      st', ok, done := st, true, st.stored;
      match c
      case Header(h) =>
        if st.header.Some? {
          st', ok := Finish(st, blobs, rows, first);
          if !ok {
            return;
          }
        }
        done := st'.stored;
        var failed := Glitch(reliable);
        if failed {
          ok := false;
          return;
        }
        st' := st'.(header := Some(h), tmp := Some([]));
      case Data(d) =>
        if st.tmp.Some? {
          var failed := Glitch(reliable);
          ok := !failed;
          st' := st.(tmp := Some(st.tmp.value + d));
        }
      case Trailer(_, _) =>
        st', ok := Finish(st, blobs, rows, first);
    }

    method Finish(st: Receiver, ghost blobs: map<string, bytes>, ghost rows: Table, ghost first: nat)
      returns (st': Receiver, ok: bool)
      requires repo.Valid() && Recorded(blobs, rows, first, st)
      modifies store`blobs, repo`entries, repo`nextID
      ensures repo.Valid()
      ensures ok ==> st' == FinishFile(st) && Recorded(blobs, rows, first, st')
      ensures !ok ==> Partly(blobs, rows, first, st.stored, FinishFile(st).stored)
      ensures Works(FinishFile(st).stored) ==> ok
    {
      st', ok := st, true;
      if st.header.None? || st.tmp.None? {
        return;
      }
      var failed := Glitch(reliable);
      if failed {
        return st, false;
      }
      ok := StoreFile(st.header.value, st.tmp.value);
      assert FinishFile(st).stored[|st.stored|] == (st.header.value, st.tmp.value);
      assert FinishFile(st).stored[..|st.stored| + 1] == FinishFile(st).stored;
      PutAllAppend(blobs, st.stored, (st.header.value, st.tmp.value));
      WithRowsAppend(rows, first, st.stored, (st.header.value, st.tmp.value));
      st' := FinishFile(st);
    }

    /** `Download`: header, non-empty data messages of at most the chunk size, trailer. The
        file may come back from the disk in pieces of any length. */
    method Download(h: string) returns (r: Result<seq<Chunk>, Error>)
      ensures r.Ok? ==> h in store.blobs && exists f ::
                && Carries(f, h, store.blobs[h]) && r.value == PrintFile(f)
                && (forall p | p in f.parts :: 0 < |p| <= 65_536)
      ensures h == "" ==> r == Err(BadArgument)
      ensures store.reliable && store.wellFormed(h) && h != "" ==> if h in store.blobs then r.Ok? else r == Err(NotFound)
    {
      if h == "" {
        return Err(BadArgument);
      }
      var data := store.Get(h);
      if data.Err? {
        return Err(data.error);
      }
      var header := FileHeader(h, "", "", 0, 0, false, "", [], []);
      var cs := [Header(header)];
      ghost var parts: seq<bytes> := [];
      var sent := 0;
      while sent < |data.value|
        invariant sent <= |data.value| && Flatten(parts) == data.value[..sent]
        invariant cs == [Header(header)] + DataOf(parts)
        invariant forall p | p in parts :: 0 < |p| <= CHUNK_SIZE
      {
        var n: nat :| 0 < n <= CHUNK_SIZE && sent + n <= |data.value|;
        var piece := data.value[sent..sent + n];
        assert (parts + [piece])[..|parts|] == parts;
        assert DataOf(parts + [piece]) == DataOf(parts) + [Data(piece)];
        cs, parts := cs + [Data(piece)], parts + [piece];
        assert data.value[..sent] + piece == data.value[..sent + n];
        sent := sent + n;
      }
      assert data.value[..|data.value|] == data.value;
      ghost var f := Section(header, parts, Some(Trailer(h, sent)), []);
      assert Carries(f, h, data.value);
      cs := cs + [Trailer(h, sent)];
      assert cs == PrintFile(f);
      return Ok(cs);
    }
  }

  /** The section is of hash h, complete, and its data messages make up the given bytes. */
  ghost predicate Carries(f: Section, h: string, data: bytes) {
    && WellFormed(f) && f.header.hash == h && Flatten(f.parts) == data
    && f.trailer == Some(Trailer(h, |data|)) && f.stray == []
  }

  // ----------------------------------------------------------------------- the client

  /** The messages are one complete section for the file, in full pieces but for the last. */
  ghost predicate Sends(cs: seq<Chunk>, header: FileHeader, data: bytes) {
    exists f: Section :: f.header == header && Carries(f, header.hash, data) && InFullPieces(f.parts) && cs == PrintFile(f)
  }

  ghost predicate InFullPieces(parts: seq<bytes>) {
    && (forall i | 0 <= i < |parts| :: 0 < |parts[i]| <= 65_536)
    && (forall i | 0 <= i < |parts| - 1 :: |parts[i]| == 65_536)
  }

  /** The header for a local entry; missing permissions are sent as zero. */
  function HeaderOf(h: string, wrappedDEK: bytes, nonce: bytes, e: BackupEntry): FileHeader {
    FileHeader(h, e.fileName, e.filePath, e.fileSize, if e.permissions.Some? then e.permissions.value else 0,
               e.symlink, e.symlinkTarget, wrappedDEK, nonce)
  }

  /** The row that the server makes of the header is the client's entry under the given hash and
      key, but for the run it belongs to and permissions of zero, which become none. */
  lemma RowOfHeader(h: string, wrappedDEK: bytes, nonce: bytes, e: BackupEntry, row: BackupEntry)
    requires RowSays(row, HeaderOf(h, wrappedDEK, nonce, e))
    ensures row == BackupEntry(row.id, "", h, e.fileName, e.filePath, e.fileSize,
                               if e.permissions == Some(0) then None else e.permissions, e.symlink, e.symlinkTarget,
                               wrappedDEK, nonce, row.backupDate)
  {
  }

  /** `UploadFile`: what it sends. */
  method UploadFile(hash: string, data: bytes, wrappedDEK: bytes, nonce: bytes, entry: BackupEntry)
    returns (cs: seq<Chunk>)
    ensures Sends(cs, HeaderOf(hash, wrappedDEK, nonce, entry), data)
  {
    var header := HeaderOf(hash, wrappedDEK, nonce, entry);
    cs := [Header(header)];
    ghost var parts: seq<bytes> := [];
    var read := 0;
    while read < |data|
      invariant read <= |data| && Flatten(parts) == data[..read]
      invariant cs == [Header(header)] + DataOf(parts)
      invariant forall i | 0 <= i < |parts| :: 0 < |parts[i]| <= CHUNK_SIZE
      invariant forall i | 0 <= i < |parts| - 1 :: |parts[i]| == CHUNK_SIZE
      invariant read < |data| && parts != [] ==> |parts[|parts| - 1]| == CHUNK_SIZE
    {
      var n := if |data| - read < CHUNK_SIZE then |data| - read else CHUNK_SIZE;
      var piece := data[read..read + n];
      assert (parts + [piece])[..|parts|] == parts;
      assert DataOf(parts + [piece]) == DataOf(parts) + [Data(piece)];
      cs, parts := cs + [Data(piece)], parts + [piece];
      assert data[..read] + piece == data[..read + n];
      read := read + n;
    }
    assert data[..|data|] == data;
    cs := cs + [Trailer(header.hash, |data|)];
    ghost var f := Section(header, parts, Some(Trailer(header.hash, |data|)), []);
    assert Carries(f, header.hash, data) && InFullPieces(f.parts) && cs == PrintFile(f);
  }

  /** `DownloadFile`: the concatenation of the data messages. */
  function Collect(cs: seq<Chunk>): bytes {
    if cs == [] then [] else
      var c := cs[|cs| - 1];
      Collect(cs[..|cs| - 1]) + if c.Data? then c.data else []
  }

  method DownloadFile(cs: seq<Chunk>) returns (data: bytes)
    ensures data == Collect(cs)
  {
    data := [];
    for i := 0 to |cs|
      invariant data == Collect(cs[..i])
    {
      assert cs[..i + 1][..i] == cs[..i];
      match cs[i]
      case Header(_) =>
      case Data(d) => data := data + d;
      case Trailer(_, _) =>
    }
    assert cs[..|cs|] == cs;
  }

  lemma {:induction false} CollectData(h: FileHeader, parts: seq<bytes>)
    ensures Collect([Header(h)] + DataOf(parts)) == Flatten(parts)
  {
    var cs := [Header(h)] + DataOf(parts);
    if parts == [] {
      assert cs[..0] == [];
    } else {
      var n := |parts| - 1;
      CollectData(h, parts[..n]);
      assert cs[..|cs| - 1] == [Header(h)] + DataOf(parts[..n]);
    }
  }

  lemma CollectSection(f: Section, h: string, data: bytes)
    requires Carries(f, h, data)
    ensures Collect(PrintFile(f)) == data
  {
    var cs := PrintFile(f);
    CollectData(f.header, f.parts);
    assert cs[..|cs| - 1] == [Header(f.header)] + DataOf(f.parts);
  }

  lemma {:induction false} LastWriteWins(blobs: map<string, bytes>, files: seq<(FileHeader, bytes)>, i: nat)
    requires i < |files| && forall j | i < j < |files| :: files[j].0.hash != files[i].0.hash
    ensures files[i].0.hash in PutAll(blobs, files) && PutAll(blobs, files)[files[i].0.hash] == files[i].1
  {
    if i < |files| - 1 {
      LastWriteWins(blobs, files[..|files| - 1], i);
    }
  }

  lemma {:induction false} ContentsAt(fs: seq<Section>, i: nat)
    requires i < |fs|
    ensures |Contents(fs)| == |fs| && Contents(fs)[i] == (fs[i].header, Flatten(fs[i].parts))
  {
    var n := |fs| - 1;
    if i < n {
      ContentsAt(fs[..n], i);
    } else if n > 0 {
      ContentsAt(fs[..n], 0);
    }
  }

  /** Round trip. Any files, each split into data messages in any way, with any trailers dropped,
      are uploaded in one stream: they are stored in order with matching totals, and whatever a
      later download of one of them sends reassembles to its bytes. */
  lemma UploadThenDownload(fs: seq<Section>, blobs: map<string, bytes>, i: nat, sent: Section)
    requires (forall f | f in fs :: WellFormed(f)) && i < |fs|
    requires forall j | i < j < |fs| :: fs[j].header.hash != fs[i].header.hash
    requires var after := PutAll(blobs, AtEnd(ReceiveAll(Start, Print(fs))).stored); var h := fs[i].header.hash;
             h in after ==> Carries(sent, h, after[h])
    ensures HasStored(AtEnd(ReceiveAll(Start, Print(fs))), Contents(fs))
    ensures fs[i].header.hash in PutAll(blobs, AtEnd(ReceiveAll(Start, Print(fs))).stored)
    ensures Collect(PrintFile(sent)) == Flatten(fs[i].parts)
  {
    SectionsReceived(fs);
    forall j | 0 <= j < |fs| ensures |Contents(fs)| == |fs| && Contents(fs)[j] == (fs[j].header, Flatten(fs[j].parts)) {
      ContentsAt(fs, j);
    }
    ContentsAt(fs, i);
    LastWriteWins(blobs, Contents(fs), i);
    CollectSection(sent, fs[i].header.hash, Flatten(fs[i].parts));
  }
}
