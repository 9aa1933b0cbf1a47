/** internal/registry/registry.go: the clients a server knows, kept in memory and in the table
    client_registry, and the scheduled backups they missed, kept in memory and in the table
    missed_schedules. Instants are nanoseconds since Go's zero time. */
module Registry {
  import opened Foundations

  const SECOND: int := 1000000000

  datatype Status = Online | Offline | BackingUp

  datatype Schedule = Schedule(fullCron: string, autoCron: string)

  datatype Identity = Identity(osFamily: string, machineID: string, hostname: string)

  /** `MissedBackup` */
  datatype Missed = Missed(level: string, at: int, resolved: bool)

  /** `ClientInfo` */
  datatype Client = Client(address: string, status: Status, lastSeen: int, lastBackup: int,
                           watcherActive: bool, backupActive: bool, disabled: bool,
                           schedule: Option<Schedule>, missed: seq<Missed>, registeredAt: int,
                           identity: Identity, fingerprint: string)

  /** A row of client_registry; times are whole seconds of UTC. */
  datatype Row = Row(address: string, status: Status, lastSeen: Option<int>, lastBackup: Option<int>,
                     watcherActive: bool, fullCron: string, autoCron: string, registeredAt: int,
                     disabled: bool, identity: Identity, fingerprint: string)

  /** A row of missed_schedules; the time is the local wall clock in whole seconds. */
  datatype MissedRow = MissedRow(clientID: string, level: string, at: int, resolved: bool)

  /** The zone is the server's offset from UTC in seconds; `lower` is strings.ToLower. */
  datatype Config = Config(threshold: int, zone: int, lower: string -> string)

  datatype Reg = Reg(clients: map<string, Client>, rows: map<string, Row>, missed: seq<MissedRow>)

  datatype Error = UnknownClient | ActiveElsewhere | StillOnline | IncompatibleOS | NotPersisted

  // ------------------------------------------------------------------ rows and records

  function Stamp(t: int): Option<int> {
    if t == 0 then None else Some(t / SECOND)
  }

  function Instant(s: Option<int>): int {
    if s.None? then 0 else s.value * SECOND
  }

  function Whole(t: int): int {
    t / 1_000_000_000 * 1_000_000_000
  }

  function CronsOf(s: Option<Schedule>): Schedule {
    if s.None? then Schedule("", "") else s.value
  }

  function RowOf(c: Client): Row {
    Row(c.address, c.status, Stamp(c.lastSeen), Stamp(c.lastBackup), c.watcherActive,
        CronsOf(c.schedule).fullCron, CronsOf(c.schedule).autoCron, c.registeredAt / SECOND,
        c.disabled, c.identity, c.fingerprint)
  }

  /** `CASE WHEN excluded.x != '' THEN excluded.x ELSE client_registry.x END` */
  function Kept(given: string, was: string): string {
    if given != "" then given else was
  }

  function Overlay(was: Identity, given: Identity): Identity {
    Identity(Kept(given.osFamily, was.osFamily), Kept(given.machineID, was.machineID), Kept(given.hostname, was.hostname))
  }

  /** The row after ON CONFLICT DO UPDATE, which leaves registered_at alone. */
  function UpdatedRow(was: Row, c: Client): Row {
    RowOf(c).(registeredAt := was.registeredAt,
              identity := Overlay(was.identity, c.identity),
              fingerprint := Kept(c.fingerprint, was.fingerprint))
  }

  function Upsert(rows: map<string, Row>, id: string, c: Client): map<string, Row> {
    rows[id := if id in rows then UpdatedRow(rows[id], c) else RowOf(c)]
  }

  function Wall(cfg: Config, t: int): int {
    t / SECOND + cfg.zone
  }

  /** The unresolved rows of a client in the order they were inserted. */
  function Waiting(missed: seq<MissedRow>, id: string): seq<MissedRow> {
    if missed == [] then []
    else
      var last := missed[|missed| - 1];
      Waiting(missed[..|missed| - 1], id) + (if last.clientID == id && !last.resolved then [last] else [])
  }

  /** `time.Parse` reads the wall clock back as UTC. */
  function Reread(r: MissedRow): Missed {
    Missed(r.level, r.at * SECOND, r.resolved)
  }

  function RereadAll(rs: seq<MissedRow>): (ms: seq<Missed>)
    ensures |ms| == |rs| && forall k | 0 <= k < |rs| :: ms[k] == Reread(rs[k])
  {
    seq(|rs|, k requires 0 <= k < |rs| => Reread(rs[k]))
  }

  function Resolved(missed: seq<MissedRow>, id: string): (r: seq<MissedRow>)
    ensures |r| == |missed|
  {
    seq(|missed|, k requires 0 <= k < |missed| =>
      if missed[k].clientID == id then missed[k].(resolved := true) else missed[k])
  }

  // ------------------------------------------------------------------ the operations

  /** The single active system guard: up, and seen within the threshold. */
  predicate Active(cfg: Config, c: Client, now: int) {
    c.status != Offline && c.lastSeen != 0 && now - c.lastSeen <= cfg.threshold
  }

  predicate Stale(cfg: Config, c: Client, now: int) {
    c.status != Offline && c.lastSeen != 0 && now - c.lastSeen > cfg.threshold
  }

  function Seen(c: Client, now: int, address: string, who: Identity): Client {
    c.(address := address, status := Online, lastSeen := now, identity := Overlay(c.identity, who))
  }

  function NewClient(now: int, address: string, who: Identity): Client {
    Client(address, Online, now, 0, false, false, false, None, [], now, who, "")
  }

  function WentOffline(c: Client): Client {
    c.(status := Offline, backupActive := false, watcherActive := false)
  }

  function Loaded(cfg: Config, r: Row, waiting: seq<MissedRow>, now: int): Client {
    var seen := Instant(r.lastSeen);
    Client(r.address,
           if r.status == Online && seen != 0 && now - seen > cfg.threshold then Offline else r.status,
           seen, Instant(r.lastBackup), r.watcherActive, false, r.disabled,
           if r.fullCron != "" || r.autoCron != "" then Some(Schedule(r.fullCron, r.autoCron)) else None,
           RereadAll(waiting), r.registeredAt * SECOND, r.identity, r.fingerprint)
  }

  /** The setters: each changes one record and persists it. */
  datatype Edit =
    | Heartbeat(now: int)
    | MarkOffline
    | SetSchedule(schedule: Schedule)
    | SetWatcherActive(active: bool)
    | SetBackupActive(running: bool)
    | SetDisabled(disabled: bool)
    | SetLastBackup(at: int)
    | SetSPKIFingerprint(fp: string)

  function Edited(c: Client, e: Edit): Client {
    match e
    case Heartbeat(now) => c.(lastSeen := now, status := if c.status == BackingUp then BackingUp else Online)
    case MarkOffline => c.(status := Offline)
    case SetSchedule(schedule) => c.(schedule := Some(schedule))
    case SetWatcherActive(active) => c.(watcherActive := active)
    case SetBackupActive(running) =>
      c.(backupActive := running,
         status := if running then BackingUp else if c.status == BackingUp then Online else c.status)
    case SetDisabled(disabled) => c.(disabled := disabled)
    case SetLastBackup(at) => c.(lastBackup := at)
    case SetSPKIFingerprint(fp) => c.(fingerprint := fp)
  }

  datatype Step =
    | Register(id: string, now: int, address: string, who: Identity)
    | Rebind(id: string, now: int, address: string, who: Identity, force: bool)
    | Update(id: string, edit: Edit)
    | CacheOS(id: string, osFamily: string)      // GetClientOS, reading a synced database
    | CheckOffline(now: int)
    | RefreshDisabled
    | RecordMissed(id: string, level: string, at: int)
    | ResolveMissed(id: string)
    | Restart(now: int)

  /** The error a step returns before it changes anything, if any. */
  function Refused(cfg: Config, g: Reg, s: Step): Option<Error> {
    match s
    case Register(id, now, _, who) =>
      if id in g.clients && Active(cfg, g.clients[id], now) && g.clients[id].identity.machineID != ""
         && who.machineID != "" && g.clients[id].identity.machineID != who.machineID
      then Some(ActiveElsewhere) else None
    case Rebind(id, now, _, who, force) =>
      if id !in g.clients then Some(UnknownClient)
      else if !force && Active(cfg, g.clients[id], now) then Some(StillOnline)
      else if g.clients[id].identity.osFamily != "" && who.osFamily != ""
              && cfg.lower(g.clients[id].identity.osFamily) != cfg.lower(who.osFamily)
      then Some(IncompatibleOS) else None
    case Update(id, edit) => if id in g.clients || edit.SetSPKIFingerprint? then None else Some(UnknownClient)
    case RecordMissed(id, _, _) => if id in g.clients then None else Some(UnknownClient)
    case ResolveMissed(id) => if id in g.clients then None else Some(UnknownClient)
    case _ => None
  }

  function Put(g: Reg, id: string, c: Client): Reg {
    g.(clients := g.clients[id := c], rows := Upsert(g.rows, id, c))
  }

  function AfterCheck(cfg: Config, g: Reg, now: int): Reg {
    Checking(cfg, g, now, {})
  }

  /** The check of every client but the given ones. */
  function Checking(cfg: Config, g: Reg, now: int, left: set<string>): Reg {
    g.(clients := map id | id in g.clients ::
         if id !in left && Stale(cfg, g.clients[id], now) then WentOffline(g.clients[id]) else g.clients[id],
       rows := map id | id in g.rows ::
         if id !in left && id in g.clients && Stale(cfg, g.clients[id], now)
         then UpdatedRow(g.rows[id], WentOffline(g.clients[id])) else g.rows[id])
  }

  function AfterRefresh(g: Reg): Reg {
    g.(clients := map id | id in g.clients ::
         if id in g.rows then g.clients[id].(disabled := g.rows[id].disabled) else g.clients[id])
  }

  function AfterRestart(cfg: Config, g: Reg, now: int): Reg {
    g.(clients := map id | id in g.rows :: Loaded(cfg, g.rows[id], Waiting(g.missed, id), now),
       rows := map id | id in g.rows :: UpdatedRow(g.rows[id], Loaded(cfg, g.rows[id], Waiting(g.missed, id), now)))
  }

  /** The steps that change one record and persist it. */
  predicate Writes(g: Reg, s: Step) {
    match s
    case Register(_, _, _, _) => true
    case Rebind(id, _, _, _, _) => id in g.clients
    case Update(id, _) => id in g.clients
    case CacheOS(id, osFamily) => id in g.clients && g.clients[id].identity.osFamily == "" && osFamily != ""
    case _ => false
  }

  function Written(g: Reg, s: Step): Client
    requires Writes(g, s)
  {
    match s
    case Register(id, now, address, who) =>
      if id in g.clients then Seen(g.clients[id], now, address, who) else NewClient(now, address, who)
    case Rebind(id, now, address, who, _) => Seen(g.clients[id], now, address, who)
    case Update(id, edit) => Edited(g.clients[id], edit)
    case CacheOS(id, osFamily) => g.clients[id].(identity := g.clients[id].identity.(osFamily := osFamily))
  }

  /** A step whose database writes succeed. */
  function Next(cfg: Config, g: Reg, s: Step): Reg
    requires Refused(cfg, g, s).None?
  {
    if Writes(g, s) then Put(g, s.id, Written(g, s)) else
    match s
    case CheckOffline(now) => AfterCheck(cfg, g, now)
    case RefreshDisabled => AfterRefresh(g)
    case RecordMissed(id, level, at) => AfterRecord(cfg, g, id, level, at)
    case ResolveMissed(id) => AfterResolve(g, id)
    case Restart(now) => AfterRestart(cfg, g, now)
    case _ => g
  }

  function AfterRecord(cfg: Config, g: Reg, id: string, level: string, at: int): Reg
    requires id in g.clients
  {
    g.(clients := g.clients[id := g.clients[id].(missed := g.clients[id].missed + [Missed(level, at, false)])],
       missed := g.missed + [MissedRow(id, level, Wall(cfg, at), false)])
  }

  function AfterResolve(g: Reg, id: string): Reg
    requires id in g.clients
  {
    g.(clients := g.clients[id := g.clients[id].(missed := [])], missed := Resolved(g.missed, id))
  }

  // ------------------------------------------------------------------ the invariant

  /** The row of each client says what memory says, up to whole seconds. */
  ghost predicate RowsAgree(g: Reg) {
    && g.clients.Keys == g.rows.Keys
    && forall id | id in g.clients :: g.rows[id] == RowOf(g.clients[id])
  }

  /** One miss in memory and its row: the time was written from memory, or read back. */
  predicate SameMiss(cfg: Config, m: Missed, r: MissedRow) {
    m.level == r.level && !m.resolved && !r.resolved && (r.at == Wall(cfg, m.at) || m.at == r.at * SECOND)
  }

  ghost predicate SameMisses(cfg: Config, ms: seq<Missed>, rs: seq<MissedRow>) {
    |ms| == |rs| && forall k | 0 <= k < |ms| :: SameMiss(cfg, ms[k], rs[k])
  }

  /** The list in memory is the unresolved rows, one for one and in order. */
  ghost predicate MissesAgree(cfg: Config, g: Reg) {
    && (forall id | id in g.clients :: SameMisses(cfg, g.clients[id].missed, Waiting(g.missed, id)))
    && (forall k | 0 <= k < |g.missed| :: g.missed[k].clientID in g.clients)
  }

  ghost predicate Inv(cfg: Config, g: Reg) {
    RowsAgree(g) && MissesAgree(cfg, g)
  }

  /** No step wipes a fingerprint: both callers check that theirs is not empty
      (internal/grpc/command_server.go:283, 475). */
  predicate Careful(g: Reg, s: Step) {
    s.Update? && s.edit.SetSPKIFingerprint? && s.id in g.clients ==>
      s.edit.fp != "" || g.clients[s.id].fingerprint == ""
  }

  // ------------------------------------------------------------------ rows

  /** A write that empties no identity makes the row say exactly what memory says: then the
      keep-old-value branch of the SQL has no effect. */
  predicate EmptiesNothing(was: Client, c: Client) {
    && (c.identity.osFamily != "" || was.identity.osFamily == "")
    && (c.identity.machineID != "" || was.identity.machineID == "")
    && (c.identity.hostname != "" || was.identity.hostname == "")
    && (c.fingerprint != "" || was.fingerprint == "")
  }

  lemma UpsertIsExact(was: Client, c: Client)
    requires c.registeredAt / SECOND == was.registeredAt / SECOND
    ensures UpdatedRow(RowOf(was), c) == RowOf(c) <==> EmptiesNothing(was, c)
  {
  }

  lemma PutKeepsRows(g: Reg, id: string, c: Client)
    requires RowsAgree(g)
    requires id in g.clients ==> c.registeredAt == g.clients[id].registeredAt && EmptiesNothing(g.clients[id], c)
    ensures RowsAgree(Put(g, id, c))
  {
    if id in g.clients {
      UpsertIsExact(g.clients[id], c);
    }
  }

  lemma CheckKeepsRows(cfg: Config, g: Reg, now: int)
    requires RowsAgree(g)
    ensures RowsAgree(AfterCheck(cfg, g, now))
  {
    forall id | id in g.clients ensures UpdatedRow(g.rows[id], WentOffline(g.clients[id])) == RowOf(WentOffline(g.clients[id])) {
      UpsertIsExact(g.clients[id], WentOffline(g.clients[id]));
    }
  }

  lemma LoadIsExact(cfg: Config, r: Row, waiting: seq<MissedRow>, now: int)
    ensures UpdatedRow(r, Loaded(cfg, r, waiting, now)) == RowOf(Loaded(cfg, r, waiting, now))
  {
  }

  lemma RestartKeepsRows(cfg: Config, g: Reg, now: int)
    requires RowsAgree(g)
    ensures RowsAgree(AfterRestart(cfg, g, now))
  {
    forall id | id in g.rows
      ensures AfterRestart(cfg, g, now).rows[id] == RowOf(AfterRestart(cfg, g, now).clients[id])
    {
      LoadIsExact(cfg, g.rows[id], Waiting(g.missed, id), now);
    }
  }

  /** No operation but wiping a fingerprint empties a part of an identity that was known. */
  lemma WrittenEmptiesNothing(g: Reg, s: Step)
    requires Writes(g, s) && Careful(g, s) && s.id in g.clients
    ensures EmptiesNothing(g.clients[s.id], Written(g, s))
  {
  }

  lemma WrittenLeaves(g: Reg, s: Step)
    requires Writes(g, s)
    ensures s.id in g.clients ==> Written(g, s).registeredAt == g.clients[s.id].registeredAt
    ensures Written(g, s).missed == if s.id in g.clients then g.clients[s.id].missed else []
  {
  }

  lemma StepKeepsRows(cfg: Config, g: Reg, s: Step)
    requires RowsAgree(g) && Refused(cfg, g, s).None? && Careful(g, s)
    ensures RowsAgree(Next(cfg, g, s))
  {
    if Writes(g, s) {
      WrittenLeaves(g, s);
      if s.id in g.clients { WrittenEmptiesNothing(g, s); }
      PutKeepsRows(g, s.id, Written(g, s));
    } else if s.CheckOffline? {
      CheckKeepsRows(cfg, g, s.now);
    } else if s.Restart? {
      RestartKeepsRows(cfg, g, s.now);
    }
  }

  /** Exactly when a fingerprint is wiped does memory part from the row, which keeps it. */
  lemma WipedFingerprint(cfg: Config, g: Reg, id: string, fp: string)
    requires RowsAgree(g) && id in g.clients
    ensures var s := Update(id, SetSPKIFingerprint(fp)); RowsAgree(Next(cfg, g, s)) <==> Careful(g, s)
  {
    var s := Update(id, SetSPKIFingerprint(fp));
    var c := Edited(g.clients[id], s.edit);
    UpsertIsExact(g.clients[id], c);
    if Careful(g, s) {
      StepKeepsRows(cfg, g, s);
    } else {
      assert Next(cfg, g, s).clients[id] == c && Next(cfg, g, s).rows[id] != RowOf(c);
    }
  }

  /** Re-reading the disabled flags takes over the flag of every client that has a row. */
  lemma RefreshReadsFlags(g: Reg, id: string)
    requires id in g.clients
    ensures var h := AfterRefresh(g);
      && h.rows == g.rows && h.missed == g.missed && h.clients.Keys == g.clients.Keys
      && h.clients[id].(disabled := g.clients[id].disabled) == g.clients[id]
      && h.clients[id].disabled == if id in g.rows then g.rows[id].disabled else g.clients[id].disabled
  {
  }

  /** Re-reading the disabled flags finds what memory has, as long as nobody else writes them. */
  lemma RefreshChangesNothing(g: Reg)
    requires RowsAgree(g)
    ensures AfterRefresh(g) == g
  {
    assert AfterRefresh(g).clients == g.clients;
  }

  // ------------------------------------------------------------------ missed backups

  lemma WaitingAppends(missed: seq<MissedRow>, r: MissedRow, id: string)
    ensures Waiting(missed + [r], id) == Waiting(missed, id) + if r.clientID == id && !r.resolved then [r] else []
  {
    assert (missed + [r])[..|missed + [r]| - 1] == missed;
  }

  lemma {:induction false} WaitingResolved(missed: seq<MissedRow>, id: string, other: string)
    ensures Waiting(Resolved(missed, id), other) == if other == id then [] else Waiting(missed, other)
  {
    if missed != [] {
      WaitingResolved(missed[..|missed| - 1], id, other);
      var r := Resolved(missed, id);
      assert r[..|r| - 1] == Resolved(missed[..|missed| - 1], id);
    }
  }

  lemma {:induction false} WaitingUnresolved(missed: seq<MissedRow>, id: string)
    ensures forall r | r in Waiting(missed, id) :: !r.resolved && r.clientID == id
  {
    if missed != [] {
      WaitingUnresolved(missed[..|missed| - 1], id);
    }
  }

  lemma {:induction false} NoneWaiting(missed: seq<MissedRow>, id: string)
    requires forall k | 0 <= k < |missed| :: missed[k].clientID != id
    ensures Waiting(missed, id) == []
  {
    if missed != [] {
      NoneWaiting(missed[..|missed| - 1], id);
    }
  }

  lemma PutKeepsMisses(cfg: Config, g: Reg, id: string, c: Client)
    requires MissesAgree(cfg, g)
    requires c.missed == if id in g.clients then g.clients[id].missed else []
    ensures MissesAgree(cfg, Put(g, id, c))
  {
    if id !in g.clients {
      NoneWaiting(g.missed, id);
    }
  }

  lemma OneMoreMiss(cfg: Config, ms: seq<Missed>, rs: seq<MissedRow>, m: Missed, r: MissedRow)
    requires SameMisses(cfg, ms, rs) && SameMiss(cfg, m, r)
    ensures SameMisses(cfg, ms + [m], rs + [r])
  {
  }

  lemma RecordKeepsMisses(cfg: Config, g: Reg, id: string, level: string, at: int)
    requires MissesAgree(cfg, g) && id in g.clients
    ensures MissesAgree(cfg, AfterRecord(cfg, g, id, level, at))
  {
    var h := AfterRecord(cfg, g, id, level, at);
    var m, r := Missed(level, at, false), MissedRow(id, level, Wall(cfg, at), false);
    forall other | other in h.clients ensures SameMisses(cfg, h.clients[other].missed, Waiting(h.missed, other)) {
      WaitingAppends(g.missed, r, other);
      assert SameMisses(cfg, g.clients[other].missed, Waiting(g.missed, other));
      if other == id {
        OneMoreMiss(cfg, g.clients[id].missed, Waiting(g.missed, id), m, r);
      } else {
        assert Waiting(h.missed, other) == Waiting(g.missed, other);
      }
    }
  }

  lemma ResolveKeepsMisses(cfg: Config, g: Reg, id: string)
    requires MissesAgree(cfg, g) && id in g.clients
    ensures MissesAgree(cfg, AfterResolve(g, id))
  {
    var h := AfterResolve(g, id);
    forall other | other in h.clients ensures SameMisses(cfg, h.clients[other].missed, Waiting(h.missed, other)) {
      WaitingResolved(g.missed, id, other);
      assert SameMisses(cfg, g.clients[other].missed, Waiting(g.missed, other));
    }
  }

  lemma RestartKeepsMisses(cfg: Config, g: Reg, now: int)
    requires Inv(cfg, g)
    ensures MissesAgree(cfg, AfterRestart(cfg, g, now))
  {
    var h := AfterRestart(cfg, g, now);
    forall id | id in h.clients ensures SameMisses(cfg, h.clients[id].missed, Waiting(h.missed, id)) {
      WaitingUnresolved(g.missed, id);
    }
  }

  lemma StepKeepsMisses(cfg: Config, g: Reg, s: Step)
    requires Inv(cfg, g) && Refused(cfg, g, s).None?
    ensures MissesAgree(cfg, Next(cfg, g, s))
  {
    if Writes(g, s) {
      WrittenLeaves(g, s);
      PutKeepsMisses(cfg, g, s.id, Written(g, s));
    } else {
      match s
      case RecordMissed(id, level, at) => RecordKeepsMisses(cfg, g, id, level, at);
      case ResolveMissed(id) => ResolveKeepsMisses(cfg, g, id);
      case Restart(now) => RestartKeepsMisses(cfg, g, now);
      case _ =>
    }
  }

  // ------------------------------------------------------------------ over whole runs

  const Empty: Reg := Reg(map[], map[], [])

  /** A refused step changes nothing. */
  function After(cfg: Config, g: Reg, s: Step): Reg {
    if Refused(cfg, g, s).Some? then g else Next(cfg, g, s)
  }

  function Run(cfg: Config, steps: seq<Step>): Reg {
    if steps == [] then Empty else After(cfg, Run(cfg, steps[..|steps| - 1]), steps[|steps| - 1])
  }

  predicate CarefulRun(cfg: Config, steps: seq<Step>) {
    steps != [] ==>
      CarefulRun(cfg, steps[..|steps| - 1]) && Careful(Run(cfg, steps[..|steps| - 1]), steps[|steps| - 1])
  }

  lemma StepKeepsInv(cfg: Config, g: Reg, s: Step)
    requires Inv(cfg, g) && Careful(g, s)
    ensures Inv(cfg, After(cfg, g, s))
  {
    if Refused(cfg, g, s).None? {
      StepKeepsRows(cfg, g, s);
      StepKeepsMisses(cfg, g, s);
    }
  }

  lemma RecordKeepsInv(cfg: Config, g: Reg, id: string, level: string, at: int)
    requires Inv(cfg, g) && id in g.clients
    ensures Inv(cfg, AfterRecord(cfg, g, id, level, at))
  {
    RecordKeepsMisses(cfg, g, id, level, at);
  }

  lemma ResolveKeepsInv(cfg: Config, g: Reg, id: string)
    requires Inv(cfg, g) && id in g.clients
    ensures Inv(cfg, AfterResolve(g, id))
  {
    ResolveKeepsMisses(cfg, g, id);
  }

  lemma RestartKeepsInv(cfg: Config, g: Reg, now: int)
    requires Inv(cfg, g)
    ensures Inv(cfg, AfterRestart(cfg, g, now))
  {
    RestartKeepsRows(cfg, g, now);
    RestartKeepsMisses(cfg, g, now);
  }

  /** Over every run, whatever is registered, rebound, missed, resolved or restarted: the table
      says what memory says, and the list of misses in memory is the unresolved rows. */
  lemma {:induction false} RunKeepsInv(cfg: Config, steps: seq<Step>)
    requires CarefulRun(cfg, steps)
    ensures Inv(cfg, Run(cfg, steps))
  {
    if steps != [] {
      RunKeepsInv(cfg, steps[..|steps| - 1]);
      StepKeepsInv(cfg, Run(cfg, steps[..|steps| - 1]), steps[|steps| - 1]);
    }
  }

  /** What a restart gives back of a client: everything up to whole seconds, except that no
      backup is running, an empty schedule is none, and a client unseen for too long is offline. */
  ghost predicate Reloaded(cfg: Config, c: Client, d: Client, now: int) {
    && d.address == c.address && d.identity == c.identity && d.fingerprint == c.fingerprint
    && d.lastSeen == Whole(c.lastSeen) && d.lastBackup == Whole(c.lastBackup)
    && d.registeredAt == Whole(c.registeredAt) && CronsOf(d.schedule) == CronsOf(c.schedule)
    && d.watcherActive == c.watcherActive && d.disabled == c.disabled && !d.backupActive
    && d.status == (if c.status == Online && d.lastSeen != 0 && now - d.lastSeen > cfg.threshold then Offline else c.status)
  }

  ghost predicate SameLevels(ms: seq<Missed>, ns: seq<Missed>) {
    |ms| == |ns| && forall k | 0 <= k < |ms| :: ms[k].level == ns[k].level
  }

  lemma LoadRestores(cfg: Config, c: Client, waiting: seq<MissedRow>, now: int)
    ensures Reloaded(cfg, c, Loaded(cfg, RowOf(c), waiting, now), now)
  {
  }

  lemma RestartRestores(cfg: Config, g: Reg, now: int, id: string)
    requires Inv(cfg, g) && id in g.clients
    ensures id in AfterRestart(cfg, g, now).clients
    ensures var d := AfterRestart(cfg, g, now).clients[id];
      Reloaded(cfg, g.clients[id], d, now) && SameLevels(g.clients[id].missed, d.missed)
  {
    var c := g.clients[id];
    LoadRestores(cfg, c, Waiting(g.missed, id), now);
    assert SameMisses(cfg, c.missed, Waiting(g.missed, id));
  }

  /** The time of a miss survives a restart, up to whole seconds, only on a server in UTC:
      it is written as wall clock and read back as UTC. */
  lemma MissTimeSurvivesExactly(cfg: Config, id: string, level: string, at: int)
    ensures Reread(MissedRow(id, level, Wall(cfg, at), false)).at == Whole(at) + cfg.zone * SECOND
    ensures Reread(MissedRow(id, level, Wall(cfg, at), false)).at == Whole(at) <==> cfg.zone == 0
  {
  }

  // ------------------------------------------------------------------ machine identity

  /** The single active system guard. While a client is up, idle or backing up, and heard from
      within the threshold, no other machine registers as it and nobody rebinds it without
      force; the attempt changes nothing. */
  lemma ActiveClientIsGuarded(cfg: Config, g: Reg, id: string, now: int, address: string, who: Identity)
    requires id in g.clients && g.clients[id].status in {Online, BackingUp}
    requires g.clients[id].lastSeen != 0 && now - g.clients[id].lastSeen <= cfg.threshold
    ensures Refused(cfg, g, Rebind(id, now, address, who, false)) == Some(StillOnline)
    ensures After(cfg, g, Rebind(id, now, address, who, false)) == g
    ensures g.clients[id].identity.machineID !in {"", who.machineID} && who.machineID != "" ==>
              Refused(cfg, g, Register(id, now, address, who)) == Some(ActiveElsewhere)
              && After(cfg, g, Register(id, now, address, who)) == g
  {
  }

  /** Otherwise a known client can change hands. */
  lemma InactiveClientIsOpen(cfg: Config, g: Reg, id: string, now: int, address: string, who: Identity)
    requires id in g.clients && who.machineID != ""
    requires g.clients[id].status == Offline || g.clients[id].lastSeen == 0 || now - g.clients[id].lastSeen > cfg.threshold
    ensures var h := After(cfg, g, Register(id, now, address, who));
      id in h.clients && h.clients[id].identity.machineID == who.machineID && h.clients[id].status == Online
    ensures g.clients[id].identity.osFamily == who.osFamily ==>
      var h := After(cfg, g, Rebind(id, now, address, who, false));
      id in h.clients && h.clients[id].identity.machineID == who.machineID && h.clients[id].status == Online
  {
  }

  /** A step that may hand a bound client to another machine. */
  predicate Takeover(cfg: Config, g: Reg, s: Step, id: string) {
    && (s.Register? || s.Rebind?) && s.id == id && id in g.clients
    && ((s.Rebind? && s.force) || g.clients[id].status == Offline || g.clients[id].lastSeen == 0
        || s.now - g.clients[id].lastSeen > cfg.threshold)
  }

  predicate Bound(g: Reg, id: string) {
    id in g.clients && g.clients[id].identity.machineID != ""
  }

  lemma BindingKept(cfg: Config, g: Reg, s: Step, id: string)
    requires RowsAgree(g) && Bound(g, id)
    ensures Bound(After(cfg, g, s), id)
    ensures Takeover(cfg, g, s, id) || After(cfg, g, s).clients[id].identity.machineID == g.clients[id].identity.machineID
  {
    if Refused(cfg, g, s).None? {
      if Writes(g, s) {
        if s.id == id { WrittenBinding(cfg, g, s); }
      } else if s.Restart? {
        assert g.rows[id] == RowOf(g.clients[id]);
      }
    }
  }

  lemma WrittenBinding(cfg: Config, g: Reg, s: Step)
    requires Writes(g, s) && Refused(cfg, g, s).None? && Bound(g, s.id)
    ensures var m := Written(g, s).identity.machineID;
      m != "" && (Takeover(cfg, g, s, s.id) || m == g.clients[s.id].identity.machineID)
  {
  }

  /** Some step of `more`, taken after `steps`, may hand the client over. */
  predicate TakenOver(cfg: Config, steps: seq<Step>, more: seq<Step>, id: string) {
    more != [] &&
    (TakenOver(cfg, steps, more[..|more| - 1], id)
     || Takeover(cfg, Run(cfg, steps + more[..|more| - 1]), more[|more| - 1], id))
  }

  lemma CarefulPrefix(cfg: Config, steps: seq<Step>, more: seq<Step>)
    requires CarefulRun(cfg, steps + more) && more != []
    ensures CarefulRun(cfg, steps + more[..|more| - 1])
    ensures Run(cfg, steps + more) == After(cfg, Run(cfg, steps + more[..|more| - 1]), more[|more| - 1])
  {
    assert (steps + more)[..|steps + more| - 1] == steps + more[..|more| - 1];
  }

  /** Over every run, restarts included: once a client is bound to a machine it stays bound,
      and to the same machine unless it was rebound by force or changed hands while inactive. */
  lemma {:induction false} BindingOverRuns(cfg: Config, steps: seq<Step>, more: seq<Step>, id: string)
    requires CarefulRun(cfg, steps + more) && Bound(Run(cfg, steps), id)
    ensures Bound(Run(cfg, steps + more), id)
    ensures TakenOver(cfg, steps, more, id)
      || Run(cfg, steps + more).clients[id].identity.machineID == Run(cfg, steps).clients[id].identity.machineID
    decreases |more|
  {
    if more == [] {
      assert steps + more == steps;
    } else {
      CarefulPrefix(cfg, steps, more);
      BindingOverRuns(cfg, steps, more[..|more| - 1], id);
      RunKeepsInv(cfg, steps + more[..|more| - 1]);
      BindingKept(cfg, Run(cfg, steps + more[..|more| - 1]), more[|more| - 1], id);
    }
  }

  /** Why the writes must succeed: a binding that was not written is gone after a restart. */
  lemma UnsavedBindingIsLost(cfg: Config, g: Reg, id: string, now: int, address: string, who: Identity, later: int)
    requires Inv(cfg, g) && id in g.clients && g.clients[id].identity.machineID == "" && who.machineID != ""
    ensures var h := Next(cfg, g, Register(id, now, address, who)).(rows := g.rows);
      Bound(h, id) && !Bound(Next(cfg, h, Restart(later)), id)
  {
    assert g.rows[id] == RowOf(g.clients[id]);
  }

  // ------------------------------------------------------------------ the registry itself

  /** Checking one more client is a Put if it is stale and nothing otherwise. */
  lemma CheckingStep(cfg: Config, g: Reg, now: int, left: set<string>, id: string)
    requires id in left && id in g.clients
    ensures Checking(cfg, g, now, left).clients[id] == g.clients[id]
    ensures var h := Checking(cfg, g, now, left); var k := Checking(cfg, g, now, left - {id});
      if Stale(cfg, g.clients[id], now)
      then k.clients == Put(h, id, WentOffline(g.clients[id])).clients
        && (id in g.rows ==> k == Put(h, id, WentOffline(g.clients[id])))
      else k == h
  {
    var h, k := Checking(cfg, g, now, left), Checking(cfg, g, now, left - {id});
    var c := WentOffline(g.clients[id]);
    if Stale(cfg, g.clients[id], now) {
      assert k.clients == h.clients[id := c];
      if id in g.rows {
        assert k.rows == h.rows[id := UpdatedRow(h.rows[id], c)];
      }
    } else {
      assert k.clients == h.clients && k.rows == h.rows;
    }
  }

  /** How an operation ends: refused with nothing changed, done, or done in memory only
      because the database write failed. */
  ghost predicate Ended(cfg: Config, g: Reg, s: Step, r: Option<Error>, h: Reg) {
    if Refused(cfg, g, s).Some? then r == Refused(cfg, g, s) && h == g
    else if r.None? then h == Next(cfg, g, s)
    else r == Some(NotPersisted) && h == Next(cfg, g, s).(rows := g.rows)
  }

  /** d is c heard from at this address now; a part of the identity that was not given stays. */
  predicate IsSeen(c: Client, d: Client, now: int, address: string, who: Identity) {
    && d.address == address && d.status == Online && d.lastSeen == now
    && d.identity.osFamily == (if who.osFamily != "" then who.osFamily else c.identity.osFamily)
    && d.identity.machineID == (if who.machineID != "" then who.machineID else c.identity.machineID)
    && d.identity.hostname == (if who.hostname != "" then who.hostname else c.identity.hostname)
    && d.(address := c.address, status := c.status, lastSeen := c.lastSeen, identity := c.identity) == c
  }

  /** d is c with what the edit sets, and with nothing else changed. */
  predicate IsEdited(c: Client, d: Client, e: Edit) {
    match e
    case Heartbeat(now) =>
      && d.lastSeen == now && (d.status == BackingUp <==> c.status == BackingUp)
      && d.status != Offline && d.(lastSeen := c.lastSeen, status := c.status) == c
    case MarkOffline => d.status == Offline && d.(status := c.status) == c
    case SetSchedule(schedule) => d.schedule == Some(schedule) && d.(schedule := c.schedule) == c
    case SetWatcherActive(active) => d.watcherActive == active && d.(watcherActive := c.watcherActive) == c
    case SetBackupActive(running) =>
      && d.backupActive == running && (running ==> d.status == BackingUp)
      && (!running ==> d.status == if c.status == BackingUp then Online else c.status)
      && d.(backupActive := c.backupActive, status := c.status) == c
    case SetDisabled(disabled) => d.disabled == disabled && d.(disabled := c.disabled) == c
    case SetLastBackup(at) => d.lastBackup == at && d.(lastBackup := c.lastBackup) == c
    case SetSPKIFingerprint(fp) => d.fingerprint == fp && d.(fingerprint := c.fingerprint) == c
  }

  lemma EditEnds(c: Client, e: Edit)
    ensures IsEdited(c, Edited(c, e), e)
  {
  }

  /** How a rebind of the known client c ends: h is the state afterwards. */
  ghost predicate Rebound(cfg: Config, c: Client, now: int, address: string, who: Identity, force: bool,
                          r: Option<Error>, g: Reg, h: Reg, id: string)
  {
    var active := c.status in {Online, BackingUp} && c.lastSeen != 0 && now - c.lastSeen <= cfg.threshold;
    var alien := c.identity.osFamily != "" && who.osFamily != "" && cfg.lower(c.identity.osFamily) != cfg.lower(who.osFamily);
    if !force && active then r == Some(StillOnline) && h == g
    else if alien then r == Some(IncompatibleOS) && h == g
    else && r in {None, Some(NotPersisted)} && OthersKept(g.clients, h.clients, id)
         && id in h.clients && IsSeen(c, h.clients[id], now, address, who)
  }

  lemma RebindEnds(cfg: Config, g: Reg, s: Step, r: Option<Error>, h: Reg)
    requires s.Rebind? && s.id in g.clients && Ended(cfg, g, s, r, h)
    ensures Rebound(cfg, g.clients[s.id], s.now, s.address, s.who, s.force, r, g, h, s.id)
  {
  }

  ghost predicate OthersKept(was: map<string, Client>, now: map<string, Client>, id: string) {
    now.Keys == was.Keys + {id} && forall other | other in was && other != id :: now[other] == was[other]
  }

  /** The two tables. Unless the database is reliable, any write may fail and change nothing. */
  class Database {
    var rows: map<string, Row>
    var missed: seq<MissedRow>
    const reliable: bool

    constructor (reliable: bool)
      ensures rows == map[] && missed == [] && this.reliable == reliable
    {
      rows, missed, this.reliable := map[], [], reliable;
    }

    method UpsertClient(id: string, c: Client) returns (ok: bool)
      modifies this`rows
      ensures rows == if ok then Upsert(old(rows), id, c) else old(rows)
      ensures reliable ==> ok
    {
      var failed := Glitch(reliable);
      if failed {
        return false;
      }
      var row := RowOf(c);
      if id in rows {
        var was := rows[id];
        row := row.(registeredAt := was.registeredAt);
        row := row.(identity := Overlay(was.identity, c.identity), fingerprint := Kept(c.fingerprint, was.fingerprint));
      }
      rows := rows[id := row];
      return true;
    }

    method InsertMissed(r: MissedRow) returns (ok: bool)
      modifies this`missed
      ensures missed == if ok then old(missed) + [r] else old(missed)
      ensures reliable ==> ok
    {
      var failed := Glitch(reliable);
      if failed {
        return false;
      }
      missed := missed + [r];
      return true;
    }

    method ResolveMissed(id: string) returns (ok: bool)
      modifies this`missed
      ensures missed == if ok then Resolved(old(missed), id) else old(missed)
      ensures reliable ==> ok
    {
      var failed := Glitch(reliable);
      if failed {
        return false;
      }
      ghost var was := missed;
      var k := 0;
      while k < |missed|
        invariant 0 <= k <= |missed| == |was|
        invariant forall j | 0 <= j < |was| :: missed[j] == if j < k then Resolved(was, id)[j] else was[j]
      {
        if missed[k].clientID == id && !missed[k].resolved {
          missed := missed[k := missed[k].(resolved := true)];
        }
        k := k + 1;
      }
      return true;
    }

    /** `SELECT ... WHERE client_id = ? AND resolved = 0`, scanned into a slice. */
    method LoadMissed(id: string) returns (ms: seq<Missed>)
      ensures ms == RereadAll(Waiting(missed, id))
    {
      ms := [];
      var k := 0;
      while k < |missed|
        invariant 0 <= k <= |missed|
        invariant ms == RereadAll(Waiting(missed[..k], id))
      {
        assert missed[..k + 1][..k] == missed[..k];
        if missed[k].clientID == id && !missed[k].resolved {
          ms := ms + [Missed(missed[k].level, missed[k].at * SECOND, missed[k].resolved)];
        }
        k := k + 1;
      }
      assert missed[..k] == missed;
    }
  }

  ghost predicate RowsNormalised(was: map<string, Row>, rows: map<string, Row>, clients: map<string, Client>,
                                 ids: set<string>, all: bool)
  {
    forall id | id in ids ::
      && id in was && id in rows && id in clients
      && (rows[id] == UpdatedRow(was[id], clients[id]) || (!all && rows[id] == was[id]))
  }

  function Loading(cfg: Config, rows: map<string, Row>, missed: seq<MissedRow>, now: int, ids: set<string>)
    : map<string, Client>
    requires ids <= rows.Keys
  {
    map id | id in ids :: Loaded(cfg, rows[id], Waiting(missed, id), now)
  }

  lemma LoadingStep(cfg: Config, rows: map<string, Row>, missed: seq<MissedRow>, now: int, ids: set<string>, id: string)
    requires ids <= rows.Keys && id in rows
    ensures Loading(cfg, rows, missed, now, ids + {id})
      == Loading(cfg, rows, missed, now, ids)[id := Loaded(cfg, rows[id], Waiting(missed, id), now)]
  {
  }

  class ClientRegistry {
    var clients: map<string, Client>
    const db: Database
    const cfg: Config

    function State(): Reg
      reads this, db
    {
      Reg(clients, db.rows, db.missed)
    }

    /** New on an existing database: a restart of the server, whatever was in memory. The
        rows are normalised on the way; a write that fails leaves its row as it was. */
    constructor (cfg: Config, db: Database, now: int)
      modifies db
      ensures this.cfg == cfg && this.db == db && db.missed == old(db.missed)
      ensures clients == AfterRestart(cfg, Reg(map[], old(db.rows), old(db.missed)), now).clients
      ensures RowsNormalised(old(db.rows), db.rows, clients, db.rows.Keys, db.reliable) && db.rows.Keys == old(db.rows).Keys
    {
      this.cfg, this.db, this.clients := cfg, db, map[];
      new;
      var rows := db.rows;
      var ids := rows.Keys;
      ghost var loaded: set<string> := {};
      while ids != {}
        invariant this.cfg == cfg && this.db == db && db.missed == old(db.missed)
        invariant loaded == rows.Keys - ids && ids <= rows.Keys == db.rows.Keys
        invariant clients == Loading(cfg, rows, db.missed, now, loaded)
        invariant RowsNormalised(rows, db.rows, clients, loaded, db.reliable)
        invariant forall id | id in ids :: db.rows[id] == rows[id]
        decreases ids
      {
        var id :| id in ids;
        LoadClient(id, rows[id], now);
        LoadingStep(cfg, rows, db.missed, now, loaded, id);
        loaded := loaded + {id};
        ids := ids - {id};
      }
      assert loaded == rows.Keys;
    }

    method LoadClient(id: string, row: Row, now: int)
      requires id in db.rows && db.rows[id] == row
      modifies this`clients, db`rows
      ensures clients == old(clients)[id := Loaded(cfg, row, Waiting(db.missed, id), now)]
      ensures db.rows == old(db.rows)[id := UpdatedRow(row, clients[id])] || (!db.reliable && db.rows == old(db.rows))
    {
      var status := row.status;
      var lastSeen := Instant(row.lastSeen);
      if status == Online && lastSeen != 0 {
        if now - lastSeen > cfg.threshold {
          status := Offline;
        }
      }
      var schedule: Option<Schedule> := None;
      if row.fullCron != "" || row.autoCron != "" {
        schedule := Some(Schedule(row.fullCron, row.autoCron));
      }
      var missed := db.LoadMissed(id);
      var c := Client(row.address, status, lastSeen, Instant(row.lastBackup), row.watcherActive, false, row.disabled,
                      schedule, missed, row.registeredAt * SECOND, row.identity, row.fingerprint);
      clients := clients[id := c];
      var _ := db.UpsertClient(id, c);
    }

    method Store(id: string, c: Client) returns (r: Option<Error>)
      modifies this`clients, db`rows
      ensures r.None? ==> State() == Put(old(State()), id, c)
      ensures r.Some? ==> r == Some(NotPersisted) && State() == Put(old(State()), id, c).(rows := old(db.rows))
      ensures db.reliable ==> r.None?
    {
      clients := clients[id := c];
      var ok := db.UpsertClient(id, c);
      r := if ok then None else Some(NotPersisted);
    }

    /** What registering and rebinding do to a record they accept. */
    method Overwrite(c: Client, now: int, address: string, who: Identity) returns (d: Client)
      ensures d == Seen(c, now, address, who)
    {
      d := c.(address := address, status := Online, lastSeen := now);
      if who.osFamily != "" { d := d.(identity := d.identity.(osFamily := who.osFamily)); }
      if who.machineID != "" { d := d.(identity := d.identity.(machineID := who.machineID)); }
      if who.hostname != "" { d := d.(identity := d.identity.(hostname := who.hostname)); }
    }

    method RegisterWithIdentity(id: string, now: int, address: string, who: Identity) returns (r: Option<Error>)
      modifies this`clients, db`rows
      ensures Ended(cfg, old(State()), Register(id, now, address, who), r, State())
      ensures db.reliable ==> r != Some(NotPersisted)
      ensures r == Some(ActiveElsewhere) <==>
        && id in old(clients) && old(clients)[id].status in {Online, BackingUp}
        && old(clients)[id].lastSeen != 0 && now - old(clients)[id].lastSeen <= cfg.threshold
        && old(clients)[id].identity.machineID !in {"", who.machineID} && who.machineID != ""
      ensures r == Some(ActiveElsewhere) ==> State() == old(State())
      ensures r != Some(ActiveElsewhere) ==>
        && r in {None, Some(NotPersisted)} && OthersKept(old(clients), clients, id)
        && (id in old(clients) ==> IsSeen(old(clients)[id], clients[id], now, address, who))
        && (id !in old(clients) ==>
              clients[id] == Client(address, Online, now, 0, false, false, false, None, [], now, who, ""))
    {
      var c: Client;
      if id in clients {
        c := clients[id];
        if c.status != Offline && c.lastSeen != 0 && now - c.lastSeen <= cfg.threshold {
          if c.identity.machineID != "" && who.machineID != "" && c.identity.machineID != who.machineID {
            return Some(ActiveElsewhere);
          }
        }
        c := Overwrite(c, now, address, who);
      } else {
        c := NewClient(now, address, who);
      }
      r := Store(id, c);
    }

    method RebindClient(id: string, now: int, address: string, who: Identity, force: bool) returns (r: Option<Error>)
      modifies this`clients, db`rows
      ensures Ended(cfg, old(State()), Rebind(id, now, address, who, force), r, State())
      ensures db.reliable ==> r != Some(NotPersisted)
      ensures id !in old(clients) ==> r == Some(UnknownClient) && State() == old(State())
      ensures id in old(clients) ==> Rebound(cfg, old(clients)[id], now, address, who, force, r, old(State()), State(), id)
    {
      ghost var g := State();
      if id !in clients {
        return Some(UnknownClient);
      }
      var c := clients[id];
      if !force && c.status != Offline && c.lastSeen != 0 && now - c.lastSeen <= cfg.threshold {
        return Some(StillOnline);
      }
      if c.identity.osFamily != "" && who.osFamily != "" && cfg.lower(c.identity.osFamily) != cfg.lower(who.osFamily) {
        return Some(IncompatibleOS);
      }
      c := Overwrite(c, now, address, who);
      r := Store(id, c);
      RebindEnds(cfg, g, Rebind(id, now, address, who, force), r, State());
    }

    method Changed(c0: Client, edit: Edit) returns (c: Client)
      ensures c == Edited(c0, edit)
    {
      c := c0;
      match edit {
        case Heartbeat(now) =>
          c := c.(lastSeen := now);
          if c.status != BackingUp { c := c.(status := Online); }
        case MarkOffline => c := c.(status := Offline);
        case SetSchedule(schedule) => c := c.(schedule := Some(schedule));
        case SetWatcherActive(active) => c := c.(watcherActive := active);
        case SetBackupActive(running) =>
          c := c.(backupActive := running);
          if running {
            c := c.(status := BackingUp);
          } else if c.status == BackingUp {
            c := c.(status := Online);
          }
        case SetDisabled(disabled) => c := c.(disabled := disabled);
        case SetLastBackup(at) => c := c.(lastBackup := at);
        case SetSPKIFingerprint(fp) => c := c.(fingerprint := fp);
      }
    }

    /** Heartbeat, MarkOffline and the setters: look the client up, change it, persist it. */
    method Apply(id: string, edit: Edit) returns (r: Option<Error>)
      modifies this`clients, db`rows
      ensures Ended(cfg, old(State()), Update(id, edit), r, State())
      ensures db.reliable ==> r != Some(NotPersisted)
      ensures id !in old(clients) ==>
        State() == old(State()) && r == if edit.SetSPKIFingerprint? then None else Some(UnknownClient)
      ensures id in old(clients) ==> OthersKept(old(clients), clients, id) && IsEdited(old(clients)[id], clients[id], edit)
    {
      ghost var g := State();
      if id !in clients {
        return if edit.SetSPKIFingerprint? then None else Some(UnknownClient);
      }
      var c := clients[id];
      c := Changed(c, edit);
      EditEnds(g.clients[id], edit);
      r := Store(id, c);
    }

    /** Failed writes are ignored here; `saved` says that there was none. */
    method CheckOfflineClients(now: int) returns (ghost saved: bool)
      modifies this`clients, db`rows
      ensures clients == AfterCheck(cfg, old(State()), now).clients
      ensures saved && old(RowsAgree(State())) ==> State() == AfterCheck(cfg, old(State()), now)
      ensures db.reliable ==> saved
      ensures clients.Keys == old(clients).Keys
      ensures forall id | id in old(clients) ::
                var c := old(clients)[id];
                clients[id] == if c.status in {Online, BackingUp} && c.lastSeen != 0 && now - c.lastSeen > cfg.threshold
                               then c.(status := Offline, backupActive := false, watcherActive := false) else c
    {
      saved := true;
      ghost var g := State();
      var ids := clients.Keys;
      assert Checking(cfg, g, now, ids) == g;
      while ids != {}
        invariant ids <= g.clients.Keys && db.missed == g.missed
        invariant clients == Checking(cfg, g, now, ids).clients
        invariant db.reliable ==> saved
        invariant saved && RowsAgree(g) ==> State() == Checking(cfg, g, now, ids)
        decreases ids
      {
        var id :| id in ids;
        CheckingStep(cfg, g, now, ids, id);
        var c := clients[id];
        if c.status != Offline && c.lastSeen != 0 {
          if now - c.lastSeen > cfg.threshold {
            var r := Store(id, c.(status := Offline, backupActive := false, watcherActive := false));
            saved := saved && r.None?;
          }
        }
        ids := ids - {id};
      }
    }

    /** A failed insert leaves the list in memory alone. */
    method RecordMissedBackup(id: string, level: string, at: int) returns (r: Option<Error>)
      modifies this`clients, db`missed
      ensures r.None? ==>
        && id in old(clients) && State() == AfterRecord(cfg, old(State()), id, level, at)
        && OthersKept(old(clients), clients, id)
        && clients[id] == old(clients)[id].(missed := old(clients)[id].missed + [Missed(level, at, false)])
        && db.missed == old(db.missed) + [MissedRow(id, level, at / 1_000_000_000 + cfg.zone, false)]
      ensures r.Some? ==> State() == old(State())
      ensures r == Some(UnknownClient) <==> id !in old(clients)
      ensures db.reliable && id in old(clients) ==> r.None?
    {
      if id !in clients {
        return Some(UnknownClient);
      }
      var ok := db.InsertMissed(MissedRow(id, level, Wall(cfg, at), false));
      if !ok {
        return Some(NotPersisted);
      }
      clients := clients[id := clients[id].(missed := clients[id].missed + [Missed(level, at, false)])];
      r := None;
    }

    method HandOut(ms: seq<Missed>, ghost rs: seq<MissedRow>) returns (handed: seq<Missed>)
      requires SameMisses(cfg, ms, rs)
      ensures HandsOut(handed, rs)
    {
      handed := [];
      for k := 0 to |ms|
        invariant |handed| == k
        invariant forall j | 0 <= j < k :: handed[j] == ms[j].(resolved := true)
      {
        if !ms[k].resolved {
          handed := handed + [ms[k].(resolved := true)];
        }
      }
    }

    /** The list handed out is the list of unresolved misses, each now resolved. */
    method ResolveMissedBackups(id: string) returns (r: Result<seq<Missed>, Error>)
      requires MissesAgree(cfg, State())
      modifies this`clients, db`missed
      ensures MissesAgree(cfg, State())
      ensures r.Ok? ==>
        && id in old(clients) && State() == AfterResolve(old(State()), id) && OthersKept(old(clients), clients, id)
        && clients[id] == old(clients)[id].(missed := [])
      ensures r.Ok? ==> HandsOut(r.value, Waiting(old(db.missed), id)) && Waiting(db.missed, id) == []
      ensures r.Err? ==> State() == old(State())
      ensures r == Err(UnknownClient) <==> id !in old(clients)
      ensures db.reliable && id in old(clients) ==> r.Ok?
    {
      if id !in clients {
        return Err(UnknownClient);
      }
      assert SameMisses(cfg, clients[id].missed, Waiting(db.missed, id));
      ResolveKeepsMisses(cfg, State(), id);
      WaitingResolved(db.missed, id, id);
      var ok := db.ResolveMissed(id);
      if !ok {
        return Err(NotPersisted);
      }
      var handed := HandOut(clients[id].missed, Waiting(old(db.missed), id));
      clients := clients[id := clients[id].(missed := [])];
      r := Ok(handed);
    }

    method GetClient(id: string) returns (c: Option<Client>)
      ensures c == if id in clients then Some(clients[id]) else None
    {
      c := if id in clients then Some(clients[id]) else None;
    }
  }

  predicate HandsOut(ms: seq<Missed>, rs: seq<MissedRow>) {
    |ms| == |rs| && forall k | 0 <= k < |ms| :: ms[k].resolved && ms[k].level == rs[k].level
  }
}
