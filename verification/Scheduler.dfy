/** internal/scheduler/scheduler.go: cron ticks for the clients of a registry, and the replay of
    the ticks that found their client away. */
module Scheduler {
  import opened Foundations
  import opened Registry

  datatype Level = Auto | Full | Ongoing

  /** `BackupLevel.String` */
  function LevelName(l: Level): string {
    match l
    case Auto => "AUTO"
    case Full => "FULL"
    case Ongoing => "ONGOING"
  }

  /** `missedBackupLevel` */
  function MissedLevel(name: string): Level {
    if name == "FULL" then Full else if name == "AUTO" then Auto else if name == "ONGOING" then Ongoing else Auto
  }

  /** The names of the levels, which read back as themselves; any other name reads as AUTO. */
  lemma LevelSurvives(l: Level, name: string)
    ensures LevelName(l) == if l == Auto then "AUTO" else if l == Full then "FULL" else "ONGOING"
    ensures MissedLevel(LevelName(l)) == l
    ensures MissedLevel(name) != Auto ==> name == LevelName(MissedLevel(name))
  {
  }

  datatype Job = Job(clientID: string, level: Level)

  /** What has become of the ticks of known, enabled clients: those for which TriggerBackup was
      called, those about to be triggered by a tick or a reconnect (handing), those that found
      their client away and are about to be recorded (recording), and those given up because a
      write failed or the server stopped. The rest wait in missed_schedules. */
  datatype World = World(reg: Reg, triggered: multiset<Job>, handing: multiset<Job>, recording: multiset<Job>,
                         dropped: multiset<Job>)

  datatype Event =
    | Change(step: Step)                                      // any other registry operation
    | Tick(job: Job)                                          // makeJob reads the client
    | Record(job: Job, now: int, written: bool)               // ... and later records the miss
    | Reconnect(id: string)                                   // HandleReconnect resolves
    | Trigger(job: Job)                                       // either calls TriggerBackup
    | Reboot(now: int)

  function JobsInMemory(id: string, ms: seq<Missed>): multiset<Job> {
    if ms == [] then multiset{}
    else JobsInMemory(id, ms[..|ms| - 1]) + multiset{Job(id, MissedLevel(ms[|ms| - 1].level))}
  }

  function JobOf(r: MissedRow): multiset<Job> {
    if r.resolved then multiset{} else multiset{Job(r.clientID, MissedLevel(r.level))}
  }

  function JobsInTable(rs: seq<MissedRow>): multiset<Job> {
    if rs == [] then multiset{} else JobsInTable(rs[..|rs| - 1]) + JobOf(rs[|rs| - 1])
  }

  predicate Enabled(w: World, e: Event) {
    match e
    case Change(s) => !s.RecordMissed? && !s.ResolveMissed? && !s.Restart? && Careful(w.reg, s)
    case Tick(_) => true
    case Record(job, _, _) => job in w.recording
    case Reconnect(_) => true
    case Trigger(job) => job in w.handing
    case Reboot(_) => true
  }

  datatype Decision = Skip | Fire | Miss

  /** An unknown or disabled client is skipped, an online one triggered, and any other, one that
      is backing up included, misses its backup. */
  function Decide(g: Reg, job: Job): Decision {
    if job.clientID !in g.clients || g.clients[job.clientID].disabled then Skip
    else if g.clients[job.clientID].status == Online then Fire
    else Miss
  }

  function AfterTick(w: World, job: Job): World {
    match Decide(w.reg, job)
    case Skip => w
    case Fire => w.(handing := w.handing + multiset{job})
    case Miss => w.(recording := w.recording + multiset{job})
  }

  /** What a tick does, by what the registry says of its client at that moment. */
  lemma TickOutcome(cfg: Config, w: World, job: Job)
    ensures var v, g := Next(cfg, w, Tick(job)), w.reg.clients;
      && v.reg == w.reg && v.triggered == w.triggered && v.dropped == w.dropped
      && (job.clientID !in g || g[job.clientID].disabled ==> v.handing == w.handing && v.recording == w.recording)
      && (job.clientID in g && !g[job.clientID].disabled && g[job.clientID].status == Online ==>
            v.handing == w.handing + multiset{job} && v.recording == w.recording)
      && (job.clientID in g && !g[job.clientID].disabled && g[job.clientID].status in {Offline, BackingUp} ==>
            v.handing == w.handing && v.recording == w.recording + multiset{job})
  {
  }

  function AfterRecording(cfg: Config, w: World, job: Job, now: int, written: bool): World {
    var v := w.(recording := w.recording - multiset{job});
    if written && job.clientID in w.reg.clients
    then v.(reg := AfterRecord(cfg, w.reg, job.clientID, LevelName(job.level), now))
    else v.(dropped := w.dropped + multiset{job})
  }

  function Next(cfg: Config, w: World, e: Event): World
    requires Enabled(w, e)
  {
    match e
    case Change(s) => w.(reg := Registry.After(cfg, w.reg, s))
    case Tick(job) => AfterTick(w, job)
    case Record(job, now, written) => AfterRecording(cfg, w, job, now, written)
    case Reconnect(id) =>
      if id !in w.reg.clients then w
      else w.(reg := AfterResolve(w.reg, id), handing := w.handing + JobsInMemory(id, w.reg.clients[id].missed))
    case Trigger(job) => w.(triggered := w.triggered + multiset{job}, handing := w.handing - multiset{job})
    case Reboot(now) =>
      w.(reg := AfterRestart(cfg, w.reg, now), dropped := w.dropped + w.handing + w.recording,
         handing := multiset{}, recording := multiset{})
  }

  // ------------------------------------------------------------------ conservation

  /** The tick of a client that is known and not disabled when it comes. */
  function DueNow(clients: map<string, Client>, e: Event): multiset<Job> {
    if e.Tick? && e.job.clientID in clients && !clients[e.job.clientID].disabled then multiset{e.job} else multiset{}
  }

  /** All of them, read off the events and the registry alone. */
  function DueTicks(cfg: Config, events: seq<Event>): multiset<Job>
    requires Run(cfg, events).Some?
  {
    if events == [] then multiset{}
    else
      var before := events[..|events| - 1];
      DueTicks(cfg, before) + DueNow(Run(cfg, before).value.reg.clients, events[|events| - 1])
  }

  ghost predicate Conserved(w: World, due: multiset<Job>) {
    due == w.triggered + w.handing + w.recording + JobsInTable(w.reg.missed) + w.dropped
  }

  lemma TableAppends(rs: seq<MissedRow>, r: MissedRow)
    ensures JobsInTable(rs + [r]) == JobsInTable(rs) + JobOf(r)
  {
    assert (rs + [r])[..|rs + [r]| - 1] == rs;
  }

  lemma ResolvedAppends(rs: seq<MissedRow>, r: MissedRow, id: string)
    ensures Resolved(rs + [r], id) == Resolved(rs, id) + [if r.clientID == id then r.(resolved := true) else r]
  {
  }

  /** What resolving takes out of the table is what was waiting for that client. */
  lemma {:induction false} ResolvingSplits(rs: seq<MissedRow>, id: string)
    ensures JobsInTable(rs) == JobsInTable(Resolved(rs, id)) + JobsInTable(Waiting(rs, id))
  {
    if rs == [] {
      assert Resolved(rs, id) == [];
    } else {
      var before, last := rs[..|rs| - 1], rs[|rs| - 1];
      assert rs == before + [last];
      ResolvingSplits(before, id);
      SplitsOneMore(before, last, id);
    }
  }

  lemma OnePartGrows(a: multiset<Job>, b: multiset<Job>, c: multiset<Job>, j: multiset<Job>)
    requires a == b + c
    ensures a + j == (b + j) + c && a + j == b + (c + j)
  {
  }

  lemma SplitsOneMore(rs: seq<MissedRow>, r: MissedRow, id: string)
    requires JobsInTable(rs) == JobsInTable(Resolved(rs, id)) + JobsInTable(Waiting(rs, id))
    ensures JobsInTable(rs + [r]) == JobsInTable(Resolved(rs + [r], id)) + JobsInTable(Waiting(rs + [r], id))
  {
    TableAppends(rs, r);
    OnePartGrows(JobsInTable(rs), JobsInTable(Resolved(rs, id)), JobsInTable(Waiting(rs, id)), JobOf(r));
    if r.clientID == id && !r.resolved { SplitMoves(rs, r, id); } else { SplitStays(rs, r, id); }
  }

  lemma SplitMoves(rs: seq<MissedRow>, r: MissedRow, id: string)
    requires r.clientID == id && !r.resolved
    ensures JobsInTable(Resolved(rs + [r], id)) == JobsInTable(Resolved(rs, id))
    ensures JobsInTable(Waiting(rs + [r], id)) == JobsInTable(Waiting(rs, id)) + JobOf(r)
  {
    ResolvedAppends(rs, r, id);
    TableAppends(Resolved(rs, id), r.(resolved := true));
    WaitingAppends(rs, r, id);
    TableAppends(Waiting(rs, id), r);
  }

  lemma SplitStays(rs: seq<MissedRow>, r: MissedRow, id: string)
    requires r.clientID != id || r.resolved
    ensures JobsInTable(Resolved(rs + [r], id)) == JobsInTable(Resolved(rs, id)) + JobOf(r)
    ensures JobsInTable(Waiting(rs + [r], id)) == JobsInTable(Waiting(rs, id))
  {
    ResolvedAppends(rs, r, id);
    TableAppends(Resolved(rs, id), if r.clientID == id then r.(resolved := true) else r);
    WaitingAppends(rs, r, id);
    assert Waiting(rs + [r], id) == Waiting(rs, id);
  }

  lemma {:induction false} MemoryIsTable(cfg: Config, id: string, ms: seq<Missed>, rs: seq<MissedRow>)
    requires SameMisses(cfg, ms, rs) && forall r | r in rs :: r.clientID == id
    ensures JobsInMemory(id, ms) == JobsInTable(rs)
  {
    if ms != [] {
      assert SameMiss(cfg, ms[|ms| - 1], rs[|rs| - 1]) && rs[|rs| - 1] in rs;
      MemoryIsTable(cfg, id, ms[..|ms| - 1], rs[..|rs| - 1]);
    }
  }

  lemma ReconnectConserves(cfg: Config, w: World, due: multiset<Job>, id: string)
    requires Inv(cfg, w.reg) && Conserved(w, due) && id in w.reg.clients
    ensures Conserved(Next(cfg, w, Reconnect(id)), due)
  {
    assert SameMisses(cfg, w.reg.clients[id].missed, Waiting(w.reg.missed, id));
    WaitingUnresolved(w.reg.missed, id);
    MemoryIsTable(cfg, id, w.reg.clients[id].missed, Waiting(w.reg.missed, id));
    ResolvingSplits(w.reg.missed, id);
  }

  lemma RecordingConserves(cfg: Config, w: World, due: multiset<Job>, job: Job, now: int, written: bool)
    requires Conserved(w, due) && job in w.recording
    ensures Conserved(AfterRecording(cfg, w, job, now, written), due)
  {
    LevelSurvives(job.level, "");
    TableAppends(w.reg.missed, MissedRow(job.clientID, LevelName(job.level), Wall(cfg, now), false));
  }

  lemma TickConserves(cfg: Config, w: World, due: multiset<Job>, job: Job)
    requires Conserved(w, due)
    ensures Conserved(Next(cfg, w, Tick(job)), due + DueNow(w.reg.clients, Tick(job)))
  {
    TickOutcome(cfg, w, job);
    SumGrows(w.triggered, w.handing, w.recording, JobsInTable(w.reg.missed), w.dropped, DueNow(w.reg.clients, Tick(job)));
  }

  lemma SumGrows(a: multiset<Job>, b: multiset<Job>, c: multiset<Job>, d: multiset<Job>, e: multiset<Job>, j: multiset<Job>)
    ensures a + b + c + d + e + j == a + (b + j) + c + d + e
    ensures a + b + c + d + e + j == a + b + (c + j) + d + e
  {
  }

  lemma TriggerConserves(cfg: Config, w: World, due: multiset<Job>, job: Job)
    requires Conserved(w, due) && job in w.handing
    ensures Conserved(Next(cfg, w, Trigger(job)), due)
  {
    assert w.triggered + multiset{job} + (w.handing - multiset{job}) == w.triggered + w.handing;
  }

  lemma RebootConserves(cfg: Config, w: World, due: multiset<Job>, now: int)
    requires Conserved(w, due)
    ensures Conserved(Next(cfg, w, Reboot(now)), due)
  {
    assert AfterRestart(cfg, w.reg, now).missed == w.reg.missed;
  }

  lemma ChangeLeavesMisses(cfg: Config, g: Reg, s: Step)
    requires !s.RecordMissed? && !s.ResolveMissed? && !s.Restart?
    ensures Registry.After(cfg, g, s).missed == g.missed
  {
  }

  lemma StepConserves(cfg: Config, w: World, due: multiset<Job>, e: Event)
    requires Inv(cfg, w.reg) && Conserved(w, due) && Enabled(w, e)
    ensures Conserved(Next(cfg, w, e), due + DueNow(w.reg.clients, e))
  {
    match e
    case Change(s) => ChangeLeavesMisses(cfg, w.reg, s);
    case Tick(job) => TickConserves(cfg, w, due, job);
    case Record(job, now, written) => RecordingConserves(cfg, w, due, job, now, written);
    case Reconnect(id) => if id in w.reg.clients { ReconnectConserves(cfg, w, due, id); }
    case Trigger(job) => TriggerConserves(cfg, w, due, job);
    case Reboot(now) => RebootConserves(cfg, w, due, now);
  }

  lemma StepKeepsRegistry(cfg: Config, w: World, e: Event)
    requires Inv(cfg, w.reg) && Enabled(w, e)
    ensures Inv(cfg, Next(cfg, w, e).reg)
  {
    match e
    case Change(s) => StepKeepsInv(cfg, w.reg, s);
    case Tick(job) =>
    case Record(job, now, _) =>
      if job.clientID in w.reg.clients {
        RecordKeepsInv(cfg, w.reg, job.clientID, LevelName(job.level), now);
      }
    case Reconnect(id) => if id in w.reg.clients { ResolveKeepsInv(cfg, w.reg, id); }
    case Trigger(job) =>
    case Reboot(now) => RestartKeepsInv(cfg, w.reg, now);
  }

  const Start: World := World(Empty, multiset{}, multiset{}, multiset{}, multiset{})

  function Run(cfg: Config, events: seq<Event>): Option<World> {
    if events == [] then Some(Start)
    else
      var before := Run(cfg, events[..|events| - 1]);
      if before.Some? && Enabled(before.value, events[|events| - 1])
      then Some(Next(cfg, before.value, events[|events| - 1])) else None
  }

  /** Over every interleaving of the steps of ticks and reconnects, restarts and registry changes,
      even when a client comes back between a tick's look at it and the record of its miss: each
      tick of a known, enabled client has been triggered once with its own level, or is about to
      be triggered or recorded, or waits in the table, or was given up. */
  lemma {:induction false} TicksAreConserved(cfg: Config, events: seq<Event>)
    requires Run(cfg, events).Some?
    ensures var w := Run(cfg, events).value;
      && Inv(cfg, w.reg)
      && DueTicks(cfg, events) == w.triggered + w.handing + w.recording + JobsInTable(w.reg.missed) + w.dropped
  {
    if events != [] {
      var w := Run(cfg, events[..|events| - 1]).value;
      TicksAreConserved(cfg, events[..|events| - 1]);
      StepKeepsRegistry(cfg, w, events[|events| - 1]);
      StepConserves(cfg, w, DueTicks(cfg, events[..|events| - 1]), events[|events| - 1]);
    }
  }

  /** The two ways to lose a tick: its row could not be written, or the server stopped between
      deciding or resolving it and acting on it. */
  predicate Drops(w: World, e: Event) {
    match e
    case Record(job, _, written) => !written || job.clientID !in w.reg.clients
    case Reboot(_) => w.handing + w.recording != multiset{}
    case _ => false
  }

  predicate NeverDrops(cfg: Config, events: seq<Event>)
    requires Run(cfg, events).Some?
  {
    events == [] ||
    (NeverDrops(cfg, events[..|events| - 1])
     && !Drops(Run(cfg, events[..|events| - 1]).value, events[|events| - 1]))
  }

  lemma {:induction false} DroppedExactly(cfg: Config, events: seq<Event>)
    requires Run(cfg, events).Some?
    ensures Run(cfg, events).value.dropped == multiset{} <==> NeverDrops(cfg, events)
  {
    if events != [] {
      var w := Run(cfg, events[..|events| - 1]).value;
      DroppedExactly(cfg, events[..|events| - 1]);
      DropStep(cfg, w, events[|events| - 1]);
    }
  }

  lemma NothingLost(a: multiset<Job>, b: multiset<Job>, c: multiset<Job>)
    ensures a + b + c == multiset{} <==> a == multiset{} && b + c == multiset{}
  {
    assert a + b + c == a + (b + c);
    if b + c != multiset{} {
      var job :| job in b + c;
      assert job in a + (b + c);
    }
    if a != multiset{} {
      var job :| job in a;
      assert job in a + (b + c);
    }
  }

  lemma DropStep(cfg: Config, w: World, e: Event)
    requires Enabled(w, e)
    ensures Next(cfg, w, e).dropped == multiset{} <==> w.dropped == multiset{} && !Drops(w, e)
  {
    match e
    case Record(job, now, written) =>
      if Drops(w, e) { assert job in Next(cfg, w, e).dropped; }
    case Reboot(now) => NothingLost(w.dropped, w.handing, w.recording);
    case _ =>
  }

  /** Nothing waits or is on its way. */
  predicate Idle(w: World) {
    w.handing == multiset{} && w.recording == multiset{} && JobsInTable(w.reg.missed) == multiset{}
  }

  /** No tick is triggered twice, and once nothing waits or is on its way, every tick has been
      triggered exactly once, unless it was dropped. */
  lemma TriggeredOnce(cfg: Config, events: seq<Event>)
    requires Run(cfg, events).Some?
    ensures var w := Run(cfg, events).value;
      && w.triggered <= DueTicks(cfg, events)
      && (NeverDrops(cfg, events) && Idle(w) ==> w.triggered == DueTicks(cfg, events))
  {
    TicksAreConserved(cfg, events);
    DroppedExactly(cfg, events);
  }

  // ------------------------------------------------------------------ the scheduler itself

  /** The miss is the last row of the table and the last of its client's list, unresolved. */
  predicate IsRecorded(cfg: Config, g: Reg, h: Reg, job: Job, now: int) {
    var id, level := job.clientID, LevelName(job.level);
    && id in g.clients && h.rows == g.rows
    && h.missed == g.missed + [MissedRow(id, level, now / 1_000_000_000 + cfg.zone, false)]
    && h.clients == g.clients[id := g.clients[id].(missed := g.clients[id].missed + [Missed(level, now, false)])]
  }

  /** An unknown or disabled client's tick is skipped. */
  predicate Passed(clients: map<string, Client>, job: Job) {
    job.clientID !in clients || clients[job.clientID].disabled
  }

  class ClientScheduler {
    const registry: ClientRegistry
    var triggered: seq<Job>

    constructor (registry: ClientRegistry)
      ensures this.registry == registry && triggered == []
    {
      this.registry, triggered := registry, [];
    }

    /** The call is recorded; whether the backup then starts is logged only. */
    method TriggerBackup(job: Job)
      modifies this
      ensures triggered == old(triggered) + [job]
    {
      triggered := triggered + [job];
    }

    /** First half of the function that makeJob gives to cron: look at a copy of the client. */
    method Look(job: Job) returns (d: Decision)
      ensures d == Decide(registry.State(), job)
      ensures d == Skip <==> Passed(registry.clients, job)
      ensures d == Fire <==> !Passed(registry.clients, job) && registry.clients[job.clientID].status == Online
      ensures d == Miss <==> !Passed(registry.clients, job) && registry.clients[job.clientID].status in {Offline, BackingUp}
    {
      var ci := registry.GetClient(job.clientID);
      if ci.None? {
        return Skip;
      }
      if ci.value.disabled {
        return Skip;
      }
      return if ci.value.status == Online then Fire else Miss;
    }

    /** Second half: act on what was seen, whatever has happened to the client since. */
    method Act(job: Job, d: Decision, now: int) returns (ghost written: bool)
      modifies this, registry`clients, registry.db`missed
      ensures d == Skip ==> registry.State() == old(registry.State()) && triggered == old(triggered)
      ensures d == Fire ==> registry.State() == old(registry.State()) && triggered == old(triggered) + [job]
      ensures d == Miss ==> triggered == old(triggered)
      ensures d == Miss && written ==> IsRecorded(registry.cfg, old(registry.State()), registry.State(), job, now)
      ensures d == Miss && !written ==> registry.State() == old(registry.State())
      ensures registry.db.reliable && job.clientID in old(registry.clients) ==> written
    {
      written := true;
      match d
      case Skip =>
      case Fire => TriggerBackup(job);
      case Miss =>
        var r := registry.RecordMissedBackup(job.clientID, LevelName(job.level), now);
        written := r.None?;
    }

    /** The whole function, when nothing comes in between. */
    method RunJob(job: Job, now: int) returns (ghost written: bool)
      modifies this, registry`clients, registry.db`missed
      ensures old(Passed(registry.clients, job)) ==>
                registry.State() == old(registry.State()) && triggered == old(triggered)
      ensures !old(Passed(registry.clients, job)) && old(registry.clients)[job.clientID].status == Online ==>
                registry.State() == old(registry.State()) && triggered == old(triggered) + [job]
      ensures !old(Passed(registry.clients, job)) && old(registry.clients)[job.clientID].status in {Offline, BackingUp} ==>
                && triggered == old(triggered)
                && (written ==> IsRecorded(registry.cfg, old(registry.State()), registry.State(), job, now))
                && (!written ==> registry.State() == old(registry.State()))
                && (registry.db.reliable ==> written)
    {
      var d := Look(job);
      written := Act(job, d, now);
    }

    method TriggerAll(id: string, missed: seq<Missed>, ghost rows: seq<MissedRow>)
      requires HandsOut(missed, rows) && forall r | r in rows :: r.clientID == id
      modifies this
      ensures triggered == old(triggered) + JobList(rows)
    {
      for k := 0 to |missed|
        invariant triggered == old(triggered) + JobList(rows)[..k]
      {
        assert rows[k] in rows;
        TriggerBackup(Job(id, MissedLevel(missed[k].level)));
      }
    }

    /** A reconnect triggers exactly the client's unresolved rows, in order, at their levels. */
    method HandleReconnect(id: string) returns (ghost resolved: bool)
      requires MissesAgree(registry.cfg, registry.State())
      modifies this, registry`clients, registry.db`missed
      ensures MissesAgree(registry.cfg, registry.State())
      ensures resolved ==> id in old(registry.clients) && registry.State() == AfterResolve(old(registry.State()), id)
      ensures resolved ==> triggered == old(triggered) + JobList(Waiting(old(registry.db.missed), id))
      ensures !resolved ==> registry.State() == old(registry.State()) && triggered == old(triggered)
      ensures registry.db.reliable && id in old(registry.clients) ==> resolved
    {
      ghost var rows := Waiting(registry.db.missed, id);
      WaitingUnresolved(registry.db.missed, id);
      var missed := registry.ResolveMissedBackups(id);
      if missed.Err? {
        return false;
      }
      TriggerAll(id, missed.value, rows);
      return true;
    }
  }

  function JobList(rs: seq<MissedRow>): (jobs: seq<Job>)
    ensures |jobs| == |rs|
  {
    seq(|rs|, k requires 0 <= k < |rs| => Job(rs[k].clientID, MissedLevel(rs[k].level)))
  }
}
