/** internal/watcher/watcher.go: the debounce timer and the stability gate of each path. The
    event loop and the timer callbacks are atomic steps, timers fire exactly on time, and a
    path has at most one armed timer of each kind. Times are milliseconds. */
module Watcher {
  import opened Foundations

  /** `excluded` is isExcluded: the watch exclusions and the exclude patterns. */
  datatype Config = Config(debounceMs: int, stabilitySeconds: int, excluded: string -> bool)

  function Debounce(cfg: Config): (d: int)
    ensures d > 0
  {
    if cfg.debounceMs <= 0 then 500 else cfg.debounceMs
  }

  function Stability(cfg: Config): (d: int)
    ensures d > 0
  {
    1000 * if cfg.stabilitySeconds <= 0 then 60 else cfg.stabilitySeconds
  }

  /** `stabilityEntry`, its timer given by when it fires */
  datatype Entry = Entry(modTime: int, deadline: int)

  /** A file sent to the channel of stable files. */
  datatype Emission = Emission(path: string, modTime: int, at: int)

  datatype Gate = Gate(debounce: map<string, int>, stability: map<string, Entry>, emitted: seq<Emission>, stopped: bool)

  function Handled(cfg: Config, g: Gate, path: string, now: int): Gate {
    if cfg.excluded(path) then g else g.(debounce := g.debounce[path := now + Debounce(cfg)])
  }

  function Debounced(cfg: Config, g: Gate, path: string, now: int, modTime: Option<int>): Gate {
    var h := g.(debounce := g.debounce - {path});
    if modTime.None? then h
    else h.(stability := g.stability[path := Entry(modTime.value, now + Stability(cfg))])
  }

  function Expired(cfg: Config, g: Gate, path: string, now: int, modTime: Option<int>, readable: bool): Gate
    requires path in g.stability
  {
    var h := g.(stability := g.stability - {path});
    if g.stopped || modTime.None? then h
    else if modTime.value != g.stability[path].modTime
    then h.(stability := g.stability[path := Entry(modTime.value, now + Stability(cfg))])
    else if !readable then h
    else h.(emitted := g.emitted + [Emission(path, modTime.value, now)])
  }

  // ------------------------------------------------------------------ runs

  datatype World = World(now: int, disk: map<string, int>, gate: Gate)

  datatype Step =
    | Advance(ms: int)
    | Touch(path: string, modTime: int)
    | Remove(path: string)
    | Event(path: string)
    | DebounceFires(path: string)
    | StabilityFires(path: string, readable: bool)
    | Stop

  function ModTime(w: World, path: string): Option<int> {
    if path in w.disk then Some(w.disk[path]) else None
  }

  /** Time does not pass an armed timer, and a timer fires when its time has come. */
  predicate Enabled(w: World, s: Step) {
    match s
    case Advance(ms) =>
      && ms > 0
      && (forall p | p in w.gate.debounce :: w.now + ms <= w.gate.debounce[p])
      && (forall p | p in w.gate.stability :: w.now + ms <= w.gate.stability[p].deadline)
    case DebounceFires(path) => path in w.gate.debounce && w.gate.debounce[path] == w.now
    case StabilityFires(path, _) => path in w.gate.stability && w.gate.stability[path].deadline == w.now
    case _ => true
  }

  function Next(cfg: Config, w: World, s: Step): World
    requires Enabled(w, s)
  {
    match s
    case Advance(ms) => w.(now := w.now + ms)
    case Touch(path, modTime) => w.(disk := w.disk[path := modTime])
    case Remove(path) => w.(disk := w.disk - {path})
    case Event(path) => w.(gate := Handled(cfg, w.gate, path, w.now))
    case DebounceFires(path) => w.(gate := Debounced(cfg, w.gate, path, w.now, ModTime(w, path)))
    case StabilityFires(path, readable) => w.(gate := Expired(cfg, w.gate, path, w.now, ModTime(w, path), readable))
    case Stop => w.(gate := w.gate.(debounce := map[], stability := map[], stopped := true))
  }

  /** The watcher is started at some time over some disk. */
  function Started(now: int, disk: map<string, int>): World {
    World(now, disk, Gate(map[], map[], [], false))
  }

  function Run(cfg: Config, start: World, steps: seq<Step>): Option<World> {
    if steps == [] then Some(start)
    else
      var before := Run(cfg, start, steps[..|steps| - 1]);
      if before.Some? && Enabled(before.value, steps[|steps| - 1])
      then Some(Next(cfg, before.value, steps[|steps| - 1])) else None
  }

  // ------------------------------------------------------------------ stable at emission

  /** At some moment of the run the clock said t and the file had this modification time. */
  predicate Had(cfg: Config, start: World, steps: seq<Step>, path: string, modTime: int, t: int)
    requires Run(cfg, start, steps).Some?
  {
    HadNow(Run(cfg, start, steps).value, path, modTime, t)
    || (steps != [] && Had(cfg, start, steps[..|steps| - 1], path, modTime, t))
  }

  predicate HadNow(w: World, path: string, modTime: int, t: int) {
    w.now == t && path in w.disk && w.disk[path] == modTime
  }

  /** How long a file has to hold still: the configured seconds, or 60 if there are none. */
  function Window(cfg: Config): int {
    if cfg.stabilitySeconds <= 0 then 60_000 else 1000 * cfg.stabilitySeconds
  }

  /** The modification time was the same at the emission and a full stability window earlier. */
  ghost predicate StableFor(cfg: Config, start: World, steps: seq<Step>, e: Emission)
    requires Run(cfg, start, steps).Some?
  {
    && Had(cfg, start, steps, e.path, e.modTime, e.at)
    && Had(cfg, start, steps, e.path, e.modTime, e.at - Window(cfg))
  }

  ghost predicate EntrySeen(cfg: Config, start: World, steps: seq<Step>, path: string, entry: Entry)
    requires Run(cfg, start, steps).Some?
  {
    Had(cfg, start, steps, path, entry.modTime, entry.deadline - Stability(cfg))
  }

  ghost predicate EntriesSeen(cfg: Config, start: World, steps: seq<Step>)
    requires Run(cfg, start, steps).Some?
  {
    var g := Run(cfg, start, steps).value.gate;
    forall p | p in g.stability :: EntrySeen(cfg, start, steps, p, g.stability[p])
  }

  ghost predicate EmissionsStable(cfg: Config, start: World, steps: seq<Step>)
    requires Run(cfg, start, steps).Some?
  {
    forall e | e in Run(cfg, start, steps).value.gate.emitted :: StableFor(cfg, start, steps, e)
  }

  lemma EntriesSeenStep(cfg: Config, start: World, steps: seq<Step>)
    requires steps != [] && Run(cfg, start, steps).Some? && EntriesSeen(cfg, start, steps[..|steps| - 1])
    ensures EntriesSeen(cfg, start, steps)
  {
    var before := steps[..|steps| - 1];
    var g, v := Run(cfg, start, before).value.gate, Run(cfg, start, steps).value;
    forall p | p in v.gate.stability ensures EntrySeen(cfg, start, steps, p, v.gate.stability[p]) {
      if p in g.stability && g.stability[p] == v.gate.stability[p] {
        assert EntrySeen(cfg, start, before, p, g.stability[p]);
      } else {
        assert HadNow(v, p, v.gate.stability[p].modTime, v.gate.stability[p].deadline - Stability(cfg));
      }
    }
  }

  /** Something is emitted exactly when a stability timer of a running watcher fires and finds its
      own modification time on a file that can be read. */
  lemma EmissionExactly(cfg: Config, w: World, s: Step)
    requires Enabled(w, s)
    ensures var v := Next(cfg, w, s);
      if s.StabilityFires? && s.readable && !w.gate.stopped && s.path in w.disk
         && w.disk[s.path] == w.gate.stability[s.path].modTime
      then v.gate.emitted == w.gate.emitted + [Emission(s.path, w.disk[s.path], w.now)]
      else v.gate.emitted == w.gate.emitted
  {
  }

  /** Only a stability timer that is due and finds its own modification time emits. */
  lemma NewEmission(cfg: Config, w: World, s: Step, e: Emission)
    requires Enabled(w, s) && e in Next(cfg, w, s).gate.emitted && e !in w.gate.emitted
    ensures HadNow(w, e.path, e.modTime, e.at)
    ensures e.path in w.gate.stability && w.gate.stability[e.path] == Entry(e.modTime, e.at)
  {
  }

  lemma StillHad(cfg: Config, start: World, steps: seq<Step>, path: string, modTime: int, t: int)
    requires steps != [] && Run(cfg, start, steps).Some?
    requires Had(cfg, start, steps[..|steps| - 1], path, modTime, t)
    ensures Had(cfg, start, steps, path, modTime, t)
  {
  }

  lemma EmissionStillStable(cfg: Config, start: World, steps: seq<Step>, e: Emission)
    requires steps != [] && Run(cfg, start, steps).Some? && StableFor(cfg, start, steps[..|steps| - 1], e)
    ensures StableFor(cfg, start, steps, e)
  {
    StillHad(cfg, start, steps, e.path, e.modTime, e.at);
    StillHad(cfg, start, steps, e.path, e.modTime, e.at - Window(cfg));
  }

  lemma NewEmissionStable(cfg: Config, start: World, before: seq<Step>, w: World, s: Step, e: Emission)
    requires Run(cfg, start, before) == Some(w) && EntriesSeen(cfg, start, before) && Enabled(w, s)
    requires e in Next(cfg, w, s).gate.emitted && e !in w.gate.emitted
    ensures StableFor(cfg, start, before, e)
  {
    NewEmission(cfg, w, s, e);
    HadIfNow(cfg, start, before, w, e.path, e.modTime, e.at);
    assert EntrySeen(cfg, start, before, e.path, w.gate.stability[e.path]);
  }

  lemma HadIfNow(cfg: Config, start: World, steps: seq<Step>, w: World, path: string, modTime: int, t: int)
    requires Run(cfg, start, steps) == Some(w) && HadNow(w, path, modTime, t)
    ensures Had(cfg, start, steps, path, modTime, t)
  {
  }

  lemma EmissionsStableStep(cfg: Config, start: World, steps: seq<Step>)
    requires steps != [] && Run(cfg, start, steps).Some?
    requires EntriesSeen(cfg, start, steps[..|steps| - 1]) && EmissionsStable(cfg, start, steps[..|steps| - 1])
    ensures EmissionsStable(cfg, start, steps)
  {
    var before := steps[..|steps| - 1];
    var w := Run(cfg, start, before).value;
    forall e | e in Run(cfg, start, steps).value.gate.emitted ensures StableFor(cfg, start, steps, e) {
      if e !in w.gate.emitted {
        NewEmissionStable(cfg, start, before, w, steps[|steps| - 1], e);
      }
      EmissionStillStable(cfg, start, steps, e);
    }
  }

  /** Over every run: whatever is emitted has the modification time it had one whole stability
      window before. */
  lemma {:induction false} EmittedIsStable(cfg: Config, now: int, disk: map<string, int>, steps: seq<Step>)
    requires Run(cfg, Started(now, disk), steps).Some?
    ensures EntriesSeen(cfg, Started(now, disk), steps) && EmissionsStable(cfg, Started(now, disk), steps)
  {
    if steps != [] {
      EmittedIsStable(cfg, now, disk, steps[..|steps| - 1]);
      EntriesSeenStep(cfg, Started(now, disk), steps);
      EmissionsStableStep(cfg, Started(now, disk), steps);
    }
  }

  /** An excluded path has no timer and is never emitted. */
  lemma {:induction false} ExcludedNeverEmitted(cfg: Config, now: int, disk: map<string, int>, steps: seq<Step>,
                                                path: string)
    requires Run(cfg, Started(now, disk), steps).Some? && cfg.excluded(path)
    ensures var g := Run(cfg, Started(now, disk), steps).value.gate;
      path !in g.debounce && path !in g.stability && forall e | e in g.emitted :: e.path != path
  {
    if steps != [] {
      ExcludedNeverEmitted(cfg, now, disk, steps[..|steps| - 1], path);
    }
  }

  // ------------------------------------------------------------------ emitted in time

  /** No timer is overdue and none is set further ahead than its period. */
  ghost predicate OnTime(cfg: Config, w: World) {
    && (forall p | p in w.gate.debounce :: w.now <= w.gate.debounce[p] <= w.now + Debounce(cfg))
    && (forall p | p in w.gate.stability :: w.now <= w.gate.stability[p].deadline <= w.now + Stability(cfg))
    && (forall e | e in w.gate.emitted :: e.at <= w.now)
  }

  lemma StepOnTime(cfg: Config, w: World, s: Step)
    requires OnTime(cfg, w) && Enabled(w, s)
    ensures OnTime(cfg, Next(cfg, w, s))
  {
  }

  lemma {:induction false} RunOnTime(cfg: Config, now: int, disk: map<string, int>, steps: seq<Step>)
    requires Run(cfg, Started(now, disk), steps).Some?
    ensures OnTime(cfg, Run(cfg, Started(now, disk), steps).value)
  {
    if steps != [] {
      RunOnTime(cfg, now, disk, steps[..|steps| - 1]);
      StepOnTime(cfg, Run(cfg, Started(now, disk), steps[..|steps| - 1]).value, steps[|steps| - 1]);
    }
  }

  /** A step after which nothing more has happened to the file, and it can be read. */
  predicate Quiet(s: Step, path: string) {
    match s
    case Touch(p, _) => p != path
    case Remove(p) => p != path
    case Event(p) => p != path
    case StabilityFires(p, readable) => p == path ==> readable
    case Stop => false
    case _ => true
  }

  predicate AllQuiet(steps: seq<Step>, path: string) {
    forall k | 0 <= k < |steps| :: Quiet(steps[k], path)
  }

  /** The emission of a file one debounce and one stability period after its last event at t;
      the defaults are half a second and a minute. */
  function Due(cfg: Config, path: string, modTime: int, t: int): Emission {
    Emission(path, modTime, t + (if cfg.debounceMs <= 0 then 500 else cfg.debounceMs) + Window(cfg))
  }

  /** The three phases on the way to an emission. Until the debounce timer fires, an older
      stability timer may still run, and may even emit the file early. */
  ghost predicate Debouncing(cfg: Config, w: World, e: Emission) {
    && e.path in w.gate.debounce && w.gate.debounce[e.path] == e.at - Stability(cfg) && w.now <= e.at - Stability(cfg)
    && multiset(w.gate.emitted)[e] == 0
  }

  ghost predicate Gated(w: World, e: Emission) {
    && e.path !in w.gate.debounce && e.path in w.gate.stability
    && w.gate.stability[e.path] == Entry(e.modTime, e.at) && w.now <= e.at
    && multiset(w.gate.emitted)[e] == 0
  }

  ghost predicate Emitted(w: World, e: Emission) {
    && e.path !in w.gate.debounce && e.path !in w.gate.stability
    && multiset(w.gate.emitted)[e] == 1
  }

  ghost predicate InPhase(cfg: Config, w: World, e: Emission) {
    && !w.gate.stopped && e.path in w.disk && w.disk[e.path] == e.modTime
    && (Debouncing(cfg, w, e) || Gated(w, e) || Emitted(w, e))
  }

  lemma DebouncingStep(cfg: Config, w: World, s: Step, e: Emission)
    requires !w.gate.stopped && e.path in w.disk && w.disk[e.path] == e.modTime && Enabled(w, s) && Quiet(s, e.path)
    requires Debouncing(cfg, w, e)
    ensures var v := Next(cfg, w, s); Debouncing(cfg, v, e) || Gated(v, e)
  {
  }

  lemma GatedStep(cfg: Config, w: World, s: Step, e: Emission)
    requires !w.gate.stopped && e.path in w.disk && w.disk[e.path] == e.modTime && Enabled(w, s) && Quiet(s, e.path)
    requires Gated(w, e)
    ensures var v := Next(cfg, w, s); Gated(v, e) || Emitted(v, e)
  {
  }

  lemma EmittedStep(cfg: Config, w: World, s: Step, e: Emission)
    requires Enabled(w, s) && Quiet(s, e.path) && Emitted(w, e)
    ensures Emitted(Next(cfg, w, s), e)
  {
  }

  lemma PhaseStep(cfg: Config, w: World, s: Step, e: Emission)
    requires InPhase(cfg, w, e) && Enabled(w, s) && Quiet(s, e.path)
    ensures InPhase(cfg, Next(cfg, w, s), e)
  {
    if Debouncing(cfg, w, e) {
      DebouncingStep(cfg, w, s, e);
    } else if Gated(w, e) {
      GatedStep(cfg, w, s, e);
    } else {
      EmittedStep(cfg, w, s, e);
    }
  }

  /** A file that is on its way and left alone arrives, exactly once and on time. */
  lemma {:induction false} QuietRun(cfg: Config, start: World, steps: seq<Step>, more: seq<Step>, e: Emission)
    requires Run(cfg, start, steps).Some? && InPhase(cfg, Run(cfg, start, steps).value, e)
    requires AllQuiet(more, e.path) && Run(cfg, start, steps + more).Some?
    ensures var v := Run(cfg, start, steps + more).value;
      InPhase(cfg, v, e) && (v.now > e.at ==> multiset(v.gate.emitted)[e] == 1)
    decreases |more|
  {
    if more == [] {
      assert steps + more == steps;
    } else {
      var less := more[..|more| - 1];
      assert (steps + more)[..|steps + more| - 1] == steps + less;
      QuietRun(cfg, start, steps, less, e);
      PhaseStep(cfg, Run(cfg, start, steps + less).value, more[|more| - 1], e);
    }
  }

  lemma AfterStep(cfg: Config, start: World, steps: seq<Step>, s: Step)
    requires Run(cfg, start, steps).Some? && Enabled(Run(cfg, start, steps).value, s)
    ensures Run(cfg, start, steps + [s]) == Some(Next(cfg, Run(cfg, start, steps).value, s))
  {
    assert (steps + [s])[..|steps + [s]| - 1] == steps;
  }

  /** A file whose last event that is not excluded comes at t, and which is not changed after
      that, is emitted exactly once at t + debounce + stability: in every continuation, as soon
      as the clock is past that time. */
  lemma EmittedInTime(cfg: Config, now: int, disk: map<string, int>, steps: seq<Step>, path: string, more: seq<Step>)
    requires var start := Started(now, disk);
      && !cfg.excluded(path) && AllQuiet(more, path)
      && Run(cfg, start, steps).Some? && !Run(cfg, start, steps).value.gate.stopped
      && path in Run(cfg, start, steps).value.disk
      && Run(cfg, start, (steps + [Event(path)]) + more).Some?
    ensures var w := Run(cfg, Started(now, disk), steps).value;
      var v := Run(cfg, Started(now, disk), (steps + [Event(path)]) + more).value;
      var e := Due(cfg, path, w.disk[path], w.now);
      InPhase(cfg, v, e) && (v.now > e.at ==> multiset(v.gate.emitted)[e] == 1)
  {
    var start := Started(now, disk);
    var w := Run(cfg, start, steps).value;
    RunOnTime(cfg, now, disk, steps);
    AfterStep(cfg, start, steps, Event(path));
    QuietRun(cfg, start, steps + [Event(path)], more, Due(cfg, path, w.disk[path], w.now));
  }

  /** A file that is found changed when its stability timer fires is held back, and if it is then
      left alone it is emitted exactly once, one more stability window later. */
  lemma ChangedFileWaitsAgain(cfg: Config, now: int, disk: map<string, int>, steps: seq<Step>, path: string,
                              readable: bool, more: seq<Step>)
    requires var start, s := Started(now, disk), StabilityFires(path, readable);
      && AllQuiet(more, path) && Run(cfg, start, steps).Some? && Run(cfg, start, (steps + [s]) + more).Some?
      && var w := Run(cfg, start, steps).value;
         && !w.gate.stopped && Enabled(w, s) && path !in w.gate.debounce
         && path in w.disk && w.disk[path] != w.gate.stability[path].modTime
    ensures var start, s := Started(now, disk), StabilityFires(path, readable);
      var w, h := Run(cfg, start, steps).value, Run(cfg, start, steps + [s]).value;
      var v, e := Run(cfg, start, (steps + [s]) + more).value, Emission(path, w.disk[path], w.now + Window(cfg));
      && h.gate.emitted == w.gate.emitted
      && InPhase(cfg, v, e) && (v.now > e.at ==> multiset(v.gate.emitted)[e] == 1)
  {
    var start, s := Started(now, disk), StabilityFires(path, readable);
    var w := Run(cfg, start, steps).value;
    RunOnTime(cfg, now, disk, steps);
    AfterStep(cfg, start, steps, s);
    QuietRun(cfg, start, steps + [s], more, Emission(path, w.disk[path], w.now + Window(cfg)));
  }

  /** Nothing is emitted once the watcher has been stopped. */
  lemma {:induction false} NothingAfterStop(cfg: Config, start: World, steps: seq<Step>, more: seq<Step>)
    requires Run(cfg, start, steps).Some? && Run(cfg, start, (steps + [Stop]) + more).Some?
    ensures var v := Run(cfg, start, (steps + [Stop]) + more).value;
      v.gate.stopped && v.gate.emitted == Run(cfg, start, steps).value.gate.emitted
    decreases |more|
  {
    var all := (steps + [Stop]) + more;
    if more == [] {
      AfterStep(cfg, start, steps, Stop);
      assert all == steps + [Stop];
    } else {
      assert all[..|all| - 1] == (steps + [Stop]) + more[..|more| - 1];
      NothingAfterStop(cfg, start, steps, more[..|more| - 1]);
    }
  }

  // ------------------------------------------------------------------ the watcher itself

  class FileWatcher {
    const cfg: Config
    var debounceTimers: map<string, int>
    var stabilityMap: map<string, Entry>
    var stableFiles: seq<Emission>
    var stopped: bool

    function State(): Gate
      reads this
    {
      Gate(debounceTimers, stabilityMap, stableFiles, stopped)
    }

    constructor (cfg: Config)
      ensures this.cfg == cfg && State() == Started(0, map[]).gate
    {
      this.cfg := cfg;
      debounceTimers, stabilityMap, stableFiles, stopped := map[], map[], [], false;
    }

    method HandleEvent(path: string, now: int)
      modifies this`debounceTimers
      ensures State() == Handled(cfg, old(State()), path, now)
      ensures debounceTimers ==
        if cfg.excluded(path) then old(debounceTimers)
        else old(debounceTimers)[path := now + if cfg.debounceMs <= 0 then 500 else cfg.debounceMs]
    {
      if cfg.excluded(path) {
        return;
      }
      if path in debounceTimers {
        debounceTimers := debounceTimers - {path};
      }
      debounceTimers := debounceTimers[path := now + Debounce(cfg)];
    }

    method OnDebounceExpired(path: string, now: int, modTime: Option<int>)
      modifies this`debounceTimers, this`stabilityMap
      ensures State() == Debounced(cfg, old(State()), path, now, modTime)
      ensures debounceTimers == old(debounceTimers) - {path}
      ensures stabilityMap ==
        if modTime.None? then old(stabilityMap) else old(stabilityMap)[path := Entry(modTime.value, now + Window(cfg))]
    {
      debounceTimers := debounceTimers - {path};
      if modTime.None? {
        return;
      }
      var deadline := now + Stability(cfg);
      if path in stabilityMap {
        var entry := stabilityMap[path].(modTime := modTime.value);
        stabilityMap := stabilityMap[path := entry.(deadline := deadline)];
        return;
      }
      stabilityMap := stabilityMap[path := Entry(modTime.value, deadline)];
    }

    method OnStabilityExpired(path: string, now: int, modTime: Option<int>, readable: bool)
      modifies this`stabilityMap, this`stableFiles
      ensures State() ==
        if path in old(stabilityMap) then Expired(cfg, old(State()), path, now, modTime, readable) else old(State())
      ensures path in old(stabilityMap) && !stopped && modTime == Some(old(stabilityMap)[path].modTime) ==>
        && stableFiles == old(stableFiles) + (if readable then [Emission(path, modTime.value, now)] else [])
        && stabilityMap == old(stabilityMap) - {path}
      ensures path in old(stabilityMap) && !stopped && modTime.Some? && modTime.value != old(stabilityMap)[path].modTime ==>
        && stableFiles == old(stableFiles)
        && stabilityMap == old(stabilityMap)[path := Entry(modTime.value, now + Window(cfg))]
      ensures path !in old(stabilityMap) || stopped || modTime.None? ==>
        stableFiles == old(stableFiles) && stabilityMap == old(stabilityMap) - {path}
    {
      if path !in stabilityMap {
        return;
      }
      var expected := stabilityMap[path].modTime;
      stabilityMap := stabilityMap - {path};
      if stopped {
        return;
      }
      if modTime.None? {
        return;
      }
      if modTime.value != expected {
        stabilityMap := stabilityMap[path := Entry(modTime.value, now + Stability(cfg))];
        assert stabilityMap == old(stabilityMap)[path := Entry(modTime.value, now + Stability(cfg))];
        return;
      }
      if readable {
        stableFiles := stableFiles + [Emission(path, modTime.value, now)];
      }
    }

    method Stop()
      modifies this
      ensures State() == old(State()).(debounce := map[], stability := map[], stopped := true)
    {
      stopped := true;
      debounceTimers, stabilityMap := map[], map[];
    }
  }
}
