/** internal/retention/engine.go: which versions a run expires, and the run itself. */
module Retention {
  import opened Foundations
  import opened Catalog
  import opened Storage
  import opened Reclamation

  datatype RetentionPolicy = RetentionPolicy(name: string, keepDays: Option<int>, keepVersions: int,
                                             pattern: string, priority: int, enabled: bool)

  datatype RetentionResult = RetentionResult(evaluated: nat, expired: nat, bytesFreed: int,
                                             filesDeleted: nat, kept: nat)

  /** `filepath.Match`: None for a malformed pattern. */
  type Glob = (string, string) -> Option<bool>

  /** What one run works with: the enabled policies by falling priority, and its clock. */
  datatype Rules = Rules(glob: Glob, ranked: seq<RetentionPolicy>, now: int)

  const DAY := 86_400_000_000_000

  predicate Applies(glob: Glob, p: RetentionPolicy, path: string) {
    p.pattern == "" || glob(p.pattern, path) == Some(true)
  }

  function FirstMatch(glob: Glob, ps: seq<RetentionPolicy>, path: string): Option<RetentionPolicy> {
    if ps == [] then None
    else if Applies(glob, ps[0], path) then Some(ps[0])
    else FirstMatch(glob, ps[1..], path)
  }

  function PolicyFor(rules: Rules, path: string): Option<RetentionPolicy> {
    FirstMatch(rules.glob, rules.ranked, path)
  }

  /** `findMatchingPolicy`: the first policy in rank order that applies, if any does. */
  method FindMatchingPolicy(glob: Glob, ps: seq<RetentionPolicy>, path: string) returns (r: Option<RetentionPolicy>)
    ensures r == FirstMatch(glob, ps, path)
    ensures r.None? ==> forall i | 0 <= i < |ps| :: ps[i].pattern != "" && glob(ps[i].pattern, path) != Some(true)
    ensures r.Some? ==>
      && (r.value.pattern == "" || glob(r.value.pattern, path) == Some(true))
      && exists i :: 0 <= i < |ps| && ps[i] == r.value
                     && forall k | 0 <= k < i :: ps[k].pattern != "" && glob(ps[k].pattern, path) != Some(true)
  {
    for i := 0 to |ps|
      invariant forall k | 0 <= k < i :: !Applies(glob, ps[k], path)
      invariant FirstMatch(glob, ps, path) == FirstMatch(glob, ps[i..], path)
    {
      if ps[i].pattern == "" {
        return Some(ps[i]);
      }
      var matched := glob(ps[i].pattern, path);
      if matched == Some(true) {
        return Some(ps[i]);
      }
    }
    return None;
  }

  predicate OutOfTime(e: BackupEntry, days: int, now: int) {
    e.backupDate + days * DAY < now
  }

  /** `shouldExpire` */
  predicate ShouldExpire(e: BackupEntry, p: RetentionPolicy, now: int, totalVersions: nat) {
    if p.keepDays.None? then false
    else if p.keepVersions > 0 && totalVersions <= p.keepVersions then false
    else OutOfTime(e, p.keepDays.value, now)
  }

  // --------------------------------------------------------------- what a run expires

  /** The row listed first among the versions of each path: one of its newest. */
  ghost predicate NewestOf(t: Table, newest: map<string, nat>) {
    forall p | p in newest :: IsNewest(t, WithPath(t, p), newest[p])
  }

  ghost predicate Purged(rules: Rules, path: string) {
    PolicyFor(rules, path).Some? && PolicyFor(rules, path).value.keepVersions == 0
  }

  /** Row id of t expires, `latest` being the version listed first for its path: more than
      keep_days have passed since its date, and neither the number of versions of its path nor
      being the latest protects it. */
  ghost predicate Expires(rules: Rules, t: Table, id: nat, latest: nat)
    requires id in t
  {
    var p := PolicyFor(rules, t[id].filePath);
    && p.Some? && p.value.keepDays.Some?
    && t[id].backupDate + p.value.keepDays.value * 86_400_000_000_000 < rules.now
    && (p.value.keepVersions == 0 || (id != latest && |WithPath(t, t[id].filePath)| > p.value.keepVersions))
  }

  ghost function ExpiredAt(rules: Rules, t: Table, path: string, latest: nat): set<nat> {
    set id | id in t && t[id].filePath == path && Expires(rules, t, id, latest)
  }

  ghost function Expired(rules: Rules, t: Table, newest: map<string, nat>): set<nat> {
    set id | id in t && t[id].filePath in newest && Expires(rules, t, id, newest[t[id].filePath])
  }

  ghost function Survivors(rules: Rules, t: Table, newest: map<string, nat>): Table {
    t - Expired(rules, t, newest)
  }

  ghost function StillInTime(t: Table, path: string, days: int, now: int): set<nat> {
    set id | id in t && t[id].filePath == path && now <= t[id].backupDate + days * 86_400_000_000_000
  }

  /** What is left of one path, policy by policy. */
  ghost function Kept(rules: Rules, t: Table, path: string, latest: nat): set<nat> {
    var all := WithPath(t, path);
    match PolicyFor(rules, path)
    case None => all
    case Some(p) =>
      if p.keepDays.None? then all
      else if p.keepVersions == 0 then StillInTime(t, path, p.keepDays.value, rules.now)
      else if p.keepVersions > 0 && |all| <= p.keepVersions then all
      else StillInTime(t, path, p.keepDays.value, rules.now) + {latest}
  }

  /** Each path is left with exactly its closed-form survivors. */
  lemma SurvivorsOfPath(rules: Rules, t: Table, newest: map<string, nat>, path: string)
    requires NewestOf(t, newest) && path in newest
    ensures WithPath(Survivors(rules, t, newest), path) == Kept(rules, t, path, newest[path])
  {
    var latest := newest[path];
    forall id ensures id in WithPath(Survivors(rules, t, newest), path) <==> id in Kept(rules, t, path, latest) {
      if id in t && t[id].filePath == path {
        assert id in Expired(rules, t, newest) <==> Expires(rules, t, id, latest);
      }
    }
  }

  /** The version listed first survives exactly when no purge policy governs the path, the policy
      never expires anything, or the version is still in time. */
  lemma NewestSurvives(rules: Rules, t: Table, newest: map<string, nat>, path: string)
    requires NewestOf(t, newest) && path in newest
    ensures newest[path] in WithPath(Survivors(rules, t, newest), path) <==>
            !Purged(rules, path) || PolicyFor(rules, path).value.keepDays.None?
            || rules.now <= t[newest[path]].backupDate + PolicyFor(rules, path).value.keepDays.value * 86_400_000_000_000
  {
    SurvivorsOfPath(rules, t, newest, path);
    assert newest[path] in WithPath(t, path);
  }

  /** README.md:16 promises that the latest version is always protected. Under "keep 0, 1 day" a
      file whose only version is out of time is left with none. */
  lemma LatestNotAlwaysProtected(glob: Glob)
    ensures var t := map[1 := Version(1, 1)];
            var rules := Rules(glob, [RetentionPolicy("p", Some(1), 0, "", 0, true)], 10 * DAY);
            NewestOf(t, map["/f" := 1]) && WithPath(Survivors(rules, t, map["/f" := 1]), "/f") == {}
  {
    var t := map[1 := Version(1, 1)];
    var rules := Rules(glob, [RetentionPolicy("p", Some(1), 0, "", 0, true)], 10 * DAY);
    assert WithPath(t, "/f") == {1};
    assert IsNewest(t, WithPath(t, "/f"), 1);
    assert PolicyFor(rules, "/f") == Some(rules.ranked[0]);
    SurvivorsOfPath(rules, t, map["/f" := 1], "/f");
  }

  /** Running again at the same clock expires nothing, whichever newest version is listed
      first the second time. */
  lemma SecondRunExpiresNothing(rules: Rules, t: Table, newest: map<string, nat>, newest': map<string, nat>)
    requires NewestOf(t, newest) && newest.Keys == PathsOf(t)
    requires NewestOf(Survivors(rules, t, newest), newest')
    ensures Expired(rules, Survivors(rules, t, newest), newest') == {}
  {
    var t' := Survivors(rules, t, newest);
    forall id | id in t' && t'[id].filePath in newest'
      ensures !Expires(rules, t', id, newest'[t'[id].filePath])
    {
      StillKept(rules, t, newest, id, newest'[t'[id].filePath]);
    }
  }

  lemma StillKept(rules: Rules, t: Table, newest: map<string, nat>, id: nat, latest': nat)
    requires NewestOf(t, newest) && newest.Keys == PathsOf(t)
    requires id in Survivors(rules, t, newest)
    requires var t' := Survivors(rules, t, newest); IsNewest(t', WithPath(t', t'[id].filePath), latest')
    ensures !Expires(rules, Survivors(rules, t, newest), id, latest')
  {
    var t' := Survivors(rules, t, newest);
    var path := t[id].filePath;
    var latest := newest[path];
    FewerVersions(t, t', path);
    assert latest' in WithPath(t', path);
    assert id in WithPath(t, path) && t[latest'].filePath == path;
    assert !Expires(rules, t, id, latest) && !Expires(rules, t, latest', latest);
    // Only the version listed first in the first run can be out of time and yet unprotected by
    // the count; a newest survivor with another id is of the same date, and in time.
    if id == latest && id != latest' {
      assert t[latest'].backupDate == t[latest].backupDate;
    }
  }

  lemma FewerVersions(t: Table, t': Table, path: string)
    requires forall id | id in t' :: id in t && t'[id] == t[id]
    ensures |WithPath(t', path)| <= |WithPath(t, path)|
  {
    var all, left := WithPath(t, path), WithPath(t', path);
    assert left <= all;
    assert |all - left| == |all| - |left|;
  }

  /** From a given database the expired set only grows as the clock advances. */
  lemma ExpiryGrowsWithClock(rules: Rules, t: Table, newest: map<string, nat>, later: int)
    requires rules.now <= later
    ensures Expired(rules, t, newest) <= Expired(rules.(now := later), t, newest)
  {
  }

  // ------------------------------------------------- keep_versions is not a lower bound

  function Version(id: nat, date: int): BackupEntry {
    BackupEntry(id, "b", "h", "f", "/f", 1, None, false, "", [], [], date)
  }

  /** cmd/retention.go:207 promises that at least keep_versions versions survive. Four versions
      under "keep 3, 1 day" leave one when all four are out of time. */
  lemma KeepVersionsNotHonoured(glob: Glob)
    ensures var t := map[1 := Version(1, 1), 2 := Version(2, 2), 3 := Version(3, 3), 4 := Version(4, 4)];
            var rules := Rules(glob, [RetentionPolicy("p", Some(1), 3, "", 0, true)], 10 * DAY);
            NewestOf(t, map["/f" := 4]) && WithPath(Survivors(rules, t, map["/f" := 4]), "/f") == {4}
  {
    var t := map[1 := Version(1, 1), 2 := Version(2, 2), 3 := Version(3, 3), 4 := Version(4, 4)];
    var rules := Rules(glob, [RetentionPolicy("p", Some(1), 3, "", 0, true)], 10 * DAY);
    var all := WithPath(t, "/f");
    assert all == {1, 2, 3, 4};
    assert IsNewest(t, all, 4);
    assert PolicyFor(rules, "/f") == Some(rules.ranked[0]);
    SurvivorsOfPath(rules, t, map["/f" := 4], "/f");
    assert StillInTime(t, "/f", 1, 10 * DAY) == {};
  }

  /** A path keeps min(N, keep_versions) of its N versions exactly when its count is within
      keep_versions, no keep_days applies, or enough versions besides the newest are in time. */
  lemma KeepVersionsHonouredExactly(rules: Rules, t: Table, newest: map<string, nat>, path: string, p: RetentionPolicy)
    requires NewestOf(t, newest) && path in newest
    requires PolicyFor(rules, path) == Some(p) && p.keepVersions > 0
    ensures var n, left := |WithPath(t, path)|, |WithPath(Survivors(rules, t, newest), path)|;
            left >= (if n <= p.keepVersions then n else p.keepVersions) <==>
            n <= p.keepVersions || p.keepDays.None?
            || 1 + |StillInTime(t, path, p.keepDays.value, rules.now) - {newest[path]}| >= p.keepVersions
  {
    SurvivorsOfPath(rules, t, newest, path);
    if p.keepDays.Some? {
      var inTime, latest := StillInTime(t, path, p.keepDays.value, rules.now), newest[path];
      assert inTime + {latest} == (inTime - {latest}) + {latest};
    }
  }

  // ------------------------------------------------------------------------ the run

  function EnabledOnly(ps: seq<RetentionPolicy>): seq<RetentionPolicy> {
    if ps == [] then []
    else EnabledOnly(ps[..|ps| - 1]) + if ps[|ps| - 1].enabled then [ps[|ps| - 1]] else []
  }

  predicate ByPriority(ps: seq<RetentionPolicy>) {
    forall i, j | 0 <= i < j < |ps| :: ps[i].priority >= ps[j].priority
  }

  /** One order that `sort.Slice` may leave the enabled policies in: ties come in any order. */
  ghost predicate IsRanking(ranked: seq<RetentionPolicy>, policies: seq<RetentionPolicy>) {
    && (forall p :: multiset(ranked)[p] == if p.enabled then multiset(policies)[p] else 0)
    && (forall i, j | 0 <= i < j < |ranked| :: ranked[i].priority >= ranked[j].priority)
  }

  lemma {:induction false} EnabledCount(ps: seq<RetentionPolicy>, p: RetentionPolicy)
    ensures multiset(EnabledOnly(ps))[p] == if p.enabled then multiset(ps)[p] else 0
  {
    if ps != [] {
      EnabledCount(ps[..|ps| - 1], p);
      assert ps == ps[..|ps| - 1] + [ps[|ps| - 1]];
    }
  }

  /** The sort has something to end with. */
  lemma {:induction false} RankingExists(ps: seq<RetentionPolicy>)
    ensures exists r: seq<RetentionPolicy> :: multiset(r) == multiset(ps) && ByPriority(r)
  {
    if ps == [] {
      assert multiset(ps) == multiset(ps) && ByPriority(ps);
    } else {
      var rest, p := ps[..|ps| - 1], ps[|ps| - 1];
      assert ps == rest + [p];
      RankingExists(rest);
      var r: seq<RetentionPolicy> :| multiset(r) == multiset(rest) && ByPriority(r);
      var s := Placed(r, p);
      assert multiset(s) == multiset(ps) && ByPriority(s);
    }
  }

  /** p in its place among ranked policies. */
  lemma Placed(r: seq<RetentionPolicy>, p: RetentionPolicy) returns (s: seq<RetentionPolicy>)
    requires ByPriority(r)
    ensures multiset(s) == multiset(r) + multiset{p} && ByPriority(s)
    ensures forall i | 0 <= i < |s| :: s[i] == p || s[i] in r
  {
    if r == [] || r[|r| - 1].priority >= p.priority {
      s := r + [p];
    } else {
      var before, last := r[..|r| - 1], r[|r| - 1];
      s := Placed(before, p);
      forall i | 0 <= i < |s| ensures s[i].priority >= last.priority {
        if s[i] != p {
          var k :| 0 <= k < |before| && before[k] == s[i];
        }
      }
      assert r == before + [last];
      s := s + [last];
    }
  }

  lemma SortedIsRanking(ranked: seq<RetentionPolicy>, policies: seq<RetentionPolicy>)
    requires multiset(ranked) == multiset(EnabledOnly(policies)) && ByPriority(ranked)
    ensures IsRanking(ranked, policies)
  {
    forall p ensures multiset(ranked)[p] == if p.enabled then multiset(policies)[p] else 0 {
      EnabledCount(policies, p);
    }
  }

  lemma SamePolicies(a: seq<RetentionPolicy>, b: seq<RetentionPolicy>, policies: seq<RetentionPolicy>)
    requires IsRanking(a, policies) && IsRanking(b, policies)
    ensures multiset(a) == multiset(b)
  {
    forall p ensures multiset(a)[p] == multiset(b)[p] {
      assert multiset(a)[p] == if p.enabled then multiset(policies)[p] else 0;
    }
  }

  /** A policy is in force for a path when it is enabled and its pattern is empty or matches. */
  ghost predicate InForce(glob: Glob, p: RetentionPolicy, policies: seq<RetentionPolicy>, path: string) {
    p in policies && p.enabled && (p.pattern == "" || glob(p.pattern, path) == Some(true))
  }

  /** The configured policies leave this one in charge of the path: one of the highest priority
      among those in force, or none if there is none. */
  ghost predicate Governs(glob: Glob, policies: seq<RetentionPolicy>, path: string, governing: Option<RetentionPolicy>) {
    match governing
    case None => forall q | q in policies :: !InForce(glob, q, policies, path)
    case Some(p) =>
      InForce(glob, p, policies, path)
      && forall q | q in policies && InForce(glob, q, policies, path) :: q.priority <= p.priority
  }

  lemma {:induction false} FirstMatchIsFirst(glob: Glob, ps: seq<RetentionPolicy>, path: string)
    ensures FirstMatch(glob, ps, path).None? ==> forall i | 0 <= i < |ps| :: !Applies(glob, ps[i], path)
    ensures FirstMatch(glob, ps, path).Some? ==>
      exists i :: 0 <= i < |ps| && FirstMatch(glob, ps, path) == Some(ps[i]) && Applies(glob, ps[i], path)
                  && forall k | 0 <= k < i :: !Applies(glob, ps[k], path)
  {
    if ps != [] && !Applies(glob, ps[0], path) {
      FirstMatchIsFirst(glob, ps[1..], path);
      if FirstMatch(glob, ps[1..], path).Some? {
        var i :| 0 <= i < |ps| - 1 && FirstMatch(glob, ps[1..], path) == Some(ps[1..][i])
                 && Applies(glob, ps[1..][i], path) && forall k | 0 <= k < i :: !Applies(glob, ps[1..][k], path);
        assert ps[i + 1] == ps[1..][i];
        forall k | 0 <= k < i + 1 ensures !Applies(glob, ps[k], path) {
          if k > 0 { assert ps[k] == ps[1..][k - 1]; }
        }
      } else {
        forall i | 0 <= i < |ps| ensures !Applies(glob, ps[i], path) {
          if i > 0 { assert ps[i] == ps[1..][i - 1]; }
        }
      }
    }
  }

  lemma RankedPolicies(ranked: seq<RetentionPolicy>, policies: seq<RetentionPolicy>, p: RetentionPolicy)
    requires IsRanking(ranked, policies)
    ensures p in ranked <==> p in policies && p.enabled
  {
    assert multiset(ranked)[p] == if p.enabled then multiset(policies)[p] else 0;
    assert p in ranked <==> p in multiset(ranked);
    assert p in policies <==> p in multiset(policies);
  }

  /** The first match in any ranking is a policy that governs the path. */
  lemma FirstMatchGoverns(rules: Rules, policies: seq<RetentionPolicy>, path: string)
    requires IsRanking(rules.ranked, policies)
    ensures Governs(rules.glob, policies, path, PolicyFor(rules, path))
  {
    FirstMatchIsFirst(rules.glob, rules.ranked, path);
    forall q | q in policies && InForce(rules.glob, q, policies, path)
      ensures PolicyFor(rules, path).Some? && q.priority <= PolicyFor(rules, path).value.priority
    {
      RankedPolicies(rules.ranked, policies, q);
      var k :| 0 <= k < |rules.ranked| && rules.ranked[k] == q;
      assert Applies(rules.glob, rules.ranked[k], path);
    }
    if PolicyFor(rules, path).Some? {
      RankedPolicies(rules.ranked, policies, PolicyFor(rules, path).value);
    }
  }

  /** How far a run has got: the rows in `gone` have been found expired and, in a real run,
      reaped. */
  ghost predicate Progress(st: State, cur: State, gone: set<nat>, r: RetentionResult, dryRun: bool) {
    && gone <= st.entries.Keys
    && r.expired == |gone| && r.bytesFreed == TotalSize(st.entries, gone)
    && (dryRun ==> cur == st && r.filesDeleted == 0)
    && (!dryRun ==> Reaped(st, cur, gone, r.filesDeleted))
  }

  ghost function PathsKeeping(rules: Rules, newest: map<string, nat>): set<string> {
    set p | p in newest && !Purged(rules, p)
  }

  /** The outcome of a run that reported success. */
  ghost predicate Evaluated(st: State, cur: State, rules: Rules, newest: map<string, nat>, r: RetentionResult,
                            dryRun: bool)
  {
    && NewestOf(st.entries, newest) && newest.Keys == PathsOf(st.entries)
    && Progress(st, cur, Expired(rules, st.entries, newest), r, dryRun)
    && r.evaluated == |st.entries|
    && r.kept == |PathsKeeping(rules, newest)|
  }

  /** A row of the path with the latest date of all its versions. */
  ghost predicate IsLatest(t: Table, path: string, latest: nat) {
    latest in t && t[latest].filePath == path
    && forall id | id in t && t[id].filePath == path :: t[id].backupDate <= t[latest].backupDate
  }

  /** Row by row: a successful run has removed exactly the rows that expire. */
  lemma EvaluatedRows(st: State, cur: State, rules: Rules, newest: map<string, nat>, r: RetentionResult, dryRun: bool)
    requires Evaluated(st, cur, rules, newest, r, dryRun)
    ensures forall id | id in st.entries ::
              var e := st.entries[id];
              && e.filePath in newest && IsLatest(st.entries, e.filePath, newest[e.filePath])
              && (!dryRun ==> (id !in cur.entries <==> Expires(rules, st.entries, id, newest[e.filePath])))
              && (id in cur.entries ==> cur.entries[id] == e)
  {
    forall id | id in st.entries
      ensures st.entries[id].filePath in newest
      ensures IsLatest(st.entries, st.entries[id].filePath, newest[st.entries[id].filePath])
    {
      var path := st.entries[id].filePath;
      assert path in PathsOf(st.entries);
      assert IsNewest(st.entries, WithPath(st.entries, path), newest[path]);
      forall x | x in st.entries && st.entries[x].filePath == path
        ensures st.entries[x].backupDate <= st.entries[newest[path]].backupDate
      {
        assert x in WithPath(st.entries, path);
      }
      assert newest[path] in WithPath(st.entries, path);
    }
  }

  // ---------------------------------------------------- the dry run predicts the real one

  predicate StrictlyRanked(ps: seq<RetentionPolicy>) {
    forall i, j | 0 <= i < j < |ps| :: ps[i].priority > ps[j].priority
  }

  lemma TailsAgree(a: seq<RetentionPolicy>, b: seq<RetentionPolicy>)
    requires a != [] && b != [] && a[0] == b[0] && multiset(a) == multiset(b)
    ensures multiset(a[1..]) == multiset(b[1..])
  {
    assert a == [a[0]] + a[1..] && b == [b[0]] + b[1..];
    assert multiset(a[1..]) == multiset(a) - multiset{a[0]};
    assert multiset(b[1..]) == multiset(b) - multiset{a[0]};
  }

  lemma TailsRanked(a: seq<RetentionPolicy>, b: seq<RetentionPolicy>)
    requires a != [] && b != [] && StrictlyRanked(a) && ByPriority(b)
    ensures StrictlyRanked(a[1..]) && ByPriority(b[1..])
  {
  }

  /** With distinct priorities there is only one order that the sort can leave. */
  lemma {:induction false} OneRanking(a: seq<RetentionPolicy>, b: seq<RetentionPolicy>)
    requires multiset(a) == multiset(b) && StrictlyRanked(a) && ByPriority(b)
    ensures a == b
  {
    if a == [] {
      assert |multiset(b)| == 0;
    } else {
      SameHead(a, b);
      TailsAgree(a, b);
      TailsRanked(a, b);
      OneRanking(a[1..], b[1..]);
      assert a == [a[0]] + a[1..] && b == [b[0]] + b[1..];
    }
  }

  lemma SameHead(a: seq<RetentionPolicy>, b: seq<RetentionPolicy>)
    requires multiset(a) == multiset(b) && StrictlyRanked(a) && ByPriority(b) && a != []
    ensures b != [] && a[0] == b[0]
  {
    assert a[0] in multiset(a) && a[0] in multiset(b);
    var j :| 0 <= j < |b| && b[j] == a[0];
    assert b[0] in multiset(b) && b[0] in multiset(a);
    var i :| 0 <= i < |a| && a[i] == b[0];
  }

  /** Which of two newest versions of a path is listed first decides at most which of the two is
      protected. */
  lemma SwappedNewest(rules: Rules, t: Table, path: string, a: nat, b: nat)
    requires IsNewest(t, WithPath(t, path), a) && IsNewest(t, WithPath(t, path), b)
    ensures var ea, eb := ExpiredAt(rules, t, path, a), ExpiredAt(rules, t, path, b);
      eb == ea || (b in ea && a !in ea && eb == ea - {b} + {a})
  {
    var ea, eb := ExpiredAt(rules, t, path, a), ExpiredAt(rules, t, path, b);
    assert a in WithPath(t, path) && b in WithPath(t, path);
    assert t[a].backupDate == t[b].backupDate;
    if a != b && b in ea && a !in ea {
      assert eb == ea - {b} + {a};
    } else {
      assert eb == ea;
    }
  }

  lemma SwappedTotal(t: Table, rest: set<nat>, a: nat, b: nat)
    requires rest <= t.Keys && a in t && b in t && a !in rest && b !in rest
    ensures |rest + {a}| == |rest + {b}|
    ensures t[a].fileSize == t[b].fileSize ==> TotalSize(t, rest + {a}) == TotalSize(t, rest + {b})
  {
    TotalSizeAdds(t, rest, a);
    TotalSizeAdds(t, rest, b);
  }

  lemma SwappedTotals(rules: Rules, t: Table, path: string, a: nat, b: nat)
    requires IsNewest(t, WithPath(t, path), a) && IsNewest(t, WithPath(t, path), b)
    ensures |ExpiredAt(rules, t, path, a)| == |ExpiredAt(rules, t, path, b)|
    ensures t[a].fileSize == t[b].fileSize ==>
              TotalSize(t, ExpiredAt(rules, t, path, a)) == TotalSize(t, ExpiredAt(rules, t, path, b))
  {
    var ea, eb := ExpiredAt(rules, t, path, a), ExpiredAt(rules, t, path, b);
    SwappedNewest(rules, t, path, a, b);
    if eb != ea {
      assert ea == (ea - {b}) + {b} && eb == (ea - {b}) + {a};
      SwappedTotal(t, ea - {b}, a, b);
    }
  }

  lemma {:induction false} TotalSizeOfUnion(t: Table, a: set<nat>, b: set<nat>)
    requires a <= t.Keys && b <= t.Keys && a !! b
    ensures TotalSize(t, a + b) == TotalSize(t, a) + TotalSize(t, b)
    decreases b
  {
    if b == {} {
      assert a + b == a;
    } else {
      var id :| id in b;
      TotalSizeOfUnion(t, a, b - {id});
      TotalSizeAdds(t, b - {id}, id);
      TotalSizeAdds(t, a + (b - {id}), id);
      assert a + (b - {id}) + {id} == a + b && b - {id} + {id} == b;
    }
  }

  ghost predicate SameSizes(t: Table, a: map<string, nat>, b: map<string, nat>) {
    forall p | p in a && p in b && a[p] in t && b[p] in t :: t[a[p]].fileSize == t[b[p]].fileSize
  }

  /** Whichever newest versions two runs list first, they find equally many expired ... */
  lemma {:induction false} TiesExpireAlike(rules: Rules, t: Table, a: map<string, nat>, b: map<string, nat>)
    requires NewestOf(t, a) && NewestOf(t, b) && a.Keys == b.Keys
    ensures |Expired(rules, t, a)| == |Expired(rules, t, b)|
    decreases a.Keys
  {
    if a.Keys == {} {
      assert Expired(rules, t, a) == Expired(rules, t, b) == {};
    } else {
      var path :| path in a;
      WithoutPath(t, a, path);
      WithoutPath(t, b, path);
      TiesExpireAlike(rules, t, a - {path}, b - {path});
      OnePathOf(rules, t, a, path);
      OnePathOf(rules, t, b, path);
      SwappedTotals(rules, t, path, a[path], b[path]);
    }
  }

  /** ... and equally many bytes when the versions that tie for the newest are of one size. */
  lemma {:induction false} TiesFreeAlike(rules: Rules, t: Table, a: map<string, nat>, b: map<string, nat>)
    requires NewestOf(t, a) && NewestOf(t, b) && a.Keys == b.Keys && SameSizes(t, a, b)
    ensures TotalSize(t, Expired(rules, t, a)) == TotalSize(t, Expired(rules, t, b))
    decreases a.Keys
  {
    if a.Keys == {} {
      assert Expired(rules, t, a) == Expired(rules, t, b) == {};
    } else {
      var path :| path in a;
      WithoutPath(t, a, path);
      WithoutPath(t, b, path);
      SizesWithout(t, a, b, path);
      TiesFreeAlike(rules, t, a - {path}, b - {path});
      OnePathOf(rules, t, a, path);
      OnePathOf(rules, t, b, path);
      SwappedTotals(rules, t, path, a[path], b[path]);
    }
  }

  lemma WithoutPath(t: Table, newest: map<string, nat>, path: string)
    requires NewestOf(t, newest) && path in newest
    ensures NewestOf(t, newest - {path}) && (newest - {path})[path := newest[path]] == newest
    ensures (newest - {path}).Keys == newest.Keys - {path}
  {
  }

  lemma SizesWithout(t: Table, a: map<string, nat>, b: map<string, nat>, path: string)
    requires SameSizes(t, a, b)
    ensures SameSizes(t, a - {path}, b - {path})
  {
  }

  /** The totals of a run are those of one path and those of the others. */
  lemma OnePathOf(rules: Rules, t: Table, newest: map<string, nat>, path: string)
    requires NewestOf(t, newest) && path in newest
    ensures var rest, one := Expired(rules, t, newest - {path}), ExpiredAt(rules, t, path, newest[path]);
      && |Expired(rules, t, newest)| == |rest| + |one|
      && TotalSize(t, Expired(rules, t, newest)) == TotalSize(t, rest) + TotalSize(t, one)
  {
    WithoutPath(t, newest, path);
    OnePathMore(rules, t, newest - {path}, path, newest[path]);
  }

  lemma OnePathMore(rules: Rules, t: Table, newest: map<string, nat>, path: string, latest: nat)
    requires path !in newest
    ensures var more := ExpiredAt(rules, t, path, latest);
      && |Expired(rules, t, newest[path := latest])| == |Expired(rules, t, newest)| + |more|
      && TotalSize(t, Expired(rules, t, newest[path := latest])) == TotalSize(t, Expired(rules, t, newest)) + TotalSize(t, more)
  {
    ExpiredElsewhere(rules, t, newest, path, latest);
    assert ExpiredAt(rules, t, path, latest) <= WithPath(t, path);
    TotalSizeOfUnion(t, Expired(rules, t, newest), ExpiredAt(rules, t, path, latest));
  }

  /** The versions of a path that tie for the newest are of one size. */
  ghost predicate TiesAlike(t: Table) {
    forall i, j | i in t && j in t && t[i].filePath == t[j].filePath
                  && IsNewest(t, WithPath(t, t[i].filePath), i) && IsNewest(t, WithPath(t, t[j].filePath), j) ::
      t[i].fileSize == t[j].fileSize
  }

  /** A dry run and a real run of the same policies at the same clock from the same database
      evaluate, expire and protect the same number, whatever the real run deletes on its way and
      whichever of equally new versions each lists first; and they free the same bytes when such
      versions are of one size. The dry run counts no files. */
  lemma DryRunPredictsRealRun(st: State, cur: State, policies: seq<RetentionPolicy>, dry: Rules, wet: Rules,
                              newest: map<string, nat>, newest': map<string, nat>, r: RetentionResult, r': RetentionResult)
    requires IsRanking(dry.ranked, policies) && wet == dry.(ranked := wet.ranked) && IsRanking(wet.ranked, policies)
    requires forall i, j | 0 <= i < j < |dry.ranked| :: dry.ranked[i].priority != dry.ranked[j].priority
    requires Evaluated(st, st, dry, newest, r, true) && Evaluated(st, cur, wet, newest', r', false)
    ensures r.evaluated == r'.evaluated && r.expired == r'.expired && r.kept == r'.kept && r.filesDeleted == 0
    ensures TiesAlike(st.entries) ==> r.bytesFreed == r'.bytesFreed
    ensures r'.filesDeleted == |Lost(st.entries, cur.entries)|
  {
    SamePolicies(dry.ranked, wet.ranked, policies);
    OneRanking(dry.ranked, wet.ranked);
    TiesExpireAlike(dry, st.entries, newest, newest');
    SamePathsKept(dry, newest, newest');
    if TiesAlike(st.entries) {
      TiedSizes(st.entries, newest, newest');
      TiesFreeAlike(dry, st.entries, newest, newest');
    }
  }

  lemma TiedSizes(t: Table, a: map<string, nat>, b: map<string, nat>)
    requires NewestOf(t, a) && NewestOf(t, b) && a.Keys == b.Keys && TiesAlike(t)
    ensures SameSizes(t, a, b)
  {
    forall p | p in a ensures t[a[p]].fileSize == t[b[p]].fileSize {
      assert a[p] in WithPath(t, p) && b[p] in WithPath(t, p);
    }
  }

  lemma SamePathsKept(rules: Rules, a: map<string, nat>, b: map<string, nat>)
    requires a.Keys == b.Keys
    ensures PathsKeeping(rules, a) == PathsKeeping(rules, b)
  {
    assert forall p :: p in a <==> p in a.Keys;
  }

  lemma ReapProgresses(st: State, cur: State, gone: set<nat>, r: RetentionResult, id: nat, last: bool)
    requires Progress(st, cur, gone, r, false) && id in st.entries && id !in gone
    requires last <==> WithHash(cur.entries - {id}, st.entries[id].hash) == {}
    ensures Progress(st, Reap(cur, id, st.entries[id].hash), gone + {id}, Counted(r, st.entries[id], last), false)
  {
    StillThere(st, cur, gone, r.filesDeleted, id);
    ReapStep(st, cur, gone, r.filesDeleted, id);
    OneMoreCounted(st.entries, gone, r, id, last);
  }

  lemma OneMoreCounted(t: Table, gone: set<nat>, r: RetentionResult, id: nat, last: bool)
    requires gone <= t.Keys && id in t && id !in gone
    requires r.expired == |gone| && r.bytesFreed == TotalSize(t, gone)
    ensures var s := Counted(r, t[id], last); s.expired == |gone + {id}| && s.bytesFreed == TotalSize(t, gone + {id})
  {
    TotalSizeAdds(t, gone, id);
  }

  lemma StillThere(st: State, cur: State, gone: set<nat>, files: nat, id: nat)
    requires Reaped(st, cur, gone, files) && id in st.entries && id !in gone
    ensures id in cur.entries && cur.entries[id] == st.entries[id]
  {
  }

  function Counted(r: RetentionResult, e: BackupEntry, last: bool): RetentionResult {
    r.(expired := r.expired + 1, bytesFreed := r.bytesFreed + e.fileSize,
       filesDeleted := r.filesDeleted + if last then 1 else 0)
  }

  /** The paths in `newest` have been evaluated. */
  ghost predicate Visited(st: State, cur: State, rules: Rules, newest: map<string, nat>, r: RetentionResult,
                                 dryRun: bool)
  {
    && NewestOf(st.entries, newest) && newest.Keys <= PathsOf(st.entries)
    && Progress(st, cur, Expired(rules, st.entries, newest), r, dryRun)
    && Totals(rules, st.entries, newest, r)
  }

  ghost predicate Totals(rules: Rules, t: Table, newest: map<string, nat>, r: RetentionResult) {
    r.evaluated == |VersionsAt(t, newest.Keys)| && r.kept == |PathsKeeping(rules, newest)|
  }

  function VersionsAt(t: Table, paths: set<string>): set<nat> {
    set id | id in t && t[id].filePath in paths
  }

  /** The same for one path. */
  ghost predicate ReapsAt(rules: Rules, t: Table, path: string, latest: nat, ids: seq<nat>, ops: seq<Op>, dryRun: bool,
                          complete: bool)
  {
    && Reaps(t, ids, ExpiredAt(rules, t, path, latest), ops)
    && (dryRun ==> ops == [])
    && (complete && !dryRun ==> ops == ReapPlan(t, ids))
  }

  lemma ReapingStep(rules: Rules, t: Table, path: string, latest: nat, ids: seq<nat>, ops: seq<Op>,
                    dryRun: bool, id: nat, more: seq<Op>, complete: bool)
    requires ReapsAt(rules, t, path, latest, ids, ops, dryRun, true) && id !in ids
    requires id in t && id in ExpiredAt(rules, t, path, latest)
    requires dryRun ==> more == []
    requires !dryRun ==> more <= [Drop({id}), Collect(t[id].hash)]
    requires !dryRun && complete ==> more == [Drop({id}), Collect(t[id].hash)]
    ensures ReapsAt(rules, t, path, latest, ids + [id], ops + more, dryRun, complete)
  {
    assert (ids + [id])[..|ids|] == ids;
    assert ReapPlan(t, ids + [id]) == ReapPlan(t, ids) + [Drop({id}), Collect(t[id].hash)];
  }

  /** The loop has considered the versions before m. */
  ghost predicate Considered(rules: Rules, versions: seq<BackupEntry>, t: Table, path: string, m: nat, gone0: set<nat>,
                             gone: set<nat>, ids: seq<nat>, ops: seq<Op>, dryRun: bool)
  {
    && m <= |versions| && |versions| > 0 && gone == ExpiredUpTo(rules, versions, t, path, m, gone0)
    && (forall id | id in ids :: id in gone)
    && ReapsAt(rules, t, path, versions[0].id, ids, ops, dryRun, true)
  }

  lemma ConsideredStart(rules: Rules, versions: seq<BackupEntry>, t: Table, path: string, first: nat, gone0: set<nat>,
                        dryRun: bool)
    requires Lists(versions, t, WithPath(t, path)) && |versions| > 0
    requires first == if Purged(rules, path) then 0 else 1
    ensures Considered(rules, versions, t, path, first, gone0, gone0, [], [], dryRun)
  {
    NothingExpiredYet(rules, versions, t, path, first, gone0);
  }

  lemma ConsideredAll(rules: Rules, versions: seq<BackupEntry>, t: Table, path: string, gone0: set<nat>, gone: set<nat>,
                      ids: seq<nat>, ops: seq<Op>, dryRun: bool)
    requires Lists(versions, t, WithPath(t, path))
    requires Considered(rules, versions, t, path, |versions|, gone0, gone, ids, ops, dryRun)
    ensures gone == gone0 + ExpiredAt(rules, t, path, versions[0].id)
    ensures ReapsAt(rules, t, path, versions[0].id, ids, ops, dryRun, true)
  {
    AllConsidered(rules, versions, t, path, gone0);
  }

  lemma ConsideredStep(rules: Rules, versions: seq<BackupEntry>, t: Table, path: string, m: nat, gone0: set<nat>,
                       gone: set<nat>, ids: seq<nat>, ops: seq<Op>, dryRun: bool, expires: bool, more: seq<Op>,
                       complete: bool)
    requires Considered(rules, versions, t, path, m, gone0, gone, ids, ops, dryRun)
    requires Lists(versions, t, WithPath(t, path)) && m < |versions| && gone0 !! WithPath(t, path)
    requires m >= if Purged(rules, path) then 0 else 1
    requires var e := versions[m]; var policy := PolicyFor(rules, e.filePath);
             expires <==> policy.Some? && ShouldExpire(e, policy.value, rules.now, |versions|)
    requires !expires || dryRun ==> more == [] && complete
    requires var reap := [Drop({versions[m].id}), Collect(versions[m].hash)];
             expires && !dryRun ==> more <= reap && (complete ==> more == reap)
    ensures var id := versions[m].id;
      && ReapsAt(rules, t, path, versions[0].id, if expires then ids + [id] else ids, ops + more, dryRun, complete)
      && (complete ==> Considered(rules, versions, t, path, m + 1, gone0, if expires then gone + {id} else gone,
                                  if expires then ids + [id] else ids, ops + more, dryRun))
  {
    ExpiryStep(rules, versions, t, path, m, gone0);
    if expires {
      ReapingStep(rules, t, path, versions[0].id, ids, ops, dryRun, versions[m].id, more, complete);
    } else {
      assert ops + more == ops;
    }
  }

  /** A dry run writes nothing; a real one reaps rows that it finds expired, each at most once,
      and all of them if it gets to its end. */
  ghost predicate ReapsExpired(st: State, rules: Rules, newest: map<string, nat>, ids: seq<nat>, ops: seq<Op>,
                               dryRun: bool, complete: bool)
  {
    && NewestOf(st.entries, newest) && newest.Keys <= PathsOf(st.entries)
    && Reaps(st.entries, ids, Expired(rules, st.entries, newest), ops)
    && (dryRun ==> ops == [])
    && (complete && !dryRun ==> ops == ReapPlan(st.entries, ids))
  }

  lemma NextPathReaps(rules: Rules, st: State, newest: map<string, nat>, ids: seq<nat>, ops: seq<Op>, path: string,
                      latest: nat, expired: seq<nat>, more: seq<Op>, dryRun: bool, complete: bool)
    requires ReapsExpired(st, rules, newest, ids, ops, dryRun, true) && path in PathsOf(st.entries) && path !in newest
    requires IsNewest(st.entries, WithPath(st.entries, path), latest)
    requires ReapsAt(rules, st.entries, path, latest, expired, more, dryRun, complete)
    ensures ReapsExpired(st, rules, newest[path := latest], ids + expired, ops + more, dryRun, complete)
  {
    var t := st.entries;
    NewestOfAdds(t, newest, path, latest);
    ExpiredElsewhere(rules, t, newest, path, latest);
    ReapPlanConcat(t, ids, expired);
    assert Reaps(t, ids, Expired(rules, t, newest), ReapPlan(t, ids));
    ReapsConcat(t, ids, Expired(rules, t, newest), expired, ExpiredAt(rules, t, path, latest), more);
  }

  ghost function SomeNewest(t: Table, path: string): (id: nat)
    requires path in PathsOf(t)
    ensures IsNewest(t, WithPath(t, path), id)
  {
    var id :| id in t && t[id].filePath == path;
    assert id in WithPath(t, path);
    NewestExists(t, WithPath(t, path));
    var newest :| IsNewest(t, WithPath(t, path), newest);
    newest
  }

  class RetentionEngine {
    const repo: Repository
    const store: CAS

    constructor (repo: Repository, store: CAS)
      requires store.refCounter == repo
      ensures this.repo == repo && this.store == store && store.refCounter == repo
    {
      this.repo, this.store := repo, store;
    }

    /** Nothing outside fails the run: both stores are reliable, and the blobs have proper names. */
    ghost predicate Works(t: Table, dryRun: bool) {
      repo.reliable && (dryRun || (store.reliable && forall id | id in t :: store.wellFormed(t[id].hash)))
    }

    /** Delete the row, and then its blob if that was the last reference. */
    method ReapEntry(id: nat, h: string) returns (r: Result<bool, Error>, ghost ops: seq<Op>)
      requires repo.Valid() && store.refCounter == repo
      modifies repo`entries, store`blobs
      ensures repo.Valid()
      ensures View(repo, store) == Run(old(View(repo, store)), ops) && ops <= [Drop({id}), Collect(h)]
      ensures r.Ok? ==> && ops == [Drop({id}), Collect(h)] && View(repo, store) == Reap(old(View(repo, store)), id, h)
                        && (r.value <==> WithHash(repo.entries, h) == {})
      ensures repo.reliable && store.reliable && store.wellFormed(h) ==> r.Ok?
    {
      ghost var cur := View(repo, store);
      ops := [];
      var deleted := repo.DeleteEntryByID(id);
      if deleted.Err? {
        return Err(deleted.error), ops;
      }
      RunAppend(cur, ops, Drop({id}));
      ops := ops + [Drop({id})];
      r := CollectBlob(h);
      if r.Ok? {
        RunAppend(cur, ops, Collect(h));
        ops := ops + [Collect(h)];
      }
    }

    /** A blob that is already missing counts as removed. */
    method CollectBlob(h: string) returns (r: Result<bool, Error>)
      requires store.refCounter == repo
      modifies store`blobs
      ensures View(repo, store) == if r.Ok? then Apply(old(View(repo, store)), Collect(h)) else old(View(repo, store))
      ensures r.Ok? ==> (r.value <==> WithHash(repo.entries, h) == {})
      ensures repo.reliable && store.reliable && store.wellFormed(h) ==> r.Ok?
    {
      var refs := store.RefCount(h);
      if refs.Err? {
        return Err(refs.error);
      }
      if refs.value == 0 {
        var removed := store.Delete(h);
        if removed.Err? && removed.error != NotFound {
          return Err(removed.error);
        }
      }
      return Ok(refs.value == 0);
    }

    /** The body shared by both expiry loops. */
    method ExpireEntry(e: BackupEntry, r0: RetentionResult, dryRun: bool, ghost st: State, ghost gone: set<nat>)
      returns (res: Result<RetentionResult, Error>, ghost ops: seq<Op>)
      requires repo.Valid() && store.refCounter == repo
      requires Progress(st, View(repo, store), gone, r0, dryRun)
      requires e.id in st.entries && e.id !in gone && st.entries[e.id] == e
      modifies repo`entries, store`blobs
      ensures repo.Valid()
      ensures View(repo, store) == Run(old(View(repo, store)), ops)
      ensures dryRun ==> res.Ok? && ops == []
      ensures !dryRun ==> ops <= [Drop({e.id}), Collect(e.hash)] && (res.Ok? ==> ops == [Drop({e.id}), Collect(e.hash)])
      ensures res.Ok? ==> && Progress(st, View(repo, store), gone + {e.id}, res.value, dryRun)
                          && res.value.evaluated == r0.evaluated && res.value.kept == r0.kept
      ensures Works(st.entries, dryRun) ==> res.Ok?
    {
      ghost var cur := View(repo, store);
      ops := [];
      if dryRun {
        TotalSizeAdds(st.entries, gone, e.id);
        return Ok(Counted(r0, e, false)), ops;
      }
      var reaped;
      reaped, ops := ReapEntry(e.id, e.hash);
      if reaped.Err? {
        return Err(reaped.error), ops;
      }
      ReapProgresses(st, cur, gone, r0, e.id, reaped.value);
      return Ok(Counted(r0, e, reaped.value)), ops;
    }

    /** The body of both inner loops. */
    method ConsiderVersion(rules: Rules, e: BackupEntry, total: nat, r0: RetentionResult, dryRun: bool, ghost st: State,
                           ghost gone: set<nat>)
      returns (res: Result<RetentionResult, Error>, ghost expires: bool, ghost ops: seq<Op>)
      requires repo.Valid() && store.refCounter == repo
      requires Progress(st, View(repo, store), gone, r0, dryRun)
      requires e.id in st.entries && e.id !in gone && st.entries[e.id] == e
      modifies repo`entries, store`blobs
      ensures repo.Valid()
      ensures View(repo, store) == Run(old(View(repo, store)), ops)
      ensures var policy := PolicyFor(rules, e.filePath);
              expires <==> policy.Some? && ShouldExpire(e, policy.value, rules.now, total)
      ensures !expires || dryRun ==> ops == [] && res.Ok?
      ensures expires && !dryRun ==>
                ops <= [Drop({e.id}), Collect(e.hash)] && (res.Ok? ==> ops == [Drop({e.id}), Collect(e.hash)])
      ensures res.Ok? ==> && Progress(st, View(repo, store), if expires then gone + {e.id} else gone, res.value, dryRun)
                          && res.value.evaluated == r0.evaluated && res.value.kept == r0.kept
      ensures Works(st.entries, dryRun) ==> res.Ok?
    {
      var policy := FindMatchingPolicy(rules.glob, rules.ranked, e.filePath);
      if policy.Some? && ShouldExpire(e, policy.value, rules.now, total) {
        expires := true;
        res, ops := ExpireEntry(e, r0, dryRun, st, gone);
      } else {
        res, expires, ops := Ok(r0), false, [];
      }
    }

    /** One iteration with what it adds to the loop's record. */
    method NextVersion(rules: Rules, versions: seq<BackupEntry>, m: nat, r0: RetentionResult, dryRun: bool,
                       ghost st: State, ghost st0: State, ghost path: string, ghost gone0: set<nat>,
                       ghost gone: set<nat>, ghost ids: seq<nat>, ghost ops: seq<Op>)
      returns (res: Result<RetentionResult, Error>, ghost gone': set<nat>, ghost ids': seq<nat>, ghost ops': seq<Op>)
      requires repo.Valid() && store.refCounter == repo
      requires Lists(versions, st.entries, WithPath(st.entries, path)) && gone0 !! WithPath(st.entries, path)
      requires m < |versions| && m >= if Purged(rules, path) then 0 else 1
      requires Progress(st, View(repo, store), gone, r0, dryRun) && View(repo, store) == Run(st0, ops)
      requires Considered(rules, versions, st.entries, path, m, gone0, gone, ids, ops, dryRun)
      modifies repo`entries, store`blobs
      ensures repo.Valid() && View(repo, store) == Run(st0, ops')
      ensures ReapsAt(rules, st.entries, path, versions[0].id, ids', ops', dryRun, res.Ok?)
      ensures res.Ok? ==> && Progress(st, View(repo, store), gone', res.value, dryRun)
                          && Considered(rules, versions, st.entries, path, m + 1, gone0, gone', ids', ops', dryRun)
                          && res.value.evaluated == r0.evaluated && res.value.kept == r0.kept
      ensures Works(st.entries, dryRun) ==> res.Ok?
    {
      ExpiryStep(rules, versions, st.entries, path, m, gone0);
      ghost var expires, more;
      res, expires, more := ConsiderVersion(rules, versions[m], |versions|, r0, dryRun, st, gone);
      RunConcat(st0, ops, more);
      ConsideredStep(rules, versions, st.entries, path, m, gone0, gone, ids, ops, dryRun, expires, more, res.Ok?);
      gone' := if expires then gone + {versions[m].id} else gone;
      ids', ops' := if expires then ids + [versions[m].id] else ids, ops + more;
    }

    /** Both inner loops: over all versions of a purged path, over all but the first otherwise.
        `ids` are the rows found expired, in order; a run cut short has reaped some of them. */
    method ExpireVersions(rules: Rules, versions: seq<BackupEntry>, first: nat, r0: RetentionResult, dryRun: bool,
                          ghost st: State, ghost gone0: set<nat>, ghost path: string)
      returns (res: Result<RetentionResult, Error>, ghost ids: seq<nat>, ghost ops: seq<Op>)
      requires repo.Valid() && store.refCounter == repo
      requires Progress(st, View(repo, store), gone0, r0, dryRun)
      requires Lists(versions, st.entries, WithPath(st.entries, path)) && gone0 !! WithPath(st.entries, path)
      requires |versions| > 0 && first == if Purged(rules, path) then 0 else 1
      modifies repo`entries, store`blobs
      ensures repo.Valid()
      ensures View(repo, store) == Run(old(View(repo, store)), ops)
      ensures ReapsAt(rules, st.entries, path, versions[0].id, ids, ops, dryRun, res.Ok?)
      ensures res.Ok? ==> && Progress(st, View(repo, store), gone0 + ExpiredAt(rules, st.entries, path, versions[0].id),
                                      res.value, dryRun)
                          && res.value.evaluated == r0.evaluated && res.value.kept == r0.kept
      ensures Works(st.entries, dryRun) ==> res.Ok?
    {
      ghost var st0 := View(repo, store);
      ghost var gone := gone0;
      var r := r0;
      ids, ops := [], [];
      ConsideredStart(rules, versions, st.entries, path, first, gone0, dryRun);
      for m := first to |versions|
        invariant repo.Valid() && Progress(st, View(repo, store), gone, r, dryRun)
        invariant View(repo, store) == Run(st0, ops)
        invariant Considered(rules, versions, st.entries, path, m, gone0, gone, ids, ops, dryRun)
        invariant r.evaluated == r0.evaluated && r.kept == r0.kept
      {
        var step;
        step, gone, ids, ops := NextVersion(rules, versions, m, r, dryRun, st, st0, path, gone0, gone, ids, ops);
        if step.Err? {
          return Err(step.error), ids, ops;
        }
        r := step.value;
      }
      ConsideredAll(rules, versions, st.entries, path, gone0, gone, ids, ops, dryRun);
      return Ok(r), ids, ops;
    }

    /** One iteration of the outer loop: the versions of one path that has not been visited. */
    method EvaluatePath(rules: Rules, path: string, r0: RetentionResult, dryRun: bool,
                        ghost st: State, ghost newest: map<string, nat>)
      returns (res: Result<RetentionResult, Error>, ghost latest: nat, ghost ids: seq<nat>, ghost ops: seq<Op>)
      requires repo.Valid() && store.refCounter == repo
      requires path in PathsOf(st.entries) && path !in newest
      requires WellKeyed(st.entries, repo.nextID)
      requires Visited(st, View(repo, store), rules, newest, r0, dryRun)
      modifies repo`entries, store`blobs
      ensures repo.Valid()
      ensures View(repo, store) == Run(old(View(repo, store)), ops)
      ensures IsNewest(st.entries, WithPath(st.entries, path), latest)
      ensures ReapsAt(rules, st.entries, path, latest, ids, ops, dryRun, res.Ok?)
      ensures res.Ok? ==> Visited(st, View(repo, store), rules, newest[path := latest], res.value, dryRun)
      ensures Works(st.entries, dryRun) ==> res.Ok?
    {
      ids, ops, latest := [], [], SomeNewest(st.entries, path);
      var versions := repo.GetFileVersions(path);
      if versions.Err? {
        return Err(versions.error), latest, ids, ops;
      }
      var vs := versions.value;
      ghost var t, gone := st.entries, Expired(rules, st.entries, newest);
      ExpiredElsewhere(rules, t, newest, path, 0);
      UntouchedVersions(t, repo.entries, gone, path, vs);
      FirstIsNewest(vs, t, WithPath(t, path));
      latest := vs[0].id;
      var policy := FindMatchingPolicy(rules.glob, rules.ranked, vs[0].filePath);
      var purge := policy.Some? && policy.value.keepVersions == 0;
      var r := r0.(evaluated := r0.evaluated + |vs|, kept := r0.kept + if purge then 0 else 1);
      // Standard mode leaves a loop over no versions when there is only one.
      res, ids, ops := ExpireVersions(rules, vs, if purge then 0 else 1, r, dryRun, st, gone, path);
      if res.Ok? {
        VisitedStep(rules, st, View(repo, store), newest, path, vs, r0, res.value, dryRun);
      }
    }
  
    /** `Evaluate`. The ghost results tell which ranking and which newest versions the run worked
        with and which rows it found expired. Whether or not it gets to its end, its writes reap
        those rows one after the other, and every state it passes through is that of a prefix. */
    method Evaluate(policies: seq<RetentionPolicy>, glob: Glob, now: int, dryRun: bool)
      returns (res: Result<RetentionResult, Error>, ghost rules: Rules, ghost newest: map<string, nat>,
               ghost ids: seq<nat>, ghost ops: seq<Op>)
      requires repo.Valid() && store.refCounter == repo
      modifies repo`entries, store`blobs
      ensures repo.Valid()
      ensures rules.glob == glob && rules.now == now && IsRanking(rules.ranked, policies)
      ensures View(repo, store) == Run(old(View(repo, store)), ops)
      ensures ReapsExpired(old(View(repo, store)), rules, newest, ids, ops, dryRun, res.Ok?)
      ensures res.Ok? ==> Evaluated(old(View(repo, store)), View(repo, store), rules, newest, res.value, dryRun)
      ensures Works(old(repo.entries), dryRun) ==> res.Ok?
      ensures forall path :: Governs(glob, policies, path, PolicyFor(rules, path))
      ensures dryRun ==> View(repo, store) == old(View(repo, store))
      ensures res.Ok? ==> forall id | id in old(repo.entries) ::
                var e := old(repo.entries)[id];
                && e.filePath in newest && IsLatest(old(repo.entries), e.filePath, newest[e.filePath])
                && (!dryRun ==> (id !in repo.entries <==> Expires(rules, old(repo.entries), id, newest[e.filePath])))
                && (id in repo.entries ==> repo.entries[id] == e)
      ensures res.Ok? && !dryRun ==> BlobsFollowRows(old(View(repo, store)), View(repo, store))
    {
      ghost var st := View(repo, store);
      var enabled := Enabled(policies);
      RankingExists(enabled);
      var ranked: seq<RetentionPolicy> :| multiset(ranked) == multiset(enabled) && ByPriority(ranked);
      var run := Rules(glob, ranked, now);
      rules, newest, ids, ops := run, map[], [], [];
      SortedIsRanking(ranked, policies);
      forall path ensures Governs(glob, policies, path, PolicyFor(run, path)) {
        FirstMatchGoverns(run, policies, path);
      }
      var paths := repo.GetAllFilePaths();
      if paths.Err? {
        return Err(paths.error), rules, newest, ids, ops;
      }
      res, newest, ids, ops := EvaluatePaths(run, paths.value, dryRun);
      if res.Ok? {
        EvaluatedRows(st, View(repo, store), rules, newest, res.value, dryRun);
        if !dryRun {
          ReclaimedFollowsRows(st, View(repo, store));
        }
      }
    }

    /** The loop over the paths. */
    method EvaluatePaths(rules: Rules, paths: seq<string>, dryRun: bool)
      returns (res: Result<RetentionResult, Error>, ghost newest: map<string, nat>, ghost ids: seq<nat>, ghost ops: seq<Op>)
      requires repo.Valid() && store.refCounter == repo
      requires forall p :: p in paths <==> p in PathsOf(repo.entries)
      requires forall i, j | 0 <= i < j < |paths| :: paths[i] != paths[j]
      modifies repo`entries, store`blobs
      ensures repo.Valid()
      ensures View(repo, store) == Run(old(View(repo, store)), ops)
      ensures ReapsExpired(old(View(repo, store)), rules, newest, ids, ops, dryRun, res.Ok?)
      ensures res.Ok? ==> Evaluated(old(View(repo, store)), View(repo, store), rules, newest, res.value, dryRun)
      ensures Works(old(repo.entries), dryRun) ==> res.Ok?
    {
      ghost var st := View(repo, store);
      newest, ids, ops := map[], [], [];
      var r := RetentionResult(0, 0, 0, 0, 0);
      NothingVisited(st, rules, dryRun);
      for k := 0 to |paths|
        invariant repo.Valid() && View(repo, store) == Run(st, ops)
        invariant forall p :: p in newest <==> p in paths[..k]
        invariant Visited(st, View(repo, store), rules, newest, r, dryRun)
        invariant repo.nextID == st.nextID
        invariant ReapsExpired(st, rules, newest, ids, ops, dryRun, true)
      {
        ghost var latest, expired, more;
        var step;
        NextPath(paths, k);
        step, latest, expired, more := EvaluatePath(rules, paths[k], r, dryRun, st, newest);
        RunConcat(st, ops, more);
        NextPathReaps(rules, st, newest, ids, ops, paths[k], latest, expired, more, dryRun, step.Ok?);
        newest, ids, ops := newest[paths[k] := latest], ids + expired, ops + more;
        if step.Err? {
          return Err(step.error), newest, ids, ops;
        }
        r := step.value;
      }
      assert paths[..|paths|] == paths;
      AllVisited(st, View(repo, store), rules, newest, r, dryRun);
      return Ok(r), newest, ids, ops;
    }

    static lemma NextPath(paths: seq<string>, k: nat)
      requires k < |paths| && forall i, j | 0 <= i < j < |paths| :: paths[i] != paths[j]
      ensures paths[k] !in paths[..k] && paths[..k + 1] == paths[..k] + [paths[k]]
    {
    }

    /** The loop that keeps the enabled policies. */
    static method Enabled(policies: seq<RetentionPolicy>) returns (enabled: seq<RetentionPolicy>)
      ensures enabled == EnabledOnly(policies)
    {
      enabled := [];
      for i := 0 to |policies|
        invariant enabled == EnabledOnly(policies[..i])
      {
        assert policies[..i + 1][..i] == policies[..i];
        if policies[i].enabled {
          enabled := enabled + [policies[i]];
        }
      }
      assert policies[..|policies|] == policies;
    }
  }

  lemma AllVisited(st: State, cur: State, rules: Rules, newest: map<string, nat>, r: RetentionResult, dryRun: bool)
    requires Visited(st, cur, rules, newest, r, dryRun) && forall p :: p in newest <==> p in PathsOf(st.entries)
    ensures Evaluated(st, cur, rules, newest, r, dryRun)
  {
    assert newest.Keys == PathsOf(st.entries);
    EveryVersion(st.entries);
  }

  lemma EveryVersion(t: Table)
    ensures VersionsAt(t, PathsOf(t)) == t.Keys
  {
    forall id | id in t ensures t[id].filePath in PathsOf(t) {}
  }

  lemma NothingVisited(st: State, rules: Rules, dryRun: bool)
    ensures Visited(st, st, rules, map[], RetentionResult(0, 0, 0, 0, 0), dryRun)
  {
    var none: map<string, nat> := map[];
    assert Expired(rules, st.entries, none) == {} && PathsKeeping(rules, none) == {};
    assert VersionsAt(st.entries, none.Keys) == {};
    assert st.entries - {} == st.entries && Lost(st.entries, st.entries) == {};
    assert st.blobs - {} == st.blobs;
  }

  /** The rows found expired before version m is considered. */
  ghost function ExpiredUpTo(rules: Rules, versions: seq<BackupEntry>, t: Table, path: string, m: nat,
                             gone0: set<nat>): set<nat>
    requires m <= |versions| && |versions| > 0
  {
    gone0 + ExpiredAt(rules, t, path, versions[0].id) * IDs(versions[..m])
  }

  lemma NothingExpiredYet(rules: Rules, versions: seq<BackupEntry>, t: Table, path: string, first: nat, gone0: set<nat>)
    requires Lists(versions, t, WithPath(t, path)) && |versions| > 0
    requires first == if Purged(rules, path) then 0 else 1
    ensures ExpiredUpTo(rules, versions, t, path, first, gone0) == gone0
  {
    if first == 1 {
      assert versions[..1] == [versions[0]];
    }
  }

  lemma AllConsidered(rules: Rules, versions: seq<BackupEntry>, t: Table, path: string, gone0: set<nat>)
    requires Lists(versions, t, WithPath(t, path)) && |versions| > 0
    ensures ExpiredUpTo(rules, versions, t, path, |versions|, gone0)
            == gone0 + ExpiredAt(rules, t, path, versions[0].id)
  {
    assert versions[..|versions|] == versions;
  }

  /** Version m of a listing is a row of the path that the versions before it are not. */
  lemma ThisVersion(versions: seq<BackupEntry>, t: Table, path: string, m: nat)
    requires Lists(versions, t, WithPath(t, path)) && m < |versions|
    ensures var e := versions[m];
            && e.id in t && t[e.id] == e && e.filePath == path && |versions| == |WithPath(t, path)|
            && e.id !in IDs(versions[..m]) && IDs(versions[..m + 1]) == IDs(versions[..m]) + {e.id}
            && (m > 0 ==> e.id != versions[0].id)
  {
    PrefixIDs(versions, t, WithPath(t, path), m);
    NextRowIsNew(versions, t, WithPath(t, path), m);
    ListingLength(versions, t, WithPath(t, path));
    assert versions[m].id in WithPath(t, path);
    if m > 0 {
      assert versions[0] in versions[..m];
    }
  }

  lemma MeetGrows(gone0: set<nat>, expired: set<nat>, seen: set<nat>, id: nat)
    ensures gone0 + expired * (seen + {id}) == if id in expired then gone0 + expired * seen + {id} else gone0 + expired * seen
  {
  }

  /** The loop's test on version m is the closed form's. */
  lemma ExpiryStep(rules: Rules, versions: seq<BackupEntry>, t: Table, path: string, m: nat, gone0: set<nat>)
    requires Lists(versions, t, WithPath(t, path)) && m < |versions| && gone0 !! WithPath(t, path)
    requires m >= if Purged(rules, path) then 0 else 1
    ensures var e := versions[m];
            var policy, gone := PolicyFor(rules, e.filePath), ExpiredUpTo(rules, versions, t, path, m, gone0);
            var expires := policy.Some? && ShouldExpire(e, policy.value, rules.now, |versions|);
            && e.id in t && t[e.id] == e && e.id !in gone
            && ExpiredUpTo(rules, versions, t, path, m + 1, gone0) == if expires then gone + {e.id} else gone
  {
    var e := versions[m];
    ThisVersion(versions, t, path, m);
    assert e.id in WithPath(t, path);
    MeetGrows(gone0, ExpiredAt(rules, t, path, versions[0].id), IDs(versions[..m]), e.id);
  }

  /** Expiring versions of other paths leaves this path's listing what it was at the start. */
  lemma UntouchedVersions(t: Table, t': Table, gone: set<nat>, path: string, vs: seq<BackupEntry>)
    requires t' == t || t' == t - gone
    requires gone !! WithPath(t, path) && path in PathsOf(t)
    requires Lists(vs, t', WithPath(t', path))
    ensures Lists(vs, t, WithPath(t, path)) && |vs| > 0 && vs[0].filePath == path
  {
    assert WithPath(t', path) == WithPath(t, path);
    var id :| id in t && t[id].filePath == path;
    assert id in IDs(vs);
    assert vs[0] in vs && vs[0].id in IDs(vs);
  }

  lemma FirstIsNewest(vs: seq<BackupEntry>, t: Table, ids: set<nat>)
    requires Lists(vs, t, ids) && NewestFirst(vs) && |vs| > 0
    ensures IsNewest(t, ids, vs[0].id)
  {
    assert vs[0] in vs;
    forall x | x in ids ensures t[x].backupDate <= vs[0].backupDate {
      assert x in IDs(vs);
      var e :| e in vs && e.id == x;
      var i :| 0 <= i < |vs| && vs[i] == e;
    }
  }

  lemma ExpiredElsewhere(rules: Rules, t: Table, newest: map<string, nat>, path: string, latest: nat)
    requires path !in newest
    ensures Expired(rules, t, newest) !! WithPath(t, path)
    ensures Expired(rules, t, newest[path := latest]) == Expired(rules, t, newest) + ExpiredAt(rules, t, path, latest)
  {
  }

  lemma VersionsAtAdds(t: Table, paths: set<string>, path: string)
    requires path !in paths
    ensures |VersionsAt(t, paths + {path})| == |VersionsAt(t, paths)| + |WithPath(t, path)|
  {
    assert VersionsAt(t, paths + {path}) == VersionsAt(t, paths) + WithPath(t, path);
    assert VersionsAt(t, paths) !! WithPath(t, path);
  }

  lemma PathsKeepingAdds(rules: Rules, newest: map<string, nat>, path: string, latest: nat)
    requires path !in newest
    ensures |PathsKeeping(rules, newest[path := latest])|
            == |PathsKeeping(rules, newest)| + if Purged(rules, path) then 0 else 1
  {
    assert PathsKeeping(rules, newest[path := latest])
        == PathsKeeping(rules, newest) + if Purged(rules, path) then {} else {path};
  }

  lemma KeysAdd(newest: map<string, nat>, path: string, latest: nat)
    ensures newest[path := latest].Keys == newest.Keys + {path}
  {
  }

  lemma NewestOfAdds(t: Table, newest: map<string, nat>, path: string, latest: nat)
    requires NewestOf(t, newest) && IsNewest(t, WithPath(t, path), latest)
    ensures NewestOf(t, newest[path := latest])
  {
  }

  /** Visiting one more path extends every total by that path's share. */
  lemma VisitedStep(rules: Rules, st: State, cur: State, newest: map<string, nat>, path: string, vs: seq<BackupEntry>,
                    r0: RetentionResult, r: RetentionResult, dryRun: bool)
    requires path in PathsOf(st.entries) && path !in newest
    requires NewestOf(st.entries, newest) && newest.Keys <= PathsOf(st.entries)
    requires |vs| > 0 && Lists(vs, st.entries, WithPath(st.entries, path))
    requires IsNewest(st.entries, WithPath(st.entries, path), vs[0].id)
    requires Progress(st, cur, Expired(rules, st.entries, newest) + ExpiredAt(rules, st.entries, path, vs[0].id), r, dryRun)
    requires Totals(rules, st.entries, newest, r0)
    requires r.evaluated == r0.evaluated + |vs| && r.kept == r0.kept + if Purged(rules, path) then 0 else 1
    ensures Visited(st, cur, rules, newest[path := vs[0].id], r, dryRun)
  {
    var latest, t := vs[0].id, st.entries;
    NewestOfAdds(t, newest, path, latest);
    ProgressElsewhere(rules, st, cur, newest, path, latest, r, dryRun);
    TotalsStep(rules, t, newest, path, vs, r0, r);
    KeysAdd(newest, path, latest);
  }

  lemma ProgressElsewhere(rules: Rules, st: State, cur: State, newest: map<string, nat>, path: string, latest: nat,
                          r: RetentionResult, dryRun: bool)
    requires path !in newest
    requires Progress(st, cur, Expired(rules, st.entries, newest) + ExpiredAt(rules, st.entries, path, latest), r, dryRun)
    ensures Progress(st, cur, Expired(rules, st.entries, newest[path := latest]), r, dryRun)
  {
    ExpiredElsewhere(rules, st.entries, newest, path, latest);
  }

  lemma TotalsStep(rules: Rules, t: Table, newest: map<string, nat>, path: string, vs: seq<BackupEntry>,
                   r0: RetentionResult, r: RetentionResult)
    requires path !in newest && |vs| > 0 && Lists(vs, t, WithPath(t, path)) && Totals(rules, t, newest, r0)
    requires r.evaluated == r0.evaluated + |vs| && r.kept == r0.kept + if Purged(rules, path) then 0 else 1
    ensures Totals(rules, t, newest[path := vs[0].id], r)
  {
    VersionsAtAdds(t, newest.Keys, path);
    ListingLength(vs, t, WithPath(t, path));
    PathsKeepingAdds(rules, newest, path, vs[0].id);
    KeysAdd(newest, path, vs[0].id);
  }
}
