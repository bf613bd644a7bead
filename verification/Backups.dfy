/**
 Scheduled backups with retention: which schedules are due, what a run of the scheduler does to
 the backup records, and what that promises over any sequence of scheduled and manual backups.
 Times are microseconds.
 */
module Backups {
  import opened Arithmetic
  import opened Wrappers

  const HOUR := 3_600_000_000

  datatype Backup = Backup(id: nat, db: nat, createdAt: int)

  datatype Schedule = Schedule(interval: int, retention: int, enabled: bool, lastRun: Option<int>)

  /** `containers` are the databases that have one. */
  datatype State = State(backups: set<Backup>, schedules: map<nat, Schedule>, containers: set<nat>)

  /** What becomes of one backup: whether Docker succeeds, and then whether the record can be inserted,
      its id and time, and the time the schedule is marked as run. */
  datatype Job = Job(ok: bool, recorded: bool, id: nat, createdAt: int, finishedAt: int)

  type Jobs = map<nat, Job>

  function BackupsOf(backups: set<Backup>, db: nat): set<Backup> {
    set b | b in backups && b.db == db
  }

  predicate Due(schedule: Schedule, now: int) {
    && schedule.enabled
    && (schedule.lastRun.None? || schedule.lastRun.value + schedule.interval * HOUR < now)
  }

  /** The scheduler backs this database up: its schedule is due, it has a container, and Docker
      succeeds. */
  predicate Ran(s: State, now: int, jobs: Jobs, db: nat) {
    db in s.schedules && Due(s.schedules[db], now) && db in s.containers && db in jobs && jobs[db].ok
  }

  function NewBackup(jobs: Jobs, db: nat): Backup
    requires db in jobs
  {
    Backup(jobs[db].id, db, jobs[db].createdAt)
  }

  /** The record the run leaves, if it could be inserted. */
  function Recorded(jobs: Jobs, db: nat): set<Backup>
    requires db in jobs
  {
    if jobs[db].recorded then {NewBackup(jobs, db)} else {}
  }

  // ---- What retention means ----

  /** Of `before`, some newest `retention` are left; a negative retention keeps all. */
  ghost predicate Retained(before: set<Backup>, after: set<Backup>, retention: int) {
    if retention < 0 then after == before
    else
      && after <= before && |after| == Min(|before|, retention)
      && forall k, d :: k in after && d in before && d !in after ==> d.createdAt <= k.createdAt
  }

  ghost predicate TimesDiffer(backups: set<Backup>) {
    forall a, b :: a in backups && b in backups && a.createdAt == b.createdAt ==> a == b
  }

  lemma Outside(a: set<Backup>, b: set<Backup>) returns (x: Backup)
    requires |b| <= |a| && a != b
    ensures x in a && x !in b
  {
    if a <= b {
      SubsetSize(a, b);
    }
    x :| x in a && x !in b;
  }

  lemma SubsetSize(a: set<Backup>, b: set<Backup>)
    requires a <= b
    ensures |a| <= |b| && (|a| == |b| ==> a == b)
  {
    assert b == a + (b - a);
  }

  /** Where no two records are of one moment, exactly one outcome is possible. */
  lemma RetainedIsUnique(before: set<Backup>, a: set<Backup>, b: set<Backup>, retention: int)
    requires Retained(before, a, retention) && Retained(before, b, retention) && TimesDiffer(before)
    ensures a == b
  {
    if a != b {
      var x, y := Tie(before, a, b, retention);
    }
  }

  lemma Tie(before: set<Backup>, a: set<Backup>, b: set<Backup>, retention: int) returns (x: Backup, y: Backup)
    requires Retained(before, a, retention) && Retained(before, b, retention) && a != b
    ensures x in before && y in before && x != y && x.createdAt == y.createdAt
  {
    x := Outside(a, b);
    y := Outside(b, a);
  }

  /** The backup just made, newer than all others, survives its own cleanup if and only if the
      retention is not zero. */
  lemma NewBackupSurvivesIff(before: set<Backup>, made: Backup, after: set<Backup>, retention: int)
    requires Retained(before + {made}, after, retention)
    requires forall b :: b in before ==> b.createdAt < made.createdAt
    ensures made in after <==> retention != 0
  {
    if retention > 0 {
      assert made in before + {made};
      assert |before + {made}| >= 1 by {
        assert before + {made} == {made} + (before - {made});
      }
      var k := Outside(after, {});
    }
  }

  // ---- Steps and runs ----

  datatype Step =
    | Manual(backup: Backup)
    | Discard(id: nat)
    | Tick(now: int, jobs: Jobs)

  ghost predicate Untouched(s: State, t: State, db: nat) {
    && BackupsOf(t.backups, db) == BackupsOf(s.backups, db)
    && (db in t.schedules <==> db in s.schedules)
    && (db in s.schedules ==> t.schedules[db] == s.schedules[db])
  }

  ghost predicate BackedUp(s: State, t: State, jobs: Jobs, db: nat)
    requires db in s.schedules && db in jobs
  {
    && Retained(BackupsOf(s.backups, db) + Recorded(jobs, db), BackupsOf(t.backups, db), s.schedules[db].retention)
    && db in t.schedules && t.schedules[db] == s.schedules[db].(lastRun := Some(jobs[db].finishedAt))
  }

  /** One round of the scheduler: every database is backed up or left alone, each on its own. */
  ghost predicate TickTo(s: State, now: int, jobs: Jobs, t: State) {
    && t.containers == s.containers
    && forall db: nat :: if Ran(s, now, jobs, db) then BackedUp(s, t, jobs, db) else Untouched(s, t, db)
  }

  ghost predicate StepTo(s: State, step: Step, t: State) {
    match step
    case Manual(backup) => t == s.(backups := s.backups + {backup})
    case Discard(id) => t == s.(backups := set b | b in s.backups && b.id != id)
    case Tick(now, jobs) => TickTo(s, now, jobs, t)
  }

  /** New records are newer than those stored; a backup is made after its schedule was found due. */
  ghost predicate Possible(s: State, step: Step) {
    match step
    case Manual(backup) => forall b :: b in s.backups ==> b.id != backup.id && b.createdAt < backup.createdAt
    case Discard(_) => true
    case Tick(now, jobs) =>
      && (forall db :: db in jobs ==> now <= jobs[db].createdAt <= jobs[db].finishedAt)
      && (forall db, b :: db in jobs && b in s.backups ==> b.id != jobs[db].id && b.createdAt < jobs[db].createdAt)
      && (forall db, e :: db in jobs && e in jobs && jobs[db].id == jobs[e].id ==> db == e)
  }

  ghost predicate IsRun(states: seq<State>, steps: seq<Step>) {
    && |states| == |steps| + 1
    && forall i :: 0 <= i < |steps| ==> Possible(states[i], steps[i]) && StepTo(states[i], steps[i], states[i + 1])
  }

  /** After every successful scheduled run exactly the newest min(n, retention) of the n records are
      left. The new record is counted and among them unless the retention is zero; a run whose record
      could not be inserted is marked and cleans up all the same. */
  lemma ScheduledRunLeavesTheNewest(s: State, now: int, jobs: Jobs, t: State, db: nat)
    requires Possible(s, Tick(now, jobs)) && TickTo(s, now, jobs, t) && Ran(s, now, jobs, db)
    ensures var n := |BackupsOf(s.backups, db)| + if jobs[db].recorded then 1 else 0;
            var r := s.schedules[db].retention;
            && |BackupsOf(t.backups, db)| == (if r < 0 then n else Min(n, r))
            && (Backup(jobs[db].id, db, jobs[db].createdAt) in t.backups <==> jobs[db].recorded && r != 0)
            && (forall k, d :: k in BackupsOf(t.backups, db) && d in BackupsOf(s.backups, db) && d !in t.backups ==>
                  d.createdAt <= k.createdAt)
            && db in t.schedules && t.schedules[db].lastRun == Some(jobs[db].finishedAt)
  {
    var before, made, after := BackupsOf(s.backups, db), NewBackup(jobs, db), BackupsOf(t.backups, db);
    assert BackedUp(s, t, jobs, db);
    assert made !in before;
    if jobs[db].recorded {
      NewBackupSurvivesIff(before, made, after, s.schedules[db].retention);
    } else {
      assert before + {} == before;
    }
  }

  /** A round runs a schedule if and only if it is enabled, has never run or did so more than its interval of hours
      ago, and the database has a container that Docker backs up; it is marked then, and its records are
      the newest of those there were with the new one. Any other schedule and its records stay as they were. */
  lemma RoundRunsExactlyTheDue(s: State, now: int, jobs: Jobs, t: State, db: nat)
    requires TickTo(s, now, jobs, t) && db in s.schedules
    ensures var schedule := s.schedules[db];
            var before, after := (set b | b in s.backups && b.db == db), set b | b in t.backups && b.db == db;
            && db in t.schedules
            && if schedule.enabled
                  && (schedule.lastRun.None? || schedule.lastRun.value + schedule.interval * 3_600_000_000 < now)
                  && db in s.containers && db in jobs && jobs[db].ok
               then t.schedules[db] == schedule.(lastRun := Some(jobs[db].finishedAt))
                    && Retained(before + (if jobs[db].recorded then {Backup(jobs[db].id, db, jobs[db].createdAt)} else {}),
                                after, schedule.retention)
               else t.schedules[db] == schedule && after == before
  {
    assert if Ran(s, now, jobs, db) then BackedUp(s, t, jobs, db) else Untouched(s, t, db);
    hide Retained;
  }

  // ---- How many records pile up ----

  function ManualSince(steps: seq<Step>, db: nat): nat {
    if steps == [] then 0
    else
      var last := steps[|steps| - 1];
      ManualSince(steps[..|steps| - 1], db) + if last.Manual? && last.backup.db == db then 1 else 0
  }

  lemma OneMore(s: State, step: Step, t: State, db: nat)
    requires StepTo(s, step, t) && db in s.schedules && 0 <= s.schedules[db].retention
    ensures db in t.schedules && t.schedules[db].retention == s.schedules[db].retention
    ensures |BackupsOf(t.backups, db)| <= s.schedules[db].retention
            || |BackupsOf(t.backups, db)|
               <= |BackupsOf(s.backups, db)| + if step.Manual? && step.backup.db == db then 1 else 0
  {
    var before, after := BackupsOf(s.backups, db), BackupsOf(t.backups, db);
    match step {
      case Manual(backup) =>
        assert after == if backup.db == db then before + {backup} else before;
      case Discard(id) =>
        SubsetSize(after, before);
      case Tick(now, jobs) =>
        assert if Ran(s, now, jobs, db) then BackedUp(s, t, jobs, db) else Untouched(s, t, db);
    }
  }

  /** From a moment when at most `retention` records are stored, in particular from any scheduled
      run, the number of records never exceeds the retention plus the manual backups since. */
  lemma {:induction false} BackupsStayBounded(states: seq<State>, steps: seq<Step>, db: nat)
    requires IsRun(states, steps) && db in states[0].schedules && 0 <= states[0].schedules[db].retention
    requires |BackupsOf(states[0].backups, db)| <= states[0].schedules[db].retention
    ensures var last := states[|steps|];
            && db in last.schedules && last.schedules[db].retention == states[0].schedules[db].retention
            && |BackupsOf(last.backups, db)| <= states[0].schedules[db].retention + ManualSince(steps, db)
  {
    if steps != [] {
      var n := |steps| - 1;
      BackupsStayBounded(states[..|steps|], steps[..n], db);
      OneMore(states[n], steps[n], states[n + 1], db);
    }
  }

  // ---- How often a schedule runs ----

  predicate RanIn(s: State, step: Step, db: nat) {
    step.Tick? && Ran(s, step.now, step.jobs, db)
  }

  ghost function RunsOf(states: seq<State>, steps: seq<Step>, db: nat): nat
    requires |states| == |steps| + 1
    decreases |steps|
  {
    if steps == [] then 0
    else
      var n := |steps| - 1;
      RunsOf(states[..|steps|], steps[..n], db) + if RanIn(states[n], steps[n], db) then 1 else 0
  }

  lemma ScheduleAfter(s: State, step: Step, t: State, db: nat)
    requires Possible(s, step) && StepTo(s, step, t) && db in s.schedules
    ensures db in t.schedules && t.schedules[db].interval == s.schedules[db].interval
    ensures if RanIn(s, step, db)
            then t.schedules[db].lastRun.Some?
                 && (s.schedules[db].lastRun.Some? ==>
                       t.schedules[db].lastRun.value > s.schedules[db].lastRun.value + s.schedules[db].interval * HOUR)
            else t.schedules[db].lastRun == s.schedules[db].lastRun
  {
    if step.Tick? {
      assert if Ran(s, step.now, step.jobs, db) then BackedUp(s, t, step.jobs, db) else Untouched(s, t, db);
    }
  }

  /** The schedule last ran at `u`, k runs after the one at `first`. */
  predicate Beyond(first: int, k: nat, span: int, u: int) {
    if k == 0 then u == first else first + k * span < u
  }

  lemma BeyondNext(first: int, k: nat, span: int, u: int, v: int)
    requires Beyond(first, k, span, u) && u + span < v
    ensures Beyond(first, k + 1, span, v)
  {
    assert (k + 1) * span == k * span + span;
  }

  /** k scheduled runs after one marked at `first` reach more than k intervals past it: any k + 1
      scheduled runs of one schedule span more than k times its interval. */
  lemma {:induction false} RunsAreSpaced(states: seq<State>, steps: seq<Step>, db: nat, first: int)
    requires IsRun(states, steps) && db in states[0].schedules && states[0].schedules[db].lastRun == Some(first)
    ensures var last := states[|steps|];
            && db in last.schedules && last.schedules[db].lastRun.Some?
            && last.schedules[db].interval == states[0].schedules[db].interval
            && Beyond(first, RunsOf(states, steps, db), states[0].schedules[db].interval * HOUR,
                      last.schedules[db].lastRun.value)
  {
    if steps != [] {
      var n := |steps| - 1;
      RunsAreSpaced(states[..|steps|], steps[..n], db, first);
      ScheduleAfter(states[n], steps[n], states[n + 1], db);
      hide Beyond, StepTo, Possible, RanIn;
      if RanIn(states[n], steps[n], db) {
        BeyondNext(first, RunsOf(states[..|steps|], steps[..n], db), states[0].schedules[db].interval * HOUR,
                   states[n].schedules[db].lastRun.value, states[n + 1].schedules[db].lastRun.value);
      }
    }
  }

  // ---- The service ----

  ghost predicate NewestFirst(list: seq<Backup>) {
    forall i, j :: 0 <= i < j < |list| ==> list[j].createdAt <= list[i].createdAt
  }

  ghost predicate NoRepeats(list: seq<Backup>) {
    forall i, j :: 0 <= i < j < |list| ==> list[i] != list[j]
  }

  ghost predicate IdsDiffer(backups: set<Backup>) {
    forall a, b :: a in backups && b in backups && a.id == b.id ==> a == b
  }

  function Elements(list: seq<Backup>): set<Backup> {
    set b | b in list
  }

  lemma {:induction false} ElementCount(list: seq<Backup>)
    requires NoRepeats(list)
    ensures |Elements(list)| == |list|
  {
    if list != [] {
      var n := |list| - 1;
      ElementCount(list[..n]);
      assert Elements(list) == Elements(list[..n]) + {list[n]};
      assert list[n] !in Elements(list[..n]);
    }
  }

  method Newest(backups: set<Backup>) returns (newest: Backup)
    requires backups != {}
    ensures newest in backups && forall b :: b in backups ==> b.createdAt <= newest.createdAt
  {
    newest :| newest in backups;
    var left := backups - {newest};
    while left != {}
      invariant left <= backups && newest in backups
      invariant forall b :: b in backups && b !in left ==> b.createdAt <= newest.createdAt
      decreases left
    {
      var b :| b in left;
      if newest.createdAt < b.createdAt {
        newest := b;
      }
      left := left - {b};
    }
  }

  class BackupService {
    var backups: set<Backup>
    var schedules: map<nat, Schedule>
    var containers: set<nat>

    ghost function Tables(): State
      reads this
    {
      State(backups, schedules, containers)
    }

    constructor (schedules: map<nat, Schedule>, containers: set<nat>)
      ensures Tables() == State({}, schedules, containers)
    {
      this.backups, this.schedules, this.containers := {}, schedules, containers;
    }

    // SELECT ... WHERE database_id = db ORDER BY created_at DESC
    method FindBackups(db: nat) returns (list: seq<Backup>)
      ensures NewestFirst(list) && NoRepeats(list) && Elements(list) == BackupsOf(backups, db)
    {
      list := [];
      var left := BackupsOf(backups, db);
      while left != {}
        invariant left <= BackupsOf(backups, db)
        invariant NewestFirst(list) && NoRepeats(list) && Elements(list) == BackupsOf(backups, db) - left
        invariant forall i, b :: 0 <= i < |list| && b in left ==> b.createdAt <= list[i].createdAt
        decreases left
      {
        var newest := Newest(left);
        assert newest !in Elements(list);
        assert Elements(list + [newest]) == Elements(list) + {newest};
        list := list + [newest];
        left := left - {newest};
      }
    }

    method DeleteBackup(id: nat)
      modifies `backups
      ensures backups == set b | b in old(backups) && b.id != id
    {
      backups := set b | b in backups && b.id != id;
    }

    /** The records beyond the newest `retention` go; a negative retention skips every record. */
    method CleanupOldBackups(db: nat, retention: int)
      requires IdsDiffer(backups)
      modifies `backups
      ensures backups <= old(backups)
      ensures forall other: nat :: other != db ==> BackupsOf(backups, other) == BackupsOf(old(backups), other)
      ensures Retained(BackupsOf(old(backups), db), BackupsOf(backups, db), retention)
    {
      var list := FindBackups(db);
      ElementCount(list);
      if |list| <= retention {
        return;
      }
      var skip := if retention < 0 then |list| else retention;
      assert Elements(list[skip..skip]) == {};
      for i := skip to |list|
        invariant backups == old(backups) - Elements(list[skip..i])
      {
        assert list[i] in BackupsOf(old(backups), db);
        assert list[skip..i + 1] == list[skip..i] + [list[i]];
        DeleteBackup(list[i].id);
      }
      assert list[skip..|list|] == list[skip..];
      KeptAreNewest(old(backups), list, db, skip);
    }

    method UpdateLastRun(db: nat, now: int)
      requires db in schedules
      modifies `schedules
      ensures schedules == old(schedules)[db := old(schedules)[db].(lastRun := Some(now))]
    {
      schedules := schedules[db := schedules[db].(lastRun := Some(now))];
    }

    /** One due schedule: skipped without a container, left for the next round if Docker fails, marked and
        cleaned up after otherwise, also when the record could not be inserted. */
    method RunSchedule(db: nat, jobs: Jobs)
      requires IdsDiffer(backups) && db in schedules
      requires db in jobs ==> forall b :: b in backups ==> b.id != jobs[db].id
      modifies this
      ensures containers == old(containers) && IdsDiffer(backups)
      ensures forall b :: b in backups ==> b in old(backups) || (db in jobs && b == NewBackup(jobs, db))
      ensures forall other: nat :: other != db ==> Untouched(old(Tables()), Tables(), other)
      ensures if db in containers && db in jobs && jobs[db].ok then BackedUp(old(Tables()), Tables(), jobs, db)
              else Tables() == old(Tables())
    {
      if db !in containers || db !in jobs || !jobs[db].ok {
        return;
      }
      ghost var before := backups;
      if jobs[db].recorded {
        backups := backups + {Backup(jobs[db].id, db, jobs[db].createdAt)};
      }
      assert BackupsOf(backups, db) == BackupsOf(before, db) + Recorded(jobs, db);
      assert forall other: nat :: other != db ==> BackupsOf(backups, other) == BackupsOf(before, other);
      UpdateLastRun(db, jobs[db].finishedAt);
      hide Retained;
      CleanupOldBackups(db, schedules[db].retention);
    }

    method RunScheduledBackups(now: int, jobs: Jobs)
      requires IdsDiffer(backups) && Possible(Tables(), Tick(now, jobs))
      modifies this
      ensures IdsDiffer(backups)
      ensures TickTo(old(Tables()), now, jobs, Tables())
    {
      ghost var s := Tables();
      hide Retained, IdsDiffer;
      var due := set db | db in schedules && Due(schedules[db], now);
      while due != {}
        invariant due <= s.schedules.Keys && containers == s.containers && IdsDiffer(backups)
        invariant forall db :: db in due ==> Due(s.schedules[db], now)
        invariant Drawn(s, backups, jobs, due)
        invariant PartWay(s, now, jobs, due, Tables())
        decreases due
      {
        var db :| db in due;
        ghost var before := Tables();
        assert Untouched(s, before, db);
        FreshId(s, now, backups, jobs, due, db);
        RunSchedule(db, jobs);
        PartFurther(s, now, jobs, due, before, Tables(), db);
        due := due - {db};
      }
    }
  }

  // Every record is old or that of a schedule already run.
  ghost predicate Drawn(s: State, backups: set<Backup>, jobs: Jobs, due: set<nat>) {
    forall b :: b in backups ==> b in s.backups || (b.db in jobs && b == NewBackup(jobs, b.db) && b.db !in due)
  }

  ghost predicate PartWay(s: State, now: int, jobs: Jobs, due: set<nat>, t: State) {
    forall db: nat :: if Ran(s, now, jobs, db) && db !in due then BackedUp(s, t, jobs, db) else Untouched(s, t, db)
  }

  lemma FreshId(s: State, now: int, backups: set<Backup>, jobs: Jobs, due: set<nat>, db: nat)
    requires Possible(s, Tick(now, jobs)) && Drawn(s, backups, jobs, due) && db in due
    ensures db in jobs ==> forall b :: b in backups ==> b.id != jobs[db].id
  {
  }

  lemma PartFurther(s: State, now: int, jobs: Jobs, due: set<nat>, before: State, after: State, db: nat)
    requires PartWay(s, now, jobs, due, before) && db in due && db in s.schedules && Due(s.schedules[db], now)
    requires before.containers == s.containers && db in before.schedules
    requires forall other: nat :: other != db ==> Untouched(before, after, other)
    requires if db in s.containers && db in jobs && jobs[db].ok then BackedUp(before, after, jobs, db)
             else after == before
    ensures PartWay(s, now, jobs, due - {db}, after)
  {
    hide Retained, BackupsOf;
    forall e: nat
      ensures if Ran(s, now, jobs, e) && e !in due - {db} then BackedUp(s, after, jobs, e) else Untouched(s, after, e)
    {
      assert if Ran(s, now, jobs, e) && e !in due then BackedUp(s, before, jobs, e) else Untouched(s, before, e);
      if e != db {
        assert Untouched(before, after, e);
      }
    }
  }

  lemma KeptAreNewest(backups: set<Backup>, list: seq<Backup>, db: nat, skip: nat)
    requires NewestFirst(list) && NoRepeats(list) && Elements(list) == BackupsOf(backups, db) && skip <= |list|
    ensures var left := backups - Elements(list[skip..]);
            && BackupsOf(left, db) == Elements(list[..skip]) && |BackupsOf(left, db)| == skip
            && |BackupsOf(backups, db)| == |list|
            && (forall other: nat :: other != db ==> BackupsOf(left, other) == BackupsOf(backups, other))
            && (forall k, d :: k in BackupsOf(left, db) && d in BackupsOf(backups, db) && d !in BackupsOf(left, db) ==>
                  d.createdAt <= k.createdAt)
  {
    var kept, gone := list[..skip], list[skip..];
    ElementCount(list);
    ElementCount(kept);
    CutElements(list, skip);
    KeptAreNewer(list, skip);
    hide NewestFirst, NoRepeats, Elements;
    WithoutGone(backups, Elements(kept), Elements(gone), db);
  }

  lemma KeptAreNewer(list: seq<Backup>, skip: nat)
    requires NewestFirst(list) && skip <= |list|
    ensures forall k, d :: k in Elements(list[..skip]) && d in Elements(list[skip..]) ==> d.createdAt <= k.createdAt
  {
    var kept, gone := list[..skip], list[skip..];
    forall k, d | k in Elements(kept) && d in Elements(gone) ensures d.createdAt <= k.createdAt {
      var i :| 0 <= i < skip && kept[i] == k;
      var j :| 0 <= j < |gone| && gone[j] == d;
      assert list[i] == k && list[skip + j] == d;
    }
  }

  lemma WithoutGone(backups: set<Backup>, kept: set<Backup>, gone: set<Backup>, db: nat)
    requires BackupsOf(backups, db) == kept + gone && kept !! gone
    ensures BackupsOf(backups - gone, db) == kept
    ensures forall other: nat :: other != db ==> BackupsOf(backups - gone, other) == BackupsOf(backups, other)
  {
    assert forall b :: b in gone ==> b in BackupsOf(backups, db);
  }

  lemma CutElements(list: seq<Backup>, skip: nat)
    requires NoRepeats(list) && skip <= |list|
    ensures Elements(list) == Elements(list[..skip]) + Elements(list[skip..])
    ensures Elements(list[..skip]) !! Elements(list[skip..])
  {
    var kept, gone := list[..skip], list[skip..];
    assert list == kept + gone;
    forall b | b in Elements(kept) ensures b !in Elements(gone) {
      var i :| 0 <= i < skip && kept[i] == b;
      assert list[i] == b;
    }
  }
}
