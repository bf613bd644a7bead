/**
 Which events the container handlers record, and when the recorded log tells the truth
 about the container.
 */
module Metering {
  import opened Wrappers
  import opened UsageLog
  import opened UsageHours

  datatype Action = Provision | StartContainer | StopContainer | RestartContainer | Scale | Delete

  /** The plans an action's events carry: scaling stops the old plan and starts the new one; for
      every other action the two are the same. */
  datatype Plans = Plans(stopped: Option<nat>, started: Option<nat>)

  function PlanOf(plans: Plans, kind: EventKind): Option<nat> {
    if kind == Stop then plans.stopped else plans.started
  }

  datatype Step = Step(action: Action, at: int, plans: Plans)

  datatype Identity = Identity(database: nat, user: nat, name: string)

  /** The container's state after an action; scaling changes limits in place. */
  function UpAfter(action: Action, up: bool): bool {
    match action
    case Provision => true
    case StartContainer => true
    case StopContainer => false
    case RestartContainer => true
    case Scale => up
    case Delete => false
  }

  /** The event kinds an action records, whatever the container was doing. */
  function Recorded(action: Action): seq<EventKind> {
    match action
    case Provision => [Start]
    case StartContainer => [Start]
    case StopContainer => [Stop]
    case RestartContainer => []
    case Scale => [Stop, Start]
    case Delete => [Stop]
  }

  function Rows(id: Identity, kinds: seq<EventKind>, at: int, plans: Plans): seq<UsageEvent> {
    if kinds == [] then []
    else [UsageEvent(id.database, kinds[0], at, id.user, id.name, PlanOf(plans, kinds[0]))] + Rows(id, kinds[1..], at, plans)
  }

  function Up(steps: seq<Step>): bool {
    steps != [] && UpAfter(steps[|steps| - 1].action, Up(steps[..|steps| - 1]))
  }

  function Log(id: Identity, steps: seq<Step>): seq<UsageEvent> {
    if steps == [] then []
    else
      var last := steps[|steps| - 1];
      Log(id, steps[..|steps| - 1]) + Rows(id, Recorded(last.action), last.at, last.plans)
  }

  /** The container was up at `t`: the state after the actions performed by then. */
  predicate UpAt(steps: seq<Step>, t: int) {
    steps != [] &&
    if steps[|steps| - 1].at <= t then Up(steps) else UpAt(steps[..|steps| - 1], t)
  }

  function UpTicks(steps: seq<Step>, from: int, until: int): nat
    decreases until - from
  {
    if until <= from then 0
    else UpTicks(steps, from, until - 1) + (if UpAt(steps, until - 1) then 1 else 0)
  }

  /** The log alternates and its last word is the container's state. */
  ghost predicate Faithful(up: bool, log: seq<UsageEvent>) {
    Alternating(log) && (up <==> EndsInStart(log))
  }

  /** The action changes the container the way its events say. */
  predicate Fits(up: bool, action: Action) {
    match action
    case Provision => !up
    case StartContainer => !up
    case StopContainer => up
    case RestartContainer => up
    case Scale => up
    case Delete => up
  }

  lemma AppendAlternates(log: seq<UsageEvent>, event: UsageEvent)
    requires Alternating(log)
    ensures Alternating(log + [event]) <==> (event.kind == Start <==> !EndsInStart(log))
  {
    var longer := log + [event];
    assert longer[|log|] == event;
    if log != [] {
      assert log[|log| - 1].kind == Start <==> (|log| - 1) % 2 == 0;
    }
    if event.kind == Start <==> !EndsInStart(log) {
      forall i | 0 <= i < |longer| ensures longer[i].kind == Start <==> i % 2 == 0 {
        assert i < |log| ==> longer[i] == log[i];
      }
    }
  }

  lemma PrefixAlternates(log: seq<UsageEvent>, more: seq<UsageEvent>)
    requires Alternating(log + more)
    ensures Alternating(log)
  {
    assert forall i :: 0 <= i < |log| ==> (log + more)[i] == log[i];
  }

  /** A handler keeps the log faithful exactly when its action fits the container's state:
      starting a running container, or stopping, scaling, restarting or deleting one that is
      down, breaks it. */
  lemma ActionKeepsLogFaithfulIff(id: Identity, log: seq<UsageEvent>, up: bool, step: Step)
    requires Faithful(up, log)
    ensures Faithful(UpAfter(step.action, up), log + Rows(id, Recorded(step.action), step.at, step.plans))
            <==> Fits(up, step.action)
  {
    var kinds := Recorded(step.action);
    var rows := Rows(id, kinds, step.at, step.plans);
    RowsAt(id, kinds, step.at, step.plans);
    if kinds == [] {
      assert log + rows == log;
    } else {
      var first := UsageEvent(id.database, kinds[0], step.at, id.user, id.name, PlanOf(step.plans, kinds[0]));
      AppendAlternates(log, first);
      if |kinds| == 1 {
        assert rows == [first];
      } else {
        var second := UsageEvent(id.database, kinds[1], step.at, id.user, id.name, PlanOf(step.plans, kinds[1]));
        assert rows == [first] + [second];
        assert log + rows == (log + [first]) + [second];
        if Alternating(log + [first]) {
          AppendAlternates(log + [first], second);
        } else if Alternating(log + rows) {
          PrefixAlternates(log + [first], [second]);
        }
      }
    }
  }

  /** The log's last word is the container's state. */
  ghost predicate Truthful(up: bool, log: seq<UsageEvent>) {
    up <==> EndsInStart(log)
  }

  /** The actions whose events say something else than what they do: restarting a container that is
      down brings it up unrecorded, and scaling one that is down records a start. */
  predicate Misleading(up: bool, action: Action) {
    !up && (action == RestartContainer || action == Scale)
  }

  /** A handler keeps the log's last word true exactly when its action is not one of those: a second
      start, a second stop and a delete of what is stopped all do. */
  lemma ActionKeepsLogTruthfulIff(id: Identity, log: seq<UsageEvent>, up: bool, step: Step)
    requires Truthful(up, log)
    ensures Truthful(UpAfter(step.action, up), log + Rows(id, Recorded(step.action), step.at, step.plans))
            <==> !Misleading(up, step.action)
  {
    var rows := Rows(id, Recorded(step.action), step.at, step.plans);
    RowsAt(id, Recorded(step.action), step.at, step.plans);
    if rows == [] {
      assert log + rows == log;
    } else {
      assert (log + rows)[|log + rows| - 1] == rows[|rows| - 1];
    }
  }

  /** No action of the run is misleading, and time does not go backwards. */
  ghost predicate Watched(steps: seq<Step>) {
    steps == [] ||
    (var n := |steps| - 1;
     && Watched(steps[..n])
     && !Misleading(Up(steps[..n]), steps[n].action)
     && (0 < n ==> steps[n - 1].at <= steps[n].at))
  }

  lemma {:induction false} WatchedRunIsTruthful(id: Identity, steps: seq<Step>)
    requires Watched(steps)
    ensures Truthful(Up(steps), Log(id, steps))
  {
    if steps != [] {
      var n := |steps| - 1;
      WatchedRunIsTruthful(id, steps[..n]);
      ActionKeepsLogTruthfulIff(id, Log(id, steps[..n]), Up(steps[..n]), steps[n]);
    }
  }

  /** Every action of the run fits as well. */
  ghost predicate Orderly(steps: seq<Step>) {
    steps == [] ||
    (var n := |steps| - 1;
     && Orderly(steps[..n])
     && Fits(Up(steps[..n]), steps[n].action)
     && (0 < n ==> steps[n - 1].at <= steps[n].at))
  }

  lemma {:induction false} OrderlyIsWatched(steps: seq<Step>)
    requires Orderly(steps)
    ensures Watched(steps)
  {
    if steps != [] {
      OrderlyIsWatched(steps[..|steps| - 1]);
    }
  }

  lemma {:induction false} OrderlyRunIsFaithful(id: Identity, steps: seq<Step>)
    requires Orderly(steps)
    ensures Faithful(Up(steps), Log(id, steps))
  {
    if steps != [] {
      var n := |steps| - 1;
      OrderlyRunIsFaithful(id, steps[..n]);
      ActionKeepsLogFaithfulIff(id, Log(id, steps[..n]), Up(steps[..n]), steps[n]);
    }
  }

  // Nothing in the log is later than the last action.
  lemma {:induction false} LogEndsBy(id: Identity, steps: seq<Step>, t: int)
    requires Watched(steps) && (steps != [] ==> steps[|steps| - 1].at <= t)
    ensures forall i :: 0 <= i < |Log(id, steps)| ==> Log(id, steps)[i].at <= t
  {
    if steps != [] {
      var n := |steps| - 1;
      LogEndsBy(id, steps[..n], t);
      RowsAt(id, Recorded(steps[n].action), steps[n].at, steps[n].plans);
    }
  }

  lemma {:induction false} RowsAt(id: Identity, kinds: seq<EventKind>, at: int, plans: Plans)
    ensures |Rows(id, kinds, at, plans)| == |kinds|
    ensures forall i :: 0 <= i < |kinds| ==>
      Rows(id, kinds, at, plans)[i] == UsageEvent(id.database, kinds[i], at, id.user, id.name, PlanOf(plans, kinds[i]))
  {
    if kinds != [] {
      RowsAt(id, kinds[1..], at, plans);
      var rest := Rows(id, kinds[1..], at, plans);
      forall i | 0 <= i < |kinds|
        ensures Rows(id, kinds, at, plans)[i]
                == UsageEvent(id.database, kinds[i], at, id.user, id.name, PlanOf(plans, kinds[i]))
      {
        if 0 < i {
          assert Rows(id, kinds, at, plans)[i] == rest[i - 1];
        }
      }
    }
  }

  // ---- The plans the events carry ----

  /** Scaling records a stop on the plan it ends and then a start on the plan it begins. */
  lemma ScalingIsRecorded(id: Identity, steps: seq<Step>, at: int, ended: Option<nat>, begun: Option<nat>)
    ensures Log(id, steps + [Step(Scale, at, Plans(ended, begun))])
            == Log(id, steps) + [UsageEvent(id.database, Stop, at, id.user, id.name, ended),
                                 UsageEvent(id.database, Start, at, id.user, id.name, begun)]
  {
    var plans := Plans(ended, begun);
    assert (steps + [Step(Scale, at, plans)])[..|steps|] == steps;
    RowsAt(id, [Stop, Start], at, plans);
    assert Rows(id, [Stop, Start], at, plans)
           == [UsageEvent(id.database, Stop, at, id.user, id.name, ended),
               UsageEvent(id.database, Start, at, id.user, id.name, begun)];
  }

  /** Each action ends the plan that the actions before it left in force, and only scaling begins another. */
  predicate Chained(steps: seq<Step>) {
    steps == [] ||
    (var n := |steps| - 1;
     && Chained(steps[..n])
     && (steps[n].action != Scale ==> steps[n].plans.stopped == steps[n].plans.started)
     && (0 < n ==> steps[n].plans.stopped == steps[n - 1].plans.started))
  }

  /** The plan of the latest start. */
  function LastStartedPlan(log: seq<UsageEvent>): Option<Option<nat>> {
    if log == [] then None
    else if log[|log| - 1].kind == Start then Some(log[|log| - 1].plan)
    else LastStartedPlan(log[..|log| - 1])
  }

  /** Every stop carries the plan of the latest start before it. */
  ghost predicate StopsMatchStarts(log: seq<UsageEvent>) {
    forall j :: 0 <= j < |log| && log[j].kind == Stop && LastStartedPlan(log[..j]).Some? ==>
      LastStartedPlan(log[..j]) == Some(log[j].plan)
  }

  lemma OneMoreEvent(log: seq<UsageEvent>, event: UsageEvent)
    requires StopsMatchStarts(log)
    requires event.kind == Stop && LastStartedPlan(log).Some? ==> LastStartedPlan(log) == Some(event.plan)
    ensures StopsMatchStarts(log + [event])
    ensures LastStartedPlan(log + [event]) == if event.kind == Start then Some(event.plan) else LastStartedPlan(log)
  {
    var longer := log + [event];
    assert longer[..|log|] == log;
    forall j | 0 <= j < |longer| && longer[j].kind == Stop && LastStartedPlan(longer[..j]).Some?
      ensures LastStartedPlan(longer[..j]) == Some(longer[j].plan)
    {
      assert j < |log| ==> longer[..j] == log[..j] && longer[j] == log[j];
    }
  }

  /** However often a database is scaled, every stop carries the plan of the start it ends, and the latest start
      carries the plan in force. */
  lemma {:induction false} PlansFollow(id: Identity, steps: seq<Step>)
    requires Chained(steps)
    ensures StopsMatchStarts(Log(id, steps))
    ensures LastStartedPlan(Log(id, steps)).Some? ==>
      steps != [] && LastStartedPlan(Log(id, steps)) == Some(steps[|steps| - 1].plans.started)
  {
    if steps != [] {
      var n := |steps| - 1;
      var before, last := Log(id, steps[..n]), steps[n];
      PlansFollow(id, steps[..n]);
      WhatOneStepRecords(id, steps[..n], last);
      assert steps == steps[..n] + [last];
      var stop := UsageEvent(id.database, Stop, last.at, id.user, id.name, last.plans.stopped);
      var start := UsageEvent(id.database, Start, last.at, id.user, id.name, last.plans.started);
      hide StopsMatchStarts, LastStartedPlan, Log;
      match last.action {
        case Scale =>
          OneMoreEvent(before, stop);
          OneMoreEvent(before + [stop], start);
        case RestartContainer =>
        case StopContainer => OneMoreEvent(before, stop);
        case Delete => OneMoreEvent(before, stop);
        case Provision => OneMoreEvent(before, start);
        case StartContainer => OneMoreEvent(before, start);
      }
    }
  }

  /** What one action adds to the log: a stop on the plan it ends, a start on the one it begins, both, or nothing. */
  lemma WhatOneStepRecords(id: Identity, steps: seq<Step>, last: Step)
    ensures var stop := UsageEvent(id.database, Stop, last.at, id.user, id.name, last.plans.stopped);
            var start := UsageEvent(id.database, Start, last.at, id.user, id.name, last.plans.started);
            Log(id, steps + [last])
            == match last.action
               case Scale => (Log(id, steps) + [stop]) + [start]
               case RestartContainer => Log(id, steps)
               case StopContainer => Log(id, steps) + [stop]
               case Delete => Log(id, steps) + [stop]
               case Provision => Log(id, steps) + [start]
               case StartContainer => Log(id, steps) + [start]
  {
    assert (steps + [last])[..|steps|] == steps;
    RowsAt(id, Recorded(last.action), last.at, last.plans);
    if last.action == Scale {
      ScalingIsRecorded(id, steps, last.at, last.plans.stopped, last.plans.started);
    }
  }

  // Events after t do not bear on what ran at t.
  lemma {:induction false} LaterEventsDoNotMatter(log: seq<UsageEvent>, later: seq<UsageEvent>, t: int)
    requires forall i :: 0 <= i < |later| ==> t < later[i].at
    ensures RunningAt(log + later, t) <==> RunningAt(log, t)
  {
    if later == [] {
      assert log + later == log;
    } else {
      var cut := later[..|later| - 1];
      assert (log + later)[..|log + later| - 1] == log + cut;
      LaterEventsDoNotMatter(log, cut, t);
    }
  }

  /** In a watched run the log answers "was it running at t?" exactly as the container would. */
  lemma {:induction false} LogTellsTheTruth(id: Identity, steps: seq<Step>, t: int)
    requires Watched(steps)
    ensures RunningAt(Log(id, steps), t) <==> UpAt(steps, t)
  {
    if steps != [] {
      var n := |steps| - 1;
      var log := Log(id, steps);
      if steps[n].at <= t {
        LogEndsBy(id, steps, t);
        WatchedRunIsTruthful(id, steps);
        assert log == [] || log[|log| - 1].at <= t;
      } else {
        RowsAt(id, Recorded(steps[n].action), steps[n].at, steps[n].plans);
        LaterEventsDoNotMatter(
          Log(id, steps[..n]), Rows(id, Recorded(steps[n].action), steps[n].at, steps[n].plans), t);
        LogTellsTheTruth(id, steps[..n], t);
      }
    }
  }

  lemma {:induction false} LoggedTicksAreUpTicks(id: Identity, steps: seq<Step>, from: int, until: int)
    requires Watched(steps)
    ensures RunningTicks(Log(id, steps), from, until) == UpTicks(steps, from, until)
    decreases until - from
  {
    if from < until {
      LoggedTicksAreUpTicks(id, steps, from, until - 1);
      LogTellsTheTruth(id, steps, until - 1);
    }
  }

  lemma {:induction false} SortedAppend(log: seq<UsageEvent>, event: UsageEvent)
    requires Sorted(log) && (log != [] ==> log[|log| - 1].at <= event.at)
    ensures Sorted(log + [event])
  {
    if |log| < 2 {
      assert log != [] ==> (log + [event])[1..] == [event];
    } else {
      SortedAppend(log[1..], event);
      assert (log + [event])[1..] == log[1..] + [event];
    }
  }

  lemma {:induction false} WatchedLogIsSorted(id: Identity, steps: seq<Step>)
    requires Watched(steps)
    ensures Sorted(Log(id, steps))
  {
    if steps != [] {
      var n := |steps| - 1;
      WatchedLogIsSorted(id, steps[..n]);
      LogEndsBy(id, steps[..n], steps[n].at);
      SortedAppendRows(id, Log(id, steps[..n]), Recorded(steps[n].action), steps[n].at, steps[n].plans);
    }
  }

  lemma {:induction false} SortedAppendRows(
    id: Identity, log: seq<UsageEvent>, kinds: seq<EventKind>, at: int, plans: Plans)
    requires Sorted(log) && (log != [] ==> log[|log| - 1].at <= at)
    ensures Sorted(log + Rows(id, kinds, at, plans))
    decreases kinds
  {
    var rows := Rows(id, kinds, at, plans);
    if kinds == [] {
      assert log + rows == log;
    } else {
      SortedAppend(log, rows[0]);
      SortedAppendRows(id, log + [rows[0]], kinds[1..], at, plans);
      assert log + rows == (log + [rows[0]]) + rows[1..];
    }
  }

  /** From the handlers to the bill, for every run in which no container that is down is restarted or
      scaled: the seconds billed for any period, plus what a start of a running container makes the
      fold forget, are the seconds the container was up, plus what a stop of a stopped one makes it
      guess. */
  lemma WatchedRunIsAccountedFor(id: Identity, steps: seq<Step>, from: int, until: int)
    requires Watched(steps) && from <= until
    requires from % TICKS_PER_SECOND == 0 && until % TICKS_PER_SECOND == 0
    requires WholeSeconds(Log(id, steps)) && Since2000(Log(id, steps))
    ensures var log := Log(id, steps);
            var running, events := RunningBefore(log, from), Window(log, from, until);
            Usage(log, from, until, TICKS_PER_SECOND) * TICKS_PER_SECOND + Overwritten(running, from, events)
            == UpTicks(steps, from, until) + Guessed(running, from, events)
  {
    var log := Log(id, steps);
    WatchedLogIsSorted(id, steps);
    WholeSecondsAreKept(log, from, until);
    UsageAccounting(log, from, until);
    LoggedTicksAreUpTicks(id, steps, from, until);
  }

  /** In an orderly run with whole-second timestamps the seconds billed for any period are the seconds
      the container was up. */
  lemma OrderlyRunIsBilledForItsUptime(id: Identity, steps: seq<Step>, from: int, until: int)
    requires Orderly(steps) && from <= until
    requires from % TICKS_PER_SECOND == 0 && until % TICKS_PER_SECOND == 0
    requires WholeSeconds(Log(id, steps)) && Since2000(Log(id, steps))
    ensures Usage(Log(id, steps), from, until, TICKS_PER_SECOND) * TICKS_PER_SECOND
            == UpTicks(steps, from, until)
  {
    OrderlyIsWatched(steps);
    WatchedLogIsSorted(id, steps);
    OrderlyRunIsFaithful(id, steps);
    WatchedRunIsAccountedFor(id, steps, from, until);
    AlternatingWindow(Log(id, steps), from, until);
  }

  /** The ordinary end of a life, a delete (or another stop) of what is already stopped: it adds the
      time since the start of the period to that period's bill if and only if it is the period's
      first event, and nothing to any other period, though the container is never up in it. */
  lemma DeletingTheStopped(id: Identity, steps: seq<Step>, last: Step, from: int, until: int, unit: int)
    requires Watched(steps) && !Up(steps) && (last.action == Delete || last.action == StopContainer)
    requires steps != [] ==> steps[|steps| - 1].at <= last.at
    requires 0 < unit && from <= until && Since2000(Log(id, steps))
    ensures var before, after := Log(id, steps), Log(id, steps + [last]);
            Usage(after, from, until, unit)
            == Usage(before, from, until, unit)
               + if from <= last.at <= until && Window(before, from, until) == [] then Truncate(last.at - from, unit)
                 else 0
    ensures UpTicks(steps + [last], from, until) == UpTicks(steps, from, until)
  {
    var stop := UsageEvent(id.database, Stop, last.at, id.user, id.name, PlanOf(last.plans, Stop));
    StopRecorded(id, steps, last);
    WatchedRunIsTruthful(id, steps);
    WatchedLogIsSorted(id, steps);
    LogEndsBy(id, steps, last.at);
    hide Log, Rows, Usage, Window, Watched, UpTicks, Sorted;
    IdleStopAdds(Log(id, steps), stop, from, until, unit);
    SameUptime(steps, last, from, until);
  }

  lemma StopRecorded(id: Identity, steps: seq<Step>, last: Step)
    requires last.action == Delete || last.action == StopContainer
    ensures Log(id, steps + [last])
            == Log(id, steps) + [UsageEvent(id.database, Stop, last.at, id.user, id.name, PlanOf(last.plans, Stop))]
  {
    assert (steps + [last])[..|steps|] == steps;
    RowsAt(id, [Stop], last.at, last.plans);
    assert Rows(id, [Stop], last.at, last.plans)
           == [UsageEvent(id.database, Stop, last.at, id.user, id.name, PlanOf(last.plans, Stop))];
  }

  lemma {:induction false} SameUptime(steps: seq<Step>, last: Step, from: int, until: int)
    requires !Up(steps) && !UpAfter(last.action, false) && Watched(steps)
    requires steps != [] ==> steps[|steps| - 1].at <= last.at
    ensures UpTicks(steps + [last], from, until) == UpTicks(steps, from, until)
    decreases until - from
  {
    assert (steps + [last])[..|steps|] == steps;
    if from < until {
      SameUptime(steps, last, from, until - 1);
    }
  }

  // ---- Runs whose actions do not fit ----

  function Event(kind: EventKind, second: int): UsageEvent {
    UsageEvent(0, kind, SAFE_MIN + second * TICKS_PER_SECOND, 0, "", None)
  }

  lemma WholeWindow(events: seq<UsageEvent>, until: int)
    requires forall i :: 0 <= i < |events| ==> SAFE_MIN <= events[i].at <= until
    ensures Window(events, SAFE_MIN, until) == events
  {
    WhereAll(events, InWindow(SAFE_MIN, until));
  }

  lemma BetweenStep(event: UsageEvent, rest: seq<UsageEvent>, since: int, until: int)
    requires since <= event.at <= until && Between(rest, event.at, until)
    ensures Between([event] + rest, since, until)
  {
    assert ([event] + rest)[1..] == rest;
  }

  /** Starting a database that already runs forgets the time since the first start: up for
      7200 seconds, billed for 3600. */
  lemma SecondStartIsUnderBilled()
    ensures var history := [Event(Start, 0), Event(Start, 3600), Event(Stop, 7200)];
            var until := SAFE_MIN + 7200 * TICKS_PER_SECOND;
            Usage(history, SAFE_MIN, until, TICKS_PER_SECOND) == 3600
            && RunningTicks(history, SAFE_MIN, until) == 7200 * TICKS_PER_SECOND
  {
    var first, second, stop := Event(Start, 0), Event(Start, 3600), Event(Stop, 7200);
    var history := [first, second, stop];
    var until := SAFE_MIN + 7200 * TICKS_PER_SECOND;
    WholeWindow(history, until);
    assert history[1..] == [second, stop] && [second, stop][1..] == [stop] && [stop][1..] == [];
    BetweenStep(stop, [], second.at, until);
    BetweenStep(second, [stop], first.at, until);
    BetweenStep(first, [second, stop], SAFE_MIN, until);
    assert history == [first] + [second, stop] && [second, stop] == [second] + [stop] && [stop] == [stop] + [];
    assert Billed([stop], Some(second.at), until, TICKS_PER_SECOND) == 3600;
    assert Billed([second, stop], Some(first.at), until, TICKS_PER_SECOND) == 3600;
    assert RunningGaps(true, second.at, [stop], until) == 3600 * TICKS_PER_SECOND;
    assert RunningGaps(true, first.at, [second, stop], until) == 7200 * TICKS_PER_SECOND;
    assert [] + (history + []) == history;
    TicksAreGaps([], history, [], SAFE_MIN, until);
  }

  function ScaledWhileStopped(plan: Option<nat>): seq<Step> {
    var same := Plans(plan, plan);
    [Step(Provision, SAFE_MIN, same), Step(StopContainer, SAFE_MIN, same), Step(Scale, SAFE_MIN, same)]
  }

  lemma ScaledWhileStoppedLog(id: Identity, plan: Option<nat>)
    ensures var on, off := UsageEvent(id.database, Start, SAFE_MIN, id.user, id.name, plan),
                           UsageEvent(id.database, Stop, SAFE_MIN, id.user, id.name, plan);
            Log(id, ScaledWhileStopped(plan)) == [on, off, off, on]
    ensures !Up(ScaledWhileStopped(plan))
  {
    var steps := ScaledWhileStopped(plan);
    var provision, stop := steps[0], steps[1];
    assert steps[..2] == [provision, stop] && [provision, stop][..1] == [provision] && [provision][..0] == [];
    assert !Up([provision, stop]);
    RowsAt(id, [Start], SAFE_MIN, Plans(plan, plan));
    RowsAt(id, [Stop], SAFE_MIN, Plans(plan, plan));
    RowsAt(id, [Stop, Start], SAFE_MIN, Plans(plan, plan));
    var on, off := UsageEvent(id.database, Start, SAFE_MIN, id.user, id.name, plan),
                   UsageEvent(id.database, Stop, SAFE_MIN, id.user, id.name, plan);
    assert Log(id, [provision]) == [on];
    assert Log(id, [provision, stop]) == [on, off];
  }

  /** Scaling a stopped database records a start that nothing undoes: down, yet billed. */
  lemma ScalingWhileStoppedIsBilled(id: Identity, plan: Option<nat>)
    ensures var until := SAFE_MIN + 3600 * TICKS_PER_SECOND;
            Usage(Log(id, ScaledWhileStopped(plan)), SAFE_MIN, until, TICKS_PER_SECOND) == 3600
    ensures !Up(ScaledWhileStopped(plan))
  {
    ScaledWhileStoppedLog(id, plan);
    hide Log, Up;
    var until := SAFE_MIN + 3600 * TICKS_PER_SECOND;
    var on, off := UsageEvent(id.database, Start, SAFE_MIN, id.user, id.name, plan),
                   UsageEvent(id.database, Stop, SAFE_MIN, id.user, id.name, plan);
    var history := [on, off, off, on];
    WholeWindow(history, until);
    assert history[1..] == [off, off, on] && [off, off, on][1..] == [off, on] && [off, on][1..] == [on]
           && [on][1..] == [];
    assert Billed([on], None, until, TICKS_PER_SECOND) == 3600;
    assert Billed([off, on], None, until, TICKS_PER_SECOND) == 3600;
    assert Billed([off, off, on], Some(SAFE_MIN), until, TICKS_PER_SECOND) == 3600;
  }

  function StoppedThenDeleted(plan: Option<nat>): seq<Step> {
    var same := Plans(plan, plan);
    [Step(Provision, SAFE_MIN, same), Step(StopContainer, SAFE_MIN + 3600 * TICKS_PER_SECOND, same),
     Step(Delete, SAFE_MIN + 10_800 * TICKS_PER_SECOND, same)]
  }

  /** For example: up for an hour, stopped, and deleted an hour into a later period. That hour is billed,
      and the database never runs in the period. */
  lemma StoppedThenDeletedIsBilled(id: Identity, plan: Option<nat>)
    ensures var from, until := SAFE_MIN + 7200 * TICKS_PER_SECOND, SAFE_MIN + 14_400 * TICKS_PER_SECOND;
            var steps := StoppedThenDeleted(plan);
            Watched(steps) && Usage(Log(id, steps), from, until, TICKS_PER_SECOND) == 3600 && UpTicks(steps, from, until) == 0
  {
    var from, until := SAFE_MIN + 7200 * TICKS_PER_SECOND, SAFE_MIN + 14_400 * TICKS_PER_SECOND;
    var steps := StoppedThenDeleted(plan);
    var first, second, last := steps[0], steps[1], steps[2];
    assert steps[..2] == [first, second] && [first, second][..1] == [first] && [first][..0] == [];
    assert steps == [first, second] + [last];
    OneMoreWatched([], first);
    OneMoreWatched([first], second);
    OneMoreWatched([first, second], last);
    assert [] + [first] == [first] && [first] + [second] == [first, second];
    var on, off := UsageEvent(id.database, Start, first.at, id.user, id.name, plan),
                   UsageEvent(id.database, Stop, second.at, id.user, id.name, plan);
    assert Log(id, [first, second]) == [on, off] by {
      RowsAt(id, [Start], first.at, first.plans);
      RowsAt(id, [Stop], second.at, second.plans);
      assert Log(id, [first]) == [on];
    }
    assert Window([on, off], from, until) == [] by {
      WhereNone([on, off], InWindow(from, until));
    }
    assert Window([on, off], SAFE_MIN, from) == [on, off] by {
      WhereAll([on, off], InWindow(SAFE_MIN, from));
    }
    assert Usage([on, off], from, until, TICKS_PER_SECOND) == 0;
    DeletingTheStopped(id, [first, second], last, from, until, TICKS_PER_SECOND);
    DownSince([first, second], from, until);
  }

  lemma OneMoreWatched(steps: seq<Step>, step: Step)
    requires Watched(steps) && !Misleading(Up(steps), step.action)
    requires steps != [] ==> steps[|steps| - 1].at <= step.at
    ensures Watched(steps + [step]) && Up(steps + [step]) == UpAfter(step.action, Up(steps))
  {
    assert (steps + [step])[..|steps|] == steps;
  }

  lemma {:induction false} DownSince(steps: seq<Step>, from: int, until: int)
    requires steps != [] && !Up(steps) && steps[|steps| - 1].at <= from
    ensures UpTicks(steps, from, until) == 0
    decreases until - from
  {
    if from < until {
      DownSince(steps, from, until - 1);
    }
  }
}
