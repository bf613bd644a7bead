/**
 Folding a database's start/stop events into billed seconds for a period, and what the
 fold has to do with the time the database was really running.
 */
module UsageHours {
  import opened Arithmetic
  import opened Wrappers
  import opened UsageLog

  // num_seconds() drops the fraction, towards zero.
  function Truncate(ticks: int, unit: int): int
    requires 0 < unit
  {
    if 0 <= ticks then ticks / unit else -(-ticks / unit)
  }

  /** Units billed by the remaining events, given the start that is still open. */
  function Billed(events: seq<UsageEvent>, open: Option<int>, until: int, unit: int): int
    requires 0 < unit
  {
    if events == [] then
      (if open.Some? then Truncate(until - open.value, unit) else 0)
    else if events[0].kind == Start then
      Billed(events[1..], Some(events[0].at), until, unit)
    else if open.Some? then
      Truncate(events[0].at - open.value, unit) + Billed(events[1..], None, until, unit)
    else
      Billed(events[1..], None, until, unit)
  }

  lemma BilledStep(events: seq<UsageEvent>, i: nat, open: Option<int>, until: int, unit: int)
    requires 0 < unit && i < |events|
    ensures Billed(events[i..], open, until, unit)
            == if events[i].kind == Start then Billed(events[i + 1..], Some(events[i].at), until, unit)
               else (if open.Some? then Truncate(events[i].at - open.value, unit) else 0)
                    + Billed(events[i + 1..], None, until, unit)
  {
    assert events[i..][1..] == events[i + 1..];
  }

  function FirstIsStop(events: seq<UsageEvent>): bool {
    events != [] && events[0].kind == Stop
  }

  /** The usage of a period in units of `unit` ticks: the fold over the window's events, or
      what the earlier history says when the window is empty. */
  function Usage(history: seq<UsageEvent>, from: int, until: int, unit: int): int
    requires 0 < unit
  {
    var events := Window(history, from, until);
    if events == [] then
      (if EndsInStart(Window(history, SAFE_MIN, from)) then Truncate(until - from, unit) else 0)
    else
      Billed(events, if FirstIsStop(events) then Some(from) else None, until, unit)
  }

  // The loop over the window's events.
  method FoldEvents(events: seq<UsageEvent>, from: int, until: int) returns (seconds: int)
    requires events != []
    ensures seconds == Billed(events, if FirstIsStop(events) then Some(from) else None, until, TICKS_PER_SECOND)
  {
    hide Truncate, Billed;
    var total := 0;
    var lastStart: Option<int> := None;
    if events[0].kind == Stop {
      lastStart := Some(from);
    }
    ghost var initial := lastStart;
    assert events[0..] == events;
    for i := 0 to |events|
      invariant total + Billed(events[i..], lastStart, until, TICKS_PER_SECOND)
                == Billed(events, initial, until, TICKS_PER_SECOND)
    {
      BilledStep(events, i, lastStart, until, TICKS_PER_SECOND);
      match events[i].kind {
        case Start =>
          lastStart := Some(events[i].at);
        case Stop =>
          if lastStart.Some? {
            total := total + Truncate(events[i].at - lastStart.value, TICKS_PER_SECOND);
            lastStart := None;
          }
      }
    }
    BilledEnd(lastStart, until, TICKS_PER_SECOND);
    assert events[|events|..] == [];
    if lastStart.Some? {
      total := total + Truncate(until - lastStart.value, TICKS_PER_SECOND);
    }
    return total;
  }

  lemma BilledEnd(open: Option<int>, until: int, unit: int)
    requires 0 < unit
    ensures Billed([], open, until, unit) == if open.Some? then Truncate(until - open.value, unit) else 0
  {
  }

  /** The service's computation. It answers in hours; the exact numerator, seconds, is kept here. */
  method CalculateUsageSeconds(table: seq<UsageEvent>, database: nat, from: int, until: int)
    returns (seconds: int)
    ensures seconds == Usage(HistoryOf(table, database), from, until, TICKS_PER_SECOND)
  {
    hide HistoryOf, GetUsageEvents, Window, Truncate, Billed, Sorted;
    QueryIsWindowOfHistory(table, database, from, until);
    var events := GetUsageEvents(table, database, from, until);
    if events == [] {
      QueryIsWindowOfHistory(table, database, SAFE_MIN, from);
      var prior := GetUsageEvents(table, database, SAFE_MIN, from);
      if prior != [] && prior[|prior| - 1].kind == Start {
        return Truncate(until - from, TICKS_PER_SECOND);
      }
      return 0;
    }
    seconds := FoldEvents(events, from, until);
  }

  // ---- Accounting for every tick ----

  /** Running time that a start wipes out because it finds the database already running:
      the time since it was last known to run. */
  function Overwritten(running: bool, since: int, events: seq<UsageEvent>): int
    decreases events
  {
    if events == [] then 0
    else
      (if running && events[0].kind == Start then events[0].at - since else 0)
      + Overwritten(events[0].kind == Start, events[0].at, events[1..])
  }

  /** Time billed only because the window opens with a stop nothing had started. */
  function Guessed(running: bool, since: int, events: seq<UsageEvent>): int {
    if !running && FirstIsStop(events) then events[0].at - since else 0
  }

  // The running time of a sorted stretch of events, as a sum over its gaps.
  function RunningGaps(running: bool, since: int, events: seq<UsageEvent>, until: int): int
    decreases events
  {
    if events == [] then (if running then until - since else 0)
    else
      (if running then events[0].at - since else 0)
      + RunningGaps(events[0].kind == Start, events[0].at, events[1..], until)
  }

  // Sorted, and all within [since, until].
  ghost predicate Between(events: seq<UsageEvent>, since: int, until: int)
    decreases events
  {
    events != [] ==> since <= events[0].at <= until && Between(events[1..], events[0].at, until)
  }

  lemma {:induction false} BetweenAll(events: seq<UsageEvent>, since: int, until: int)
    requires Between(events, since, until)
    ensures forall i :: 0 <= i < |events| ==> since <= events[i].at <= until
    decreases events
  {
    if events != [] {
      BetweenAll(events[1..], events[0].at, until);
      forall i | 0 <= i < |events| ensures since <= events[i].at <= until {
        assert i == 0 || events[i] == events[1..][i - 1];
      }
    }
  }

  lemma {:induction false} BilledPlusOverwritten(running: bool, since: int, events: seq<UsageEvent>, until: int)
    requires Between(events, since, until) && since <= until
    ensures Billed(events, if running then Some(since) else None, until, 1) + Overwritten(running, since, events)
            == RunningGaps(running, since, events, until)
    decreases events
  {
    if events != [] {
      BilledPlusOverwritten(events[0].kind == Start, events[0].at, events[1..], until);
    }
  }

  // Counting instants agrees with summing gaps.
  lemma {:induction false} TicksAreGaps(
    past: seq<UsageEvent>, events: seq<UsageEvent>, future: seq<UsageEvent>, from: int, until: int)
    requires forall i :: 0 <= i < |past| ==> past[i].at <= from
    requires Between(events, from, until) && from <= until
    requires forall i :: 0 <= i < |future| ==> until < future[i].at
    ensures RunningTicks(past + (events + future), from, until)
            == RunningGaps(EndsInStart(past), from, events, until)
    decreases |events|
  {
    if events == [] {
      assert past + (events + future) == past + future;
      RunningStretch(past, future, from, until);
    } else {
      var history := past + (events + future);
      var next := events[0].at;
      assert RunningTicks(history, from, next) == (if EndsInStart(past) then next - from else 0) by {
        BetweenAll(events[1..], next, until);
        RunningStretch(past, events + future, from, next);
      }
      RunningTicksAdd(history, from, next, until);
      TicksAreGaps(past + [events[0]], events[1..], future, next, until);
      assert past + [events[0]] + (events[1..] + future) == history;
    }
  }

  // The events before `t`, and those from `t` on.
  lemma {:induction false} CutAt(history: seq<UsageEvent>, since: int, t: int)
    returns (before: seq<UsageEvent>, rest: seq<UsageEvent>)
    requires Sorted(history) && since <= t && (history != [] ==> since <= history[0].at)
    ensures history == before + rest
    ensures Between(before, since, t - 1)
    ensures Sorted(rest) && (rest != [] ==> t <= rest[0].at)
    decreases history
  {
    if history == [] || t <= history[0].at {
      before, rest := [], history;
    } else {
      var tail;
      tail, rest := CutAt(history[1..], history[0].at, t);
      before := [history[0]] + tail;
      assert history == [history[0]] + history[1..];
      assert before + rest == [history[0]] + (tail + rest);
      assert before[1..] == tail;
      hide Sorted;
    }
  }

  // A sorted history falls into what precedes the period, the window, and what follows.
  lemma WindowSplits(history: seq<UsageEvent>, from: int, until: int)
    returns (past: seq<UsageEvent>, future: seq<UsageEvent>)
    requires Sorted(history) && from <= until
    ensures history == past + (Window(history, from, until) + future)
    ensures forall i :: 0 <= i < |past| ==> past[i].at < from
    ensures forall i :: 0 <= i < |future| ==> until < future[i].at
    ensures Between(Window(history, from, until), from, until)
  {
    var since := if history == [] || from <= history[0].at then from else history[0].at;
    var rest, events;
    past, rest := CutAt(history, since, from);
    events, future := CutAt(rest, from, until + 1);
    assert history == past + (events + future);
    BetweenAll(past, since, from - 1);
    SortedFromHead(future, until + 1);
    assert Window(history, from, until) == events by {
      BetweenAll(events, from, until);
      WindowOfParts(past, events, future, from, until);
    }
  }

  lemma WindowOfParts(
    past: seq<UsageEvent>, events: seq<UsageEvent>, future: seq<UsageEvent>, from: int, until: int)
    requires forall i :: 0 <= i < |past| ==> past[i].at < from
    requires forall i :: 0 <= i < |events| ==> from <= events[i].at <= until
    requires forall i :: 0 <= i < |future| ==> until < future[i].at
    requires from <= until
    ensures Window(past + (events + future), from, until) == events
  {
    var keep := InWindow(from, until);
    WhereConcat(past, events + future, keep);
    WhereConcat(events, future, keep);
    WhereNone(past, keep);
    WhereAll(events, keep);
    WhereNone(future, keep);
  }

  // Before the period, nothing but the last event matters; the year-2000 bound hides nothing.
  lemma PriorHistory(history: seq<UsageEvent>, past: seq<UsageEvent>, future: seq<UsageEvent>, from: int)
    requires history == past + future && Since2000(history)
    requires forall i :: 0 <= i < |past| ==> past[i].at < from
    requires forall i :: 0 <= i < |future| ==> from < future[i].at
    ensures Window(history, SAFE_MIN, from) == past
  {
    forall i | 0 <= i < |past| ensures SAFE_MIN <= past[i].at {
      assert past[i] == history[i];
    }
    WhereConcat(past, future, InWindow(SAFE_MIN, from));
    WhereAll(past, InWindow(SAFE_MIN, from));
    WhereNone(future, InWindow(SAFE_MIN, from));
  }

  lemma {:induction false} WhereAll(events: seq<UsageEvent>, keep: UsageEvent -> bool)
    requires forall i :: 0 <= i < |events| ==> keep(events[i])
    ensures Where(events, keep) == events
  {
    if events != [] {
      WhereAll(events[1..], keep);
      assert events == [events[0]] + events[1..];
    }
  }

  lemma {:induction false} WhereNone(events: seq<UsageEvent>, keep: UsageEvent -> bool)
    requires forall i :: 0 <= i < |events| ==> !keep(events[i])
    ensures Where(events, keep) == []
  {
    if events != [] {
      WhereNone(events[1..], keep);
    }
  }

  /** The running state a period opens with. */
  function RunningBefore(history: seq<UsageEvent>, from: int): bool {
    EndsInStart(Where(history, (e: UsageEvent) => e.at < from))
  }

  lemma RunningBeforeIs(history: seq<UsageEvent>, past: seq<UsageEvent>, rest: seq<UsageEvent>, from: int)
    requires history == past + rest
    requires forall i :: 0 <= i < |past| ==> past[i].at < from
    requires forall i :: 0 <= i < |rest| ==> from <= rest[i].at
    ensures RunningBefore(history, from) == EndsInStart(past)
  {
    var before := (e: UsageEvent) => e.at < from;
    WhereConcat(past, rest, before);
    WhereAll(past, before);
    WhereNone(rest, before);
  }

  /** Every tick accounted for, whatever the log looks like: what is billed plus what
      repeated starts wipe out is what was running plus what a stray stop makes the code guess. */
  lemma UsageAccounting(history: seq<UsageEvent>, from: int, until: int)
    requires Sorted(history) && Since2000(history) && from <= until
    ensures var events, running := Window(history, from, until), RunningBefore(history, from);
            Usage(history, from, until, 1) + Overwritten(running, from, events)
            == RunningTicks(history, from, until) + Guessed(running, from, events)
  {
    var past, future := WindowSplits(history, from, until);
    var events := Window(history, from, until);
    var running := EndsInStart(past);
    assert RunningBefore(history, from) == running by {
      BetweenAll(events, from, until);
      RunningBeforeIs(history, past, events + future, from);
    }
    TicksAreGaps(past, events, future, from, until);
    BilledPlusOverwritten(running, from, events, until);
    if events == [] {
      EmptyWindow(history, past, future, from, until);
    } else {
      OpeningGuess(running, from, events, until);
    }
  }

  lemma EmptyWindow(history: seq<UsageEvent>, past: seq<UsageEvent>, future: seq<UsageEvent>, from: int, until: int)
    requires history == past + ([] + future) && Since2000(history) && Window(history, from, until) == []
    requires forall i :: 0 <= i < |past| ==> past[i].at < from
    requires forall i :: 0 <= i < |future| ==> until < future[i].at
    requires from <= until
    ensures Usage(history, from, until, 1) == if EndsInStart(past) then until - from else 0
  {
    assert [] + future == future;
    PriorHistory(history, past, future, from);
  }

  // What assuming an open start at `from` changes: nothing but the guess.
  lemma OpeningGuess(running: bool, from: int, events: seq<UsageEvent>, until: int)
    requires events != [] && Between(events, from, until)
    ensures Billed(events, if FirstIsStop(events) then Some(from) else None, until, 1)
            == Billed(events, if running then Some(from) else None, until, 1) + Guessed(running, from, events)
  {
  }

  // ---- Alternating logs ----

  lemma {:induction false} AlternatingOverwritesNothing(running: bool, since: int, events: seq<UsageEvent>)
    requires forall i :: 0 <= i < |events| ==> (events[i].kind == Start <==> (i % 2 == 0) == !running)
    ensures Overwritten(running, since, events) == 0 && Guessed(running, since, events) == 0
    decreases events
  {
    if events != [] {
      assert events[0].kind == Start <==> !running;
      forall i | 0 <= i < |events[1..]|
        ensures events[1..][i].kind == Start <==> (i % 2 == 0) == running
      {
        assert events[1..][i] == events[i + 1];
      }
      AlternatingOverwritesNothing(!running, events[0].at, events[1..]);
    }
  }

  lemma AlternatingWindow(history: seq<UsageEvent>, from: int, until: int)
    requires Alternating(history) && Sorted(history) && from <= until
    ensures var events, running := Window(history, from, until), RunningBefore(history, from);
            Overwritten(running, from, events) == 0 && Guessed(running, from, events) == 0
  {
    var past, future := WindowSplits(history, from, until);
    var events := Window(history, from, until);
    assert RunningBefore(history, from) == EndsInStart(past) by {
      BetweenAll(events, from, until);
      RunningBeforeIs(history, past, events + future, from);
    }
    AlternatingSlice(history, past, events, future);
    AlternatingOverwritesNothing(EndsInStart(past), from, events);
  }

  lemma AlternatingSlice(
    history: seq<UsageEvent>, past: seq<UsageEvent>, events: seq<UsageEvent>, future: seq<UsageEvent>)
    requires Alternating(history) && history == past + (events + future)
    ensures forall i :: 0 <= i < |events| ==> (events[i].kind == Start <==> (i % 2 == 0) == !EndsInStart(past))
  {
    forall i | 0 <= i < |events|
      ensures events[i].kind == Start <==> (i % 2 == 0) == !EndsInStart(past)
    {
      assert events[i] == history[|past| + i];
      if past != [] {
        assert past[|past| - 1] == history[|past| - 1];
      }
    }
  }

  /** On an alternating log the billed ticks are exactly the running ticks. */
  lemma UsageIsRunningTime(history: seq<UsageEvent>, from: int, until: int)
    requires Sorted(history) && Since2000(history) && Alternating(history) && from <= until
    ensures Usage(history, from, until, 1) == RunningTicks(history, from, until)
  {
    UsageAccounting(history, from, until);
    AlternatingWindow(history, from, until);
  }

  // ---- Whole seconds and fractions ----

  /** How many stretches the fold adds up. */
  function Intervals(events: seq<UsageEvent>, open: Option<int>): nat {
    if events == [] then (if open.Some? then 1 else 0)
    else if events[0].kind == Start then Intervals(events[1..], Some(events[0].at))
    else (if open.Some? then 1 else 0) + Intervals(events[1..], None)
  }

  function CountedIntervals(history: seq<UsageEvent>, from: int, until: int): nat {
    var events := Window(history, from, until);
    if events == [] then 1
    else Intervals(events, if FirstIsStop(events) then Some(from) else None)
  }

  lemma TruncationStep(ticks: int, unit: int)
    requires 0 < unit && 0 <= ticks
    ensures 0 <= ticks - Truncate(ticks, unit) * unit <= unit - 1
  {
    assert ticks == ticks / unit * unit + ticks % unit;
  }

  lemma {:induction false} TruncationLoss(events: seq<UsageEvent>, open: Option<int>, since: int, until: int, unit: int)
    requires 0 < unit && since <= until
    requires Between(events, since, until) && (open.Some? ==> open.value <= since)
    ensures 0 <= Billed(events, open, until, 1) - Billed(events, open, until, unit) * unit
              <= Intervals(events, open) * (unit - 1)
    decreases events
  {
    if events == [] {
      if open.Some? {
        TruncationStep(until - open.value, unit);
      }
    } else {
      var next := if events[0].kind == Start then Some(events[0].at) else None;
      TruncationLoss(events[1..], next, events[0].at, until, unit);
      if events[0].kind == Stop && open.Some? {
        var gap := events[0].at - open.value;
        TruncationStep(gap, unit);
        Distribute(Truncate(gap, unit), Billed(events[1..], next, until, unit), unit);
        Distribute(1, Intervals(events[1..], next), unit - 1);
      }
    }
  }

  lemma {:induction false} BilledBounds(events: seq<UsageEvent>, open: Option<int>, since: int, until: int)
    requires since <= until
    requires Between(events, since, until) && (open.Some? ==> open.value == since)
    ensures 0 <= Billed(events, open, until, 1) <= until - since
    decreases events
  {
    if events != [] {
      BilledBounds(events[1..], if events[0].kind == Start then Some(events[0].at) else None, events[0].at, until);
    }
  }

  /** Every log, alternating or not, yields between nothing and the full period. */
  lemma UsageBounds(history: seq<UsageEvent>, from: int, until: int)
    requires Sorted(history) && from <= until
    ensures 0 <= Usage(history, from, until, TICKS_PER_SECOND) * TICKS_PER_SECOND
              <= Usage(history, from, until, 1) <= until - from
  {
    var past, future := WindowSplits(history, from, until);
    var events := Window(history, from, until);
    if events != [] {
      var open := if FirstIsStop(events) then Some(from) else None;
      BilledBounds(events, open, from, until);
      TruncationLoss(events, open, from, until, TICKS_PER_SECOND);
      BilledNonNegative(events, open, from, until, TICKS_PER_SECOND);
    }
  }

  lemma {:induction false} BilledNonNegative(events: seq<UsageEvent>, open: Option<int>, since: int, until: int, unit: int)
    requires 0 < unit && since <= until
    requires Between(events, since, until) && (open.Some? ==> open.value <= since)
    ensures 0 <= Billed(events, open, until, unit)
    decreases events
  {
    if events != [] {
      BilledNonNegative(
        events[1..], if events[0].kind == Start then Some(events[0].at) else None, events[0].at, until, unit);
    }
  }

  /** With fractions of a second the bill never exceeds the true running time and falls short
      of it by less than one second for each interval counted. */
  lemma SubSecondShortfall(history: seq<UsageEvent>, from: int, until: int)
    requires Sorted(history) && Since2000(history) && Alternating(history) && from <= until
    ensures var running, billed := RunningTicks(history, from, until),
                                   Usage(history, from, until, TICKS_PER_SECOND) * TICKS_PER_SECOND;
            billed <= running <= billed + CountedIntervals(history, from, until) * (TICKS_PER_SECOND - 1)
  {
    UsageIsRunningTime(history, from, until);
    var past, future := WindowSplits(history, from, until);
    var events := Window(history, from, until);
    if events != [] {
      var open := if FirstIsStop(events) then Some(from) else None;
      TruncationLoss(events, open, from, until, TICKS_PER_SECOND);
    }
  }

  lemma WholeStretch(start: int, end: int)
    requires start <= end && start % TICKS_PER_SECOND == 0 && end % TICKS_PER_SECOND == 0
    ensures Truncate(end - start, TICKS_PER_SECOND) * TICKS_PER_SECOND == end - start
  {
  }

  lemma {:induction false} WholeSecondsLoseNothing(events: seq<UsageEvent>, open: Option<int>, since: int, until: int)
    requires since <= until && Between(events, since, until) && (open.Some? ==> open.value <= since)
    requires WholeSeconds(events) && until % TICKS_PER_SECOND == 0
    requires open.Some? ==> open.value % TICKS_PER_SECOND == 0
    ensures Billed(events, open, until, 1) == Billed(events, open, until, TICKS_PER_SECOND) * TICKS_PER_SECOND
    decreases events
  {
    if events == [] {
      if open.Some? {
        WholeStretch(open.value, until);
      }
    } else {
      var next := if events[0].kind == Start then Some(events[0].at) else None;
      WholeSecondsLoseNothing(events[1..], next, events[0].at, until);
      if events[0].kind == Stop && open.Some? {
        WholeStretch(open.value, events[0].at);
      }
    }
  }

  lemma WholeSecondSlice(
    history: seq<UsageEvent>, past: seq<UsageEvent>, events: seq<UsageEvent>, future: seq<UsageEvent>)
    requires WholeSeconds(history) && history == past + (events + future)
    ensures WholeSeconds(events)
  {
    forall i | 0 <= i < |events| ensures events[i].at % TICKS_PER_SECOND == 0 {
      assert events[i] == history[|past| + i];
    }
  }

  /** On whole-second timestamps truncating each stretch loses nothing, whatever the log. */
  lemma WholeSecondsAreKept(history: seq<UsageEvent>, from: int, until: int)
    requires Sorted(history) && from <= until
    requires WholeSeconds(history) && from % TICKS_PER_SECOND == 0 && until % TICKS_PER_SECOND == 0
    ensures Usage(history, from, until, TICKS_PER_SECOND) * TICKS_PER_SECOND == Usage(history, from, until, 1)
  {
    WholeStretch(from, until);
    var past, future := WindowSplits(history, from, until);
    var events := Window(history, from, until);
    if events != [] {
      WholeSecondSlice(history, past, events, future);
      WholeSecondsLoseNothing(events, if FirstIsStop(events) then Some(from) else None, from, until);
    }
  }

  /** On whole-second timestamps the bill is the running time, to the second. */
  lemma WholeSecondUsageIsExact(history: seq<UsageEvent>, from: int, until: int)
    requires Sorted(history) && Since2000(history) && Alternating(history) && from <= until
    requires WholeSeconds(history) && from % TICKS_PER_SECOND == 0 && until % TICKS_PER_SECOND == 0
    ensures Usage(history, from, until, TICKS_PER_SECOND) * TICKS_PER_SECOND
            == RunningTicks(history, from, until)
  {
    UsageIsRunningTime(history, from, until);
    WholeSecondsAreKept(history, from, until);
  }

  // ---- A stop of what is stopped ----

  lemma {:induction false} BilledIdleStop(events: seq<UsageEvent>, stop: UsageEvent, open: Option<int>, until: int, unit: int)
    requires 0 < unit && events != [] && events[|events| - 1].kind == Stop && stop.kind == Stop
    ensures Billed(events + [stop], open, until, unit) == Billed(events, open, until, unit)
  {
    var longer := events + [stop];
    assert longer[0] == events[0] && longer[1..] == events[1..] + [stop];
    var next := if events[0].kind == Start then Some(events[0].at) else None;
    if |events| == 1 {
      assert events[1..] + [stop] == [stop] && [stop][1..] == [] && events[1..] == [];
      assert Billed([stop], None, until, unit) == 0;
    } else {
      BilledIdleStop(events[1..], stop, next, until, unit);
    }
  }

  // The last event of the history closes every window that reaches it.
  lemma WindowKeepsLast(history: seq<UsageEvent>, from: int, until: int)
    requires Sorted(history) && history != [] && history[|history| - 1].at <= until
    requires Window(history, from, until) != []
    ensures var events := Window(history, from, until); events[|events| - 1] == history[|history| - 1]
  {
    var n := |history| - 1;
    var w := Window(history, from, until);
    assert history == history[..n] + [history[n]];
    WhereConcat(history[..n], [history[n]], InWindow(from, until));
    WhereMember(history, InWindow(from, until), w[0]);
    var i :| 0 <= i < |history| && history[i] == w[0];
    SortedAt(history, i, n);
  }

  lemma {:induction false} SortedAt(events: seq<UsageEvent>, i: nat, j: nat)
    requires Sorted(events) && i <= j < |events|
    ensures events[i].at <= events[j].at
  {
    if i == 0 {
      SortedFromHead(events, events[0].at);
    } else {
      SortedAt(events[1..], i - 1, j - 1);
    }
  }

  lemma WindowAppend(history: seq<UsageEvent>, event: UsageEvent, from: int, until: int)
    ensures Window(history + [event], from, until)
            == Window(history, from, until) + if from <= event.at <= until then [event] else []
  {
    WhereConcat(history, [event], InWindow(from, until));
  }

  // A history that is over by `t` and ends stopped says "not running" of every later moment.
  lemma StoppedBefore(history: seq<UsageEvent>, t: int, from: int)
    requires Since2000(history) && !EndsInStart(history) && t <= from
    requires forall i :: 0 <= i < |history| ==> history[i].at <= t
    ensures Window(history, SAFE_MIN, from) == history
  {
    WhereAll(history, InWindow(SAFE_MIN, from));
  }

  lemma IdleStopOpensPeriod(history: seq<UsageEvent>, stop: UsageEvent, from: int, until: int, unit: int)
    requires 0 < unit && Since2000(history) && !EndsInStart(history) && stop.kind == Stop && from <= stop.at <= until
    requires Window(history, from, until) == [] && forall i :: 0 <= i < |history| ==> history[i].at <= stop.at
    ensures Usage(history, from, until, unit) == 0
    ensures Usage(history + [stop], from, until, unit) == Truncate(stop.at - from, unit)
  {
    WindowAppend(history, stop, from, until);
    NothingSince(history, from, until);
    StoppedBefore(history, from, from);
    hide Window, Truncate;
    assert [] + [stop] == [stop] && [stop][1..] == [];
    assert Billed([], None, until, unit) == 0;
  }

  lemma IdleStopLaterInPeriod(history: seq<UsageEvent>, stop: UsageEvent, from: int, until: int, unit: int)
    requires 0 < unit && Sorted(history) && !EndsInStart(history) && stop.kind == Stop && from <= stop.at <= until
    requires Window(history, from, until) != [] && forall i :: 0 <= i < |history| ==> history[i].at <= stop.at
    ensures Usage(history + [stop], from, until, unit) == Usage(history, from, until, unit)
  {
    var w := Window(history, from, until);
    assert history != [];
    WindowAppend(history, stop, from, until);
    WindowKeepsLast(history, from, until);
    BilledIdleStop(w, stop, if FirstIsStop(w) then Some(from) else None, until, unit);
    hide Window, Truncate, Billed;
  }

  lemma IdleStopElsewhere(history: seq<UsageEvent>, stop: UsageEvent, from: int, until: int, unit: int)
    requires 0 < unit && from <= until && Since2000(history) && !EndsInStart(history) && stop.kind == Stop
    requires !(from <= stop.at <= until) && forall i :: 0 <= i < |history| ==> history[i].at <= stop.at
    ensures Usage(history + [stop], from, until, unit) == Usage(history, from, until, unit)
  {
    WindowAppend(history, stop, from, until);
    WindowAppend(history, stop, SAFE_MIN, from);
    if stop.at < from {
      StoppedBefore(history, stop.at, from);
    }
    hide Window, Truncate, Billed;
    assert Window(history, from, until) + [] == Window(history, from, until);
    assert Window(history, SAFE_MIN, from) + [] == Window(history, SAFE_MIN, from);
  }

  /** Stopping or deleting what is already stopped, at `t`, adds `t - from` to the bill of a period if
      and only if `t` lies in the period and no earlier event does; otherwise it adds nothing. */
  lemma IdleStopAdds(history: seq<UsageEvent>, stop: UsageEvent, from: int, until: int, unit: int)
    requires 0 < unit && from <= until && Sorted(history) && Since2000(history)
    requires !EndsInStart(history) && stop.kind == Stop
    requires forall i :: 0 <= i < |history| ==> history[i].at <= stop.at
    ensures Usage(history + [stop], from, until, unit)
            == Usage(history, from, until, unit)
               + if from <= stop.at <= until && Window(history, from, until) == [] then Truncate(stop.at - from, unit)
                 else 0
  {
    hide *;
    if !(from <= stop.at <= until) {
      IdleStopElsewhere(history, stop, from, until, unit);
    } else if Window(history, from, until) == [] {
      IdleStopOpensPeriod(history, stop, from, until, unit);
    } else {
      IdleStopLaterInPeriod(history, stop, from, until, unit);
    }
  }

  lemma NothingSince(history: seq<UsageEvent>, from: int, until: int)
    requires Window(history, from, until) == []
    requires forall i :: 0 <= i < |history| ==> history[i].at <= until
    ensures forall i :: 0 <= i < |history| ==> history[i].at <= from
  {
    forall i | 0 <= i < |history| ensures history[i].at <= from {
      WhereMember(history, InWindow(from, until), history[i]);
    }
  }

  // ---- Conservation over time ----

  /** Splitting a period anywhere, even at an event both halves see, neither loses nor
      bills twice a single second. */
  lemma UsageIsAdditive(history: seq<UsageEvent>, a: int, b: int, c: int)
    requires Sorted(history) && Since2000(history) && Alternating(history) && a <= b <= c
    requires WholeSeconds(history)
    requires a % TICKS_PER_SECOND == 0 && b % TICKS_PER_SECOND == 0 && c % TICKS_PER_SECOND == 0
    ensures Usage(history, a, b, TICKS_PER_SECOND) + Usage(history, b, c, TICKS_PER_SECOND)
            == Usage(history, a, c, TICKS_PER_SECOND)
  {
    WholeSecondUsageIsExact(history, a, b);
    WholeSecondUsageIsExact(history, b, c);
    WholeSecondUsageIsExact(history, a, c);
    RunningTicksAdd(history, a, b, c);
  }
}
