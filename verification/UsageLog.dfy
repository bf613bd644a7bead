/**
 The usage-event table and the two readings of it: the windowed, time-ordered query
 the billing code issues, and the question the money depends on, "was the database
 running at instant t?".

 Instants are integer clock ticks (nanoseconds) since 1970.
 */
module UsageLog {
  import opened Wrappers

  const TICKS_PER_SECOND: int := 1_000_000_000

  // 2000-01-01T00:00:00Z, the lower end of the "all earlier history" query.
  const SAFE_MIN: int := 946_684_800 * TICKS_PER_SECOND

  // The table's CHECK constraint admits no third kind.
  datatype EventKind = Start | Stop

  datatype UsageEvent = UsageEvent(
    database: nat,
    kind: EventKind,
    at: int,
    user: nat,
    name: string,
    plan: Option<nat>)

  ghost predicate Sorted(events: seq<UsageEvent>) {
    |events| < 2 || (events[0].at <= events[1].at && Sorted(events[1..]))
  }

  lemma {:induction false} SortedFromHead(events: seq<UsageEvent>, t: int)
    requires Sorted(events) && (events != [] ==> t <= events[0].at)
    ensures forall i :: 0 <= i < |events| ==> t <= events[i].at
  {
    if events != [] {
      SortedFromHead(events[1..], t);
      forall i | 0 <= i < |events| ensures t <= events[i].at {
        assert i == 0 || events[i] == events[1..][i - 1];
      }
    }
  }

  // ---- SELECT ... WHERE ... ORDER BY recorded_at ----

  function Where(table: seq<UsageEvent>, keep: UsageEvent -> bool): seq<UsageEvent> {
    if table == [] then []
    else (if keep(table[0]) then [table[0]] else []) + Where(table[1..], keep)
  }

  function Insert(event: UsageEvent, events: seq<UsageEvent>): seq<UsageEvent> {
    if events == [] || event.at <= events[0].at then [event] + events
    else [events[0]] + Insert(event, events[1..])
  }

  function SortByTime(events: seq<UsageEvent>): seq<UsageEvent> {
    if events == [] then [] else Insert(events[0], SortByTime(events[1..]))
  }

  function InWindow(from: int, until: int): UsageEvent -> bool {
    (e: UsageEvent) => from <= e.at <= until
  }

  function OfDatabase(database: nat): UsageEvent -> bool {
    (e: UsageEvent) => e.database == database
  }

  /** The query of the billing repository: both ends of the window are included. */
  function GetUsageEvents(table: seq<UsageEvent>, database: nat, from: int, until: int): seq<UsageEvent> {
    SortByTime(Where(table, (e: UsageEvent) => e.database == database && from <= e.at <= until))
  }

  /** A database's whole history in time order. */
  function HistoryOf(table: seq<UsageEvent>, database: nat): seq<UsageEvent> {
    SortByTime(Where(table, OfDatabase(database)))
  }

  function Window(history: seq<UsageEvent>, from: int, until: int): seq<UsageEvent> {
    Where(history, InWindow(from, until))
  }

  lemma {:induction false} InsertAdds(event: UsageEvent, events: seq<UsageEvent>)
    ensures multiset(Insert(event, events)) == multiset(events) + multiset{event}
  {
    if events == [] || event.at <= events[0].at {
    } else {
      InsertAdds(event, events[1..]);
      assert events == [events[0]] + events[1..];
    }
  }

  lemma {:induction false} InsertKeepsSorted(event: UsageEvent, events: seq<UsageEvent>)
    requires Sorted(events)
    ensures Sorted(Insert(event, events))
    ensures Insert(event, events)[0] == event || (events != [] && Insert(event, events)[0] == events[0])
  {
    if events == [] || event.at <= events[0].at {
      assert ([event] + events)[1..] == events;
    } else {
      InsertKeepsSorted(event, events[1..]);
      var rest := Insert(event, events[1..]);
      assert ([events[0]] + rest)[1..] == rest;
    }
  }

  /** ORDER BY returns the selected rows, each as often as it occurs, earliest first. */
  lemma {:induction false} SortIsSortedPermutation(events: seq<UsageEvent>)
    ensures Sorted(SortByTime(events))
    ensures multiset(SortByTime(events)) == multiset(events)
  {
    if events == [] {
    } else {
      SortIsSortedPermutation(events[1..]);
      InsertKeepsSorted(events[0], SortByTime(events[1..]));
      InsertAdds(events[0], SortByTime(events[1..]));
      assert events == [events[0]] + events[1..];
    }
  }

  lemma {:induction false} WhereConcat(a: seq<UsageEvent>, b: seq<UsageEvent>, keep: UsageEvent -> bool)
    ensures Where(a + b, keep) == Where(a, keep) + Where(b, keep)
  {
    if a == [] {
      assert a + b == b;
    } else {
      WhereConcat(a[1..], b, keep);
      assert (a + b)[0] == a[0] && (a + b)[1..] == a[1..] + b;
      var first := if keep(a[0]) then [a[0]] else [];
      assert Where(a, keep) == first + Where(a[1..], keep);
      assert first + (Where(a[1..], keep) + Where(b, keep)) == Where(a, keep) + Where(b, keep);
    }
  }

  lemma {:induction false} WhereMember(events: seq<UsageEvent>, keep: UsageEvent -> bool, x: UsageEvent)
    ensures x in Where(events, keep) <==> x in events && keep(x)
  {
    if events != [] {
      WhereMember(events[1..], keep, x);
    }
  }

  lemma {:induction false} WhereWhere(
    events: seq<UsageEvent>, p: UsageEvent -> bool, q: UsageEvent -> bool, both: UsageEvent -> bool)
    requires forall e :: both(e) <==> p(e) && q(e)
    ensures Where(Where(events, p), q) == Where(events, both)
  {
    if events != [] {
      WhereWhere(events[1..], p, q, both);
      WhereConcat(if p(events[0]) then [events[0]] else [], Where(events[1..], p), q);
    }
  }

  lemma {:induction false} InsertWhere(event: UsageEvent, events: seq<UsageEvent>, keep: UsageEvent -> bool)
    requires Sorted(events)
    ensures Where(Insert(event, events), keep)
            == if keep(event) then Insert(event, Where(events, keep)) else Where(events, keep)
  {
    if events == [] || event.at <= events[0].at {
      assert ([event] + events)[1..] == events;
      if keep(event) {
        var kept := Where(events, keep);
        if kept != [] {
          SortedFromHead(events, event.at);
          WhereMember(events, keep, kept[0]);
        }
        assert Insert(event, kept) == [event] + kept;
      }
    } else {
      InsertWhere(event, events[1..], keep);
      var kept := Where(events[1..], keep);
      WhereConcat([events[0]], Insert(event, events[1..]), keep);
      WhereConcat([events[0]], events[1..], keep);
      assert events == [events[0]] + events[1..];
      if keep(event) && keep(events[0]) {
        assert Where(events, keep) == [events[0]] + kept;
        assert ([events[0]] + kept)[1..] == kept;
      } else if keep(events[0]) {
        assert Where(events, keep) == [events[0]] + kept;
      } else {
        assert Where(events, keep) == kept;
      }
    }
  }

  lemma {:induction false} SortWhere(events: seq<UsageEvent>, keep: UsageEvent -> bool)
    ensures SortByTime(Where(events, keep)) == Where(SortByTime(events), keep)
  {
    if events != [] {
      SortWhere(events[1..], keep);
      SortIsSortedPermutation(events[1..]);
      InsertWhere(events[0], SortByTime(events[1..]), keep);
      var kept := Where(events[1..], keep);
      if keep(events[0]) {
        assert Where(events, keep) == [events[0]] + kept;
        assert ([events[0]] + kept)[1..] == kept;
      } else {
        assert Where(events, keep) == kept;
      }
    }
  }

  lemma {:induction false} SortOfSorted(events: seq<UsageEvent>)
    requires Sorted(events)
    ensures SortByTime(events) == events
  {
    if events != [] {
      SortOfSorted(events[1..]);
    }
  }

  /** Filtering then ordering the table is the same as cutting a window out of the
      database's ordered history. */
  lemma QueryIsWindowOfHistory(table: seq<UsageEvent>, database: nat, from: int, until: int)
    ensures GetUsageEvents(table, database, from, until) == Window(HistoryOf(table, database), from, until)
    ensures Sorted(HistoryOf(table, database))
  {
    var both := (e: UsageEvent) => e.database == database && from <= e.at <= until;
    WhereWhere(table, OfDatabase(database), InWindow(from, until), both);
    SortWhere(Where(table, OfDatabase(database)), InWindow(from, until));
    SortIsSortedPermutation(Where(table, OfDatabase(database)));
  }

  // ---- What the log says about running time ----

  /** The last event at or before `t` is a start. */
  predicate RunningAt(history: seq<UsageEvent>, t: int) {
    history != [] &&
    var last := history[|history| - 1];
    if last.at <= t then last.kind == Start else RunningAt(history[..|history| - 1], t)
  }

  /** How many instants of [from, until) find the database running. */
  function RunningTicks(history: seq<UsageEvent>, from: int, until: int): nat
    decreases until - from
  {
    if until <= from then 0
    else RunningTicks(history, from, until - 1) + (if RunningAt(history, until - 1) then 1 else 0)
  }

  predicate EndsInStart(history: seq<UsageEvent>) {
    history != [] && history[|history| - 1].kind == Start
  }

  /** Starts and stops take turns, a start first. */
  ghost predicate Alternating(history: seq<UsageEvent>) {
    forall i :: 0 <= i < |history| ==> (history[i].kind == Start <==> i % 2 == 0)
  }

  ghost predicate WholeSeconds(history: seq<UsageEvent>) {
    forall i :: 0 <= i < |history| ==> history[i].at % TICKS_PER_SECOND == 0
  }

  /** No event precedes the year 2000 (recorded_at is the server's clock). */
  ghost predicate Since2000(history: seq<UsageEvent>) {
    forall i :: 0 <= i < |history| ==> SAFE_MIN <= history[i].at
  }

  lemma {:induction false} RunningTicksAdd(history: seq<UsageEvent>, a: int, b: int, c: int)
    requires a <= b <= c
    ensures RunningTicks(history, a, b) + RunningTicks(history, b, c) == RunningTicks(history, a, c)
    decreases c - b
  {
    if b < c {
      RunningTicksAdd(history, a, b, c - 1);
    }
  }

  // With everything in `past` at or before t and everything in `future` after it,
  // only the end of `past` matters.
  lemma {:induction false} RunningBetween(past: seq<UsageEvent>, future: seq<UsageEvent>, t: int)
    requires forall i :: 0 <= i < |past| ==> past[i].at <= t
    requires forall i :: 0 <= i < |future| ==> t < future[i].at
    ensures RunningAt(past + future, t) <==> EndsInStart(past)
  {
    if future == [] {
      assert past + future == past;
    } else {
      var history := past + future;
      var cut := future[..|future| - 1];
      assert history[..|history| - 1] == past + cut;
      RunningBetween(past, cut, t);
    }
  }

  lemma {:induction false} RunningStretch(past: seq<UsageEvent>, future: seq<UsageEvent>, from: int, until: int)
    requires from <= until
    requires forall i :: 0 <= i < |past| ==> past[i].at <= from
    requires forall i :: 0 <= i < |future| ==> until <= future[i].at
    ensures RunningTicks(past + future, from, until) == (if EndsInStart(past) then until - from else 0)
    decreases until - from
  {
    if from < until {
      RunningStretch(past, future, from, until - 1);
      RunningBetween(past, future, until - 1);
    }
  }
}
