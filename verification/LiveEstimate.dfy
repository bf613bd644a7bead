/**
 The live estimate line by line: what it lists, at what price, and that its total is the sum of its
 lines.
 */
module LiveEstimate {
  import opened Wrappers
  import opened UsageLog
  import opened UsageHours
  import opened Pricing
  import opened InvoiceModel

  // ---- The estimate, line by line ----

  datatype UsageLine = UsageLine(database: nat, name: string, plan: Option<nat>, seconds: int, cents: int)

  function OnFile(catalog: Catalog, plan: Option<nat>): Option<nat> {
    if plan.Some? && plan.value in catalog.plans then plan else None
  }

  function UsageLineFor(
    catalog: Catalog, database: nat, name: string, plan: Option<nat>, from: int, until: int): UsageLine
  {
    UsageLine(database, name, OnFile(catalog, plan), Seconds(catalog, database, from, until),
              Price(catalog, plan, Seconds(catalog, database, from, until)))
  }

  function ExistingLines(catalog: Catalog, databases: seq<Database>, from: int, until: int): seq<UsageLine> {
    if databases == [] then []
    else
      var d := databases[|databases| - 1];
      ExistingLines(catalog, databases[..|databases| - 1], from, until)
      + [UsageLineFor(catalog, d.id, d.name, d.plan, from, until)]
  }

  function DeletedLines(
    catalog: Catalog, entries: seq<Entry>, seen: set<nat>, from: int, until: int): seq<UsageLine>
  {
    if entries == [] then []
    else
      var e := entries[|entries| - 1];
      DeletedLines(catalog, entries[..|entries| - 1], seen, from, until)
      + if e.database in seen then [] else [UsageLineFor(catalog, e.database, e.name, e.plan, from, until)]
  }

  function SumOfLines(lines: seq<UsageLine>): int {
    if lines == [] then 0 else SumOfLines(lines[..|lines| - 1]) + lines[|lines| - 1].cents
  }

  lemma SumAppend(lines: seq<UsageLine>, line: UsageLine)
    ensures SumOfLines(lines + [line]) == SumOfLines(lines) + line.cents
  {
    assert (lines + [line])[..|lines|] == lines;
  }

  lemma {:induction false} SumConcat(a: seq<UsageLine>, b: seq<UsageLine>)
    ensures SumOfLines(a + b) == SumOfLines(a) + SumOfLines(b)
  {
    if b == [] {
      assert a + b == a;
    } else {
      var n := |b| - 1;
      assert (a + b)[..|a| + n] == a + b[..n];
      SumConcat(a, b[..n]);
    }
  }

  lemma {:induction false} ExistingSum(catalog: Catalog, databases: seq<Database>, from: int, until: int)
    ensures SumOfLines(ExistingLines(catalog, databases, from, until))
            == EstimateOfExisting(catalog, databases, from, until)
  {
    hide Seconds, Price;
    if databases != [] {
      var n := |databases| - 1;
      var d := databases[n];
      ExistingSum(catalog, databases[..n], from, until);
      SumAppend(ExistingLines(catalog, databases[..n], from, until),
                UsageLineFor(catalog, d.id, d.name, d.plan, from, until));
    }
  }

  lemma {:induction false} DeletedSum(catalog: Catalog, entries: seq<Entry>, seen: set<nat>, from: int, until: int)
    ensures SumOfLines(DeletedLines(catalog, entries, seen, from, until))
            == EstimateOfDeleted(catalog, entries, seen, from, until)
  {
    hide Seconds, Price;
    if entries != [] {
      var n := |entries| - 1;
      var e := entries[n];
      var earlier := DeletedLines(catalog, entries[..n], seen, from, until);
      DeletedSum(catalog, entries[..n], seen, from, until);
      if e.database in seen {
        assert earlier + [] == earlier;
      } else {
        SumAppend(earlier, UsageLineFor(catalog, e.database, e.name, e.plan, from, until));
      }
    }
  }

  function EstimateLines(catalog: Catalog, databases: seq<Database>, user: nat, from: int, until: int): seq<UsageLine> {
    var own := OwnedBy(databases, user);
    ExistingLines(catalog, own, from, until)
    + DeletedLines(catalog, UsageEntries(catalog, user, from, until), Ids(own), from, until)
  }

  /** The estimate is the sum of its lines. */
  lemma EstimateIsSumOfLines(catalog: Catalog, databases: seq<Database>, user: nat, from: int, until: int)
    ensures SumOfLines(EstimateLines(catalog, databases, user, from, until))
            == Estimate(catalog, databases, user, from, until)
  {
    var own := OwnedBy(databases, user);
    var entries := UsageEntries(catalog, user, from, until);
    ExistingSum(catalog, own, from, until);
    DeletedSum(catalog, entries, Ids(own), from, until);
    SumConcat(ExistingLines(catalog, own, from, until), DeletedLines(catalog, entries, Ids(own), from, until));
  }

  // ---- What the estimate lists ----

  /** The line shows a database under a name and, if it is on file, a plan: its usage in the period, at the
      least that covers it. */
  ghost predicate Shows(
    catalog: Catalog, line: UsageLine, database: nat, name: string, plan: Option<nat>, from: int, until: int)
  {
    && line.database == database && line.name == name
    && line.plan == (if plan.Some? && plan.value in catalog.plans then plan else None)
    && line.seconds == Seconds(catalog, database, from, until)
    && LeastCover(catalog.plans, plan, line.seconds, line.cents)
  }

  lemma LineShows(catalog: Catalog, database: nat, name: string, plan: Option<nat>, from: int, until: int)
    requires SensiblePlans(catalog) && from <= until
    ensures Shows(catalog, UsageLineFor(catalog, database, name, plan, from, until), database, name, plan, from, until)
  {
    SecondsNotNegative(catalog, database, from, until);
    PriceIsLeastCover(catalog, plan, Seconds(catalog, database, from, until));
    hide Seconds, Price, LeastCover;
  }

  lemma {:induction false} OwnedByIff(databases: seq<Database>, user: nat)
    ensures forall d :: d in OwnedBy(databases, user) <==> d in databases && d.user == user
    ensures forall d: Database :: d.user == user ==> multiset(OwnedBy(databases, user))[d] == multiset(databases)[d]
  {
    if databases != [] {
      var n := |databases| - 1;
      OwnedByIff(databases[..n], user);
      assert databases == databases[..n] + [databases[n]];
    }
  }

  ghost predicate ShowsExisting(catalog: Catalog, line: UsageLine, d: Database, user: nat, from: int, until: int) {
    d.user == user && Shows(catalog, line, d.id, d.name, d.plan, from, until)
  }

  ghost predicate ShowsDeleted(
    catalog: Catalog, line: UsageLine, event: UsageEvent, databases: seq<Database>, user: nat, from: int, until: int)
  {
    && event.user == user && from <= event.at <= until
    && (forall d :: d in databases && d.user == user ==> d.id != event.database)
    && Shows(catalog, line, event.database, event.name, event.plan, from, until)
  }

  lemma {:induction false} ExistingShown(catalog: Catalog, own: seq<Database>, from: int, until: int)
    requires SensiblePlans(catalog) && from <= until
    ensures var lines := ExistingLines(catalog, own, from, until);
            |lines| == |own|
            && forall i :: 0 <= i < |own| ==> Shows(catalog, lines[i], own[i].id, own[i].name, own[i].plan, from, until)
  {
    if own != [] {
      var d := own[|own| - 1];
      ExistingShown(catalog, own[..|own| - 1], from, until);
      LineShows(catalog, d.id, d.name, d.plan, from, until);
      hide Shows, UsageLineFor;
    }
  }

  /** The entries whose database is gone. */
  function Gone(entries: seq<Entry>, seen: set<nat>): seq<Entry> {
    if entries == [] then []
    else
      Gone(entries[..|entries| - 1], seen)
      + if entries[|entries| - 1].database in seen then [] else [entries[|entries| - 1]]
  }

  lemma {:induction false} GoneIff(entries: seq<Entry>, seen: set<nat>)
    ensures forall e: Entry :: e in Gone(entries, seen) <==> e in entries && e.database !in seen
  {
    if entries != [] {
      var n := |entries| - 1;
      GoneIff(entries[..n], seen);
      assert entries == entries[..n] + [entries[n]];
    }
  }

  lemma {:induction false} DeletedShown(catalog: Catalog, entries: seq<Entry>, seen: set<nat>, from: int, until: int)
    requires SensiblePlans(catalog) && from <= until
    ensures var lines, gone := DeletedLines(catalog, entries, seen, from, until), Gone(entries, seen);
            |lines| == |gone|
            && forall i :: 0 <= i < |gone| ==>
                 Shows(catalog, lines[i], gone[i].database, gone[i].name, gone[i].plan, from, until)
  {
    if entries != [] {
      var last := entries[|entries| - 1];
      DeletedShown(catalog, entries[..|entries| - 1], seen, from, until);
      LineShows(catalog, last.database, last.name, last.plan, from, until);
      hide Shows, UsageLineFor;
    }
  }

  /** Every line of the estimate shows one of the user's databases on its current plan, or an event of the
      period whose database the user no longer has; and all of those are shown. */
  ghost predicate Complete(
    catalog: Catalog, databases: seq<Database>, user: nat, from: int, until: int, lines: seq<UsageLine>)
  {
    && (forall line :: line in lines ==>
          || (exists d :: d in databases && ShowsExisting(catalog, line, d, user, from, until))
          || (exists e :: e in catalog.events && ShowsDeleted(catalog, line, e, databases, user, from, until)))
    && (forall d :: d in databases && d.user == user ==>
          exists line :: line in lines && ShowsExisting(catalog, line, d, user, from, until))
    && (forall e :: e in catalog.events && e.user == user && from <= e.at <= until
                    && (forall d :: d in databases && d.user == user ==> d.id != e.database) ==>
          exists line :: line in lines && ShowsDeleted(catalog, line, e, databases, user, from, until))
  }

  lemma IdsIff(databases: seq<Database>, id: nat)
    ensures id in Ids(databases) <==> exists d :: d in databases && d.id == id
  {
    if d :| d in databases && d.id == id {
      var i :| 0 <= i < |databases| && databases[i] == d;
      assert databases[i].id == id;
    }
  }

  lemma DeletedShowsEvent(
    catalog: Catalog, databases: seq<Database>, user: nat, from: int, until: int, line: UsageLine, entry: Entry)
    requires entry in UsageEntries(catalog, user, from, until) && entry.database !in Ids(OwnedBy(databases, user))
    requires Shows(catalog, line, entry.database, entry.name, entry.plan, from, until)
    ensures exists e :: e in catalog.events && ShowsDeleted(catalog, line, e, databases, user, from, until)
  {
    EntriesIff(catalog, user, from, until);
    SeenIff(databases, user);
    hide Shows, OwnedBy, UsageEntries, Ids;
    var i :| 0 <= i < |catalog.events| && catalog.events[i].user == user && from <= catalog.events[i].at <= until
             && EntryOf(catalog.events[i]) == entry;
    assert catalog.events[i] in catalog.events
           && ShowsDeleted(catalog, line, catalog.events[i], databases, user, from, until);
  }

  lemma LinesShowSomething(catalog: Catalog, databases: seq<Database>, user: nat, from: int, until: int, line: UsageLine)
    requires SensiblePlans(catalog) && from <= until && line in EstimateLines(catalog, databases, user, from, until)
    ensures (exists d :: d in databases && ShowsExisting(catalog, line, d, user, from, until))
            || (exists e :: e in catalog.events && ShowsDeleted(catalog, line, e, databases, user, from, until))
  {
    var own, entries := OwnedBy(databases, user), UsageEntries(catalog, user, from, until);
    var existing, gone := ExistingLines(catalog, own, from, until), DeletedLines(catalog, entries, Ids(own), from, until);
    assert line in existing || line in gone;
    hide EstimateLines, SensiblePlans;
    if line in existing {
      OwnedByIff(databases, user);
      ExistingShown(catalog, own, from, until);
      hide Shows, OwnedBy, UsageEntries, ExistingLines, DeletedLines, Ids;
      var i :| 0 <= i < |existing| && existing[i] == line;
      assert own[i] in own && ShowsExisting(catalog, line, own[i], user, from, until);
    } else {
      DeletedShown(catalog, entries, Ids(own), from, until);
      GoneIff(entries, Ids(own));
      hide Shows, OwnedBy, UsageEntries, ExistingLines, DeletedLines, Ids, Gone, ShowsExisting, ShowsDeleted;
      var i :| 0 <= i < |gone| && gone[i] == line;
      var entry := Gone(entries, Ids(own))[i];
      assert entry in Gone(entries, Ids(own));
      DeletedShowsEvent(catalog, databases, user, from, until, line, entry);
    }
  }

  lemma SeenIff(databases: seq<Database>, user: nat)
    ensures forall id :: id in Ids(OwnedBy(databases, user))
                         <==> exists d: Database :: d in databases && d.user == user && d.id == id
  {
    OwnedByIff(databases, user);
    forall id ensures id in Ids(OwnedBy(databases, user))
                      <==> exists d: Database :: d in databases && d.user == user && d.id == id
    {
      IdsIff(OwnedBy(databases, user), id);
    }
  }

  lemma OwnIsShown(catalog: Catalog, databases: seq<Database>, user: nat, from: int, until: int, d: Database)
    requires SensiblePlans(catalog) && from <= until && d in databases && d.user == user
    ensures exists line :: line in EstimateLines(catalog, databases, user, from, until)
                           && ShowsExisting(catalog, line, d, user, from, until)
  {
    var own := OwnedBy(databases, user);
    var existing := ExistingLines(catalog, own, from, until);
    OwnedByIff(databases, user);
    ExistingShown(catalog, own, from, until);
    var i :| 0 <= i < |own| && own[i] == d;
    assert existing[i] in EstimateLines(catalog, databases, user, from, until);
    hide Shows;
    assert ShowsExisting(catalog, existing[i], d, user, from, until);
  }

  lemma GoneIsShown(catalog: Catalog, databases: seq<Database>, user: nat, from: int, until: int, e: UsageEvent)
    requires SensiblePlans(catalog) && from <= until && e in catalog.events && e.user == user && from <= e.at <= until
    requires forall d :: d in databases && d.user == user ==> d.id != e.database
    ensures exists line :: line in EstimateLines(catalog, databases, user, from, until)
                           && ShowsDeleted(catalog, line, e, databases, user, from, until)
  {
    var own, entries := OwnedBy(databases, user), UsageEntries(catalog, user, from, until);
    var gone, lines := Gone(entries, Ids(own)), DeletedLines(catalog, entries, Ids(own), from, until);
    assert forall line :: line in lines ==> line in EstimateLines(catalog, databases, user, from, until);
    EventIsGone(catalog, databases, user, from, until, e);
    DeletedShown(catalog, entries, Ids(own), from, until);
    hide Shows, OwnedBy, UsageEntries, DeletedLines, EstimateLines, Ids, Gone;
    var i :| 0 <= i < |gone| && gone[i] == EntryOf(e);
    assert lines[i] in lines && ShowsDeleted(catalog, lines[i], e, databases, user, from, until);
  }

  lemma EventIsGone(catalog: Catalog, databases: seq<Database>, user: nat, from: int, until: int, e: UsageEvent)
    requires e in catalog.events && e.user == user && from <= e.at <= until
    requires forall d :: d in databases && d.user == user ==> d.id != e.database
    ensures EntryOf(e) in Gone(UsageEntries(catalog, user, from, until), Ids(OwnedBy(databases, user)))
  {
    EntriesIff(catalog, user, from, until);
    SeenIff(databases, user);
    GoneIff(UsageEntries(catalog, user, from, until), Ids(OwnedBy(databases, user)));
    hide OwnedBy, UsageEntries, Ids, Gone;
    var i :| 0 <= i < |catalog.events| && catalog.events[i] == e;
    assert EntryOf(e) in UsageEntries(catalog, user, from, until);
  }

  lemma EstimateIsComplete(catalog: Catalog, databases: seq<Database>, user: nat, from: int, until: int)
    requires SensiblePlans(catalog) && from <= until
    ensures Complete(catalog, databases, user, from, until, EstimateLines(catalog, databases, user, from, until))
  {
    var lines := EstimateLines(catalog, databases, user, from, until);
    hide EstimateLines, ShowsExisting, ShowsDeleted;
    forall line | line in lines
      ensures (exists d :: d in databases && ShowsExisting(catalog, line, d, user, from, until))
              || (exists e :: e in catalog.events && ShowsDeleted(catalog, line, e, databases, user, from, until))
    {
      LinesShowSomething(catalog, databases, user, from, until, line);
    }
    forall d | d in databases && d.user == user
      ensures exists line :: line in lines && ShowsExisting(catalog, line, d, user, from, until)
    {
      OwnIsShown(catalog, databases, user, from, until, d);
    }
    forall e | e in catalog.events && e.user == user && from <= e.at <= until
               && (forall d :: d in databases && d.user == user ==> d.id != e.database)
      ensures exists line :: line in lines && ShowsDeleted(catalog, line, e, databases, user, from, until)
    {
      GoneIsShown(catalog, databases, user, from, until, e);
    }
  }
}
