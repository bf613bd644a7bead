/**
 Monthly invoices, the live estimate and the webhook that settles invoices, as functions over
 the billing tables, and which users a monthly run invoices.
 */
module InvoiceModel {
  import opened Wrappers
  import opened UsageLog
  import opened UsageHours
  import opened MonthlyPeriods
  import opened Pricing

  datatype PeriodStatus = Pending | Invoiced | Paid | Failed

  datatype BillingPeriod = BillingPeriod(
    id: nat,
    user: nat,
    from: int,
    until: int,
    totalCents: int,
    stripeInvoice: Option<nat>,
    status: PeriodStatus)

  datatype LineItem = LineItem(period: nat, database: nat, plan: Option<nat>, seconds: int, cents: int)

  /** The two tables invoicing writes, and the next primary key. */
  datatype Ledger = Ledger(periods: seq<BillingPeriod>, items: seq<LineItem>, next: nat)

  /** What invoicing reads. */
  datatype Catalog = Catalog(events: seq<UsageEvent>, plans: map<nat, PlanTemplate>)

  datatype Database = Database(id: nat, user: nat, name: string, plan: Option<nat>)

  // ---- SELECT DISTINCT database_id, database_name, plan_template_id ----

  datatype Entry = Entry(database: nat, name: string, plan: Option<nat>)

  function EntryOf(event: UsageEvent): Entry {
    Entry(event.database, event.name, event.plan)
  }

  function Distinct(events: seq<UsageEvent>): seq<Entry> {
    if events == [] then []
    else
      var earlier := Distinct(events[..|events| - 1]);
      var entry := EntryOf(events[|events| - 1]);
      if entry in earlier then earlier else earlier + [entry]
  }

  function UsageEntries(catalog: Catalog, user: nat, from: int, until: int): seq<Entry> {
    Distinct(Where(catalog.events, (e: UsageEvent) => e.user == user && from <= e.at <= until))
  }

  /** DISTINCT: every (database, name, plan) an event carries, once. */
  lemma {:induction false} DistinctEntries(events: seq<UsageEvent>)
    ensures forall i, j :: 0 <= i < j < |Distinct(events)| ==> Distinct(events)[i] != Distinct(events)[j]
    ensures forall entry :: entry in Distinct(events) <==> exists i :: 0 <= i < |events| && EntryOf(events[i]) == entry
  {
    if events != [] {
      var n := |events| - 1;
      var init := events[..n];
      DistinctEntries(init);
      forall entry
        ensures entry in Distinct(events) <==> exists i :: 0 <= i < |events| && EntryOf(events[i]) == entry
      {
        if i :| 0 <= i < |events| && EntryOf(events[i]) == entry {
          assert i < n ==> EntryOf(init[i]) == entry;
        }
        if i :| 0 <= i < n && EntryOf(init[i]) == entry {
          assert EntryOf(events[i]) == entry;
        }
      }
    }
  }

  ghost predicate SensiblePlans(catalog: Catalog) {
    forall p :: p in catalog.plans ==> Sensible(catalog.plans[p])
  }

  // ---- Invoice lines ----

  function Seconds(catalog: Catalog, database: nat, from: int, until: int): int {
    Usage(HistoryOf(catalog.events, database), from, until, TICKS_PER_SECOND)
  }

  lemma SecondsNotNegative(catalog: Catalog, database: nat, from: int, until: int)
    requires from <= until
    ensures 0 <= Seconds(catalog, database, from, until)
  {
    QueryIsWindowOfHistory(catalog.events, database, from, until);
    UsageBounds(HistoryOf(catalog.events, database), from, until);
  }

  /** What `seconds` on a plan cost; no plan, or one that is not on file, costs nothing. */
  function Price(catalog: Catalog, plan: Option<nat>, seconds: int): int {
    if plan.Some? && plan.value in catalog.plans then Charge(seconds, catalog.plans[plan.value]) else 0
  }

  /** So many cents cover the exact price of the usage, or the plan's month. */
  predicate Covers(plans: map<nat, PlanTemplate>, plan: Option<nat>, seconds: int, cents: int) {
    if plan.Some? && plan.value in plans
    then seconds * plans[plan.value].hourlyCents <= cents * 3600 || plans[plan.value].monthlyCents <= cents
    else 0 <= cents
  }

  /** The least number of cents that do. */
  ghost predicate LeastCover(plans: map<nat, PlanTemplate>, plan: Option<nat>, seconds: int, cents: int) {
    forall c: int :: Covers(plans, plan, seconds, c) <==> cents <= c
  }

  lemma PriceIsLeastCover(catalog: Catalog, plan: Option<nat>, seconds: int)
    requires SensiblePlans(catalog) && 0 <= seconds
    ensures LeastCover(catalog.plans, plan, seconds, Price(catalog, plan, seconds))
  {
    forall c: int ensures Covers(catalog.plans, plan, seconds, c) <==> Price(catalog, plan, seconds) <= c {
      if plan.Some? && plan.value in catalog.plans {
        ChargeIsLeastCover(seconds, catalog.plans[plan.value], c);
      }
    }
  }

  /** The lines of an invoice: one for each entry with usage. */
  function Lines(catalog: Catalog, entries: seq<Entry>, period: nat, from: int, until: int): seq<LineItem> {
    if entries == [] then []
    else
      var n := |entries| - 1;
      var seconds := Seconds(catalog, entries[n].database, from, until);
      Lines(catalog, entries[..n], period, from, until)
      + if seconds <= 0 then []
        else [LineItem(period, entries[n].database, entries[n].plan, seconds,
                       Price(catalog, entries[n].plan, seconds))]
  }

  lemma LinesStep(catalog: Catalog, entries: seq<Entry>, i: nat, period: nat, from: int, until: int)
    requires i < |entries|
    ensures var e := entries[i];
            var seconds := Seconds(catalog, e.database, from, until);
            Lines(catalog, entries[..i + 1], period, from, until)
            == Lines(catalog, entries[..i], period, from, until)
               + if seconds <= 0 then []
                 else [LineItem(period, e.database, e.plan, seconds, Price(catalog, e.plan, seconds))]
  {
    assert entries[..i + 1][..i] == entries[..i];
  }

  /** The entries whose database has usage. */
  function Used(catalog: Catalog, entries: seq<Entry>, from: int, until: int): seq<Entry> {
    if entries == [] then []
    else
      var n := |entries| - 1;
      Used(catalog, entries[..n], from, until)
      + if 0 < Seconds(catalog, entries[n].database, from, until) then [entries[n]] else []
  }

  /** The line bills an entry: its database's usage in the period, at the least that covers it. */
  ghost predicate Bills(catalog: Catalog, line: LineItem, entry: Entry, period: nat, from: int, until: int) {
    && line.period == period && line.database == entry.database && line.plan == entry.plan
    && line.seconds == Seconds(catalog, entry.database, from, until)
    && LeastCover(catalog.plans, entry.plan, line.seconds, line.cents)
  }

  /** The lines, one by one in order, bill exactly the entries with usage. */
  ghost predicate BillsUsed(
    catalog: Catalog, lines: seq<LineItem>, entries: seq<Entry>, period: nat, from: int, until: int)
  {
    var used := Used(catalog, entries, from, until);
    |lines| == |used| && forall i :: 0 <= i < |used| ==> Bills(catalog, lines[i], used[i], period, from, until)
  }

  lemma {:induction false} LinesBillWhatWasUsed(
    catalog: Catalog, entries: seq<Entry>, period: nat, from: int, until: int)
    requires SensiblePlans(catalog)
    ensures BillsUsed(catalog, Lines(catalog, entries, period, from, until), entries, period, from, until)
  {
    if entries != [] {
      var n := |entries| - 1;
      var e, seconds := entries[n], Seconds(catalog, entries[n].database, from, until);
      LinesBillWhatWasUsed(catalog, entries[..n], period, from, until);
      if 0 < seconds {
        PriceIsLeastCover(catalog, e.plan, seconds);
        assert Bills(catalog, LineItem(period, e.database, e.plan, seconds, Price(catalog, e.plan, seconds)),
                     e, period, from, until);
      }
      hide Seconds, Price, LeastCover;
    }
  }

  lemma {:induction false} UsedIff(catalog: Catalog, entries: seq<Entry>, from: int, until: int)
    ensures forall entry :: entry in Used(catalog, entries, from, until)
                            <==> entry in entries && 0 < Seconds(catalog, entry.database, from, until)
  {
    hide Seconds;
    if entries != [] {
      var n := |entries| - 1;
      UsedIff(catalog, entries[..n], from, until);
      assert entries == entries[..n] + [entries[n]];
    }
  }

  function TotalCents(items: seq<LineItem>): int {
    if items == [] then 0 else TotalCents(items[..|items| - 1]) + items[|items| - 1].cents
  }

  lemma NoLines(catalog: Catalog, period: nat, from: int, until: int)
    ensures Lines(catalog, [], period, from, until) == [] && TotalCents([]) == 0
  {
  }

  lemma TotalAppend(items: seq<LineItem>, item: LineItem)
    ensures TotalCents(items + [item]) == TotalCents(items) + item.cents
  {
    assert (items + [item])[..|items|] == items;
  }

  predicate HasPeriod(ledger: Ledger, user: nat, from: int) {
    exists i :: 0 <= i < |ledger.periods| && ledger.periods[i].user == user && ledger.periods[i].from == from
  }

  function NewPeriod(ledger: Ledger, lines: seq<LineItem>, user: nat, from: int, until: int): BillingPeriod {
    BillingPeriod(ledger.next, user, from, until, TotalCents(lines), None, Pending)
  }

  /** The tables after invoicing one user: unchanged when the period exists already or there is
      nothing to bill. */
  function InvoiceUser(ledger: Ledger, catalog: Catalog, user: nat, from: int, until: int): Ledger {
    var lines := Lines(catalog, UsageEntries(catalog, user, from, until), ledger.next, from, until);
    if HasPeriod(ledger, user, from) || lines == [] then ledger
    else Ledger(ledger.periods + [NewPeriod(ledger, lines, user, from, until)],
                ledger.items + lines, ledger.next + 1)
  }

  // UPDATE billing_periods SET status = ..., stripe_invoice_id = COALESCE(..., ...) WHERE id = ...
  function WithStatus(
    periods: seq<BillingPeriod>, id: nat, status: PeriodStatus, invoice: Option<nat>): seq<BillingPeriod>
  {
    if periods == [] then []
    else
      var last := periods[|periods| - 1];
      WithStatus(periods[..|periods| - 1], id, status, invoice)
      + [if last.id != id then last
         else last.(status := status, stripeInvoice := if invoice.Some? then invoice else last.stripeInvoice)]
  }

  /** Handing a fresh period to the payment provider; `reply` is the invoice id it answers with,
      None when there is no key, no customer or the call fails. A zero total is not sent. */
  function SendInvoice(ledger: Ledger, period: BillingPeriod, reply: Option<nat>): Ledger {
    if reply.None? || period.totalCents == 0 then ledger
    else ledger.(periods := WithStatus(ledger.periods, period.id, Invoiced, reply))
  }

  /** One user's share of the monthly run. */
  function BillUser(ledger: Ledger, catalog: Catalog, user: nat, from: int, until: int, reply: Option<nat>): Ledger {
    var after := InvoiceUser(ledger, catalog, user, from, until);
    if after == ledger then ledger
    else SendInvoice(after, after.periods[|after.periods| - 1], reply)
  }

  function Reply(stripe: map<nat, nat>, user: nat): Option<nat> {
    if user in stripe then Some(stripe[user]) else None
  }

  function BillUsers(
    ledger: Ledger, catalog: Catalog, users: seq<nat>, from: int, until: int, stripe: map<nat, nat>): Ledger
  {
    if users == [] then ledger
    else
      var n := |users| - 1;
      BillUser(BillUsers(ledger, catalog, users[..n], from, until, stripe),
               catalog, users[n], from, until, Reply(stripe, users[n]))
  }

  lemma NoUsers(ledger: Ledger, catalog: Catalog, from: int, until: int, stripe: map<nat, nat>)
    ensures BillUsers(ledger, catalog, [], from, until, stripe) == ledger
  {
  }

  lemma BillUsersStep(
    ledger: Ledger, catalog: Catalog, users: seq<nat>, i: nat, from: int, until: int, stripe: map<nat, nat>)
    requires i < |users|
    ensures BillUsers(ledger, catalog, users[..i + 1], from, until, stripe)
            == BillUser(BillUsers(ledger, catalog, users[..i], from, until, stripe),
                        catalog, users[i], from, until, Reply(stripe, users[i]))
  {
    assert users[..i + 1][..i] == users[..i];
  }

  datatype WebhookEvent = InvoicePaid | PaymentFailed | OtherEvent

  // UPDATE billing_periods SET status = ... WHERE stripe_invoice_id = ...
  function Settle(periods: seq<BillingPeriod>, invoice: nat, status: PeriodStatus): seq<BillingPeriod> {
    if periods == [] then []
    else
      var last := periods[|periods| - 1];
      Settle(periods[..|periods| - 1], invoice, status)
      + [if last.stripeInvoice == Some(invoice) then last.(status := status) else last]
  }

  function Webhook(ledger: Ledger, event: WebhookEvent, invoice: nat): Ledger {
    match event
    case InvoicePaid => ledger.(periods := Settle(ledger.periods, invoice, Paid))
    case PaymentFailed => ledger.(periods := Settle(ledger.periods, invoice, Failed))
    case OtherEvent => ledger
  }

  // ---- The live estimate ----

  /** Cents estimated for the databases that still exist, each on its current plan. */
  function EstimateOfExisting(catalog: Catalog, databases: seq<Database>, from: int, until: int): int {
    if databases == [] then 0
    else
      var d := databases[|databases| - 1];
      EstimateOfExisting(catalog, databases[..|databases| - 1], from, until)
      + Price(catalog, d.plan, Seconds(catalog, d.id, from, until))
  }

  /** Cents estimated for entries whose database is gone. */
  function EstimateOfDeleted(catalog: Catalog, entries: seq<Entry>, seen: set<nat>, from: int, until: int): int {
    if entries == [] then 0
    else
      var e := entries[|entries| - 1];
      EstimateOfDeleted(catalog, entries[..|entries| - 1], seen, from, until)
      + if e.database in seen then 0 else Price(catalog, e.plan, Seconds(catalog, e.database, from, until))
  }

  function Ids(databases: seq<Database>): set<nat> {
    set i | 0 <= i < |databases| :: databases[i].id
  }

  // SELECT ... FROM database_instances WHERE user_id = ...
  function OwnedBy(databases: seq<Database>, user: nat): seq<Database> {
    if databases == [] then []
    else
      OwnedBy(databases[..|databases| - 1], user)
      + if databases[|databases| - 1].user == user then [databases[|databases| - 1]] else []
  }

  function Estimate(catalog: Catalog, databases: seq<Database>, user: nat, from: int, until: int): int {
    var own := OwnedBy(databases, user);
    EstimateOfExisting(catalog, own, from, until)
    + EstimateOfDeleted(catalog, UsageEntries(catalog, user, from, until), Ids(own), from, until)
  }

  function InvoiceTotal(catalog: Catalog, user: nat, from: int, until: int): int {
    TotalCents(Lines(catalog, UsageEntries(catalog, user, from, until), 0, from, until))
  }

  lemma IdsAppend(databases: seq<Database>, d: Database)
    ensures Ids(databases + [d]) == Ids(databases) + {d.id}
  {
    var longer := databases + [d];
    assert longer[|databases|] == d;
    forall x ensures x in Ids(longer) <==> x in Ids(databases) + {d.id} {
      if x in Ids(databases) {
        var i :| 0 <= i < |databases| && databases[i].id == x;
        assert longer[i].id == x;
      }
    }
  }

  /** The update reaches the rows with that id and no others; a missing invoice id keeps the stored one. */
  lemma {:induction false} WithStatusRows(
    periods: seq<BillingPeriod>, id: nat, status: PeriodStatus, invoice: Option<nat>)
    ensures |WithStatus(periods, id, status, invoice)| == |periods|
    ensures forall i :: 0 <= i < |periods| ==>
      WithStatus(periods, id, status, invoice)[i]
      == if periods[i].id != id then periods[i]
         else periods[i].(status := status,
                          stripeInvoice := if invoice.Some? then invoice else periods[i].stripeInvoice)
  {
    if periods != [] {
      WithStatusRows(periods[..|periods| - 1], id, status, invoice);
    }
  }

  /** The update reaches the rows with that invoice id and no others. */
  lemma {:induction false} SettleRows(periods: seq<BillingPeriod>, invoice: nat, status: PeriodStatus)
    ensures |Settle(periods, invoice, status)| == |periods|
    ensures forall i :: 0 <= i < |periods| ==>
      Settle(periods, invoice, status)[i]
      == if periods[i].stripeInvoice == Some(invoice) then periods[i].(status := status) else periods[i]
  {
    if periods != [] {
      SettleRows(periods[..|periods| - 1], invoice, status);
    }
  }

  // ---- Payments ----

  /** What the events say about one invoice in the end: the last paid or failed event about it decides. */
  function LastWord(events: seq<(WebhookEvent, nat)>, invoice: nat): Option<PeriodStatus> {
    if events == [] then None
    else
      var (event, about) := events[|events| - 1];
      if about == invoice && event == InvoicePaid then Some(Paid)
      else if about == invoice && event == PaymentFailed then Some(Failed)
      else LastWord(events[..|events| - 1], invoice)
  }

  function WebhookAll(ledger: Ledger, events: seq<(WebhookEvent, nat)>): Ledger {
    if events == [] then ledger
    else
      var (event, invoice) := events[|events| - 1];
      Webhook(WebhookAll(ledger, events[..|events| - 1]), event, invoice)
  }

  /** Over any sequence of payment events about any invoices every period ends with the status that the last
      paid or failed event about its invoice says, and with its own where there was none; nothing else
      of any period or line changes. */
  lemma {:induction false} LastEventDecides(ledger: Ledger, events: seq<(WebhookEvent, nat)>)
    ensures var after := WebhookAll(ledger, events);
            && after == ledger.(periods := after.periods) && |after.periods| == |ledger.periods|
            && forall i :: 0 <= i < |ledger.periods| ==>
                 after.periods[i]
                 == (var row := ledger.periods[i];
                     if row.stripeInvoice.Some? && LastWord(events, row.stripeInvoice.value).Some?
                     then row.(status := LastWord(events, row.stripeInvoice.value).value) else row)
  {
    if events != [] {
      var n := |events| - 1;
      var before := WebhookAll(ledger, events[..n]);
      LastEventDecides(ledger, events[..n]);
      SettleRows(before.periods, events[n].1, Paid);
      SettleRows(before.periods, events[n].1, Failed);
    }
  }

  /** The same invoices, up to payment status. */
  ghost predicate SameInvoices(a: Ledger, b: Ledger) {
    && a.items == b.items && a.next == b.next && |a.periods| == |b.periods|
    && forall i :: 0 <= i < |a.periods| ==>
         a.periods[i] == b.periods[i].(status := a.periods[i].status, stripeInvoice := a.periods[i].stripeInvoice)
  }

  lemma SendKeepsInvoices(ledger: Ledger, period: BillingPeriod, reply: Option<nat>)
    ensures SameInvoices(SendInvoice(ledger, period, reply), ledger)
  {
    WithStatusRows(ledger.periods, period.id, Invoiced, reply);
  }

  lemma WebhookKeepsInvoices(ledger: Ledger, event: WebhookEvent, invoice: nat)
    ensures SameInvoices(Webhook(ledger, event, invoice), ledger)
  {
    SettleRows(ledger.periods, invoice, Paid);
    SettleRows(ledger.periods, invoice, Failed);
  }

  // ---- Whom a run invoices ----

  /** There is something to invoice. */
  predicate Eligible(catalog: Catalog, user: nat, from: int, until: int) {
    Lines(catalog, UsageEntries(catalog, user, from, until), 0, from, until) != []
  }

  lemma {:induction false} EligibilityIgnoresPeriodId(
    catalog: Catalog, entries: seq<Entry>, p: nat, q: nat, from: int, until: int)
    ensures |Lines(catalog, entries, p, from, until)| == |Lines(catalog, entries, q, from, until)|
  {
    if entries != [] {
      EligibilityIgnoresPeriodId(catalog, entries[..|entries| - 1], p, q, from, until);
    }
  }

  /** One of the user's events falls into the period, of a database with usage in it. */
  predicate Billable(catalog: Catalog, user: nat, from: int, until: int) {
    exists i :: 0 <= i < |catalog.events| && catalog.events[i].user == user && from <= catalog.events[i].at <= until
                && 0 < Seconds(catalog, catalog.events[i].database, from, until)
  }

  lemma {:induction false} KeptIff(events: seq<UsageEvent>, keep: UsageEvent -> bool)
    ensures forall e :: e in Where(events, keep) <==> e in events && keep(e)
  {
    if events != [] {
      KeptIff(events[1..], keep);
    }
  }

  lemma EntriesIff(catalog: Catalog, user: nat, from: int, until: int)
    ensures forall entry :: entry in UsageEntries(catalog, user, from, until)
                            <==> exists i :: 0 <= i < |catalog.events| && catalog.events[i].user == user
                                             && from <= catalog.events[i].at <= until && EntryOf(catalog.events[i]) == entry
  {
    var keep := (e: UsageEvent) => e.user == user && from <= e.at <= until;
    var kept := Where(catalog.events, keep);
    KeptIff(catalog.events, keep);
    DistinctEntries(kept);
    assert UsageEntries(catalog, user, from, until) == Distinct(kept);
    forall entry
      ensures entry in Distinct(kept)
              <==> exists i :: 0 <= i < |catalog.events| && catalog.events[i].user == user
                               && from <= catalog.events[i].at <= until && EntryOf(catalog.events[i]) == entry
    {
      if k :| 0 <= k < |kept| && EntryOf(kept[k]) == entry {
        assert kept[k] in catalog.events && keep(kept[k]);
        var i :| 0 <= i < |catalog.events| && catalog.events[i] == kept[k];
      }
      if i :| 0 <= i < |catalog.events| && catalog.events[i].user == user && from <= catalog.events[i].at <= until
              && EntryOf(catalog.events[i]) == entry {
        assert catalog.events[i] in kept;
        var k :| 0 <= k < |kept| && kept[k] == catalog.events[i];
        assert EntryOf(kept[k]) == entry;
      }
    }
  }

  lemma {:induction false} SomeUsedIff(catalog: Catalog, entries: seq<Entry>, period: nat, from: int, until: int)
    ensures Lines(catalog, entries, period, from, until) == [] <==> Used(catalog, entries, from, until) == []
  {
    hide Seconds, Price;
    if entries != [] {
      SomeUsedIff(catalog, entries[..|entries| - 1], period, from, until);
    }
  }

  /** There is something to invoice exactly when the user has a database with usage and an event in the
      period. */
  lemma EligibleIff(catalog: Catalog, user: nat, from: int, until: int)
    ensures Eligible(catalog, user, from, until) <==> Billable(catalog, user, from, until)
  {
    var entries := UsageEntries(catalog, user, from, until);
    SomeUsedIff(catalog, entries, 0, from, until);
    UsedIff(catalog, entries, from, until);
    EntriesIff(catalog, user, from, until);
    hide Seconds, Lines, UsageEntries, Used;
    if Used(catalog, entries, from, until) != [] {
      var entry := Used(catalog, entries, from, until)[0];
      assert entry in entries;
    }
    if Billable(catalog, user, from, until) {
      var i :| 0 <= i < |catalog.events| && catalog.events[i].user == user && from <= catalog.events[i].at <= until
               && 0 < Seconds(catalog, catalog.events[i].database, from, until);
      assert EntryOf(catalog.events[i]) in entries;
      assert EntryOf(catalog.events[i]) in Used(catalog, entries, from, until);
    }
  }

  /** Whom a run has to invoice, spelled out. */
  lemma UnsettledIff(ledger: Ledger, catalog: Catalog, users: seq<nat>, from: int, until: int, user: nat)
    ensures user in Unsettled(ledger, catalog, users, from, until)
            <==> && user in users && Billable(catalog, user, from, until)
                 && !exists i :: 0 <= i < |ledger.periods| && ledger.periods[i].user == user && ledger.periods[i].from == from
  {
    EligibleIff(catalog, user, from, until);
    hide Eligible, Billable;
  }

  predicate Settled(ledger: Ledger, catalog: Catalog, user: nat, from: int, until: int) {
    HasPeriod(ledger, user, from) || !Eligible(catalog, user, from, until)
  }

  lemma HasPeriodSurvives(before: Ledger, after: Ledger, user: nat, from: int)
    requires HasPeriod(before, user, from) && |before.periods| <= |after.periods|
    requires forall i :: 0 <= i < |before.periods| ==>
      after.periods[i].user == before.periods[i].user && after.periods[i].from == before.periods[i].from
    ensures HasPeriod(after, user, from)
  {
    var i :| 0 <= i < |before.periods| && before.periods[i].user == user && before.periods[i].from == from;
    assert after.periods[i].user == user && after.periods[i].from == from;
  }

  lemma BillingSettles(
    ledger: Ledger, catalog: Catalog, user: nat, other: nat, from: int, until: int, reply: Option<nat>)
    ensures var after := BillUser(ledger, catalog, user, from, until, reply);
            && Settled(after, catalog, user, from, until)
            && (Settled(ledger, catalog, other, from, until) ==> Settled(after, catalog, other, from, until))
            && (Settled(ledger, catalog, user, from, until) ==> after == ledger)
  {
    var entries := UsageEntries(catalog, user, from, until);
    EligibilityIgnoresPeriodId(catalog, entries, 0, ledger.next, from, until);
    var invoiced := InvoiceUser(ledger, catalog, user, from, until);
    if invoiced != ledger {
      var period := invoiced.periods[|ledger.periods|];
      var after := SendInvoice(invoiced, period, reply);
      SendKeepsInvoices(invoiced, period, reply);
      assert invoiced.periods[|ledger.periods|].user == user && invoiced.periods[|ledger.periods|].from == from;
      assert HasPeriod(invoiced, user, from);
      HasPeriodSurvives(invoiced, after, user, from);
      if HasPeriod(ledger, other, from) {
        HasPeriodSurvives(ledger, after, other, from);
      }
    }
  }

  lemma {:induction false} RunSettlesEveryUser(
    ledger: Ledger, catalog: Catalog, users: seq<nat>, from: int, until: int, stripe: map<nat, nat>)
    ensures forall user :: user in users ==>
      Settled(BillUsers(ledger, catalog, users, from, until, stripe), catalog, user, from, until)
  {
    if users != [] {
      var n := |users| - 1;
      var before := BillUsers(ledger, catalog, users[..n], from, until, stripe);
      RunSettlesEveryUser(ledger, catalog, users[..n], from, until, stripe);
      forall user | user in users
        ensures Settled(BillUsers(ledger, catalog, users, from, until, stripe), catalog, user, from, until)
      {
        assert user == users[n] || user in users[..n];
        BillingSettles(before, catalog, users[n], user, from, until, Reply(stripe, users[n]));
      }
    }
  }

  lemma {:induction false} SettledUsersAreSkipped(
    ledger: Ledger, catalog: Catalog, users: seq<nat>, from: int, until: int, stripe: map<nat, nat>)
    requires forall user :: user in users ==> Settled(ledger, catalog, user, from, until)
    ensures BillUsers(ledger, catalog, users, from, until, stripe) == ledger
  {
    if users != [] {
      var n := |users| - 1;
      SettledUsersAreSkipped(ledger, catalog, users[..n], from, until, stripe);
      BillingSettles(ledger, catalog, users[n], users[n], from, until, Reply(stripe, users[n]));
    }
  }

  /** The users a run has to invoice: there is something to bill, and no period for the month yet. */
  function Unsettled(ledger: Ledger, catalog: Catalog, users: seq<nat>, from: int, until: int): set<nat> {
    set u | u in users && !Settled(ledger, catalog, u, from, until)
  }

  // One invoice, spelled out.
  lemma InvoicedOrNot(ledger: Ledger, catalog: Catalog, user: nat, from: int, until: int)
    ensures InvoiceUser(ledger, catalog, user, from, until) == ledger
            <==> (exists i :: 0 <= i < |ledger.periods| && ledger.periods[i].user == user && ledger.periods[i].from == from)
                 || !Billable(catalog, user, from, until)
    ensures Lines(catalog, UsageEntries(catalog, user, from, until), ledger.next, from, until) == []
            <==> !Billable(catalog, user, from, until)
  {
    EligibleIff(catalog, user, from, until);
    EligibilityIgnoresPeriodId(catalog, UsageEntries(catalog, user, from, until), 0, ledger.next, from, until);
    hide Lines, UsageEntries, Billable;
  }

  lemma PeriodThere(ledger: Ledger, user: nat, from: int)
    ensures HasPeriod(ledger, user, from)
            <==> exists i :: 0 <= i < |ledger.periods| && ledger.periods[i].user == user && ledger.periods[i].from == from
  {
  }

  /** After a run every listed user with something to bill has an invoice for the month. */
  lemma EveryoneIsInvoiced(
    ledger: Ledger, catalog: Catalog, users: seq<nat>, from: int, until: int, stripe: map<nat, nat>, user: nat)
    requires user in users && Billable(catalog, user, from, until)
    ensures HasPeriod(BillUsers(ledger, catalog, users, from, until, stripe), user, from)
  {
    RunSettlesEveryUser(ledger, catalog, users, from, until, stripe);
    EligibleIff(catalog, user, from, until);
  }

  // One turn adds a period exactly for an unsettled user, and settles nobody else.
  lemma TurnInvoicesIff(
    ledger: Ledger, catalog: Catalog, user: nat, other: nat, from: int, until: int, reply: Option<nat>)
    ensures var after := BillUser(ledger, catalog, user, from, until, reply);
            && |after.periods| == |ledger.periods| + (if Settled(ledger, catalog, user, from, until) then 0 else 1)
            && (other != user ==>
                  (Settled(after, catalog, other, from, until) <==> Settled(ledger, catalog, other, from, until)))
  {
    BillingSettles(ledger, catalog, user, other, from, until, reply);
    EligibilityIgnoresPeriodId(catalog, UsageEntries(catalog, user, from, until), 0, ledger.next, from, until);
    hide UsageEntries, Lines;
    var invoiced := InvoiceUser(ledger, catalog, user, from, until);
    if invoiced != ledger {
      var period := invoiced.periods[|ledger.periods|];
      SendKeepsInvoices(invoiced, period, reply);
      var after := SendInvoice(invoiced, period, reply);
      if other != user && HasPeriod(after, other, from) {
        var i :| 0 <= i < |after.periods| && after.periods[i].user == other && after.periods[i].from == from;
        assert invoiced.periods[i].user == other && invoiced.periods[i].from == from;
        assert i < |ledger.periods| && ledger.periods[i] == invoiced.periods[i];
      }
    }
  }

  lemma {:induction false} SettledAfter(
    ledger: Ledger, catalog: Catalog, users: seq<nat>, from: int, until: int, stripe: map<nat, nat>, user: nat)
    ensures Settled(BillUsers(ledger, catalog, users, from, until, stripe), catalog, user, from, until)
            <==> user in users || Settled(ledger, catalog, user, from, until)
  {
    hide *;
    if users == [] {
      NobodyToBill(ledger, catalog, from, until, stripe);
    } else {
      var n := |users| - 1;
      SettledAfter(ledger, catalog, users[..n], from, until, stripe, user);
      var before := BillUsers(ledger, catalog, users[..n], from, until, stripe);
      BillUsersStep(ledger, catalog, users, n, from, until, stripe);
      TurnInvoicesIff(before, catalog, users[n], user, from, until, Reply(stripe, users[n]));
      BillingSettles(before, catalog, users[n], user, from, until, Reply(stripe, users[n]));
      assert users[..n + 1] == users;
      assert user in users <==> user in users[..n] || user == users[n];
    }
  }

  lemma UnsettledGrows(ledger: Ledger, catalog: Catalog, users: seq<nat>, user: nat, from: int, until: int)
    ensures |Unsettled(ledger, catalog, users + [user], from, until)|
            == |Unsettled(ledger, catalog, users, from, until)|
               + if user in users || Settled(ledger, catalog, user, from, until) then 0 else 1
  {
    hide Settled;
    assert Unsettled(ledger, catalog, users + [user], from, until)
           == Unsettled(ledger, catalog, users, from, until)
              + if Settled(ledger, catalog, user, from, until) then {} else {user};
  }

  lemma NobodyToBill(ledger: Ledger, catalog: Catalog, from: int, until: int, stripe: map<nat, nat>)
    ensures BillUsers(ledger, catalog, [], from, until, stripe) == ledger
    ensures Unsettled(ledger, catalog, [], from, until) == {}
  {
    hide Settled;
  }

  lemma {:induction false} RunCountsUnsettled(
    ledger: Ledger, catalog: Catalog, users: seq<nat>, from: int, until: int, stripe: map<nat, nat>)
    ensures |BillUsers(ledger, catalog, users, from, until, stripe).periods|
            == |ledger.periods| + |Unsettled(ledger, catalog, users, from, until)|
  {
    hide *;
    if users == [] {
      NobodyToBill(ledger, catalog, from, until, stripe);
    } else {
      var n := |users| - 1;
      RunCountsUnsettled(ledger, catalog, users[..n], from, until, stripe);
      SettledAfter(ledger, catalog, users[..n], from, until, stripe, users[n]);
      BillUsersStep(ledger, catalog, users, n, from, until, stripe);
      TurnInvoicesIff(BillUsers(ledger, catalog, users[..n], from, until, stripe), catalog, users[n], users[n], from, until,
                      Reply(stripe, users[n]));
      UnsettledGrows(ledger, catalog, users[..n], users[n], from, until);
      assert users == users[..n] + [users[n]] == users[..n + 1];
    }
  }

  /** A run adds one period for each user it has to invoice and none for anyone else, so it changes the
      tables if and only if there is such a user. */
  lemma RunInvoicesExactly(
    ledger: Ledger, catalog: Catalog, users: seq<nat>, from: int, until: int, stripe: map<nat, nat>)
    ensures var after := BillUsers(ledger, catalog, users, from, until, stripe);
            && |after.periods| == |ledger.periods| + |Unsettled(ledger, catalog, users, from, until)|
            && (after == ledger <==> Unsettled(ledger, catalog, users, from, until) == {})
  {
    RunCountsUnsettled(ledger, catalog, users, from, until, stripe);
    if Unsettled(ledger, catalog, users, from, until) == {} {
      forall user | user in users ensures Settled(ledger, catalog, user, from, until) {
        assert user !in Unsettled(ledger, catalog, users, from, until);
      }
      hide BillUsers, Settled, Unsettled;
      SettledUsersAreSkipped(ledger, catalog, users, from, until, stripe);
    }
  }
}
