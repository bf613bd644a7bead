/**
 What every sequence of monthly runs, webhooks and recorded events keeps of the billing
 tables, and how the invoice compares with the live estimate.
 */
module InvoiceProperties {
  import opened Wrappers
  import opened UsageLog
  import opened UsageHours
  import opened MonthlyPeriods
  import opened Pricing
  import opened InvoiceModel

  // ---- Sums over the line-item table ----

  /** The amounts filed under one billing period. */
  function TotalOf(items: seq<LineItem>, period: nat): int {
    if items == [] then 0
    else
      var n := |items| - 1;
      TotalOf(items[..n], period) + if items[n].period == period then items[n].cents else 0
  }

  function MonthlyPrice(plans: map<nat, PlanTemplate>, plan: Option<nat>): int {
    if plan.Some? && plan.value in plans then plans[plan.value].monthlyCents else 0
  }

  /** The monthly prices of the plans listed under one billing period. */
  function CapOf(items: seq<LineItem>, plans: map<nat, PlanTemplate>, period: nat): int {
    if items == [] then 0
    else
      var n := |items| - 1;
      CapOf(items[..n], plans, period)
      + if items[n].period == period then MonthlyPrice(plans, items[n].plan) else 0
  }

  lemma {:induction false} TotalOfConcat(a: seq<LineItem>, b: seq<LineItem>, period: nat)
    ensures TotalOf(a + b, period) == TotalOf(a, period) + TotalOf(b, period)
  {
    if b == [] {
      assert a + b == a;
    } else {
      var n := |b| - 1;
      assert (a + b)[..|a| + n] == a + b[..n];
      TotalOfConcat(a, b[..n], period);
    }
  }

  lemma {:induction false} CapOfConcat(a: seq<LineItem>, b: seq<LineItem>, plans: map<nat, PlanTemplate>, period: nat)
    ensures CapOf(a + b, plans, period) == CapOf(a, plans, period) + CapOf(b, plans, period)
  {
    if b == [] {
      assert a + b == a;
    } else {
      var n := |b| - 1;
      assert (a + b)[..|a| + n] == a + b[..n];
      CapOfConcat(a, b[..n], plans, period);
    }
  }

  lemma {:induction false} NothingFiled(items: seq<LineItem>, plans: map<nat, PlanTemplate>, period: nat)
    requires forall i :: 0 <= i < |items| ==> items[i].period != period
    ensures TotalOf(items, period) == 0 && CapOf(items, plans, period) == 0
  {
    if items != [] {
      NothingFiled(items[..|items| - 1], plans, period);
    }
  }

  lemma {:induction false} AllFiled(items: seq<LineItem>, period: nat)
    requires forall i :: 0 <= i < |items| ==> items[i].period == period
    ensures TotalOf(items, period) == TotalCents(items)
  {
    if items != [] {
      AllFiled(items[..|items| - 1], period);
    }
  }

  lemma {:induction false} LinesAreFiled(catalog: Catalog, entries: seq<Entry>, period: nat, from: int, until: int)
    ensures forall i :: 0 <= i < |Lines(catalog, entries, period, from, until)| ==>
      Lines(catalog, entries, period, from, until)[i].period == period
  {
    if entries != [] {
      LinesAreFiled(catalog, entries[..|entries| - 1], period, from, until);
    }
  }

  // ---- Sound tables ----

  /** One period per user and month, and every total the sum of its line items. */
  ghost predicate Sound(ledger: Ledger) {
    && (forall i :: 0 <= i < |ledger.periods| ==> ledger.periods[i].id < ledger.next)
    && (forall i :: 0 <= i < |ledger.items| ==> ledger.items[i].period < ledger.next)
    && (forall i, j :: 0 <= i < j < |ledger.periods| ==>
          ledger.periods[i].id != ledger.periods[j].id
          && !(ledger.periods[i].user == ledger.periods[j].user && ledger.periods[i].from == ledger.periods[j].from))
    && (forall i :: 0 <= i < |ledger.periods| ==>
          ledger.periods[i].totalCents == TotalOf(ledger.items, ledger.periods[i].id))
  }

  /** A total between nothing and the monthly prices of the plans it lists. */
  ghost predicate PeriodCapped(ledger: Ledger, plans: map<nat, PlanTemplate>, i: nat)
    requires i < |ledger.periods|
  {
    0 <= ledger.periods[i].totalCents <= CapOf(ledger.items, plans, ledger.periods[i].id)
  }

  lemma StatusChangesKeepSound(before: Ledger, after: Ledger)
    requires SameInvoices(after, before)
    ensures Sound(before) ==> Sound(after)
  {
  }

  lemma InvoicingKeepsSound(ledger: Ledger, catalog: Catalog, user: nat, from: int, until: int)
    requires Sound(ledger)
    ensures Sound(InvoiceUser(ledger, catalog, user, from, until))
  {
    var lines := Lines(catalog, UsageEntries(catalog, user, from, until), ledger.next, from, until);
    var after := InvoiceUser(ledger, catalog, user, from, until);
    if after != ledger {
      LinesAreFiled(catalog, UsageEntries(catalog, user, from, until), ledger.next, from, until);
      var n := |ledger.periods|;
      forall i | 0 <= i < |after.periods|
        ensures after.periods[i].totalCents == TotalOf(after.items, after.periods[i].id)
      {
        TotalOfConcat(ledger.items, lines, after.periods[i].id);
        if i < n {
          NothingFiled(lines, catalog.plans, after.periods[i].id);
        } else {
          NothingFiled(ledger.items, catalog.plans, ledger.next);
          AllFiled(lines, ledger.next);
        }
      }
    }
  }

  lemma PriceWithinCap(catalog: Catalog, plan: Option<nat>, seconds: int)
    requires SensiblePlans(catalog) && 0 <= seconds
    ensures 0 <= Price(catalog, plan, seconds) <= MonthlyPrice(catalog.plans, plan)
  {
    if plan.Some? && plan.value in catalog.plans {
      ChargeBounds(seconds, catalog.plans[plan.value]);
    }
  }

  lemma {:induction false} LinesWithinCap(catalog: Catalog, entries: seq<Entry>, period: nat, from: int, until: int)
    requires SensiblePlans(catalog)
    ensures var lines := Lines(catalog, entries, period, from, until);
            0 <= TotalCents(lines) <= CapOf(lines, catalog.plans, period)
  {
    if entries != [] {
      var n := |entries| - 1;
      var seconds := Seconds(catalog, entries[n].database, from, until);
      var earlier := Lines(catalog, entries[..n], period, from, until);
      LinesWithinCap(catalog, entries[..n], period, from, until);
      if 0 < seconds {
        PriceWithinCap(catalog, entries[n].plan, seconds);
        var line := LineItem(period, entries[n].database, entries[n].plan, seconds,
                             Price(catalog, entries[n].plan, seconds));
        assert (earlier + [line])[..|earlier|] == earlier;
      } else {
        assert Lines(catalog, entries, period, from, until) == earlier;
      }
    }
  }

  /** Invoicing leaves the totals and lines of earlier periods alone and caps each new one by these prices. */
  ghost predicate Grows(before: Ledger, after: Ledger, plans: map<nat, PlanTemplate>) {
    && |before.periods| <= |after.periods|
    && (forall i :: 0 <= i < |before.periods| ==>
          && after.periods[i].id == before.periods[i].id
          && after.periods[i].totalCents == before.periods[i].totalCents
          && forall prices :: CapOf(after.items, prices, after.periods[i].id)
                              == CapOf(before.items, prices, before.periods[i].id))
    && (forall i :: |before.periods| <= i < |after.periods| ==> PeriodCapped(after, plans, i))
  }

  lemma InvoicingGrows(ledger: Ledger, catalog: Catalog, user: nat, from: int, until: int)
    requires Sound(ledger) && SensiblePlans(catalog)
    ensures Grows(ledger, InvoiceUser(ledger, catalog, user, from, until), catalog.plans)
  {
    var entries := UsageEntries(catalog, user, from, until);
    var lines := Lines(catalog, entries, ledger.next, from, until);
    var after := InvoiceUser(ledger, catalog, user, from, until);
    if after != ledger {
      LinesAreFiled(catalog, entries, ledger.next, from, until);
      LinesWithinCap(catalog, entries, ledger.next, from, until);
      hide UsageEntries, Lines, CapOf;
      var n := |ledger.periods|;
      forall i, prices | 0 <= i < n
        ensures CapOf(after.items, prices, after.periods[i].id) == CapOf(ledger.items, prices, ledger.periods[i].id)
      {
        CapOfConcat(ledger.items, lines, prices, after.periods[i].id);
        NothingFiled(lines, prices, after.periods[i].id);
      }
      CapOfConcat(ledger.items, lines, catalog.plans, ledger.next);
      NothingFiled(ledger.items, catalog.plans, ledger.next);
    }
  }

  lemma SameInvoicesGrow(before: Ledger, after: Ledger, plans: map<nat, PlanTemplate>)
    requires SameInvoices(after, before)
    ensures Grows(before, after, plans)
  {
    hide CapOf;
  }

  lemma StaysCapped(before: Ledger, after: Ledger, plans: map<nat, PlanTemplate>, prices: map<nat, PlanTemplate>, i: nat)
    requires Grows(before, after, plans) && i < |before.periods|
    ensures i < |after.periods| && after.periods[i].id == before.periods[i].id
    ensures after.periods[i].totalCents == before.periods[i].totalCents
    ensures CapOf(after.items, prices, after.periods[i].id) == CapOf(before.items, prices, before.periods[i].id)
    ensures PeriodCapped(before, prices, i) <==> PeriodCapped(after, prices, i)
  {
    hide CapOf;
  }

  lemma GrowsOn(a: Ledger, b: Ledger, c: Ledger, plans: map<nat, PlanTemplate>)
    requires Grows(a, b, plans) && Grows(b, c, plans)
    ensures Grows(a, c, plans)
  {
    hide CapOf, PeriodCapped;
    forall i, prices | 0 <= i < |a.periods|
      ensures c.periods[i].id == a.periods[i].id && c.periods[i].totalCents == a.periods[i].totalCents
      ensures CapOf(c.items, prices, c.periods[i].id) == CapOf(a.items, prices, a.periods[i].id)
    {
      StaysCapped(a, b, plans, prices, i);
      StaysCapped(b, c, plans, prices, i);
    }
    forall i | |a.periods| <= i < |c.periods| ensures PeriodCapped(c, plans, i) {
      if i < |b.periods| {
        StaysCapped(b, c, plans, plans, i);
      }
    }
  }

  lemma BillUserKeeps(ledger: Ledger, catalog: Catalog, user: nat, from: int, until: int, reply: Option<nat>)
    requires Sound(ledger)
    ensures Sound(BillUser(ledger, catalog, user, from, until, reply))
    ensures SensiblePlans(catalog) ==> Grows(ledger, BillUser(ledger, catalog, user, from, until, reply), catalog.plans)
  {
    var after := InvoiceUser(ledger, catalog, user, from, until);
    InvoicingKeepsSound(ledger, catalog, user, from, until);
    if SensiblePlans(catalog) {
      InvoicingGrows(ledger, catalog, user, from, until);
    }
    if after != ledger {
      var period := after.periods[|after.periods| - 1];
      var sent := SendInvoice(after, period, reply);
      SendKeepsInvoices(after, period, reply);
      StatusChangesKeepSound(after, sent);
      hide Sound, Grows, InvoiceUser, SendInvoice, SameInvoices;
      SameInvoicesGrow(after, sent, catalog.plans);
      if SensiblePlans(catalog) {
        GrowsOn(ledger, after, sent, catalog.plans);
      }
    }
  }

  lemma {:induction false} BillUsersKeep(
    ledger: Ledger, catalog: Catalog, users: seq<nat>, from: int, until: int, stripe: map<nat, nat>)
    requires Sound(ledger)
    ensures Sound(BillUsers(ledger, catalog, users, from, until, stripe))
    ensures SensiblePlans(catalog) ==>
      Grows(ledger, BillUsers(ledger, catalog, users, from, until, stripe), catalog.plans)
  {
    hide Sound, BillUser;
    if users == [] {
      SameInvoicesGrow(ledger, ledger, catalog.plans);
    } else {
      var n := |users| - 1;
      var before := BillUsers(ledger, catalog, users[..n], from, until, stripe);
      BillUsersKeep(ledger, catalog, users[..n], from, until, stripe);
      BillUserKeeps(before, catalog, users[n], from, until, Reply(stripe, users[n]));
      hide Grows;
      if SensiblePlans(catalog) {
        GrowsOn(ledger, before, BillUsers(ledger, catalog, users, from, until, stripe), catalog.plans);
      }
    }
  }

  // ---- Handing invoices to the payment provider ----

  /** What a run adds: rows of the month for users it was given, each invoiced under the id its own user was answered
      with, or pending without one where there was no answer or nothing to pay. */
  ghost predicate Handed(row: BillingPeriod, users: seq<nat>, from: int, until: int, stripe: map<nat, nat>) {
    && row.user in users && row.from == from && row.until == until
    && if row.user in stripe && row.totalCents != 0
       then row.status == Invoiced && row.stripeInvoice == Some(stripe[row.user])
       else row.status == Pending && row.stripeInvoice == None
  }

  lemma BillUserHands(
    ledger: Ledger, catalog: Catalog, user: nat, from: int, until: int, stripe: map<nat, nat>)
    requires Sound(ledger)
    ensures var after := BillUser(ledger, catalog, user, from, until, Reply(stripe, user));
            && ledger.periods <= after.periods
            && forall i :: |ledger.periods| <= i < |after.periods| ==> Handed(after.periods[i], [user], from, until, stripe)
  {
    hide Lines, UsageEntries, TotalOf;
    var invoiced := InvoiceUser(ledger, catalog, user, from, until);
    if invoiced != ledger {
      var n := |ledger.periods|;
      WithStatusRows(invoiced.periods, invoiced.periods[n].id, Invoiced, Reply(stripe, user));
      hide WithStatus;
    }
  }

  /** A monthly run leaves every invoice there was as it was, and hands each new one to the provider under the id
      answered for its own user. */
  lemma {:induction false} RunHandsOver(
    ledger: Ledger, catalog: Catalog, users: seq<nat>, from: int, until: int, stripe: map<nat, nat>)
    requires Sound(ledger)
    ensures var after := BillUsers(ledger, catalog, users, from, until, stripe);
            && ledger.periods <= after.periods
            && forall i :: |ledger.periods| <= i < |after.periods| ==> Handed(after.periods[i], users, from, until, stripe)
  {
    if users != [] {
      hide Sound, BillUser, Reply;
      var n := |users| - 1;
      var before := BillUsers(ledger, catalog, users[..n], from, until, stripe);
      RunHandsOver(ledger, catalog, users[..n], from, until, stripe);
      BillUsersKeep(ledger, catalog, users[..n], from, until, stripe);
      BillUserHands(before, catalog, users[n], from, until, stripe);
      var after := BillUser(before, catalog, users[n], from, until, Reply(stripe, users[n]));
      forall i | |ledger.periods| <= i < |after.periods| ensures Handed(after.periods[i], users, from, until, stripe) {
        if i < |before.periods| {
          assert after.periods[i] == before.periods[i];
        }
      }
    }
  }

  // ---- Whole runs ----

  datatype World = World(users: seq<nat>, catalog: Catalog, ledger: Ledger)

  datatype Action =
    | RecordEvent(event: UsageEvent)
    | AddUser(user: nat)
    | SetPlan(id: nat, plan: PlanTemplate)
    | MonthlyRun(year: int, month: int, stripe: map<nat, nat>)
    | StripeCalls(kind: WebhookEvent, invoice: nat)

  predicate Possible(action: Action) {
    action.MonthlyRun? ==> 1 <= action.month <= 12 && EPOCH_MONTH < MonthIndex(action.year, action.month)
  }

  function Perform(world: World, action: Action): World
    requires Possible(action)
  {
    match action
    case RecordEvent(event) => world.(catalog := world.catalog.(events := world.catalog.events + [event]))
    case AddUser(user) => world.(users := world.users + [user])
    case SetPlan(id, plan) => world.(catalog := world.catalog.(plans := world.catalog.plans[id := plan]))
    case MonthlyRun(year, month, stripe) =>
      var (from, until) := PreviousMonthPeriod(year, month);
      world.(ledger := BillUsers(world.ledger, world.catalog, world.users, from, until, stripe))
    case StripeCalls(kind, invoice) => world.(ledger := Webhook(world.ledger, kind, invoice))
  }

  function PerformAll(world: World, actions: seq<Action>): World
    requires forall i :: 0 <= i < |actions| ==> Possible(actions[i])
  {
    if actions == [] then world
    else Perform(PerformAll(world, actions[..|actions| - 1]), actions[|actions| - 1])
  }

  /** Whatever happens in whatever order, there is at most one billing period per user and
      month, and its total is the sum of its line items. */
  lemma {:induction false} EveryRunKeepsTablesSound(world: World, actions: seq<Action>)
    requires Sound(world.ledger)
    requires forall i :: 0 <= i < |actions| ==> Possible(actions[i])
    ensures Sound(PerformAll(world, actions).ledger)
  {
    if actions != [] {
      var n := |actions| - 1;
      EveryRunKeepsTablesSound(world, actions[..n]);
      var before := PerformAll(world, actions[..n]);
      match actions[n] {
        case MonthlyRun(year, month, stripe) =>
          var (from, until) := PreviousMonthPeriod(year, month);
          BillUsersKeep(before.ledger, before.catalog, before.users, from, until, stripe);
        case StripeCalls(kind, invoice) =>
          WebhookKeepsInvoices(before.ledger, kind, invoice);
          StatusChangesKeepSound(before.ledger, Webhook(before.ledger, kind, invoice));
        case _ =>
      }
    }
  }

  ghost predicate SensibleAction(action: Action) {
    action.SetPlan? ==> Sensible(action.plan)
  }

  /** One action caps what it adds by the prices of that moment and leaves every earlier total and line alone. */
  lemma ActionGrows(world: World, action: Action)
    requires Sound(world.ledger) && SensiblePlans(world.catalog) && Possible(action) && SensibleAction(action)
    ensures Grows(world.ledger, Perform(world, action).ledger, world.catalog.plans)
    ensures SensiblePlans(Perform(world, action).catalog)
  {
    hide Sound, BillUsers, Webhook, CapOf;
    match action {
      case MonthlyRun(year, month, stripe) =>
        var (from, until) := PreviousMonthPeriod(year, month);
        BillUsersKeep(world.ledger, world.catalog, world.users, from, until, stripe);
      case StripeCalls(kind, invoice) =>
        WebhookKeepsInvoices(world.ledger, kind, invoice);
        SameInvoicesGrow(world.ledger, Webhook(world.ledger, kind, invoice), world.catalog.plans);
      case _ =>
    }
  }

  lemma {:induction false} PlansStaySensible(world: World, actions: seq<Action>)
    requires Sound(world.ledger) && SensiblePlans(world.catalog)
    requires forall i :: 0 <= i < |actions| ==> Possible(actions[i]) && SensibleAction(actions[i])
    ensures SensiblePlans(PerformAll(world, actions).catalog)
  {
    if actions != [] {
      var n := |actions| - 1;
      PlansStaySensible(world, actions[..n]);
      EveryRunKeepsTablesSound(world, actions[..n]);
      ActionGrows(PerformAll(world, actions[..n]), actions[n]);
    }
  }

  /** The world when the first `k` actions have been performed. */
  function After(world: World, actions: seq<Action>, k: nat): World
    requires k <= |actions| && forall i :: 0 <= i < |actions| ==> Possible(actions[i])
  {
    PerformAll(world, actions[..k])
  }

  /** The action that adds the period to the table. */
  predicate MadeBy(world: World, actions: seq<Action>, k: nat, i: nat)
    requires forall j :: 0 <= j < |actions| ==> Possible(actions[j])
  {
    k < |actions|
    && |After(world, actions, k).ledger.periods| <= i < |After(world, actions, k + 1).ledger.periods|
  }

  /** The period is capped by the prices it was made at. */
  ghost predicate CappedWhenMade(world: World, actions: seq<Action>, ledger: Ledger, i: nat)
    requires i < |ledger.periods| && forall j :: 0 <= j < |actions| ==> Possible(actions[j])
  {
    if i < |world.ledger.periods| then PeriodCapped(ledger, world.catalog.plans, i)
    else exists k: nat :: MadeBy(world, actions, k, i) && PeriodCapped(ledger, After(world, actions, k).catalog.plans, i)
  }

  lemma MadeEarlier(world: World, actions: seq<Action>, k: nat, i: nat)
    requires actions != [] && forall j :: 0 <= j < |actions| ==> Possible(actions[j])
    requires MadeBy(world, actions[..|actions| - 1], k, i)
    ensures MadeBy(world, actions, k, i) && After(world, actions, k) == After(world, actions[..|actions| - 1], k)
  {
    var n := |actions| - 1;
    assert actions[..n][..k] == actions[..k] && actions[..n][..k + 1] == actions[..k + 1];
    hide PerformAll;
  }

  lemma MadeLast(world: World, actions: seq<Action>, i: nat)
    requires actions != [] && forall j :: 0 <= j < |actions| ==> Possible(actions[j])
    requires |PerformAll(world, actions[..|actions| - 1]).ledger.periods| <= i < |PerformAll(world, actions).ledger.periods|
    ensures MadeBy(world, actions, |actions| - 1, i)
    ensures After(world, actions, |actions| - 1) == PerformAll(world, actions[..|actions| - 1])
  {
    assert actions[..|actions| - 1 + 1] == actions;
    hide PerformAll;
  }

  /** Whatever events, price changes, runs and payments come in whatever order, no invoice ever exceeds the
      monthly prices, as they were when it was made, of the plans it lists; so it fits a 32-bit column
      whenever their sum does. */
  lemma {:induction false} EveryRunStaysCapped(world: World, actions: seq<Action>, i: nat)
    requires Sound(world.ledger) && SensiblePlans(world.catalog)
    requires forall j :: 0 <= j < |world.ledger.periods| ==> PeriodCapped(world.ledger, world.catalog.plans, j)
    requires forall j :: 0 <= j < |actions| ==> Possible(actions[j]) && SensibleAction(actions[j])
    requires i < |PerformAll(world, actions).ledger.periods|
    ensures CappedWhenMade(world, actions, PerformAll(world, actions).ledger, i)
  {
    if actions != [] {
      var n := |actions| - 1;
      var before, ledger := PerformAll(world, actions[..n]), PerformAll(world, actions).ledger;
      EveryRunKeepsTablesSound(world, actions[..n]);
      PlansStaySensible(world, actions[..n]);
      ActionGrows(before, actions[n]);
      StillThere(world, actions[..n]);
      hide Sound, Perform, CapOf, PeriodCapped, MadeBy, After;
      if |before.ledger.periods| <= i {
        MadeLast(world, actions, i);
        assert PeriodCapped(ledger, before.catalog.plans, i);
      } else {
        hide Grows;
        EveryRunStaysCapped(world, actions[..n], i);
        if i < |world.ledger.periods| {
          StaysCapped(before.ledger, ledger, before.catalog.plans, world.catalog.plans, i);
        } else {
          var k: nat :| MadeBy(world, actions[..n], k, i)
                        && PeriodCapped(before.ledger, After(world, actions[..n], k).catalog.plans, i);
          MadeEarlier(world, actions, k, i);
          StaysCapped(before.ledger, ledger, before.catalog.plans, After(world, actions, k).catalog.plans, i);
        }
      }
    }
  }

  lemma {:induction false} StillThere(world: World, actions: seq<Action>)
    requires Sound(world.ledger) && SensiblePlans(world.catalog)
    requires forall j :: 0 <= j < |actions| ==> Possible(actions[j]) && SensibleAction(actions[j])
    ensures |world.ledger.periods| <= |PerformAll(world, actions).ledger.periods|
  {
    if actions != [] {
      var n := |actions| - 1;
      StillThere(world, actions[..n]);
      EveryRunKeepsTablesSound(world, actions[..n]);
      PlansStaySensible(world, actions[..n]);
      ActionGrows(PerformAll(world, actions[..n]), actions[n]);
    }
  }

  // ---- Repeating a run ----

  /** Running a month again, whatever events, prices, users and payments came in between, changes
      nothing as long as every user with something to bill had it at the first run. */
  lemma RepeatedRunChangesNothing(
    ledger: Ledger, catalog: Catalog, users: seq<nat>, from: int, until: int, stripe: map<nat, nat>,
    later: Ledger, laterCatalog: Catalog, laterUsers: seq<nat>, laterStripe: map<nat, nat>)
    requires SameInvoices(later, BillUsers(ledger, catalog, users, from, until, stripe))
    requires forall user :: user in laterUsers ==>
      (user in users && Eligible(catalog, user, from, until)) || !Eligible(laterCatalog, user, from, until)
    ensures BillUsers(later, laterCatalog, laterUsers, from, until, laterStripe) == later
    ensures Unsettled(later, laterCatalog, laterUsers, from, until) == {}
  {
    var after := BillUsers(ledger, catalog, users, from, until, stripe);
    forall user | user in laterUsers ensures Settled(later, laterCatalog, user, from, until) {
      SettledAfter(ledger, catalog, users, from, until, stripe, user);
      if HasPeriod(after, user, from) {
        HasPeriodSurvives(after, later, user, from);
      }
    }
    SettledUsersAreSkipped(later, laterCatalog, laterUsers, from, until, laterStripe);
  }

  lemma {:induction false} RunKeepsPeriods(
    ledger: Ledger, catalog: Catalog, users: seq<nat>, from: int, until: int, stripe: map<nat, nat>, user: nat, month: int)
    requires HasPeriod(ledger, user, month)
    ensures HasPeriod(BillUsers(ledger, catalog, users, from, until, stripe), user, month)
  {
    if users != [] {
      var n := |users| - 1;
      RunKeepsPeriods(ledger, catalog, users[..n], from, until, stripe, user, month);
      var before := BillUsers(ledger, catalog, users[..n], from, until, stripe);
      TurnKeepsPeriods(before, catalog, users[n], from, until, Reply(stripe, users[n]), user, month);
    }
  }

  lemma TurnKeepsPeriods(
    ledger: Ledger, catalog: Catalog, billed: nat, from: int, until: int, reply: Option<nat>, user: nat, month: int)
    requires HasPeriod(ledger, user, month)
    ensures HasPeriod(BillUser(ledger, catalog, billed, from, until, reply), user, month)
  {
    hide UsageEntries, Lines;
    var invoiced := InvoiceUser(ledger, catalog, billed, from, until);
    if invoiced != ledger {
      var period := invoiced.periods[|ledger.periods|];
      SendKeepsInvoices(invoiced, period, reply);
      HasPeriodSurvives(ledger, SendInvoice(invoiced, period, reply), user, month);
    }
  }

  /** An invoiced month stays invoiced, whatever happens. */
  lemma {:induction false} PeriodsSurvive(world: World, actions: seq<Action>, user: nat, month: int)
    requires forall i :: 0 <= i < |actions| ==> Possible(actions[i])
    requires HasPeriod(world.ledger, user, month)
    ensures HasPeriod(PerformAll(world, actions).ledger, user, month)
  {
    if actions != [] {
      var n := |actions| - 1;
      PeriodsSurvive(world, actions[..n], user, month);
      var before := PerformAll(world, actions[..n]);
      match actions[n] {
        case MonthlyRun(year, runMonth, stripe) =>
          var (from, until) := PreviousMonthPeriod(year, runMonth);
          RunKeepsPeriods(before.ledger, before.catalog, before.users, from, until, stripe, user, month);
        case StripeCalls(kind, invoice) =>
          WebhookKeepsInvoices(before.ledger, kind, invoice);
          HasPeriodSurvives(before.ledger, Webhook(before.ledger, kind, invoice), user, month);
        case _ =>
      }
    }
  }

  /** A month run again after any actions adds one period for each listed user that has something to
      bill by then and no period for the month, and changes the tables if and only if there is one;
      nobody who had something to bill at the first run is among them. */
  lemma RepeatAfterAnything(
    world: World, year: int, month: int, stripe: map<nat, nat>, actions: seq<Action>, again: map<nat, nat>)
    requires Possible(MonthlyRun(year, month, stripe)) && forall i :: 0 <= i < |actions| ==> Possible(actions[i])
    ensures var (from, until) := PreviousMonthPeriod(year, month);
            var now := PerformAll(Perform(world, MonthlyRun(year, month, stripe)), actions);
            var after := Perform(now, MonthlyRun(year, month, again)).ledger;
            var todo := Unsettled(now.ledger, now.catalog, now.users, from, until);
            && |after.periods| == |now.ledger.periods| + |todo|
            && (after == now.ledger <==> todo == {})
            && (forall user :: user in world.users && Eligible(world.catalog, user, from, until) ==> user !in todo)
  {
    hide PreviousMonthPeriod, PerformAll, BillUsers, Eligible, HasPeriod;
    var (from, until) := PreviousMonthPeriod(year, month);
    var first := Perform(world, MonthlyRun(year, month, stripe));
    var now := PerformAll(first, actions);
    RunInvoicesExactly(now.ledger, now.catalog, now.users, from, until, again);
    forall user | user in world.users && Eligible(world.catalog, user, from, until)
      ensures user !in Unsettled(now.ledger, now.catalog, now.users, from, until)
    {
      SettledAfter(world.ledger, world.catalog, world.users, from, until, stripe, user);
      PeriodsSurvive(first, actions, user, from);
    }
  }

  // ---- Invoice against estimate ----

  function EntryPrice(catalog: Catalog, entry: Entry, from: int, until: int): int {
    Price(catalog, entry.plan, Seconds(catalog, entry.database, from, until))
  }

  /** What the entries of the given databases cost together. */
  function EntriesOf(catalog: Catalog, entries: seq<Entry>, ids: set<nat>, from: int, until: int): int {
    if entries == [] then 0
    else
      var n := |entries| - 1;
      EntriesOf(catalog, entries[..n], ids, from, until)
      + if entries[n].database in ids then EntryPrice(catalog, entries[n], from, until) else 0
  }

  /** Cents the invoice charges for existing databases beyond one price each. */
  function Excess(catalog: Catalog, entries: seq<Entry>, databases: seq<Database>, from: int, until: int): int {
    if databases == [] then 0
    else
      var d := databases[|databases| - 1];
      Excess(catalog, entries, databases[..|databases| - 1], from, until)
      + EntriesOf(catalog, entries, {d.id}, from, until)
      - Price(catalog, d.plan, Seconds(catalog, d.id, from, until))
  }

  ghost predicate DistinctIds(databases: seq<Database>) {
    forall i, j :: 0 <= i < j < |databases| ==> databases[i].id != databases[j].id
  }

  lemma NothingForNothing(catalog: Catalog, plan: Option<nat>)
    requires SensiblePlans(catalog)
    ensures Price(catalog, plan, 0) == 0
  {
    if plan.Some? && plan.value in catalog.plans {
      ChargeIsLeastCover(0, catalog.plans[plan.value], 0);
      ChargeBounds(0, catalog.plans[plan.value]);
    }
  }

  lemma TotalStep(catalog: Catalog, entries: seq<Entry>, period: nat, from: int, until: int)
    requires entries != []
    ensures var n := |entries| - 1;
            var seconds := Seconds(catalog, entries[n].database, from, until);
            TotalCents(Lines(catalog, entries, period, from, until))
            == TotalCents(Lines(catalog, entries[..n], period, from, until))
               + if seconds <= 0 then 0 else Price(catalog, entries[n].plan, seconds)
  {
    var n := |entries| - 1;
    var seconds := Seconds(catalog, entries[n].database, from, until);
    var earlier := Lines(catalog, entries[..n], period, from, until);
    if 0 < seconds {
      var line := LineItem(period, entries[n].database, entries[n].plan, seconds,
                           Price(catalog, entries[n].plan, seconds));
      assert (earlier + [line])[..|earlier|] == earlier;
    } else {
      assert earlier + [] == earlier;
    }
  }

  // The invoice total, seen as existing plus deleted databases.
  lemma {:induction false} InvoiceSplits(
    catalog: Catalog, entries: seq<Entry>, seen: set<nat>, period: nat, from: int, until: int)
    requires SensiblePlans(catalog) && from <= until
    ensures TotalCents(Lines(catalog, entries, period, from, until))
            == EntriesOf(catalog, entries, seen, from, until)
               + EstimateOfDeleted(catalog, entries, seen, from, until)
  {
    if entries != [] {
      var n := |entries| - 1;
      InvoiceSplits(catalog, entries[..n], seen, period, from, until);
      SecondsNotNegative(catalog, entries[n].database, from, until);
      NothingForNothing(catalog, entries[n].plan);
      TotalStep(catalog, entries, period, from, until);
    }
  }

  lemma {:induction false} EntriesOfDisjoint(
    catalog: Catalog, entries: seq<Entry>, a: set<nat>, b: set<nat>, from: int, until: int)
    requires a !! b
    ensures EntriesOf(catalog, entries, a + b, from, until)
            == EntriesOf(catalog, entries, a, from, until) + EntriesOf(catalog, entries, b, from, until)
  {
    if entries != [] {
      EntriesOfDisjoint(catalog, entries[..|entries| - 1], a, b, from, until);
    }
  }

  lemma {:induction false} EntriesOfNone(catalog: Catalog, entries: seq<Entry>, from: int, until: int)
    ensures EntriesOf(catalog, entries, {}, from, until) == 0
  {
    if entries != [] {
      EntriesOfNone(catalog, entries[..|entries| - 1], from, until);
    }
  }

  lemma {:induction false} ExcessIsDifference(
    catalog: Catalog, entries: seq<Entry>, databases: seq<Database>, from: int, until: int)
    requires DistinctIds(databases)
    ensures Excess(catalog, entries, databases, from, until)
            == EntriesOf(catalog, entries, Ids(databases), from, until)
               - EstimateOfExisting(catalog, databases, from, until)
  {
    if databases == [] {
      assert Ids(databases) == {};
      EntriesOfNone(catalog, entries, from, until);
    } else {
      var n := |databases| - 1;
      var rest, d := databases[..n], databases[n];
      ExcessIsDifference(catalog, entries, rest, from, until);
      assert databases == rest + [d];
      IdsAppend(rest, d);
      assert d.id !in Ids(rest);
      EntriesOfDisjoint(catalog, entries, Ids(rest), {d.id}, from, until);
    }
  }

  /** Over the same period the invoice and the estimate differ by exactly what existing
      databases are billed beyond, or short of, one price each. */
  lemma InvoiceMinusEstimate(catalog: Catalog, databases: seq<Database>, user: nat, from: int, until: int)
    requires SensiblePlans(catalog) && from <= until && DistinctIds(OwnedBy(databases, user))
    ensures InvoiceTotal(catalog, user, from, until) - Estimate(catalog, databases, user, from, until)
            == Excess(catalog, UsageEntries(catalog, user, from, until), OwnedBy(databases, user), from, until)
  {
    var own := OwnedBy(databases, user);
    var entries := UsageEntries(catalog, user, from, until);
    InvoiceSplits(catalog, entries, Ids(own), 0, from, until);
    ExcessIsDifference(catalog, entries, own, from, until);
  }

  /** The period shows this database under one name and its current plan, or it had no usage. */
  ghost predicate OneName(catalog: Catalog, entries: seq<Entry>, d: Database, from: int, until: int) {
    && (forall i :: 0 <= i < |entries| && entries[i].database == d.id ==> entries[i].plan == d.plan)
    && (forall i, j :: 0 <= i < |entries| && 0 <= j < |entries| && entries[i].database == d.id == entries[j].database
          ==> entries[i].name == entries[j].name)
    && ((forall i :: 0 <= i < |entries| ==> entries[i].database != d.id) ==> Seconds(catalog, d.id, from, until) == 0)
  }

  lemma {:induction false} NoEntryNoPrice(catalog: Catalog, entries: seq<Entry>, id: nat, from: int, until: int)
    requires forall i :: 0 <= i < |entries| ==> entries[i].database != id
    ensures EntriesOf(catalog, entries, {id}, from, until) == 0
  {
    if entries != [] {
      NoEntryNoPrice(catalog, entries[..|entries| - 1], id, from, until);
    }
  }

  lemma {:induction false} OneEntryOnePrice(
    catalog: Catalog, entries: seq<Entry>, at: nat, id: nat, from: int, until: int)
    requires at < |entries| && entries[at].database == id
    requires forall i :: 0 <= i < |entries| && i != at ==> entries[i].database != id
    ensures EntriesOf(catalog, entries, {id}, from, until) == EntryPrice(catalog, entries[at], from, until)
  {
    var n := |entries| - 1;
    if at == n {
      NoEntryNoPrice(catalog, entries[..n], id, from, until);
    } else {
      OneEntryOnePrice(catalog, entries[..n], at, id, from, until);
    }
  }

  lemma OneNameOnePrice(catalog: Catalog, events: seq<UsageEvent>, d: Database, from: int, until: int)
    requires SensiblePlans(catalog) && OneName(catalog, Distinct(events), d, from, until)
    ensures EntriesOf(catalog, Distinct(events), {d.id}, from, until)
            == Price(catalog, d.plan, Seconds(catalog, d.id, from, until))
  {
    var entries := Distinct(events);
    DistinctEntries(events);
    if at: nat :| at < |entries| && entries[at].database == d.id {
      forall i | 0 <= i < |entries| && i != at ensures entries[i].database != d.id {
        assert entries[i] != entries[at];
      }
      OneEntryOnePrice(catalog, entries, at, d.id, from, until);
    } else {
      NoEntryNoPrice(catalog, entries, d.id, from, until);
      NothingForNothing(catalog, d.plan);
    }
  }

  lemma {:induction false} NoExcess(
    catalog: Catalog, events: seq<UsageEvent>, databases: seq<Database>, from: int, until: int)
    requires SensiblePlans(catalog)
    requires forall i :: 0 <= i < |databases| ==> OneName(catalog, Distinct(events), databases[i], from, until)
    ensures Excess(catalog, Distinct(events), databases, from, until) == 0
  {
    if databases != [] {
      NoExcess(catalog, events, databases[..|databases| - 1], from, until);
      OneNameOnePrice(catalog, events, databases[|databases| - 1], from, until);
    }
  }

  /** A plan that charges nothing for any usage. */
  predicate CostsNothing(catalog: Catalog, plan: Option<nat>) {
    plan.Some? && plan.value in catalog.plans ==>
      catalog.plans[plan.value].monthlyCents == 0 || catalog.plans[plan.value].hourlyCents == 0
  }

  lemma FreeIff(catalog: Catalog, plan: Option<nat>, seconds: int)
    requires SensiblePlans(catalog) && 0 <= seconds
    ensures Price(catalog, plan, seconds) == 0 <==> seconds == 0 || CostsNothing(catalog, plan)
    ensures 0 <= Price(catalog, plan, seconds)
  {
    if plan.Some? && plan.value in catalog.plans {
      var template := catalog.plans[plan.value];
      ChargeIsLeastCover(seconds, template, 0);
      ChargeBounds(seconds, template);
      ProductIsZero(seconds, template.hourlyCents);
    }
  }

  lemma ProductIsZero(x: int, y: int)
    requires 0 <= x && 0 <= y
    ensures x * y <= 0 <==> x == 0 || y == 0
  {
    if 0 < x && 0 < y {
      ProductMonotone(1, x, y);
    }
  }

  /** Listed in the period, at `at`, under its current plan. */
  predicate ListedAt(entries: seq<Entry>, d: Database, at: nat) {
    at < |entries| && entries[at].database == d.id && entries[at].plan == d.plan
  }

  /** Some further entry of the database is on a plan that costs something. */
  predicate PaysElsewhere(catalog: Catalog, entries: seq<Entry>, id: nat, at: nat) {
    exists i :: 0 <= i < |entries| && i != at && entries[i].database == id && !CostsNothing(catalog, entries[i].plan)
  }

  lemma {:induction false} SumOfFreeEntries(
    catalog: Catalog, entries: seq<Entry>, id: nat, at: nat, from: int, until: int)
    requires SensiblePlans(catalog) && from <= until && 0 < Seconds(catalog, id, from, until)
    ensures var rest := EntriesOf(catalog, entries, {id}, from, until)
                        - if at < |entries| && entries[at].database == id then EntryPrice(catalog, entries[at], from, until) else 0;
            0 <= rest && (rest == 0 <==> !PaysElsewhere(catalog, entries, id, at))
  {
    hide Price, Seconds, CostsNothing;
    if entries != [] {
      var n := |entries| - 1;
      SumOfFreeEntries(catalog, entries[..n], id, at, from, until);
      if entries[n].database == id {
        FreeIff(catalog, entries[n].plan, Seconds(catalog, id, from, until));
      }
      assert PaysElsewhere(catalog, entries, id, at)
             <==> PaysElsewhere(catalog, entries[..n], id, at)
                  || (n != at && entries[n].database == id && !CostsNothing(catalog, entries[n].plan)) by {
        if i :| 0 <= i < n && i != at && entries[..n][i].database == id && !CostsNothing(catalog, entries[..n][i].plan) {
          assert entries[i] == entries[..n][i];
        }
        if i :| 0 <= i < |entries| && i != at && entries[i].database == id && !CostsNothing(catalog, entries[i].plan) {
          assert i < n ==> entries[..n][i] == entries[i];
        }
      }
    }
  }

  /** One existing database that is listed under its current plan and has usage: its entries come to one
      price exactly if every other entry of it is on a plan that costs nothing. */
  lemma ListedOnceIff(catalog: Catalog, entries: seq<Entry>, d: Database, at: nat, from: int, until: int)
    requires SensiblePlans(catalog) && from <= until
    requires ListedAt(entries, d, at) && 0 < Seconds(catalog, d.id, from, until)
    ensures var price := Price(catalog, d.plan, Seconds(catalog, d.id, from, until));
            && price <= EntriesOf(catalog, entries, {d.id}, from, until)
            && (EntriesOf(catalog, entries, {d.id}, from, until) == price <==> !PaysElsewhere(catalog, entries, d.id, at))
  {
    SumOfFreeEntries(catalog, entries, d.id, at, from, until);
  }

  /** One that is not listed at all: it is not invoiced, and the estimate agrees exactly if it has no
      usage or its plan costs nothing. */
  lemma UnlistedIff(catalog: Catalog, entries: seq<Entry>, d: Database, from: int, until: int)
    requires SensiblePlans(catalog) && from <= until
    requires forall i :: 0 <= i < |entries| ==> entries[i].database != d.id
    ensures EntriesOf(catalog, entries, {d.id}, from, until) == 0
    ensures EntriesOf(catalog, entries, {d.id}, from, until) == Price(catalog, d.plan, Seconds(catalog, d.id, from, until))
            <==> Seconds(catalog, d.id, from, until) == 0 || CostsNothing(catalog, d.plan)
  {
    NoEntryNoPrice(catalog, entries, d.id, from, until);
    SecondsNotNegative(catalog, d.id, from, until);
    FreeIff(catalog, d.plan, Seconds(catalog, d.id, from, until));
  }

  lemma {:induction false} NoUsageNoPrice(catalog: Catalog, entries: seq<Entry>, id: nat, from: int, until: int)
    requires SensiblePlans(catalog) && Seconds(catalog, id, from, until) == 0
    ensures EntriesOf(catalog, entries, {id}, from, until) == 0
  {
    hide Seconds;
    if entries != [] {
      NoUsageNoPrice(catalog, entries[..|entries| - 1], id, from, until);
      NothingForNothing(catalog, entries[|entries| - 1].plan);
    }
  }

  /** The database has usage, and besides its current plan the period shows it on one that costs
      something. */
  ghost predicate ChargedTwice(catalog: Catalog, entries: seq<Entry>, d: Database, from: int, until: int) {
    0 < Seconds(catalog, d.id, from, until)
    && exists at :: ListedAt(entries, d, at) && PaysElsewhere(catalog, entries, d.id, at)
  }

  ghost predicate ListedIfUsed(catalog: Catalog, entries: seq<Entry>, d: Database, from: int, until: int) {
    Seconds(catalog, d.id, from, until) == 0 || exists at :: ListedAt(entries, d, at)
  }

  lemma OneDatabaseAgreesIff(catalog: Catalog, entries: seq<Entry>, d: Database, from: int, until: int)
    requires SensiblePlans(catalog) && from <= until && ListedIfUsed(catalog, entries, d, from, until)
    ensures var excess := EntriesOf(catalog, entries, {d.id}, from, until)
                          - Price(catalog, d.plan, Seconds(catalog, d.id, from, until));
            0 <= excess && (excess == 0 <==> !ChargedTwice(catalog, entries, d, from, until))
  {
    SecondsNotNegative(catalog, d.id, from, until);
    hide Seconds, EntriesOf, Price, PaysElsewhere, ListedAt;
    if Seconds(catalog, d.id, from, until) == 0 {
      NoUsageNoPrice(catalog, entries, d.id, from, until);
      NothingForNothing(catalog, d.plan);
    } else {
      var at: nat :| ListedAt(entries, d, at);
      ListedOnceIff(catalog, entries, d, at, from, until);
      if other: nat :| ListedAt(entries, d, other) && PaysElsewhere(catalog, entries, d.id, other) {
        ListedOnceIff(catalog, entries, d, other, from, until);
      }
    }
  }

  lemma {:induction false} ExcessIff(catalog: Catalog, entries: seq<Entry>, databases: seq<Database>, from: int, until: int)
    requires SensiblePlans(catalog) && from <= until
    requires forall i :: 0 <= i < |databases| ==> ListedIfUsed(catalog, entries, databases[i], from, until)
    ensures 0 <= Excess(catalog, entries, databases, from, until)
    ensures Excess(catalog, entries, databases, from, until) == 0
            <==> forall i :: 0 <= i < |databases| ==> !ChargedTwice(catalog, entries, databases[i], from, until)
  {
    hide ListedIfUsed, ChargedTwice, EntriesOf, Price, Seconds;
    if databases != [] {
      var n := |databases| - 1;
      ExcessIff(catalog, entries, databases[..n], from, until);
      OneDatabaseAgreesIff(catalog, entries, databases[n], from, until);
      assert forall i :: 0 <= i < n ==> databases[..n][i] == databases[i];
    }
  }

  /** Where every existing database with usage is listed under its current plan, the invoice is at least
      the estimate, and they agree if and only if none of them is listed under another plan that costs
      something; deleted databases agree in any case. */
  lemma InvoiceEqualsEstimateIff(catalog: Catalog, databases: seq<Database>, user: nat, from: int, until: int)
    requires SensiblePlans(catalog) && from <= until && DistinctIds(OwnedBy(databases, user))
    requires forall i :: 0 <= i < |OwnedBy(databases, user)| ==>
      ListedIfUsed(catalog, UsageEntries(catalog, user, from, until), OwnedBy(databases, user)[i], from, until)
    ensures Estimate(catalog, databases, user, from, until) <= InvoiceTotal(catalog, user, from, until)
    ensures InvoiceTotal(catalog, user, from, until) == Estimate(catalog, databases, user, from, until)
            <==> forall i :: 0 <= i < |OwnedBy(databases, user)| ==>
                   !ChargedTwice(catalog, UsageEntries(catalog, user, from, until), OwnedBy(databases, user)[i], from, until)
  {
    hide Excess, ListedIfUsed, ChargedTwice, UsageEntries, OwnedBy, Estimate, InvoiceTotal;
    InvoiceMinusEstimate(catalog, databases, user, from, until);
    ExcessIff(catalog, UsageEntries(catalog, user, from, until), OwnedBy(databases, user), from, until);
  }

  /** Invoice and estimate agree when the period shows each existing database under one name and
      its current plan and every one with usage has an event in the period; deleted databases
      agree in any case. */
  lemma InvoiceEqualsEstimate(catalog: Catalog, databases: seq<Database>, user: nat, from: int, until: int)
    requires SensiblePlans(catalog) && from <= until && DistinctIds(OwnedBy(databases, user))
    requires forall i :: 0 <= i < |OwnedBy(databases, user)| ==>
      OneName(catalog, UsageEntries(catalog, user, from, until), OwnedBy(databases, user)[i], from, until)
    ensures InvoiceTotal(catalog, user, from, until) == Estimate(catalog, databases, user, from, until)
  {
    InvoiceMinusEstimate(catalog, databases, user, from, until);
    NoExcess(catalog, Where(catalog.events, (e: UsageEvent) => e.user == user && from <= e.at <= until),
             OwnedBy(databases, user), from, until);
  }

  /** A database the period shows on two plans is charged its whole usage on both: that is where
      invoice and estimate part. */
  lemma {:induction false} EveryPlanIsChargedInFull(
    catalog: Catalog, entries: seq<Entry>, i: nat, j: nat, from: int, until: int)
    requires SensiblePlans(catalog) && from <= until
    requires i < j < |entries| && entries[i].database == entries[j].database
    ensures EntriesOf(catalog, entries, {entries[i].database}, from, until)
            >= EntryPrice(catalog, entries[i], from, until) + EntryPrice(catalog, entries[j], from, until)
  {
    var n := |entries| - 1;
    if j < n {
      EveryPlanIsChargedInFull(catalog, entries[..n], i, j, from, until);
      EntryPriceNotNegative(catalog, entries[n], from, until);
    } else {
      EntriesCoverEach(catalog, entries[..n], i, from, until);
    }
  }

  lemma EntryPriceNotNegative(catalog: Catalog, entry: Entry, from: int, until: int)
    requires SensiblePlans(catalog) && from <= until
    ensures 0 <= EntryPrice(catalog, entry, from, until)
  {
    SecondsNotNegative(catalog, entry.database, from, until);
    PriceWithinCap(catalog, entry.plan, Seconds(catalog, entry.database, from, until));
  }

  lemma {:induction false} EntriesCoverEach(catalog: Catalog, entries: seq<Entry>, i: nat, from: int, until: int)
    requires SensiblePlans(catalog) && from <= until && i < |entries|
    ensures EntriesOf(catalog, entries, {entries[i].database}, from, until)
            >= EntryPrice(catalog, entries[i], from, until)
  {
    var n := |entries| - 1;
    EntryPriceNotNegative(catalog, entries[n], from, until);
    if i < n {
      EntriesCoverEach(catalog, entries[..n], i, from, until);
    } else {
      EntriesNotNegative(catalog, entries[..n], {entries[n].database}, from, until);
    }
  }

  lemma {:induction false} EntriesNotNegative(
    catalog: Catalog, entries: seq<Entry>, ids: set<nat>, from: int, until: int)
    requires SensiblePlans(catalog) && from <= until
    ensures 0 <= EntriesOf(catalog, entries, ids, from, until)
  {
    if entries != [] {
      EntriesNotNegative(catalog, entries[..|entries| - 1], ids, from, until);
      EntryPriceNotNegative(catalog, entries[|entries| - 1], from, until);
    }
  }

  // For example: half an hour on a plan at 100 cents an hour, half an hour on one at 200.
  const EXAMPLE_HALF: int := SAFE_MIN + 1800 * TICKS_PER_SECOND
  const EXAMPLE_END: int := SAFE_MIN + 3600 * TICKS_PER_SECOND
  const EXAMPLE_ON := UsageEvent(0, Start, SAFE_MIN, 0, "", Some(0))
  const EXAMPLE_OFF := UsageEvent(0, Stop, EXAMPLE_HALF, 0, "", Some(0))
  const EXAMPLE_AGAIN := UsageEvent(0, Start, EXAMPLE_HALF, 0, "", Some(1))

  function ExampleCatalog(): Catalog {
    Catalog([EXAMPLE_ON, EXAMPLE_OFF, EXAMPLE_AGAIN],
            map[0 := PlanTemplate(10_000, 100), 1 := PlanTemplate(20_000, 200)])
  }

  lemma ExampleSeconds()
    ensures Seconds(ExampleCatalog(), 0, SAFE_MIN, EXAMPLE_END) == 3600
  {
    var on, off, again := EXAMPLE_ON, EXAMPLE_OFF, EXAMPLE_AGAIN;
    var events := [on, off, again];
    WhereAll(events, OfDatabase(0));
    WhereAll(events, InWindow(SAFE_MIN, EXAMPLE_END));
    assert events[1..] == [off, again] && [off, again][1..] == [again] && [again][1..] == [];
    assert Sorted([again]) && Sorted([off, again]) && Sorted(events);
    SortOfSorted(events);
    assert Billed([again], None, EXAMPLE_END, TICKS_PER_SECOND) == 1800;
    assert Billed([off, again], Some(SAFE_MIN), EXAMPLE_END, TICKS_PER_SECOND) == 3600;
  }

  lemma ExampleEntries()
    ensures UsageEntries(ExampleCatalog(), 0, SAFE_MIN, EXAMPLE_END) == [Entry(0, "", Some(0)), Entry(0, "", Some(1))]
  {
    var on, off, again := EXAMPLE_ON, EXAMPLE_OFF, EXAMPLE_AGAIN;
    var events := [on, off, again];
    WhereAll(events, (e: UsageEvent) => e.user == 0 && SAFE_MIN <= e.at <= EXAMPLE_END);
    assert events[..2] == [on, off] && [on, off][..1] == [on] && [on][..0] == [];
    assert EntryOf(off) == EntryOf(on);
    assert Distinct([on]) == [EntryOf(on)];
    assert Distinct([on, off]) == [EntryOf(on)];
  }

  lemma ExamplePrices()
    ensures Price(ExampleCatalog(), Some(0), 3600) == 100 && Price(ExampleCatalog(), Some(1), 3600) == 200
  {
  }

  lemma ExampleInvoice()
    ensures InvoiceTotal(ExampleCatalog(), 0, SAFE_MIN, EXAMPLE_END) == 300
  {
    hide Seconds, UsageEntries, Lines, TotalCents, Price, ExampleCatalog;
    var catalog := ExampleCatalog();
    var first, second := Entry(0, "", Some(0)), Entry(0, "", Some(1));
    ExampleSeconds();
    ExampleEntries();
    ExamplePrices();
    assert [first, second][..1] == [first] && [first][..0] == [];
    NoLines(catalog, 0, SAFE_MIN, EXAMPLE_END);
    TotalStep(catalog, [first], 0, SAFE_MIN, EXAMPLE_END);
    TotalStep(catalog, [first, second], 0, SAFE_MIN, EXAMPLE_END);
  }

  lemma ExampleOwned()
    ensures OwnedBy([Database(0, 0, "", Some(1))], 0) == [Database(0, 0, "", Some(1))]
    ensures Ids([Database(0, 0, "", Some(1))]) == {0}
  {
    var own := [Database(0, 0, "", Some(1))];
    assert own[..0] == [] && own[0].id in Ids(own);
  }

  lemma ExampleEstimate()
    ensures Estimate(ExampleCatalog(), [Database(0, 0, "", Some(1))], 0, SAFE_MIN, EXAMPLE_END) == 200
  {
    hide Seconds, UsageEntries, Price, ExampleCatalog, OwnedBy, Ids;
    var catalog := ExampleCatalog();
    var first, second := Entry(0, "", Some(0)), Entry(0, "", Some(1));
    ExampleSeconds();
    ExampleEntries();
    ExamplePrices();
    ExampleOwned();
    assert [first, second][..1] == [first] && [first][..0] == [];
    var own := [Database(0, 0, "", Some(1))];
    assert own[..0] == [];
    assert EstimateOfExisting(catalog, own, SAFE_MIN, EXAMPLE_END) == 200;
    assert EstimateOfDeleted(catalog, [first], {0}, SAFE_MIN, EXAMPLE_END) == 0;
    assert EstimateOfDeleted(catalog, [first, second], {0}, SAFE_MIN, EXAMPLE_END) == 0;
  }

  /** The invoice charges the full hour on each plan, the estimate on the current one only. */
  lemma ScaledDatabaseIsBilledTwice()
    ensures InvoiceTotal(ExampleCatalog(), 0, SAFE_MIN, EXAMPLE_END) == 300
    ensures Estimate(ExampleCatalog(), [Database(0, 0, "", Some(1))], 0, SAFE_MIN, EXAMPLE_END) == 200
  {
    ExampleInvoice();
    ExampleEstimate();
  }

  // ---- What never reaches the invoice ----

  predicate SeenIn(catalog: Catalog, user: nat, database: nat, from: int, until: int) {
    exists i :: 0 <= i < |catalog.events| && catalog.events[i].user == user && catalog.events[i].database == database
                && from <= catalog.events[i].at <= until
  }

  predicate ListedIn(entries: seq<Entry>, database: nat) {
    exists i :: 0 <= i < |entries| && entries[i].database == database
  }

  predicate HasLine(lines: seq<LineItem>, database: nat) {
    exists i :: 0 <= i < |lines| && lines[i].database == database
  }

  lemma {:induction false} LineIff(
    catalog: Catalog, entries: seq<Entry>, database: nat, period: nat, from: int, until: int)
    ensures HasLine(Lines(catalog, entries, period, from, until), database)
            <==> ListedIn(entries, database) && 0 < Seconds(catalog, database, from, until)
  {
    hide Seconds;
    var lines := Lines(catalog, entries, period, from, until);
    if entries != [] {
      var n := |entries| - 1;
      var earlier := Lines(catalog, entries[..n], period, from, until);
      LineIff(catalog, entries[..n], database, period, from, until);
      assert ListedIn(entries, database) <==> ListedIn(entries[..n], database) || entries[n].database == database by {
        if i :| 0 <= i < n && entries[..n][i].database == database {
          assert entries[i].database == database;
        }
        if i :| 0 <= i < |entries| && entries[i].database == database {
          assert i < n ==> entries[..n][i].database == database;
        }
      }
      assert forall i :: 0 <= i < |earlier| ==> lines[i] == earlier[i];
      if HasLine(earlier, database) {
        var i :| 0 <= i < |earlier| && earlier[i].database == database;
        assert lines[i].database == database;
      }
      if 0 < Seconds(catalog, entries[n].database, from, until) {
        assert lines[|earlier|].database == entries[n].database;
      }
    }
  }

  lemma ListedIff(catalog: Catalog, user: nat, database: nat, from: int, until: int)
    ensures ListedIn(UsageEntries(catalog, user, from, until), database) <==> SeenIn(catalog, user, database, from, until)
  {
    var keep := (e: UsageEvent) => e.user == user && from <= e.at <= until;
    var events := Where(catalog.events, keep);
    var entries := UsageEntries(catalog, user, from, until);
    DistinctEntries(events);
    hide Distinct;
    if i :| 0 <= i < |entries| && entries[i].database == database {
      assert entries[i] in entries;
      var j :| 0 <= j < |events| && EntryOf(events[j]) == entries[i];
      WhereMember(catalog.events, keep, events[j]);
      var k :| 0 <= k < |catalog.events| && catalog.events[k] == events[j];
    }
    if k :| 0 <= k < |catalog.events| && catalog.events[k].user == user && catalog.events[k].database == database
            && from <= catalog.events[k].at <= until {
      WhereMember(catalog.events, keep, catalog.events[k]);
      var j :| 0 <= j < |events| && events[j] == catalog.events[k];
      assert EntryOf(events[j]) in entries;
      var i :| 0 <= i < |entries| && entries[i] == EntryOf(events[j]);
    }
  }

  /** A database appears on a user's invoice if and only if it has usage and one of the user's events
      in the period names it. */
  lemma InvoicedIff(catalog: Catalog, user: nat, database: nat, period: nat, from: int, until: int)
    ensures HasLine(Lines(catalog, UsageEntries(catalog, user, from, until), period, from, until), database)
            <==> SeenIn(catalog, user, database, from, until) && 0 < Seconds(catalog, database, from, until)
  {
    LineIff(catalog, UsageEntries(catalog, user, from, until), database, period, from, until);
    ListedIff(catalog, user, database, from, until);
  }

  /** So a database that runs through a whole period without an event has the full period as its
      usage, and is not invoiced. */
  lemma QuietPeriodIsNotInvoiced(catalog: Catalog, user: nat, database: nat, period: nat, from: int, until: int)
    requires from + TICKS_PER_SECOND <= until && Since2000(HistoryOf(catalog.events, database))
    requires Window(HistoryOf(catalog.events, database), from, until) == []
    requires RunningBefore(HistoryOf(catalog.events, database), from)
    ensures Seconds(catalog, database, from, until) == (until - from) / TICKS_PER_SECOND > 0
    ensures !HasLine(Lines(catalog, UsageEntries(catalog, user, from, until), period, from, until), database)
  {
    var history := HistoryOf(catalog.events, database);
    QueryIsWindowOfHistory(catalog.events, database, from, until);
    var past, future := WindowSplits(history, from, until);
    assert [] + future == future;
    PriorHistory(history, past, future, from);
    RunningBeforeIs(history, past, future, from);
    InvoicedIff(catalog, user, database, period, from, until);
    if i :| 0 <= i < |catalog.events| && catalog.events[i].user == user && catalog.events[i].database == database
            && from <= catalog.events[i].at <= until {
      EventInWindow(catalog.events, database, from, until, catalog.events[i]);
    }
  }

  lemma EventInWindow(events: seq<UsageEvent>, database: nat, from: int, until: int, event: UsageEvent)
    requires event in events && event.database == database && from <= event.at <= until
    ensures Window(HistoryOf(events, database), from, until) != []
  {
    var own := Where(events, OfDatabase(database));
    WhereMember(events, OfDatabase(database), event);
    SortIsSortedPermutation(own);
    assert event in multiset(own);
    WhereMember(HistoryOf(events, database), InWindow(from, until), event);
  }
}
