/** The billing service, looping over users, entries and rows. */
module Invoicing {
  import opened Wrappers
  import opened UsageLog
  import opened UsageHours
  import opened MonthlyPeriods
  import opened Pricing
  import opened InvoiceModel
  import opened LiveEstimate

  /** The billing service over its tables. */
  class BillingService {
    var users: seq<nat>
    var events: seq<UsageEvent>
    var plans: map<nat, PlanTemplate>
    var databases: seq<Database>
    var periods: seq<BillingPeriod>
    var items: seq<LineItem>
    var next: nat

    ghost function Tables(): Ledger
      reads this
    {
      Ledger(periods, items, next)
    }

    ghost function Reads(): Catalog
      reads this
    {
      Catalog(events, plans)
    }

    /** One invoice for a user who has something to bill and none for the period yet: the new row is pending, its
        lines bill what was used, each at the least that covers it, and it totals them. */
    method GenerateMonthlyInvoice(user: nat, from: int, until: int) returns (period: Option<BillingPeriod>)
      modifies `periods, `items, `next
      ensures Tables() == InvoiceUser(old(Tables()), Reads(), user, from, until)
      ensures period.None? <==> Tables() == old(Tables())
      ensures period.None? <==> (exists i :: 0 <= i < |old(periods)| && old(periods)[i].user == user && old(periods)[i].from == from)
                                || !Billable(Reads(), user, from, until)
      ensures period.Some? ==>
        && periods == old(periods) + [period.value] && next == old(next) + 1
        && old(items) <= items && items != old(items)
        && period.value
           == BillingPeriod(old(next), user, from, until, TotalCents(items[|old(items)|..]), None, Pending)
        && (SensiblePlans(Reads()) ==>
              BillsUsed(Reads(), items[|old(items)|..], UsageEntries(Reads(), user, from, until), old(next), from, until))
    {
      hide Lines, UsageEntries, Billable, BillsUsed;
      ghost var before := Tables();
      InvoicedOrNot(before, Reads(), user, from, until);
      if exists i :: 0 <= i < |periods| && periods[i].user == user && periods[i].from == from {
        return None;
      }
      var entries := UsageEntries(Catalog(events, plans), user, from, until);
      var lines, total := PriceEntries(entries, from, until);
      if total == 0 && lines == [] {
        return None;
      }
      var row := BillingPeriod(next, user, from, until, total, None, Pending);
      periods := periods + [row];
      next := next + 1;
      AddLineItems(lines);
      assert items[|old(items)|..] == lines;
      return Some(row);
    }

    method PriceEntries(entries: seq<Entry>, from: int, until: int) returns (lines: seq<LineItem>, total: int)
      ensures lines == Lines(Reads(), entries, next, from, until)
      ensures total == TotalCents(lines)
      ensures SensiblePlans(Reads()) ==> BillsUsed(Reads(), lines, entries, next, from, until)
    {
      hide Usage, HistoryOf, Lines, TotalCents, BillsUsed;
      if SensiblePlans(Reads()) {
        LinesBillWhatWasUsed(Reads(), entries, next, from, until);
      }
      lines, total := [], 0;
      NoLines(Reads(), next, from, until);
      assert entries[..0] == [];
      for i := 0 to |entries|
        invariant lines == Lines(Reads(), entries[..i], next, from, until)
        invariant total == TotalCents(lines)
      {
        LinesStep(Reads(), entries, i, next, from, until);
        var seconds := CalculateUsageSeconds(events, entries[i].database, from, until);
        if 0 < seconds {
          var plan := entries[i].plan;
          var cents := 0;
          if plan.Some? && plan.value in plans {
            cents := Charge(seconds, plans[plan.value]);
          }
          TotalAppend(lines, LineItem(next, entries[i].database, plan, seconds, cents));
          total := total + cents;
          lines := lines + [LineItem(next, entries[i].database, plan, seconds, cents)];
        }
      }
      assert entries[..|entries|] == entries;
    }

    method AddLineItems(lines: seq<LineItem>)
      modifies `items
      ensures items == old(items) + lines
    {
      for i := 0 to |lines|
        invariant items == old(items) + lines[..i]
      {
        items := items + [lines[i]];
      }
      assert lines[..|lines|] == lines;
    }

    method UpdatePeriodStatus(id: nat, status: PeriodStatus, invoice: Option<nat>)
      modifies `periods
      ensures periods == WithStatus(old(periods), id, status, invoice)
      ensures |periods| == |old(periods)|
      ensures forall i :: 0 <= i < |periods| ==>
        periods[i] == if old(periods)[i].id != id then old(periods)[i]
                      else old(periods)[i].(status := status,
                                            stripeInvoice := if invoice.Some? then invoice
                                                             else old(periods)[i].stripeInvoice)
    {
      WithStatusRows(periods, id, status, invoice);
      var updated: seq<BillingPeriod> := [];
      for i := 0 to |periods|
        invariant updated == WithStatus(periods[..i], id, status, invoice)
      {
        assert periods[..i + 1][..i] == periods[..i];
        var row := periods[i];
        if row.id == id {
          row := row.(status := status, stripeInvoice := if invoice.Some? then invoice else row.stripeInvoice);
        }
        updated := updated + [row];
      }
      assert periods[..|periods|] == periods;
      periods := updated;
    }

    /** The provider's reply marks the period, and it alone, invoiced under that id; without a reply, or for
        nothing, all stays as it is. */
    method CreateStripeInvoice(period: BillingPeriod, reply: Option<nat>)
      modifies `periods
      ensures Tables() == SendInvoice(old(Tables()), period, reply)
      ensures |periods| == |old(periods)|
      ensures forall i :: 0 <= i < |periods| ==>
        periods[i] == if reply.Some? && period.totalCents != 0 && old(periods)[i].id == period.id
                      then old(periods)[i].(status := Invoiced, stripeInvoice := reply) else old(periods)[i]
    {
      if period.totalCents != 0 && reply.Some? {
        UpdatePeriodStatus(period.id, Invoiced, reply);
      }
    }

    // The body of the monthly run's loop.
    method BillOne(user: nat, from: int, until: int, reply: Option<nat>) returns (invoiced: bool)
      modifies `periods, `items, `next
      ensures Tables() == BillUser(old(Tables()), Reads(), user, from, until, reply)
      ensures |periods| == |old(periods)| + if invoiced then 1 else 0
      ensures invoiced ==>
        var row := periods[|old(periods)|];
        && row.user == user && row.from == from && row.until == until
        && if reply.Some? && row.totalCents != 0 then row.status == Invoiced && row.stripeInvoice == reply
           else row.status == Pending && row.stripeInvoice == None
    {
      var period := GenerateMonthlyInvoice(user, from, until);
      invoiced := period.Some?;
      if period.Some? {
        CreateStripeInvoice(period.value, reply);
      }
    }

    method RunMonthlyBilling(year: int, month: int, stripe: map<nat, nat>) returns (created: nat)
      requires 1 <= month <= 12 && EPOCH_MONTH < MonthIndex(year, month)
      modifies `periods, `items, `next
      ensures var (from, until) := PreviousMonthPeriod(year, month);
              && Tables() == BillUsers(old(Tables()), Reads(), users, from, until, stripe)
              && created == |Unsettled(old(Tables()), Reads(), users, from, until)|
              && (created == 0 <==> Tables() == old(Tables()))
              && (forall u: nat :: u in users && Billable(Reads(), u, from, until) ==>
                    exists i :: 0 <= i < |periods| && periods[i].user == u && periods[i].from == from)
    {
      var (from, until) := PreviousMonthPeriod(year, month);
      created := BillAll(from, until, stripe);
      hide BillUsers, Unsettled, PreviousMonthPeriod;
      RunInvoicesExactly(old(Tables()), Reads(), users, from, until, stripe);
      hide Billable;
      forall u: nat | u in users && Billable(Reads(), u, from, until)
        ensures exists i :: 0 <= i < |periods| && periods[i].user == u && periods[i].from == from
      {
        EveryoneIsInvoiced(old(Tables()), Reads(), users, from, until, stripe, u);
        PeriodThere(Tables(), u, from);
      }
    }

    method BillAll(from: int, until: int, stripe: map<nat, nat>) returns (created: nat)
      modifies `periods, `items, `next
      ensures Tables() == BillUsers(old(Tables()), Reads(), users, from, until, stripe)
      ensures |periods| == |old(periods)| + created
    {
      created := 0;
      hide InvoiceUser, BillUser, SendInvoice, BillUsers;
      ghost var catalog, before := Reads(), Tables();
      NoUsers(before, catalog, from, until, stripe);
      assert users[..0] == [];
      for i := 0 to |users|
        invariant Tables() == BillUsers(before, catalog, users[..i], from, until, stripe)
        invariant |periods| == |old(periods)| + created
      {
        BillUsersStep(before, catalog, users, i, from, until, stripe);
        var invoiced := BillOne(users[i], from, until, Reply(stripe, users[i]));
        created := created + if invoiced then 1 else 0;
      }
      assert users[..|users|] == users;
    }

    method HandleWebhook(event: WebhookEvent, invoice: nat)
      modifies `periods
      ensures Tables() == Webhook(old(Tables()), event, invoice)
      ensures |periods| == |old(periods)|
      ensures forall i :: 0 <= i < |periods| ==>
        periods[i] == if event.OtherEvent? || old(periods)[i].stripeInvoice != Some(invoice) then old(periods)[i]
                      else old(periods)[i].(status := if event.InvoicePaid? then Paid else Failed)
    {
      SettleRows(periods, invoice, Paid);
      SettleRows(periods, invoice, Failed);
      if event.OtherEvent? {
        return;
      }
      var status := if event.InvoicePaid? then Paid else Failed;
      var updated: seq<BillingPeriod> := [];
      for i := 0 to |periods|
        invariant updated == Settle(periods[..i], invoice, status)
      {
        assert periods[..i + 1][..i] == periods[..i];
        updated := updated + [if periods[i].stripeInvoice == Some(invoice) then periods[i].(status := status)
                              else periods[i]];
      }
      assert periods[..|periods|] == periods;
      periods := updated;
    }

    /** The estimate: a line for each existing database on its current plan, then one for each listed
        entry whose database is gone, and their total. */
    method GetCurrentUsage(user: nat, from: int, now: int) returns (lines: seq<UsageLine>, total: int)
      ensures lines == EstimateLines(Reads(), databases, user, from, now)
      ensures total == SumOfLines(lines) == Estimate(Reads(), databases, user, from, now)
      ensures SensiblePlans(Reads()) && from <= now ==> Complete(Reads(), databases, user, from, now, lines)
    {
      if SensiblePlans(Reads()) && from <= now {
        EstimateIsComplete(Reads(), databases, user, from, now);
      }
      hide Complete;
      hide OwnedBy, Distinct, Ids, ExistingLines, DeletedLines, EstimateOfExisting, EstimateOfDeleted, SumOfLines;
      var own := OwnedBy(databases, user);
      var seen;
      lines, total, seen := ExistingUsage(own, from, now);
      var entries := UsageEntries(Catalog(events, plans), user, from, now);
      var gone, more := DeletedUsage(entries, seen, from, now);
      SumConcat(lines, gone);
      lines, total := lines + gone, total + more;
      EstimateIsSumOfLines(Reads(), databases, user, from, now);
    }

    method LineFor(database: nat, name: string, plan: Option<nat>, from: int, now: int) returns (line: UsageLine)
      ensures line == UsageLineFor(Reads(), database, name, plan, from, now)
    {
      var seconds := CalculateUsageSeconds(events, database, from, now);
      var cents, shown := 0, None;
      if plan.Some? && plan.value in plans {
        cents, shown := Charge(seconds, plans[plan.value]), plan;
      }
      return UsageLine(database, name, shown, seconds, cents);
    }

    method ExistingUsage(own: seq<Database>, from: int, now: int)
      returns (lines: seq<UsageLine>, total: int, seen: set<nat>)
      ensures lines == ExistingLines(Reads(), own, from, now) && total == SumOfLines(lines) && seen == Ids(own)
    {
      hide UsageLineFor;
      lines, total, seen := [], 0, {};
      for i := 0 to |own|
        invariant seen == Ids(own[..i])
        invariant lines == ExistingLines(Reads(), own[..i], from, now)
        invariant total == SumOfLines(lines)
      {
        var db := own[i];
        assert own[..i + 1][..i] == own[..i] && own[..i + 1] == own[..i] + [db];
        IdsAppend(own[..i], db);
        seen := seen + {db.id};
        var line := LineFor(db.id, db.name, db.plan, from, now);
        SumAppend(lines, line);
        lines, total := lines + [line], total + line.cents;
      }
      assert own[..|own|] == own;
    }

    method DeletedUsage(entries: seq<Entry>, seen: set<nat>, from: int, now: int)
      returns (lines: seq<UsageLine>, total: int)
      ensures lines == DeletedLines(Reads(), entries, seen, from, now) && total == SumOfLines(lines)
    {
      hide UsageLineFor;
      lines, total := [], 0;
      for i := 0 to |entries|
        invariant lines == DeletedLines(Reads(), entries[..i], seen, from, now)
        invariant total == SumOfLines(lines)
      {
        assert entries[..i + 1][..i] == entries[..i];
        if entries[i].database !in seen {
          var line := LineFor(entries[i].database, entries[i].name, entries[i].plan, from, now);
          SumAppend(lines, line);
          lines, total := lines + [line], total + line.cents;
        }
      }
      assert entries[..|entries|] == entries;
    }
  }
}
