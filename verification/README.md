# Verified model of the DBSaaS API

The API rents out databases: it provisions containers, bills them by the hour, joins them into
private networks with a firewall between, backs them up and gives them names and ports. This
project models that logic in Dafny and proves what it promises, in eight parts.

- **Usage billing** (`UsageLog`, `UsageHours`, `MonthlyPeriods`, `Metering`, `Pricing`,
  `InvoiceModel`, `LiveEstimate`, `Invoicing`, `InvoiceProperties`). A start/stop event log is folded into billed
  seconds, priced, invoiced month by month and estimated live. The fold is compared with an independent definition of running time
  (the last event at or before an instant is a start), for every log: alternating ones are billed
  exactly, all others are accounted for to the tick.
- **Firewall compiler** (`Nftables`, `FirewallCompiler`, `RuleTable`). A rule list means a first-match
  decision; the service emits a script; a small nftables interpreter says what running the script
  makes the host do. The two decisions are proved equal, and peerings are proved not to disturb one
  another.
- **Networks and peerings** (`PeeringModel`, `PeeringService`, `PeeringSafety`, `PeeringFirewall`,
  `PeeringLimits`, `PeeringAnswers`, `PeeringTenants`, `PeeringRuns`). Every handler, and the spawned activation task, is a method
  over the tables and Docker attachments, proved equal to a step function; what every run of those steps keeps is
  proved once for containers on bridges, for firewall tables, for quotas and server placement, and for what users
  can do to one another.
- **Ports and the life of a database** (`PortPool`, `DatabaseLifecycle`, `DatabaseService`). Creation,
  bundles, clones, late failures, deletes with their spawned tails, and restarts share one allocator.
- **Backups** (`Backups`), **placement** (`Placement`), **subdomains** (`Subdomain`) and **SQL quoting**
  (`SqlQuoting`).

Where a promise fails, the condition under which it holds is proved exactly, and the failure is shown by
a concrete case, for the network routes a run from the empty platform, or for every case at once:

- a second start under-bills; a stop or delete of what is stopped bills the time since the period began
  if it is the period's first event; scaling a stopped database bills it;
- a database listed on a second plan that costs something is charged in full on both; one without an
  event in the month is not invoiced;
- the first rule of an active peering makes the host drop what it let pass, and deleting that rule does
  not undo it; rules stored while a peering is pending wait for the next rule change;
- a network's first attachment can leave compiled rules stale;
- detaching a database that a peered network shares takes it off the bridge it still belongs on;
- deleting a peering before its activation leaves a stray bridge;
- a local network with a Docker network takes the server of a remote database that asks to join, and
  Docker then refuses the database: from there on a detach of the network's members leaves their
  containers on its bridges and its Docker network, and deleting it leaves those standing;
- a bridge does not get the members that run on another daemon than the peering's, and networks
  peered while both are local have their bridge on the platform's own; peered networks can end up
  on different servers;
- deleting a database in error puts two live ones on one port, and gives the port away; failed inserts, failed clones and restarts leak
  ports;
- setting a database that is being deleted running again can push a server above its maximum;
- a retention of zero deletes the backup just made.

Time is in integer ticks; money in cents; hours times price is the exact fraction
seconds * cents / 3600. Docker, SQL, Stripe and the clock are parameters: a step that has a failure
branch takes the outcome as an argument. A Docker call has an effect only on the daemon that has the
network it names; which daemon a server leads to is a parameter too. `dafny verify dfyconfig.toml` checks everything.

## Model

| member | source | states |
|---|---|---|
| UsageLog.QueryIsWindowOfHistory | api/src/repository/billing_repo.rs:140-157 | Filtering by database and inclusive window and then ordering gives the same rows as cutting the window out of the database's ordered history, so all windows of one database are consistent with each other |
| UsageLog.SortIsSortedPermutation | api/src/repository/billing_repo.rs:140-157 | The ordering returns the selected rows, each as often as stored, earliest first |
| UsageLog.RunningTicksAdd | api/src/services/billing.rs:13-74 | The reference running time over adjacent periods adds up |
| UsageHours.FoldEvents | api/src/services/billing.rs:43-73 | The loop over the window's events, with the overwritten start and the open end, computes the fold that the lemmas below compare with running time |
| UsageHours.CalculateUsageSeconds | api/src/services/billing.rs:13-74 | The whole computation, with its first-event-is-stop guess and empty-window fallback, does so for the stored table and any period |
| UsageHours.UsageAccounting | api/src/services/billing.rs:13-74 | For every log, alternating or not: billed time plus what repeated starts wipe out equals running time plus what a stray opening stop makes the code guess |
| UsageHours.UsageIsRunningTime | api/src/services/billing.rs:13-74 | On an alternating log billed time equals the time whose last event is a start, whether the period opens stopped, opens running, or has no event |
| UsageHours.SubSecondShortfall | api/src/services/billing.rs:32-73 | With fractions of a second the bill never exceeds running time and falls short by less than a second per counted stretch |
| UsageHours.WholeSecondUsageIsExact | api/src/services/billing.rs:13-74 | With whole-second timestamps the seconds billed are the running time |
| UsageHours.UsageIsAdditive | api/src/services/billing.rs:26-73 | Usage over two adjacent periods equals usage over their union, also when an event falls on the common end that both queries include |
| UsageHours.UsageBounds | api/src/services/billing.rs:13-74 | Every log yields between nothing and the full period |
| UsageHours.WholeSecondsAreKept | api/src/services/billing.rs:32-73 | With whole-second timestamps truncating each stretch loses nothing, whatever the log |
| UsageHours.IdleStopAdds | api/src/services/billing.rs:39-60 | A stop of what is stopped, at t, adds t minus the start of the period to its bill if and only if it is the period's first event |
| MonthlyPeriods.ConsecutiveRunsBillAdjacentPeriods | api/src/services/billing.rs:356-368 | Runs made in consecutive months bill adjacent, non-empty periods, over New Year too |
| MonthlyPeriods.MonthsAddUp | api/src/services/billing.rs:356-368 | The seconds of any number of monthly runs sum to the running time between the first and last midnight |
| MonthlyPeriods.MonthsFollowTheCalendar | api/src/services/billing.rs:356-368 | The first of a month and the first of the next are as far apart as the Gregorian month is long, leap years included |
| MonthlyPeriods.RunBillsTheMonthBefore | api/src/services/billing.rs:356-368 | A run on any day of a month bills from the first of the month before to the first of its own |
| MonthlyPeriods.HistoryStartsIn2000 | api/src/services/billing.rs:26-37 | The query for all earlier history starts at midnight of the first of January 2000 |
| Metering.ActionKeepsLogFaithfulIff | api/src/handlers/databases.rs:741-795 | The events an action records keep the log true to the container if and only if the action fits the container's state |
| Metering.ActionKeepsLogTruthfulIff | api/src/handlers/databases.rs:741-795 | The log's last word stays the container's state if and only if the action is not a restart or scaling of a container that is down |
| Metering.LogTellsTheTruth | api/src/handlers/databases.rs:765-785 | In every run without such an action the log says "running at t" exactly when the container was up at t |
| Metering.WatchedRunIsAccountedFor | api/src/handlers/databases.rs:741-1332 | In every such run the seconds billed for a period plus what second starts wipe out are the seconds up plus what an opening stop makes the fold guess |
| Metering.DeletingTheStopped | api/src/handlers/databases.rs:1284-1288 | Deleting or stopping a stopped database adds the time since the period began to its bill if and only if that is the period's first event of it, and nothing otherwise; it was not up for any of it |
| Metering.StoppedThenDeletedIsBilled | api/src/handlers/databases.rs:1284-1288 | A concrete life, stopped and later deleted, billed an hour in a period in which it never ran |
| Metering.OrderlyRunIsBilledForItsUptime | api/src/handlers/databases.rs:312-313 | When every action fits the container's state the seconds billed for any period are the seconds it was up |
| Metering.SecondStartIsUnderBilled | api/src/services/billing.rs:47-55 | A concrete log whose second start makes the bill half the running time |
| Metering.ScalingWhileStoppedIsBilled | api/src/handlers/databases.rs:1920-1926 | Scaling a stopped database makes it billed while it is down |
| Metering.ScalingIsRecorded | api/src/handlers/databases.rs:1920-1926 | Scaling adds a stop on the plan it ends and a start on the plan it begins, at the same moment |
| Metering.PlansFollow | api/src/handlers/databases.rs:1920-1926 | However often a database is scaled, every stop carries the plan of the start it ends, and the latest start carries the plan in force |
| Pricing.ChargeIsLeastCover | api/src/services/billing.rs:76-80 | The charge is the least whole number of cents covering the exact hourly price, or the monthly price if that is less; the 32-bit cast never shows |
| Pricing.ChargeBounds | README.md:21-21 | Never above the monthly cap, less than a cent above the exact price, and covering it while uncapped |
| Pricing.ChargeIsMonotone | api/src/services/billing.rs:76-80 | More usage never costs less |
| Pricing.ChargeIsSubadditive | api/src/services/billing.rs:76-80 | Splitting a stretch in two never makes it cheaper |
| Pricing.SplittingNeverSaves | api/src/services/billing.rs:76-80 | Nor does splitting it into any number of pieces |
| InvoiceModel.DistinctEntries | api/src/repository/billing_repo.rs:159-178 | The distinct query lists every (database, name, plan) that an event of the window carries, once |
| InvoiceModel.PriceIsLeastCover | api/src/services/billing.rs:76-80 | A price is at most c cents if and only if the exact hourly price of the seconds or the monthly price is; without a plan on file it is nothing |
| InvoiceModel.LinesBillWhatWasUsed | api/src/services/billing.rs:111-143 | The lines of an invoice are those of the listed entries with usage and no others: the database's seconds in the period, at the least cents that cover them on the entry's plan |
| InvoiceModel.EligibleIff | api/src/services/billing.rs:102-136 | A user has something to bill if and only if one of their events in the period is of a database with usage in it |
| InvoiceModel.UnsettledIff | api/src/services/billing.rs:89-136 | A monthly run has a user to invoice if and only if the user is listed, has something to bill and no period of that month |
| Invoicing.BillingService.GenerateMonthlyInvoice | api/src/services/billing.rs:82-157 | One user's invoice: nothing changes when the period exists or there is nothing to bill, otherwise exactly one pending period is added, with one line for each listed database and plan with usage, the usage of that database in seconds and the least cents that cover it, and their total |
| Invoicing.BillingService.PriceEntries | api/src/services/billing.rs:111-143 | The pricing loop yields one line per listed entry with usage, each with the seconds of its database and the least cents that cover them, and their total |
| Invoicing.BillingService.AddLineItems | api/src/repository/billing_repo.rs:203-224 | The lines are appended in order and nothing else changes |
| Invoicing.BillingService.UpdatePeriodStatus | api/src/repository/billing_repo.rs:226-241 | Status and, when given, invoice id change on the row with that id only; an absent invoice id keeps the stored one |
| Invoicing.BillingService.CreateStripeInvoice | api/src/services/billing.rs:243-330 | A provider's reply sets the period's status to invoiced and stores the invoice id, on that row alone; a zero total or no reply changes nothing |
| Invoicing.BillingService.BillOne | api/src/services/billing.rs:375-391 | One turn of the monthly run reports an invoice exactly when one was added |
| Invoicing.BillingService.RunMonthlyBilling | api/src/services/billing.rs:355-394 | The monthly run bills every user for the previous month and reports exactly as many invoices as there are listed users with something to bill and no period yet; it reports zero if and only if nothing changed |
| InvoiceModel.RunInvoicesExactly | api/src/services/billing.rs:370-393 | A run adds one period for each such user and none for anyone else |
| Invoicing.BillingService.HandleWebhook | api/src/services/billing.rs:332-353 | Every row with the event's invoice id becomes paid after a paid event and failed after a failed one, its other columns unchanged; every other row, and every row after any other event, is as before |
| InvoiceModel.LastEventDecides | api/src/services/billing.rs:332-353 | After any sequence of events the last paid or failed one for an invoice decides its rows' status |
| Invoicing.BillingService.GetCurrentUsage | api/src/services/billing.rs:159-241 | The live estimate, line by line and in total: it shows exactly the user's existing databases on their current plans and the deleted ones of the period's events, each with its usage and the least price that covers it |
| LiveEstimate.EstimateIsSumOfLines | api/src/services/billing.rs:169-240 | The estimate's total is the sum of its lines |
| LiveEstimate.EstimateIsComplete | api/src/services/billing.rs:173-235 | The estimate shows each of the user's databases on its current plan, each event of the period whose database the user no longer has, and nothing else, every line with its usage and the least price that covers it |
| InvoiceProperties.EveryRunKeepsTablesSound | api/src/services/billing.rs:89-156 | Over every sequence of events, plan changes, monthly runs and webhooks there is at most one period per user and month, and each total is the sum of its lines |
| InvoiceProperties.EveryRunStaysCapped | README.md:21-21 | And no total exceeds the monthly prices, as they were at the run that made it, of the plans it lists, whatever prices change before or after, so it fits 32 bits whenever their sum does |
| InvoiceProperties.PeriodsSurvive | api/src/services/billing.rs:89-100 | An invoiced month stays invoiced through every sequence of actions |
| InvoiceProperties.RunHandsOver | api/src/services/billing.rs:370-391 | A monthly run leaves every earlier invoice as it was, and marks each new one invoiced under the id the provider answered for its own user, or leaves it pending where there was no answer or nothing to pay |
| InvoiceProperties.RepeatAfterAnything | api/src/services/billing.rs:370-393 | A month run again after any actions adds one period for each listed user with something to bill by then and no period, changes the tables if and only if there is one, and nobody who had something to bill at the first run is among them |
| InvoiceProperties.RepeatedRunChangesNothing | api/src/services/billing.rs:89-100 | So a repeat after any events, price changes and payments changes nothing and invoices nobody while no user has become eligible |
| InvoiceProperties.InvoiceMinusEstimate | api/src/services/billing.rs:102-240 | Over one period invoice and estimate differ by exactly what existing databases are billed beyond, or short of, one price each |
| InvoiceProperties.ListedOnceIff | api/src/services/billing.rs:102-136 | An existing database with usage, listed under its current plan, is invoiced one price if and only if every other entry of it is on a plan that costs nothing |
| InvoiceProperties.UnlistedIff | api/src/services/billing.rs:102-136 | One that is not listed is not invoiced, and the estimate agrees if and only if it has no usage or its plan costs nothing |
| InvoiceProperties.InvoiceEqualsEstimateIff | api/src/services/billing.rs:102-240 | Where every existing database with usage is listed under its current plan, the invoice is at least the estimate, and equal if and only if none of them is listed under another plan that costs something |
| InvoiceProperties.InvoiceEqualsEstimate | api/src/services/billing.rs:102-240 | They agree when each existing database appears under one name and its current plan, and every one with usage has an event in the period |
| InvoiceProperties.EveryPlanIsChargedInFull | api/src/repository/billing_repo.rs:159-178 | A database listed on two plans is charged its whole usage on both |
| InvoiceProperties.ScaledDatabaseIsBilledTwice | api/src/handlers/databases.rs:1920-1926 | A concrete case: an hour invoiced at both plans' prices, estimated at the current one's |
| InvoiceProperties.InvoicedIff | api/src/services/billing.rs:102-130 | A database has a line on the invoice if and only if it has usage and one of the user's events in the period names it |
| InvoiceProperties.QuietPeriodIsNotInvoiced | api/src/services/billing.rs:26-45 | A database that runs through a whole period without an event has the full period as usage and no line |
| Nftables.ExecuteConcat | api/src/services/provisioner.rs:1002-1038 | Running one script after another is running their concatenation |
| Nftables.Host.ExecOnHost | api/src/services/provisioner.rs:1002-1038 | The host's ruleset after a script is what its commands make of the one before, in order, a failing command changing nothing |
| FirewallCompiler.ValidateNftValue | api/src/services/provisioner.rs:1040-1050 | Accepted exactly: 1 to 64 characters, all letters, digits or one of `. / - _ :` |
| FirewallCompiler.ValidateRule | api/src/services/provisioner.rs:1083-1099 | A rule is accepted exactly when both subnets, its protocol (tcp if none) and its port are valid |
| FirewallCompiler.AcceptedValuesAreWords | api/src/services/provisioner.rs:1040-1050 | An accepted value holds no space, line break, quote, semicolon or brace, so that it stays one word of the script |
| FirewallCompiler.ApplyFirewallRules | api/src/services/provisioner.rs:1054-1117 | The rule loop: a list rejected anywhere leaves the host as it was, an accepted one runs the whole script once |
| FirewallCompiler.RemoveFirewallRules | api/src/services/provisioner.rs:1119-1132 | Only the peering's own table goes |
| FirewallCompiler.ScriptInstallsTable | api/src/services/provisioner.rs:1067-1116 | On any prior ruleset the script leaves exactly one table for the peering, freshly compiled, and every other table as it was |
| FirewallCompiler.CompilationPreservesMeaning | api/src/services/provisioner.rs:1073-1113 | For every packet the compiled table accepts off-bridge and established traffic, otherwise applies the first matching rule, otherwise drops |
| FirewallCompiler.ApplyingSparesOtherTableIff | api/src/services/provisioner.rs:1064-1068 | Applying one peering's rules keeps another's differing table if and only if the ids differ in their first eight characters |
| FirewallCompiler.HostHoldsWhatIsInForce | api/src/services/provisioner.rs:1054-1132 | After any sequence of applications and removals the host holds the compiled table of each list in force and nothing else |
| FirewallCompiler.PeeringsDoNotInterfere | api/src/services/provisioner.rs:1054-1132 | The combined verdict of all tables on a packet crossing one bridge is that peering's own decision |
| FirewallCompiler.OffBridgeTrafficPasses | api/src/services/provisioner.rs:1073-1081 | A packet that stays on no peering's bridge passes |
| RuleTable.RulesOfOrdered | api/src/repository/private_network_repo.rs:337-345 | The rules read for a peering are exactly its own, by priority and then age |
| RuleTable.AddedRuleDecidesExactly | api/src/handlers/private_networks.rs:636-646 | A newly stored rule changes the decision on exactly the non-established on-bridge packets that match it and no rule of the same or a smaller priority |
| RuleTable.DeletingUndoesAdding | api/src/handlers/private_networks.rs:652-679 | Deleting the rule just added restores the decision on every packet, for any list and any priority |
| PeeringLimits.NetworkCreatedIff | api/src/handlers/private_networks.rs:37-66 | A network is created if and only if the user owns fewer than ten; its row is the user's, without server, Docker network or subnet, and no other row changes |
| PeeringLimits.AttachedOnce | api/src/handlers/private_networks.rs:206-330 | An attachment is accepted if and only if network and database are the user's, the database runs and has a container, is on the network's server if that has one, is no member yet, the members are fewer than twenty, the Docker network is or can be made on the database's daemon, and Docker connects; then there is one more member and the same request is a conflict; otherwise nobody has joined anything |
| PeeringLimits.DetachingUndoesAttaching | api/src/handlers/private_networks.rs:206-387 | Detaching the database just attached gives back its membership and its place on the Docker network, and every bridge as it was if and only if none of those it joined had the container already |
| PeeringAnswers.AttachWrites | api/src/handlers/private_networks.rs:265-330 | Past the checks the network's row takes the database's server whatever Docker says, and the Docker network on its daemon with the subnet reported if Docker makes it; the container joins exactly the bridges of the network's active peerings on that daemon, if it joins at all |
| PeeringAnswers.DetachedIff | api/src/handlers/private_networks.rs:333-387 | A detach is accepted if and only if the network is the user's; the membership goes in any case, and the container leaves exactly the Docker network and the active bridges on the daemon the network's server leads to |
| PeeringService.NetworkService.Prepare | api/src/handlers/private_networks.rs:265-293 | The network's server, written first, and its lazily created Docker network with the subnet Docker reports; if Docker refuses, the server stays |
| PeeringService.NetworkService.Connect | api/src/handlers/private_networks.rs:294-300 | The container joins the Docker network if and only if the daemon addressed has it and is willing; otherwise nothing changes |
| PeeringService.NetworkService.Attach | api/src/handlers/private_networks.rs:206-330 | Checks, server, Docker network, connection, membership and the loop over active bridges; a check that fails changes nothing, a call that Docker refuses keeps the rows written by then |
| PeeringService.NetworkService.SyncAttach | api/src/handlers/private_networks.rs:305-315 | The container joins exactly the bridges of the network's active peerings that are on the daemon addressed |
| PeeringService.NetworkService.Detach | api/src/handlers/private_networks.rs:333-387 | The membership goes, checked or not; Docker network and active bridges lose the container as far as the network's server leads to their daemon |
| PeeringService.NetworkService.SyncDetach | api/src/handlers/private_networks.rs:359-369 | The container leaves exactly the bridges of the network's active peerings that are on the daemon addressed |
| PeeringLimits.PeeringRequestedOnce | api/src/handlers/private_networks.rs:444-447 | Once requested, the same two networks cannot be peered again, named in either order |
| PeeringLimits.PeeringAcceptedIff | api/src/handlers/private_networks.rs:421-468 | A peering request is accepted if and only if the two networks differ, are the user's, are not on two servers and are not peered yet, and the user has fewer than ten peerings; row and task then take the server that either network has, and none if neither has one |
| PeeringLimits.RequestedAndActivated | api/src/handlers/private_networks.rs:460-501 | When every member of both networks runs on the daemon such a server leads to, request followed by activation puts exactly both networks' containers on the bridge |
| PeeringLimits.RuleAcceptedIff | api/src/handlers/private_networks.rs:590-641 | A rule is stored if and only if the peering is the user's, the action is allow or deny, both networks are the peering's, port and protocol, if given, are a port and tcp or udp, and there are fewer than twenty; its row is what was asked for, with priority 100 if none was |
| PeeringAnswers.ActivationDoes | api/src/handlers/private_networks.rs:461-513 | The task makes the peering active with exactly the containers of both networks' members on the server's daemon on the bridge, or marks it failed; a peering deleted meanwhile is not brought back |
| PeeringAnswers.PeeringDeletedIff | api/src/handlers/private_networks.rs:545-587 | A peering is deleted if and only if it is the user's; its rules, its table and the members on its bridge go, the bridge too once nothing is left on it, and everything of every other peering stays |
| PeeringAnswers.NetworkDeletedIff | api/src/handlers/private_networks.rs:122-203 | Likewise for a network, with all its peerings and memberships, and its Docker network once empty and if its server leads to it |
| PeeringAnswers.RuleDeletedIff | api/src/handlers/private_networks.rs:652-679 | A rule is deleted if and only if it is one of a peering of the user's; all other rows stay, and nothing else changes while the peering is not active |
| PeeringLimits.DeletingUndoesRequesting | api/src/handlers/private_networks.rs:417-587 | Deleting the request gives everything back except the task it spawned, which holds both networks and their server |
| PeeringService.NetworkService.RunActivation | api/src/handlers/private_networks.rs:461-513 | The spawned task: a bridge on the daemon of the server it was given, with the members at that time that run there, and an active row; an error row; or a bridge without a row |
| PeeringService.NetworkService.AttachMembers | api/src/handlers/private_networks.rs:486-499 | The member loop puts exactly the containers of the network's members on that daemon on the bridge |
| PeeringService.NetworkService.DetachMembers | api/src/handlers/private_networks.rs:567-578 | The member loop takes exactly those containers off |
| PeeringService.NetworkService.Delete | api/src/handlers/private_networks.rs:545-587 | The peering goes with its table, its bridge once empty, and its rules |
| PeeringService.NetworkService.RemovePeeringsOf | api/src/handlers/private_networks.rs:135-167 | Removing a network's peerings one by one equals removing them at once |
| PeeringService.NetworkService.EmptyDockerNetwork | api/src/handlers/private_networks.rs:169-197 | On the daemon that has it, the detach loop takes exactly the members off the Docker network, which is removed if that empties it |
| PeeringService.NetworkService.DeleteWholeNetwork | api/src/handlers/private_networks.rs:122-203 | The network goes with its peerings, memberships and, once empty and if its server leads to it, its Docker network |
| PeeringService.NetworkService.RequestDelete | api/src/handlers/databases.rs:1271-1303 | The request to delete a database takes its container off the Docker networks it is on, one by one, and marks the row |
| PeeringFirewall.RowMeansIff | api/src/handlers/private_networks.rs:691-704 | A rule compiled from a stored row matches a packet if and only if the source lies in the subnet stored for the row's source network, the destination in the one for its destination network (a network without a subnet is every address), and the port clause holds |
| PeeringFirewall.StoredRowsDecide | api/src/repository/private_network_repo.rs:337-345 | The decision compiled for a peering is that of its stored row that matches with the smallest priority, the oldest among equals, and a drop if none does |
| PeeringService.NetworkService.AddRule | api/src/handlers/private_networks.rs:590-649 | A checked rule is stored; the host is told only while the peering is active |
| PeeringService.NetworkService.RemoveRule | api/src/handlers/private_networks.rs:652-679 | A rule of this peering is deleted; the host is told only while the peering is active |
| PeeringSafety.EveryStepKeepsIff | api/src/handlers/private_networks.rs:122-587 | Each step keeps containers on bridges only as members, and Docker networks in step, if and only if it is not a detach that misses a container; it keeps bridges exact if and only if it is none of the attachments, detaches and activations named below |
| PeeringSafety.EveryRunIsConsistent | api/src/handlers/private_networks.rs:122-587 | In every reachable state, refusals included, rows refer to rows that exist, all members of a network run on the one daemon that has its Docker network, and a peering's status, bridge and task agree |
| PeeringSafety.EveryRunIsSound | api/src/handlers/private_networks.rs:122-587 | In every run in which no detach misses a container, also between a delete request and its cleanup, a container is on a peering's bridge only if its database is a member of one of the peered networks, and a Docker network holds its members' containers up to those being deleted |
| PeeringSafety.DetachKeepsSoundIff | api/src/handlers/private_networks.rs:347-373 | A detach leaves a container on a bridge no longer its own, or on the Docker network, if and only if the membership exists, the container is there, and the network's server leads to another daemon than the one that has its Docker network (for a bridge, if the peered network does not have the database either) |
| PeeringLimits.StepKeepsSettledIff | api/src/handlers/private_networks.rs:236-300 | Docker networks stay where their networks' servers lead if and only if the step is not an attachment, past the checks, of a database on another daemon than the one that has the Docker network |
| PeeringLimits.NothingStranded | api/src/handlers/private_networks.rs:122-587 | In every run without such an attachment they all stay there, and no detach misses a container |
| PeeringSafety.NetworksExact | api/src/handlers/private_networks.rs:295-300 | With no delete in flight a Docker network holds exactly its members' containers |
| PeeringSafety.BetweenRequestAndCleanup | api/src/handlers/databases.rs:1284-1332 | After the request the container is off its Docker networks, still on its bridges and still a member; the cleanup then reaches the state that removing at once would have |
| PeeringSafety.EveryRunKeepsBridgesInStep | api/src/handlers/private_networks.rs:302-501 | In every run without the steps that break them an active bridge holds exactly the containers of both networks' members, whatever the order of attach, detach and activation |
| PeeringSafety.AttachKeeps | api/src/handlers/private_networks.rs:302-315 | An attachment keeps active bridges exact if and only if it does not connect a database to a network with an active peering on another daemon |
| PeeringSafety.ActivateKeeps | api/src/handlers/private_networks.rs:460-501 | An activation keeps them exact if and only if every member of both networks runs on the daemon of the peering's server |
| PeeringSafety.DetachKeepsBridgesInStepIff | api/src/handlers/private_networks.rs:333-387 | A detach keeps every active bridge exact if and only if each one it reaches is of a peering whose other network does not have the database, and each it does not reach is of one where that network has it or this one did not |
| PeeringSafety.RemovalLeavesNothing | api/src/handlers/private_networks.rs:557-584 | The detach loops have emptied an active bridge before it is removed: table, bridge, row and rules are gone |
| PeeringSafety.DropNetworkKeeps | api/src/handlers/private_networks.rs:135-197 | Deleting a network keeps the invariants and removes its row; its Docker network goes too if and only if it is on the daemon the network's server leads to |
| PeeringSafety.ActiveUntilDeleted | api/src/handlers/private_networks.rs:461-587 | An active peering stays active until it is deleted |
| PeeringSafety.StepKeepsTidyIff | api/src/handlers/private_networks.rs:459-584 | A step leaves a stray task or bridge behind if and only if it deletes a peering still waiting for its activation |
| PeeringSafety.StrayBridgeOutlivesMembership | api/src/handlers/private_networks.rs:359-513 | What such a stray leads to: the container stays on a bridge between two networks neither of which has it, if and only if it runs on the daemon the request chose |
| PeeringFirewall.ReapplyIsAccepted | api/src/handlers/private_networks.rs:590-715 | The handlers' checks imply the compiler's, so recompiling stored rules is never refused |
| PeeringFirewall.EveryStepKeepsFirmIff | api/src/handlers/private_networks.rs:122-715 | A step keeps every firewall table current if and only if it does not give a subnet to a network that compiled rules name |
| PeeringFirewall.AttachKeepsFirmIff | api/src/handlers/private_networks.rs:265-300 | The one exception, exactly: an attachment that makes the Docker network, whether or not it then connects, whose subnet reads differently, with a rule of a peering that has a table naming the network |
| PeeringFirewall.EveryRunKeepsTablesCurrent | api/src/handlers/private_networks.rs:135-715 | In every run without that exception each table belongs to an existing, active peering and compiles exactly its stored rules |
| PeeringFirewall.TableAppearsIff | api/src/handlers/private_networks.rs:501-679 | A peering has a table after a step if and only if it had one or the step changed its rules while it was active |
| PeeringFirewall.HostDecides | api/src/handlers/private_networks.rs:682-715 | The whole host's verdict on a packet crossing a peering's bridge, from the stored rows and subnets alone: established traffic passes, otherwise the peering's first matching row decides once it has a table, and all passes before; other packets pass |
| PeeringFirewall.AddedRuleOnHost | api/src/handlers/private_networks.rs:636-646 | On the host, a rule added to any active peering decides exactly the packets it matches and no stored row of the same or a smaller priority does; the other packets on its bridge get what the rows stored before say, which is what they got already if the peering had a table; no other verdict changes |
| PeeringFirewall.DroppingUndoesAddingIff | api/src/handlers/private_networks.rs:590-679 | Adding a rule and deleting it puts all tables and the host back exactly if and only if the peering is not active or had a table |
| PeeringFirewall.FirstRuleClosesTheBridge | api/src/handlers/private_networks.rs:643-676 | Without a table everything on the bridge passes; the first rule then acts on packets between the stored subnets it names and drops what it does not match; deleting it drops everything outside established connections |
| PeeringFirewall.PendingRulesWait | api/src/handlers/private_networks.rs:461-646 | Rules stored while a peering is pending do not act then, nor once it is activated |
| PeeringTenants.EveryRunKeepsOneOwner | api/src/handlers/private_networks.rs:37-679 | In every reachable state a network's members and its peerings belong to its owner |
| PeeringTenants.BridgesHoldTheOwners | api/src/handlers/private_networks.rs:305-501 | So a container on a peering's bridge is that of a database of the peering's owner |
| PeeringTenants.RequestsDisturbNobodyElse | api/src/handlers/private_networks.rs:37-679 | Whatever a user requests, accepted or refused, everybody else's networks, members, databases, peerings, bridges, rules and tables stay as they were |
| PeeringTenants.OthersDisturbNobody | api/src/handlers/private_networks.rs:37-679 | In every run any number of requests of other users in a row leave a user with exactly what they had |
| PeeringLimits.EveryRunStaysWithinLimits | api/src/handlers/private_networks.rs:37-649 | In every reachable state at most ten networks and ten peerings per user, twenty members per network, twenty rules per peering, and no two peerings of one pair |
| PeeringLimits.EveryReachableState | api/src/handlers/private_networks.rs:37-715 | From the empty platform on: all of the above invariants together, each under its own condition on the run |
| PeeringLimits.EveryRunKeepsOneServer | api/src/handlers/private_networks.rs:236-300 | In every run in which no remote database asks to join a network with local members, all members are on the network's server |
| PeeringLimits.EveryRunKeepsPeersTogether | api/src/handlers/private_networks.rs:436-442 | In every run in which no local network takes a server other than its peers', peered networks are on one server as far as they are on any |
| PeeringLimits.AttachKeepsOneServerIff | api/src/handlers/private_networks.rs:236-300 | Each attachment past the checks, accepted by Docker or refused: the network's row stays on its members' server if and only if the request is not for a remote database and a network with local members |
| PeeringLimits.AttachKeepsPeersAgreeIff | api/src/handlers/private_networks.rs:436-442 | Each attachment: peered networks stay on one server if and only if a local network does not take the server of a database elsewhere than its peer |
| PeeringRuns.FirstRuleRun | api/src/handlers/private_networks.rs:643-676 | A run from the empty platform in which allowing one port closes the bridge and deleting the rule does not open it |
| PeeringRuns.SharedDetachRun | api/src/handlers/private_networks.rs:359-373 | A run from the empty platform to a detach that takes a shared database off a bridge it belongs on |
| PeeringRuns.StaleRulesRun | api/src/handlers/private_networks.rs:272-293 | A run from the empty platform to an attachment that leaves a table stale |
| PeeringRuns.ShortBridgeRun | api/src/handlers/private_networks.rs:455-482 | A run from the empty platform in which networks are peered while local, a remote database is attached with success, and the bridge its container belongs on stays empty |
| PeeringRuns.RefusedAttachRun | api/src/handlers/private_networks.rs:265-300 | A run from the empty platform to an attachment that Docker refuses, after which the network's row is on one server, and its member and Docker network on another |
| PeeringRuns.LeftBehindRun | api/src/handlers/private_networks.rs:169-377 | That run continued: a detach leaves the container on an active bridge and the Docker network as a member of nothing, and deleting the network leaves both standing with the container on them |
| PeeringRuns.PeersPartRun | api/src/handlers/private_networks.rs:436-442 | A run from the empty platform to two peered networks on different servers |
| PeeringRuns.StrayBridgeRun | api/src/handlers/private_networks.rs:461-587 | A run from the empty platform to a container on a bridge between two networks that do not have it |
| PortPool.FirstFree | api/src/utils/port_pool.rs:30-39 | The port found is the smallest of the range not handed out; none is found exactly when all are |
| PortPool.Pool.LoadAllocated | api/src/utils/port_pool.rs:21-28 | Stored ports that fit sixteen bits are marked, others ignored |
| PortPool.Pool.Allocate | api/src/utils/port_pool.rs:30-39 | The scan hands out that port and marks it, or fails and changes nothing |
| PortPool.Pool.Release | api/src/utils/port_pool.rs:41-44 | Only the given port is unmarked |
| PortPool.ReleasedPortComesBack | api/src/utils/port_pool.rs:30-44 | A released port is the next one handed out unless a smaller one was free |
| DatabaseService.Service.Create | api/src/handlers/databases.rs:159-215 | A port, a row and a task; a row that cannot be inserted leaves the port marked |
| DatabaseService.Service.Bundle | api/src/handlers/databases.rs:435-500 | Two ports with rollback of the first, two rows, one task |
| DatabaseService.Service.Clone | api/src/handlers/databases.rs:2052-2085 | As creation, with a task that does not give the port back |
| DatabaseService.Service.EndBuild | api/src/handlers/databases.rs:327-671 | The provisioning tail: rows that still exist become running, or error with their ports released |
| DatabaseLifecycle.LastActionDecides | api/src/handlers/databases.rs:741-785 | An action is accepted exactly on the user's own database with a container, whatever its status; it changes that status alone, and the last action decides |
| DatabaseLifecycle.DeleteThenCleanupIsForce | api/src/handlers/databases.rs:1271-1332 | The request and its cleanup together do what the administrator's delete does at once |
| DatabaseLifecycle.DeletingUndoesCreating | api/src/handlers/databases.rs:159-1332 | A database created, provisioned, deleted and cleaned up leaves rows, port pool and tasks as they were |
| DatabaseService.Service.AllocatedPorts | api/src/repository/database_repo.rs:137-143 | The ports read at start-up are those of the rows not being deleted |
| DatabaseService.Service.Reboot | api/src/main.rs:74-79 | A new pool marking those ports; tasks in flight are gone |
| DatabaseLifecycle.EveryCarefulStepKeeps | api/src/handlers/databases.rs:95-2173 | Every creation, bundle, clone, late success or failure, action, delete and restart keeps live databases on ports of their own, all marked |
| DatabaseLifecycle.EveryCarefulRunKeepsPortsApart | api/src/handlers/databases.rs:95-2173 | In every run where only running or stopped databases are deleted, each once, and restarts find no delete in flight, databases not in error hold pairwise distinct ports, all marked taken |
| DatabaseLifecycle.RemovalKeepsPortsIff | api/src/handlers/databases.rs:1323-1332 | A cleanup leaves every live port marked if and only if no other live row has the port it captured |
| DatabaseLifecycle.StepKeepsPortsTakenIff | api/src/handlers/databases.rs:95-2173 | For every step, careful or not, live databases keep their ports marked if and only if the step neither gives back a port another live one has, nor revives one whose port was given back, nor restarts while one being deleted has a port no other row has |
| DatabaseLifecycle.StepKeepsPortsApartIff | api/src/handlers/databases.rs:95-2173 | For every step, careful or not, live databases stay on ports of their own if and only if the step does not store a row on a free-looking port a live one has, nor revive a row, act on one or delete one whose port another live one has |
| DatabaseLifecycle.DeletingAFailedDatabaseSharesAPort | api/src/handlers/databases.rs:327-337 | A concrete run in which deleting a database in error puts two live databases on one port |
| DatabaseLifecycle.StepKeepsPoolExactIff | api/src/handlers/databases.rs:159-2173 | The pool stays exactly the live databases' ports through every careful step except those that leak, which always do |
| DatabaseLifecycle.LeaksAreReached | api/src/handlers/databases.rs:2128-2170 | Careful runs from a fresh service that end in each kind of leak |
| Backups.BackupService.FindBackups | api/src/repository/database_repo.rs:329-337 | A database's records, each once, newest first |
| Backups.BackupService.CleanupOldBackups | api/src/services/backup.rs:94-110 | Of n records some newest min(n, retention) are left, all of them for a negative retention; other databases keep theirs |
| Backups.BackupService.RunSchedule | api/src/services/backup.rs:24-87 | One due schedule touches its own database only; a failed backup changes nothing, one whose record cannot be inserted is marked and cleaned up after |
| Backups.BackupService.RunScheduledBackups | api/src/services/backup.rs:10-92 | A round backs up exactly the due databases that have a container and succeed, each on its own |
| Backups.RetainedIsUnique | api/src/services/backup.rs:94-110 | With distinct times the cleanup has exactly one outcome |
| Backups.NewBackupSurvivesIff | api/src/services/backup.rs:74-110 | The backup just made survives its own cleanup if and only if the retention is not zero |
| Backups.ScheduledRunLeavesTheNewest | api/src/services/backup.rs:74-110 | After a successful scheduled run exactly the newest min(n, retention) records are left, the new one, if it could be inserted, among them unless the retention is zero |
| Backups.RoundRunsExactlyTheDue | api/src/repository/backup_schedule_repo.rs:74-81 | A round runs a schedule if and only if it is enabled, has never run or did so more than its interval of hours ago, and Docker backs its container up; any other schedule and its records stay as they were |
| Backups.BackupsStayBounded | api/src/services/backup.rs:74-110 | Afterwards the count never exceeds the retention plus the manual backups since |
| Backups.RunsAreSpaced | api/src/repository/backup_schedule_repo.rs:66-81 | k further runs of one schedule reach more than k intervals past the first |
| Placement.SelectBestClientServer | api/src/repository/docker_server_repo.rs:142-162 | The choice is an active client server with fewer databases than its maximum and no fewer free slots than any other; none exactly when every active client server is full |
| Placement.SlotsMoveIff | api/src/repository/docker_server_repo.rs:110-119 | A server is charged with its databases that are being provisioned, running or stopped: only leaving those gives a slot back and only returning to them takes one |
| Placement.EventOverfillsIff | api/src/repository/docker_server_repo.rs:110-162 | An event leaves a server above both its maximum and its load so far if and only if it sets a database that was in error or being deleted running or stopped again while the server is full |
| Placement.PlacementNeverOverfills | api/src/handlers/databases.rs:132-145 | No run without such an event, automatic placements or not, pushes a server above its maximum |
| Placement.RevivingOverfills | api/src/handlers/databases.rs:765-785 | A concrete run in which a container action on a database being deleted overfills a server |
| Placement.PlacementsKeepSpread | api/src/repository/docker_server_repo.rs:142-162 | Over any run of automatic placements the spread of free slots never exceeds the larger of what it was and one |
| Placement.PlacementsUseEverySlot | api/src/repository/docker_server_repo.rs:142-162 | Of n automatic placements exactly min(n, free slots) find a server, each using one slot |
| Subdomain.Id8 | api/src/utils/subdomain.rs:28-30 | Eight hexadecimal digits, the first eight characters of the id as printed |
| Subdomain.CollapseFacts | api/src/utils/subdomain.rs:13-18 | Splitting, filtering and joining is idempotent, starts with the first letter or digit, ends with one, and is empty exactly when there is none |
| Subdomain.PipelineIsIdempotent | api/src/utils/subdomain.rs:6-18 | Sanitizing a sanitized name changes nothing, for every string |
| Subdomain.LabelIsValidIff | api/src/utils/subdomain.rs:6-32 | For every name the first label is at most 57 characters, and valid by RFC 1035 if and only if the first letter or digit of the lowercased name is a letter |
| Subdomain.AcceptedNamesPrintValidLabels | api/src/models/database.rs:112-124 | Every name that creation accepts prints a valid label |
| Subdomain.LabelIsFirst | api/src/utils/subdomain.rs:32-32 | That label is what stands before the first dot |
| Subdomain.DistinctIdsPrintApart | api/src/utils/subdomain.rs:6-32 | Ids that differ in their first eight characters never share a subdomain, whatever the names |
| Subdomain.SubdomainShows | api/src/utils/subdomain.rs:6-32 | The subdomain is the first 48 characters at most of the sanitized lowercased name, a hyphen, the id's first eight characters and .db |
| Subdomain.CollapseKeepsWords | api/src/utils/subdomain.rs:13-18 | Collapsing keeps the words between hyphens, all of them, in order, and puts one hyphen between them |
| SqlQuoting.RoundTripIff | api/src/services/provisioner.rs:725-735 | A quoted text reads back as itself and leaves its continuation if and only if the continuation does not start with the quote |
| SqlQuoting.ReadPrintsBack | api/src/services/provisioner.rs:725-735 | Everything the doubled-quote rule reads is a printed text |
| SqlQuoting.FormReadsBack | api/src/services/provisioner.rs:725-793 | Any statement that quotes a role, a clause and a password in this way is read as naming exactly that role and that password |
| SqlQuoting.StatementReadsBack | api/src/services/provisioner.rs:743-745 | A printed role statement is read as naming exactly the role and the password, whatever characters they hold |
| SqlQuoting.StatementsTellCredentialsApart | api/src/services/provisioner.rs:790-793 | No two pairs of credentials print the same statement |

## Left out

- UsageHours.CalculateUsageSeconds: answers in exact seconds; the service divides by 3600.0, and floating-point rounding of hours and prices is not modelled.
- MonthlyPeriods.MonthsAddUp: for logs since the year 2000, which is where the service's "all earlier history" query starts.
- FirewallCompiler.ValidateNftValue: letters and digits are those of ASCII; the code also accepts other alphabets, which no id, subnet or protocol here contains.
- FirewallCompiler.ValidateRule: the same, for the subnets and the protocol of a rule.
- Nftables.Host.ExecOnHost: commands are values; shell quoting, nft syntax, subnet parsing (a parameter) and connection tracking (a packet attribute) are abstract, and the bridge is named after the whole peering id.
- PeeringSafety.EveryRunIsSound: a database row comes with its container; the time before a container exists is not modelled on this side.
- PeeringSafety.EveryRunIsConsistent: the daemon a server's address leads to is fixed over a run, and reaching it does not fail; ignored failures of calls to the right daemon are not steps.
- PeeringFirewall.HostDecides: one ruleset stands for the hosts of all servers; the code runs each peering's script on its own server's host.
- PeeringSafety.StrayBridgeOutlivesMembership: Docker is taken to refuse removing a bridge that still holds containers.
- DatabaseLifecycle.EveryCarefulRunKeepsPortsApart: within one handler the statements are one step; spawned tails are separate steps.
- Backups.BackupsStayBounded: the schedule's retention is fixed over the run; changing it is not a step.
- Backups.BackupService.CleanupOldBackups: the number of records is not cut to 32 bits; backup files on disk are not modelled.
- Placement.PlacementNeverOverfills: single-database placements; bundles and clones do not keep the limit in all their paths.
- InvoiceProperties.InvoiceEqualsEstimateIff: a used database listed only under other plans than its current one can be off in either direction, and such differences can cancel; InvoiceMinusEstimate gives the difference exactly.
- Subdomain.LabelIsValidIff: Unicode lowercasing is a parameter, one character at a time, known on ASCII only.
- SqlQuoting.StatementReadsBack: covers CREATE ROLE and ALTER ROLE; GRANT and REVOKE use the same escaping, and MariaDB's backslash rules are not modelled.
- Order among rows with equal sort keys is the stored order.
- Names of networks, rule descriptions, alerts, favourites, invitations, audit logs and metrics: easy members.
- Docker, Traefik, TLS, SMTP, Stripe and HTTP: library calls, taken as succeeding or as outcomes passed in.
- Passwords, tokens, encryption and rate limits: library cryptography and thin checks.
- An administrator deleting a user: it drops networks without touching peering tables.
- Database quotas per user across bundles and clones: the code does not keep them in all paths.
- Webhook amounts and 32-bit overflow of an invoice total: totals are integers, with the cap proved.
