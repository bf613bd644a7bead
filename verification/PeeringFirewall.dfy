/**
 The host's firewall tables over the runs of the peering routes: which peerings have one, what
 it says, and what the host therefore decides about a packet that crosses a peering's bridge.
 */
module PeeringFirewall {
  import opened Wrappers
  import opened Nftables
  import opened FirewallCompiler
  import opened RuleTable
  import opened PeeringModel
  import opened PeeringSafety

  // ---- What holds of rows, ids, subnets and tables ----

  /** What creating a rule has checked about its row. */
  predicate RowFits(row: RuleRow, peerings: Peerings) {
    && row.peering in peerings
    && Involves(peerings[row.peering], row.sourceNet) && Involves(peerings[row.peering], row.destNet)
    && (row.action == "allow" || row.action == "deny")
    && (row.port.Some? ==> 0 < row.port.value < 65536)
    && (row.protocol.Some? ==> row.protocol.value == "tcp" || row.protocol.value == "udp")
  }

  ghost predicate RowsFit(rules: seq<RuleRow>, peerings: Peerings) {
    && (forall row :: row in rules ==> RowFits(row, peerings))
    && (forall a, b :: a in rules && b in rules && a.id == b.id ==> a.peering == b.peering)
  }

  /** Peering ids print as UUIDs do, and no two share their first eight characters. */
  ghost predicate IdsFit(peerings: Peerings) {
    && (forall q :: q in peerings ==> GoodId(q))
    && (forall q, r :: q in peerings && r in peerings && TableName(q) == TableName(r) ==> q == r)
  }

  predicate SubnetFits(network: Network) {
    if network.subnet.Some? then network.docker.Some? && ValidNftValue(network.subnet.value) else true
  }

  ghost predicate SubnetsFit(networks: map<nat, Network>) {
    forall n :: n in networks ==> SubnetFits(networks[n])
  }

  function TableOf(networks: map<nat, Network>, peerings: Peerings, rules: seq<RuleRow>, q: string): Table
    requires q in peerings
  {
    Compiled(SidesOf(networks, peerings[q]), rules, q)
  }

  /** If the peering has a table, it is active and the table compiles its stored rules. */
  ghost predicate TableCurrent(
    networks: map<nat, Network>, peerings: Peerings, rules: seq<RuleRow>, ruleset: Ruleset, q: string)
  {
    q in peerings &&
    (TableName(q) in ruleset ==>
       peerings[q].status == Active && ruleset[TableName(q)] == TableOf(networks, peerings, rules, q))
  }

  /** Every firewall table is that of a peering which exists, is active, and whose stored rules it
      compiles. */
  ghost predicate TablesCurrent(
    networks: map<nat, Network>, peerings: Peerings, rules: seq<RuleRow>, ruleset: Ruleset)
  {
    && (forall q :: q in peerings ==> TableCurrent(networks, peerings, rules, ruleset, q))
    && (forall t :: t in ruleset ==> exists q :: q in peerings && TableName(q) == t)
  }

  ghost predicate Firm(s: State) {
    && RowsFit(s.rules, s.peerings) && IdsFit(s.peerings) && SubnetsFit(s.networks)
    && TablesCurrent(s.networks, s.peerings, s.rules, s.ruleset)
  }

  // ---- The handlers' checks suffice for the compiler ----

  lemma RowCompiles(sides: Sides, row: RuleRow, peerings: Peerings)
    requires RowFits(row, peerings)
    requires sides.subnetA.Some? ==> ValidNftValue(sides.subnetA.value)
    requires sides.subnetB.Some? ==> ValidNftValue(sides.subnetB.value)
    ensures ValidRule(ToRule(sides, row))
  {
    assert ValidNftValue("0.0.0.0/0") && ValidNftValue("tcp") && ValidNftValue("udp");
  }

  /** Recompiling is never refused: what the handlers check about rows, and Docker's subnets, is
      all the compiler asks. */
  lemma ReapplyIsAccepted(s: State, id: string)
    requires RowsFit(s.rules, s.peerings) && IdsFit(s.peerings) && SubnetsFit(s.networks) && id in s.peerings
    ensures Reapply(s, id).1 == Ok(Unit)
    ensures Reapply(s, id).0 == s.(ruleset := s.ruleset[TableName(id) := TableOf(s.networks, s.peerings, s.rules, id)])
  {
    var sides := SidesOf(s.networks, s.peerings[id]);
    var rules := ToRules(sides, RulesOf(s.rules, id));
    RulesOfOrdered(s.rules, id);
    forall i | 0 <= i < |rules| ensures ValidRule(rules[i]) {
      assert RulesOf(s.rules, id)[i] in RulesOf(s.rules, id);
      RowCompiles(sides, RulesOf(s.rules, id)[i], s.peerings);
    }
    assert GoodId(id);
    BridgeNameIsValid(id);
    ScriptInstallsTable(id, BridgeName(id), rules, s.ruleset);
  }

  lemma BridgeNameIsValid(id: string)
    requires GoodId(id)
    ensures ValidNftValue(id) && ValidNftValue(BridgeName(id))
  {
    assert ValidNftValue("sb-peer-");
  }

  // ---- Each step keeps the tables current ----

  // Steps that leave everything the firewall reads alone.
  lemma UnreadByFirewall(s: State, t: State)
    requires Firm(s)
    requires t.networks == s.networks && t.peerings == s.peerings && t.rules == s.rules && t.ruleset == s.ruleset
    ensures Firm(t)
  {
    hide RowsFit, IdsFit, SubnetsFit, TablesCurrent;
  }

  lemma DetachUnread(s: State, user: nat, net: nat, db: nat)
    ensures var t := DetachDatabase(s, user, net, db).0;
            t.networks == s.networks && t.peerings == s.peerings && t.rules == s.rules && t.ruleset == s.ruleset
  {
    hide HasDocker, HasContainer, Settled, DaemonOf, DetachFromBridges;
  }

  lemma LeaveUnread(s: State, user: nat, db: nat)
    ensures var t := DeleteDatabase(s, user, db).0;
            t.networks == s.networks && t.peerings == s.peerings && t.rules == s.rules && t.ruleset == s.ruleset
  {
    hide OnDocker;
  }

  lemma DatabaseStepKeepsFirm(s: State, step: Step)
    requires Firm(s) && (step.NewDatabase? || step.Toggle? || step.Leave? || step.DropDatabase?)
    ensures Firm(Next(s, step))
  {
    hide Firm, DeleteDatabase;
    if step.Leave? {
      LeaveUnread(s, step.user, step.db);
    }
    UnreadByFirewall(s, Next(s, step));
  }

  lemma NewNetworkKeepsFirm(s: State, user: nat, id: nat)
    requires Consistent(s) && Firm(s) && Possible(s, NewNetwork(user, id))
    ensures Firm(CreateNetwork(s, user, id).0)
  {
    hide OneContainerEach, MembersFit, NetworksOwned, TableName, Compiled, RowsFit, IdsFit;
    var t := CreateNetwork(s, user, id).0;
    forall q | q in s.peerings ensures TableCurrent(t.networks, s.peerings, s.rules, s.ruleset, q) {
      assert PeeringFits(s.peerings[q], s.networks.Keys, q in s.bridges, TaskOf(s.activating, q));
      assert TableCurrent(s.networks, s.peerings, s.rules, s.ruleset, q);
    }
  }

  lemma NewPeeringKeepsFirm(s: State, user: nat, a: nat, b: nat, id: string)
    requires Consistent(s) && Firm(s) && Possible(s, Peer(user, a, b, id))
    ensures Firm(CreatePeering(s, user, a, b, id).0)
  {
    hide Consistent, GoodId, TableName, Compiled, PeeringExists, PeeringsOwned, SubnetsFit;
    var t := CreatePeering(s, user, a, b, id).0;
    if CheckPeering(s, user, a, b).Ok? {
      assert id !in s.peerings;
      assert t == s.(peerings := t.peerings, activating := t.activating);
      assert t.peerings == s.peerings[id := t.peerings[id]];
      assert TableName(id) !in s.ruleset && GoodId(id);
      assert forall q :: q in s.peerings ==> TableName(q) != TableName(id);
      hide CreatePeering, CheckPeering, Possible;
      assert IdsFit(t.peerings);
      forall row | row in t.rules ensures RowFits(row, t.peerings) {
        assert RowFits(row, s.peerings);
      }
      forall q | q in t.peerings ensures TableCurrent(t.networks, t.peerings, t.rules, t.ruleset, q) {
        if q != id {
          assert TableCurrent(s.networks, s.peerings, s.rules, s.ruleset, q);
        }
      }
      forall n | n in t.ruleset ensures exists q :: q in t.peerings && TableName(q) == n {
        var q :| q in s.peerings && TableName(q) == n;
        assert q in t.peerings;
      }
    }
  }

  lemma TaskKeepsFirm(s: State, id: string, created: bool)
    requires Consistent(s) && Firm(s)
    ensures Firm(Activate(s, id, created))
  {
    ActivateChanges(s, id, created);
    hide OneContainerEach, MembersFit, Activate, Containers, GoodId, TableName, Compiled,
         SubnetsFit;
    var t := Activate(s, id, created);
    forall row | row in t.rules ensures RowFits(row, t.peerings) {
      assert RowFits(row, s.peerings);
    }
    forall q | q in t.peerings ensures TableCurrent(t.networks, t.peerings, t.rules, t.ruleset, q) {
      assert TableCurrent(s.networks, s.peerings, s.rules, s.ruleset, q);
      assert PeeringFits(s.peerings[q], s.networks.Keys, q in s.bridges, TaskOf(s.activating, q));
    }
    assert IdsFit(t.peerings);
    forall n | n in t.ruleset ensures exists q :: q in t.peerings && TableName(q) == n {
      var q :| q in s.peerings && TableName(q) == n;
      assert q in t.peerings;
    }
  }

  lemma TablesAfterRemoval(
    networks: map<nat, Network>, peerings: Peerings, rules: seq<RuleRow>, ruleset: Ruleset, gone: set<string>)
    requires TablesCurrent(networks, peerings, rules, ruleset) && IdsFit(peerings)
    requires forall q :: q in peerings && peerings[q].status == Active ==> peerings[q].bridge
    ensures TablesCurrent(networks, peerings - gone, DropRules(rules, gone), ruleset - TablesOf(peerings, gone))
  {
    hide GoodId, TableName, DropRules, SidesOf, CompiledTable, ToRules, RulesOf, BridgeName;
    var left := ruleset - TablesOf(peerings, gone);
    forall q | q in peerings - gone
      ensures TableCurrent(networks, peerings - gone, DropRules(rules, gone), left, q)
    {
      assert TableCurrent(networks, peerings, rules, ruleset, q);
      DropElsewhere(rules, gone, q);
    }
    hide TableOf;
    forall n | n in left ensures exists q :: q in peerings - gone && TableName(q) == n {
      var q :| q in peerings && TableName(q) == n;
      assert TableCurrent(networks, peerings, rules, ruleset, q);
      assert Bridged(peerings, q);
      assert q in peerings - gone;
    }
  }

  lemma RowsAfterRemoval(rules: seq<RuleRow>, peerings: Peerings, gone: set<string>)
    requires RowsFit(rules, peerings)
    ensures RowsFit(DropRules(rules, gone), peerings - gone)
  {
    hide DropRules;
    forall row | row in DropRules(rules, gone) ensures row in rules && RowFits(row, peerings - gone) {
      DroppedRow(rules, gone, row);
      assert RowFits(row, peerings);
    }
  }

  lemma RemovalKeepsFirm(s: State, gone: set<string>)
    requires Consistent(s) && Firm(s)
    ensures Firm(RemovePeerings(s, gone))
  {
    forall q | q in s.peerings && s.peerings[q].status == Active ensures s.peerings[q].bridge {
      assert PeeringFits(s.peerings[q], s.networks.Keys, q in s.bridges, TaskOf(s.activating, q));
    }
    hide Consistent, GoodId, TableName, DropRules, SubnetsFit, BridgesWithout, TablesOf;
    TablesAfterRemoval(s.networks, s.peerings, s.rules, s.ruleset, gone);
    RowsAfterRemoval(s.rules, s.peerings, gone);
    hide RowsFit, TablesCurrent;
  }

  lemma FewerNetworks(
    networks: map<nat, Network>, peerings: Peerings, rules: seq<RuleRow>, ruleset: Ruleset, net: nat)
    requires TablesCurrent(networks, peerings, rules, ruleset) && SubnetsFit(networks)
    requires forall q :: q in peerings ==> !Involves(peerings[q], net)
    ensures TablesCurrent(networks - {net}, peerings, rules, ruleset) && SubnetsFit(networks - {net})
  {
    hide TableName, Compiled;
    forall q | q in peerings ensures TableCurrent(networks - {net}, peerings, rules, ruleset, q) {
      assert TableCurrent(networks, peerings, rules, ruleset, q);
      assert SidesOf(networks - {net}, peerings[q]) == SidesOf(networks, peerings[q]);
    }
  }

  lemma DropNetworkKeepsFirm(s: State, user: nat, net: nat)
    requires Consistent(s) && Firm(s)
    ensures Firm(DeleteNetwork(s, user, net).0)
  {
    if DeleteNetwork(s, user, net).1.Ok? {
      var gone := PeeringsOf(s.peerings, net);
      var bare := RemovePeerings(s, gone);
      RemovalKeepsFirm(s, gone);
      RemovalKeepsTheRest(s, gone);
      DropNetworkChanges(s, user, net);
      assert forall q :: q in bare.peerings ==> !Involves(s.peerings[q], net);
      FewerNetworks(bare.networks, bare.peerings, bare.rules, bare.ruleset, net);
      hide RemovePeerings, DeleteNetwork, Consistent, RowsFit, IdsFit, TablesCurrent, SubnetsFit;
    }
  }

  lemma AttachUnread(s: State, user: nat, net: nat, db: nat, reply: Reply)
    requires CheckAttach(s, user, net, db).Ok?
    ensures net in s.networks
    ensures var t, made := AttachDatabase(s, user, net, db, reply).0, s.networks[net].docker.None? && reply.made;
            && t.peerings == s.peerings && t.rules == s.rules && t.ruleset == s.ruleset
            && t.networks.Keys == s.networks.Keys
            && (forall n :: n in s.networks ==>
                  t.networks[n].subnet == if n == net && made then reply.subnet else s.networks[n].subnet)
            && (forall n :: n in s.networks ==>
                  (t.networks[n].docker.Some? <==> (n == net && made) || s.networks[n].docker.Some?))
  {
    AttachChanges(s, user, net, db, reply);
    if Connects(s, user, net, db, reply) {
      JoinChanges(PrepareNetwork(s, net, db, reply).0, net, db);
    }
    hide AttachDatabase, CheckAttach, PrepareNetwork, Join;
  }

  // ---- A network's subnet appears after its peering has a table ----

  /** A stored rule of a peering that has a table names the network. */
  predicate NamedInTable(s: State, net: nat) {
    exists i :: 0 <= i < |s.rules|
                && (s.rules[i].sourceNet == net || s.rules[i].destNet == net) && TableName(s.rules[i].peering) in s.ruleset
  }

  /** The network reaches Docker only now and gets a subnet, while rules naming it have been
      compiled with every address in its place. Whether the container then connects does not matter. */
  predicate MakesStale(s: State, step: Step) {
    && step.Attach? && CheckAttach(s, step.user, step.net, step.db).Ok?
    && !HasDocker(s.networks, step.net) && step.reply.made && SubnetText(step.reply.subnet) != "0.0.0.0/0"
    && NamedInTable(s, step.net)
  }

  lemma {:induction false} CompiledRulesAt(bridge: string, rules: seq<FirewallRule>, i: nat)
    requires i < |rules|
    ensures |CompiledRules(bridge, rules)| == |rules|
    ensures CompiledRules(bridge, rules)[i] == CompileRule(bridge, rules[i])
  {
    if i == |rules| - 1 {
      if |rules| > 1 {
        CompiledRulesAt(bridge, rules[..|rules| - 1], i - 1);
      }
    } else {
      CompiledRulesAt(bridge, rules[..|rules| - 1], i);
    }
  }

  // Compilation forgets no subnet text.
  lemma TablesDiffer(bridge: string, a: seq<FirewallRule>, b: seq<FirewallRule>, i: nat)
    requires |a| == |b| && i < |a|
    requires a[i].source != b[i].source || a[i].dest != b[i].dest
    ensures CompiledTable(bridge, a) != CompiledTable(bridge, b)
  {
    CompiledRulesAt(bridge, a, i);
    CompiledRulesAt(bridge, b, i);
    assert CompiledChain(bridge, a)[i + 1] == CompileRule(bridge, a[i]);
    assert CompiledChain(bridge, b)[i + 1] == CompileRule(bridge, b[i]);
  }

  lemma SameTexts(before: Sides, after: Sides, table: seq<RuleRow>, q: string)
    requires forall row :: row in table && row.peering == q ==> ToRule(before, row) == ToRule(after, row)
    ensures Compiled(before, table, q) == Compiled(after, table, q)
  {
    RulesOfOrdered(table, q);
    assert ToRules(before, RulesOf(table, q)) == ToRules(after, RulesOf(table, q));
  }

  function RuleAt(networks: map<nat, Network>, peerings: Peerings, row: RuleRow): FirewallRule
    requires row.peering in peerings
  {
    ToRule(SidesOf(networks, peerings[row.peering]), row)
  }

  predicate AlikeOrTold(a: FirewallRule, b: FirewallRule) {
    a == b || a.source != b.source || a.dest != b.dest
  }

  /** The network's new subnet does not show in this row. */
  predicate Unaffected(networks: map<nat, Network>, net: nat, subnet: Option<string>, row: RuleRow)
    requires net in networks
  {
    || networks[net].docker.Some?
    || SubnetText(subnet) == "0.0.0.0/0"
    || (row.sourceNet != net && row.destNet != net)
  }

  ghost predicate RowsReadSo(
    before: map<nat, Network>, after: map<nat, Network>, net: nat, subnet: Option<string>,
    peerings: Peerings, rules: seq<RuleRow>)
    requires net in before
  {
    forall row :: row in rules && row.peering in peerings ==>
      && AlikeOrTold(RuleAt(before, peerings, row), RuleAt(after, peerings, row))
      && (RuleAt(before, peerings, row) == RuleAt(after, peerings, row) <==> Unaffected(before, net, subnet, row))
  }

  // How a row reads before and after a network gets its subnet.
  lemma RowAfterSubnet(
    before: map<nat, Network>, after: map<nat, Network>, net: nat, peerings: Peerings, row: RuleRow)
    requires RowFits(row, peerings) && SubnetsFit(before) && net in before && before.Keys == after.Keys
    requires forall n :: n in before && n != net ==> after[n].subnet == before[n].subnet
    requires before[net].docker.Some? ==> after[net].subnet == before[net].subnet
    requires peerings[row.peering].netA in before && peerings[row.peering].netB in before
    ensures AlikeOrTold(RuleAt(before, peerings, row), RuleAt(after, peerings, row))
    ensures RuleAt(before, peerings, row) == RuleAt(after, peerings, row)
            <==> Unaffected(before, net, after[net].subnet, row)
  {
  }

  lemma TableAfterSubnet(
    before: map<nat, Network>, after: map<nat, Network>, net: nat, subnet: Option<string>,
    peerings: Peerings, rules: seq<RuleRow>, q: string)
    requires q in peerings && net in before && RowsReadSo(before, after, net, subnet, peerings, rules)
    ensures TableOf(before, peerings, rules, q) == TableOf(after, peerings, rules, q)
            <==> forall row :: row in rules && row.peering == q ==> Unaffected(before, net, subnet, row)
  {
    var earlier, later := SidesOf(before, peerings[q]), SidesOf(after, peerings[q]);
    hide ToRule, SidesOf, CompiledTable, Unaffected;
    if row :| row in rules && row.peering == q && !Unaffected(before, net, subnet, row) {
      RulesOfOrdered(rules, q);
      var i :| 0 <= i < |RulesOf(rules, q)| && RulesOf(rules, q)[i] == row;
      TablesDiffer(BridgeName(q), ToRules(earlier, RulesOf(rules, q)), ToRules(later, RulesOf(rules, q)), i);
    } else {
      assert forall row :: row in rules && row.peering == q ==>
        RuleAt(before, peerings, row) == RuleAt(after, peerings, row);
      SameTexts(earlier, later, rules, q);
    }
  }

  /** Attaching a network's first database keeps every table current if and only if the subnet it
      brings reads as before, or no rule of a peering that has a table names the network. */
  lemma AttachKeepsFirmIff(s: State, user: nat, net: nat, db: nat, reply: Reply)
    requires Consistent(s) && Firm(s) && Possible(s, Attach(user, net, db, reply))
    ensures Firm(AttachDatabase(s, user, net, db, reply).0) <==> !MakesStale(s, Attach(user, net, db, reply))
  {
    hide AttachDatabase, CheckAttach, TableName, GoodId, NamedInTable, TablesCurrent, IdsFit, RowsFit;
    if CheckAttach(s, user, net, db).Ok? {
      AttachUnread(s, user, net, db, reply);
      var t := AttachDatabase(s, user, net, db, reply).0;
      assert reply.subnet.Some? ==> ValidNftValue(reply.subnet.value);
      hide ValidNftValue, Possible;
      assert SubnetsFit(t.networks);
      if s.networks[net].docker.None? && !reply.made {
        assert s.networks[net].subnet.None? by {
          assert SubnetFits(s.networks[net]);
        }
        assert SubnetText(t.networks[net].subnet) == "0.0.0.0/0";
      }
      hide SubnetsFit;
      AttachedRows(s, t, net);
      AttachedTables(s, t, net);
      hide Consistent, RowsReadSo;
    } else {
      RefusedAttach(s, user, net, db, reply);
      hide Consistent, Possible, SubnetsFit;
    }
  }

  lemma AttachedRows(s: State, t: State, net: nat)
    requires Consistent(s) && RowsFit(s.rules, s.peerings) && SubnetsFit(s.networks)
    requires net in s.networks && t.networks.Keys == s.networks.Keys
    requires forall n :: n in s.networks && n != net ==> t.networks[n].subnet == s.networks[n].subnet
    requires s.networks[net].docker.Some? ==> t.networks[net].subnet == s.networks[net].subnet
    ensures RowsReadSo(s.networks, t.networks, net, t.networks[net].subnet, s.peerings, s.rules)
  {
    hide MembersFit, OneContainerEach, RuleAt, AlikeOrTold, Unaffected, SubnetsFit;
    forall row | row in s.rules && row.peering in s.peerings
      ensures AlikeOrTold(RuleAt(s.networks, s.peerings, row), RuleAt(t.networks, s.peerings, row))
      ensures RuleAt(s.networks, s.peerings, row) == RuleAt(t.networks, s.peerings, row)
              <==> Unaffected(s.networks, net, t.networks[net].subnet, row)
    {
      assert RowFits(row, s.peerings);
      var q := row.peering;
      assert PeeringFits(s.peerings[q], s.networks.Keys, q in s.bridges, TaskOf(s.activating, q));
      RowAfterSubnet(s.networks, t.networks, net, s.peerings, row);
    }
  }

  lemma AttachedTables(s: State, t: State, net: nat)
    requires RowsFit(s.rules, s.peerings) && TablesCurrent(s.networks, s.peerings, s.rules, s.ruleset)
    requires net in s.networks && net in t.networks
    requires RowsReadSo(s.networks, t.networks, net, t.networks[net].subnet, s.peerings, s.rules)
    ensures TablesCurrent(t.networks, s.peerings, s.rules, s.ruleset)
            <==> s.networks[net].docker.Some? || SubnetText(t.networks[net].subnet) == "0.0.0.0/0" || !NamedInTable(s, net)
  {
    hide RowsReadSo, TableName, SubnetText, TableOf;
    var subnet := t.networks[net].subnet;
    if s.networks[net].docker.None? && SubnetText(subnet) != "0.0.0.0/0" && NamedInTable(s, net) {
      var i :| 0 <= i < |s.rules| && (s.rules[i].sourceNet == net || s.rules[i].destNet == net)
               && TableName(s.rules[i].peering) in s.ruleset;
      var q := s.rules[i].peering;
      assert s.rules[i] in s.rules && RowFits(s.rules[i], s.peerings);
      TableAfterSubnet(s.networks, t.networks, net, subnet, s.peerings, s.rules, q);
      assert TableCurrent(s.networks, s.peerings, s.rules, s.ruleset, q);
      assert !TableCurrent(t.networks, s.peerings, s.rules, s.ruleset, q);
    } else {
      forall q | q in s.peerings ensures TableCurrent(t.networks, s.peerings, s.rules, s.ruleset, q) {
        assert TableCurrent(s.networks, s.peerings, s.rules, s.ruleset, q);
        if TableName(q) in s.ruleset {
          TableAfterSubnet(s.networks, t.networks, net, subnet, s.peerings, s.rules, q);
        }
      }
    }
  }

  // ---- Rules come and go ----

  lemma RowForFits(s: State, user: nat, id: string, request: RuleRequest, rule: nat, now: int)
    requires CheckRule(s, user, id, request).Ok?
    ensures RowFits(RowFor(id, request, rule, now), s.peerings)
  {
    hide CountRules;
  }

  // What a rule change on an active or a waiting peering leaves, given that the rows fit.
  lemma RulesChanged(s: State, rules: seq<RuleRow>, id: string)
    requires Firm(s) && RowsFit(rules, s.peerings) && id in s.peerings
    requires forall q :: q in s.peerings && q != id ==> RulesOf(rules, q) == RulesOf(s.rules, q)
    ensures var stored := s.(rules := rules);
            && Reapply(stored, id).1 == Ok(Unit)
            && Reapply(stored, id).0
               == stored.(ruleset := s.ruleset[TableName(id) := TableOf(s.networks, s.peerings, rules, id)])
            && (s.peerings[id].status == Active ==> Firm(Reapply(stored, id).0))
            && (s.peerings[id].status != Active ==> Firm(stored))
  {
    hide RowsFit, SubnetsFit, TablesCurrent, GoodId, TableName, TableOf, RulesOf, Reapply;
    ReapplyIsAccepted(s.(rules := rules), id);
    TablesAfterRules(s.networks, s.peerings, s.rules, rules, s.ruleset, id);
    hide IdsFit;
  }

  lemma TablesAfterRules(
    networks: map<nat, Network>, peerings: Peerings, before: seq<RuleRow>, after: seq<RuleRow>, ruleset: Ruleset, id: string)
    requires IdsFit(peerings) && TablesCurrent(networks, peerings, before, ruleset) && id in peerings
    requires forall q :: q in peerings && q != id ==> RulesOf(after, q) == RulesOf(before, q)
    ensures if peerings[id].status == Active
            then TablesCurrent(networks, peerings, after, ruleset[TableName(id) := TableOf(networks, peerings, after, id)])
            else TablesCurrent(networks, peerings, after, ruleset)
  {
    hide GoodId, TableName, CompiledTable, SidesOf, ToRules, RulesOf, BridgeName;
    var compiled := ruleset[TableName(id) := TableOf(networks, peerings, after, id)];
    forall q | q in peerings
      ensures peerings[id].status == Active ==> TableCurrent(networks, peerings, after, compiled, q)
      ensures peerings[id].status != Active ==> TableCurrent(networks, peerings, after, ruleset, q)
    {
      assert TableCurrent(networks, peerings, before, ruleset, q);
    }
    hide TableOf;
    forall n | n in compiled ensures exists q :: q in peerings && TableName(q) == n {
      if n != TableName(id) {
        var q :| q in peerings && TableName(q) == n;
      }
    }
  }

  lemma NewRuleRows(s: State, row: RuleRow)
    requires RowsFit(s.rules, s.peerings) && RowFits(row, s.peerings)
    requires forall other :: other in s.rules ==> other.id != row.id
    ensures RowsFit(s.rules + [row], s.peerings)
    ensures forall q :: q != row.peering ==> RulesOf(s.rules + [row], q) == RulesOf(s.rules, q)
  {
    forall q | q != row.peering ensures RulesOf(s.rules + [row], q) == RulesOf(s.rules, q) {
      OtherPeeringsKeepRules(s.rules, row, q);
    }
  }

  lemma DeletedRuleRows(s: State, id: string, rule: nat)
    requires RowsFit(s.rules, s.peerings)
    requires exists i :: 0 <= i < |s.rules| && s.rules[i].id == rule && s.rules[i].peering == id
    ensures RowsFit(DeleteRule(s.rules, rule), s.peerings)
    ensures forall q :: q != id ==> RulesOf(DeleteRule(s.rules, rule), q) == RulesOf(s.rules, q)
  {
    var i :| 0 <= i < |s.rules| && s.rules[i].id == rule && s.rules[i].peering == id;
    assert s.rules[i] in s.rules;
    hide RowFits, RulesOf, DeleteRule;
    forall row | row in DeleteRule(s.rules, rule) ensures row in s.rules {
      DeletedRow(s.rules, rule, row);
    }
    forall q | q != id ensures RulesOf(DeleteRule(s.rules, rule), q) == RulesOf(s.rules, q) {
      DeleteElsewhere(s.rules, rule, q);
    }
  }

  lemma NewRuleKeepsFirm(s: State, user: nat, id: string, request: RuleRequest, rule: nat, now: int)
    requires Firm(s) && Possible(s, NewRule(user, id, request, rule, now)) && CheckRule(s, user, id, request).Ok?
    ensures id in s.peerings
    ensures var row := RowFor(id, request, rule, now);
            && Firm(CreateRule(s, user, id, request, rule, now).0)
            && CreateRule(s, user, id, request, rule, now).1 == Ok(Unit)
            && RowFits(row, s.peerings) && row.id == rule && row.peering == id && row.createdAt == now
            && s.peerings[id].owner == user
            && CreateRule(s, user, id, request, rule, now).0
               == s.(rules := s.rules + [row],
                     ruleset := if s.peerings[id].status == Active
                                then s.ruleset[TableName(id) := TableOf(s.networks, s.peerings, s.rules + [row], id)]
                                else s.ruleset)
  {
    var row := RowFor(id, request, rule, now);
    RowForFits(s, user, id, request, rule, now);
    assert forall other :: other in s.rules ==> other.id != row.id;
    NewRuleRows(s, row);
    RulesChanged(s, s.rules + [row], id);
    hide Firm, Reapply, RowFits, TableOf, TableName, CheckRule, RowsFit, RulesOf;
  }

  lemma DropRuleKeepsFirm(s: State, user: nat, id: string, rule: nat)
    requires Firm(s)
    ensures Firm(DeleteStoredRule(s, user, id, rule).0)
    ensures DeleteStoredRule(s, user, id, rule).1.Err? ==> DeleteStoredRule(s, user, id, rule).0 == s
    ensures DeleteStoredRule(s, user, id, rule).1.Ok?
            <==> id in s.peerings && s.peerings[id].owner == user
                 && exists i :: 0 <= i < |s.rules| && s.rules[i].id == rule && s.rules[i].peering == id
    ensures DeleteStoredRule(s, user, id, rule).1.Ok? ==>
      && id in s.peerings
      && DeleteStoredRule(s, user, id, rule).0
         == s.(rules := DeleteRule(s.rules, rule),
               ruleset := if s.peerings[id].status == Active
                          then s.ruleset[TableName(id) := TableOf(s.networks, s.peerings, DeleteRule(s.rules, rule), id)]
                          else s.ruleset)
  {
    if id in s.peerings && s.peerings[id].owner == user
       && (exists i :: 0 <= i < |s.rules| && s.rules[i].id == rule && s.rules[i].peering == id)
    {
      DeletedRuleRows(s, id, rule);
      RulesChanged(s, DeleteRule(s.rules, rule), id);
      hide Firm, Reapply, TableOf, TableName, RowsFit, RulesOf, DeleteRule;
    }
  }

  lemma EveryStepKeepsFirmIff(s: State, step: Step)
    requires Consistent(s) && Firm(s) && Possible(s, step)
    ensures Firm(Next(s, step)) <==> !MakesStale(s, step)
  {
    hide Consistent, Firm, AttachDatabase, DetachDatabase, CreatePeering, CreateNetwork, Activate, DeleteNetwork, RemovePeerings,
         CreateRule, DeleteStoredRule, NamedInTable, CheckAttach;
    match step {
      case NewNetwork(user, id) => NewNetworkKeepsFirm(s, user, id);
      case Attach(user, net, db, reply) => AttachKeepsFirmIff(s, user, net, db, reply);
      case Detach(user, net, db) =>
        DetachUnread(s, user, net, db);
        UnreadByFirewall(s, Next(s, step));
      case Peer(user, a, b, id) => NewPeeringKeepsFirm(s, user, a, b, id);
      case RunTask(id, created) => TaskKeepsFirm(s, id, created);
      case Unpeer(user, id) => RemovalKeepsFirm(s, {id});
      case DropNetwork(user, net) => DropNetworkKeepsFirm(s, user, net);
      case NewRule(user, id, request, rule, now) =>
        if CheckRule(s, user, id, request).Ok? {
          NewRuleKeepsFirm(s, user, id, request, rule, now);
        } else {
          RefusedRule(s, user, id, request, rule, now);
        }
      case DropRule(user, id, rule) => DropRuleKeepsFirm(s, user, id, rule);
      case _ => hide Next; DatabaseStepKeepsFirm(s, step);
    }
  }

  lemma RefusedRule(s: State, user: nat, id: string, request: RuleRequest, rule: nat, now: int)
    requires CheckRule(s, user, id, request).Err?
    ensures CreateRule(s, user, id, request, rule, now).0 == s
  {
    hide CheckRule, Reapply;
  }

  ghost predicate NeverMakesStale(s: State, steps: seq<Step>) {
    steps == [] ||
    (NeverMakesStale(s, steps[..|steps| - 1])
     && !MakesStale(Run(s, steps[..|steps| - 1]), steps[|steps| - 1]))
  }

  /** Over whole runs: as long as no network gets its subnet while rules naming it are already
      compiled, every firewall table on the host belongs to an active peering and compiles exactly
      the rules stored for it. */
  lemma {:induction false} EveryRunKeepsTablesCurrent(s: State, steps: seq<Step>)
    requires Consistent(s) && Firm(s) && Feasible(s, steps) && NeverMakesStale(s, steps)
    ensures Firm(Run(s, steps))
  {
    if steps != [] {
      EveryRunIsConsistent(s, steps[..|steps| - 1]);
      EveryRunKeepsTablesCurrent(s, steps[..|steps| - 1]);
      EveryStepKeepsFirmIff(Run(s, steps[..|steps| - 1]), steps[|steps| - 1]);
    }
  }

  // ---- Which peerings have a table ----

  /** The step changes the rules of this peering and is carried out while the peering is active. */
  ghost predicate RecompilesActive(s: State, step: Step, q: string) {
    IsActive(s, q) &&
    match step
    case NewRule(user, id, request, _, _) => id == q && CheckRule(s, user, id, request).Ok?
    case DropRule(user, id, rule) => id == q && DeleteStoredRule(s, user, id, rule).1.Ok?
    case _ => false
  }

  lemma RemovalSparesTables(s: State, gone: set<string>, q: string)
    requires IdsFit(s.peerings) && q in s.peerings && q !in gone
    ensures TableName(q) in s.ruleset - TablesOf(s.peerings, gone) <==> TableName(q) in s.ruleset
  {
    hide TableName, GoodId;
  }

  lemma RulesetStays(s: State, step: Step)
    requires !step.NewRule? && !step.DropRule? && !step.Unpeer? && !step.DropNetwork?
    ensures Next(s, step).ruleset == s.ruleset
  {
    match step {
      case Attach(user, net, db, reply) =>
        hide CheckAttach, AttachDatabase;
        if CheckAttach(s, user, net, db).Ok? {
          AttachUnread(s, user, net, db, reply);
        } else {
          RefusedAttach(s, user, net, db, reply);
        }
      case Detach(user, net, db) =>
        hide DetachDatabase;
        DetachUnread(s, user, net, db);
      case RunTask(id, created) =>
        hide Activate;
        ActivateChanges(s, id, created);
      case _ =>
        hide CheckPeering, NetworksOwned;
    }
  }

  lemma TableAfterNewRule(
    s: State, user: nat, id: string, request: RuleRequest, rule: nat, now: int, q: string)
    requires Firm(s) && Possible(s, NewRule(user, id, request, rule, now)) && q in s.peerings
    ensures TableName(q) in CreateRule(s, user, id, request, rule, now).0.ruleset
            <==> TableName(q) in s.ruleset || (IsActive(s, q) && id == q && CheckRule(s, user, id, request).Ok?)
  {
    if CheckRule(s, user, id, request).Ok? {
      NewRuleKeepsFirm(s, user, id, request, rule, now);
      NamesApart(s, id, q);
    } else {
      RefusedRule(s, user, id, request, rule, now);
    }
    hide TableName, CreateRule, CheckRule, TableOf, Firm, Possible, RowFits;
  }

  lemma TableAfterDropRule(s: State, user: nat, id: string, rule: nat, q: string)
    requires Firm(s) && q in s.peerings
    ensures TableName(q) in DeleteStoredRule(s, user, id, rule).0.ruleset
            <==> TableName(q) in s.ruleset || (IsActive(s, q) && id == q && DeleteStoredRule(s, user, id, rule).1.Ok?)
  {
    hide TableName, TableOf, DeleteStoredRule, Firm, DeleteRule;
    DropRuleKeepsFirm(s, user, id, rule);
    if id in s.peerings {
      NamesApart(s, id, q);
    }
  }

  lemma TableAfterRuleChange(s: State, step: Step, q: string)
    requires Firm(s) && Possible(s, step) && q in s.peerings && (step.NewRule? || step.DropRule?)
    ensures TableName(q) in Next(s, step).ruleset <==> TableName(q) in s.ruleset || RecompilesActive(s, step, q)
  {
    hide TableName, CreateRule, CheckRule, DeleteStoredRule, Firm, Possible, IsActive;
    match step {
      case NewRule(user, id, request, rule, now) => TableAfterNewRule(s, user, id, request, rule, now, q);
      case DropRule(user, id, rule) => TableAfterDropRule(s, user, id, rule, q);
    }
  }

  lemma TableAfterDropNetwork(s: State, user: nat, net: nat, q: string)
    requires IdsFit(s.peerings) && q in s.peerings && q in DeleteNetwork(s, user, net).0.peerings
    ensures TableName(q) in DeleteNetwork(s, user, net).0.ruleset <==> TableName(q) in s.ruleset
  {
    if DeleteNetwork(s, user, net).1.Ok? {
      DropNetworkChanges(s, user, net);
      RemovalKeepsTheRest(s, PeeringsOf(s.peerings, net));
      RemovalSparesTables(s, PeeringsOf(s.peerings, net), q);
    }
    hide TableName, GoodId, BridgesWithout, DropRules, TablesOf, Containers, MembersOf, PeeringsOf, IdsFit;
  }

  lemma TableAfterUnpeer(s: State, user: nat, id: string, q: string)
    requires IdsFit(s.peerings) && q in s.peerings && q in DeletePeering(s, user, id).0.peerings
    ensures TableName(q) in DeletePeering(s, user, id).0.ruleset <==> TableName(q) in s.ruleset
  {
    if id != q {
      RemovalSparesTables(s, {id}, q);
    }
    hide TableName, GoodId, BridgesWithout, DropRules, TablesOf, IdsFit;
  }

  lemma TableAfterRemoval(s: State, step: Step, q: string)
    requires IdsFit(s.peerings) && (step.Unpeer? || step.DropNetwork?)
    requires q in s.peerings && q in Next(s, step).peerings
    ensures TableName(q) in Next(s, step).ruleset <==> TableName(q) in s.ruleset
  {
    hide TableName, GoodId, IdsFit, DeletePeering, DeleteNetwork;
    match step {
      case Unpeer(user, id) => TableAfterUnpeer(s, user, id, q);
      case DropNetwork(user, net) => TableAfterDropNetwork(s, user, net, q);
    }
  }

  /** A peering has a table after a step exactly when it had one, or the step changed its rules
      while it was active. In particular activating it installs none. */
  lemma TableAppearsIff(s: State, step: Step, q: string)
    requires Consistent(s) && Firm(s) && Possible(s, step) && q in s.peerings && q in Next(s, step).peerings
    ensures TableName(q) in Next(s, step).ruleset <==> TableName(q) in s.ruleset || RecompilesActive(s, step, q)
  {
    if step.NewRule? || step.DropRule? {
      hide Consistent, TableName;
      TableAfterRuleChange(s, step, q);
    } else if step.Unpeer? || step.DropNetwork? {
      TableAfterRemoval(s, step, q);
    } else {
      hide Consistent, TableName;
      RulesetStays(s, step);
    }
  }

  // ---- What the host decides ----

  ghost function TablesInForce(s: State): map<string, seq<FirewallRule>> {
    map q | q in s.peerings && TableName(q) in s.ruleset
      :: ToRules(SidesOf(s.networks, s.peerings[q]), RulesOf(s.rules, q))
  }

  lemma HostHoldsTablesInForce(s: State)
    requires Firm(s)
    ensures Holds(s.ruleset, TablesInForce(s))
  {
    hide TableName, GoodId, RowsFit, SubnetsFit, CompiledTable, ToRules, RulesOf, SidesOf, BridgeName;
    forall q | q in TablesInForce(s)
      ensures s.ruleset[TableName(q)] == CompiledTable(BridgeName(q), TablesInForce(s)[q])
    {
      assert TableCurrent(s.networks, s.peerings, s.rules, s.ruleset, q);
    }
  }

  ghost predicate Crosses(s: State, q: string, p: Packet) {
    q in s.peerings && OnBridge(BridgeName(q), p)
  }

  // ---- What a stored row is about ----

  /** The address lies in the subnet stored for the network; without one the network is every address. */
  predicate InNetwork(nets: Addressing, networks: map<nat, Network>, net: nat, address: nat) {
    net in networks && networks[net].subnet.Some? ==> nets(networks[net].subnet.value, address)
  }

  /** A packet from the row's source network to its destination, on its port if it names one. */
  predicate RowMatches(nets: Addressing, networks: map<nat, Network>, row: RuleRow, p: Packet) {
    && InNetwork(nets, networks, row.sourceNet, p.source) && InNetwork(nets, networks, row.destNet, p.dest)
    && (row.port.Some? ==>
          p.dport == row.port.value && p.proto == if row.protocol.Some? then row.protocol.value else "tcp")
  }

  function ActionOf(row: RuleRow): Verdict {
    if row.action == "allow" then Accept else Drop
  }

  /** The compiled rule matches exactly the packets the stored row is about, and does what it says. */
  lemma RowMeansIff(nets: Addressing, networks: map<nat, Network>, peering: Peering, row: RuleRow, p: Packet)
    requires Involves(peering, row.sourceNet) && Involves(peering, row.destNet)
    ensures Matches(nets, ToRule(SidesOf(networks, peering), row), p) <==> RowMatches(nets, networks, row, p)
    ensures VerdictOf(ToRule(SidesOf(networks, peering), row)) == ActionOf(row)
  {
  }

  function FirstRow(nets: Addressing, networks: map<nat, Network>, rows: seq<RuleRow>, p: Packet): Verdict {
    if rows == [] then Drop
    else if RowMatches(nets, networks, rows[0], p) then ActionOf(rows[0])
    else FirstRow(nets, networks, rows[1..], p)
  }

  /** What a peering's stored rows say about a packet on its bridge: established connections go on, otherwise
      the first row about it decides, and what none is about is refused. */
  function StoredVerdict(
    nets: Addressing, networks: map<nat, Network>, rules: seq<RuleRow>, q: string, p: Packet): Verdict
  {
    if p.established then Accept else FirstRow(nets, networks, RulesOf(rules, q), p)
  }

  predicate Before(a: RuleRow, b: RuleRow) {
    a.priority < b.priority || (a.priority == b.priority && a.createdAt < b.createdAt)
  }

  /** The row is about the packet and comes before every other row of the peering that is. */
  ghost predicate HasTheSay(
    nets: Addressing, networks: map<nat, Network>, rules: seq<RuleRow>, q: string, row: RuleRow, p: Packet)
  {
    && row in rules && row.peering == q && RowMatches(nets, networks, row, p)
    && forall other :: other in rules && other.peering == q && RowMatches(nets, networks, other, p) && other != row ==>
         Before(row, other)
  }

  lemma {:induction false} FirstRowIs(
    nets: Addressing, networks: map<nat, Network>, rows: seq<RuleRow>, row: RuleRow, p: Packet)
    requires row in rows && RowMatches(nets, networks, row, p)
    requires forall i :: 0 <= i < |rows| && RowMatches(nets, networks, rows[i], p) && rows[i] != row ==>
               exists j :: 0 <= j < i && rows[j] == row
    ensures FirstRow(nets, networks, rows, p) == ActionOf(row)
  {
    if rows[0] != row {
      assert !RowMatches(nets, networks, rows[0], p);
      assert row in rows[1..];
      forall i | 0 <= i < |rows[1..]| && RowMatches(nets, networks, rows[1..][i], p) && rows[1..][i] != row
        ensures exists j :: 0 <= j < i && rows[1..][j] == row
      {
        assert rows[1..][i] == rows[i + 1];
        var j :| 0 <= j < i + 1 && rows[j] == row;
        assert rows[1..][j - 1] == row;
      }
      FirstRowIs(nets, networks, rows[1..], row, p);
    }
  }

  lemma {:induction false} NoRowIs(nets: Addressing, networks: map<nat, Network>, rows: seq<RuleRow>, p: Packet)
    requires forall i :: 0 <= i < |rows| ==> !RowMatches(nets, networks, rows[i], p)
    ensures FirstRow(nets, networks, rows, p) == Drop
  {
    if rows != [] {
      NoRowIs(nets, networks, rows[1..], p);
    }
  }

  lemma {:induction false} OrderedPairs(rows: seq<RuleRow>, i: nat, j: nat)
    requires Ordered(rows) && i < j < |rows|
    ensures NotAfter(rows[i], rows[j])
  {
    if j < |rows| - 1 {
      OrderedPairs(rows[..|rows| - 1], i, j);
    }
  }

  /** Outside established connections the row that has the say decides, and a packet no row is about is
      dropped: the smallest priority wins, and of one priority the oldest. */
  lemma StoredRowsDecide(
    nets: Addressing, networks: map<nat, Network>, rules: seq<RuleRow>, q: string, p: Packet)
    requires !p.established
    ensures forall row :: HasTheSay(nets, networks, rules, q, row, p) ==>
      StoredVerdict(nets, networks, rules, q, p) == if row.action == "allow" then Accept else Drop
    ensures (forall row :: row in rules && row.peering == q ==> !RowMatches(nets, networks, row, p)) ==>
      StoredVerdict(nets, networks, rules, q, p) == Drop
  {
    var rows := RulesOf(rules, q);
    RulesOfOrdered(rules, q);
    hide RulesOf, RowMatches, FirstRow;
    forall row | HasTheSay(nets, networks, rules, q, row, p)
      ensures FirstRow(nets, networks, rows, p) == ActionOf(row)
    {
      forall i | 0 <= i < |rows| && RowMatches(nets, networks, rows[i], p) && rows[i] != row
        ensures exists j :: 0 <= j < i && rows[j] == row
      {
        assert rows[i] in rows;
        var j :| 0 <= j < |rows| && rows[j] == row;
        if i < j {
          OrderedPairs(rows, i, j);
        }
      }
      FirstRowIs(nets, networks, rows, row, p);
    }
    if forall row :: row in rules && row.peering == q ==> !RowMatches(nets, networks, row, p) {
      forall i | 0 <= i < |rows| ensures !RowMatches(nets, networks, rows[i], p) {
        assert rows[i] in rows;
      }
      NoRowIs(nets, networks, rows, p);
    }
  }

  lemma {:induction false} FirstMatchIsFirstRow(
    nets: Addressing, networks: map<nat, Network>, peering: Peering, rows: seq<RuleRow>, p: Packet)
    requires forall i :: 0 <= i < |rows| ==> Involves(peering, rows[i].sourceNet) && Involves(peering, rows[i].destNet)
    ensures FirstMatch(nets, ToRules(SidesOf(networks, peering), rows), p) == FirstRow(nets, networks, rows, p)
  {
    var sides := SidesOf(networks, peering);
    hide SidesOf, Matches, RowMatches, ToRule, VerdictOf, ActionOf;
    if rows != [] {
      FirstMatchIsFirstRow(nets, networks, peering, rows[1..], p);
      RowMeansIff(nets, networks, peering, rows[0], p);
      assert ToRules(sides, rows)[1..] == ToRules(sides, rows[1..]);
    }
  }

  // The compiled list decides as the stored rows say.
  lemma DecidesAsStored(nets: Addressing, s: State, rules: seq<RuleRow>, q: string, p: Packet)
    requires RowsFit(rules, s.peerings) && q in s.peerings && OnBridge(BridgeName(q), p)
    ensures DecideRows(nets, SidesOf(s.networks, s.peerings[q]), rules, q, p)
            == StoredVerdict(nets, s.networks, rules, q, p)
  {
    var rows := RulesOf(rules, q);
    RulesOfOrdered(rules, q);
    forall i | 0 <= i < |rows|
      ensures Involves(s.peerings[q], rows[i].sourceNet) && Involves(s.peerings[q], rows[i].destNet)
    {
      assert rows[i] in rows && RowFits(rows[i], s.peerings);
    }
    hide RulesOf, FirstRow, FirstMatch, ToRules, SidesOf;
    FirstMatchIsFirstRow(nets, s.networks, s.peerings[q], rows, p);
  }

  /** On a packet that crosses a peering's bridge the whole host decides as the peering's stored
      rules do, once the peering has a table, and lets it pass before that; on any other packet
      it has nothing to say. */
  lemma HostDecides(nets: Addressing, s: State, p: Packet)
    requires Firm(s)
    ensures forall q :: Crosses(s, q, p) ==>
      RulesetVerdict(nets, s.ruleset, p)
      == if TableName(q) in s.ruleset then StoredVerdict(nets, s.networks, s.rules, q, p) else Accept
    ensures (forall q :: !Crosses(s, q, p)) ==> RulesetVerdict(nets, s.ruleset, p) == Accept
  {
    HostHoldsTablesInForce(s);
    assert RowsFit(s.rules, s.peerings);
    hide Firm, Holds, TableName, ToRules, RulesOf, SidesOf, BridgeName, Decide, RulesetVerdict, OnBridge, RowsFit,
         StoredVerdict;
    forall q | Crosses(s, q, p)
      ensures RulesetVerdict(nets, s.ruleset, p)
              == if TableName(q) in s.ruleset then StoredVerdict(nets, s.networks, s.rules, q, p) else Accept
    {
      OwnTableDecides(nets, s.ruleset, TablesInForce(s), q, p);
      DecidesAsStored(nets, s, s.rules, q, p);
    }
    if forall q :: !Crosses(s, q, p) {
      NoBridgeCrossed(nets, s.ruleset, TablesInForce(s), p);
    }
  }

  /** The new row's packets: on the bridge, outside established connections, and about which no stored row of
      the same or a smaller priority is. */
  ghost predicate NewRowDecides(
    nets: Addressing, networks: map<nat, Network>, rules: seq<RuleRow>, row: RuleRow, p: Packet)
  {
    && OnBridge(BridgeName(row.peering), p) && !p.established && RowMatches(nets, networks, row, p)
    && forall other :: other in rules && other.peering == row.peering && other.priority <= row.priority ==>
         !RowMatches(nets, networks, other, p)
  }

  lemma NewRowDecidesIff(nets: Addressing, s: State, row: RuleRow, p: Packet)
    requires RowsFit(s.rules, s.peerings) && RowFits(row, s.peerings)
    ensures NewRuleDecides(nets, SidesOf(s.networks, s.peerings[row.peering]), s.rules, row, p)
            <==> NewRowDecides(nets, s.networks, s.rules, row, p)
  {
    var peering := s.peerings[row.peering];
    hide SidesOf, Matches, RowMatches, ToRule, OnBridge, BridgeName;
    RowMeansIff(nets, s.networks, peering, row, p);
    forall other | other in s.rules && other.peering == row.peering
      ensures Matches(nets, ToRule(SidesOf(s.networks, peering), other), p) <==> RowMatches(nets, s.networks, other, p)
    {
      assert RowFits(other, s.peerings);
      RowMeansIff(nets, s.networks, peering, other, p);
    }
  }

  /** Adding a rule to any active peering leaves the host deciding, on the packets that cross its bridge,
      as the new rule does where it is the first to be about them (outside established connections) and as
      the rows stored before do elsewhere; every other packet keeps its verdict. With a table in
      place those rows are what the host applied already, so the new rule changes
      nothing else; without one, this is the moment they come into force. */
  lemma AddedRuleOnHost(
    nets: Addressing, s: State, user: nat, id: string, request: RuleRequest, rule: nat, now: int, p: Packet)
    requires Firm(s) && Possible(s, NewRule(user, id, request, rule, now))
    requires CheckRule(s, user, id, request).Ok? && IsActive(s, id)
    requires forall other :: other in s.rules ==> other.createdAt <= now
    ensures var row := RuleRow(rule, id, if request.priority.Some? then request.priority.value else 100, request.action,
                               request.sourceNet, request.destNet, request.port, request.protocol, now);
            var before := RulesetVerdict(nets, s.ruleset, p);
            && RulesetVerdict(nets, CreateRule(s, user, id, request, rule, now).0.ruleset, p)
               == (if NewRowDecides(nets, s.networks, s.rules, row, p)
                   then (if request.action == "allow" then Accept else Drop)
                   else if OnBridge(BridgeName(id), p) then StoredVerdict(nets, s.networks, s.rules, id, p)
                   else before)
            && (OnBridge(BridgeName(id), p) ==>
                  before == if TableName(id) in s.ruleset then StoredVerdict(nets, s.networks, s.rules, id, p) else Accept)
  {
    hide *;
    var row := RowFor(id, request, rule, now);
    var t := CreateRule(s, user, id, request, rule, now).0;
    NewRuleKeepsFirm(s, user, id, request, rule, now);
    RowIs(id, request, rule, now);
    FirmRows(s);
    var sides := SidesOf(s.networks, s.peerings[id]);
    TableAt(s, id);
    NewRowDecidesIff(nets, s, row, p);
    ActionIs(nets, s, row, p);
    if OnBridge(BridgeName(id), p) {
      AddedRuleDecidesExactly(nets, sides, s.rules, row, p);
      DecidesAsStored(nets, s, s.rules, id, p);
      FirmRows(t);
      DecidesAsStored(nets, t, t.rules, id, p);
      HostDecidesOn(nets, s, id, p);
      HostDecidesOn(nets, t, id, p);
    } else {
      NewRuleStaysOnBridge(nets, sides, s.rules, row, p);
      if q :| q in s.peerings && OnBridge(BridgeName(q), p) {
        HostDecidesOn(nets, s, q, p);
        HostDecidesOn(nets, t, q, p);
        NamesApart(s, id, q);
        OtherRowsSameVerdict(nets, s.networks, s.rules, row, q, p);
      } else {
        HostSilent(nets, s, p);
        HostSilent(nets, t, p);
      }
    }
  }

  lemma FirmRows(s: State)
    requires Firm(s)
    ensures RowsFit(s.rules, s.peerings)
  {
  }

  lemma RowIs(id: string, request: RuleRequest, rule: nat, now: int)
    ensures RowFor(id, request, rule, now)
            == RuleRow(rule, id, if request.priority.Some? then request.priority.value else 100, request.action,
                       request.sourceNet, request.destNet, request.port, request.protocol, now)
  {
  }

  lemma ActionIs(nets: Addressing, s: State, row: RuleRow, p: Packet)
    requires RowFits(row, s.peerings)
    ensures row.peering in s.peerings
    ensures VerdictOf(ToRule(SidesOf(s.networks, s.peerings[row.peering]), row))
            == if row.action == "allow" then Accept else Drop
  {
  }

  lemma OtherRowsSameVerdict(
    nets: Addressing, networks: map<nat, Network>, table: seq<RuleRow>, row: RuleRow, q: string, p: Packet)
    requires q != row.peering
    ensures StoredVerdict(nets, networks, table + [row], q, p) == StoredVerdict(nets, networks, table, q, p)
  {
    OtherPeeringsKeepRules(table, row, q);
    hide RulesOf, FirstRow;
  }

  lemma HostDecidesOn(nets: Addressing, s: State, q: string, p: Packet)
    requires Firm(s) && q in s.peerings && OnBridge(BridgeName(q), p)
    ensures RulesetVerdict(nets, s.ruleset, p)
            == if TableName(q) in s.ruleset then StoredVerdict(nets, s.networks, s.rules, q, p) else Accept
  {
    HostDecides(nets, s, p);
    hide Firm, TableName, RulesetVerdict, StoredVerdict, BridgeName, OnBridge;
    assert Crosses(s, q, p);
  }

  lemma HostSilent(nets: Addressing, s: State, p: Packet)
    requires Firm(s) && forall q :: q in s.peerings ==> !OnBridge(BridgeName(q), p)
    ensures RulesetVerdict(nets, s.ruleset, p) == Accept
  {
    HostDecides(nets, s, p);
    hide Firm, TableName, RulesetVerdict, StoredVerdict, BridgeName, OnBridge;
    assert forall q :: !Crosses(s, q, p);
  }

  lemma NewRuleStaysOnBridge(nets: Addressing, sides: Sides, table: seq<RuleRow>, row: RuleRow, p: Packet)
    requires !OnBridge(BridgeName(row.peering), p)
    ensures !NewRuleDecides(nets, sides, table, row, p)
  {
  }

  lemma NamesApart(s: State, q: string, r: string)
    requires Firm(s) && q in s.peerings && r in s.peerings
    ensures TableName(q) == TableName(r) <==> q == r
  {
    hide TablesCurrent, RowsFit, GoodId, TableName;
  }

  lemma TableAt(s: State, q: string)
    requires Firm(s) && q in s.peerings
    ensures IsActive(s, q) <==> s.peerings[q].status == Active
    ensures TableName(q) in s.ruleset ==>
      s.peerings[q].status == Active && s.ruleset[TableName(q)] == TableOf(s.networks, s.peerings, s.rules, q)
  {
    assert TableCurrent(s.networks, s.peerings, s.rules, s.ruleset, q);
  }

  /** Deleting the rule just added puts the platform and the host back as they were, exactly, if and
      only if the peering is not active or has a table already: the first rule change of an active
      peering installs a table, and taking the rule back does not take the table away. */
  lemma DroppingUndoesAddingIff(
    s: State, user: nat, id: string, request: RuleRequest, rule: nat, now: int)
    requires Firm(s) && Possible(s, NewRule(user, id, request, rule, now)) && CheckRule(s, user, id, request).Ok?
    ensures DeleteStoredRule(CreateRule(s, user, id, request, rule, now).0, user, id, rule).1.Ok?
    ensures DeleteStoredRule(CreateRule(s, user, id, request, rule, now).0, user, id, rule).0 == s
            <==> (IsActive(s, id) ==> TableName(id) in s.ruleset)
    ensures id in s.peerings
    ensures DeleteStoredRule(CreateRule(s, user, id, request, rule, now).0, user, id, rule).0
            == s.(ruleset := if IsActive(s, id)
                             then s.ruleset[TableName(id) := TableOf(s.networks, s.peerings, s.rules, id)]
                             else s.ruleset)
  {
    hide *;
    var row := RowFor(id, request, rule, now);
    var t := CreateRule(s, user, id, request, rule, now).0;
    NewRuleKeepsFirm(s, user, id, request, rule, now);
    DropRuleKeepsFirm(t, user, id, rule);
    TableAt(s, id);
    assert t.rules[|s.rules|] == row;
    AddThenDelete(s.rules, row);
    FreshRule(s, user, id, request, rule, now);
  }

  /** What that means for traffic: before the first rule everything that crosses the bridge passes;
      once a rule is added, what it does not match is dropped; once it is deleted again, everything
      outside established connections is. */
  lemma FirstRuleClosesTheBridge(
    nets: Addressing, s: State, user: nat, id: string, request: RuleRequest, rule: nat, now: int, p: Packet)
    requires Firm(s) && Possible(s, NewRule(user, id, request, rule, now))
    requires CheckRule(s, user, id, request).Ok? && IsActive(s, id)
    requires TableName(id) !in s.ruleset && RulesOf(s.rules, id) == []
    requires OnBridge(BridgeName(id), p) && !p.established
    ensures var added := CreateRule(s, user, id, request, rule, now).0;
            var row := RuleRow(rule, id, if request.priority.Some? then request.priority.value else 100, request.action,
                               request.sourceNet, request.destNet, request.port, request.protocol, now);
            && RulesetVerdict(nets, s.ruleset, p) == Accept
            && RulesetVerdict(nets, added.ruleset, p)
               == (if RowMatches(nets, s.networks, row, p) then (if request.action == "allow" then Accept else Drop)
                   else Drop)
            && RulesetVerdict(nets, DeleteStoredRule(added, user, id, rule).0.ruleset, p) == Drop
  {
    var row := RowFor(id, request, rule, now);
    var t := CreateRule(s, user, id, request, rule, now).0;
    assert IsActive(s, id) && id in s.peerings;
    assert StoredVerdict(nets, s.networks, s.rules, id, p) == Drop;
    OneRowDecides(nets, s.networks, s.rules, row, id, p);
    RowIs(id, request, rule, now);
    hide *;
    NewRuleKeepsFirm(s, user, id, request, rule, now);
    DroppingUndoesAddingIff(s, user, id, request, rule, now);
    DropRuleKeepsFirm(t, user, id, rule);
    TableAt(s, id);
    HostDecidesOn(nets, s, id, p);
    HostDecidesOn(nets, t, id, p);
    HostDecidesOn(nets, DeleteStoredRule(t, user, id, rule).0, id, p);
  }

  lemma OneRowDecides(
    nets: Addressing, networks: map<nat, Network>, table: seq<RuleRow>, row: RuleRow, id: string, p: Packet)
    requires RulesOf(table, id) == [] && row.peering == id && !p.established
    ensures StoredVerdict(nets, networks, table + [row], id, p)
            == if RowMatches(nets, networks, row, p) then ActionOf(row) else Drop
    ensures ActionOf(row) == if row.action == "allow" then Accept else Drop
  {
    assert (table + [row])[..|table|] == table;
    assert RulesOf(table + [row], id) == [row];
    assert [row][1..] == [] && FirstRow(nets, networks, [row][1..], p) == Drop;
    hide RowMatches;
    assert FirstRow(nets, networks, [row], p) == if RowMatches(nets, networks, row, p) then ActionOf(row) else Drop;
  }

  lemma FreshRule(s: State, user: nat, id: string, request: RuleRequest, rule: nat, now: int)
    requires Possible(s, NewRule(user, id, request, rule, now))
    ensures forall i :: 0 <= i < |s.rules| ==> s.rules[i].id != rule
  {
  }

  lemma AddThenDelete(table: seq<RuleRow>, row: RuleRow)
    ensures (forall i :: 0 <= i < |table| ==> table[i].id != row.id) ==> DeleteRule(table + [row], row.id) == table
  {
    assert (table + [row])[..|table|] == table;
    if forall i :: 0 <= i < |table| ==> table[i].id != row.id {
      DeleteAbsent(table, row.id);
    }
  }

  /** Rules stored while a peering is pending act neither then nor once it is activated: until its
      rules change again, everything that crosses its bridge passes. */
  lemma PendingRulesWait(nets: Addressing, s: State, id: string, p: Packet)
    requires Consistent(s) && Firm(s) && id in s.peerings && s.peerings[id].status == Pending
    requires OnBridge(BridgeName(id), p)
    ensures RulesetVerdict(nets, s.ruleset, p) == Accept
    ensures IsActive(Activate(s, id, true), id)
    ensures RulesetVerdict(nets, Activate(s, id, true).ruleset, p) == Accept
  {
    assert PeeringFits(s.peerings[id], s.networks.Keys, id in s.bridges, TaskOf(s.activating, id));
    assert TableCurrent(s.networks, s.peerings, s.rules, s.ruleset, id);
    ActivateChanges(s, id, true);
    TaskKeepsFirm(s, id, true);
    HostDecides(nets, s, p);
    HostDecides(nets, Activate(s, id, true), p);
    hide Consistent, Firm, Activate, TableName, RulesetVerdict, OnBridge, BridgeName, DecideRows;
    assert Crosses(s, id, p) && Crosses(Activate(s, id, true), id, p);
  }
}
