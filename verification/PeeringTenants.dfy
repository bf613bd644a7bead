/**
 Users keep to themselves: what one user asks of the network and peering routes leaves the networks,
 members, peerings, rules, firewall tables and container attachments of every other user alone.
 */
module PeeringTenants {
  import opened Wrappers
  import opened Nftables
  import opened FirewallCompiler
  import opened RuleTable
  import opened PeeringModel
  import opened PeeringSafety
  import opened PeeringFirewall
  import opened PeeringLimits

  // ---- One owner for what hangs together ----

  ghost predicate MembersOwned(members: Members, networks: map<nat, Network>, databases: Databases) {
    forall m :: m in members && m.0 in networks && m.1 in databases ==> networks[m.0].owner == databases[m.1].owner
  }

  ghost predicate PeeringsAgree(peerings: Peerings, networks: map<nat, Network>) {
    forall q, n :: q in peerings && Involves(peerings[q], n) && n in networks ==> networks[n].owner == peerings[q].owner
  }

  /** A network's members and its peerings are its owner's. */
  ghost predicate OneOwner(s: State) {
    MembersOwned(s.members, s.networks, s.databases) && PeeringsAgree(s.peerings, s.networks)
  }

  // Rows that stay keep their owner.
  ghost predicate OwnersStand(s: State, t: State) {
    && (forall n :: n in t.networks && n in s.networks ==> t.networks[n].owner == s.networks[n].owner)
    && (forall d :: d in t.databases && d in s.databases ==> t.databases[d].owner == s.databases[d].owner)
  }

  lemma OwnersAfterAttach(s: State, user: nat, net: nat, db: nat, reply: Reply)
    ensures AttachDatabase(s, user, net, db, reply).0.databases == s.databases
  {
    if CheckAttach(s, user, net, db).Ok? {
      AttachedRow(s, user, net, db, reply);
    } else {
      RefusedAttach(s, user, net, db, reply);
    }
    hide AttachDatabase, CheckAttach;
  }

  lemma OwnersAfterLeave(s: State, user: nat, db: nat)
    ensures forall d :: d in DeleteDatabase(s, user, db).0.databases && d in s.databases ==>
      DeleteDatabase(s, user, db).0.databases[d].owner == s.databases[d].owner
  {
    if DeleteDatabase(s, user, db).1.Ok? {
      LeaveChanges(s, user, db);
    }
    hide DeleteDatabase;
  }

  lemma DatabaseOwners(s: State, step: Step)
    requires Possible(s, step)
    ensures forall d :: d in Next(s, step).databases && d in s.databases ==>
      Next(s, step).databases[d].owner == s.databases[d].owner
  {
    match step {
      case Attach(user, net, db, reply) => hide AttachDatabase, Possible; OwnersAfterAttach(s, user, net, db, reply);
      case Leave(user, db) => hide DeleteDatabase, Possible; OwnersAfterLeave(s, user, db);
      case NewDatabase(_, _) => hide HasContainer;
      case Toggle(_, _) => hide Possible;
      case DropDatabase(db) => hide RemoveDatabase, Possible; RemoveServers(s, db);
      case _ => hide Next, Possible; DatabasesStay(s, step);
    }
  }

  lemma NetworkOwners(s: State, step: Step)
    requires Possible(s, step)
    ensures forall n :: n in Next(s, step).networks && n in s.networks ==>
      Next(s, step).networks[n].owner == s.networks[n].owner
  {
    NetworksAfter(s, step);
    if step.NewNetwork? {
      FreshNetwork(s, step);
    }
    hide Next, Possible, NetworksOwned;
  }

  // Members whose rows keep their owners.
  lemma OwnedStill(s: State, t: State)
    requires Consistent(s) && MembersOwned(s.members, s.networks, s.databases) && OwnersStand(s, t)
    ensures forall m :: m in s.members && m.0 in t.networks && m.1 in t.databases ==>
      t.networks[m.0].owner == t.databases[m.1].owner
  {
    forall m | m in s.members ensures m.0 in s.networks && m.1 in s.databases {
      MemberFits(s, m);
    }
    hide Consistent;
  }

  lemma MembersStayOwned(s: State, step: Step)
    requires Consistent(s) && OneOwner(s) && Possible(s, step)
    ensures MembersOwned(Next(s, step).members, Next(s, step).networks, Next(s, step).databases)
  {
    var t := Next(s, step);
    MembersAfter(s, step);
    DatabaseOwners(s, step);
    NetworkOwners(s, step);
    hide Next, Possible, Consistent, CheckAttach, PeeringsAgree, MembersOwned;
    OwnedStill(s, t);
    if step.Attach? && CheckAttach(s, step.user, step.net, step.db).Ok? {
      CheckedAttach(s, step.user, step.net, step.db);
    }
    MembersOwnedIff(t);
    forall m | m in t.members && m.0 in t.networks && m.1 in t.databases
      ensures t.networks[m.0].owner == t.databases[m.1].owner
    {
      if m !in s.members {
        assert m == (step.net, step.db);
      }
    }
  }

  lemma MembersOwnedIff(s: State)
    ensures MembersOwned(s.members, s.networks, s.databases)
            <==> forall m :: m in s.members && m.0 in s.networks && m.1 in s.databases ==>
                   s.networks[m.0].owner == s.databases[m.1].owner
  {
  }

  lemma PeeringsStayOwned(s: State, step: Step)
    requires Consistent(s) && OneOwner(s) && Possible(s, step)
    ensures PeeringsAgree(Next(s, step).peerings, Next(s, step).networks)
  {
    PeeringsAfter(s, step);
    NetworkOwners(s, step);
    if step.Peer? {
      PeeringAcceptedIff(s, step.user, step.a, step.b, step.peering);
      assert CheckPeering(s, step.user, step.a, step.b).Ok? ==> CreatePeering(s, step.user, step.a, step.b, step.peering).1.Ok?;
    }
    forall q | q in s.peerings ensures s.peerings[q].netA in s.networks && s.peerings[q].netB in s.networks {
      assert PeeringFits(s.peerings[q], s.networks.Keys, q in s.bridges, TaskOf(s.activating, q));
    }
    hide Next, Possible, Consistent, CheckPeering, CreatePeering, MembersOwned;
  }

  lemma {:induction false} EveryRunKeepsOneOwner(daemons: map<nat, nat>, steps: seq<Step>)
    requires Feasible(Empty(daemons), steps)
    ensures OneOwner(Run(Empty(daemons), steps))
  {
    if steps != [] {
      var n := |steps| - 1;
      EveryRunKeepsOneOwner(daemons, steps[..n]);
      EveryReachableState(daemons, steps[..n]);
      hide Next, Possible, Sound, Consistent, AllSettled, WithinLimits, Firm, BridgesInStep, MembersOwned, PeeringsAgree;
      MembersStayOwned(Run(Empty(daemons), steps[..n]), steps[n]);
      PeeringsStayOwned(Run(Empty(daemons), steps[..n]), steps[n]);
    }
  }

  /** So in a sound state a container on a peering's bridge is that of a database of the peering's owner. */
  lemma BridgesHoldTheOwners(s: State, q: string, c: nat)
    requires Sound(s) && OneOwner(s) && IsActive(s, q) && q in s.bridges && c in s.bridges[q]
    ensures exists d :: HasContainer(s.databases, d) && s.databases[d].container == Some(c)
                        && s.databases[d].owner == s.peerings[q].owner
  {
    assert s.bridges[q] <= AtHome(s, q) && Consistent(s);
    var m := AtHomeWitness(s, q, c);
    MemberFits(s, m);
    BelongsIs(s, q);
    hide Sound, Consistent, AtHome;
    assert HasContainer(s.databases, m.1) && s.databases[m.1].container == Some(c);
    assert Involves(s.peerings[q], m.0);
  }

  // ---- What a user has ----

  ghost predicate SameNetworksOf(user: nat, s: State, t: State) {
    && (forall n :: n in s.networks && s.networks[n].owner == user ==> n in t.networks && t.networks[n] == s.networks[n])
    && (forall n :: n in t.networks && t.networks[n].owner == user ==> n in s.networks && s.networks[n].owner == user)
    && (forall n :: n in s.networks && s.networks[n].owner == user ==>
          (n in t.dockerNets <==> n in s.dockerNets) && (n in s.dockerNets ==> t.dockerNets[n] == s.dockerNets[n]))
  }

  ghost predicate SameMembersOf(user: nat, s: State, t: State) {
    && (forall m: (nat, nat) :: m.0 in s.networks && s.networks[m.0].owner == user ==> (m in t.members <==> m in s.members))
    && (forall d :: d in s.databases && s.databases[d].owner == user ==> d in t.databases && t.databases[d] == s.databases[d])
  }

  ghost predicate SamePeering(q: string, s: State, t: State)
    requires q in s.peerings
  {
    && q in t.peerings && t.peerings[q] == s.peerings[q]
    && (q in t.bridges <==> q in s.bridges) && (q in s.bridges ==> t.bridges[q] == s.bridges[q])
    && RulesOf(t.rules, q) == RulesOf(s.rules, q)
    && (TableName(q) in t.ruleset <==> TableName(q) in s.ruleset)
    && (TableName(q) in s.ruleset ==> t.ruleset[TableName(q)] == s.ruleset[TableName(q)])
  }

  ghost predicate SamePeeringsOf(user: nat, s: State, t: State) {
    && (forall q :: q in s.peerings && s.peerings[q].owner == user ==> SamePeering(q, s, t))
    && (forall q :: q in t.peerings && t.peerings[q].owner == user ==> q in s.peerings && s.peerings[q].owner == user)
  }

  /** The user's networks, Docker networks, members, databases, peerings, bridges, rules and firewall tables are
      as they were. */
  ghost predicate Undisturbed(user: nat, s: State, t: State) {
    SameNetworksOf(user, s, t) && SameMembersOf(user, s, t) && SamePeeringsOf(user, s, t)
  }

  /** The user whose request a step is; tasks and administration have none. */
  function Actor(step: Step): Option<nat> {
    match step
    case NewNetwork(user, _) => Some(user)
    case Attach(user, _, _, _) => Some(user)
    case Detach(user, _, _) => Some(user)
    case Peer(user, _, _, _) => Some(user)
    case Unpeer(user, _) => Some(user)
    case DropNetwork(user, _) => Some(user)
    case NewRule(user, _, _, _, _) => Some(user)
    case DropRule(user, _, _) => Some(user)
    case Leave(user, _) => Some(user)
    case _ => None
  }

  lemma NobodyDisturbed(other: nat, s: State)
    ensures Undisturbed(other, s, s)
  {
    hide RulesOf, TableName;
  }

  // A change of networks, members and bridges that spares the other's bridges.
  lemma PeeringsSpared(other: nat, s: State, t: State)
    requires t.peerings == s.peerings && t.rules == s.rules && t.ruleset == s.ruleset
    requires forall q :: q in s.peerings && s.peerings[q].owner == other ==>
      (q in t.bridges <==> q in s.bridges) && (q in s.bridges ==> t.bridges[q] == s.bridges[q])
    ensures SamePeeringsOf(other, s, t)
  {
    hide RulesOf, TableName;
  }

  lemma CreatedIs(s: State, user: nat, id: nat)
    ensures var t := CreateNetwork(s, user, id).0;
            t == s || t == s.(networks := s.networks[id := Network(user, None, None, None)])
  {
    hide NetworksOwned;
  }

  lemma CreationDisturbsNobody(other: nat, s: State, user: nat, id: nat)
    requires user != other && id !in s.networks
    ensures Undisturbed(other, s, CreateNetwork(s, user, id).0)
  {
    CreatedIs(s, user, id);
    hide CreateNetwork, SamePeeringsOf;
    PeeringsSpared(other, s, CreateNetwork(s, user, id).0);
  }

  // Bridges of other peerings, and those the network has no part in, are not touched.
  lemma BridgesSpared(
    daemons: map<nat, nat>, peerings: Peerings, bridges: Bridges, net: nat, daemon: nat, c: nat, q: string)
    requires q in peerings && !Involves(peerings[q], net)
    ensures var on, off := AttachToBridges(daemons, peerings, bridges, net, daemon, c),
                           DetachFromBridges(daemons, peerings, bridges, net, daemon, c);
            && (q in on <==> q in bridges) && (q in bridges ==> on[q] == bridges[q])
            && (q in off <==> q in bridges) && (q in bridges ==> off[q] == bridges[q])
  {
  }

  lemma NotInvolved(s: State, other: nat, q: string, net: nat)
    requires PeeringsAgree(s.peerings, s.networks) && q in s.peerings && s.peerings[q].owner == other
    requires net in s.networks && s.networks[net].owner != other
    ensures !Involves(s.peerings[q], net)
  {
  }

  lemma AttachDisturbsNobody(other: nat, s: State, user: nat, net: nat, db: nat, reply: Reply)
    requires user != other && OneOwner(s)
    ensures Undisturbed(other, s, AttachDatabase(s, user, net, db, reply).0)
  {
    hide SamePeeringsOf;
    if CheckAttach(s, user, net, db).Err? {
      RefusedAttach(s, user, net, db, reply);
      NobodyDisturbed(other, s);
      hide AttachDatabase, CheckAttach, Undisturbed;
    } else {
      var t, p := AttachDatabase(s, user, net, db, reply).0, PrepareNetwork(s, net, db, reply).0;
      AttachChanges(s, user, net, db, reply);
      CheckedAttach(s, user, net, db);
      if Connects(s, user, net, db, reply) {
        JoinChanges(p, net, db);
      }
      hide AttachDatabase, CheckAttach, PrepareNetwork, Join, AttachToBridges, MembersOwned;
      forall q | q in s.peerings && s.peerings[q].owner == other
        ensures (q in t.bridges <==> q in s.bridges) && (q in s.bridges ==> t.bridges[q] == s.bridges[q])
      {
        NotInvolved(s, other, q, net);
        if Connects(s, user, net, db, reply) {
          BridgesSpared(s.daemons, s.peerings, s.bridges, net, DaemonOf(s.daemons, p.networks[net].server),
                        s.databases[db].container.value, q);
        }
      }
      PeeringsSpared(other, s, t);
      hide PeeringsAgree;
    }
  }

  lemma DetachDisturbsNobody(other: nat, s: State, user: nat, net: nat, db: nat)
    requires user != other && OneOwner(s)
    ensures Undisturbed(other, s, DetachDatabase(s, user, net, db).0)
  {
    if net !in s.networks || s.networks[net].owner != user {
      NobodyDisturbed(other, s);
      hide Undisturbed, ReachesDocker, DetachFromBridges;
    } else if ReachesDocker(s, net, db) {
      DetachReachingDisturbsNobody(other, s, user, net, db);
    } else {
      hide SamePeeringsOf, MembersOwned, DetachFromBridges, ReachesDocker;
      PeeringsSpared(other, s, DetachDatabase(s, user, net, db).0);
    }
  }

  lemma DetachReachingDisturbsNobody(other: nat, s: State, user: nat, net: nat, db: nat)
    requires user != other && OneOwner(s) && ReachesDocker(s, net, db) && s.networks[net].owner == user
    ensures Undisturbed(other, s, DetachDatabase(s, user, net, db).0)
  {
    var t := DetachDatabase(s, user, net, db).0;
    DetachChanges(s, user, net, db);
    hide SamePeeringsOf, MembersOwned, DetachDatabase, DetachFromBridges;
    forall q | q in s.peerings && s.peerings[q].owner == other
      ensures (q in t.bridges <==> q in s.bridges) && (q in s.bridges ==> t.bridges[q] == s.bridges[q])
    {
      NotInvolved(s, other, q, net);
      BridgesSpared(s.daemons, s.peerings, s.bridges, net, DaemonOf(s.daemons, s.networks[net].server),
                    s.databases[db].container.value, q);
    }
    PeeringsSpared(other, s, t);
    hide PeeringsAgree;
  }

  lemma RequestDisturbsNobody(other: nat, s: State, user: nat, a: nat, b: nat, id: string)
    requires user != other && id !in s.peerings
    ensures Undisturbed(other, s, CreatePeering(s, user, a, b, id).0)
  {
    PeeringAcceptedIff(s, user, a, b, id);
    hide CreatePeering, PeeringsOwned, RulesOf, TableName;
  }

  // Removing some peerings leaves the others as they were.
  lemma RemovalSpares(s: State, gone: set<string>, q: string)
    requires IdsFit(s.peerings) && q in s.peerings && q !in gone
    ensures SamePeering(q, s, RemovePeerings(s, gone))
  {
    DropElsewhere(s.rules, gone, q);
    RemovalSparesTables(s, gone, q);
    hide RulesOf, TableName, DropRules, TablesOf, LeftOn, GoodId;
  }

  lemma UnpeeringDisturbsNobody(other: nat, s: State, user: nat, id: string)
    requires user != other && IdsFit(s.peerings)
    ensures Undisturbed(other, s, DeletePeering(s, user, id).0)
  {
    if id in s.peerings && s.peerings[id].owner == user {
      RemovalKeepsTheRest(s, {id});
      forall q | q in s.peerings && s.peerings[q].owner == other ensures SamePeering(q, s, RemovePeerings(s, {id})) {
        RemovalSpares(s, {id}, q);
      }
      hide RemovePeerings, SamePeering, IdsFit;
    } else {
      NobodyDisturbed(other, s);
      hide RemovePeerings, Undisturbed;
    }
  }

  lemma DroppingDisturbsNobody(other: nat, s: State, user: nat, net: nat)
    requires user != other && IdsFit(s.peerings) && OneOwner(s)
    ensures Undisturbed(other, s, DeleteNetwork(s, user, net).0)
  {
    if DeleteNetwork(s, user, net).1.Ok? {
      var t, gone := DeleteNetwork(s, user, net).0, PeeringsOf(s.peerings, net);
      DropNetworkChanges(s, user, net);
      OnlyItsDockerNetwork(s, user, net);
      RemovalKeepsTheRest(s, gone);
      assert net in s.networks && s.networks[net].owner == user;
      forall q | q in s.peerings && s.peerings[q].owner == other ensures SamePeering(q, s, RemovePeerings(s, gone)) {
        NotInvolved(s, other, q, net);
        RemovalSpares(s, gone, q);
      }
      hide DeleteNetwork, IdsFit, OneOwner, PeeringsOf;
      StaysSame(other, s, RemovePeerings(s, gone), t);
      hide RemovePeerings, SamePeering;
    } else {
      NobodyDisturbed(other, s);
      hide RemovePeerings, Undisturbed, PeeringsOf, Containers;
    }
  }

  lemma StaysSame(other: nat, s: State, bare: State, t: State)
    requires bare.peerings == t.peerings && bare.bridges == t.bridges && bare.rules == t.rules && bare.ruleset == t.ruleset
    ensures forall q :: q in s.peerings && SamePeering(q, s, bare) ==> SamePeering(q, s, t)
  {
    hide RulesOf, TableName;
  }

  lemma OnlyItsDockerNetwork(s: State, user: nat, net: nat)
    ensures var t := DeleteNetwork(s, user, net).0;
            forall n :: n != net ==> (n in t.dockerNets <==> n in s.dockerNets)
                                     && (n in s.dockerNets ==> t.dockerNets[n] == s.dockerNets[n])
  {
    hide RemovePeerings, Containers, MembersOf, PeeringsOf, Settled;
  }

  // ---- Keys ----

  /** Rows and ids fit, whether or not every table is current. */
  ghost predicate Keyed(s: State) {
    RowsFit(s.rules, s.peerings) && IdsFit(s.peerings)
  }

  // Rows that keep their peerings' networks go on fitting.
  lemma KeysStay(s: State, t: State)
    requires Keyed(s) && t.rules == s.rules
    requires forall q :: q in s.peerings ==> q in t.peerings && SameRow(s.peerings[q], t.peerings[q])
    requires IdsFit(t.peerings)
    ensures Keyed(t)
  {
    hide IdsFit;
    forall row | row in t.rules ensures RowFits(row, t.peerings) {
      assert RowFits(row, s.peerings);
    }
  }

  lemma FewerIds(before: Peerings, after: Peerings)
    requires IdsFit(before) && after.Keys <= before.Keys
    ensures IdsFit(after)
  {
    hide GoodId, TableName;
  }

  lemma KeysAfterRequest(s: State, user: nat, a: nat, b: nat, id: string)
    requires Keyed(s) && Possible(s, Peer(user, a, b, id))
    ensures Keyed(CreatePeering(s, user, a, b, id).0)
  {
    var t := CreatePeering(s, user, a, b, id).0;
    FreshPeering(s, Peer(user, a, b, id));
    PeeringAcceptedIff(s, user, a, b, id);
    assert GoodId(id) && forall q :: q in s.peerings ==> TableName(q) != TableName(id);
    hide CreatePeering, Possible, GoodId, TableName, RowsFit, PeeringsOwned;
    if t != s {
      KeysStay(s, t);
    }
  }

  lemma KeysAfterRemoval(s: State, gone: set<string>)
    requires Keyed(s)
    ensures Keyed(RemovePeerings(s, gone))
  {
    RowsAfterRemoval(s.rules, s.peerings, gone);
    FewerIds(s.peerings, s.peerings - gone);
    hide RowsFit, IdsFit, DropRules, TablesOf, BridgesWithout;
  }

  lemma KeysAfterNewRule(s: State, user: nat, id: string, request: RuleRequest, rule: nat, now: int)
    requires Keyed(s) && Possible(s, NewRule(user, id, request, rule, now))
    ensures RowsFit(CreateRule(s, user, id, request, rule, now).0.rules, s.peerings)
  {
    RuleAcceptedIff(s, user, id, request, rule, now);
    if CheckRule(s, user, id, request).Ok? {
      RowForFits(s, user, id, request, rule, now);
      RowIs(id, request, rule, now);
      NewRuleRows(s, RowFor(id, request, rule, now));
    }
    hide CreateRule, CheckRule, RowsFit, IdsFit, RowFits, RulesOf;
  }

  lemma KeysAfterDropRule(s: State, user: nat, id: string, rule: nat)
    requires Keyed(s)
    ensures RowsFit(DeleteStoredRule(s, user, id, rule).0.rules, s.peerings)
  {
    if id in s.peerings && s.peerings[id].owner == user
       && (exists i :: 0 <= i < |s.rules| && s.rules[i].id == rule && s.rules[i].peering == id)
    {
      DeletedRuleRows(s, id, rule);
      DroppedIs(s, user, id, rule);
      ReapplyStaysOwn(s.(rules := DeleteRule(s.rules, rule)), id);
      hide DeleteStoredRule, DeleteRule, Reapply, RowsFit, IdsFit, TableName;
    } else {
      hide DeleteRule, Reapply, RowsFit, IdsFit;
    }
  }

  lemma KeysAfterRule(s: State, step: Step)
    requires Keyed(s) && (step.NewRule? || step.DropRule?) && Possible(s, step)
    ensures Keyed(Next(s, step))
  {
    RuleStepChanges(s, step);
    hide CreateRule, DeleteStoredRule, RowsFit, IdsFit, Possible;
    match step {
      case NewRule(user, id, request, rule, now) => KeysAfterNewRule(s, user, id, request, rule, now);
      case DropRule(user, id, rule) => KeysAfterDropRule(s, user, id, rule);
    }
  }

  lemma StepKeepsKeys(s: State, step: Step)
    requires Keyed(s) && Possible(s, step)
    ensures Keyed(Next(s, step))
  {
    match step {
      case Peer(user, a, b, id) => hide CreatePeering, Keyed; KeysAfterRequest(s, user, a, b, id);
      case NewRule(_, _, _, _, _) => hide Next, Keyed; KeysAfterRule(s, step);
      case DropRule(_, _, _) => hide Next, Keyed; KeysAfterRule(s, step);
      case Unpeer(user, id) => hide RemovePeerings, Keyed; KeysAfterRemoval(s, {id});
      case DropNetwork(user, net) => hide Keyed; KeysAfterDrop(s, user, net);
      case RunTask(id, created) =>
        ActivateChanges(s, id, created);
        hide Activate, RowsFit, IdsFit, Connected;
        FewerIds(s.peerings, Next(s, step).peerings);
        KeysStay(s, Next(s, step));
      case _ =>
        QuietStep(s, step);
        RulesStay(s, step);
        hide Next, RowsFit, IdsFit;
    }
  }

  lemma KeysAfterDrop(s: State, user: nat, net: nat)
    requires Keyed(s)
    ensures Keyed(DeleteNetwork(s, user, net).0)
  {
    KeysAfterRemoval(s, PeeringsOf(s.peerings, net));
    if DeleteNetwork(s, user, net).1.Ok? {
      DropNetworkChanges(s, user, net);
      hide DeleteNetwork, RemovePeerings, RowsFit, IdsFit, PeeringsOf;
    } else {
      hide RemovePeerings, RowsFit, IdsFit, PeeringsOf, Containers, MembersOf;
    }
  }

  lemma RuleStepSpares(s: State, step: Step, q: string)
    requires (step.NewRule? || step.DropRule?) && Keyed(s) && q in s.peerings && Actor(step) != Some(s.peerings[q].owner)
    ensures SamePeering(q, s, Next(s, step))
  {
    RuleStepChanges(s, step);
    hide CreateRule, DeleteStoredRule, RulesOf, TableName, Keyed;
    match step {
      case NewRule(user, id, request, rule, now) => NewRuleSpares(s, user, id, request, rule, now, q);
      case DropRule(user, id, rule) => DropRuleSpares(s, user, id, rule, q);
    }
  }

  lemma RuleStepsDisturbNobody(other: nat, s: State, step: Step)
    requires (step.NewRule? || step.DropRule?) && Actor(step) != Some(other) && Keyed(s) && Possible(s, step)
    ensures Undisturbed(other, s, Next(s, step))
  {
    RuleStepChanges(s, step);
    hide Next, SamePeering, Keyed, Possible;
    forall q | q in s.peerings && s.peerings[q].owner == other ensures SamePeering(q, s, Next(s, step)) {
      RuleStepSpares(s, step, q);
    }
  }

  // Recompiling reaches the peering's own table only.
  lemma ReapplyStaysOwn(s: State, id: string)
    requires id in s.peerings
    ensures var t := Reapply(s, id).0;
            t == s.(ruleset := t.ruleset) && t.ruleset - {TableName(id)} == s.ruleset - {TableName(id)}
  {
    var rules := ToRules(SidesOf(s.networks, s.peerings[id]), RulesOf(s.rules, id));
    ReapplyChanges(s, id);
    if ValidInput(id, BridgeName(id), rules) {
      ScriptInstallsTable(id, BridgeName(id), rules, s.ruleset);
    }
    hide TableName, ToRules, RulesOf, SidesOf, ValidInput, Script, ExecuteAll, BridgeName, CompiledTable;
  }

  lemma SameElsewhere(before: Ruleset, after: Ruleset, own: string, name: string)
    requires after - {own} == before - {own} && name != own
    ensures (name in after <==> name in before) && (name in before ==> after[name] == before[name])
  {
    assert name in after <==> name in after - {own};
    assert name in before <==> name in before - {own};
  }

  lemma IdsApart(s: State, q: string, r: string)
    requires IdsFit(s.peerings) && q in s.peerings && r in s.peerings && q != r
    ensures TableName(q) != TableName(r)
  {
    hide TableName, GoodId;
  }

  lemma NewRuleSpares(s: State, user: nat, id: string, request: RuleRequest, rule: nat, now: int, q: string)
    requires Keyed(s) && q in s.peerings && s.peerings[q].owner != user
    ensures var t := CreateRule(s, user, id, request, rule, now).0;
            && RulesOf(t.rules, q) == RulesOf(s.rules, q)
            && (TableName(q) in t.ruleset <==> TableName(q) in s.ruleset)
            && (TableName(q) in s.ruleset ==> t.ruleset[TableName(q)] == s.ruleset[TableName(q)])
  {
    RuleAcceptedIff(s, user, id, request, rule, now);
    if CheckRule(s, user, id, request).Ok? {
      var row := RowFor(id, request, rule, now);
      var stored, t := s.(rules := s.rules + [row]), CreateRule(s, user, id, request, rule, now).0;
      ReapplyStaysOwn(stored, id);
      OtherPeeringsKeepRules(s.rules, row, q);
      IdsApart(s, id, q);
      hide RulesOf, TableName, CheckRule, Reapply, Keyed;
      SameElsewhere(s.ruleset, Reapply(stored, id).0.ruleset, TableName(id), TableName(q));
    } else {
      hide CreateRule, RulesOf, TableName, CheckRule;
    }
  }

  lemma DropRuleSpares(s: State, user: nat, id: string, rule: nat, q: string)
    requires Keyed(s) && q in s.peerings && s.peerings[q].owner != user
    ensures var t := DeleteStoredRule(s, user, id, rule).0;
            && RulesOf(t.rules, q) == RulesOf(s.rules, q)
            && (TableName(q) in t.ruleset <==> TableName(q) in s.ruleset)
            && (TableName(q) in s.ruleset ==> t.ruleset[TableName(q)] == s.ruleset[TableName(q)])
  {
    if id in s.peerings && s.peerings[id].owner == user
       && (exists i :: 0 <= i < |s.rules| && s.rules[i].id == rule && s.rules[i].peering == id)
    {
      DeletedRuleRows(s, id, rule);
      IdsApart(s, id, q);
      hide RulesOf, TableName, Reapply, RowsFit, IdsFit, DeleteRule;
      var stored := s.(rules := DeleteRule(s.rules, rule));
      ReapplyStaysOwn(stored, id);
      SameElsewhere(s.ruleset, Reapply(stored, id).0.ruleset, TableName(id), TableName(q));
      DroppedIs(s, user, id, rule);
      hide DeleteStoredRule;
    } else {
      hide RulesOf, TableName, Reapply, Keyed;
    }
  }

  lemma DroppedIs(s: State, user: nat, id: string, rule: nat)
    requires id in s.peerings && s.peerings[id].owner == user
    requires exists i :: 0 <= i < |s.rules| && s.rules[i].id == rule && s.rules[i].peering == id
    ensures var stored := s.(rules := DeleteRule(s.rules, rule));
            DeleteStoredRule(s, user, id, rule).0
            == if s.peerings[id].status == Active then Reapply(stored, id).0 else stored
  {
    hide Reapply, DeleteRule;
  }

  lemma LeavingDisturbsNobody(other: nat, s: State, user: nat, db: nat)
    requires user != other && OneOwner(s)
    ensures Undisturbed(other, s, DeleteDatabase(s, user, db).0)
  {
    if DeleteDatabase(s, user, db).1.Ok? {
      LeaveChanges(s, user, db);
      assert db in s.databases && s.databases[db].owner == user;
      hide DeleteDatabase, RulesOf, TableName, PeeringsAgree;
    } else {
      NobodyDisturbed(other, s);
      hide Undisturbed, OnDocker;
    }
  }

  /** Whatever a user requests, accepted or not, everybody else has what they had. */
  lemma RequestsDisturbNobodyElse(other: nat, s: State, step: Step)
    requires OneOwner(s) && Keyed(s) && Possible(s, step)
    requires Actor(step).Some? && Actor(step).value != other
    ensures Undisturbed(other, s, Next(s, step))
  {
    assert IdsFit(s.peerings);
    FreshPeering(s, step);
    hide Keyed, IdsFit, OneOwner, Undisturbed, AttachDatabase, DetachDatabase, CreatePeering, CreateNetwork, DeletePeering,
         DeleteNetwork, CreateRule, DeleteStoredRule, DeleteDatabase, GoodId, TableName;
    match step {
      case NewNetwork(user, id) => CreationDisturbsNobody(other, s, user, id);
      case Attach(user, net, db, reply) => AttachDisturbsNobody(other, s, user, net, db, reply);
      case Detach(user, net, db) => DetachDisturbsNobody(other, s, user, net, db);
      case Peer(user, a, b, id) => RequestDisturbsNobody(other, s, user, a, b, id);
      case Unpeer(user, id) => UnpeeringDisturbsNobody(other, s, user, id);
      case DropNetwork(user, net) => DroppingDisturbsNobody(other, s, user, net);
      case NewRule(_, _, _, _, _) => hide Next; RuleStepsDisturbNobody(other, s, step);
      case DropRule(_, _, _) => hide Next; RuleStepsDisturbNobody(other, s, step);
      case Leave(user, db) => LeavingDisturbsNobody(other, s, user, db);
    }
  }

  lemma {:induction false} EveryRunKeepsKeys(daemons: map<nat, nat>, steps: seq<Step>)
    requires Feasible(Empty(daemons), steps)
    ensures Keyed(Run(Empty(daemons), steps))
  {
    if steps == [] {
      hide GoodId, TableName;
    } else {
      EveryRunKeepsKeys(daemons, steps[..|steps| - 1]);
      hide Next, Possible, Keyed;
      StepKeepsKeys(Run(Empty(daemons), steps[..|steps| - 1]), steps[|steps| - 1]);
    }
  }

  lemma PeeringsStill(other: nat, s: State, t: State, u: State)
    requires SamePeeringsOf(other, s, t) && SamePeeringsOf(other, t, u)
    ensures SamePeeringsOf(other, s, u)
  {
    forall q | q in s.peerings && s.peerings[q].owner == other ensures SamePeering(q, s, u) {
      assert SamePeering(q, s, t) && SamePeering(q, t, u);
      hide RulesOf, TableName;
    }
    hide SamePeering;
  }

  lemma StillUndisturbed(other: nat, s: State, t: State, u: State)
    requires Undisturbed(other, s, t) && Undisturbed(other, t, u)
    ensures Undisturbed(other, s, u)
  {
    PeeringsStill(other, s, t, u);
    hide SamePeeringsOf;
    forall m: (nat, nat) | m.0 in s.networks && s.networks[m.0].owner == other
      ensures m in u.members <==> m in s.members
    {
      assert t.networks[m.0].owner == other;
    }
  }

  /** In every run, however it began, any number of requests of other users in a row leave a user with exactly
      what was there before them. */
  lemma {:induction false} OthersDisturbNobody(daemons: map<nat, nat>, before: seq<Step>, requests: seq<Step>, user: nat)
    requires Feasible(Empty(daemons), before + requests)
    requires forall i :: 0 <= i < |requests| ==> Actor(requests[i]).Some? && Actor(requests[i]).value != user
    ensures Feasible(Empty(daemons), before)
    ensures Undisturbed(user, Run(Empty(daemons), before), Run(Empty(daemons), before + requests))
  {
    if requests == [] {
      assert before + requests == before;
      NobodyDisturbed(user, Run(Empty(daemons), before));
    } else {
      var n := |requests| - 1;
      var steps := before + requests[..n];
      assert (before + requests)[..|before + requests| - 1] == steps;
      assert (before + requests)[|before + requests| - 1] == requests[n];
      OthersDisturbNobody(daemons, before, requests[..n], user);
      EveryRunKeepsOneOwner(daemons, steps);
      EveryRunKeepsKeys(daemons, steps);
      hide Next, Possible, Keyed, OneOwner, Undisturbed;
      RequestsDisturbNobodyElse(user, Run(Empty(daemons), steps), requests[n]);
      StillUndisturbed(user, Run(Empty(daemons), before), Run(Empty(daemons), steps),
                       Next(Run(Empty(daemons), steps), requests[n]));
    }
  }

  lemma FreshPeering(s: State, step: Step)
    requires Possible(s, step)
    ensures step.Peer? ==> step.peering !in s.peerings
    ensures step.NewNetwork? ==> step.id !in s.networks
  {
    hide GoodId;
  }
}
