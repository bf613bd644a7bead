/**
 Quotas, ownership and server placement over the runs of the network and peering routes: the
 limits the handlers check one call at a time, as properties of every reachable state.
 */
module PeeringLimits {
  import opened Wrappers
  import opened Nftables
  import opened FirewallCompiler
  import opened RuleTable
  import opened PeeringModel
  import opened PeeringSafety
  import opened PeeringFirewall

  // ---- Quotas ----

  ghost predicate MembersWithin(members: Members) {
    forall n: nat :: |MembersOf(members, n)| <= MAX_MEMBERS_PER_NETWORK
  }

  ghost predicate NetworksWithin(networks: map<nat, Network>) {
    forall u: nat :: |NetworksOwned(networks, u)| <= MAX_NETWORKS_PER_USER
  }

  ghost predicate PeeringsWithin(peerings: Peerings) {
    forall u: nat :: |PeeringsOwned(peerings, u)| <= MAX_PEERINGS_PER_USER
  }

  ghost predicate RulesWithin(rules: seq<RuleRow>) {
    forall q :: |RulesOf(rules, q)| <= MAX_RULES_PER_PEERING
  }

  /** No two peerings join the same two networks, in whichever order they are named. */
  ghost predicate PairsApart(peerings: Peerings) {
    forall q, r :: q in peerings && r in peerings && SamePair(peerings[q], peerings[r]) ==> q == r
  }

  predicate SamePair(p: Peering, q: Peering) {
    {p.netA, p.netB} == {q.netA, q.netB}
  }

  ghost predicate WithinLimits(s: State) {
    && MembersWithin(s.members) && NetworksWithin(s.networks) && PeeringsWithin(s.peerings)
    && RulesWithin(s.rules) && PairsApart(s.peerings)
  }

  lemma FewerOrSame<T>(a: set<T>, b: set<T>)
    requires a <= b
    ensures |a| <= |b|
  {
    assert b == a + (b - a);
  }

  // ---- What each step makes of each table ----

  // The tables after an attachment that passes the checks.
  lemma AttachedRow(s: State, user: nat, net: nat, db: nat, reply: Reply)
    requires CheckAttach(s, user, net, db).Ok?
    ensures net in s.networks && db in s.databases
    ensures var t := AttachDatabase(s, user, net, db, reply).0;
            && t == s.(networks := t.networks, dockerNets := t.dockerNets, members := t.members, bridges := t.bridges)
            && t.networks == s.networks[net := t.networks[net]] && net in t.networks
            && t.networks[net].owner == s.networks[net].owner && t.networks[net].server == s.databases[db].server
            && t.members == s.members + if Connects(s, user, net, db, reply) then {(net, db)} else {}
  {
    AttachChanges(s, user, net, db, reply);
    if Connects(s, user, net, db, reply) {
      JoinChanges(PrepareNetwork(s, net, db, reply).0, net, db);
    } else {
      assert s.members + {} == s.members;
    }
    hide AttachDatabase, CheckAttach, PrepareNetwork, Join;
  }

  lemma MembersAfter(s: State, step: Step)
    ensures Next(s, step).members <= s.members
            || (step.Attach? && CheckAttach(s, step.user, step.net, step.db).Ok?
                && Next(s, step).members == s.members + {(step.net, step.db)})
  {
    match step {
      case Attach(user, net, db, reply) =>
        if CheckAttach(s, user, net, db).Ok? {
          AttachedRow(s, user, net, db, reply);
        } else {
          RefusedAttach(s, user, net, db, reply);
        }
        hide AttachDatabase, CheckAttach;
      case NewRule(_, _, _, _, _) => RuleStepChanges(s, step); hide Next;
      case DropRule(_, _, _) => RuleStepChanges(s, step); hide Next;
      case RunTask(id, created) => ActivateChanges(s, id, created); hide Activate;
      case Detach(user, net, db) =>
        hide ReachesDocker, DetachFromBridges;
      case _ =>
        hide CheckPeering, NetworksOwned, Containers, TablesOf, BridgesWithout, DropRules, PeeringsOf;
    }
  }

  predicate SameRow(p: Peering, q: Peering) {
    p.owner == q.owner && p.netA == q.netA && p.netB == q.netB
  }

  ghost predicate PeeringsShrink(before: Peerings, after: Peerings) {
    forall q :: q in after ==> q in before && SameRow(before[q], after[q])
  }

  lemma PeeringsAfter(s: State, step: Step)
    ensures PeeringsShrink(s.peerings, Next(s, step).peerings)
            || (step.Peer? && CheckPeering(s, step.user, step.a, step.b).Ok?
                && step.peering in Next(s, step).peerings
                && Next(s, step).peerings == s.peerings[step.peering := Next(s, step).peerings[step.peering]]
                && Next(s, step).peerings[step.peering].owner == step.user
                && Next(s, step).peerings[step.peering].netA == step.a
                && Next(s, step).peerings[step.peering].netB == step.b)
  {
    match step {
      case Peer(user, a, b, id) =>
        hide CheckPeering;
      case RunTask(id, created) =>
        ActivateChanges(s, id, created);
        hide Activate, Containers;
      case Unpeer(_, _) => var gone := RemovalChanges(s, step); hide Next;
      case DropNetwork(_, _) => var gone := RemovalChanges(s, step); hide Next;
      case _ => QuietStep(s, step); hide Next;
    }
  }

  ghost predicate NetworksShrink(before: map<nat, Network>, after: map<nat, Network>) {
    forall n :: n in after ==> n in before && after[n].owner == before[n].owner
  }

  lemma NetworksStay(s: State, step: Step)
    requires !step.NewNetwork? && !step.Attach? && !step.DropNetwork?
    ensures Next(s, step).networks == s.networks
  {
    match step {
      case NewRule(_, _, _, _, _) => RuleStepChanges(s, step); hide Next;
      case DropRule(_, _, _) => RuleStepChanges(s, step); hide Next;
      case RunTask(id, created) => ActivateChanges(s, id, created); hide Activate;
      case Detach(user, net, db) => DetachUnread(s, user, net, db); hide DetachDatabase;
      case Unpeer(user, id) => RemovalKeepsTheRest(s, {id}); hide RemovePeerings;
      case Leave(user, db) =>
        if DeleteDatabase(s, user, db).1.Ok? {
          LeaveChanges(s, user, db);
        }
        hide DeleteDatabase;
      case _ => hide CheckPeering;
    }
  }

  lemma NetworksAfterAttach(s: State, user: nat, net: nat, db: nat, reply: Reply)
    ensures NetworksShrink(s.networks, AttachDatabase(s, user, net, db, reply).0.networks)
  {
    if CheckAttach(s, user, net, db).Ok? {
      AttachedRow(s, user, net, db, reply);
    } else {
      RefusedAttach(s, user, net, db, reply);
    }
    hide AttachDatabase, CheckAttach;
  }

  lemma NetworksAfter(s: State, step: Step)
    ensures NetworksShrink(s.networks, Next(s, step).networks)
            || (step.NewNetwork? && |NetworksOwned(s.networks, step.user)| < MAX_NETWORKS_PER_USER
                && Next(s, step).networks == s.networks[step.id := Network(step.user, None, None, None)])
  {
    if step.NewNetwork? {
      hide NetworksOwned;
    } else if step.Attach? {
      hide AttachDatabase, NetworksShrink;
      NetworksAfterAttach(s, step.user, step.net, step.db, step.reply);
    } else if step.DropNetwork? {
      RemovalKeepsTheRest(s, PeeringsOf(s.peerings, step.net));
      hide RemovePeerings, PeeringsOf, MembersOf, Containers;
    } else {
      NetworksStay(s, step);
      hide Next;
    }
  }

  lemma {:induction false} DeletingShrinks(table: seq<RuleRow>, rule: nat, q: string)
    ensures |RulesOf(DeleteRule(table, rule), q)| <= |RulesOf(table, q)|
  {
    if table != [] {
      var n := |table| - 1;
      DeletingShrinks(table[..n], rule, q);
      var rest := DeleteRule(table[..n], rule);
      PlaceLength(table[n], RulesOf(table[..n], q));
      PlaceLength(table[n], RulesOf(rest, q));
      if table[n].id == rule {
        assert rest + [] == rest;
      } else {
        assert (rest + [table[n]])[..|rest|] == rest;
      }
    }
  }

  lemma PlaceLength(row: RuleRow, rows: seq<RuleRow>)
    ensures |Place(row, rows)| == |rows| + 1
  {
    PlaceAdds(row, rows);
    assert |multiset(Place(row, rows))| == |multiset(rows) + multiset{row}|;
  }

  lemma RulesAfter(s: State, step: Step, q: string)
    ensures |RulesOf(Next(s, step).rules, q)| <= |RulesOf(s.rules, q)|
            || (step.NewRule? && step.peering == q && CheckRule(s, step.user, q, step.request).Ok?
                && |RulesOf(Next(s, step).rules, q)| == |RulesOf(s.rules, q)| + 1)
  {
    match step {
      case NewRule(user, id, request, rule, now) =>
        hide RulesOf, ToRules, Script, ExecuteAll, ValidInput, SidesOf, CheckRule;
        if CheckRule(s, user, id, request).Ok? {
          OneRuleMore(s.rules, RowFor(id, request, rule, now), q);
        }
      case DropRule(user, id, rule) =>
        hide RulesOf, ToRules, Script, ExecuteAll, ValidInput, SidesOf, DeleteRule;
        DeletingShrinks(s.rules, rule, q);
      case Unpeer(user, id) =>
        hide RulesOf, BridgesWithout, TablesOf, DropRules;
        DropElsewhere(s.rules, {id}, q);
        NoRules(q);
      case DropNetwork(user, net) =>
        hide RulesOf, BridgesWithout, TablesOf, DropRules, PeeringsOf, Containers;
        DropElsewhere(s.rules, PeeringsOf(s.peerings, net), q);
        NoRules(q);
      case _ =>
        hide RulesOf;
        RulesStay(s, step);
        hide Next;
    }
  }

  lemma NoRules(q: string)
    ensures RulesOf([], q) == [] && |RulesOf([], q)| == 0
  {
  }

  lemma OneRuleMore(table: seq<RuleRow>, row: RuleRow, q: string)
    ensures |RulesOf(table + [row], q)| == |RulesOf(table, q)| + if row.peering == q then 1 else 0
  {
    assert (table + [row])[..|table|] == table;
    PlaceLength(row, RulesOf(table, q));
  }

  lemma RulesStay(s: State, step: Step)
    requires !step.NewRule? && !step.DropRule? && !step.Unpeer? && !step.DropNetwork?
    ensures Next(s, step).rules == s.rules
  {
    match step {
      case Attach(user, net, db, reply) =>
        if CheckAttach(s, user, net, db).Ok? {
          AttachedRow(s, user, net, db, reply);
        } else {
          RefusedAttach(s, user, net, db, reply);
        }
        hide AttachDatabase, CheckAttach;
      case RunTask(id, created) => ActivateChanges(s, id, created); hide Activate;
      case Detach(user, net, db) => DetachUnread(s, user, net, db); hide DetachDatabase;
      case _ => hide CheckPeering, NetworksOwned;
    }
  }

  // ---- Each quota is kept ----

  lemma MembersStayWithin(s: State, step: Step)
    requires MembersWithin(s.members)
    ensures MembersWithin(Next(s, step).members)
  {
    MembersAfter(s, step);
    if step.Attach? && CheckAttach(s, step.user, step.net, step.db).Ok? {
      RoomForMember(s, step.user, step.net, step.db);
    }
    hide Next, CheckAttach, MembersOf;
    var after := Next(s, step).members;
    forall n: nat ensures |MembersOf(after, n)| <= MAX_MEMBERS_PER_NETWORK {
      assert |MembersOf(s.members, n)| <= MAX_MEMBERS_PER_NETWORK;
      if after <= s.members {
        NoMoreMembers(s.members, after, n);
      } else {
        OneMemberMore(s.members, step.net, step.db, n);
      }
    }
  }

  lemma NoMoreMembers(before: Members, after: Members, n: nat)
    requires after <= before
    ensures |MembersOf(after, n)| <= |MembersOf(before, n)|
  {
    FewerOrSame(MembersOf(after, n), MembersOf(before, n));
  }

  lemma OneMemberMore(members: Members, net: nat, db: nat, n: nat)
    ensures |MembersOf(members + {(net, db)}, n)| <= |MembersOf(members, n)| + if n == net then 1 else 0
  {
    FewerOrSame(MembersOf(members + {(net, db)}, n), MembersOf(members, n) + if n == net then {(net, db)} else {});
  }

  lemma RoomForMember(s: State, user: nat, net: nat, db: nat)
    requires CheckAttach(s, user, net, db).Ok?
    ensures |MembersOf(s.members, net)| < MAX_MEMBERS_PER_NETWORK
  {
    hide MembersOf;
  }

  lemma NetworksStayWithin(s: State, step: Step)
    requires NetworksWithin(s.networks)
    ensures NetworksWithin(Next(s, step).networks)
  {
    NetworksAfter(s, step);
    hide Next, NetworksOwned, NetworksShrink;
    var after := Next(s, step).networks;
    forall u: nat ensures |NetworksOwned(after, u)| <= MAX_NETWORKS_PER_USER {
      assert |NetworksOwned(s.networks, u)| <= MAX_NETWORKS_PER_USER;
      if NetworksShrink(s.networks, after) {
        NoMoreNetworks(s.networks, after, u);
      } else {
        OneNetworkMore(s.networks, step.id, step.user, u);
      }
    }
  }

  lemma NoMoreNetworks(before: map<nat, Network>, after: map<nat, Network>, u: nat)
    requires NetworksShrink(before, after)
    ensures |NetworksOwned(after, u)| <= |NetworksOwned(before, u)|
  {
    FewerOrSame(NetworksOwned(after, u), NetworksOwned(before, u));
  }

  lemma OneNetworkMore(networks: map<nat, Network>, id: nat, user: nat, u: nat)
    ensures |NetworksOwned(networks[id := Network(user, None, None, None)], u)|
            <= |NetworksOwned(networks, u)| + if u == user then 1 else 0
  {
    FewerOrSame(NetworksOwned(networks[id := Network(user, None, None, None)], u),
                NetworksOwned(networks, u) + if u == user then {id} else {});
  }

  lemma RoomForPeering(s: State, user: nat, a: nat, b: nat)
    requires CheckPeering(s, user, a, b).Ok?
    ensures |PeeringsOwned(s.peerings, user)| < MAX_PEERINGS_PER_USER && !PeeringExists(s.peerings, a, b)
  {
    hide PeeringsOwned, PeeringExists;
  }

  lemma PeeringsStayWithin(s: State, step: Step)
    requires PeeringsWithin(s.peerings) && PairsApart(s.peerings)
    ensures PeeringsWithin(Next(s, step).peerings) && PairsApart(Next(s, step).peerings)
  {
    PeeringsAfter(s, step);
    if step.Peer? && CheckPeering(s, step.user, step.a, step.b).Ok? {
      RoomForPeering(s, step.user, step.a, step.b);
    }
    hide Next, CheckPeering, PeeringsOwned;
    var after := Next(s, step).peerings;
    if PeeringsShrink(s.peerings, after) {
      forall u: nat ensures |PeeringsOwned(after, u)| <= MAX_PEERINGS_PER_USER {
        NoMorePeerings(s.peerings, after, u);
      }
    } else {
      forall u: nat ensures |PeeringsOwned(after, u)| <= MAX_PEERINGS_PER_USER {
        OnePeeringMore(s.peerings, step.peering, after[step.peering], u);
      }
      forall q, r | q in after && r in after && SamePair(after[q], after[r]) ensures q == r {
        assert q != step.peering ==> !SamePair(after[q], after[step.peering]);
        assert r != step.peering ==> !SamePair(after[r], after[step.peering]);
      }
    }
  }

  lemma NoMorePeerings(before: Peerings, after: Peerings, u: nat)
    requires PeeringsShrink(before, after)
    ensures |PeeringsOwned(after, u)| <= |PeeringsOwned(before, u)|
  {
    FewerOrSame(PeeringsOwned(after, u), PeeringsOwned(before, u));
  }

  lemma OnePeeringMore(peerings: Peerings, id: string, row: Peering, u: nat)
    ensures |PeeringsOwned(peerings[id := row], u)| <= |PeeringsOwned(peerings, u)| + if u == row.owner then 1 else 0
  {
    FewerOrSame(PeeringsOwned(peerings[id := row], u), PeeringsOwned(peerings, u) + if u == row.owner then {id} else {});
  }

  lemma RulesStayWithin(s: State, step: Step)
    requires RulesWithin(s.rules)
    ensures RulesWithin(Next(s, step).rules)
  {
    forall q ensures |RulesOf(Next(s, step).rules, q)| <= MAX_RULES_PER_PEERING {
      RulesAfter(s, step, q);
      if step.NewRule? && CheckRule(s, step.user, q, step.request).Ok? {
        RoomForRule(s, step.user, q, step.request);
      }
      hide Next, CheckRule, RulesOf;
      assert |RulesOf(s.rules, q)| <= MAX_RULES_PER_PEERING;
    }
  }

  lemma RoomForRule(s: State, user: nat, id: string, request: RuleRequest)
    requires CheckRule(s, user, id, request).Ok?
    ensures |RulesOf(s.rules, id)| < MAX_RULES_PER_PEERING
  {
    hide RulesOf;
  }

  /** In every reachable state a user has at most ten networks and ten peerings, a network at most
      twenty members, a peering at most twenty rules, and no two peerings join the same networks. */
  lemma {:induction false} EveryRunStaysWithinLimits(s: State, steps: seq<Step>)
    requires WithinLimits(s) && Feasible(s, steps)
    ensures WithinLimits(Run(s, steps))
  {
    if steps != [] {
      var n := |steps| - 1;
      EveryRunStaysWithinLimits(s, steps[..n]);
      var before, step := Run(s, steps[..n]), steps[n];
      MembersStayWithin(before, step);
      NetworksStayWithin(before, step);
      PeeringsStayWithin(before, step);
      RulesStayWithin(before, step);
      hide MembersWithin, NetworksWithin, PeeringsWithin, RulesWithin, PairsApart, Next, Possible;
    }
  }

  lemma EmptyPlatform(daemons: map<nat, nat>)
    ensures var s := Empty(daemons); Sound(s) && BridgesInStep(s) && Firm(s) && WithinLimits(s) && AllSettled(s)
  {
    hide TableName;
    var s := Empty(daemons);
    assert forall n: nat :: MembersOf(s.members, n) == {};
    assert forall u: nat :: NetworksOwned(s.networks, u) == {};
    assert forall u: nat :: PeeringsOwned(s.peerings, u) == {};
  }

  /** Everything together, for every run from the empty platform. */
  lemma EveryReachableState(daemons: map<nat, nat>, steps: seq<Step>)
    requires Feasible(Empty(daemons), steps)
    ensures var s := Run(Empty(daemons), steps);
            && Consistent(s) && WithinLimits(s)
            && (NeverStrands(Empty(daemons), steps) ==>
                  AllSettled(s) && NeverLeavesBehind(Empty(daemons), steps))
            && (NeverLeavesBehind(Empty(daemons), steps) ==> Sound(s))
            && (NeverLeavesBehind(Empty(daemons), steps) && NeverBreaksStep(Empty(daemons), steps) ==> BridgesInStep(s))
            && (NeverMakesStale(Empty(daemons), steps) ==> Firm(s))
  {
    var s := Empty(daemons);
    EmptyPlatform(daemons);
    SoundIsConsistent(s);
    hide *;
    EveryRunIsConsistent(s, steps);
    EveryRunStaysWithinLimits(s, steps);
    if NeverStrands(s, steps) {
      NothingStranded(s, steps);
    }
    if NeverLeavesBehind(s, steps) {
      EveryRunIsSound(s, steps);
      if NeverBreaksStep(s, steps) {
        EveryRunKeepsBridgesInStep(s, steps);
      }
    }
    if NeverMakesStale(s, steps) {
      EveryRunKeepsTablesCurrent(s, steps);
    }
  }

  lemma SoundIsConsistent(s: State)
    ensures Sound(s) ==> Consistent(s)
  {
  }

  // ---- Docker networks and the daemons they are looked for on ----

  /** Every Docker network is on the daemon its network's server leads to. */
  ghost predicate AllSettled(s: State) {
    forall n :: HasDocker(s.networks, n) ==> Settled(s.daemons, s.networks, n)
  }

  /** The attachment that gives a network a server on another daemon than the one that has its Docker network:
      Docker refuses the container, and the row keeps the server. */
  ghost predicate Strands(s: State, step: Step) {
    && step.Attach? && CheckAttach(s, step.user, step.net, step.db).Ok?
    && HasDocker(s.networks, step.net) && step.db in s.databases
    && s.networks[step.net].docker != Some(DaemonOf(s.daemons, s.databases[step.db].server))
  }

  lemma AttachSettledIff(s: State, user: nat, net: nat, db: nat, reply: Reply)
    requires AllSettled(s) && CheckAttach(s, user, net, db).Ok?
    ensures AllSettled(AttachDatabase(s, user, net, db, reply).0) <==> !Strands(s, Attach(user, net, db, reply))
    ensures Strands(s, Attach(user, net, db, reply)) ==>
      Moves(s, net, db) && AttachDatabase(s, user, net, db, reply).1 == Err(Docker)
  {
    AttachChanges(s, user, net, db, reply);
    AttachedRow(s, user, net, db, reply);
    CheckedAttach(s, user, net, db);
    if Connects(s, user, net, db, reply) {
      JoinChanges(PrepareNetwork(s, net, db, reply).0, net, db);
    }
    if Strands(s, Attach(user, net, db, reply)) {
      StrandedIsRefused(s, user, net, db, reply);
    }
    var t := AttachDatabase(s, user, net, db, reply).0;
    hide AttachDatabase, CheckAttach, PrepareNetwork, Join;
    assert HasDocker(t.networks, net) ==>
      (Settled(t.daemons, t.networks, net) <==> !Strands(s, Attach(user, net, db, reply)));
    forall n | n != net
      ensures HasDocker(t.networks, n) <==> HasDocker(s.networks, n)
      ensures Settled(t.daemons, t.networks, n) <==> Settled(s.daemons, s.networks, n)
    {
    }
    assert Strands(s, Attach(user, net, db, reply)) ==> HasDocker(t.networks, net);
    assert Strands(s, Attach(user, net, db, reply)) ==> Settled(s.daemons, s.networks, net);
  }

  lemma StrandedIsRefused(s: State, user: nat, net: nat, db: nat, reply: Reply)
    requires Strands(s, Attach(user, net, db, reply))
    ensures AttachDatabase(s, user, net, db, reply).1 == Err(Docker)
  {
    PrepareChanges(s, net, db, reply);
    AttachChanges(s, user, net, db, reply);
    hide CheckAttach, PrepareNetwork, Join;
  }

  ghost predicate NoNewDocker(before: map<nat, Network>, after: map<nat, Network>) {
    forall n :: HasDocker(after, n) ==> HasDocker(before, n) && after[n] == before[n]
  }

  lemma OthersMakeNoNetwork(s: State, step: Step)
    requires Possible(s, step) && !step.Attach?
    ensures NoNewDocker(s.networks, Next(s, step).networks)
  {
    if step.NewNetwork? {
      FreshNetwork(s, step);
      hide NetworksOwned, Possible;
    } else if step.DropNetwork? {
      NetworksAfterDrop(s, step.user, step.net);
      hide DeleteNetwork, Possible;
    } else {
      NetworksStay(s, step);
      hide Next, Possible;
    }
  }

  lemma StillSettled(s: State, t: State)
    requires AllSettled(s) && t.daemons == s.daemons && NoNewDocker(s.networks, t.networks)
    ensures AllSettled(t)
  {
  }

  lemma StepKeepsSettledIff(s: State, step: Step)
    requires AllSettled(s) && Possible(s, step)
    ensures AllSettled(Next(s, step)) <==> !Strands(s, step)
  {
    hide Possible, AttachDatabase, CheckAttach, AllSettled;
    if step.Attach? {
      if CheckAttach(s, step.user, step.net, step.db).Ok? {
        hide Strands;
        AttachSettledIff(s, step.user, step.net, step.db, step.reply);
      } else {
        RefusedAttach(s, step.user, step.net, step.db, step.reply);
      }
    } else {
      hide Next, NoNewDocker;
      DaemonsStay(s, step);
      OthersMakeNoNetwork(s, step);
      StillSettled(s, Next(s, step));
    }
  }

  lemma NetworksAfterDrop(s: State, user: nat, net: nat)
    ensures forall n :: n in DeleteNetwork(s, user, net).0.networks ==>
      n in s.networks && DeleteNetwork(s, user, net).0.networks[n] == s.networks[n]
  {
    hide RemovePeerings, PeeringsOf, MembersOf, Containers;
  }

  lemma DaemonsStay(s: State, step: Step)
    ensures Next(s, step).daemons == s.daemons
  {
    match step {
      case Attach(user, net, db, reply) =>
        hide AttachDatabase, CheckAttach;
        if CheckAttach(s, user, net, db).Ok? {
          AttachedRow(s, user, net, db, reply);
        } else {
          RefusedAttach(s, user, net, db, reply);
        }
      case NewRule(_, _, _, _, _) => RuleStepChanges(s, step); hide Next;
      case DropRule(_, _, _) => RuleStepChanges(s, step); hide Next;
      case RunTask(id, created) => ActivateChanges(s, id, created); hide Activate;
      case Unpeer(user, id) => RemovalKeepsTheRest(s, {id}); hide RemovePeerings;
      case DropNetwork(user, net) =>
        RemovalKeepsTheRest(s, PeeringsOf(s.peerings, net));
        hide RemovePeerings, PeeringsOf, MembersOf, Containers, Settled;
      case Detach(user, net, db) => hide ReachesDocker, DetachFromBridges;
      case _ => hide CheckPeering, NetworksOwned, OnDocker;
    }
  }

  ghost predicate NeverStrands(s: State, steps: seq<Step>) {
    steps == [] ||
    (NeverStrands(s, steps[..|steps| - 1])
     && !Strands(Run(s, steps[..|steps| - 1]), steps[|steps| - 1]))
  }

  lemma SettledMissesNothing(s: State, step: Step)
    requires Consistent(s) && AllSettled(s)
    ensures !LeavesBehind(s, step)
  {
    if step.Detach? && (step.net, step.db) in s.members {
      MemberFits(s, (step.net, step.db));
    }
    hide Consistent;
  }

  /** In every run in which no network takes a server on another daemon than the one that has its Docker network,
      every Docker network stays where it is looked for, and so no detach misses a container. */
  lemma {:induction false} NothingStranded(s: State, steps: seq<Step>)
    requires Consistent(s) && AllSettled(s) && Feasible(s, steps) && NeverStrands(s, steps)
    ensures AllSettled(Run(s, steps)) && NeverLeavesBehind(s, steps)
  {
    if steps != [] {
      var n := |steps| - 1;
      NothingStranded(s, steps[..n]);
      EveryRunIsConsistent(s, steps[..n]);
      hide Next, Possible, Consistent, AllSettled, Strands, LeavesBehind;
      StepKeepsSettledIff(Run(s, steps[..n]), steps[n]);
      SettledMissesNothing(Run(s, steps[..n]), steps[n]);
    }
  }

  // ---- What creating and requesting mean for the next request ----

  /** A network is created exactly while the user owns fewer than ten; it is then the user's, with no server, no
      Docker network and no subnet, and counts against that user alone. */
  lemma NetworkCreatedIff(s: State, user: nat, id: nat, other: nat)
    requires id !in s.networks
    ensures var (t, result) := CreateNetwork(s, user, id);
            && (result.Ok? <==> |NetworksOwned(s.networks, user)| < 10)
            && (result.Err? ==> t == s)
            && (result.Ok? ==> t == s.(networks := s.networks[id := Network(user, None, None, None)]))
            && |NetworksOwned(t.networks, other)|
               == |NetworksOwned(s.networks, other)| + if result.Ok? && other == user then 1 else 0
    ensures forall n :: n in NetworksOwned(s.networks, user) <==> n in s.networks && s.networks[n].owner == user
  {
    OneNetworkExactly(s.networks, id, user, other);
    assert forall n :: n in NetworksOwned(s.networks, user) <==> n in s.networks && s.networks[n].owner == user;
    hide NetworksOwned;
  }

  lemma OneNetworkExactly(networks: map<nat, Network>, id: nat, user: nat, other: nat)
    requires id !in networks
    ensures var more := networks[id := Network(user, None, None, None)];
            more - {id} == networks
            && |NetworksOwned(more, other)| == |NetworksOwned(networks, other)| + if other == user then 1 else 0
  {
    var more := networks[id := Network(user, None, None, None)];
    var owned := NetworksOwned(networks, other);
    assert id !in owned;
    forall n ensures n in NetworksOwned(more, other) <==> n in owned || (n == id && other == user) {
    }
    hide NetworksOwned;
    assert NetworksOwned(more, other) == owned + if other == user then {id} else {};
    assert more - {id} == networks;
  }

  /** An attachment is accepted if and only if it passes the checks and Docker connects the container. Then the
      database is one more member of at most twenty, its container is on the Docker network, and asking
      again is a conflict; otherwise nobody has joined anything. */
  lemma AttachedOnce(s: State, user: nat, net: nat, db: nat, reply: Reply)
    ensures var (t, result) := AttachDatabase(s, user, net, db, reply);
            && (result.Ok? <==>
                  && net in s.networks && s.networks[net].owner == user
                  && db in s.databases && s.databases[db].owner == user
                  && s.databases[db].running && s.databases[db].container.Some?
                  && (s.networks[net].server.Some? ==> s.databases[db].server == s.networks[net].server)
                  && (net, db) !in s.members && |MembersOf(s.members, net)| < 20
                  && (if s.networks[net].docker.Some?
                      then s.networks[net].docker == Some(DaemonOf(s.daemons, s.databases[db].server)) else reply.made)
                  && reply.connected)
            && (result.Ok? ==>
                  && (net, db) !in s.members && t.members == s.members + {(net, db)}
                  && |MembersOf(t.members, net)| == |MembersOf(s.members, net)| + 1 <= MAX_MEMBERS_PER_NETWORK
                  && HasContainer(s.databases, db) && net in t.dockerNets
                  && s.databases[db].container.value in t.dockerNets[net]
                  && CheckAttach(t, user, net, db) == Err(Conflict))
            && (result.Err? ==>
                  t == s.(networks := t.networks, dockerNets := t.dockerNets)
                  && (t.dockerNets == s.dockerNets || t.dockerNets == s.dockerNets[net := {}]))
  {
    CheckedIff(s, user, net, db);
    if CheckAttach(s, user, net, db).Err? {
      RefusedAttach(s, user, net, db, reply);
      hide PrepareNetwork, Join, MembersOf, CheckAttach;
    } else {
      AttachChanges(s, user, net, db, reply);
      if Connects(s, user, net, db, reply) {
        var t := AttachDatabase(s, user, net, db, reply).0;
        JoinChanges(PrepareNetwork(s, net, db, reply).0, net, db);
        CheckedAttach(s, user, net, db);
        assert MembersOf(t.members, net) == MembersOf(s.members, net) + {(net, db)};
        AskedAgain(s, t, user, net, db);
      }
      hide AttachDatabase, PrepareNetwork, Join, MembersOf, CheckAttach;
    }
  }

  lemma CheckedIff(s: State, user: nat, net: nat, db: nat)
    ensures CheckAttach(s, user, net, db).Ok?
            <==> && net in s.networks && s.networks[net].owner == user
                 && db in s.databases && s.databases[db].owner == user
                 && s.databases[db].running && s.databases[db].container.Some?
                 && (s.networks[net].server.Some? ==> s.databases[db].server == s.networks[net].server)
                 && (net, db) !in s.members && |MembersOf(s.members, net)| < 20
  {
    hide MembersOf;
  }

  lemma AskedAgain(s: State, t: State, user: nat, net: nat, db: nat)
    requires CheckAttach(s, user, net, db).Ok? && net in t.networks && db in s.databases
    requires t.databases == s.databases && (net, db) in t.members
    requires t.networks[net].owner == s.networks[net].owner && t.networks[net].server == s.databases[db].server
    ensures CheckAttach(t, user, net, db) == Err(Conflict)
  {
    hide MembersOf;
  }

  /** Detaching the database just attached gives back its membership and its place on the Docker network, and
      puts every bridge back as it was if and only if none of those it joined had the container already. */
  lemma DetachingUndoesAttaching(s: State, user: nat, net: nat, db: nat, reply: Reply)
    requires Sound(s) && Connects(s, user, net, db, reply)
    ensures net in s.networks && HasContainer(s.databases, db)
    ensures var c, daemon := s.databases[db].container.value, DaemonOf(s.daemons, s.databases[db].server);
            var u := DetachDatabase(AttachDatabase(s, user, net, db, reply).0, user, net, db).0;
            && u.members == s.members && u.peerings == s.peerings
            && net in u.dockerNets
            && u.dockerNets[net] == (if HasDocker(s.networks, net) && net in s.dockerNets then s.dockerNets[net] else {})
            && (u.bridges == s.bridges
                <==> forall q :: Reached(s.daemons, s.peerings, q, net, daemon) && q in s.bridges ==> c !in s.bridges[q])
  {
    var c, daemon := s.databases[db].container.value, DaemonOf(s.daemons, s.databases[db].server);
    var p, t := PrepareNetwork(s, net, db, reply).0, AttachDatabase(s, user, net, db, reply).0;
    NotOnNetworkYet(s, user, net, db);
    AttachChanges(s, user, net, db, reply);
    CheckedAttach(s, user, net, db);
    AttachFits(s, user, net, db, reply);
    JoinChanges(p, net, db);
    DetachChanges(t, user, net, db);
    OnAndOff(s.daemons, s.peerings, s.bridges, net, daemon, c);
    hide *;
    FittingMeans(p, net, db);
    SettledMeans(t.daemons, t.networks, net);
    DockerMeans(s.networks, net);
    assert s.members + {(net, db)} - {(net, db)} == s.members;
  }

  lemma DockerMeans(networks: map<nat, Network>, net: nat)
    ensures HasDocker(networks, net) <==> net in networks && networks[net].docker.Some?
  {
  }

  lemma SettledMeans(daemons: map<nat, nat>, networks: map<nat, Network>, net: nat)
    ensures Settled(daemons, networks, net)
            <==> net in networks && networks[net].docker == Some(DaemonOf(daemons, networks[net].server))
  {
  }

  lemma FittingMeans(s: State, net: nat, db: nat)
    ensures Fitting(s, net, db)
            <==> Settled(s.daemons, s.networks, net) && HasContainer(s.databases, db)
                 && s.networks[net].server == s.databases[db].server
  {
  }

  lemma NotOnNetworkYet(s: State, user: nat, net: nat, db: nat)
    requires Sound(s) && CheckAttach(s, user, net, db).Ok?
    ensures net in s.networks && HasContainer(s.databases, db)
    ensures HasDocker(s.networks, net) ==> net in s.dockerNets && s.databases[db].container.value !in s.dockerNets[net]
  {
    CheckedAttach(s, user, net, db);
    OnlyMember(s.members, s.databases, net, db);
    if HasDocker(s.networks, net) {
      assert NetworkFits(s.members, s.databases, s.dockerNets, net);
    }
    hide Containers, CheckAttach, MembersFit, PeeringsFit, MembersOnly;
  }

  lemma OnAndOff(
    daemons: map<nat, nat>, peerings: Peerings, bridges: Bridges, net: nat, daemon: nat, c: nat)
    ensures DetachFromBridges(daemons, peerings, AttachToBridges(daemons, peerings, bridges, net, daemon, c), net, daemon, c)
            == bridges
            <==> forall q :: Reached(daemons, peerings, q, net, daemon) && q in bridges ==> c !in bridges[q]
  {
    var back := DetachFromBridges(
      daemons, peerings, AttachToBridges(daemons, peerings, bridges, net, daemon, c), net, daemon, c);
    hide Reached;
    assert back.Keys == bridges.Keys;
    forall q | q in bridges
      ensures back[q] == bridges[q] <==> !(Reached(daemons, peerings, q, net, daemon) && c in bridges[q])
    {
      if Reached(daemons, peerings, q, net, daemon) {
        assert back[q] == bridges[q] + {c} - {c};
      }
    }
    if back == bridges {
      forall q | Reached(daemons, peerings, q, net, daemon) && q in bridges ensures c !in bridges[q] {
        assert back[q] == bridges[q];
      }
    } else {
      assert exists q :: q in bridges && back[q] != bridges[q];
    }
  }

  /** A peering is accepted if and only if it joins two different networks of the user, not on two servers and not
      peered yet, and the user has fewer than ten. Both its row and its task then have the two networks in
      the order named, and the server that each of them has that has one. */
  lemma PeeringAcceptedIff(s: State, user: nat, a: nat, b: nat, id: string)
    ensures var (t, result) := CreatePeering(s, user, a, b, id);
            && (result.Ok? <==>
                  && a != b && a in s.networks && b in s.networks
                  && s.networks[a].owner == user && s.networks[b].owner == user
                  && !(s.networks[a].server.Some? && s.networks[b].server.Some?
                       && s.networks[a].server != s.networks[b].server)
                  && (forall q :: q in s.peerings ==>
                        !(s.peerings[q].netA == a && s.peerings[q].netB == b)
                        && !(s.peerings[q].netA == b && s.peerings[q].netB == a))
                  && |PeeringsOwned(s.peerings, user)| < 10)
            && (result.Err? ==> t == s)
            && (result.Ok? ==>
                  && t == s.(peerings := s.peerings[id := t.peerings[id]], activating := s.activating[id := t.activating[id]])
                  && t.peerings[id].owner == user && t.peerings[id].status == Pending && !t.peerings[id].bridge
                  && t.peerings[id].netA == t.activating[id].netA == a
                  && t.peerings[id].netB == t.activating[id].netB == b
                  && t.peerings[id].server == t.activating[id].server
                  && (forall n :: n in {a, b} && s.networks[n].server.Some? ==>
                        t.peerings[id].server == s.networks[n].server)
                  && (s.networks[a].server.None? && s.networks[b].server.None? ==> t.peerings[id].server.None?))
    ensures forall q :: q in PeeringsOwned(s.peerings, user) <==> q in s.peerings && s.peerings[q].owner == user
  {
    assert forall q :: q in PeeringsOwned(s.peerings, user) <==> q in s.peerings && s.peerings[q].owner == user;
    hide PeeringsOwned;
    PairExistsIff(s.peerings, a, b);
    hide PeeringExists;
  }

  lemma PairExistsIff(peerings: Peerings, a: nat, b: nat)
    ensures a != b ==>
      (PeeringExists(peerings, a, b)
       <==> exists q :: q in peerings && ((peerings[q].netA == a && peerings[q].netB == b)
                                          || (peerings[q].netA == b && peerings[q].netB == a)))
  {
    if a != b {
      forall q | q in peerings
        ensures {peerings[q].netA, peerings[q].netB} == {a, b}
                <==> (peerings[q].netA == a && peerings[q].netB == b) || (peerings[q].netA == b && peerings[q].netB == a)
      {
        SamePairIff(peerings[q].netA, peerings[q].netB, a, b);
      }
    }
  }

  lemma SamePairIff(x: nat, y: nat, a: nat, b: nat)
    requires a != b
    ensures {x, y} == {a, b} <==> (x == a && y == b) || (x == b && y == a)
  {
    if {x, y} == {a, b} {
      assert a in {x, y} && b in {x, y};
    }
  }

  /** A peering requested and then activated has exactly the containers of both networks on its bridge, when all
      their members run on the daemon of a network of the two that has a server, or on the platform's own
      if neither has one. */
  lemma RequestedAndActivated(s: State, user: nat, a: nat, b: nat, id: string, n: nat)
    requires Consistent(s) && id !in s.peerings && CreatePeering(s, user, a, b, id).1.Ok?
    requires n in {a, b} && n in s.networks && a in s.networks && b in s.networks
    requires s.networks[n].server.Some? || (s.networks[a].server.None? && s.networks[b].server.None?)
    requires forall m :: m in s.members && m.0 in {a, b} && m.1 in s.databases ==>
               DaemonOf(s.daemons, s.databases[m.1].server) == DaemonOf(s.daemons, s.networks[n].server)
    ensures var t := Activate(CreatePeering(s, user, a, b, id).0, id, true);
            && id in t.peerings && t.peerings[id].status == Active && t.peerings[id].bridge
            && id in t.bridges && t.bridges[id] == Containers(s.members, s.databases, {a, b})
  {
    PeeringAcceptedIff(s, user, a, b, id);
    var r := CreatePeering(s, user, a, b, id).0;
    var daemon := DaemonOf(s.daemons, s.networks[n].server);
    assert r.activating[id] == Task(a, b, r.peerings[id].server);
    assert DaemonOf(s.daemons, r.peerings[id].server) == daemon;
    ActivateChanges(r, id, true);
    AllHosted(s, {a, b}, daemon);
    assert Connected(r, r.activating[id]) == Containers(s.members, Hosted(s.databases, s.daemons, daemon), {a, b});
    hide CreatePeering, Activate, Consistent, Containers, Hosted, DaemonOf;
  }

  lemma AllHosted(s: State, nets: set<nat>, daemon: nat)
    requires forall m :: m in s.members && m.0 in nets && m.1 in s.databases ==>
               DaemonOf(s.daemons, s.databases[m.1].server) == daemon
    ensures Containers(s.members, Hosted(s.databases, s.daemons, daemon), nets) == Containers(s.members, s.databases, nets)
  {
    var hosted := Hosted(s.databases, s.daemons, daemon);
    forall c | c in Containers(s.members, hosted, nets) ensures c in Containers(s.members, s.databases, nets) {
      var m := ContainerWitness(s.members, hosted, nets, c);
      HostedSome(s.databases, s.daemons, daemon, m.1);
      ContainerIn(s.members, s.databases, nets, m);
    }
    forall c | c in Containers(s.members, s.databases, nets) ensures c in Containers(s.members, hosted, nets) {
      var m := ContainerWitness(s.members, s.databases, nets, c);
      HostedSome(s.databases, s.daemons, daemon, m.1);
      ContainerIn(s.members, hosted, nets, m);
    }
  }

  /** A rule is accepted if and only if it is the owner's, says allow or deny, names the peering's networks, a port
      from 1 to 65535 if any and tcp or udp if any, and the peering has fewer than twenty. It is stored
      with what was asked, at priority 100 unless another is given. */
  lemma RuleAcceptedIff(s: State, user: nat, id: string, request: RuleRequest, rule: nat, now: int)
    ensures CheckRule(s, user, id, request).Ok?
            <==> && id in s.peerings && s.peerings[id].owner == user
                 && request.action in {"allow", "deny"}
                 && request.sourceNet in {s.peerings[id].netA, s.peerings[id].netB}
                 && request.destNet in {s.peerings[id].netA, s.peerings[id].netB}
                 && (request.port.Some? ==> 1 <= request.port.value <= 65535)
                 && (request.protocol.Some? ==> request.protocol.value in {"tcp", "udp"})
                 && |RulesOf(s.rules, id)| < 20
    ensures var (t, result) := CreateRule(s, user, id, request, rule, now);
            && (CheckRule(s, user, id, request).Err? ==> t == s && result.Err?)
            && (CheckRule(s, user, id, request).Ok? ==>
                  t.rules == s.rules
                             + [RuleRow(rule, id, if request.priority.Some? then request.priority.value else 100,
                                        request.action, request.sourceNet, request.destNet, request.port,
                                        request.protocol, now)])
  {
    hide RulesOf, Reapply;
    if CheckRule(s, user, id, request).Ok? {
      ReapplyChanges(s.(rules := s.rules + [RowFor(id, request, rule, now)]), id);
    }
  }

  /** Once a peering is requested, the same two networks cannot be peered again, named in either order. */
  lemma PeeringRequestedOnce(s: State, user: nat, a: nat, b: nat, id: string)
    requires CheckPeering(s, user, a, b).Ok?
    ensures var t := CreatePeering(s, user, a, b, id).0;
            CheckPeering(t, user, a, b) == Err(Conflict) && CheckPeering(t, user, b, a) == Err(Conflict)
  {
    hide PeeringsOwned;
    var t := CreatePeering(s, user, a, b, id).0;
    assert id in t.peerings && {t.peerings[id].netA, t.peerings[id].netB} == {a, b} == {b, a};
  }

  /** Deleting the request gives everything back except the task it spawned. */
  lemma DeletingUndoesRequesting(s: State, user: nat, a: nat, b: nat, id: string)
    requires CheckPeering(s, user, a, b).Ok?
    requires id !in s.peerings && forall i :: 0 <= i < |s.rules| ==> s.rules[i].peering != id
    ensures a in s.networks && b in s.networks
    ensures DeletePeering(CreatePeering(s, user, a, b, id).0, user, id)
            == (s.(activating := s.activating[id :=
                     Task(a, b, if s.networks[b].server.Some? then s.networks[b].server else s.networks[a].server)]),
                Ok(Unit))
  {
    PeersComparable(s, user, a, b);
    hide CheckPeering, DropRules, TableName, LeftOn;
    var t := CreatePeering(s, user, a, b, id).0;
    NoRulesToDrop(s.rules, id);
    assert BridgesWithout(t, {id}) == s.bridges;
    assert TablesOf(t.peerings, {id}) == {};
    hide BridgesWithout, TablesOf;
    assert s.ruleset - {} == s.ruleset && t.peerings - {id} == s.peerings;
  }

  lemma {:induction false} NoRulesToDrop(rules: seq<RuleRow>, id: string)
    requires forall i :: 0 <= i < |rules| ==> rules[i].peering != id
    ensures DropRules(rules, {id}) == rules
  {
    if rules != [] {
      var n := |rules| - 1;
      assert rules[n].peering != id;
      NoRulesToDrop(rules[..n], id);
      assert rules == rules[..n] + [rules[n]];
    }
  }

  // ---- One server per network, one per peering ----

  /** A network's members all run on the network's server. */
  ghost predicate OnOneServer(members: Members, networks: map<nat, Network>, databases: Databases) {
    forall m :: m in members && m.0 in networks && m.1 in databases ==> databases[m.1].server == networks[m.0].server
  }

  predicate Agree(a: Option<nat>, b: Option<nat>) {
    a.Some? && b.Some? ==> a == b
  }

  function ServerOf(networks: map<nat, Network>, net: nat): Option<nat> {
    if net in networks then networks[net].server else None
  }

  /** Peered networks are on one server as far as they are on any. */
  ghost predicate PeersAgree(peerings: Peerings, networks: map<nat, Network>) {
    forall q :: q in peerings ==> Agree(ServerOf(networks, peerings[q].netA), ServerOf(networks, peerings[q].netB))
  }

  /** The network has been local so far and the new database is not. */
  predicate Moves(s: State, net: nat, db: nat) {
    net in s.networks && s.networks[net].server.None? && db in s.databases && s.databases[db].server.Some?
  }

  /** An attachment that passes the checks, refused by Docker or not, keeps all members of a network on the
      network's server if and only if it does not give a network with local members a remote server:
      while a network is local, the check of the server is not made. */
  lemma AttachKeepsOneServerIff(s: State, user: nat, net: nat, db: nat, reply: Reply)
    requires Consistent(s) && OnOneServer(s.members, s.networks, s.databases) && CheckAttach(s, user, net, db).Ok?
    ensures var t := AttachDatabase(s, user, net, db, reply).0;
            OnOneServer(t.members, t.networks, t.databases)
            <==> !(Moves(s, net, db) && MembersOf(s.members, net) != {})
  {
    AttachedRow(s, user, net, db, reply);
    CheckedAttach(s, user, net, db);
    hide AttachDatabase, CheckAttach, OneContainerEach, PeeringsFit;
    var t := AttachDatabase(s, user, net, db, reply).0;
    if Moves(s, net, db) && MembersOf(s.members, net) != {} {
      var m :| m in MembersOf(s.members, net);
      assert m in t.members && HasContainer(s.databases, m.1);
      assert t.databases[m.1].server != t.networks[m.0].server;
    } else {
      forall m | m in t.members && m.0 in t.networks && m.1 in t.databases
        ensures t.databases[m.1].server == t.networks[m.0].server
      {
        if m in s.members && m.0 == net {
          assert m in MembersOf(s.members, net);
        }
      }
    }
  }

  // How one network's new server shows in a peering.
  lemma AgreeAfterMove(
    before: map<nat, Network>, after: map<nat, Network>, net: nat, server: Option<nat>, p: Peering)
    requires before.Keys == after.Keys && net in before && after[net].server == server && p.netA != p.netB
    requires forall n :: n in before && n != net ==> after[n].server == before[n].server
    requires before[net].server.Some? ==> server == before[net].server
    ensures Agree(ServerOf(after, p.netA), ServerOf(after, p.netB))
            <==> if Involves(p, net) && before[net].server.None? then Agree(server, ServerOf(before, OtherNet(p, net)))
                 else Agree(ServerOf(before, p.netA), ServerOf(before, p.netB))
  {
  }

  /** Attaching keeps peered networks on one server if and only if it does not move a local network
      to a server other than that of a network it is peered with: the servers are compared when
      the peering is created, and not again. */
  lemma AttachKeepsPeersAgreeIff(s: State, user: nat, net: nat, db: nat, reply: Reply)
    requires Consistent(s) && PeersAgree(s.peerings, s.networks) && CheckAttach(s, user, net, db).Ok?
    ensures var t := AttachDatabase(s, user, net, db, reply).0;
            PeersAgree(t.peerings, t.networks)
            <==> !(Moves(s, net, db)
                   && exists q :: q in s.peerings && Involves(s.peerings[q], net)
                                  && !Agree(s.databases[db].server, ServerOf(s.networks, OtherNet(s.peerings[q], net))))
  {
    AttachedRow(s, user, net, db, reply);
    CheckedAttach(s, user, net, db);
    var t := AttachDatabase(s, user, net, db, reply).0;
    hide AttachDatabase, CheckAttach, OneContainerEach, MembersFit;
    forall q | q in s.peerings
      ensures Agree(ServerOf(t.networks, s.peerings[q].netA), ServerOf(t.networks, s.peerings[q].netB))
              <==> if Involves(s.peerings[q], net) && s.networks[net].server.None?
                   then Agree(s.databases[db].server, ServerOf(s.networks, OtherNet(s.peerings[q], net)))
                   else Agree(ServerOf(s.networks, s.peerings[q].netA), ServerOf(s.networks, s.peerings[q].netB))
    {
      assert PeeringFits(s.peerings[q], s.networks.Keys, q in s.bridges, TaskOf(s.activating, q));
      AgreeAfterMove(s.networks, t.networks, net, s.databases[db].server, s.peerings[q]);
    }
    hide Consistent, ServerOf, OtherNet, Involves;
    if s.databases[db].server.None? {
      assert forall q :: q in s.peerings ==>
        Agree(s.databases[db].server, ServerOf(s.networks, OtherNet(s.peerings[q], net)));
    }
  }

  // ---- The same over runs ----

  /** The attachment that gives a network another server than its members have. */
  ghost predicate SplitsMembers(s: State, step: Step) {
    && step.Attach? && CheckAttach(s, step.user, step.net, step.db).Ok?
    && Moves(s, step.net, step.db) && MembersOf(s.members, step.net) != {}
  }

  /** The attachment that puts two peered networks on different servers. */
  ghost predicate PartsPeers(s: State, step: Step) {
    && step.Attach? && CheckAttach(s, step.user, step.net, step.db).Ok? && Moves(s, step.net, step.db)
    && exists q :: q in s.peerings && Involves(s.peerings[q], step.net)
                   && !Agree(s.databases[step.db].server, ServerOf(s.networks, OtherNet(s.peerings[q], step.net)))
  }

  ghost predicate ServersStand(s: State, t: State) {
    && (forall n :: n in s.networks && n in t.networks ==> t.networks[n].server == s.networks[n].server)
    && (forall d :: d in s.databases && d in t.databases ==> t.databases[d].server == s.databases[d].server)
  }

  lemma DatabasesStay(s: State, step: Step)
    requires !step.Toggle? && !step.NewDatabase? && !step.Leave? && !step.DropDatabase? && !step.Attach?
    ensures Next(s, step).databases == s.databases
  {
    match step {
      case NewRule(_, _, _, _, _) => RuleStepChanges(s, step); hide Next;
      case DropRule(_, _, _) => RuleStepChanges(s, step); hide Next;
      case RunTask(id, created) => ActivateChanges(s, id, created); hide Activate;
      case Detach(user, net, db) => DetachServers(s, user, net, db); hide DetachDatabase;
      case Unpeer(user, id) => RemovalKeepsTheRest(s, {id}); hide RemovePeerings;
      case DropNetwork(user, net) => DropServers(s, user, net); hide DeleteNetwork;
      case _ => hide CheckPeering, NetworksOwned;
    }
  }

  // The rows of both databases tables agree on the server.
  ghost predicate SameServers(before: Databases, after: Databases) {
    forall d :: d in before && d in after ==> after[d].server == before[d].server
  }

  lemma LeaveServers(s: State, user: nat, db: nat)
    ensures SameServers(s.databases, DeleteDatabase(s, user, db).0.databases)
  {
    if DeleteDatabase(s, user, db).1.Ok? {
      LeaveChanges(s, user, db);
    }
    hide DeleteDatabase;
  }

  lemma RowServers(s: State, db: nat, row: Database, running: bool)
    ensures db !in s.databases ==> SameServers(s.databases, AddDatabase(s, db, row).databases)
    ensures SameServers(s.databases, SetRunning(s, db, running).databases)
  {
  }

  lemma DatabaseServersStand(s: State, step: Step)
    requires Possible(s, step) && (step.Toggle? || step.NewDatabase? || step.Leave? || step.DropDatabase?)
    ensures SameServers(s.databases, Next(s, step).databases)
  {
    hide DeleteDatabase, RemoveDatabase, AddDatabase, SetRunning;
    match step {
      case Leave(user, db) => LeaveServers(s, user, db);
      case DropDatabase(db) => RemoveServers(s, db);
      case NewDatabase(db, row) =>
        RowServers(s, db, row, true);
        hide SameServers;
      case Toggle(db, running) =>
        RowServers(s, db, Database(0, None, false, None, false), running);
        hide SameServers;
    }
  }

  lemma RemoveServers(s: State, db: nat)
    ensures RemoveDatabase(s, db).databases == s.databases - {db}
  {
  }

  lemma ServersAfter(s: State, step: Step)
    requires Possible(s, step) && !(step.Attach? && CheckAttach(s, step.user, step.net, step.db).Ok?)
    ensures ServersStand(s, Next(s, step))
  {
    hide Possible, CheckAttach, AttachDatabase;
    if step.Attach? {
      RefusedAttach(s, step.user, step.net, step.db, step.reply);
    } else if step.DropNetwork? {
      hide DeleteNetwork;
      DropServers(s, step.user, step.net);
    } else if step.NewNetwork? {
      assert Possible(s, step) ==> step.id !in s.networks by {
        FreshNetwork(s, step);
      }
      hide NetworksOwned;
    } else if step.Toggle? || step.NewDatabase? || step.Leave? || step.DropDatabase? {
      NetworksStay(s, step);
      DatabaseServersStand(s, step);
      hide Next;
    } else {
      NetworksStay(s, step);
      DatabasesStay(s, step);
      hide Next;
    }
  }

  lemma FreshNetwork(s: State, step: Step)
    requires step.NewNetwork?
    ensures Possible(s, step) ==> step.id !in s.networks
  {
  }

  lemma DetachServers(s: State, user: nat, net: nat, db: nat)
    ensures var t := DetachDatabase(s, user, net, db).0;
            t.networks == s.networks && t.databases == s.databases
  {
    hide ReachesDocker, DetachFromBridges;
  }

  lemma DropServers(s: State, user: nat, net: nat)
    ensures ServersStand(s, DeleteNetwork(s, user, net).0)
    ensures DeleteNetwork(s, user, net).0.databases == s.databases
  {
    RemovalKeepsTheRest(s, PeeringsOf(s.peerings, net));
    hide RemovePeerings, PeeringsOf, MembersOf, Containers;
  }

  lemma StepKeepsOneServerIff(s: State, step: Step)
    requires Consistent(s) && Possible(s, step) && OnOneServer(s.members, s.networks, s.databases)
    ensures var t := Next(s, step); OnOneServer(t.members, t.networks, t.databases) <==> !SplitsMembers(s, step)
  {
    if step.Attach? && CheckAttach(s, step.user, step.net, step.db).Ok? {
      hide Consistent, AttachDatabase, CheckAttach, OnOneServer, Moves, MembersOf;
      AttachKeepsOneServerIff(s, step.user, step.net, step.db, step.reply);
    } else {
      MembersAfter(s, step);
      ServersAfter(s, step);
      hide Next, Possible, OneContainerEach, PeeringsFit, CheckAttach;
    }
  }

  lemma PeersStandTogether(s: State, t: State, q: string)
    requires Consistent(s) && PeersAgree(s.peerings, s.networks) && ServersStand(s, t)
    requires q in s.peerings && q in t.peerings && SameRow(s.peerings[q], t.peerings[q])
    ensures Agree(ServerOf(t.networks, t.peerings[q].netA), ServerOf(t.networks, t.peerings[q].netB))
  {
    assert PeeringFits(s.peerings[q], s.networks.Keys, q in s.bridges, TaskOf(s.activating, q));
    assert Agree(ServerOf(s.networks, s.peerings[q].netA), ServerOf(s.networks, s.peerings[q].netB));
  }

  // The steps other than an attachment.
  lemma OtherStepsKeepPeers(s: State, step: Step)
    requires Consistent(s) && Possible(s, step) && PeersAgree(s.peerings, s.networks)
    requires !(step.Attach? && CheckAttach(s, step.user, step.net, step.db).Ok?)
    ensures PeersAgree(Next(s, step).peerings, Next(s, step).networks)
  {
    PeeringsAfter(s, step);
    ServersAfter(s, step);
    if step.Peer? && CheckPeering(s, step.user, step.a, step.b).Ok? {
      PeersComparable(s, step.user, step.a, step.b);
    }
    hide Next, Possible, CheckPeering, CheckAttach, OneContainerEach, Consistent, Agree;
    var t := Next(s, step);
    forall q | q in t.peerings && q in s.peerings && SameRow(s.peerings[q], t.peerings[q])
      ensures Agree(ServerOf(t.networks, t.peerings[q].netA), ServerOf(t.networks, t.peerings[q].netB))
    {
      PeersStandTogether(s, t, q);
    }
    forall q | q in t.peerings
      ensures Agree(ServerOf(t.networks, t.peerings[q].netA), ServerOf(t.networks, t.peerings[q].netB))
    {
      if !PeeringsShrink(s.peerings, t.peerings) {
        NewPeersTogether(s, t, step.peering, step.a, step.b);
      }
    }
  }

  lemma NewPeersTogether(s: State, t: State, id: string, a: nat, b: nat)
    requires ServersStand(s, t) && id in t.peerings && t.peerings[id].netA == a && t.peerings[id].netB == b
    requires a in s.networks && b in s.networks && Agree(ServerOf(s.networks, a), ServerOf(s.networks, b))
    ensures Agree(ServerOf(t.networks, t.peerings[id].netA), ServerOf(t.networks, t.peerings[id].netB))
  {
  }

  lemma StepKeepsPeersAgreeIff(s: State, step: Step)
    requires Consistent(s) && Possible(s, step) && PeersAgree(s.peerings, s.networks)
    ensures PeersAgree(Next(s, step).peerings, Next(s, step).networks) <==> !PartsPeers(s, step)
  {
    hide Consistent, AttachDatabase, CheckAttach, PeersAgree, Moves, Agree, ServerOf;
    if step.Attach? && CheckAttach(s, step.user, step.net, step.db).Ok? {
      AttachKeepsPeersAgreeIff(s, step.user, step.net, step.db, step.reply);
    } else {
      OtherStepsKeepPeers(s, step);
    }
  }

  lemma PeersComparable(s: State, user: nat, a: nat, b: nat)
    requires CheckPeering(s, user, a, b).Ok?
    ensures a in s.networks && b in s.networks && Agree(ServerOf(s.networks, a), ServerOf(s.networks, b))
  {
    hide PeeringExists, PeeringsOwned;
  }

  ghost predicate NeverSplits(s: State, steps: seq<Step>) {
    steps == [] ||
    (NeverSplits(s, steps[..|steps| - 1])
     && !SplitsMembers(Run(s, steps[..|steps| - 1]), steps[|steps| - 1]))
  }

  ghost predicate NeverParts(s: State, steps: seq<Step>) {
    steps == [] ||
    (NeverParts(s, steps[..|steps| - 1])
     && !PartsPeers(Run(s, steps[..|steps| - 1]), steps[|steps| - 1]))
  }

  /** In every run in which no remote database asks to join a network with local members, all members of a
      network run on the network's server. */
  lemma {:induction false} EveryRunKeepsOneServer(daemons: map<nat, nat>, steps: seq<Step>)
    requires Feasible(Empty(daemons), steps) && NeverSplits(Empty(daemons), steps)
    ensures var s := Run(Empty(daemons), steps); OnOneServer(s.members, s.networks, s.databases)
  {
    if steps != [] {
      var n := |steps| - 1;
      EveryRunKeepsOneServer(daemons, steps[..n]);
      EveryReachableState(daemons, steps[..n]);
      hide Next, Possible, Sound, Consistent, AllSettled, WithinLimits, OnOneServer, SplitsMembers, Firm, BridgesInStep;
      StepKeepsOneServerIff(Run(Empty(daemons), steps[..n]), steps[n]);
    }
  }

  /** And in every run in which no local network takes a server other than its peers', peered networks
      are on one server as far as they are on any. */
  lemma {:induction false} EveryRunKeepsPeersTogether(daemons: map<nat, nat>, steps: seq<Step>)
    requires Feasible(Empty(daemons), steps) && NeverParts(Empty(daemons), steps)
    ensures PeersAgree(Run(Empty(daemons), steps).peerings, Run(Empty(daemons), steps).networks)
  {
    if steps != [] {
      var n := |steps| - 1;
      EveryRunKeepsPeersTogether(daemons, steps[..n]);
      EveryReachableState(daemons, steps[..n]);
      hide Next, Possible, Sound, Consistent, AllSettled, WithinLimits, PeersAgree, PartsPeers, Firm, BridgesInStep;
      StepKeepsPeersAgreeIff(Run(Empty(daemons), steps[..n]), steps[n]);
    }
  }
}
