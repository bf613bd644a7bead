/**
 Runs from the empty platform that reach the exceptions of the peering theorems: each exact
 condition is met by states the routes lead to.
 */
module PeeringRuns {
  import opened Wrappers
  import opened Nftables
  import opened FirewallCompiler
  import opened RuleTable
  import opened PeeringModel
  import opened PeeringSafety
  import opened PeeringFirewall
  import opened PeeringLimits

  /** A run from the empty platform that passes through `s`. */
  ghost predicate Passes(steps: seq<Step>, s: State) {
    Feasible(Empty(s.daemons), steps) && Run(Empty(s.daemons), steps) == s
  }

  /** And in which no detach has missed a container. */
  ghost predicate Reaches(steps: seq<Step>, s: State) {
    Passes(steps, s) && NeverLeavesBehind(Empty(s.daemons), steps)
  }

  lemma Start(daemons: map<nat, nat>)
    ensures Reaches([], Empty(daemons))
  {
  }

  lemma GoOn(steps: seq<Step>, s: State, step: Step)
    requires Passes(steps, s) && Possible(s, step)
    ensures Passes(steps + [step], Next(s, step))
  {
    assert (steps + [step])[..|steps|] == steps;
    DaemonsStay(s, step);
    hide Next, Possible;
  }

  lemma Go(steps: seq<Step>, s: State, step: Step)
    requires Reaches(steps, s) && Possible(s, step) && !step.Detach?
    ensures Reaches(steps + [step], Next(s, step))
  {
    assert (steps + [step])[..|steps|] == steps;
    DaemonsStay(s, step);
    GoOn(steps, s, step);
    hide Next, Possible, Feasible, LeftOnNetwork, LeftOnBridge;
  }

  // A user's network, local and without a Docker network yet.
  const BARE := Network(0, None, None, None)

  // The same with a Docker network on the platform's own daemon, or on a server's.
  function Made(server: Option<nat>, daemon: nat): Network {
    Network(0, server, Some(daemon), None)
  }

  const GRANTED := Reply(true, None, true)

  function Up(container: nat, server: Option<nat>): Database {
    Database(0, server, true, Some(container), false)
  }

  function OneBare(h: map<nat, nat>): State {
    Empty(h).(networks := map[0 := BARE])
  }

  function TwoBare(h: map<nat, nat>): State {
    Empty(h).(networks := map[0 := BARE, 1 := BARE])
  }

  function Asked(h: map<nat, nat>, id: string): State {
    TwoBare(h).(peerings := map[id := Peering(0, 0, 1, None, Pending, false)], activating := map[id := Task(0, 1, None)])
  }

  function Peered(h: map<nat, nat>, id: string): State {
    TwoBare(h).(peerings := map[id := Peering(0, 0, 1, None, Active, true)], bridges := map[id := {}])
  }

  lemma NetworkStep(s: State, id: nat)
    requires |NetworksOwned(s.networks, 0)| < MAX_NETWORKS_PER_USER
    ensures Next(s, NewNetwork(0, id)) == s.(networks := s.networks[id := BARE])
  {
  }

  lemma ReachOneBare(h: map<nat, nat>) returns (steps: seq<Step>)
    ensures Reaches(steps, OneBare(h))
  {
    Start(h);
    assert NetworksOwned(Empty(h).networks, 0) == {};
    NetworkStep(Empty(h), 0);
    steps := [] + [NewNetwork(0, 0)];
    hide Reaches, Next, NetworksOwned;
    Go([], Empty(h), NewNetwork(0, 0));
    assert Next(Empty(h), NewNetwork(0, 0)) == OneBare(h);
  }

  lemma ReachTwoBare(h: map<nat, nat>) returns (steps: seq<Step>)
    ensures Reaches(steps, TwoBare(h))
  {
    var before := ReachOneBare(h);
    assert NetworksOwned(OneBare(h).networks, 0) == {0};
    NetworkStep(OneBare(h), 1);
    assert Possible(OneBare(h), NewNetwork(0, 1));
    hide Reaches, Next, NetworksOwned;
    Go(before, OneBare(h), NewNetwork(0, 1));
    steps := before + [NewNetwork(0, 1)];
    assert OneBare(h).networks[1 := BARE] == TwoBare(h).networks;
  }

  lemma PeerStep(s: State, id: string)
    requires s.networks == map[0 := BARE, 1 := BARE] && s.peerings == map[]
    ensures CheckPeering(s, 0, 0, 1).Ok?
    ensures Next(s, Peer(0, 0, 1, id))
            == s.(peerings := map[id := Peering(0, 0, 1, None, Pending, false)],
                  activating := s.activating[id := Task(0, 1, None)])
  {
    assert PeeringsOwned(s.peerings, 0) == {};
    hide PeeringsOwned;
  }

  lemma ReachAsked(h: map<nat, nat>, id: string) returns (steps: seq<Step>)
    requires GoodId(id)
    ensures Reaches(steps, Asked(h, id))
  {
    var before := ReachTwoBare(h);
    PeerStep(TwoBare(h), id);
    assert Possible(TwoBare(h), Peer(0, 0, 1, id));
    hide Reaches, Next, GoodId;
    Go(before, TwoBare(h), Peer(0, 0, 1, id));
    steps := before + [Peer(0, 0, 1, id)];
  }

  lemma ActivateStep(h: map<nat, nat>, id: string)
    ensures Next(Asked(h, id), RunTask(id, true)) == Peered(h, id)
  {
    assert Containers({}, Hosted(map[], h, PLATFORM), {0, 1}) == {};
    hide Containers, Hosted;
  }

  lemma ReachPeered(h: map<nat, nat>, id: string) returns (steps: seq<Step>)
    requires GoodId(id)
    ensures Reaches(steps, Peered(h, id))
  {
    var before := ReachAsked(h, id);
    ActivateStep(h, id);
    hide Reaches, Next, GoodId;
    Go(before, Asked(h, id), RunTask(id, true));
    steps := before + [RunTask(id, true)];
  }

  // ---- The first rule of an active peering ----

  const ALLOW := RuleRequest("allow", 0, 1, Some(5432), None, None)

  lemma RuleAllowed(s: State, id: string)
    requires id in s.peerings && s.peerings[id].owner == 0 && s.peerings[id].netA == 0 && s.peerings[id].netB == 1
    requires s.rules == []
    ensures CheckRule(s, 0, id, ALLOW).Ok?
  {
    assert RulesOf([], id) == [];
  }

  /** Reached: an active peering without a table. Allowing one port to cross makes the host drop what
      it let pass before, and taking that rule back makes it drop that port too. */
  lemma FirstRuleRun(h: map<nat, nat>, nets: Addressing, id: string, p: Packet) returns (steps: seq<Step>, s: State)
    requires GoodId(id) && OnBridge(BridgeName(id), p) && !p.established && p.dport != 5432
    ensures var add, drop := NewRule(0, id, ALLOW, 0, 0), DropRule(0, id, 0);
            && Reaches(steps, s) && s.daemons == h && Sound(s) && Firm(s) && IsActive(s, id) && TableName(id) !in s.ruleset
            && Feasible(Empty(h), steps + [add] + [drop])
            && RulesetVerdict(nets, s.ruleset, p) == Accept
            && RulesetVerdict(nets, Run(Empty(h), steps + [add]).ruleset, p) == Drop
            && RulesetVerdict(nets, Run(Empty(h), steps + [add] + [drop]).ruleset, p) == Drop
            && Run(Empty(h), steps + [add] + [drop]) != s
  {
    hide *;
    var add, drop := NewRule(0, id, ALLOW, 0, 0), DropRule(0, id, 0);
    steps := ReachPeered(h, id);
    s := Peered(h, id);
    PeeredIsFirm(h, id);
    PeeredFacts(h, id);
    RuleAllowed(s, id);
    NotThisPort(nets, s, id, p);
    RuleSteps(s, add, drop);
    FirstRuleClosesTheBridge(nets, s, 0, id, ALLOW, 0, 0, p);
    DroppingUndoesAddingIff(s, 0, id, ALLOW, 0, 0);
    ReachesMeans(steps, s);
    TwoMore(steps, s, add, drop);
  }

  lemma OneMore(steps: seq<Step>, s: State, step: Step)
    requires Passes(steps, s) && Possible(s, step)
    ensures Feasible(Empty(s.daemons), steps + [step])
    ensures Run(Empty(s.daemons), steps + [step]) == Next(s, step)
    ensures Passes(steps + [step], Next(s, step)) && Next(s, step).daemons == s.daemons
  {
    GoOn(steps, s, step);
    DaemonsStay(s, step);
    hide Next, Feasible, Run, Possible;
  }

  lemma TwoMore(steps: seq<Step>, s: State, a: Step, b: Step)
    requires Passes(steps, s) && Possible(s, a) && Possible(Next(s, a), b)
    ensures Feasible(Empty(s.daemons), steps + [a]) && Feasible(Empty(s.daemons), steps + [a] + [b])
    ensures Run(Empty(s.daemons), steps + [a]) == Next(s, a)
    ensures Run(Empty(s.daemons), steps + [a] + [b]) == Next(Next(s, a), b)
    ensures Passes(steps + [a] + [b], Next(Next(s, a), b)) && Next(Next(s, a), b).daemons == s.daemons
  {
    hide *;
    OneMore(steps, s, a);
    OneMore(steps + [a], Next(s, a), b);
  }

  lemma PeeredFacts(h: map<nat, nat>, id: string)
    ensures var s := Peered(h, id);
            && s.rules == [] && RulesOf(s.rules, id) == [] && IsActive(s, id) && TableName(id) !in s.ruleset
            && id in s.peerings && s.peerings[id].owner == 0 && s.peerings[id].netA == 0 && s.peerings[id].netB == 1
            && s.daemons == h
  {
    hide TableName;
  }

  lemma RuleSteps(s: State, add: Step, drop: Step)
    requires add.NewRule? && drop.DropRule? && s.rules == []
    ensures Possible(s, add) && Possible(Next(s, add), drop)
    ensures Next(s, add) == CreateRule(s, add.user, add.peering, add.request, add.rule, add.now).0
    ensures Next(Next(s, add), drop) == DeleteStoredRule(Next(s, add), drop.user, drop.peering, drop.rule).0
  {
    hide CreateRule, DeleteStoredRule;
  }

  lemma ReachesMeans(steps: seq<Step>, s: State)
    ensures Reaches(steps, s) <==> Passes(steps, s) && NeverLeavesBehind(Empty(s.daemons), steps)
    ensures Passes(steps, s) <==> Feasible(Empty(s.daemons), steps) && Run(Empty(s.daemons), steps) == s
  {
    hide Feasible, Run, NeverLeavesBehind;
  }

  lemma NotThisPort(nets: Addressing, s: State, id: string, p: Packet)
    requires p.dport != 5432
    ensures !RowMatches(nets, s.networks, RuleRow(0, id, 100, "allow", 0, 1, Some(5432), None, 0), p)
    ensures ALLOW == RuleRequest("allow", 0, 1, Some(5432), None, None)
  {
  }

  lemma PeeredIsFirm(h: map<nat, nat>, id: string)
    requires GoodId(id)
    ensures Firm(Peered(h, id)) && Sound(Peered(h, id))
  {
    hide TableName, GoodId, Containers, Hosted;
  }

  // ---- A database in both of two peered networks ----

  function Attached(h: map<nat, nat>, id: string): State {
    Peered(h, id).(
      networks := map[0 := Made(None, PLATFORM), 1 := BARE],
      databases := map[7 := Up(70, None)], members := {(0, 7)},
      dockerNets := map[0 := {70}], bridges := map[id := {70}])
  }

  function Shared(h: map<nat, nat>, id: string): State {
    Attached(h, id).(
      networks := map[0 := Made(None, PLATFORM), 1 := Made(None, PLATFORM)],
      members := {(0, 7), (1, 7)}, dockerNets := map[0 := {70}, 1 := {70}])
  }

  function WithDatabase(s: State, db: nat, row: Database): State {
    s.(databases := s.databases[db := row])
  }

  lemma DatabaseStep(steps: seq<Step>, s: State, db: nat, row: Database) returns (more: seq<Step>)
    requires Reaches(steps, s) && Possible(s, NewDatabase(db, row))
    ensures Reaches(more, WithDatabase(s, db, row))
  {
    Go(steps, s, NewDatabase(db, row));
    more := steps + [NewDatabase(db, row)];
  }

  lemma AttachStep(steps: seq<Step>, s: State, net: nat, db: nat, reply: Reply, t: State) returns (more: seq<Step>)
    requires Reaches(steps, s) && (reply.subnet.Some? ==> ValidNftValue(reply.subnet.value))
    requires AttachDatabase(s, 0, net, db, reply).0 == t
    ensures Reaches(more, t)
  {
    Go(steps, s, Attach(0, net, db, reply));
    more := steps + [Attach(0, net, db, reply)];
  }

  // An attachment that Docker grants, to a network that had nobody.
  lemma GrantedStep(s: State, net: nat, db: nat)
    requires CheckAttach(s, 0, net, db).Ok? && net in s.networks && s.networks[net] == BARE && net !in s.dockerNets
    ensures db in s.databases && s.databases[db].container.Some?
    ensures var c, server := s.databases[db].container.value, s.databases[db].server;
            var daemon := DaemonOf(s.daemons, server);
            AttachDatabase(s, 0, net, db, GRANTED)
            == (s.(networks := s.networks[net := Made(server, daemon)],
                   members := s.members + {(net, db)}, dockerNets := s.dockerNets[net := {c}],
                   bridges := AttachToBridges(s.daemons, s.peerings, s.bridges, net, daemon, c)),
                Ok(Unit))
  {
    CheckedAttach(s, 0, net, db);
    AttachChanges(s, 0, net, db, GRANTED);
    var p := PrepareNetwork(s, net, db, GRANTED).0;
    JoinChanges(p, net, db);
    hide AttachDatabase, CheckAttach, AttachToBridges, Join, PrepareNetwork, Placed;
    assert p.networks[net] == Made(s.databases[db].server, DaemonOf(s.daemons, s.databases[db].server));
    assert {} + {s.databases[db].container.value} == {s.databases[db].container.value};
    assert p.dockerNets[net := {s.databases[db].container.value}]
           == s.dockerNets[net := {s.databases[db].container.value}];
  }

  function AttachedSoon(h: map<nat, nat>, id: string): State {
    WithDatabase(Peered(h, id), 7, Up(70, None))
  }

  lemma FirstChecked(h: map<nat, nat>, id: string)
    ensures CheckAttach(AttachedSoon(h, id), 0, 0, 7).Ok?
    ensures Possible(Peered(h, id), NewDatabase(7, Up(70, None)))
  {
    assert MembersOf(AttachedSoon(h, id).members, 0) == {};
  }

  // Ready for database 7 to join a bare network, and joined.
  ghost predicate Joins(s: State, t: State, id: string, net: nat) {
    && net in s.networks && s.networks[net] == BARE && net !in s.dockerNets
    && 7 in s.databases && s.databases[7] == Up(70, None)
    && s.bridges.Keys == {id} && s.bridges[id] <= {70} && Reached(s.daemons, s.peerings, id, net, PLATFORM)
    && t == s.(networks := s.networks[net := Made(None, PLATFORM)], members := s.members + {(net, 7)},
               dockerNets := s.dockerNets[net := {70}], bridges := map[id := {70}])
  }

  lemma Joined(s: State, t: State, id: string, net: nat)
    requires Joins(s, t, id, net) && CheckAttach(s, 0, net, 7).Ok?
    ensures AttachDatabase(s, 0, net, 7, GRANTED).0 == t
  {
    hide AttachDatabase, CheckAttach, AttachToBridges, Reached;
    GrantedStep(s, net, 7);
    OnlyBridge(s.daemons, s.peerings, s.bridges, id, net, 70);
  }

  lemma FirstJoins(h: map<nat, nat>, id: string)
    ensures Joins(AttachedSoon(h, id), Attached(h, id), id, 0)
  {
    assert {} + {(0, 7)} == Attached(h, id).members;
    assert AttachedSoon(h, id).networks[0 := Made(None, PLATFORM)] == Attached(h, id).networks;
  }

  lemma FirstGranted(h: map<nat, nat>, id: string)
    ensures AttachDatabase(AttachedSoon(h, id), 0, 0, 7, GRANTED).0 == Attached(h, id)
  {
    hide *;
    FirstChecked(h, id);
    FirstJoins(h, id);
    Joined(AttachedSoon(h, id), Attached(h, id), id, 0);
  }

  lemma ReachAttached(h: map<nat, nat>, id: string) returns (steps: seq<Step>)
    requires GoodId(id)
    ensures Reaches(steps, Attached(h, id))
  {
    var before := ReachPeered(h, id);
    FirstChecked(h, id);
    FirstGranted(h, id);
    hide Reaches, AttachDatabase, CheckAttach, Possible, Attached, Peered;
    before := DatabaseStep(before, Peered(h, id), 7, Up(70, None));
    steps := AttachStep(before, AttachedSoon(h, id), 0, 7, GRANTED, Attached(h, id));
  }

  lemma OnlyBridge(h: map<nat, nat>, peerings: Peerings, bridges: Bridges, id: string, net: nat, c: nat)
    requires bridges.Keys == {id} && Reached(h, peerings, id, net, PLATFORM) && bridges[id] <= {c}
    ensures AttachToBridges(h, peerings, bridges, net, PLATFORM, c) == map[id := {c}]
  {
    var joined := AttachToBridges(h, peerings, bridges, net, PLATFORM, c);
    assert bridges[id] + {c} == {c};
    assert forall q :: q in joined <==> q == id;
  }

  lemma SecondJoins(h: map<nat, nat>, id: string)
    ensures Joins(Attached(h, id), Shared(h, id), id, 1)
    ensures CheckAttach(Attached(h, id), 0, 1, 7).Ok?
  {
    assert MembersOf(Attached(h, id).members, 1) == {};
    assert {(0, 7)} + {(1, 7)} == Shared(h, id).members;
    assert Attached(h, id).networks[1 := Made(None, PLATFORM)] == Shared(h, id).networks;
  }

  lemma SecondGranted(h: map<nat, nat>, id: string)
    ensures AttachDatabase(Attached(h, id), 0, 1, 7, GRANTED).0 == Shared(h, id)
  {
    hide *;
    SecondJoins(h, id);
    Joined(Attached(h, id), Shared(h, id), id, 1);
  }

  lemma ReachShared(h: map<nat, nat>, id: string) returns (steps: seq<Step>)
    requires GoodId(id)
    ensures Reaches(steps, Shared(h, id))
  {
    var before := ReachAttached(h, id);
    SecondGranted(h, id);
    hide Reaches, AttachDatabase, Shared, Attached;
    steps := AttachStep(before, Attached(h, id), 1, 7, GRANTED, Shared(h, id));
  }

  lemma Certainly(steps: seq<Step>, s: State)
    requires Reaches(steps, s)
    ensures Sound(s) && Consistent(s) && WithinLimits(s)
    ensures NeverBreaksStep(Empty(s.daemons), steps) ==> BridgesInStep(s)
    ensures NeverMakesStale(Empty(s.daemons), steps) ==> Firm(s)
  {
    ReachesMeans(steps, s);
    hide *;
    EveryReachableState(s.daemons, steps);
  }

  /** Reached: a database in both of two actively peered networks. Detaching it from one takes it off
      the bridge that the other still entitles it to. */
  lemma SharedDetachRun(h: map<nat, nat>, id: string) returns (steps: seq<Step>, s: State)
    requires GoodId(id)
    ensures var detach := Detach(0, 0, 7);
            && Reaches(steps, s) && s.daemons == h && Sound(s) && BridgesInStep(s) && BreaksStep(s, detach)
            && Feasible(Empty(h), steps + [detach]) && !BridgesInStep(Run(Empty(h), steps + [detach]))
  {
    steps := ReachShared(h, id);
    s := Shared(h, id);
    SharedFacts(h, id);
    Certainly(steps, s);
    assert s.daemons == h;
    hide *;
    DetachNext(s, 0, 0, 7);
    DetachKeepsBridgesInStepIff(s, 0, 0, 7);
    ReachesMeans(steps, s);
    OneMore(steps, s, Detach(0, 0, 7));
  }

  lemma DetachNext(s: State, user: nat, net: nat, db: nat)
    ensures Possible(s, Detach(user, net, db)) && Next(s, Detach(user, net, db)) == DetachDatabase(s, user, net, db).0
  {
    hide DetachDatabase;
  }

  lemma SharedFacts(h: map<nat, nat>, id: string)
    ensures BridgesInStep(Shared(h, id)) && BreaksStep(Shared(h, id), Detach(0, 0, 7))
  {
    var s := Shared(h, id);
    JoinMember({}, s.databases, {0, 1}, 0, 7);
    JoinMember({(0, 7)}, s.databases, {0, 1}, 1, 7);
    assert {} + {(0, 7)} == {(0, 7)} && {(0, 7)} + {(1, 7)} == s.members;
    assert Containers({}, s.databases, {0, 1}) == {};
    hide Containers;
    assert BridgesInStep(s);
    assert DetachBreaks(s, 0, 7, id);
  }

  // ---- A subnet that comes after the rules ----

  const SUBNET := "172.18.0.0/16"

  const LATE := Reply(true, Some(SUBNET), true)

  /** Reached: rules compiled while a network has no subnet. Its first database brings one, and the
      peering's table no longer says what its stored rules say. */
  lemma StaleRulesRun(h: map<nat, nat>, id: string) returns (steps: seq<Step>, s: State)
    requires GoodId(id)
    ensures var attach := Attach(0, 0, 7, LATE);
            && Reaches(steps, s) && s.daemons == h && Sound(s) && Firm(s) && MakesStale(s, attach)
            && Feasible(Empty(h), steps + [attach]) && !Firm(Run(Empty(h), steps + [attach]))
  {
    hide *;
    var attach := Attach(0, 0, 7, LATE);
    var before := ReachPeered(h, id);
    var r;
    steps, r := RuleAdded(h, id, before);
    steps, s := DatabaseAdded(steps, r, h, id);
    Certainly(steps, s);
    SubnetMakesStale(s, h, id);
    AttachKeepsFirmIff(s, 0, 0, 7, LATE);
    AttachNext(s, 0, 0, 7, LATE);
    ReachesMeans(steps, s);
    OneMore(steps, s, attach);
  }

  lemma AttachNext(s: State, user: nat, net: nat, db: nat, reply: Reply)
    ensures Possible(s, Attach(user, net, db, reply)) <==> reply.subnet.Some? ==> ValidNftValue(reply.subnet.value)
    ensures Next(s, Attach(user, net, db, reply)) == AttachDatabase(s, user, net, db, reply).0
    ensures ValidNftValue(SUBNET)
  {
    hide AttachDatabase;
  }

  // The peered state with its first rule.
  ghost predicate Ruled(s: State, h: map<nat, nat>, id: string) {
    && Firm(s) && TableName(id) in s.ruleset && |s.rules| == 1 && s.rules[0].peering == id && s.rules[0].sourceNet == 0
    && s == Peered(h, id).(rules := s.rules, ruleset := s.ruleset, databases := s.databases)
  }

  lemma RuleAdded(h: map<nat, nat>, id: string, before: seq<Step>) returns (steps: seq<Step>, s: State)
    requires GoodId(id) && Reaches(before, Peered(h, id))
    ensures Reaches(steps, s) && Ruled(s, h, id) && s.databases == map[]
  {
    var add := NewRule(0, id, ALLOW, 0, 0);
    var p := Peered(h, id);
    PeeredIsFirm(h, id);
    PeeredFacts(h, id);
    RuleAllowed(p, id);
    hide Reaches, Firm, Sound, CreateRule, TableName, CheckRule, TableOf, IsActive, GoodId;
    assert Possible(p, add);
    NewRuleKeepsFirm(p, 0, id, ALLOW, 0, 0);
    Go(before, p, add);
    steps, s := before + [add], Next(p, add);
    assert s.rules == [RowFor(id, ALLOW, 0, 0)];
    assert p.databases == map[];
  }

  lemma DatabaseAdded(before: seq<Step>, r: State, h: map<nat, nat>, id: string) returns (steps: seq<Step>, s: State)
    requires Reaches(before, r) && Ruled(r, h, id) && r.databases == map[]
    ensures Reaches(steps, s) && Ruled(s, h, id) && s.databases == map[7 := Up(70, None)]
  {
    assert Possible(r, NewDatabase(7, Up(70, None)));
    s := WithDatabase(r, 7, Up(70, None));
    UnreadByFirewall(r, s);
    hide Reaches, Firm, TableName, Possible;
    steps := DatabaseStep(before, r, 7, Up(70, None));
  }

  lemma SubnetMakesStale(s: State, h: map<nat, nat>, id: string)
    requires Ruled(s, h, id) && s.databases == map[7 := Up(70, None)]
    ensures MakesStale(s, Attach(0, 0, 7, LATE)) && Firm(s) && s.daemons == h
    ensures ValidNftValue(SUBNET) && CheckAttach(s, 0, 0, 7).Ok?
    ensures Possible(s, Attach(0, 0, 7, LATE))
  {
    hide Firm, TableName;
    assert MembersOf(s.members, 0) == {};
    assert s.networks == TwoBare(h).networks;
    assert SUBNET[0] != "0.0.0.0/0"[0];
  }

  // ---- A bridge on another daemon than its members ----

  lemma RemoteDatabase(before: seq<Step>, s: State, server: nat) returns (steps: seq<Step>, t: State)
    requires Reaches(before, s) && 8 !in s.databases
    requires forall d :: HasContainer(s.databases, d) ==> s.databases[d].container != Some(80)
    ensures t == WithDatabase(s, 8, Up(80, Some(server))) && Reaches(steps, t)
  {
    assert Possible(s, NewDatabase(8, Up(80, Some(server))));
    hide Reaches, Possible;
    steps := DatabaseStep(before, s, 8, Up(80, Some(server)));
    t := WithDatabase(s, 8, Up(80, Some(server)));
  }

  /** Reached: two networks peered while neither has a server, so that the bridge is on the platform's own
      daemon. The first database attached is remote; the attachment is accepted, its container belongs on
      the bridge, and the bridge stays empty. */
  lemma ShortBridgeRun(h: map<nat, nat>, id: string, server: nat) returns (steps: seq<Step>, s: State)
    requires GoodId(id) && server in h && h[server] != PLATFORM
    ensures var attach := Attach(0, 0, 8, GRANTED);
            && Reaches(steps, s) && s.daemons == h && Sound(s) && BridgesInStep(s) && BreaksStep(s, attach)
            && AttachDatabase(s, 0, 0, 8, GRANTED).1.Ok?
            && Feasible(Empty(h), steps + [attach])
            && var t := Run(Empty(h), steps + [attach]);
               && (0, 8) in t.members && IsActive(t, id) && 80 in Belongs(t, id) && id in t.bridges && t.bridges[id] == {}
  {
    var attach := Attach(0, 0, 8, GRANTED);
    steps := ReachPeered(h, id);
    steps, s := RemoteDatabase(steps, Peered(h, id), server);
    assert MembersOf(s.members, 0) == {};
    assert CheckAttach(s, 0, 0, 8).Ok?;
    assert Containers(s.members, s.databases, {0, 1}) == {};
    hide AttachDatabase, AttachToBridges, CheckAttach, Containers, Next, Possible, Feasible, Run, NeverLeavesBehind;
    GrantedStep(s, 0, 8);
    Certainly(steps, s);
    assert Synced(s.peerings, id, 0) && Elsewhere(s, 8, id);
    assert Connects(s, 0, 0, 8, GRANTED);
    AttachNext(s, 0, 0, 8, GRANTED);
    ReachesMeans(steps, s);
    OneMore(steps, s, attach);
    var t := AttachDatabase(s, 0, 0, 8, GRANTED).0;
    NotReached(s, id, 0, DaemonOf(h, Some(server)), 80);
    ContainerIn(t.members, t.databases, {0, 1}, (0, 8));
  }

  lemma NotReached(s: State, id: string, net: nat, daemon: nat, c: nat)
    requires id in s.bridges && !Reached(s.daemons, s.peerings, id, net, daemon)
    ensures var joined := AttachToBridges(s.daemons, s.peerings, s.bridges, net, daemon, c);
            id in joined && joined[id] == s.bridges[id]
  {
  }

  // ---- A network that takes a server its Docker network is not on ----

  // Network 0 with a local member, its active bridge, and a remote database.
  function Mixed(h: map<nat, nat>, id: string, server: nat): State {
    WithDatabase(Attached(h, id), 8, Up(80, Some(server)))
  }

  // After the remote database has been refused.
  function Stranded(h: map<nat, nat>, id: string, server: nat): State {
    Mixed(h, id, server).(networks := map[0 := Made(Some(server), PLATFORM), 1 := BARE])
  }

  lemma ReachMixed(h: map<nat, nat>, id: string, server: nat) returns (steps: seq<Step>)
    requires GoodId(id)
    ensures Reaches(steps, Mixed(h, id, server))
  {
    var t;
    steps := ReachAttached(h, id);
    steps, t := RemoteDatabase(steps, Attached(h, id), server);
  }

  lemma MixedAccepts(h: map<nat, nat>, id: string, server: nat)
    ensures CheckAttach(Mixed(h, id, server), 0, 0, 8).Ok? && Moves(Mixed(h, id, server), 0, 8)
    ensures OnOneServer(Attached(h, id).members, Mixed(h, id, server).networks, Mixed(h, id, server).databases)
  {
    var s := Mixed(h, id, server);
    assert MembersOf(s.members, 0) == {(0, 7)};
  }

  lemma RefusedStep(h: map<nat, nat>, id: string, server: nat)
    requires server in h && h[server] != PLATFORM
    ensures AttachDatabase(Mixed(h, id, server), 0, 0, 8, GRANTED) == (Stranded(h, id, server), Err(Docker))
    ensures Strands(Mixed(h, id, server), Attach(0, 0, 8, GRANTED))
  {
    var s := Mixed(h, id, server);
    MixedAccepts(h, id, server);
    hide AttachToBridges, CheckAttach, Join;
    assert s.networks[0 := Made(Some(server), PLATFORM)] == map[0 := Made(Some(server), PLATFORM), 1 := BARE];
  }

  /** Reached: a network with a local member. A database of a server elsewhere passes the checks, since a local
      network has no server to compare; the network takes the server, Docker then refuses the container, and the
      row, its member and its Docker network are no longer on one server. */
  lemma RefusedAttachRun(h: map<nat, nat>, id: string, server: nat) returns (steps: seq<Step>, s: State)
    requires GoodId(id) && server in h && h[server] != PLATFORM
    ensures var attach := Attach(0, 0, 8, GRANTED);
            && Reaches(steps, s) && s.daemons == h && Sound(s) && OnOneServer(s.members, s.networks, s.databases)
            && AttachDatabase(s, 0, 0, 8, GRANTED).1 == Err(Docker) && Strands(s, attach)
            && Feasible(Empty(h), steps + [attach])
            && var t := Run(Empty(h), steps + [attach]);
               && t.members == s.members == {(0, 7)} && 0 in t.networks && t.networks[0].server == Some(server)
               && !OnOneServer(t.members, t.networks, t.databases) && !AllSettled(t)
  {
    steps := ReachMixed(h, id, server);
    s := Mixed(h, id, server);
    MixedAccepts(h, id, server);
    RefusedStep(h, id, server);
    var t := Stranded(h, id, server);
    assert (0, 7) in t.members && t.databases[7].server != t.networks[0].server;
    assert HasDocker(t.networks, 0) && !Settled(t.daemons, t.networks, 0);
    hide Reaches, AttachDatabase, CheckAttach, Next, Possible, Feasible, Run, Strands;
    Certainly(steps, s);
    AttachNext(s, 0, 0, 8, GRANTED);
    ReachesMeans(steps, s);
    OneMore(steps, s, Attach(0, 0, 8, GRANTED));
  }

  // After its local member has been detached.
  function Abandoned(h: map<nat, nat>, id: string, server: nat): State {
    Stranded(h, id, server).(members := {})
  }

  lemma MissedStep(h: map<nat, nat>, id: string, server: nat)
    requires server in h && h[server] != PLATFORM
    ensures DetachDatabase(Stranded(h, id, server), 0, 0, 7) == (Abandoned(h, id, server), Ok(Unit))
    ensures LeavesBehind(Stranded(h, id, server), Detach(0, 0, 7))
  {
    var s := Stranded(h, id, server);
    assert DetachFromBridges(h, s.peerings, s.bridges, 0, DaemonOf(h, Some(server)), 70) == s.bridges by {
      assert !Reached(h, s.peerings, id, 0, DaemonOf(h, Some(server)));
    }
    assert s.members - {(0, 7)} == {};
    hide DetachFromBridges;
    assert LeftOnNetwork(s, 0, 0, 7);
  }

  lemma DroppedStep(h: map<nat, nat>, id: string, server: nat)
    requires server in h && h[server] != PLATFORM
    ensures var (t, result) := DeleteNetwork(Abandoned(h, id, server), 0, 0);
            && result.Ok? && 0 !in t.networks && id !in t.peerings
            && 0 in t.dockerNets && 70 in t.dockerNets[0] && id in t.bridges && 70 in t.bridges[id]
            && (0, 7) !in t.members && (1, 7) !in t.members
  {
    var s := Abandoned(h, id, server);
    assert Containers(s.members, s.databases, {0, 1}) == {};
    assert LeftOn(s, id) == {70};
    assert id in PeeringsOf(s.peerings, 0);
    hide Containers, TablesOf, DropRules, LeftOn;
  }

  /** Where that leads: detaching the local member addresses the other server's daemon, takes away the membership,
      and leaves the container on the bridge and on the Docker network; deleting the network then leaves
      both standing, with the container on them. */
  lemma LeftBehindRun(h: map<nat, nat>, id: string, server: nat) returns (steps: seq<Step>, s: State)
    requires GoodId(id) && server in h && h[server] != PLATFORM
    ensures var detach, drop := Detach(0, 0, 7), DropNetwork(0, 0);
            && Reaches(steps, s) && s.daemons == h && Sound(s) && LeavesBehind(s, detach)
            && Feasible(Empty(h), steps + [detach] + [drop])
            && var t, u := Run(Empty(h), steps + [detach]), Run(Empty(h), steps + [detach] + [drop]);
               && t.members == {} && IsActive(t, id) && id in t.bridges && 70 in t.bridges[id]
               && !MembersOnly(t) && !NetworksInStep(t)
               && 0 !in u.networks && id !in u.peerings
               && 0 in u.dockerNets && 70 in u.dockerNets[0] && id in u.bridges && 70 in u.bridges[id]
  {
    steps, s := ReachStranded(h, id, server);
    var t := Abandoned(h, id, server);
    MissedStep(h, id, server);
    DroppedStep(h, id, server);
    NobodyBelongs(t, id);
    assert IsActive(t, id) && 70 in t.bridges[id];
    assert s.daemons == h && t.members == {};
    assert LeftOnNetwork(s, 0, 0, 7);
    hide *;
    Certainly(steps, s);
    DetachKeepsSoundIff(s, 0, 0, 7);
    DetachNext(s, 0, 0, 7);
    DropNext(t, 0, 0);
    ReachesMeans(steps, s);
    TwoMore(steps, s, Detach(0, 0, 7), DropNetwork(0, 0));
  }

  lemma ReachStranded(h: map<nat, nat>, id: string, server: nat) returns (steps: seq<Step>, s: State)
    requires GoodId(id) && server in h && h[server] != PLATFORM
    ensures s == Stranded(h, id, server) && Reaches(steps, s)
  {
    var before := ReachMixed(h, id, server);
    RefusedStep(h, id, server);
    s := Stranded(h, id, server);
    hide Reaches, AttachDatabase, Strands;
    steps := AttachStep(before, Mixed(h, id, server), 0, 8, GRANTED, s);
  }

  lemma NobodyBelongs(s: State, id: string)
    requires s.members == {} && IsActive(s, id) && id in s.bridges && s.bridges[id] != {}
    ensures !MembersOnly(s)
  {
    assert AtHome(s, id) == {};
    hide AtHome;
  }

  lemma DropNext(s: State, user: nat, net: nat)
    ensures Possible(s, DropNetwork(user, net)) && Next(s, DropNetwork(user, net)) == DeleteNetwork(s, user, net).0
  {
    hide DeleteNetwork;
  }

  // ---- Servers ----

  // From a state without databases: a first database, attached to network 0.
  lemma FirstAttached(before: seq<Step>, s: State, row: Database) returns (steps: seq<Step>, t: State)
    requires Reaches(before, s)
    requires row.container.Some? && row.running && row.owner == 0 && !row.leaving
    requires s.databases == map[] && 0 in s.networks && s.networks[0] == BARE && s.members == {}
    requires s.dockerNets == map[] && s.bridges == map[]
    ensures t == s.(networks := s.networks[0 := Made(row.server, DaemonOf(s.daemons, row.server))],
                    databases := map[7 := row], members := {(0, 7)}, dockerNets := map[0 := {row.container.value}])
    ensures Reaches(steps, t)
  {
    assert Possible(s, NewDatabase(7, row));
    var r := WithDatabase(s, 7, row);
    assert MembersOf(r.members, 0) == {};
    assert CheckAttach(r, 0, 0, 7).Ok?;
    assert AttachToBridges(r.daemons, r.peerings, r.bridges, 0, DaemonOf(r.daemons, row.server), row.container.value)
           == map[];
    hide Reaches, AttachDatabase, CheckAttach, Possible, AttachToBridges;
    steps := DatabaseStep(before, s, 7, row);
    GrantedStep(r, 0, 7);
    t := AttachDatabase(r, 0, 0, 7, GRANTED).0;
    steps := AttachStep(steps, r, 0, 7, GRANTED, t);
  }

  // One network on server 1, the other still local, and a database of server 2.
  function Parting(h: map<nat, nat>, id: string): State {
    Asked(h, id).(
      networks := map[0 := Made(Some(1), DaemonOf(h, Some(1))), 1 := BARE],
      databases := map[7 := Up(70, Some(1)), 8 := Up(80, Some(2))], members := {(0, 7)}, dockerNets := map[0 := {70}])
  }

  lemma PartingFacts(h: map<nat, nat>, id: string)
    ensures var s := Parting(h, id);
            && CheckAttach(s, 0, 1, 8).Ok? && Moves(s, 1, 8) && PeersAgree(s.peerings, s.networks)
            && PartsPeers(s, Attach(0, 1, 8, GRANTED))
  {
    var s := Parting(h, id);
    assert MembersOf(s.members, 1) == {};
    assert id in s.peerings && Involves(s.peerings[id], 1);
    assert !Agree(s.databases[8].server, ServerOf(s.networks, OtherNet(s.peerings[id], 1)));
  }

  lemma ReachParting(h: map<nat, nat>, id: string) returns (steps: seq<Step>)
    requires GoodId(id)
    ensures Reaches(steps, Parting(h, id))
  {
    var t, s;
    steps := ReachAsked(h, id);
    hide Reaches;
    steps, t := FirstAttached(steps, Asked(h, id), Up(70, Some(1)));
    steps, s := RemoteDatabase(steps, t, 2);
    assert t.networks == Parting(h, id).networks;
  }

  /** Reached: two peered networks, one on a server, one still local. Attaching a database of another server
      to the local one parts them. */
  lemma PeersPartRun(h: map<nat, nat>, id: string) returns (steps: seq<Step>, s: State)
    requires GoodId(id)
    ensures var attach := Attach(0, 1, 8, GRANTED);
            && Reaches(steps, s) && s.daemons == h && Sound(s) && PeersAgree(s.peerings, s.networks)
            && CheckAttach(s, 0, 1, 8).Ok? && Feasible(Empty(h), steps + [attach])
            && !PeersAgree(Run(Empty(h), steps + [attach]).peerings, Run(Empty(h), steps + [attach]).networks)
  {
    steps := ReachParting(h, id);
    s := Parting(h, id);
    PartingFacts(h, id);
    assert s.daemons == h;
    hide *;
    Certainly(steps, s);
    AttachNext(s, 0, 1, 8, GRANTED);
    StepKeepsPeersAgreeIff(s, Attach(0, 1, 8, GRANTED));
    ReachesMeans(steps, s);
    OneMore(steps, s, Attach(0, 1, 8, GRANTED));
  }

  // ---- A peering deleted before its task has run ----

  lemma ReachOneMember(h: map<nat, nat>) returns (steps: seq<Step>, s: State)
    ensures Reaches(steps, s)
    ensures s == TwoBare(h).(networks := map[0 := Made(None, PLATFORM), 1 := BARE], databases := map[7 := Up(70, None)],
                             members := {(0, 7)}, dockerNets := map[0 := {70}])
  {
    steps := ReachTwoBare(h);
    hide Reaches;
    steps, s := FirstAttached(steps, TwoBare(h), Up(70, None));
    assert s.networks == map[0 := Made(None, PLATFORM), 1 := BARE];
  }

  lemma StrayFacts(s: State, id: string)
    requires GoodId(id)
    requires s == TwoBare(s.daemons).(networks := map[0 := Made(None, PLATFORM), 1 := BARE],
                                      databases := map[7 := Up(70, None)], members := {(0, 7)}, dockerNets := map[0 := {70}])
    ensures CheckPeering(s, 0, 0, 1).Ok? && PeeringServer(s.networks, 0, 1) == None && id !in s.peerings
    ensures (0, 7) in s.members && (1, 7) !in s.members
    ensures s.databases[7].container == Some(70) && s.databases[7].server == None
    ensures Possible(s, Peer(0, 0, 1, id))
    ensures forall t: State :: Possible(t, Unpeer(0, id)) && Possible(t, RunTask(id, true)) && Possible(t, Detach(0, 0, 7))
  {
    assert PeeringsOwned(s.peerings, 0) == {};
    hide TableName, GoodId;
  }

  /** Reached: a run in which a container stays on a bridge between two networks, neither of which its
      database is a member of, with the peering long gone. */
  lemma StrayBridgeRun(h: map<nat, nat>, id: string) returns (steps: seq<Step>)
    requires GoodId(id)
    ensures Feasible(Empty(h), steps)
    ensures var t := Run(Empty(h), steps);
            && (0, 7) !in t.members && (1, 7) !in t.members && id !in t.peerings
            && id in t.bridges && 70 in t.bridges[id]
  {
    var ask, drop, task, detach := Peer(0, 0, 1, id), Unpeer(0, id), RunTask(id, true), Detach(0, 0, 7);
    var s;
    steps, s := ReachOneMember(h);
    StrayFacts(s, id);
    assert s.daemons == h;
    hide *;
    Certainly(steps, s);
    StrayBridgeOutlivesMembership(s, 0, 0, 1, id, 7);
    RunFour(s, ask, drop, task, detach);
    ReachesMeans(steps, s);
    TwoMore(steps, s, ask, drop);
    TwoMore(steps + [ask] + [drop], Next(Next(s, ask), drop), task, detach);
    steps := steps + [ask] + [drop] + [task] + [detach];
  }
}
