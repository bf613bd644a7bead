/** The handlers as the routes run them: step by step, looping over peerings and members. */
module PeeringService {
  import opened Wrappers
  import opened Nftables
  import opened FirewallCompiler
  import opened RuleTable
  import opened PeeringModel

  class NetworkService {
    var networks: map<nat, Network>
    var databases: Databases
    var members: Members
    var peerings: Peerings
    var activating: map<string, Task>
    var dockerNets: map<nat, set<nat>>
    var bridges: Bridges
    var rules: seq<RuleRow>
    const daemons: map<nat, nat>
    const host: Host

    ghost function Tables(): State
      reads this, host
    {
      State(daemons, networks, databases, members, peerings, activating, dockerNets, bridges, rules, host.ruleset)
    }

    constructor (daemons: map<nat, nat>, host: Host)
      ensures this.host == host
      ensures Tables() == State(daemons, map[], map[], {}, map[], map[], map[], map[], [], host.ruleset)
    {
      networks, databases, members := map[], map[], {};
      peerings, activating, dockerNets, bridges := map[], map[], map[], map[];
      rules := [];
      this.daemons, this.host := daemons, host;
    }

    method Create(user: nat, id: nat) returns (result: Result<Unit>)
      modifies `networks
      ensures (Tables(), result) == CreateNetwork(old(Tables()), user, id)
    {
      if MAX_NETWORKS_PER_USER <= |NetworksOwned(networks, user)| { return Err(BadRequest); }
      networks := networks[id := Network(user, None, None, None)];
      return Ok(Unit);
    }

    method RequestPeering(user: nat, a: nat, b: nat, id: string) returns (result: Result<Unit>)
      modifies `peerings, `activating
      ensures (Tables(), result) == CreatePeering(old(Tables()), user, a, b, id)
    {
      if a == b { return Err(BadRequest); }
      if a !in networks { return Err(NotFound); }
      if networks[a].owner != user { return Err(Forbidden); }
      if b !in networks { return Err(NotFound); }
      if networks[b].owner != user { return Err(Forbidden); }
      var serverA, serverB := networks[a].server, networks[b].server;
      if serverA.Some? && serverB.Some? && serverA != serverB { return Err(BadRequest); }
      if PeeringExists(peerings, a, b) { return Err(Conflict); }
      if MAX_PEERINGS_PER_USER <= |PeeringsOwned(peerings, user)| { return Err(BadRequest); }
      var server := if serverA.Some? then serverA else serverB;
      peerings := peerings[id := Peering(user, a, b, server, Pending, false)];
      activating := activating[id := Task(a, b, server)];
      return Ok(Unit);
    }

    method CheckRequest(user: nat, net: nat, db: nat) returns (result: Result<Unit>)
      ensures result == CheckAttach(Tables(), user, net, db)
    {
      if net !in networks { return Err(NotFound); }
      if networks[net].owner != user { return Err(Forbidden); }
      if db !in databases { return Err(NotFound); }
      var row := databases[db];
      if row.owner != user { return Err(Forbidden); }
      if !row.running { return Err(BadRequest); }
      if row.container.None? { return Err(BadRequest); }
      if networks[net].server.Some? && row.server != networks[net].server { return Err(BadRequest); }
      if (net, db) in members { return Err(Conflict); }
      if MAX_MEMBERS_PER_NETWORK <= |MembersOf(members, net)| { return Err(BadRequest); }
      return Ok(Unit);
    }

    // The network's server and Docker network, made when its first member joins.
    method Prepare(net: nat, db: nat, reply: Reply) returns (result: Result<Unit>)
      requires net in networks && db in databases
      modifies `networks, `dockerNets
      ensures (Tables(), result) == PrepareNetwork(old(Tables()), net, db, reply)
    {
      var network := networks[net];
      if network.server.None? {
        if databases[db].server.Some? {
          network := network.(server := databases[db].server);
        }
      }
      networks := networks[net := network];
      if network.docker.None? {
        if !reply.made { return Err(Docker); }
        network := network.(docker := Some(DaemonOf(daemons, network.server)), subnet := reply.subnet);
        networks := networks[net := network];
        assert networks == old(networks)[net := network];
        dockerNets := dockerNets[net := {}];
      }
      return Ok(Unit);
    }

    // Docker connects the container if the daemon has the network.
    method Connect(net: nat, container: nat, willing: bool) returns (result: Result<Unit>)
      requires net in networks
      modifies `dockerNets
      ensures result == if Settled(daemons, networks, net) && willing then Ok(Unit) else Err(Docker)
      ensures result.Err? ==> dockerNets == old(dockerNets)
      ensures result.Ok? ==>
        dockerNets == old(dockerNets)[net := (if net in old(dockerNets) then old(dockerNets)[net] else {}) + {container}]
    {
      if networks[net].docker != Some(DaemonOf(daemons, networks[net].server)) || !willing { return Err(Docker); }
      dockerNets := dockerNets[net := (if net in dockerNets then dockerNets[net] else {}) + {container}];
      return Ok(Unit);
    }

    method Attach(user: nat, net: nat, db: nat, reply: Reply) returns (result: Result<Unit>)
      modifies this
      ensures (Tables(), result) == AttachDatabase(old(Tables()), user, net, db, reply)
    {
      hide AttachToBridges, MembersOf, PrepareNetwork;
      result := CheckRequest(user, net, db);
      if result.Err? { return; }
      var container := databases[db].container.value;
      ghost var s := Tables();
      PrepareRows(s, net, db, reply);
      result := Prepare(net, db, reply);
      if result.Err? { return; }
      ghost var t := Tables();
      result := Connect(net, container, reply.connected);
      if result.Err? { return; }
      members := members + {(net, db)};
      SyncAttach(net, container);
      assert Tables() == Join(t, net, db);
    }

    // The container joins the bridges of the network's active peerings that are on the same daemon.
    method SyncAttach(net: nat, container: nat)
      requires net in networks
      modifies `bridges
      ensures bridges == AttachToBridges(daemons, peerings, old(bridges), net,
                        DaemonOf(daemons, networks[net].server), container)
    {
      ghost var before := bridges;
      var daemon := DaemonOf(daemons, networks[net].server);
      var todo := PeeringsOf(peerings, net);
      while todo != {}
        invariant todo <= PeeringsOf(peerings, net)
        invariant bridges.Keys == before.Keys
        invariant forall q :: q in bridges ==>
          bridges[q] == if q !in todo && Reached(daemons, peerings, q, net, daemon) then before[q] + {container} else before[q]
        decreases todo
      {
        var q :| q in todo;
        if peerings[q].status == Active && peerings[q].bridge {
          if q in bridges && DaemonOf(daemons, peerings[q].server) == daemon {
            bridges := bridges[q := bridges[q] + {container}];
          }
        }
        todo := todo - {q};
      }
    }

    method Detach(user: nat, net: nat, db: nat) returns (result: Result<Unit>)
      modifies this
      ensures (Tables(), result) == DetachDatabase(old(Tables()), user, net, db)
    {
      hide DetachFromBridges;
      if net !in networks { return Err(NotFound); }
      if networks[net].owner != user { return Err(Forbidden); }
      if db in databases && databases[db].container.Some? && networks[net].docker.Some? {
        var container := databases[db].container.value;
        if net in dockerNets && networks[net].docker == Some(DaemonOf(daemons, networks[net].server)) {
          dockerNets := dockerNets[net := dockerNets[net] - {container}];
        }
        SyncDetach(net, container);
      }
      members := members - {(net, db)};
      return Ok(Unit);
    }

    // The container leaves the bridges of the network's active peerings that are on the same daemon.
    method SyncDetach(net: nat, container: nat)
      requires net in networks
      modifies `bridges
      ensures bridges == DetachFromBridges(daemons, peerings, old(bridges), net,
                        DaemonOf(daemons, networks[net].server), container)
    {
      ghost var before := bridges;
      var daemon := DaemonOf(daemons, networks[net].server);
      var todo := PeeringsOf(peerings, net);
      while todo != {}
        invariant todo <= PeeringsOf(peerings, net)
        invariant bridges.Keys == before.Keys
        invariant forall q :: q in bridges ==>
          bridges[q] == if q !in todo && Reached(daemons, peerings, q, net, daemon) then before[q] - {container} else before[q]
        decreases todo
      {
        var q :| q in todo;
        if peerings[q].status == Active && peerings[q].bridge {
          if q in bridges && DaemonOf(daemons, peerings[q].server) == daemon {
            bridges := bridges[q := bridges[q] - {container}];
          }
        }
        todo := todo - {q};
      }
    }

    // attach_container_to_network for every member of a network, on one daemon.
    method AttachMembers(net: nat, daemon: nat, bridge: string)
      requires bridge in bridges
      modifies `bridges
      ensures bridges
              == old(bridges)[bridge :=
                   old(bridges)[bridge] + Containers(members, Hosted(databases, daemons, daemon), {net})]
    {
      ghost var before, hosted := bridges, Hosted(databases, daemons, daemon);
      var todo := MembersOf(members, net);
      ghost var done: Members := {};
      while todo != {}
        invariant done + todo == MembersOf(members, net)
        invariant bridge in bridges && bridges == before[bridge := bridges[bridge]]
        invariant bridges[bridge] == before[bridge] + ContainersOf(done, hosted)
        decreases todo
      {
        var m :| m in todo;
        if m.1 in databases && databases[m.1].container.Some? && DaemonOf(daemons, databases[m.1].server) == daemon {
          bridges := bridges[bridge := bridges[bridge] + {databases[m.1].container.value}];
        }
        ContainersOfAdd(done, hosted, m);
        todo, done := todo - {m}, done + {m};
      }
      ContainersOfNet(members, hosted, net);
    }

    method DetachMembers(net: nat, bridge: string)
      requires bridge in bridges
      modifies `bridges
      ensures bridges == old(bridges)[bridge := old(bridges)[bridge] - Containers(members, databases, {net})]
    {
      ghost var before := bridges;
      var todo := MembersOf(members, net);
      ghost var done: Members := {};
      while todo != {}
        invariant done + todo == MembersOf(members, net)
        invariant bridge in bridges && bridges == before[bridge := bridges[bridge]]
        invariant bridges[bridge] == before[bridge] - ContainersOf(done, databases)
        decreases todo
      {
        var m :| m in todo;
        if m.1 in databases && databases[m.1].container.Some? {
          bridges := bridges[bridge := bridges[bridge] - {databases[m.1].container.value}];
        }
        ContainersOfAdd(done, databases, m);
        todo, done := todo - {m}, done + {m};
      }
      ContainersOfNet(members, databases, net);
    }

    method RunActivation(id: string, created: bool)
      modifies this
      ensures Tables() == Activate(old(Tables()), id, created)
    {
      if id !in activating { return; }
      var task := activating[id];
      activating := activating - {id};
      if !created {
        if id in peerings {
          peerings := peerings[id := peerings[id].(status := Failed)];
        }
        return;
      }
      FillBridge(id, task);
      if id in peerings {
        ghost var row := peerings[id].(status := Active, bridge := true);
        peerings := peerings[id := peerings[id].(bridge := true)];
        peerings := peerings[id := peerings[id].(status := Active)];
        assert peerings == old(peerings)[id := row];
      }
    }

    // A new bridge with the members of both networks on it, as far as they are on its daemon.
    method FillBridge(id: string, task: Task)
      modifies `bridges
      ensures var hosted := Hosted(databases, daemons, DaemonOf(daemons, task.server));
              bridges == old(bridges)[id := Containers(members, hosted, {task.netA, task.netB})]
    {
      hide Containers, Hosted;
      var daemon := DaemonOf(daemons, task.server);
      ghost var before, hosted := bridges, Hosted(databases, daemons, daemon);
      bridges := bridges[id := {}];
      AttachMembers(task.netA, daemon, id);
      AttachMembers(task.netB, daemon, id);
      ContainersOfBoth(members, hosted, task.netA, task.netB);
      assert bridges[id] == Containers(members, hosted, {task.netA, task.netB});
      assert bridges == before[id := bridges[id]];
    }

    // The members of both networks leave the bridge; Docker removes it if it is empty then.
    method ClearBridge(id: string)
      requires id in peerings && peerings[id].bridge
      modifies `bridges
      ensures bridges == BridgesWithout(old(Tables()), {id})
    {
      hide Containers, BridgesWithout;
      ghost var s := Tables();
      OneBridgeLess(s, id);
      if id in bridges {
        var a, b := peerings[id].netA, peerings[id].netB;
        DetachMembers(a, id);
        DetachMembers(b, id);
        ContainersOfBoth(members, databases, a, b);
        assert bridges[id] == LeftOn(s, id);
        assert bridges == s.bridges[id := bridges[id]];
        if bridges[id] == {} {
          bridges := bridges - {id};
          assert bridges == s.bridges - {id};
        }
      }
    }

    // The firewall table and the bridge of a peering that has one.
    method TearDown(id: string)
      requires id in peerings && peerings[id].bridge && 8 <= |id|
      modifies `bridges, host
      ensures host.ruleset == old(host.ruleset) - {TableName(id)}
      ensures bridges == BridgesWithout(old(Tables()), {id})
    {
      hide TableName, BridgesWithout;
      ghost var s := Tables();
      RemoveFirewallRules(host, id);
      BridgesIgnoreHost(s, Tables(), {id});
      ClearBridge(id);
    }

    // One peering removed with its table, its bridge and, by cascade, its rules.
    method RemovePeering(id: string)
      requires id in peerings && 8 <= |id|
      modifies this, host
      ensures Tables() == RemovePeerings(old(Tables()), {id})
    {
      hide TableName, BridgesWithout, TablesOf, DropRules;
      ghost var s := Tables();
      OneTable(peerings, id);
      OneBridgeLess(s, id);
      if peerings[id].bridge {
        TearDown(id);
      }
      peerings := peerings - {id};
      rules := DropRules(rules, {id});
    }

    method Delete(user: nat, id: string) returns (result: Result<Unit>)
      requires forall q :: q in peerings ==> 8 <= |q|
      modifies this, host
      ensures (Tables(), result) == DeletePeering(old(Tables()), user, id)
    {
      if id !in peerings { return Err(NotFound); }
      if peerings[id].owner != user { return Err(Forbidden); }
      RemovePeering(id);
      return Ok(Unit);
    }

    // The peerings of a network that is about to go.
    method RemovePeeringsOf(net: nat)
      requires forall q :: q in peerings ==> 8 <= |q|
      modifies this, host
      ensures Tables() == RemovePeerings(old(Tables()), PeeringsOf(old(peerings), net))
    {
      hide RemovePeerings;
      ghost var s := Tables();
      var todo := PeeringsOf(peerings, net);
      ghost var done: set<string> := {};
      RemoveNoPeerings(s);
      while todo != {}
        invariant done + todo == PeeringsOf(s.peerings, net) && done !! todo
        invariant peerings == s.peerings - done
        invariant Tables() == RemovePeerings(s, done)
        decreases todo
      {
        var q :| q in todo;
        assert q in s.peerings;
        RemovePeering(q);
        RemoveInSteps(s, done, q);
        RemovedRows(s, done + {q});
        todo, done := todo - {q}, done + {q};
      }
    }

    // Every member leaves the Docker network, which the daemon addressed has; Docker removes it if it is
    // empty then.
    method EmptyDockerNetwork(net: nat)
      modifies `dockerNets
      ensures var left := if net in old(dockerNets)
                          then old(dockerNets)[net] - Containers(members, databases, {net}) else {};
              dockerNets == if left == {} then old(dockerNets) - {net} else old(dockerNets)[net := left]
    {
      ghost var before := dockerNets;
      if net in dockerNets {
        var todo := MembersOf(members, net);
        ghost var done: Members := {};
        while todo != {}
          invariant done + todo == MembersOf(members, net)
          invariant net in dockerNets && dockerNets == before[net := dockerNets[net]]
          invariant dockerNets[net] == before[net] - ContainersOf(done, databases)
          decreases todo
        {
          var m :| m in todo;
          if m.1 in databases && databases[m.1].container.Some? {
            dockerNets := dockerNets[net := dockerNets[net] - {databases[m.1].container.value}];
          }
          ContainersOfAdd(done, databases, m);
          todo, done := todo - {m}, done + {m};
        }
        ContainersOfNet(members, databases, net);
        if dockerNets[net] == {} {
          dockerNets := dockerNets - {net};
        }
      }
    }

    /** The request to delete a database: its container leaves the Docker networks it is on. */
    method RequestDelete(user: nat, db: nat) returns (result: Result<Unit>)
      modifies `databases, `dockerNets
      ensures (Tables(), result) == DeleteDatabase(old(Tables()), user, db)
    {
      if db !in databases { return Err(NotFound); }
      var row := databases[db];
      if row.owner != user { return Err(Forbidden); }
      if row.container.Some? {
        LeaveDockerNetworks(db, DaemonOf(daemons, row.server), row.container.value);
      }
      databases := databases[db := row.(running := false, leaving := true)];
      ghost var gone := if row.container.Some? then {row.container.value} else {};
      forall n | n in dockerNets
        ensures dockerNets[n]
                == if OnDocker(old(Tables()), n, db) then old(dockerNets)[n] - gone else old(dockerNets)[n]
      {
      }
      assert dockerNets == DeleteDatabase(old(Tables()), user, db).0.dockerNets;
      return Ok(Unit);
    }

    method LeaveDockerNetworks(db: nat, daemon: nat, container: nat)
      modifies `dockerNets
      ensures dockerNets.Keys == old(dockerNets).Keys
      ensures forall n :: n in dockerNets ==>
        dockerNets[n] == if (n, db) in members && n in networks && networks[n].docker == Some(daemon)
                         then old(dockerNets)[n] - {container} else old(dockerNets)[n]
    {
      ghost var before := dockerNets;
      var todo := set m | m in members && m.1 == db :: m.0;
      while todo != {}
        invariant forall n :: n in todo ==> (n, db) in members
        invariant dockerNets.Keys == before.Keys
        invariant forall n :: n in dockerNets ==>
          dockerNets[n] == if (n, db) in members && n !in todo && n in networks && networks[n].docker == Some(daemon)
                           then before[n] - {container} else before[n]
        decreases todo
      {
        var n :| n in todo;
        if n in networks && networks[n].docker == Some(daemon) && n in dockerNets {
          dockerNets := dockerNets[n := dockerNets[n] - {container}];
        }
        todo := todo - {n};
      }
    }

    method DeleteWholeNetwork(user: nat, net: nat) returns (result: Result<Unit>)
      requires forall q :: q in peerings ==> 8 <= |q|
      modifies this, host
      ensures (Tables(), result) == DeleteNetwork(old(Tables()), user, net)
    {
      hide BridgesWithout, TablesOf;
      if net !in networks { return Err(NotFound); }
      if networks[net].owner != user { return Err(Forbidden); }
      RemovePeeringsOf(net);
      if networks[net].docker == Some(DaemonOf(daemons, networks[net].server)) {
        EmptyDockerNetwork(net);
      }
      networks := networks - {net};
      members := members - MembersOf(members, net);
      return Ok(Unit);
    }

    method ReapplyRules(id: string) returns (result: Result<Unit>)
      requires id in peerings
      modifies host
      ensures (Tables(), result) == Reapply(old(Tables()), id)
    {
      var rows := RulesOf(rules, id);
      var netA, netB := peerings[id].netA, peerings[id].netB;
      var sides := Sides(netA, SubnetOf(networks, netA), SubnetOf(networks, netB));
      result := ApplyFirewallRules(host, id, BridgeName(id), ToRules(sides, rows));
    }

    method AddRule(user: nat, id: string, request: RuleRequest, rule: nat, now: int) returns (result: Result<Unit>)
      modifies this, host
      ensures (Tables(), result) == CreateRule(old(Tables()), user, id, request, rule, now)
    {
      if id !in peerings { return Err(NotFound); }
      var p := peerings[id];
      if p.owner != user { return Err(Forbidden); }
      if request.action != "allow" && request.action != "deny" { return Err(BadRequest); }
      if request.sourceNet != p.netA && request.sourceNet != p.netB { return Err(BadRequest); }
      if request.destNet != p.netA && request.destNet != p.netB { return Err(BadRequest); }
      if request.port.Some? && (request.port.value <= 0 || 65536 <= request.port.value) { return Err(BadRequest); }
      if request.protocol.Some? && request.protocol.value != "tcp" && request.protocol.value != "udp" {
        return Err(BadRequest);
      }
      if MAX_RULES_PER_PEERING <= CountRules(rules, id) { return Err(BadRequest); }
      rules := rules + [RowFor(id, request, rule, now)];
      result := Ok(Unit);
      if p.status == Active {
        result := ReapplyRules(id);
      }
    }

    method RemoveRule(user: nat, id: string, rule: nat) returns (result: Result<Unit>)
      modifies this, host
      ensures (Tables(), result) == DeleteStoredRule(old(Tables()), user, id, rule)
    {
      if id !in peerings { return Err(NotFound); }
      if peerings[id].owner != user { return Err(Forbidden); }
      if !exists i :: 0 <= i < |rules| && rules[i].id == rule && rules[i].peering == id { return Err(NotFound); }
      rules := DeleteRule(rules, rule);
      result := Ok(Unit);
      if peerings[id].status == Active {
        result := ReapplyRules(id);
      }
    }
  }

  // What preparing leaves of the rows the attachment goes on with.
  lemma PrepareRows(s: State, net: nat, db: nat, reply: Reply)
    requires net in s.networks && db in s.databases
    ensures var t := PrepareNetwork(s, net, db, reply).0;
            t == s.(networks := t.networks, dockerNets := t.dockerNets) && net in t.networks
  {
  }

  // ---- Sets of containers, member by member ----

  ghost function ContainersOf(pairs: Members, databases: Databases): set<nat> {
    set m | m in pairs && HasContainer(databases, m.1) :: databases[m.1].container.value
  }

  lemma ContainersOfAdd(pairs: Members, databases: Databases, m: (nat, nat))
    ensures ContainersOf(pairs + {m}, databases)
            == ContainersOf(pairs, databases)
               + if HasContainer(databases, m.1) then {databases[m.1].container.value} else {}
  {
    var added := if HasContainer(databases, m.1) then {databases[m.1].container.value} else {};
    forall c ensures c in ContainersOf(pairs + {m}, databases) <==> c in ContainersOf(pairs, databases) + added {
      if c in ContainersOf(pairs, databases) {
        var k :| k in pairs && HasContainer(databases, k.1) && databases[k.1].container.value == c;
        assert k in pairs + {m};
      }
      if c in added {
        assert m in pairs + {m};
      }
    }
  }

  lemma ContainersOfNet(members: Members, databases: Databases, net: nat)
    ensures ContainersOf(MembersOf(members, net), databases) == Containers(members, databases, {net})
  {
    forall c ensures c in ContainersOf(MembersOf(members, net), databases) <==> c in Containers(members, databases, {net}) {
      if c in Containers(members, databases, {net}) {
        var m :| m in members && m.0 in {net} && HasContainer(databases, m.1) && databases[m.1].container.value == c;
        assert m in MembersOf(members, net);
      }
    }
  }

  lemma ContainersOfBoth(members: Members, databases: Databases, a: nat, b: nat)
    ensures Containers(members, databases, {a, b})
            == Containers(members, databases, {a}) + Containers(members, databases, {b})
  {
    forall c | c in Containers(members, databases, {a, b})
      ensures c in Containers(members, databases, {a}) + Containers(members, databases, {b})
    {
      var m :| m in members && m.0 in {a, b} && HasContainer(databases, m.1) && databases[m.1].container.value == c;
      assert m.0 in {a} || m.0 in {b};
    }
    forall c | c in Containers(members, databases, {a}) + Containers(members, databases, {b})
      ensures c in Containers(members, databases, {a, b})
    {
      var m :| m in members && (m.0 in {a} || m.0 in {b}) && HasContainer(databases, m.1)
               && databases[m.1].container.value == c;
      assert m.0 in {a, b};
    }
  }

  lemma OneBridgeLess(s: State, id: string)
    requires id in s.peerings
    ensures BridgesWithout(s, {id})
            == if !s.peerings[id].bridge || id !in s.bridges then s.bridges
               else if LeftOn(s, id) == {} then s.bridges - {id}
               else s.bridges[id := LeftOn(s, id)]
  {
    hide Containers;
  }

  lemma OneTable(peerings: Peerings, id: string)
    requires id in peerings
    ensures TablesOf(peerings, {id}) == if peerings[id].bridge then {TableName(id)} else {}
  {
  }

  lemma BridgesIgnoreHost(s: State, t: State, gone: set<string>)
    requires t == s.(ruleset := t.ruleset)
    ensures BridgesWithout(t, gone) == BridgesWithout(s, gone)
  {
  }

  // ---- Removing peerings one by one ----

  lemma RemoveNoPeerings(s: State)
    ensures RemovePeerings(s, {}) == s
  {
    DropNothing(s.rules);
    assert TablesOf(s.peerings, {}) == {};
    assert BridgesWithout(s, {}) == s.bridges;
  }

  lemma RemovedRows(s: State, gone: set<string>)
    ensures RemovePeerings(s, gone).peerings == s.peerings - gone
  {
  }

  lemma RemoveInSteps(s: State, done: set<string>, q: string)
    requires q in s.peerings && q !in done
    ensures RemovePeerings(RemovePeerings(s, done), {q}) == RemovePeerings(s, done + {q})
  {
    var t := RemovePeerings(s, done);
    DropInSteps(s.rules, done, {q});
    TablesInSteps(s.peerings, done, q);
    BridgesInSteps(s, done, q);
    hide BridgesWithout, TablesOf;
    assert s.peerings - done - {q} == s.peerings - (done + {q});
    assert s.ruleset - TablesOf(s.peerings, done) - TablesOf(t.peerings, {q})
           == s.ruleset - (TablesOf(s.peerings, done) + TablesOf(t.peerings, {q}));
  }

  lemma TablesInSteps(peerings: Peerings, done: set<string>, q: string)
    requires q in peerings && q !in done
    ensures TablesOf(peerings, done + {q}) == TablesOf(peerings, done) + TablesOf(peerings - done, {q})
  {
    hide TableName;
    forall name | name in TablesOf(peerings, done + {q})
      ensures name in TablesOf(peerings, done) + TablesOf(peerings - done, {q})
    {
      var x :| x in done + {q} && Bridged(peerings, x) && TableName(x) == name;
      assert x in done || x in {q};
    }
    forall name | name in TablesOf(peerings, done) + TablesOf(peerings - done, {q})
      ensures name in TablesOf(peerings, done + {q})
    {
      var x :| (x in done || x in {q}) && Bridged(peerings, x) && TableName(x) == name;
      assert x in done + {q};
    }
  }

  lemma BridgesInSteps(s: State, done: set<string>, q: string)
    requires q in s.peerings && q !in done
    ensures BridgesWithout(RemovePeerings(s, done), {q}) == BridgesWithout(s, done + {q})
  {
    hide Containers, TablesOf, DropRules;
    var t := RemovePeerings(s, done);
    assert q in t.bridges <==> q in s.bridges;
    assert q in s.bridges ==> LeftOn(t, q) == LeftOn(s, q);
  }
}
