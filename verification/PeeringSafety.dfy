/**
 What every reachable state of the network and peering routes satisfies: containers sit on a
 peering's bridge only while they belong there, and deleting empties what it removes.
 */
module PeeringSafety {
  import opened Wrappers
  import opened Nftables
  import opened FirewallCompiler
  import opened RuleTable
  import opened PeeringModel

  // ---- Steps and runs ----

  datatype Step =
    | NewNetwork(user: nat, id: nat)
    | Attach(user: nat, net: nat, db: nat, reply: Reply)
    | Detach(user: nat, net: nat, db: nat)
    | Peer(user: nat, a: nat, b: nat, peering: string)
    | RunTask(peering: string, created: bool)
    | Unpeer(user: nat, peering: string)
    | DropNetwork(user: nat, net: nat)
    | NewRule(user: nat, peering: string, request: RuleRequest, rule: nat, now: int)
    | DropRule(user: nat, peering: string, rule: nat)
    | NewDatabase(db: nat, row: Database)
    | Toggle(db: nat, running: bool)
    | Leave(user: nat, db: nat)
    | DropDatabase(db: nat)

  ghost function Next(s: State, step: Step): State {
    match step
    case NewNetwork(user, id) => CreateNetwork(s, user, id).0
    case Attach(user, net, db, reply) => AttachDatabase(s, user, net, db, reply).0
    case Detach(user, net, db) => DetachDatabase(s, user, net, db).0
    case Peer(user, a, b, id) => CreatePeering(s, user, a, b, id).0
    case RunTask(id, created) => Activate(s, id, created)
    case Unpeer(user, id) => DeletePeering(s, user, id).0
    case DropNetwork(user, net) => DeleteNetwork(s, user, net).0
    case NewRule(user, id, request, rule, now) => CreateRule(s, user, id, request, rule, now).0
    case DropRule(user, id, rule) => DeleteStoredRule(s, user, id, rule).0
    case NewDatabase(db, row) => AddDatabase(s, db, row)
    case Toggle(db, running) => SetRunning(s, db, running)
    case Leave(user, db) => DeleteDatabase(s, user, db).0
    case DropDatabase(db) => RemoveDatabase(s, db)
  }

  /** A peering id as its UUID prints. */
  predicate GoodId(id: string) {
    |id| == 36 && forall i :: 0 <= i < |id| ==> AllowedChar(id[i])
  }

  /** Fresh keys: new rows get ids nothing else carries, peerings also in their first eight
      characters; Docker names subnets the firewall accepts. */
  ghost predicate Possible(s: State, step: Step) {
    match step
    case NewNetwork(_, id) => id !in s.networks && id !in s.dockerNets
    case Attach(_, _, _, reply) => reply.subnet.Some? ==> ValidNftValue(reply.subnet.value)
    case Peer(_, _, _, id) =>
      && GoodId(id) && id !in s.activating && id !in s.bridges
      && TableName(id) !in s.ruleset && (forall q :: q in s.peerings ==> TableName(q) != TableName(id))
      && (forall i :: 0 <= i < |s.rules| ==> s.rules[i].peering != id)
    case NewRule(_, _, _, rule, _) => forall i :: 0 <= i < |s.rules| ==> s.rules[i].id != rule
    case NewDatabase(db, row) =>
      db !in s.databases && !row.leaving
      && forall d :: HasContainer(s.databases, d) ==> s.databases[d].container != row.container
    case _ => true
  }

  predicate IsActive(s: State, q: string) {
    q in s.peerings && s.peerings[q].status == Active
  }

  function NetsOf(s: State, q: string): set<nat>
    requires q in s.peerings
  {
    {s.peerings[q].netA, s.peerings[q].netB}
  }

  /** The containers that belong on a peering's bridge. */
  function Belongs(s: State, q: string): set<nat>
    requires q in s.peerings
  {
    Containers(s.members, s.databases, NetsOf(s, q))
  }

  /** The containers that belong there and are on the bridge's daemon. */
  function AtHome(s: State, q: string): set<nat>
    requires q in s.peerings
  {
    Containers(s.members, Hosted(s.databases, s.daemons, DaemonOf(s.daemons, s.peerings[q].server)), NetsOf(s, q))
  }

  // A membership row refers to a network that reached Docker and a database with a container on the same
  // daemon.
  ghost predicate MembersFit(
    members: Members, networks: map<nat, Network>, databases: Databases, daemons: map<nat, nat>)
  {
    forall m :: m in members ==>
      && HasDocker(networks, m.0) && HasContainer(databases, m.1)
      && networks[m.0].docker == Some(DaemonOf(daemons, databases[m.1].server))
  }

  // A peering's networks exist and differ; its status, bridge and task agree.
  predicate PeeringFits(
    peering: Peering, nets: set<nat>, hasBridge: bool, task: Option<Task>)
  {
    && peering.netA in nets && peering.netB in nets && peering.netA != peering.netB
    && (peering.bridge <==> peering.status == Active)
    && (peering.status == Active ==> hasBridge)
    && task == if peering.status == Pending then Some(Task(peering.netA, peering.netB, peering.server)) else None
  }

  function TaskOf(activating: map<string, Task>, q: string): Option<Task> {
    if q in activating then Some(activating[q]) else None
  }

  ghost predicate PeeringsFit(
    peerings: Peerings, nets: set<nat>, bridged: set<string>, activating: map<string, Task>)
  {
    forall q :: q in peerings ==> PeeringFits(peerings[q], nets, q in bridged, TaskOf(activating, q))
  }

  /** Rows refer to rows that exist; all members of a network are on one daemon, the one that has its
      Docker network; a peering's status, bridge and task agree; containers are not shared. */
  ghost predicate Consistent(s: State) {
    && MembersFit(s.members, s.networks, s.databases, s.daemons)
    && PeeringsFit(s.peerings, s.networks.Keys, s.bridges.Keys, s.activating)
    && OneContainerEach(s.databases)
  }

  ghost predicate OneContainerEach(databases: Databases) {
    forall d, e :: HasContainer(databases, d) && HasContainer(databases, e) && d != e ==>
      databases[d].container != databases[e].container
  }

  /** A container sits on a peering's bridge only if its database is a member of one of the two
      peered networks, and on the bridge's daemon. */
  ghost predicate MembersOnly(s: State) {
    forall q :: IsActive(s, q) && q in s.bridges ==> s.bridges[q] <= AtHome(s, q)
  }

  /** The databases nobody has asked to delete. */
  function Staying(databases: Databases): Databases {
    map d | d in databases && !databases[d].leaving :: databases[d]
  }

  ghost predicate NetworkFits(members: Members, databases: Databases, dockerNets: map<nat, set<nat>>, n: nat) {
    n in dockerNets
    && Containers(members, Staying(databases), {n}) <= dockerNets[n] <= Containers(members, databases, {n})
  }

  /** A network's Docker network holds its members' containers, exactly those while none of them is
      being deleted, and otherwise at least those of the others. */
  ghost predicate NetworksInStep(s: State) {
    forall n :: HasDocker(s.networks, n) ==> NetworkFits(s.members, s.databases, s.dockerNets, n)
  }

  /** With no delete in flight the two bounds meet. */
  lemma NetworksExact(s: State, n: nat)
    requires NetworksInStep(s) && HasDocker(s.networks, n)
    requires forall d :: d in s.databases ==> !s.databases[d].leaving
    ensures n in s.dockerNets && s.dockerNets[n] == Containers(s.members, s.databases, {n})
  {
    assert Staying(s.databases) == s.databases;
    assert NetworkFits(s.members, s.databases, s.dockerNets, n);
  }

  /** An active peering's bridge holds exactly the containers of both networks' members. */
  ghost predicate BridgesInStep(s: State) {
    forall q :: IsActive(s, q) && q in s.bridges ==> s.bridges[q] == Belongs(s, q)
  }

  ghost predicate Sound(s: State) {
    Consistent(s) && MembersOnly(s) && NetworksInStep(s)
  }

  // ---- How the set of containers moves ----

  lemma ContainerWitness(members: Members, databases: Databases, nets: set<nat>, c: nat) returns (m: (nat, nat))
    requires c in Containers(members, databases, nets)
    ensures m in members && m.0 in nets && HasContainer(databases, m.1) && databases[m.1].container.value == c
  {
    m :| m in members && m.0 in nets && HasContainer(databases, m.1) && databases[m.1].container.value == c;
  }

  lemma ContainerIn(members: Members, databases: Databases, nets: set<nat>, m: (nat, nat))
    requires m in members && m.0 in nets && HasContainer(databases, m.1)
    ensures databases[m.1].container.value in Containers(members, databases, nets)
  {
  }

  lemma JoinMember(members: Members, databases: Databases, nets: set<nat>, net: nat, db: nat)
    requires HasContainer(databases, db)
    ensures Containers(members + {(net, db)}, databases, nets)
            == Containers(members, databases, nets) + if net in nets then {databases[db].container.value} else {}
  {
    var after := Containers(members + {(net, db)}, databases, nets);
    var before := Containers(members, databases, nets);
    var c := databases[db].container.value;
    forall x | x in after ensures x in before + if net in nets then {c} else {} {
      var m := ContainerWitness(members + {(net, db)}, databases, nets, x);
      if m in members {
        ContainerIn(members, databases, nets, m);
      }
    }
    forall x | x in before ensures x in after {
      var m := ContainerWitness(members, databases, nets, x);
      ContainerIn(members + {(net, db)}, databases, nets, m);
    }
    if net in nets {
      ContainerIn(members + {(net, db)}, databases, nets, (net, db));
    }
  }

  /** Taking one membership away takes the container away unless another network of the set has it. */
  lemma LeaveMember(members: Members, databases: Databases, nets: set<nat>, net: nat, db: nat)
    requires HasContainer(databases, db) && OneContainerEach(databases)
    ensures Containers(members - {(net, db)}, databases, nets)
            == if exists m :: m in nets && m != net && (m, db) in members
               then Containers(members, databases, nets)
               else if net in nets then Containers(members, databases, nets) - {databases[db].container.value}
               else Containers(members, databases, nets)
  {
    var after := Containers(members - {(net, db)}, databases, nets);
    var before := Containers(members, databases, nets);
    var c := databases[db].container.value;
    ghost var elsewhere := exists m :: m in nets && m != net && (m, db) in members;
    forall x | x in after ensures x in before && (x != c || elsewhere) {
      var m := ContainerWitness(members - {(net, db)}, databases, nets, x);
      ContainerIn(members, databases, nets, m);
      OnlyHolder(databases, m.1, db);
      assert m != (net, db) && m == (m.0, m.1);
    }
    forall x | x in before && x != c ensures x in after {
      var m := ContainerWitness(members, databases, nets, x);
      ContainerIn(members - {(net, db)}, databases, nets, m);
    }
    if k :| k in nets && k != net && (k, db) in members {
      ContainerIn(members - {(net, db)}, databases, nets, (k, db));
      assert c in before by {
        ContainerIn(members, databases, nets, (k, db));
      }
    } else if net !in nets {
      forall x | x in before ensures x != c {
        var m := ContainerWitness(members, databases, nets, x);
        OnlyHolder(databases, m.1, db);
        assert m == (m.0, m.1);
      }
    }
  }

  lemma OnlyHolder(databases: Databases, d: nat, e: nat)
    requires HasContainer(databases, d) && HasContainer(databases, e) && OneContainerEach(databases)
    ensures databases[d].container == databases[e].container <==> d == e
  {
  }

  lemma OnlyMember(members: Members, databases: Databases, n: nat, db: nat)
    requires HasContainer(databases, db) && OneContainerEach(databases)
    ensures databases[db].container.value in Containers(members, databases, {n}) <==> (n, db) in members
  {
    if databases[db].container.value in Containers(members, databases, {n}) {
      var m := ContainerWitness(members, databases, {n}, databases[db].container.value);
      OnlyHolder(databases, m.1, db);
      assert m == (n, db);
    }
    if (n, db) in members {
      ContainerIn(members, databases, {n}, (n, db));
    }
  }

  // A database without a container brings none.
  lemma JoinNobody(members: Members, databases: Databases, nets: set<nat>, net: nat, db: nat)
    requires !HasContainer(databases, db)
    ensures Containers(members + {(net, db)}, databases, nets) == Containers(members, databases, nets)
    ensures Containers(members - {(net, db)}, databases, nets) == Containers(members, databases, nets)
  {
    forall x ensures x in Containers(members + {(net, db)}, databases, nets) <==> x in Containers(members, databases, nets) {
      if x in Containers(members + {(net, db)}, databases, nets) {
        var m := ContainerWitness(members + {(net, db)}, databases, nets, x);
        ContainerIn(members, databases, nets, m);
      }
      if x in Containers(members, databases, nets) {
        var m := ContainerWitness(members, databases, nets, x);
        ContainerIn(members + {(net, db)}, databases, nets, m);
      }
    }
    forall x ensures x in Containers(members - {(net, db)}, databases, nets) <==> x in Containers(members, databases, nets) {
      if x in Containers(members - {(net, db)}, databases, nets) {
        var m := ContainerWitness(members - {(net, db)}, databases, nets, x);
        ContainerIn(members, databases, nets, m);
      }
      if x in Containers(members, databases, nets) {
        var m := ContainerWitness(members, databases, nets, x);
        ContainerIn(members - {(net, db)}, databases, nets, m);
      }
    }
  }

  lemma StayingSome(databases: Databases)
    requires OneContainerEach(databases)
    ensures OneContainerEach(Staying(databases))
    ensures forall d :: HasContainer(Staying(databases), d) ==>
      HasContainer(databases, d) && databases[d] == Staying(databases)[d]
    ensures forall d :: HasContainer(databases, d) && !databases[d].leaving ==> HasContainer(Staying(databases), d)
  {
  }

  // Of the databases that stay, only `db` can account for its container.
  lemma NotAnothers(members: Members, databases: Databases, nets: set<nat>, db: nat)
    requires OneContainerEach(databases) && HasContainer(databases, db)
    requires databases[db].leaving || forall n :: n in nets ==> (n, db) !in members
    ensures databases[db].container.value !in Containers(members, Staying(databases), nets)
  {
    StayingSome(databases);
    var c := databases[db].container.value;
    forall x | x in Containers(members, Staying(databases), nets) ensures x != c {
      var m := ContainerWitness(members, Staying(databases), nets, x);
      OnlyHolder(databases, m.1, db);
      assert m == (m.0, m.1);
    }
  }

  lemma StayingLess(members: Members, databases: Databases, nets: set<nat>, db: nat)
    requires OneContainerEach(databases) && HasContainer(databases, db)
    ensures Containers(members, Staying(databases) - {db}, nets)
            == Containers(members, Staying(databases), nets) - {databases[db].container.value}
  {
    StayingSome(databases);
    var less := Staying(databases) - {db};
    forall x | x in Containers(members, less, nets)
      ensures x in Containers(members, Staying(databases), nets) - {databases[db].container.value}
    {
      var m := ContainerWitness(members, less, nets, x);
      ContainerIn(members, Staying(databases), nets, m);
      OnlyHolder(databases, m.1, db);
    }
    forall x | x in Containers(members, Staying(databases), nets) - {databases[db].container.value}
      ensures x in Containers(members, less, nets)
    {
      var m := ContainerWitness(members, Staying(databases), nets, x);
      ContainerIn(members, less, nets, m);
    }
  }

  lemma SameContainers(members: Members, before: Databases, after: Databases, nets: set<nat>)
    requires forall m :: m in members ==>
      (HasContainer(before, m.1) <==> HasContainer(after, m.1))
      && (HasContainer(after, m.1) ==> before[m.1].container == after[m.1].container)
    ensures Containers(members, after, nets) == Containers(members, before, nets)
  {
    forall x | x in Containers(members, after, nets) ensures x in Containers(members, before, nets) {
      var m := ContainerWitness(members, after, nets, x);
      ContainerIn(members, before, nets, m);
    }
    forall x | x in Containers(members, before, nets) ensures x in Containers(members, after, nets) {
      var m := ContainerWitness(members, before, nets, x);
      ContainerIn(members, after, nets, m);
    }
  }

  lemma OtherMembersStay(members: Members, databases: Databases, nets: set<nat>, net: nat)
    requires net !in nets
    ensures Containers(members - MembersOf(members, net), databases, nets) == Containers(members, databases, nets)
  {
    var kept := members - MembersOf(members, net);
    forall x | x in Containers(kept, databases, nets) ensures x in Containers(members, databases, nets) {
      var m := ContainerWitness(kept, databases, nets, x);
      ContainerIn(members, databases, nets, m);
    }
    forall x | x in Containers(members, databases, nets) ensures x in Containers(kept, databases, nets) {
      var m := ContainerWitness(members, databases, nets, x);
      ContainerIn(kept, databases, nets, m);
    }
  }

  lemma DatabaseGone(members: Members, databases: Databases, nets: set<nat>, db: nat)
    requires db in databases && OneContainerEach(databases)
    ensures Containers((set m | m in members && m.1 != db), databases - {db}, nets)
            == Containers(members, databases, nets)
               - if HasContainer(databases, db) then {databases[db].container.value} else {}
  {
    var kept := set m | m in members && m.1 != db;
    var gone := if HasContainer(databases, db) then {databases[db].container.value} else {};
    forall x | x in Containers(kept, databases - {db}, nets) ensures x in Containers(members, databases, nets) - gone {
      var m := ContainerWitness(kept, databases - {db}, nets, x);
      ContainerIn(members, databases, nets, m);
    }
    forall x | x in Containers(members, databases, nets) - gone ensures x in Containers(kept, databases - {db}, nets) {
      var m := ContainerWitness(members, databases, nets, x);
      ContainerIn(kept, databases - {db}, nets, m);
    }
  }

  // ---- Each step keeps the state sound, and bridges in step ----

  lemma HostedSome(databases: Databases, daemons: map<nat, nat>, daemon: nat, d: nat)
    ensures HasContainer(Hosted(databases, daemons, daemon), d)
            <==> HasContainer(databases, d) && DaemonOf(daemons, databases[d].server) == daemon
    ensures HasContainer(Hosted(databases, daemons, daemon), d) ==>
      Hosted(databases, daemons, daemon)[d] == databases[d]
  {
  }

  predicate Entitles(s: State, q: string, m: (nat, nat), c: nat) {
    && q in s.peerings && m in s.members && m.0 in NetsOf(s, q) && HasContainer(s.databases, m.1)
    && s.databases[m.1].container.value == c
    && DaemonOf(s.daemons, s.databases[m.1].server) == DaemonOf(s.daemons, s.peerings[q].server)
  }

  lemma AtHomeWitness(s: State, q: string, c: nat) returns (m: (nat, nat))
    requires q in s.peerings && c in AtHome(s, q)
    ensures Entitles(s, q, m, c)
  {
    var daemon := DaemonOf(s.daemons, s.peerings[q].server);
    m := ContainerWitness(s.members, Hosted(s.databases, s.daemons, daemon), NetsOf(s, q), c);
    HostedSome(s.databases, s.daemons, daemon, m.1);
  }

  lemma AtHomeIn(s: State, q: string, m: (nat, nat), c: nat)
    requires q in s.peerings && Entitles(s, q, m, c)
    ensures c in AtHome(s, q)
  {
    var daemon := DaemonOf(s.daemons, s.peerings[q].server);
    HostedSome(s.databases, s.daemons, daemon, m.1);
    ContainerIn(s.members, Hosted(s.databases, s.daemons, daemon), NetsOf(s, q), m);
  }

  lemma AtHomeBelongs(s: State, q: string)
    requires q in s.peerings
    ensures AtHome(s, q) <= Belongs(s, q)
  {
    forall c | c in AtHome(s, q) ensures c in Belongs(s, q) {
      var m := AtHomeWitness(s, q, c);
      ContainerIn(s.members, s.databases, NetsOf(s, q), m);
    }
  }

  // Containers keep their place on a bridge whose peering stays if what entitles them does.
  lemma StillAtHome(s: State, t: State, q: string, left: set<nat>)
    requires q in s.peerings && q in t.peerings && left <= AtHome(s, q)
    requires forall m, c :: c in left && Entitles(s, q, m, c) ==> Entitles(t, q, m, c)
    ensures left <= AtHome(t, q)
  {
    forall c | c in left ensures c in AtHome(t, q) {
      var m := AtHomeWitness(s, q, c);
      AtHomeIn(t, q, m, c);
    }
  }

  // ---- Attaching ----

  /** What it takes for an attachment to succeed: the checks, a Docker network on the database's daemon, or
      one that can be made there, and a container that connects. */
  predicate Connects(s: State, user: nat, net: nat, db: nat, reply: Reply) {
    && CheckAttach(s, user, net, db).Ok? && reply.connected && net in s.networks && db in s.databases
    && if s.networks[net].docker.Some? then s.networks[net].docker == Some(DaemonOf(s.daemons, s.databases[db].server))
       else reply.made
  }

  lemma CheckedAttach(s: State, user: nat, net: nat, db: nat)
    requires CheckAttach(s, user, net, db).Ok?
    ensures net in s.networks && db in s.databases && HasContainer(s.databases, db) && (net, db) !in s.members
    ensures s.networks[net].owner == user == s.databases[db].owner
    ensures Placed(s.networks[net], s.databases[db]) == s.networks[net].(server := s.databases[db].server)
    ensures |MembersOf(s.members, net)| < MAX_MEMBERS_PER_NETWORK
  {
    hide MembersOf;
  }

  // What preparing changes.
  lemma PrepareChanges(s: State, net: nat, db: nat, reply: Reply)
    requires net in s.networks && db in s.databases
    ensures var (t, result) := PrepareNetwork(s, net, db, reply);
            var row := Placed(s.networks[net], s.databases[db]);
            && t == s.(networks := t.networks, dockerNets := t.dockerNets)
            && t.networks == s.networks[net := t.networks[net]] && net in t.networks
            && t.networks[net].owner == s.networks[net].owner && t.networks[net].server == row.server
            && (result.Err? <==> s.networks[net].docker.None? && !reply.made)
            && if s.networks[net].docker.None? && reply.made
               then t.networks[net].docker == Some(DaemonOf(s.daemons, row.server)) && t.networks[net].subnet == reply.subnet
                    && t.dockerNets == s.dockerNets[net := {}]
               else t.networks[net].docker == s.networks[net].docker && t.networks[net].subnet == s.networks[net].subnet
                    && t.dockerNets == s.dockerNets
  {
  }

  /** What an attachment that passes the checks changes. Refused or not, the network takes the database's
      server, and keeps the Docker network it has. */
  lemma AttachChanges(s: State, user: nat, net: nat, db: nat, reply: Reply)
    requires CheckAttach(s, user, net, db).Ok?
    ensures net in s.networks && HasContainer(s.databases, db)
    ensures var (t, result) := AttachDatabase(s, user, net, db, reply);
            var (p, prepared) := PrepareNetwork(s, net, db, reply);
            && t == s.(networks := p.networks, dockerNets := t.dockerNets, members := t.members, bridges := t.bridges)
            && (result.Ok? <==> Connects(s, user, net, db, reply))
            && (result.Ok? ==> Settled(p.daemons, p.networks, net) && t == Join(p, net, db))
            && (result.Err? ==> t == p)
    ensures var p := PrepareNetwork(s, net, db, reply).0;
            && p == s.(networks := s.networks[net := p.networks[net]], dockerNets := p.dockerNets) && net in p.networks
            && p.networks[net].owner == s.networks[net].owner && p.networks[net].server == s.databases[db].server
            && if s.networks[net].docker.None? && reply.made
               then p.networks[net].docker == Some(DaemonOf(s.daemons, s.databases[db].server))
                    && p.networks[net].subnet == reply.subnet && p.dockerNets == s.dockerNets[net := {}]
               else p.networks[net].docker == s.networks[net].docker && p.networks[net].subnet == s.networks[net].subnet
                    && p.dockerNets == s.dockerNets
  {
    CheckedAttach(s, user, net, db);
    PrepareChanges(s, net, db, reply);
    hide CheckAttach, PrepareNetwork, Placed, AttachToBridges;
  }

  lemma RefusedAttach(s: State, user: nat, net: nat, db: nat, reply: Reply)
    requires CheckAttach(s, user, net, db).Err?
    ensures AttachDatabase(s, user, net, db, reply).0 == s
  {
    hide CheckAttach, PrepareNetwork, AttachToBridges;
  }

  lemma ActiveFits(s: State, q: string)
    requires Consistent(s) && IsActive(s, q)
    ensures q in s.bridges && s.peerings[q].bridge && s.peerings[q].netA != s.peerings[q].netB
  {
  }

  lemma AttachedBridge(
    daemons: map<nat, nat>, peerings: Peerings, bridges: Bridges, net: nat, daemon: nat, c: nat, q: string)
    requires q in peerings && q in bridges && peerings[q].status == Active && peerings[q].bridge
    ensures q in AttachToBridges(daemons, peerings, bridges, net, daemon, c)
    ensures AttachToBridges(daemons, peerings, bridges, net, daemon, c)[q]
            == bridges[q] + if Involves(peerings[q], net) && DaemonOf(daemons, peerings[q].server) == daemon then {c} else {}
  {
  }

  // What joining changes.
  lemma JoinChanges(s: State, net: nat, db: nat)
    requires net in s.networks && HasContainer(s.databases, db)
    ensures var t, c := Join(s, net, db), s.databases[db].container.value;
            && t == s.(dockerNets := t.dockerNets, members := t.members, bridges := t.bridges)
            && t.members == s.members + {(net, db)}
            && t.dockerNets == s.dockerNets[net := (if net in s.dockerNets then s.dockerNets[net] else {}) + {c}]
            && t.bridges == AttachToBridges(s.daemons, s.peerings, s.bridges, net,
                                            DaemonOf(s.daemons, s.networks[net].server), c)
            && t.bridges.Keys == s.bridges.Keys
  {
  }

  // The database's daemon is the one the network's server leads to, and that one has its Docker network.
  predicate Fitting(s: State, net: nat, db: nat) {
    && Settled(s.daemons, s.networks, net) && HasContainer(s.databases, db)
    && s.networks[net].server == s.databases[db].server
  }

  lemma JoinKeepsBridge(s: State, net: nat, db: nat, q: string)
    requires Consistent(s) && MembersOnly(s) && Fitting(s, net, db) && IsActive(s, q)
    ensures var t := Join(s, net, db);
            && q in s.bridges && q in t.bridges && IsActive(t, q) && t.bridges[q] <= AtHome(t, q)
            && (s.bridges[q] == Belongs(s, q) ==>
                  (t.bridges[q] == Belongs(t, q)
                   <==> !Involves(s.peerings[q], net)
                        || DaemonOf(s.daemons, s.peerings[q].server) == DaemonOf(s.daemons, s.databases[db].server)))
  {
    var t, c := Join(s, net, db), s.databases[db].container.value;
    JoinChanges(s, net, db);
    ActiveFits(s, q);
    AttachedBridge(s.daemons, s.peerings, s.bridges, net, DaemonOf(s.daemons, s.networks[net].server), c, q);
    assert s.bridges[q] <= AtHome(s, q) && OneContainerEach(s.databases);
    hide Consistent, MembersOnly, Join, AttachToBridges, Containers, Belongs, AtHome, OneContainerEach;
    BelongsIs(s, q);
    BelongsIs(t, q);
    JoinMember(s.members, s.databases, NetsOf(s, q), net, db);
    StillAtHome(s, t, q, s.bridges[q]);
    if Involves(s.peerings[q], net) {
      if DaemonOf(s.daemons, s.peerings[q].server) == DaemonOf(s.daemons, s.databases[db].server) {
        AtHomeIn(t, q, (net, db), c);
      } else if c in s.bridges[q] {
        var m := AtHomeWitness(s, q, c);
        OnlyHolder(s.databases, m.1, db);
      }
    }
  }

  lemma BelongsIs(s: State, q: string)
    requires q in s.peerings
    ensures Belongs(s, q) == Containers(s.members, s.databases, NetsOf(s, q))
    ensures NetsOf(s, q) == {s.peerings[q].netA, s.peerings[q].netB}
    ensures IsActive(s, q) <==> s.peerings[q].status == Active
    ensures forall net :: net in NetsOf(s, q) <==> Involves(s.peerings[q], net)
  {
    hide Containers;
  }

  lemma JoinStaying(members: Members, databases: Databases, net: nat, db: nat, n: nat)
    requires HasContainer(databases, db)
    ensures Containers(members + {(net, db)}, Staying(databases), {n})
            <= Containers(members, Staying(databases), {n}) + if n == net then {databases[db].container.value} else {}
  {
    if HasContainer(Staying(databases), db) {
      JoinMember(members, Staying(databases), {n}, net, db);
    } else {
      JoinNobody(members, Staying(databases), {n}, net, db);
    }
  }

  lemma JoinKeepsNetwork(s: State, net: nat, db: nat, n: nat)
    requires NetworksInStep(s) && Fitting(s, net, db)
    ensures var t := Join(s, net, db); HasDocker(t.networks, n) ==> NetworkFits(t.members, t.databases, t.dockerNets, n)
  {
    JoinChanges(s, net, db);
    JoinMember(s.members, s.databases, {n}, net, db);
    JoinStaying(s.members, s.databases, net, db, n);
    if HasDocker(s.networks, n) {
      assert NetworkFits(s.members, s.databases, s.dockerNets, n);
    }
    hide Containers, Join, NetworksInStep, HasContainer, Staying, AttachToBridges;
  }

  lemma JoinKeepsRows(s: State, net: nat, db: nat)
    requires Consistent(s) && Fitting(s, net, db)
    ensures Consistent(Join(s, net, db))
  {
    JoinChanges(s, net, db);
    hide Join, AttachToBridges, OneContainerEach, PeeringFits;
  }

  predicate Elsewhere(s: State, db: nat, q: string)
    requires db in s.databases
  {
    q in s.peerings && DaemonOf(s.daemons, s.peerings[q].server) != DaemonOf(s.daemons, s.databases[db].server)
  }

  lemma JoinKeepsBridges(s: State, net: nat, db: nat)
    requires Consistent(s) && MembersOnly(s) && Fitting(s, net, db)
    ensures MembersOnly(Join(s, net, db))
    ensures BridgesInStep(s) ==>
      (BridgesInStep(Join(s, net, db)) <==> !exists q :: Synced(s.peerings, q, net) && Elsewhere(s, db, q))
  {
    var t := Join(s, net, db);
    JoinChanges(s, net, db);
    forall q | IsActive(s, q)
      ensures q in s.bridges && q in t.bridges && IsActive(t, q) && t.bridges[q] <= AtHome(t, q)
      ensures s.bridges[q] == Belongs(s, q) ==>
        (t.bridges[q] == Belongs(t, q) <==> !(Synced(s.peerings, q, net) && Elsewhere(s, db, q)))
    {
      JoinKeepsBridge(s, net, db, q);
      ActiveFits(s, q);
      hide *;
      BelongsIs(s, q);
      SyncedIs(s.peerings, q, net);
      ElsewhereIs(s, db, q);
    }
    forall q | Synced(s.peerings, q, net) ensures IsActive(s, q) && IsActive(t, q) {
    }
    hide Consistent, Join, AtHome, Belongs, AttachToBridges, Fitting, Synced, Elsewhere, IsActive;
  }

  lemma SyncedIs(peerings: Peerings, q: string, net: nat)
    ensures Synced(peerings, q, net)
            <==> q in peerings && Involves(peerings[q], net) && peerings[q].status == Active && peerings[q].bridge
  {
  }

  lemma ElsewhereIs(s: State, db: nat, q: string)
    requires db in s.databases
    ensures Elsewhere(s, db, q)
            <==> q in s.peerings && DaemonOf(s.daemons, s.peerings[q].server) != DaemonOf(s.daemons, s.databases[db].server)
  {
  }

  lemma JoinKeeps(s: State, net: nat, db: nat)
    requires Sound(s) && Fitting(s, net, db)
    ensures Sound(Join(s, net, db))
    ensures BridgesInStep(s) ==>
      (BridgesInStep(Join(s, net, db)) <==> !exists q :: Synced(s.peerings, q, net) && Elsewhere(s, db, q))
  {
    var t := Join(s, net, db);
    JoinKeepsRows(s, net, db);
    JoinKeepsBridges(s, net, db);
    forall n | HasDocker(t.networks, n) ensures NetworkFits(t.members, t.databases, t.dockerNets, n) {
      JoinKeepsNetwork(s, net, db, n);
    }
    hide Consistent, MembersOnly, BridgesInStep, Join, NetworkFits, HasDocker, Fitting, Synced, Elsewhere;
  }

  // A network's new server and Docker network move nobody.
  lemma PrepareKeeps(s: State, net: nat, db: nat, reply: Reply)
    requires Consistent(s) && net in s.networks && db in s.databases
    ensures var t := PrepareNetwork(s, net, db, reply).0;
            && Consistent(t) && (Sound(s) ==> Sound(t)) && (BridgesInStep(s) ==> BridgesInStep(t))
  {
    var t := PrepareNetwork(s, net, db, reply).0;
    PrepareChanges(s, net, db, reply);
    if s.networks[net].docker.None? {
      NoMembersYet(s, net, s.databases);
      NoMembersYet(s, net, Staying(s.databases));
    }
    hide PrepareNetwork, Placed, Containers, Staying, OneContainerEach;
    assert t.networks.Keys == s.networks.Keys;
    assert MembersFit(t.members, t.networks, t.databases, t.daemons);
    forall q | q in s.peerings ensures Belongs(t, q) == Belongs(s, q) && AtHome(t, q) == AtHome(s, q) {
    }
    hide MembersFit, PeeringFits;
    if Sound(s) {
      forall n | HasDocker(t.networks, n) ensures NetworkFits(t.members, t.databases, t.dockerNets, n) {
        if n != net || s.networks[net].docker.Some? {
          assert NetworkFits(s.members, s.databases, s.dockerNets, n);
        }
      }
    }
  }

  lemma AttachFits(s: State, user: nat, net: nat, db: nat, reply: Reply)
    requires Connects(s, user, net, db, reply)
    ensures net in s.networks && db in s.databases
    ensures var p := PrepareNetwork(s, net, db, reply).0;
            && Fitting(p, net, db) && AttachDatabase(s, user, net, db, reply) == (Join(p, net, db), Ok(Unit))
            && p.peerings == s.peerings && p.databases == s.databases && p.daemons == s.daemons && p.members == s.members
  {
    AttachChanges(s, user, net, db, reply);
    hide AttachDatabase, Join, CheckAttach, PrepareNetwork;
  }

  lemma AttachKeepsRows(s: State, user: nat, net: nat, db: nat, reply: Reply)
    requires Consistent(s)
    ensures Consistent(AttachDatabase(s, user, net, db, reply).0)
  {
    hide Consistent, AttachDatabase, Join, CheckAttach, PrepareNetwork, Fitting;
    if CheckAttach(s, user, net, db).Err? {
      RefusedAttach(s, user, net, db, reply);
    } else {
      AttachChanges(s, user, net, db, reply);
      PrepareKeeps(s, net, db, reply);
      if Connects(s, user, net, db, reply) {
        AttachFits(s, user, net, db, reply);
        JoinKeepsRows(PrepareNetwork(s, net, db, reply).0, net, db);
      }
    }
  }

  /** Attaching keeps every active bridge exact if and only if the container is not connected to a network
      with an active peering on another daemon: the call that should put it on that bridge is
      addressed to the wrong one, and its failure ignored. */
  lemma AttachKeeps(s: State, user: nat, net: nat, db: nat, reply: Reply)
    requires Sound(s)
    ensures Sound(AttachDatabase(s, user, net, db, reply).0)
    ensures BridgesInStep(s) ==>
      (BridgesInStep(AttachDatabase(s, user, net, db, reply).0) <==> !BreaksStep(s, Attach(user, net, db, reply)))
  {
    assert Consistent(s);
    hide Consistent, Sound, BridgesInStep, AttachDatabase, Join, CheckAttach, PrepareNetwork, Fitting, Synced;
    if CheckAttach(s, user, net, db).Err? {
      RefusedAttach(s, user, net, db, reply);
    } else {
      AttachChanges(s, user, net, db, reply);
      PrepareKeeps(s, net, db, reply);
      if Connects(s, user, net, db, reply) {
        AttachFits(s, user, net, db, reply);
        JoinKeeps(PrepareNetwork(s, net, db, reply).0, net, db);
      }
    }
  }

  lemma NoMembersYet(s: State, net: nat, databases: Databases)
    requires Consistent(s) && net in s.networks && s.networks[net].docker.None?
    ensures Containers(s.members, databases, {net}) == {}
  {
    if c :| c in Containers(s.members, databases, {net}) {
      var m := ContainerWitness(s.members, databases, {net}, c);
    }
  }

  // ---- Detaching ----

  function OtherNet(peering: Peering, net: nat): nat {
    if peering.netA == net then peering.netB else peering.netA
  }

  // What an accepted detach changes that finds a container and a Docker network.
  lemma DetachChanges(s: State, user: nat, net: nat, db: nat)
    requires ReachesDocker(s, net, db) && s.networks[net].owner == user
    ensures var t, c := DetachDatabase(s, user, net, db).0, s.databases[db].container.value;
            && t == s.(dockerNets := t.dockerNets, members := t.members, bridges := t.bridges)
            && t.members == s.members - {(net, db)}
            && t.dockerNets == (if net in s.dockerNets && Settled(s.daemons, s.networks, net)
                                then s.dockerNets[net := s.dockerNets[net] - {c}] else s.dockerNets)
            && t.bridges == DetachFromBridges(s.daemons, s.peerings, s.bridges, net,
                                              DaemonOf(s.daemons, s.networks[net].server), c)
            && t.bridges.Keys == s.bridges.Keys
  {
  }

  lemma DetachNobody(s: State, user: nat, net: nat, db: nat)
    requires MembersFit(s.members, s.networks, s.databases, s.daemons)
    requires !(ReachesDocker(s, net, db) && s.networks[net].owner == user)
    ensures DetachDatabase(s, user, net, db).0 == s
  {
    if !ReachesDocker(s, net, db) {
      assert (net, db) !in s.members;
      assert s.members - {(net, db)} == s.members;
    }
    hide DetachFromBridges;
  }

  lemma DetachedBridge(
    daemons: map<nat, nat>, peerings: Peerings, bridges: Bridges, net: nat, daemon: nat, c: nat, q: string)
    requires q in peerings && q in bridges && peerings[q].status == Active && peerings[q].bridge
    ensures q in DetachFromBridges(daemons, peerings, bridges, net, daemon, c)
    ensures DetachFromBridges(daemons, peerings, bridges, net, daemon, c)[q]
            == bridges[q] - if Reached(daemons, peerings, q, net, daemon) then {c} else {}
    ensures Synced(peerings, q, net) <==> Involves(peerings[q], net)
  {
  }

  // What a detach leaves to belong on a bridge.
  lemma DetachBelongs(s: State, user: nat, net: nat, db: nat, q: string)
    requires Consistent(s) && ReachesDocker(s, net, db) && s.networks[net].owner == user && IsActive(s, q)
    ensures var t := DetachDatabase(s, user, net, db).0;
            && q in t.peerings
            && Belongs(t, q)
               == if Involves(s.peerings[q], net) && (OtherNet(s.peerings[q], net), db) !in s.members
                  then Belongs(s, q) - {s.databases[db].container.value}
                  else Belongs(s, q)
    ensures s.databases[db].container.value in Belongs(s, q)
            <==> exists n :: n in NetsOf(s, q) && (n, db) in s.members
  {
    assert OneContainerEach(s.databases);
    ActiveFits(s, q);
    DetachChanges(s, user, net, db);
    LeaveMember(s.members, s.databases, NetsOf(s, q), net, db);
    var c := s.databases[db].container.value;
    if c in Belongs(s, q) {
      var m := ContainerWitness(s.members, s.databases, NetsOf(s, q), c);
      OnlyHolder(s.databases, m.1, db);
      assert m == (m.0, db);
    }
    if n :| n in NetsOf(s, q) && (n, db) in s.members {
      ContainerIn(s.members, s.databases, NetsOf(s, q), (n, db));
    }
    hide Containers, DetachDatabase, Consistent, OneContainerEach;
    var p := s.peerings[q];
    if Involves(p, net) {
      assert (exists m :: m in NetsOf(s, q) && m != net && (m, db) in s.members)
             <==> (OtherNet(p, net), db) in s.members by {
        assert OtherNet(p, net) in NetsOf(s, q) && OtherNet(p, net) != net;
      }
    } else if k :| k in NetsOf(s, q) && k != net && (k, db) in s.members {
    }
  }

  lemma LeaveStaying(members: Members, databases: Databases, net: nat, db: nat, n: nat)
    requires OneContainerEach(databases) && HasContainer(databases, db)
    ensures Containers(members - {(net, db)}, Staying(databases), {n})
            <= Containers(members, Staying(databases), {n}) - if n == net then {databases[db].container.value} else {}
  {
    StayingSome(databases);
    if HasContainer(Staying(databases), db) {
      LeaveMember(members, Staying(databases), {n}, net, db);
    } else {
      JoinNobody(members, Staying(databases), {n}, net, db);
      NotAnothers(members, databases, {n}, db);
    }
  }

  /** The row's server leads to another daemon than the one that has the Docker network, so detaching a
      member takes away its membership and not its container. */
  predicate Misses(s: State, user: nat, net: nat, db: nat) {
    net in s.networks && s.networks[net].owner == user && (net, db) in s.members && !Settled(s.daemons, s.networks, net)
  }

  /** The container stays on the Docker network of a network it has left. */
  ghost predicate LeftOnNetwork(s: State, user: nat, net: nat, db: nat) {
    Misses(s, user, net, db) && HasContainer(s.databases, db) && net in s.dockerNets
    && s.databases[db].container.value in s.dockerNets[net]
  }

  /** The container stays on the bridge of a peering neither of whose networks has it. */
  ghost predicate LeftOnBridge(s: State, user: nat, net: nat, db: nat) {
    Misses(s, user, net, db) && HasContainer(s.databases, db)
    && exists q :: IsActive(s, q) && q in s.bridges && Involves(s.peerings[q], net)
                   && s.databases[db].container.value in s.bridges[q] && (OtherNet(s.peerings[q], net), db) !in s.members
  }

  lemma DetachKeepsNetworkIff(s: State, user: nat, net: nat, db: nat, n: nat)
    requires Consistent(s) && NetworksInStep(s) && HasDocker(s.networks, n)
    requires ReachesDocker(s, net, db) && s.networks[net].owner == user
    ensures var t := DetachDatabase(s, user, net, db).0;
            NetworkFits(t.members, t.databases, t.dockerNets, n) <==> !(n == net && LeftOnNetwork(s, user, net, db))
  {
    var c := s.databases[db].container.value;
    assert NetworkFits(s.members, s.databases, s.dockerNets, n) && OneContainerEach(s.databases);
    DetachChanges(s, user, net, db);
    LeaveMember(s.members, s.databases, {n}, net, db);
    LeaveStaying(s.members, s.databases, net, db, n);
    OnlyMember(s.members, s.databases, n, db);
    hide Containers, Consistent, Staying, DetachDatabase, DetachFromBridges, OneContainerEach, NetworksInStep;
  }

  lemma DetachKeepsBridge(s: State, user: nat, net: nat, db: nat, q: string)
    requires Consistent(s) && MembersOnly(s) && IsActive(s, q) && q in s.bridges
    requires ReachesDocker(s, net, db) && s.networks[net].owner == user
    ensures var t := DetachDatabase(s, user, net, db).0;
            && q in t.bridges && q in t.peerings
            && (t.bridges[q] <= AtHome(t, q)
                <==> !(Misses(s, user, net, db) && Involves(s.peerings[q], net)
                       && s.databases[db].container.value in s.bridges[q]
                       && (OtherNet(s.peerings[q], net), db) !in s.members))
  {
    var t, c := DetachDatabase(s, user, net, db).0, s.databases[db].container.value;
    DetachChanges(s, user, net, db);
    ActiveFits(s, q);
    DetachedBridge(s.daemons, s.peerings, s.bridges, net, DaemonOf(s.daemons, s.networks[net].server), c, q);
    assert s.bridges[q] <= AtHome(s, q) && OneContainerEach(s.databases);
    assert MembersFit(s.members, s.networks, s.databases, s.daemons);
    hide Consistent, MembersOnly, DetachDatabase, DetachFromBridges, Containers, Belongs, AtHome;
    BelongsIs(s, q);
    BelongsIs(t, q);
    var p := s.peerings[q];
    forall x | x in t.bridges[q] && x != c ensures x in AtHome(t, q) {
      var m := AtHomeWitness(s, q, x);
      AtHomeIn(t, q, m, x);
    }
    if c in t.bridges[q] {
      var m := AtHomeWitness(s, q, c);
      OnlyHolder(s.databases, m.1, db);
      assert m == (m.0, db);
      if m != (net, db) {
        AtHomeIn(t, q, m, c);
      } else if (OtherNet(p, net), db) in s.members {
        AtHomeIn(t, q, (OtherNet(p, net), db), c);
      }
    }
    if c in s.bridges[q] && Misses(s, user, net, db) && Involves(p, net) && (OtherNet(p, net), db) !in s.members {
      var k := AtHomeWitness(s, q, c);
      OnlyHolder(s.databases, k.1, db);
      if c in AtHome(t, q) {
        var m := AtHomeWitness(t, q, c);
        OnlyHolder(s.databases, m.1, db);
        assert false;
      }
    }
  }

  lemma DetachKeepsRows(s: State, user: nat, net: nat, db: nat)
    requires Consistent(s)
    ensures Consistent(DetachDatabase(s, user, net, db).0)
  {
    if ReachesDocker(s, net, db) && s.networks[net].owner == user {
      DetachChanges(s, user, net, db);
      hide DetachDatabase, OneContainerEach, PeeringFits;
    } else {
      DetachNobody(s, user, net, db);
      hide DetachDatabase;
    }
  }

  /** A detach keeps containers on bridges as members only, and Docker networks in step, if and only if it
      does not miss a container that is there. */
  lemma DetachKeepsSoundIff(s: State, user: nat, net: nat, db: nat)
    requires Sound(s)
    ensures var t := DetachDatabase(s, user, net, db).0;
            && Consistent(t)
            && (MembersOnly(t) <==> !LeftOnBridge(s, user, net, db))
            && (NetworksInStep(t) <==> !LeftOnNetwork(s, user, net, db))
  {
    var t := DetachDatabase(s, user, net, db).0;
    DetachKeepsRows(s, user, net, db);
    if ReachesDocker(s, net, db) && s.networks[net].owner == user {
      DetachChanges(s, user, net, db);
      forall q | IsActive(s, q) && q in s.bridges
        ensures q in t.bridges && q in t.peerings
        ensures t.bridges[q] <= AtHome(t, q)
                <==> !(Misses(s, user, net, db) && Involves(s.peerings[q], net)
                       && s.databases[db].container.value in s.bridges[q]
                       && (OtherNet(s.peerings[q], net), db) !in s.members)
      {
        DetachKeepsBridge(s, user, net, db, q);
      }
      forall n | HasDocker(s.networks, n)
        ensures NetworkFits(t.members, t.databases, t.dockerNets, n) <==> !(n == net && LeftOnNetwork(s, user, net, db))
      {
        DetachKeepsNetworkIff(s, user, net, db, n);
      }
      hide Consistent, DetachDatabase, DetachFromBridges, Containers, AtHome, NetworkFits, Misses, LeftOnNetwork;
    } else {
      DetachNobody(s, user, net, db);
      assert (net, db) in s.members ==> ReachesDocker(s, net, db);
      hide DetachDatabase, MembersOnly, NetworksInStep, Consistent;
    }
  }

  /** The steps that leave a bridge short of a member, or with one too many: an attachment the bridge's
      daemon does not hear of; a detach that takes off a container which the peered network still
      entitles, or that misses one nothing entitles any more; an activation that does not reach the
      daemon of some member. */
  ghost predicate BreaksStep(s: State, step: Step) {
    match step
    case Attach(user, net, db, reply) =>
      Connects(s, user, net, db, reply) && exists q :: Synced(s.peerings, q, net) && Elsewhere(s, db, q)
    case Detach(user, net, db) =>
      ReachesDocker(s, net, db) && s.networks[net].owner == user && exists q :: DetachBreaks(s, net, db, q)
    case RunTask(id, created) =>
      created && id in s.peerings && id in s.activating
      && exists m :: m in s.members && m.0 in {s.activating[id].netA, s.activating[id].netB} && Beyond(s, id, m.1)
    case _ => false
  }

  predicate DetachBreaks(s: State, net: nat, db: nat, q: string)
    requires net in s.networks
  {
    Synced(s.peerings, q, net) &&
    if Reached(s.daemons, s.peerings, q, net, DaemonOf(s.daemons, s.networks[net].server))
    then (OtherNet(s.peerings[q], net), db) in s.members
    else (net, db) in s.members && (OtherNet(s.peerings[q], net), db) !in s.members
  }

  predicate Beyond(s: State, id: string, db: nat)
    requires id in s.activating
  {
    db in s.databases && DaemonOf(s.daemons, s.databases[db].server) != DaemonOf(s.daemons, s.activating[id].server)
  }

  lemma DetachInStepIff(s: State, user: nat, net: nat, db: nat, q: string)
    requires Consistent(s) && IsActive(s, q) && q in s.bridges && s.bridges[q] == Belongs(s, q)
    requires ReachesDocker(s, net, db) && s.networks[net].owner == user
    ensures var t := DetachDatabase(s, user, net, db).0;
            && q in t.bridges && q in t.peerings && IsActive(t, q)
            && (t.bridges[q] == Belongs(t, q) <==> !DetachBreaks(s, net, db, q))
  {
    DetachChanges(s, user, net, db);
    ActiveFits(s, q);
    DetachedBridge(s.daemons, s.peerings, s.bridges, net, DaemonOf(s.daemons, s.networks[net].server),
                   s.databases[db].container.value, q);
    DetachBelongs(s, user, net, db, q);
    BelongsIs(s, q);
    hide Consistent, DetachDatabase, DetachFromBridges, Belongs;
    if Involves(s.peerings[q], net) {
      assert forall n :: n in NetsOf(s, q) <==> n == net || n == OtherNet(s.peerings[q], net);
      assert net in NetsOf(s, q) && OtherNet(s.peerings[q], net) in NetsOf(s, q);
    }
  }

  /** Detaching keeps every active bridge exact if and only if every bridge it reaches is of a peering whose
      other network does not have the database, and every bridge it does not reach is of one where
      that network has it or this one never had. */
  lemma DetachKeepsBridgesInStepIff(s: State, user: nat, net: nat, db: nat)
    requires Consistent(s) && BridgesInStep(s)
    ensures BridgesInStep(DetachDatabase(s, user, net, db).0) <==> !BreaksStep(s, Detach(user, net, db))
  {
    var t := DetachDatabase(s, user, net, db).0;
    if ReachesDocker(s, net, db) && s.networks[net].owner == user {
      DetachChanges(s, user, net, db);
      forall q | IsActive(s, q) && q in s.bridges
        ensures q in t.bridges && q in t.peerings && IsActive(t, q)
        ensures t.bridges[q] == Belongs(t, q) <==> !DetachBreaks(s, net, db, q)
      {
        DetachInStepIff(s, user, net, db, q);
      }
      forall q | DetachBreaks(s, net, db, q) ensures IsActive(s, q) && q in s.bridges {
        ActiveFits(s, q);
      }
      hide Consistent, DetachDatabase, DetachFromBridges, Belongs, DetachBreaks;
    } else {
      DetachNobody(s, user, net, db);
      hide DetachDatabase, BridgesInStep;
    }
  }

  // ---- Activating ----

  // What the spawned task changes.
  lemma ActivateChanges(s: State, id: string, created: bool)
    ensures var t := Activate(s, id, created);
            && t == s.(activating := s.activating - {id}, peerings := t.peerings, bridges := t.bridges)
            && t.peerings.Keys == s.peerings.Keys
            && (forall q :: q in s.peerings && q != id ==> t.peerings[q] == s.peerings[q])
            && (id !in s.activating ==> t.peerings == s.peerings)
            && (id in s.activating && id in s.peerings ==>
                  t.peerings[id] == s.peerings[id].(status := if created then Active else Failed,
                                                    bridge := created || s.peerings[id].bridge))
            && t.bridges == if id in s.activating && created then s.bridges[id := Connected(s, s.activating[id])]
                            else s.bridges
  {
    hide Containers, Hosted;
    if id !in s.activating {
      assert s.activating - {id} == s.activating;
    }
  }

  /** The members' containers a task connects. */
  function Connected(s: State, task: Task): set<nat> {
    Containers(s.members, Hosted(s.databases, s.daemons, DaemonOf(s.daemons, task.server)), {task.netA, task.netB})
  }

  lemma ActivatedFits(s: State, id: string, created: bool, q: string)
    requires Consistent(s) && q in s.peerings
    ensures var t := Activate(s, id, created);
            && q in t.peerings
            && PeeringFits(t.peerings[q], t.networks.Keys, q in t.bridges, TaskOf(t.activating, q))
            && NetsOf(t, q) == NetsOf(s, q) && t.peerings[q].server == s.peerings[q].server
            && (IsActive(t, q) && !IsActive(s, q) ==>
                  created && q == id && q in s.activating && q in t.bridges && t.bridges[q] == AtHome(s, q)
                  && {s.activating[q].netA, s.activating[q].netB} == NetsOf(s, q)
                  && s.activating[q].server == s.peerings[q].server)
            && (IsActive(s, q) ==> IsActive(t, q) && q in s.bridges && q in t.bridges && t.bridges[q] == s.bridges[q])
            && (created && q == id && q in s.activating ==> IsActive(t, q) && !IsActive(s, q))
  {
    ActivateChanges(s, id, created);
    assert PeeringFits(s.peerings[q], s.networks.Keys, q in s.bridges, TaskOf(s.activating, q));
    hide Activate, Containers, Hosted, Consistent;
  }

  // A bridge that holds those on its daemon holds all that belong when there are no others.
  lemma AllAtHomeIff(s: State, q: string)
    requires Consistent(s) && q in s.peerings
    ensures AtHome(s, q) == Belongs(s, q)
            <==> forall m :: m in s.members && m.0 in NetsOf(s, q) && m.1 in s.databases ==>
                   DaemonOf(s.daemons, s.databases[m.1].server) == DaemonOf(s.daemons, s.peerings[q].server)
  {
    AtHomeBelongs(s, q);
    assert MembersFit(s.members, s.networks, s.databases, s.daemons) && OneContainerEach(s.databases);
    hide AtHome, PeeringsFit, Consistent;
    if m :| m in s.members && m.0 in NetsOf(s, q) && m.1 in s.databases
            && DaemonOf(s.daemons, s.databases[m.1].server) != DaemonOf(s.daemons, s.peerings[q].server) {
      ContainerIn(s.members, s.databases, NetsOf(s, q), m);
      var c := s.databases[m.1].container.value;
      if c in AtHome(s, q) {
        var k := AtHomeWitness(s, q, c);
        OnlyHolder(s.databases, k.1, m.1);
      }
    } else {
      forall c | c in Belongs(s, q) ensures c in AtHome(s, q) {
        var m := ContainerWitness(s.members, s.databases, NetsOf(s, q), c);
        AtHomeIn(s, q, m, c);
      }
    }
  }

  lemma ActivateKeepsRows(s: State, id: string, created: bool)
    requires Consistent(s)
    ensures Consistent(Activate(s, id, created))
  {
    ActivateChanges(s, id, created);
    var t := Activate(s, id, created);
    assert OneContainerEach(s.databases) && MembersFit(s.members, s.networks, s.databases, s.daemons);
    forall q | q in t.peerings
      ensures PeeringFits(t.peerings[q], t.networks.Keys, q in t.bridges, TaskOf(t.activating, q))
    {
      ActivatedFits(s, id, created, q);
    }
    hide Activate, Connected, OneContainerEach, MembersFit, PeeringFits;
  }

  // A bridge after the task: new with those at home on it, or as it was.
  lemma ActivatedBridge(s: State, id: string, created: bool, q: string)
    requires Consistent(s) && q in s.peerings
    ensures var t := Activate(s, id, created);
            && q in t.peerings && AtHome(t, q) == AtHome(s, q) && Belongs(t, q) == Belongs(s, q)
            && (IsActive(t, q) && !IsActive(s, q) ==> q == id && q in t.bridges && t.bridges[q] == AtHome(s, q))
            && (IsActive(s, q) ==> IsActive(t, q) && q in s.bridges && q in t.bridges && t.bridges[q] == s.bridges[q])
            && (q == id && created && q in s.activating ==> IsActive(t, q) && !IsActive(s, q))
            && (IsActive(t, q) && !IsActive(s, q) ==> created && q in s.activating)
  {
    ActivateChanges(s, id, created);
    ActivatedFits(s, id, created, q);
    hide Activate, Containers, Hosted, PeeringFits, Consistent, Connected;
  }

  lemma ActivateKeepsMembers(s: State, id: string, created: bool)
    requires Consistent(s) && MembersOnly(s)
    ensures MembersOnly(Activate(s, id, created))
  {
    ActivateChanges(s, id, created);
    var t := Activate(s, id, created);
    hide Activate, AtHome, Belongs, Consistent, Connected;
    forall q | IsActive(t, q) && q in t.bridges ensures t.bridges[q] <= AtHome(t, q) {
      ActivatedBridge(s, id, created, q);
    }
  }

  lemma ActivateInStepIff(s: State, id: string, created: bool)
    requires Consistent(s) && BridgesInStep(s)
    ensures BridgesInStep(Activate(s, id, created)) <==> !BreaksStep(s, RunTask(id, created))
  {
    ActivateChanges(s, id, created);
    var t := Activate(s, id, created);
    if created && id in s.peerings && id in s.activating {
      ActivatedFits(s, id, created, id);
      ActivatedBridge(s, id, created, id);
      NewBridgeInStepIff(s, id);
    } else {
      assert !BreaksStep(s, RunTask(id, created));
    }
    hide Activate, AtHome, Belongs, Consistent, Connected, BreaksStep, PeeringFits;
    forall q | IsActive(t, q) && q in t.bridges && (IsActive(s, q) || AtHome(s, q) == Belongs(s, q))
      ensures t.bridges[q] == Belongs(t, q)
    {
      ActivatedBridge(s, id, created, q);
    }
    forall q | IsActive(t, q) && !IsActive(s, q) ensures created && id in s.peerings && id in s.activating && q == id {
      ActivatedBridge(s, id, created, q);
    }
  }

  /** Activating keeps bridges exact if and only if every member of both networks runs on the daemon of the
      peering's server. */
  lemma ActivateKeeps(s: State, id: string, created: bool)
    requires Consistent(s)
    ensures Consistent(Activate(s, id, created))
    ensures Sound(s) ==> Sound(Activate(s, id, created))
    ensures BridgesInStep(s) ==> (BridgesInStep(Activate(s, id, created)) <==> !BreaksStep(s, RunTask(id, created)))
  {
    ActivateChanges(s, id, created);
    ActivateKeepsRows(s, id, created);
    NetworksReadTables(s, Activate(s, id, created));
    hide Activate, Consistent, MembersOnly, NetworksInStep, BridgesInStep, BreaksStep, Connected;
    if MembersOnly(s) {
      ActivateKeepsMembers(s, id, created);
    }
    if BridgesInStep(s) {
      ActivateInStepIff(s, id, created);
    }
  }

  lemma NewBridgeInStepIff(s: State, id: string)
    requires Consistent(s) && id in s.peerings && id in s.activating
    requires {s.activating[id].netA, s.activating[id].netB} == NetsOf(s, id)
    requires s.activating[id].server == s.peerings[id].server
    ensures AtHome(s, id) == Belongs(s, id) <==> !BreaksStep(s, RunTask(id, true))
  {
    AllAtHomeIff(s, id);
    hide AtHome, Belongs, Consistent;
  }

  lemma NetworksReadTables(s: State, t: State)
    requires t.networks == s.networks && t.dockerNets == s.dockerNets
    requires t.members == s.members && t.databases == s.databases
    ensures NetworksInStep(s) == NetworksInStep(t)
  {
    hide NetworkFits, HasDocker;
  }

  // ---- Deleting ----

  lemma RemoveKeeps(s: State, gone: set<string>)
    requires Consistent(s)
    ensures Consistent(RemovePeerings(s, gone))
    ensures Sound(s) ==> Sound(RemovePeerings(s, gone))
    ensures BridgesInStep(s) ==> BridgesInStep(RemovePeerings(s, gone))
  {
    hide Containers, TablesOf, DropRules;
    var t := RemovePeerings(s, gone);
    forall q | q in t.peerings
      ensures (q in t.bridges <==> q in s.bridges) && (q in t.bridges ==> t.bridges[q] == s.bridges[q])
    {
      assert q !in gone;
    }
    forall q | q in t.peerings ensures AtHome(t, q) == AtHome(s, q) {
    }
  }

  /** In a sound state the detach loops have emptied a bridge before it is removed, so removal
      succeeds: nothing of a deleted peering stays behind. */
  lemma RemovalLeavesNothing(s: State, gone: set<string>, q: string)
    requires Sound(s) && q in gone && q in s.peerings
    ensures var t := RemovePeerings(s, gone);
            && q !in t.peerings
            && (IsActive(s, q) ==> q !in t.bridges && TableName(q) !in t.ruleset)
            && RulesOf(t.rules, q) == []
  {
    DropElsewhere(s.rules, gone, q);
    hide Containers, RulesOf, DropRules;
    if IsActive(s, q) {
      AtHomeBelongs(s, q);
      assert s.bridges[q] <= AtHome(s, q);
      hide AtHome;
      assert LeftOn(s, q) == {};
      assert TableName(q) in TablesOf(s.peerings, gone);
    }
  }

  lemma RemovalKeepsTheRest(s: State, gone: set<string>)
    ensures var t := RemovePeerings(s, gone);
            && t.daemons == s.daemons && t.networks == s.networks && t.databases == s.databases
            && t.members == s.members && t.dockerNets == s.dockerNets && t.activating == s.activating
            && t.peerings == s.peerings - gone
  {
  }

  // What deleting a network changes beyond its peerings.
  lemma DropNetworkChanges(s: State, user: nat, net: nat)
    requires DeleteNetwork(s, user, net).1.Ok?
    ensures net in s.networks
    ensures var t := DeleteNetwork(s, user, net).0;
            && t == RemovePeerings(s, PeeringsOf(s.peerings, net)).(
                 networks := s.networks - {net},
                 members := s.members - MembersOf(s.members, net),
                 dockerNets := t.dockerNets)
            && (forall n :: n != net && n in s.dockerNets ==> n in t.dockerNets && t.dockerNets[n] == s.dockerNets[n])
            && (!Settled(s.daemons, s.networks, net) ==> t.dockerNets == s.dockerNets)
  {
    hide Containers, RemovePeerings, MembersOf, PeeringsOf;
  }

  // In a sound state the Docker network is empty when it is to be removed.
  lemma DockerNetworkGoneIff(s: State, user: nat, net: nat)
    requires NetworksInStep(s) && DeleteNetwork(s, user, net).1.Ok? && HasDocker(s.networks, net)
    ensures net in DeleteNetwork(s, user, net).0.dockerNets <==> !Settled(s.daemons, s.networks, net)
  {
    DropNetworkChanges(s, user, net);
    assert NetworkFits(s.members, s.databases, s.dockerNets, net);
    assert s.dockerNets[net] - Containers(s.members, s.databases, {net}) == {};
    hide Containers, RemovePeerings, MembersOf, PeeringsOf;
  }

  // The peerings left after a network and its peerings are gone.
  lemma PeeringsLeft(s: State, user: nat, net: nat, q: string)
    requires Consistent(s) && DeleteNetwork(s, user, net).1.Ok?
    ensures var t, bare := DeleteNetwork(s, user, net).0, RemovePeerings(s, PeeringsOf(s.peerings, net));
            q in t.peerings ==>
              q in bare.peerings && t.peerings[q] == bare.peerings[q]
              && Belongs(t, q) == Belongs(bare, q) && AtHome(t, q) == AtHome(bare, q)
              && PeeringFits(t.peerings[q], t.networks.Keys, q in t.bridges, TaskOf(t.activating, q))
  {
    var gone := PeeringsOf(s.peerings, net);
    RemoveKeeps(s, gone);
    RemovalKeepsTheRest(s, gone);
    DropNetworkChanges(s, user, net);
    hide Containers, Hosted, RemovePeerings, DeleteNetwork, OneContainerEach, HasContainer, MembersFit;
    var t, bare := DeleteNetwork(s, user, net).0, RemovePeerings(s, gone);
    if q in t.peerings {
      assert PeeringFits(bare.peerings[q], bare.networks.Keys, q in bare.bridges, TaskOf(bare.activating, q));
      assert q in s.peerings && q !in gone && !Involves(s.peerings[q], net);
      hide MembersOf;
      OtherMembersStay(s.members, s.databases, NetsOf(t, q), net);
      OtherMembersStay(s.members, Hosted(s.databases, s.daemons, DaemonOf(s.daemons, t.peerings[q].server)),
                       NetsOf(t, q), net);
    }
  }

  lemma MembersLeft(
    members: Members, networks: map<nat, Network>, databases: Databases, daemons: map<nat, nat>, net: nat)
    requires MembersFit(members, networks, databases, daemons)
    ensures MembersFit(members - MembersOf(members, net), networks - {net}, databases, daemons)
  {
  }

  /** A network goes with its peerings. Its Docker network is empty by then, and goes too if and only if it is
      on the daemon that the network's server leads to. */
  lemma DropNetworkKeeps(s: State, user: nat, net: nat)
    requires Consistent(s)
    ensures Consistent(DeleteNetwork(s, user, net).0)
    ensures Sound(s) ==> Sound(DeleteNetwork(s, user, net).0)
    ensures BridgesInStep(s) ==> BridgesInStep(DeleteNetwork(s, user, net).0)
    ensures DeleteNetwork(s, user, net).1.Ok? ==>
      net in s.networks && net !in DeleteNetwork(s, user, net).0.networks
      && (Sound(s) && HasDocker(s.networks, net) ==>
            (net in DeleteNetwork(s, user, net).0.dockerNets <==> !Settled(s.daemons, s.networks, net)))
  {
    if DeleteNetwork(s, user, net).1.Ok? {
      var gone := PeeringsOf(s.peerings, net);
      var bare := RemovePeerings(s, gone);
      RemoveKeeps(s, gone);
      RemovalKeepsTheRest(s, gone);
      DropNetworkChanges(s, user, net);
      MembersLeft(s.members, s.networks, s.databases, s.daemons, net);
      if Sound(s) {
        NetworksLeft(s, user, net);
        if HasDocker(s.networks, net) {
          DockerNetworkGoneIff(s, user, net);
        }
      }
      hide Containers, RemovePeerings, DeleteNetwork, OneContainerEach, HasContainer, NetworksInStep, PeeringFits,
           MembersFit, MembersOf, Belongs, AtHome;
      var t := DeleteNetwork(s, user, net).0;
      forall q | q in t.peerings
        ensures q in bare.peerings && t.peerings[q] == bare.peerings[q] && Belongs(t, q) == Belongs(bare, q)
        ensures AtHome(t, q) == AtHome(bare, q)
        ensures PeeringFits(t.peerings[q], t.networks.Keys, q in t.bridges, TaskOf(t.activating, q))
      {
        PeeringsLeft(s, user, net, q);
      }
    }
  }

  lemma NetworksLeft(s: State, user: nat, net: nat)
    requires Sound(s) && DeleteNetwork(s, user, net).1.Ok?
    ensures NetworksInStep(DeleteNetwork(s, user, net).0)
  {
    var t := DeleteNetwork(s, user, net).0;
    DropNetworkChanges(s, user, net);
    RemovalKeepsTheRest(s, PeeringsOf(s.peerings, net));
    hide Containers, RemovePeerings, DeleteNetwork, HasContainer, MembersOnly, Consistent;
    forall n | HasDocker(t.networks, n) ensures NetworkFits(t.members, t.databases, t.dockerNets, n) {
      assert HasDocker(s.networks, n) && NetworkFits(s.members, s.databases, s.dockerNets, n);
      OtherMembersStay(s.members, s.databases, {n}, net);
      OtherMembersStay(s.members, Staying(s.databases), {n}, net);
    }
  }

  predicate SameFor(before: Databases, after: Databases, d: nat) {
    (HasContainer(before, d) <==> HasContainer(after, d))
    && (HasContainer(after, d) ==> before[d].container == after[d].container && before[d].server == after[d].server)
  }

  // A change of database rows that moves no container.
  lemma SameContainersKeep(s: State, t: State)
    requires Consistent(s) && t == s.(databases := t.databases)
    requires forall m :: m in s.members ==>
      SameFor(s.databases, t.databases, m.1) && SameFor(Staying(s.databases), Staying(t.databases), m.1)
    requires OneContainerEach(t.databases)
    ensures Consistent(t) && (Sound(s) ==> Sound(t)) && (BridgesInStep(s) ==> BridgesInStep(t))
  {
    hide Containers, OneContainerEach, PeeringsFit, Staying;
    assert MembersFit(t.members, t.networks, t.databases, t.daemons);
    forall nets: set<nat>
      ensures Containers(t.members, t.databases, nets) == Containers(s.members, s.databases, nets)
      ensures Containers(t.members, Staying(t.databases), nets) == Containers(s.members, Staying(s.databases), nets)
    {
      SameContainers(s.members, s.databases, t.databases, nets);
      SameContainers(s.members, Staying(s.databases), Staying(t.databases), nets);
    }
    if Sound(s) {
      forall q | IsActive(t, q) && q in t.bridges ensures t.bridges[q] <= AtHome(t, q) {
        assert s.bridges[q] <= AtHome(s, q);
        hide AtHome;
        StillAtHome(s, t, q, s.bridges[q]);
      }
      forall n | HasDocker(t.networks, n) ensures NetworkFits(t.members, t.databases, t.dockerNets, n) {
        assert NetworkFits(s.members, s.databases, s.dockerNets, n);
      }
    }
    hide HasContainer, MembersOnly, NetworksInStep;
    forall q | q in s.peerings ensures Belongs(t, q) == Belongs(s, q) {
    }
  }

  lemma NewDatabaseKeeps(s: State, db: nat, row: Database)
    requires Consistent(s) && Possible(s, NewDatabase(db, row))
    ensures var t := AddDatabase(s, db, row);
            Consistent(t) && (Sound(s) ==> Sound(t)) && (BridgesInStep(s) ==> BridgesInStep(t))
  {
    hide Containers, MembersOnly, NetworksInStep, BridgesInStep, PeeringsFit;
    SameContainersKeep(s, AddDatabase(s, db, row));
  }

  lemma ToggleKeeps(s: State, db: nat, running: bool)
    requires Consistent(s)
    ensures var t := SetRunning(s, db, running);
            Consistent(t) && (Sound(s) ==> Sound(t)) && (BridgesInStep(s) ==> BridgesInStep(t))
  {
    if db in s.databases {
      ToggledSame(s.databases, db, running);
      assert OneContainerEach(s.databases);
      hide Containers, Sound, Consistent, BridgesInStep, SameFor, Staying, OneContainerEach;
      SameContainersKeep(s, SetRunning(s, db, running));
    }
  }

  lemma ToggledSame(databases: Databases, db: nat, running: bool)
    requires db in databases
    ensures var after := databases[db := databases[db].(running := running)];
            && (forall d :: SameFor(databases, after, d) && SameFor(Staying(databases), Staying(after), d))
            && (OneContainerEach(databases) ==> OneContainerEach(after))
  {
  }

  // What removing a database takes off a Docker network, and what a request to remove it does.
  lemma NetworkWithout(s: State, db: nat, n: nat)
    requires OneContainerEach(s.databases) && NetworksInStep(s) && HasDocker(s.networks, n) && HasContainer(s.databases, db)
    ensures var c, kept := s.databases[db].container.value, set m | m in s.members && m.1 != db;
            && n in s.dockerNets
            && Containers(kept, Staying(s.databases - {db}), {n}) <= s.dockerNets[n] - {c}
            && s.dockerNets[n] - {c} <= Containers(kept, s.databases - {db}, {n})
            && Containers(s.members, Staying(s.databases) - {db}, {n}) <= s.dockerNets[n] - {c}
  {
    var kept := set m | m in s.members && m.1 != db;
    assert NetworkFits(s.members, s.databases, s.dockerNets, n);
    DatabaseGone(s.members, s.databases, {n}, db);
    StayingLess(s.members, s.databases, {n}, db);
    assert Staying(s.databases - {db}) == Staying(s.databases) - {db};
    hide Staying;
    forall x | x in Containers(kept, Staying(s.databases) - {db}, {n})
      ensures x in Containers(s.members, Staying(s.databases) - {db}, {n})
    {
      var m := ContainerWitness(kept, Staying(s.databases) - {db}, {n}, x);
      ContainerIn(s.members, Staying(s.databases) - {db}, {n}, m);
    }
    hide Containers;
  }

  lemma NobodyGone(s: State, db: nat, n: nat)
    requires OneContainerEach(s.databases) && NetworksInStep(s) && HasDocker(s.networks, n)
    requires db in s.databases && !HasContainer(s.databases, db)
    ensures var kept := set m | m in s.members && m.1 != db;
            NetworkFits(kept, s.databases - {db}, s.dockerNets, n)
  {
    var kept := set m | m in s.members && m.1 != db;
    assert NetworkFits(s.members, s.databases, s.dockerNets, n);
    DatabaseGone(s.members, s.databases, {n}, db);
    assert Staying(s.databases - {db}) == Staying(s.databases) - {db};
    forall x | x in Containers(kept, Staying(s.databases) - {db}, {n})
      ensures x in Containers(s.members, Staying(s.databases), {n})
    {
      var m := ContainerWitness(kept, Staying(s.databases) - {db}, {n}, x);
      ContainerIn(s.members, Staying(s.databases), {n}, m);
    }
    hide Containers, Staying;
  }

  lemma NetworksWithout(s: State, db: nat)
    requires NetworksInStep(s) && OneContainerEach(s.databases)
    ensures NetworksInStep(RemoveDatabase(s, db))
  {
    var t := RemoveDatabase(s, db);
    assert t.networks == s.networks;
    if db in s.databases {
      assert t.databases == s.databases - {db};
      assert t.members == set m | m in s.members && m.1 != db;
      var gone := if HasContainer(s.databases, db) then {s.databases[db].container.value} else {};
      assert forall n :: n in s.dockerNets ==> n in t.dockerNets && t.dockerNets[n] == s.dockerNets[n] - gone;
      hide RemoveDatabase, Containers, Staying, OneContainerEach;
      forall n | HasDocker(t.networks, n) ensures NetworkFits(t.members, t.databases, t.dockerNets, n) {
        if HasContainer(s.databases, db) {
          NetworkWithout(s, db, n);
        } else {
          NobodyGone(s, db, n);
        }
      }
    }
  }

  lemma RemovedRow(s: State, db: nat)
    requires Consistent(s) && db in s.databases
    ensures var t := RemoveDatabase(s, db);
            var gone := if s.databases[db].container.Some? then {s.databases[db].container.value} else {};
            && Consistent(t) && t.bridges.Keys == s.bridges.Keys
            && (forall q :: q in t.bridges ==> t.bridges[q] == s.bridges[q] - gone)
            && t.peerings == s.peerings && t.networks == s.networks && t.daemons == s.daemons
            && t.databases == s.databases - {db} && t.members == set m | m in s.members && m.1 != db
  {
    var t := RemoveDatabase(s, db);
    assert OneContainerEach(t.databases) by {
      hide MembersFit, PeeringsFit;
    }
    hide OneContainerEach, PeeringFits;
    assert MembersFit(t.members, t.networks, t.databases, t.daemons);
  }

  lemma DropDatabaseKeeps(s: State, db: nat)
    requires Consistent(s)
    ensures var t := RemoveDatabase(s, db);
            Consistent(t) && (Sound(s) ==> Sound(t)) && (BridgesInStep(s) ==> BridgesInStep(t))
  {
    if db in s.databases {
      var t := RemoveDatabase(s, db);
      var gone := if s.databases[db].container.Some? then {s.databases[db].container.value} else {};
      RemovedRow(s, db);
      if Sound(s) {
        NetworksWithout(s, db);
      }
      assert OneContainerEach(s.databases);
      hide RemoveDatabase, Containers, Consistent, NetworksInStep, OneContainerEach, AtHome;
      forall q | IsActive(t, q) && q in t.bridges && MembersOnly(s) ensures t.bridges[q] <= AtHome(t, q) {
        assert t.bridges[q] <= s.bridges[q] <= AtHome(s, q);
        hide MembersOnly;
        StillAtHome(s, t, q, t.bridges[q]);
      }
      forall nets: set<nat>
        ensures Containers(t.members, t.databases, nets) == Containers(s.members, s.databases, nets) - gone
      {
        DatabaseGone(s.members, s.databases, nets, db);
      }
      hide HasContainer;
      forall q | q in s.peerings ensures Belongs(t, q) == Belongs(s, q) - gone {
      }
    }
  }

  // What a request to delete a database changes.
  lemma LeaveChanges(s: State, user: nat, db: nat)
    requires DeleteDatabase(s, user, db).1.Ok?
    ensures db in s.databases
    ensures var t := DeleteDatabase(s, user, db).0;
            && t == s.(databases := t.databases, dockerNets := t.dockerNets)
            && t.databases == s.databases[db := s.databases[db].(running := false, leaving := true)]
            && t.dockerNets.Keys == s.dockerNets.Keys
            && (forall n :: n in s.dockerNets ==>
                  t.dockerNets[n] == if OnDocker(s, n, db) && HasContainer(s.databases, db)
                                     then s.dockerNets[n] - {s.databases[db].container.value}
                                     else s.dockerNets[n])
  {
    hide OnDocker;
  }

  lemma FitsBetween(members: Members, databases: Databases, dockerNets: map<nat, set<nat>>, n: nat)
    ensures NetworkFits(members, databases, dockerNets, n)
            <==> n in dockerNets && Containers(members, Staying(databases), {n}) <= dockerNets[n]
                 && dockerNets[n] <= Containers(members, databases, {n})
  {
    hide Containers, Staying;
  }

  // Fewer databases stay; no container moves.
  lemma LeavingContainers(s: State, t: State, db: nat, n: nat)
    requires OneContainerEach(s.databases) && db in s.databases
    requires t.databases == s.databases[db := s.databases[db].(running := false, leaving := true)]
    ensures Containers(s.members, t.databases, {n}) == Containers(s.members, s.databases, {n})
    ensures Containers(s.members, Staying(t.databases), {n})
            <= Containers(s.members, Staying(s.databases), {n})
               - if HasContainer(s.databases, db) then {s.databases[db].container.value} else {}
  {
    SameContainers(s.members, s.databases, t.databases, {n});
    assert Staying(t.databases) == Staying(s.databases) - {db};
    hide Staying;
    if HasContainer(s.databases, db) {
      StayingLess(s.members, s.databases, {n}, db);
      hide Containers;
    } else {
      forall x | x in Containers(s.members, Staying(t.databases), {n})
        ensures x in Containers(s.members, Staying(s.databases), {n})
      {
        var m := ContainerWitness(s.members, Staying(t.databases), {n}, x);
        ContainerIn(s.members, Staying(s.databases), {n}, m);
      }
    }
  }

  lemma LeaveKeepsNetwork(s: State, user: nat, db: nat, n: nat)
    requires OneContainerEach(s.databases) && NetworksInStep(s) && HasDocker(s.networks, n)
    requires DeleteDatabase(s, user, db).1.Ok?
    ensures var t := DeleteDatabase(s, user, db).0;
            NetworkFits(t.members, t.databases, t.dockerNets, n)
  {
    assert NetworkFits(s.members, s.databases, s.dockerNets, n);
    hide *;
    LeaveChanges(s, user, db);
    var t := DeleteDatabase(s, user, db).0;
    LeavingContainers(s, t, db, n);
    FitsBetween(s.members, s.databases, s.dockerNets, n);
    FitsBetween(t.members, t.databases, t.dockerNets, n);
  }

  lemma LeaveKeeps(s: State, user: nat, db: nat)
    requires Consistent(s)
    ensures var t := DeleteDatabase(s, user, db).0;
            Consistent(t) && (Sound(s) ==> Sound(t)) && (BridgesInStep(s) ==> BridgesInStep(t))
  {
    if DeleteDatabase(s, user, db).1.Ok? {
      LeaveChanges(s, user, db);
      hide DeleteDatabase, Containers, PeeringFits, Staying, NetworkFits;
      var t := DeleteDatabase(s, user, db).0;
      assert MembersFit(t.members, t.networks, t.databases, t.daemons) && OneContainerEach(t.databases);
      if Sound(s) {
        forall n | HasDocker(t.networks, n) ensures NetworkFits(t.members, t.databases, t.dockerNets, n) {
          LeaveKeepsNetwork(s, user, db, n);
        }
      }
      forall nets: set<nat> ensures Containers(t.members, t.databases, nets) == Containers(s.members, s.databases, nets) {
        SameContainers(s.members, s.databases, t.databases, nets);
      }
      hide MembersFit, OneContainerEach, HasDocker, OnDocker, AtHome;
      forall q | IsActive(t, q) && q in t.bridges && MembersOnly(s) ensures t.bridges[q] <= AtHome(t, q) {
        assert s.bridges[q] <= AtHome(s, q);
        StillAtHome(s, t, q, s.bridges[q]);
      }
      hide HasContainer;
      forall q | q in s.peerings ensures Belongs(t, q) == Belongs(s, q) {
      }
    }
  }

  /** Between the request and the cleanup the state is sound: the container is off its Docker networks
      and still on its bridges, its memberships stand. The cleanup then reaches the state that
      removing the database at once would have reached. */
  lemma BetweenRequestAndCleanup(s: State, user: nat, db: nat, net: nat)
    requires Sound(s) && DeleteDatabase(s, user, db).1.Ok? && (net, db) in s.members
    ensures var t := DeleteDatabase(s, user, db).0;
            && Sound(t) && (BridgesInStep(s) ==> BridgesInStep(t))
            && t.members == s.members && t.bridges == s.bridges
            && HasContainer(s.databases, db) && net in t.dockerNets
            && s.databases[db].container.value !in t.dockerNets[net]
            && RemoveDatabase(t, db) == RemoveDatabase(s, db)
  {
    LeaveKeeps(s, user, db);
    LeaveChanges(s, user, db);
    MemberFits(s, (net, db));
    assert NetworkFits(s.members, s.databases, s.dockerNets, net);
    hide Sound, BridgesInStep, DeleteDatabase, NetworkFits, HasDocker;
    var t := DeleteDatabase(s, user, db).0;
    assert OnDocker(s, net, db);
    assert t.databases - {db} == s.databases - {db};
    SameAfterRemoval(s, t, db);
  }

  lemma SameAfterRemoval(s: State, t: State, db: nat)
    requires db in s.databases && db in t.databases && t.databases[db].container == s.databases[db].container
    requires t == s.(databases := t.databases, dockerNets := t.dockerNets) && t.databases - {db} == s.databases - {db}
    requires t.dockerNets.Keys == s.dockerNets.Keys
    requires forall n :: n in s.dockerNets ==>
      t.dockerNets[n] == s.dockerNets[n]
      || (HasContainer(s.databases, db) && t.dockerNets[n] == s.dockerNets[n] - {s.databases[db].container.value})
    ensures RemoveDatabase(t, db) == RemoveDatabase(s, db)
  {
    var gone := if s.databases[db].container.Some? then {s.databases[db].container.value} else {};
    forall n | n in s.dockerNets ensures t.dockerNets[n] - gone == s.dockerNets[n] - gone {
    }
    assert RemoveDatabase(t, db).dockerNets == RemoveDatabase(s, db).dockerNets;
  }

  // Rules and the host's tables are no part of soundness.
  lemma ReapplyChanges(s: State, id: string)
    requires id in s.peerings
    ensures Reapply(s, id).0 == s.(ruleset := Reapply(s, id).0.ruleset)
  {
    hide ToRules, RulesOf, Script, ExecuteAll, ValidInput, SidesOf;
  }

  lemma RuleStepChanges(s: State, step: Step)
    requires step.NewRule? || step.DropRule?
    ensures Next(s, step) == s.(rules := Next(s, step).rules, ruleset := Next(s, step).ruleset)
  {
    hide CountRules, DeleteRule, Reapply;
    match step {
      case NewRule(_, id, request, rule, now) =>
        if id in s.peerings {
          ReapplyChanges(s.(rules := s.rules + [RowFor(id, request, rule, now)]), id);
        }
      case DropRule(_, id, rule) =>
        if id in s.peerings {
          ReapplyChanges(s.(rules := DeleteRule(s.rules, rule)), id);
        }
    }
  }

  lemma RuleStepsKeep(s: State, step: Step)
    requires Consistent(s) && (step.NewRule? || step.DropRule?)
    ensures Consistent(Next(s, step)) && (Sound(s) ==> Sound(Next(s, step)))
    ensures BridgesInStep(s) ==> BridgesInStep(Next(s, step))
  {
    RuleStepChanges(s, step);
    hide Containers, Hosted, Next;
  }

  lemma NetworkCreationKeeps(s: State, user: nat, id: nat)
    requires Consistent(s) && Possible(s, NewNetwork(user, id))
    ensures var t := CreateNetwork(s, user, id).0;
            Consistent(t) && (Sound(s) ==> Sound(t)) && (BridgesInStep(s) ==> BridgesInStep(t))
  {
    hide Containers, Hosted, NetworksOwned, OneContainerEach, HasContainer;
    var t := CreateNetwork(s, user, id).0;
    assert t == s.(networks := t.networks) && s.networks.Keys <= t.networks.Keys;
    assert t.networks == s.networks || t.networks == s.networks[id := Network(user, None, None, None)];
    assert id !in s.networks;
    hide CreateNetwork, PeeringFits, Possible;
    forall q | q in s.peerings
      ensures PeeringFits(s.peerings[q], t.networks.Keys, q in t.bridges, TaskOf(t.activating, q))
    {
      MoreNetworks(s.peerings[q], s.networks.Keys, t.networks.Keys, q in s.bridges, TaskOf(s.activating, q));
    }
    forall q | q in s.peerings ensures Belongs(t, q) == Belongs(s, q) && AtHome(t, q) == AtHome(s, q) {
    }
  }

  lemma MoreNetworks(peering: Peering, nets: set<nat>, more: set<nat>, hasBridge: bool, task: Option<Task>)
    requires PeeringFits(peering, nets, hasBridge, task) && nets <= more
    ensures PeeringFits(peering, more, hasBridge, task)
  {
  }

  lemma PeeringCreationKeeps(s: State, user: nat, a: nat, b: nat, id: string)
    requires Consistent(s) && Possible(s, Peer(user, a, b, id))
    ensures var t := CreatePeering(s, user, a, b, id).0;
            Consistent(t) && (Sound(s) ==> Sound(t)) && (BridgesInStep(s) ==> BridgesInStep(t))
  {
    hide Containers, Hosted, PeeringsOwned, PeeringExists, OneContainerEach, MembersFit, TableName, GoodId;
    var t := CreatePeering(s, user, a, b, id).0;
    NetworksReadTables(s, t);
    hide NetworksInStep;
    if CheckPeering(s, user, a, b).Ok? {
      assert id !in s.peerings;
      assert t.daemons == s.daemons && t.databases == s.databases && t.members == s.members;
      hide CreatePeering, CheckPeering, Possible;
      forall q | q in t.peerings
        ensures PeeringFits(t.peerings[q], t.networks.Keys, q in t.bridges, TaskOf(t.activating, q))
      {
        if q != id {
          assert PeeringFits(s.peerings[q], s.networks.Keys, q in s.bridges, TaskOf(s.activating, q));
        }
      }
      forall q | IsActive(t, q) ensures IsActive(s, q) && Belongs(t, q) == Belongs(s, q) && AtHome(t, q) == AtHome(s, q) {
      }
    }
  }

  /** The steps that leave a container behind: a detach that misses it. */
  ghost predicate LeavesBehind(s: State, step: Step) {
    step.Detach?
    && (LeftOnNetwork(s, step.user, step.net, step.db) || LeftOnBridge(s, step.user, step.net, step.db))
  }

  lemma EveryStepKeepsRows(s: State, step: Step)
    requires Consistent(s) && Possible(s, step)
    ensures Consistent(Next(s, step))
  {
    hide Consistent, AttachDatabase, DetachDatabase, CreatePeering, CreateNetwork, Activate, DeleteNetwork,
         RemovePeerings, CreateRule, DeleteStoredRule, AddDatabase, SetRunning, DeleteDatabase, RemoveDatabase, Possible;
    match step {
      case NewNetwork(user, id) => NetworkCreationKeeps(s, user, id);
      case Peer(user, a, b, id) => PeeringCreationKeeps(s, user, a, b, id);
      case Attach(user, net, db, reply) => AttachKeepsRows(s, user, net, db, reply);
      case Detach(user, net, db) => DetachKeepsRows(s, user, net, db);
      case RunTask(id, created) => ActivateKeeps(s, id, created);
      case Unpeer(user, id) => RemoveKeeps(s, {id});
      case DropNetwork(user, net) => DropNetworkKeeps(s, user, net);
      case NewRule(_, _, _, _, _) => RuleStepsKeep(s, step);
      case DropRule(_, _, _) => RuleStepsKeep(s, step);
      case NewDatabase(db, row) => NewDatabaseKeeps(s, db, row);
      case Toggle(db, running) => ToggleKeeps(s, db, running);
      case Leave(user, db) => LeaveKeeps(s, user, db);
      case DropDatabase(db) => DropDatabaseKeeps(s, db);
    }
  }

  lemma EveryStepKeepsSoundIff(s: State, step: Step)
    requires Sound(s) && Possible(s, step)
    ensures Sound(Next(s, step)) <==> !LeavesBehind(s, step)
  {
    assert Consistent(s);
    hide Sound, Consistent, BridgesInStep, BreaksStep, LeftOnNetwork, LeftOnBridge, AttachDatabase, DetachDatabase,
         CreatePeering, CreateNetwork, Activate, DeleteNetwork, RemovePeerings, CreateRule, DeleteStoredRule, AddDatabase,
         SetRunning, DeleteDatabase, RemoveDatabase, Possible;
    match step {
      case Detach(user, net, db) => DetachSound(s, user, net, db);
      case Attach(user, net, db, reply) => AttachKeeps(s, user, net, db, reply);
      case RunTask(id, created) => ActivateKeeps(s, id, created);
      case NewRule(_, _, _, _, _) => RuleStepsKeep(s, step);
      case DropRule(_, _, _) => RuleStepsKeep(s, step);
      case NewDatabase(db, row) => NewDatabaseKeeps(s, db, row);
      case Toggle(db, running) => ToggleKeeps(s, db, running);
      case Leave(user, db) => LeaveKeeps(s, user, db);
      case DropDatabase(db) => DropDatabaseKeeps(s, db);
      case _ => hide Next; RowStepsKeepSound(s, step);
    }
  }

  lemma RowStepsKeepSound(s: State, step: Step)
    requires Sound(s) && (step.NewNetwork? || step.Peer? || step.Unpeer? || step.DropNetwork?) && Possible(s, step)
    ensures Sound(Next(s, step))
  {
    assert Consistent(s);
    hide Sound, Consistent, CreatePeering, CreateNetwork, DeleteNetwork, RemovePeerings, Possible;
    match step {
      case NewNetwork(user, id) => NetworkCreationKeeps(s, user, id);
      case Peer(user, a, b, id) => PeeringCreationKeeps(s, user, a, b, id);
      case Unpeer(user, id) => RemoveKeeps(s, {id});
      case DropNetwork(user, net) => DropNetworkKeeps(s, user, net);
    }
  }

  lemma EveryStepKeepsBridgesIff(s: State, step: Step)
    requires Sound(s) && Possible(s, step) && BridgesInStep(s)
    ensures BridgesInStep(Next(s, step)) <==> !BreaksStep(s, step)
  {
    assert Consistent(s);
    hide Sound, Consistent, BridgesInStep, AttachDatabase, DetachDatabase, CreatePeering, CreateNetwork, Activate,
         DeleteNetwork, RemovePeerings, CreateRule, DeleteStoredRule, AddDatabase, SetRunning, DeleteDatabase,
         RemoveDatabase, Possible;
    match step {
      case Attach(user, net, db, reply) => hide BreaksStep; AttachKeeps(s, user, net, db, reply);
      case Detach(user, net, db) => hide BreaksStep; DetachKeepsBridgesInStepIff(s, user, net, db);
      case RunTask(id, created) => hide BreaksStep; ActivateKeeps(s, id, created);
      case NewNetwork(user, id) => NetworkCreationKeeps(s, user, id);
      case Peer(user, a, b, id) => PeeringCreationKeeps(s, user, a, b, id);
      case Unpeer(user, id) => RemoveKeeps(s, {id});
      case DropNetwork(user, net) => DropNetworkKeeps(s, user, net);
      case NewRule(_, _, _, _, _) => RuleStepsKeep(s, step);
      case DropRule(_, _, _) => RuleStepsKeep(s, step);
      case NewDatabase(db, row) => NewDatabaseKeeps(s, db, row);
      case Toggle(db, running) => ToggleKeeps(s, db, running);
      case Leave(user, db) => LeaveKeeps(s, user, db);
      case DropDatabase(db) => DropDatabaseKeeps(s, db);
    }
  }

  /** Each step, exactly: it keeps the state sound if and only if it is not a detach that misses a container,
      and active bridges exact if and only if it is none of those that break them. */
  lemma EveryStepKeepsIff(s: State, step: Step)
    requires Sound(s) && Possible(s, step)
    ensures Sound(Next(s, step)) <==> !LeavesBehind(s, step)
    ensures BridgesInStep(s) ==> (BridgesInStep(Next(s, step)) <==> !BreaksStep(s, step))
  {
    hide *;
    EveryStepKeepsSoundIff(s, step);
    if BridgesInStep(s) {
      EveryStepKeepsBridgesIff(s, step);
    }
  }

  lemma DetachSound(s: State, user: nat, net: nat, db: nat)
    requires Sound(s)
    ensures Sound(DetachDatabase(s, user, net, db).0) <==> !LeavesBehind(s, Detach(user, net, db))
  {
    DetachKeepsSoundIff(s, user, net, db);
    hide DetachDatabase, LeftOnNetwork, LeftOnBridge, Consistent, MembersOnly, NetworksInStep;
  }

  ghost function Run(s: State, steps: seq<Step>): State {
    if steps == [] then s else Next(Run(s, steps[..|steps| - 1]), steps[|steps| - 1])
  }

  /** Every step of the run is possible where it is taken. */
  ghost predicate Feasible(s: State, steps: seq<Step>) {
    steps == [] ||
    (Feasible(s, steps[..|steps| - 1]) && Possible(Run(s, steps[..|steps| - 1]), steps[|steps| - 1]))
  }

  ghost predicate NeverBreaksStep(s: State, steps: seq<Step>) {
    steps == [] ||
    (NeverBreaksStep(s, steps[..|steps| - 1])
     && !BreaksStep(Run(s, steps[..|steps| - 1]), steps[|steps| - 1]))
  }

  ghost predicate NeverLeavesBehind(s: State, steps: seq<Step>) {
    steps == [] ||
    (NeverLeavesBehind(s, steps[..|steps| - 1])
     && !LeavesBehind(Run(s, steps[..|steps| - 1]), steps[|steps| - 1]))
  }

  /** Whatever happens in whatever order, rows fit together, and all members of a network run on the one daemon
      that has its Docker network. */
  lemma {:induction false} EveryRunIsConsistent(s: State, steps: seq<Step>)
    requires Consistent(s) && Feasible(s, steps)
    ensures Consistent(Run(s, steps))
  {
    if steps != [] {
      EveryRunIsConsistent(s, steps[..|steps| - 1]);
      EveryStepKeepsRows(Run(s, steps[..|steps| - 1]), steps[|steps| - 1]);
    }
  }

  /** Safety over whole runs: whatever is created, attached, refused, peered, activated late, detached and
      deleted in whatever order, as long as no detach misses a container, one sits on a peering's bridge
      only as a member's. */
  lemma {:induction false} EveryRunIsSound(s: State, steps: seq<Step>)
    requires Sound(s) && Feasible(s, steps) && NeverLeavesBehind(s, steps)
    ensures Sound(Run(s, steps))
  {
    if steps != [] {
      EveryRunIsSound(s, steps[..|steps| - 1]);
      EveryStepKeepsIff(Run(s, steps[..|steps| - 1]), steps[|steps| - 1]);
    }
  }

  /** And as long as no step breaks them either, active bridges hold exactly the members of both networks. */
  lemma {:induction false} EveryRunKeepsBridgesInStep(s: State, steps: seq<Step>)
    requires Sound(s) && BridgesInStep(s) && Feasible(s, steps)
    requires NeverLeavesBehind(s, steps) && NeverBreaksStep(s, steps)
    ensures BridgesInStep(Run(s, steps))
  {
    if steps != [] {
      EveryRunIsSound(s, steps[..|steps| - 1]);
      EveryRunKeepsBridgesInStep(s, steps[..|steps| - 1]);
      EveryStepKeepsIff(Run(s, steps[..|steps| - 1]), steps[|steps| - 1]);
    }
  }

  /** The empty platform, where every run starts. */
  function Empty(daemons: map<nat, nat>): State {
    State(daemons, map[], map[], {}, map[], map[], map[], map[], [], map[])
  }

  ghost predicate SamePeerings(s: State, t: State) {
    t.peerings == s.peerings && t.activating == s.activating && t.bridges.Keys == s.bridges.Keys
  }

  lemma DetachIsQuiet(s: State, user: nat, net: nat, db: nat)
    ensures SamePeerings(s, DetachDatabase(s, user, net, db).0)
  {
    hide HasContainer, Synced;
  }

  lemma AttachIsQuiet(s: State, user: nat, net: nat, db: nat, reply: Reply)
    ensures SamePeerings(s, AttachDatabase(s, user, net, db, reply).0)
  {
    if CheckAttach(s, user, net, db).Ok? {
      AttachChanges(s, user, net, db, reply);
      if Connects(s, user, net, db, reply) {
        JoinChanges(PrepareNetwork(s, net, db, reply).0, net, db);
      }
      hide AttachDatabase, CheckAttach, PrepareNetwork, Join;
    } else {
      RefusedAttach(s, user, net, db, reply);
      hide AttachDatabase, CheckAttach;
    }
  }

  // The steps that leave peerings, tasks and the set of bridges alone.
  lemma QuietStep(s: State, step: Step)
    requires !step.Peer? && !step.RunTask? && !step.Unpeer? && !step.DropNetwork?
    ensures SamePeerings(s, Next(s, step))
  {
    hide CreateRule, DeleteStoredRule, AttachDatabase, DetachDatabase, NetworksOwned;
    match step {
      case NewRule(_, _, _, _, _) => RuleStepChanges(s, step);
      case DropRule(_, _, _) => RuleStepChanges(s, step);
      case Attach(user, net, db, reply) => AttachIsQuiet(s, user, net, db, reply);
      case Detach(user, net, db) => DetachIsQuiet(s, user, net, db);
      case _ => hide SamePeerings; OtherStepIsQuiet(s, step);
    }
  }

  lemma NetworkIsQuiet(s: State, user: nat, id: nat)
    ensures SamePeerings(s, CreateNetwork(s, user, id).0)
  {
    hide NetworksOwned;
  }

  lemma DatabaseIsQuiet(s: State, db: nat, row: Database, running: bool)
    ensures SamePeerings(s, AddDatabase(s, db, row)) && SamePeerings(s, SetRunning(s, db, running))
  {
  }

  lemma LeavingIsQuiet(s: State, user: nat, db: nat)
    ensures SamePeerings(s, DeleteDatabase(s, user, db).0)
  {
    hide OnDocker;
  }

  lemma RemovingIsQuiet(s: State, db: nat)
    ensures SamePeerings(s, RemoveDatabase(s, db))
  {
  }

  lemma OtherStepIsQuiet(s: State, step: Step)
    requires step.NewNetwork? || step.NewDatabase? || step.Toggle? || step.Leave? || step.DropDatabase?
    ensures SamePeerings(s, Next(s, step))
  {
    hide SamePeerings, CreateNetwork, AddDatabase, SetRunning, DeleteDatabase, RemoveDatabase;
    match step {
      case NewNetwork(user, id) => NetworkIsQuiet(s, user, id);
      case NewDatabase(db, row) => DatabaseIsQuiet(s, db, row, true);
      case Toggle(db, running) => DatabaseIsQuiet(s, db, Database(0, None, false, None, false), running);
      case Leave(user, db) => LeavingIsQuiet(s, user, db);
      case DropDatabase(db) => RemovingIsQuiet(s, db);
    }
  }

  lemma PeerChanges(s: State, user: nat, a: nat, b: nat, id: string)
    ensures var t := CreatePeering(s, user, a, b, id).0;
            t == s || (t.peerings == s.peerings[id := t.peerings[id]] && id in t.peerings
                       && t.peerings[id].status == Pending && !t.peerings[id].bridge
                       && t.activating.Keys == s.activating.Keys + {id}
                       && t.bridges == s.bridges)
  {
    hide CheckPeering;
  }

  lemma UnpeerChanges(s: State, user: nat, id: string) returns (gone: set<string>)
    ensures var t := DeletePeering(s, user, id).0;
            t.peerings == s.peerings - gone && t.activating == s.activating && t.bridges == BridgesWithout(s, gone)
    ensures DeletesPending(s, Unpeer(user, id))
            <==> exists q :: q in gone && q in s.peerings && s.peerings[q].status == Pending
  {
    hide TablesOf, DropRules, BridgesWithout;
    gone := if id in s.peerings && s.peerings[id].owner == user then {id} else {};
    if gone == {} {
      NothingRemoved(s);
    }
  }

  lemma DropChanges(s: State, user: nat, net: nat) returns (gone: set<string>)
    ensures var t := DeleteNetwork(s, user, net).0;
            t.peerings == s.peerings - gone && t.activating == s.activating && t.bridges == BridgesWithout(s, gone)
    ensures DeletesPending(s, DropNetwork(user, net))
            <==> exists q :: q in gone && q in s.peerings && s.peerings[q].status == Pending
  {
    gone := {};
    if net in s.networks && s.networks[net].owner == user {
      gone := PeeringsOf(s.peerings, net);
      DropNetworkChanges(s, user, net);
      assert forall q :: q in gone <==> q in s.peerings && Involves(s.peerings[q], net);
      hide Containers, TablesOf, DropRules, BridgesWithout, DeleteNetwork, PeeringsOf;
    } else {
      NothingRemoved(s);
      hide Containers, RemovePeerings, BridgesWithout;
    }
  }

  lemma RemovalChanges(s: State, step: Step) returns (gone: set<string>)
    requires step.Unpeer? || step.DropNetwork?
    ensures var t := Next(s, step);
            t.peerings == s.peerings - gone && t.activating == s.activating && t.bridges == BridgesWithout(s, gone)
    ensures DeletesPending(s, step)
            <==> exists q :: q in gone && q in s.peerings && s.peerings[q].status == Pending
  {
    hide DeletePeering, DeleteNetwork, BridgesWithout, DeletesPending;
    match step {
      case Unpeer(user, id) => gone := UnpeerChanges(s, user, id);
      case DropNetwork(user, net) => gone := DropChanges(s, user, net);
    }
  }

  lemma NothingRemoved(s: State)
    ensures s.peerings - {} == s.peerings && BridgesWithout(s, {}) == s.bridges
  {
    hide Containers;
  }

  /** Once active, a peering stays active until it is deleted. */
  lemma ActiveUntilDeleted(s: State, step: Step, q: string)
    requires Consistent(s) && Possible(s, step) && IsActive(s, q)
    ensures q in Next(s, step).peerings ==> IsActive(Next(s, step), q)
    ensures q !in Next(s, step).peerings ==> step.Unpeer? || step.DropNetwork?
  {
    assert PeeringFits(s.peerings[q], s.networks.Keys, q in s.bridges, TaskOf(s.activating, q));
    hide Consistent, AttachDatabase, CreatePeering, Activate, DeletePeering, DeleteNetwork, GoodId, TableName;
    if step.Peer? {
      PeerChanges(s, step.user, step.a, step.b, step.peering);
    } else if step.RunTask? {
      ActivateChanges(s, step.peering, step.created);
    } else if step.Unpeer? || step.DropNetwork? {
      var gone := RemovalChanges(s, step);
    } else {
      QuietStep(s, step);
    }
  }

  // ---- Bridges whose peering is gone ----

  /** Every bridge belongs to an active peering and every task to a pending one. */
  ghost predicate Tidy(s: State) {
    && (forall q :: q in s.bridges ==> IsActive(s, q))
    && (forall q :: q in s.activating ==> q in s.peerings && s.peerings[q].status == Pending)
  }

  /** Peerings deleted before their task has run. */
  ghost predicate DeletesPending(s: State, step: Step) {
    match step
    case Unpeer(user, id) => id in s.peerings && s.peerings[id].owner == user && s.peerings[id].status == Pending
    case DropNetwork(user, net) =>
      net in s.networks && s.networks[net].owner == user
      && exists q :: q in s.peerings && Involves(s.peerings[q], net) && s.peerings[q].status == Pending
    case _ => false
  }

  lemma TidyRows(s: State, q: string)
    requires Consistent(s) && q in s.peerings
    ensures PeeringFits(s.peerings[q], s.networks.Keys, q in s.bridges, TaskOf(s.activating, q))
  {
  }

  // In a sound state removal leaves nothing on an active bridge.
  lemma SoundBridgesEmpty(s: State, gone: set<string>, q: string)
    requires Sound(s) && q in gone && IsActive(s, q)
    ensures q !in BridgesWithout(s, gone)
  {
    TidyRows(s, q);
    AtHomeBelongs(s, q);
    assert s.bridges[q] <= AtHome(s, q);
    hide Containers, Consistent, AtHome;
    assert LeftOn(s, q) == {};
  }

  lemma RemovalTidyIff(s: State, gone: set<string>, t: State)
    requires Sound(s) && Tidy(s)
    requires t.peerings == s.peerings - gone && t.activating == s.activating && t.bridges == BridgesWithout(s, gone)
    ensures Tidy(t) <==> !exists q :: q in gone && q in s.peerings && s.peerings[q].status == Pending
  {
    forall q | q in t.bridges ensures IsActive(t, q) {
      assert q in s.bridges && IsActive(s, q);
      if q in gone {
        SoundBridgesEmpty(s, gone, q);
      }
    }
    if q :| q in gone && q in s.peerings && s.peerings[q].status == Pending {
      TidyRows(s, q);
      assert q in t.activating && q !in t.peerings;
    } else {
      hide Sound, BridgesWithout;
      assert forall q :: q in t.activating ==> q !in gone;
    }
  }

  lemma TidyAfterPeer(s: State, user: nat, a: nat, b: nat, id: string)
    requires Sound(s) && Tidy(s) && id !in s.bridges
    ensures Tidy(CreatePeering(s, user, a, b, id).0)
  {
    PeerChanges(s, user, a, b, id);
    hide Sound, CreatePeering;
  }

  lemma TidyAfterTask(s: State, id: string, created: bool)
    requires Sound(s) && Tidy(s)
    ensures Tidy(Activate(s, id, created))
  {
    ActivateChanges(s, id, created);
    hide Sound, Activate, Containers;
  }

  /** A step leaves a stray task or bridge behind exactly when it deletes a peering that is still
      waiting to be activated. */
  lemma StepKeepsTidyIff(s: State, step: Step)
    requires Sound(s) && Tidy(s) && Possible(s, step)
    ensures Tidy(Next(s, step)) <==> !DeletesPending(s, step)
  {
    hide Sound, AttachDatabase, CreatePeering, Activate, GoodId, TableName, DeletePeering, DeleteNetwork;
    if step.Unpeer? || step.DropNetwork? {
      var gone := RemovalChanges(s, step);
      hide Next, DeletesPending;
      RemovalTidyIff(s, gone, Next(s, step));
    } else if step.Peer? {
      hide Tidy;
      TidyAfterPeer(s, step.user, step.a, step.b, step.peering);
    } else if step.RunTask? {
      hide Tidy;
      TidyAfterTask(s, step.peering, step.created);
    } else {
      QuietStep(s, step);
      hide Next;
    }
  }

  /** What becomes of such a stray: the peering is deleted while pending, the task then bridges the
      member all the same if it is on the daemon the request chose, and a later detach does not reach
      that bridge. The container stays on a bridge that joins two networks, neither of which it
      belongs to. */
  lemma StrayBridgeOutlivesMembership(
    s: State, user: nat, a: nat, b: nat, id: string, db: nat)
    requires Consistent(s) && CheckPeering(s, user, a, b).Ok? && id !in s.peerings
    requires (a, db) in s.members && (b, db) !in s.members
    ensures a in s.networks && b in s.networks && HasContainer(s.databases, db)
    ensures var run := [Peer(user, a, b, id), Unpeer(user, id), RunTask(id, true), Detach(user, a, db)];
            var t := Run(s, run);
            && (a, db) !in t.members && (b, db) !in t.members && id !in t.peerings && id in t.bridges
            && (s.databases[db].container.value in t.bridges[id]
                <==> DaemonOf(s.daemons, s.databases[db].server)
                     == DaemonOf(s.daemons, PeeringServer(s.networks, a, b)))
  {
    PendingDeleted(s, user, a, b, id);
    MemberFits(s, (a, db));
    hide *;
    StrayRun(s, user, a, b, id, db);
    var s2 := DeletePeering(CreatePeering(s, user, a, b, id).0, user, id).0;
    ActivateChanges(s2, id, true);
    ConnectedIff(s2, s2.activating[id], db);
    StrayDetach(Activate(s2, id, true), user, a, db, id);
  }

  lemma ConnectedIff(s: State, task: Task, db: nat)
    requires OneContainerEach(s.databases) && HasContainer(s.databases, db) && (task.netA, db) in s.members
    ensures s.databases[db].container.value in Connected(s, task)
            <==> DaemonOf(s.daemons, s.databases[db].server) == DaemonOf(s.daemons, task.server)
  {
    var daemon := DaemonOf(s.daemons, task.server);
    var hosted := Hosted(s.databases, s.daemons, daemon);
    HostedSome(s.databases, s.daemons, daemon, db);
    hide Hosted;
    if HasContainer(hosted, db) {
      ContainerIn(s.members, hosted, {task.netA, task.netB}, (task.netA, db));
    }
    if s.databases[db].container.value in Connected(s, task) {
      var m := ContainerWitness(s.members, hosted, {task.netA, task.netB}, s.databases[db].container.value);
      HostedSome(s.databases, s.daemons, daemon, m.1);
      OnlyHolder(s.databases, m.1, db);
    }
  }

  lemma MemberFits(s: State, m: (nat, nat))
    requires Consistent(s) && m in s.members
    ensures HasDocker(s.networks, m.0) && m.0 in s.networks && HasContainer(s.databases, m.1)
    ensures m.1 in s.databases && s.databases[m.1].container.Some?
    ensures s.networks[m.0].docker == Some(DaemonOf(s.daemons, s.databases[m.1].server))
    ensures OneContainerEach(s.databases)
  {
    hide PeeringsFit, OneContainerEach;
  }

  lemma StrayRun(s: State, user: nat, a: nat, b: nat, id: string, db: nat)
    ensures Run(s, [Peer(user, a, b, id), Unpeer(user, id), RunTask(id, true), Detach(user, a, db)])
            == DetachDatabase(
                 Activate(DeletePeering(CreatePeering(s, user, a, b, id).0, user, id).0, id, true), user, a, db).0
  {
    RunFour(s, Peer(user, a, b, id), Unpeer(user, id), RunTask(id, true), Detach(user, a, db));
    hide Run, Activate, CreatePeering, DeletePeering, DetachDatabase;
  }

  lemma RunFour(s: State, a: Step, b: Step, c: Step, d: Step)
    ensures Run(s, [a, b, c, d]) == Next(Next(Next(Next(s, a), b), c), d)
  {
    hide Next;
    assert [a, b, c, d][..3] == [a, b, c] && [a, b, c][..2] == [a, b] && [a, b][..1] == [a] && [a][..0] == [];
    assert Run(s, [a]) == Next(s, a);
    assert Run(s, [a, b]) == Next(Next(s, a), b);
    assert Run(s, [a, b, c]) == Next(Next(Next(s, a), b), c);
  }

  lemma PendingDeleted(s: State, user: nat, a: nat, b: nat, id: string)
    requires CheckPeering(s, user, a, b).Ok? && id !in s.peerings
    ensures a in s.networks && b in s.networks && s.networks[a].owner == user
    ensures var s2 := DeletePeering(CreatePeering(s, user, a, b, id).0, user, id).0;
            && s2.members == s.members && s2.databases == s.databases && s2.networks == s.networks
            && s2.daemons == s.daemons && s2.peerings == s.peerings
            && s2.activating == s.activating[id := Task(a, b, PeeringServer(s.networks, a, b))]
  {
    hide Containers, TablesOf, BridgesWithout, DropRules, PeeringExists, PeeringsOwned;
  }

  lemma StrayDetach(s: State, user: nat, net: nat, db: nat, id: string)
    requires HasDocker(s.networks, net) && HasContainer(s.databases, db)
    requires net in s.networks && s.networks[net].owner == user
    requires id in s.bridges && id !in s.peerings
    ensures var t := DetachDatabase(s, user, net, db).0;
            && t.members == s.members - {(net, db)} && t.peerings == s.peerings
            && id in t.bridges && t.bridges[id] == s.bridges[id]
  {
  }
}
