/**
 Private networks and their peerings: the tables, the container attachments on Docker
 networks and peering bridges, the host's firewall tables, and what each handler makes of
 them. A Docker call does something only on the daemon that has what it names; calls to the right
 daemon, and SQL, succeed unless a failure is passed in.
 */
module PeeringModel {
  import opened Wrappers
  import opened Nftables
  import opened FirewallCompiler
  import opened RuleTable

  const MAX_NETWORKS_PER_USER := 10
  const MAX_MEMBERS_PER_NETWORK := 20
  const MAX_PEERINGS_PER_USER := 10
  const MAX_RULES_PER_PEERING := 20

  /** `docker` says that the Docker network has been created, and on which daemon. */
  datatype Network = Network(owner: nat, server: Option<nat>, docker: Option<nat>, subnet: Option<string>)

  /** `leaving` says that the database is being deleted: its container is off the Docker networks it
      was on, and its row and memberships are still there. */
  datatype Database = Database(
    owner: nat, server: Option<nat>, running: bool, container: Option<nat>, leaving: bool)

  datatype PeeringStatus = Pending | Active | Failed

  /** `bridge` says that a bridge id is recorded; the bridge itself is named after the peering, and is
      on the daemon of the peering's server. */
  datatype Peering = Peering(
    owner: nat, netA: nat, netB: nat, server: Option<nat>, status: PeeringStatus, bridge: bool)

  /** What the task that activates a peering has been given. */
  datatype Task = Task(netA: nat, netB: nat, server: Option<nat>)

  /** `daemons` says which daemon a remote server's address leads to. */
  datatype State = State(
    daemons: map<nat, nat>,
    networks: map<nat, Network>,
    databases: Databases,
    members: Members,
    peerings: Peerings,
    activating: map<string, Task>,
    dockerNets: map<nat, set<nat>>,
    bridges: Bridges,
    rules: seq<RuleRow>,
    ruleset: Ruleset)

  // ---- Queries ----

  type Members = set<(nat, nat)>

  type Databases = map<nat, Database>

  type Peerings = map<string, Peering>

  type Bridges = map<string, set<nat>>

  // The daemon of the platform's own host.
  const PLATFORM := 0

  /** The daemon a call for this server addresses. No server means the platform's own daemon, and so
      does a server whose address is the local socket. */
  function DaemonOf(daemons: map<nat, nat>, server: Option<nat>): nat {
    if server.Some? && server.value in daemons then daemons[server.value] else PLATFORM
  }

  /** The databases whose containers are on one daemon. */
  function Hosted(databases: Databases, daemons: map<nat, nat>, daemon: nat): Databases {
    map d | d in databases && DaemonOf(daemons, databases[d].server) == daemon :: databases[d]
  }

  predicate HasContainer(databases: Databases, db: nat) {
    db in databases && databases[db].container.Some?
  }

  /** The containers of the databases that are members of one of `nets`. */
  function Containers(members: Members, databases: Databases, nets: set<nat>): set<nat> {
    set m | m in members && m.0 in nets && HasContainer(databases, m.1) :: databases[m.1].container.value
  }

  function MembersOf(members: Members, net: nat): Members {
    set m | m in members && m.0 == net
  }

  predicate Involves(peering: Peering, net: nat) {
    peering.netA == net || peering.netB == net
  }

  function PeeringsOf(peerings: Peerings, net: nat): set<string> {
    set q | q in peerings && Involves(peerings[q], net)
  }

  /** In whichever order the two networks are named. */
  predicate PeeringExists(peerings: Peerings, a: nat, b: nat) {
    exists q :: q in peerings && {peerings[q].netA, peerings[q].netB} == {a, b}
  }

  function NetworksOwned(networks: map<nat, Network>, user: nat): set<nat> {
    set n | n in networks && networks[n].owner == user
  }

  function PeeringsOwned(peerings: Peerings, user: nat): set<string> {
    set q | q in peerings && peerings[q].owner == user
  }

  /** The active peerings of a network, whose bridges attach and detach keep in step. */
  predicate Synced(peerings: Peerings, q: string, net: nat) {
    q in peerings && Involves(peerings[q], net) && peerings[q].status == Active && peerings[q].bridge
  }

  /** Those of them whose bridge is on the daemon addressed. */
  predicate Reached(daemons: map<nat, nat>, peerings: Peerings, q: string, net: nat, daemon: nat) {
    Synced(peerings, q, net) && DaemonOf(daemons, peerings[q].server) == daemon
  }

  function SubnetOf(networks: map<nat, Network>, net: nat): Option<string> {
    if net in networks then networks[net].subnet else None
  }

  function SidesOf(networks: map<nat, Network>, peering: Peering): Sides {
    Sides(peering.netA, SubnetOf(networks, peering.netA), SubnetOf(networks, peering.netB))
  }

  // ---- Handlers ----

  function CreateNetwork(s: State, user: nat, id: nat): (State, Result<Unit>) {
    if MAX_NETWORKS_PER_USER <= |NetworksOwned(s.networks, user)| then (s, Err(BadRequest))
    else (s.(networks := s.networks[id := Network(user, None, None, None)]), Ok(Unit))
  }

  function CheckAttach(s: State, user: nat, net: nat, db: nat): Result<Unit> {
    if net !in s.networks then Err(NotFound)
    else if s.networks[net].owner != user then Err(Forbidden)
    else if db !in s.databases then Err(NotFound)
    else if s.databases[db].owner != user then Err(Forbidden)
    else if !s.databases[db].running then Err(BadRequest)
    else if s.databases[db].container.None? then Err(BadRequest)
    else if s.networks[net].server.Some? && s.databases[db].server != s.networks[net].server then Err(BadRequest)
    else if (net, db) in s.members then Err(Conflict)
    else if MAX_MEMBERS_PER_NETWORK <= |MembersOf(s.members, net)| then Err(BadRequest)
    else Ok(Unit)
  }

  /** What Docker answers to the two calls of an attachment whose failure ends it: whether the network
      could be made, with which subnet, and whether the container could be connected. */
  datatype Reply = Reply(made: bool, subnet: Option<string>, connected: bool)

  /** A network without a server takes its first remote member's. */
  function Placed(network: Network, db: Database): Network {
    if network.server.None? then network.(server := db.server) else network
  }

  /** The network's server and, if it has none yet, its Docker network on that server's daemon. The row
      with the server is written before Docker is asked. */
  function PrepareNetwork(s: State, net: nat, db: nat, reply: Reply): (State, Result<Unit>)
    requires net in s.networks && db in s.databases
  {
    var placed := Placed(s.networks[net], s.databases[db]);
    if placed.docker.Some? then (s.(networks := s.networks[net := placed]), Ok(Unit))
    else if !reply.made then (s.(networks := s.networks[net := placed]), Err(Docker))
    else
      var ready := placed.(docker := Some(DaemonOf(s.daemons, placed.server)), subnet := reply.subnet);
      (s.(networks := s.networks[net := ready], dockerNets := s.dockerNets[net := {}]), Ok(Unit))
  }

  /** The Docker network is on the daemon that the network's server leads to. */
  predicate Settled(daemons: map<nat, nat>, networks: map<nat, Network>, net: nat) {
    net in networks && networks[net].docker == Some(DaemonOf(daemons, networks[net].server))
  }

  function AttachToBridges(
    daemons: map<nat, nat>, peerings: Peerings, bridges: Bridges, net: nat, daemon: nat, container: nat): Bridges
  {
    map q | q in bridges
      :: if Reached(daemons, peerings, q, net, daemon) then bridges[q] + {container} else bridges[q]
  }

  function DetachFromBridges(
    daemons: map<nat, nat>, peerings: Peerings, bridges: Bridges, net: nat, daemon: nat, container: nat): Bridges
  {
    map q | q in bridges
      :: if Reached(daemons, peerings, q, net, daemon) then bridges[q] - {container} else bridges[q]
  }

  function Join(s: State, net: nat, db: nat): State
    requires net in s.networks && HasContainer(s.databases, db)
  {
    var container := s.databases[db].container.value;
    s.(dockerNets := s.dockerNets[net := (if net in s.dockerNets then s.dockerNets[net] else {}) + {container}],
       members := s.members + {(net, db)},
       bridges := AttachToBridges(s.daemons, s.peerings, s.bridges, net,
                                  DaemonOf(s.daemons, s.networks[net].server), container))
  }

  /** A call that Docker refuses ends the attachment, and what has been written by then stays. A Docker
      network on another daemon is one the daemon addressed does not know. */
  function AttachDatabase(s: State, user: nat, net: nat, db: nat, reply: Reply): (State, Result<Unit>) {
    var check := CheckAttach(s, user, net, db);
    if check.Err? then (s, check)
    else
      var (t, prepared) := PrepareNetwork(s, net, db, reply);
      if prepared.Err? then (t, prepared)
      else if !Settled(t.daemons, t.networks, net) || !reply.connected then (t, Err(Docker))
      else (Join(t, net, db), Ok(Unit))
  }

  /** Whether detaching finds a container and a Docker network to act on. */
  predicate ReachesDocker(s: State, net: nat, db: nat) {
    HasDocker(s.networks, net) && HasContainer(s.databases, db)
  }

  predicate HasDocker(networks: map<nat, Network>, net: nat) {
    net in networks && networks[net].docker.Some?
  }

  /** Membership is not checked: the container leaves the network and its bridges either way, as far as
      they are on the daemon of the network's server. */
  function DetachDatabase(s: State, user: nat, net: nat, db: nat): (State, Result<Unit>) {
    if net !in s.networks then (s, Err(NotFound))
    else if s.networks[net].owner != user then (s, Err(Forbidden))
    else if ReachesDocker(s, net, db) then
      var container := s.databases[db].container.value;
      (s.(dockerNets := if net in s.dockerNets && Settled(s.daemons, s.networks, net)
                        then s.dockerNets[net := s.dockerNets[net] - {container}] else s.dockerNets,
          bridges := DetachFromBridges(s.daemons, s.peerings, s.bridges, net,
                                       DaemonOf(s.daemons, s.networks[net].server), container),
          members := s.members - {(net, db)}),
       Ok(Unit))
    else
      (s.(members := s.members - {(net, db)}), Ok(Unit))
  }

  function CheckPeering(s: State, user: nat, a: nat, b: nat): Result<Unit> {
    if a == b then Err(BadRequest)
    else if a !in s.networks then Err(NotFound)
    else if s.networks[a].owner != user then Err(Forbidden)
    else if b !in s.networks then Err(NotFound)
    else if s.networks[b].owner != user then Err(Forbidden)
    else if s.networks[a].server.Some? && s.networks[b].server.Some? && s.networks[a].server != s.networks[b].server
    then Err(BadRequest)
    else if PeeringExists(s.peerings, a, b) then Err(Conflict)
    else if MAX_PEERINGS_PER_USER <= |PeeringsOwned(s.peerings, user)| then Err(BadRequest)
    else Ok(Unit)
  }

  /** The first network's server, or the second's where that has none. */
  function PeeringServer(networks: map<nat, Network>, a: nat, b: nat): Option<nat>
    requires a in networks && b in networks
  {
    if networks[a].server.Some? then networks[a].server else networks[b].server
  }

  /** The row is inserted and a task is spawned that will activate it. */
  function CreatePeering(s: State, user: nat, a: nat, b: nat, id: string): (State, Result<Unit>) {
    var check := CheckPeering(s, user, a, b);
    if check.Err? then (s, check)
    else
      var server := PeeringServer(s.networks, a, b);
      (s.(peerings := s.peerings[id := Peering(user, a, b, server, Pending, false)],
          activating := s.activating[id := Task(a, b, server)]),
       Ok(Unit))
  }

  /** The spawned task. It works from the networks and the server it was given, and connects the members
      whose containers are on that server's daemon; its updates of the peering row reach nothing when
      the row is gone. `created` says whether Docker made the bridge. */
  function Activate(s: State, id: string, created: bool): State {
    if id !in s.activating then s
    else
      var task := s.activating[id];
      var daemon := DaemonOf(s.daemons, task.server);
      var done := s.(activating := s.activating - {id});
      if !created then
        if id in s.peerings then done.(peerings := s.peerings[id := s.peerings[id].(status := Failed)]) else done
      else
        var bridged := done.(bridges := s.bridges[id :=
                                   Containers(s.members, Hosted(s.databases, s.daemons, daemon), {task.netA, task.netB})]);
        if id in s.peerings
        then bridged.(peerings := s.peerings[id := s.peerings[id].(status := Active, bridge := true)])
        else bridged
  }

  predicate Bridged(peerings: Peerings, q: string) {
    q in peerings && peerings[q].bridge
  }

  // What is left on a bridge once the members of both networks have been detached.
  function LeftOn(s: State, q: string): set<nat>
    requires q in s.peerings && q in s.bridges
  {
    s.bridges[q] - Containers(s.members, s.databases, {s.peerings[q].netA, s.peerings[q].netB})
  }

  function BridgesWithout(s: State, gone: set<string>): Bridges {
    map q | q in s.bridges && !(q in gone && Bridged(s.peerings, q) && LeftOn(s, q) == {})
      :: if q in gone && Bridged(s.peerings, q) then LeftOn(s, q) else s.bridges[q]
  }

  function TablesOf(peerings: Peerings, gone: set<string>): set<string> {
    set q | q in gone && Bridged(peerings, q) :: TableName(q)
  }

  /** Peerings removed with all that hangs on them: firewall tables, containers on their bridges,
      the bridges themselves where nothing is left on them (Docker refuses otherwise), rows, and
      by cascade the rules. */
  function RemovePeerings(s: State, gone: set<string>): State {
    s.(ruleset := s.ruleset - TablesOf(s.peerings, gone),
       bridges := BridgesWithout(s, gone),
       peerings := s.peerings - gone,
       rules := DropRules(s.rules, gone))
  }

  function DeletePeering(s: State, user: nat, id: string): (State, Result<Unit>) {
    if id !in s.peerings then (s, Err(NotFound))
    else if s.peerings[id].owner != user then (s, Err(Forbidden))
    else (RemovePeerings(s, {id}), Ok(Unit))
  }

  function DeleteNetwork(s: State, user: nat, net: nat): (State, Result<Unit>) {
    if net !in s.networks then (s, Err(NotFound))
    else if s.networks[net].owner != user then (s, Err(Forbidden))
    else
      var bare := RemovePeerings(s, PeeringsOf(s.peerings, net));
      var left := if net in s.dockerNets then s.dockerNets[net] - Containers(s.members, s.databases, {net}) else {};
      (bare.(networks := s.networks - {net},
             members := s.members - MembersOf(s.members, net),
             dockerNets := if !Settled(s.daemons, s.networks, net) then s.dockerNets
                           else if left == {} then s.dockerNets - {net}
                           else s.dockerNets[net := left]),
       Ok(Unit))
  }

  datatype RuleRequest = RuleRequest(
    action: string, sourceNet: nat, destNet: nat, port: Option<int>, protocol: Option<string>, priority: Option<int>)

  function CountRules(rules: seq<RuleRow>, peering: string): nat {
    |RulesOf(rules, peering)|
  }

  function CheckRule(s: State, user: nat, id: string, request: RuleRequest): Result<Unit> {
    if id !in s.peerings then Err(NotFound)
    else if s.peerings[id].owner != user then Err(Forbidden)
    else if request.action != "allow" && request.action != "deny" then Err(BadRequest)
    else if !Involves(s.peerings[id], request.sourceNet) then Err(BadRequest)
    else if !Involves(s.peerings[id], request.destNet) then Err(BadRequest)
    else if request.port.Some? && !(0 < request.port.value < 65536) then Err(BadRequest)
    else if request.protocol.Some? && request.protocol.value != "tcp" && request.protocol.value != "udp"
    then Err(BadRequest)
    else if MAX_RULES_PER_PEERING <= CountRules(s.rules, id) then Err(BadRequest)
    else Ok(Unit)
  }

  function RowFor(id: string, request: RuleRequest, rule: nat, now: int): RuleRow {
    RuleRow(rule, id, if request.priority.Some? then request.priority.value else 100,
            request.action, request.sourceNet, request.destNet, request.port, request.protocol, now)
  }

  /** Recompiling a peering's stored rules; a rejected list leaves the host alone and fails. */
  ghost function Reapply(s: State, id: string): (State, Result<Unit>)
    requires id in s.peerings
  {
    var rules := ToRules(SidesOf(s.networks, s.peerings[id]), RulesOf(s.rules, id));
    if ValidInput(id, BridgeName(id), rules)
    then (s.(ruleset := ExecuteAll(Script(id, BridgeName(id), rules), s.ruleset)), Ok(Unit))
    else (s, Err(BadRequest))
  }

  /** The host is told only while the peering is active. */
  ghost function CreateRule(s: State, user: nat, id: string, request: RuleRequest, rule: nat, now: int)
    : (State, Result<Unit>)
  {
    var check := CheckRule(s, user, id, request);
    if check.Err? then (s, check)
    else
      var stored := s.(rules := s.rules + [RowFor(id, request, rule, now)]);
      if s.peerings[id].status == Active then Reapply(stored, id) else (stored, Ok(Unit))
  }

  ghost function DeleteStoredRule(s: State, user: nat, id: string, rule: nat): (State, Result<Unit>) {
    if id !in s.peerings then (s, Err(NotFound))
    else if s.peerings[id].owner != user then (s, Err(Forbidden))
    else if !exists i :: 0 <= i < |s.rules| && s.rules[i].id == rule && s.rules[i].peering == id then (s, Err(NotFound))
    else
      var stored := s.(rules := DeleteRule(s.rules, rule));
      if s.peerings[id].status == Active then Reapply(stored, id) else (stored, Ok(Unit))
  }

  // ---- What the database routes do to these tables ----

  function AddDatabase(s: State, db: nat, row: Database): State {
    s.(databases := s.databases[db := row])
  }

  function SetRunning(s: State, db: nat, running: bool): State {
    if db in s.databases then s.(databases := s.databases[db := s.databases[db].(running := running)]) else s
  }

  /** The networks a database belongs to that have a Docker network on its server's daemon. */
  predicate OnDocker(s: State, net: nat, db: nat) {
    && (net, db) in s.members && net in s.networks && db in s.databases
    && s.networks[net].docker == Some(DaemonOf(s.daemons, s.databases[db].server))
  }

  /** A delete request: the row is marked and the container leaves its Docker networks, not its
      peering bridges; a spawned cleanup is to remove the rest. */
  function DeleteDatabase(s: State, user: nat, db: nat): (State, Result<Unit>) {
    if db !in s.databases then (s, Err(NotFound))
    else if s.databases[db].owner != user then (s, Err(Forbidden))
    else
      var gone := if s.databases[db].container.Some? then {s.databases[db].container.value} else {};
      (s.(databases := s.databases[db := s.databases[db].(running := false, leaving := true)],
          dockerNets := map n | n in s.dockerNets
                          :: if OnDocker(s, n, db) then s.dockerNets[n] - gone else s.dockerNets[n]),
       Ok(Unit))
  }

  /** The cleanup, and an administrator's delete. Removing a container takes it off every Docker
      network; the row's memberships cascade. */
  function RemoveDatabase(s: State, db: nat): State {
    if db !in s.databases then s
    else
      var gone := if s.databases[db].container.Some? then {s.databases[db].container.value} else {};
      s.(databases := s.databases - {db},
         members := (set m | m in s.members && m.1 != db),
         dockerNets := map n | n in s.dockerNets :: s.dockerNets[n] - gone,
         bridges := map q | q in s.bridges :: s.bridges[q] - gone)
  }
}
