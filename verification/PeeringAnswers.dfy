/**
 What the network and peering routes answer and what they then leave behind, spelled out row by row
 and container by container.
 */
module PeeringAnswers {
  import opened Wrappers
  import opened Nftables
  import opened FirewallCompiler
  import opened RuleTable
  import opened PeeringModel
  import opened PeeringSafety

  // ---- Refusals ----

  /** A network or database that is not there is not found, one of somebody else is forbidden, and a member again
      is a conflict; every other refusal is a bad request. */
  lemma AttachRefusals(s: State, user: nat, net: nat, db: nat)
    ensures var result := CheckAttach(s, user, net, db);
            var ownNet := net in s.networks && s.networks[net].owner == user;
            var ownDb := db in s.databases && s.databases[db].owner == user;
            && (result == Err(NotFound) <==> net !in s.networks || (ownNet && db !in s.databases))
            && (result == Err(Forbidden) <==>
                  net in s.networks && (ownNet ==> db in s.databases && !ownDb))
            && (result == Err(Conflict) <==>
                  && ownNet && ownDb && s.databases[db].running && s.databases[db].container.Some?
                  && s.networks[net].server in {None, s.databases[db].server} && (net, db) in s.members)
            && (result.Err? ==> result.error in {NotFound, Forbidden, Conflict, BadRequest})
  {
    hide MembersOf;
  }

  /** Likewise for a peering request, where a second one for the same two networks is the conflict. */
  lemma PeeringRefusals(s: State, user: nat, a: nat, b: nat)
    ensures var result := CheckPeering(s, user, a, b);
            var ownA, ownB := a in s.networks && s.networks[a].owner == user, b in s.networks && s.networks[b].owner == user;
            && (result == Err(NotFound) <==> a != b && (a !in s.networks || (ownA && b !in s.networks)))
            && (result == Err(Forbidden) <==> a != b && a in s.networks && (ownA ==> b in s.networks && !ownB))
            && (result == Err(Conflict) <==>
                  && a != b && ownA && ownB
                  && (s.networks[a].server == s.networks[b].server || None in {s.networks[a].server, s.networks[b].server})
                  && exists q :: q in s.peerings && {s.peerings[q].netA, s.peerings[q].netB} == {a, b})
            && (result.Err? ==> result.error in {NotFound, Forbidden, Conflict, BadRequest})
  {
    hide PeeringsOwned;
  }

  /** And for a rule: the peering is looked at before anything that is asked. */
  lemma RuleRefusals(s: State, user: nat, id: string, request: RuleRequest)
    ensures var result := CheckRule(s, user, id, request);
            && (result == Err(NotFound) <==> id !in s.peerings)
            && (result == Err(Forbidden) <==> id in s.peerings && s.peerings[id].owner != user)
            && (result.Err? ==> result.error in {NotFound, Forbidden, BadRequest})
  {
    hide CountRules, Involves;
  }

  // ---- Attaching and detaching ----

  /** Past the checks the network's row is written whatever Docker says: it is on the database's server; its Docker
      network, if it had none and Docker makes it, is on that server's daemon, with the subnet Docker reports. The
      container joins exactly the bridges of the network's active peerings on that daemon, if it joins at all. */
  lemma AttachWrites(s: State, user: nat, net: nat, db: nat, reply: Reply)
    requires CheckAttach(s, user, net, db).Ok?
    ensures net in s.networks && HasContainer(s.databases, db)
    ensures var (t, result) := AttachDatabase(s, user, net, db, reply);
            var row, home := s.networks[net], DaemonOf(s.daemons, s.databases[db].server);
            var makes := row.docker.None? && reply.made;
            && t.networks == s.networks[net :=
                 Network(row.owner, s.databases[db].server, if makes then Some(home) else row.docker,
                         if makes then reply.subnet else row.subnet)]
            && t.bridges.Keys == s.bridges.Keys
            && forall q :: q in s.bridges ==>
                 t.bridges[q]
                 == s.bridges[q]
                    + if result.Ok? && q in s.peerings && net in {s.peerings[q].netA, s.peerings[q].netB}
                         && s.peerings[q].status == Active && s.peerings[q].bridge
                         && DaemonOf(s.daemons, s.peerings[q].server) == home
                      then {s.databases[db].container.value} else {}
  {
    AttachChanges(s, user, net, db, reply);
    var p := PrepareNetwork(s, net, db, reply).0;
    if AttachDatabase(s, user, net, db, reply).1.Ok? {
      JoinedBridges(p, net, db);
    }
    hide AttachDatabase, PrepareNetwork, Join, CheckAttach;
    assert p.networks[net] == p.networks[net].(owner := s.networks[net].owner);
  }

  lemma JoinedBridges(p: State, net: nat, db: nat)
    requires net in p.networks && HasContainer(p.databases, db)
    ensures var t, home := Join(p, net, db), DaemonOf(p.daemons, p.networks[net].server);
            && t.networks == p.networks && t.bridges.Keys == p.bridges.Keys
            && forall q :: q in p.bridges ==>
                 t.bridges[q]
                 == p.bridges[q]
                    + if q in p.peerings && net in {p.peerings[q].netA, p.peerings[q].netB}
                         && p.peerings[q].status == Active && p.peerings[q].bridge
                         && DaemonOf(p.daemons, p.peerings[q].server) == home
                      then {p.databases[db].container.value} else {}
  {
  }

  function ContainerOf(s: State, db: nat): set<nat> {
    if db in s.databases && s.databases[db].container.Some? then {s.databases[db].container.value} else {}
  }

  /** A detach is accepted on the user's own network. The membership goes in any case; the container leaves the Docker
      network and the bridges of the network's active peerings, as far as they are on the daemon that the
      network's server leads to, once the network has a Docker network. */
  lemma DetachedIff(s: State, user: nat, net: nat, db: nat)
    ensures var (t, result) := DetachDatabase(s, user, net, db);
            && (result == Err(NotFound) <==> net !in s.networks)
            && (result == Err(Forbidden) <==> net in s.networks && s.networks[net].owner != user)
            && (result.Ok? <==> net in s.networks && s.networks[net].owner == user)
            && (result.Err? ==> t == s)
            && (result.Ok? ==>
                  && t == s.(members := s.members - {(net, db)}, dockerNets := t.dockerNets, bridges := t.bridges)
                  && t.dockerNets.Keys == s.dockerNets.Keys && t.bridges.Keys == s.bridges.Keys)
    ensures var t, home := DetachDatabase(s, user, net, db).0, if net in s.networks then s.networks[net].server else None;
            DetachDatabase(s, user, net, db).1.Ok? ==>
              && (forall n :: n in s.dockerNets ==>
                    t.dockerNets[n]
                    == if n == net && s.networks[net].docker == Some(DaemonOf(s.daemons, home))
                       then s.dockerNets[n] - ContainerOf(s, db) else s.dockerNets[n])
              && (forall q :: q in s.bridges ==>
                    t.bridges[q]
                    == if s.networks[net].docker.Some? && q in s.peerings && net in {s.peerings[q].netA, s.peerings[q].netB}
                          && s.peerings[q].status == Active && s.peerings[q].bridge
                          && DaemonOf(s.daemons, s.peerings[q].server) == DaemonOf(s.daemons, home)
                       then s.bridges[q] - ContainerOf(s, db) else s.bridges[q])
  {
  }

  // ---- Peerings ----

  /** The task activates the peering, with the members of the two networks that run on its server's daemon on the
      bridge, or marks it failed; a peering deleted meanwhile is not brought back. */
  lemma ActivationDoes(s: State, id: string, created: bool)
    requires id in s.activating
    ensures var t, task := Activate(s, id, created), s.activating[id];
            && t == s.(activating := s.activating - {id}, peerings := t.peerings, bridges := t.bridges)
            && t.peerings
               == (if id !in s.peerings then s.peerings
                   else s.peerings[id :=
                          if created then s.peerings[id].(status := Active, bridge := true)
                          else s.peerings[id].(status := Failed)])
            && (if created then t.bridges == s.bridges[id := t.bridges[id]] && id in t.bridges else t.bridges == s.bridges)
            && (created ==> forall c :: c in t.bridges[id] <==>
                  exists m :: m in s.members && m.0 in {task.netA, task.netB} && m.1 in s.databases
                              && s.databases[m.1].container == Some(c)
                              && DaemonOf(s.daemons, s.databases[m.1].server) == DaemonOf(s.daemons, task.server))
  {
    if created {
      var task := s.activating[id];
      HostedContainers(s, {task.netA, task.netB}, DaemonOf(s.daemons, task.server));
      hide Containers, Hosted;
    }
  }

  lemma HostedContainers(s: State, nets: set<nat>, daemon: nat)
    ensures forall c :: c in Containers(s.members, Hosted(s.databases, s.daemons, daemon), nets) <==>
      exists m :: m in s.members && m.0 in nets && m.1 in s.databases && s.databases[m.1].container == Some(c)
                  && DaemonOf(s.daemons, s.databases[m.1].server) == daemon
  {
    hide DaemonOf;
    var hosted := Hosted(s.databases, s.daemons, daemon);
    forall c ensures c in Containers(s.members, hosted, nets) <==>
      exists m :: m in s.members && m.0 in nets && m.1 in s.databases && s.databases[m.1].container == Some(c)
                  && DaemonOf(s.daemons, s.databases[m.1].server) == daemon
    {
      if m :| m in s.members && m.0 in nets && m.1 in s.databases && s.databases[m.1].container == Some(c)
              && DaemonOf(s.daemons, s.databases[m.1].server) == daemon {
        assert HasContainer(hosted, m.1) && hosted[m.1].container.value == c;
      }
    }
  }

  /** What removing some peerings leaves: the rows and rules of all others, their bridges and tables. Of those removed
      that were active, the table is gone, the members of both networks are off the bridge, and the bridge
      is gone once nothing is left on it. */
  ghost predicate Gone(s: State, t: State, gone: set<string>) {
    && t.peerings == s.peerings - gone
    && (forall row :: row in t.rules <==> row in s.rules && row.peering !in gone)
    && (forall name :: name in t.ruleset <==>
          name in s.ruleset && !exists q :: q in gone && q in s.peerings && s.peerings[q].bridge && name == TableName(q))
    && (forall name :: name in t.ruleset ==> t.ruleset[name] == s.ruleset[name])
    && (forall q :: q in t.bridges ==> q in s.bridges)
    && (forall q :: q in s.bridges && !(q in gone && q in s.peerings && s.peerings[q].bridge) ==>
          q in t.bridges && t.bridges[q] == s.bridges[q])
    && (forall q :: q in s.bridges && q in gone && q in s.peerings && s.peerings[q].bridge ==>
          var left := s.bridges[q] - Containers(s.members, s.databases, {s.peerings[q].netA, s.peerings[q].netB});
          if left == {} then q !in t.bridges else q in t.bridges && t.bridges[q] == left)
  }

  lemma RemovedAreGone(s: State, gone: set<string>)
    ensures Gone(s, RemovePeerings(s, gone), gone)
    ensures var t := RemovePeerings(s, gone);
            t == s.(peerings := t.peerings, rules := t.rules, ruleset := t.ruleset, bridges := t.bridges)
  {
    hide Containers, TableName;
    forall row ensures row in DropRules(s.rules, gone) <==> row in s.rules && row.peering !in gone {
      DroppedRow(s.rules, gone, row);
    }
  }

  lemma PeeringDeletedIff(s: State, user: nat, id: string)
    ensures var (t, result) := DeletePeering(s, user, id);
            && (result == Err(NotFound) <==> id !in s.peerings)
            && (result == Err(Forbidden) <==> id in s.peerings && s.peerings[id].owner != user)
            && (result.Ok? <==> id in s.peerings && s.peerings[id].owner == user)
            && (result.Err? ==> t == s)
            && (result.Ok? ==>
                  && t == s.(peerings := t.peerings, rules := t.rules, ruleset := t.ruleset, bridges := t.bridges)
                  && Gone(s, t, {id}))
  {
    RemovedAreGone(s, {id});
    hide RemovePeerings, Gone;
  }

  /** Deleting a network takes its peerings, with all that hangs on them, and its memberships with it, and its members
      off its Docker network, which goes once nothing is left on it, if that is where its server leads. */
  lemma NetworkDeletedIff(s: State, user: nat, net: nat)
    ensures var (t, result) := DeleteNetwork(s, user, net);
            && (result == Err(NotFound) <==> net !in s.networks)
            && (result == Err(Forbidden) <==> net in s.networks && s.networks[net].owner != user)
            && (result.Ok? <==> net in s.networks && s.networks[net].owner == user)
            && (result.Err? ==> t == s)
            && (result.Ok? ==>
                  && t.daemons == s.daemons && t.databases == s.databases && t.activating == s.activating
                  && t.networks == s.networks - {net} && (forall m :: m in t.members <==> m in s.members && m.0 != net)
                  && Gone(s, t, set q | q in s.peerings && net in {s.peerings[q].netA, s.peerings[q].netB}))
    ensures var (t, result) := DeleteNetwork(s, user, net);
            result.Ok? ==>
              var left := if net in s.dockerNets then s.dockerNets[net] - Containers(s.members, s.databases, {net}) else {};
              t.dockerNets
              == if s.networks[net].docker != Some(DaemonOf(s.daemons, s.networks[net].server)) then s.dockerNets
                 else if left == {} then s.dockerNets - {net} else s.dockerNets[net := left]
  {
    var gone := set q | q in s.peerings && net in {s.peerings[q].netA, s.peerings[q].netB};
    assert gone == PeeringsOf(s.peerings, net);
    RemovedAreGone(s, gone);
    if DeleteNetwork(s, user, net).1.Ok? {
      SameGone(s, RemovePeerings(s, gone), DeleteNetwork(s, user, net).0, gone);
    }
    hide RemovePeerings, Gone, PeeringsOf, Containers;
  }

  lemma SameGone(s: State, t: State, u: State, gone: set<string>)
    requires Gone(s, t, gone)
    requires u.peerings == t.peerings && u.rules == t.rules && u.ruleset == t.ruleset && u.bridges == t.bridges
    ensures Gone(s, u, gone)
  {
  }

  // ---- Rules ----

  /** A rule is deleted if and only if the peering is the user's and has it; the rows left are all others. The host is
      recompiled if and only if the peering is active. */
  lemma RuleDeletedIff(s: State, user: nat, id: string, rule: nat)
    ensures var (t, result) := DeleteStoredRule(s, user, id, rule);
            var own := id in s.peerings && s.peerings[id].owner == user;
            var has := exists row :: row in s.rules && row.id == rule && row.peering == id;
            && (result == Err(Forbidden) <==> id in s.peerings && s.peerings[id].owner != user)
            && (result == Err(NotFound) <==> id !in s.peerings || (own && !has))
            && (!(own && has) ==> t == s)
            && (own && has ==>
                  && (forall row :: row in t.rules <==> row in s.rules && row.id != rule)
                  && (s.peerings[id].status != Active ==> t == s.(rules := t.rules) && result.Ok?))
  {
    hide DeleteRule, ToRules, RulesOf, Script, ValidInput, SidesOf, TableName, BridgeName, ExecuteAll;
    RowThere(s.rules, id, rule);
    forall row ensures row in DeleteRule(s.rules, rule) <==> row in s.rules && row.id != rule {
      DeletedRow(s.rules, rule, row);
    }
  }

  lemma RowThere(rules: seq<RuleRow>, id: string, rule: nat)
    ensures (exists row :: row in rules && row.id == rule && row.peering == id)
            <==> exists i :: 0 <= i < |rules| && rules[i].id == rule && rules[i].peering == id
  {
    if row :| row in rules && row.id == rule && row.peering == id {
      var i :| 0 <= i < |rules| && rules[i] == row;
    }
  }

  // ---- Databases ----

  /** A delete request marks the row and takes the container off the Docker networks of the database's memberships
      that are on its daemon; bridges and memberships stay. */
  lemma LeaveIff(s: State, user: nat, db: nat)
    ensures var (t, result) := DeleteDatabase(s, user, db);
            && (result == Err(NotFound) <==> db !in s.databases)
            && (result == Err(Forbidden) <==> db in s.databases && s.databases[db].owner != user)
            && (result.Ok? <==> db in s.databases && s.databases[db].owner == user)
            && (result.Err? ==> t == s)
            && (result.Ok? ==>
                  && t == s.(databases := s.databases[db := s.databases[db].(running := false, leaving := true)],
                             dockerNets := t.dockerNets)
                  && t.dockerNets.Keys == s.dockerNets.Keys
                  && forall n :: n in s.dockerNets ==>
                       t.dockerNets[n]
                       == if (n, db) in s.members && n in s.networks
                             && s.networks[n].docker == Some(DaemonOf(s.daemons, s.databases[db].server))
                          then s.dockerNets[n] - ContainerOf(s, db) else s.dockerNets[n])
  {
  }

  /** A start or stop sets what an attachment looks at: from then on the database may join a network if and only if it
      was started, as far as that goes, and nothing else has changed. */
  lemma OnlyTheRunningJoin(s: State, user: nat, net: nat, db: nat, running: bool)
    requires db in s.databases
    ensures var t := SetRunning(s, db, running);
            && t == s.(databases := t.databases) && t.databases == s.databases[db := s.databases[db].(running := running)]
            && (running && CheckAttach(s, user, net, db).Ok? ==> CheckAttach(t, user, net, db).Ok?)
            && (!running ==> CheckAttach(t, user, net, db).Err?)
  {
    hide MembersOf;
  }

  /** The cleanup leaves no trace of a database: row, memberships, places on Docker networks and bridges. */
  lemma CleanupLeavesNoTrace(s: State, db: nat)
    ensures var t := RemoveDatabase(s, db);
            && t == s.(databases := s.databases - {db}, members := t.members, dockerNets := t.dockerNets, bridges := t.bridges)
            && t.dockerNets.Keys == s.dockerNets.Keys && t.bridges.Keys == s.bridges.Keys
            && (db in s.databases ==> forall m :: m in t.members <==> m in s.members && m.1 != db)
            && (forall n :: n in s.dockerNets ==> t.dockerNets[n] == s.dockerNets[n] - ContainerOf(s, db))
            && (forall q :: q in s.bridges ==> t.bridges[q] == s.bridges[q] - ContainerOf(s, db))
            && (db !in s.databases ==> t == s)
  {
    assert db !in s.databases ==> s.databases - {db} == s.databases;
  }
}
