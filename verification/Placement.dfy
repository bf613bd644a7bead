/** Choosing a Docker server for a new database, and what any run of such choices does to the servers. */
module Placement {
  import opened Arithmetic
  import opened Wrappers
  import opened DatabaseLifecycle

  /** `max` is the most containers the server takes. */
  datatype Server = Server(max: int, active: bool, client: bool)

  datatype Instance = Instance(server: Option<nat>, status: Status)

  type Servers = map<nat, Server>

  type Instances = map<nat, Instance>

  predicate Counted(status: Status) {
    status != Errored && status != Deleting
  }

  /** The databases a server is charged with. */
  function On(instances: Instances, server: nat): set<nat> {
    set id | id in instances && instances[id].server == Some(server) && Counted(instances[id].status)
  }

  function Free(servers: Servers, instances: Instances, server: nat): int
    requires server in servers
  {
    servers[server].max - |On(instances, server)|
  }

  predicate Open(servers: Servers, server: nat) {
    server in servers && servers[server].active && servers[server].client
  }

  /** A choice is an active client server with room and no less free than any other; there is none
      exactly when no active client server has room. */
  ghost predicate Best(servers: Servers, instances: Instances, choice: Option<nat>) {
    match choice
    case None => forall k :: Open(servers, k) ==> Free(servers, instances, k) <= 0
    case Some(b) =>
      && Open(servers, b) && 0 < Free(servers, instances, b)
      && forall k :: Open(servers, k) ==> Free(servers, instances, k) <= Free(servers, instances, b)
  }

  // The best of the rows looked at so far; of equally free servers the first row stays.
  function BestAmong(servers: Servers, instances: Instances, rows: seq<nat>): (choice: Option<nat>)
    ensures choice.Some? ==>
      choice.value in rows && Open(servers, choice.value) && 0 < Free(servers, instances, choice.value)
      && forall k :: k in rows && Open(servers, k) ==>
           Free(servers, instances, k) <= Free(servers, instances, choice.value)
    ensures choice.None? ==> forall k :: k in rows && Open(servers, k) ==> Free(servers, instances, k) <= 0
  {
    if rows == [] then None
    else
      var k := rows[|rows| - 1];
      var earlier := BestAmong(servers, instances, rows[..|rows| - 1]);
      assert rows == rows[..|rows| - 1] + [k];
      if Open(servers, k) && 0 < Free(servers, instances, k)
         && (earlier.None? || Free(servers, instances, earlier.value) < Free(servers, instances, k))
      then Some(k)
      else earlier
  }

  /** The query over all rows of the server table. */
  function SelectBestClientServer(servers: Servers, instances: Instances, rows: seq<nat>): (choice: Option<nat>)
    requires forall k :: k in servers ==> k in rows
    ensures Best(servers, instances, choice)
    ensures match choice
            case None => forall k :: k in servers && servers[k].active && servers[k].client ==>
              servers[k].max <= |On(instances, k)|
            case Some(b) =>
              && b in servers && servers[b].active && servers[b].client && |On(instances, b)| < servers[b].max
              && forall k :: k in servers && servers[k].active && servers[k].client ==>
                   servers[k].max - |On(instances, k)| <= servers[b].max - |On(instances, b)|
  {
    var choice := BestAmong(servers, instances, rows);
    assert Best(servers, instances, choice);
    assert forall k :: Open(servers, k) ==> Free(servers, instances, k) == servers[k].max - |On(instances, k)|;
    assert forall k :: k in servers && servers[k].active && servers[k].client ==> Open(servers, k);
    choice
  }

  // ---- Runs ----

  /** A database placed, where the query says or on a server asked for; a change of status; a row
      removed. */
  datatype Event =
    | Place(id: nat, choice: Option<nat>, automatic: bool)
    | Change(id: nat, status: Status)
    | Remove(id: nat)

  function Apply(instances: Instances, event: Event): Instances {
    match event
    case Place(id, choice, _) => instances[id := Instance(choice, Provisioning)]
    case Change(id, status) =>
      if id in instances then instances[id := instances[id].(status := status)] else instances
    case Remove(id) => instances - {id}
  }

  /** New rows have fresh ids. A server asked for must be an active client server below its maximum. */
  ghost predicate Valid(servers: Servers, instances: Instances, event: Event) {
    match event
    case Place(id, choice, automatic) =>
      id !in instances
      && if automatic then Best(servers, instances, choice)
         else choice.Some? && Open(servers, choice.value) && 0 < Free(servers, instances, choice.value)
    case _ => true
  }

  function Play(instances: Instances, events: seq<Event>): Instances {
    if events == [] then instances else Apply(Play(instances, events[..|events| - 1]), events[|events| - 1])
  }

  ghost predicate ValidRun(servers: Servers, instances: Instances, events: seq<Event>) {
    events == [] ||
    (ValidRun(servers, instances, events[..|events| - 1])
     && Valid(servers, Play(instances, events[..|events| - 1]), events[|events| - 1]))
  }

  lemma SubsetCount(a: set<nat>, b: set<nat>)
    requires a <= b
    ensures |a| <= |b|
  {
    assert b == a + (b - a);
  }

  /** What placing a database does to a server's load. */
  lemma Placed(instances: Instances, id: nat, choice: Option<nat>, automatic: bool, server: nat)
    requires id !in instances
    ensures |On(Apply(instances, Place(id, choice, automatic)), server)|
            == |On(instances, server)| + if choice == Some(server) then 1 else 0
  {
    var after := Apply(instances, Place(id, choice, automatic));
    assert On(after, server) == On(instances, server) + if choice == Some(server) then {id} else {};
  }

  /** A database charged to nobody, being deleted or in error, is set running or stopped again, on a
      server that is full. */
  predicate OverfillsBy(servers: Servers, instances: Instances, event: Event, server: nat)
    requires server in servers
  {
    && event.Change? && event.id in instances && instances[event.id].server == Some(server)
    && !Counted(instances[event.id].status) && Counted(event.status)
    && servers[server].max <= |On(instances, server)|
  }

  lemma Changed(instances: Instances, id: nat, status: Status, server: nat)
    ensures |On(Apply(instances, Change(id, status)), server)|
            == |On(instances, server)|
               + if id !in instances || instances[id].server != Some(server) then 0
                 else (if Counted(status) then 1 else 0) - (if Counted(instances[id].status) then 1 else 0)
  {
    var before, after := On(instances, server), On(Apply(instances, Change(id, status)), server);
    if id !in instances || instances[id].server != Some(server) || Counted(status) == Counted(instances[id].status) {
      assert after == before;
    } else if Counted(status) {
      assert after == before + {id};
    } else {
      assert before == after + {id};
    }
  }

  /** A server is charged with its databases that are being provisioned, running or stopped: only a failure or a
      delete gives a slot back, and only leaving those takes one. */
  lemma SlotsMoveIff(instances: Instances, id: nat, status: Status, server: nat)
    requires id in instances && instances[id].server == Some(server)
    ensures forall d :: d in On(instances, server)
                        <==> d in instances && instances[d].server == Some(server)
                             && instances[d].status in {Provisioning, Running, Stopped}
    ensures var held, holds := instances[id].status in {Provisioning, Running, Stopped},
                               status in {Provisioning, Running, Stopped};
            |On(Apply(instances, Change(id, status)), server)|
            == |On(instances, server)| + (if holds && !held then 1 else if held && !holds then -1 else 0)
  {
    Changed(instances, id, status, server);
  }

  lemma NoHeavier(instances: Instances, id: nat, server: nat)
    ensures |On(Apply(instances, Remove(id)), server)| <= |On(instances, server)|
  {
    SubsetCount(On(Apply(instances, Remove(id)), server), On(instances, server));
  }

  /** An event leaves a server above both its maximum and its load so far if and only if it revives a
      database on it while it is full: placements, failures and deletions never do. */
  lemma EventOverfillsIff(servers: Servers, instances: Instances, event: Event, server: nat)
    requires Valid(servers, instances, event) && server in servers
    ensures Max(|On(instances, server)|, servers[server].max) < |On(Apply(instances, event), server)|
            <==> OverfillsBy(servers, instances, event, server)
  {
    match event {
      case Place(id, choice, automatic) => Placed(instances, id, choice, automatic, server);
      case Change(id, status) => Changed(instances, id, status, server);
      case Remove(id) => NoHeavier(instances, id, server);
    }
  }

  ghost predicate NeverOverfills(servers: Servers, instances: Instances, events: seq<Event>, server: nat)
    requires server in servers
  {
    events == [] ||
    (NeverOverfills(servers, instances, events[..|events| - 1], server)
     && !OverfillsBy(servers, Play(instances, events[..|events| - 1]), events[|events| - 1], server))
  }

  /** No run of placements, automatic or asked for, failures, deletions and status changes pushes a
      server above its maximum as long as it revives nothing on it while it is full. */
  lemma {:induction false} PlacementNeverOverfills(
    servers: Servers, instances: Instances, events: seq<Event>, server: nat)
    requires ValidRun(servers, instances, events) && server in servers
    requires NeverOverfills(servers, instances, events, server)
    ensures |On(Play(instances, events), server)| <= Max(|On(instances, server)|, servers[server].max)
  {
    if events != [] {
      var n := |events| - 1;
      PlacementNeverOverfills(servers, instances, events[..n], server);
      EventOverfillsIff(servers, Play(instances, events[..n]), events[n], server);
    }
  }

  /** A run that does: a database is being deleted, another takes its place, and a container action sets
      the first running again. */
  lemma RevivingOverfills()
    ensures var servers := map[0 := Server(1, true, true)];
            var events := [Place(0, Some(0), true), Change(0, Deleting), Place(1, Some(0), true), Change(0, Running)];
            ValidRun(servers, map[], events) && |On(Play(map[], events), 0)| == 2
  {
    var servers := map[0 := Server(1, true, true)];
    var a, b, c, d := Place(0, Some(0), true), Change(0, Deleting), Place(1, Some(0), true), Change(0, Running);
    var none: Instances := map[];
    assert [a, b, c, d][..3] == [a, b, c] && [a, b, c][..2] == [a, b] && [a, b][..1] == [a] && [a][..0] == [];
    assert On(none, 0) == {};
    assert Play(none, [a]) == map[0 := Instance(Some(0), Provisioning)];
    assert Play(none, [a, b]) == map[0 := Instance(Some(0), Deleting)];
    assert On(Play(none, [a, b]), 0) == {};
    assert Play(none, [a, b, c]) == map[0 := Instance(Some(0), Deleting), 1 := Instance(Some(0), Provisioning)];
    assert On(Play(none, [a, b, c, d]), 0) == {0, 1};
    assert ValidRun(servers, none, [a, b]);
  }

  /** The free slots of any two active client servers differ by at most `d`. */
  ghost predicate SpreadAtMost(servers: Servers, instances: Instances, d: int) {
    forall j, k :: Open(servers, j) && Open(servers, k) ==>
      Free(servers, instances, j) - Free(servers, instances, k) <= d
  }

  ghost predicate AutomaticOnly(events: seq<Event>) {
    forall i :: 0 <= i < |events| ==> events[i].Place? && events[i].automatic
  }

  lemma PlacementKeepsSpread(servers: Servers, instances: Instances, id: nat, choice: Option<nat>, d: int)
    requires Valid(servers, instances, Place(id, choice, true)) && SpreadAtMost(servers, instances, d) && 1 <= d
    ensures SpreadAtMost(servers, Apply(instances, Place(id, choice, true)), d)
  {
    var after := Apply(instances, Place(id, choice, true));
    forall j, k | Open(servers, j) && Open(servers, k)
      ensures Free(servers, after, j) - Free(servers, after, k) <= d
    {
      Placed(instances, id, choice, true, j);
      Placed(instances, id, choice, true, k);
      assert Free(servers, instances, j) - Free(servers, instances, k) <= d;
    }
  }

  /** Automatic placements keep the load even: over any run of them the spread of free slots among active
      client servers never exceeds the larger of what it was and one. */
  lemma {:induction false} PlacementsKeepSpread(
    servers: Servers, instances: Instances, events: seq<Event>, d: int)
    requires ValidRun(servers, instances, events) && AutomaticOnly(events)
    requires SpreadAtMost(servers, instances, d)
    ensures SpreadAtMost(servers, Play(instances, events), Max(d, 1))
  {
    if events != [] {
      var n := |events| - 1;
      PlacementsKeepSpread(servers, instances, events[..n], d);
      PlacementKeepsSpread(servers, Play(instances, events[..n]), events[n].id, events[n].choice, Max(d, 1));
    }
  }

  // ---- All free slots are used before a choice fails ----

  function FreeSlots(servers: Servers, instances: Instances, among: seq<nat>): int {
    if among == [] then 0
    else
      var k := among[|among| - 1];
      FreeSlots(servers, instances, among[..|among| - 1])
      + if Open(servers, k) then Max(Free(servers, instances, k), 0) else 0
  }

  ghost predicate Lists(servers: Servers, among: seq<nat>) {
    && (forall k :: Open(servers, k) ==> k in among)
    && (forall i, j :: 0 <= i < j < |among| ==> among[i] != among[j])
  }

  function ChosenIn(events: seq<Event>): nat {
    if events == [] then 0
    else
      var last := events[|events| - 1];
      ChosenIn(events[..|events| - 1]) + if last.Place? && last.choice.Some? then 1 else 0
  }

  lemma {:induction false} SlotTaken(
    servers: Servers, instances: Instances, id: nat, choice: Option<nat>, among: seq<nat>)
    requires id !in instances && (choice.Some? ==> Open(servers, choice.value) && 0 < Free(servers, instances, choice.value))
    requires forall i, j :: 0 <= i < j < |among| ==> among[i] != among[j]
    ensures FreeSlots(servers, Apply(instances, Place(id, choice, true)), among)
            == FreeSlots(servers, instances, among) - if choice.Some? && choice.value in among then 1 else 0
  {
    if among != [] {
      var n := |among| - 1;
      SlotTaken(servers, instances, id, choice, among[..n]);
      Placed(instances, id, choice, true, among[n]);
      assert among == among[..n] + [among[n]];
    }
  }

  lemma {:induction false} NoSlots(servers: Servers, instances: Instances, among: seq<nat>)
    ensures 0 <= FreeSlots(servers, instances, among)
    ensures FreeSlots(servers, instances, among) == 0
            <==> forall k :: k in among && Open(servers, k) ==> Free(servers, instances, k) <= 0
  {
    if among != [] {
      var n := |among| - 1;
      NoSlots(servers, instances, among[..n]);
      assert among == among[..n] + [among[n]];
    }
  }

  /** Of n automatic placements exactly min(n, free slots) find a server: none fails while a slot is free, and
      each success uses one. */
  lemma {:induction false} PlacementsUseEverySlot(
    servers: Servers, instances: Instances, events: seq<Event>, among: seq<nat>)
    requires ValidRun(servers, instances, events) && AutomaticOnly(events) && Lists(servers, among)
    ensures var slots := FreeSlots(servers, instances, among);
            && ChosenIn(events) == (if |events| <= slots then |events| else slots)
            && FreeSlots(servers, Play(instances, events), among) == slots - ChosenIn(events)
  {
    NoSlots(servers, instances, among);
    if events != [] {
      var n := |events| - 1;
      var before := Play(instances, events[..n]);
      PlacementsUseEverySlot(servers, instances, events[..n], among);
      SlotTaken(servers, before, events[n].id, events[n].choice, among);
      NoSlots(servers, before, among);
    }
  }
}
