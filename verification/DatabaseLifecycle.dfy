/**
 Ports over the life of databases: what creating, bundling, cloning, provisioning, starting,
 stopping, deleting and restarting the service do to the database rows, the port pool and the
 tasks in flight. Docker, certificates and SQL are parameters where the code has a branch for
 their failure, and succeed otherwise.
 */
module DatabaseLifecycle {
  import opened Wrappers
  import opened PortPool

  datatype Status = Provisioning | Running | Stopped | Errored | Deleting

  datatype Row = Row(owner: nat, port: nat, status: Status, container: bool)

  type Rows = map<nat, Row>

  /** A spawned provisioning task: the rows it provisions with the ports it holds, and whether it
      gives the ports back when it fails. */
  datatype Build = Build(parts: map<nat, nat>, releases: bool)

  type Builds = map<nat, Build>

  /** Spawned cleanups: the row to remove and the port captured for release. */
  type Removals = multiset<(nat, nat)>

  datatype State = State(low: nat, high: nat, rows: Rows, taken: set<nat>, builds: Builds, removals: Removals)

  datatype Action = Start | Stop | Restart

  function AsU16(port: nat): nat {
    port % PORTS
  }

  // ---- Creating ----

  /** A database row with a fresh port and a task to provision it. A row that cannot be inserted
      leaves the port taken. */
  function StartBuild(s: State, user: nat, id: nat, task: nat, stored: bool, releases: bool): (State, Result<Unit>) {
    match FirstFree(s.low, s.high, s.taken)
    case None => (s, Err(Internal))
    case Some(port) =>
      var held := s.(taken := s.taken + {port});
      if !stored then (held, Err(Internal))
      else
        (held.(rows := s.rows[id := Row(user, port, Provisioning, false)],
               builds := s.builds[task := Build(map[id := port], releases)]),
         Ok(Unit))
  }

  function CreateDatabase(s: State, user: nat, id: nat, task: nat, stored: bool): (State, Result<Unit>) {
    StartBuild(s, user, id, task, stored, true)
  }

  /** Unlike a new database's, a clone's task does not give the port back when it fails. */
  function CloneDatabase(s: State, user: nat, id: nat, task: nat, stored: bool): (State, Result<Unit>) {
    StartBuild(s, user, id, task, stored, false)
  }

  datatype Stored = Neither | First | Both

  /** Two databases at once. If the second port cannot be had, the first is given back; rows that
      cannot be inserted leave their ports taken. */
  function CreateBundle(s: State, user: nat, a: nat, b: nat, task: nat, stored: Stored): (State, Result<Unit>) {
    match FirstFree(s.low, s.high, s.taken)
    case None => (s, Err(Internal))
    case Some(first) =>
      match FirstFree(s.low, s.high, s.taken + {first})
      case None => (s.(taken := s.taken + {first} - {first}), Err(Internal))
      case Some(second) =>
        var held := s.(taken := s.taken + {first, second});
        var rowA, rowB := Row(user, first, Provisioning, false), Row(user, second, Provisioning, false);
        match stored
        case Neither => (held, Err(Internal))
        case First => (held.(rows := s.rows[a := rowA]), Err(Internal))
        case Both =>
          (held.(rows := s.rows[a := rowA][b := rowB],
                 builds := s.builds[task := Build(map[a := first, b := second], true)]),
           Ok(Unit))
  }

  // ---- Provisioning ----

  function Mark(rows: Rows, ids: set<nat>, status: Status, container: bool): Rows {
    map id | id in rows :: if id in ids then Row(rows[id].owner, rows[id].port, status, container) else rows[id]
  }

  function PortsOf(parts: map<nat, nat>): set<nat> {
    set id | id in parts :: parts[id]
  }

  /** The task's end: rows that still exist are marked running, or in error with the ports given
      back if the task gives them back. */
  function FinishBuild(s: State, task: nat, provisioned: bool): State {
    if task !in s.builds then s
    else
      var build := s.builds[task];
      if provisioned
      then s.(builds := s.builds - {task}, rows := Mark(s.rows, build.parts.Keys, Running, true))
      else s.(builds := s.builds - {task},
              rows := Mark(s.rows, build.parts.Keys, Errored, false),
              taken := if build.releases then s.taken - PortsOf(build.parts) else s.taken)
  }

  // ---- Starting and stopping ----

  /** The only condition is a container; the status is not looked at. */
  function ContainerAction(s: State, user: nat, id: nat, action: Action): (State, Result<Unit>) {
    if id !in s.rows then (s, Err(NotFound))
    else if s.rows[id].owner != user then (s, Err(Forbidden))
    else if !s.rows[id].container then (s, Err(BadRequest))
    else
      (s.(rows := s.rows[id := s.rows[id].(status := if action.Stop? then Stopped else Running)]), Ok(Unit))
  }

  // ---- Deleting ----

  function DeleteDatabase(s: State, user: nat, id: nat): (State, Result<Unit>) {
    if id !in s.rows then (s, Err(NotFound))
    else if s.rows[id].owner != user then (s, Err(Forbidden))
    else
      (s.(rows := s.rows[id := s.rows[id].(status := Deleting)],
          removals := s.removals + multiset{(id, AsU16(s.rows[id].port))}),
       Ok(Unit))
  }

  /** The spawned cleanup: the row goes and the captured port is given back. */
  function FinishRemoval(s: State, id: nat, port: nat): State {
    if (id, port) !in s.removals then s
    else s.(rows := s.rows - {id}, taken := s.taken - {port}, removals := s.removals - multiset{(id, port)})
  }

  function ForceDelete(s: State, id: nat): (State, Result<Unit>) {
    if id !in s.rows then (s, Err(NotFound))
    else (s.(rows := s.rows - {id}, taken := s.taken - {AsU16(s.rows[id].port)}), Ok(Unit))
  }

  // ---- Restarting the service ----

  function LoadedPorts(rows: Rows): set<nat> {
    set id | id in rows && rows[id].status != Deleting && rows[id].port < PORTS :: rows[id].port
  }

  /** Tasks in flight are lost; the pool is filled from the rows that are not being deleted. */
  function RestartService(s: State): State {
    s.(taken := LoadedPorts(s.rows), builds := map[], removals := multiset{})
  }

  // ---- Steps ----

  datatype Step =
    | Create(user: nat, id: nat, task: nat, rowStored: bool)
    | Bundle(user: nat, a: nat, b: nat, task: nat, stored: Stored)
    | Clone(user: nat, id: nat, task: nat, rowStored: bool)
    | EndBuild(task: nat, provisioned: bool)
    | Act(user: nat, id: nat, action: Action)
    | Delete(user: nat, id: nat)
    | EndRemoval(id: nat, port: nat)
    | Force(id: nat)
    | Reboot

  function Next(s: State, step: Step): State {
    match step
    case Create(user, id, task, stored) => CreateDatabase(s, user, id, task, stored).0
    case Bundle(user, a, b, task, stored) => CreateBundle(s, user, a, b, task, stored).0
    case Clone(user, id, task, stored) => CloneDatabase(s, user, id, task, stored).0
    case EndBuild(task, provisioned) => FinishBuild(s, task, provisioned)
    case Act(user, id, action) => ContainerAction(s, user, id, action).0
    case Delete(user, id) => DeleteDatabase(s, user, id).0
    case EndRemoval(id, port) => FinishRemoval(s, id, port)
    case Force(id) => ForceDelete(s, id).0
    case Reboot => RestartService(s)
  }

  /** Ids of new rows and tasks are fresh. */
  predicate Possible(s: State, step: Step) {
    match step
    case Create(_, id, task, _) => id !in s.rows && task !in s.builds
    case Bundle(_, a, b, task, _) => a !in s.rows && b !in s.rows && a != b && task !in s.builds
    case Clone(_, id, task, _) => id !in s.rows && task !in s.builds
    case _ => true
  }

  predicate Deletable(s: State, id: nat) {
    id in s.rows ==>
      (s.rows[id].status == Running || s.rows[id].status == Stopped) && (id, s.rows[id].port) !in s.removals
  }

  /** Only running or stopped databases are deleted, each at most once, and the service restarts
      with no delete in flight. */
  predicate Careful(s: State, step: Step) {
    match step
    case Delete(_, id) => Deletable(s, id)
    case Force(id) => Deletable(s, id)
    case Reboot => s.removals == multiset{}
    case _ => true
  }

  // ---- The invariant ----

  predicate Live(rows: Rows, id: nat) {
    id in rows && rows[id].status != Errored
  }

  /** Databases that are not in error hold ports of their own. */
  ghost predicate PortsApart(rows: Rows) {
    forall a, b :: Live(rows, a) && Live(rows, b) && rows[a].port == rows[b].port ==> a == b
  }

  /** And those ports are marked taken. */
  ghost predicate PortsTaken(rows: Rows, taken: set<nat>) {
    forall id :: Live(rows, id) ==> rows[id].port in taken
  }

  ghost predicate RowsFit(rows: Rows) {
    forall id :: id in rows ==>
      rows[id].port < PORTS
      && (rows[id].container ==> rows[id].status != Provisioning && rows[id].status != Errored)
  }

  predicate PartFits(rows: Rows, id: nat, port: nat) {
    id in rows && rows[id].port == port && rows[id].status == Provisioning
  }

  /** Each row waits for at most one task, which holds the row's port. */
  ghost predicate BuildsFit(rows: Rows, builds: Builds) {
    && (forall t, id :: t in builds && id in builds[t].parts ==> PartFits(rows, id, builds[t].parts[id]))
    && (forall t, u, id :: t in builds && u in builds && id in builds[t].parts && id in builds[u].parts ==> t == u)
  }

  predicate RemovalFits(rows: Rows, removals: Removals, id: nat, port: nat) {
    id in rows && rows[id].port == port && rows[id].status != Provisioning && rows[id].status != Errored
    && removals[(id, port)] == 1
  }

  /** A cleanup holds the port of the row it removes; a row being deleted has one. */
  ghost predicate RemovalsFit(rows: Rows, removals: Removals) {
    && (forall id, port :: (id, port) in removals ==> RemovalFits(rows, removals, id, port))
    && (forall id :: id in rows && rows[id].status == Deleting ==> (id, rows[id].port) in removals)
  }

  ghost predicate Sound(s: State) {
    && s.high < PORTS
    && PortsApart(s.rows) && PortsTaken(s.rows, s.taken) && RowsFit(s.rows)
    && BuildsFit(s.rows, s.builds) && RemovalsFit(s.rows, s.removals)
  }

  // ---- One table at a time ----

  lemma RowAdded(s: State, id: nat, user: nat, port: nat)
    requires Sound(s) && id !in s.rows && port !in s.taken && port < PORTS
    ensures Sound(s.(rows := s.rows[id := Row(user, port, Provisioning, false)], taken := s.taken + {port}))
  {
    var rows := s.rows[id := Row(user, port, Provisioning, false)];
    assert PortsApart(rows) && PortsTaken(rows, s.taken + {port}) by {
      hide RowsFit, BuildsFit, RemovalsFit;
    }
    assert RowsFit(rows) by {
      hide PortsApart, PortsTaken, BuildsFit, RemovalsFit;
    }
    assert BuildsFit(rows, s.builds) by {
      hide PortsApart, PortsTaken, RowsFit, RemovalsFit;
      SameParts(s.rows, rows, s.builds);
    }
    assert RemovalsFit(rows, s.removals) by {
      hide PortsApart, PortsTaken, RowsFit, BuildsFit;
    }
    hide PortsApart, PortsTaken, RowsFit, BuildsFit, RemovalsFit;
  }

  lemma SameParts(before: Rows, after: Rows, builds: Builds)
    requires BuildsFit(before, builds)
    requires forall t, id :: t in builds && id in builds[t].parts ==> id in after && after[id] == before[id]
    ensures BuildsFit(after, builds)
  {
    forall t, id | t in builds && id in builds[t].parts ensures PartFits(after, id, builds[t].parts[id]) {
      assert PartFits(before, id, builds[t].parts[id]);
    }
  }

  lemma TaskAdded(s: State, task: nat, build: Build)
    requires Sound(s) && task !in s.builds
    requires forall id :: id in build.parts ==> PartFits(s.rows, id, build.parts[id])
    requires forall t, id :: t in s.builds && id in s.builds[t].parts ==> id !in build.parts
    ensures Sound(s.(builds := s.builds[task := build]))
  {
    hide PortsApart, PortsTaken, RowsFit, RemovalsFit, PartFits;
  }

  lemma MoreTaken(s: State, ports: set<nat>)
    requires Sound(s)
    ensures Sound(s.(taken := s.taken + ports))
  {
    hide PortsApart, RowsFit, BuildsFit, RemovalsFit;
  }

  // A new row waits for no task yet.
  lemma NoTaskYet(s: State, id: nat)
    requires Sound(s) && id !in s.rows
    ensures forall t :: t in s.builds ==> id !in s.builds[t].parts
  {
    hide PortsApart, PortsTaken, RowsFit, RemovalsFit;
    assert forall t, i :: t in s.builds && i in s.builds[t].parts ==> i in s.rows;
  }

  // ---- Each careful step keeps the invariant ----

  lemma StartBuildKeeps(s: State, user: nat, id: nat, task: nat, stored: bool, releases: bool)
    requires Sound(s) && id !in s.rows && task !in s.builds
    ensures Sound(StartBuild(s, user, id, task, stored, releases).0)
  {
    var free := FirstFree(s.low, s.high, s.taken);
    assert s.high < PORTS;
    if free.Some? {
      MoreTaken(s, {free.value});
      RowAdded(s, id, user, free.value);
      NoTaskYet(s, id);
      hide Sound;
      TaskAdded(s.(rows := s.rows[id := Row(user, free.value, Provisioning, false)], taken := s.taken + {free.value}),
                task, Build(map[id := free.value], releases));
    }
  }

  lemma BundleKeeps(s: State, user: nat, a: nat, b: nat, task: nat, stored: Stored)
    requires Sound(s) && a !in s.rows && b !in s.rows && a != b && task !in s.builds
    ensures Sound(CreateBundle(s, user, a, b, task, stored).0)
  {
    assert s.high < PORTS;
    hide Sound;
    var free := FirstFree(s.low, s.high, s.taken);
    if free.Some? {
      var first := free.value;
      var next := FirstFree(s.low, s.high, s.taken + {first});
      if next.Some? {
        MoreTaken(s, {first, next.value});
        RowAdded(s, a, user, first);
        TwoRowsAdded(s, user, a, first, b, next.value, task);
        var one := s.(rows := s.rows[a := Row(user, first, Provisioning, false)], taken := s.taken + {first});
        MoreTaken(one, {next.value});
        assert s.taken + {first} + {next.value} == s.taken + {first, next.value};
      } else {
        assert s.taken + {first} - {first} == s.taken;
      }
    }
  }

  lemma PartsAdded(s: State, a: nat, first: nat, b: nat, second: nat, task: nat)
    requires Sound(s) && a != b && task !in s.builds
    requires PartFits(s.rows, a, first) && PartFits(s.rows, b, second)
    requires forall t :: t in s.builds ==> a !in s.builds[t].parts && b !in s.builds[t].parts
    ensures Sound(s.(builds := s.builds[task := Build(map[a := first, b := second], true)]))
  {
    hide Sound, PartFits;
    TaskAdded(s, task, Build(map[a := first, b := second], true));
  }

  lemma TwoRowsAdded(s: State, user: nat, a: nat, first: nat, b: nat, second: nat, task: nat)
    requires Sound(s) && a !in s.rows && b !in s.rows && a != b && task !in s.builds
    requires first !in s.taken && second !in s.taken && first != second && first < PORTS && second < PORTS
    ensures Sound(s.(rows := s.rows[a := Row(user, first, Provisioning, false)][b := Row(user, second, Provisioning, false)],
                     taken := s.taken + {first} + {second},
                     builds := s.builds[task := Build(map[a := first, b := second], true)]))
  {
    NoTaskYet(s, a);
    NoTaskYet(s, b);
    RowAdded(s, a, user, first);
    hide Sound;
    var one := s.(rows := s.rows[a := Row(user, first, Provisioning, false)], taken := s.taken + {first});
    RowAdded(one, b, user, second);
    PartsAdded(one.(rows := one.rows[b := Row(user, second, Provisioning, false)], taken := one.taken + {second}),
               a, first, b, second, task);
  }

  lemma MarkedPorts(rows: Rows, taken: set<nat>, parts: map<nat, nat>, status: Status, container: bool)
    requires PortsApart(rows) && PortsTaken(rows, taken) && RowsFit(rows)
    requires forall id :: id in parts ==> PartFits(rows, id, parts[id])
    requires status == Errored ==> !container
    requires status != Provisioning
    ensures var marked := Mark(rows, parts.Keys, status, container);
            && PortsApart(marked) && PortsTaken(marked, taken) && RowsFit(marked)
            && (status == Errored ==> PortsTaken(marked, taken - PortsOf(parts)))
  {
    var marked := Mark(rows, parts.Keys, status, container);
    assert forall id :: Live(marked, id) ==> Live(rows, id) && marked[id].port == rows[id].port;
    assert RowsFit(marked) by {
      hide PortsApart, PortsTaken;
    }
    hide RowsFit;
    if status == Errored {
      forall id | Live(marked, id) ensures marked[id].port in taken - PortsOf(parts) {
        assert Live(rows, id) && id !in parts;
      }
    }
  }

  lemma MarkedTasks(s: State, task: nat, status: Status, container: bool)
    requires BuildsFit(s.rows, s.builds) && RemovalsFit(s.rows, s.removals) && task in s.builds && status != Deleting
    ensures var marked := Mark(s.rows, s.builds[task].parts.Keys, status, container);
            BuildsFit(marked, s.builds - {task}) && RemovalsFit(marked, s.removals)
  {
    var parts := s.builds[task].parts;
    var marked := Mark(s.rows, parts.Keys, status, container);
    assert forall id :: id in parts ==> PartFits(s.rows, id, parts[id]);
    assert RemovalsFit(marked, s.removals) by {
      hide BuildsFit;
      forall id, port | (id, port) in s.removals ensures RemovalFits(marked, s.removals, id, port) {
        assert RemovalFits(s.rows, s.removals, id, port);
      }
    }
    hide RemovalsFit;
    assert BuildsFit(s.rows, s.builds - {task});
    assert forall t, id :: t in s.builds - {task} && id in s.builds[t].parts ==> id !in parts;
    hide PartFits;
    SameParts(s.rows, marked, s.builds - {task});
  }

  lemma FinishBuildKeeps(s: State, task: nat, provisioned: bool)
    requires Sound(s)
    ensures Sound(FinishBuild(s, task, provisioned))
  {
    if task in s.builds {
      var parts := s.builds[task].parts;
      assert forall id :: id in parts ==> PartFits(s.rows, id, parts[id]);
      hide PortsApart, PortsTaken, RowsFit, BuildsFit, RemovalsFit, Mark, PortsOf, PartFits;
      if provisioned {
        MarkedPorts(s.rows, s.taken, parts, Running, true);
        MarkedTasks(s, task, Running, true);
      } else {
        MarkedPorts(s.rows, s.taken, parts, Errored, false);
        MarkedTasks(s, task, Errored, false);
      }
    }
  }

  // A row that waits for no task takes another status.
  lemma StatusChanged(s: State, id: nat, status: Status)
    requires Sound(s) && Live(s.rows, id) && s.rows[id].status != Provisioning
    requires status != Provisioning && status != Errored
    ensures var rows := s.rows[id := s.rows[id].(status := status)];
            && PortsApart(rows) && PortsTaken(rows, s.taken) && RowsFit(rows) && BuildsFit(rows, s.builds)
            && (forall i, p :: (i, p) in s.removals ==> RemovalFits(rows, s.removals, i, p))
  {
    var rows := s.rows[id := s.rows[id].(status := status)];
    assert BuildsFit(rows, s.builds) by {
      hide PortsApart, PortsTaken, RemovalsFit, RowsFit;
      SameParts(s.rows, rows, s.builds);
    }
    hide BuildsFit;
    forall i, p | (i, p) in s.removals ensures RemovalFits(rows, s.removals, i, p) {
      assert RemovalFits(s.rows, s.removals, i, p);
    }
    hide RemovalsFit;
  }

  lemma ActKeeps(s: State, user: nat, id: nat, action: Action)
    requires Sound(s)
    ensures Sound(ContainerAction(s, user, id, action).0)
  {
    if id in s.rows && s.rows[id].container {
      StatusChanged(s, id, if action.Stop? then Stopped else Running);
      hide PortsApart, PortsTaken, RowsFit, BuildsFit;
    }
  }

  // The parts of a sound state after the port of a row with a status other than provisioning goes.
  lemma RowGone(s: State, id: nat)
    requires Sound(s) && Live(s.rows, id) && s.rows[id].status != Provisioning
    ensures PortsApart(s.rows - {id}) && PortsTaken(s.rows - {id}, s.taken - {s.rows[id].port})
    ensures RowsFit(s.rows - {id}) && BuildsFit(s.rows - {id}, s.builds)
  {
    hide RemovalsFit;
    assert BuildsFit(s.rows - {id}, s.builds) by {
      hide PortsApart, PortsTaken, RowsFit;
      SameParts(s.rows, s.rows - {id}, s.builds);
    }
    hide BuildsFit;
  }

  lemma DeleteKeeps(s: State, user: nat, id: nat)
    requires Sound(s) && Deletable(s, id)
    ensures Sound(DeleteDatabase(s, user, id).0)
  {
    if id in s.rows {
      assert AsU16(s.rows[id].port) == s.rows[id].port by {
        assert RowsFit(s.rows);
      }
      StatusChanged(s, id, Deleting);
      hide PortsApart, PortsTaken, RowsFit, BuildsFit;
    }
  }

  lemma RemovalDone(rows: Rows, removals: Removals, id: nat, port: nat)
    requires RemovalsFit(rows, removals) && (id, port) in removals
    ensures RemovalsFit(rows - {id}, removals - multiset{(id, port)})
  {
    assert RemovalFits(rows, removals, id, port);
    var left := removals - multiset{(id, port)};
    forall i, p | (i, p) in left ensures RemovalFits(rows - {id}, left, i, p) {
      assert RemovalFits(rows, removals, i, p);
    }
  }

  lemma FinishRemovalKeeps(s: State, id: nat, port: nat)
    requires Sound(s)
    ensures Sound(FinishRemoval(s, id, port))
  {
    if (id, port) in s.removals {
      assert RemovalFits(s.rows, s.removals, id, port);
      RowGone(s, id);
      RemovalDone(s.rows, s.removals, id, port);
      hide PortsApart, PortsTaken, RowsFit, BuildsFit, RemovalsFit;
    }
  }

  lemma ForceKeeps(s: State, id: nat)
    requires Sound(s) && Deletable(s, id)
    ensures Sound(ForceDelete(s, id).0)
  {
    if id in s.rows {
      assert AsU16(s.rows[id].port) == s.rows[id].port by {
        assert RowsFit(s.rows);
      }
      RowGone(s, id);
      hide PortsApart, PortsTaken, RowsFit, BuildsFit;
      forall i, p | (i, p) in s.removals ensures RemovalFits(s.rows - {id}, s.removals, i, p) {
        assert RemovalFits(s.rows, s.removals, i, p);
      }
    }
  }

  lemma RestartKeeps(s: State)
    requires Sound(s) && s.removals == multiset{}
    ensures Sound(RestartService(s))
  {
  }

  lemma EveryCarefulStepKeeps(s: State, step: Step)
    requires Sound(s) && Possible(s, step) && Careful(s, step)
    ensures Sound(Next(s, step))
  {
    hide Sound, StartBuild, CreateBundle, FinishBuild, ContainerAction, DeleteDatabase, FinishRemoval, ForceDelete,
         RestartService;
    match step {
      case Create(user, id, task, stored) => StartBuildKeeps(s, user, id, task, stored, true);
      case Bundle(user, a, b, task, stored) => BundleKeeps(s, user, a, b, task, stored);
      case Clone(user, id, task, stored) => StartBuildKeeps(s, user, id, task, stored, false);
      case EndBuild(task, provisioned) => FinishBuildKeeps(s, task, provisioned);
      case Act(user, id, action) => ActKeeps(s, user, id, action);
      case Delete(user, id) => DeleteKeeps(s, user, id);
      case EndRemoval(id, port) => FinishRemovalKeeps(s, id, port);
      case Force(id) => ForceKeeps(s, id);
      case Reboot => RestartKeeps(s);
    }
  }

  function Run(s: State, steps: seq<Step>): State {
    if steps == [] then s else Next(Run(s, steps[..|steps| - 1]), steps[|steps| - 1])
  }

  predicate CarefulRun(s: State, steps: seq<Step>) {
    steps == [] ||
    (var before := Run(s, steps[..|steps| - 1]);
     CarefulRun(s, steps[..|steps| - 1])
     && Possible(before, steps[|steps| - 1]) && Careful(before, steps[|steps| - 1]))
  }

  function Fresh(low: nat, high: nat): State {
    State(low, high, map[], {}, map[], multiset{})
  }

  /** Over every careful run, however creations, bundles, clones, late failures, late cleanups and
      restarts interleave, databases that are not in error hold pairwise distinct ports, all
      marked taken. */
  lemma {:induction false} EveryCarefulRunKeepsPortsApart(low: nat, high: nat, steps: seq<Step>)
    requires high < PORTS && CarefulRun(Fresh(low, high), steps)
    ensures var s := Run(Fresh(low, high), steps);
            Sound(s) && PortsApart(s.rows) && PortsTaken(s.rows, s.taken)
  {
    if steps != [] {
      EveryCarefulRunKeepsPortsApart(low, high, steps[..|steps| - 1]);
      EveryCarefulStepKeeps(Run(Fresh(low, high), steps[..|steps| - 1]), steps[|steps| - 1]);
    }
  }

  // ---- When giving a port back takes it from another database ----

  /** A cleanup leaves every live database's port marked taken if and only if no other live row has
      the port it captured. */
  lemma RemovalKeepsPortsIff(s: State, id: nat, port: nat)
    requires PortsTaken(s.rows, s.taken) && (id, port) in s.removals
    ensures PortsTaken(FinishRemoval(s, id, port).rows, FinishRemoval(s, id, port).taken)
            <==> forall other :: Live(s.rows, other) && other != id ==> s.rows[other].port != port
  {
    var t := FinishRemoval(s, id, port);
    if other :| Live(s.rows, other) && other != id && s.rows[other].port == port {
      assert Live(t.rows, other) && t.rows[other].port !in t.taken;
    } else {
      assert forall other :: Live(t.rows, other) ==> Live(s.rows, other) && other != id;
    }
  }

  ghost predicate OthersPort(rows: Rows, ids: set<nat>, port: nat) {
    exists other :: Live(rows, other) && other !in ids && rows[other].port == port
  }

  ghost predicate Reloaded(rows: Rows, port: nat) {
    port < PORTS && exists id :: id in rows && rows[id].status != Deleting && rows[id].port == port
  }

  /** The steps that leave a live database on a port not marked taken: one that gives back a port some
      other live database has; one that brings a database back from error after its port was given
      back; a restart while databases are being deleted. */
  ghost predicate UnmarksPort(s: State, step: Step) {
    match step
    case EndRemoval(id, port) => (id, port) in s.removals && OthersPort(s.rows, {id}, port)
    case Force(id) => id in s.rows && OthersPort(s.rows, {id}, AsU16(s.rows[id].port))
    case EndBuild(task, provisioned) =>
      task in s.builds &&
      var parts := s.builds[task].parts;
      if provisioned then exists id :: id in parts && id in s.rows && s.rows[id].port !in s.taken
      else s.builds[task].releases && exists part :: part in parts && OthersPort(s.rows, parts.Keys, parts[part])
    case Act(user, id, _) =>
      id in s.rows && s.rows[id].owner == user && s.rows[id].container && s.rows[id].port !in s.taken
    case Delete(user, id) => id in s.rows && s.rows[id].owner == user && s.rows[id].port !in s.taken
    case Reboot => exists id :: Live(s.rows, id) && !Reloaded(s.rows, s.rows[id].port)
    case _ => false
  }

  lemma ForceUnmarksIff(s: State, id: nat)
    requires PortsTaken(s.rows, s.taken)
    ensures PortsTaken(ForceDelete(s, id).0.rows, ForceDelete(s, id).0.taken) <==> !UnmarksPort(s, Force(id))
  {
    if id in s.rows {
      var t, port := ForceDelete(s, id).0, AsU16(s.rows[id].port);
      if other :| Live(s.rows, other) && other !in {id} && s.rows[other].port == port {
        assert Live(t.rows, other) && t.rows[other].port !in t.taken;
      } else {
        assert forall other :: Live(t.rows, other) ==> Live(s.rows, other) && other !in {id};
      }
    }
  }

  lemma RemovalUnmarksIff(s: State, id: nat, port: nat)
    requires PortsTaken(s.rows, s.taken)
    ensures PortsTaken(FinishRemoval(s, id, port).rows, FinishRemoval(s, id, port).taken)
            <==> !UnmarksPort(s, EndRemoval(id, port))
  {
    if (id, port) in s.removals {
      RemovalKeepsPortsIff(s, id, port);
      hide FinishRemoval, PortsTaken, Live;
    }
  }

  lemma ReadyUnmarksIff(s: State, task: nat)
    requires PortsTaken(s.rows, s.taken) && task in s.builds
    ensures PortsTaken(FinishBuild(s, task, true).rows, FinishBuild(s, task, true).taken)
            <==> !UnmarksPort(s, EndBuild(task, true))
  {
    var t, parts := FinishBuild(s, task, true), s.builds[task].parts;
    if id :| id in parts && id in s.rows && s.rows[id].port !in s.taken {
      assert Live(t.rows, id);
    } else {
      forall id | Live(t.rows, id) ensures t.rows[id].port in t.taken {
        assert id !in parts ==> Live(s.rows, id);
      }
    }
  }

  lemma FailedUnmarksIff(s: State, task: nat)
    requires PortsTaken(s.rows, s.taken) && task in s.builds
    ensures PortsTaken(FinishBuild(s, task, false).rows, FinishBuild(s, task, false).taken)
            <==> !UnmarksPort(s, EndBuild(task, false))
  {
    var t, parts := FinishBuild(s, task, false), s.builds[task].parts;
    assert forall id :: Live(t.rows, id) <==> Live(s.rows, id) && id !in parts;
    assert forall id :: Live(t.rows, id) ==> t.rows[id] == s.rows[id];
    if s.builds[task].releases {
      if part :| part in parts && OthersPort(s.rows, parts.Keys, parts[part]) {
        var other :| Live(s.rows, other) && other !in parts.Keys && s.rows[other].port == parts[part];
        assert parts[part] in PortsOf(parts) && Live(t.rows, other);
      } else {
        forall id, part | Live(t.rows, id) && part in parts ensures parts[part] != s.rows[id].port {
          NotOthersPort(s.rows, parts.Keys, parts[part], id);
        }
      }
    }
  }

  lemma NotOthersPort(rows: Rows, ids: set<nat>, port: nat, other: nat)
    requires !OthersPort(rows, ids, port) && Live(rows, other) && other !in ids
    ensures rows[other].port != port
  {
  }

  lemma RebootUnmarksIff(s: State)
    ensures PortsTaken(RestartService(s).rows, RestartService(s).taken) <==> !UnmarksPort(s, Reboot)
  {
    forall port ensures port in LoadedPorts(s.rows) <==> Reloaded(s.rows, port) {
    }
    hide LoadedPorts, Reloaded;
  }

  lemma CreationMarks(s: State, step: Step)
    requires PortsTaken(s.rows, s.taken) && Possible(s, step) && (step.Create? || step.Clone? || step.Bundle?)
    ensures PortsTaken(Next(s, step).rows, Next(s, step).taken)
  {
  }

  lemma StatusUnmarksIff(s: State, step: Step)
    requires PortsTaken(s.rows, s.taken) && (step.Act? || step.Delete?)
    ensures PortsTaken(Next(s, step).rows, Next(s, step).taken) <==> !UnmarksPort(s, step)
  {
    var t := Next(s, step);
    if t != s && step.id in s.rows {
      assert Live(t.rows, step.id);
      assert forall id :: Live(t.rows, id) && id != step.id ==> Live(s.rows, id) && t.rows[id] == s.rows[id];
    }
  }

  /** For every step, careful or not: live databases keep their ports marked taken if and only if the
      step is not one of those. */
  lemma StepKeepsPortsTakenIff(s: State, step: Step)
    requires PortsTaken(s.rows, s.taken) && Possible(s, step)
    ensures PortsTaken(Next(s, step).rows, Next(s, step).taken) <==> !UnmarksPort(s, step)
  {
    hide PortsTaken, FinishBuild, ContainerAction, DeleteDatabase, FinishRemoval, ForceDelete, RestartService, OthersPort,
         Reloaded, Live;
    match step {
      case EndBuild(task, provisioned) =>
        if task !in s.builds {
          NoSuchTask(s, task, provisioned);
        } else if provisioned {
          ReadyUnmarksIff(s, task);
        } else {
          FailedUnmarksIff(s, task);
        }
      case Act(_, _, _) => StatusUnmarksIff(s, step);
      case Delete(_, _) => StatusUnmarksIff(s, step);
      case EndRemoval(id, port) => RemovalUnmarksIff(s, id, port);
      case Force(id) => ForceUnmarksIff(s, id);
      case Reboot => RebootUnmarksIff(s);
      case _ => CreationMarks(s, step);
    }
  }

  lemma NoSuchTask(s: State, task: nat, provisioned: bool)
    requires task !in s.builds
    ensures FinishBuild(s, task, provisioned) == s
  {
  }

  // ---- When two live databases come to share a port ----

  predicate Revives(rows: Rows, ids: set<nat>, id: nat) {
    id in rows && (id in ids || Live(rows, id))
  }

  /** The steps that put two live databases on one port: a creation, clone or bundle that stores a row on a port
      which is free in the pool but another live row has; a provisioning success that revives a row whose
      port another live or revived row has; an action on, or a delete of, a row whose port another live
      row has. */
  ghost predicate SharesPort(s: State, step: Step) {
    match step
    case Create(_, _, _, stored) => stored && StoresShared(s.rows, FirstFree(s.low, s.high, s.taken))
    case Clone(_, _, _, stored) => stored && StoresShared(s.rows, FirstFree(s.low, s.high, s.taken))
    case Bundle(_, _, _, _, stored) =>
      var first := FirstFree(s.low, s.high, s.taken);
      first.Some? &&
      var second := FirstFree(s.low, s.high, s.taken + {first.value});
      second.Some?
      && ((stored != Neither && StoresShared(s.rows, first)) || (stored == Both && StoresShared(s.rows, second)))
    case EndBuild(task, provisioned) =>
      provisioned && task in s.builds && exists id, other :: RevivesShared(s.rows, s.builds[task].parts.Keys, id, other)
    case Act(user, id, _) =>
      id in s.rows && s.rows[id].owner == user && s.rows[id].container && OthersPort(s.rows, {id}, s.rows[id].port)
    case Delete(user, id) => id in s.rows && s.rows[id].owner == user && OthersPort(s.rows, {id}, s.rows[id].port)
    case _ => false
  }

  ghost predicate StoresShared(rows: Rows, port: Option<nat>) {
    port.Some? && OthersPort(rows, {}, port.value)
  }

  predicate RevivesShared(rows: Rows, ids: set<nat>, id: nat, other: nat) {
    id in ids && id in rows && Revives(rows, ids, other) && other != id && rows[other].port == rows[id].port
  }

  // One row, new or with a new status, among rows on ports of their own.
  lemma OneRowIff(before: Rows, after: Rows, id: nat)
    requires PortsApart(before) && id in after && after == before[id := after[id]] && Live(after, id)
    ensures PortsApart(after) <==> !OthersPort(before, {id}, after[id].port)
  {
    assert forall other :: other != id ==> (Live(after, other) <==> Live(before, other));
    if other: nat :| Live(before, other) && other !in {id} && before[other].port == after[id].port {
      assert Live(after, other) && other != id;
    }
  }

  lemma NoRowYet(rows: Rows, id: nat, port: nat)
    requires id !in rows
    ensures OthersPort(rows, {id}, port) <==> OthersPort(rows, {}, port)
  {
    if other: nat :| Live(rows, other) && other !in {} && rows[other].port == port {
      assert other !in {id};
    }
  }

  lemma BuildSharesIff(s: State, user: nat, id: nat, task: nat, stored: bool, releases: bool)
    requires PortsApart(s.rows) && id !in s.rows
    ensures PortsApart(StartBuild(s, user, id, task, stored, releases).0.rows)
            <==> !(stored && StoresShared(s.rows, FirstFree(s.low, s.high, s.taken)))
  {
    var free := FirstFree(s.low, s.high, s.taken);
    if free.Some? && stored {
      NoRowYet(s.rows, id, free.value);
      OneRowIff(s.rows, s.rows[id := Row(user, free.value, Provisioning, false)], id);
      hide PortsApart, OthersPort;
    }
  }

  lemma TwoRowsIff(rows: Rows, a: nat, b: nat, rowA: Row, rowB: Row)
    requires PortsApart(rows) && a !in rows && b !in rows && a != b && rowA.port != rowB.port
    requires rowA.status == rowB.status == Provisioning
    ensures PortsApart(rows[a := rowA]) <==> !OthersPort(rows, {}, rowA.port)
    ensures PortsApart(rows[a := rowA][b := rowB]) <==> !OthersPort(rows, {}, rowA.port) && !OthersPort(rows, {}, rowB.port)
  {
    var one := rows[a := rowA];
    NoRowYet(rows, a, rowA.port);
    OneRowIff(rows, one, a);
    if PortsApart(one) {
      NoRowYet(one, b, rowB.port);
      OneRowIff(one, one[b := rowB], b);
      assert OthersPort(one, {}, rowB.port) <==> OthersPort(rows, {}, rowB.port) by {
        if other: nat :| Live(rows, other) && other !in {} && rows[other].port == rowB.port {
          assert Live(one, other) && one[other].port == rowB.port;
        }
      }
    } else {
      var x, y :| Live(one, x) && Live(one, y) && one[x].port == one[y].port && x != y;
      assert Live(one[b := rowB], x) && Live(one[b := rowB], y);
    }
  }

  lemma BundleSharesIff(s: State, step: Step)
    requires PortsApart(s.rows) && Possible(s, step) && step.Bundle?
    ensures PortsApart(Next(s, step).rows) <==> !SharesPort(s, step)
  {
    var first := FirstFree(s.low, s.high, s.taken);
    if first.Some? {
      var second := FirstFree(s.low, s.high, s.taken + {first.value});
      if second.Some? {
        assert second.value !in s.taken + {first.value};
        TwoRowsIff(s.rows, step.a, step.b, Row(step.user, first.value, Provisioning, false),
                   Row(step.user, second.value, Provisioning, false));
        hide PortsApart, OthersPort;
      }
    }
  }

  lemma ReadySharesIff(s: State, task: nat)
    requires PortsApart(s.rows) && task in s.builds
    ensures PortsApart(FinishBuild(s, task, true).rows) <==> !SharesPort(s, EndBuild(task, true))
  {
    var t, ids := FinishBuild(s, task, true).rows, s.builds[task].parts.Keys;
    assert t.Keys == s.rows.Keys && forall id :: id in t ==> t[id].port == s.rows[id].port;
    assert forall id :: Live(t, id) <==> Revives(s.rows, ids, id);
    hide FinishBuild;
    if id, other :| RevivesShared(s.rows, ids, id, other) {
      assert Live(t, id) && Live(t, other);
    } else {
      forall x, y | Live(t, x) && Live(t, y) && t[x].port == t[y].port ensures x == y {
        assert !RevivesShared(s.rows, ids, x, y) && !RevivesShared(s.rows, ids, y, x);
      }
    }
  }

  lemma FewerLive(before: Rows, after: Rows)
    requires PortsApart(before) && forall id :: Live(after, id) ==> Live(before, id) && after[id].port == before[id].port
    ensures PortsApart(after)
  {
  }

  lemma StatusSharesIff(s: State, step: Step)
    requires PortsApart(s.rows) && (step.Act? || step.Delete?)
    ensures PortsApart(Next(s, step).rows) <==> !SharesPort(s, step)
  {
    var t := Next(s, step).rows;
    if t != s.rows {
      OneRowIff(s.rows, t, step.id);
      hide PortsApart, OthersPort;
    } else if SharesPort(s, step) {
      assert t[step.id] == s.rows[step.id] && Live(t, step.id);
      OneRowIff(s.rows, t, step.id);
    }
  }

  /** For every step, careful or not: live databases stay on ports of their own if and only if the step is
      not one of those. */
  lemma StepKeepsPortsApartIff(s: State, step: Step)
    requires PortsApart(s.rows) && Possible(s, step)
    ensures PortsApart(Next(s, step).rows) <==> !SharesPort(s, step)
  {
    hide PortsApart, StoresShared, StartBuild;
    match step {
      case Create(user, id, task, stored) => BuildSharesIff(s, user, id, task, stored, true);
      case Clone(user, id, task, stored) => BuildSharesIff(s, user, id, task, stored, false);
      case Bundle(_, _, _, _, _) => hide Next, SharesPort; BundleSharesIff(s, step);
      case EndBuild(task, provisioned) =>
        if task in s.builds && provisioned {
          hide FinishBuild, SharesPort;
          ReadySharesIff(s, task);
        } else {
          FewerLive(s.rows, Next(s, step).rows);
        }
      case Act(_, _, _) => hide Next, SharesPort; StatusSharesIff(s, step);
      case Delete(_, _) => hide Next, SharesPort; StatusSharesIff(s, step);
      case EndRemoval(id, port) => FewerLive(s.rows, Next(s, step).rows);
      case Force(id) => FewerLive(s.rows, Next(s, step).rows);
      case Reboot =>
    }
  }

  // ---- Deleting as an inverse ----

  /** The request and its cleanup together do what the administrator's delete does at once. */
  lemma DeleteThenCleanupIsForce(s: State, user: nat, id: nat)
    requires id in s.rows && s.rows[id].owner == user && (id, AsU16(s.rows[id].port)) !in s.removals
    ensures FinishRemoval(DeleteDatabase(s, user, id).0, id, AsU16(s.rows[id].port)) == ForceDelete(s, id).0
  {
    var r := (id, AsU16(s.rows[id].port));
    assert s.removals + multiset{r} - multiset{r} == s.removals;
    assert DeleteDatabase(s, user, id).0.rows - {id} == s.rows - {id};
  }

  /** A database created, provisioned, deleted and cleaned up leaves no trace: rows, port pool and tasks
      are as before. */
  lemma DeletingUndoesCreating(s: State, user: nat, id: nat, task: nat)
    requires s.high < PORTS && id !in s.rows && task !in s.builds && FirstFree(s.low, s.high, s.taken).Some?
    requires (id, FirstFree(s.low, s.high, s.taken).value) !in s.removals
    ensures var port := FirstFree(s.low, s.high, s.taken).value;
            var up := FinishBuild(CreateDatabase(s, user, id, task, true).0, task, true);
            && Live(up.rows, id) && up.rows[id] == Row(user, port, Running, true) && up.taken == s.taken + {port}
            && FinishRemoval(DeleteDatabase(up, user, id).0, id, port) == s
  {
    var port := FirstFree(s.low, s.high, s.taken).value;
    var made := CreateDatabase(s, user, id, task, true).0;
    var up := FinishBuild(made, task, true);
    ReadyRow(s, user, id, task, port);
    hide FinishBuild, CreateDatabase;
    DeleteThenCleanupIsForce(up, user, id);
    hide FinishRemoval, DeleteDatabase;
    assert up.rows - {id} == s.rows && s.taken + {port} - {port} == s.taken;
  }

  lemma ReadyRow(s: State, user: nat, id: nat, task: nat, port: nat)
    requires id !in s.rows && task !in s.builds && FirstFree(s.low, s.high, s.taken) == Some(port)
    ensures FinishBuild(CreateDatabase(s, user, id, task, true).0, task, true)
            == s.(rows := s.rows[id := Row(user, port, Running, true)], taken := s.taken + {port})
  {
    var made := CreateDatabase(s, user, id, task, true).0;
    assert made.builds[task].parts.Keys == {id};
    assert made.builds - {task} == s.builds;
    assert Mark(made.rows, {id}, Running, true) == s.rows[id := Row(user, port, Running, true)];
  }

  /** A container action is accepted exactly on the user's own database with a container; it changes
      that row's status and nothing else, and the last of several actions decides. */
  lemma LastActionDecides(s: State, user: nat, id: nat, first: Action, second: Action)
    ensures var (t, result) := ContainerAction(s, user, id, first);
            && (result.Ok? <==> id in s.rows && s.rows[id].owner == user && s.rows[id].container)
            && (result.Err? ==> t == s)
            && (result.Ok? ==> t == s.(rows := s.rows[id := s.rows[id].(status := t.rows[id].status)])
                               && t.rows[id].status == if first == Stop then Stopped else Running)
            && ContainerAction(t, user, id, second).0 == ContainerAction(s, user, id, second).0
  {
    var t := ContainerAction(s, user, id, first).0;
    if ContainerAction(s, user, id, first).1.Ok? {
      var last := if second.Stop? then Stopped else Running;
      assert t.rows[id := t.rows[id].(status := last)] == s.rows[id := s.rows[id].(status := last)];
    }
  }

  function FailedThenDeleted(user: nat, port: nat): seq<Step> {
    [Create(user, 0, 0, true), EndBuild(0, false), Create(user, 1, 1, true), EndBuild(1, true),
     Delete(user, 0), EndRemoval(0, port), Create(user, 2, 2, true)]
  }

  // The states along that run.
  function Along(low: nat, high: nat, user: nat): seq<State> {
    var waiting := Row(user, low, Provisioning, false);
    var failed := Row(user, low, Errored, false);
    var up := Row(user, low, Running, true);
    [Fresh(low, high),
     State(low, high, map[0 := waiting], {low}, map[0 := Build(map[0 := low], true)], multiset{}),
     State(low, high, map[0 := failed], {}, map[], multiset{}),
     State(low, high, map[0 := failed, 1 := waiting], {low}, map[1 := Build(map[1 := low], true)], multiset{}),
     State(low, high, map[0 := failed, 1 := up], {low}, map[], multiset{}),
     State(low, high, map[0 := failed.(status := Deleting), 1 := up], {low}, map[], multiset{(0, low)}),
     State(low, high, map[1 := up], {}, map[], multiset{}),
     State(low, high, map[1 := up, 2 := waiting], {low}, map[2 := Build(map[2 := low], true)], multiset{})]
  }

  lemma AlongTheRun(low: nat, high: nat, user: nat, i: nat)
    requires low <= high < PORTS && i < 7
    ensures Along(low, high, user)[i + 1] == Next(Along(low, high, user)[i], FailedThenDeleted(user, low)[i])
  {
    hide Next;
    var s := Along(low, high, user)[i];
    assert FirstFree(low, high, {}) == Some(low);
    if i == 0 {
      CreateStep(s, user, 0, 0, low);
    } else if i == 1 {
      FailStep(s, 0, 0);
    } else if i == 2 {
      CreateStep(s, user, 1, 1, low);
    } else if i == 3 {
      ReadyStep(s, 1, 1);
    } else if i == 4 {
      DeleteStep(s, user, 0);
    } else if i == 5 {
      CleanStep(s, 0, low);
    } else {
      CreateStep(s, user, 2, 2, low);
    }
  }

  lemma DeleteStep(s: State, user: nat, id: nat)
    requires id in s.rows && s.rows[id].owner == user && s.rows[id].port < PORTS && s.removals == multiset{}
    ensures Next(s, Delete(user, id))
            == s.(rows := s.rows[id := s.rows[id].(status := Deleting)], removals := multiset{(id, s.rows[id].port)})
  {
    assert multiset{} + multiset{(id, s.rows[id].port)} == multiset{(id, s.rows[id].port)};
  }

  lemma CleanStep(s: State, id: nat, port: nat)
    requires s.removals == multiset{(id, port)}
    ensures Next(s, EndRemoval(id, port))
            == s.(rows := s.rows - {id}, taken := s.taken - {port}, removals := multiset{})
  {
  }

  /** Why deletes must be of running or stopped databases: a database whose provisioning failed has
      given its port back already; deleting it gives the port back again, from under the database
      that has drawn it since, and the next one draws it a second time. */
  lemma DeletingAFailedDatabaseSharesAPort(low: nat, high: nat, user: nat)
    requires low <= high < PORTS
    ensures var s := Run(Fresh(low, high), FailedThenDeleted(user, low));
            Live(s.rows, 1) && Live(s.rows, 2) && s.rows[1].port == s.rows[2].port && !PortsApart(s.rows)
  {
    forall i: nat | i < 7
      ensures Along(low, high, user)[i + 1] == Next(Along(low, high, user)[i], FailedThenDeleted(user, low)[i])
    {
      AlongTheRun(low, high, user, i);
    }
    var last := Along(low, high, user)[7].rows;
    assert Live(last, 1) && Live(last, 2) && last[1].port == last[2].port;
    SharedPort(last, 1, 2);
    hide Next, Run, PortsApart, Live;
    RunInFull(Fresh(low, high), FailedThenDeleted(user, low), Along(low, high, user));
  }

  lemma SharedPort(rows: Rows, a: nat, b: nat)
    requires Live(rows, a) && Live(rows, b) && a != b && rows[a].port == rows[b].port
    ensures !PortsApart(rows)
  {
  }

  lemma CreateStep(s: State, user: nat, id: nat, task: nat, port: nat)
    requires FirstFree(s.low, s.high, s.taken) == Some(port) && s.builds == map[] && s.taken == {}
    ensures Next(s, Create(user, id, task, true))
            == State(s.low, s.high, s.rows[id := Row(user, port, Provisioning, false)], {port},
                     map[task := Build(map[id := port], true)], s.removals)
  {
  }

  lemma FailStep(s: State, task: nat, id: nat)
    requires id in s.rows && s.builds == map[task := Build(map[id := s.rows[id].port], true)] && s.taken == {s.rows[id].port}
    ensures Next(s, EndBuild(task, false))
            == State(s.low, s.high, s.rows[id := s.rows[id].(status := Errored, container := false)], {}, map[],
                     s.removals)
  {
    OnePort(id, s.rows[id].port);
  }

  lemma OnePort(id: nat, port: nat)
    ensures PortsOf(map[id := port]) == {port}
  {
    var parts := map[id := port];
    assert id in parts && parts[id] in PortsOf(parts);
  }

  lemma ReadyStep(s: State, task: nat, id: nat)
    requires id in s.rows && s.builds == map[task := Build(map[id := s.rows[id].port], true)]
    ensures Next(s, EndBuild(task, true))
            == State(s.low, s.high, s.rows[id := s.rows[id].(status := Running, container := true)], s.taken, map[],
                     s.removals)
  {
  }

  lemma {:induction false} RunInFull(s: State, steps: seq<Step>, states: seq<State>)
    requires |states| == |steps| + 1 && states[0] == s
    requires forall i :: 0 <= i < |steps| ==> states[i + 1] == Next(states[i], steps[i])
    ensures Run(s, steps) == states[|steps|]
  {
    if steps != [] {
      RunInFull(s, steps[..|steps| - 1], states[..|steps|]);
    }
  }

  // ---- Ports nobody holds ----

  function HeldPorts(rows: Rows): set<nat> {
    set id | id in rows && Live(rows, id) :: rows[id].port
  }

  /** The pool marks exactly the ports that live databases hold. */
  ghost predicate PoolExact(s: State) {
    s.taken == HeldPorts(s.rows)
  }

  /** The steps that leave a port taken with no live database on it: rows that could not be
      inserted, a clone that failed, and a restart that takes back a failed database's port. */
  ghost predicate LeaksPort(s: State, step: Step) {
    match step
    case Create(_, _, _, stored) => !stored && FirstFree(s.low, s.high, s.taken).Some?
    case Clone(_, _, _, stored) => !stored && FirstFree(s.low, s.high, s.taken).Some?
    case Bundle(_, _, _, _, stored) =>
      stored != Both && FirstFree(s.low, s.high, s.taken).Some?
      && FirstFree(s.low, s.high, s.taken + {FirstFree(s.low, s.high, s.taken).value}).Some?
    case EndBuild(task, provisioned) =>
      !provisioned && task in s.builds && !s.builds[task].releases && s.builds[task].parts != map[]
    case Reboot => exists id :: id in s.rows && s.rows[id].status == Errored && s.rows[id].port !in HeldPorts(s.rows)
    case _ => false
  }

  lemma HeldAdd(rows: Rows, id: nat, row: Row)
    requires id !in rows && row.status != Errored
    ensures HeldPorts(rows[id := row]) == HeldPorts(rows) + {row.port}
  {
    var more := rows[id := row];
    assert Live(more, id);
    forall p | p in HeldPorts(rows) ensures p in HeldPorts(more) {
      var i :| i in rows && Live(rows, i) && rows[i].port == p;
      assert i != id && more[i] == rows[i];
      assert Live(more, i);
    }
    forall p | p in HeldPorts(more) ensures p in HeldPorts(rows) + {row.port} {
      var i :| i in more && Live(more, i) && more[i].port == p;
      if i != id {
        assert Live(rows, i) && rows[i] == more[i];
      }
    }
  }

  // Rows taken out, or put in error.
  lemma HeldLess(before: Rows, after: Rows, ports: set<nat>)
    requires PortsApart(before)
    requires forall id :: Live(after, id) ==> Live(before, id) && after[id].port == before[id].port
    requires forall id :: Live(before, id) ==> (Live(after, id) <==> before[id].port !in ports)
    ensures HeldPorts(after) == HeldPorts(before) - ports
  {
    forall p | p in HeldPorts(after) ensures p in HeldPorts(before) - ports {
      var i :| i in after && Live(after, i) && after[i].port == p;
      assert Live(before, i);
    }
    forall p | p in HeldPorts(before) - ports ensures p in HeldPorts(after) {
      var i :| i in before && Live(before, i) && before[i].port == p;
      assert Live(after, i);
    }
  }

  lemma HeldSame(before: Rows, after: Rows)
    requires forall id :: Live(before, id) <==> Live(after, id)
    requires forall id :: Live(before, id) && Live(after, id) ==> before[id].port == after[id].port
    ensures HeldPorts(after) == HeldPorts(before)
  {
    forall p | p in HeldPorts(before) ensures p in HeldPorts(after) {
      var i :| Live(before, i) && before[i].port == p;
      assert Live(after, i);
    }
    forall p | p in HeldPorts(after) ensures p in HeldPorts(before) {
      var i :| Live(after, i) && after[i].port == p;
      assert Live(before, i);
    }
  }

  lemma StartBuildExactIff(s: State, user: nat, id: nat, task: nat, stored: bool, releases: bool)
    requires PoolExact(s) && id !in s.rows
    ensures PoolExact(StartBuild(s, user, id, task, stored, releases).0)
            <==> stored || FirstFree(s.low, s.high, s.taken).None?
  {
    hide HeldPorts;
    var free := FirstFree(s.low, s.high, s.taken);
    if free.Some? {
      HeldAdd(s.rows, id, Row(user, free.value, Provisioning, false));
    }
  }

  lemma BundleExactIff(s: State, user: nat, a: nat, b: nat, task: nat, stored: Stored)
    requires PoolExact(s) && a !in s.rows && b !in s.rows && a != b
    ensures PoolExact(CreateBundle(s, user, a, b, task, stored).0)
            <==> !LeaksPort(s, Bundle(user, a, b, task, stored))
  {
    hide HeldPorts;
    var free := FirstFree(s.low, s.high, s.taken);
    if free.Some? {
      var first := free.value;
      var next := FirstFree(s.low, s.high, s.taken + {first});
      if next.Some? {
        var rowA, rowB := Row(user, first, Provisioning, false), Row(user, next.value, Provisioning, false);
        HeldAdd(s.rows, a, rowA);
        HeldAdd(s.rows[a := rowA], b, rowB);
        assert first !in s.taken && next.value !in s.taken + {first};
      } else {
        assert s.taken + {first} - {first} == s.taken;
      }
    }
  }

  lemma ReadyExact(s: State, task: nat)
    requires BuildsFit(s.rows, s.builds) && PoolExact(s) && task in s.builds
    ensures PoolExact(FinishBuild(s, task, true))
  {
    var parts := s.builds[task].parts;
    assert forall id :: id in parts ==> PartFits(s.rows, id, parts[id]);
    hide HeldPorts, BuildsFit;
    HeldSame(s.rows, Mark(s.rows, parts.Keys, Running, true));
  }

  lemma FailedExactIff(s: State, task: nat)
    requires BuildsFit(s.rows, s.builds) && PortsApart(s.rows) && PoolExact(s) && task in s.builds
    ensures PoolExact(FinishBuild(s, task, false)) <==> s.builds[task].releases || s.builds[task].parts == map[]
  {
    var parts := s.builds[task].parts;
    assert forall id :: id in parts ==> PartFits(s.rows, id, parts[id]);
    FailedPorts(s.rows, parts);
    if parts == map[] {
      assert PortsOf(parts) == {};
    } else {
      var id :| id in parts;
      assert parts[id] in PortsOf(parts);
      IsHeld(s.rows, id);
    }
    hide HeldPorts, BuildsFit, PortsApart, Mark, PortsOf;
  }

  lemma FinishBuildExactIff(s: State, task: nat, provisioned: bool)
    requires Sound(s) && PoolExact(s)
    ensures PoolExact(FinishBuild(s, task, provisioned)) <==> !LeaksPort(s, EndBuild(task, provisioned))
  {
    assert BuildsFit(s.rows, s.builds) && PortsApart(s.rows);
    hide Sound, BuildsFit, PortsApart, PoolExact;
    if task in s.builds {
      hide FinishBuild;
      if provisioned {
        ReadyExact(s, task);
      } else {
        FailedExactIff(s, task);
      }
    }
  }

  lemma IsHeld(rows: Rows, id: nat)
    requires Live(rows, id)
    ensures rows[id].port in HeldPorts(rows)
  {
  }

  lemma FailedPorts(rows: Rows, parts: map<nat, nat>)
    requires PortsApart(rows) && forall id :: id in parts ==> PartFits(rows, id, parts[id])
    ensures HeldPorts(Mark(rows, parts.Keys, Errored, false)) == HeldPorts(rows) - PortsOf(parts)
  {
    var marked := Mark(rows, parts.Keys, Errored, false);
    forall id | Live(rows, id) ensures Live(marked, id) <==> rows[id].port !in PortsOf(parts) {
      if id !in parts && rows[id].port in PortsOf(parts) {
        var other :| other in parts && parts[other] == rows[id].port;
        assert PartFits(rows, other, parts[other]) && Live(rows, other);
      }
    }
    HeldLess(rows, marked, PortsOf(parts));
  }

  lemma RowGoneExact(s: State, id: nat)
    requires PortsApart(s.rows) && PoolExact(s) && Live(s.rows, id)
    ensures HeldPorts(s.rows - {id}) == s.taken - {s.rows[id].port}
  {
    HeldLess(s.rows, s.rows - {id}, {s.rows[id].port});
  }

  lemma RestartExactIff(s: State)
    requires Sound(s) && s.removals == multiset{}
    ensures PoolExact(RestartService(s)) <==> !LeaksPort(s, Reboot)
  {
    hide Sound, HeldPorts, LoadedPorts;
    NoneDeleting(s);
    RestartPorts(s.rows);
    if id :| id in s.rows && s.rows[id].status == Errored && s.rows[id].port !in HeldPorts(s.rows) {
      assert s.rows[id].port in LoadedPorts(s.rows);
    } else {
      forall id | id in s.rows ensures s.rows[id].port in HeldPorts(s.rows) {
        if Live(s.rows, id) {
          IsHeld(s.rows, id);
        }
      }
    }
  }

  lemma NoneDeleting(s: State)
    requires Sound(s) && s.removals == multiset{}
    ensures forall id :: id in s.rows ==> s.rows[id].status != Deleting && s.rows[id].port < PORTS
  {
    hide PortsApart, PortsTaken, BuildsFit;
  }

  lemma RestartPorts(rows: Rows)
    requires forall id :: id in rows ==> rows[id].status != Deleting && rows[id].port < PORTS
    ensures forall id :: id in rows ==> rows[id].port in LoadedPorts(rows)
    ensures forall p :: p in LoadedPorts(rows) ==> exists id :: id in rows && rows[id].port == p
    ensures HeldPorts(rows) <= LoadedPorts(rows)
  {
  }

  lemma ActExact(s: State, user: nat, id: nat, action: Action)
    requires RowsFit(s.rows) && PoolExact(s)
    ensures PoolExact(ContainerAction(s, user, id, action).0)
  {
    hide HeldPorts;
    HeldSame(s.rows, ContainerAction(s, user, id, action).0.rows);
  }

  lemma DeleteExact(s: State, user: nat, id: nat)
    requires Deletable(s, id) && PoolExact(s)
    ensures PoolExact(DeleteDatabase(s, user, id).0)
  {
    hide HeldPorts;
    HeldSame(s.rows, DeleteDatabase(s, user, id).0.rows);
  }

  lemma RemovalExact(s: State, id: nat, port: nat)
    requires Sound(s) && PoolExact(s)
    ensures PoolExact(FinishRemoval(s, id, port))
  {
    if (id, port) in s.removals {
      assert RemovalFits(s.rows, s.removals, id, port);
      RowGoneExact(s, id);
      hide HeldPorts, Sound;
    }
  }

  lemma ForceExact(s: State, id: nat)
    requires Sound(s) && Deletable(s, id) && PoolExact(s)
    ensures PoolExact(ForceDelete(s, id).0)
  {
    if id in s.rows {
      assert AsU16(s.rows[id].port) == s.rows[id].port by {
        assert RowsFit(s.rows);
      }
      RowGoneExact(s, id);
      hide HeldPorts, Sound;
    }
  }

  /** As long as it starts exact, the pool stays exact through every careful step except those that
      leak a port, and those always do. */
  lemma StepKeepsPoolExactIff(s: State, step: Step)
    requires Sound(s) && PoolExact(s) && Possible(s, step) && Careful(s, step)
    ensures PoolExact(Next(s, step)) <==> !LeaksPort(s, step)
  {
    assert RowsFit(s.rows);
    hide Sound, PoolExact, StartBuild, CreateBundle, FinishBuild, ContainerAction, DeleteDatabase, FinishRemoval,
         ForceDelete, RestartService, RowsFit;
    match step {
      case Create(user, id, task, stored) => StartBuildExactIff(s, user, id, task, stored, true);
      case Bundle(user, a, b, task, stored) => BundleExactIff(s, user, a, b, task, stored);
      case Clone(user, id, task, stored) => StartBuildExactIff(s, user, id, task, stored, false);
      case EndBuild(task, provisioned) => FinishBuildExactIff(s, task, provisioned);
      case Act(user, id, action) => ActExact(s, user, id, action);
      case Delete(user, id) => DeleteExact(s, user, id);
      case EndRemoval(id, port) => RemovalExact(s, id, port);
      case Force(id) => ForceExact(s, id);
      case Reboot => RestartExactIff(s);
    }
  }

  // ---- The leaks are reached ----

  /** A careful run from a fresh service that ends in `s`. */
  predicate Arrives(low: nat, high: nat, steps: seq<Step>, s: State) {
    CarefulRun(Fresh(low, high), steps) && Run(Fresh(low, high), steps) == s
  }

  lemma Onwards(low: nat, high: nat, steps: seq<Step>, s: State, step: Step)
    requires Arrives(low, high, steps, s) && Possible(s, step) && Careful(s, step)
    ensures Arrives(low, high, steps + [step], Next(s, step))
  {
    assert (steps + [step])[..|steps|] == steps;
    hide Next, Possible, Careful;
  }

  lemma FreshArrives(low: nat, high: nat)
    ensures Arrives(low, high, [], Fresh(low, high)) && PoolExact(Fresh(low, high))
  {
  }

  /** Each kind of leak, at the end of a careful run from a fresh service: a row that could not be
      inserted, a clone that failed, and a restart after a failed creation. */
  lemma LeaksAreReached(low: nat, high: nat, user: nat)
    returns (insert: seq<Step>, clone: seq<Step>, restart: seq<Step>)
    requires low <= high < PORTS
    ensures insert == [Create(user, 0, 0, false)]
    ensures clone == [Clone(user, 0, 0, true), EndBuild(0, false)]
    ensures restart == [Create(user, 0, 0, true), EndBuild(0, false), Reboot]
    ensures forall steps :: steps in [insert, clone, restart] ==>
      CarefulRun(Fresh(low, high), steps) && !PoolExact(Run(Fresh(low, high), steps))
  {
    FreshArrives(low, high);
    assert FirstFree(low, high, {}) == Some(low);
    insert := InsertLeaks(low, high, user);
    clone := CloneLeaks(low, high, user);
    restart := RestartLeaks(low, high, user);
    hide PoolExact, CarefulRun, Run;
  }

  lemma NotExact(s: State, port: nat)
    requires port in s.taken && forall id :: Live(s.rows, id) ==> s.rows[id].port != port
    ensures !PoolExact(s)
  {
  }

  lemma InsertLeaks(low: nat, high: nat, user: nat) returns (steps: seq<Step>)
    requires low <= high && FirstFree(low, high, {}) == Some(low)
    ensures steps == [Create(user, 0, 0, false)]
    ensures CarefulRun(Fresh(low, high), steps) && !PoolExact(Run(Fresh(low, high), steps))
  {
    FreshArrives(low, high);
    var step := Create(user, 0, 0, false);
    Onwards(low, high, [], Fresh(low, high), step);
    steps := [] + [step];
    NotExact(Next(Fresh(low, high), step), low);
    hide PoolExact, Next, Run, CarefulRun;
  }

  lemma CloneLeaks(low: nat, high: nat, user: nat) returns (steps: seq<Step>)
    requires low <= high && FirstFree(low, high, {}) == Some(low)
    ensures steps == [Clone(user, 0, 0, true), EndBuild(0, false)]
    ensures CarefulRun(Fresh(low, high), steps) && !PoolExact(Run(Fresh(low, high), steps))
  {
    FreshArrives(low, high);
    var first, second := Clone(user, 0, 0, true), EndBuild(0, false);
    var s := Next(Fresh(low, high), first);
    assert s.taken == {low} && s.builds == map[0 := Build(map[0 := low], false)];
    var t := Next(s, second);
    NotExact(t, low);
    assert Possible(Fresh(low, high), first) && Careful(Fresh(low, high), first);
    hide PoolExact, Next, Run, CarefulRun;
    Onwards(low, high, [], Fresh(low, high), first);
    Onwards(low, high, [] + [first], s, second);
    steps := [] + [first] + [second];
  }

  lemma RestartLeaks(low: nat, high: nat, user: nat) returns (steps: seq<Step>)
    requires low <= high < PORTS && FirstFree(low, high, {}) == Some(low)
    ensures steps == [Create(user, 0, 0, true), EndBuild(0, false), Reboot]
    ensures CarefulRun(Fresh(low, high), steps) && !PoolExact(Run(Fresh(low, high), steps))
  {
    FreshArrives(low, high);
    var first, second := Create(user, 0, 0, true), EndBuild(0, false);
    var s := Next(Fresh(low, high), first);
    assert s.taken == {low} && s.builds == map[0 := Build(map[0 := low], true)] && s.removals == multiset{};
    var t := Next(s, second);
    var u := Next(t, Reboot);
    assert t.rows == map[0 := Row(user, low, Errored, false)] && t.removals == multiset{};
    assert low in u.taken by {
      assert 0 in t.rows && t.rows[0].port == low;
    }
    NotExact(u, low);
    assert Possible(Fresh(low, high), first) && Careful(Fresh(low, high), first);
    hide PoolExact, Next, Run, CarefulRun;
    Onwards(low, high, [], Fresh(low, high), first);
    Onwards(low, high, [] + [first], s, second);
    Onwards(low, high, [] + [first] + [second], t, Reboot);
    steps := [] + [first] + [second] + [Reboot];
  }
}
