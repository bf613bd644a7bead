/** The database handlers and their spawned tails, step by step on the rows and the port pool. */
module DatabaseService {
  import opened Wrappers
  import opened PortPool
  import opened DatabaseLifecycle

  class Service {
    var rows: Rows
    var builds: Builds
    var removals: Removals
    var pool: Pool

    ghost function Tables(): State
      reads this, pool
    {
      State(pool.start, pool.end, rows, pool.taken, builds, removals)
    }

    constructor (start: nat, end: nat)
      ensures Tables() == Fresh(start, end) && fresh(pool)
    {
      rows, builds, removals := map[], map[], multiset{};
      pool := new Pool(start, end);
    }

    method Create(user: nat, id: nat, task: nat, stored: bool) returns (result: Result<Unit>)
      modifies this, pool
      ensures pool == old(pool)
      ensures (Tables(), result) == CreateDatabase(old(Tables()), user, id, task, stored)
    {
      var port := pool.Allocate();
      if port.Err? { return Err(port.error); }
      if !stored { return Err(Internal); }
      rows := rows[id := Row(user, port.value, Provisioning, false)];
      builds := builds[task := Build(map[id := port.value], true)];
      return Ok(Unit);
    }

    method Clone(user: nat, id: nat, task: nat, stored: bool) returns (result: Result<Unit>)
      modifies this, pool
      ensures pool == old(pool)
      ensures (Tables(), result) == CloneDatabase(old(Tables()), user, id, task, stored)
    {
      var port := pool.Allocate();
      if port.Err? { return Err(port.error); }
      if !stored { return Err(Internal); }
      rows := rows[id := Row(user, port.value, Provisioning, false)];
      builds := builds[task := Build(map[id := port.value], false)];
      return Ok(Unit);
    }

    method Bundle(user: nat, a: nat, b: nat, task: nat, stored: Stored) returns (result: Result<Unit>)
      modifies this, pool
      ensures pool == old(pool)
      ensures (Tables(), result) == CreateBundle(old(Tables()), user, a, b, task, stored)
    {
      var first := pool.Allocate();
      if first.Err? { return Err(first.error); }
      var second := pool.Allocate();
      if second.Err? {
        pool.Release(first.value);
        return Err(second.error);
      }
      assert pool.taken == old(pool.taken) + {first.value, second.value};
      if stored == Neither { return Err(Internal); }
      rows := rows[a := Row(user, first.value, Provisioning, false)];
      if stored == First { return Err(Internal); }
      rows := rows[b := Row(user, second.value, Provisioning, false)];
      builds := builds[task := Build(map[a := first.value, b := second.value], true)];
      return Ok(Unit);
    }

    // UPDATE ... WHERE id: reaches nothing when the row is gone.
    method UpdateStatus(id: nat, status: Status, container: bool)
      modifies `rows
      ensures rows == Mark(old(rows), {id}, status, container)
    {
      if id in rows {
        rows := rows[id := Row(rows[id].owner, rows[id].port, status, container)];
      }
    }

    method EndBuild(task: nat, provisioned: bool)
      modifies this, pool
      ensures pool == old(pool)
      ensures Tables() == FinishBuild(old(Tables()), task, provisioned)
    {
      hide Mark, PortsOf;
      if task !in builds { return; }
      var build := builds[task];
      builds := builds - {task};
      MarkNone(rows, if provisioned then Running else Errored, provisioned);
      var todo := build.parts.Keys;
      assert build.parts.Keys - todo == {};
      while todo != {}
        invariant todo <= build.parts.Keys && pool == old(pool) && pool.taken == old(pool.taken)
        invariant builds == old(builds) - {task} && removals == old(removals)
        invariant rows == Mark(old(rows), build.parts.Keys - todo, if provisioned then Running else Errored, provisioned)
        decreases todo
      {
        var id :| id in todo;
        MarkOneMore(old(rows), build.parts.Keys - todo, id, if provisioned then Running else Errored, provisioned);
        assert build.parts.Keys - (todo - {id}) == (build.parts.Keys - todo) + {id};
        UpdateStatus(id, if provisioned then Running else Errored, provisioned);
        todo := todo - {id};
      }
      assert build.parts.Keys - {} == build.parts.Keys;
      if !provisioned && build.releases {
        ReleaseAll(build.parts);
      }
    }

    method ReleaseAll(parts: map<nat, nat>)
      modifies pool
      ensures pool.taken == old(pool.taken) - PortsOf(parts)
    {
      var todo := parts.Keys;
      while todo != {}
        invariant todo <= parts.Keys
        invariant pool.taken == old(pool.taken) - set id | id in parts && id !in todo :: parts[id]
        decreases todo
      {
        var id :| id in todo;
        pool.Release(parts[id]);
        assert (set i | i in parts && i !in todo - {id} :: parts[i])
               == (set i | i in parts && i !in todo :: parts[i]) + {parts[id]};
        todo := todo - {id};
      }
    }

    method Act(user: nat, id: nat, action: Action) returns (result: Result<Unit>)
      modifies this
      ensures pool == old(pool)
      ensures (Tables(), result) == ContainerAction(old(Tables()), user, id, action)
    {
      if id !in rows { return Err(NotFound); }
      if rows[id].owner != user { return Err(Forbidden); }
      if !rows[id].container { return Err(BadRequest); }
      match action {
        case Start => rows := rows[id := rows[id].(status := Running)];
        case Stop => rows := rows[id := rows[id].(status := Stopped)];
        case Restart => rows := rows[id := rows[id].(status := Running)];
      }
      return Ok(Unit);
    }

    method Delete(user: nat, id: nat) returns (result: Result<Unit>)
      modifies this
      ensures pool == old(pool)
      ensures (Tables(), result) == DeleteDatabase(old(Tables()), user, id)
    {
      if id !in rows { return Err(NotFound); }
      if rows[id].owner != user { return Err(Forbidden); }
      var port := AsU16(rows[id].port);
      rows := rows[id := rows[id].(status := Deleting)];
      removals := removals + multiset{(id, port)};
      return Ok(Unit);
    }

    method EndRemoval(id: nat, port: nat)
      modifies this, pool
      ensures pool == old(pool)
      ensures Tables() == FinishRemoval(old(Tables()), id, port)
    {
      if (id, port) !in removals { return; }
      removals := removals - multiset{(id, port)};
      rows := rows - {id};
      pool.Release(port);
    }

    method Force(id: nat) returns (result: Result<Unit>)
      modifies this, pool
      ensures pool == old(pool)
      ensures (Tables(), result) == ForceDelete(old(Tables()), id)
    {
      if id !in rows { return Err(NotFound); }
      var port := AsU16(rows[id].port);
      rows := rows - {id};
      pool.Release(port);
      return Ok(Unit);
    }

    // SELECT port FROM database_instances WHERE status != 'deleting'
    method AllocatedPorts() returns (ports: seq<int>)
      ensures Loadable(ports) == LoadedPorts(rows)
    {
      ports := [];
      var todo := rows.Keys;
      while todo != {}
        invariant todo <= rows.Keys
        invariant forall p :: p in ports <==>
          exists id :: id in rows && id !in todo && rows[id].status != Deleting && rows[id].port == p
        decreases todo
      {
        var id :| id in todo;
        ghost var before := ports;
        var left := todo - {id};
        if rows[id].status != Deleting {
          ports := ports + [rows[id].port];
        }
        forall p ensures p in ports <==>
          exists i :: i in rows && i !in left && rows[i].status != Deleting && rows[i].port == p
        {
          if p in before {
            var i :| i in rows && i !in todo && rows[i].status != Deleting && rows[i].port == p;
            assert i !in left;
          }
          if i :| i in rows && i !in left && rows[i].status != Deleting && rows[i].port == p {
            assert i == id || p in before;
          }
        }
        todo := left;
      }
    }

    method Reboot()
      modifies this
      ensures fresh(pool) && Tables() == RestartService(old(Tables()))
    {
      builds, removals := map[], multiset{};
      pool := new Pool(pool.start, pool.end);
      var ports := AllocatedPorts();
      pool.LoadAllocated(ports);
    }
  }

  lemma MarkNone(rows: Rows, status: Status, container: bool)
    ensures Mark(rows, {}, status, container) == rows
  {
  }

  lemma MarkOneMore(rows: Rows, done: set<nat>, id: nat, status: Status, container: bool)
    ensures Mark(Mark(rows, done, status, container), {id}, status, container)
            == Mark(rows, done + {id}, status, container)
  {
  }
}
