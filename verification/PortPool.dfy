/** The pool of ports that new databases draw from: a range and the set of ports handed out. */
module PortPool {
  import opened Wrappers

  const PORTS := 65536

  /** The smallest port of the range that is not handed out. */
  function FirstFree(low: nat, high: nat, taken: set<nat>): (port: Option<nat>)
    ensures port.Some? ==> low <= port.value <= high && port.value !in taken
    ensures port.Some? ==> forall q :: low <= q < port.value ==> q in taken
    ensures port.None? <==> forall q :: low <= q <= high ==> q in taken
    decreases high + 1 - low
  {
    if high < low then None
    else if low !in taken then Some(low)
    else FirstFree(low + 1, high, taken)
  }

  /** The stored port numbers that fit sixteen bits; any other is ignored. */
  function Loadable(ports: seq<int>): set<nat> {
    set p | p in ports && 0 <= p < PORTS
  }

  class Pool {
    const start: nat
    const end: nat
    var taken: set<nat>

    constructor (start: nat, end: nat)
      ensures this.start == start && this.end == end && taken == {}
    {
      this.start, this.end := start, end;
      taken := {};
    }

    method LoadAllocated(ports: seq<int>)
      modifies this
      ensures taken == old(taken) + Loadable(ports)
    {
      for i := 0 to |ports|
        invariant taken == old(taken) + Loadable(ports[..i])
      {
        assert forall p :: p in ports[..i + 1] <==> p in ports[..i] || p == ports[i];
        if 0 <= ports[i] < PORTS {
          taken := taken + {ports[i]};
        }
      }
      assert ports[..|ports|] == ports;
    }

    /** Hands out the smallest free port; fails exactly when the whole range is taken. */
    method Allocate() returns (result: Result<nat>)
      modifies this
      ensures FirstFree(start, end, old(taken)).None? ==> result == Err(Internal) && taken == old(taken)
      ensures FirstFree(start, end, old(taken)).Some? ==>
        result == Ok(FirstFree(start, end, old(taken)).value)
        && taken == old(taken) + {FirstFree(start, end, old(taken)).value}
    {
      var port := start;
      while port <= end
        invariant start <= port
        invariant taken == old(taken)
        invariant forall q :: start <= q < port ==> q in taken
        decreases end + 1 - port
      {
        if port !in taken {
          assert FirstFree(start, end, old(taken)) == Some(port);
          taken := taken + {port};
          return Ok(port);
        }
        port := port + 1;
      }
      return Err(Internal);
    }

    method Release(port: nat)
      modifies this
      ensures taken == old(taken) - {port}
    {
      taken := taken - {port};
    }
  }

  /** A released port is the next one handed out, unless a smaller one was free already. */
  lemma ReleasedPortComesBack(low: nat, high: nat, taken: set<nat>, port: nat)
    requires low <= port <= high && port in taken
    ensures FirstFree(low, high, taken - {port})
            == if exists q :: low <= q < port && q !in taken then FirstFree(low, high, taken) else Some(port)
  {
    var before, after := FirstFree(low, high, taken), FirstFree(low, high, taken - {port});
    assert port !in taken - {port};
    if q :| low <= q < port && q !in taken {
      assert q !in taken - {port};
      assert before.value !in taken - {port};
      assert after.value <= q;
    } else {
      assert forall q :: low <= q < port ==> q in taken - {port};
    }
  }
}
