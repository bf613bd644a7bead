/**
 The part of nftables the peering firewall relies on: tables with one forward chain each, all
 hooked at the same point. Within a chain the first matching rule decides; a drop in any
 table is final, while an accept lets the other tables still decide.
 */
module Nftables {
  import opened Wrappers

  datatype Verdict = Accept | Drop

  /** Whether an address lies in the subnet a text such as "172.18.0.0/16" denotes; every address lies in
      0.0.0.0/0. */
  type Addressing = lies: (string, nat) -> bool | forall address: nat :: lies("0.0.0.0/0", address)
    witness (text: string, address: nat) => true

  datatype Packet = Packet(
    iif: string,
    oif: string,
    established: bool,
    source: nat,
    dest: nat,
    proto: string,
    dport: int)

  datatype NftRule = NftRule(
    iif: string,
    oif: string,
    onlyEstablished: bool,
    saddr: Option<string>,
    daddr: Option<string>,
    dport: Option<(string, int)>,
    verdict: Verdict)

  /** A table, and its forward chain once that has been added. */
  datatype Table = Table(forward: Option<seq<NftRule>>)

  type Ruleset = map<string, Table>

  datatype Command =
    | DeleteTable(table: string)
    | AddTable(table: string)
    | AddForwardChain(table: string)
    | AddRule(table: string, rule: NftRule)

  /** One command of the script; a failing command changes nothing and the next one runs. */
  function Execute(command: Command, ruleset: Ruleset): Ruleset {
    match command
    case DeleteTable(t) => ruleset - {t}
    case AddTable(t) => if t in ruleset then ruleset else ruleset[t := Table(None)]
    case AddForwardChain(t) =>
      if t in ruleset && ruleset[t].forward.None? then ruleset[t := Table(Some([]))] else ruleset
    case AddRule(t, rule) =>
      if t in ruleset && ruleset[t].forward.Some?
      then ruleset[t := Table(Some(ruleset[t].forward.value + [rule]))]
      else ruleset
  }

  function ExecuteAll(script: seq<Command>, ruleset: Ruleset): Ruleset {
    if script == [] then ruleset
    else Execute(script[|script| - 1], ExecuteAll(script[..|script| - 1], ruleset))
  }

  predicate Hits(nets: Addressing, rule: NftRule, p: Packet) {
    && p.iif == rule.iif && p.oif == rule.oif
    && (rule.onlyEstablished ==> p.established)
    && (rule.saddr.Some? ==> nets(rule.saddr.value, p.source))
    && (rule.daddr.Some? ==> nets(rule.daddr.value, p.dest))
    && (rule.dport.Some? ==> p.proto == rule.dport.value.0 && p.dport == rule.dport.value.1)
  }

  // The chain's policy is accept.
  function ChainVerdict(nets: Addressing, rules: seq<NftRule>, p: Packet): Verdict {
    if rules == [] then Accept
    else if Hits(nets, rules[0], p) then rules[0].verdict
    else ChainVerdict(nets, rules[1..], p)
  }

  function TableVerdict(nets: Addressing, table: Table, p: Packet): Verdict {
    match table.forward
    case None => Accept
    case Some(rules) => ChainVerdict(nets, rules, p)
  }

  function RulesetVerdict(nets: Addressing, ruleset: Ruleset, p: Packet): Verdict {
    if exists t :: t in ruleset && TableVerdict(nets, ruleset[t], p) == Drop then Drop else Accept
  }

  lemma {:induction false} ExecuteConcat(a: seq<Command>, b: seq<Command>, ruleset: Ruleset)
    ensures ExecuteAll(a + b, ruleset) == ExecuteAll(b, ExecuteAll(a, ruleset))
  {
    if b == [] {
      assert a + b == a;
    } else {
      assert (a + b)[..|a + b| - 1] == a + b[..|b| - 1];
      ExecuteConcat(a, b[..|b| - 1], ruleset);
    }
  }

  /** The host whose ruleset the scripts change. */
  class Host {
    var ruleset: Ruleset

    method ExecOnHost(script: seq<Command>)
      modifies this
      ensures ruleset == ExecuteAll(script, old(ruleset))
    {
      for i := 0 to |script|
        invariant ruleset == ExecuteAll(script[..i], old(ruleset))
      {
        assert script[..i + 1][..i] == script[..i];
        ruleset := Execute(script[i], ruleset);
      }
      assert script[..|script|] == script;
    }
  }
}
