/**
 Compiling a peering's rule list into an nftables script: what the rules mean, the script the
 service emits, and the theorem that running it makes the host decide as the rules say.
 */
module FirewallCompiler {
  import opened Wrappers
  import opened Nftables

  datatype FirewallRule = FirewallRule(
    source: string,
    dest: string,
    port: Option<int>,
    protocol: Option<string>,
    action: string)

  // ---- What a rule list means ----

  function ProtocolOf(rule: FirewallRule): string {
    if rule.protocol.Some? then rule.protocol.value else "tcp"
  }

  function VerdictOf(rule: FirewallRule): Verdict {
    if rule.action == "allow" then Accept else Drop
  }

  /** A rule with a port is about one protocol, tcp unless it says otherwise; a rule without one
      is about every protocol. */
  predicate Matches(nets: Addressing, rule: FirewallRule, p: Packet) {
    && nets(rule.source, p.source) && nets(rule.dest, p.dest)
    && (rule.port.Some? ==> p.proto == ProtocolOf(rule) && p.dport == rule.port.value)
  }

  /** The first matching rule decides; what no rule mentions is refused. */
  function FirstMatch(nets: Addressing, rules: seq<FirewallRule>, p: Packet): Verdict {
    if rules == [] then Drop
    else if Matches(nets, rules[0], p) then VerdictOf(rules[0])
    else FirstMatch(nets, rules[1..], p)
  }

  predicate OnBridge(bridge: string, p: Packet) {
    p.iif == bridge && p.oif == bridge
  }

  /** The decision a peering's rules stand for. */
  function Decide(nets: Addressing, bridge: string, rules: seq<FirewallRule>, p: Packet): Verdict {
    if !OnBridge(bridge, p) || p.established then Accept else FirstMatch(nets, rules, p)
  }

  // ---- Validation ----

  // Letters and digits of the ASCII range.
  predicate AllowedChar(c: char) {
    'a' <= c <= 'z' || 'A' <= c <= 'Z' || '0' <= c <= '9'
    || c == '.' || c == '/' || c == '-' || c == '_' || c == ':'
  }

  predicate ValidNftValue(text: string) {
    (forall i :: 0 <= i < |text| ==> AllowedChar(text[i])) && 1 <= |text| <= 64
  }

  predicate ValidRule(rule: FirewallRule) {
    && ValidNftValue(rule.source) && ValidNftValue(rule.dest) && ValidNftValue(ProtocolOf(rule))
    && (rule.port.Some? ==> 1 <= rule.port.value <= 65535)
  }

  ghost predicate ValidInput(peering: string, bridge: string, rules: seq<FirewallRule>) {
    ValidNftValue(peering) && ValidNftValue(bridge) && forall i :: 0 <= i < |rules| ==> ValidRule(rules[i])
  }

  // What a shell gives a meaning to, and what ends a word.
  const SPECIAL := " \t\n\r;|&$`\"'\\(){}<>[]*?!#~=%^,+@"

  /** An accepted value is one word of the script that no shell reads more into. */
  lemma AcceptedValuesAreWords(text: string)
    requires ValidNftValue(text)
    ensures text != "" && forall i :: 0 <= i < |text| ==> text[i] !in SPECIAL
  {
    hide AllowedChar;
    forall i | 0 <= i < |text| ensures text[i] !in SPECIAL {
      NotSpecial(text[i]);
    }
  }

  lemma NotSpecial(c: char)
    requires AllowedChar(c)
    ensures c !in SPECIAL
  {
  }

  // ---- The script ----

  function TableName(peering: string): string {
    "sb_peer_" + if |peering| <= 8 then peering else peering[..8]
  }

  function CompileRule(bridge: string, rule: FirewallRule): NftRule {
    NftRule(bridge, bridge, false, Some(rule.source), Some(rule.dest),
            if rule.port.Some? then Some((ProtocolOf(rule), rule.port.value)) else None,
            VerdictOf(rule))
  }

  function EstablishedRule(bridge: string): NftRule {
    NftRule(bridge, bridge, true, None, None, None, Accept)
  }

  function DefaultDeny(bridge: string): NftRule {
    NftRule(bridge, bridge, false, None, None, None, Drop)
  }

  function RuleCommands(table: string, bridge: string, rules: seq<FirewallRule>): seq<Command> {
    if rules == [] then []
    else
      var n := |rules| - 1;
      RuleCommands(table, bridge, rules[..n]) + [AddRule(table, CompileRule(bridge, rules[n]))]
  }

  function Preamble(table: string, bridge: string): seq<Command> {
    [DeleteTable(table), AddTable(table), AddForwardChain(table), AddRule(table, EstablishedRule(bridge))]
  }

  function Script(peering: string, bridge: string, rules: seq<FirewallRule>): seq<Command> {
    var table := TableName(peering);
    Preamble(table, bridge) + RuleCommands(table, bridge, rules) + [AddRule(table, DefaultDeny(bridge))]
  }

  method ValidateNftValue(text: string) returns (result: Result<Unit>)
    ensures result == if ValidNftValue(text) then Ok(Unit) else Err(BadRequest)
    ensures result.Ok? <==>
      && 1 <= |text| <= 64
      && forall i :: 0 <= i < |text| ==>
           'a' <= text[i] <= 'z' || 'A' <= text[i] <= 'Z' || '0' <= text[i] <= '9' || text[i] in "./-_:"
  {
    for i := 0 to |text|
      invariant forall j :: 0 <= j < i ==> AllowedChar(text[j])
    {
      if !AllowedChar(text[i]) {
        return Err(BadRequest);
      }
    }
    if text == [] || 64 < |text| {
      return Err(BadRequest);
    }
    return Ok(Unit);
  }

  method ValidateRule(rule: FirewallRule) returns (result: Result<Unit>)
    ensures result == if ValidRule(rule) then Ok(Unit) else Err(BadRequest)
    ensures result.Ok? <==>
      && ValidNftValue(rule.source) && ValidNftValue(rule.dest)
      && ValidNftValue(if rule.protocol.Some? then rule.protocol.value else "tcp")
      && (rule.port.Some? ==> 0 < rule.port.value < 65536)
  {
    result := ValidateNftValue(rule.source);
    if result.Err? { return; }
    result := ValidateNftValue(rule.dest);
    if result.Err? { return; }
    result := ValidateNftValue(ProtocolOf(rule));
    if result.Err? { return; }
    if rule.port.Some? && !(1 <= rule.port.value <= 65535) {
      result := Err(BadRequest);
    }
  }

  /** The script grows rule by rule and runs once, at the end: a rule list that is rejected
      anywhere leaves the host as it was. */
  method ApplyFirewallRules(host: Host, peering: string, bridge: string, rules: seq<FirewallRule>)
    returns (result: Result<Unit>)
    modifies host
    ensures result == if ValidInput(peering, bridge, rules) then Ok(Unit) else Err(BadRequest)
    ensures host.ruleset
            == if ValidInput(peering, bridge, rules) then ExecuteAll(Script(peering, bridge, rules), old(host.ruleset))
               else old(host.ruleset)
  {
    result := ValidateNftValue(peering);
    if result.Err? { return; }
    result := ValidateNftValue(bridge);
    if result.Err? { return; }
    var table := TableName(peering);
    var script := [DeleteTable(table)];
    script := script + [AddTable(table), AddForwardChain(table)];
    script := script + [AddRule(table, EstablishedRule(bridge))];
    for i := 0 to |rules|
      invariant host.ruleset == old(host.ruleset)
      invariant forall j :: 0 <= j < i ==> ValidRule(rules[j])
      invariant script == Preamble(table, bridge) + RuleCommands(table, bridge, rules[..i])
    {
      result := ValidateRule(rules[i]);
      if result.Err? {
        assert !ValidRule(rules[i]);
        return;
      }
      assert rules[..i + 1][..i] == rules[..i];
      script := script + [AddRule(table, CompileRule(bridge, rules[i]))];
    }
    assert rules[..|rules|] == rules;
    script := script + [AddRule(table, DefaultDeny(bridge))];
    host.ExecOnHost(script);
    result := Ok(Unit);
  }

  method RemoveFirewallRules(host: Host, peering: string)
    requires 8 <= |peering|
    modifies host
    ensures host.ruleset == old(host.ruleset) - {TableName(peering)}
  {
    host.ExecOnHost([DeleteTable(TableName(peering))]);
  }

  // ---- Compilation preserves meaning ----

  /** The chain a rule list compiles to. */
  function CompiledRules(bridge: string, rules: seq<FirewallRule>): seq<NftRule> {
    if rules == [] then [] else CompiledRules(bridge, rules[..|rules| - 1]) + [CompileRule(bridge, rules[|rules| - 1])]
  }

  function CompiledChain(bridge: string, rules: seq<FirewallRule>): seq<NftRule> {
    [EstablishedRule(bridge)] + CompiledRules(bridge, rules) + [DefaultDeny(bridge)]
  }

  function CompiledTable(bridge: string, rules: seq<FirewallRule>): Table {
    Table(Some(CompiledChain(bridge, rules)))
  }

  lemma {:induction false} RuleCommandsBuild(
    table: string, bridge: string, rules: seq<FirewallRule>, ruleset: Ruleset, chain: seq<NftRule>)
    requires table in ruleset && ruleset[table] == Table(Some(chain))
    ensures ExecuteAll(RuleCommands(table, bridge, rules), ruleset)
            == ruleset[table := Table(Some(chain + CompiledRules(bridge, rules)))]
  {
    if rules == [] {
      assert chain + [] == chain;
    } else {
      var n := |rules| - 1;
      var earlier := RuleCommands(table, bridge, rules[..n]);
      RuleCommandsBuild(table, bridge, rules[..n], ruleset, chain);
      var script := RuleCommands(table, bridge, rules);
      assert script[..|script| - 1] == earlier;
      assert chain + CompiledRules(bridge, rules[..n]) + [CompileRule(bridge, rules[n])]
             == chain + CompiledRules(bridge, rules);
    }
  }

  lemma PreambleBuilds(table: string, bridge: string, ruleset: Ruleset)
    ensures ExecuteAll(Preamble(table, bridge), ruleset)
            == (ruleset - {table})[table := Table(Some([EstablishedRule(bridge)]))]
  {
    var c1, c2, c3, c4 :=
      DeleteTable(table), AddTable(table), AddForwardChain(table), AddRule(table, EstablishedRule(bridge));
    var r1 := ruleset - {table};
    ExecuteOne(c1, ruleset);
    ExecuteMore([c1], c2, ruleset);
    ExecuteMore([c1, c2], c3, ruleset);
    ExecuteMore([c1, c2, c3], c4, ruleset);
    assert [c1] + [c2] == [c1, c2] && [c1, c2] + [c3] == [c1, c2, c3] && [c1, c2, c3] + [c4] == Preamble(table, bridge);
    assert ExecuteAll([c1, c2], ruleset) == r1[table := Table(None)];
    assert ExecuteAll([c1, c2, c3], ruleset) == r1[table := Table(Some([]))];
    assert [] + [EstablishedRule(bridge)] == [EstablishedRule(bridge)];
  }

  lemma ExecuteOne(command: Command, ruleset: Ruleset)
    ensures ExecuteAll([command], ruleset) == Execute(command, ruleset)
  {
    assert [command][..0] == [];
  }

  lemma ExecuteMore(script: seq<Command>, command: Command, ruleset: Ruleset)
    ensures ExecuteAll(script + [command], ruleset) == Execute(command, ExecuteAll(script, ruleset))
  {
    assert (script + [command])[..|script|] == script;
  }

  /** Whatever was there before, the script leaves the peering exactly one table, the compiled
      one, and every other table alone. */
  lemma ScriptInstallsTable(peering: string, bridge: string, rules: seq<FirewallRule>, ruleset: Ruleset)
    ensures ExecuteAll(Script(peering, bridge, rules), ruleset)
            == ruleset[TableName(peering) := CompiledTable(bridge, rules)]
  {
    var table := TableName(peering);
    var start, middle, end := Preamble(table, bridge), RuleCommands(table, bridge, rules),
                              [AddRule(table, DefaultDeny(bridge))];
    ExecuteConcat(start + middle, end, ruleset);
    ExecuteConcat(start, middle, ruleset);
    PreambleBuilds(table, bridge, ruleset);
    var begun := ExecuteAll(start, ruleset);
    RuleCommandsBuild(table, bridge, rules, begun, [EstablishedRule(bridge)]);
    ExecuteOne(end[0], ExecuteAll(middle, begun));
  }

  lemma {:induction false} ChainConcat(nets: Addressing, a: seq<NftRule>, b: seq<NftRule>, p: Packet)
    ensures ChainVerdict(nets, a + b, p)
            == if exists i :: 0 <= i < |a| && Hits(nets, a[i], p) then ChainVerdict(nets, a, p)
               else ChainVerdict(nets, b, p)
  {
    if a == [] {
      assert a + b == b;
    } else {
      assert (a + b)[1..] == a[1..] + b;
      ChainConcat(nets, a[1..], b, p);
      if Hits(nets, a[0], p) {
      } else {
        assert forall i :: 0 < i < |a| ==> a[i] == a[1..][i - 1];
        assert (exists i :: 0 <= i < |a| && Hits(nets, a[i], p))
               <==> (exists i :: 0 <= i < |a[1..]| && Hits(nets, a[1..][i], p));
      }
    }
  }

  lemma {:induction false} CompiledRulesFromFront(bridge: string, rules: seq<FirewallRule>)
    requires rules != []
    ensures CompiledRules(bridge, rules) == [CompileRule(bridge, rules[0])] + CompiledRules(bridge, rules[1..])
  {
    var n := |rules| - 1;
    if n == 0 {
      assert rules[..0] == [] && rules[1..] == [];
    } else {
      var first, last := CompileRule(bridge, rules[0]), CompileRule(bridge, rules[n]);
      CompiledRulesFromFront(bridge, rules[..n]);
      assert rules[..n][1..] == rules[1..][..n - 1] && rules[1..][n - 1] == rules[n];
      var middle := CompiledRules(bridge, rules[..n][1..]);
      assert [first] + middle + [last] == [first] + (middle + [last]);
    }
  }

  lemma {:induction false} RulesDecide(nets: Addressing, bridge: string, rules: seq<FirewallRule>, p: Packet)
    requires OnBridge(bridge, p) && !p.established
    ensures ChainVerdict(nets, CompiledRules(bridge, rules) + [DefaultDeny(bridge)], p)
            == FirstMatch(nets, rules, p)
  {
    if rules == [] {
      assert CompiledRules(bridge, rules) + [DefaultDeny(bridge)] == [DefaultDeny(bridge)];
    } else {
      CompiledRulesFromFront(bridge, rules);
      var first := CompileRule(bridge, rules[0]);
      var rest := CompiledRules(bridge, rules[1..]) + [DefaultDeny(bridge)];
      assert CompiledRules(bridge, rules) + [DefaultDeny(bridge)] == [first] + rest;
      assert ([first] + rest)[1..] == rest;
      assert Hits(nets, first, p) <==> Matches(nets, rules[0], p);
      RulesDecide(nets, bridge, rules[1..], p);
    }
  }

  lemma {:induction false} OtherBridgesPass(nets: Addressing, bridge: string, chain: seq<NftRule>, p: Packet)
    requires forall i :: 0 <= i < |chain| ==> chain[i].iif == bridge && chain[i].oif == bridge
    requires !OnBridge(bridge, p)
    ensures ChainVerdict(nets, chain, p) == Accept
  {
    if chain != [] {
      OtherBridgesPass(nets, bridge, chain[1..], p);
    }
  }

  lemma {:induction false} ChainStaysOnBridge(bridge: string, rules: seq<FirewallRule>)
    ensures forall i :: 0 <= i < |CompiledRules(bridge, rules)| ==>
      CompiledRules(bridge, rules)[i].iif == bridge && CompiledRules(bridge, rules)[i].oif == bridge
  {
    if rules != [] {
      ChainStaysOnBridge(bridge, rules[..|rules| - 1]);
    }
  }

  /** The compiled table decides every packet as the rule list does. */
  lemma CompilationPreservesMeaning(nets: Addressing, bridge: string, rules: seq<FirewallRule>, p: Packet)
    ensures TableVerdict(nets, CompiledTable(bridge, rules), p) == Decide(nets, bridge, rules, p)
  {
    var rest := CompiledRules(bridge, rules) + [DefaultDeny(bridge)];
    var chain := CompiledChain(bridge, rules);
    assert chain == [EstablishedRule(bridge)] + rest && chain[1..] == rest;
    if !OnBridge(bridge, p) {
      ChainStaysOnBridge(bridge, rules);
      OtherBridgesPass(nets, bridge, chain, p);
    } else if !p.established {
      RulesDecide(nets, bridge, rules, p);
    }
  }

  // ---- Peerings do not disturb each other ----

  function BridgeName(peering: string): string {
    "sb-peer-" + peering
  }

  /** One table never speaks for another peering: applying rules keeps a differing table of
      another peering exactly when the first eight characters of the ids differ. */
  lemma ApplyingSparesOtherTableIff(
    ruleset: Ruleset, peering: string, other: string, bridge: string, rules: seq<FirewallRule>)
    requires 8 <= |peering| && 8 <= |other|
    requires TableName(other) in ruleset && ruleset[TableName(other)] != CompiledTable(bridge, rules)
    ensures var after := ExecuteAll(Script(peering, bridge, rules), ruleset);
            (TableName(other) in after && after[TableName(other)] == ruleset[TableName(other)])
            <==> peering[..8] != other[..8]
  {
    ScriptInstallsTable(peering, bridge, rules, ruleset);
    TableNamesDiffer(peering, other);
  }

  lemma TableNamesDiffer(a: string, b: string)
    requires 8 <= |a| && 8 <= |b|
    ensures TableName(a) == TableName(b) <==> a[..8] == b[..8]
  {
    assert TableName(a)[8..] == a[..8];
    assert TableName(b)[8..] == b[..8];
  }

  lemma BridgeNamesDiffer(a: string, b: string)
    ensures BridgeName(a) == BridgeName(b) <==> a == b
  {
    assert BridgeName(a)[8..] == a;
    assert BridgeName(b)[8..] == b;
  }

  datatype Operation =
    | Apply(peering: string, rules: seq<FirewallRule>)
    | Remove(peering: string)

  ghost function Operate(operation: Operation, ruleset: Ruleset): Ruleset {
    match operation
    case Apply(peering, rules) =>
      if ValidInput(peering, BridgeName(peering), rules)
      then ExecuteAll(Script(peering, BridgeName(peering), rules), ruleset)
      else ruleset
    case Remove(peering) => ruleset - {TableName(peering)}
  }

  ghost function OperateAll(operations: seq<Operation>, ruleset: Ruleset): Ruleset {
    if operations == [] then ruleset
    else Operate(operations[|operations| - 1], OperateAll(operations[..|operations| - 1], ruleset))
  }

  /** The rule list in force for each peering: the last one accepted and not removed since. */
  ghost function InForce(operations: seq<Operation>): map<string, seq<FirewallRule>> {
    if operations == [] then map[]
    else
      var earlier := InForce(operations[..|operations| - 1]);
      match operations[|operations| - 1]
      case Apply(peering, rules) =>
        if ValidInput(peering, BridgeName(peering), rules) then earlier[peering := rules] else earlier
      case Remove(peering) => earlier - {peering}
  }

  /** The peerings' ids are told apart by their first eight characters. */
  ghost predicate ToldApart(operations: seq<Operation>) {
    && (forall i :: 0 <= i < |operations| ==> 8 <= |operations[i].peering|)
    && (forall i, j :: 0 <= i < |operations| && 0 <= j < |operations| ==>
          operations[i].peering == operations[j].peering
          || operations[i].peering[..8] != operations[j].peering[..8])
  }

  lemma {:induction false} InForceMentioned(operations: seq<Operation>, peering: string)
    requires peering in InForce(operations)
    ensures exists i :: 0 <= i < |operations| && operations[i].peering == peering
  {
    var n := |operations| - 1;
    if operations[n].peering != peering {
      InForceMentioned(operations[..n], peering);
      var i :| 0 <= i < n && operations[..n][i].peering == peering;
      assert operations[i].peering == peering;
    }
  }

  /** After any sequence of applications and removals the host holds the compiled table of each
      rule list in force and nothing else. */
  ghost predicate Holds(ruleset: Ruleset, inForce: map<string, seq<FirewallRule>>) {
    && (forall q :: q in inForce ==>
          TableName(q) in ruleset && ruleset[TableName(q)] == CompiledTable(BridgeName(q), inForce[q]))
    && (forall t :: t in ruleset ==> exists q :: q in inForce && TableName(q) == t)
  }

  lemma {:induction false} HostHoldsWhatIsInForce(operations: seq<Operation>)
    requires ToldApart(operations)
    ensures Holds(OperateAll(operations, map[]), InForce(operations))
  {
    if operations != [] {
      var n := |operations| - 1;
      var earlier := operations[..n];
      HostHoldsWhatIsInForce(earlier);
      var peering := operations[n].peering;
      forall q | q in InForce(earlier) ensures TableName(q) == TableName(peering) <==> q == peering {
        InForceMentioned(earlier, q);
        var i :| 0 <= i < n && earlier[i].peering == q;
        assert operations[i].peering == q && operations[n].peering == peering;
        TableNamesDiffer(q, peering);
      }
      match operations[n] {
        case Apply(_, rules) =>
          if ValidInput(peering, BridgeName(peering), rules) {
            ScriptInstallsTable(peering, BridgeName(peering), rules, OperateAll(earlier, map[]));
            HoldsAfterApply(OperateAll(earlier, map[]), InForce(earlier), peering, rules);
          }
        case Remove(_) =>
          HoldsAfterRemove(OperateAll(earlier, map[]), InForce(earlier), peering);
      }
    }
  }

  lemma HoldsAfterApply(
    ruleset: Ruleset, inForce: map<string, seq<FirewallRule>>, peering: string, rules: seq<FirewallRule>)
    requires Holds(ruleset, inForce)
    requires forall q :: q in inForce ==> (TableName(q) == TableName(peering) <==> q == peering)
    ensures Holds(ruleset[TableName(peering) := CompiledTable(BridgeName(peering), rules)], inForce[peering := rules])
  {
    hide TableName, BridgeName, CompiledTable;
    var after := ruleset[TableName(peering) := CompiledTable(BridgeName(peering), rules)];
    assert peering in inForce[peering := rules];
    forall t | t in after && t != TableName(peering)
      ensures exists q :: q in inForce[peering := rules] && TableName(q) == t
    {
      var q :| q in inForce && TableName(q) == t;
      assert q in inForce[peering := rules];
    }
  }

  lemma HoldsAfterRemove(ruleset: Ruleset, inForce: map<string, seq<FirewallRule>>, peering: string)
    requires Holds(ruleset, inForce)
    requires forall q :: q in inForce ==> (TableName(q) == TableName(peering) <==> q == peering)
    ensures Holds(ruleset - {TableName(peering)}, inForce - {peering})
  {
    hide TableName, BridgeName, CompiledTable;
    forall t | t in ruleset - {TableName(peering)}
      ensures exists q :: q in inForce - {peering} && TableName(q) == t
    {
      var q :| q in inForce && TableName(q) == t;
      assert q in inForce - {peering};
    }
  }

  /** The combined verdict of all tables on a packet crossing one peering's bridge is that
      peering's own decision; what the other peerings apply or remove never shows. */
  lemma PeeringsDoNotInterfere(nets: Addressing, operations: seq<Operation>, peering: string, p: Packet)
    requires ToldApart(operations) && OnBridge(BridgeName(peering), p)
    ensures RulesetVerdict(nets, OperateAll(operations, map[]), p)
            == if peering in InForce(operations)
               then Decide(nets, BridgeName(peering), InForce(operations)[peering], p)
               else Accept
  {
    HostHoldsWhatIsInForce(operations);
    OwnTableDecides(nets, OperateAll(operations, map[]), InForce(operations), peering, p);
  }

  lemma OwnTableDecides(
    nets: Addressing, ruleset: Ruleset, inForce: map<string, seq<FirewallRule>>, peering: string, p: Packet)
    requires Holds(ruleset, inForce) && OnBridge(BridgeName(peering), p)
    ensures RulesetVerdict(nets, ruleset, p)
            == if peering in inForce then Decide(nets, BridgeName(peering), inForce[peering], p) else Accept
  {
    forall q | q in inForce && q != peering
      ensures TableVerdict(nets, ruleset[TableName(q)], p) == Accept
    {
      BridgeNamesDiffer(q, peering);
      CompilationPreservesMeaning(nets, BridgeName(q), inForce[q], p);
    }
    if peering in inForce {
      CompilationPreservesMeaning(nets, BridgeName(peering), inForce[peering], p);
      assert TableName(peering) in ruleset;
    }
    if t :| t in ruleset && TableVerdict(nets, ruleset[t], p) == Drop {
      var q :| q in inForce && TableName(q) == t;
      assert q == peering;
    }
  }

  /** A packet that stays on no peering's bridge passes. */
  lemma OffBridgeTrafficPasses(nets: Addressing, operations: seq<Operation>, p: Packet)
    requires ToldApart(operations)
    requires forall q :: q in InForce(operations) ==> !OnBridge(BridgeName(q), p)
    ensures RulesetVerdict(nets, OperateAll(operations, map[]), p) == Accept
  {
    HostHoldsWhatIsInForce(operations);
    NoBridgeCrossed(nets, OperateAll(operations, map[]), InForce(operations), p);
  }

  lemma NoBridgeCrossed(nets: Addressing, ruleset: Ruleset, inForce: map<string, seq<FirewallRule>>, p: Packet)
    requires Holds(ruleset, inForce)
    requires forall q :: q in inForce ==> !OnBridge(BridgeName(q), p)
    ensures RulesetVerdict(nets, ruleset, p) == Accept
  {
    forall t | t in ruleset ensures TableVerdict(nets, ruleset[t], p) == Accept {
      var q :| q in inForce && TableName(q) == t;
      CompilationPreservesMeaning(nets, BridgeName(q), inForce[q], p);
    }
  }
}
