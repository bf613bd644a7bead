/**
 The stored firewall rules: the order they are read in, what adding or deleting one does to
 the decisions, and how rows become the rule list handed to the compiler.
 */
module RuleTable {
  import opened Wrappers
  import opened Nftables
  import opened FirewallCompiler

  datatype RuleRow = RuleRow(
    id: nat,
    peering: string,
    priority: int,
    action: string,
    sourceNet: nat,
    destNet: nat,
    port: Option<int>,
    protocol: Option<string>,
    createdAt: int)

  // ---- SELECT * FROM firewall_rules WHERE peering_id = ... ORDER BY priority, created_at ----

  predicate NotAfter(a: RuleRow, b: RuleRow) {
    a.priority < b.priority || (a.priority == b.priority && a.createdAt <= b.createdAt)
  }

  function Place(row: RuleRow, rows: seq<RuleRow>): seq<RuleRow> {
    if rows == [] || NotAfter(rows[|rows| - 1], row) then rows + [row]
    else Place(row, rows[..|rows| - 1]) + [rows[|rows| - 1]]
  }

  function RulesOf(table: seq<RuleRow>, peering: string): seq<RuleRow> {
    if table == [] then []
    else
      var row := table[|table| - 1];
      var earlier := RulesOf(table[..|table| - 1], peering);
      if row.peering == peering then Place(row, earlier) else earlier
  }

  // Each row is ordered before everything behind it.
  ghost predicate Ordered(rows: seq<RuleRow>) {
    rows == [] ||
    (var n := |rows| - 1;
     Ordered(rows[..n]) && forall i :: 0 <= i < n ==> NotAfter(rows[i], rows[n]))
  }

  lemma {:induction false} PlaceAdds(row: RuleRow, rows: seq<RuleRow>)
    ensures multiset(Place(row, rows)) == multiset(rows) + multiset{row}
  {
    if rows == [] || NotAfter(rows[|rows| - 1], row) {
    } else {
      PlaceAdds(row, rows[..|rows| - 1]);
      assert rows == rows[..|rows| - 1] + [rows[|rows| - 1]];
    }
  }

  lemma {:induction false} PlaceKeepsOrdered(row: RuleRow, rows: seq<RuleRow>)
    requires Ordered(rows)
    ensures Ordered(Place(row, rows))
  {
    var placed := Place(row, rows);
    if rows == [] {
      assert placed == [row] && placed[..0] == [];
    } else {
      var n := |rows| - 1;
      if NotAfter(rows[n], row) {
        assert placed[..|rows|] == rows;
      } else {
        var front := Place(row, rows[..n]);
        PlaceKeepsOrdered(row, rows[..n]);
        assert placed[..|front|] == front;
        forall i | 0 <= i < |front| ensures NotAfter(front[i], rows[n]) {
          PlaceAdds(row, rows[..n]);
          assert front[i] in multiset(front);
          assert front[i] == row || front[i] in rows[..n];
        }
      }
    }
  }

  lemma {:induction false} RulesOfOrdered(table: seq<RuleRow>, peering: string)
    ensures Ordered(RulesOf(table, peering))
    ensures forall row :: row in RulesOf(table, peering) <==> row in table && row.peering == peering
  {
    if table != [] {
      var n := |table| - 1;
      RulesOfOrdered(table[..n], peering);
      assert table == table[..n] + [table[n]];
      if table[n].peering == peering {
        PlaceKeepsOrdered(table[n], RulesOf(table[..n], peering));
        PlaceAdds(table[n], RulesOf(table[..n], peering));
        forall row ensures row in RulesOf(table, peering) <==> row in table && row.peering == peering {
          assert row in RulesOf(table, peering) <==> row in multiset(RulesOf(table, peering));
          assert row in multiset(RulesOf(table[..n], peering)) <==> row in RulesOf(table[..n], peering);
        }
      }
    }
  }

  // ---- Rows as compiler input ----

  /** The two sides of a peering and the subnet text used for each; a network without a subnet
      stands for every address. */
  datatype Sides = Sides(netA: nat, subnetA: Option<string>, subnetB: Option<string>)

  function SubnetText(subnet: Option<string>): string {
    if subnet.Some? then subnet.value else "0.0.0.0/0"
  }

  function SideText(sides: Sides, net: nat): string {
    if net == sides.netA then SubnetText(sides.subnetA) else SubnetText(sides.subnetB)
  }

  function ToRule(sides: Sides, row: RuleRow): FirewallRule {
    FirewallRule(SideText(sides, row.sourceNet), SideText(sides, row.destNet), row.port, row.protocol, row.action)
  }

  function ToRules(sides: Sides, rows: seq<RuleRow>): seq<FirewallRule> {
    seq(|rows|, i requires 0 <= i < |rows| => ToRule(sides, rows[i]))
  }

  function Compiled(sides: Sides, table: seq<RuleRow>, peering: string): Table {
    CompiledTable(BridgeName(peering), ToRules(sides, RulesOf(table, peering)))
  }

  function DecideRows(nets: Addressing, sides: Sides, table: seq<RuleRow>, peering: string, p: Packet): Verdict {
    Decide(nets, BridgeName(peering), ToRules(sides, RulesOf(table, peering)), p)
  }

  // ---- Adding a rule ----

  lemma {:induction false} FirstMatchConcat(nets: Addressing, a: seq<FirewallRule>, b: seq<FirewallRule>, p: Packet)
    ensures FirstMatch(nets, a + b, p)
            == if exists i :: 0 <= i < |a| && Matches(nets, a[i], p) then FirstMatch(nets, a, p)
               else FirstMatch(nets, b, p)
  {
    if a == [] {
      assert a + b == b;
    } else {
      assert (a + b)[1..] == a[1..] + b;
      FirstMatchConcat(nets, a[1..], b, p);
      if !Matches(nets, a[0], p) {
        assert forall i :: 0 < i < |a| ==> a[i] == a[1..][i - 1];
        assert (exists i :: 0 <= i < |a| && Matches(nets, a[i], p))
               <==> (exists i :: 0 <= i < |a[1..]| && Matches(nets, a[1..][i], p));
      }
    }
  }

  lemma LastIsLatest(row: RuleRow, rows: seq<RuleRow>)
    requires Ordered(rows) && rows != [] && NotAfter(rows[|rows| - 1], row)
    ensures forall i :: 0 <= i < |rows| ==> NotAfter(rows[i], row)
  {
    var n := |rows| - 1;
    forall i | 0 <= i < |rows| ensures NotAfter(rows[i], row) {
      assert i < n ==> NotAfter(rows[i], rows[n]);
    }
  }

  // Where a row lands: behind everything not after it.
  lemma {:induction false} PlaceSplits(row: RuleRow, rows: seq<RuleRow>)
    returns (before: seq<RuleRow>, after: seq<RuleRow>)
    requires Ordered(rows)
    ensures rows == before + after && Place(row, rows) == before + ([row] + after)
    ensures forall i :: 0 <= i < |before| ==> NotAfter(before[i], row)
    ensures forall i :: 0 <= i < |after| ==> !NotAfter(after[i], row)
  {
    hide NotAfter;
    if rows == [] || NotAfter(rows[|rows| - 1], row) {
      before, after := rows, [];
      Reassociate(rows, [], [], row);
      if rows != [] {
        LastIsLatest(row, rows);
      }
    } else {
      var n := |rows| - 1;
      var rest;
      before, rest := PlaceSplits(row, rows[..n]);
      after := rest + [rows[n]];
      Reassociate(before, [], rest, rows[n]);
      Reassociate(before, [row], rest, rows[n]);
      assert rows == rows[..n] + [rows[n]];
    }
  }

  lemma Reassociate(a: seq<RuleRow>, b: seq<RuleRow>, c: seq<RuleRow>, last: RuleRow)
    ensures (a + (b + c)) + [last] == a + (b + (c + [last]))
    ensures [] + c == c && a + [] == a
  {
  }

  lemma ToRulesConcat(sides: Sides, a: seq<RuleRow>, b: seq<RuleRow>)
    ensures ToRules(sides, a + b) == ToRules(sides, a) + ToRules(sides, b)
  {
  }

  /** The packet crosses the bridge, is not part of an established connection, matches the new
      rule, and matches no stored rule of the same or a smaller priority. */
  ghost predicate NewRuleDecides(
    nets: Addressing, sides: Sides, table: seq<RuleRow>, row: RuleRow, p: Packet)
  {
    && OnBridge(BridgeName(row.peering), p) && !p.established
    && Matches(nets, ToRule(sides, row), p)
    && (forall other :: other in table && other.peering == row.peering && other.priority <= row.priority ==>
          !Matches(nets, ToRule(sides, other), p))
  }

  /** Adding a rule, created later than those stored, changes the decision on exactly the packets
      it decides; on those it has the say. */
  lemma AddedRuleDecidesExactly(
    nets: Addressing, sides: Sides, table: seq<RuleRow>, row: RuleRow, p: Packet)
    requires forall other :: other in table ==> other.createdAt <= row.createdAt
    ensures DecideRows(nets, sides, table + [row], row.peering, p)
            == if NewRuleDecides(nets, sides, table, row, p) then VerdictOf(ToRule(sides, row))
               else DecideRows(nets, sides, table, row.peering, p)
  {
    var rows := RulesOf(table, row.peering);
    RulesOfOrdered(table, row.peering);
    var before, after := PlaceSplits(row, rows);
    var a, r, b := ToRules(sides, before), ToRule(sides, row), ToRules(sides, after);
    assert RulesOf(table + [row], row.peering) == before + ([row] + after) by {
      assert (table + [row])[..|table|] == table;
    }
    assert ToRules(sides, before + after) == a + b by {
      ToRulesConcat(sides, before, after);
    }
    assert ToRules(sides, before + ([row] + after)) == a + ([r] + b) by {
      ToRulesConcat(sides, before, [row] + after);
      ToRulesConcat(sides, [row], after);
      assert ToRules(sides, [row]) == [r];
    }
    RuleInTheMiddle(nets, a, r, b, p);
    EarlierRowsAreThoseOfSmallerPriority(nets, sides, table, row, before, after, p);
  }

  lemma RuleInTheMiddle(
    nets: Addressing, a: seq<FirewallRule>, r: FirewallRule, b: seq<FirewallRule>, p: Packet)
    ensures FirstMatch(nets, a + ([r] + b), p)
            == if Matches(nets, r, p) && !exists i :: 0 <= i < |a| && Matches(nets, a[i], p) then VerdictOf(r)
               else FirstMatch(nets, a + b, p)
  {
    FirstMatchConcat(nets, a, b, p);
    FirstMatchConcat(nets, a, [r] + b, p);
    assert ([r] + b)[1..] == b;
  }

  lemma InFront(before: seq<RuleRow>, after: seq<RuleRow>, i: nat, row: RuleRow)
    requires i < |before + after| && NotAfter((before + after)[i], row)
    requires forall k :: 0 <= k < |after| ==> !NotAfter(after[k], row)
    ensures i < |before|
  {
  }

  lemma EarlierRowsAreThoseOfSmallerPriority(
    nets: Addressing, sides: Sides, table: seq<RuleRow>, row: RuleRow,
    before: seq<RuleRow>, after: seq<RuleRow>, p: Packet)
    requires forall other :: other in table ==> other.createdAt <= row.createdAt
    requires RulesOf(table, row.peering) == before + after
    requires forall i :: 0 <= i < |before| ==> NotAfter(before[i], row)
    requires forall i :: 0 <= i < |after| ==> !NotAfter(after[i], row)
    ensures (exists i :: 0 <= i < |before| && Matches(nets, ToRules(sides, before)[i], p))
            <==> (exists other :: other in table && other.peering == row.peering && other.priority <= row.priority
                                  && Matches(nets, ToRule(sides, other), p))
  {
    RulesOfOrdered(table, row.peering);
    if i :| 0 <= i < |before| && Matches(nets, ToRules(sides, before)[i], p) {
      assert before[i] in before + after;
      assert Matches(nets, ToRule(sides, before[i]), p);
    }
    if other :| other in table && other.peering == row.peering && other.priority <= row.priority
                && Matches(nets, ToRule(sides, other), p)
    {
      assert other in before + after;
      var i :| 0 <= i < |before + after| && (before + after)[i] == other;
      InFront(before, after, i, row);
      assert ToRules(sides, before)[i] == ToRule(sides, other);
    }
  }

  // ---- DELETE FROM firewall_rules WHERE id = ... ----

  function DeleteRule(table: seq<RuleRow>, id: nat): seq<RuleRow> {
    if table == [] then []
    else
      DeleteRule(table[..|table| - 1], id)
      + if table[|table| - 1].id == id then [] else [table[|table| - 1]]
  }

  // ON DELETE CASCADE: a peering's rules go with it.
  function DropRules(table: seq<RuleRow>, gone: set<string>): seq<RuleRow> {
    if table == [] then []
    else
      DropRules(table[..|table| - 1], gone)
      + if table[|table| - 1].peering in gone then [] else [table[|table| - 1]]
  }

  lemma {:induction false} DeleteAbsent(table: seq<RuleRow>, id: nat)
    requires forall i :: 0 <= i < |table| ==> table[i].id != id
    ensures DeleteRule(table, id) == table
  {
    if table != [] {
      DeleteAbsent(table[..|table| - 1], id);
    }
  }

  /** Deleting the rule just added gives back the previous decision on every packet, whatever was
      stored and whatever its priority. */
  lemma DeletingUndoesAdding(nets: Addressing, sides: Sides, table: seq<RuleRow>, row: RuleRow, peering: string, p: Packet)
    requires forall other :: other in table ==> other.id != row.id
    ensures DecideRows(nets, sides, DeleteRule(table + [row], row.id), peering, p)
            == DecideRows(nets, sides, table, peering, p)
  {
    assert DeleteRule(table + [row], row.id) == table by {
      assert (table + [row])[..|table|] == table;
      DeleteAbsent(table, row.id);
    }
  }

  lemma {:induction false} DeletedRow(table: seq<RuleRow>, id: nat, row: RuleRow)
    ensures row in DeleteRule(table, id) <==> row in table && row.id != id
  {
    if table != [] {
      var n := |table| - 1;
      DeletedRow(table[..n], id, row);
      assert table == table[..n] + [table[n]];
    }
  }

  // The other peerings' rules are read as before.
  lemma OtherPeeringsKeepRules(table: seq<RuleRow>, row: RuleRow, peering: string)
    requires row.peering != peering
    ensures RulesOf(table + [row], peering) == RulesOf(table, peering)
  {
    assert (table + [row])[..|table|] == table;
  }

  lemma {:induction false} DeleteElsewhere(table: seq<RuleRow>, id: nat, peering: string)
    requires forall row :: row in table && row.id == id ==> row.peering != peering
    ensures RulesOf(DeleteRule(table, id), peering) == RulesOf(table, peering)
  {
    if table != [] {
      var n := |table| - 1;
      DeleteElsewhere(table[..n], id, peering);
      var rest := DeleteRule(table[..n], id);
      if table[n].id == id {
        assert rest + [] == rest;
      } else {
        assert (rest + [table[n]])[..|rest|] == rest;
      }
    }
  }

  lemma {:induction false} DropElsewhere(table: seq<RuleRow>, gone: set<string>, peering: string)
    ensures RulesOf(DropRules(table, gone), peering) == if peering in gone then [] else RulesOf(table, peering)
  {
    if table != [] {
      var n := |table| - 1;
      DropElsewhere(table[..n], gone, peering);
      var rest := DropRules(table[..n], gone);
      if table[n].peering in gone {
        assert rest + [] == rest;
      } else {
        assert (rest + [table[n]])[..|rest|] == rest;
      }
    }
  }

  lemma {:induction false} DroppedRow(table: seq<RuleRow>, gone: set<string>, row: RuleRow)
    ensures row in DropRules(table, gone) <==> row in table && row.peering !in gone
  {
    if table != [] {
      var n := |table| - 1;
      DroppedRow(table[..n], gone, row);
      assert table == table[..n] + [table[n]];
    }
  }

  lemma {:induction false} DropInSteps(table: seq<RuleRow>, first: set<string>, second: set<string>)
    ensures DropRules(DropRules(table, first), second) == DropRules(table, first + second)
  {
    if table != [] {
      var n := |table| - 1;
      DropInSteps(table[..n], first, second);
      var rest := DropRules(table[..n], first);
      if table[n].peering in first {
        assert rest + [] == rest;
      } else {
        assert (rest + [table[n]])[..|rest|] == rest;
      }
    }
  }

  lemma {:induction false} DropNothing(table: seq<RuleRow>)
    ensures DropRules(table, {}) == table
  {
    if table != [] {
      DropNothing(table[..|table| - 1]);
    }
  }
}
