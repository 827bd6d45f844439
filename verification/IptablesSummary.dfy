/** `SummarizeIptables` (internal/analyzer/network.go): the second reading of a dump, which counts rules per chain
    without looking at tables, and how it agrees with the parse. */
module IptablesSummary {
  import opened Text
  import opened Sorting
  import opened IptablesRules
  import opened IptablesTrace

  datatype ChainSummary = ChainSummary(name: string, category: string, ruleCount: nat, purpose: Purpose)

  ghost predicate HasChain(lines: seq<string>, chain: string) {
    exists i | 0 <= i < |lines| :: ExtractRuleChain(lines[i]) == chain
  }

  /** The number of rule lines of a chain, wherever they are. */
  function CountRules(lines: seq<string>, chain: string): nat {
    if lines == [] then 0
    else
      var last := lines[|lines| - 1];
      CountRules(lines[..|lines| - 1], chain) + if ExtractRuleChain(last) == chain && IsRule(last) then 1 else 0
  }

  /** The number of rule lines of a chain that stand outside any table. */
  function CountOutside(lines: seq<string>, chain: string): nat {
    if lines == [] then 0
    else
      var before, last := lines[..|lines| - 1], lines[|lines| - 1];
      CountOutside(before, chain)
      + if TableAfter(before) == "" && ExtractRuleChain(last) == chain && IsRule(last) then 1 else 0
  }

  predicate NameLe(a: ChainSummary, b: ChainSummary) {
    if a.category == b.category then StrLe(a.name, b.name) else StrLe(a.category, b.category)
  }

  /** `list` summarizes exactly the chains of the category that the lines mention, each once, in order of their
      names. */
  ghost predicate Summarizes(list: seq<ChainSummary>, lines: seq<string>, category: string) {
    && (forall i, j | 0 <= i < j < |list| :: StrLe(list[i].name, list[j].name) && list[i].name != list[j].name)
    && (forall s | s in list ::
          && s.name != "" && HasChain(lines, s.name)
          && s.category == category == ChainCategory(s.name)
          && s.purpose == ChainPurpose(s.name)
          && s.ruleCount == CountRules(lines, s.name))
    && (forall chain | chain != "" && HasChain(lines, chain) && ChainCategory(chain) == category ::
          exists s :: s in list && s.name == chain)
  }

  lemma NameLePreorder()
    ensures Preorder(NameLe)
  {
    forall a: ChainSummary, b: ChainSummary ensures NameLe(a, b) || NameLe(b, a) {
      StrLeTotal(a.name, b.name);
      StrLeTotal(a.category, b.category);
    }
    forall a: ChainSummary, b: ChainSummary, c: ChainSummary | NameLe(a, b) && NameLe(b, c) ensures NameLe(a, c) {
      if a.category == c.category && a.category != b.category {
        StrLeAntisymmetric(a.category, b.category);
      } else if a.category == b.category == c.category {
        StrLeTransitive(a.name, b.name, c.name);
      } else if a.category != b.category && b.category != c.category {
        StrLeTransitive(a.category, b.category, c.category);
      }
    }
  }

  lemma MentionsStep(lines: seq<string>, i: nat)
    requires i < |lines|
    ensures forall chain ::
              HasChain(lines[..i + 1], chain) <==> HasChain(lines[..i], chain) || chain == ExtractRuleChain(lines[i])
  {
    forall chain
      ensures HasChain(lines[..i + 1], chain) <==> HasChain(lines[..i], chain) || chain == ExtractRuleChain(lines[i])
    {
      assert lines[..i + 1][i] == lines[i];
      if HasChain(lines[..i], chain) {
        var k :| 0 <= k < i && ExtractRuleChain(lines[..i][k]) == chain;
        assert lines[..i + 1][k] == lines[..i][k];
      }
    }
  }

  lemma CountRulesStep(lines: seq<string>, i: nat)
    requires i < |lines|
    ensures forall chain :: CountRules(lines[..i + 1], chain) ==
              CountRules(lines[..i], chain) + if ExtractRuleChain(lines[i]) == chain && IsRule(lines[i]) then 1 else 0
  {
    assert lines[..i + 1][..i] == lines[..i];
  }

  /** The counts are right for the lines read so far. */
  ghost predicate Counted(counts: map<string, nat>, lines: seq<string>) {
    && (forall chain :: chain in counts <==> chain != "" && HasChain(lines, chain))
    && (forall chain | chain != "" :: CountRules(lines, chain) == if chain in counts then counts[chain] else 0)
  }

  lemma CountedStep(counts: map<string, nat>, lines: seq<string>, i: nat)
    requires i < |lines| && Counted(counts, lines[..i])
    ensures var chain := ExtractRuleChain(lines[i]);
            var count := if chain in counts then counts[chain] else 0;
            Counted(if chain == "" then counts
                    else counts[chain := count + if IsRule(lines[i]) then 1 else 0], lines[..i + 1])
  {
    MentionsStep(lines, i);
    CountRulesStep(lines, i);
  }

  /** `counts`: how often each mentioned chain has a rule. */
  method CountChains(lines: seq<string>) returns (counts: map<string, nat>)
    ensures Counted(counts, lines)
  {
    counts := map[];
    for i := 0 to |lines|
      invariant Counted(counts, lines[..i])
    {
      CountedStep(counts, lines, i);
      var chain := ExtractRuleChain(lines[i]);
      if chain == "" {
        continue;
      }
      if IsRule(lines[i]) {
        counts := counts[chain := (if chain in counts then counts[chain] else 0) + 1];
      } else if chain !in counts {
        counts := counts[chain := 0];
      } else {
        assert counts == counts[chain := counts[chain]];
      }
    }
    assert lines[..|lines|] == lines;
  }

  /** The summaries of one category, collected while ranging over the counts. */
  ghost predicate Collected(list: seq<ChainSummary>, chains: seq<string>, counts: map<string, nat>, category: string) {
    && Distinct(list)
    && forall s :: s in list <==>
         && s.name in chains && s.name in counts && ChainCategory(s.name) == category
         && s == ChainSummary(s.name, category, counts[s.name], ChainPurpose(s.name))
  }

  lemma CollectedStep(list: seq<ChainSummary>, chains: seq<string>, chain: string, counts: map<string, nat>,
          category: string)
    requires Collected(list, chains, counts, category)
    requires chain !in chains && chain in counts
    ensures Collected(if ChainCategory(chain) == category
                      then list + [ChainSummary(chain, category, counts[chain], ChainPurpose(chain))] else list,
                      chains + [chain], counts, category)
  {
  }

  lemma CollectedSummarizes(list: seq<ChainSummary>, sorted: seq<ChainSummary>, chains: seq<string>,
          counts: map<string, nat>, lines: seq<string>, category: string)
    requires Counted(counts, lines)
    requires forall chain :: chain in chains <==> chain in counts
    requires Collected(list, chains, counts, category)
    requires multiset(sorted) == multiset(list) && Sorted(sorted, NameLe)
    ensures Summarizes(sorted, lines, category)
  {
    SameMembers(sorted, list);
    forall i, j | 0 <= i < j < |sorted|
      ensures StrLe(sorted[i].name, sorted[j].name) && sorted[i].name != sorted[j].name
    {
      assert sorted[i] in list && sorted[j] in list;
      assert NameLe(sorted[i], sorted[j]);
      if sorted[i].name == sorted[j].name {
        assert sorted[i] == sorted[j];
        MultiplicityTwo(sorted, i, j);
        DistinctMultiplicity(list, sorted[i]);
      }
    }
    forall chain | chain != "" && HasChain(lines, chain) && ChainCategory(chain) == category
      ensures exists s :: s in sorted && s.name == chain
    {
      var s := ChainSummary(chain, category, counts[chain], ChainPurpose(chain));
      assert s in list;
    }
  }

  method SummarizeIptables(lines: seq<string>) returns (podChains: seq<ChainSummary>, serviceChains: seq<ChainSummary>)
    ensures Summarizes(podChains, lines, "pod-forward")
    ensures Summarizes(serviceChains, lines, "service")
    ensures forall p, s | p in podChains && s in serviceChains :: p.name != s.name
  {
    hide ChainCategory, ChainPurpose, Summarizes, NameLe;
    var counts := CountChains(lines);
    var chains := RangeOver(counts.Keys);
    Enumeration(chains, counts.Keys);
    podChains, serviceChains := [], [];
    for i := 0 to |chains|
      invariant Collected(podChains, chains[..i], counts, "pod-forward")
      invariant Collected(serviceChains, chains[..i], counts, "service")
    {
      assert chains[..i + 1] == chains[..i] + [chains[i]];
      CollectedStep(podChains, chains[..i], chains[i], counts, "pod-forward");
      CollectedStep(serviceChains, chains[..i], chains[i], counts, "service");
      var category := ChainCategory(chains[i]);
      if category == "" {
        continue;
      }
      var summary := ChainSummary(chains[i], category, counts[chains[i]], ChainPurpose(chains[i]));
      if category == "pod-forward" {
        podChains := podChains + [summary];
      } else if category == "service" {
        serviceChains := serviceChains + [summary];
      }
    }
    assert chains[..|chains|] == chains;
    NameLePreorder();
    ghost var pods, services := podChains, serviceChains;
    podChains := SortSlice(podChains, NameLe);
    serviceChains := SortSlice(serviceChains, NameLe);
    CollectedSummarizes(pods, podChains, chains, counts, lines, "pod-forward");
    CollectedSummarizes(services, serviceChains, chains, counts, lines, "service");
  }

  // ----- the two readings agree -----

  /** The number of rules of a chain, over the given tables of the parse. */
  ghost function RulesAcross(rules: Rules, tables: set<string>, chain: string): nat {
    if tables == {} then 0
    else
      var table :| table in tables;
      |Look(rules, table, chain)| + RulesAcross(rules, tables - {table}, chain)
  }

  lemma {:induction false} RulesAcrossPick(rules: Rules, tables: set<string>, table: string, chain: string)
    requires table in tables
    ensures RulesAcross(rules, tables, chain)
         == |Look(rules, table, chain)| + RulesAcross(rules, tables - {table}, chain)
  {
    var first :| first in tables
      && RulesAcross(rules, tables, chain) == |Look(rules, first, chain)| + RulesAcross(rules, tables - {first}, chain);
    if first != table {
      RulesAcrossPick(rules, tables - {first}, table, chain);
      RulesAcrossPick(rules, tables - {table}, first, chain);
      assert tables - {first} - {table} == tables - {table} - {first};
    }
  }

  lemma {:induction false} RulesAcrossSame(a: Rules, b: Rules, tables: set<string>, chain: string)
    requires forall table | table in tables :: Look(a, table, chain) == Look(b, table, chain)
    ensures RulesAcross(a, tables, chain) == RulesAcross(b, tables, chain)
  {
    if tables != {} {
      var table :| table in tables
        && RulesAcross(a, tables, chain) == |Look(a, table, chain)| + RulesAcross(a, tables - {table}, chain);
      RulesAcrossSame(a, b, tables - {table}, chain);
      RulesAcrossPick(b, tables, table, chain);
    }
  }

  lemma RulesAcrossOpenTable(rules: Rules, table: string, chain: string)
    requires table !in rules
    ensures var after := rules[table := map[]];
            RulesAcross(after, after.Keys, chain) == RulesAcross(rules, rules.Keys, chain)
  {
    var after := rules[table := map[]];
    RulesAcrossPick(after, after.Keys, table, chain);
    assert after.Keys - {table} == rules.Keys;
    RulesAcrossSame(after, rules, rules.Keys, chain);
  }

  lemma RulesAcrossUpdate(rules: Rules, table: string, updated: string, list: seq<string>, chain: string)
    requires table in rules
    ensures var after := rules[table := rules[table][updated := list]];
            RulesAcross(after, after.Keys, chain) == RulesAcross(rules, rules.Keys, chain)
              + if chain == updated then |list| - |Look(rules, table, chain)| else 0
  {
    var after := rules[table := rules[table][updated := list]];
    assert after.Keys == rules.Keys;
    RulesAcrossPick(after, after.Keys, table, chain);
    RulesAcrossPick(rules, rules.Keys, table, chain);
    RulesAcrossSame(after, rules, rules.Keys - {table}, chain);
  }

  /** Reading one line adds to the total exactly when the line is a rule of the chain inside a table. */
  lemma RulesAcrossLine(p: Parser, line: string, chain: string)
    requires p.Valid() && chain != ""
    ensures var after := ParseLine(p, line).rules;
            RulesAcross(after, after.Keys, chain) == RulesAcross(p.rules, p.rules.Keys, chain)
              + if p.table != "" && ExtractRuleChain(line) == chain && IsRule(line) then 1 else 0
  {
    FieldsOfTrimSpace(line);
    var trimmed := TrimSpace(line);
    var found := ExtractRuleChain(line);
    assert ExtractRuleChain(trimmed) == found;
    if IsTableLine(line) || IsCommit(line) {
      StructuralLinesHaveNoChain(line);
      if IsTableLine(line) && trimmed[1..] !in p.rules {
        RulesAcrossOpenTable(p.rules, trimmed[1..], chain);
      }
    } else if p.table != "" && found != "" {
      var before := Look(p.rules, p.table, found);
      var after := if HasPrefix(trimmed, "-A ") then before + [trimmed] else before;
      RulesAcrossUpdate(p.rules, p.table, found, after, chain);
    }
  }

  /** A rule line of the chain stands outside any table. */
  ghost predicate RuleOutside(lines: seq<string>, chain: string) {
    exists i | 0 <= i < |lines| ::
      TableAfter(lines[..i]) == "" && ExtractRuleChain(lines[i]) == chain && IsRule(lines[i])
  }

  lemma {:induction false} NoneOutside(lines: seq<string>, chain: string)
    ensures CountOutside(lines, chain) > 0 <==> RuleOutside(lines, chain)
  {
    hide ExtractRuleChain, IsRule, TableAfter;
    if lines != [] {
      var last := |lines| - 1;
      var before := lines[..last];
      NoneOutside(before, chain);
      if RuleOutside(before, chain) {
        var i :| 0 <= i < |before| && TableAfter(before[..i]) == "" && ExtractRuleChain(before[i]) == chain
          && IsRule(before[i]);
        assert lines[..i] == before[..i] && lines[i] == before[i];
      }
      if RuleOutside(lines, chain) {
        var i :| 0 <= i < |lines| && TableAfter(lines[..i]) == "" && ExtractRuleChain(lines[i]) == chain
          && IsRule(lines[i]);
        if i < last {
          assert lines[..i] == before[..i] && lines[i] == before[i];
        }
      }
    }
  }

  lemma {:induction false} TwoReadings(lines: seq<string>, chain: string)
    requires chain != ""
    ensures CountRules(lines, chain) == RulesAcross(Parsed(lines), Parsed(lines).Keys, chain)
            + CountOutside(lines, chain)
  {
    if lines != [] {
      var last := |lines| - 1;
      TwoReadings(lines[..last], chain);
      RulesAcrossLine(ParseState(lines[..last]), lines[last], chain);
      TableIsTableAfter(lines[..last]);
    }
  }

  /** The two readings agree on a chain exactly when no rule line of the chain stands outside a table. */
  lemma ReadingsAgree(lines: seq<string>, chain: string)
    requires chain != ""
    ensures CountRules(lines, chain) == RulesAcross(Parsed(lines), Parsed(lines).Keys, chain)
         <==> !RuleOutside(lines, chain)
  {
    TwoReadings(lines, chain);
    NoneOutside(lines, chain);
  }

  /** A dump whose only line is a rule outside any table: the summary counts it, the parse does not have it. */
  lemma RuleWithoutTable()
    ensures RuleOutside(["-A F -j B"], "F")
    ensures CountRules(["-A F -j B"], "F") != RulesAcross(Parsed(["-A F -j B"]), Parsed(["-A F -j B"]).Keys, "F")
  {
    var line := "-A F -j B";
    ChainOfRule(line);
    hide ExtractRuleChain, IsRule;
    assert TableAfter([line][..0]) == "" && [line][0] == line;
    ReadingsAgree([line], "F");
  }

  lemma ChainOfRule(line: string)
    requires line == "-A F -j B"
    ensures ExtractRuleChain(line) == "F" && IsRule(line)
  {
    var rest, from := line[2..], line[3..];
    WordLengthIs(line, 2);
    WordLengthIs(from, 1);
    assert rest[1..] == from;
    assert line[..2] == "-A" && from[..1] == "F";
    assert Fields(line) == ["-A"] + Fields(rest) && Fields(rest) == Fields(from)
           && Fields(from) == ["F"] + Fields(from[1..]);
    assert TrimSpace(line) == line;
  }
}
