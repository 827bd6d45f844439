/** Reading an `iptables-save` dump into table -> chain -> rules (`parseIptables`, internal/analyzer/network.go), what
    that reading means line by line, and how it commutes with the agent's filter. */
module IptablesRules {
  import opened Text
  import opened AgentFilter

  type Chains = map<string, seq<string>>
  type Rules = map<string, Chains>

  /** `extractRuleChain` */
  function ExtractRuleChain(line: string): string {
    var fields := Fields(line);
    if |fields| < 2 then ""
    else if fields[0] == "-A" || fields[0] == "-N" then fields[1]
    else if HasPrefix(fields[0], ":") then fields[0][1..]
    else ""
  }

  predicate IsTableLine(line: string) {
    HasPrefix(TrimSpace(line), "*")
  }

  predicate IsCommit(line: string) {
    TrimSpace(line) == "COMMIT"
  }

  predicate IsRule(line: string) {
    HasPrefix(TrimSpace(line), "-A ")
  }

  /** The rules of a chain; a missing table or chain reads as empty. */
  function Look(rules: Rules, table: string, chain: string): seq<string> {
    if table in rules && chain in rules[table] then rules[table][chain] else []
  }

  predicate Declared(rules: Rules, table: string, chain: string) {
    table in rules && chain in rules[table]
  }

  datatype Parser = Parser(rules: Rules, table: string) {
    predicate Valid() {
      table == "" || table in rules
    }
  }

  function ParseLine(p: Parser, line: string): (r: Parser)
    requires p.Valid()
    ensures r.Valid()
  {
    var trimmed := TrimSpace(line);
    if HasPrefix(trimmed, "*") then
      var table := trimmed[1..];
      Parser(if table in p.rules then p.rules else p.rules[table := map[]], table)
    else if trimmed == "COMMIT" then p.(table := "")
    else if p.table == "" then p
    else
      var chain := ExtractRuleChain(trimmed);
      if chain == "" then p
      else
        var chains := p.rules[p.table];
        var before := if chain in chains then chains[chain] else [];
        var after := if HasPrefix(trimmed, "-A ") then before + [trimmed] else before;
        p.(rules := p.rules[p.table := chains[chain := after]])
  }

  function ParseState(lines: seq<string>): (r: Parser)
    ensures r.Valid()
  {
    if lines == [] then Parser(map[], "")
    else ParseLine(ParseState(lines[..|lines| - 1]), lines[|lines| - 1])
  }

  function Parsed(lines: seq<string>): Rules {
    ParseState(lines).rules
  }

  lemma StateStart(lines: seq<string>)
    ensures ParseState(lines[..0]) == Parser(map[], "")
  {
  }

  lemma StateStep(lines: seq<string>, i: nat)
    requires i < |lines|
    ensures ParseState(lines[..i + 1]) == ParseLine(ParseState(lines[..i]), lines[i])
  {
    hide ParseLine;
    assert lines[..i + 1][..i] == lines[..i];
  }

  method ParseIptables(lines: seq<string>) returns (out: Rules)
    ensures out == Parsed(lines)
  {
    hide TrimSpace, ExtractRuleChain, ParseState;
    out := map[];
    var table := "";
    StateStart(lines);
    for i := 0 to |lines|
      invariant Parser(out, table) == ParseState(lines[..i])
    {
      StateStep(lines, i);
      ghost var before := Parser(out, table);
      var trimmed := TrimSpace(lines[i]);
      if HasPrefix(trimmed, "*") {
        table := trimmed[1..];
        if table !in out {
          out := out[table := map[]];
        }
        continue;
      }
      if trimmed == "COMMIT" {
        table := "";
        continue;
      }
      if table == "" {
        continue;
      }
      var chain := ExtractRuleChain(trimmed);
      if chain == "" {
        continue;
      }
      if chain !in out[table] {
        out := out[table := out[table][chain := []]];
      }
      if HasPrefix(trimmed, "-A ") {
        out := out[table := out[table][chain := out[table][chain] + [trimmed]]];
      }
      assert out[table] == ParseLine(before, lines[i]).rules[table];
      assert out == before.rules[table := out[table]];
    }
    assert lines[..|lines|] == lines;
  }

  // ----- what the parse means, line by line -----

  /** The table in force after these lines: that of the last table line not followed by a COMMIT. */
  function TableAfter(lines: seq<string>): string {
    if lines == [] then ""
    else
      var last := lines[|lines| - 1];
      if IsTableLine(last) then TrimSpace(last)[1..]
      else if IsCommit(last) then ""
      else TableAfter(lines[..|lines| - 1])
  }

  /** Line `i` mentions `chain` while `table` is in force. */
  predicate Mentions(lines: seq<string>, i: nat, table: string, chain: string)
    requires i < |lines|
  {
    table != "" && chain != "" && TableAfter(lines[..i]) == table && ExtractRuleChain(lines[i]) == chain
  }

  /** The trimmed rule lines of a chain that occur while its table is in force, in dump order. */
  function RulesIn(lines: seq<string>, table: string, chain: string): seq<string> {
    if lines == [] then []
    else
      var last := |lines| - 1;
      RulesIn(lines[..last], table, chain)
      + if Mentions(lines, last, table, chain) && IsRule(lines[last]) then [TrimSpace(lines[last])] else []
  }

  lemma FirstFieldStart(line: string)
    requires line != [] && !IsSpace(line[0])
    ensures Fields(line) != [] && Fields(line)[0] != [] && Fields(line)[0][0] == line[0]
  {
  }

  /** A word ends at the first white space. */
  lemma {:induction false} WordLengthIs(s: string, n: nat)
    requires n <= |s| && (n < |s| ==> IsSpace(s[n]))
    requires forall i | 0 <= i < n :: !IsSpace(s[i])
    ensures WordLength(s) == n
  {
    if n > 0 {
      WordLengthIs(s[1..], n - 1);
    }
  }

  lemma FieldsOfWord(word: string)
    requires word != [] && forall i | 0 <= i < |word| :: !IsSpace(word[i])
    ensures Fields(word) == [word]
  {
    WordLengthIs(word, |word|);
    assert word[|word|..] == [];
    assert word[..|word|] == word;
  }

  lemma NoChainWithoutMarker(fields: seq<string>, line: string)
    requires Fields(line) == fields
    requires |fields| < 2 || (fields[0] != [] && fields[0][0] == '*')
    ensures ExtractRuleChain(line) == "" && IptablesChain(line) == ""
  {
  }

  /** A table line or a COMMIT line mentions no chain, for the agent or for the analyzer. */
  lemma StructuralLinesHaveNoChain(line: string)
    requires IsTableLine(line) || IsCommit(line)
    ensures ExtractRuleChain(line) == "" && IptablesChain(line) == ""
  {
    FieldsOfTrimSpace(line);
    var trimmed := TrimSpace(line);
    if IsCommit(line) {
      FieldsOfWord(trimmed);
    } else {
      FirstFieldStart(trimmed);
    }
    NoChainWithoutMarker(Fields(trimmed), line);
  }

  lemma {:induction false} TableIsTableAfter(lines: seq<string>)
    ensures ParseState(lines).table == TableAfter(lines)
  {
    if lines != [] {
      TableIsTableAfter(lines[..|lines| - 1]);
    }
  }

  lemma {:induction false} MentionsPrefix(lines: seq<string>, i: nat, table: string, chain: string)
    requires i < |lines| - 1
    ensures Mentions(lines, i, table, chain) == Mentions(lines[..|lines| - 1], i, table, chain)
  {
    assert lines[..|lines| - 1][..i] == lines[..i];
  }

  /** Some line mentions the chain under the table. */
  ghost predicate Mentioned(lines: seq<string>, table: string, chain: string) {
    exists i: nat | i < |lines| :: Mentions(lines, i, table, chain)
  }

  lemma MentionedStep(lines: seq<string>, table: string, chain: string)
    requires lines != []
    ensures Mentioned(lines, table, chain) <==>
            Mentioned(lines[..|lines| - 1], table, chain) || Mentions(lines, |lines| - 1, table, chain)
  {
    var last := |lines| - 1;
    forall i: nat | i < last
      ensures Mentions(lines, i, table, chain) == Mentions(lines[..last], i, table, chain)
    {
      MentionsPrefix(lines, i, table, chain);
    }
    if Mentioned(lines[..last], table, chain) {
      var i: nat :| i < last && Mentions(lines[..last], i, table, chain);
      assert Mentions(lines, i, table, chain);
    }
  }

  lemma ChainOfTrimmed(line: string)
    ensures ExtractRuleChain(TrimSpace(line)) == ExtractRuleChain(line)
  {
    hide TrimSpace, Fields;
    FieldsOfTrimSpace(line);
  }

  /** What one line adds to the parse. */
  lemma ParseLineMeaning(p: Parser, line: string, table: string, chain: string)
    requires p.Valid()
    ensures
      var mentioned := table != "" && chain != "" && p.table == table && ExtractRuleChain(line) == chain;
      var r := ParseLine(p, line).rules;
      && (Declared(r, table, chain) <==> Declared(p.rules, table, chain) || mentioned)
      && Look(r, table, chain) == Look(p.rules, table, chain)
         + if mentioned && IsRule(line) then [TrimSpace(line)] else []
  {
    hide TrimSpace, ExtractRuleChain;
    ChainOfTrimmed(line);
    if IsTableLine(line) || IsCommit(line) {
      StructuralLinesHaveNoChain(line);
    }
    assert Look(p.rules, table, chain) + [] == Look(p.rules, table, chain);
  }

  /** The parse is exactly this: a chain is declared under a table when some line mentions it while that table is in
      force, and its rules are the rule lines among those mentions, trimmed and in order. */
  lemma {:induction false} ParseMeaning(lines: seq<string>, table: string, chain: string)
    ensures Declared(Parsed(lines), table, chain) <==> Mentioned(lines, table, chain)
    ensures Look(Parsed(lines), table, chain) == RulesIn(lines, table, chain)
  {
    hide ParseLine, ExtractRuleChain, IsRule, Look, Declared;
    if lines == [] {
      ParseNothing(table, chain);
    } else {
      var last := |lines| - 1;
      ParseMeaning(lines[..last], table, chain);
      MentionedStep(lines, table, chain);
      TableIsTableAfter(lines[..last]);
      ParseLineMeaning(ParseState(lines[..last]), lines[last], table, chain);
    }
  }

  lemma ParseNothing(table: string, chain: string)
    ensures !Declared(Parsed([]), table, chain) && Look(Parsed([]), table, chain) == []
  {
  }

  // ----- filtering commutes with parsing -----

  function RestrictChains(chains: Chains, allowlist: seq<string>, glob: Glob): Chains {
    map chain | chain in chains && ChainAllowed(chain, allowlist, glob) :: chains[chain]
  }

  /** Every table, with only the allowed chains in it. */
  function Restrict(rules: Rules, allowlist: seq<string>, glob: Glob): Rules {
    map table | table in rules :: RestrictChains(rules[table], allowlist, glob)
  }

  /** Whenever the analyzer sees a chain on a line, the agent sees the same one. */
  lemma ReadersAgree(line: string)
    requires ExtractRuleChain(line) != ""
    ensures IptablesChain(line) == ExtractRuleChain(line)
  {
  }

  lemma RestrictOpenTable(rules: Rules, table: string, allowlist: seq<string>, glob: Glob)
    ensures Restrict(rules[table := map[]], allowlist, glob) == Restrict(rules, allowlist, glob)[table := map[]]
  {
  }

  lemma RestrictUpdate(rules: Rules, table: string, chain: string, after: seq<string>, allowlist: seq<string>,
          glob: Glob)
    requires table in rules
    ensures var updated := Restrict(rules[table := rules[table][chain := after]], allowlist, glob);
            var restricted := Restrict(rules, allowlist, glob);
            if ChainAllowed(chain, allowlist, glob)
            then updated == restricted[table := restricted[table][chain := after]]
            else updated == restricted
  {
    var chains := rules[table];
    var restricted := Restrict(rules, allowlist, glob);
    if ChainAllowed(chain, allowlist, glob) {
      assert RestrictChains(chains[chain := after], allowlist, glob) == restricted[table][chain := after];
    } else {
      assert RestrictChains(chains[chain := after], allowlist, glob) == restricted[table];
      assert restricted[table := restricted[table]] == restricted;
    }
    assert Restrict(rules[table := chains[chain := after]], allowlist, glob)
        == restricted[table := RestrictChains(chains[chain := after], allowlist, glob)];
  }

  /** Reading one line and then dropping the chains that are not allowed is dropping first and then reading the line,
      if the agent kept it. */
  lemma RestrictLine(p: Parser, line: string, allowlist: seq<string>, glob: Glob)
    requires p.Valid()
    ensures var restricted := p.(rules := Restrict(p.rules, allowlist, glob));
            var read := ParseLine(p, line);
            read.(rules := Restrict(read.rules, allowlist, glob)) ==
            if Kept(line, allowlist, glob) then ParseLine(restricted, line) else restricted
  {
    var trimmed := TrimSpace(line);
    FieldsOfTrimSpace(line);
    if IsTableLine(line) || IsCommit(line) {
      StructuralLinesHaveNoChain(line);
      RestrictOpenTable(p.rules, trimmed[1..], allowlist, glob);
    } else if p.table != "" && ExtractRuleChain(line) != "" {
      ReadersAgree(line);
      var chain := ExtractRuleChain(line);
      assert ExtractRuleChain(trimmed) == chain;
      var before := if chain in p.rules[p.table] then p.rules[p.table][chain] else [];
      var after := if HasPrefix(trimmed, "-A ") then before + [trimmed] else before;
      RestrictUpdate(p.rules, p.table, chain, after, allowlist, glob);
    }
  }

  lemma {:induction false} KeptLinesParse(lines: seq<string>, allowlist: seq<string>, glob: Glob)
    ensures ParseState(KeptLines(lines, allowlist, glob)) ==
            Parser(Restrict(Parsed(lines), allowlist, glob), ParseState(lines).table)
  {
    if lines != [] {
      var last := |lines| - 1;
      KeptLinesParse(lines[..last], allowlist, glob);
      var p := ParseState(lines[..last]);
      RestrictLine(p, lines[last], allowlist, glob);
      var kept := KeptLines(lines[..last], allowlist, glob);
      if Kept(lines[last], allowlist, glob) {
        assert (kept + [lines[last]])[..|kept|] == kept;
      } else {
        assert kept + [] == kept;
      }
    }
  }

  /** Parsing what the agent kept gives the parse of the whole dump with only the allowed chains in each table. */
  lemma FilterThenParse(lines: seq<string>, allowlist: seq<string>, glob: Glob)
    ensures Parsed(Filtered(lines, allowlist, glob)) ==
            if allowlist == [] then Parsed(lines) else Restrict(Parsed(lines), allowlist, glob)
  {
    KeptLinesParse(lines, allowlist, glob);
  }
}
