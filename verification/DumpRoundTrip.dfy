/** What `iptables-save` writes is read back: parsing a written dump gives its tables, chains and rules
    (internal/analyzer/network.go). */
module DumpRoundTrip {
  import opened Text
  import opened IptablesRules
  import AgentFilter

  /** A chain with its rules, as the texts after the chain's name. */
  datatype Chain = Chain(name: string, rules: seq<string>)

  datatype Table = Table(name: string, chains: seq<Chain>)

  /** A name without white space. */
  predicate IsWord(s: string) {
    s != "" && forall i | 0 <= i < |s| :: !IsSpace(s[i])
  }

  /** A text that trimming leaves alone. */
  predicate IsTrimmed(s: string) {
    s != "" && !IsSpace(s[0]) && !IsSpace(s[|s| - 1])
  }

  predicate WellNamed(t: Table) {
    && IsWord(t.name)
    && (forall c | c in t.chains :: IsWord(c.name) && forall r | r in c.rules :: IsTrimmed(r))
    && (forall i, j | 0 <= i < j < |t.chains| :: t.chains[i].name != t.chains[j].name)
  }

  predicate AllWellNamed(tables: seq<Table>) {
    && (forall t | t in tables :: WellNamed(t))
    && (forall i, j | 0 <= i < j < |tables| :: tables[i].name != tables[j].name)
  }

  // ----- writing -----

  function TableLine(t: Table): string {
    "*" + t.name
  }

  function ChainLine(c: Chain): string {
    ":" + c.name + " - [0:0]"
  }

  function RuleLine(c: Chain, rule: string): string {
    "-A " + c.name + " " + rule
  }

  function ChainLines(chains: seq<Chain>): seq<string> {
    if chains == [] then [] else ChainLines(chains[..|chains| - 1]) + [ChainLine(chains[|chains| - 1])]
  }

  function RulesOf(c: Chain): (r: seq<string>)
    ensures |r| == |c.rules| && forall i | 0 <= i < |r| :: r[i] == RuleLine(c, c.rules[i])
  {
    seq(|c.rules|, i requires 0 <= i < |c.rules| => RuleLine(c, c.rules[i]))
  }

  function RuleLines(chains: seq<Chain>): seq<string> {
    if chains == [] then [] else RuleLines(chains[..|chains| - 1]) + RulesOf(chains[|chains| - 1])
  }

  /** A table: its line, a line for every chain, the rules, and the end. */
  function TableLines(t: Table): seq<string> {
    [TableLine(t)] + ChainLines(t.chains) + RuleLines(t.chains) + ["COMMIT"]
  }

  function Dump(tables: seq<Table>): seq<string> {
    if tables == [] then [] else Dump(tables[..|tables| - 1]) + TableLines(tables[|tables| - 1])
  }

  // ----- what has to be read -----

  function ReadChains(chains: seq<Chain>): Chains {
    if chains == [] then map[]
    else ReadChains(chains[..|chains| - 1])[chains[|chains| - 1].name := RulesOf(chains[|chains| - 1])]
  }

  function ReadTables(tables: seq<Table>): IptablesRules.Rules {
    if tables == [] then map[]
    else ReadTables(tables[..|tables| - 1])[tables[|tables| - 1].name := ReadChains(tables[|tables| - 1].chains)]
  }

  function EmptyChains(chains: seq<Chain>): Chains {
    if chains == [] then map[] else EmptyChains(chains[..|chains| - 1])[chains[|chains| - 1].name := []]
  }

  // ----- single lines -----

  lemma FieldsOfWords(word: string, rest: string)
    requires IsWord(word)
    ensures Fields(word + " " + rest) == [word] + Fields(rest)
  {
    var s := word + " " + rest;
    WordLengthIs(s, |word|);
    assert s[..|word|] == word && s[|word|..] == " " + rest && (" " + rest)[1..] == rest;
  }

  lemma TrimmedStays(s: string)
    requires IsTrimmed(s)
    ensures TrimSpace(s) == s
  {
  }

  lemma RuleLineReads(c: Chain, rule: string)
    requires IsWord(c.name) && IsTrimmed(rule)
    ensures var line := RuleLine(c, rule);
            && TrimSpace(line) == line && HasPrefix(line, "-A ") && !HasPrefix(line, "*") && line != "COMMIT"
            && ExtractRuleChain(line) == c.name && AgentFilter.IptablesChain(line) == c.name
  {
    hide TrimSpace, Fields;
    var line := RuleLine(c, rule);
    assert line == "-A" + " " + (c.name + " " + rule);
    FieldsOfWords("-A", c.name + " " + rule);
    FieldsOfWords(c.name, rule);
    assert line[0] == '-' && line[|line| - 1] == rule[|rule| - 1];
    assert line[..3] == "-A ";
    TrimmedStays(line);
  }

  lemma ChainLineReads(c: Chain)
    requires IsWord(c.name)
    ensures var line := ChainLine(c);
            && TrimSpace(line) == line && !HasPrefix(line, "-A ") && !HasPrefix(line, "*") && line != "COMMIT"
            && ExtractRuleChain(line) == c.name && AgentFilter.IptablesChain(line) == c.name
  {
    hide TrimSpace, Fields;
    var line, word := ChainLine(c), ":" + c.name;
    assert line == word + " " + "- [0:0]";
    assert IsWord(word) by {
      assert forall i | 0 < i < |word| :: word[i] == c.name[i - 1];
    }
    FieldsOfWords(word, "- [0:0]");
    FieldsNotEmpty("- [0:0]");
    assert line[0] == ':' && line[|line| - 1] == ']' && word[1..] == c.name;
    assert !IsSpace(line[0]) && !IsSpace(line[|line| - 1]);
    assert word[0] == ':' && "-A"[0] == '-' && "-N"[0] == '-' && |word| > |":"|;
    TrimmedStays(line);
  }

  lemma FieldsNotEmpty(s: string)
    requires IsTrimmed(s)
    ensures Fields(s) != []
  {
  }

  lemma TableLineReads(t: Table)
    requires IsWord(t.name)
    ensures var line := TableLine(t); TrimSpace(line) == line && HasPrefix(line, "*") && line[1..] == t.name
  {
    hide TrimSpace;
    var line := TableLine(t);
    assert line[0] == '*' && line[|line| - 1] == t.name[|t.name| - 1];
    TrimmedStays(line);
  }

  // ----- reading on -----

  /** Reading more lines from a state. */
  function ReadOn(p: Parser, lines: seq<string>): (r: Parser)
    requires p.Valid()
    ensures r.Valid()
  {
    if lines == [] then p else ParseLine(ReadOn(p, lines[..|lines| - 1]), lines[|lines| - 1])
  }

  lemma {:induction false} ReadConcat(p: Parser, a: seq<string>, b: seq<string>)
    requires p.Valid()
    ensures ReadOn(p, a + b) == ReadOn(ReadOn(p, a), b)
  {
    hide ParseLine;
    if b == [] {
      assert a + b == a;
    } else {
      var last := |b| - 1;
      assert (a + b)[..|a| + last] == a + b[..last];
      ReadConcat(p, a, b[..last]);
    }
  }

  lemma {:induction false} ReadIsParse(lines: seq<string>)
    ensures ReadOn(Parser(map[], ""), lines) == ParseState(lines)
  {
    hide ParseLine;
    if lines != [] {
      ReadIsParse(lines[..|lines| - 1]);
    }
  }

  lemma ReadOne(p: Parser, line: string)
    requires p.Valid()
    ensures ReadOn(p, [line]) == ParseLine(p, line)
  {
    hide ParseLine;
    assert [line][..0] == [];
    assert ReadOn(p, []) == p;
  }

  lemma ReadRule(p: Parser, c: Chain, rule: string)
    requires p.Valid() && p.table != "" && IsWord(c.name) && IsTrimmed(rule)
    ensures ParseLine(p, RuleLine(c, rule))
         == p.(rules := p.rules[p.table :=
                                p.rules[p.table][c.name := Look(p.rules, p.table, c.name) + [RuleLine(c, rule)]]])
  {
    hide TrimSpace, ExtractRuleChain, RuleLine;
    RuleLineReads(c, rule);
  }

  lemma ReadChain(p: Parser, c: Chain)
    requires p.Valid() && p.table != "" && IsWord(c.name)
    ensures ParseLine(p, ChainLine(c))
         == p.(rules := p.rules[p.table := p.rules[p.table][c.name := Look(p.rules, p.table, c.name)]])
  {
    hide TrimSpace, ExtractRuleChain, ChainLine;
    ChainLineReads(c);
  }

  lemma ReadTable(p: Parser, t: Table)
    requires p.Valid() && IsWord(t.name) && t.name !in p.rules
    ensures ParseLine(p, TableLine(t)) == Parser(p.rules[t.name := map[]], t.name)
  {
    hide TrimSpace, TableLine;
    TableLineReads(t);
  }

  lemma ReadCommit(p: Parser)
    requires p.Valid()
    ensures ParseLine(p, "COMMIT") == p.(table := "")
  {
    TrimmedStays("COMMIT");
    hide TrimSpace;
    assert "COMMIT"[0] != '*';
  }

  /** The chain lines of a table that has no chains yet. */
  lemma {:induction false} ReadChainLines(p: Parser, chains: seq<Chain>)
    requires p.Valid() && p.table != "" && p.rules[p.table] == map[] && forall c | c in chains :: IsWord(c.name)
    requires forall i, j | 0 <= i < j < |chains| :: chains[i].name != chains[j].name
    ensures ReadOn(p, ChainLines(chains)) == p.(rules := p.rules[p.table := EmptyChains(chains)])
  {
    hide ParseLine, ChainLine, IsWord;
    if chains != [] {
      var front, last := chains[..|chains| - 1], chains[|chains| - 1];
      assert last in chains && forall c | c in front :: c in chains;
      ReadChainLines(p, front);
      ReadConcat(p, ChainLines(front), [ChainLine(last)]);
      var q := p.(rules := p.rules[p.table := EmptyChains(front)]);
      ReadOne(q, ChainLine(last));
      ReadChain(q, last);
      NotYet(front, last.name);
    }
  }

  lemma {:induction false} NotYet(chains: seq<Chain>, name: string)
    requires forall i | 0 <= i < |chains| :: chains[i].name != name
    ensures name !in EmptyChains(chains)
  {
    if chains != [] {
      NotYet(chains[..|chains| - 1], name);
    }
  }

  /** The rules of one chain. */
  lemma {:induction false} ReadRules(p: Parser, c: Chain, n: nat)
    requires p.Valid() && p.table != "" && IsWord(c.name) && n <= |c.rules| && forall r | r in c.rules :: IsTrimmed(r)
    requires Declared(p.rules, p.table, c.name)
    ensures ReadOn(p, RulesOf(c)[..n])
         == p.(rules := p.rules[p.table := p.rules[p.table][c.name := p.rules[p.table][c.name] + RulesOf(c)[..n]]])
  {
    hide ParseLine, RuleLine, IsWord, IsTrimmed;
    var before := p.rules[p.table][c.name];
    if n == 0 {
      assert before + [] == before;
      assert p.rules[p.table][c.name := before] == p.rules[p.table];
      assert p.rules[p.table := p.rules[p.table]] == p.rules;
    } else {
      ReadRules(p, c, n - 1);
      var q := p.(rules := p.rules[p.table := p.rules[p.table][c.name := before + RulesOf(c)[..n - 1]]]);
      var lines, rule := RulesOf(c)[..n], c.rules[n - 1];
      assert lines[..n - 1] == RulesOf(c)[..n - 1] && lines[n - 1] == RuleLine(c, rule) && rule in c.rules;
      ReadRule(q, c, rule);
      assert Look(q.rules, p.table, c.name) == before + RulesOf(c)[..n - 1];
      assert before + RulesOf(c)[..n - 1] + [RuleLine(c, rule)] == before + lines;
      Twice(p.rules, p.table, c.name, before + RulesOf(c)[..n - 1], before + lines);
    }
  }

  /** The later of two changes of one chain counts. */
  lemma Twice(rules: IptablesRules.Rules, table: string, name: string, a: seq<string>, b: seq<string>)
    requires table in rules
    ensures var once := rules[table := rules[table][name := a]];
            once[table := once[table][name := b]] == rules[table := rules[table][name := b]]
  {
    assert rules[table][name := a][name := b] == rules[table][name := b];
  }

  /** The chains with the rules of the first of them read and the others still empty. */
  function HalfRead(done: seq<Chain>, all: seq<Chain>): Chains {
    EmptyChains(all) + ReadChains(done)
  }

  lemma {:induction false} ChainNames(chains: seq<Chain>)
    ensures forall name :: name in ReadChains(chains) <==> name in EmptyChains(chains)
    ensures forall name | name in EmptyChains(chains) :: EmptyChains(chains)[name] == []
    ensures forall c | c in chains :: c.name in EmptyChains(chains)
    ensures forall name | name in EmptyChains(chains) :: exists c :: c in chains && c.name == name
  {
    if chains != [] {
      var front, last := chains[..|chains| - 1], chains[|chains| - 1];
      assert chains == front + [last];
      ChainNames(front);
    }
  }

  lemma HalfStep(front: seq<Chain>, c: Chain, all: seq<Chain>)
    ensures HalfRead(front + [c], all) == HalfRead(front, all)[c.name := RulesOf(c)]
  {
    hide EmptyChains;
    assert (front + [c])[..|front|] == front;
  }

  lemma HalfEmpty(front: seq<Chain>, c: Chain, all: seq<Chain>)
    requires c in all && forall d | d in front :: d.name != c.name
    ensures c.name in HalfRead(front, all) && HalfRead(front, all)[c.name] == []
  {
    hide EmptyChains, ReadChains;
    ChainNames(front);
    ChainNames(all);
  }

  lemma {:induction false} ReadRuleLines(p: Parser, chains: seq<Chain>, n: nat)
    requires p.Valid() && p.table != "" && n <= |chains| && p.rules[p.table] == EmptyChains(chains)
    requires forall c | c in chains :: IsWord(c.name) && forall r | r in c.rules :: IsTrimmed(r)
    requires forall i, j | 0 <= i < j < |chains| :: chains[i].name != chains[j].name
    ensures ReadOn(p, RuleLines(chains[..n])) == p.(rules := p.rules[p.table := HalfRead(chains[..n], chains)])
  {
    hide ParseLine, RuleLine, IsWord, IsTrimmed, EmptyChains, ReadChains, HalfRead, RulesOf;
    if n == 0 {
      NothingRead(p, chains);
    } else {
      var front, c := chains[..n - 1], chains[n - 1];
      assert chains[..n] == front + [c] && chains[..n][..n - 1] == front && c in chains;
      ReadRuleLines(p, chains, n - 1);
      ReadConcat(p, RuleLines(front), RulesOf(c));
      HalfEmpty(front, c, chains);
      HalfStep(front, c, chains);
      OneChain(p, HalfRead(front, chains), c);
    }
  }

  lemma NothingRead(p: Parser, chains: seq<Chain>)
    requires p.Valid() && p.table != "" && p.rules[p.table] == EmptyChains(chains)
    ensures ReadOn(p, RuleLines(chains[..0])) == p.(rules := p.rules[p.table := HalfRead(chains[..0], chains)])
  {
    hide EmptyChains;
    assert HalfRead(chains[..0], chains) == EmptyChains(chains);
    assert p.rules[p.table := p.rules[p.table]] == p.rules;
  }

  lemma OneChain(p: Parser, before: Chains, c: Chain)
    requires p.Valid() && p.table != "" && IsWord(c.name) && forall r | r in c.rules :: IsTrimmed(r)
    requires c.name in before && before[c.name] == []
    ensures ReadOn(p.(rules := p.rules[p.table := before]), RulesOf(c))
         == p.(rules := p.rules[p.table := before[c.name := RulesOf(c)]])
  {
    hide ReadOn, IsWord, IsTrimmed;
    var q := p.(rules := p.rules[p.table := before]);
    ReadRules(q, c, |c.rules|);
    assert RulesOf(c)[..|c.rules|] == RulesOf(c) && [] + RulesOf(c) == RulesOf(c);
  }

  lemma ReadWritten(p: Parser, t: Table)
    requires p.Valid() && WellNamed(t) && t.name !in p.rules
    ensures ReadOn(p, TableLines(t)) == Parser(p.rules[t.name := ReadChains(t.chains)], "")
  {
    hide ParseLine, TableLine, ReadChains, EmptyChains, ChainLines, RuleLines, ReadOn;
    ReadConcat(p, [TableLine(t)] + ChainLines(t.chains) + RuleLines(t.chains), ["COMMIT"]);
    ReadConcat(p, [TableLine(t)] + ChainLines(t.chains), RuleLines(t.chains));
    ReadConcat(p, [TableLine(t)], ChainLines(t.chains));
    ReadOne(p, TableLine(t));
    ReadTable(p, t);
    var q := Parser(p.rules[t.name := map[]], t.name);
    ReadChainLines(q, t.chains);
    var r := q.(rules := q.rules[t.name := EmptyChains(t.chains)]);
    ReadRuleLines(r, t.chains, |t.chains|);
    assert t.chains[..|t.chains|] == t.chains;
    ChainNames(t.chains);
    assert HalfRead(t.chains, t.chains) == ReadChains(t.chains);
    var s := r.(rules := r.rules[t.name := ReadChains(t.chains)]);
    ReadOne(s, "COMMIT");
    ReadCommit(s);
    assert s.rules == p.rules[t.name := ReadChains(t.chains)];
  }

  lemma {:induction false} ReadNames(tables: seq<Table>)
    ensures forall name | name in ReadTables(tables) :: exists t :: t in tables && t.name == name
  {
    if tables != [] {
      var front, last := tables[..|tables| - 1], tables[|tables| - 1];
      assert tables == front + [last];
      ReadNames(front);
    }
  }

  /** Parsing a written dump gives its tables, each with its chains, each with its rules in order, and nothing else. */
  lemma {:induction false} ParsedDump(tables: seq<Table>)
    requires AllWellNamed(tables)
    ensures ParseState(Dump(tables)) == Parser(ReadTables(tables), "")
  {
    hide ParseLine, TableLines, ParseState, WellNamed;
    ReadIsParse(Dump(tables));
    if tables == [] {
      assert ReadOn(Parser(map[], ""), []) == Parser(map[], "");
    } else {
      var front, last := tables[..|tables| - 1], tables[|tables| - 1];
      assert last in tables && forall t | t in front :: t in tables;
      ParsedDump(front);
      ReadIsParse(Dump(front));
      ReadConcat(Parser(map[], ""), Dump(front), TableLines(last));
      ReadNames(front);
      ReadWritten(Parser(ReadTables(front), ""), last);
    }
  }

  /** What is read, chain by chain. */
  lemma {:induction false} ReadBack(chains: seq<Chain>, i: nat)
    requires i < |chains| && forall i, j | 0 <= i < j < |chains| :: chains[i].name != chains[j].name
    ensures chains[i].name in ReadChains(chains) && ReadChains(chains)[chains[i].name] == RulesOf(chains[i])
  {
    if i < |chains| - 1 {
      ReadBack(chains[..|chains| - 1], i);
    }
  }
}
