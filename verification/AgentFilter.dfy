/** The node agent's allowlist filter over `iptables-save` output (internal/agent/commands.go). */
module AgentFilter {
  import opened Text

  /** Whether a glob pattern matches a name; `path.Match`, with a malformed pattern matching nothing. */
  type Glob = (string, string) -> bool

  /** The chain a dump line belongs to, or "" for a line that belongs to none. */
  function IptablesChain(line: string): string {
    var fields := Fields(line);
    if |fields| < 2 then ""
    else if fields[0] == ":" || fields[0] == "-A" || fields[0] == "-N" then fields[1]
    else if HasPrefix(fields[0], ":") then fields[0][1..]
    else ""
  }

  predicate ChainAllowed(chain: string, allowlist: seq<string>, glob: Glob) {
    exists i | 0 <= i < |allowlist| :: glob(allowlist[i], chain) || allowlist[i] == chain
  }

  predicate Kept(line: string, allowlist: seq<string>, glob: Glob) {
    var chain := IptablesChain(line);
    chain == "" || ChainAllowed(chain, allowlist, glob)
  }

  /** The kept lines, in their order. */
  function KeptLines(lines: seq<string>, allowlist: seq<string>, glob: Glob): seq<string> {
    if lines == [] then []
    else
      var last := |lines| - 1;
      KeptLines(lines[..last], allowlist, glob) + if Kept(lines[last], allowlist, glob) then [lines[last]] else []
  }

  /** What the agent reports; an empty allowlist filters nothing. */
  function Filtered(lines: seq<string>, allowlist: seq<string>, glob: Glob): seq<string> {
    if allowlist == [] then lines else KeptLines(lines, allowlist, glob)
  }

  method FilterIptablesLines(lines: seq<string>, allowlist: seq<string>, glob: Glob) returns (filtered: seq<string>)
    ensures filtered == Filtered(lines, allowlist, glob)
  {
    if |allowlist| == 0 {
      return lines;
    }
    filtered := [];
    for i := 0 to |lines|
      invariant filtered == KeptLines(lines[..i], allowlist, glob)
    {
      assert lines[..i + 1][..i] == lines[..i];
      var chain := IptablesChain(lines[i]);
      if chain == "" || ChainAllowed(chain, allowlist, glob) {
        filtered := filtered + [lines[i]];
      }
    }
    assert lines[..|lines|] == lines;
  }

  // ----- connection tracking -----

  predicate ConntrackKept(line: string, protocols: set<string>) {
    Fields(line) != [] && (protocols == {} || ToLower(Fields(line)[0]) in protocols)
  }

  /** The lines of the wanted protocols, in their order. */
  function ConntrackLines(lines: seq<string>, protocols: set<string>): (r: seq<string>)
    ensures forall line | line in r :: ConntrackKept(line, protocols)
  {
    if lines == [] then []
    else
      var last := |lines| - 1;
      ConntrackLines(lines[..last], protocols) + if ConntrackKept(lines[last], protocols) then [lines[last]] else []
  }

  function Lowered(protocols: seq<string>): set<string> {
    set p | p in protocols :: ToLower(p)
  }

  function MaxEntries(configured: int): nat {
    if configured <= 0 then 2000 else configured
  }

  function Shortened(lines: seq<string>, n: nat): seq<string> {
    if |lines| <= n then lines else lines[..n]
  }

  lemma {:induction false} ConntrackPrefix(lines: seq<string>, i: nat, protocols: set<string>)
    requires i <= |lines|
    ensures ConntrackLines(lines[..i], protocols) <= ConntrackLines(lines, protocols)
    decreases |lines|
  {
    if i < |lines| {
      assert lines[..|lines| - 1][..i] == lines[..i];
      ConntrackPrefix(lines[..|lines| - 1], i, protocols);
    } else {
      assert lines[..i] == lines;
    }
  }

  lemma ConntrackStep(lines: seq<string>, i: nat, protocols: set<string>)
    requires i < |lines|
    ensures ConntrackLines(lines[..i + 1], protocols)
         == ConntrackLines(lines[..i], protocols) + if ConntrackKept(lines[i], protocols) then [lines[i]] else []
  {
    assert lines[..i + 1][..i] == lines[..i];
  }

  method LowerAll(protocols: seq<string>) returns (lowered: set<string>)
    ensures lowered == Lowered(protocols)
  {
    hide ToLower;
    lowered := {};
    for i := 0 to |protocols|
      invariant lowered == Lowered(protocols[..i])
    {
      assert protocols[..i + 1] == protocols[..i] + [protocols[i]];
      lowered := lowered + {ToLower(protocols[i])};
    }
    assert protocols[..|protocols|] == protocols;
  }

  /** `filterConntrackLines` stops reading as soon as it has enough lines. */
  method FilterConntrackLines(lines: seq<string>, protocols: seq<string>, maxEntries: int) returns (out: seq<string>)
    ensures out == Shortened(ConntrackLines(lines, Lowered(protocols)), MaxEntries(maxEntries))
  {
    hide ToLower, Fields, ConntrackLines, Lowered;
    var wanted := LowerAll(protocols);
    var limit := maxEntries;
    if limit <= 0 {
      limit := 2000;
    }
    out := [];
    assert ConntrackLines(lines[..0], wanted) == [] by { NoConntrack(lines[..0], wanted); }
    for i := 0 to |lines|
      invariant out == ConntrackLines(lines[..i], wanted) && |out| < limit
    {
      ConntrackStep(lines, i, wanted);
      var fields := Fields(lines[i]);
      if |fields| == 0 {
        continue;
      }
      if wanted != {} {
        if ToLower(fields[0]) !in wanted {
          continue;
        }
      }
      out := out + [lines[i]];
      if |out| >= limit {
        ConntrackPrefix(lines, i + 1, wanted);
        return;
      }
    }
    assert lines[..|lines|] == lines;
  }

  lemma NoConntrack(lines: seq<string>, protocols: set<string>)
    requires lines == []
    ensures ConntrackLines(lines, protocols) == []
  {
  }

  lemma {:induction false} ConntrackFixed(lines: seq<string>, protocols: set<string>)
    requires forall line | line in lines :: ConntrackKept(line, protocols)
    ensures ConntrackLines(lines, protocols) == lines
  {
    if lines != [] {
      var last := |lines| - 1;
      ConntrackFixed(lines[..last], protocols);
      assert lines == lines[..last] + [lines[last]];
    }
  }

  /** Filtering what was filtered changes nothing, and a higher limit only adds lines at the end. */
  lemma ConntrackStable(lines: seq<string>, protocols: set<string>, n: nat, m: nat)
    requires n <= m
    ensures var kept := ConntrackLines(lines, protocols);
            && Shortened(ConntrackLines(Shortened(kept, n), protocols), n) == Shortened(kept, n)
            && Shortened(kept, n) <= Shortened(kept, m)
  {
    ConntrackFixed(Shortened(ConntrackLines(lines, protocols), n), protocols);
  }

  // ----- what is kept -----

  lemma {:induction false} KeptConcat(a: seq<string>, b: seq<string>, allowlist: seq<string>, glob: Glob)
    ensures KeptLines(a + b, allowlist, glob) == KeptLines(a, allowlist, glob) + KeptLines(b, allowlist, glob)
  {
    hide Kept;
    if b == [] {
      assert a + b == a;
    } else {
      var last := |b| - 1;
      assert (a + b)[..|a| + last] == a + b[..last];
      KeptConcat(a, b[..last], allowlist, glob);
    }
  }

  /** A line by itself is kept if it belongs to no chain, or its chain is a pattern or matches one. */
  lemma KeptAlone(line: string, allowlist: seq<string>, glob: Glob)
    ensures KeptLines([line], allowlist, glob)
         == if IptablesChain(line) == "" || exists pattern | pattern in allowlist ::
                 pattern == IptablesChain(line) || glob(pattern, IptablesChain(line))
            then [line] else []
  {
    hide IptablesChain;
    assert [line][..0] == [];
    var chain := IptablesChain(line);
    if pattern :| pattern in allowlist && (pattern == chain || glob(pattern, chain)) {
      var i :| 0 <= i < |allowlist| && allowlist[i] == pattern;
    }
  }

  lemma {:induction false} ConntrackConcat(a: seq<string>, b: seq<string>, protocols: set<string>)
    ensures ConntrackLines(a + b, protocols) == ConntrackLines(a, protocols) + ConntrackLines(b, protocols)
  {
    hide ConntrackKept, ConntrackLines;
    if b == [] {
      assert a + b == a;
      NoConntrack(b, protocols);
    } else {
      var front, last := b[..|b| - 1], |a| + |b| - 1;
      assert (a + b)[..last] == a + front && (a + b)[..last + 1] == a + b && b[..|b| - 1 + 1] == b;
      ConntrackConcat(a, front, protocols);
      ConntrackStep(a + b, last, protocols);
      ConntrackStep(b, |b| - 1, protocols);
    }
  }

  predicate BlankLine(line: string) {
    forall i | 0 <= i < |line| :: IsSpace(line[i])
  }

  lemma {:induction false} NoFields(line: string)
    ensures Fields(line) == [] <==> BlankLine(line)
  {
    if line != [] && IsSpace(line[0]) {
      NoFields(line[1..]);
      assert line == [line[0]] + line[1..];
    }
  }

  /** The first word of the line is this one, in whatever case. */
  predicate FirstWordIs(line: string, word: string) {
    |Fields(line)| > 0 && ToLower(Fields(line)[0]) == ToLower(word)
  }

  /** A line by itself is reported if it is not blank and no protocols are asked for or its first word is one of them,
      in whatever case. */
  lemma ConntrackAlone(line: string, protocols: seq<string>)
    ensures ConntrackLines([line], Lowered(protocols))
         == if !BlankLine(line) && (protocols == [] || exists p | p in protocols :: FirstWordIs(line, p)) then [line]
         else []
  {
    hide Fields, ToLower;
    NoFields(line);
    assert [line][..0] == [];
    if protocols != [] {
      assert protocols[0] in protocols && ToLower(protocols[0]) in Lowered(protocols);
    }
  }

  /** At most as many lines as configured are reported, or 2000; fewer only if there are no more. */
  lemma ConntrackLimit(lines: seq<string>, protocols: set<string>, maxEntries: int)
    ensures var limit := if maxEntries > 0 then maxEntries else 2000;
            var all, out := ConntrackLines(lines, protocols),
              Shortened(ConntrackLines(lines, protocols), MaxEntries(maxEntries));
            out <= all && |out| <= limit && (|out| < limit ==> out == all)
  {
    hide ConntrackLines;
  }
}
