/** Names of generated Kubernetes objects (internal/controller/networkprobelab_controller.go). */
module Names {
  import opened Text

  predicate IsHex(c: char) {
    '0' <= c <= '9' || 'a' <= c <= 'f'
  }

  /** The digest gives 10 lower-case hexadecimal digits, as `shortHash` cuts them from a SHA-1 sum. */
  ghost predicate ShortHex(h: Digest) {
    forall x :: |h(x)| == 10 && forall i | 0 <= i < 10 :: IsHex(h(x)[i])
  }

  /** The digest tells these texts apart. */
  ghost predicate Tells(h: Digest, texts: set<string>) {
    forall x, y | x in texts && y in texts && h(x) == h(y) :: x == y
  }

  predicate IsAlnum(c: char) {
    'a' <= c <= 'z' || '0' <= c <= '9'
  }

  /** Letters and digits as they are, every run of other characters as one dash. */
  function Collapsed(s: string): string {
    if s == [] then ""
    else
      var before, c := Collapsed(s[..|s| - 1]), s[|s| - 1];
      if IsAlnum(c) then before + [c]
      else if before != [] && before[|before| - 1] == '-' then before
      else before + ['-']
  }

  function TrimRightDashes(s: string): string {
    if s != [] && s[|s| - 1] == '-' then TrimRightDashes(s[..|s| - 1]) else s
  }

  function TrimLeftDashes(s: string): string {
    if s != [] && s[0] == '-' then TrimLeftDashes(s[1..]) else s
  }

  /** `sanitizeName` */
  function Sanitized(value: string): string {
    var out := TrimRightDashes(TrimLeftDashes(Collapsed(ToLower(value))));
    if out == "" then "lab" else out
  }

  method SanitizeName(value: string) returns (out: string)
    ensures out == Sanitized(value)
  {
    var lower := ToLower(value);
    var b := "";
    var lastDash := false;
    for i := 0 to |lower|
      invariant b == Collapsed(lower[..i])
      invariant lastDash <==> b != [] && b[|b| - 1] == '-'
    {
      assert lower[..i + 1][..i] == lower[..i];
      if IsAlnum(lower[i]) {
        b := b + [lower[i]];
        lastDash := false;
        continue;
      }
      if !lastDash {
        b := b + ['-'];
        lastDash := true;
      }
    }
    assert lower[..|lower|] == lower;
    out := TrimRightDashes(TrimLeftDashes(b));
    if out == "" {
      out := "lab";
    }
  }

  /** The base cut so that a dash and the digest still fit into 63 characters. */
  function WithDigest(base: string, digest: string): string {
    var room := 63 - |digest| - 1;
    (if 0 <= room < |base| then TrimRightDashes(base[..room]) else base) + "-" + digest
  }

  /** `probeJobName` */
  function ProbeJobName(lab: string, node: string, h: Digest): string {
    WithDigest("npl-" + Sanitized(lab), h(node))
  }

  /** `snapshotConfigMapName` */
  function SnapshotConfigMapName(lab: string, node: string, h: Digest): string {
    WithDigest("npl-snapshot-" + Sanitized(lab), h(node))
  }

  // ----- names are legal -----

  predicate Dashed(s: string) {
    forall i | 0 <= i < |s| :: IsAlnum(s[i]) || s[i] == '-'
  }

  predicate NoDoubleDash(s: string) {
    forall i | 0 <= i < |s| - 1 :: !(s[i] == '-' && s[i + 1] == '-')
  }

  /** What `sanitizeName` produces: letters and digits with single dashes between them. */
  predicate Canonical(s: string) {
    s != [] && Dashed(s) && NoDoubleDash(s) && IsAlnum(s[0]) && IsAlnum(s[|s| - 1])
  }

  /** A label as in section 2.3.1 of RFC 1035, in lower case. */
  predicate IsLabel(s: string) {
    1 <= |s| <= 63 && 'a' <= s[0] <= 'z' && Dashed(s) && IsAlnum(s[|s| - 1])
  }

  lemma {:induction false} CollapsedShape(s: string)
    ensures Dashed(Collapsed(s)) && NoDoubleDash(Collapsed(s))
  {
    if s != [] {
      CollapsedShape(s[..|s| - 1]);
    }
  }

  lemma {:induction false} TrimLeftShape(s: string)
    requires Dashed(s) && NoDoubleDash(s)
    ensures var t := TrimLeftDashes(s); Dashed(t) && NoDoubleDash(t) && (t != [] ==> IsAlnum(t[0]))
  {
    if s != [] && s[0] == '-' {
      TrimLeftShape(s[1..]);
    }
  }

  lemma {:induction false} TrimRightShape(s: string)
    requires Dashed(s)
    ensures var t := TrimRightDashes(s);
            t <= s && Dashed(t) && (NoDoubleDash(s) ==> NoDoubleDash(t)) && (t != [] ==> IsAlnum(t[|t| - 1]))
  {
    if s != [] && s[|s| - 1] == '-' {
      TrimRightShape(s[..|s| - 1]);
    }
  }

  lemma SanitizedCanonical(value: string)
    ensures Canonical(Sanitized(value))
  {
    var c := Collapsed(ToLower(value));
    CollapsedShape(ToLower(value));
    TrimLeftShape(c);
    TrimRightShape(TrimLeftDashes(c));
  }

  lemma {:induction false} CollapsedFixed(s: string)
    requires Dashed(s) && NoDoubleDash(s)
    ensures Collapsed(s) == s
  {
    if s != [] {
      var last := |s| - 1;
      CollapsedFixed(s[..last]);
      assert s == s[..last] + [s[last]];
    }
  }

  lemma LowerFixed(s: string)
    requires Dashed(s)
    ensures ToLower(s) == s
  {
    forall i | 0 <= i < |s| ensures ToLower(s)[i] == s[i] {
      assert IsAlnum(s[i]) || s[i] == '-';
    }
  }

  /** Sanitizing is the identity exactly on what it produces; in particular it is idempotent. */
  lemma SanitizedFixed(value: string)
    ensures Sanitized(value) == value <==> Canonical(value)
    ensures Sanitized(Sanitized(value)) == Sanitized(value)
  {
    SanitizedCanonical(value);
    FixedOnCanonical(Sanitized(value));
    if Canonical(value) {
      FixedOnCanonical(value);
    }
  }

  lemma FixedOnCanonical(s: string)
    requires Canonical(s)
    ensures Sanitized(s) == s
  {
    LowerFixed(s);
    CollapsedFixed(s);
  }

  lemma WithDigestLegal(base: string, digest: string)
    requires |digest| == 10 && forall i | 0 <= i < 10 :: IsHex(digest[i])
    requires base != [] && 'a' <= base[0] <= 'z' && Dashed(base)
    ensures IsLabel(WithDigest(base, digest))
  {
    var cut := if |base| > 52 then base[..52] else base;
    TrimRightShape(cut);
    var kept := if |base| > 52 then TrimRightDashes(cut) else base;
    if kept == [] {
      AllDashes(cut);
    }
    var name := kept + "-" + digest;
    assert kept[0] == base[0];
    forall i | 0 <= i < |name| ensures IsAlnum(name[i]) || name[i] == '-' {
      assert i > |kept| ==> name[i] == digest[i - |kept| - 1];
    }
    assert name[|name| - 1] == digest[9];
  }

  lemma {:induction false} AllDashes(s: string)
    requires TrimRightDashes(s) == [] && s != []
    ensures s[0] == '-'
  {
    if |s| > 1 {
      AllDashes(s[..|s| - 1]);
    }
  }

  /** Whatever the lab and the node are called, the names of their job and their snapshot ConfigMap are legal labels. */
  lemma GeneratedNamesLegal(lab: string, node: string, h: Digest)
    requires ShortHex(h)
    ensures IsLabel(ProbeJobName(lab, node, h)) && IsLabel(SnapshotConfigMapName(lab, node, h))
  {
    SanitizedCanonical(lab);
    assert |h(node)| == 10;
    WithDigestLegal("npl-" + Sanitized(lab), h(node));
    WithDigestLegal("npl-snapshot-" + Sanitized(lab), h(node));
  }

  /** Within one lab, nodes share a job name exactly if they share a digest. */
  lemma JobNamesDiffer(lab: string, a: string, b: string, h: Digest)
    requires ShortHex(h)
    ensures ProbeJobName(lab, a, h) == ProbeJobName(lab, b, h) <==> h(a) == h(b)
  {
    var x, y := ProbeJobName(lab, a, h), ProbeJobName(lab, b, h);
    assert |h(a)| == 10 && |h(b)| == 10;
    assert x[|x| - 10..] == h(a) && y[|y| - 10..] == h(b);
  }

  // ----- what is left of a name -----

  /** The letters are the code points 97 to 122, the digits 48 to 57. */
  lemma AlnumExactly(c: char)
    ensures IsAlnum(c) <==> 97 <= c as int <= 122 || 48 <= c as int <= 57
  {
  }

  /** The letters and digits of a text. */
  function Alnums(s: string): string {
    if s == [] then "" else Alnums(s[..|s| - 1]) + if IsAlnum(s[|s| - 1]) then [s[|s| - 1]] else []
  }

  lemma {:induction false} AlnumsConcat(a: string, b: string)
    ensures Alnums(a + b) == Alnums(a) + Alnums(b)
  {
    if b == [] {
      assert a + b == a;
    } else {
      var last := |b| - 1;
      assert (a + b)[..|a| + last] == a + b[..last];
      AlnumsConcat(a, b[..last]);
    }
  }

  lemma {:induction false} CollapsedKeeps(s: string)
    ensures Alnums(Collapsed(s)) == Alnums(s)
  {
    if s != [] {
      var front, c := s[..|s| - 1], s[|s| - 1];
      CollapsedKeeps(front);
      AlnumsConcat(Collapsed(front), [c]);
      AlnumsConcat(Collapsed(front), ['-']);
      OneAlnum(c);
      OneAlnum('-');
    }
  }

  lemma OneAlnum(c: char)
    ensures Alnums([c]) == if IsAlnum(c) then [c] else []
  {
    assert [c][..0] == [];
  }

  lemma {:induction false} TrimKeeps(s: string)
    ensures Alnums(TrimLeftDashes(s)) == Alnums(s) && Alnums(TrimRightDashes(s)) == Alnums(s)
    decreases |s|
  {
    if s != [] {
      OneAlnum(s[0]);
      assert s == [s[0]] + s[1..] && s == s[..|s| - 1] + [s[|s| - 1]];
      AlnumsConcat([s[0]], s[1..]);
      TrimKeeps(s[1..]);
      TrimKeeps(s[..|s| - 1]);
    }
  }

  /** Sanitizing keeps the letters, in lower case, and the digits; a text without any becomes "lab". */
  lemma SanitizedKeeps(value: string)
    ensures if Alnums(ToLower(value)) == "" then Sanitized(value) == "lab"
            else Alnums(Sanitized(value)) == Alnums(ToLower(value))
  {
    hide ToLower;
    var c := Collapsed(ToLower(value));
    CollapsedKeeps(ToLower(value));
    TrimKeeps(c);
    TrimKeeps(TrimLeftDashes(c));
    var out := TrimRightDashes(TrimLeftDashes(c));
    if out != "" {
      CollapsedShape(ToLower(value));
      TrimLeftShape(c);
      TrimRightShape(TrimLeftDashes(c));
      assert out == out[..|out| - 1] + [out[|out| - 1]];
    }
  }

  /** The text without the dashes at its end. */
  predicate WithoutDashes(text: string, kept: string) {
    && kept <= text && (kept != [] ==> kept[|kept| - 1] != '-')
    && forall i | |kept| <= i < |text| :: text[i] == '-'
  }

  lemma {:induction false} TrimRightExactly(s: string)
    ensures WithoutDashes(s, TrimRightDashes(s))
  {
    if s != [] && s[|s| - 1] == '-' {
      TrimRightExactly(s[..|s| - 1]);
    }
  }

  /** The base of a name is its beginning, cut only where the digest needs the room, and then without dashes at the
      end. */
  lemma WithDigestExactly(base: string, digest: string)
    requires |digest| == 10
    ensures if |base| <= 52 then WithDigest(base, digest) == base + "-" + digest
            else exists kept :: WithoutDashes(base[..52], kept) && WithDigest(base, digest) == kept + "-" + digest
  {
    hide WithoutDashes;
    if |base| > 52 {
      TrimRightExactly(base[..52]);
    }
  }

  /** Names of labs that leave room for the digest are in the generated names in full. */
  lemma GeneratedNamesExactly(lab: string, node: string, h: Digest)
    requires ShortHex(h)
    ensures |Sanitized(lab)| <= 48 ==> ProbeJobName(lab, node, h) == "npl-" + Sanitized(lab) + "-" + h(node)
    ensures |Sanitized(lab)| <= 39 ==>
              SnapshotConfigMapName(lab, node, h) == "npl-snapshot-" + Sanitized(lab) + "-" + h(node)
  {
    assert |h(node)| == 10;
  }
}
