/** Which hosts are in scope: the server's rule (fetch/egress.py), and the extension's rule with the
    hook patterns derived from it (hook-matches.js). Blanks and letter case are those of ASCII. */
module HostScope {
  import opened Basics
  import opened Text

  // ---- text ----------------------------------------------------------------

  /** What the server strips; the separators 28 to 31 are blanks to it. */
  predicate Blank(c: char) {
    c == ' ' || 9 <= c as int <= 13 || 28 <= c as int <= 31
  }

  function LowerChar(c: char): char {
    if 'A' <= c <= 'Z' then c - 'A' + 'a' else c
  }

  function Lower(s: string): string {
    seq(|s|, i requires 0 <= i < |s| => LowerChar(s[i]))
  }

  function StripLeft(s: string): string {
    if s != "" && Blank(s[0]) then StripLeft(s[1..]) else s
  }

  function StripRight(s: string): string {
    if s != "" && Blank(s[|s| - 1]) then StripRight(s[..|s| - 1]) else s
  }

  function StripDots(s: string): string {
    if s != "" && s[|s| - 1] == '.' then StripDots(s[..|s| - 1]) else s
  }

  predicate EndsWith(s: string, t: string) {
    |t| <= |s| && s[|s| - |t|..] == t
  }

  // ---- labels --------------------------------------------------------------

  /** The test both rules use: the entry itself, or anything before a dot and the entry. */
  predicate Under(host: string, entry: string) {
    host == entry || EndsWith(host, "." + entry)
  }

  function Labels(host: string): seq<string> {
    Split(host, '.')
  }

  predicate LabelSuffix(entry: string, host: string) {
    var (e, h) := (Labels(entry), Labels(host));
    |e| <= |h| && h[|h| - |e|..] == e
  }

  lemma {:induction false} JoinAround(a: seq<string>, b: seq<string>)
    requires a != [] && b != []
    ensures Join(a + b, '.') == Join(a, '.') + "." + Join(b, '.')
  {
    if |a| == 1 {
      assert (a + b)[1..] == b;
    } else {
      assert (a + b)[1..] == a[1..] + b;
      JoinAround(a[1..], b);
    }
  }

  lemma UnderHasLabels(host: string, entry: string)
    requires Under(host, entry)
    ensures LabelSuffix(entry, host)
  {
    if EndsWith(host, "." + entry) {
      var front := host[..|host| - |entry| - 1];
      assert host == front + ['.'] + entry;
      SplitAround(front, '.', entry);
    }
  }

  lemma LabelsAreUnder(host: string, entry: string)
    requires LabelSuffix(entry, host)
    ensures Under(host, entry)
  {
    JoinSplit(host, '.');
    JoinSplit(entry, '.');
    var n := |Labels(host)| - |Labels(entry)|;
    var front := Labels(host)[..n];
    assert Labels(host) == front + Labels(entry);
    if front == [] {
      assert Labels(host) == Labels(entry);
    } else {
      JoinAround(front, Labels(entry));
      EndsInJoined(host, Join(front, '.'), entry);
    }
  }

  lemma EndsInJoined(host: string, front: string, entry: string)
    requires host == front + "." + entry
    ensures EndsWith(host, "." + entry)
  {
    assert host == front + ("." + entry);
  }

  /** The textual test is label-wise: the entry's labels end the host's. */
  lemma UnderIffLabels(host: string, entry: string)
    ensures Under(host, entry) <==> LabelSuffix(entry, host)
  {
    if Under(host, entry) {
      UnderHasLabels(host, entry);
    }
    if LabelSuffix(entry, host) {
      LabelsAreUnder(host, entry);
    }
  }

  // ---- the server's rule ---------------------------------------------------

  /** `_normalize_host`. */
  function Normalize(value: string): string {
    Lower(StripDots(StripRight(StripLeft(value))))
  }

  predicate Ldh(name: string) {
    1 <= |name| <= 63 && name[0] != '-' && name[|name| - 1] != '-' &&
    forall i | 0 <= i < |name| :: 'a' <= name[i] <= 'z' || '0' <= name[i] <= '9' || name[i] == '-'
  }

  /** The label expression; its end anchor also stands before a final line feed. */
  predicate LabelMatches(name: string) {
    Ldh(name) || (name != "" && name[|name| - 1] == '\n' && Ldh(name[..|name| - 1]))
  }

  predicate AllDigits(name: string) {
    name != "" && forall i | 0 <= i < |name| :: '0' <= name[i] <= '9'
  }

  /** `is_valid_scope_entry`; `denied` is the public-suffix list. */
  predicate IsValidEntry(entry: string, allowLocal: bool, denied: set<string>) {
    var host := Normalize(entry);
    var labels := Labels(host);
    && host != ""
    && (|labels| >= 2 || allowLocal)
    && (forall name | name in labels :: LabelMatches(name))
    && !AllDigits(labels[|labels| - 1])
    && host !in denied
  }

  /** `normalize_scope_entry`. */
  function NormalizeEntry(entry: string, allowLocal: bool, denied: set<string>): Option<string> {
    var host := Normalize(entry);
    var bare := if "*." <= host then host[2..] else host;
    if IsValidEntry(bare, allowLocal, denied) then Some(bare) else None
  }

  /** `host_in_scope`. */
  predicate InScope(host: string, entries: seq<string>, allowLocal: bool, denied: set<string>) {
    var normalized := Normalize(host);
    var allowed := set e | e in entries && IsValidEntry(e, allowLocal, denied) :: Normalize(e);
    normalized != "" && exists entry | entry in allowed :: normalized == entry || EndsWith(normalized, "." + entry)
  }

  /** A host is in scope exactly when its labels end in those of a valid entry. */
  lemma InScopeIffLabels(host: string, entries: seq<string>, allowLocal: bool, denied: set<string>)
    ensures InScope(host, entries, allowLocal, denied) <==>
      Normalize(host) != "" &&
      exists e | e in entries :: IsValidEntry(e, allowLocal, denied) && LabelSuffix(Normalize(e), Normalize(host))
  {
    var normalized := Normalize(host);
    forall e | e in entries ensures Under(normalized, Normalize(e)) <==> LabelSuffix(Normalize(e), normalized) {
      UnderIffLabels(normalized, Normalize(e));
    }
    if normalized != "" && exists e | e in entries :: IsValidEntry(e, allowLocal, denied) && LabelSuffix(Normalize(e), normalized) {
      var e :| e in entries && IsValidEntry(e, allowLocal, denied) && LabelSuffix(Normalize(e), normalized);
      assert Under(normalized, Normalize(e));
    }
  }

  /** A label: one to 63 lower-case letters, digits and hyphens, no hyphen at either end. */
  predicate IsLabel(name: string) {
    1 <= |name| <= 63 && name[0] != '-' && name[|name| - 1] != '-' &&
    forall c | c in name :: 97 <= c as int <= 122 || 48 <= c as int <= 57 || c == '-'
  }

  lemma LabelMatchesIff(name: string)
    ensures LabelMatches(name) <==> IsLabel(name) || exists core: string :: name == core + "\n" && IsLabel(core)
  {
    LdhIff(name);
    if name != "" && name[|name| - 1] == '\n' {
      LdhIff(name[..|name| - 1]);
      assert name == name[..|name| - 1] + "\n";
    }
    if core: string :| name == core + "\n" && IsLabel(core) {
      assert core == name[..|name| - 1];
      LdhIff(core);
    }
  }

  lemma LdhIff(name: string)
    ensures Ldh(name) <==> IsLabel(name)
  {
    if IsLabel(name) {
      forall i | 0 <= i < |name| ensures 'a' <= name[i] <= 'z' || '0' <= name[i] <= '9' || name[i] == '-' {
        assert name[i] in name;
      }
    }
  }

  predicate NotANumber(name: string) {
    exists i | 0 <= i < |name| :: !(48 <= name[i] as int <= 57)
  }

  ghost predicate LabelOrWithFeed(name: string) {
    IsLabel(name) || exists core: string :: name == core + "\n" && IsLabel(core)
  }

  /** What a normalised entry has to be: labels, at least two of them unless local hosts are allowed, the
      last not a number; and no public suffix. */
  ghost predicate Admits(entry: string, allowLocal: bool, denied: set<string>) {
    var labels := Labels(entry);
    && entry != "" && entry !in denied && (allowLocal || |labels| >= 2)
    && (forall name | name in labels :: LabelOrWithFeed(name)) && NotANumber(labels[|labels| - 1])
  }

  lemma ValidIffAdmits(e: string, allowLocal: bool, denied: set<string>)
    ensures IsValidEntry(e, allowLocal, denied) <==> Admits(Normalize(e), allowLocal, denied)
  {
    var labels := Labels(Normalize(e));
    forall name ensures LabelMatches(name) <==> LabelOrWithFeed(name) {
      LabelMatchesIff(name);
    }
    var last := labels[|labels| - 1];
    assert last in labels && (LabelMatches(last) ==> last != "");
    assert AllDigits(last) <==> last != "" && !NotANumber(last);
  }

  /** The whole rule: the host's labels end in those of some entry that is admitted. */
  lemma ScopeIs(host: string, entries: seq<string>, allowLocal: bool, denied: set<string>)
    ensures InScope(host, entries, allowLocal, denied) <==>
      Normalize(host) != "" &&
      exists e | e in entries :: Admits(Normalize(e), allowLocal, denied) && LabelSuffix(Normalize(e), Normalize(host))
  {
    InScopeIffLabels(host, entries, allowLocal, denied);
    forall e ensures IsValidEntry(e, allowLocal, denied) <==> Admits(Normalize(e), allowLocal, denied) {
      ValidIffAdmits(e, allowLocal, denied);
    }
  }

  /** Whatever the scope list holds, no host whose last label is all digits is in scope, and without
      the local switch no single-label one is. */
  lemma NeverInScope(host: string, entries: seq<string>, allowLocal: bool, denied: set<string>)
    requires InScope(host, entries, allowLocal, denied)
    ensures var labels := Labels(Normalize(host)); !AllDigits(labels[|labels| - 1]) && (allowLocal || |labels| >= 2)
  {
    InScopeIffLabels(host, entries, allowLocal, denied);
    var e :| e in entries && IsValidEntry(e, allowLocal, denied) && LabelSuffix(Normalize(e), Normalize(host));
    ValidEntryForbids(Normalize(host), e, allowLocal, denied);
  }

  /** What is below a valid entry shares its last label and has at least its labels. */
  lemma ValidEntryForbids(host: string, e: string, allowLocal: bool, denied: set<string>)
    requires IsValidEntry(e, allowLocal, denied) && LabelSuffix(Normalize(e), host)
    ensures var labels := Labels(host); !AllDigits(labels[|labels| - 1]) && (allowLocal || |labels| >= 2)
  {
    LastLabelShared(Normalize(e), host);
  }

  /** The last label of a suffix is the host's last. */
  lemma LastLabelShared(suffix: string, host: string)
    requires LabelSuffix(suffix, host)
    ensures var (shorter, labels) := (Labels(suffix), Labels(host));
      1 <= |shorter| <= |labels| && shorter[|shorter| - 1] == labels[|labels| - 1]
  {
    var (shorter, labels) := (Labels(suffix), Labels(host));
    assert labels[|labels| - |shorter|..][|shorter| - 1] == labels[|labels| - 1];
  }

  // ---- what normalising an entry keeps -------------------------------------

  lemma LowerTwice(s: string)
    ensures Lower(Lower(s)) == Lower(s)
  {
  }

  lemma {:induction false} StripDotsEnd(s: string)
    ensures var r := StripDots(s); r == "" || r[|r| - 1] != '.'
    ensures StripDots(StripDots(s)) == StripDots(s)
    decreases |s|
  {
    if s != "" && s[|s| - 1] == '.' {
      StripDotsEnd(s[..|s| - 1]);
    }
  }

  predicate Trimmed(s: string) {
    s == "" || (!Blank(s[0]) && !Blank(s[|s| - 1]))
  }

  lemma {:induction false} StripsToTrimmed(s: string)
    ensures Trimmed(StripRight(StripLeft(s))) && (Trimmed(s) ==> StripRight(StripLeft(s)) == s)
    decreases |s|
  {
    if s != "" && Blank(s[0]) {
      StripsToTrimmed(s[1..]);
    } else {
      StripRightKeepsFirst(s);
    }
  }

  lemma {:induction false} StripRightKeepsFirst(s: string)
    requires s == "" || !Blank(s[0])
    ensures var r := StripRight(s); (s != "" ==> r != "" && r[0] == s[0]) && (r == "" || !Blank(r[|r| - 1]))
    decreases |s|
  {
    if s != "" && Blank(s[|s| - 1]) {
      StripRightKeepsFirst(s[..|s| - 1]);
    }
  }

  lemma LowerChars(s: string)
    ensures |Lower(s)| == |s| && forall i | 0 <= i < |s| :: (Blank(Lower(s)[i]) <==> Blank(s[i])) && (Lower(s)[i] == '.' <==> s[i] == '.')
  {
  }

  lemma {:induction false} StripsAreSlices(s: string)
    ensures var r := StripDots(s); |r| <= |s| && r == s[..|r|]
    decreases |s|
  {
    if s != "" && s[|s| - 1] == '.' {
      StripsAreSlices(s[..|s| - 1]);
    }
  }

  /** What is left of the text begins as the trimmed text does. */
  lemma NormalBegins(entry: string)
    ensures var h := Normalize(entry); h != "" ==> !Blank(h[0]) && h[|h| - 1] != '.' && Lower(h) == h
  {
    var trimmed := StripRight(StripLeft(entry));
    var dotless := StripDots(trimmed);
    StripsToTrimmed(entry);
    StripsAreSlices(trimmed);
    StripDotsEnd(trimmed);
    LowerChars(dotless);
    LowerTwice(dotless);
  }

  /** Normalising again changes nothing about text in lower case that no dot ends, exactly when it
      has no blank at its ends. */
  lemma NormalIffTrimmed(s: string)
    requires Lower(s) == s && (s == "" || s[|s| - 1] != '.')
    ensures Normalize(s) == s <==> Trimmed(s)
  {
    StripsToTrimmed(s);
    if Trimmed(s) {
      assert StripDots(s) == s;
    }
    if Normalize(s) == s {
      var inner := StripRight(StripLeft(s));
      StripsAreSlices(inner);
      LowerChars(StripDots(inner));
      StripLengths(s);
    }
  }

  /** A kept entry is valid; it is in normal form exactly when no blank follows the wildcard that was
      removed and none came before the dots that were. */
  lemma KeptEntry(entry: string, allowLocal: bool, denied: set<string>)
    requires NormalizeEntry(entry, allowLocal, denied).Some?
    ensures var kept := NormalizeEntry(entry, allowLocal, denied).value; var h := Normalize(entry);
      && IsValidEntry(kept, allowLocal, denied) && h != ""
      && (Normalize(kept) == kept <==> !("*." <= h && |h| > 2 && Blank(h[2])) && !Blank(h[|h| - 1]))
  {
    var kept := NormalizeEntry(entry, allowLocal, denied).value;
    var h := Normalize(entry);
    NormalBegins(entry);
    NormalOfEmpty();
    assert kept != "" && (kept == h || kept == h[2..]);
    assert kept[|kept| - 1] == h[|h| - 1];
    assert Lower(kept) == kept by {
      forall i | 0 <= i < |kept| ensures LowerChar(kept[i]) == kept[i] {
        assert Lower(h)[if kept == h then i else i + 2] == h[if kept == h then i else i + 2];
      }
    }
    NormalIffTrimmed(kept);
  }

  lemma NormalOfEmpty()
    ensures Normalize("") == ""
  {
  }

  /** `*. a.b`, kept with its blank. */
  lemma WildcardLeavesBlank()
    ensures NormalizeEntry("*. a.b", false, {}) == Some(" a.b") && Normalize(" a.b") == "a.b"
  {
    PlainNormal("*. a.b");
    PlainNormal("a.b");
    assert " a.b"[1..] == "a.b" && StripLeft(" a.b") == StripLeft("a.b");
    assert Normalize(" a.b") == Normalize("a.b");
    assert "*. a.b"[..2] == "*." && "*. a.b"[2..] == " a.b";
    TwoLabels();
    assert !AllDigits("b");
    assert IsValidEntry(" a.b", false, {});
  }

  lemma PlainNormal(s: string)
    requires s != "" && Trimmed(s) && s[|s| - 1] != '.' && forall i | 0 <= i < |s| :: LowerChar(s[i]) == s[i]
    ensures Normalize(s) == s
  {
    assert Lower(s) == s;
    NormalIffTrimmed(s);
  }

  lemma TwoLabels()
    ensures Labels("a.b") == ["a", "b"] && LabelMatches("a") && LabelMatches("b")
  {
    SplitAround("a", '.', "b");
    SplitPiece("a", '.');
    SplitPiece("b", '.');
    assert "a" + ['.'] + "b" == "a.b";
  }

  lemma {:induction false} StripLengths(s: string)
    ensures |StripRight(StripLeft(s))| <= |s| && (|StripRight(StripLeft(s))| == |s| ==> Trimmed(s))
    decreases |s|
  {
    if s != "" && Blank(s[0]) {
      StripLengths(s[1..]);
    } else {
      StripRightLength(s);
    }
  }

  lemma {:induction false} StripRightLength(s: string)
    ensures |StripRight(s)| <= |s| && (|StripRight(s)| == |s| && s != "" ==> !Blank(s[|s| - 1]))
    decreases |s|
  {
    if s != "" && Blank(s[|s| - 1]) {
      StripRightLength(s[..|s| - 1]);
    }
  }

  lemma {:induction false} LeftStripped(s: string) returns (lost: string)
    ensures (forall c | c in lost :: Blank(c)) && s == lost + StripLeft(s)
  {
    if s != "" && Blank(s[0]) {
      var more := LeftStripped(s[1..]);
      lost := [s[0]] + more;
      assert s == [s[0]] + s[1..] == [s[0]] + (more + StripLeft(s)) == lost + StripLeft(s);
    } else {
      lost := "";
      assert s == "" + StripLeft(s);
    }
  }

  lemma {:induction false} RightStripped(s: string) returns (lost: string)
    ensures (forall c | c in lost :: Blank(c)) && s == StripRight(s) + lost
  {
    if s != "" && Blank(s[|s| - 1]) {
      var front := s[..|s| - 1];
      var more := RightStripped(front);
      lost := more + [s[|s| - 1]];
      assert s == front + [s[|s| - 1]] == (StripRight(s) + more) + [s[|s| - 1]] == StripRight(s) + lost;
    } else {
      lost := "";
      assert s == StripRight(s) + "";
    }
  }

  lemma {:induction false} DotsStripped(s: string) returns (lost: string)
    ensures (forall c | c in lost :: c == '.') && s == StripDots(s) + lost
  {
    if s != "" && s[|s| - 1] == '.' {
      var front := s[..|s| - 1];
      var more := DotsStripped(front);
      lost := more + [s[|s| - 1]];
      assert s == front + [s[|s| - 1]] == (StripDots(s) + more) + [s[|s| - 1]] == StripDots(s) + lost;
    } else {
      lost := "";
      assert s == StripDots(s) + "";
    }
  }

  lemma BlankIff(c: char)
    ensures Blank(c) <==> c == ' ' || 9 <= c as int <= 13 || 28 <= c as int <= 31
    ensures TrimBlank(c) <==> c == ' ' || 9 <= c as int <= 13
  {
  }

  lemma BlanksAround(value: string) returns (before: string, after: string)
    ensures value == before + (StripRight(StripLeft(value)) + after)
    ensures (forall c | c in before :: Blank(c)) && (forall c | c in after :: Blank(c))
  {
    before := LeftStripped(value);
    after := RightStripped(StripLeft(value));
  }

  /** Normalising takes the blanks off both ends, then the dots off the end, and lowers the letters; it
      loses nothing else. */
  lemma NormalizeLosesOnly(value: string) returns (before: string, core: string, dots: string, after: string)
    ensures value == before + ((core + dots) + after) && Normalize(value) == Lower(core)
    ensures (forall c | c in before :: Blank(c)) && (forall c | c in after :: Blank(c)) && (forall c | c in dots :: c == '.')
    ensures Trimmed(core + dots) && (core == "" || core[|core| - 1] != '.')
  {
    before, after := BlanksAround(value);
    var trimmed := StripRight(StripLeft(value));
    dots := DotsStripped(trimmed);
    StripsToTrimmed(value);
    StripDotsEnd(trimmed);
    core := StripDots(trimmed);
  }

  /** Only the letters A to Z are lowered. */
  lemma LowerIs(s: string, i: nat)
    requires i < |s|
    ensures |Lower(s)| == |s|
    ensures Lower(s)[i] as int == s[i] as int + if 65 <= s[i] as int <= 90 then 32 else 0
  {
  }

  // ---- the extension's rule ------------------------------------------------

  datatype Settings = Settings(
    domainScopes: seq<string>, useDomainScope: bool, includeSubdomains: bool, captureEverything: bool,
    captureResponseBodies: bool)

  datatype Rule = Rule(everything: bool, hosts: seq<string>, subdomains: bool)

  /** What the extension trims; those separators are not blanks to it. */
  predicate TrimBlank(c: char) {
    c == ' ' || 9 <= c as int <= 13
  }

  function TrimLeft(s: string): string {
    if s != "" && TrimBlank(s[0]) then TrimLeft(s[1..]) else s
  }

  function TrimRight(s: string): string {
    if s != "" && TrimBlank(s[|s| - 1]) then TrimRight(s[..|s| - 1]) else s
  }

  /** An entry as the extension uses it. */
  function Stored(entry: string): string {
    Lower(TrimRight(TrimLeft(entry)))
  }

  function StoredHosts(scopes: seq<string>): seq<string> {
    if scopes == [] then []
    else
      var host := Stored(scopes[0]);
      (if host != "" then [host] else []) + StoredHosts(scopes[1..])
  }

  /** `scopeRule`. */
  function ScopeRule(s: Settings): Rule {
    if !s.useDomainScope || s.domainScopes == [] then Rule(s.captureEverything, [], false)
    else Rule(false, StoredHosts(s.domainScopes), s.includeSubdomains)
  }

  predicate Covers(rule: Rule, entry: string, host: string) {
    host == entry || (rule.subdomains && EndsWith(host, "." + entry))
  }

  /** `hostInScope`. */
  predicate HostInScope(s: Settings, hostname: string) {
    var rule := ScopeRule(s);
    rule.everything || exists entry | entry in rule.hosts :: Covers(rule, entry, Lower(hostname))
  }

  predicate PatternLabel(name: string) {
    name != "" &&
    forall i | 0 <= i < |name| ::
      'a' <= name[i] <= 'z' || '0' <= name[i] <= '9' || name[i] == '_' || name[i] == '-'
  }

  /** The pattern-host expression: labels between dots. */
  predicate IsPatternHost(host: string) {
    forall name | name in Labels(host) :: PatternLabel(name)
  }

  predicate IsIpv4(host: string) {
    var labels := Labels(host);
    |labels| == 4 && forall name | name in labels :: AllDigits(name) && |name| <= 3
  }

  // `<all_urls>`, `*://host/*` and `*://*.host/*`, by their host part.
  datatype Pattern = AllUrls | OneHost(host: string) | HostTree(host: string)

  /** What a browser takes a pattern to match. */
  predicate PatternMatches(p: Pattern, host: string) {
    match p
    case AllUrls => true
    case OneHost(h) => host == h
    case HostTree(h) => host == h || EndsWith(host, "." + h)
  }

  function PatternsFor(rule: Rule, host: string): seq<Pattern> {
    if !IsPatternHost(host) then []
    else [OneHost(host)] + if rule.subdomains && !IsIpv4(host) then [HostTree(host)] else []
  }

  function PatternsOf(rule: Rule, hosts: seq<string>): seq<Pattern> {
    if hosts == [] then [] else PatternsOf(rule, hosts[..|hosts| - 1]) + PatternsFor(rule, hosts[|hosts| - 1])
  }

  function Patterns(s: Settings): seq<Pattern> {
    var rule := ScopeRule(s);
    if !s.captureResponseBodies then [] else if rule.everything then [AllUrls] else PatternsOf(rule, rule.hosts)
  }

  lemma PatternsNext(rule: Rule, hosts: seq<string>, i: nat)
    requires i < |hosts|
    ensures PatternsOf(rule, hosts[..i + 1]) == PatternsOf(rule, hosts[..i]) + PatternsFor(rule, hosts[i])
  {
    assert hosts[..i + 1][..i] == hosts[..i];
  }

  /** `hookMatchPatterns`. */
  method HookMatchPatterns(s: Settings) returns (patterns: seq<Pattern>)
    ensures patterns == Patterns(s)
  {
    if !s.captureResponseBodies {
      return [];
    }
    var rule := ScopeRule(s);
    if rule.everything {
      return [AllUrls];
    }
    patterns := [];
    for i := 0 to |rule.hosts|
      invariant patterns == PatternsOf(rule, rule.hosts[..i])
    {
      var host := rule.hosts[i];
      ghost var before := patterns;
      if IsPatternHost(host) {
        patterns := patterns + [OneHost(host)];
        if rule.subdomains && !IsIpv4(host) {
          patterns := patterns + [HostTree(host)];
        }
      }
      assert patterns == before + PatternsFor(rule, host);
      PatternsNext(rule, rule.hosts, i);
    }
    assert rule.hosts[..|rule.hosts|] == rule.hosts;
  }

  predicate Hooked(s: Settings, host: string) {
    exists p | p in Patterns(s) :: PatternMatches(p, host)
  }

  lemma {:induction false} PatternsOfMatch(rule: Rule, hosts: seq<string>, host: string)
    ensures (exists p | p in PatternsOf(rule, hosts) :: PatternMatches(p, host)) <==>
      exists entry | entry in hosts :: IsPatternHost(entry) && Covers(rule, entry, host) && (host == entry || !IsIpv4(entry))
  {
    if hosts != [] {
      var (before, last) := (hosts[..|hosts| - 1], hosts[|hosts| - 1]);
      PatternsOfMatch(rule, before, host);
      assert hosts == before + [last];
      PatternsForMatch(rule, last, host);
    }
  }

  lemma PatternsForMatch(rule: Rule, entry: string, host: string)
    ensures (exists p | p in PatternsFor(rule, entry) :: PatternMatches(p, host)) <==>
      IsPatternHost(entry) && Covers(rule, entry, host) && (host == entry || !IsIpv4(entry))
  {
    var patterns := PatternsFor(rule, entry);
    if IsPatternHost(entry) {
      assert OneHost(entry) in patterns && PatternMatches(OneHost(entry), host) == (host == entry);
      if rule.subdomains && !IsIpv4(entry) {
        assert patterns == [OneHost(entry), HostTree(entry)];
        assert HostTree(entry) in patterns && PatternMatches(HostTree(entry), host) == Under(host, entry);
      } else {
        assert patterns == [OneHost(entry)];
      }
    }
  }

  /** An entry covering a host made of pattern labels is made of them too. */
  lemma CoveringEntryIsPattern(rule: Rule, entry: string, host: string)
    requires IsPatternHost(host) && Covers(rule, entry, host)
    ensures IsPatternHost(entry)
  {
    UnderIffLabels(host, entry);
    var (e, h) := (Labels(entry), Labels(host));
    forall name | name in e ensures PatternLabel(name) {
      var i :| 0 <= i < |e| && e[i] == name;
      assert h[|h| - |e|..][i] == h[|h| - |e| + i];
    }
  }

  /** In scope only as something below an IPv4 address, which no pattern can say. */
  predicate OnlyUnderAddresses(s: Settings, host: string) {
    var rule := ScopeRule(s);
    !rule.everything && forall entry | entry in rule.hosts && Covers(rule, entry, host) :: host != entry && IsIpv4(entry)
  }

  /** For a lower-case host of pattern labels, the hook runs exactly where capture does, except below
      an IPv4 address; and it runs nowhere when bodies are not captured. */
  lemma HookedIff(s: Settings, host: string)
    requires IsPatternHost(host) && Lower(host) == host
    ensures Hooked(s, host) <==> s.captureResponseBodies && HostInScope(s, host) && !OnlyUnderAddresses(s, host)
  {
    var rule := ScopeRule(s);
    if s.captureResponseBodies && rule.everything {
      assert PatternMatches(Patterns(s)[0], host);
    } else if s.captureResponseBodies {
      PatternsOfMatch(rule, rule.hosts, host);
      forall entry | entry in rule.hosts && Covers(rule, entry, host) ensures IsPatternHost(entry) {
        CoveringEntryIsPattern(rule, entry, host);
      }
    }
  }

  /** The host is the stored entry or, if subdomains are included, below it. */
  predicate CoveredBy(s: Settings, host: string, entry: string) {
    entry != "" && (host == entry || (s.includeSubdomains && LabelSuffix(entry, host)))
  }

  /** The whole rule: with a scope list in use, one of its entries as stored covers the host; without one,
      everything is in scope if that was asked for. */
  lemma CaptureScopeIs(s: Settings, hostname: string)
    ensures HostInScope(s, hostname) <==>
      if !s.useDomainScope || s.domainScopes == [] then s.captureEverything
      else exists e | e in s.domainScopes :: CoveredBy(s, Lower(hostname), Stored(e))
  {
    StoredAre(s.domainScopes);
    var (rule, host) := (ScopeRule(s), Lower(hostname));
    forall entry ensures Under(host, entry) <==> LabelSuffix(entry, host) {
      UnderIffLabels(host, entry);
    }
    if s.useDomainScope && s.domainScopes != [] {
      forall entry | entry in rule.hosts ensures Covers(rule, entry, host) <==> CoveredBy(s, host, entry) {
      }
      forall e | e in s.domainScopes && CoveredBy(s, host, Stored(e)) ensures HostInScope(s, hostname) {
        assert Stored(e) in rule.hosts;
      }
    }
  }

  lemma {:induction false} StoredAre(scopes: seq<string>)
    ensures forall host :: host in StoredHosts(scopes) <==> host != "" && exists e | e in scopes :: Stored(e) == host
  {
    if scopes != [] {
      StoredAre(scopes[1..]);
      assert scopes == [scopes[0]] + scopes[1..];
    }
  }

  /** A stored entry has lost only the blanks the extension trims, and is in lower case. */
  lemma StoredLosesOnly(entry: string) returns (before: string, core: string, after: string)
    ensures entry == before + core + after && Stored(entry) == Lower(core)
    ensures (forall c | c in before :: TrimBlank(c)) && (forall c | c in after :: TrimBlank(c))
    ensures core != "" ==> !TrimBlank(core[0]) && !TrimBlank(core[|core| - 1])
  {
    before := LeftTrimmed(entry);
    after := RightTrimmed(TrimLeft(entry));
    RightTrimmedEnds(TrimLeft(entry));
    core := TrimRight(TrimLeft(entry));
    assert before + (core + after) == before + core + after;
  }

  lemma {:induction false} LeftTrimmed(s: string) returns (lost: string)
    ensures (forall c | c in lost :: TrimBlank(c)) && s == lost + TrimLeft(s)
    ensures TrimLeft(s) != "" ==> !TrimBlank(TrimLeft(s)[0])
  {
    if s != "" && TrimBlank(s[0]) {
      var more := LeftTrimmed(s[1..]);
      lost := [s[0]] + more;
      assert s == [s[0]] + s[1..] == [s[0]] + (more + TrimLeft(s)) == lost + TrimLeft(s);
    } else {
      lost := "";
      assert s == "" + TrimLeft(s);
    }
  }

  lemma {:induction false} RightTrimmed(s: string) returns (lost: string)
    ensures (forall c | c in lost :: TrimBlank(c)) && s == TrimRight(s) + lost
  {
    if s != "" && TrimBlank(s[|s| - 1]) {
      var front := s[..|s| - 1];
      var more := RightTrimmed(front);
      lost := more + [s[|s| - 1]];
      assert s == front + [s[|s| - 1]] == (TrimRight(s) + more) + [s[|s| - 1]] == TrimRight(s) + lost;
    } else {
      lost := "";
      assert s == TrimRight(s) + "";
    }
  }

  lemma {:induction false} RightTrimmedEnds(s: string)
    ensures TrimRight(s) != "" ==> !TrimBlank(TrimRight(s)[|TrimRight(s)| - 1]) && TrimRight(s)[0] == s[0]
  {
    if s != "" && TrimBlank(s[|s| - 1]) {
      RightTrimmedEnds(s[..|s| - 1]);
    }
  }

  predicate PatternChar(c: char) {
    97 <= c as int <= 122 || 48 <= c as int <= 57 || c in {'_', '-'}
  }

  /** Pattern hosts and IPv4 addresses, label by label. */
  lemma PatternHostIs(host: string)
    ensures IsPatternHost(host) <==> forall name | name in Labels(host) :: name != "" && forall i | 0 <= i < |name| :: PatternChar(name[i])
    ensures IsIpv4(host) <==> |Labels(host)| == 4 && forall name | name in Labels(host) :: 1 <= |name| <= 3 && !NotANumber(name)
  {
  }

  /** Without a scope list the rule fails closed, unless everything was asked for. */
  lemma NoScopeNoCapture(s: Settings, host: string)
    requires !s.useDomainScope || forall e | e in s.domainScopes :: Stored(e) == ""
    ensures HostInScope(s, host) <==> s.captureEverything && (!s.useDomainScope || s.domainScopes == [])
  {
    NothingStored(s.domainScopes);
  }

  lemma {:induction false} NothingStored(scopes: seq<string>)
    ensures StoredHosts(scopes) == [] <==> forall e | e in scopes :: Stored(e) == ""
  {
    if scopes != [] {
      NothingStored(scopes[1..]);
      var host := Stored(scopes[0]);
      assert scopes[0] in scopes && forall e :: e in scopes <==> e == scopes[0] || e in scopes[1..];
      assert StoredHosts(scopes) == (if host != "" then [host] else []) + StoredHosts(scopes[1..]);
      assert StoredHosts(scopes) == [] <==> host == "" && StoredHosts(scopes[1..]) == [];
    }
  }

  /** The extension's rule is label-wise too, entry by entry. */
  lemma HostInScopeIffLabels(s: Settings, hostname: string)
    requires !ScopeRule(s).everything
    ensures HostInScope(s, hostname) <==> exists entry | entry in ScopeRule(s).hosts ::
      Lower(hostname) == entry || (s.includeSubdomains && LabelSuffix(entry, Lower(hostname)))
  {
    var rule := ScopeRule(s);
    var host := Lower(hostname);
    forall entry | entry in rule.hosts ensures Under(host, entry) <==> LabelSuffix(entry, host) {
      UnderIffLabels(host, entry);
    }
  }
}
