/** The base-URL overlay (findings/base_url.py): an analyst's rule puts a base in front of a
    host-less path. */
module BaseUrl {
  import opened Basics
  import opened Text

  /** `Prefix` selects by the path, `Selection` by the finding. An absent prefix is empty. */
  datatype Rule =
    | Prefix(baseUrl: string, pathPrefix: string)
    | Selection(baseUrl: string, findingHashes: set<string>)

  /** What the URL parser makes of a base; `scheme` and `netloc` may be empty. */
  datatype Url = Url(scheme: string, netloc: string, path: string)

  type Parser = string -> Url

  datatype Resolved = Resolved(path: string, host: Option<string>, scheme: Option<string>, changed: bool)

  /** `_is_segment_prefix`. */
  predicate IsSegmentPrefix(prefix: string, path: string) {
    Segments(prefix) <= Segments(path)
  }

  function RightStripSlash(s: string): string {
    if s != "" && s[|s| - 1] == '/' then RightStripSlash(s[..|s| - 1]) else s
  }

  /** `_split_base`. */
  function SplitBase(parse: Parser, baseUrl: string): (Option<string>, Option<string>, string) {
    var url := parse(baseUrl);
    if url.scheme != "" || url.netloc != "" then (Some(url.scheme), Some(url.netloc), RightStripSlash(url.path))
    else (None, None, RightStripSlash(baseUrl))
  }

  function BasePath(parse: Parser, rule: Rule): string {
    SplitBase(parse, rule.baseUrl).2
  }

  // ---- choosing a rule -----------------------------------------------------

  predicate Selects(rule: Rule, hashes: set<string>) {
    rule.Selection? && hashes * rule.findingHashes != {}
  }

  predicate Matches(rule: Rule, path: string) {
    rule.Prefix? && rule.pathPrefix != "" && IsSegmentPrefix(rule.pathPrefix, path)
  }

  function Depth(rule: Rule): nat {
    if rule.Prefix? then |Segments(rule.pathPrefix)| else 0
  }

  function FirstSelection(rules: seq<Rule>, hashes: set<string>): Option<Rule> {
    if rules == [] then None
    else if Selects(rules[0], hashes) then Some(rules[0])
    else FirstSelection(rules[1..], hashes)
  }

  /** The deepest matching prefix rule, the first of them on a tie. */
  function Deepest(rules: seq<Rule>, path: string): Option<Rule> {
    if rules == [] then None
    else
      var last := rules[|rules| - 1];
      var best := Deepest(rules[..|rules| - 1], path);
      if Matches(last, path) && (best.None? || Depth(last) > Depth(best.value)) then Some(last) else best
  }

  function Chosen(path: string, hashes: set<string>, rules: seq<Rule>): Option<Rule> {
    var selected := FirstSelection(rules, hashes);
    if selected.Some? then selected else Deepest(rules, path)
  }

  /** `_match`. */
  method Match(path: string, endpointHashes: seq<string>, rules: seq<Rule>) returns (rule: Option<Rule>)
    ensures rule == Chosen(path, Elements(endpointHashes), rules)
  {
    var hashes := Elements(endpointHashes);
    for i := 0 to |rules|
      invariant FirstSelection(rules, hashes) == FirstSelection(rules[i..], hashes)
    {
      if rules[i].Selection? && hashes * rules[i].findingHashes != {} {
        return Some(rules[i]);
      }
    }
    rule := None;
    for i := 0 to |rules|
      invariant rule == Deepest(rules[..i], path)
    {
      assert rules[..i + 1][..i] == rules[..i];
      if rules[i].Prefix? && rules[i].pathPrefix != "" && IsSegmentPrefix(rules[i].pathPrefix, path) &&
        (rule.None? || Depth(rules[i]) > Depth(rule.value))
      {
        rule := Some(rules[i]);
      }
    }
    assert rules[..|rules|] == rules;
  }

  lemma {:induction false} SelectionFound(rules: seq<Rule>, hashes: set<string>)
    ensures var found := FirstSelection(rules, hashes);
      && (found.None? <==> forall r | r in rules :: !Selects(r, hashes))
      && (found.Some? ==> found.value in rules && Selects(found.value, hashes))
  {
    if rules != [] {
      SelectionFound(rules[1..], hashes);
    }
  }

  lemma {:induction false} DeepestFound(rules: seq<Rule>, path: string)
    ensures var found := Deepest(rules, path);
      && (found.None? <==> forall r | r in rules :: !Matches(r, path))
      && (found.Some? ==> found.value in rules && Matches(found.value, path))
      && (found.Some? ==> forall r | r in rules && Matches(r, path) :: Depth(r) <= Depth(found.value))
  {
    if rules != [] {
      DeepestFound(rules[..|rules| - 1], path);
      assert rules == rules[..|rules| - 1] + [rules[|rules| - 1]];
    }
  }

  /** A selection rule beats every prefix rule, and among prefix rules the one with the most segments
      wins; nothing is chosen only when nothing applies. */
  lemma ChosenIsBest(path: string, hashes: set<string>, rules: seq<Rule>)
    ensures var chosen := Chosen(path, hashes, rules);
      && (chosen.None? <==> forall r | r in rules :: !Selects(r, hashes) && !Matches(r, path))
      && (chosen.Some? ==> chosen.value in rules && (chosen.value.Selection? <==> exists r | r in rules :: Selects(r, hashes)))
      && (chosen.Some? && chosen.value.Prefix? ==> Matches(chosen.value, path))
      && (chosen.Some? && chosen.value.Prefix? ==> forall r | r in rules && Matches(r, path) :: Depth(r) <= Depth(chosen.value))
  {
    SelectionFound(rules, hashes);
    DeepestFound(rules, path);
  }

  /** Among selection rules the first one wins. */
  lemma {:induction false} FirstSelectionWins(path: string, hashes: set<string>, rules: seq<Rule>, i: nat)
    requires i < |rules| && rules[i].Selection? && hashes * rules[i].findingHashes != {}
    requires forall j | 0 <= j < i && rules[j].Selection? :: hashes * rules[j].findingHashes == {}
    ensures FirstSelection(rules, hashes) == Some(rules[i]) && Chosen(path, hashes, rules) == Some(rules[i])
  {
    if i > 0 {
      FirstSelectionWins(path, hashes, rules[1..], i - 1);
    }
  }

  /** A prefix rule applies exactly when it has a prefix whose segments begin the path's. */
  lemma MatchesIff(rule: Rule, path: string)
    ensures Matches(rule, path) <==>
      rule.Prefix? && rule.pathPrefix != "" && exists rest :: Segments(path) == Segments(rule.pathPrefix) + rest
  {
    if Matches(rule, path) {
      assert Segments(path) == Segments(rule.pathPrefix) + Segments(path)[|Segments(rule.pathPrefix)|..];
    }
  }

  /** The winning prefix does not depend on the order, or the repetition, of the rules. */
  lemma PrefixOrderIrrelevant(path: string, hashes: set<string>, rules: seq<Rule>, shuffled: seq<Rule>)
    requires Elements(rules) == Elements(shuffled)
    ensures var a, b := Chosen(path, hashes, rules), Chosen(path, hashes, shuffled);
      && (a.None? <==> b.None?) && (a.Some? ==> (a.value.Prefix? <==> b.value.Prefix?))
      && (a.Some? && a.value.Prefix? ==> Segments(a.value.pathPrefix) == Segments(b.value.pathPrefix))
  {
    ChosenIsBest(path, hashes, rules);
    ChosenIsBest(path, hashes, shuffled);
    forall r ensures r in rules <==> r in shuffled {
      assert r in Elements(rules) <==> r in Elements(shuffled);
    }
  }

  /** Only prefixes that are the same segments can make the order matter, and then they do. */
  lemma TiesGoToTheFirst(path: string, a: Rule, b: Rule)
    requires Matches(a, path) && Matches(b, path) && a != b
    ensures Chosen(path, {}, [a, b]) == Chosen(path, {}, [b, a]) <==> Segments(a.pathPrefix) != Segments(b.pathPrefix)
  {
    assert [a, b][..1] == [a] && [b, a][..1] == [b];
    assert [a][..0] == [] && [b][..0] == [];
    assert Deepest([a], path) == Some(a) && Deepest([b], path) == Some(b);
    SelectionFound([a, b], {});
    SelectionFound([b, a], {});
    assert Segments(a.pathPrefix) == Segments(path)[..Depth(a)] && Segments(b.pathPrefix) == Segments(path)[..Depth(b)];
  }

  // ---- applying it ---------------------------------------------------------

  function Prepended(base: string, path: string): string {
    if base != "" && !IsSegmentPrefix(base, path) then base + path else path
  }

  predicate Rooted(path: string) {
    path != "" && path[0] == '/'
  }

  /** `resolve_operation`. */
  function ResolveOperation(parse: Parser, path: string, hashes: set<string>, hasHost: bool, rules: seq<Rule>): Resolved {
    if hasHost || !Rooted(path) then Resolved(path, None, None, false)
    else
      var rule := Chosen(path, hashes, rules);
      if rule.None? then Resolved(path, None, None, false)
      else
        var (scheme, netloc, base) := SplitBase(parse, rule.value.baseUrl);
        var newPath := Prepended(base, path);
        Resolved(newPath, netloc, scheme, newPath != path || netloc.Some?)
  }

  /** What the result says about the host: nothing unless a rule applies and its base has a scheme or a
      host of its own, and then both; and it is marked as changed exactly when it says something new. */
  lemma ResolvedSays(parse: Parser, path: string, hashes: set<string>, hasHost: bool, rules: seq<Rule>)
    ensures var r := ResolveOperation(parse, path, hashes, hasHost, rules); var chosen := Chosen(path, hashes, rules);
      var applies := !hasHost && path != "" && path[0] == '/' && chosen.Some?;
      var own := applies && (parse(chosen.value.baseUrl).scheme != "" || parse(chosen.value.baseUrl).netloc != "");
      && r.host == (if own then Some(parse(chosen.value.baseUrl).netloc) else None)
      && r.scheme == (if own then Some(parse(chosen.value.baseUrl).scheme) else None)
      && (r.changed <==> r.path != path || own)
      && (!applies ==> r.path == path)
  {
  }

  /** The base itself is the parsed path of a base with a host, and else the base as written, without
      slashes at its end. */
  lemma {:induction false} BasePathIs(parse: Parser, rule: Rule)
    ensures var url := parse(rule.baseUrl); var text := if url.scheme == "" && url.netloc == "" then rule.baseUrl else url.path;
      exists slashes: string :: (forall c | c in slashes :: c == '/') && text == BasePath(parse, rule) + slashes
  {
    var url := parse(rule.baseUrl);
    var text := if url.scheme == "" && url.netloc == "" then rule.baseUrl else url.path;
    StrippedRest(text);
    assert BasePath(parse, rule) == RightStripSlash(text);
  }

  lemma {:induction false} StrippedRest(s: string)
    ensures exists slashes: string :: (forall c | c in slashes :: c == '/') && s == RightStripSlash(s) + slashes
  {
    if s != "" && s[|s| - 1] == '/' {
      StrippedRest(s[..|s| - 1]);
      var slashes: string :| (forall c | c in slashes :: c == '/') && s[..|s| - 1] == RightStripSlash(s[..|s| - 1]) + slashes;
      assert s == RightStripSlash(s) + (slashes + "/");
    } else {
      assert s == RightStripSlash(s) + "";
    }
  }

  lemma SegmentsPrepended(base: string, path: string)
    requires Rooted(path)
    ensures Segments(base + path) == Segments(base) + Segments(path)
  {
    assert path == "/" + path[1..] && "" + "/" + path[1..] == path && base + path == base + "/" + path[1..];
    SegmentsAround(base, path[1..]);
    SegmentsAround("", path[1..]);
    assert Segments("") == [];
  }

  lemma {:induction false} StrippedHasNoTail(s: string)
    ensures var r := RightStripSlash(s); r == "" || r[|r| - 1] != '/'
    ensures |RightStripSlash(s)| <= |s| && RightStripSlash(s) == s[..|RightStripSlash(s)|]
  {
    if s != "" && s[|s| - 1] == '/' {
      StrippedHasNoTail(s[..|s| - 1]);
    }
  }

  /** The original path is a suffix of the result; its segments are kept as they are or put behind
      the whole base; and either way the result lies under the base. */
  lemma OnlyEverPrepends(parse: Parser, path: string, hashes: set<string>, hasHost: bool, rules: seq<Rule>)
    ensures var r := ResolveOperation(parse, path, hashes, hasHost, rules); |path| <= |r.path| && r.path[|r.path| - |path|..] == path
    ensures var r := ResolveOperation(parse, path, hashes, hasHost, rules);
      r.path != path ==> !hasHost && Rooted(path) && exists rule ::
        && Chosen(path, hashes, rules) == Some(rule)
        && Segments(r.path) == Segments(BasePath(parse, rule)) + Segments(path)
        && Segments(BasePath(parse, rule)) != []
        && !IsSegmentPrefix(BasePath(parse, rule), path)
    ensures var r := ResolveOperation(parse, path, hashes, hasHost, rules); var rule := Chosen(path, hashes, rules);
      !hasHost && Rooted(path) && rule.Some? ==> IsSegmentPrefix(BasePath(parse, rule.value), r.path)
  {
    var r := ResolveOperation(parse, path, hashes, hasHost, rules);
    var rule := Chosen(path, hashes, rules);
    if !hasHost && Rooted(path) && rule.Some? {
      var base := BasePath(parse, rule.value);
      SegmentsPrepended(base, path);
      if base != "" && !IsSegmentPrefix(base, path) {
        assert r.path == base + path;
        assert Segments(base) != [];
      } else {
        assert base == "" ==> Segments(base) == [];
      }
    }
  }

  /** Applying the chosen rule again changes nothing. */
  lemma SameRuleTwice(parse: Parser, path: string, rule: Rule)
    requires Rooted(path)
    ensures var once := Prepended(BasePath(parse, rule), path); Prepended(BasePath(parse, rule), once) == once
  {
    SegmentsPrepended(BasePath(parse, rule), path);
  }

  predicate Compatible(a: seq<string>, b: seq<string>) {
    a <= b || b <= a
  }

  /** No rule's base could lead to another rule's prefix, unless that rule's base is already its
      beginning. */
  predicate Independent(parse: Parser, rules: seq<Rule>) {
    forall r, q | r in rules && q in rules && r.Prefix? && q.Prefix? ::
      var (mine, other) := (Segments(BasePath(parse, r)), Segments(BasePath(parse, q)));
      mine == [] || other <= mine || !Compatible(Segments(q.pathPrefix), mine)
  }

  /** Resolving the result once more is another choice of rule; with independent rules it changes
      nothing. */
  lemma IndependentRulesTwice(parse: Parser, path: string, hashes: set<string>, rules: seq<Rule>)
    requires Independent(parse, rules)
    ensures var once := ResolveOperation(parse, path, hashes, false, rules).path;
      ResolveOperation(parse, once, hashes, false, rules).path == once
  {
    var once := ResolveOperation(parse, path, hashes, false, rules).path;
    if once != path {
      OnlyEverPrepends(parse, path, hashes, false, rules);
      var r := Chosen(path, hashes, rules).value;
      var again := Chosen(once, hashes, rules);
      SelectionFound(rules, hashes);
      DeepestFound(rules, path);
      DeepestFound(rules, once);
      if again.Some? && again.value != r {
        BothIndependent(parse, path, once, rules, r, again.value);
      }
    }
  }

  lemma BothIndependent(parse: Parser, path: string, once: string, rules: seq<Rule>, r: Rule, q: Rule)
    requires Independent(parse, rules) && r in rules && q in rules && r.Prefix? && Matches(q, once)
    requires Segments(BasePath(parse, r)) != [] && Segments(once) == Segments(BasePath(parse, r)) + Segments(path)
    ensures IsSegmentPrefix(BasePath(parse, q), once)
  {
    assert Compatible(Segments(q.pathPrefix), Segments(BasePath(parse, r)));
  }

  /** With a single rule it never does. */
  lemma OneRuleTwice(parse: Parser, path: string, hashes: set<string>, rule: Rule)
    ensures var once := ResolveOperation(parse, path, hashes, false, [rule]).path;
      ResolveOperation(parse, once, hashes, false, [rule]).path == once
  {
    if Rooted(path) {
      SegmentsPrepended(BasePath(parse, rule), path);
      var once := ResolveOperation(parse, path, hashes, false, [rule]).path;
      ChosenIsBest(path, hashes, [rule]);
      ChosenIsBest(once, hashes, [rule]);
      var again := Chosen(once, hashes, [rule]);
      assert again.Some? ==> again.value == rule;
    }
  }

  lemma OnlyMatchIsChosen(path: string, a: Rule, b: Rule, only: Rule)
    requires a.Prefix? && b.Prefix? && only in [a, b] && Matches(only, path)
    requires forall r | r in [a, b] && r != only :: !Matches(r, path)
    ensures Chosen(path, {}, [a, b]) == Some(only)
  {
    ChosenIsBest(path, {}, [a, b]);
  }

  predicate IsName(s: string) {
    s != "" && '/' !in s
  }

  /** Rules that are not independent can chain, whatever the names. */
  lemma RulesCanChain(parse: Parser, x: string, y: string, z: string)
    requires IsName(x) && IsName(y) && IsName(z) && x != y && y != z
    requires parse("/" + y) == Url("", "", "/" + y) && parse("/" + z) == Url("", "", "/" + z)
    ensures var rules := [Prefix("/" + y, "/" + x), Prefix("/" + z, "/" + y)];
      ResolveOperation(parse, "/" + x, {}, false, rules).path == "/" + y + "/" + x &&
      ResolveOperation(parse, "/" + y + "/" + x, {}, false, rules).path == "/" + z + "/" + y + "/" + x
  {
    var first, second := Prefix("/" + y, "/" + x), Prefix("/" + z, "/" + y);
    var path := "/" + y + "/" + x;
    OneSegment(x);
    OneSegment(y);
    OneSegment(z);
    assert path == ("/" + y) + ("/" + x);
    SegmentsPrepended("/" + y, "/" + x);
    assert Segments(path) == [y, x];
    assert Segments("/" + y)[0] == y && Segments("/" + x)[0] == x && Segments(path)[0] == y;
    OnlyMatchIsChosen("/" + x, first, second, first);
    OnlyMatchIsChosen(path, first, second, second);
    assert "/" + z + "/" + y + "/" + x == ("/" + z) + path;
  }

  lemma OneSegment(s: string)
    requires IsName(s)
    ensures Segments("/" + s) == [s] && RightStripSlash("/" + s) == "/" + s
  {
    SegmentsAround("", s);
    SplitPiece(s, '/');
    assert "" + "/" + s == "/" + s;
    assert NonEmpty([s]) == [s] + NonEmpty([s][1..]);
    assert Segments("") == [];
  }

  // ---- joining a client's own base -----------------------------------------

  predicate Letter(c: char) {
    'a' <= c <= 'z' || 'A' <= c <= 'Z'
  }

  predicate SchemeEnds(s: string) {
    "://" <= s || (s != "" && (Letter(s[0]) || '0' <= s[0] <= '9' || s[0] in "+.-") && SchemeEnds(s[1..]))
  }

  predicate HasScheme(path: string) {
    path != "" && Letter(path[0]) && SchemeEnds(path[1..])
  }

  predicate Absolute(path: string) {
    "//" <= path || HasScheme(path)
  }

  /** What may follow a scheme's first letter (section 3.1 of RFC 3986). */
  predicate SchemeChar(c: char) {
    97 <= c as int <= 122 || 65 <= c as int <= 90 || 48 <= c as int <= 57 || c in {'+', '-', '.'}
  }

  ghost predicate SchemeFollows(s: string) {
    exists scheme: string, rest: string :: s == scheme + "://" + rest && forall c | c in scheme :: SchemeChar(c)
  }

  lemma {:induction false} SchemeEndsIff(s: string)
    ensures SchemeEnds(s) <==> SchemeFollows(s)
  {
    if s != "" {
      SchemeEndsIff(s[1..]);
    }
    if "://" <= s {
      assert s == "" + "://" + s[3..];
    } else if SchemeEnds(s) {
      var scheme: string, rest: string :| s[1..] == scheme + "://" + rest && forall c | c in scheme :: SchemeChar(c);
      assert s == ([s[0]] + scheme) + "://" + rest;
    }
    if scheme: string, rest: string :| s == scheme + "://" + rest && forall c | c in scheme :: SchemeChar(c) {
      if scheme != "" {
        assert s[0] == scheme[0] && scheme[0] in scheme;
        assert s[1..] == scheme[1..] + "://" + rest;
      } else {
        assert s == "://" + rest;
      }
    }
  }

  /** A path is absolute exactly when it begins with two slashes or with a scheme. */
  lemma AbsoluteIff(path: string)
    ensures Absolute(path) <==>
      || (|path| >= 2 && path[0] == '/' && path[1] == '/')
      || (path != "" && (97 <= path[0] as int <= 122 || 65 <= path[0] as int <= 90) && SchemeFollows(path[1..]))
  {
    if path != "" {
      SchemeEndsIff(path[1..]);
    }
  }

  function LeftStripSlash(s: string): string {
    if s != "" && s[0] == '/' then LeftStripSlash(s[1..]) else s
  }

  /** `_join_base` (findings/_base_env.py). */
  function JoinBase(base: string, path: string): string {
    if base == "" || Absolute(path) then path
    else RightStripSlash(base) + "/" + LeftStripSlash(path)
  }

  lemma {:induction false} StrippedSegments(s: string)
    ensures Segments(RightStripSlash(s)) == Segments(s) && Segments(LeftStripSlash(s)) == Segments(s)
    ensures !Rooted(LeftStripSlash(s))
    decreases |s|
  {
    assert Segments("") == [];
    if s != "" {
      if s[|s| - 1] == '/' {
        SegmentsAround(s[..|s| - 1], "");
        assert s == s[..|s| - 1] + "/" + "";
        StrippedSegments(s[..|s| - 1]);
      }
      if s[0] == '/' {
        SegmentsAround("", s[1..]);
        assert s == "" + "/" + s[1..];
        StrippedSegments(s[1..]);
      }
    }
  }

  /** A relative path keeps its segments behind all of the base's, with a single slash between; an
      absolute one is left alone. */
  lemma JoinKeepsSegments(base: string, path: string)
    ensures Absolute(path) ==> JoinBase(base, path) == path
    ensures !Absolute(path) ==> Segments(JoinBase(base, path)) == Segments(base) + Segments(path)
    ensures !Absolute(path) && base != "" ==> exists left, right ::
      JoinBase(base, path) == left + "/" + right && !Rooted(right) && (left == "" || left[|left| - 1] != '/')
  {
    StrippedSegments(base);
    StrippedSegments(path);
    StrippedHasNoTail(base);
    SegmentsAround(RightStripSlash(base), LeftStripSlash(path));
    assert Segments("") == [];
    assert JoinBase(base, path) == path || JoinBase(base, path) == RightStripSlash(base) + "/" + LeftStripSlash(path);
  }
}
