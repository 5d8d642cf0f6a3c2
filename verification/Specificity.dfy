/** What "most specific" means when observed requests are matched to templates (correlate/match.py),
    said of path segments: which are wildcards, which templates align, and which of two wins. */
module Specificity {
  import opened Basics
  import opened Text
  import opened Correlation

  // ---- wildcards -----------------------------------------------------------

  predicate SpelledWith(seg: string, prefix: string, name: string, end: string) {
    '}' !in name && end in {"", "\n"} && seg == prefix + ("{" + name + "}") + end
  }

  /** Braces after the prefix, with no closing brace between them; a final line feed does no harm. */
  ghost predicate Spelled(seg: string, prefix: string) {
    exists name: string, end: string :: SpelledWith(seg, prefix, name, end)
  }

  ghost predicate HostVariable(seg: string) {
    Spelled(seg, "$")
  }

  /** The segment stands for any one observed segment. */
  ghost predicate Wild(seg: string) {
    Spelled(seg, "") || HostVariable(seg)
  }

  lemma BracedIsSpelled(s: string)
    requires Braced(s)
    ensures s == "{" + s[1..|s| - 1] + "}"
  {
  }

  lemma SpelledIsBraced(name: string)
    requires '}' !in name
    ensures Braced("{" + name + "}")
  {
    var s := "{" + name + "}";
    assert s[1..|s| - 1] == name;
  }

  lemma BracedIsSpelledWith(core: string, end: string)
    requires Braced(core) && end in {"", "\n"}
    ensures SpelledWith(core + end, "", core[1..|core| - 1], end)
  {
    BracedIsSpelled(core);
    assert "" + core + end == core + end;
  }

  lemma PlaceholderIsSpelled(s: string)
    requires Placeholder(s)
    ensures Spelled(s, "")
  {
    if Braced(s) {
      BracedIsSpelledWith(s, "");
      assert s + "" == s;
    } else {
      BracedIsSpelledWith(s[..|s| - 1], "\n");
      assert s[..|s| - 1] + "\n" == s;
    }
  }

  lemma SpelledIsPlaceholder(s: string, name: string, end: string)
    requires SpelledWith(s, "", name, end)
    ensures Placeholder(s)
  {
    var core := "{" + name + "}";
    SpelledIsBraced(name);
    assert s == core + end;
    assert s[..|core|] == core;
  }

  lemma PlaceholderIff(s: string)
    ensures Placeholder(s) <==> Spelled(s, "")
  {
    if Placeholder(s) {
      PlaceholderIsSpelled(s);
    }
    if name, end :| SpelledWith(s, "", name, end) {
      SpelledIsPlaceholder(s, name, end);
    }
  }

  lemma IsParamIff(seg: string)
    ensures CleanVar(seg) <==> HostVariable(seg)
    ensures IsParam(seg) <==> Wild(seg)
  {
    PlaceholderIff(seg);
    CleanVarIff(seg);
  }

  lemma AfterDollar(seg: string, name: string, end: string)
    ensures SpelledWith(seg, "$", name, end) <==> seg != "" && seg[0] == '$' && SpelledWith(seg[1..], "", name, end)
  {
    var rest := ("{" + name + "}") + end;
    assert "$" + ("{" + name + "}") + end == ['$'] + rest && "" + ("{" + name + "}") + end == rest;
    if seg != "" && seg[0] == '$' {
      assert seg == ['$'] + seg[1..];
    }
  }

  lemma CleanVarIff(seg: string)
    ensures CleanVar(seg) <==> HostVariable(seg)
  {
    if CleanVar(seg) {
      PlaceholderIff(seg[1..]);
      var name, end :| SpelledWith(seg[1..], "", name, end);
      AfterDollar(seg, name, end);
    }
    if name, end :| SpelledWith(seg, "$", name, end) {
      AfterDollar(seg, name, end);
      PlaceholderIff(seg[1..]);
    }
  }

  // ---- templates -----------------------------------------------------------

  /** The first segment stands for the host, so anything may come before the rest. */
  ghost predicate HasBase(path: string) {
    Segments(path) != [] && HostVariable(Segments(path)[0])
  }

  ghost function Tail(path: string): seq<string> {
    if HasBase(path) then Segments(path)[1..] else Segments(path)
  }

  /** The positions an observed path has to agree at. */
  ghost function Constants(tail: seq<string>): set<nat> {
    set i: nat | i < |tail| && !Wild(tail[i])
  }

  /** A template aligns with an observed path that ends in its tail, and is just its tail unless a host
      variable leaves room for a base; without a constant there is nothing to align. */
  ghost predicate AlignsWith(path: string, obs: seq<string>) {
    var tail := Tail(path);
    Constants(tail) != {} && |tail| <= |obs| && (HasBase(path) || |tail| == |obs|) && Agrees(tail, obs)
  }

  /** The end of the observed path has the tail's segments at every constant position. */
  ghost predicate Agrees(tail: seq<string>, obs: seq<string>)
    requires |tail| <= |obs|
  {
    forall i | i in Constants(tail) :: obs[|obs| - |tail| + i] == tail[i]
  }

  lemma ParseTailIff(path: string, tail: seq<string>, hostTemplated: bool)
    ensures ParseTail(path) == Some((tail, hostTemplated)) <==>
      tail == Tail(path) && hostTemplated == HasBase(path) && Constants(tail) != {}
  {
    var segs := Segments(path);
    forall s ensures (CleanVar(s) <==> HostVariable(s)) && (IsParam(s) <==> Wild(s)) {
      IsParamIff(s);
    }
    var rest := Tail(path);
    if s :| s in rest && !IsParam(s) {
      var i :| 0 <= i < |rest| && rest[i] == s;
      assert i in Constants(rest);
    }
  }

  lemma {:induction false} ConstCountAppend(tail: seq<string>, seg: string)
    ensures ConstCount(tail + [seg]) == ConstCount(tail) + if IsParam(seg) then 0 else 1
  {
    if tail == [] {
      assert [seg][1..] == [];
    } else {
      assert (tail + [seg])[1..] == tail[1..] + [seg];
      ConstCountAppend(tail[1..], seg);
    }
  }

  lemma ConstantsAppend(front: seq<string>, seg: string)
    ensures |Constants(front + [seg])| == |Constants(front)| + if Wild(seg) then 0 else 1
  {
    var n: nat := |front|;
    var tail := front + [seg];
    assert forall i: nat | i < n :: tail[i] == front[i];
    assert Constants(tail) == Constants(front) + if Wild(seg) then {} else {n};
  }

  /** The count is the number of positions that are not wildcards. */
  lemma {:induction false} ConstCountIsConstants(tail: seq<string>)
    ensures ConstCount(tail) == |Constants(tail)|
  {
    if tail == [] {
      assert Constants(tail) == {};
    } else {
      var n: nat := |tail| - 1;
      var front, seg := tail[..n], tail[n];
      assert tail == front + [seg];
      ConstCountIsConstants(front);
      ConstCountAppend(front, seg);
      IsParamIff(seg);
      ConstantsAppend(front, seg);
    }
  }

  /** The tail fits the end of the observed path when it agrees at the constants. */
  lemma FitsIff(tail: seq<string>, window: seq<string>)
    requires |tail| == |window|
    ensures Fits(tail, window) <==> forall i | i in Constants(tail) :: window[i] == tail[i]
  {
    FitsIffInstance(tail, window);
    forall i: nat | i < |tail| ensures IsParam(tail[i]) <==> i !in Constants(tail) {
      IsParamIff(tail[i]);
    }
  }

  lemma AbsorbedInSegments(tail: seq<string>, obs: seq<string>, hostTemplated: bool)
    ensures Absorbed(tail, obs, hostTemplated) ==
      if |tail| <= |obs| && (hostTemplated || |tail| == |obs|) && Agrees(tail, obs)
      then Some(|obs| - |tail|) else None
  {
    if |tail| <= |obs| {
      var window := obs[|obs| - |tail|..];
      FitsIff(tail, window);
      assert |tail| == |obs| ==> window == obs;
      assert forall i: nat | i < |tail| :: window[i] == obs[|obs| - |tail| + i];
    }
  }

  /** An endpoint offers itself exactly when its template aligns, with the number of its constants and
      of the segments before its tail. */
  lemma OfferIff(ep: Endpoint, url: string, path: string)
    ensures Offer(ep, url, path) ==
      if AlignsWith(ep.path, Segments(path))
      then Some(Candidate(ep.findingHash, url, |Constants(Tail(ep.path))|, |Segments(path)| - |Tail(ep.path)|)) else None
  {
    var tail := Tail(ep.path);
    ParseTailIff(ep.path, tail, HasBase(ep.path));
    ConstCountIsConstants(tail);
    AbsorbedInSegments(tail, Segments(path), HasBase(ep.path));
    if ParseTail(ep.path).Some? {
      var (parsed, host) := ParseTail(ep.path).value;
      ParseTailIff(ep.path, parsed, host);
    }
  }

  // ---- which of two wins ---------------------------------------------------

  /** More constants, or as many and a longer tail, which leaves less of the observed path to a base. */
  ghost predicate Beats(path: string, rival: string) {
    var (mine, theirs) := (Tail(path), Tail(rival));
    |Constants(mine)| > |Constants(theirs)| || (|Constants(mine)| == |Constants(theirs)| && |mine| > |theirs|)
  }

  /** The verb was observed at the URL and the template aligns with its path. */
  ghost predicate Contends(ep: Endpoint, reqs: seq<Request>, url: string, obs: seq<string>) {
    Request(ep.verb, url) in reqs && AlignsWith(ep.path, obs)
  }

  ghost predicate BeatsAll(ep: Endpoint, eps: seq<Endpoint>, reqs: seq<Request>, url: string, obs: seq<string>) {
    && ep in eps && Contends(ep, reqs, url, obs)
    && forall rival | rival in eps && rival != ep && Contends(rival, reqs, url, obs) :: Beats(ep.path, rival.path)
  }

  /** With distinct findings and requests, a finding owns a URL exactly when its template contends for
      it and beats every other one that does. */
  lemma OwnerBeatsAll(eps: seq<Endpoint>, reqs: seq<Request>, pathOf: string -> string, hash: string, url: string)
    requires DistinctHashes(eps) && NoDuplicates(reqs)
    ensures var obs := Segments(pathOf(url));
      Owns(eps, reqs, pathOf, hash, url) <==>
      exists ep: Endpoint :: ep.findingHash == hash && BeatsAll(ep, eps, reqs, url, obs)
  {
    var obs := Segments(pathOf(url));
    OwnerIsStrictlyMostSpecific(eps, reqs, pathOf, hash, url);
    forall ep ensures Leads(ep, eps, reqs, url, pathOf) <==> BeatsAll(ep, eps, reqs, url, obs) {
      LeadsIff(ep, eps, reqs, url, pathOf);
    }
  }

  lemma LeadsIff(ep: Endpoint, eps: seq<Endpoint>, reqs: seq<Request>, url: string, pathOf: string -> string)
    ensures Leads(ep, eps, reqs, url, pathOf) <==> BeatsAll(ep, eps, reqs, url, Segments(pathOf(url)))
  {
    var obs := Segments(pathOf(url));
    OfferIff(ep, url, pathOf(url));
    forall rival ensures Competes(rival, reqs, url, pathOf) <==> Contends(rival, reqs, url, obs) {
      OfferIff(rival, url, pathOf(url));
    }
    forall rival | Contends(ep, reqs, url, obs) && Contends(rival, reqs, url, obs)
      ensures Less(Offer(rival, url, pathOf(url)).value, Offer(ep, url, pathOf(url)).value) <==> Beats(ep.path, rival.path)
    {
      OfferIff(rival, url, pathOf(url));
    }
  }

  lemma {:induction false} AllPositions(tail: seq<string>)
    ensures |Constants(tail)| <= |tail|
    ensures |Constants(tail)| == |tail| <==> forall s | s in tail :: !Wild(s)
  {
    if tail != [] {
      var n: nat := |tail| - 1;
      var front, seg := tail[..n], tail[n];
      assert tail == front + [seg];
      AllPositions(front);
      ConstantsAppend(front, seg);
      assert (forall s | s in tail :: !Wild(s)) <==> (forall s | s in front :: !Wild(s)) && !Wild(seg);
    } else {
      assert Constants(tail) == {};
    }
  }

  /** A path without wildcards is beaten by no template that aligns where it does, and beats them all but
      those that spell out the same segments. */
  lemma PlainPathBeats(plain: string, rival: string, obs: seq<string>)
    requires AlignsWith(plain, obs) && AlignsWith(rival, obs)
    requires forall s | s in Segments(plain) :: !Wild(s)
    ensures !Beats(rival, plain)
    ensures Beats(plain, rival) <==> Tail(rival) != Segments(plain)
  {
    var (mine, theirs) := (Tail(plain), Tail(rival));
    assert Segments(plain) != [] ==> Segments(plain)[0] in Segments(plain);
    assert !HasBase(plain) && mine == Segments(plain);
    AllPositions(mine);
    AllPositions(theirs);
    AgreesEverywhere(mine, obs);
    if |Constants(theirs)| == |obs| {
      AgreesEverywhere(theirs, obs);
    }
  }

  lemma AgreesEverywhere(tail: seq<string>, obs: seq<string>)
    requires |tail| == |obs| && (forall s | s in tail :: !Wild(s)) && forall i | i in Constants(tail) :: obs[i] == tail[i]
    ensures tail == obs
  {
    forall i: nat | i < |tail| ensures obs[i] == tail[i] {
      assert tail[i] in tail && i in Constants(tail);
    }
  }
}
