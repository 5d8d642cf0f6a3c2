/** Matching observed request URLs to static endpoint findings (correlate/match.py). */
module Correlation {
  import opened Basics
  import opened Text

  datatype Endpoint = Endpoint(findingHash: string, verb: string, path: string)

  datatype Request = Request(verb: string, url: string)

  datatype Candidate = Candidate(findingHash: string, resolvedUrl: string, constCount: nat, absorbed: nat)

  // ---- templates -----------------------------------------------------------

  /** `{...}` with no closing brace inside. */
  predicate Braced(s: string) {
    |s| >= 2 && s[0] == '{' && s[|s| - 1] == '}' && '}' !in s[1..|s| - 1]
  }

  /** The pattern's `$` also matches before one final newline. */
  predicate Placeholder(s: string) {
    Braced(s) || (|s| > 0 && s[|s| - 1] == '\n' && Braced(s[..|s| - 1]))
  }

  predicate CleanVar(s: string) {
    |s| > 0 && s[0] == '$' && Placeholder(s[1..])
  }

  predicate IsParam(seg: string) {
    Placeholder(seg) || CleanVar(seg)
  }

  /** The tail to align and whether a leading variable stands for the host; `None` without a
      constant to anchor on. */
  function ParseTail(path: string): Option<(seq<string>, bool)> {
    var segs := Segments(path);
    if segs == [] then None
    else
      var hostTemplated := CleanVar(segs[0]);
      var tail := if hostTemplated then segs[1..] else segs;
      if forall s | s in tail :: IsParam(s) then None else Some((tail, hostTemplated))
  }

  predicate Fits(tail: seq<string>, window: seq<string>)
    requires |tail| == |window|
  {
    tail == [] || ((IsParam(tail[0]) || tail[0] == window[0]) && Fits(tail[1..], window[1..]))
  }

  function Absorbed(tail: seq<string>, obs: seq<string>, hostTemplated: bool): Option<nat> {
    if hostTemplated then
      if |obs| < |tail| then None
      else
        var absorbed := |obs| - |tail|;
        if Fits(tail, obs[absorbed..]) then Some(absorbed) else None
    else if |obs| != |tail| then None
    else if Fits(tail, obs) then Some(0) else None
  }

  /** `segs` is the tail with every wildcard replaced by one segment. */
  ghost predicate Instance(tail: seq<string>, segs: seq<string>) {
    |segs| == |tail| && forall i | 0 <= i < |tail| :: IsParam(tail[i]) || segs[i] == tail[i]
  }

  lemma {:induction false} FitsIffInstance(tail: seq<string>, window: seq<string>)
    requires |tail| == |window|
    ensures Fits(tail, window) <==> Instance(tail, window)
  {
    if tail != [] {
      FitsIffInstance(tail[1..], window[1..]);
      assert forall i | 1 <= i < |tail| :: tail[1..][i - 1] == tail[i] && window[1..][i - 1] == window[i];
      if Instance(tail, window) {
        forall i | 0 <= i < |tail[1..]| ensures IsParam(tail[1..][i]) || window[1..][i] == tail[1..][i] {
          assert tail[1..][i] == tail[i + 1] && window[1..][i] == window[i + 1];
        }
      }
    }
  }

  /** Alignment means: the observed segments are some base of `k` segments followed by the tail
      with each wildcard standing for exactly one segment, and only a host variable has a base. */
  lemma AbsorbedIff(tail: seq<string>, obs: seq<string>, hostTemplated: bool, k: nat)
    ensures Absorbed(tail, obs, hostTemplated) == Some(k) <==>
      (hostTemplated || k == 0) &&
      exists base, segs :: obs == base + segs && |base| == k && Instance(tail, segs)
  {
    if |obs| >= |tail| {
      var cut := |obs| - |tail|;
      FitsIffInstance(tail, obs[cut..]);
      assert obs == obs[..cut] + obs[cut..];
      assert cut == 0 ==> obs[cut..] == obs;
      forall base, segs | obs == base + segs && Instance(tail, segs) ensures |base| == cut && segs == obs[cut..] {
      }
    }
  }

  // ---- candidates ----------------------------------------------------------

  function ConstCount(tail: seq<string>): nat {
    if tail == [] then 0 else (if IsParam(tail[0]) then 0 else 1) + ConstCount(tail[1..])
  }

  /** What an endpoint offers for a URL whose path is `path`, whatever the verb. */
  function Offer(ep: Endpoint, url: string, path: string): Option<Candidate> {
    var parsed := ParseTail(ep.path);
    if parsed.None? then None else
    var absorbed := Absorbed(parsed.value.0, Segments(path), parsed.value.1);
    if absorbed.None? then None else
    Some(Candidate(ep.findingHash, url, ConstCount(parsed.value.0), absorbed.value))
  }

  /** More constants first, then less absorbed. */
  predicate Less(a: Candidate, b: Candidate) {
    a.constCount < b.constCount || (a.constCount == b.constCount && a.absorbed > b.absorbed)
  }

  predicate Equal(a: Candidate, b: Candidate) {
    a.constCount == b.constCount && a.absorbed == b.absorbed
  }

  ghost function Bag<A, B>(f: A -> multiset<B>, s: seq<A>): multiset<B> {
    if s == [] then multiset{} else f(s[0]) + Bag(f, s[1..])
  }

  ghost function One(ep: Endpoint, req: Request, url: string, pathOf: string -> string): multiset<Candidate> {
    if req.url == url && ep.verb == req.verb && Offer(ep, url, pathOf(url)).Some?
    then multiset{Offer(ep, url, pathOf(url)).value} else multiset{}
  }

  ghost function FromRequest(eps: seq<Endpoint>, req: Request, url: string, pathOf: string -> string): multiset<Candidate> {
    Bag((ep: Endpoint) => One(ep, req, url, pathOf), eps)
  }

  /** Every candidate for a URL, over all endpoints and all requests to it, whatever the verb. */
  ghost function Candidates(eps: seq<Endpoint>, reqs: seq<Request>, url: string, pathOf: string -> string): multiset<Candidate> {
    Bag((req: Request) => FromRequest(eps, req, url, pathOf), reqs)
  }

  /** `c` occurs once and every other candidate is less specific. */
  ghost predicate StrictBest(bag: multiset<Candidate>, c: Candidate) {
    bag[c] == 1 && forall d | d in bag && d != c :: Less(d, c)
  }

  ghost predicate Owns(eps: seq<Endpoint>, reqs: seq<Request>, pathOf: string -> string, hash: string, url: string) {
    exists c :: StrictBest(Candidates(eps, reqs, url, pathOf), c) && c.findingHash == hash
  }

  /** The finding owns this URL and no other. */
  ghost predicate SoleOwner(eps: seq<Endpoint>, reqs: seq<Request>, pathOf: string -> string, hash: string, url: string) {
    Owns(eps, reqs, pathOf, hash, url) && forall other | Owns(eps, reqs, pathOf, hash, other) :: other == url
  }

  // ---- sums over sequences -------------------------------------------------

  lemma {:induction false} BagConcat<A, B>(f: A -> multiset<B>, a: seq<A>, b: seq<A>)
    ensures Bag(f, a + b) == Bag(f, a) + Bag(f, b)
  {
    if a == [] {
      assert a + b == b;
    } else {
      assert (a + b)[1..] == a[1..] + b;
      BagConcat(f, a[1..], b);
    }
  }

  lemma BagAppend<A, B>(f: A -> multiset<B>, s: seq<A>, i: nat)
    requires i < |s|
    ensures Bag(f, s[..i + 1]) == Bag(f, s[..i]) + f(s[i])
  {
    assert s[..i + 1] == s[..i] + [s[i]];
    BagConcat(f, s[..i], [s[i]]);
    assert Bag(f, [s[i]]) == f(s[i]) + Bag(f, []);
  }

  lemma {:induction false} BagPointwise<A, B>(f: A -> multiset<B>, g: A -> multiset<B>, s: seq<A>)
    requires forall x | x in s :: f(x) == g(x)
    ensures Bag(f, s) == Bag(g, s)
  {
    if s != [] {
      BagPointwise(f, g, s[1..]);
    }
  }

  lemma {:induction false} BagPermuted<A, B>(f: A -> multiset<B>, s: seq<A>, t: seq<A>)
    requires multiset(s) == multiset(t)
    ensures Bag(f, s) == Bag(f, t)
    decreases |s|
  {
    if s == [] {
      assert |t| == |multiset(t)| == 0;
    } else {
      assert s[0] in multiset(t);
      var i :| 0 <= i < |t| && t[i] == s[0];
      var others := t[..i] + t[i + 1..];
      assert t == t[..i] + ([t[i]] + t[i + 1..]);
      assert s == [s[0]] + s[1..];
      assert multiset(s) == multiset{s[0]} + multiset(s[1..]);
      assert multiset(t) == multiset(t[..i]) + (multiset{t[i]} + multiset(t[i + 1..]));
      assert multiset(s) - multiset{s[0]} == multiset(s[1..]);
      assert multiset(t) - multiset{s[0]} == multiset(t[..i]) + multiset(t[i + 1..]);
      assert multiset(s[1..]) == multiset(others);
      BagPermuted(f, s[1..], others);
      BagConcat(f, t[..i], [t[i]] + t[i + 1..]);
      BagConcat(f, [t[i]], t[i + 1..]);
      BagConcat(f, t[..i], t[i + 1..]);
    }
  }

  lemma {:induction false} BagMember<A, B>(f: A -> multiset<B>, s: seq<A>, x: B)
    ensures x in Bag(f, s) <==> exists a :: a in s && x in f(a)
  {
    if s != [] {
      BagMember(f, s[1..], x);
      assert s == [s[0]] + s[1..];
    }
  }

  lemma {:induction false} BagAtMostOne<A, B>(f: A -> multiset<B>, s: seq<A>, x: B)
    requires NoDuplicates(s)
    requires forall a, b | a in s && b in s && x in f(a) && x in f(b) :: a == b
    requires forall a | a in s :: f(a)[x] <= 1
    ensures Bag(f, s)[x] <= 1
  {
    if s != [] {
      assert s == [s[0]] + s[1..];
      BagAtMostOne(f, s[1..], x);
      BagMember(f, s[1..], x);
    }
  }

  // ---- what the result means -----------------------------------------------

  lemma CandidatesPermuted(eps: seq<Endpoint>, eps2: seq<Endpoint>, reqs: seq<Request>, reqs2: seq<Request>,
                           url: string, pathOf: string -> string)
    requires multiset(eps) == multiset(eps2) && multiset(reqs) == multiset(reqs2)
    ensures Candidates(eps, reqs, url, pathOf) == Candidates(eps2, reqs2, url, pathOf)
  {
    forall req | req in reqs ensures FromRequest(eps, req, url, pathOf) == FromRequest(eps2, req, url, pathOf) {
      BagPermuted((ep: Endpoint) => One(ep, req, url, pathOf), eps, eps2);
    }
    BagPointwise((req: Request) => FromRequest(eps, req, url, pathOf), (req: Request) => FromRequest(eps2, req, url, pathOf), reqs);
    BagPermuted((req: Request) => FromRequest(eps2, req, url, pathOf), reqs, reqs2);
  }

  /** Reordering the findings or the requests changes nothing. */
  lemma {:induction false} OrderDoesNotMatter(eps: seq<Endpoint>, eps2: seq<Endpoint>, reqs: seq<Request>, reqs2: seq<Request>,
                           pathOf: string -> string, hash: string, url: string)
    requires multiset(eps) == multiset(eps2) && multiset(reqs) == multiset(reqs2)
    ensures SoleOwner(eps, reqs, pathOf, hash, url) <==> SoleOwner(eps2, reqs2, pathOf, hash, url)
  {
    forall u ensures Candidates(eps, reqs, u, pathOf) == Candidates(eps2, reqs2, u, pathOf) {
      CandidatesPermuted(eps, eps2, reqs, reqs2, u, pathOf);
    }
    forall u ensures Owns(eps, reqs, pathOf, hash, u) <==> Owns(eps2, reqs2, pathOf, hash, u) {
    }
  }

  /** No URL resolves two findings. */
  lemma OneOwnerPerUrl(eps: seq<Endpoint>, reqs: seq<Request>, pathOf: string -> string, a: string, b: string, url: string)
    requires SoleOwner(eps, reqs, pathOf, a, url) && SoleOwner(eps, reqs, pathOf, b, url)
    ensures a == b
  {
    var bag := Candidates(eps, reqs, url, pathOf);
    var c :| StrictBest(bag, c) && c.findingHash == a;
    var d :| StrictBest(bag, d) && d.findingHash == b;
    assert c in bag && d in bag;
  }

  predicate DistinctHashes(eps: seq<Endpoint>) {
    NoDuplicates(eps) && forall a, b | a in eps && b in eps && a.findingHash == b.findingHash :: a == b
  }

  /** The endpoint's verb was observed at `url` and its template aligns with the URL's path. */
  ghost predicate Competes(ep: Endpoint, reqs: seq<Request>, url: string, pathOf: string -> string) {
    Request(ep.verb, url) in reqs && Offer(ep, url, pathOf(url)).Some?
  }

  lemma CandidateMember(eps: seq<Endpoint>, reqs: seq<Request>, url: string, pathOf: string -> string, c: Candidate)
    ensures c in Candidates(eps, reqs, url, pathOf) <==>
      exists ep :: ep in eps && Competes(ep, reqs, url, pathOf) && Offer(ep, url, pathOf(url)).value == c
  {
    var f := (req: Request) => FromRequest(eps, req, url, pathOf);
    BagMember(f, reqs, c);
    forall req ensures c in f(req) <==> exists ep :: ep in eps && c in One(ep, req, url, pathOf) {
      BagMember((ep: Endpoint) => One(ep, req, url, pathOf), eps, c);
    }
    if c in Candidates(eps, reqs, url, pathOf) {
      var req :| req in reqs && c in f(req);
      var ep :| ep in eps && c in One(ep, req, url, pathOf);
      assert req == Request(ep.verb, url);
      assert Competes(ep, reqs, url, pathOf);
    }
    forall ep | ep in eps && Competes(ep, reqs, url, pathOf) && Offer(ep, url, pathOf(url)).value == c
      ensures c in Candidates(eps, reqs, url, pathOf)
    {
      var req := Request(ep.verb, url);
      assert c in One(ep, req, url, pathOf);
      assert c in f(req);
    }
  }

  /** A request adds a given candidate at most once, and only for the endpoint it names. */
  lemma FromRequestOnce(eps: seq<Endpoint>, req: Request, url: string, pathOf: string -> string, c: Candidate)
    requires DistinctHashes(eps)
    ensures FromRequest(eps, req, url, pathOf)[c] <= 1
    ensures c in FromRequest(eps, req, url, pathOf) ==> exists ep :: ep in eps && Names(ep, req, url, c)
  {
    var g := (ep: Endpoint) => One(ep, req, url, pathOf);
    forall a, b | a in eps && b in eps && c in g(a) && c in g(b) ensures a == b {
      assert a.findingHash == c.findingHash == b.findingHash;
    }
    BagAtMostOne(g, eps, c);
    BagMember(g, eps, c);
    if c in FromRequest(eps, req, url, pathOf) {
      var ep :| ep in eps && c in g(ep);
      assert Names(ep, req, url, c);
    }
  }

  predicate Names(ep: Endpoint, req: Request, url: string, c: Candidate) {
    ep.findingHash == c.findingHash && req == Request(ep.verb, url)
  }

  lemma CandidateOnce(eps: seq<Endpoint>, reqs: seq<Request>, url: string, pathOf: string -> string, c: Candidate)
    requires DistinctHashes(eps) && NoDuplicates(reqs)
    ensures Candidates(eps, reqs, url, pathOf)[c] <= 1
  {
    var f := (req: Request) => FromRequest(eps, req, url, pathOf);
    forall req ensures f(req)[c] <= 1 {
      FromRequestOnce(eps, req, url, pathOf, c);
    }
    forall a, b | a in reqs && b in reqs && c in f(a) && c in f(b) ensures a == b {
      FromRequestOnce(eps, a, url, pathOf, c);
      FromRequestOnce(eps, b, url, pathOf, c);
      var ea :| ea in eps && Names(ea, a, url, c);
      var eb :| eb in eps && Names(eb, b, url, c);
      assert ea == eb;
    }
    BagAtMostOne(f, reqs, c);
  }

  /** Strictly more specific than every other competing endpoint. */
  ghost predicate Leads(ep: Endpoint, eps: seq<Endpoint>, reqs: seq<Request>, url: string, pathOf: string -> string) {
    ep in eps && Competes(ep, reqs, url, pathOf) &&
    forall rival | rival in eps && rival != ep && Competes(rival, reqs, url, pathOf) ::
      Less(Offer(rival, url, pathOf(url)).value, Offer(ep, url, pathOf(url)).value)
  }

  lemma OwnerLeads(eps: seq<Endpoint>, reqs: seq<Request>, pathOf: string -> string, hash: string, url: string)
    requires DistinctHashes(eps) && NoDuplicates(reqs) && Owns(eps, reqs, pathOf, hash, url)
    ensures exists ep :: Leads(ep, eps, reqs, url, pathOf) && ep.findingHash == hash
  {
    var bag := Candidates(eps, reqs, url, pathOf);
    var c :| StrictBest(bag, c) && c.findingHash == hash;
    assert c in bag;
    CandidateMember(eps, reqs, url, pathOf, c);
    var ep :| ep in eps && Competes(ep, reqs, url, pathOf) && Offer(ep, url, pathOf(url)).value == c;
    forall rival | rival in eps && rival != ep && Competes(rival, reqs, url, pathOf)
      ensures Less(Offer(rival, url, pathOf(url)).value, c)
    {
      var d := Offer(rival, url, pathOf(url)).value;
      CandidateMember(eps, reqs, url, pathOf, d);
      assert d in bag && d != c;
    }
    assert Leads(ep, eps, reqs, url, pathOf);
  }

  lemma LeaderOwns(eps: seq<Endpoint>, reqs: seq<Request>, pathOf: string -> string, ep: Endpoint, url: string)
    requires DistinctHashes(eps) && NoDuplicates(reqs) && Leads(ep, eps, reqs, url, pathOf)
    ensures Owns(eps, reqs, pathOf, ep.findingHash, url)
  {
    var bag := Candidates(eps, reqs, url, pathOf);
    var c := Offer(ep, url, pathOf(url)).value;
    CandidateMember(eps, reqs, url, pathOf, c);
    CandidateOnce(eps, reqs, url, pathOf, c);
    forall d | d in bag && d != c ensures Less(d, c) {
      CandidateMember(eps, reqs, url, pathOf, d);
      var rival :| rival in eps && Competes(rival, reqs, url, pathOf) && Offer(rival, url, pathOf(url)).value == d;
    }
    assert StrictBest(bag, c);
  }

  /** With distinct finding hashes and distinct requests, which is what both producers of the
      observation list deliver, a finding owns a URL exactly when its endpoint competes for it
      and is strictly more specific than every other endpoint that does. */
  lemma OwnerIsStrictlyMostSpecific(eps: seq<Endpoint>, reqs: seq<Request>, pathOf: string -> string, hash: string, url: string)
    requires DistinctHashes(eps) && NoDuplicates(reqs)
    ensures Owns(eps, reqs, pathOf, hash, url) <==>
      exists ep :: Leads(ep, eps, reqs, url, pathOf) && ep.findingHash == hash
  {
    if Owns(eps, reqs, pathOf, hash, url) {
      OwnerLeads(eps, reqs, pathOf, hash, url);
    }
    forall ep | Leads(ep, eps, reqs, url, pathOf) && ep.findingHash == hash ensures Owns(eps, reqs, pathOf, hash, url) {
      LeaderOwns(eps, reqs, pathOf, ep, url);
    }
  }

  // ---- the algorithm -------------------------------------------------------

  predicate NotWorse(c: Candidate, cands: seq<Candidate>) {
    forall d | d in cands :: !Less(c, d)
  }

  /** `max(cands, key=_specificity)`. */
  method Best(cands: seq<Candidate>) returns (best: Candidate)
    requires cands != []
    ensures best in cands && NotWorse(best, cands)
  {
    best := cands[0];
    for i := 1 to |cands|
      invariant best in cands && NotWorse(best, cands[..i])
    {
      assert cands[..i + 1] == cands[..i] + [cands[i]];
      if Less(best, cands[i]) {
        best := cands[i];
      }
    }
    assert cands[..|cands|] == cands;
  }

  /** The candidates as specific as the best, by position. */
  method Winners(cands: seq<Candidate>, best: Candidate) returns (winners: seq<Candidate>)
    ensures multiset(winners) <= multiset(cands)
    ensures forall d :: multiset(winners)[d] == if Equal(d, best) then multiset(cands)[d] else 0
  {
    winners := [];
    for i := 0 to |cands|
      invariant multiset(winners) <= multiset(cands[..i])
      invariant forall d :: multiset(winners)[d] == if Equal(d, best) then multiset(cands[..i])[d] else 0
    {
      assert cands[..i + 1] == cands[..i] + [cands[i]];
      if Equal(cands[i], best) {
        winners := winners + [cands[i]];
      }
    }
    assert cands[..|cands|] == cands;
  }

  lemma SingleWinner(cands: seq<Candidate>, best: Candidate, winners: seq<Candidate>)
    requires best in cands && NotWorse(best, cands)
    requires forall d :: multiset(winners)[d] == if Equal(d, best) then multiset(cands)[d] else 0
    ensures |winners| == 1 ==> StrictBest(multiset(cands), winners[0])
    ensures forall c | StrictBest(multiset(cands), c) :: |winners| == 1 && winners[0] == c
  {
    if |winners| == 1 {
      var w := winners[0];
      assert winners == [w];
      assert multiset(winners) == multiset{w};
      assert multiset(winners)[best] >= 1;
      forall d | d in multiset(cands) && d != w ensures Less(d, w) {
        assert multiset(winners)[d] == 0;
        assert !Less(best, d);
      }
    }
    forall c | StrictBest(multiset(cands), c) ensures |winners| == 1 && winners[0] == c {
      assert c in cands && !Less(best, c);
      assert best == c;
      forall d ensures multiset(winners)[d] == multiset{c}[d] {
        assert d in multiset(cands) && d != c ==> Less(d, c);
      }
      assert multiset(winners) == multiset{c};
      assert |winners| == |multiset(winners)|;
      assert winners[0] in multiset(winners);
    }
  }

  type ByUrl = map<string, seq<Candidate>>

  function At(byUrl: ByUrl, url: string): seq<Candidate> {
    if url in byUrl then byUrl[url] else []
  }

  /** `byUrl` holds what it held before plus `extra` endpoints' candidates. */
  ghost predicate Adds(byUrl: ByUrl, before: ByUrl, extra: seq<Endpoint>, req: Request, pathOf: string -> string) {
    forall u :: multiset(At(byUrl, u)) == multiset(At(before, u)) + FromRequest(extra, req, u, pathOf)
  }

  /** One endpoint against one request: a verb match that aligns adds a candidate. */
  function WithOffer(byUrl: ByUrl, ep: Endpoint, req: Request, pathOf: string -> string): ByUrl {
    var offer := Offer(ep, req.url, pathOf(req.url));
    if ep.verb == req.verb && offer.Some? then byUrl[req.url := At(byUrl, req.url) + [offer.value]] else byUrl
  }

  lemma AtAppended(byUrl: ByUrl, url: string, c: Candidate, u: string)
    ensures multiset(At(byUrl[url := At(byUrl, url) + [c]], u)) ==
            multiset(At(byUrl, u)) + if u == url then multiset{c} else multiset{}
  {
  }

  lemma OfferAdds(byUrl: ByUrl, ep: Endpoint, req: Request, pathOf: string -> string, u: string)
    ensures multiset(At(WithOffer(byUrl, ep, req, pathOf), u)) == multiset(At(byUrl, u)) + One(ep, req, u, pathOf)
  {
    var offer := Offer(ep, req.url, pathOf(req.url));
    if ep.verb == req.verb && offer.Some? {
      AtAppended(byUrl, req.url, offer.value, u);
    }
  }

  lemma AddsNext(byUrl: ByUrl, before: ByUrl, eps: seq<Endpoint>, i: nat, req: Request, pathOf: string -> string)
    requires i < |eps| && Adds(byUrl, before, eps[..i], req, pathOf)
    ensures Adds(WithOffer(byUrl, eps[i], req, pathOf), before, eps[..i + 1], req, pathOf)
  {
    var after := WithOffer(byUrl, eps[i], req, pathOf);
    forall u ensures multiset(At(after, u)) == multiset(At(before, u)) + FromRequest(eps[..i + 1], req, u, pathOf) {
      AddsNextAt(byUrl, before, eps, i, req, pathOf, u);
    }
  }

  lemma AddsNextAt(byUrl: ByUrl, before: ByUrl, eps: seq<Endpoint>, i: nat, req: Request, pathOf: string -> string, u: string)
    requires i < |eps|
    requires multiset(At(byUrl, u)) == multiset(At(before, u)) + FromRequest(eps[..i], req, u, pathOf)
    ensures multiset(At(WithOffer(byUrl, eps[i], req, pathOf), u)) ==
            multiset(At(before, u)) + FromRequest(eps[..i + 1], req, u, pathOf)
  {
    var f := (ep: Endpoint) => One(ep, req, u, pathOf);
    BagAppend(f, eps, i);
    assert f(eps[i]) == One(eps[i], req, u, pathOf);
    OfferAdds(byUrl, eps[i], req, pathOf, u);
  }

  /** The candidates one request adds, endpoint by endpoint. */
  method Gather(eps: seq<Endpoint>, req: Request, byUrl0: ByUrl, pathOf: string -> string) returns (byUrl: ByUrl)
    requires forall u | u in byUrl0 :: byUrl0[u] != []
    ensures forall u | u in byUrl :: byUrl[u] != []
    ensures Adds(byUrl, byUrl0, eps, req, pathOf)
  {
    byUrl := byUrl0;
    for i := 0 to |eps|
      invariant forall u | u in byUrl :: byUrl[u] != []
      invariant Adds(byUrl, byUrl0, eps[..i], req, pathOf)
    {
      AddsNext(byUrl, byUrl0, eps, i, req, pathOf);
      byUrl := WithOffer(byUrl, eps[i], req, pathOf);
    }
    assert eps[..|eps|] == eps;
  }

  /** Which findings have won which URLs. */
  ghost predicate WonAre(perFinding: map<string, set<string>>, eps: seq<Endpoint>, reqs: seq<Request>,
                         pathOf: string -> string, urls: set<string>) {
    (forall h | h in perFinding :: perFinding[h] != {}) &&
    forall h, u :: (h in perFinding && u in perFinding[h]) <==> u in urls && Owns(eps, reqs, pathOf, h, u)
  }

  /** `correlate`: `pathOf` is the URL parser's path. The result maps a finding to a URL exactly
      when it owns that URL and no other. */
  method Correlate(eps: seq<Endpoint>, reqs: seq<Request>, pathOf: string -> string) returns (resolved: map<string, string>)
    ensures forall h, u :: Lookup(resolved, h) == Some(u) <==> SoleOwner(eps, reqs, pathOf, h, u)
  {
    var byUrl: ByUrl := map[];
    for r := 0 to |reqs|
      invariant forall u | u in byUrl :: byUrl[u] != []
      invariant forall u :: multiset(At(byUrl, u)) == Candidates(eps, reqs[..r], u, pathOf)
    {
      ghost var before := byUrl;
      byUrl := Gather(eps, reqs[r], byUrl, pathOf);
      forall u ensures multiset(At(byUrl, u)) == Candidates(eps, reqs[..r + 1], u, pathOf) {
        BagAppend((req: Request) => FromRequest(eps, req, u, pathOf), reqs, r);
      }
    }
    assert reqs[..|reqs|] == reqs;
    var perFinding := PerFinding(byUrl, eps, reqs, pathOf);
    resolved := map h | h in perFinding && |perFinding[h]| == 1 :: TheOne(perFinding[h]);
    forall h, u ensures Lookup(resolved, h) == Some(u) <==> SoleOwner(eps, reqs, pathOf, h, u) {
      ResolvedIff(perFinding, eps, reqs, pathOf, byUrl.Keys, h, u);
    }
  }

  method PerFinding(byUrl: ByUrl, ghost eps: seq<Endpoint>, ghost reqs: seq<Request>, ghost pathOf: string -> string)
    returns (perFinding: map<string, set<string>>)
    requires forall u | u in byUrl :: byUrl[u] != []
    requires forall u :: multiset(At(byUrl, u)) == Candidates(eps, reqs, u, pathOf)
    ensures WonAre(perFinding, eps, reqs, pathOf, byUrl.Keys)
  {
    perFinding := map[];
    var rest := byUrl.Keys;
    while rest != {}
      invariant rest <= byUrl.Keys
      invariant WonAre(perFinding, eps, reqs, pathOf, byUrl.Keys - rest)
      decreases |rest|
    {
      var url :| url in rest;
      ghost var seen := byUrl.Keys - rest;
      rest := rest - {url};
      assert byUrl.Keys - rest == seen + {url};
      var cands := byUrl[url];
      assert At(byUrl, url) == cands;
      var best := Best(cands);
      var winners := Winners(cands, best);
      SingleWinner(cands, best, winners);
      ghost var before := perFinding;
      if |winners| == 1 {
        var hash := winners[0].findingHash;
        perFinding := perFinding[hash := (if hash in perFinding then perFinding[hash] else {}) + {winners[0].resolvedUrl}];
      }
      WonNext(before, perFinding, eps, reqs, pathOf, seen, url, winners);
    }
    assert byUrl.Keys - rest == byUrl.Keys;
  }

  lemma CandidateUrl(eps: seq<Endpoint>, reqs: seq<Request>, url: string, pathOf: string -> string, c: Candidate)
    requires c in Candidates(eps, reqs, url, pathOf)
    ensures c.resolvedUrl == url
  {
    CandidateMember(eps, reqs, url, pathOf, c);
  }

  lemma WonNext(before: map<string, set<string>>, after: map<string, set<string>>, eps: seq<Endpoint>, reqs: seq<Request>,
                pathOf: string -> string, seen: set<string>, url: string, winners: seq<Candidate>)
    requires WonAre(before, eps, reqs, pathOf, seen) && url !in seen
    requires |winners| == 1 ==> StrictBest(Candidates(eps, reqs, url, pathOf), winners[0])
    requires forall c | StrictBest(Candidates(eps, reqs, url, pathOf), c) :: |winners| == 1 && winners[0] == c
    requires after == if |winners| != 1 then before else
      var hash := winners[0].findingHash;
      before[hash := (if hash in before then before[hash] else {}) + {winners[0].resolvedUrl}]
    ensures WonAre(after, eps, reqs, pathOf, seen + {url})
  {
    if |winners| == 1 {
      CandidateUrl(eps, reqs, url, pathOf, winners[0]);
    }
    forall h ensures Owns(eps, reqs, pathOf, h, url) <==> |winners| == 1 && winners[0].findingHash == h {
    }
    forall h, u ensures (h in after && u in after[h]) <==> u in seen + {url} && Owns(eps, reqs, pathOf, h, u) {
      if u == url {
        assert h in before ==> url !in before[h];
      }
    }
  }

  function TheOne(s: set<string>): (x: string)
    requires |s| == 1
    ensures s == {x}
  {
    var x :| x in s;
    SubsetSize({x}, s);
    x
  }

  lemma ResolvedIff(perFinding: map<string, set<string>>, eps: seq<Endpoint>, reqs: seq<Request>, pathOf: string -> string,
                    urls: set<string>, h: string, u: string)
    requires WonAre(perFinding, eps, reqs, pathOf, urls)
    requires forall x | Owns(eps, reqs, pathOf, h, x) :: x in urls
    ensures (h in perFinding && perFinding[h] == {u}) <==> SoleOwner(eps, reqs, pathOf, h, u)
  {
    if SoleOwner(eps, reqs, pathOf, h, u) {
      assert u in perFinding[h];
      forall x | x in perFinding[h] ensures x == u {
        assert Owns(eps, reqs, pathOf, h, x);
      }
    }
    if h in perFinding && perFinding[h] == {u} {
      assert u in perFinding[h];
      forall x | Owns(eps, reqs, pathOf, h, x) ensures x == u {
        assert x in perFinding[h];
      }
    }
  }
}
