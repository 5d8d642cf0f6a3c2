/** The bounded crawl of a bundle's module graph (fetch/fetch.py): the breadth-first search over
    native-ESM imports, the flat webpack enumeration, and the loop over a run's assets. */
module ModuleCrawl {
  import opened Basics

  type Url = string
  type Body = string

  /** The outside world: what fetching a URL through the egress guard yields (`None` for blocked,
      failed or malformed), and what a body refers to once joined to its own URL (`None` for a
      specifier that cannot be joined). */
  datatype Web = Web(fetch: Url -> Option<Body>,
                     imports: (Body, Url) -> seq<Option<Url>>,
                     chunks: (Body, Url) -> seq<Option<Url>>)

  type Module = (Body, Url)

  predicate Contains(text: string, word: string) {
    word <= text || (text != "" && Contains(text[1..], word))
  }

  ghost predicate Occurs(text: string, word: string) {
    exists before: string, after: string :: text == before + word + after
  }

  lemma {:induction false} ContainedOccurs(text: string, word: string)
    requires Contains(text, word)
    ensures Occurs(text, word)
  {
    if word <= text {
      assert text == "" + word + text[|word|..];
    } else {
      ContainedOccurs(text[1..], word);
      var before: string, after: string :| text[1..] == before + word + after;
      assert text == ([text[0]] + before) + word + after;
    }
  }

  lemma {:induction false} OccurringIsContained(before: string, word: string, after: string)
    ensures Contains(before + word + after, word)
  {
    var text := before + word + after;
    if before == "" {
      assert text == word + after;
    } else {
      assert text[1..] == before[1..] + word + after;
      OccurringIsContained(before[1..], word, after);
    }
  }

  /** The gates look for a word anywhere in the text. */
  lemma ContainsIff(text: string, word: string)
    ensures Contains(text, word) <==> Occurs(text, word)
  {
    if Contains(text, word) {
      ContainedOccurs(text, word);
    }
    if before: string, after: string :| text == before + word + after {
      OccurringIsContained(before, word, after);
    }
  }

  // ---- what may be found ---------------------------------------------------

  /** Hop by hop from the parent, through modules that are new to the run and can be fetched. */
  ghost predicate IsPath(web: Web, parent: Module, rows: set<Url>, path: seq<Url>) {
    path != [] && Some(path[0]) in web.imports(parent.0, parent.1) &&
    (forall i | 0 <= i < |path| :: path[i] !in rows && web.fetch(path[i]).Some?) &&
    (forall i | 0 <= i < |path| - 1 :: Some(path[i + 1]) in web.imports(web.fetch(path[i]).value, path[i]))
  }

  ghost predicate Reachable(web: Web, parent: Module, rows: set<Url>, u: Url) {
    exists path :: IsPath(web, parent, rows, path) && path[|path| - 1] == u
  }

  /** The tried URLs that could be fetched, in order. */
  function Succeeded(web: Web, tried: seq<Url>): seq<Url> {
    if tried == [] then []
    else
      var before := Succeeded(web, tried[..|tried| - 1]);
      var u := tried[|tried| - 1];
      if web.fetch(u).Some? then before + [u] else before
  }

  lemma {:induction false} SucceededMembers(web: Web, tried: seq<Url>, u: Url)
    ensures u in Succeeded(web, tried) <==> u in tried && web.fetch(u).Some?
    ensures |Succeeded(web, tried)| <= |tried|
    ensures NoDuplicates(tried) ==> NoDuplicates(Succeeded(web, tried))
  {
    if tried != [] {
      var front, last := tried[..|tried| - 1], tried[|tried| - 1];
      SucceededMembers(web, front, u);
      SucceededMembers(web, front, last);
      assert tried == front + [last];
    }
  }

  /** Everything whose imports the search has looked at or still has to, in queue order. */
  function Worklist(web: Web, parent: Module, seeded: seq<Url>): seq<Module> {
    if seeded == [] then [parent]
    else
      var u := seeded[|seeded| - 1];
      Worklist(web, parent, seeded[..|seeded| - 1]) + [(if web.fetch(u).Some? then web.fetch(u).value else "", u)]
  }

  lemma {:induction false} WorklistMembers(web: Web, parent: Module, seeded: seq<Url>, m: Module)
    ensures parent in Worklist(web, parent, seeded)
    ensures m in Worklist(web, parent, seeded) ==> m == parent || m.1 in seeded
    ensures m in Worklist(web, parent, seeded) && m != parent && web.fetch(m.1).Some? ==> m.0 == web.fetch(m.1).value
    ensures m.1 in seeded && web.fetch(m.1) == Some(m.0) ==> m in Worklist(web, parent, seeded)
  {
    if seeded != [] {
      WorklistMembers(web, parent, seeded[..|seeded| - 1], m);
      assert seeded == seeded[..|seeded| - 1] + [seeded[|seeded| - 1]];
    }
  }

  lemma ExtendPath(web: Web, parent: Module, rows: set<Url>, m: Module, u: Url)
    requires m == parent || (Reachable(web, parent, rows, m.1) && web.fetch(m.1) == Some(m.0))
    requires Some(u) in web.imports(m.0, m.1) && u !in rows && web.fetch(u).Some?
    ensures Reachable(web, parent, rows, u)
  {
    if m == parent {
      assert IsPath(web, parent, rows, [u]);
    } else {
      var path :| IsPath(web, parent, rows, path) && path[|path| - 1] == m.1;
      var longer := path + [u];
      forall i | 0 <= i < |longer| - 1 ensures Some(longer[i + 1]) in web.imports(web.fetch(longer[i]).value, longer[i]) {
        if i < |path| - 1 {
          assert longer[i + 1] == path[i + 1];
        }
      }
      assert IsPath(web, parent, rows, longer);
    }
  }

  /** The parent, or a module that was reached and fetched, refers to the URL. */
  ghost predicate Imported(web: Web, parent: Module, rows: set<Url>, u: Url) {
    exists m: Module :: (m == parent || (Reachable(web, parent, rows, m.1) && web.fetch(m.1) == Some(m.0))) &&
      Some(u) in web.imports(m.0, m.1)
  }

  ghost predicate AllImported(web: Web, parent: Module, rows: set<Url>, tried: seq<Url>) {
    forall u | u in tried :: Imported(web, parent, rows, u)
  }

  /** The state of the search: nothing tried twice, already a row or never referred to, exactly the
      successes seeded, every seed reachable. */
  ghost predicate SearchSound(web: Web, parent: Module, rows: set<Url>, tried: seq<Url>, seeded: seq<Url>) {
    && NoDuplicates(tried)
    && (forall u | u in tried :: u !in rows)
    && AllImported(web, parent, rows, tried)
    && seeded == Succeeded(web, tried)
    && (forall u | u in seeded :: Reachable(web, parent, rows, u))
  }

  /** Every specifier of `m` that can be joined is a row or has been tried. */
  ghost predicate Expanded(web: Web, known: set<Url>, m: Module) {
    forall u | Some(u) in web.imports(m.0, m.1) :: u in known
  }

  lemma {:induction false} PathCovered(web: Web, parent: Module, rows: set<Url>, tried: seq<Url>, path: seq<Url>, i: nat)
    requires forall m | m in Worklist(web, parent, Succeeded(web, tried)) :: Expanded(web, rows + Elements(tried), m)
    requires IsPath(web, parent, rows, path) && i < |path|
    ensures path[i] in Succeeded(web, tried)
  {
    var seeded := Succeeded(web, tried);
    WorklistMembers(web, parent, seeded, parent);
    if i > 0 {
      PathCovered(web, parent, rows, tried, path, i - 1);
      var m := (web.fetch(path[i - 1]).value, path[i - 1]);
      WorklistMembers(web, parent, seeded, m);
      assert Expanded(web, rows + Elements(tried), m);
      assert Some(path[i - 1 + 1]) in web.imports(m.0, m.1);
    }
    assert path[i] in rows + Elements(tried);
    SucceededMembers(web, tried, path[i]);
  }

  /** When everything found has been expanded, what was seeded is exactly what is reachable. */
  lemma SearchComplete(web: Web, parent: Module, rows: set<Url>, tried: seq<Url>, seeded: seq<Url>)
    requires SearchSound(web, parent, rows, tried, seeded)
    requires forall m | m in Worklist(web, parent, seeded) :: Expanded(web, rows + Elements(tried), m)
    ensures forall u :: u in seeded <==> Reachable(web, parent, rows, u)
  {
    forall u | Reachable(web, parent, rows, u) ensures u in seeded {
      var path :| IsPath(web, parent, rows, path) && path[|path| - 1] == u;
      PathCovered(web, parent, rows, tried, path, |path| - 1);
    }
  }

  lemma TrySound(web: Web, parent: Module, rows: set<Url>, tried: seq<Url>, seeded: seq<Url>, m: Module, u: Url)
    requires SearchSound(web, parent, rows, tried, seeded)
    requires m in Worklist(web, parent, seeded) && Some(u) in web.imports(m.0, m.1)
    requires u !in rows + Elements(tried)
    ensures SearchSound(web, parent, rows, tried + [u], if web.fetch(u).Some? then seeded + [u] else seeded)
  {
    assert (tried + [u])[..|tried|] == tried;
    AppendDistinct(tried, u);
    WorklistMembers(web, parent, seeded, m);
    SucceededMembers(web, tried, m.1);
    assert Imported(web, parent, rows, u);
    if web.fetch(u).Some? {
      ExtendPath(web, parent, rows, m, u);
    }
  }

  lemma WorklistGrows(web: Web, parent: Module, seeded: seq<Url>, u: Url)
    requires web.fetch(u).Some?
    ensures Worklist(web, parent, seeded + [u]) == Worklist(web, parent, seeded) + [(web.fetch(u).value, u)]
  {
    assert (seeded + [u])[..|seeded|] == seeded;
  }

  function AtLeastZero(n: int): nat {
    if n < 0 then 0 else n
  }

  /** Where the search stands: `queue` is what remains of the worklist. */
  ghost predicate Standing(web: Web, parent: Module, rows: set<Url>, tried: seq<Url>, seeded: seq<Url>,
                           known: set<Url>, finished: seq<Module>, queue: seq<Module>) {
    && SearchSound(web, parent, rows, tried, seeded)
    && known == rows + Elements(tried)
    && Worklist(web, parent, seeded) == finished + queue
  }

  lemma KnownGrows(rows: set<Url>, tried: seq<Url>, u: Url)
    ensures rows + Elements(tried) + {u} == rows + Elements(tried + [u])
  {
    assert Elements(tried + [u]) == Elements(tried) + {u};
  }

  lemma QueueGrows(web: Web, parent: Module, seeded: seq<Url>, finished: seq<Module>, queue: seq<Module>, u: Url)
    requires Worklist(web, parent, seeded) == finished + queue && web.fetch(u).Some?
    ensures Worklist(web, parent, seeded + [u]) == finished + (queue + [(web.fetch(u).value, u)])
  {
    WorklistGrows(web, parent, seeded, u);
  }

  lemma TryStanding(web: Web, parent: Module, rows: set<Url>, tried: seq<Url>, seeded: seq<Url>,
                    known: set<Url>, finished: seq<Module>, queue: seq<Module>, m: Module, u: Url)
    requires Standing(web, parent, rows, tried, seeded, known, finished, queue)
    requires m in finished && Some(u) in web.imports(m.0, m.1) && u !in known
    ensures var body := web.fetch(u);
      Standing(web, parent, rows, tried + [u], if body.Some? then seeded + [u] else seeded, known + {u},
               finished, if body.Some? then queue + [(body.value, u)] else queue)
  {
    TrySound(web, parent, rows, tried, seeded, m, u);
    KnownGrows(rows, tried, u);
    if web.fetch(u).Some? {
      QueueGrows(web, parent, seeded, finished, queue, u);
    }
  }

  lemma StandingStarts(web: Web, parent: Module, rows: set<Url>)
    ensures Standing(web, parent, rows, [], [], rows, [], [parent])
  {
    assert rows + Elements([]) == rows;
  }

  /** The next module leaves the queue. */
  lemma StandingMoves(web: Web, parent: Module, rows: set<Url>, tried: seq<Url>, seeded: seq<Url>,
                      known: set<Url>, finished: seq<Module>, queue: seq<Module>)
    requires Standing(web, parent, rows, tried, seeded, known, finished, queue) && queue != []
    ensures Standing(web, parent, rows, tried, seeded, known, finished + [queue[0]], queue[1..])
  {
    assert finished + queue == (finished + [queue[0]]) + queue[1..];
  }

  /** When the queue is empty and all has been expanded the search is complete. */
  lemma StandingEnds(web: Web, parent: Module, rows: set<Url>, tried: seq<Url>, seeded: seq<Url>,
                     known: set<Url>, finished: seq<Module>)
    requires Standing(web, parent, rows, tried, seeded, known, finished, []) && AllExpanded(web, known, finished)
    ensures forall u :: u in seeded <==> Reachable(web, parent, rows, u)
  {
    assert finished == Worklist(web, parent, seeded);
    SearchComplete(web, parent, rows, tried, seeded);
  }

  /** The first `n` checks found nothing to stop for. */
  predicate Unstopped(stop: nat -> bool, n: nat) {
    n == 0 || (!stop(n - 1) && Unstopped(stop, n - 1))
  }

  lemma {:induction false} UnstoppedIff(stop: nat -> bool, n: nat)
    ensures Unstopped(stop, n) <==> forall k: nat | k < n :: !stop(k)
  {
    if n > 0 {
      UnstoppedIff(stop, n - 1);
    }
  }

  /** One specifier: unless it cannot be joined or is known it is logged and known before the fetch, and a
      success is seeded and queued. */
  method TryChunk(web: Web, ghost parent: Module, ghost rows: set<Url>, ghost current: Module, ref: Option<Url>,
                  tried0: seq<Url>, seeded0: seq<Url>, known0: set<Url>, ghost finished: seq<Module>, queue0: seq<Module>)
    returns (tried: seq<Url>, seeded: seq<Url>, known: set<Url>, queue: seq<Module>)
    requires Standing(web, parent, rows, tried0, seeded0, known0, finished, queue0)
    requires current in finished && ref in web.imports(current.0, current.1)
    ensures Standing(web, parent, rows, tried, seeded, known, finished, queue)
    ensures |tried0| <= |tried| <= |tried0| + 1 && |seeded| <= |seeded0| + 1 && known0 <= known
    ensures ref.Some? ==> ref.value in known
    ensures |tried| == |tried0| ==> queue == queue0
  {
    tried, seeded, known, queue := tried0, seeded0, known0, queue0;
    if ref.Some? && ref.value !in known {
      var chunkUrl := ref.value;
      TryStanding(web, parent, rows, tried0, seeded0, known0, finished, queue0, current, chunkUrl);
      known := known + {chunkUrl};
      tried := tried + [chunkUrl];
      var body := web.fetch(chunkUrl);
      if body.Some? {
        seeded := seeded + [chunkUrl];
        queue := queue + [(body.value, chunkUrl)];
      }
    }
  }

  lemma UnstoppedNext(stop: nat -> bool, n: nat)
    requires Unstopped(stop, n) && !stop(n)
    ensures Unstopped(stop, n + 1)
  {
  }

  /** The inner loop: one module's specifiers, until a ceiling or an interrupt, with a check before each. */
  method ExpandModule(web: Web, ghost parent: Module, ghost rows: set<Url>, current: Module,
                      tried0: seq<Url>, seeded0: seq<Url>, known0: set<Url>, ghost finished: seq<Module>,
                      queue0: seq<Module>, remaining: int, maxAssets: int, stop: nat -> bool, checks0: nat)
    returns (tried: seq<Url>, seeded: seq<Url>, known: set<Url>, queue: seq<Module>, checks: nat, interrupted: bool)
    requires Standing(web, parent, rows, tried0, seeded0, known0, finished, queue0)
    requires current in finished && |seeded0| <= remaining && |tried0| <= maxAssets && Unstopped(stop, checks0)
    ensures Standing(web, parent, rows, tried, seeded, known, finished, queue)
    ensures |seeded| <= remaining && |tried0| <= |tried| <= maxAssets && known0 <= known
    ensures |tried| == |tried0| ==> queue == queue0
    ensures !interrupted && |seeded| < remaining && |tried| < maxAssets ==> Expanded(web, known, current)
    ensures Unstopped(stop, checks) && (interrupted ==> stop(checks)) && checks - checks0 >= |tried| - |tried0|
  {
    tried, seeded, known, queue, checks, interrupted := tried0, seeded0, known0, queue0, checks0, false;
    var refs := web.imports(current.0, current.1);
    var r := 0;
    while r < |refs| && |seeded| < remaining && |tried| < maxAssets
      invariant 0 <= r <= |refs| && !interrupted
      invariant Standing(web, parent, rows, tried, seeded, known, finished, queue)
      invariant |seeded| <= remaining && |tried0| <= |tried| <= maxAssets && known0 <= known
      invariant |tried| == |tried0| ==> queue == queue0
      invariant forall j | 0 <= j < r && refs[j].Some? :: refs[j].value in known
      invariant Unstopped(stop, checks) && checks - checks0 >= |tried| - |tried0| && checks0 <= checks
    {
      if stop(checks) {
        interrupted := true;
        return;
      }
      UnstoppedNext(stop, checks);
      checks := checks + 1;
      tried, seeded, known, queue := TryChunk(web, parent, rows, current, refs[r], tried, seeded, known, finished, queue);
      r := r + 1;
    }
  }

  ghost predicate AllExpanded(web: Web, known: set<Url>, finished: seq<Module>) {
    forall m | m in finished :: Expanded(web, known, m)
  }

  lemma ExpandedNext(web: Web, before: set<Url>, known: set<Url>, finished: seq<Module>, current: Module)
    requires AllExpanded(web, before, finished) && before <= known && Expanded(web, known, current)
    ensures AllExpanded(web, known, finished + [current])
  {
    forall m | m in finished + [current] ensures Expanded(web, known, m) {
      if m != current {
        assert Expanded(web, before, m);
      }
    }
  }

  /** Each attempt was preceded by a check that found nothing, and so was the search itself. */
  predicate Within(tried: seq<Url>, stop: nat -> bool, asked: nat) {
    Unstopped(stop, asked) && |tried| <= asked && (tried != [] ==> |tried| < asked)
  }

  /** The outer loop between two modules. */
  ghost predicate Searching(web: Web, parent: Module, rows: set<Url>, tried: seq<Url>, seeded: seq<Url>, known: set<Url>,
                            finished: seq<Module>, queue: seq<Module>, remaining: int, maxAssets: int) {
    && Standing(web, parent, rows, tried, seeded, known, finished, queue)
    && |seeded| <= remaining && |tried| <= maxAssets
    && (|seeded| < remaining && |tried| < maxAssets ==> AllExpanded(web, known, finished))
  }

  /** One round of the outer loop after its check: the next module leaves the queue and is expanded. */
  method ExpandNext(web: Web, ghost parent: Module, ghost rows: set<Url>, tried0: seq<Url>, seeded0: seq<Url>, known0: set<Url>,
                    ghost finished0: seq<Module>, queue0: seq<Module>, remaining: int, maxAssets: int, stop: nat -> bool,
                    checks0: nat)
    returns (tried: seq<Url>, seeded: seq<Url>, known: set<Url>, ghost finished: seq<Module>, queue: seq<Module>,
             checks: nat, interrupted: bool)
    requires Searching(web, parent, rows, tried0, seeded0, known0, finished0, queue0, remaining, maxAssets)
    requires queue0 != [] && |seeded0| < remaining && |tried0| < maxAssets && Unstopped(stop, checks0)
    ensures Standing(web, parent, rows, tried, seeded, known, finished, queue)
    ensures |seeded| <= remaining && |tried0| <= |tried| <= maxAssets
    ensures !interrupted ==> Searching(web, parent, rows, tried, seeded, known, finished, queue, remaining, maxAssets)
    ensures |tried| == |tried0| ==> |queue| < |queue0|
    ensures Unstopped(stop, checks) && (interrupted ==> stop(checks)) && checks - checks0 >= |tried| - |tried0|
  {
    StandingMoves(web, parent, rows, tried0, seeded0, known0, finished0, queue0);
    var current := queue0[0];
    finished := finished0 + [current];
    tried, seeded, known, queue, checks, interrupted :=
      ExpandModule(web, parent, rows, current, tried0, seeded0, known0, finished, queue0[1..], remaining, maxAssets, stop, checks0);
    if !interrupted && |seeded| < remaining && |tried| < maxAssets {
      ExpandedNext(web, known0, known, finished0, current);
    }
  }

  predicate EsmCandidate(js: Body) {
    !Contains(js, "webpack") && (Contains(js, "import") || Contains(js, "export"))
  }

  /** The breadth-first loop from the parent, with a check before each module. */
  method SearchModules(web: Web, js: Body, assetUrl: Url, rows: set<Url>, remaining: int, maxAssets: int, stop: nat -> bool)
    returns (seeded: seq<Url>, tried: seq<Url>, interrupted: bool, ghost asked: nat)
    requires remaining > 0 && maxAssets > 0
    ensures Within(tried, stop, asked) && (interrupted ==> stop(asked))
    ensures SearchSound(web, (js, assetUrl), rows, tried, seeded) && |seeded| <= remaining && |tried| <= maxAssets
    ensures !interrupted && |seeded| < remaining && |tried| < maxAssets ==>
              forall u :: u in seeded <==> Reachable(web, (js, assetUrl), rows, u)
  {
    seeded, tried, interrupted, asked := [], [], false, 0;
    ghost var parent := (js, assetUrl);
    var known := rows;
    var checks: nat := 0;
    var queue: seq<Module> := [(js, assetUrl)];
    ghost var finished: seq<Module> := [];
    StandingStarts(web, parent, rows);
    while queue != [] && |seeded| < remaining && |tried| < maxAssets
      invariant Searching(web, parent, rows, tried, seeded, known, finished, queue, remaining, maxAssets) && !interrupted
      invariant Within(tried, stop, checks) && asked == checks
      decreases maxAssets - |tried|, |queue|
    {
      if stop(checks) {
        interrupted := true;
        return;
      }
      tried, seeded, known, finished, queue, checks, interrupted :=
        ExpandNext(web, parent, rows, tried, seeded, known, finished, queue, remaining, maxAssets, stop, checks + 1);
      asked := checks;
      if interrupted {
        return;
      }
    }
    if |seeded| < remaining && |tried| < maxAssets {
      StandingEnds(web, parent, rows, tried, seeded, known, finished);
    }
  }

  /** `_enumerate_and_seed_esm_chunks`. `stop(k)` says that the k-th control check finds a pause or
      cancel, and `asked` is how many checks found none: one before each module and each attempt.
      `tried` is the log of attempts; the source returns the number of seeds. */
  method EnumerateEsm(web: Web, js: Body, assetUrl: Url, rows: set<Url>, maxAssets: int, stop: nat -> bool)
    returns (seeded: seq<Url>, tried: seq<Url>, interrupted: bool, ghost asked: nat)
    ensures Within(tried, stop, asked) && (interrupted ==> stop(asked))
    ensures SearchSound(web, (js, assetUrl), rows, tried, seeded)
    ensures seeded != [] ==> |rows| + |seeded| <= maxAssets
    ensures tried != [] ==> |tried| <= maxAssets
    ensures !EsmCandidate(js) ==> tried == [] && !interrupted
    ensures EsmCandidate(js) && !interrupted && |rows| + |seeded| < maxAssets && |tried| < maxAssets ==>
              forall u :: u in seeded <==> Reachable(web, (js, assetUrl), rows, u)
  {
    seeded, tried, interrupted, asked := [], [], false, 0;
    if Contains(js, "webpack") {
      return;
    }
    if !Contains(js, "import") && !Contains(js, "export") {
      return;
    }
    var remaining := maxAssets - |rows|;
    if remaining <= 0 {
      return;
    }
    seeded, tried, interrupted, asked := SearchModules(web, js, assetUrl, rows, remaining, maxAssets, stop);
  }

  ghost predicate ChunksSound(web: Web, refs: seq<Option<Url>>, assetUrl: Url, rows: set<Url>, seeded: seq<Url>) {
    NoDuplicates(seeded) &&
    forall u | u in seeded :: u !in rows && u != assetUrl && web.fetch(u).Some? && Some(u) in refs
  }

  ghost predicate Handled(web: Web, ref: Option<Url>, assetUrl: Url, rows: set<Url>, seeded: seq<Url>) {
    ref.Some? && (ref.value in rows || ref.value == assetUrl || web.fetch(ref.value).None? || ref.value in seeded)
  }

  ghost predicate ChunksExact(web: Web, refs: seq<Option<Url>>, assetUrl: Url, rows: set<Url>, seeded: seq<Url>) {
    forall u :: u in seeded <==> Some(u) in refs && u !in rows && u != assetUrl && web.fetch(u).Some?
  }

  lemma ChunkStep(web: Web, refs: seq<Option<Url>>, assetUrl: Url, rows: set<Url>, seeded: seq<Url>, r: nat, u: Url)
    requires ChunksSound(web, refs, assetUrl, rows, seeded) && r < |refs| && refs[r] == Some(u)
    requires u !in rows && u != assetUrl && u !in seeded && web.fetch(u).Some?
    requires forall j | 0 <= j < r :: Handled(web, refs[j], assetUrl, rows, seeded)
    ensures ChunksSound(web, refs, assetUrl, rows, seeded + [u])
    ensures forall j | 0 <= j < r + 1 :: Handled(web, refs[j], assetUrl, rows, seeded + [u])
    ensures Elements(seeded + [u]) == Elements(seeded) + {u}
  {
    AppendDistinct(seeded, u);
    assert Some(u) in refs;
    forall j | 0 <= j < r ensures Handled(web, refs[j], assetUrl, rows, seeded + [u]) {
      assert Handled(web, refs[j], assetUrl, rows, seeded);
    }
  }

  lemma AllHandled(web: Web, refs: seq<Option<Url>>, assetUrl: Url, rows: set<Url>, seeded: seq<Url>)
    requires ChunksSound(web, refs, assetUrl, rows, seeded)
    requires forall j | 0 <= j < |refs| :: Handled(web, refs[j], assetUrl, rows, seeded)
    ensures ChunksExact(web, refs, assetUrl, rows, seeded)
  {
    forall u | Some(u) in refs && u !in rows && u != assetUrl && web.fetch(u).Some? ensures u in seeded {
      var j :| 0 <= j < |refs| && refs[j] == Some(u);
      assert Handled(web, refs[j], assetUrl, rows, seeded);
    }
  }

  lemma EarlierStillHandled(web: Web, refs: seq<Option<Url>>, assetUrl: Url, rows: set<Url>, seeded: seq<Url>, r: nat)
    requires r < |refs| && Handled(web, refs[r], assetUrl, rows, seeded)
    requires forall j | 0 <= j < r :: Handled(web, refs[j], assetUrl, rows, seeded)
    ensures forall j | 0 <= j < r + 1 :: Handled(web, refs[j], assetUrl, rows, seeded)
  {
  }

  /** The loop over the enumerated specifiers. */
  method SeedChunks(web: Web, refs: seq<Option<Url>>, assetUrl: Url, rows: set<Url>, remaining: int, stop: nat -> bool)
    returns (seeded: seq<Url>, aborted: bool, interrupted: bool, ghost asked: nat)
    requires remaining > 0
    ensures Unstopped(stop, asked) && |seeded| <= asked <= |refs| && (interrupted ==> asked < |refs| && stop(asked))
    ensures ChunksSound(web, refs, assetUrl, rows, seeded) && |seeded| <= remaining
    ensures aborted ==> None in refs
    ensures !aborted && !interrupted && |seeded| < remaining ==> ChunksExact(web, refs, assetUrl, rows, seeded)
  {
    seeded, aborted, interrupted, asked := [], false, false, 0;
    var existing := rows;
    for r := 0 to |refs|
      invariant asked == r && Unstopped(stop, asked) && |seeded| <= asked
      invariant ChunksSound(web, refs, assetUrl, rows, seeded) && |seeded| <= remaining && !aborted && !interrupted
      invariant existing == rows + Elements(seeded)
      invariant forall j | 0 <= j < r :: Handled(web, refs[j], assetUrl, rows, seeded)
    {
      if stop(r) {
        interrupted := true;
        return;
      }
      asked := r + 1;
      if |seeded| >= remaining {
        return;
      }
      if refs[r].None? {
        aborted := true;
        return;
      }
      var chunkUrl := refs[r].value;
      if chunkUrl == assetUrl || chunkUrl in existing || web.fetch(chunkUrl).None? {
        EarlierStillHandled(web, refs, assetUrl, rows, seeded, r);
      } else {
        ChunkStep(web, refs, assetUrl, rows, seeded, r, chunkUrl);
        seeded := seeded + [chunkUrl];
        existing := existing + {chunkUrl};
      }
    }
    AllHandled(web, refs, assetUrl, rows, seeded);
  }

  /** `_enumerate_and_seed_chunks`: one flat list. A specifier that cannot be joined ends the
      enumeration, keeping what was fetched. */
  method EnumerateWebpack(web: Web, js: Body, assetUrl: Url, rows: set<Url>, maxAssets: int, stop: nat -> bool)
    returns (seeded: seq<Url>, aborted: bool, interrupted: bool, ghost asked: nat)
    ensures Unstopped(stop, asked) && (interrupted ==> stop(asked)) && |seeded| <= asked <= |web.chunks(js, assetUrl)|
    ensures seeded != [] ==> |rows| + |seeded| <= maxAssets
    ensures ChunksSound(web, web.chunks(js, assetUrl), assetUrl, rows, seeded)
    ensures |seeded| <= AtLeastZero(maxAssets - |rows|)
    ensures !Contains(js, "webpack") ==> seeded == [] && !aborted && !interrupted
    ensures aborted ==> None in web.chunks(js, assetUrl)
    ensures Contains(js, "webpack") && !aborted && !interrupted && |seeded| < maxAssets - |rows| ==>
              ChunksExact(web, web.chunks(js, assetUrl), assetUrl, rows, seeded)
  {
    var refs := web.chunks(js, assetUrl);
    var remaining := maxAssets - |rows|;
    if !Contains(js, "webpack") || refs == [] || remaining <= 0 {
      seeded, aborted, interrupted, asked := [], false, false, 0;
    } else {
      seeded, aborted, interrupted, asked := SeedChunks(web, refs, assetUrl, rows, remaining, stop);
    }
  }

  // ---- the loop over the run's assets --------------------------------------

  datatype Status = Pending | Ok | Failed

  datatype Asset = Asset(url: Url, status: Status, hasInput: bool)

  type Table = map<Url, Status>

  predicate Skipped(a: Asset) {
    !a.status.Pending? || a.hasInput
  }

  /** Rows inserted as already fetched; a row that exists is left alone. */
  function SeedCaptured(table: Table, urls: seq<Url>): Table {
    table + (map u | u in urls && u !in table :: Ok)
  }

  lemma SeedingCount(table: Table, urls: seq<Url>, maxAssets: int)
    requires NoDuplicates(urls) && |urls| <= AtLeastZero(maxAssets - |table.Keys|)
    requires forall u | u in urls :: u !in table
    ensures |SeedCaptured(table, urls).Keys| == |table.Keys| + |urls|
  {
    DistinctCount(urls);
    assert SeedCaptured(table, urls).Keys == table.Keys + Elements(urls);
  }

  /** The status an asset ends with when it is processed. */
  function Outcome(web: Web, a: Asset): Status {
    if a.status.Pending? && !a.hasInput then (if web.fetch(a.url).Some? then Ok else Failed) else a.status
  }

  function Bound(initial: Table, maxAssets: int): int {
    if |initial.Keys| > maxAssets then |initial.Keys| else maxAssets
  }

  /** The first `n` rows have their outcome, the others are as they were. */
  ghost predicate RowsStand(web: Web, rows: seq<Asset>, n: nat, table: Table)
    requires n <= |rows|
  {
    (forall i | 0 <= i < n :: Lookup(table, rows[i].url) == Some(Outcome(web, rows[i]))) &&
    (forall i | n <= i < |rows| :: Lookup(table, rows[i].url) == Some(rows[i].status))
  }

  /** `to` extends `from` with fetched assets only. */
  ghost predicate GrownBy(web: Web, from: Table, to: Table) {
    SubMap(from, to) && forall u | u in to && u !in from :: to[u] == Ok && web.fetch(u).Some?
  }

  /** The run's own assets that have been fetched: each once, exactly those so far that were pending and
      had no input yet. */
  ghost predicate AttemptsStand(rows: seq<Asset>, n: nat, attempts: seq<Url>)
    requires n <= |rows|
  {
    NoDuplicates(attempts) &&
    forall u :: u in attempts <==> exists i | 0 <= i < n :: rows[i].url == u && rows[i].status.Pending? && !rows[i].hasInput
  }

  predicate DistinctRows(rows: seq<Asset>) {
    forall i, j | 0 <= i < j < |rows| :: rows[i].url != rows[j].url
  }

  lemma AttemptsNext(rows: seq<Asset>, n: nat, attempts: seq<Url>)
    requires DistinctRows(rows) && n < |rows| && AttemptsStand(rows, n, attempts)
    ensures AttemptsStand(rows, n + 1, if Skipped(rows[n]) then attempts else attempts + [rows[n].url])
  {
    if !Skipped(rows[n]) {
      AppendDistinct(attempts, rows[n].url);
    }
  }

  lemma RowsNext(web: Web, rows: seq<Asset>, n: nat, table: Table, grown: Table)
    requires DistinctRows(rows) && n < |rows| && RowsStand(web, rows, n, table)
    requires GrownBy(web, table[rows[n].url := Outcome(web, rows[n])], grown)
    ensures RowsStand(web, rows, n + 1, grown)
  {
    var set1 := table[rows[n].url := Outcome(web, rows[n])];
    forall i | 0 <= i < |rows| ensures Lookup(grown, rows[i].url) == Lookup(set1, rows[i].url) {
      assert rows[i].url in set1;
    }
  }

  lemma {:induction false} SeedingGrows(web: Web, table: Table, urls: seq<Url>, maxAssets: int)
    requires NoDuplicates(urls) && |urls| <= AtLeastZero(maxAssets - |table.Keys|)
    requires forall u | u in urls :: u !in table && web.fetch(u).Some?
    ensures GrownBy(web, table, SeedCaptured(table, urls))
    ensures |SeedCaptured(table, urls).Keys| <= Bound(table, maxAssets)
  {
    SeedingCount(table, urls, maxAssets);
  }

  /** What one search adds to the table. */
  lemma ModulesSeeded(web: Web, parent: Module, before: Table, tried: seq<Url>, modules: seq<Url>, maxAssets: int)
    requires SearchSound(web, parent, before.Keys, tried, modules) && |modules| <= AtLeastZero(maxAssets - |before.Keys|)
    ensures var table := SeedCaptured(before, modules);
      && GrownBy(web, before, table) && |table.Keys| <= Bound(before, maxAssets) && |table.Keys| == |before.Keys| + |modules|
      && (forall u :: u in table <==> u in before || u in modules)
      && NoDuplicates(modules)
  {
    SucceededMembers(web, tried, parent.1);
    forall u | u in modules ensures u !in before && web.fetch(u).Some? {
      SucceededMembers(web, tried, u);
    }
    SeedingGrows(web, before, modules, maxAssets);
    SeedingCount(before, modules, maxAssets);
  }

  lemma ChunksSeeded(web: Web, refs: seq<Option<Url>>, assetUrl: Url, before: Table, chunks: seq<Url>, maxAssets: int)
    requires ChunksSound(web, refs, assetUrl, before.Keys, chunks) && |chunks| <= AtLeastZero(maxAssets - |before.Keys|)
    ensures var table := SeedCaptured(before, chunks);
      && GrownBy(web, before, table) && |table.Keys| <= Bound(before, maxAssets) && |table.Keys| == |before.Keys| + |chunks|
      && (forall u :: u in table <==> u in before || u in chunks)
  {
    SeedingGrows(web, before, chunks, maxAssets);
    SeedingCount(before, chunks, maxAssets);
  }

  /** The table has grown by exactly the modules that can be reached. */
  ghost predicate ModulesFound(web: Web, parent: Module, before: Table, table: Table) {
    forall u :: u in table <==> u in before || Reachable(web, parent, before.Keys, u)
  }

  /** The table has grown by exactly the listed chunks that can be fetched. */
  ghost predicate ChunksFound(web: Web, refs: seq<Option<Url>>, before: Table, table: Table) {
    forall u :: u in table <==> u in before || (Some(u) in refs && web.fetch(u).Some?)
  }

  ghost predicate Holds(table: Table, urls: seq<Url>) {
    forall u | u in urls :: u in table
  }

  method SeedEsm(web: Web, js: Body, assetUrl: Url, before: Table, maxAssets: int, stop: nat -> bool)
    returns (table: Table, tried: seq<Url>, interrupted: bool, ghost asked: nat)
    ensures Within(tried, stop, asked) && (interrupted ==> stop(asked))
    ensures NoDuplicates(tried) && AllImported(web, (js, assetUrl), before.Keys, tried)
    ensures GrownBy(web, before, table) && |table.Keys| <= Bound(before, maxAssets)
    ensures !EsmCandidate(js) ==> table == before && tried == [] && !interrupted
    ensures Holds(table, Succeeded(web, tried))
    ensures EsmCandidate(js) && !interrupted && |table.Keys| < maxAssets && |tried| < maxAssets ==>
              ModulesFound(web, (js, assetUrl), before, table)
  {
    var modules, attempts, stopped;
    modules, attempts, stopped, asked := EnumerateEsm(web, js, assetUrl, before.Keys, maxAssets, stop);
    ModulesSeeded(web, (js, assetUrl), before, attempts, modules, maxAssets);
    return SeedCaptured(before, modules), attempts, stopped, asked;
  }

  method SeedWebpack(web: Web, js: Body, assetUrl: Url, before: Table, maxAssets: int, stop: nat -> bool)
    returns (table: Table, aborted: bool, interrupted: bool, ghost asked: nat)
    requires assetUrl in before
    ensures Unstopped(stop, asked) && (interrupted ==> stop(asked))
    ensures GrownBy(web, before, table) && |table.Keys| <= Bound(before, maxAssets)
    ensures !Contains(js, "webpack") ==> table == before && !aborted && !interrupted
    ensures aborted ==> None in web.chunks(js, assetUrl)
    ensures Contains(js, "webpack") && !aborted && !interrupted && |table.Keys| < maxAssets ==>
              ChunksFound(web, web.chunks(js, assetUrl), before, table)
  {
    var chunks, ended, stopped;
    chunks, ended, stopped, asked := EnumerateWebpack(web, js, assetUrl, before.Keys, maxAssets, stop);
    ChunksSeeded(web, web.chunks(js, assetUrl), assetUrl, before, chunks, maxAssets);
    return SeedCaptured(before, chunks), ended, stopped, asked;
  }

  lemma GrowthComposes(web: Web, a: Table, b: Table, c: Table, maxAssets: int)
    requires GrownBy(web, a, b) && GrownBy(web, b, c)
    requires |b.Keys| <= Bound(a, maxAssets) && |c.Keys| <= Bound(b, maxAssets)
    ensures GrownBy(web, a, c) && |c.Keys| <= Bound(a, maxAssets)
  {
  }

  /** Distinct URLs that a search from the module came across. */
  ghost predicate Attempted(web: Web, parent: Module, tried: seq<Url>) {
    NoDuplicates(tried) && exists rows: set<Url> :: AllImported(web, parent, rows, tried)
  }

  /** The two enumerations after an asset has been fetched; one of them has work to do. Whatever was
      fetched is kept, interrupted or not, and short of a ceiling nothing that can be found is
      missed. */
  method SeedFrom(web: Web, js: Body, assetUrl: Url, before: Table, maxAssets: int, stop: nat -> bool)
    returns (table: Table, tried: seq<Url>, aborted: bool, interrupted: bool, ghost asked: nat)
    requires assetUrl in before
    ensures Within(tried, stop, asked) && (interrupted ==> stop(asked))
    ensures Attempted(web, (js, assetUrl), tried)
    ensures GrownBy(web, before, table) && |table.Keys| <= Bound(before, maxAssets)
    ensures !Contains(js, "webpack") && !EsmCandidate(js) ==> table == before && !interrupted
    ensures Holds(table, Succeeded(web, tried)) && (aborted ==> None in web.chunks(js, assetUrl))
    ensures EsmCandidate(js) && !interrupted && |table.Keys| < maxAssets && |tried| < maxAssets ==>
              ModulesFound(web, (js, assetUrl), before, table)
    ensures Contains(js, "webpack") && !aborted && !interrupted && |table.Keys| < maxAssets ==>
              ChunksFound(web, web.chunks(js, assetUrl), before, table)
  {
    tried := [];
    assert AllImported(web, (js, assetUrl), {}, tried);
    var between;
    between, aborted, interrupted, asked := SeedWebpack(web, js, assetUrl, before, maxAssets, stop);
    table := between;
    if interrupted {
      return;
    }
    table, tried, interrupted, asked := SeedEsm(web, js, assetUrl, between, maxAssets, stop);
    GrowthComposes(web, before, between, table, maxAssets);
  }

  /** Everything an asset refers to that can be fetched is in the table. */
  ghost predicate Followed(web: Web, a: Asset, table: Table) {
    !Skipped(a) && web.fetch(a.url).Some? ==>
      var js := web.fetch(a.url).value;
      && (EsmCandidate(js) ==> forall u | Some(u) in web.imports(js, a.url) && web.fetch(u).Some? :: u in table)
      && (Contains(js, "webpack") && None !in web.chunks(js, a.url) ==>
            forall u | Some(u) in web.chunks(js, a.url) && web.fetch(u).Some? :: u in table)
  }

  lemma DirectImportIsReachable(web: Web, parent: Module, rows: set<Url>, u: Url)
    requires Some(u) in web.imports(parent.0, parent.1) && u !in rows && web.fetch(u).Some?
    ensures Reachable(web, parent, rows, u)
  {
    var path := [u];
    assert IsPath(web, parent, rows, path) && path[|path| - 1] == u;
  }

  lemma SeedsFollow(web: Web, a: Asset, before: Table, table: Table)
    requires web.fetch(a.url).Some?
    requires var js := web.fetch(a.url).value; EsmCandidate(js) ==> ModulesFound(web, (js, a.url), before, table)
    requires var js := web.fetch(a.url).value;
      Contains(js, "webpack") && None !in web.chunks(js, a.url) ==> ChunksFound(web, web.chunks(js, a.url), before, table)
    ensures Followed(web, a, table)
  {
    var js := web.fetch(a.url).value;
    if EsmCandidate(js) {
      forall u | Some(u) in web.imports(js, a.url) && web.fetch(u).Some? && u !in before ensures u in table {
        DirectImportIsReachable(web, (js, a.url), before.Keys, u);
      }
    }
  }

  lemma StillFollowed(web: Web, rows: seq<Asset>, n: nat, before: Table, table: Table)
    requires n <= |rows| && AllFollowed(web, rows, n, before) && before.Keys <= table.Keys
    ensures AllFollowed(web, rows, n, table)
  {
  }

  ghost predicate AllFollowed(web: Web, rows: seq<Asset>, n: nat, table: Table)
    requires n <= |rows|
  {
    forall i | 0 <= i < n :: Followed(web, rows[i], table)
  }

  /** The search from the asset's body made as many attempts as are allowed. */
  ghost predicate UsedUp(web: Web, a: Asset, tried: seq<Url>, maxAssets: int) {
    a.status.Pending? && !a.hasInput && web.fetch(a.url).Some? && |tried| >= maxAssets &&
    Attempted(web, (web.fetch(a.url).value, a.url), tried)
  }

  /** Someone asked to stop: before the row that was next to be fetched, or inside the enumeration after
      the last one that was. */
  ghost predicate StoppedAt(rows: seq<Asset>, processed: nat, stop: nat -> bool, stopInside: (nat, nat) -> bool)
    requires processed <= |rows|
  {
    || (processed < |rows| && rows[processed].status.Pending? && !rows[processed].hasInput && stop(processed))
    || (processed > 0 && rows[processed - 1].status.Pending? && !rows[processed - 1].hasInput &&
        StopsInside(stopInside, processed - 1))
  }

  ghost predicate StopsInside(stopInside: (nat, nat) -> bool, row: nat) {
    exists k: nat :: stopInside(row, k)
  }

  predicate Fetchable(a: Asset) {
    a.status.Pending? && !a.hasInput
  }

  /** The loop between two rows: what the table and the log of attempts say about the first `n`. */
  ghost predicate CrawlStands(web: Web, rows: seq<Asset>, n: nat, initial: Table, table: Table, attempts: seq<Url>,
                              capped: bool, maxAssets: int, enumerateChunks: bool, stop: nat -> bool)
    requires n <= |rows|
  {
    && initial.Keys <= table.Keys && (|table.Keys| <= maxAssets || table.Keys == initial.Keys)
    && RowsStand(web, rows, n, table) && AttemptsStand(rows, n, attempts)
    && (forall u | u in table && u !in initial :: table[u] == Ok && web.fetch(u).Some?)
    && (!enumerateChunks ==> table.Keys == initial.Keys && !capped)
    && (forall i | 0 <= i < n && Fetchable(rows[i]) :: !stop(i))
    && (capped ==> CapUsed(web, rows, n, maxAssets))
  }

  ghost predicate CapUsed(web: Web, rows: seq<Asset>, n: nat, maxAssets: int)
    requires n <= |rows|
  {
    exists i, tried :: 0 <= i < n && UsedUp(web, rows[i], tried, maxAssets)
  }

  lemma SkipStands(web: Web, rows: seq<Asset>, n: nat, initial: Table, table: Table, attempts: seq<Url>,
                   capped: bool, maxAssets: int, enumerateChunks: bool, stop: nat -> bool)
    requires DistinctRows(rows) && n < |rows| && !Fetchable(rows[n])
    requires CrawlStands(web, rows, n, initial, table, attempts, capped, maxAssets, enumerateChunks, stop)
    ensures CrawlStands(web, rows, n + 1, initial, table, attempts, capped, maxAssets, enumerateChunks, stop)
    ensures AllFollowed(web, rows, n, table) ==> AllFollowed(web, rows, n + 1, table)
  {
    AttemptsNext(rows, n, attempts);
    assert table[rows[n].url := Outcome(web, rows[n])] == table;
    RowsNext(web, rows, n, table, table);
  }

  /** One row that is fetched: its status is committed before anything is enumerated. */
  method FetchOne(web: Web, rows: seq<Asset>, n: nat, ghost initial: Table, table0: Table, attempts0: seq<Url>, capped0: bool,
                  maxAssets: int, enumerateChunks: bool, ghost stop: nat -> bool, stopInside: nat -> bool)
    returns (table: Table, attempts: seq<Url>, capped: bool, interrupted: bool)
    requires DistinctRows(rows) && n < |rows| && Fetchable(rows[n]) && !stop(n)
    requires CrawlStands(web, rows, n, initial, table0, attempts0, capped0, maxAssets, enumerateChunks, stop)
    ensures CrawlStands(web, rows, n + 1, initial, table, attempts, capped, maxAssets, enumerateChunks, stop)
    ensures capped0 ==> capped
    ensures |table.Keys| < maxAssets ==> |table0.Keys| < maxAssets
    ensures interrupted ==> exists k: nat :: stopInside(k)
    ensures enumerateChunks && !interrupted && !capped && |table.Keys| < maxAssets && AllFollowed(web, rows, n, table0) ==>
              AllFollowed(web, rows, n + 1, table)
  {
    var asset := rows[n];
    var body := web.fetch(asset.url);
    attempts := attempts0 + [asset.url];
    var fetched := table0[asset.url := if body.Some? then Ok else Failed];
    assert fetched.Keys == table0.Keys;
    table, capped, interrupted := fetched, capped0, false;
    if body.Some? && enumerateChunks {
      var tried, aborted;
      ghost var asked;
      table, tried, aborted, interrupted, asked := SeedFrom(web, body.value, asset.url, fetched, maxAssets, stopInside);
      assert |tried| >= maxAssets ==> UsedUp(web, asset, tried, maxAssets);
      capped := capped || |tried| >= maxAssets;
      SubsetSize(fetched.Keys, table.Keys);
      if !interrupted && !capped && |table.Keys| < maxAssets {
        SeedsFollow(web, asset, fetched, table);
        if AllFollowed(web, rows, n, table0) {
          StillFollowed(web, rows, n, table0, table);
        }
      }
    } else {
      assert AllFollowed(web, rows, n, table0) ==> AllFollowed(web, rows, n, table);
    }
    AttemptsNext(rows, n, attempts0);
    RowsNext(web, rows, n, table0, table);
  }

  lemma CrawlStarts(web: Web, rows: seq<Asset>, initial: Table, maxAssets: int, enumerateChunks: bool, stop: nat -> bool)
    requires forall i | 0 <= i < |rows| :: Lookup(initial, rows[i].url) == Some(rows[i].status)
    ensures CrawlStands(web, rows, 0, initial, initial, [], false, maxAssets, enumerateChunks, stop)
    ensures AllFollowed(web, rows, 0, initial)
  {
  }

  /** One row: skipped, or fetched unless someone asks to stop before it. */
  method CrawlRow(web: Web, rows: seq<Asset>, n: nat, ghost initial: Table, table0: Table, attempts0: seq<Url>, capped0: bool,
                  maxAssets: int, enumerateChunks: bool, stop: nat -> bool, stopInside: (nat, nat) -> bool)
    returns (table: Table, attempts: seq<Url>, capped: bool, handled: bool, interrupted: bool)
    requires DistinctRows(rows) && n < |rows|
    requires CrawlStands(web, rows, n, initial, table0, attempts0, capped0, maxAssets, enumerateChunks, stop)
    ensures !handled ==> table == table0 && attempts == attempts0 && capped == capped0 && interrupted
    ensures handled ==> CrawlStands(web, rows, n + 1, initial, table, attempts, capped, maxAssets, enumerateChunks, stop)
    ensures interrupted ==> StoppedAt(rows, if handled then n + 1 else n, stop, stopInside)
    ensures Complete(web, rows, n, table0, capped0, maxAssets) && handled && enumerateChunks && !interrupted ==>
              Complete(web, rows, n + 1, table, capped, maxAssets)
  {
    table, attempts, capped, handled, interrupted := table0, attempts0, capped0, true, false;
    if Skipped(rows[n]) {
      SkipStands(web, rows, n, initial, table, attempts, capped, maxAssets, enumerateChunks, stop);
      return;
    }
    if stop(n) {
      handled, interrupted := false, true;
      return;
    }
    table, attempts, capped, interrupted :=
      FetchOne(web, rows, n, initial, table0, attempts0, capped0, maxAssets, enumerateChunks, stop, (k: nat) => stopInside(n, k));
    if interrupted {
      assert StopsInside(stopInside, n + 1 - 1);
    }
  }

  /** Short of a ceiling, everything the first `n` rows refer to is in the table. */
  ghost predicate Complete(web: Web, rows: seq<Asset>, n: nat, table: Table, capped: bool, maxAssets: int)
    requires n <= |rows|
  {
    !capped && |table.Keys| < maxAssets ==> AllFollowed(web, rows, n, table)
  }

  /** `_fetch_assets`, each asset's status committed on its own. `attempts` logs which of the
      run's own assets were fetched, `capped` whether a search used up its attempts; `stop` is asked
      before each asset and inside each enumeration. */
  method FetchAssets(web: Web, rows: seq<Asset>, initial: Table, maxAssets: int, enumerateChunks: bool,
                     stop: nat -> bool, stopInside: (nat, nat) -> bool)
    returns (table: Table, attempts: seq<Url>, processed: nat, capped: bool, interrupted: bool)
    requires DistinctRows(rows)
    requires forall i | 0 <= i < |rows| :: Lookup(initial, rows[i].url) == Some(rows[i].status)
    ensures processed <= |rows| && (!interrupted ==> processed == |rows|)
    ensures CrawlStands(web, rows, processed, initial, table, attempts, capped, maxAssets, enumerateChunks, stop)
    ensures interrupted ==> StoppedAt(rows, processed, stop, stopInside)
    ensures enumerateChunks && !interrupted ==> Complete(web, rows, |rows|, table, capped, maxAssets)
  {
    table, attempts, processed, capped, interrupted := initial, [], 0, false, false;
    CrawlStarts(web, rows, initial, maxAssets, enumerateChunks, stop);
    while processed < |rows|
      invariant processed <= |rows| && !interrupted
      invariant CrawlStands(web, rows, processed, initial, table, attempts, capped, maxAssets, enumerateChunks, stop)
      invariant enumerateChunks ==> Complete(web, rows, processed, table, capped, maxAssets)
    {
      var handled;
      table, attempts, capped, handled, interrupted :=
        CrawlRow(web, rows, processed, initial, table, attempts, capped, maxAssets, enumerateChunks, stop, stopInside);
      if handled {
        processed := processed + 1;
      }
      if interrupted {
        return;
      }
    }
  }
}
