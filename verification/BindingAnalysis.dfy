/** The scope-safe pre-pass (findings/_base_env.py): which names are bound more than once
    anywhere in a file, and which bindings may therefore be folded at a sink. */
module BindingAnalysis {
  import opened Basics
  import opened ConstFold

  /** A binding or assignment target. `sole` says a parenthesised target has exactly one named
      child; a comment inside the parentheses is a second one. */
  datatype Pattern =
    | Leaf(name: string)
    | PairPattern(value: Pattern)
    | WithDefault(left: Pattern)
    | Group(children: seq<Pattern>)
    | ParenTarget(inner: Pattern, sole: bool)
    | NonBinding

  /** What a declarator is initialised with. Client instances and object literals are recorded
      elsewhere and never become foldable names. */
  datatype Init = NoInit | Static(e: Expr) | AxiosCreate | ObjectLiteral

  /** The nodes of a file in walk order. `Unlisted` stands for a construct that binds a name but
      whose node type the walk has no case for, such as a generator declaration or the name of a
      function expression. */
  datatype Site =
    | VariableDeclarator(target: Pattern, init: Init)
    | FunctionDeclaration(name: Pattern)
    | ClassDeclaration(name: Pattern)
    | ImportSpecifier(imported: Pattern, local: Option<Pattern>)
    | ImportClause(identifiers: seq<Pattern>)
    | CatchClause(parameter: Pattern)
    | ArrowFunction(parameter: Pattern)
    | FormalParameters(parameters: seq<Pattern>)
    | Assignment(left: Pattern)
    | AugmentedAssignment(left: Pattern)
    | Update(argument: Pattern)
    | ForIn(left: Pattern)
    | WithStatement
    | Unlisted(target: Pattern)
    | Inert

  // ---- what the marker counts ----------------------------------------------

  /** The binding leaves the marker finds in a target. */
  function Marked(p: Pattern): multiset<string> {
    match p
    case Leaf(name) => multiset{name}
    case PairPattern(value) => Marked(value)
    case WithDefault(left) => Marked(left)
    case Group(children) => MarkedIn(children)
    case ParenTarget(inner, sole) => if sole then Marked(inner) else multiset{}
    case NonBinding => multiset{}
  }

  function MarkedIn(ps: seq<Pattern>): multiset<string> {
    if ps == [] then multiset{} else Marked(ps[0]) + MarkedIn(ps[1..])
  }

  /** The names a target gives a value to when it runs. */
  function Bound(p: Pattern): multiset<string> {
    match p
    case Leaf(name) => multiset{name}
    case PairPattern(value) => Bound(value)
    case WithDefault(left) => Bound(left)
    case Group(children) => BoundIn(children)
    case ParenTarget(inner, _) => Bound(inner)
    case NonBinding => multiset{}
  }

  function BoundIn(ps: seq<Pattern>): multiset<string> {
    if ps == [] then multiset{} else Bound(ps[0]) + BoundIn(ps[1..])
  }

  /** Somewhere inside the pattern a parenthesis that is not the marker's kind holds a name. */
  predicate Hides(p: Pattern) {
    match p
    case PairPattern(value) => Hides(value)
    case WithDefault(left) => Hides(left)
    case Group(children) => exists c | c in children :: Hides(c)
    case ParenTarget(inner, sole) => if sole then Hides(inner) else Bound(inner) != multiset{}
    case _ => false
  }

  /** The marker never counts a name twice, and it misses one exactly when the pattern hides one. */
  lemma {:induction false} MarkerExact(p: Pattern)
    ensures Marked(p) <= Bound(p)
    ensures Marked(p) == Bound(p) <==> !Hides(p)
  {
    match p
    case PairPattern(value) => MarkerExact(value);
    case WithDefault(left) => MarkerExact(left);
    case ParenTarget(inner, _) => MarkerExact(inner);
    case Group(children) => MarkerExactIn(children);
    case _ =>
  }

  lemma {:induction false} MarkerExactIn(ps: seq<Pattern>)
    ensures MarkedIn(ps) <= BoundIn(ps)
    ensures MarkedIn(ps) == BoundIn(ps) <==> forall p | p in ps :: !Hides(p)
  {
    if ps != [] {
      MarkerExact(ps[0]);
      MarkerExactIn(ps[1..]);
      SumsAreEqualIff(Marked(ps[0]), Bound(ps[0]), MarkedIn(ps[1..]), BoundIn(ps[1..]));
      assert (forall p | p in ps :: !Hides(p)) <==> !Hides(ps[0]) && forall p | p in ps[1..] :: !Hides(p);
    }
  }

  lemma SumsAreEqualIff(a: multiset<string>, b: multiset<string>, c: multiset<string>, d: multiset<string>)
    requires a <= b && c <= d
    ensures a + c <= b + d
    ensures a + c == b + d <==> a == b && c == d
  {
    if a + c == b + d {
      forall n ensures a[n] == b[n] && c[n] == d[n] {
        assert (a + c)[n] == (b + d)[n];
      }
    }
  }

  /** A target with a commented parenthesis around a name, and what the marker makes of it. */
  lemma CommentedParenthesisEscapes(name: string)
    ensures var p := ParenTarget(Leaf(name), false); Bound(p)[name] == 1 && Marked(p) == multiset{}
  {
  }

  /** The targets of a site, in the order the walk marks them. */
  function Targets(site: Site): seq<Pattern> {
    match site
    case VariableDeclarator(target, _) => [target]
    case FunctionDeclaration(name) => [name]
    case ClassDeclaration(name) => [name]
    case ImportSpecifier(imported, local) => [if local.Some? then local.value else imported]
    case ImportClause(identifiers) => identifiers
    case CatchClause(parameter) => [parameter]
    case ArrowFunction(parameter) => [parameter]
    case FormalParameters(parameters) => parameters
    case Assignment(left) => [left]
    case AugmentedAssignment(left) => [left]
    case Update(argument) => [argument]
    case ForIn(left) => [left]
    case Unlisted(target) => [target]
    case WithStatement => []
    case Inert => []
  }

  /** What the walk counts at a site: an unlisted binder is not seen at all. */
  function MarkedAt(site: Site): multiset<string> {
    if site.Unlisted? then multiset{} else MarkedIn(Targets(site))
  }

  /** What running a site can give a value to, kind by kind: what it declares, imports, catches, takes
      as a parameter, assigns, updates or loops over. */
  function BoundAt(site: Site): multiset<string> {
    match site
    case VariableDeclarator(target, _) => Bound(target)
    case FunctionDeclaration(name) => Bound(name)
    case ClassDeclaration(name) => Bound(name)
    case ImportSpecifier(_, Some(alias)) => Bound(alias)
    case ImportSpecifier(imported, None) => Bound(imported)
    case ImportClause(identifiers) => BoundIn(identifiers)
    case CatchClause(parameter) => Bound(parameter)
    case ArrowFunction(parameter) => Bound(parameter)
    case FormalParameters(parameters) => BoundIn(parameters)
    case Assignment(left) => Bound(left)
    case AugmentedAssignment(left) => Bound(left)
    case Update(argument) => Bound(argument)
    case ForIn(left) => Bound(left)
    case Unlisted(target) => Bound(target)
    case WithStatement => multiset{}
    case Inert => multiset{}
  }

  lemma BoundSingle(p: Pattern)
    ensures BoundIn([p]) == Bound(p)
  {
    assert BoundIn([p]) == Bound(p) + BoundIn([]);
  }

  lemma {:induction false} OneTarget(site: Site, p: Pattern)
    requires Targets(site) == [p] && BoundAt(site) == Bound(p)
    ensures BoundAt(site) == BoundIn(Targets(site))
  {
    BoundSingle(p);
  }

  /** The one target of a site, if it always has exactly one. */
  function Sole(site: Site): Option<Pattern> {
    match site
    case VariableDeclarator(target, _) => Some(target)
    case FunctionDeclaration(name) => Some(name)
    case ClassDeclaration(name) => Some(name)
    case ImportSpecifier(imported, local) => if local.Some? then local else Some(imported)
    case CatchClause(parameter) => Some(parameter)
    case ArrowFunction(parameter) => Some(parameter)
    case Assignment(left) => Some(left)
    case AugmentedAssignment(left) => Some(left)
    case Update(argument) => Some(argument)
    case ForIn(left) => Some(left)
    case Unlisted(target) => Some(target)
    case _ => None
  }

  lemma {:induction false} SoleIsIt(site: Site)
    requires Sole(site).Some?
    ensures Targets(site) == [Sole(site).value] && BoundAt(site) == Bound(Sole(site).value)
  {
  }

  /** The walk's targets are what the site binds. */
  lemma {:induction false} TargetsAreBound(site: Site)
    ensures BoundAt(site) == BoundIn(Targets(site))
  {
    if Sole(site).Some? {
      SoleIsIt(site);
      OneTarget(site, Sole(site).value);
    }
  }

  /** At every kind of site the walk lists, it counts exactly what the site binds, if and only if no
      target of the site hides a name. */
  lemma {:induction false} ListedSitesAreExact(site: Site)
    requires !site.Unlisted?
    ensures MarkedAt(site) <= BoundAt(site)
    ensures MarkedAt(site) == BoundAt(site) <==> forall p | p in Targets(site) :: !Hides(p)
  {
    TargetsAreBound(site);
    MarkerExactIn(Targets(site));
  }

  function Occurrences(tree: seq<Site>): multiset<string> {
    if tree == [] then multiset{} else MarkedAt(tree[0]) + Occurrences(tree[1..])
  }

  /** The names the pass refuses to resolve. */
  ghost function Poisoned(tree: seq<Site>): set<string> {
    set n | n in Occurrences(tree) && Occurrences(tree)[n] > 1
  }

  lemma {:induction false} MarkedInConcat(a: seq<Pattern>, b: seq<Pattern>)
    ensures MarkedIn(a + b) == MarkedIn(a) + MarkedIn(b)
  {
    if a == [] {
      assert a + b == b;
    } else {
      assert (a + b)[1..] == a[1..] + b;
      MarkedInConcat(a[1..], b);
    }
  }

  lemma {:induction false} OccurrencesConcat(a: seq<Site>, b: seq<Site>)
    ensures Occurrences(a + b) == Occurrences(a) + Occurrences(b)
  {
    if a == [] {
      assert a + b == b;
    } else {
      assert (a + b)[1..] == a[1..] + b;
      OccurrencesConcat(a[1..], b);
    }
  }

  // ---- the counting pass ---------------------------------------------------

  /** The count dictionary read as a multiset: a missing key counts zero. */
  function CountOf(seen: map<string, nat>, name: string): nat {
    if name in seen then seen[name] else 0
  }

  ghost predicate CountsAre(seen: map<string, nat>, bag: multiset<string>) {
    forall n :: CountOf(seen, n) == bag[n]
  }

  function Weight(p: Pattern): nat {
    1 + match p
        case PairPattern(value) => Weight(value)
        case WithDefault(left) => Weight(left)
        case ParenTarget(inner, _) => Weight(inner)
        case Group(children) => TotalWeight(children)
        case _ => 0
  }

  function TotalWeight(ps: seq<Pattern>): nat {
    if ps == [] then 0 else Weight(ps[0]) + TotalWeight(ps[1..])
  }

  lemma {:induction false} TotalWeightConcat(a: seq<Pattern>, b: seq<Pattern>)
    ensures TotalWeight(a + b) == TotalWeight(a) + TotalWeight(b)
  {
    if a == [] {
      assert a + b == b;
    } else {
      assert (a + b)[1..] == a[1..] + b;
      TotalWeightConcat(a[1..], b);
    }
  }

  /** What handling one popped node puts back on the stack. */
  function Pushed(node: Pattern): seq<Pattern> {
    match node
    case PairPattern(value) => [value]
    case WithDefault(left) => [left]
    case Group(children) => children
    case ParenTarget(inner, sole) => if sole then [inner] else []
    case _ => []
  }

  /** What it counts itself. */
  function OwnLeaf(node: Pattern): multiset<string> {
    if node.Leaf? then multiset{node.name} else multiset{}
  }

  lemma Singleton(p: Pattern)
    ensures MarkedIn([p]) == Marked(p) && TotalWeight([p]) == Weight(p)
  {
    assert [p][1..] == [];
    assert MarkedIn([p]) == Marked(p) + MarkedIn([]);
  }

  lemma OwnAndPushed(node: Pattern)
    ensures Marked(node) == OwnLeaf(node) + MarkedIn(Pushed(node))
    ensures Weight(node) >= 1 + TotalWeight(Pushed(node))
  {
    match node
    case PairPattern(value) => Singleton(value);
    case WithDefault(left) => Singleton(left);
    case ParenTarget(inner, _) => Singleton(inner);
    case _ =>
  }

  lemma StackStep(rest: seq<Pattern>, node: Pattern)
    ensures MarkedIn(rest + [node]) == OwnLeaf(node) + MarkedIn(rest + Pushed(node))
    ensures TotalWeight(rest + Pushed(node)) < TotalWeight(rest + [node])
  {
    MarkedInConcat(rest, [node]);
    MarkedInConcat(rest, Pushed(node));
    TotalWeightConcat(rest, [node]);
    TotalWeightConcat(rest, Pushed(node));
    Singleton(node);
    OwnAndPushed(node);
  }

  /** The counts so far, and what is still on the stack, make up the whole. */
  ghost predicate Halfway(counted: map<string, nat>, stack: seq<Pattern>, whole: multiset<string>) {
    forall n :: CountOf(counted, n) + MarkedIn(stack)[n] == whole[n]
  }

  function Counted(counted: map<string, nat>, node: Pattern): map<string, nat> {
    if node.Leaf? then counted[node.name := CountOf(counted, node.name) + 1] else counted
  }

  lemma MarkStarts(seen: map<string, nat>, bag: multiset<string>, candidate: Pattern)
    requires CountsAre(seen, bag)
    ensures Halfway(seen, [candidate], bag + Marked(candidate))
  {
    Singleton(candidate);
  }

  lemma MarkStep(counted: map<string, nat>, rest: seq<Pattern>, node: Pattern, whole: multiset<string>)
    requires Halfway(counted, rest + [node], whole)
    ensures Halfway(Counted(counted, node), rest + Pushed(node), whole)
    ensures TotalWeight(rest + Pushed(node)) < TotalWeight(rest + [node])
  {
    StackStep(rest, node);
    var left := MarkedIn(rest + Pushed(node));
    forall n ensures CountOf(Counted(counted, node), n) + left[n] == whole[n] {
      assert MarkedIn(rest + [node])[n] == OwnLeaf(node)[n] + left[n];
    }
  }

  /** One popped node: a leaf is counted, anything else puts what it holds back on the stack. */
  method Visit(node: Pattern, seen: map<string, nat>, rest: seq<Pattern>)
    returns (counted: map<string, nat>, stack: seq<Pattern>)
    ensures counted == Counted(seen, node) && stack == rest + Pushed(node)
  {
    counted, stack := seen, rest;
    match node {
      case Leaf(name) =>
        counted := counted[name := CountOf(counted, name) + 1];
      case PairPattern(value) =>
        stack := stack + [value];
      case WithDefault(left) =>
        stack := stack + [left];
      case Group(children) =>
        stack := stack + children;
      case ParenTarget(inner, sole) =>
        if sole {
          stack := stack + [inner];
        }
      case NonBinding =>
    }
  }

  /** Counts every binding leaf of `candidate`, descending with an explicit stack. */
  method Mark(candidate: Pattern, seen: map<string, nat>, ghost bag: multiset<string>)
    returns (counted: map<string, nat>)
    requires CountsAre(seen, bag)
    ensures CountsAre(counted, bag + Marked(candidate))
  {
    ghost var whole := bag + Marked(candidate);
    counted := seen;
    var stack := [candidate];
    MarkStarts(seen, bag, candidate);
    while stack != []
      invariant Halfway(counted, stack, whole)
      decreases TotalWeight(stack)
    {
      var node, rest := stack[|stack| - 1], stack[..|stack| - 1];
      assert stack == rest + [node];
      MarkStep(counted, rest, node, whole);
      counted, stack := Visit(node, counted, rest);
    }
    MarkEnds(counted, whole);
  }

  lemma MarkEnds(counted: map<string, nat>, whole: multiset<string>)
    requires Halfway(counted, [], whole)
    ensures CountsAre(counted, whole)
  {
  }

  lemma OccurrencesNext(tree: seq<Site>, i: nat)
    requires i < |tree|
    ensures Occurrences(tree[..i + 1]) == Occurrences(tree[..i]) + MarkedAt(tree[i])
  {
    assert tree[..i + 1] == tree[..i] + [tree[i]];
    OccurrencesConcat(tree[..i], [tree[i]]);
    assert Occurrences([tree[i]]) == MarkedAt(tree[i]) + Occurrences([]);
  }

  lemma MarkedInNext(ps: seq<Pattern>, j: nat)
    requires j < |ps|
    ensures MarkedIn(ps[..j + 1]) == MarkedIn(ps[..j]) + Marked(ps[j])
  {
    assert ps[..j + 1] == ps[..j] + [ps[j]];
    MarkedInConcat(ps[..j], [ps[j]]);
    assert MarkedIn([ps[j]]) == Marked(ps[j]) + MarkedIn([]);
  }

  method MarkAll(targets: seq<Pattern>, seen: map<string, nat>, ghost bag: multiset<string>)
    returns (counted: map<string, nat>)
    requires CountsAre(seen, bag)
    ensures CountsAre(counted, bag + MarkedIn(targets))
  {
    counted := seen;
    for j := 0 to |targets|
      invariant CountsAre(counted, bag + MarkedIn(targets[..j]))
    {
      MarkedInNext(targets, j);
      counted := Mark(targets[j], counted, bag + MarkedIn(targets[..j]));
      assert bag + MarkedIn(targets[..j]) + Marked(targets[j]) == bag + MarkedIn(targets[..j + 1]);
    }
    assert targets[..|targets|] == targets;
  }

  method DeclaredNames(tree: seq<Site>) returns (poisoned: set<string>)
    ensures poisoned == Poisoned(tree)
  {
    var seen: map<string, nat> := map[];
    for i := 0 to |tree|
      invariant CountsAre(seen, Occurrences(tree[..i]))
    {
      OccurrencesNext(tree, i);
      if !tree[i].Unlisted? {
        seen := MarkAll(Targets(tree[i]), seen, Occurrences(tree[..i]));
      }
    }
    assert tree[..|tree|] == tree;
    poisoned := set n | n in seen && seen[n] > 1;
    PoisonedByCount(tree, seen);
  }

  lemma PoisonedByCount(tree: seq<Site>, seen: map<string, nat>)
    requires CountsAre(seen, Occurrences(tree))
    ensures (set n | n in seen && seen[n] > 1) == Poisoned(tree)
  {
    forall n ensures (n in seen && seen[n] > 1) <==> n in Poisoned(tree) {
      assert CountOf(seen, n) == Occurrences(tree)[n];
    }
  }

  // ---- the foldable bindings -----------------------------------------------

  /** The site is a declarator that offers `name` for folding. */
  predicate Offers(site: Site, name: string) {
    site.VariableDeclarator? && site.target == Leaf(name) && site.init.Static?
  }

  predicate HasWith(tree: seq<Site>) {
    exists i | 0 <= i < |tree| :: tree[i].WithStatement?
  }

  /** `raw` holds the bindings offered by the first declarator of each unpoisoned name. */
  ghost predicate CollectsFrom(tree: seq<Site>, poisoned: set<string>, raw: map<string, Expr>) {
    (forall i, n | 0 <= i < |tree| && n !in poisoned && Offers(tree[i], n) :: n in raw) &&
    (forall n | n in raw ::
      n !in poisoned && exists i | 0 <= i < |tree| :: Offers(tree[i], n) && tree[i].init.e == raw[n])
  }

  /** The table a sink looks names up in: dropped altogether when the file has a `with`. */
  method CollectBaseEnv(tree: seq<Site>) returns (raw: map<string, Expr>, constPrefixes: map<string, string>)
    ensures CollectsFrom(tree, Poisoned(tree), raw)
    ensures constPrefixes == if HasWith(tree) then map[] else Lfp(raw)
  {
    var poisoned := DeclaredNames(tree);
    var hasWith := false;
    var order: seq<string> := [];
    raw := map[];
    for i := 0 to |tree|
      invariant hasWith <==> HasWith(tree[..i])
      invariant CollectsFrom(tree[..i], poisoned, raw)
      invariant Elements(order) == raw.Keys
    {
      var site := tree[i];
      assert tree[..i + 1][i] == site;
      assert tree[..i + 1][..i] == tree[..i];
      ghost var before := raw;
      if site.WithStatement? {
        hasWith := true;
      } else if site.VariableDeclarator? && site.target.Leaf? && !site.init.NoInit? {
        var name := site.target.name;
        if name !in poisoned && site.init.Static? && name !in raw {
          raw := raw[name := site.init.e];
          order := order + [name];
          assert Offers(tree[..i + 1][i], name);
        }
      }
      CollectNext(tree, i, poisoned, before, raw);
    }
    assert tree[..|tree|] == tree;
    if hasWith {
      constPrefixes := map[];
    } else {
      constPrefixes := ResolveLocalConsts(raw, order);
    }
  }

  lemma CollectNext(tree: seq<Site>, i: nat, poisoned: set<string>, before: map<string, Expr>, after: map<string, Expr>)
    requires i < |tree| && CollectsFrom(tree[..i], poisoned, before)
    requires var site := tree[i];
      after == if site.VariableDeclarator? && site.target.Leaf? && site.init.Static?
                  && site.target.name !in poisoned && site.target.name !in before
               then before[site.target.name := site.init.e] else before
    ensures CollectsFrom(tree[..i + 1], poisoned, after)
  {
    var longer := tree[..i + 1];
    forall n | n in after
      ensures n !in poisoned && exists j | 0 <= j < |longer| :: Offers(longer[j], n) && longer[j].init.e == after[n]
    {
      if n in before {
        var j :| 0 <= j < i && Offers(tree[..i][j], n) && tree[..i][j].init.e == before[n];
        assert Offers(longer[j], n) && longer[j].init.e == after[n];
      } else {
        assert Offers(longer[i], n) && longer[i].init.e == after[n];
      }
    }
    forall j, n | 0 <= j < |longer| && n !in poisoned && Offers(longer[j], n) ensures n in after {
      if j < i {
        assert Offers(tree[..i][j], n);
      }
    }
  }

  /** A foldable name is counted at its own declarator and at no other site. */
  lemma FoldableNameIsBoundOnce(tree: seq<Site>, raw: map<string, Expr>, n: string, i: nat)
    requires CollectsFrom(tree, Poisoned(tree), raw) && n in raw
    requires i < |tree| && n in MarkedAt(tree[i])
    ensures Offers(tree[i], n) && tree[i].init.e == raw[n]
  {
    var d :| 0 <= d < |tree| && Offers(tree[d], n) && tree[d].init.e == raw[n];
    assert MarkedIn([tree[d].target]) == Marked(tree[d].target) + MarkedIn([]);
    assert n in MarkedAt(tree[d]);
    if d != i {
      TwoSitesPoison(tree, n, if d < i then d else i, if d < i then i else d);
    }
  }

  lemma TwoSitesPoison(tree: seq<Site>, n: string, i: nat, j: nat)
    requires i < j < |tree| && n in MarkedAt(tree[i]) && n in MarkedAt(tree[j])
    ensures n in Poisoned(tree)
  {
    assert tree == tree[..i] + ([tree[i]] + (tree[i + 1..j] + ([tree[j]] + tree[j + 1..])));
    OccurrencesConcat(tree[..i], [tree[i]] + (tree[i + 1..j] + ([tree[j]] + tree[j + 1..])));
    OccurrencesConcat([tree[i]], tree[i + 1..j] + ([tree[j]] + tree[j + 1..]));
    OccurrencesConcat(tree[i + 1..j], [tree[j]] + tree[j + 1..]);
    OccurrencesConcat([tree[j]], tree[j + 1..]);
    assert Occurrences([tree[i]])[n] >= 1 && Occurrences([tree[j]])[n] >= 1;
  }

  /** The site gives the bare name a value, by a field of its own. */
  predicate WritesName(site: Site, n: string) {
    || site in {FunctionDeclaration(Leaf(n)), ClassDeclaration(Leaf(n)), CatchClause(Leaf(n)), ArrowFunction(Leaf(n))}
    || site in {Assignment(Leaf(n)), AugmentedAssignment(Leaf(n)), Update(Leaf(n)), ForIn(Leaf(n))}
    || (site.VariableDeclarator? && site.target == Leaf(n))
    || (site.ImportSpecifier? && (site.local == Some(Leaf(n)) || (site.local.None? && site.imported == Leaf(n))))
    || (site.ImportClause? && Leaf(n) in site.identifiers)
    || (site.FormalParameters? && Leaf(n) in site.parameters)
  }

  lemma {:induction false} LeafIsMarked(ps: seq<Pattern>, n: string)
    requires Leaf(n) in ps
    ensures n in MarkedIn(ps)
  {
    if ps[0] != Leaf(n) {
      LeafIsMarked(ps[1..], n);
    }
  }

  lemma WrittenIsMarked(site: Site, n: string)
    requires WritesName(site, n)
    ensures n in MarkedAt(site)
  {
    LeafIsMarked(Targets(site), n);
  }

  /** A declared name that any other site writes, of whatever listed kind, is refused. */
  lemma SecondWriteRefuses(tree: seq<Site>, n: string, i: nat, j: nat)
    requires i < j < |tree| && WritesName(tree[i], n) && WritesName(tree[j], n)
    ensures n in Poisoned(tree)
  {
    WrittenIsMarked(tree[i], n);
    WrittenIsMarked(tree[j], n);
    TwoSitesPoison(tree, n, i, j);
  }

  /** `let u = "/a"; u += "/b"` refuses `u`. */
  lemma CompoundAssignmentRefuses(n: string, init: Init)
    ensures n in Poisoned([VariableDeclarator(Leaf(n), init), AugmentedAssignment(Leaf(n))])
  {
    SecondWriteRefuses([VariableDeclarator(Leaf(n), init), AugmentedAssignment(Leaf(n))], n, 0, 1);
  }
}
