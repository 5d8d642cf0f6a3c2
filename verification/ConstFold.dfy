/** Resolution of local string constants (findings/_dataflow.py).

    A binding's value is resolved by recursion through other bindings, with a memo table,
    a set of names being resolved (the cycle guard) and a depth cap that restarts at 0 for
    every name. `Lfp` is the meaning the recursion is proved to compute. */
module ConstFold {
  import opened Basics

  const MAX_RESOLVE_DEPTH: nat := 40
  const MAX_URL_SPAN: nat := 8192

  /** One piece of a template literal. `Sub` substitutes one identifier, `Complex` anything
      else; `code` is the text between `${` and `}`. */
  datatype Part = Lit(text: string) | Sub(name: string, code: string) | Complex(code: string)

  /** The expressions the folder can look into; every other node is `Other`. `sole` says the
      parenthesised node has exactly one named child, `span` is the node's byte length. */
  datatype Expr =
    | Str(text: string)
    | Template(parts: seq<Part>, span: nat)
    | Ident(name: string)
    | Paren(inner: Expr, sole: bool)
    | Plus(left: Expr, right: Expr)
    | Other

  function EvalParts(parts: seq<Part>, env: map<string, string>): Option<string> {
    if parts == [] then Some("")
    else
      var head := match parts[0]
        case Lit(text) => Some(text)
        case Sub(name, _) => Lookup(env, name)
        case Complex(_) => None;
      if head.None? then None else
      var rest := EvalParts(parts[1..], env);
      if rest.None? then None else Some(head.value + rest.value)
  }

  /** The value of `e` when the names in `env` are known and no others are. */
  function Eval(e: Expr, env: map<string, string>, depth: nat): Option<string> {
    if depth > MAX_RESOLVE_DEPTH then None
    else match e
      case Str(text) => Some(text)
      case Template(parts, span) => if span > MAX_URL_SPAN then None else EvalParts(parts, env)
      case Ident(name) => Lookup(env, name)
      case Paren(inner, sole) => if sole then Eval(inner, env, depth + 1) else None
      case Plus(left, right) =>
        var l := Eval(left, env, depth + 1);
        if l.None? then None else
        var r := Eval(right, env, depth + 1);
        if r.None? then None else Some(l.value + r.value)
      case Other => None
  }

  /** What is known after `k` rounds of resolving every binding from the round before. */
  ghost function Iter(raw: map<string, Expr>, k: nat): map<string, string> {
    if k == 0 then map[]
    else
      var known := Iter(raw, k - 1);
      map n | n in raw && Eval(raw[n], known, 0).Some? :: Eval(raw[n], known, 0).value
  }

  /** The least solution of the bindings: exactly the names with a finite derivation. */
  ghost function Lfp(raw: map<string, Expr>): map<string, string> {
    Iter(raw, |raw|)
  }

  lemma {:induction false} EvalPartsMono(parts: seq<Part>, p: map<string, string>, q: map<string, string>)
    requires SubMap(p, q)
    ensures EvalParts(parts, p).Some? ==> EvalParts(parts, q) == EvalParts(parts, p)
  {
    if parts != [] {
      EvalPartsMono(parts[1..], p, q);
    }
  }

  /** Knowing more names never changes a value already found. */
  lemma {:induction false} EvalMono(e: Expr, p: map<string, string>, q: map<string, string>, depth: nat)
    requires SubMap(p, q)
    ensures Eval(e, p, depth).Some? ==> Eval(e, q, depth) == Eval(e, p, depth)
  {
    match e
    case Template(parts, _) => EvalPartsMono(parts, p, q);
    case Paren(inner, _) => EvalMono(inner, p, q, depth + 1);
    case Plus(left, right) =>
      EvalMono(left, p, q, depth + 1);
      EvalMono(right, p, q, depth + 1);
    case _ =>
  }

  lemma {:induction false} IterMono(raw: map<string, Expr>, k: nat)
    ensures SubMap(Iter(raw, k), Iter(raw, k + 1))
  {
    if k > 0 {
      IterMono(raw, k - 1);
      forall n | n in Iter(raw, k) ensures n in Iter(raw, k + 1) && Iter(raw, k + 1)[n] == Iter(raw, k)[n] {
        EvalMono(raw[n], Iter(raw, k - 1), Iter(raw, k), 0);
      }
    }
  }

  lemma {:induction false} IterMonoBetween(raw: map<string, Expr>, j: nat, k: nat)
    requires j <= k
    ensures SubMap(Iter(raw, j), Iter(raw, k))
    decreases k - j
  {
    if j < k {
      IterMono(raw, j);
      IterMonoBetween(raw, j + 1, k);
    }
  }

  lemma IterWithinRaw(raw: map<string, Expr>, k: nat)
    ensures Iter(raw, k).Keys <= raw.Keys
  {
  }

  lemma SubMapSameKeys<K(!new), V>(p: map<K, V>, q: map<K, V>)
    requires SubMap(p, q) && q.Keys <= p.Keys
    ensures p == q
  {
  }

  lemma {:induction false} Growth(raw: map<string, Expr>, k: nat)
    ensures |Iter(raw, k)| >= k || Iter(raw, k) == Iter(raw, k + 1)
  {
    if k > 0 {
      Growth(raw, k - 1);
      var before, now := Iter(raw, k - 1), Iter(raw, k);
      if before != now {
        IterMono(raw, k - 1);
        assert before.Keys <= now.Keys;
        SubsetSize(before.Keys, now.Keys);
        if |before.Keys| == |now.Keys| {
          SubMapSameKeys(before, now);
        }
        assert |before| == |before.Keys| && |now| == |now.Keys|;
      }
    }
  }

  /** `Lfp` solves the bindings: a name has a value iff its own expression evaluates to it. */
  lemma LfpIsFixpoint(raw: map<string, Expr>)
    ensures Iter(raw, |raw| + 1) == Lfp(raw)
    ensures forall n | n in raw :: Lookup(Lfp(raw), n) == Eval(raw[n], Lfp(raw), 0)
    ensures Lfp(raw).Keys <= raw.Keys
  {
    var k := |raw|;
    Growth(raw, k);
    IterMono(raw, k);
    IterWithinRaw(raw, k);
    IterWithinRaw(raw, k + 1);
    if Iter(raw, k) != Iter(raw, k + 1) {
      assert |Iter(raw, k)| == |Iter(raw, k).Keys| && |raw| == |raw.Keys|;
      SubsetSize(Iter(raw, k).Keys, raw.Keys);
      SubMapSameKeys(Iter(raw, k), Iter(raw, k + 1));
    }
  }

  lemma {:induction false} IterBelowLfp(raw: map<string, Expr>, k: nat)
    ensures SubMap(Iter(raw, k), Lfp(raw))
  {
    if k <= |raw| {
      IterMonoBetween(raw, k, |raw|);
    } else {
      IterBelowLfp(raw, k - 1);
      LfpIsFixpoint(raw);
      forall n | n in Iter(raw, k) ensures n in Lfp(raw) && Lfp(raw)[n] == Iter(raw, k)[n] {
        EvalMono(raw[n], Iter(raw, k - 1), Lfp(raw), 0);
      }
    }
  }

  /** `Lfp` is the least: any table closed under evaluating the bindings contains it. */
  lemma LfpIsLeast(raw: map<string, Expr>, table: map<string, string>)
    requires forall n | n in raw && Eval(raw[n], table, 0).Some? :: Lookup(table, n) == Eval(raw[n], table, 0)
    ensures SubMap(Lfp(raw), table)
  {
    IterBelowTable(raw, table, |raw|);
  }

  lemma {:induction false} IterBelowTable(raw: map<string, Expr>, table: map<string, string>, k: nat)
    requires forall n | n in raw && Eval(raw[n], table, 0).Some? :: Lookup(table, n) == Eval(raw[n], table, 0)
    ensures SubMap(Iter(raw, k), table)
  {
    if k > 0 {
      IterBelowTable(raw, table, k - 1);
      forall n | n in Iter(raw, k) ensures n in table && table[n] == Iter(raw, k)[n] {
        EvalMono(raw[n], Iter(raw, k - 1), table, 0);
      }
    }
  }

  // ---- which names resolve -------------------------------------------------

  function PartRefs(parts: seq<Part>): set<string> {
    set p | p in parts && p.Sub? :: p.name
  }

  /** Every name an expression reads. */
  function Refs(e: Expr): set<string> {
    match e
    case Template(parts, _) => PartRefs(parts)
    case Ident(name) => {name}
    case Paren(inner, _) => Refs(inner)
    case Plus(left, right) => Refs(left) + Refs(right)
    case _ => {}
  }

  /** The expression has a value as soon as all the names it reads have one. */
  predicate Foldable(e: Expr, depth: nat) {
    depth <= MAX_RESOLVE_DEPTH &&
    match e
    case Str(_) => true
    case Template(parts, span) => span <= MAX_URL_SPAN && forall p | p in parts :: !p.Complex?
    case Ident(_) => true
    case Paren(inner, sole) => sole && Foldable(inner, depth + 1)
    case Plus(left, right) => Foldable(left, depth + 1) && Foldable(right, depth + 1)
    case Other => false
  }

  /** An expression in `k` single parentheses. */
  function Nested(e: Expr, k: nat): Expr {
    if k == 0 then e else Paren(Nested(e, k - 1), true)
  }

  /** Nesting is followed forty deep and no further, and a template up to 8192 bytes. */
  lemma {:induction false} DeepestNesting(k: nat, text: string, depth: nat, span: nat)
    ensures Foldable(Nested(Str(text), k), depth) <==> depth + k <= 40
    ensures k == 0 ==> (Foldable(Template([], span), 0) <==> span <= 8192)
  {
    if k > 0 {
      DeepestNesting(k - 1, text, depth + 1, span);
    }
  }

  lemma {:induction false} PartsValueIff(parts: seq<Part>, env: map<string, string>)
    ensures EvalParts(parts, env).Some? <==> (forall p | p in parts :: !p.Complex?) && PartRefs(parts) <= env.Keys
  {
    if parts != [] {
      PartsValueIff(parts[1..], env);
      assert parts == [parts[0]] + parts[1..];
      assert PartRefs(parts) == PartRefs([parts[0]]) + PartRefs(parts[1..]);
      assert parts[0].Sub? ==> parts[0].name in PartRefs([parts[0]]);
    }
  }

  lemma {:induction false} ValueIff(e: Expr, env: map<string, string>, depth: nat)
    ensures Eval(e, env, depth).Some? <==> Foldable(e, depth) && Refs(e) <= env.Keys
  {
    match e
    case Template(parts, _) => PartsValueIff(parts, env);
    case Paren(inner, _) => ValueIff(inner, env, depth + 1);
    case Plus(left, right) =>
      ValueIff(left, env, depth + 1);
      ValueIff(right, env, depth + 1);
    case _ =>
  }

  /** The round in which a resolved name first appears. */
  ghost function Rank(raw: map<string, Expr>, n: string): (r: nat)
    requires n in Lfp(raw)
    ensures r > 0 && n in Iter(raw, r) && n !in Iter(raw, r - 1)
  {
    RankFrom(raw, n, |raw|)
  }

  ghost function RankFrom(raw: map<string, Expr>, n: string, k: nat): (r: nat)
    requires n in Iter(raw, k)
    ensures 0 < r <= k && n in Iter(raw, r) && n !in Iter(raw, r - 1)
  {
    if n in Iter(raw, k - 1) then RankFrom(raw, n, k - 1) else k
  }

  /** A resolved name only reads names resolved strictly earlier. */
  lemma RankDecreases(raw: map<string, Expr>, n: string, m: string)
    requires n in Lfp(raw) && m in Refs(raw[n])
    ensures m in Lfp(raw) && Rank(raw, m) < Rank(raw, n)
  {
    var r := Rank(raw, n);
    ValueIff(raw[n], Iter(raw, r - 1), 0);
    IterBelowLfp(raw, r - 1);
    if Rank(raw, m) >= r {
      IterMonoBetween(raw, r - 1, Rank(raw, m) - 1);
    }
  }

  /** `names` is closed under what its bindings read, and reading goes down in `rank`. */
  ghost predicate WellFounded(raw: map<string, Expr>, names: set<string>, rank: map<string, nat>) {
    names <= rank.Keys &&
    forall n | n in names ::
      n in raw && Foldable(raw[n], 0) && forall m | m in Refs(raw[n]) :: m in names && rank[m] < rank[n]
  }

  lemma {:induction false} WellFoundedRound(raw: map<string, Expr>, names: set<string>, rank: map<string, nat>, n: string)
    requires WellFounded(raw, names, rank) && n in names
    ensures n in Iter(raw, rank[n] + 1)
    decreases rank[n]
  {
    var k := rank[n];
    forall m | m in Refs(raw[n]) ensures m in Iter(raw, k) {
      WellFoundedRound(raw, names, rank, m);
      IterMonoBetween(raw, rank[m] + 1, k);
    }
    ValueIff(raw[n], Iter(raw, k), 0);
  }

  /** A name resolves exactly when reading from it is well founded through foldable bindings. */
  lemma ResolvesIffWellFounded(raw: map<string, Expr>, n: string)
    ensures n in Lfp(raw) <==> exists names, rank :: WellFounded(raw, names, rank) && n in names
  {
    if n in Lfp(raw) {
      var names := Lfp(raw).Keys;
      var rank := map x | x in Lfp(raw) :: Rank(raw, x);
      LfpIsFixpoint(raw);
      forall x | x in names
        ensures x in raw && Foldable(raw[x], 0) && forall m | m in Refs(raw[x]) :: m in names && rank[m] < rank[x]
      {
        ValueIff(raw[x], Lfp(raw), 0);
        forall m | m in Refs(raw[x]) ensures m in names && rank[m] < rank[x] {
          RankDecreases(raw, x, m);
        }
      }
      assert WellFounded(raw, names, rank);
    }
    forall names, rank | WellFounded(raw, names, rank) && n in names ensures n in Lfp(raw) {
      WellFoundedRound(raw, names, rank, n);
      IterBelowLfp(raw, rank[n] + 1);
    }
  }

  /** A chain of bindings, each of them the next name, resolves at any length: the depth cap
      bounds the nesting of one expression, never the number of bindings. */
  lemma {:induction false} ChainResolves(raw: map<string, Expr>, names: seq<string>, value: string, i: nat)
    requires i < |names| && forall j | 0 <= j < |names| :: names[j] in raw
    requires raw[names[0]] == Str(value)
    requires forall j | 0 < j < |names| :: raw[names[j]] == Ident(names[j - 1])
    ensures Lookup(Lfp(raw), names[i]) == Some(value)
  {
    LfpIsFixpoint(raw);
    assert names[i] in raw;
    if i > 0 {
      ChainResolves(raw, names, value, i - 1);
    }
  }

  /** The bindings of such a chain. */
  function Chained(names: seq<string>, value: string): map<string, Expr> {
    if names == [] then map[]
    else
      var last := |names| - 1;
      Chained(names[..last], value)[names[last] := if last == 0 then Str(value) else Ident(names[last - 1])]
  }

  lemma {:induction false} ChainedAt(names: seq<string>, value: string, j: nat)
    requires (forall a, b | 0 <= a < b < |names| :: names[a] != names[b]) && j < |names|
    ensures names[j] in Chained(names, value)
    ensures Chained(names, value)[names[j]] == if j == 0 then Str(value) else Ident(names[j - 1])
  {
    if j < |names| - 1 {
      ChainedAt(names[..|names| - 1], value, j);
    }
  }

  /** Distinct names chained to a string all have that string, however many there are. */
  lemma ChainOfAnyLengthResolves(names: seq<string>, value: string, i: nat)
    requires (forall a, b | 0 <= a < b < |names| :: names[a] != names[b]) && i < |names|
    ensures Lookup(Lfp(Chained(names, value)), names[i]) == Some(value)
  {
    forall j | 0 <= j < |names|
      ensures names[j] in Chained(names, value)
      ensures Chained(names, value)[names[j]] == if j == 0 then Str(value) else Ident(names[j - 1])
    {
      ChainedAt(names, value, j);
    }
    ChainedAt(names, value, 0);
    ChainResolves(Chained(names, value), names, value, i);
  }

  /** No name of a set in which every binding reads another member can resolve. */
  lemma {:induction false} SelfSupportingNeverResolves(raw: map<string, Expr>, names: set<string>, k: nat)
    requires forall n | n in names && n in raw :: Refs(raw[n]) * names != {}
    ensures names !! Iter(raw, k).Keys
  {
    if k > 0 {
      SelfSupportingNeverResolves(raw, names, k - 1);
      forall n | n in names && n in raw ensures n !in Iter(raw, k) {
        ValueIff(raw[n], Iter(raw, k - 1), 0);
        var m :| m in Refs(raw[n]) * names;
      }
    }
  }

  /** A name whose reads lead, in any number of steps, back to a name already passed does not resolve. */
  lemma CycleNeverResolves(raw: map<string, Expr>, path: seq<string>, back: nat)
    requires back < |path|
    requires forall i | 0 <= i < |path| - 1 && path[i] in raw :: path[i + 1] in Refs(raw[path[i]])
    requires path[|path| - 1] in raw ==> path[back] in Refs(raw[path[|path| - 1]])
    ensures path[0] !in Lfp(raw)
  {
    var names := Elements(path);
    forall n | n in names && n in raw ensures Refs(raw[n]) * names != {} {
      var i :| 0 <= i < |path| && path[i] == n;
      var m := if i == |path| - 1 then path[back] else path[i + 1];
      assert m in Refs(raw[n]) * names;
    }
    SelfSupportingNeverResolves(raw, names, |raw|);
  }

  /** `text` in front of what is still to come, if that has a value. */
  function Prepend(text: string, rest: Option<string>): Option<string> {
    if rest.None? then None else Some(text + rest.value)
  }

  lemma PrependStep(text: string, chunk: string, rest: Option<string>)
    ensures Prepend(text, Prepend(chunk, rest)) == Prepend(text + chunk, rest)
  {
    if rest.Some? {
      assert text + (chunk + rest.value) == (text + chunk) + rest.value;
    }
  }

  lemma PrependUnits(text: string, rest: Option<string>)
    ensures Prepend("", rest) == rest
    ensures Prepend(text, Some("")) == Some(text)
  {
    assert text + "" == text;
    if rest.Some? {
      assert "" + rest.value == rest.value;
    }
  }

  // ---- the resolver --------------------------------------------------------

  /** The closure state of one `resolve_local_consts` call: the bindings and the memo table. */
  class Resolver {
    const raw: map<string, Expr>
    var resolved: map<string, string>

    constructor (raw: map<string, Expr>)
      ensures this.raw == raw && resolved == map[]
    {
      this.raw := raw;
      this.resolved := map[];
    }

    ghost predicate MemoSound()
      reads this
    {
      SubMap(resolved, Lfp(raw))
    }

    /** `name` may be resolved while `active` is: nothing active that resolves can wait for it. */
    ghost predicate MayVisit(name: string, active: set<string>) {
      forall a | a in active && a in Lfp(raw) :: name in Lfp(raw) && Rank(raw, name) < Rank(raw, a)
    }

    method ResolveName(name: string, active: set<string>) returns (r: Option<string>)
      requires MemoSound() && MayVisit(name, active) && active <= raw.Keys
      modifies this
      ensures MemoSound() && SubMap(old(resolved), resolved)
      ensures r == Lookup(Lfp(raw), name)
      ensures r.Some? ==> name in resolved
      decreases raw.Keys - active, 0
    {
      if name in resolved {
        return Some(resolved[name]);
      }
      LfpIsFixpoint(raw);
      if name !in raw || name in active {
        return None;
      }
      forall m | m in Refs(raw[name]) ensures MayVisit(m, active + {name}) {
        if name in Lfp(raw) {
          RankDecreases(raw, name, m);
        }
      }
      r := ResolveNode(raw[name], active + {name}, 0);
      if r.Some? {
        resolved := resolved[name := r.value];
      }
    }

    method ExpandTemplate(parts: seq<Part>, span: nat, active: set<string>) returns (r: Option<string>)
      requires MemoSound() && active <= raw.Keys
      requires forall m | m in PartRefs(parts) :: MayVisit(m, active)
      modifies this
      ensures MemoSound() && SubMap(old(resolved), resolved)
      ensures r == if span > MAX_URL_SPAN then None else EvalParts(parts, Lfp(raw))
      decreases raw.Keys - active, 1
    {
      if span > MAX_URL_SPAN {
        return None;
      }
      var text := "";
      assert parts[0..] == parts;
      PrependUnits(text, EvalParts(parts, Lfp(raw)));
      for i := 0 to |parts|
        invariant MemoSound() && SubMap(old(resolved), resolved)
        invariant EvalParts(parts, Lfp(raw)) == Prepend(text, EvalParts(parts[i..], Lfp(raw)))
      {
        ghost var later := EvalParts(parts[i + 1..], Lfp(raw));
        assert parts[i..][1..] == parts[i + 1..];
        match parts[i]
        case Lit(chunk) =>
          PrependStep(text, chunk, later);
          text := text + chunk;
        case Complex(_) => return None;
        case Sub(name, _) =>
          assert name in PartRefs(parts);
          var value := ResolveName(name, active);
          if value.None? {
            return None;
          }
          PrependStep(text, value.value, later);
          text := text + value.value;
      }
      PrependUnits(text, None);
      return Some(text);
    }

    method ResolveNode(e: Expr, active: set<string>, depth: nat) returns (r: Option<string>)
      requires MemoSound() && active <= raw.Keys
      requires forall m | m in Refs(e) :: MayVisit(m, active)
      modifies this
      ensures MemoSound() && SubMap(old(resolved), resolved)
      ensures r == Eval(e, Lfp(raw), depth)
      decreases raw.Keys - active, 2, e
    {
      if depth > MAX_RESOLVE_DEPTH {
        return None;
      }
      match e
      case Str(text) => return Some(text);
      case Template(parts, span) => r := ExpandTemplate(parts, span, active);
      case Ident(name) => r := ResolveName(name, active);
      case Paren(inner, sole) =>
        if sole {
          r := ResolveNode(inner, active, depth + 1);
        } else {
          r := None;
        }
      case Plus(left, right) =>
        var l := ResolveNode(left, active, depth + 1);
        if l.None? {
          return None;
        }
        var rr := ResolveNode(right, active, depth + 1);
        if rr.None? {
          return None;
        }
        return Some(l.value + rr.value);
      case Other => return None;
    }
  }

  /** Every name among the first `i` of `order` that can be resolved has been. */
  ghost predicate Visited(raw: map<string, Expr>, order: seq<string>, i: nat, resolved: map<string, string>)
    requires i <= |order|
  {
    forall n | n in order[..i] && n in Lfp(raw) :: n in resolved
  }

  lemma VisitedNext(raw: map<string, Expr>, order: seq<string>, i: nat, before: map<string, string>,
                    after: map<string, string>)
    requires i < |order| && Visited(raw, order, i, before) && SubMap(before, after)
    requires order[i] in Lfp(raw) ==> order[i] in after
    ensures Visited(raw, order, i + 1, after)
  {
    assert order[..i + 1] == order[..i] + [order[i]];
  }

  lemma AllVisited(raw: map<string, Expr>, order: seq<string>, resolved: map<string, string>)
    requires Elements(order) == raw.Keys
    requires SubMap(resolved, Lfp(raw)) && Visited(raw, order, |order|, resolved)
    ensures resolved == Lfp(raw)
  {
    LfpIsFixpoint(raw);
    assert order[..|order|] == order;
    forall n | n in Lfp(raw) ensures n in resolved {
      assert n in Elements(order);
    }
    SubMapSameKeys(resolved, Lfp(raw));
  }

  /** The whole resolution. `order` is the iteration order over the bindings: the result does
      not depend on it, nor on the state the memo table is in when a name is reached. */
  method ResolveLocalConsts(raw: map<string, Expr>, order: seq<string>) returns (resolved: map<string, string>)
    requires Elements(order) == raw.Keys
    ensures resolved == Lfp(raw)
  {
    var resolver := new Resolver(raw);
    for i := 0 to |order|
      invariant resolver.raw == raw && resolver.MemoSound()
      invariant Visited(raw, order, i, resolver.resolved)
    {
      ghost var before := resolver.resolved;
      var value := resolver.ResolveName(order[i], {});
      VisitedNext(raw, order, i, before, resolver.resolved);
    }
    resolved := resolver.resolved;
    AllVisited(raw, order, resolved);
  }
}
