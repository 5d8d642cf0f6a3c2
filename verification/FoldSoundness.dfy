/** Folding a URL at a sink (findings/_base_env.py) and what it promises about run time: a
    folded name or expression has, in every execution, the value it was folded to. */
module FoldSoundness {
  import opened Basics
  import opened ConstFold
  import opened BindingAnalysis

  // ---- run time ------------------------------------------------------------

  /** A run-time value: a string, or anything that is not one. */
  datatype Value = Text(s: string) | Thing(id: int)

  type Store = map<string, Value>

  /** One piece of a template can render as `s`. A non-string renders as something unknown. */
  predicate Renders(part: Part, store: Store, s: string) {
    match part
    case Lit(text) => s == text
    case Sub(name, _) => name in store && (store[name].Text? ==> s == store[name].s)
    case Complex(_) => true
  }

  ghost predicate CanRender(parts: seq<Part>, store: Store, s: string) {
    if parts == [] then s == ""
    else exists head, tail :: Renders(parts[0], store, head) && CanRender(parts[1..], store, tail) && s == head + tail
  }

  /** Evaluating `e` in `store` can produce `v`. Reading a name that has no value is stuck, `+`
      on anything but two strings and every other construct can produce any value. */
  ghost predicate CanEval(e: Expr, store: Store, v: Value) {
    match e
    case Str(text) => v == Text(text)
    case Ident(name) => name in store && v == store[name]
    case Paren(inner, _) => CanEval(inner, store, v)
    case Template(parts, _) => v.Text? && CanRender(parts, store, v.s)
    case Plus(left, right) =>
      exists a, b :: CanEval(left, store, a) && CanEval(right, store, b) &&
        (a.Text? && b.Text? ==> v == Text(a.s + b.s))
    case Other => true
  }

  /** Running one site: a declarator of a plain name stores a value of its initialiser; every
      other binding form leaves arbitrary values, but only in the names it binds. */
  ghost predicate Fires(site: Site, store: Store, next: Store) {
    if site.VariableDeclarator? && site.target.Leaf? && site.init.Static? then
      exists v :: CanEval(site.init.e, store, v) && next == store[site.target.name := v]
    else
      forall n | n !in BoundAt(site) :: Lookup(next, n) == Lookup(store, n)
  }

  /** Any number of site firings, in any order and with repetition. `init` holds the values that
      names have from outside the file wherever it reads them out of their declarator's scope, such
      as the browser's own globals; a name declared at the top level of a module has none. */
  ghost predicate Execution(tree: seq<Site>, init: Store, stores: seq<Store>) {
    |stores| > 0 && stores[0] == init &&
    forall j | 0 <= j < |stores| - 1 :: exists i | 0 <= i < |tree| :: Fires(tree[i], stores[j], stores[j + 1])
  }

  /** Every folded name that has a value at all has the folded one. */
  ghost predicate Agrees(folded: map<string, string>, store: Store) {
    forall n | n in folded && n in store :: store[n] == Text(folded[n])
  }

  // ---- names ---------------------------------------------------------------

  lemma {:induction false} PartsSound(parts: seq<Part>, folded: map<string, string>, store: Store, s: string)
    requires Agrees(folded, store) && EvalParts(parts, folded).Some? && CanRender(parts, store, s)
    ensures s == EvalParts(parts, folded).value
  {
    if parts != [] {
      var head, tail :| Renders(parts[0], store, head) && CanRender(parts[1..], store, tail) && s == head + tail;
      PartsSound(parts[1..], folded, store, tail);
    }
  }

  lemma Operands(left: Expr, right: Expr, store: Store, v: Value) returns (a: Value, b: Value)
    requires CanEval(Plus(left, right), store, v)
    ensures CanEval(left, store, a) && CanEval(right, store, b)
    ensures a.Text? && b.Text? ==> v == Text(a.s + b.s)
  {
    a, b :| CanEval(left, store, a) && CanEval(right, store, b) &&
      (a.Text? && b.Text? ==> v == Text(a.s + b.s));
  }

  lemma {:induction false} EvalSound(e: Expr, folded: map<string, string>, store: Store, depth: nat, v: Value)
    requires Agrees(folded, store) && Eval(e, folded, depth).Some? && CanEval(e, store, v)
    ensures v == Text(Eval(e, folded, depth).value)
  {
    match e
    case Template(parts, _) => PartsSound(parts, folded, store, v.s);
    case Paren(inner, _) => EvalSound(inner, folded, store, depth + 1, v);
    case Plus(left, right) =>
      var a, b := Operands(left, right, store, v);
      EvalSound(left, folded, store, depth + 1, a);
      EvalSound(right, folded, store, depth + 1, b);
    case _ =>
  }

  /** No site can bind a folded name without the walk counting it. */
  predicate FullyCounted(tree: seq<Site>, names: set<string>) {
    forall i, n | 0 <= i < |tree| && n in names :: n in BoundAt(tree[i]) ==> n in MarkedAt(tree[i])
  }

  lemma FiringKeepsAgreement(tree: seq<Site>, raw: map<string, Expr>, i: nat, store: Store, next: Store)
    requires CollectsFrom(tree, Poisoned(tree), raw) && FullyCounted(tree, Lfp(raw).Keys)
    requires i < |tree| && Agrees(Lfp(raw), store) && Fires(tree[i], store, next)
    ensures Agrees(Lfp(raw), next)
  {
    LfpIsFixpoint(raw);
    forall n | n in Lfp(raw) && n in next ensures next[n] == Text(Lfp(raw)[n]) {
      assert n in raw;
      if n in MarkedAt(tree[i]) {
        FoldableNameIsBoundOnce(tree, raw, n, i);
        assert tree[i].target == Leaf(n);
        var v :| CanEval(tree[i].init.e, store, v) && next == store[n := v];
        EvalSound(raw[n], Lfp(raw), store, 0, v);
      } else if Offers(tree[i], if tree[i].VariableDeclarator? && tree[i].target.Leaf? then tree[i].target.name else n) {
        LeafIsBound(tree[i]);
        assert n != tree[i].target.name;
        assert Lookup(next, n) == Lookup(store, n);
      } else {
        assert n !in BoundAt(tree[i]);
        assert Lookup(next, n) == Lookup(store, n);
      }
    }
  }

  lemma LeafIsBound(site: Site)
    requires site.VariableDeclarator? && site.target.Leaf?
    ensures site.target.name in BoundAt(site) && site.target.name in MarkedAt(site)
  {
    assert MarkedIn([site.target]) == Marked(site.target) + MarkedIn([]);
    assert BoundIn([site.target]) == Bound(site.target) + BoundIn([]);
  }

  /** Every firing keeps the table and the store in agreement. */
  ghost predicate FiringsAgree(tree: seq<Site>, folded: map<string, string>) {
    forall i, store, next | 0 <= i < |tree| && Agrees(folded, store) && Fires(tree[i], store, next) ::
      Agrees(folded, next)
  }

  lemma CountedFiringsAgree(tree: seq<Site>, raw: map<string, Expr>)
    requires CollectsFrom(tree, Poisoned(tree), raw) && FullyCounted(tree, Lfp(raw).Keys)
    ensures FiringsAgree(tree, Lfp(raw))
  {
    forall i, store, next | 0 <= i < |tree| && Agrees(Lfp(raw), store) && Fires(tree[i], store, next)
      ensures Agrees(Lfp(raw), next)
    {
      FiringKeepsAgreement(tree, raw, i, store, next);
    }
  }

  lemma {:induction false} ExecutionAgrees(tree: seq<Site>, folded: map<string, string>, init: Store, stores: seq<Store>, k: nat)
    requires FiringsAgree(tree, folded) && Agrees(folded, init) && Execution(tree, init, stores) && k < |stores|
    ensures Agrees(folded, stores[k])
  {
    if k > 0 {
      var j := k - 1;
      ExecutionAgrees(tree, folded, init, stores, j);
      var i :| 0 <= i < |tree| && Fires(tree[i], stores[j], stores[j + 1]);
      assert Agrees(folded, stores[j + 1]);
    }
  }

  /** The table is right in every state of every execution of the file from `init`. */
  ghost predicate TableSound(tree: seq<Site>, folded: map<string, string>, init: Store) {
    forall stores, k | Execution(tree, init, stores) && 0 <= k < |stores| :: Agrees(folded, stores[k])
  }

  lemma UncountedBinderBreaks(tree: seq<Site>, folded: map<string, string>, init: Store, i: nat, n: string)
    requires i < |tree| && n in folded && n in BoundAt(tree[i]) && n !in MarkedAt(tree[i])
    ensures !TableSound(tree, folded, init)
  {
    if tree[i].VariableDeclarator? && tree[i].target.Leaf? {
      assert BoundIn([tree[i].target]) == Bound(tree[i].target) + BoundIn([]);
      LeafIsBound(tree[i]);
    }
    var stores: seq<Store> := [init, init[n := Thing(0)]];
    assert Fires(tree[i], stores[0], stores[1]);
    assert Execution(tree, init, stores);
    assert !Agrees(folded, stores[1]);
  }

  lemma StartMustAgree(tree: seq<Site>, folded: map<string, string>, init: Store)
    requires TableSound(tree, folded, init)
    ensures Agrees(folded, init)
  {
    var stores := [init];
    assert Execution(tree, init, stores) && stores[0] == init;
  }

  /** The folded table is right in every state of every execution exactly when the walk counts every
      site that binds a folded name and no folded name has another value from outside. The order in
      which the file runs does not matter. */
  lemma {:induction false} TableSoundIff(tree: seq<Site>, raw: map<string, Expr>, init: Store)
    requires CollectsFrom(tree, Poisoned(tree), raw)
    ensures TableSound(tree, Lfp(raw), init) <==> FullyCounted(tree, Lfp(raw).Keys) && Agrees(Lfp(raw), init)
  {
    var folded := Lfp(raw);
    if !FullyCounted(tree, folded.Keys) {
      var i, n :| 0 <= i < |tree| && n in folded.Keys && n in BoundAt(tree[i]) && n !in MarkedAt(tree[i]);
      UncountedBinderBreaks(tree, folded, init, i, n);
    } else if Agrees(folded, init) {
      CountedFiringsAgree(tree, raw);
      forall stores, k | Execution(tree, init, stores) && 0 <= k < |stores| ensures Agrees(folded, stores[k]) {
        ExecutionAgrees(tree, folded, init, stores, k);
      }
    }
    if TableSound(tree, folded, init) {
      StartMustAgree(tree, folded, init);
    }
  }

  /** Without names hidden in commented parentheses and unlisted binders the condition always holds. */
  lemma PlainFilesAreCounted(tree: seq<Site>, names: set<string>)
    requires forall i | 0 <= i < |tree| :: !tree[i].Unlisted? && forall p | p in Targets(tree[i]) :: !Hides(p)
    ensures FullyCounted(tree, names)
  {
    forall i | 0 <= i < |tree| ensures BoundAt(tree[i]) == MarkedAt(tree[i]) {
      ListedSitesAreExact(tree[i]);
    }
  }

  /** `let u = "/a"; (u) = x` with a comment inside the parentheses: `u` still folds to "/a". */
  lemma CommentedAssignmentIsMissed(u: string, raw: map<string, Expr>)
    requires var tree := [VariableDeclarator(Leaf(u), Static(Str("/a"))), Assignment(ParenTarget(Leaf(u), false))];
      CollectsFrom(tree, Poisoned(tree), raw)
    ensures var tree := [VariableDeclarator(Leaf(u), Static(Str("/a"))), Assignment(ParenTarget(Leaf(u), false))];
      Lookup(Lfp(raw), u) == Some("/a") && !FullyCounted(tree, Lfp(raw).Keys)
  {
    var tree := [VariableDeclarator(Leaf(u), Static(Str("/a"))), Assignment(ParenTarget(Leaf(u), false))];
    LeafIsBound(tree[0]);
    assert MarkedIn([tree[0].target]) == Marked(Leaf(u)) + MarkedIn([]);
    assert MarkedIn([tree[1].left]) == Marked(tree[1].left) + MarkedIn([]);
    assert BoundIn([tree[1].left]) == Bound(tree[1].left) + BoundIn([]);
    assert tree[1..][1..] == [];
    assert Occurrences(tree) == MarkedAt(tree[0]) + (MarkedAt(tree[1]) + Occurrences([]));
    assert Occurrences(tree)[u] == 1;
    assert Offers(tree[0], u);
    var i :| 0 <= i < |tree| && Offers(tree[i], u) && tree[i].init.e == raw[u];
    LfpIsFixpoint(raw);
    assert u in BoundAt(tree[1]) && u !in MarkedAt(tree[1]);
  }

  // ---- sinks ---------------------------------------------------------------

  const MAX_CONCAT_DEPTH: nat := 40

  function Source(part: Part): string {
    match part
    case Lit(text) => text
    case Sub(_, code) => "${" + code + "}"
    case Complex(code) => "${" + code + "}"
  }

  /** A template's text with its substitutions left as written. */
  function Verbatim(parts: seq<Part>): string {
    if parts == [] then "" else Source(parts[0]) + Verbatim(parts[1..])
  }

  function StringValue(e: Expr): Option<string> {
    match e
    case Str(text) => Some(text)
    case Template(parts, span) => if span > MAX_URL_SPAN then None else Some(Verbatim(parts))
    case _ => None
  }

  /** One operand of a `+` chain at a sink. */
  function ResolveConcatOperand(e: Expr, prefixes: map<string, string>, depth: nat): Option<string> {
    if depth > MAX_CONCAT_DEPTH then None
    else match e
      case Ident(name) => Lookup(prefixes, name)
      case Plus(left, right) =>
        var l := ResolveConcatOperand(left, prefixes, depth + 1);
        if l.None? then None else
        var r := ResolveConcatOperand(right, prefixes, depth + 1);
        if r.None? then None else Some(l.value + r.value)
      case Paren(inner, sole) => if sole then ResolveConcatOperand(inner, prefixes, depth + 1) else None
      case _ => StringValue(e)
  }

  /** A bare name or a `+` chain used as the URL. */
  function FoldIndirect(e: Expr, span: nat, prefixes: map<string, string>): Option<string> {
    if !e.Ident? && !e.Plus? then None
    else if prefixes == map[] && !e.Plus? then None
    else if span > MAX_URL_SPAN then None
    else ResolveConcatOperand(e, prefixes, 0)
  }

  predicate StartsWithSlash(s: string) {
    s != "" && s[0] == '/'
  }

  predicate EndsWithSlash(s: string) {
    s != "" && s[|s| - 1] == '/'
  }

  function DropTrailingSlashes(s: string): string {
    if EndsWithSlash(s) then DropTrailingSlashes(s[..|s| - 1]) else s
  }

  /** A template whose first piece is a known name: the name is folded, the rest kept as written,
      and slashes meeting at the boundary are collapsed. */
  function FoldConstPrefix(e: Expr, prefixes: map<string, string>): Option<string> {
    if !e.Template? || e.span > MAX_URL_SPAN || e.parts == [] || !e.parts[0].Sub? then None
    else if e.parts[0].name !in prefixes then None
    else
      var prefix := prefixes[e.parts[0].name];
      var remainder := Verbatim(e.parts[1..]);
      Some(if StartsWithSlash(remainder) then DropTrailingSlashes(prefix) + remainder else prefix + remainder)
  }

  /** No template in the chain has a substitution. */
  predicate HoleFree(e: Expr) {
    match e
    case Template(parts, _) => forall p | p in parts :: p.Lit?
    case Paren(inner, _) => HoleFree(inner)
    case Plus(left, right) => HoleFree(left) && HoleFree(right)
    case _ => true
  }

  lemma {:induction false} LiteralPartsRender(parts: seq<Part>, store: Store, s: string)
    requires (forall p | p in parts :: p.Lit?) && CanRender(parts, store, s)
    ensures s == Verbatim(parts)
  {
    if parts != [] {
      var head, tail :| Renders(parts[0], store, head) && CanRender(parts[1..], store, tail) && s == head + tail;
      LiteralPartsRender(parts[1..], store, tail);
    }
  }

  lemma {:induction false} OperandSound(e: Expr, folded: map<string, string>, store: Store, depth: nat, v: Value)
    requires Agrees(folded, store) && HoleFree(e)
    requires ResolveConcatOperand(e, folded, depth).Some? && CanEval(e, store, v)
    ensures v == Text(ResolveConcatOperand(e, folded, depth).value)
  {
    match e
    case Template(parts, _) => LiteralPartsRender(parts, store, v.s);
    case Paren(inner, _) => OperandSound(inner, folded, store, depth + 1, v);
    case Plus(left, right) =>
      var a, b := Operands(left, right, store, v);
      OperandSound(left, folded, store, depth + 1, a);
      OperandSound(right, folded, store, depth + 1, b);
    case _ =>
  }

  /** The sink can fold the operand as soon as the names it reads are known: strings, templates that are not
      too long, known names, and `+` and single parentheses of those, nested at most forty deep. */
  predicate SinkFoldable(e: Expr, names: set<string>, depth: nat) {
    depth <= 40 &&
    match e
    case Str(_) => true
    case Template(_, span) => span <= 8192
    case Ident(name) => name in names
    case Paren(inner, sole) => sole && SinkFoldable(inner, names, depth + 1)
    case Plus(left, right) => SinkFoldable(left, names, depth + 1) && SinkFoldable(right, names, depth + 1)
    case Other => false
  }

  lemma {:induction false} OperandFoldsIff(e: Expr, prefixes: map<string, string>, depth: nat)
    ensures ResolveConcatOperand(e, prefixes, depth).Some? <==> SinkFoldable(e, prefixes.Keys, depth)
  {
    match e
    case Paren(inner, _) => OperandFoldsIff(inner, prefixes, depth + 1);
    case Plus(left, right) =>
      OperandFoldsIff(left, prefixes, depth + 1);
      OperandFoldsIff(right, prefixes, depth + 1);
    case _ =>
  }

  /** Everything the sink can fold is folded: a known name, and a `+` chain of foldable operands, within the
      span cap; and nothing else. */
  lemma SinkFoldsIff(e: Expr, span: nat, prefixes: map<string, string>)
    ensures FoldIndirect(e, span, prefixes).Some? <==>
      (e.Ident? || e.Plus?) && span <= 8192 && SinkFoldable(e, prefixes.Keys, 0)
    ensures e.Ident? && span <= 8192 ==> FoldIndirect(e, span, prefixes) == Lookup(prefixes, e.name)
  {
    OperandFoldsIff(e, prefixes, 0);
  }

  /** A template folds by its leading name exactly when it begins with a known one, within the span cap. */
  lemma PrefixFoldsIff(e: Expr, prefixes: map<string, string>)
    ensures FoldConstPrefix(e, prefixes).Some? <==>
      e.Template? && e.span <= 8192 && exists name, code, rest :: e.parts == [Sub(name, code)] + rest && name in prefixes
  {
    if e.Template? && e.parts != [] && e.parts[0].Sub? {
      assert e.parts == [Sub(e.parts[0].name, e.parts[0].code)] + e.parts[1..];
    }
  }

  /** The literal text of an expression, every name and substitution read as "". */
  function Bare(e: Expr): string {
    match e
    case Str(text) => text
    case Template(parts, _) => BareParts(parts)
    case Paren(inner, _) => Bare(inner)
    case Plus(left, right) => Bare(left) + Bare(right)
    case _ => ""
  }

  function BareParts(parts: seq<Part>): string {
    if parts == [] then "" else (if parts[0].Lit? then parts[0].text else "") + BareParts(parts[1..])
  }

  ghost predicate Empties(names: set<string>, folded: map<string, string>, store: Store) {
    forall n | n in names :: Lookup(folded, n) == Some("") && Lookup(store, n) == Some(Text(""))
  }

  lemma {:induction false} BarePartsRender(parts: seq<Part>, folded: map<string, string>, store: Store)
    requires Empties(PartRefs(parts), folded, store)
    ensures CanRender(parts, store, BareParts(parts))
    ensures |BareParts(parts)| <= |Verbatim(parts)|
    ensures (exists p | p in parts :: !p.Lit?) ==> |BareParts(parts)| < |Verbatim(parts)|
  {
    if parts != [] {
      assert parts[0].Sub? ==> parts[0].name in PartRefs(parts);
      assert PartRefs(parts[1..]) <= PartRefs(parts);
      BarePartsRender(parts[1..], folded, store);
      var head := if parts[0].Lit? then parts[0].text else "";
      assert Renders(parts[0], store, head);
      assert CanRender(parts[1..], store, BareParts(parts[1..]));
      if p :| p in parts && !p.Lit? && parts[0].Lit? {
        assert p in parts[1..];
      }
    }
  }

  /** With every name empty, an expression with a hole folds to a longer text than it evaluates to. */
  lemma {:induction false} HoleLengthens(e: Expr, folded: map<string, string>, store: Store, depth: nat)
    requires Empties(Refs(e), folded, store) && ResolveConcatOperand(e, folded, depth).Some?
    ensures CanEval(e, store, Text(Bare(e)))
    ensures var v := ResolveConcatOperand(e, folded, depth).value;
      |Bare(e)| <= |v| && (!HoleFree(e) ==> |Bare(e)| < |v|)
  {
    match e
    case Template(parts, _) => BarePartsRender(parts, folded, store);
    case Paren(inner, _) => HoleLengthens(inner, folded, store, depth + 1);
    case Plus(left, right) =>
      HoleLengthens(left, folded, store, depth + 1);
      HoleLengthens(right, folded, store, depth + 1);
    case _ =>
  }

  lemma {:induction false} FoldsWhateverTheNamesAre(e: Expr, some: map<string, string>, all: map<string, string>, depth: nat)
    requires ResolveConcatOperand(e, some, depth).Some? && Refs(e) <= all.Keys
    ensures ResolveConcatOperand(e, all, depth).Some?
  {
    match e
    case Paren(inner, _) => FoldsWhateverTheNamesAre(inner, some, all, depth + 1);
    case Plus(left, right) =>
      FoldsWhateverTheNamesAre(left, some, all, depth + 1);
      FoldsWhateverTheNamesAre(right, some, all, depth + 1);
    case _ =>
  }

  /** The fold of `e` is its run-time value wherever the table agrees with the store. */
  ghost predicate FoldIsValue(e: Expr) {
    forall folded: map<string, string>, store: Store, v |
      Agrees(folded, store) && ResolveConcatOperand(e, folded, 0).Some? && CanEval(e, store, v) ::
        v == Text(ResolveConcatOperand(e, folded, 0).value)
  }

  /** An expression the sink can fold is folded to its run-time value, whatever the names hold,
      exactly when no template in it has a substitution: those are kept as written. */
  lemma SinkFoldSoundIff(e: Expr, prefixes: map<string, string>)
    requires ResolveConcatOperand(e, prefixes, 0).Some?
    ensures FoldIsValue(e) <==> HoleFree(e)
  {
    if HoleFree(e) {
      forall folded: map<string, string>, store: Store, v |
        Agrees(folded, store) && ResolveConcatOperand(e, folded, 0).Some? && CanEval(e, store, v)
        ensures v == Text(ResolveConcatOperand(e, folded, 0).value)
      {
        OperandSound(e, folded, store, 0, v);
      }
    } else {
      var folded := map n | n in Refs(e) :: "";
      var store: Store := map n | n in Refs(e) :: Text("");
      FoldsWhateverTheNamesAre(e, prefixes, folded, 0);
      HoleLengthens(e, folded, store, 0);
      assert Agrees(folded, store);
    }
  }

  /** "/items/" + `${id}` folds to "/items/${id}" and runs to "/items/7". */
  lemma SubstitutionKeptAsWritten()
    ensures var e := Plus(Str("/items/"), Template([Sub("id", "id")], 7));
      FoldIndirect(e, 19, map["id" := "7"]) == Some("/items/${id}") &&
      CanEval(e, map["id" := Text("7")], Text("/items/7"))
  {
    var hole, store := Template([Sub("id", "id")], 7), map["id" := Text("7")];
    var prefixes := map["id" := "7"];
    assert Verbatim([]) == "" && [Sub("id", "id")][1..] == [];
    assert Source(Sub("id", "id")) == "${" + "id" + "}" == "${id}";
    assert Verbatim([Sub("id", "id")]) == "${id}" + "" == "${id}";
    assert ResolveConcatOperand(hole, prefixes, 1) == Some("${id}");
    assert Renders(Sub("id", "id"), store, "7") && CanRender([], store, "") && "7" == "7" + "";
    assert CanRender([Sub("id", "id")], store, "7");
    assert CanEval(hole, store, Text("7")) && CanEval(Str("/items/"), store, Text("/items/"));
    assert "/items/" + "7" == "/items/7" && "/items/" + "${id}" == "/items/${id}";
  }

  /** The whole chain for a bare name or `+` chain: collected, resolved, folded, run. */
  lemma FoldedSinkIsRuntimeValue(tree: seq<Site>, raw: map<string, Expr>, init: Store, stores: seq<Store>, k: nat,
                                 e: Expr, span: nat, v: Value)
    requires CollectsFrom(tree, Poisoned(tree), raw) && FullyCounted(tree, Lfp(raw).Keys) && Agrees(Lfp(raw), init)
    requires Execution(tree, init, stores) && k < |stores| && HoleFree(e) && CanEval(e, stores[k], v)
    requires var prefixes := if HasWith(tree) then map[] else Lfp(raw); FoldIndirect(e, span, prefixes).Some?
    ensures var prefixes := if HasWith(tree) then map[] else Lfp(raw); v == Text(FoldIndirect(e, span, prefixes).value)
  {
    CountedFiringsAgree(tree, raw);
    ExecutionAgrees(tree, Lfp(raw), init, stores, k);
    OperandSound(e, if HasWith(tree) then map[] else Lfp(raw), stores[k], 0, v);
  }

  /** `{ const origin = "/api" } fetch(origin + "/x")`: the sink is out of the declarator's
      scope and reads the browser's `origin`, but folds to "/api/x". */
  lemma ReadOutOfScope(outside: string, raw: map<string, Expr>)
    requires var tree := [VariableDeclarator(Leaf("origin"), Static(Str("/api")))]; CollectsFrom(tree, Poisoned(tree), raw)
    ensures var tree := [VariableDeclarator(Leaf("origin"), Static(Str("/api")))];
      var init := map["origin" := Text(outside)];
      var url := Plus(Ident("origin"), Str("/x"));
      && FullyCounted(tree, Lfp(raw).Keys)
      && FoldIndirect(url, 13, Lfp(raw)) == Some("/api/x") && CanEval(url, init, Text(outside + "/x"))
      && (TableSound(tree, Lfp(raw), init) <==> outside == "/api")
  {
    var tree := [VariableDeclarator(Leaf("origin"), Static(Str("/api")))];
    OneDeclarator(tree[0], raw);
    OriginAtSink(outside);
    AgreesWithOne("origin", "/api", Text(outside));
    TableSoundIff(tree, raw, map["origin" := Text(outside)]);
  }

  lemma AgreesWithOne(name: string, text: string, v: Value)
    ensures Agrees(map[name := text], map[name := v]) <==> v == Text(text)
  {
    var store := map[name := v];
    assert name in store && store[name] == v;
  }

  lemma OriginAtSink(outside: string)
    ensures var init := map["origin" := Text(outside)];
      var url := Plus(Ident("origin"), Str("/x"));
      FoldIndirect(url, 13, map["origin" := "/api"]) == Some("/api/x") && CanEval(url, init, Text(outside + "/x"))
  {
    var init := map["origin" := Text(outside)];
    assert "/api" + "/x" == "/api/x";
    assert ResolveConcatOperand(Ident("origin"), map["origin" := "/api"], 1) == Some("/api");
    assert CanEval(Ident("origin"), init, Text(outside)) && CanEval(Str("/x"), init, Text("/x"));
  }

  /** A file of one declarator of a string. */
  lemma OneDeclarator(site: Site, raw: map<string, Expr>)
    requires site.VariableDeclarator? && site.target.Leaf? && site.init.Static? && site.init.e.Str?
    requires CollectsFrom([site], Poisoned([site]), raw)
    ensures Lfp(raw) == map[site.target.name := site.init.e.text] && FullyCounted([site], Lfp(raw).Keys)
  {
    var name := site.target.name;
    LeafIsBound(site);
    assert MarkedIn([site.target]) == Marked(site.target) + MarkedIn([]);
    assert [site][1..] == [] && Occurrences([site]) == MarkedAt(site) + Occurrences([]);
    assert Occurrences([site])[name] == 1 && Offers([site][0], name);
    forall n | n in raw ensures n == name && raw[n] == site.init.e {
      var i :| 0 <= i < 1 && Offers([site][i], n) && [site][i].init.e == raw[n];
    }
    LfpIsFixpoint(raw);
    assert Lookup(Lfp(raw), name) == Some(site.init.e.text);
  }

  lemma {:induction false} DroppingShortens(s: string)
    ensures |DropTrailingSlashes(s)| <= |s|
    ensures DropTrailingSlashes(s) == s <==> !EndsWithSlash(s)
    ensures EndsWithSlash(s) ==> |DropTrailingSlashes(s)| < |s|
  {
    if EndsWithSlash(s) {
      DroppingShortens(s[..|s| - 1]);
    }
  }

  /** Slashes at the front of a text. */
  function Slashes(s: string): nat {
    if StartsWithSlash(s) then 1 + Slashes(s[1..]) else 0
  }

  lemma {:induction false} SlashesAppend(a: string, b: string)
    ensures Slashes(a) <= |a|
    ensures Slashes(a + b) == if Slashes(a) == |a| then |a| + Slashes(b) else Slashes(a)
  {
    if a == "" {
      assert a + b == b;
    } else {
      assert (a + b)[1..] == a[1..] + b;
      SlashesAppend(a[1..], b);
    }
  }

  lemma {:induction false} DroppedAreSlashes(s: string)
    ensures var kept := DropTrailingSlashes(s); kept <= s && Slashes(s[|kept|..]) == |s| - |kept|
  {
    var kept := DropTrailingSlashes(s);
    if EndsWithSlash(s) {
      var front := s[..|s| - 1];
      DroppedAreSlashes(front);
      assert s[|kept|..] == front[|kept|..] + "/";
      assert "/"[1..] == "" && Slashes("/") == 1;
      SlashesAppend(front[|kept|..], "/");
    } else {
      assert s[|kept|..] == "";
    }
  }

  /** What is written begins with no more slashes than what it evaluates to: a substitution as written
      begins with none. */
  lemma {:induction false} FewerSlashesAsWritten(parts: seq<Part>, folded: map<string, string>)
    requires EvalParts(parts, folded).Some?
    ensures Slashes(Verbatim(parts)) <= Slashes(EvalParts(parts, folded).value)
  {
    if parts != [] {
      var rest := EvalParts(parts[1..], folded).value;
      FewerSlashesAsWritten(parts[1..], folded);
      if parts[0].Lit? {
        SlashesAppend(parts[0].text, Verbatim(parts[1..]));
        SlashesAppend(parts[0].text, rest);
      } else {
        assert Verbatim(parts)[0] == '$';
      }
    }
  }

  lemma SameStart(start: string, a: string, b: string)
    requires start + a == start + b
    ensures a == b
  {
    assert a == (start + a)[|start|..] && b == (start + b)[|start|..];
  }

  lemma SlashesMatter(kept: string, tail: string, written: string, known: string)
    requires tail != "" && Slashes(tail) == |tail| && Slashes(written) <= Slashes(known)
    ensures kept + written != kept + tail + known
  {
    SlashesAppend(tail, known);
    assert kept + tail + known == kept + (tail + known);
    if kept + written == kept + tail + known {
      SameStart(kept, written, tail + known);
    }
  }

  /** Where slashes meet, the collapsed text is another one. */
  lemma MeetingSlashesDiffer(prefix: string, rest: seq<Part>, folded: map<string, string>)
    requires EvalParts(rest, folded).Some? && EndsWithSlash(prefix)
    ensures DropTrailingSlashes(prefix) + Verbatim(rest) != prefix + EvalParts(rest, folded).value
  {
    var kept := DropTrailingSlashes(prefix);
    DroppingShortens(prefix);
    DroppedAreSlashes(prefix);
    FewerSlashesAsWritten(rest, folded);
    SlashesMatter(kept, prefix[|kept|..], Verbatim(rest), EvalParts(rest, folded).value);
    assert prefix == kept + prefix[|kept|..];
  }

  /** The parts with the table's values, and `filler` in every other substitution. */
  function Filled(parts: seq<Part>, folded: map<string, string>, filler: string): string {
    if parts == [] then ""
    else
      (match parts[0]
       case Lit(text) => text
       case Sub(name, _) => if name in folded then folded[name] else filler
       case Complex(_) => filler) + Filled(parts[1..], folded, filler)
  }

  /** They can render as that, which is their value if the table knows all of it, and else at least as
      long as the filler. */
  lemma {:induction false} FilledRenders(parts: seq<Part>, folded: map<string, string>, filler: string, store: Store)
    requires forall n | n in PartRefs(parts) :: Lookup(store, n) == Some(Text(if n in folded then folded[n] else filler))
    ensures CanRender(parts, store, Filled(parts, folded, filler))
    ensures match EvalParts(parts, folded)
      case Some(s) => Filled(parts, folded, filler) == s
      case None => |Filled(parts, folded, filler)| >= |filler|
  {
    if parts != [] {
      assert parts[0].Sub? ==> parts[0].name in PartRefs(parts);
      assert PartRefs(parts[1..]) <= PartRefs(parts);
      FilledRenders(parts[1..], folded, filler, store);
      var tail := Filled(parts[1..], folded, filler);
      var head := Filled(parts, folded, filler)[..|Filled(parts, folded, filler)| - |tail|];
      assert Renders(parts[0], store, head) && CanRender(parts[1..], store, tail);
      assert Filled(parts, folded, filler) == head + tail;
    }
  }

  predicate SlashesMeet(e: Expr, folded: map<string, string>)
    requires FoldConstPrefix(e, folded).Some?
  {
    EndsWithSlash(folded[e.parts[0].name]) && StartsWithSlash(Verbatim(e.parts[1..]))
  }

  /** The fold of a leading-name template is its run-time value wherever the table agrees with the store. */
  ghost predicate PrefixFoldIsValue(e: Expr, folded: map<string, string>)
    requires FoldConstPrefix(e, folded).Some?
  {
    forall store: Store, v | Agrees(folded, store) && CanEval(e, store, v) :: v == Text(FoldConstPrefix(e, folded).value)
  }

  lemma PrefixValue(e: Expr, folded: map<string, string>, store: Store, v: Value)
    requires Agrees(folded, store) && FoldConstPrefix(e, folded).Some? && CanEval(e, store, v)
    requires EvalParts(e.parts[1..], folded).Some?
    ensures v == Text(folded[e.parts[0].name] + EvalParts(e.parts[1..], folded).value)
  {
    var head, tail :| Renders(e.parts[0], store, head) && CanRender(e.parts[1..], store, tail) && v.s == head + tail;
    PartsSound(e.parts[1..], folded, store, tail);
  }

  /** Some run of the template, with `filler` for everything the table does not know. */
  lemma PrefixRuns(e: Expr, folded: map<string, string>, filler: string) returns (store: Store, v: Value)
    requires FoldConstPrefix(e, folded).Some?
    ensures Agrees(folded, store) && CanEval(e, store, v) && v.Text?
    ensures v.s == folded[e.parts[0].name] + Filled(e.parts[1..], folded, filler)
  {
    store := map n | n in PartRefs(e.parts) :: Text(if n in folded then folded[n] else filler);
    var (lead, rest) := (e.parts[0].name, e.parts[1..]);
    assert e.parts[0] in e.parts && lead in PartRefs(e.parts) && PartRefs(rest) <= PartRefs(e.parts);
    FilledRenders(rest, folded, filler, store);
    assert Renders(e.parts[0], store, folded[lead]);
    v := Text(folded[lead] + Filled(rest, folded, filler));
    assert CanRender(e.parts, store, v.s);
  }

  /** A leading-name template folds to its run-time value exactly when no slash that ends the name's
      value meets one that begins the rest, and the rest stays as it is written when the table's values
      are put in. A substitution the table does not know never does, a repeated leading name only if its
      value is its own spelling. */
  lemma PrefixFoldSoundIff(e: Expr, folded: map<string, string>)
    requires FoldConstPrefix(e, folded).Some?
    ensures PrefixFoldIsValue(e, folded) <==>
      !SlashesMeet(e, folded) && EvalParts(e.parts[1..], folded) == Some(Verbatim(e.parts[1..]))
  {
    var (prefix, rest, fold) := (folded[e.parts[0].name], e.parts[1..], FoldConstPrefix(e, folded).value);
    DroppingShortens(prefix);
    var filler := seq(|fold| + 1, _ => 'x');
    var store, v := PrefixRuns(e, folded, filler);
    FilledRenders(rest, folded, filler, map n | n in PartRefs(rest) :: Text(if n in folded then folded[n] else filler));
    if EvalParts(rest, folded).Some? {
      var known := EvalParts(rest, folded).value;
      assert v == Text(prefix + known);
      forall other: Store, u | Agrees(folded, other) && CanEval(e, other, u) ensures u == Text(prefix + known) {
        PrefixValue(e, folded, other, u);
      }
      if SlashesMeet(e, folded) {
        MeetingSlashesDiffer(prefix, rest, folded);
      } else {
        assert fold == prefix + Verbatim(rest);
        if fold == prefix + known {
          SameStart(prefix, Verbatim(rest), known);
        }
      }
    } else {
      assert |v.s| > |fold|;
    }
  }

  function Dollars(s: string): nat {
    multiset(s)['$']
  }

  /** A text written with substitutions has more dollar signs than one they are replaced in. */
  lemma {:induction false} DollarsGo(parts: seq<Part>, folded: map<string, string>)
    requires EvalParts(parts, folded).Some? && forall n | n in PartRefs(parts) && n in folded :: '$' !in folded[n]
    ensures var (known, written) := (Dollars(EvalParts(parts, folded).value), Dollars(Verbatim(parts)));
      if forall p | p in parts :: p.Lit? then known == written else known < written
  {
    if parts != [] {
      var (head, rest) := (parts[0], parts[1..]);
      var known := EvalParts(rest, folded).value;
      assert parts == [head] + rest && PartRefs(rest) <= PartRefs(parts);
      DollarsGo(rest, folded);
      match head {
        case Lit(text) =>
        case Sub(name, code) =>
          assert name in PartRefs(parts) && Dollars(folded[name]) == 0;
          assert Dollars(folded[name] + known) == Dollars(known);
          assert Source(head)[0] == '$' && Dollars(Source(head)) >= 1;
        case Complex(_) =>
      }
    }
  }

  lemma {:induction false} LiteralsStay(parts: seq<Part>, folded: map<string, string>)
    requires forall p | p in parts :: p.Lit?
    ensures EvalParts(parts, folded) == Some(Verbatim(parts))
  {
    if parts != [] {
      LiteralsStay(parts[1..], folded);
    }
  }

  /** If no value in the table has a dollar sign, the exact condition is that the rest has no
      substitution and no slashes meet. */
  lemma PlainPrefixFoldSoundIff(e: Expr, folded: map<string, string>)
    requires FoldConstPrefix(e, folded).Some? && forall n | n in folded :: '$' !in folded[n]
    ensures PrefixFoldIsValue(e, folded) <==> !SlashesMeet(e, folded) && forall p | p in e.parts[1..] :: p.Lit?
  {
    var rest := e.parts[1..];
    PrefixFoldSoundIff(e, folded);
    if forall p | p in rest :: p.Lit? {
      LiteralsStay(rest, folded);
    } else if EvalParts(rest, folded).Some? {
      DollarsGo(rest, folded);
    }
  }

  /** The whole chain for a leading-name template. */
  lemma FoldedPrefixIsRuntimeValue(tree: seq<Site>, raw: map<string, Expr>, init: Store, stores: seq<Store>, k: nat,
                                   e: Expr, v: Value)
    requires CollectsFrom(tree, Poisoned(tree), raw) && FullyCounted(tree, Lfp(raw).Keys) && Agrees(Lfp(raw), init)
    requires !HasWith(tree) && FoldConstPrefix(e, Lfp(raw)).Some? && !SlashesMeet(e, Lfp(raw))
    requires EvalParts(e.parts[1..], Lfp(raw)) == Some(Verbatim(e.parts[1..]))
    requires Execution(tree, init, stores) && k < |stores| && CanEval(e, stores[k], v)
    ensures v == Text(FoldConstPrefix(e, Lfp(raw)).value)
  {
    CountedFiringsAgree(tree, raw);
    ExecutionAgrees(tree, Lfp(raw), init, stores, k);
    PrefixFoldSoundIff(e, Lfp(raw));
  }

  /** `${base}/x` with "/api/" for `base` folds to "/api/x" and runs to "/api//x". */
  lemma BoundarySlashCollapsed()
    ensures var e := Template([Sub("base", "base"), Lit("/x")], 11);
      FoldConstPrefix(e, map["base" := "/api/"]) == Some("/api/x") &&
      CanEval(e, map["base" := Text("/api/")], Text("/api//x"))
  {
    var parts := [Sub("base", "base"), Lit("/x")];
    var store := map["base" := Text("/api/")];
    assert parts[1..] == [Lit("/x")] && [Lit("/x")][1..] == [];
    assert Verbatim([]) == "" && Verbatim([Lit("/x")]) == "/x";
    assert "/api/"[..4] == "/api" && DropTrailingSlashes("/api") == "/api";
    assert DropTrailingSlashes("/api/") == "/api";
    assert "/api" + "/x" == "/api/x";
    assert Renders(Lit("/x"), store, "/x") && CanRender([], store, "") && "/x" == "/x" + "";
    assert CanRender(parts[1..], store, "/x");
    assert Renders(parts[0], store, "/api/") && "/api//x" == "/api/" + "/x";
  }

  /** `${base}/x/${id}` with "/api" for `base` folds to "/api/x/${id}" and runs to "/api/x/7". */
  lemma SecondSubstitutionKept()
    ensures var e := Template([Sub("base", "base"), Lit("/x/"), Sub("id", "id")], 17);
      var folded := map["base" := "/api"];
      FoldConstPrefix(e, folded) == Some("/api/x/${id}") && !SlashesMeet(e, folded) &&
      CanEval(e, map["base" := Text("/api"), "id" := Text("7")], Text("/api/x/7"))
  {
    var parts := [Sub("base", "base"), Lit("/x/"), Sub("id", "id")];
    var store := map["base" := Text("/api"), "id" := Text("7")];
    var rest := parts[1..];
    assert rest == [Lit("/x/"), Sub("id", "id")] && rest[1..] == [Sub("id", "id")] && rest[1..][1..] == [];
    assert Verbatim(rest[1..]) == "${" + "id" + "}" + "" == "${id}";
    assert Verbatim(rest) == "/x/" + "${id}" == "/x/${id}";
    assert DropTrailingSlashes("/api") == "/api" && "/api" + "/x/${id}" == "/api/x/${id}";
    assert Renders(rest[1], store, "7") && CanRender([], store, "") && "7" == "7" + "";
    assert CanRender(rest[1..], store, "7");
    assert Renders(rest[0], store, "/x/") && "/x/7" == "/x/" + "7";
    assert CanRender(rest, store, "/x/7");
    assert Renders(parts[0], store, "/api") && "/api/x/7" == "/api" + "/x/7";
  }
}
