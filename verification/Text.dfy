/** Splitting text at a separator, and path segments. */
module Text {
  /** The pieces between separators; always at least one. */
  function Split(s: string, sep: char): (parts: seq<string>)
    ensures parts != []
  {
    if s == "" then [""]
    else
      var rest := Split(s[1..], sep);
      if s[0] == sep then [""] + rest else [[s[0]] + rest[0]] + rest[1..]
  }

  function Join(parts: seq<string>, sep: char): string
    requires parts != []
  {
    if |parts| == 1 then parts[0] else parts[0] + [sep] + Join(parts[1..], sep)
  }

  function NonEmpty(parts: seq<string>): seq<string> {
    if parts == [] then []
    else (if parts[0] == "" then [] else [parts[0]]) + NonEmpty(parts[1..])
  }

  /** The non-empty pieces of a path. */
  function Segments(path: string): seq<string> {
    NonEmpty(Split(path, '/'))
  }

  /** Splitting around a separator splits the two sides. */
  lemma {:induction false} SplitAround(a: string, sep: char, b: string)
    ensures Split(a + [sep] + b, sep) == Split(a, sep) + Split(b, sep)
  {
    var whole := a + [sep] + b;
    if a == "" {
      assert whole[0] == sep && whole[1..] == b;
    } else {
      assert whole[0] == a[0] && whole[1..] == a[1..] + [sep] + b;
      SplitAround(a[1..], sep, b);
      FirstPiece(Split(a[1..], sep), Split(b, sep), a[0], sep);
    }
  }

  lemma FirstPiece(rest: seq<string>, more: seq<string>, c: char, sep: char)
    requires rest != []
    ensures var longer := rest + more;
      (if c == sep then [""] + longer else [[c] + longer[0]] + longer[1..]) ==
      (if c == sep then [""] + rest else [[c] + rest[0]] + rest[1..]) + more
  {
    assert (rest + more)[1..] == rest[1..] + more;
    assert [""] + (rest + more) == ([""] + rest) + more;
    assert [[c] + rest[0]] + (rest[1..] + more) == ([[c] + rest[0]] + rest[1..]) + more;
  }

  /** Splitting undoes joining pieces that hold no separator, and the other way round. */
  lemma {:induction false} JoinSplit(s: string, sep: char)
    ensures Join(Split(s, sep), sep) == s
    ensures forall p | p in Split(s, sep) :: sep !in p
  {
    if s != "" {
      JoinSplit(s[1..], sep);
      var rest := Split(s[1..], sep);
      assert s == [s[0]] + s[1..];
      if s[0] != sep {
        var parts := [[s[0]] + rest[0]] + rest[1..];
        assert parts[1..] == rest[1..];
        assert forall p | p in parts :: p == [s[0]] + rest[0] || p in rest;
      } else {
        var parts := [""] + rest;
        assert parts[1..] == rest;
      }
    }
  }

  lemma {:induction false} SplitPiece(p: string, sep: char)
    requires sep !in p
    ensures Split(p, sep) == [p]
  {
    if p != "" {
      SplitPiece(p[1..], sep);
      assert p == [p[0]] + p[1..];
    }
  }

  lemma {:induction false} SplitJoin(parts: seq<string>, sep: char)
    requires parts != [] && forall p | p in parts :: sep !in p
    ensures Split(Join(parts, sep), sep) == parts
  {
    SplitPiece(parts[0], sep);
    if |parts| > 1 {
      SplitJoin(parts[1..], sep);
      SplitAround(parts[0], sep, Join(parts[1..], sep));
    }
  }

  lemma {:induction false} NonEmptyConcat(a: seq<string>, b: seq<string>)
    ensures NonEmpty(a + b) == NonEmpty(a) + NonEmpty(b)
  {
    if a == [] {
      assert a + b == b;
    } else {
      assert (a + b)[1..] == a[1..] + b;
      NonEmptyConcat(a[1..], b);
    }
  }

  /** Text put in front of a rooted path contributes exactly its own segments. */
  lemma SegmentsAround(a: string, b: string)
    ensures Segments(a + "/" + b) == Segments(a) + Segments(b)
  {
    SplitAround(a, '/', b);
    NonEmptyConcat(Split(a, '/'), Split(b, '/'));
  }

  lemma {:induction false} NonEmptyStay(parts: seq<string>)
    requires "" !in parts
    ensures NonEmpty(parts) == parts
  {
    if parts != [] {
      NonEmptyStay(parts[1..]);
    }
  }

  /** The segments of pieces put together are those pieces, whether or not a slash comes first or last. */
  lemma SegmentsOfJoined(parts: seq<string>)
    requires parts != [] && "" !in parts && forall p | p in parts :: '/' !in p
    ensures var path := Join(parts, '/');
      Segments(path) == parts && Segments("/" + path) == parts && Segments(path + "/") == parts
  {
    SplitJoin(parts, '/');
    NonEmptyStay(parts);
    SegmentsAround("", Join(parts, '/'));
    SegmentsAround(Join(parts, '/'), "");
    assert "" + "/" + Join(parts, '/') == "/" + Join(parts, '/') && Join(parts, '/') + "/" + "" == Join(parts, '/') + "/";
  }
}
