/** UTF-8 (section 3 of RFC 3629) and truncating text to a byte budget: encode, cut, decode
    ignoring errors (api/capture_router.py, capture/driver.py). */
module Utf8 {
  type Byte = b: nat | b < 256

  predicate IsScalar(c: nat) {
    c < 0xD800 || 0xE000 <= c < 0x110000
  }

  type Scalar = c: nat | IsScalar(c)

  /** Six bits a byte from the low end: `c / 64`, `c / 64 / 64` and so on are the rest. */
  function EncodeOne(c: Scalar): (e: seq<Byte>)
    ensures 1 <= |e| <= 4
  {
    var q1: nat := c / 64;
    var q2: nat := q1 / 64;
    var q3: nat := q2 / 64;
    assert IsScalar(c);
    if c < 0x80 then [c]
    else if c < 0x800 then [0xC0 + q1, 0x80 + c % 64]
    else if c < 0x10000 then [0xE0 + q2, 0x80 + q1 % 64, 0x80 + c % 64]
    else [0xF0 + q3, 0x80 + q2 % 64, 0x80 + q1 % 64, 0x80 + c % 64]
  }

  function Encode(s: seq<Scalar>): seq<Byte> {
    if s == [] then [] else EncodeOne(s[0]) + Encode(s[1..])
  }

  // ---- decoding ------------------------------------------------------------

  predicate IsTail(b: Byte) {
    0x80 <= b < 0xC0
  }

  /** The length a lead byte announces; 0 for a byte that cannot start a sequence. */
  function Announced(lead: Byte): (n: nat)
    ensures n <= 4
  {
    if lead < 0x80 then 1
    else if 0xC2 <= lead < 0xE0 then 2
    else if 0xE0 <= lead < 0xF0 then 3
    else if 0xF0 <= lead < 0xF5 then 4
    else 0
  }

  /** The second byte's range: no overlong forms, no surrogates, nothing above U+10FFFF. */
  predicate SecondOk(lead: Byte, b: Byte) {
    if lead == 0xE0 then 0xA0 <= b < 0xC0
    else if lead == 0xED then 0x80 <= b < 0xA0
    else if lead == 0xF0 then 0x90 <= b < 0xC0
    else if lead == 0xF4 then 0x80 <= b < 0x90
    else IsTail(b)
  }

  /** How many bytes at the front belong to one well-formed sequence or a beginning of one. */
  function Accepted(b: seq<Byte>): (n: nat)
    requires b != []
    ensures n <= |b| && n <= Announced(b[0])
  {
    var want := Announced(b[0]);
    if want == 0 then 0
    else if want == 1 || |b| == 1 || !SecondOk(b[0], b[1]) then 1
    else if want == 2 || |b| == 2 || !IsTail(b[2]) then 2
    else if want == 3 || |b| == 3 || !IsTail(b[3]) then 3
    else 4
  }

  function DecodeOne(b: seq<Byte>): nat
    requires b != [] && Announced(b[0]) > 0 && Accepted(b) == Announced(b[0])
  {
    var lead: nat := b[0];
    var n := Announced(b[0]);
    if n == 1 then lead
    else
      var x1: nat := b[1];
      if n == 2 then (lead - 0xC0) * 64 + (x1 - 0x80)
      else
        var x2: nat := b[2];
        if n == 3 then ((lead - 0xE0) * 64 + (x1 - 0x80)) * 64 + (x2 - 0x80)
        else
          var x3: nat := b[3];
          (((lead - 0xF0) * 64 + (x1 - 0x80)) * 64 + (x2 - 0x80)) * 64 + (x3 - 0x80)
  }

  /** Decoding with errors ignored: a beginning that is not completed is skipped as a whole, a
      byte that can begin nothing is skipped alone. */
  function DecodeIgnore(b: seq<Byte>): seq<nat> {
    if b == [] then []
    else
      var n := Accepted(b);
      if n > 0 && n == Announced(b[0]) then [DecodeOne(b)] + DecodeIgnore(b[n..])
      else DecodeIgnore(b[if n == 0 then 1 else n..])
  }

  /** A sequence that is accepted whole is the encoding of one scalar value: no surrogate, nothing
      overlong and nothing too large gets through. */
  lemma AcceptedIsScalar(b: seq<Byte>)
    requires b != [] && Announced(b[0]) > 0 && Accepted(b) == Announced(b[0])
    ensures IsScalar(DecodeOne(b))
    ensures Announced(b[0]) == if DecodeOne(b) < 0x80 then 1 else if DecodeOne(b) < 0x800 then 2 else if DecodeOne(b) < 0x10000 then 3 else 4
  {
  }

  /** Whatever the bytes are, only scalar values come out. */
  lemma {:induction false} OnlyScalars(b: seq<Byte>)
    ensures forall c | c in DecodeIgnore(b) :: IsScalar(c)
    decreases |b|
  {
    if b != [] {
      var n := Accepted(b);
      if n > 0 && n == Announced(b[0]) {
        AcceptedIsScalar(b);
      }
      OnlyScalars(b[if n == 0 then 1 else n..]);
    }
  }

  // ---- one scalar ----------------------------------------------------------

  lemma EncodedShape(c: Scalar)
    ensures var e := EncodeOne(c);
      Announced(e[0]) == |e| && (|e| > 1 ==> SecondOk(e[0], e[1])) && forall i | 1 <= i < |e| :: IsTail(e[i])
  {
    var q1: nat := c / 64;
    var q2: nat := q1 / 64;
    var q3: nat := q2 / 64;
    assert IsScalar(c);
  }

  lemma AcceptedWhole(b: seq<Byte>, n: nat)
    requires 0 < n <= |b| && n <= Announced(b[0])
    requires n > 1 ==> SecondOk(b[0], b[1])
    requires forall i | 1 <= i < n :: IsTail(b[i])
    requires n == Announced(b[0]) || n == |b|
    ensures Accepted(b) == n
  {
  }

  lemma DecodeAfterEncode(c: Scalar, rest: seq<Byte>)
    ensures DecodeIgnore(EncodeOne(c) + rest) == [c] + DecodeIgnore(rest)
  {
    var e := EncodeOne(c);
    var b := e + rest;
    EncodedShape(c);
    assert b[|e|..] == rest;
    assert forall i | 0 <= i < |e| :: b[i] == e[i];
    AcceptedWhole(b, |e|);
    assert DecodeOne(b) == c by {
      var q1: nat := c / 64;
      var q2: nat := q1 / 64;
      assert c == 64 * q1 + c % 64 && q1 == 64 * q2 + q1 % 64 && q2 == 64 * (q2 / 64) + q2 % 64;
    }
  }

  /** A proper beginning of one scalar's bytes decodes to nothing. */
  lemma CutScalarVanishes(c: Scalar, k: nat)
    requires k < |EncodeOne(c)|
    ensures DecodeIgnore(EncodeOne(c)[..k]) == []
  {
    if k > 0 {
      var b := EncodeOne(c)[..k];
      EncodedShape(c);
      AcceptedWhole(b, k);
      assert b[k..] == [];
    }
  }

  // ---- a whole text --------------------------------------------------------

  /** The scalars that fit, taken from the front while they do. */
  function Longest(s: seq<Scalar>, n: nat): seq<Scalar> {
    if s == [] || |EncodeOne(s[0])| > n then [] else [s[0]] + Longest(s[1..], n - |EncodeOne(s[0])|)
  }

  /** Cutting inside the first scalar leaves nothing, cutting behind it leaves it and what follows. */
  lemma CutAtFirst(c: Scalar, tail: seq<Byte>, n: nat)
    requires n <= |EncodeOne(c)| + |tail|
    ensures var cut := DecodeIgnore((EncodeOne(c) + tail)[..n]);
      cut == if |EncodeOne(c)| > n then [] else [c] + DecodeIgnore(tail[..n - |EncodeOne(c)|])
  {
    var head := EncodeOne(c);
    if |head| > n {
      assert (head + tail)[..n] == head[..n];
      CutScalarVanishes(c, n);
    } else {
      assert (head + tail)[..n] == head + tail[..n - |head|];
      DecodeAfterEncode(c, tail[..n - |head|]);
    }
  }

  lemma {:induction false} TruncationIsLongest(s: seq<Scalar>, n: nat)
    requires n <= |Encode(s)|
    ensures DecodeIgnore(Encode(s)[..n]) == Longest(s, n)
  {
    if s == [] {
      assert Encode(s)[..n] == [];
    } else {
      var rest := Encode(s[1..]);
      var size := |EncodeOne(s[0])|;
      assert Encode(s) == EncodeOne(s[0]) + rest;
      CutAtFirst(s[0], rest, n);
      if size <= n {
        TruncationIsLongest(s[1..], n - size);
        assert DecodeIgnore(rest[..n - size]) == Longest(s[1..], n - size);
      }
    }
  }

  lemma {:induction false} LongestIsLongest(s: seq<Scalar>, n: nat, j: nat)
    requires j <= |s|
    ensures var t := Longest(s, n); |t| <= |s| && t == s[..|t|] && |Encode(t)| <= n
    ensures j <= |Longest(s, n)| <==> |Encode(s[..j])| <= n
  {
    if s == [] {
    } else if |EncodeOne(s[0])| > n {
      if j > 0 {
        assert s[..j][0] == s[0];
      }
    } else {
      var m := n - |EncodeOne(s[0])|;
      LongestIsLongest(s[1..], m, if j > 0 then j - 1 else 0);
      assert Longest(s, n)[1..] == Longest(s[1..], m);
      if j > 0 {
        assert s[..j][1..] == s[1..][..j - 1];
      }
    }
  }

  lemma {:induction false} EncodePrefix(s: seq<Scalar>, k: nat)
    requires k <= |s|
    ensures Encode(s[..k]) <= Encode(s)
  {
    if k > 0 {
      assert s[..k][0] == s[0] && s[..k][1..] == s[1..][..k - 1];
      EncodePrefix(s[1..], k - 1);
    }
  }

  lemma {:induction false} RoundTrip(s: seq<Scalar>)
    ensures DecodeIgnore(Encode(s)) == s
  {
    if s != [] {
      DecodeAfterEncode(s[0], Encode(s[1..]));
      RoundTrip(s[1..]);
    }
  }

  /** Cutting an encoded text at `n` bytes and decoding it ignoring errors keeps exactly the
      longest prefix of scalars whose encoding fits, and the bytes of that prefix are a prefix of
      the original bytes. */
  lemma TruncateKeepsLongestPrefix(s: seq<Scalar>, n: nat)
    requires n <= |Encode(s)|
    ensures var t := DecodeIgnore(Encode(s)[..n]);
      exists k | 0 <= k <= |s| ::
        t == s[..k] && Encode(s[..k]) <= Encode(s)[..n] &&
        (forall j | 0 <= j <= |s| :: |Encode(s[..j])| <= n <==> j <= k)
  {
    TruncationIsLongest(s, n);
    var t := Longest(s, n);
    LongestIsLongest(s, n, 0);
    var k := |t|;
    EncodePrefix(s, k);
    forall j | 0 <= j <= |s| ensures |Encode(s[..j])| <= n <==> j <= k {
      LongestIsLongest(s, n, j);
    }
    assert Encode(t) == Encode(s)[..|Encode(t)|] == Encode(s)[..n][..|Encode(t)|];
  }
}
