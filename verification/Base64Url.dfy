/** Unpadded base64url (section 5 of RFC 4648) as the server writes and reads it (auth/token.py) and
    as the extension reads it (token-validity.js). */
module Base64Url {
  import opened Basics
  import opened Utf8

  type Sextet = n: nat | n < 64

  function Symbol(v: Sextet): char {
    if v < 26 then 'A' + v as char
    else if v < 52 then 'a' + (v - 26) as char
    else if v < 62 then '0' + (v - 52) as char
    else if v == 62 then '-'
    else '_'
  }

  /** The value of a data character, after `-` and `_` are put back to `+` and `/`. */
  function Value(c: char): Option<Sextet> {
    if 'A' <= c <= 'Z' then Some((c - 'A') as int)
    else if 'a' <= c <= 'z' then Some((c - 'a') as int + 26)
    else if '0' <= c <= '9' then Some((c - '0') as int + 52)
    else if c == '-' || c == '+' then Some(62)
    else if c == '_' || c == '/' then Some(63)
    else None
  }

  lemma SymbolIsData(v: Sextet)
    ensures Value(Symbol(v)) == Some(v) && Symbol(v) != '=' && Symbol(v) != '.' && Symbol(v) as int < 128 && !Blank(Symbol(v))
  {
  }

  // ---- writing -------------------------------------------------------------

  function First(a: Byte): Sextet { a / 4 }

  function Second(a: Byte, b: Byte): Sextet { a % 4 * 16 + b / 16 }

  function Third(b: Byte, c: Byte): Sextet { b % 16 * 4 + c / 64 }

  function Fourth(c: Byte): Sextet { c % 64 }

  function Four(v0: Sextet, v1: Sextet, v2: Sextet, v3: Sextet): string {
    [Symbol(v0), Symbol(v1), Symbol(v2), Symbol(v3)]
  }

  function Quad(a: Byte, b: Byte, c: Byte): string {
    Four(First(a), Second(a, b), Third(b, c), Fourth(c))
  }

  /** The padded encoding. */
  function Padded(raw: seq<Byte>): string {
    if raw == [] then ""
    else if |raw| == 1 then Quad(raw[0], 0, 0)[..2] + "=="
    else if |raw| == 2 then Quad(raw[0], raw[1], 0)[..3] + "="
    else Quad(raw[0], raw[1], raw[2]) + Padded(raw[3..])
  }

  function RightStrip(s: string): string {
    if s != "" && s[|s| - 1] == '=' then RightStrip(s[..|s| - 1]) else s
  }

  /** `_b64url_encode`. */
  function EncodeUrl(raw: seq<Byte>): string {
    RightStrip(Padded(raw))
  }

  function Pad(n: nat): string {
    seq(n, _ => '=')
  }

  /** The number of pad characters the server puts back, and the number the extension does. */
  function ServerPad(n: nat): nat {
    (0 - n) % 4
  }

  function BrowserPad(n: nat): nat {
    (4 - n % 4) % 4
  }

  // ---- the server's reader -------------------------------------------------

  function Byte0(v0: Sextet, v1: Sextet): Byte { v0 * 4 + v1 / 16 }

  function Byte1(v1: Sextet, v2: Sextet): Byte { v1 % 16 * 16 + v2 / 4 }

  function Byte2(v2: Sextet, v3: Sextet): Byte { v2 % 4 * 64 + v3 }

  datatype Token = Data(v: Sextet) | PadMark

  /** Data characters and pad characters; every other one is skipped. */
  function Tokens(s: string): seq<Token> {
    if s == "" then []
    else
      (if s[0] == '=' then [PadMark] else if Value(s[0]).Some? then [Data(Value(s[0]).value)] else []) + Tokens(s[1..])
  }

  /** The non-strict base64 reader: padding that completes a quad ends the data, and data that stops
      inside a quad is an error. `prev` is the value read before, whose low bits are still to go. */
  function Scan(ts: seq<Token>, place: nat, prev: Sextet, pads: nat): Option<seq<Byte>>
    requires place < 4
  {
    if ts == [] then if place == 0 then Some([]) else None
    else match ts[0]
      case PadMark =>
        if place < 2 then Scan(ts[1..], place, prev, pads)
        else if place + pads + 1 >= 4 then Some([])
        else Scan(ts[1..], place, prev, pads + 1)
      case Data(v) =>
        if place == 0 then Scan(ts[1..], 1, v, 0)
        else if place == 1 then Then(Byte0(prev, v), Scan(ts[1..], 2, v, 0))
        else if place == 2 then Then(Byte1(prev, v), Scan(ts[1..], 3, v, 0))
        else Then(Byte2(prev, v), Scan(ts[1..], 0, 0, 0))
  }

  function Then(b: Byte, rest: Option<seq<Byte>>): Option<seq<Byte>> {
    if rest.Some? then Some([b] + rest.value) else None
  }

  /** `_b64url_decode`; text outside ASCII is an error. */
  function DecodeUrl(s: string): Option<seq<Byte>> {
    if exists i | 0 <= i < |s| :: s[i] as int >= 128 then None
    else Scan(Tokens(s + Pad(ServerPad(|s|))), 0, 0, 0)
  }

  // ---- the extension's reader ----------------------------------------------

  predicate Blank(c: char) {
    c == ' ' || c == '\t' || c == '\n' || c == '\r' || c as int == 12
  }

  function WithoutBlanks(s: string): string {
    if s == "" then "" else (if Blank(s[0]) then "" else [s[0]]) + WithoutBlanks(s[1..])
  }

  /** The values of a text of data characters. */
  function Values(s: string): Option<seq<Sextet>> {
    if s == "" then Some([])
    else
      var rest := Values(s[1..]);
      if Value(s[0]).None? || rest.None? then None else Some([Value(s[0]).value] + rest.value)
  }

  /** Four values make three bytes; bits left over at the end are dropped. */
  function Bytes(vs: seq<Sextet>): seq<Byte> {
    if |vs| <= 1 then []
    else if |vs| == 2 then [Byte0(vs[0], vs[1])]
    else if |vs| == 3 then [Byte0(vs[0], vs[1]), Byte1(vs[1], vs[2])]
    else [Byte0(vs[0], vs[1]), Byte1(vs[1], vs[2]), Byte2(vs[2], vs[3])] + Bytes(vs[4..])
  }

  /** Up to two pad characters of a whole quad are dropped. */
  function Unpadded(s: string): string {
    var n := |s|;
    if n > 0 && n % 4 == 0 && s[n - 1] == '=' then
      if s[n - 2] == '=' then s[..n - 2] else s[..n - 1]
    else s
  }

  /** The forgiving reader a browser's `atob` is. */
  function Forgiving(text: string): Option<seq<Byte>> {
    var data := Unpadded(WithoutBlanks(text));
    if |data| % 4 == 1 || Values(data).None? then None else Some(Bytes(Values(data).value))
  }

  /** `decodeBase64Url`. */
  function DecodeInBrowser(part: string): Option<seq<Byte>> {
    Forgiving(part + Pad(BrowserPad(|part|)))
  }

  // ---- round trips ---------------------------------------------------------

  function Sextets(raw: seq<Byte>): seq<Sextet> {
    if raw == [] then []
    else if |raw| == 1 then [First(raw[0]), Second(raw[0], 0)]
    else if |raw| == 2 then [First(raw[0]), Second(raw[0], raw[1]), Third(raw[1], 0)]
    else [First(raw[0]), Second(raw[0], raw[1]), Third(raw[1], raw[2]), Fourth(raw[2])] + Sextets(raw[3..])
  }

  function Symbols(vs: seq<Sextet>): string {
    seq(|vs|, i requires 0 <= i < |vs| => Symbol(vs[i]))
  }

  /** The encoding without its padding. */
  function Bare(raw: seq<Byte>): string {
    Symbols(Sextets(raw))
  }

  predicate IsData(s: string) {
    forall i | 0 <= i < |s| :: Value(s[i]).Some? && s[i] != '=' && s[i] != '.' && s[i] as int < 128 && !Blank(s[i])
  }

  lemma SymbolsAreData(vs: seq<Sextet>)
    ensures IsData(Symbols(vs))
  {
    forall i | 0 <= i < |vs| {
      SymbolIsData(vs[i]);
    }
  }

  /** The two padding formulas agree. */
  lemma PadFormulasAgree(n: nat)
    ensures ServerPad(n) == BrowserPad(n)
  {
    var q, r := n / 4, n % 4;
    assert 0 - n == 4 * (-q - 1) + (4 - r);
  }

  lemma PadRepeats(n: nat)
    ensures ServerPad(n + 4) == ServerPad(n) && (n + 4) % 4 == n % 4
  {
    assert 0 - (n + 4) == (0 - n) - 4;
  }

  lemma BareLong(raw: seq<Byte>)
    requires |raw| >= 3
    ensures Bare(raw) == Quad(raw[0], raw[1], raw[2]) + Bare(raw[3..])
  {
  }

  lemma ShortPads()
    ensures Pad(0) == "" && Pad(1) == "=" && Pad(2) == "=="
    ensures ServerPad(0) == 0 && ServerPad(2) == 2 && ServerPad(3) == 1
  {
  }

  lemma PaddedShort(raw: seq<Byte>)
    requires |raw| <= 2
    ensures Padded(raw) == Bare(raw) + Pad(ServerPad(|Bare(raw)|)) && |Bare(raw)| % 4 != 1
  {
    ShortPads();
    var vs := Sextets(raw);
    assert |Bare(raw)| == |vs| == if raw == [] then 0 else |raw| + 1;
    assert forall i | 0 <= i < |vs| :: Bare(raw)[i] == Symbol(vs[i]);
  }

  lemma {:induction false} PaddedIsBare(raw: seq<Byte>)
    ensures Padded(raw) == Bare(raw) + Pad(ServerPad(|Bare(raw)|)) && |Bare(raw)| % 4 != 1
  {
    if |raw| <= 2 {
      PaddedShort(raw);
    } else {
      PaddedIsBare(raw[3..]);
      PadRepeats(|Bare(raw[3..])|);
      BareLong(raw);
    }
  }

  lemma {:induction false} StripPad(s: string, n: nat)
    requires IsData(s)
    ensures RightStrip(s + Pad(n)) == s
  {
    if n == 0 {
      assert s + Pad(0) == s;
    } else {
      assert (s + Pad(n))[..|s| + n - 1] == s + Pad(n - 1);
      StripPad(s, n - 1);
    }
  }

  /** What is written holds data characters only: no dot, no padding, no blank. */
  lemma {:induction false} EncodedIsData(raw: seq<Byte>)
    ensures EncodeUrl(raw) == Bare(raw) && IsData(EncodeUrl(raw)) && '.' !in EncodeUrl(raw)
  {
    SymbolsAreData(Sextets(raw));
    PaddedIsBare(raw);
    StripPad(Bare(raw), ServerPad(|Bare(raw)|));
  }

  lemma SextetsRejoin(a: Byte, b: Byte, c: Byte)
    ensures Byte0(First(a), Second(a, b)) == a
    ensures Byte1(Second(a, b), Third(b, c)) == b
    ensures Byte2(Third(b, c), Fourth(c)) == c
  {
  }

  function Stream(vs: seq<Sextet>, pads: nat): seq<Token> {
    seq(|vs|, i requires 0 <= i < |vs| => Data(vs[i])) + seq(pads, _ => PadMark)
  }

  lemma {:induction false} TokensOfPad(n: nat)
    ensures Tokens(Pad(n)) == Stream([], n)
  {
    if n > 0 {
      TokensOfPad(n - 1);
      assert Pad(n)[1..] == Pad(n - 1);
      assert Stream([], n) == [PadMark] + Stream([], n - 1);
    }
  }

  lemma {:induction false} TokensOfSymbols(vs: seq<Sextet>, n: nat)
    ensures Tokens(Symbols(vs) + Pad(n)) == Stream(vs, n)
  {
    if vs == [] {
      TokensOfPad(n);
      assert Symbols(vs) + Pad(n) == Pad(n);
    } else {
      SymbolIsData(vs[0]);
      TokensOfSymbols(vs[1..], n);
      assert (Symbols(vs) + Pad(n))[1..] == Symbols(vs[1..]) + Pad(n);
      assert Stream(vs, n) == [Data(vs[0])] + Stream(vs[1..], n);
    }
  }

  lemma ScanFour(v0: Sextet, v1: Sextet, v2: Sextet, v3: Sextet, rest: seq<Token>)
    ensures Scan([Data(v0), Data(v1), Data(v2), Data(v3)] + rest, 0, 0, 0) ==
      Then(Byte0(v0, v1), Then(Byte1(v1, v2), Then(Byte2(v2, v3), Scan(rest, 0, 0, 0))))
  {
    var ts := [Data(v0), Data(v1), Data(v2), Data(v3)] + rest;
    assert ts[1..][1..][1..][1..] == rest;
    assert Scan(ts[1..][1..][1..], 3, v2, 0) == Then(Byte2(v2, v3), Scan(rest, 0, 0, 0));
    assert Scan(ts[1..][1..], 2, v1, 0) == Then(Byte1(v1, v2), Scan(ts[1..][1..][1..], 3, v2, 0));
    assert Scan(ts[1..], 1, v0, 0) == Then(Byte0(v0, v1), Scan(ts[1..][1..], 2, v1, 0));
  }

  lemma ScanEnds(v0: Sextet, v1: Sextet, v2: Sextet)
    ensures Scan(Stream([v0, v1], 2), 0, 0, 0) == Some([Byte0(v0, v1)])
    ensures Scan(Stream([v0, v1, v2], 1), 0, 0, 0) == Some([Byte0(v0, v1), Byte1(v1, v2)])
  {
    var two, three := Stream([v0, v1], 2), Stream([v0, v1, v2], 1);
    assert Scan(two[1..][1..], 2, v1, 0) == Scan(two[1..][1..][1..], 2, v1, 1) == Some([]);
    assert Scan(two[1..], 1, v0, 0) == Then(Byte0(v0, v1), Some([]));
    assert Scan(three[1..][1..][1..], 3, v2, 0) == Some([]);
    assert Scan(three[1..][1..], 2, v1, 0) == Then(Byte1(v1, v2), Some([]));
    assert Scan(three[1..], 1, v0, 0) == Then(Byte0(v0, v1), Then(Byte1(v1, v2), Some([])));
    var (b0, b1) := (Byte0(v0, v1), Byte1(v1, v2));
    assert [b0] + [] == [b0] && [b1] + [] == [b1] && [b0] + [b1] == [b0, b1];
  }

  /** Scanning values gives their bytes. */
  lemma {:induction false} ScanIsBytes(vs: seq<Sextet>)
    requires |vs| % 4 != 1
    ensures Scan(Stream(vs, ServerPad(|vs|)), 0, 0, 0) == Some(Bytes(vs))
  {
    if |vs| == 0 {
    } else if |vs| == 2 {
      ScanEnds(vs[0], vs[1], 0);
      assert vs == [vs[0], vs[1]];
    } else if |vs| == 3 {
      ScanEnds(vs[0], vs[1], vs[2]);
      assert vs == [vs[0], vs[1], vs[2]];
    } else {
      var rest := vs[4..];
      PadRepeats(|rest|);
      ScanIsBytes(rest);
      ScanFour(vs[0], vs[1], vs[2], vs[3], Stream(rest, ServerPad(|rest|)));
      StreamLong(vs, ServerPad(|vs|));
      var (b0, b1, b2) := (Byte0(vs[0], vs[1]), Byte1(vs[1], vs[2]), Byte2(vs[2], vs[3]));
      assert [b0] + ([b1] + ([b2] + Bytes(rest))) == [b0, b1, b2] + Bytes(rest);
    }
  }

  lemma StreamLong(vs: seq<Sextet>, n: nat)
    requires |vs| >= 4
    ensures Stream(vs, n) == [Data(vs[0]), Data(vs[1]), Data(vs[2]), Data(vs[3])] + Stream(vs[4..], n)
  {
  }

  lemma LastByteAlone(a: Byte)
    ensures Byte0(First(a), Second(a, 0)) == a
  {
  }

  /** The server reads back every byte string it writes. */
  lemma {:induction false} DecodeUndoesEncode(raw: seq<Byte>)
    ensures DecodeUrl(EncodeUrl(raw)) == Some(raw)
  {
    EncodedIsData(raw);
    PaddedIsBare(raw);
    TokensOfSymbols(Sextets(raw), ServerPad(|Sextets(raw)|));
    ScanIsBytes(Sextets(raw));
    BytesOfSextets(raw);
  }

  lemma {:induction false} NoBlanks(s: string)
    requires forall i | 0 <= i < |s| :: !Blank(s[i])
    ensures WithoutBlanks(s) == s
  {
    if s != "" {
      NoBlanks(s[1..]);
      assert s == [s[0]] + s[1..];
    }
  }

  lemma {:induction false} ValuesOfSymbols(vs: seq<Sextet>)
    ensures Values(Symbols(vs)) == Some(vs)
  {
    if vs != [] {
      SymbolIsData(vs[0]);
      assert Symbols(vs)[1..] == Symbols(vs[1..]);
      ValuesOfSymbols(vs[1..]);
      assert vs == [vs[0]] + vs[1..];
    }
  }

  lemma {:induction false} BytesOfSextets(raw: seq<Byte>)
    ensures Bytes(Sextets(raw)) == raw
  {
    if raw == [] {
    } else if |raw| == 1 {
      LastByteAlone(raw[0]);
    } else if |raw| == 2 {
      SextetsRejoin(raw[0], raw[1], 0);
    } else {
      BytesOfQuad(raw[0], raw[1], raw[2], Sextets(raw[3..]));
      BytesOfSextets(raw[3..]);
      assert raw == [raw[0], raw[1], raw[2]] + raw[3..];
    }
  }

  lemma BytesOfQuad(a: Byte, b: Byte, c: Byte, rest: seq<Sextet>)
    ensures Bytes([First(a), Second(a, b), Third(b, c), Fourth(c)] + rest) == [a, b, c] + Bytes(rest)
  {
    SextetsRejoin(a, b, c);
    assert ([First(a), Second(a, b), Third(b, c), Fourth(c)] + rest)[4..] == rest;
  }

  /** Padding to a whole quad is dropped again. */
  lemma UnpaddedPad(data: string)
    requires IsData(data) && |data| % 4 != 1
    ensures Unpadded(data + Pad(BrowserPad(|data|))) == data
  {
    var n := BrowserPad(|data|);
    var s := data + Pad(n);
    if n == 0 {
      assert s == data;
    } else if n == 1 {
      assert s[|s| - 1] == '=' && s[|s| - 2] == data[|data| - 1] && s[..|s| - 1] == data;
    } else {
      assert s[|s| - 1] == '=' && s[|s| - 2] == '=' && s[..|s| - 2] == data;
    }
  }

  /** The extension, with its own padding formula and reader, reads back the same bytes. */
  lemma BrowserReadsTheSame(raw: seq<Byte>)
    ensures DecodeInBrowser(EncodeUrl(raw)) == Some(raw)
  {
    EncodedIsData(raw);
    PaddedIsBare(raw);
    UnpaddedPad(Bare(raw));
    NoBlanks(Bare(raw) + Pad(BrowserPad(|Bare(raw)|)));
    ValuesOfSymbols(Sextets(raw));
    BytesOfSextets(raw);
  }
}
