/** The signed login token (auth/token.py) and the extension's reading of its expiry
    (token-validity.js). JSON and the keyed digest are parameters. */
module AuthToken {
  import opened Basics
  import opened Base64Url
  import opened Text
  import opened Utf8

  datatype Json =
    | JsonNull
    | JsonBool(b: bool)
    | JsonInt(n: int)
    | JsonReal(r: real)
    | JsonText(text: string)
    | JsonList(items: seq<Json>)
    | JsonObject(fields: map<string, Json>)

  /** `dumps` writes ASCII bytes; `loads` is the server's reader; `expiryIn` is what the extension's
      reader finds as a whole-number `exp` of an object; `mac` is the keyed digest. */
  datatype Codec = Codec(
    dumps: Json -> seq<Byte>, loads: seq<Byte> -> Option<Json>, expiryIn: seq<Byte> -> Option<int>,
    mac: (string, string) -> seq<Byte>)

  datatype Claims = Claims(userId: string, tenantId: string, role: string)

  function Payload(c: Claims, exp: int): Json {
    JsonObject(map["typ" := JsonText("auth"), "sub" := JsonText(c.userId), "t" := JsonText(c.tenantId),
                   "role" := JsonText(c.role), "exp" := JsonInt(exp)])
  }

  /** Both readers recover what the writer wrote, which is never the empty text. */
  ghost predicate Faithful(codec: Codec) {
    forall c: Claims, exp: int ::
      var bytes := codec.dumps(Payload(c, exp));
      bytes != [] && codec.loads(bytes) == Some(Payload(c, exp)) && codec.expiryIn(bytes) == Some(exp)
  }

  /** `int(x)`: towards zero. */
  function Truncated(x: real): int {
    if x >= 0.0 then x.Floor else -((-x).Floor)
  }

  function Sign(codec: Codec, payload: string, key: string): string {
    EncodeUrl(codec.mac(key, payload))
  }

  function Mint(codec: Codec, c: Claims, key: string, ttl: int, now: real): string {
    var payload := EncodeUrl(codec.dumps(Payload(c, Truncated(now + ttl as real))));
    payload + "." + Sign(codec, payload, key)
  }

  predicate IsAscii(s: string) {
    forall i | 0 <= i < |s| :: s[i] as int < 128
  }

  /** The claims of a decoded payload that has not expired. */
  function Accepted(payload: Json, now: real): Option<Claims> {
    if !payload.JsonObject? then None
    else
      var f := payload.fields;
      if Lookup(f, "typ") != Some(JsonText("auth")) then None
      else
        var (sub, t, role, exp) := (Lookup(f, "sub"), Lookup(f, "t"), Lookup(f, "role"), Lookup(f, "exp"));
        if sub.None? || !sub.value.JsonText? || t.None? || !t.value.JsonText? || role.None? || !role.value.JsonText? then None
        else if exp.None? || !exp.value.JsonInt? then None
        else if now >= exp.value.n as real then None
        else Some(Claims(sub.value.text, t.value.text, role.value.text))
  }

  /** The token gets as far as having its signature compared. */
  predicate Comparable(token: string, key: string) {
    token != "" && key != "" && IsAscii(token) && |Split(token, '.')| == 2
  }

  /** `verify`. */
  function Verify(codec: Codec, token: string, key: string, now: real): Option<Claims> {
    if !Comparable(token, key) then None
    else
      var parts := Split(token, '.');
      if parts[1] != Sign(codec, parts[0], key) then None
      else
        var bytes := DecodeUrl(parts[0]);
        if bytes.None? then None
        else
          var payload := codec.loads(bytes.value);
          if payload.None? then None else Accepted(payload.value, now)
  }

  // ---- minting and verifying -----------------------------------------------

  lemma MintedParts(codec: Codec, c: Claims, key: string, ttl: int, now: real)
    ensures var bytes := codec.dumps(Payload(c, Truncated(now + ttl as real))); var token := Mint(codec, c, key, ttl, now);
      && Split(token, '.') == [EncodeUrl(bytes), Sign(codec, EncodeUrl(bytes), key)]
      && token != "" && IsAscii(token) && DecodeUrl(EncodeUrl(bytes)) == Some(bytes)
  {
    var bytes := codec.dumps(Payload(c, Truncated(now + ttl as real)));
    var payload := EncodeUrl(bytes);
    EncodedIsData(bytes);
    EncodedIsData(codec.mac(key, payload));
    DecodeUndoesEncode(bytes);
    TwoParts(payload, Sign(codec, payload, key));
  }

  lemma TwoParts(payload: string, signature: string)
    requires '.' !in payload && '.' !in signature
    ensures Split(payload + "." + signature, '.') == [payload, signature]
  {
    SplitAround(payload, '.', signature);
    SplitPiece(payload, '.');
    SplitPiece(signature, '.');
    assert payload + "." + signature == payload + ['.'] + signature;
  }

  lemma PartsRejoin(token: string)
    requires |Split(token, '.')| == 2
    ensures var parts := Split(token, '.'); token == parts[0] + "." + parts[1] && '.' !in parts[0]
  {
    JoinSplit(token, '.');
    var parts := Split(token, '.');
    assert Join(parts[1..], '.') == parts[1];
    assert token == parts[0] + ['.'] + parts[1];
  }

  /** A minted token verifies to its own claims until it expires, under any key but the empty one,
      and never after. */
  lemma VerifyUndoesMint(codec: Codec, c: Claims, key: string, ttl: int, issued: real, now: real)
    requires Faithful(codec)
    ensures Verify(codec, Mint(codec, c, key, ttl, issued), key, now) ==
      if key != "" && now < Truncated(issued + ttl as real) as real then Some(c) else None
  {
    MintedParts(codec, c, key, ttl, issued);
    var exp := Truncated(issued + ttl as real);
    assert codec.loads(codec.dumps(Payload(c, exp))) == Some(Payload(c, exp));
    var f := Payload(c, exp).fields;
    assert f["typ"] == JsonText("auth") && f["sub"] == JsonText(c.userId) && f["t"] == JsonText(c.tenantId);
    assert f["role"] == JsonText(c.role) && f["exp"] == JsonInt(exp);
  }

  /** A token minted under one key verifies under another exactly when the two keys' digests of its
      payload part are the same and it has not expired. */
  lemma ForeignKeyIff(codec: Codec, c: Claims, mintKey: string, key: string, ttl: int, issued: real, now: real)
    requires Faithful(codec)
    ensures var exp := Truncated(issued + ttl as real); var part := EncodeUrl(codec.dumps(Payload(c, exp)));
      Verify(codec, Mint(codec, c, mintKey, ttl, issued), key, now) ==
        if key != "" && codec.mac(mintKey, part) == codec.mac(key, part) && now < exp as real then Some(c) else None
  {
    var exp := Truncated(issued + ttl as real);
    var part := EncodeUrl(codec.dumps(Payload(c, exp)));
    MintedParts(codec, c, mintKey, ttl, issued);
    DecodeUndoesEncode(codec.mac(mintKey, part));
    DecodeUndoesEncode(codec.mac(key, part));
    if codec.mac(mintKey, part) == codec.mac(key, part) {
      MintedParts(codec, c, key, ttl, issued);
      VerifyUndoesMint(codec, c, key, ttl, issued, now);
    }
  }

  /** `int` drops the fraction, towards zero. */
  lemma TruncatedTowardsZero(x: real)
    ensures x >= 0.0 ==> Truncated(x) as real <= x < (Truncated(x) + 1) as real
    ensures x <= 0.0 ==> (Truncated(x) - 1) as real < x <= Truncated(x) as real
  {
  }

  /** Signing and comparing raise on text that is not ASCII; neither part of a token that gets there is. */
  lemma ComparesOnlyAscii(token: string, key: string)
    requires Comparable(token, key)
    ensures var parts := Split(token, '.');
      |parts| == 2 && (forall c | c in parts[0] :: c as int < 128) && (forall c | c in parts[1] :: c as int < 128)
  {
    PartsRejoin(token);
    var parts := Split(token, '.');
    forall c | c in parts[0] || c in parts[1] ensures c as int < 128 {
      assert c in token;
      var i :| 0 <= i < |token| && token[i] == c;
    }
  }

  /** What an accepted token must hold; the second part is the base64url text of the keyed digest of the
      first. */
  ghost predicate Genuine(codec: Codec, token: string, key: string, now: real, c: Claims, encoded: string, payload: Json) {
    && token == encoded + "." + EncodeUrl(codec.mac(key, encoded))
    && (forall ch | ch in encoded :: ch != '.' && ch as int < 128)
    && DecodeUrl(encoded).Some? && codec.loads(DecodeUrl(encoded).value) == Some(payload)
    && payload.JsonObject?
    && Lookup(payload.fields, "typ") == Some(JsonText("auth"))
    && Lookup(payload.fields, "sub") == Some(JsonText(c.userId))
    && Lookup(payload.fields, "t") == Some(JsonText(c.tenantId))
    && Lookup(payload.fields, "role") == Some(JsonText(c.role))
    && exists exp: int :: Lookup(payload.fields, "exp") == Some(JsonInt(exp)) && now < exp as real
  }

  /** Verification accepts exactly the genuine tokens: everything else fails closed. */
  lemma VerifyIff(codec: Codec, token: string, key: string, now: real, c: Claims)
    ensures Verify(codec, token, key, now) == Some(c) <==>
      key != "" && exists encoded, payload :: Genuine(codec, token, key, now, c, encoded, payload)
  {
    if Verify(codec, token, key, now) == Some(c) {
      AcceptedIsGenuine(codec, token, key, now, c);
    }
    if key != "" && exists encoded, payload :: Genuine(codec, token, key, now, c, encoded, payload) {
      var encoded, payload :| Genuine(codec, token, key, now, c, encoded, payload);
      EncodedIsData(codec.mac(key, encoded));
      TwoParts(encoded, Sign(codec, encoded, key));
    }
  }

  lemma AcceptedIsGenuine(codec: Codec, token: string, key: string, now: real, c: Claims)
    requires Verify(codec, token, key, now) == Some(c)
    ensures exists encoded, payload :: Genuine(codec, token, key, now, c, encoded, payload)
  {
    var parts := Split(token, '.');
    PartsRejoin(token);
    var payload := codec.loads(DecodeUrl(parts[0]).value).value;
    assert IsAscii(parts[0]) by {
      assert forall i | 0 <= i < |parts[0]| :: parts[0][i] == token[i];
    }
    assert Genuine(codec, token, key, now, c, parts[0], payload);
  }

  /** Two accepted tokens with the same payload part are the same token. */
  lemma {:induction false} OneTokenPerPayload(codec: Codec, a: string, b: string, key: string, now: real)
    requires Verify(codec, a, key, now).Some? && Verify(codec, b, key, now).Some?
    requires Split(a, '.')[0] == Split(b, '.')[0]
    ensures a == b
  {
    PartsRejoin(a);
    PartsRejoin(b);
  }

  // ---- the extension -------------------------------------------------------

  const SKEW_SECONDS := 60

  /** `tokenExpiry`. */
  function TokenExpiry(codec: Codec, token: string): Option<int> {
    var parts := Split(token, '.');
    if |parts| != 2 || parts[0] == "" then None
    else
      var bytes := DecodeInBrowser(parts[0]);
      if bytes.None? then None else codec.expiryIn(bytes.value)
  }

  datatype Marker = Marker(signedIn: bool, expired: bool)

  /** `authMarker`. */
  function AuthMarker(codec: Codec, token: string, nowSec: int, trustLocalExpiry: bool): Marker {
    if token == "" then Marker(false, false)
    else
      var exp := if trustLocalExpiry then TokenExpiry(codec, token) else None;
      if exp.Some? && nowSec >= exp.value - SKEW_SECONDS then Marker(false, true) else Marker(true, false)
  }

  lemma ClientReadsExpiry(codec: Codec, c: Claims, key: string, ttl: int, issued: real)
    requires Faithful(codec)
    ensures TokenExpiry(codec, Mint(codec, c, key, ttl, issued)) == Some(Truncated(issued + ttl as real))
  {
    MintedParts(codec, c, key, ttl, issued);
    var exp := Truncated(issued + ttl as real);
    var bytes := codec.dumps(Payload(c, exp));
    BrowserReadsTheSame(bytes);
    assert codec.expiryIn(bytes) == Some(exp);
  }

  /** Only a readable expiry counts: without one, or when the local clock is not trusted, a token that is
      held means signed in, and the verdict is left to the server. */
  lemma UnknownIsSignedIn(codec: Codec, token: string, nowSec: int, trustLocalExpiry: bool)
    ensures AuthMarker(codec, token, nowSec, trustLocalExpiry) ==
      if token == "" then Marker(false, false)
      else if trustLocalExpiry && TokenExpiry(codec, token).Some? && TokenExpiry(codec, token).value <= nowSec + 60
      then Marker(false, true) else Marker(true, false)
    ensures TokenExpiry(codec, token).Some? ==> exists payload, signature ::
      '.' !in payload && payload != "" && token == payload + "." + signature && '.' !in signature &&
      DecodeInBrowser(payload).Some? && TokenExpiry(codec, token) == codec.expiryIn(DecodeInBrowser(payload).value)
  {
    if TokenExpiry(codec, token).Some? {
      PartsRejoin(token);
      JoinSplit(token, '.');
      assert Split(token, '.')[1] in Split(token, '.');
    }
  }

  /** The sign-in gate flips exactly when the server would refuse the token sixty seconds later: so
      never after the server, and never more than sixty seconds before. */
  lemma GateFlipsSixtySecondsEarly(codec: Codec, c: Claims, key: string, ttl: int, issued: real, now: real)
    requires Faithful(codec) && key != ""
    ensures var token := Mint(codec, c, key, ttl, issued); var marker := AuthMarker(codec, token, now.Floor, true);
      && (marker.expired <==> Verify(codec, token, key, now + SKEW_SECONDS as real).None?)
      && (marker.expired <==> !marker.signedIn)
      && (Verify(codec, token, key, now).None? ==> marker.expired)
  {
    MintedParts(codec, c, key, ttl, issued);
    ClientReadsExpiry(codec, c, key, ttl, issued);
    VerifyUndoesMint(codec, c, key, ttl, issued, now);
    VerifyUndoesMint(codec, c, key, ttl, issued, now + SKEW_SECONDS as real);
  }

  // ---- the header the extension sends --------------------------------------

  predicate HeaderSafe(c: char) {
    '!' <= c <= '~'
  }

  /** What the extension keeps of a token it is given: its printable ASCII. */
  function Cleaned(s: string): string {
    if s == "" then "" else (if HeaderSafe(s[0]) then [s[0]] else "") + Cleaned(s[1..])
  }

  /** Printable ASCII is 0x21 to 0x7e. */
  lemma HeaderSafeIff(c: char)
    ensures HeaderSafe(c) <==> 0x21 <= c as int <= 0x7e
  {
  }

  /** Only printable ASCII is kept, and a text is left alone exactly when it is nothing else. */
  lemma {:induction false} CleanedIsSafe(s: string)
    ensures forall c | c in Cleaned(s) :: HeaderSafe(c) && c in s
    ensures |Cleaned(s)| <= |s|
    ensures Cleaned(s) == s <==> forall c | c in s :: HeaderSafe(c)
  {
    if s != "" {
      CleanedIsSafe(s[1..]);
      assert s == [s[0]] + s[1..];
      if !HeaderSafe(s[0]) {
        assert |Cleaned(s)| < |s|;
      }
    }
  }

  lemma TwoPartsAreSafe(payload: string, signature: string)
    requires IsData(payload) && IsData(signature)
    ensures Cleaned(payload + "." + signature) == payload + "." + signature
  {
    forall c | c in payload + "." + signature ensures HeaderSafe(c) {
      assert c in payload || c == '.' || c in signature;
    }
    CleanedIsSafe(payload + "." + signature);
  }

  /** Cleaning never changes a token the server minted. */
  lemma CleaningKeepsMintedTokens(codec: Codec, c: Claims, key: string, ttl: int, now: real)
    ensures Cleaned(Mint(codec, c, key, ttl, now)) == Mint(codec, c, key, ttl, now)
  {
    var payload := EncodeUrl(codec.dumps(Payload(c, Truncated(now + ttl as real))));
    EncodedIsData(codec.dumps(Payload(c, Truncated(now + ttl as real))));
    EncodedIsData(codec.mac(key, payload));
    TwoPartsAreSafe(payload, Sign(codec, payload, key));
  }

  lemma {:induction false} NothingKeptIff(s: string)
    ensures Cleaned(s) == "" <==> forall c | c in s :: !HeaderSafe(c)
  {
    if s != "" {
      NothingKeptIff(s[1..]);
      assert s == [s[0]] + s[1..];
    }
  }
}
