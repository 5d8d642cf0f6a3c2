/** What the server keeps of client-supplied observations (api/capture_router.py). */
module CaptureIngest {
  import opened Basics
  import opened Utf8

  /** A JSON value as far as a body is concerned: text given by its code points, or not text. */
  datatype Json = JsonText(points: seq<nat>) | JsonOther

  /** Encoding a text that holds a lone surrogate raises. */
  datatype Body = Absent | Kept(text: seq<Scalar>) | EncodeError

  predicate AllScalars(points: seq<nat>) {
    forall p | p in points :: IsScalar(p)
  }

  lemma {:induction false} DecodedAreScalars(b: seq<Byte>, s: seq<Scalar>, n: nat)
    requires n <= |Encode(s)| && b == Encode(s)[..n]
    ensures AllScalars(DecodeIgnore(b))
  {
    TruncationIsLongest(s, n);
  }

  /** `_capped_body`. */
  function CappedBody(value: Json, maxBytes: nat): Body {
    if value.JsonOther? || value.points == [] then Absent
    else if !AllScalars(value.points) then EncodeError
    else
      var text: seq<Scalar> := value.points;
      var encoded := Encode(text);
      if |encoded| <= maxBytes then Kept(text)
      else
        DecodedAreScalars(encoded[..maxBytes], text, maxBytes);
        Kept(DecodeIgnore(encoded[..maxBytes]))
  }

  /** Only text that is not empty is kept, and encoding raises exactly when some code point of it is no
      scalar value. */
  lemma CappedBodyCases(value: Json, maxBytes: nat)
    ensures CappedBody(value, maxBytes).Absent? <==> value.JsonOther? || value.points == []
    ensures CappedBody(value, maxBytes).EncodeError? <==>
      value.JsonText? && exists p | p in value.points :: 0xD800 <= p < 0xE000 || p >= 0x110000
  {
  }

  /** A body that is kept is within the cap and is the longest prefix that is; one within the cap
      is kept whole; and capping again changes nothing. */
  lemma CappedBodyFits(value: Json, maxBytes: nat)
    requires CappedBody(value, maxBytes).Kept?
    ensures var text: seq<Scalar> := value.points; var kept := CappedBody(value, maxBytes).text;
      && |Encode(kept)| <= maxBytes && kept <= text && Encode(kept) <= Encode(text)
      && (forall j | |kept| < j <= |text| :: |Encode(text[..j])| > maxBytes)
      && (kept != [] ==> CappedBody(JsonText(kept), maxBytes) == Kept(kept))
  {
    var text: seq<Scalar> := value.points;
    assert text[..|text|] == text;
    if |Encode(text)| > maxBytes {
      TruncateKeepsLongestPrefix(text, maxBytes);
    }
  }

  /** The bytes stored for a captured script (capture/driver.py): truncated text re-encoded. */
  function StoredBytes(source: seq<Scalar>, maxBytes: nat): seq<Byte> {
    var raw := Encode(source);
    if |raw| > maxBytes then
      DecodedAreScalars(raw[..maxBytes], source, maxBytes);
      Encode(DecodeIgnore(raw[..maxBytes]))
    else raw
  }

  /** Stored bytes are always a prefix of the script's own, within the cap, and well formed. */
  lemma StoredBytesArePrefix(source: seq<Scalar>, maxBytes: nat)
    ensures var stored := StoredBytes(source, maxBytes);
      |stored| <= maxBytes && stored <= Encode(source) && AllScalars(DecodeIgnore(stored))
    ensures exists k | 0 <= k <= |source| :: StoredBytes(source, maxBytes) == Encode(source[..k]) &&
              forall j | k < j <= |source| :: |Encode(source[..j])| > maxBytes
  {
    var raw := Encode(source);
    assert source[..|source|] == source;
    RoundTrip(source);
    if |raw| > maxBytes {
      TruncateKeepsLongestPrefix(source, maxBytes);
      var k :| 0 <= k <= |source| && DecodeIgnore(raw[..maxBytes]) == source[..k] && Encode(source[..k]) <= raw[..maxBytes];
      RoundTrip(source[..k]);
    }
  }

  // ---- observations --------------------------------------------------------

  /** What the URL parser makes of an item's URL: `scheme://host/path`, nothing usable (no URL, another
      scheme or no host), or an exception, as for an unclosed bracket. */
  datatype Target = Parsed(url: string) | Unusable | Refused

  /** One item: the upper-cased verb, its target and its bodies. */
  datatype Item = Item(verb: string, target: Target, reqBody: Json, respBody: Json)

  datatype Entry = Entry(verb: string, url: string, reqBody: Body, respBody: Body)

  function KeyOf(verb: string, url: string): string {
    verb + " " + url
  }

  predicate Usable(item: Item) {
    item.verb != "" && item.target.Parsed?
  }

  /** Sightings are told apart by verb and URL, as long as no verb holds a blank. */
  lemma {:induction false} KeysTellApart(verb: string, url: string, verb2: string, url2: string)
    requires ' ' !in verb && ' ' !in verb2
    ensures KeyOf(verb, url) == KeyOf(verb2, url2) <==> verb == verb2 && url == url2
  {
    var (a, b) := (KeyOf(verb, url), KeyOf(verb2, url2));
    if verb != "" && verb2 != "" {
      assert a == [verb[0]] + KeyOf(verb[1..], url) && b == [verb2[0]] + KeyOf(verb2[1..], url2);
      assert a[1..] == KeyOf(verb[1..], url) && b[1..] == KeyOf(verb2[1..], url2);
      assert verb == [verb[0]] + verb[1..] && verb2 == [verb2[0]] + verb2[1..];
      KeysTellApart(verb[1..], url, verb2[1..], url2);
    } else if verb == verb2 {
      assert a[1..] == url && b[1..] == url2;
    } else {
      assert a[0] != b[0];
    }
  }

  /** The parser raises on the item. An item without a verb never gets to it. */
  predicate Unparsable(item: Item) {
    item.verb != "" && item.target.Refused?
  }

  function EntryOf(item: Item, maxReq: nat, maxResp: nat): Entry
    requires Usable(item)
  {
    Entry(item.verb, item.target.url, CappedBody(item.reqBody, maxReq), CappedBody(item.respBody, maxResp))
  }

  /** The entry is the item's: its verb and URL, and each body under its own cap. */
  predicate IsEntryOf(e: Entry, item: Item, maxReq: nat, maxResp: nat)
    requires Usable(item)
  {
    e.verb == item.verb && e.url == item.target.url &&
    e.reqBody == CappedBody(item.reqBody, maxReq) && e.respBody == CappedBody(item.respBody, maxResp)
  }

  predicate Raises(e: Entry) {
    e.reqBody.EncodeError? || e.respBody.EncodeError?
  }

  /** `item` is the first usable one with its key among `items`. */
  ghost predicate FirstSighting(items: seq<Item>, i: nat)
    requires i < |items|
  {
    Usable(items[i]) && forall j | 0 <= j < i && Usable(items[j]) ::
      KeyOf(items[j].verb, items[j].target.url) != KeyOf(items[i].verb, items[i].target.url)
  }

  /** `picked` are the first `i` items' first sightings, in order, and `out` their entries. */
  ghost predicate Picks(items: seq<Item>, i: nat, picked: seq<nat>, out: seq<Entry>, maxReq: nat, maxResp: nat)
    requires i <= |items|
  {
    && |picked| == |out|
    && (forall a, b | 0 <= a < b < |picked| :: picked[a] < picked[b])
    && (forall a | 0 <= a < |picked| :: picked[a] < i && FirstSighting(items, picked[a]) &&
          IsEntryOf(out[a], items[picked[a]], maxReq, maxResp) && !Raises(out[a]))
    && (forall j | 0 <= j < i && FirstSighting(items, j) :: j in picked)
  }

  ghost predicate SeenAre(items: seq<Item>, i: nat, seen: set<string>)
    requires i <= |items|
  {
    forall key :: key in seen <==>
      exists j | 0 <= j < i :: Usable(items[j]) && key == KeyOf(items[j].verb, items[j].target.url)
  }

  lemma SeenNext(items: seq<Item>, i: nat, seen: set<string>)
    requires i < |items| && SeenAre(items, i, seen)
    ensures Usable(items[i]) ==> SeenAre(items, i + 1, seen + {KeyOf(items[i].verb, items[i].target.url)})
    ensures !Usable(items[i]) ==> SeenAre(items, i + 1, seen)
    ensures FirstSighting(items, i) <==> Usable(items[i]) && KeyOf(items[i].verb, items[i].target.url) !in seen
  {
    if Usable(items[i]) {
      var mine := KeyOf(items[i].verb, items[i].target.url);
      forall key | key in seen + {mine}
        ensures exists j | 0 <= j < i + 1 :: Usable(items[j]) && key == KeyOf(items[j].verb, items[j].target.url)
      {
        if key in seen {
          var j :| 0 <= j < i && Usable(items[j]) && key == KeyOf(items[j].verb, items[j].target.url);
        }
      }
    }
  }

  lemma PicksNext(items: seq<Item>, i: nat, picked: seq<nat>, out: seq<Entry>, maxReq: nat, maxResp: nat)
    requires i < |items| && Picks(items, i, picked, out, maxReq, maxResp)
    ensures !FirstSighting(items, i) ==> Picks(items, i + 1, picked, out, maxReq, maxResp)
    ensures FirstSighting(items, i) && !Raises(EntryOf(items[i], maxReq, maxResp)) ==>
      Picks(items, i + 1, picked + [i], out + [EntryOf(items[i], maxReq, maxResp)], maxReq, maxResp)
  {
  }

  lemma PicksAreDistinct(items: seq<Item>, i: nat, picked: seq<nat>, out: seq<Entry>, maxReq: nat, maxResp: nat, a: nat, b: nat)
    requires i <= |items| && Picks(items, i, picked, out, maxReq, maxResp) && a < b < |out|
    ensures (out[a].verb, out[a].url) != (out[b].verb, out[b].url)
  {
    assert FirstSighting(items, picked[b]) && FirstSighting(items, picked[a]) && picked[a] < picked[b];
  }

  lemma EntriesAreDistinct(items: seq<Item>, i: nat, picked: seq<nat>, out: seq<Entry>, maxReq: nat, maxResp: nat)
    requires i <= |items| && Picks(items, i, picked, out, maxReq, maxResp)
    ensures Distinct(out)
  {
    forall a, b | 0 <= a < b < |out| ensures (out[a].verb, out[a].url) != (out[b].verb, out[b].url) {
      PicksAreDistinct(items, i, picked, out, maxReq, maxResp, a, b);
    }
  }

  /** No two entries have the same verb and URL. */
  predicate Distinct(out: seq<Entry>) {
    forall a, b | 0 <= a < b < |out| :: (out[a].verb, out[a].url) != (out[b].verb, out[b].url)
  }

  /** How many first sightings there are among the first `n` items. */
  ghost function Sightings(items: seq<Item>, n: nat): nat
    requires n <= |items|
  {
    if n == 0 then 0 else Sightings(items, n - 1) + if FirstSighting(items, n - 1) then 1 else 0
  }

  /** A text body with a code point that is not a scalar value. */
  predicate HasSurrogate(body: Json) {
    body.JsonText? && exists p | p in body.points :: !IsScalar(p)
  }

  /** Nothing before the item fills the cap; the cap is only looked at after a first sighting. */
  ghost predicate LetIn(items: seq<Item>, i: nat, cap: int)
    requires i < |items|
  {
    Sightings(items, i) < cap || Sightings(items, i) == 0
  }

  /** The item itself makes the call raise: its URL cannot be parsed, or it is a first sighting and a
      body cannot be encoded. A later sighting is parsed before it is skipped. */
  ghost predicate Fatal(items: seq<Item>, i: nat)
    requires i < |items|
  {
    Unparsable(items[i]) || (FirstSighting(items, i) && (HasSurrogate(items[i].reqBody) || HasSurrogate(items[i].respBody)))
  }

  /** Such an item is let in by the cap. */
  ghost predicate WillRaise(items: seq<Item>, cap: int) {
    exists i | 0 <= i < |items| :: LetIn(items, i, cap) && Fatal(items, i)
  }

  lemma RaisesIff(item: Item, maxReq: nat, maxResp: nat)
    requires Usable(item)
    ensures Raises(EntryOf(item, maxReq, maxResp)) <==> HasSurrogate(item.reqBody) || HasSurrogate(item.respBody)
  {
  }

  /** `picked` are the first `n` items' first sightings, in order. */
  ghost predicate Lists(items: seq<Item>, n: nat, picked: seq<nat>)
    requires n <= |items|
  {
    && (forall a, b | 0 <= a < b < |picked| :: picked[a] < picked[b])
    && (forall a | 0 <= a < |picked| :: picked[a] < n && FirstSighting(items, picked[a]))
    && (forall j | 0 <= j < n && FirstSighting(items, j) :: j in picked)
  }

  lemma SomethingListed(items: seq<Item>, n: nat, picked: seq<nat>)
    requires n <= |items| && Lists(items, n, picked)
    ensures picked != [] ==> n > 0
  {
    if picked != [] {
      assert picked[0] < n;
    }
  }

  lemma LastListed(items: seq<Item>, n: nat, picked: seq<nat>)
    requires 0 < n <= |items| && Lists(items, n, picked)
    ensures if FirstSighting(items, n - 1)
      then picked != [] && Lists(items, n - 1, picked[..|picked| - 1]) else Lists(items, n - 1, picked)
  {
    if FirstSighting(items, n - 1) {
      var j :| 0 <= j < |picked| && picked[j] == n - 1;
      assert picked[|picked| - 1] <= picked[j];
      forall k | 0 <= k < n - 1 && FirstSighting(items, k) ensures k in picked[..j] {
        assert k in picked;
      }
    }
  }

  lemma {:induction false} ListedAreSightings(items: seq<Item>, n: nat, picked: seq<nat>)
    requires n <= |items| && Lists(items, n, picked)
    ensures |picked| == Sightings(items, n)
  {
    SomethingListed(items, n, picked);
    if n > 0 {
      LastListed(items, n, picked);
      ListedAreSightings(items, n - 1, if FirstSighting(items, n - 1) then picked[..|picked| - 1] else picked);
    }
  }

  lemma PickedAreSightings(items: seq<Item>, n: nat, picked: seq<nat>, out: seq<Entry>, maxReq: nat, maxResp: nat)
    requires n <= |items| && Picks(items, n, picked, out, maxReq, maxResp)
    ensures |picked| == Sightings(items, n)
  {
    ListedAreSightings(items, n, picked);
  }

  lemma {:induction false} SightingsGrow(items: seq<Item>, m: nat, n: nat)
    requires m <= n <= |items|
    ensures Sightings(items, m) <= Sightings(items, n)
    decreases n - m
  {
    if m < n {
      SightingsGrow(items, m, n - 1);
    }
  }

  ghost predicate NoneUnparsable(items: seq<Item>, n: nat)
    requires n <= |items|
  {
    forall i | 0 <= i < n :: !Unparsable(items[i])
  }

  /** A loop that ended without raising came to every item the cap lets in. */
  lemma NothingRaised(items: seq<Item>, cap: int, looked: nat, picked: seq<nat>, out: seq<Entry>, maxReq: nat, maxResp: nat)
    requires looked <= |items| && Picks(items, looked, picked, out, maxReq, maxResp) && NoneUnparsable(items, looked)
    requires looked == |items| || (|out| >= cap && out != [])
    ensures !WillRaise(items, cap)
  {
    forall i | 0 <= i < |items| && LetIn(items, i, cap) ensures !Fatal(items, i) {
      PickedAreSightings(items, looked, picked, out, maxReq, maxResp);
      if i >= looked {
        SightingsGrow(items, looked, i);
        assert false;
      }
      if FirstSighting(items, i) {
        assert i in picked;
        RaisesIff(items[i], maxReq, maxResp);
      }
    }
  }

  /** `_normalize_observations`: the first usable sighting of each verb and URL, in order, until the
      cap. `None` means the whole call raised, and it does exactly when the cap still lets in an item
      whose URL cannot be parsed or a first sighting with a body that cannot be encoded. */
  method NormalizeObservations(items: seq<Item>, cap: int, maxReq: nat, maxResp: nat)
    returns (result: Option<seq<Entry>>, ghost picked: seq<nat>, ghost looked: nat)
    ensures result.None? <==> WillRaise(items, cap)
    ensures looked <= |items|
    ensures result.Some? ==> Picks(items, looked, picked, result.value, maxReq, maxResp)
    ensures result.Some? ==> (|result.value| <= cap || |result.value| <= 1)
    ensures result.Some? && |result.value| < cap ==> looked == |items|
    ensures result.Some? ==> Distinct(result.value)
  {
    var out: seq<Entry> := [];
    var seen: set<string> := {};
    picked := [];
    looked := 0;
    for i := 0 to |items|
      invariant looked == i && (|out| < cap || out == [])
      invariant Picks(items, i, picked, out, maxReq, maxResp) && SeenAre(items, i, seen) && NoneUnparsable(items, i)
    {
      var item := items[i];
      SeenNext(items, i, seen);
      PicksNext(items, i, picked, out, maxReq, maxResp);
      PickedAreSightings(items, i, picked, out, maxReq, maxResp);
      if Unparsable(item) {
        assert LetIn(items, i, cap) && Fatal(items, i);
        return None, picked, i;
      }
      if Usable(item) && KeyOf(item.verb, item.target.url) !in seen {
        seen := seen + {KeyOf(item.verb, item.target.url)};
        var entry := EntryOf(item, maxReq, maxResp);
        if Raises(entry) {
          RaisesIff(item, maxReq, maxResp);
          assert LetIn(items, i, cap) && Fatal(items, i);
          return None, picked, i;
        }
        out := out + [entry];
        picked := picked + [i];
        looked := i + 1;
        if |out| >= cap {
          break;
        }
      }
      looked := i + 1;
    }
    NothingRaised(items, cap, looked, picked, out, maxReq, maxResp);
    EntriesAreDistinct(items, looked, picked, out, maxReq, maxResp);
    return Some(out), picked, looked;
  }

  /** One item whose body is a lone surrogate fails the batch. */
  lemma LoneSurrogateRaises(url: string, cap: int)
    ensures WillRaise([Item("POST", Parsed(url), JsonText([0xD800]), JsonOther)], cap)
  {
    var items := [Item("POST", Parsed(url), JsonText([0xD800]), JsonOther)];
    assert FirstSighting(items, 0) && Sightings(items, 0) == 0;
    assert 0xD800 in items[0].reqBody.points && HasSurrogate(items[0].reqBody);
    assert LetIn(items, 0, cap) && Fatal(items, 0);
  }

  /** And so does one URL that cannot be parsed, unless the cap is full before it. */
  lemma RefusedUrlRaises(url: string, cap: int)
    ensures WillRaise([Item("GET", Refused, JsonOther, JsonOther)], cap)
    ensures WillRaise([Item("GET", Parsed(url), JsonOther, JsonOther), Item("GET", Refused, JsonOther, JsonOther)], cap) <==> cap > 1
  {
    var alone := [Item("GET", Refused, JsonOther, JsonOther)];
    assert LetIn(alone, 0, cap) && Fatal(alone, 0);
    var behind := [Item("GET", Parsed(url), JsonOther, JsonOther), Item("GET", Refused, JsonOther, JsonOther)];
    assert FirstSighting(behind, 0) && Sightings(behind, 0) == 0 && Sightings(behind, 1) == 1;
    assert !Fatal(behind, 0) && Fatal(behind, 1);
    assert LetIn(behind, 1, cap) <==> cap > 1;
  }
}
