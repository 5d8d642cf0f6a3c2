/** The capture driver's event pump (capture/driver.py, capture/cdp.py). */
module EventPump {
  import opened Basics
  import opened Utf8
  import CaptureIngest

  /** A CDP session id; `None` on events of the root session. */
  type Sid = Option<string>

  type ScriptKey = (Sid, string)

  /** What is remembered about a source request; the script id in `key` is history. */
  datatype Meta = Meta(key: ScriptKey, url: string, targetType: string)

  datatype Script = Script(url: string, source: seq<Byte>, sha256: string, targetType: string)

  type Observed = (string, string)

  /** What became of a parsed script. History: no branch reads it. */
  datatype Fate =
    | InFlight(id: nat)
    | Captured(sha: string)
    | Duplicate(sha: string)
    | NoSource
    | SessionGone

  datatype Limits = Limits(maxScripts: nat, maxScriptBytes: nat, maxRequests: nat)

  /** A reply frame: the fields a handler looks at. */
  datatype Frame = Frame(error: Option<string>, source: Option<seq<Scalar>>, errorText: Option<string>)

  /** One incoming message, or a command the driver itself sends (`Command`). `target` is the
      normalised URL, `None` when it is not http(s). */
  datatype Event =
    | AttachedToTarget(session: string, targetType: string, waiting: bool)
    | ScriptParsed(parsedIn: Sid, scriptId: string, url: string)
    | RequestWillBeSent(isXhrOrFetch: bool, verb: string, target: Option<string>)
    | DetachedFromTarget(gone: string)
    | Reply(id: nat, frame: Frame)
    | Command
    | Unrelated

  /** The pump's state. `fates`, `asked` (ids of source requests) and `commands` (ids of everything
      else sent) are history. */
  datatype Pump = Pump(
    lastId: nat, types: map<string, string>, detached: set<string>,
    pending: map<nat, Meta>, parsed: set<ScriptKey>, out: seq<Script>, seenSha: set<string>,
    requests: seq<Observed>, seenRequests: set<Observed>,
    navigated: bool, navId: Option<nat>, navError: Option<string>, pageSession: Option<string>, lastEvent: int,
    fates: map<ScriptKey, Fate>, asked: set<nat>, commands: set<nat>)

  const DEBUGGABLE: set<string> := {"page", "iframe", "worker", "service_worker", "shared_worker"}

  /** A command other than a source request: the counter is the connection's. */
  function Send(p: Pump): Pump {
    p.(lastId := p.lastId + 1, commands := p.commands + {p.lastId + 1})
  }

  function TypeOf(p: Pump, sid: Sid): string {
    if sid.Some? && sid.value in p.types then p.types[sid.value] else "page"
  }

  /** Auto-attach is re-armed on every child; debuggable ones also get Debugger and Network. */
  function Enabled(p: Pump, targetType: string): Pump {
    if targetType in DEBUGGABLE then Send(Send(Send(p))) else Send(p)
  }

  /** The first page is sent to the target URL. */
  function Landed(p: Pump, session: string, targetType: string): Pump {
    if targetType == "page" && !p.navigated then
      Send(Send(p)).(navId := Some(p.lastId + 2), pageSession := Some(session), navigated := true)
    else p
  }

  function OnAttached(p: Pump, session: string, targetType: string, waiting: bool, now: int): Pump {
    var enabled := Enabled(p.(types := p.types[session := targetType], lastEvent := now), targetType);
    var landed := Landed(enabled, session, targetType);
    if waiting then Send(landed) else landed
  }

  /** The eager source request for a script just parsed. */
  function Asked(p: Pump, key: ScriptKey, url: string): Pump {
    var id := p.lastId + 1;
    p.(lastId := id, pending := p.pending[id := Meta(key, url, TypeOf(p, key.0))], asked := p.asked + {id},
       fates := p.fates[key := InFlight(id)])
  }

  predicate Gone(detached: set<string>, sid: Sid) {
    sid.Some? && sid.value in detached
  }

  function OnParsed(p: Pump, lim: Limits, sid: Sid, scriptId: string, url: string, now: int): Pump {
    var key := (sid, scriptId);
    if |p.parsed| >= lim.maxScripts || key in p.parsed then p
    else
      var known := p.(parsed := p.parsed + {key}, lastEvent := now);
      if Gone(p.detached, sid) then known.(fates := p.fates[key := SessionGone])
      else Asked(known, key, url)
  }

  /** A source that arrived: stored under its digest unless that is stored already. */
  function Kept(p: Pump, sha: seq<Byte> -> string, info: Meta, raw: seq<Byte>, now: int): Pump {
    var digest := sha(raw);
    if digest in p.seenSha then p.(fates := p.fates[info.key := Duplicate(digest)])
    else p.(seenSha := p.seenSha + {digest}, out := p.out + [Script(info.url, raw, digest, info.targetType)],
            lastEvent := now, fates := p.fates[info.key := Captured(digest)])
  }

  function OnSource(p: Pump, lim: Limits, sha: seq<Byte> -> string, id: nat, frame: Frame, now: int): Pump
    requires id in p.pending
  {
    var info := p.pending[id];
    var popped := p.(pending := p.pending - {id});
    if frame.error.Some? || frame.source.None? || frame.source.value == [] then
      popped.(fates := p.fates[info.key := NoSource])
    else Kept(popped, sha, info, CaptureIngest.StoredBytes(frame.source.value, lim.maxScriptBytes), now)
  }

  function OnRequest(p: Pump, lim: Limits, isXhrOrFetch: bool, verb: string, target: Option<string>): Pump {
    if !isXhrOrFetch || verb == "" || target.None? then p
    else
      var key := (verb, target.value);
      if key in p.seenRequests || |p.seenRequests| >= lim.maxRequests then p
      else p.(seenRequests := p.seenRequests + {key}, requests := p.requests + [key])
  }

  function OnDetached(p: Pump, gone: string): Pump {
    if gone == "" then p
    else
      p.(detached := p.detached + {gone},
         pending := map id | id in p.pending && p.pending[id].key.0 != Some(gone) :: p.pending[id],
         fates := map key | key in p.fates ::
           if p.fates[key].InFlight? && key.0 == Some(gone) then SessionGone else p.fates[key])
  }

  function OnNavAck(p: Pump, frame: Frame): Pump {
    if frame.error.Some? then p.(navError := frame.error)
    else if frame.errorText.Some? && frame.errorText.value != "" then p.(navError := frame.errorText)
    else p
  }

  /** `_route`: the new state and the reply id delivered to whoever waits, if any. */
  function Routed(p: Pump, lim: Limits, sha: seq<Byte> -> string, ev: Event, now: int): (Pump, Option<nat>)
  {
    match ev
    case AttachedToTarget(session, targetType, waiting) => (OnAttached(p, session, targetType, waiting, now), None)
    case ScriptParsed(sid, scriptId, url) => (OnParsed(p, lim, sid, scriptId, url, now), None)
    case RequestWillBeSent(isXhr, verb, target) => (OnRequest(p, lim, isXhr, verb, target), None)
    case DetachedFromTarget(gone) => (OnDetached(p, gone), None)
    case Reply(id, frame) =>
      if id in p.pending then (OnSource(p, lim, sha, id, frame, now), None)
      else (if p.navId == Some(id) then OnNavAck(p, frame) else p, Some(id))
    case Command => (Send(p), None)
    case Unrelated => (p, None)
  }

  /** `_settled`. */
  predicate Settled(p: Pump, now: int, idleSettle: int, minUntil: Option<int>) {
    p.navigated && p.parsed != {} && p.pending == map[] && now - p.lastEvent > idleSettle &&
    (minUntil.None? || now > minUntil.value)
  }

  function Fresh(): Pump {
    Pump(0, map[], {}, map[], {}, [], {}, [], {}, false, None, None, None, 0, map[], {}, {})
  }

  // ---- the accounting ------------------------------------------------------

  /** Ids are never reused, and a source request is never confused with anything else sent. */
  ghost predicate IdsOk(lastId: nat, navId: Option<nat>, pending: set<nat>, asked: set<nat>, commands: set<nat>) {
    && pending <= asked
    && (forall id | id in asked :: id <= lastId && id !in commands)
    && (forall id | id in commands :: id <= lastId)
    && (navId.Some? ==> navId.value in commands)
  }

  /** In-flight fates and pending requests correspond one to one; no pending request belongs to a
      session that is gone, and a script lost with its session does. */
  ghost predicate FlightsOk(pending: map<nat, Meta>, fates: map<ScriptKey, Fate>, detached: set<string>) {
    && (forall id | id in pending ::
          Lookup(fates, pending[id].key) == Some(InFlight(id)) && !Gone(detached, pending[id].key.0))
    && (forall key | key in fates && fates[key].InFlight? ::
          fates[key].id in pending && pending[fates[key].id].key == key)
    && (forall key | key in fates && fates[key].SessionGone? :: Gone(detached, key.0))
  }

  function Digests(out: seq<Script>): (d: seq<string>)
    ensures |d| == |out| && forall i | 0 <= i < |out| :: d[i] == out[i].sha256
  {
    seq(|out|, i requires 0 <= i < |out| => out[i].sha256)
  }

  ghost predicate CapturedAs(fates: map<ScriptKey, Fate>, key: ScriptKey, digest: string) {
    key in fates && fates[key] == Captured(digest)
  }

  /** Stored scripts carry their own digest, fit the cap and have distinct digests. */
  ghost predicate StoreOk(out: seq<Script>, seenSha: set<string>, sha: seq<Byte> -> string, maxBytes: nat) {
    && (forall i | 0 <= i < |out| :: out[i].sha256 == sha(out[i].source) && |out[i].source| <= maxBytes)
    && NoDuplicates(Digests(out)) && Elements(Digests(out)) == seenSha
  }

  /** Captured fates and stored digests correspond one to one; a duplicate's digest is stored. */
  ghost predicate FatesOk(fates: map<ScriptKey, Fate>, seenSha: set<string>) {
    && (forall key | key in fates && (fates[key].Captured? || fates[key].Duplicate?) :: fates[key].sha in seenSha)
    && (forall a, b, digest | CapturedAs(fates, a, digest) && CapturedAs(fates, b, digest) :: a == b)
    && (forall digest | digest in seenSha :: exists key :: CapturedAs(fates, key, digest))
  }

  ghost predicate CapsOk(parsed: set<ScriptKey>, requests: seq<Observed>, seenRequests: set<Observed>, lim: Limits) {
    && |parsed| <= lim.maxScripts
    && |requests| <= lim.maxRequests && NoDuplicates(requests) && Elements(requests) == seenRequests
  }

  ghost predicate Counted(p: Pump, lim: Limits) {
    && p.fates.Keys == p.parsed
    && IdsOk(p.lastId, p.navId, p.pending.Keys, p.asked, p.commands)
    && CapsOk(p.parsed, p.requests, p.seenRequests, lim)
  }

  /** Every parsed script has exactly one fate, and each kind of fate is what it says. */
  ghost predicate Accounted(p: Pump, lim: Limits, sha: seq<Byte> -> string) {
    && Counted(p, lim)
    && FlightsOk(p.pending, p.fates, p.detached)
    && StoreOk(p.out, p.seenSha, sha, lim.maxScriptBytes)
    && FatesOk(p.fates, p.seenSha)
  }

  lemma ParsedFlight(pending: map<nat, Meta>, fates: map<ScriptKey, Fate>, detached: set<string>, id: nat, meta: Meta)
    requires FlightsOk(pending, fates, detached) && id !in pending && meta.key !in fates
    ensures Gone(detached, meta.key.0) ==> FlightsOk(pending, fates[meta.key := SessionGone], detached)
    ensures !Gone(detached, meta.key.0) ==> FlightsOk(pending[id := meta], fates[meta.key := InFlight(id)], detached)
  {
  }

  lemma FlightLands(pending: map<nat, Meta>, fates: map<ScriptKey, Fate>, detached: set<string>, id: nat, fate: Fate)
    requires FlightsOk(pending, fates, detached) && id in pending && !fate.InFlight? && !fate.SessionGone?
    ensures FlightsOk(pending - {id}, fates[pending[id].key := fate], detached)
  {
  }

  /** A script that lands without being stored. */
  lemma NotStored(fates: map<ScriptKey, Fate>, seenSha: set<string>, key: ScriptKey, fate: Fate)
    requires FatesOk(fates, seenSha) && !fate.Captured? && (fate.Duplicate? ==> fate.sha in seenSha)
    requires key in fates ==> !fates[key].Captured?
    ensures FatesOk(fates[key := fate], seenSha)
  {
    var later := fates[key := fate];
    forall digest | digest in seenSha ensures exists other :: CapturedAs(later, other, digest) {
      var other :| CapturedAs(fates, other, digest);
      assert CapturedAs(later, other, digest);
    }
    forall a, b, digest | CapturedAs(later, a, digest) && CapturedAs(later, b, digest) ensures a == b {
      assert CapturedAs(fates, a, digest) && CapturedAs(fates, b, digest);
    }
  }

  lemma Stored(fates: map<ScriptKey, Fate>, seenSha: set<string>, key: ScriptKey, digest: string)
    requires FatesOk(fates, seenSha) && key in fates && !fates[key].Captured? && digest !in seenSha
    ensures FatesOk(fates[key := Captured(digest)], seenSha + {digest})
  {
    var later := fates[key := Captured(digest)];
    forall d | d in seenSha + {digest} ensures exists other :: CapturedAs(later, other, d) {
      if d == digest {
        assert CapturedAs(later, key, d);
      } else {
        var other :| CapturedAs(fates, other, d);
        assert CapturedAs(later, other, d);
      }
    }
    forall a, b, d | CapturedAs(later, a, d) && CapturedAs(later, b, d) ensures a == b {
      if a != key && b != key {
        assert CapturedAs(fates, a, d) && CapturedAs(fates, b, d);
      } else {
        assert a != key ==> CapturedAs(fates, a, d);
        assert b != key ==> CapturedAs(fates, b, d);
      }
    }
  }

  lemma StoreGrows(out: seq<Script>, seenSha: set<string>, sha: seq<Byte> -> string, maxBytes: nat, script: Script)
    requires StoreOk(out, seenSha, sha, maxBytes) && script.sha256 !in seenSha
    requires script.sha256 == sha(script.source) && |script.source| <= maxBytes
    ensures StoreOk(out + [script], seenSha + {script.sha256}, sha, maxBytes)
  {
    AppendDistinct(Digests(out), script.sha256);
    assert Digests(out + [script]) == Digests(out) + [script.sha256];
  }

  lemma {:induction false} SendAccounted(p: Pump, lim: Limits, sha: seq<Byte> -> string)
    requires Accounted(p, lim, sha)
    ensures Accounted(Send(p), lim, sha)
  {
  }

  lemma {:induction false} EnabledAccounted(p: Pump, lim: Limits, sha: seq<Byte> -> string, targetType: string)
    requires Accounted(p, lim, sha)
    ensures Accounted(Enabled(p, targetType), lim, sha)
  {
    SendAccounted(p, lim, sha);
    SendAccounted(Send(p), lim, sha);
    SendAccounted(Send(Send(p)), lim, sha);
  }

  lemma {:induction false} NavigatedAccounted(p: Pump, lim: Limits, sha: seq<Byte> -> string, session: string, id: nat)
    requires Accounted(p, lim, sha) && id in p.commands
    ensures Accounted(p.(navId := Some(id), pageSession := Some(session), navigated := true), lim, sha)
  {
  }

  lemma {:induction false} LandedAccounted(p: Pump, lim: Limits, sha: seq<Byte> -> string, session: string, targetType: string)
    requires Accounted(p, lim, sha)
    ensures Accounted(Landed(p, session, targetType), lim, sha)
  {
    if targetType == "page" && !p.navigated {
      SendAccounted(p, lim, sha);
      SendAccounted(Send(p), lim, sha);
      NavigatedAccounted(Send(Send(p)), lim, sha, session, p.lastId + 2);
    }
  }

  lemma {:induction false} AttachedAccounted(p: Pump, lim: Limits, sha: seq<Byte> -> string, session: string,
                                             targetType: string, waiting: bool, now: int)
    requires Accounted(p, lim, sha)
    ensures Accounted(OnAttached(p, session, targetType, waiting, now), lim, sha)
  {
    var typed := p.(types := p.types[session := targetType], lastEvent := now);
    assert Accounted(typed, lim, sha);
    EnabledAccounted(typed, lim, sha, targetType);
    LandedAccounted(Enabled(typed, targetType), lim, sha, session, targetType);
    SendAccounted(Landed(Enabled(typed, targetType), session, targetType), lim, sha);
  }

  lemma AskedIdIsNew(lastId: nat, navId: Option<nat>, pending: map<nat, Meta>, meta: Meta, asked: set<nat>, commands: set<nat>)
    requires IdsOk(lastId, navId, pending.Keys, asked, commands)
    ensures IdsOk(lastId + 1, navId, pending[lastId + 1 := meta].Keys, asked + {lastId + 1}, commands)
  {
  }

  lemma RecordedFate(fates: map<ScriptKey, Fate>, parsed: set<ScriptKey>, key: ScriptKey, fate: Fate)
    requires fates.Keys == parsed && key !in parsed
    ensures fates[key := fate].Keys == parsed + {key} && |parsed + {key}| == |parsed| + 1
  {
  }

  /** The only three ways a parse event can end. */
  lemma {:induction false} ParsedCases(p: Pump, lim: Limits, sid: Sid, scriptId: string, url: string, now: int)
    ensures var q := OnParsed(p, lim, sid, scriptId, url, now); var key := (sid, scriptId); var id := p.lastId + 1;
      || q == p
      || (key !in p.parsed && |p.parsed| < lim.maxScripts && Gone(p.detached, sid) &&
          q == p.(parsed := p.parsed + {key}, lastEvent := now, fates := p.fates[key := SessionGone]))
      || (key !in p.parsed && |p.parsed| < lim.maxScripts && !Gone(p.detached, sid) &&
          q == p.(parsed := p.parsed + {key}, lastEvent := now, lastId := id, asked := p.asked + {id},
                  pending := p.pending[id := Meta(key, url, TypeOf(p, sid))], fates := p.fates[key := InFlight(id)]))
  {
  }

  lemma {:induction false} ParsedCounted(p: Pump, lim: Limits, sid: Sid, scriptId: string, url: string, now: int)
    requires Counted(p, lim)
    ensures Counted(OnParsed(p, lim, sid, scriptId, url, now), lim)
  {
    ParsedCases(p, lim, sid, scriptId, url, now);
    var q := OnParsed(p, lim, sid, scriptId, url, now);
    if q != p {
      RecordedFate(p.fates, p.parsed, (sid, scriptId), q.fates[(sid, scriptId)]);
      AskedIdIsNew(p.lastId, p.navId, p.pending, Meta((sid, scriptId), url, TypeOf(p, sid)), p.asked, p.commands);
    }
  }

  lemma {:induction false} ParsedFlights(p: Pump, lim: Limits, sid: Sid, scriptId: string, url: string, now: int)
    requires FlightsOk(p.pending, p.fates, p.detached) && p.fates.Keys == p.parsed && p.lastId + 1 !in p.pending
    ensures var q := OnParsed(p, lim, sid, scriptId, url, now); FlightsOk(q.pending, q.fates, q.detached)
  {
    ParsedCases(p, lim, sid, scriptId, url, now);
    var q := OnParsed(p, lim, sid, scriptId, url, now);
    if q != p {
      ParsedFlight(p.pending, p.fates, p.detached, p.lastId + 1, Meta((sid, scriptId), url, TypeOf(p, sid)));
    }
  }

  lemma {:induction false} ParsedFates(p: Pump, lim: Limits, sid: Sid, scriptId: string, url: string, now: int)
    requires FatesOk(p.fates, p.seenSha) && p.fates.Keys == p.parsed
    ensures FatesOk(OnParsed(p, lim, sid, scriptId, url, now).fates, p.seenSha)
  {
    ParsedCases(p, lim, sid, scriptId, url, now);
    var q := OnParsed(p, lim, sid, scriptId, url, now);
    if q != p {
      NotStored(p.fates, p.seenSha, (sid, scriptId), q.fates[(sid, scriptId)]);
    }
  }

  lemma {:induction false} ParsedAccounted(p: Pump, lim: Limits, sha: seq<Byte> -> string, sid: Sid, scriptId: string, url: string, now: int)
    requires Accounted(p, lim, sha)
    ensures Accounted(OnParsed(p, lim, sid, scriptId, url, now), lim, sha)
  {
    ParsedCounted(p, lim, sid, scriptId, url, now);
    ParsedFlights(p, lim, sid, scriptId, url, now);
    ParsedFates(p, lim, sid, scriptId, url, now);
  }

  /** The only three ways a source reply can end. */
  lemma {:induction false} SourceCases(p: Pump, lim: Limits, sha: seq<Byte> -> string, id: nat, frame: Frame, now: int)
    requires id in p.pending
    ensures var q := OnSource(p, lim, sha, id, frame, now); var key := p.pending[id].key;
      && q.pending == p.pending - {id} && q.detached == p.detached
      && (q.lastId, q.navId, q.asked, q.commands) == (p.lastId, p.navId, p.asked, p.commands)
      && (q.parsed, q.requests, q.seenRequests) == (p.parsed, p.requests, p.seenRequests)
      && key in q.fates && q.fates == p.fates[key := q.fates[key]]
      && match q.fates[key]
         case NoSource => q.out == p.out && q.seenSha == p.seenSha
         case Duplicate(digest) => q.out == p.out && q.seenSha == p.seenSha && digest in p.seenSha
         case Captured(digest) =>
           frame.source.Some? && digest !in p.seenSha && q.seenSha == p.seenSha + {digest} &&
           var raw := CaptureIngest.StoredBytes(frame.source.value, lim.maxScriptBytes);
           q.out == p.out + [Script(p.pending[id].url, raw, digest, p.pending[id].targetType)] && digest == sha(raw)
         case _ => false
  {
  }

  lemma {:induction false} SourceCounted(p: Pump, lim: Limits, sha: seq<Byte> -> string, id: nat, frame: Frame, now: int)
    requires Counted(p, lim) && id in p.pending && p.pending[id].key in p.fates
    ensures Counted(OnSource(p, lim, sha, id, frame, now), lim)
  {
    SourceCases(p, lim, sha, id, frame, now);
    var key := p.pending[id].key;
    var q := OnSource(p, lim, sha, id, frame, now);
    assert q.fates.Keys == p.fates.Keys + {key} == p.fates.Keys;
  }

  lemma {:induction false} SourceStored(p: Pump, lim: Limits, sha: seq<Byte> -> string, id: nat, frame: Frame, now: int)
    requires StoreOk(p.out, p.seenSha, sha, lim.maxScriptBytes) && id in p.pending
    ensures var q := OnSource(p, lim, sha, id, frame, now); StoreOk(q.out, q.seenSha, sha, lim.maxScriptBytes)
  {
    SourceCases(p, lim, sha, id, frame, now);
    var q := OnSource(p, lim, sha, id, frame, now);
    if q.fates[p.pending[id].key].Captured? {
      CaptureIngest.StoredBytesArePrefix(frame.source.value, lim.maxScriptBytes);
      StoreGrows(p.out, p.seenSha, sha, lim.maxScriptBytes, q.out[|p.out|]);
    }
  }

  lemma {:induction false} SourceFates(p: Pump, lim: Limits, sha: seq<Byte> -> string, id: nat, frame: Frame, now: int)
    requires FatesOk(p.fates, p.seenSha) && id in p.pending && Lookup(p.fates, p.pending[id].key) == Some(InFlight(id))
    ensures var q := OnSource(p, lim, sha, id, frame, now); FatesOk(q.fates, q.seenSha)
  {
    SourceCases(p, lim, sha, id, frame, now);
    var key := p.pending[id].key;
    var fate := OnSource(p, lim, sha, id, frame, now).fates[key];
    if fate.Captured? {
      Stored(p.fates, p.seenSha, key, fate.sha);
    } else {
      NotStored(p.fates, p.seenSha, key, fate);
    }
  }

  lemma {:induction false} SourceAccounted(p: Pump, lim: Limits, sha: seq<Byte> -> string, id: nat, frame: Frame, now: int)
    requires Accounted(p, lim, sha) && id in p.pending
    ensures Accounted(OnSource(p, lim, sha, id, frame, now), lim, sha)
  {
    SourceCounted(p, lim, sha, id, frame, now);
    SourceStored(p, lim, sha, id, frame, now);
    SourceFates(p, lim, sha, id, frame, now);
    SourceCases(p, lim, sha, id, frame, now);
    FlightLands(p.pending, p.fates, p.detached, id, OnSource(p, lim, sha, id, frame, now).fates[p.pending[id].key]);
  }

  lemma {:induction false} DetachKeepsFates(p: Pump, gone: string)
    requires FatesOk(p.fates, p.seenSha) && gone != ""
    ensures FatesOk(OnDetached(p, gone).fates, p.seenSha) && OnDetached(p, gone).fates.Keys == p.fates.Keys
  {
    var later := OnDetached(p, gone).fates;
    assert later.Keys == p.fates.Keys;
    forall key, digest ensures CapturedAs(later, key, digest) <==> CapturedAs(p.fates, key, digest) {
    }
    forall digest | digest in p.seenSha ensures exists other :: CapturedAs(later, other, digest) {
      var other :| CapturedAs(p.fates, other, digest);
      assert CapturedAs(later, other, digest);
    }
  }

  lemma {:induction false} DetachDropsFlights(p: Pump, gone: string)
    requires FlightsOk(p.pending, p.fates, p.detached) && gone != ""
    ensures var q := OnDetached(p, gone); FlightsOk(q.pending, q.fates, q.detached)
  {
  }

  lemma {:induction false} DetachedAccounted(p: Pump, lim: Limits, sha: seq<Byte> -> string, gone: string)
    requires Accounted(p, lim, sha)
    ensures Accounted(OnDetached(p, gone), lim, sha)
  {
    if gone != "" {
      DetachKeepsFates(p, gone);
      DetachDropsFlights(p, gone);
    }
  }

  lemma {:induction false} RequestAccounted(p: Pump, lim: Limits, sha: seq<Byte> -> string, isXhr: bool, verb: string, target: Option<string>)
    requires Accounted(p, lim, sha)
    ensures Accounted(OnRequest(p, lim, isXhr, verb, target), lim, sha)
  {
    var q := OnRequest(p, lim, isXhr, verb, target);
    if q != p {
      DistinctCount(p.requests);
      AppendDistinct(p.requests, (verb, target.value));
      assert Elements(q.requests) == Elements(p.requests) + {(verb, target.value)};
    }
  }

  lemma {:induction false} RoutedAccounted(p: Pump, lim: Limits, sha: seq<Byte> -> string, ev: Event, now: int)
    requires Accounted(p, lim, sha)
    ensures Accounted(Routed(p, lim, sha, ev, now).0, lim, sha)
  {
    match ev
    case AttachedToTarget(session, targetType, waiting) => AttachedAccounted(p, lim, sha, session, targetType, waiting, now);
    case ScriptParsed(sid, scriptId, url) => ParsedAccounted(p, lim, sha, sid, scriptId, url, now);
    case RequestWillBeSent(isXhr, verb, target) => RequestAccounted(p, lim, sha, isXhr, verb, target);
    case DetachedFromTarget(gone) => DetachedAccounted(p, lim, sha, gone);
    case Reply(id, frame) =>
      if id in p.pending {
        SourceAccounted(p, lim, sha, id, frame, now);
      }
    case Command => SendAccounted(p, lim, sha);
    case Unrelated =>
  }

  /** A sequence of events, each with the time it is handled at. */
  function Play(p: Pump, lim: Limits, sha: seq<Byte> -> string, evs: seq<(Event, int)>): Pump
    decreases evs
  {
    if evs == [] then p else Play(Routed(p, lim, sha, evs[0].0, evs[0].1).0, lim, sha, evs[1..])
  }

  lemma {:induction false} AccountedFrom(p: Pump, lim: Limits, sha: seq<Byte> -> string, evs: seq<(Event, int)>)
    requires Accounted(p, lim, sha)
    ensures Accounted(Play(p, lim, sha, evs), lim, sha)
    decreases evs
  {
    if evs != [] {
      RoutedAccounted(p, lim, sha, evs[0].0, evs[0].1);
      AccountedFrom(Routed(p, lim, sha, evs[0].0, evs[0].1).0, lim, sha, evs[1..]);
    }
  }

  /** The accounting holds after any event sequence whatsoever. */
  lemma {:induction false} EveryScriptAccountedFor(lim: Limits, sha: seq<Byte> -> string, evs: seq<(Event, int)>)
    ensures Accounted(Play(Fresh(), lim, sha, evs), lim, sha)
  {
    AccountedFrom(Fresh(), lim, sha, evs);
  }

  /** When the pump settles, every parsed script has been stored under its digest (its own or an
      equal one's), answered without source, or lost with its session. */
  lemma SettledLeavesNothingInFlight(lim: Limits, sha: seq<Byte> -> string, evs: seq<(Event, int)>,
                                     now: int, idleSettle: int, minUntil: Option<int>, key: ScriptKey)
    requires var p := Play(Fresh(), lim, sha, evs); Settled(p, now, idleSettle, minUntil) && key in p.parsed
    ensures var p := Play(Fresh(), lim, sha, evs); key in p.fates
    ensures var p := Play(Fresh(), lim, sha, evs); var fate := p.fates[key];
      || ((fate.Captured? || fate.Duplicate?) && exists i | 0 <= i < |p.out| :: p.out[i].sha256 == fate.sha)
      || fate.NoSource?
      || (fate.SessionGone? && Gone(p.detached, key.0))
  {
    EveryScriptAccountedFor(lim, sha, evs);
    var p := Play(Fresh(), lim, sha, evs);
    var fate := p.fates[key];
    if fate.Captured? || fate.Duplicate? {
      assert fate.sha in Elements(Digests(p.out));
    }
  }

  /** A reply is handed to whoever waits for command `wanted` exactly when it answers that command:
      a source reply, however late and from whatever session, never does. */
  lemma ReplyReachesItsCommand(lim: Limits, sha: seq<Byte> -> string, evs: seq<(Event, int)>, id: nat, frame: Frame,
                               now: int, wanted: nat)
    requires var p := Play(Fresh(), lim, sha, evs); wanted in p.commands && id in p.asked + p.commands
    ensures var p := Play(Fresh(), lim, sha, evs);
      Routed(p, lim, sha, Reply(id, frame), now).1 == Some(wanted) <==> id in p.commands && id == wanted
  {
    EveryScriptAccountedFor(lim, sha, evs);
  }

  /** A late reply for a session that is gone changes nothing. */
  lemma LateReplyChangesNothing(lim: Limits, sha: seq<Byte> -> string, evs: seq<(Event, int)>, id: nat, frame: Frame, now: int)
    requires var p := Play(Fresh(), lim, sha, evs); id in p.asked && id !in p.pending
    ensures var p := Play(Fresh(), lim, sha, evs); Routed(p, lim, sha, Reply(id, frame), now).0 == p
  {
    EveryScriptAccountedFor(lim, sha, evs);
  }

  lemma {:induction false} PlayNext(p: Pump, lim: Limits, sha: seq<Byte> -> string, evs: seq<(Event, int)>, i: nat)
    requires i < |evs|
    ensures Play(p, lim, sha, evs[..i + 1]) == Routed(Play(p, lim, sha, evs[..i]), lim, sha, evs[i].0, evs[i].1).0
    decreases i
  {
    if i > 0 {
      assert evs[..i][1..] == evs[1..][..i - 1] && evs[..i + 1][1..] == evs[1..][..i];
      PlayNext(Routed(p, lim, sha, evs[0].0, evs[0].1).0, lim, sha, evs[1..], i - 1);
    } else {
      assert evs[..1][1..] == [];
    }
  }

  /** The reply id that handling the message after the first `i` delivers. */
  function DeliveredAt(p: Pump, lim: Limits, sha: seq<Byte> -> string, evs: seq<(Event, int)>, i: nat): Option<nat>
    requires i < |evs|
  {
    Routed(Play(p, lim, sha, evs[..i]), lim, sha, evs[i].0, evs[i].1).1
  }

  /** None of the first `n` messages delivers the wanted reply. */
  predicate NotYet(p: Pump, lim: Limits, sha: seq<Byte> -> string, evs: seq<(Event, int)>, n: nat, wanted: Option<nat>)
    requires n <= |evs|
  {
    wanted.Some? ==> forall i | 0 <= i < n :: DeliveredAt(p, lim, sha, evs, i) != wanted
  }

  /** The pump ends here: the deadline has passed, the navigation failed, or the capture has settled. */
  predicate Ends(p: Pump, now: int, settle: bool, deadline: int, idleSettle: int, minUntil: Option<int>) {
    now > deadline || p.navError.Some? || (settle && Settled(p, now, idleSettle, minUntil))
  }

  /** It does not end before any of the first `n` messages. */
  predicate GoesOn(p: Pump, lim: Limits, sha: seq<Byte> -> string, evs: seq<(Event, int)>, n: nat,
                   settle: bool, deadline: int, idleSettle: int, minUntil: Option<int>)
    requires n <= |evs|
  {
    forall i | 0 <= i < n :: !Ends(Play(p, lim, sha, evs[..i]), evs[i].1, settle, deadline, idleSettle, minUntil)
  }

  /** With one more message handled, both still hold. */
  lemma PumpNext(p: Pump, lim: Limits, sha: seq<Byte> -> string, evs: seq<(Event, int)>, n: nat, wanted: Option<nat>,
                 settle: bool, deadline: int, idleSettle: int, minUntil: Option<int>)
    requires n < |evs| && GoesOn(p, lim, sha, evs, n, settle, deadline, idleSettle, minUntil)
    requires !Ends(Play(p, lim, sha, evs[..n]), evs[n].1, settle, deadline, idleSettle, minUntil)
    requires NotYet(p, lim, sha, evs, n, wanted)
    ensures GoesOn(p, lim, sha, evs, n + 1, settle, deadline, idleSettle, minUntil)
    ensures wanted.None? || DeliveredAt(p, lim, sha, evs, n) != wanted ==> NotYet(p, lim, sha, evs, n + 1, wanted)
  {
  }
}
