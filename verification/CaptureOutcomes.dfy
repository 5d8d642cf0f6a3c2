/** What a capture has recorded, told from the messages alone (capture/driver.py): which scripts are
    stored and why, which requests are listed, when the capture settles. */
module CaptureOutcomes {
  import opened Basics
  import opened Utf8
  import opened EventPump
  import CaptureIngest

  type Messages = seq<(Event, int)>

  /** The state before message `i`. */
  function At(lim: Limits, sha: seq<Byte> -> string, evs: Messages, i: nat): Pump
    requires i <= |evs|
  {
    Play(Fresh(), lim, sha, evs[..i])
  }

  lemma NextAt(lim: Limits, sha: seq<Byte> -> string, evs: Messages, i: nat)
    requires i < |evs|
    ensures At(lim, sha, evs, i + 1) == Routed(At(lim, sha, evs, i), lim, sha, evs[i].0, evs[i].1).0
  {
    PlayNext(Fresh(), lim, sha, evs, i);
  }

  lemma StartsEmpty(lim: Limits, sha: seq<Byte> -> string, evs: Messages)
    ensures At(lim, sha, evs, 0) == Pump(0, map[], {}, map[], {}, [], {}, [], {}, false, None, None, None, 0, map[], {}, {})
  {
  }

  // ---- what each kind of message leaves alone ------------------------------

  /** Only commands have been sent, and the navigation perhaps. */
  ghost predicate OnlySends(p: Pump, q: Pump) {
    q == p.(lastId := q.lastId, commands := q.commands, navId := q.navId, navigated := q.navigated, pageSession := q.pageSession)
  }

  lemma SendOnlySends(p: Pump)
    ensures OnlySends(p, Send(p))
  {
  }

  lemma SendsTwice(p: Pump, q: Pump, r: Pump)
    requires OnlySends(p, q) && OnlySends(q, r)
    ensures OnlySends(p, r)
  {
  }

  lemma EnabledOnlySends(p: Pump, targetType: string)
    ensures OnlySends(p, Enabled(p, targetType))
  {
  }

  lemma LandedOnlySends(p: Pump, session: string, targetType: string)
    ensures OnlySends(p, Landed(p, session, targetType))
  {
  }

  lemma AttachedOnlySends(p: Pump, session: string, targetType: string, waiting: bool, now: int)
    ensures OnlySends(p.(types := p.types[session := targetType], lastEvent := now),
                      OnAttached(p, session, targetType, waiting, now))
  {
    var known := p.(types := p.types[session := targetType], lastEvent := now);
    var enabled := Enabled(known, targetType);
    var landed := Landed(enabled, session, targetType);
    EnabledOnlySends(known, targetType);
    LandedOnlySends(enabled, session, targetType);
    SendsTwice(known, enabled, landed);
    SendOnlySends(landed);
    SendsTwice(known, landed, Send(landed));
  }

  lemma AttachedFrame(p: Pump, session: string, targetType: string, waiting: bool, now: int)
    ensures var q := OnAttached(p, session, targetType, waiting, now);
      && q.types == p.types[session := targetType] && q.lastEvent == now
      && q.pending == p.pending && q.parsed == p.parsed && q.out == p.out && q.requests == p.requests
      && q.fates == p.fates && q.navError == p.navError && q.detached == p.detached
  {
    AttachedOnlySends(p, session, targetType, waiting, now);
  }

  lemma ParsedFrame(p: Pump, lim: Limits, sid: Sid, scriptId: string, url: string, now: int)
    ensures var q := OnParsed(p, lim, sid, scriptId, url, now); var key := (sid, scriptId);
      && q.types == p.types && q.out == p.out && q.requests == p.requests && q.navError == p.navError
      && q.navigated == p.navigated && q.pageSession == p.pageSession
      && (|p.parsed| >= lim.maxScripts || key in p.parsed ==> q == p)
      && (|p.parsed| < lim.maxScripts && key !in p.parsed ==>
            q.parsed == p.parsed + {key} && q.lastEvent == now && key in q.fates && q.fates == p.fates[key := q.fates[key]] &&
            (q.fates[key].InFlight? || q.fates[key].SessionGone?))
  {
  }

  lemma SourceFrame(p: Pump, lim: Limits, sha: seq<Byte> -> string, id: nat, frame: Frame, now: int)
    requires id in p.pending
    ensures var q := OnSource(p, lim, sha, id, frame, now); var key := p.pending[id].key;
      && q.types == p.types && q.requests == p.requests && q.navError == p.navError && q.parsed == p.parsed
      && q.navigated == p.navigated && q.pageSession == p.pageSession && q.pending == p.pending - {id}
      && p.out <= q.out && key in q.fates && q.fates == p.fates[key := q.fates[key]]
      && q.lastEvent == if q.out != p.out then now else p.lastEvent
  {
  }

  lemma RequestFrame(p: Pump, lim: Limits, isXhr: bool, verb: string, target: Option<string>)
    ensures var q := OnRequest(p, lim, isXhr, verb, target); q == p.(requests := q.requests, seenRequests := q.seenRequests)
  {
  }

  lemma DetachedFrame(p: Pump, gone: string)
    ensures var q := OnDetached(p, gone);
      && q == p.(detached := q.detached, pending := q.pending, fates := q.fates)
      && (forall id | id in q.pending :: id in p.pending && q.pending[id] == p.pending[id])
      && (forall key | key in q.fates :: key in p.fates && (q.fates[key] == p.fates[key] || q.fates[key].SessionGone?))
      && (forall key | key in p.fates && !p.fates[key].InFlight? :: key in q.fates && q.fates[key] == p.fates[key])
  {
  }

  // ---- one source reply ----------------------------------------------------

  /** The reply brings a source that is not empty. */
  predicate HasSource(frame: Frame) {
    frame.error.None? && frame.source.Some? && frame.source.value != []
  }

  /** The digest under which the reply's source is stored. */
  function DigestOf(frame: Frame, lim: Limits, sha: seq<Byte> -> string): string
    requires HasSource(frame)
  {
    sha(CaptureIngest.StoredBytes(frame.source.value, lim.maxScriptBytes))
  }

  /** A script whose source was asked for ends without one exactly when the reply has an error or no or
      an empty source; any other source is stored, with the script's URL and type, unless its digest
      already is. */
  lemma SourceDecides(p: Pump, lim: Limits, sha: seq<Byte> -> string, id: nat, frame: Frame, now: int)
    requires id in p.pending && p.seenSha == Elements(Digests(p.out))
    ensures var q := Routed(p, lim, sha, Reply(id, frame), now).0; var meta := p.pending[id];
      && q.pending == p.pending - {id} && meta.key in q.fates && q.fates == p.fates[meta.key := q.fates[meta.key]]
      && (q.fates[meta.key] == NoSource <==> !HasSource(frame))
      && (HasSource(frame) ==>
            var digest := DigestOf(frame, lim, sha);
            var raw := CaptureIngest.StoredBytes(frame.source.value, lim.maxScriptBytes);
            if digest in Digests(p.out) then q.out == p.out && q.fates[meta.key] == Duplicate(digest)
            else q.out == p.out + [Script(meta.url, raw, digest, meta.targetType)] && q.fates[meta.key] == Captured(digest))
      && (!HasSource(frame) ==> q.out == p.out)
  {
  }

  // ---- answers over a whole capture ----------------------------------------

  /** Message `j` answers the pending request for `key`. */
  predicate Answers(lim: Limits, sha: seq<Byte> -> string, evs: Messages, j: nat, key: ScriptKey)
    requires j < |evs|
  {
    evs[j].0.Reply? && var p := At(lim, sha, evs, j); evs[j].0.id in p.pending && p.pending[evs[j].0.id].key == key
  }

  ghost predicate DigestStored(p: Pump, digest: string) {
    exists k | 0 <= k < |p.out| :: p.out[k].sha256 == digest
  }

  lemma OutGrows(p: Pump, lim: Limits, sha: seq<Byte> -> string, ev: Event, now: int)
    ensures p.out <= Routed(p, lim, sha, ev, now).0.out
  {
  }

  /** A fate that is settled stays as it is. */
  lemma SettledFateStays(p: Pump, lim: Limits, sha: seq<Byte> -> string, ev: Event, now: int, key: ScriptKey)
    requires Accounted(p, lim, sha) && key in p.fates && !p.fates[key].InFlight?
    ensures var q := Routed(p, lim, sha, ev, now).0; key in q.fates && q.fates[key] == p.fates[key]
  {
    match ev
    case AttachedToTarget(session, targetType, waiting) => AttachedFrame(p, session, targetType, waiting, now);
    case ScriptParsed(sid, scriptId, url) => ParsedFrame(p, lim, sid, scriptId, url, now);
    case RequestWillBeSent(isXhr, verb, target) => RequestFrame(p, lim, isXhr, verb, target);
    case DetachedFromTarget(gone) => DetachedFrame(p, gone);
    case Reply(id, frame) =>
      if id in p.pending {
        assert p.pending[id].key != key;
        SourceFrame(p, lim, sha, id, frame, now);
      }
    case _ =>
  }

  lemma {:induction false} AccountedAt(lim: Limits, sha: seq<Byte> -> string, evs: Messages, i: nat)
    requires i <= |evs|
    ensures Accounted(At(lim, sha, evs, i), lim, sha)
  {
    EveryScriptAccountedFor(lim, sha, evs[..i]);
  }

  /** What is stored stays, and so does the fate of the script. */
  ghost predicate Kept(p: Pump, q: Pump, key: ScriptKey) {
    p.out <= q.out && key in p.fates && key in q.fates && q.fates[key] == p.fates[key] && !p.fates[key].InFlight?
  }

  lemma NextKept(lim: Limits, sha: seq<Byte> -> string, evs: Messages, i: nat, key: ScriptKey)
    requires i < |evs| && Kept(At(lim, sha, evs, i), At(lim, sha, evs, i), key)
    ensures Kept(At(lim, sha, evs, i), At(lim, sha, evs, i + 1), key)
  {
    NextAt(lim, sha, evs, i);
    AccountedAt(lim, sha, evs, i);
    OutGrows(At(lim, sha, evs, i), lim, sha, evs[i].0, evs[i].1);
    SettledFateStays(At(lim, sha, evs, i), lim, sha, evs[i].0, evs[i].1, key);
  }

  lemma KeptTwice(p: Pump, q: Pump, r: Pump, key: ScriptKey)
    requires Kept(p, q, key) && Kept(q, r, key)
    ensures Kept(p, r, key)
  {
  }

  lemma {:induction false} OutcomeStays(lim: Limits, sha: seq<Byte> -> string, evs: Messages, i: nat, n: nat, key: ScriptKey)
    requires i <= n <= |evs| && Kept(At(lim, sha, evs, i), At(lim, sha, evs, i), key)
    ensures Kept(At(lim, sha, evs, i), At(lim, sha, evs, n), key)
    decreases n - i
  {
    if i < n {
      OutcomeStays(lim, sha, evs, i, n - 1, key);
      NextKept(lim, sha, evs, n - 1, key);
      KeptTwice(At(lim, sha, evs, i), At(lim, sha, evs, n - 1), At(lim, sha, evs, n), key);
    }
  }

  /** The outcome of an answer: stored under the digest of its source, or nothing without one. */
  ghost predicate Ended(p: Pump, lim: Limits, sha: seq<Byte> -> string, frame: Frame, key: ScriptKey) {
    && key in p.fates
    && (HasSource(frame) ==> DigestStored(p, DigestOf(frame, lim, sha)))
    && (HasSource(frame) ==> p.fates[key] in {Captured(DigestOf(frame, lim, sha)), Duplicate(DigestOf(frame, lim, sha))})
    && (!HasSource(frame) ==> p.fates[key] == NoSource)
  }

  lemma NextEnded(lim: Limits, sha: seq<Byte> -> string, evs: Messages, j: nat, key: ScriptKey)
    requires j < |evs| && Answers(lim, sha, evs, j, key)
    ensures Ended(At(lim, sha, evs, j + 1), lim, sha, evs[j].0.frame, key)
  {
    var q := At(lim, sha, evs, j + 1);
    var frame := evs[j].0.frame;
    AccountedAt(lim, sha, evs, j);
    NextAt(lim, sha, evs, j);
    SourceDecides(At(lim, sha, evs, j), lim, sha, evs[j].0.id, frame, evs[j].1);
    if HasSource(frame) {
      var p := At(lim, sha, evs, j);
      if q.out == p.out {
        assert DigestOf(frame, lim, sha) in Digests(q.out);
        var k :| 0 <= k < |Digests(q.out)| && Digests(q.out)[k] == DigestOf(frame, lim, sha);
        assert q.out[k].sha256 == DigestOf(frame, lim, sha);
      } else {
        assert q.out[|p.out|].sha256 == DigestOf(frame, lim, sha);
      }
    }
  }

  lemma StillEnded(p: Pump, q: Pump, lim: Limits, sha: seq<Byte> -> string, frame: Frame, key: ScriptKey)
    requires Ended(p, lim, sha, frame, key) && Kept(p, q, key)
    ensures Ended(q, lim, sha, frame, key)
  {
    if HasSource(frame) {
      var k :| 0 <= k < |p.out| && p.out[k].sha256 == DigestOf(frame, lim, sha);
      assert q.out[k] == p.out[k];
    }
  }

  /** Every script whose source was answered while its request was pending is stored at the end, under
      the digest of its source; and one answered without a source is not. */
  lemma AnsweredIsStored(lim: Limits, sha: seq<Byte> -> string, evs: Messages, j: nat, key: ScriptKey)
    requires j < |evs| && Answers(lim, sha, evs, j, key)
    ensures Ended(At(lim, sha, evs, |evs|), lim, sha, evs[j].0.frame, key)
  {
    NextEnded(lim, sha, evs, j, key);
    OutcomeStays(lim, sha, evs, j + 1, |evs|, key);
    StillEnded(At(lim, sha, evs, j + 1), At(lim, sha, evs, |evs|), lim, sha, evs[j].0.frame, key);
  }

  /** What was said to a script with this fate. */
  ghost predicate Explains(lim: Limits, sha: seq<Byte> -> string, evs: Messages, i: nat, key: ScriptKey, fate: Fate)
    requires i <= |evs|
  {
    match fate
    case NoSource => exists j | 0 <= j < i :: Answers(lim, sha, evs, j, key) && !HasSource(evs[j].0.frame)
    case Captured(digest) => exists j | 0 <= j < i :: AnswersWith(lim, sha, evs, j, key, digest)
    case Duplicate(digest) => exists j | 0 <= j < i :: AnswersWith(lim, sha, evs, j, key, digest)
    case _ => true
  }

  predicate AnswersWith(lim: Limits, sha: seq<Byte> -> string, evs: Messages, j: nat, key: ScriptKey, digest: string)
    requires j < |evs|
  {
    Answers(lim, sha, evs, j, key) && HasSource(evs[j].0.frame) && DigestOf(evs[j].0.frame, lim, sha) == digest
  }

  lemma NextFate(lim: Limits, sha: seq<Byte> -> string, evs: Messages, i: nat, key: ScriptKey)
    requires i < |evs| && key in At(lim, sha, evs, i + 1).fates
    ensures var fate := At(lim, sha, evs, i + 1).fates[key];
      || Lookup(At(lim, sha, evs, i).fates, key) == Some(fate) || fate.InFlight? || fate.SessionGone?
      || (Answers(lim, sha, evs, i, key) && Ended(At(lim, sha, evs, i + 1), lim, sha, evs[i].0.frame, key))
  {
    if Answers(lim, sha, evs, i, key) {
      NextEnded(lim, sha, evs, i, key);
    } else {
      NextAt(lim, sha, evs, i);
      UnansweredFate(At(lim, sha, evs, i), lim, sha, evs[i].0, evs[i].1, key);
    }
  }

  lemma AnswerExplains(lim: Limits, sha: seq<Byte> -> string, evs: Messages, i: nat, key: ScriptKey)
    requires i < |evs| && Answers(lim, sha, evs, i, key) && Ended(At(lim, sha, evs, i + 1), lim, sha, evs[i].0.frame, key)
    ensures Explains(lim, sha, evs, i + 1, key, At(lim, sha, evs, i + 1).fates[key])
  {
    if HasSource(evs[i].0.frame) {
      assert AnswersWith(lim, sha, evs, i, key, DigestOf(evs[i].0.frame, lim, sha));
    }
  }

  /** No script loses its source but by its answer or with its session. */
  lemma {:induction false} FatesAreExplained(lim: Limits, sha: seq<Byte> -> string, evs: Messages, i: nat, key: ScriptKey)
    requires i <= |evs| && key in At(lim, sha, evs, i).fates
    ensures Explains(lim, sha, evs, i, key, At(lim, sha, evs, i).fates[key])
  {
    if i > 0 {
      var fate := At(lim, sha, evs, i).fates[key];
      NextFate(lim, sha, evs, i - 1, key);
      if Lookup(At(lim, sha, evs, i - 1).fates, key) == Some(fate) {
        FatesAreExplained(lim, sha, evs, i - 1, key);
        ExplainedLater(lim, sha, evs, i - 1, key, fate);
      } else if !fate.InFlight? && !fate.SessionGone? {
        AnswerExplains(lim, sha, evs, i - 1, key);
      }
    }
  }

  lemma ExplainedLater(lim: Limits, sha: seq<Byte> -> string, evs: Messages, i: nat, key: ScriptKey, fate: Fate)
    requires i < |evs| && Explains(lim, sha, evs, i, key, fate)
    ensures Explains(lim, sha, evs, i + 1, key, fate)
  {
  }

  /** A message that does not answer a script leaves its fate, begins it, or ends it with the session. */
  lemma UnansweredFate(p: Pump, lim: Limits, sha: seq<Byte> -> string, ev: Event, now: int, key: ScriptKey)
    requires !(ev.Reply? && ev.id in p.pending && p.pending[ev.id].key == key)
    requires key in Routed(p, lim, sha, ev, now).0.fates
    ensures var fate := Routed(p, lim, sha, ev, now).0.fates[key];
      Lookup(p.fates, key) == Some(fate) || fate.InFlight? || fate.SessionGone?
  {
    match ev
    case AttachedToTarget(session, targetType, waiting) => AttachedFrame(p, session, targetType, waiting, now);
    case ScriptParsed(sid, scriptId, url) => ParsedFrame(p, lim, sid, scriptId, url, now);
    case RequestWillBeSent(isXhr, verb, target) => RequestFrame(p, lim, isXhr, verb, target);
    case DetachedFromTarget(gone) => DetachedFrame(p, gone);
    case Reply(id, frame) =>
      if id in p.pending {
        SourceFrame(p, lim, sha, id, frame, now);
      }
    case _ =>
  }

  // ---- scripts and sessions ------------------------------------------------

  /** The type last reported for a session before message `i`. */
  function LastType(evs: Messages, i: nat, session: string): Option<string>
    requires i <= |evs|
  {
    if i == 0 then None
    else if evs[i - 1].0.AttachedToTarget? && evs[i - 1].0.session == session then Some(evs[i - 1].0.targetType)
    else LastType(evs, i - 1, session)
  }

  lemma {:induction false} TypesAre(lim: Limits, sha: seq<Byte> -> string, evs: Messages, i: nat, session: string)
    requires i <= |evs|
    ensures Lookup(At(lim, sha, evs, i).types, session) == LastType(evs, i, session)
  {
    if i > 0 {
      NextAt(lim, sha, evs, i - 1);
      TypesAre(lim, sha, evs, i - 1, session);
      TypesMove(At(lim, sha, evs, i - 1), lim, sha, evs[i - 1].0, evs[i - 1].1);
    }
  }

  lemma OthersKeepTypes(p: Pump, lim: Limits, sha: seq<Byte> -> string, ev: Event, now: int)
    requires !ev.AttachedToTarget?
    ensures Routed(p, lim, sha, ev, now).0.types == p.types
  {
    match ev
    case ScriptParsed(sid, scriptId, url) => ParsedFrame(p, lim, sid, scriptId, url, now);
    case RequestWillBeSent(isXhr, verb, target) => RequestFrame(p, lim, isXhr, verb, target);
    case DetachedFromTarget(gone) => DetachedFrame(p, gone);
    case Reply(id, frame) =>
      if id in p.pending {
        SourceFrame(p, lim, sha, id, frame, now);
      }
    case _ =>
  }

  lemma TypesMove(p: Pump, lim: Limits, sha: seq<Byte> -> string, ev: Event, now: int)
    ensures var q := Routed(p, lim, sha, ev, now).0;
      q.types == if ev.AttachedToTarget? then p.types[ev.session := ev.targetType] else p.types
  {
    if ev.AttachedToTarget? {
      AttachedFrame(p, ev.session, ev.targetType, ev.waiting, now);
    } else {
      OthersKeepTypes(p, lim, sha, ev, now);
    }
  }

  /** The type a script parsed by message `j` is stored with. */
  function ParsedType(evs: Messages, j: nat, sid: Sid): string
    requires j <= |evs|
  {
    if sid.Some? && LastType(evs, j, sid.value).Some? then LastType(evs, j, sid.value).value else "page"
  }

  /** The request remembers what message `j` parsed. */
  predicate AskedBy(evs: Messages, j: nat, meta: Meta)
    requires j < |evs|
  {
    && evs[j].0 == ScriptParsed(meta.key.0, meta.key.1, meta.url)
    && meta.targetType == ParsedType(evs, j, meta.key.0)
  }

  lemma ParsedAsks(p: Pump, lim: Limits, sid: Sid, scriptId: string, url: string, now: int, id: nat)
    requires id in OnParsed(p, lim, sid, scriptId, url, now).pending
    ensures var meta := OnParsed(p, lim, sid, scriptId, url, now).pending[id];
      Lookup(p.pending, id) == Some(meta) || meta == Meta((sid, scriptId), url, TypeOf(p, sid))
  {
  }

  lemma PendingMoves(p: Pump, lim: Limits, sha: seq<Byte> -> string, ev: Event, now: int, id: nat)
    requires id in Routed(p, lim, sha, ev, now).0.pending
    ensures var meta := Routed(p, lim, sha, ev, now).0.pending[id];
      Lookup(p.pending, id) == Some(meta) ||
      (ev == ScriptParsed(meta.key.0, meta.key.1, meta.url) && meta.targetType == TypeOf(p, meta.key.0))
  {
    match ev
    case AttachedToTarget(session, targetType, waiting) => AttachedFrame(p, session, targetType, waiting, now);
    case ScriptParsed(sid, scriptId, url) => ParsedAsks(p, lim, sid, scriptId, url, now, id);
    case RequestWillBeSent(isXhr, verb, target) => RequestFrame(p, lim, isXhr, verb, target);
    case DetachedFromTarget(gone) => DetachedFrame(p, gone);
    case Reply(answered, frame) =>
      if answered in p.pending {
        SourceFrame(p, lim, sha, answered, frame, now);
      }
    case _ =>
  }

  lemma NextPending(lim: Limits, sha: seq<Byte> -> string, evs: Messages, i: nat, id: nat)
    requires i < |evs| && id in At(lim, sha, evs, i + 1).pending
    ensures var meta := At(lim, sha, evs, i + 1).pending[id];
      Lookup(At(lim, sha, evs, i).pending, id) == Some(meta) || AskedBy(evs, i, meta)
  {
    NextAt(lim, sha, evs, i);
    var meta := At(lim, sha, evs, i + 1).pending[id];
    PendingMoves(At(lim, sha, evs, i), lim, sha, evs[i].0, evs[i].1, id);
    if meta.key.0.Some? {
      TypesAre(lim, sha, evs, i, meta.key.0.value);
    }
  }

  /** Every pending request is for a parsed script, with its URL and the type of its session. */
  lemma {:induction false} PendingAreParsed(lim: Limits, sha: seq<Byte> -> string, evs: Messages, i: nat, id: nat)
    requires i <= |evs| && id in At(lim, sha, evs, i).pending
    ensures exists j | 0 <= j < i :: AskedBy(evs, j, At(lim, sha, evs, i).pending[id])
  {
    if i > 0 {
      NextPending(lim, sha, evs, i - 1, id);
      if Lookup(At(lim, sha, evs, i - 1).pending, id) == Some(At(lim, sha, evs, i).pending[id]) {
        PendingAreParsed(lim, sha, evs, i - 1, id);
      }
    } else {
      StartsEmpty(lim, sha, evs);
    }
  }

  /** Message `a` parsed the script and message `j` brought its source. */
  ghost predicate ComesFrom(lim: Limits, sha: seq<Byte> -> string, evs: Messages, j: nat, script: Script)
    requires j < |evs|
  {
    var p := At(lim, sha, evs, j);
    && evs[j].0.Reply? && evs[j].0.id in p.pending && HasSource(evs[j].0.frame)
    && script.source == CaptureIngest.StoredBytes(evs[j].0.frame.source.value, lim.maxScriptBytes)
    && script.sha256 == sha(script.source)
    && exists a, sid: Sid, scriptId: string | 0 <= a < j ::
         evs[a].0 == ScriptParsed(sid, scriptId, script.url) && script.targetType == ParsedType(evs, a, sid)
  }

  lemma NextStored(lim: Limits, sha: seq<Byte> -> string, evs: Messages, i: nat, k: nat)
    requires i < |evs| && k < |At(lim, sha, evs, i + 1).out|
    ensures var (before, after) := (At(lim, sha, evs, i).out, At(lim, sha, evs, i + 1).out);
      (k < |before| && before[k] == after[k]) || ComesFrom(lim, sha, evs, i, after[k])
  {
    var p := At(lim, sha, evs, i);
    NextAt(lim, sha, evs, i);
    OutGrows(p, lim, sha, evs[i].0, evs[i].1);
    if k >= |p.out| {
      AccountedAt(lim, sha, evs, i);
      NewScript(p, lim, sha, evs[i].0, evs[i].1);
      SourceDecides(p, lim, sha, evs[i].0.id, evs[i].0.frame, evs[i].1);
      PendingAreParsed(lim, sha, evs, i, evs[i].0.id);
      MetaIsParsed(evs, i, p.pending[evs[i].0.id]);
    }
  }

  lemma MetaIsParsed(evs: Messages, i: nat, meta: Meta)
    requires i <= |evs| && exists j | 0 <= j < i :: AskedBy(evs, j, meta)
    ensures exists a, sid: Sid, scriptId: string | 0 <= a < i ::
      evs[a].0 == ScriptParsed(sid, scriptId, meta.url) && meta.targetType == ParsedType(evs, a, sid)
  {
    var a :| 0 <= a < i && AskedBy(evs, a, meta);
    var (sid, scriptId) := meta.key;
    assert evs[a].0 == ScriptParsed(sid, scriptId, meta.url);
  }

  /** Every stored script is the answer to a request for a script that was parsed, under its URL and
      type. */
  lemma {:induction false} StoredComesFrom(lim: Limits, sha: seq<Byte> -> string, evs: Messages, i: nat, k: nat)
    requires i <= |evs| && k < |At(lim, sha, evs, i).out|
    ensures exists j | 0 <= j < i :: ComesFrom(lim, sha, evs, j, At(lim, sha, evs, i).out[k])
  {
    if i > 0 {
      NextStored(lim, sha, evs, i - 1, k);
      var (before, after) := (At(lim, sha, evs, i - 1).out, At(lim, sha, evs, i).out);
      if k < |before| && before[k] == after[k] {
        StoredComesFrom(lim, sha, evs, i - 1, k);
      }
    }
  }

  lemma NewScript(p: Pump, lim: Limits, sha: seq<Byte> -> string, ev: Event, now: int)
    requires Routed(p, lim, sha, ev, now).0.out != p.out
    ensures ev.Reply? && ev.id in p.pending
  {
  }

  // ---- caps ----------------------------------------------------------------

  /** The message reports an XHR or fetch request with a verb and a usable URL. */
  predicate Reports(ev: Event, request: Observed) {
    ev == RequestWillBeSent(true, request.0, Some(request.1)) && request.0 != ""
  }

  /** What one message does to the request list. */
  ghost predicate RequestsMove(before: seq<Observed>, after: seq<Observed>, ev: Event, cap: nat) {
    && before <= after
    && (forall r | r in after && r !in before :: Reports(ev, r))
    && (forall r | Reports(ev, r) && |before| < cap :: r in after)
  }

  lemma RequestListed(p: Pump, lim: Limits, isXhr: bool, verb: string, target: Option<string>)
    requires |p.seenRequests| == |p.requests| && Elements(p.requests) == p.seenRequests
    ensures RequestsMove(p.requests, OnRequest(p, lim, isXhr, verb, target).requests, RequestWillBeSent(isXhr, verb, target),
                         lim.maxRequests)
  {
  }

  lemma NothingListed(requests: seq<Observed>, ev: Event, cap: nat)
    requires !ev.RequestWillBeSent?
    ensures RequestsMove(requests, requests, ev, cap)
  {
  }

  lemma RequestMoves(p: Pump, lim: Limits, sha: seq<Byte> -> string, ev: Event, now: int)
    requires CapsOk(p.parsed, p.requests, p.seenRequests, lim)
    ensures RequestsMove(p.requests, Routed(p, lim, sha, ev, now).0.requests, ev, lim.maxRequests)
  {
    if ev.RequestWillBeSent? {
      DistinctCount(p.requests);
      RequestListed(p, lim, ev.isXhrOrFetch, ev.verb, ev.target);
    } else {
      OnlyRequestsAreListed(p, lim, sha, ev, now);
      NothingListed(p.requests, ev, lim.maxRequests);
    }
  }

  lemma OnlyRequestsAreListed(p: Pump, lim: Limits, sha: seq<Byte> -> string, ev: Event, now: int)
    requires !ev.RequestWillBeSent?
    ensures Routed(p, lim, sha, ev, now).0.requests == p.requests
  {
  }

  lemma NextRequests(lim: Limits, sha: seq<Byte> -> string, evs: Messages, i: nat)
    requires i < |evs|
    ensures RequestsMove(At(lim, sha, evs, i).requests, At(lim, sha, evs, i + 1).requests, evs[i].0, lim.maxRequests)
  {
    NextAt(lim, sha, evs, i);
    AccountedAt(lim, sha, evs, i);
    RequestMoves(At(lim, sha, evs, i), lim, sha, evs[i].0, evs[i].1);
  }

  /** The list holds only requests reported by the first `i` messages, and all of them short of the cap. */
  ghost predicate Listed(requests: seq<Observed>, evs: Messages, i: nat, cap: nat)
    requires i <= |evs|
  {
    && (forall r | r in requests :: exists j | 0 <= j < i :: Reports(evs[j].0, r))
    && (|requests| < cap ==> forall j, r | 0 <= j < i && Reports(evs[j].0, r) :: r in requests)
  }

  lemma ListedNext(before: seq<Observed>, after: seq<Observed>, evs: Messages, i: nat, cap: nat)
    requires i < |evs| && Listed(before, evs, i, cap) && RequestsMove(before, after, evs[i].0, cap)
    ensures Listed(after, evs, i + 1, cap)
  {
    forall r | r in after ensures exists j | 0 <= j < i + 1 :: Reports(evs[j].0, r) {
      if r !in before {
        assert Reports(evs[i].0, r);
      }
    }
    forall j, r | 0 <= j < i + 1 && Reports(evs[j].0, r) && |after| < cap ensures r in after {
      if j < i {
        assert r in before;
      }
    }
  }

  /** The request list holds only reported requests, each listed when it came, and all of them short of
      the cap. */
  lemma {:induction false} RequestsAreReported(lim: Limits, sha: seq<Byte> -> string, evs: Messages, i: nat)
    requires i <= |evs|
    ensures Listed(At(lim, sha, evs, i).requests, evs, i, lim.maxRequests)
    ensures i > 0 ==> At(lim, sha, evs, i - 1).requests <= At(lim, sha, evs, i).requests
  {
    if i > 0 {
      RequestsAreReported(lim, sha, evs, i - 1);
      NextRequests(lim, sha, evs, i - 1);
      ListedNext(At(lim, sha, evs, i - 1).requests, At(lim, sha, evs, i).requests, evs, i - 1, lim.maxRequests);
    }
  }

  predicate ParsesKey(ev: Event, key: ScriptKey) {
    ev.ScriptParsed? && ev.parsedIn == key.0 && ev.scriptId == key.1
  }

  /** What one message does to the scripts taken in. */
  predicate ParsedMoves(before: set<ScriptKey>, after: set<ScriptKey>, ev: Event, cap: nat) {
    after == if ev.ScriptParsed? && |before| < cap then before + {(ev.parsedIn, ev.scriptId)} else before
  }

  lemma ParsedMove(p: Pump, lim: Limits, sha: seq<Byte> -> string, ev: Event, now: int)
    ensures ParsedMoves(p.parsed, Routed(p, lim, sha, ev, now).0.parsed, ev, lim.maxScripts)
  {
    match ev
    case AttachedToTarget(session, targetType, waiting) => AttachedFrame(p, session, targetType, waiting, now);
    case ScriptParsed(sid, scriptId, url) => ParsedFrame(p, lim, sid, scriptId, url, now);
    case RequestWillBeSent(isXhr, verb, target) => RequestFrame(p, lim, isXhr, verb, target);
    case DetachedFromTarget(gone) => DetachedFrame(p, gone);
    case Reply(id, frame) =>
      if id in p.pending {
        SourceFrame(p, lim, sha, id, frame, now);
      }
    case _ =>
  }

  lemma NextParsed(lim: Limits, sha: seq<Byte> -> string, evs: Messages, i: nat)
    requires i < |evs|
    ensures ParsedMoves(At(lim, sha, evs, i).parsed, At(lim, sha, evs, i + 1).parsed, evs[i].0, lim.maxScripts)
  {
    NextAt(lim, sha, evs, i);
    ParsedMove(At(lim, sha, evs, i), lim, sha, evs[i].0, evs[i].1);
  }

  /** The scripts taken in have been parsed by the first `i` messages, all of them short of the cap, and
      some if there were any. */
  ghost predicate TakenIn(parsed: set<ScriptKey>, evs: Messages, i: nat, cap: nat)
    requires i <= |evs|
  {
    && (forall key | key in parsed :: exists j | 0 <= j < i :: ParsesKey(evs[j].0, key))
    && (|parsed| < cap ==> forall j, key | 0 <= j < i && ParsesKey(evs[j].0, key) :: key in parsed)
    && (cap > 0 && (exists j | 0 <= j < i :: evs[j].0.ScriptParsed?) ==> parsed != {})
  }

  lemma TakenInNext(before: set<ScriptKey>, after: set<ScriptKey>, evs: Messages, i: nat, cap: nat)
    requires i < |evs| && TakenIn(before, evs, i, cap) && ParsedMoves(before, after, evs[i].0, cap)
    ensures TakenIn(after, evs, i + 1, cap)
  {
    SubsetSize(before, after);
    forall key | key in after ensures exists j | 0 <= j < i + 1 :: ParsesKey(evs[j].0, key) {
      if key !in before {
        assert ParsesKey(evs[i].0, key);
      }
    }
    forall j, key | 0 <= j < i + 1 && ParsesKey(evs[j].0, key) && |after| < cap ensures key in after {
      if j == i {
        assert key == (evs[i].0.parsedIn, evs[i].0.scriptId);
      }
    }
  }

  predicate MovesAt(taken: seq<set<ScriptKey>>, evs: Messages, k: nat, cap: nat)
    requires |taken| == |evs| + 1 && k < |evs|
  {
    ParsedMoves(taken[k], taken[k + 1], evs[k].0, cap)
  }

  lemma {:induction false} TakenInRun(taken: seq<set<ScriptKey>>, evs: Messages, i: nat, cap: nat)
    requires |taken| == |evs| + 1 && taken[0] == {} && i <= |evs|
    requires forall k | 0 <= k < |evs| :: MovesAt(taken, evs, k, cap)
    ensures TakenIn(taken[i], evs, i, cap)
  {
    if i > 0 {
      var before, after := taken[i - 1], taken[i];
      TakenInRun(taken, evs, i - 1, cap);
      assert MovesAt(taken, evs, i - 1, cap) && ParsedMoves(before, after, evs[i - 1].0, cap);
      TakenInNext(before, after, evs, i - 1, cap);
    }
  }

  /** Scripts are taken in as they are parsed, and all of them short of the cap. */
  lemma {:induction false} ScriptsAreParsed(lim: Limits, sha: seq<Byte> -> string, evs: Messages, i: nat)
    requires i <= |evs|
    ensures TakenIn(At(lim, sha, evs, i).parsed, evs, i, lim.maxScripts)
  {
    var taken := seq(|evs| + 1, k requires 0 <= k <= |evs| => At(lim, sha, evs, k).parsed);
    StartsEmpty(lim, sha, evs);
    forall k | 0 <= k < |evs| ensures MovesAt(taken, evs, k, lim.maxScripts) {
      NextParsed(lim, sha, evs, k);
    }
    TakenInRun(taken, evs, i, lim.maxScripts);
  }

  // ---- navigating and settling ---------------------------------------------

  /** What attaching a target sends: auto-attach again; Debugger and Network for what has scripts; Page
      and the one navigation for the first page; and its release if it waits. */
  lemma AttachSends(p: Pump, lim: Limits, sha: seq<Byte> -> string, session: string, targetType: string, waiting: bool, now: int)
    ensures var q := Routed(p, lim, sha, AttachedToTarget(session, targetType, waiting), now).0;
      var scripts := if targetType in {"page", "iframe", "worker", "service_worker", "shared_worker"} then 2 else 0;
      var first := targetType == "page" && !p.navigated;
      && q.lastId == p.lastId + 1 + scripts + (if first then 2 else 0) + (if waiting then 1 else 0)
      && (forall id :: id in q.commands <==> id in p.commands || p.lastId < id <= q.lastId)
      && q.navigated == (p.navigated || targetType == "page")
      && (if first then q.navId == Some(p.lastId + 1 + scripts + 2) && q.pageSession == Some(session)
          else q.navId == p.navId && q.pageSession == p.pageSession)
  {
  }

  predicate AttachesPage(ev: Event) {
    ev.AttachedToTarget? && ev.targetType == "page"
  }

  /** The first page among the first `i` messages. */
  function FirstPage(evs: Messages, i: nat): Option<string>
    requires i <= |evs|
  {
    if i == 0 then None
    else if FirstPage(evs, i - 1).Some? then FirstPage(evs, i - 1)
    else if AttachesPage(evs[i - 1].0) then Some(evs[i - 1].0.session) else None
  }

  lemma NavigationMoves(p: Pump, lim: Limits, sha: seq<Byte> -> string, ev: Event, now: int)
    ensures var q := Routed(p, lim, sha, ev, now).0;
      if AttachesPage(ev) && !p.navigated then q.navigated && q.pageSession == Some(ev.session)
      else q.navigated == p.navigated && q.pageSession == p.pageSession
  {
  }

  /** The first page to attach is navigated, and no other. */
  lemma {:induction false} FirstPageIsNavigated(lim: Limits, sha: seq<Byte> -> string, evs: Messages, i: nat)
    requires i <= |evs|
    ensures var p := At(lim, sha, evs, i); p.pageSession == FirstPage(evs, i) && (p.navigated <==> FirstPage(evs, i).Some?)
    ensures FirstPage(evs, i).Some? <==> exists j | 0 <= j < i :: AttachesPage(evs[j].0)
  {
    if i > 0 {
      FirstPageIsNavigated(lim, sha, evs, i - 1);
      NextAt(lim, sha, evs, i - 1);
      NavigationMoves(At(lim, sha, evs, i - 1), lim, sha, evs[i - 1].0, evs[i - 1].1);
    }
  }

  /** The message is the initial navigation's reply and says that it failed. */
  predicate NavigationFails(p: Pump, ev: Event) {
    && ev.Reply? && p.navId == Some(ev.id)
    && (ev.frame.error.Some? || (ev.frame.errorText.Some? && ev.frame.errorText.value != ""))
  }

  lemma NavErrorMoves(p: Pump, lim: Limits, sha: seq<Byte> -> string, ev: Event, now: int)
    requires Accounted(p, lim, sha)
    ensures var q := Routed(p, lim, sha, ev, now).0;
      q.navError == if !NavigationFails(p, ev) then p.navError
                    else if ev.frame.error.Some? then ev.frame.error else ev.frame.errorText
  {
    match ev
    case AttachedToTarget(session, targetType, waiting) => AttachedFrame(p, session, targetType, waiting, now);
    case ScriptParsed(sid, scriptId, url) => ParsedFrame(p, lim, sid, scriptId, url, now);
    case RequestWillBeSent(isXhr, verb, target) => RequestFrame(p, lim, isXhr, verb, target);
    case DetachedFromTarget(gone) => DetachedFrame(p, gone);
    case Reply(id, frame) =>
      if id in p.pending {
        SourceFrame(p, lim, sha, id, frame, now);
        assert p.navId != Some(id);
      }
    case _ =>
  }

  lemma NextNavError(lim: Limits, sha: seq<Byte> -> string, evs: Messages, i: nat)
    requires i < |evs|
    ensures At(lim, sha, evs, i + 1).navError.Some? <==>
      At(lim, sha, evs, i).navError.Some? || NavigationFails(At(lim, sha, evs, i), evs[i].0)
  {
    NextAt(lim, sha, evs, i);
    AccountedAt(lim, sha, evs, i);
    NavErrorMoves(At(lim, sha, evs, i), lim, sha, evs[i].0, evs[i].1);
  }

  /** The capture is blocked exactly when the initial navigation has failed. */
  lemma {:induction false} BlockedIff(lim: Limits, sha: seq<Byte> -> string, evs: Messages, i: nat)
    requires i <= |evs|
    ensures At(lim, sha, evs, i).navError.Some? <==>
      exists j | 0 <= j < i :: NavigationFails(At(lim, sha, evs, j), evs[j].0)
  {
    if i > 0 {
      BlockedIff(lim, sha, evs, i - 1);
      NextNavError(lim, sha, evs, i - 1);
    }
  }

  /** The quiet window starts again with a new target, a new script or a newly stored source, and with
      nothing else. */
  lemma LastEventMoves(p: Pump, lim: Limits, sha: seq<Byte> -> string, ev: Event, now: int)
    ensures var q := Routed(p, lim, sha, ev, now).0;
      q.lastEvent == if ev.AttachedToTarget? || q.parsed != p.parsed || q.out != p.out then now else p.lastEvent
  {
    match ev
    case AttachedToTarget(session, targetType, waiting) => AttachedFrame(p, session, targetType, waiting, now);
    case ScriptParsed(sid, scriptId, url) => ParsedFrame(p, lim, sid, scriptId, url, now);
    case RequestWillBeSent(isXhr, verb, target) => RequestFrame(p, lim, isXhr, verb, target);
    case DetachedFromTarget(gone) => DetachedFrame(p, gone);
    case Reply(id, frame) =>
      if id in p.pending {
        SourceFrame(p, lim, sha, id, frame, now);
      }
    case _ =>
  }

  /** The capture settles exactly when a page has been navigated, a script taken in, none is still waited
      for, and the quiet window and the minimum drive are over. */
  lemma SettlesIff(lim: Limits, sha: seq<Byte> -> string, evs: Messages, now: int, idleSettle: int, minUntil: Option<int>)
    requires lim.maxScripts > 0
    ensures var p := At(lim, sha, evs, |evs|);
      Settled(p, now, idleSettle, minUntil) <==>
        && (exists j | 0 <= j < |evs| :: AttachesPage(evs[j].0))
        && (exists j | 0 <= j < |evs| :: evs[j].0.ScriptParsed?)
        && (forall key | key in p.fates :: !p.fates[key].InFlight?)
        && now > p.lastEvent + idleSettle && (minUntil.Some? ==> now > minUntil.value)
  {
    var p := At(lim, sha, evs, |evs|);
    FirstPageIsNavigated(lim, sha, evs, |evs|);
    ScriptsAreParsed(lim, sha, evs, |evs|);
    AccountedAt(lim, sha, evs, |evs|);
    SomeTakenIn(p.parsed, evs, lim.maxScripts);
    NoneAwaited(p.pending, p.fates, p.detached);
  }

  lemma SomeTakenIn(parsed: set<ScriptKey>, evs: Messages, cap: nat)
    requires cap > 0 && TakenIn(parsed, evs, |evs|, cap)
    ensures parsed != {} <==> exists j | 0 <= j < |evs| :: evs[j].0.ScriptParsed?
  {
    if key :| key in parsed {
      var j :| 0 <= j < |evs| && ParsesKey(evs[j].0, key);
    }
  }

  lemma NoneAwaited(pending: map<nat, Meta>, fates: map<ScriptKey, Fate>, detached: set<string>)
    requires FlightsOk(pending, fates, detached)
    ensures pending == map[] <==> forall key | key in fates :: !fates[key].InFlight?
  {
    if id :| id in pending {
      assert fates[pending[id].key] == InFlight(id);
    }
  }
}
