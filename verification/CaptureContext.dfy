/** The objects that run the event pump (capture/cdp.py, capture/driver.py). */
module CaptureContext {
  import opened Basics
  import opened Utf8
  import opened EventPump
  import CaptureIngest

  /** The multiplexed connection: one counter across all sessions. */
  class CdpSession {
    var lastId: nat

    constructor ()
      ensures lastId == 0
    {
      lastId := 0;
    }

    method Send() returns (id: nat)
      modifies this
      ensures id == lastId == old(lastId) + 1
    {
      lastId := lastId + 1;
      return lastId;
    }
  }

  /** `_Ctx`: the handlers that change the capture state. */
  class Context {
    const conn: CdpSession
    const lim: Limits
    const sha: seq<Byte> -> string
    var types: map<string, string>
    var detached: set<string>
    var pendingFetch: map<nat, Meta>
    var parsedKeys: set<ScriptKey>
    var out: seq<Script>
    var seenSha: set<string>
    var requests: seq<Observed>
    var seenRequests: set<Observed>
    var navigated: bool
    var navId: Option<nat>
    var navError: Option<string>
    var pageSession: Option<string>
    var lastEvent: int
    ghost var fates: map<ScriptKey, Fate>
    ghost var asked: set<nat>
    ghost var commands: set<nat>

    constructor (lim: Limits, sha: seq<Byte> -> string)
      ensures State() == Fresh() && this.lim == lim && this.sha == sha && fresh(conn)
    {
      conn := new CdpSession();
      this.lim, this.sha := lim, sha;
      types, detached, pendingFetch, parsedKeys, out, seenSha := map[], {}, map[], {}, [], {};
      requests, seenRequests, navigated, navId, navError, pageSession := [], {}, false, None, None, None;
      lastEvent, fates, asked, commands := 0, map[], {}, {};
    }

    ghost function State(): Pump
      reads this, conn
    {
      Pump(conn.lastId, types, detached, pendingFetch, parsedKeys, out, seenSha, requests, seenRequests,
           navigated, navId, navError, pageSession, lastEvent, fates, asked, commands)
    }

    /** Sends something other than a source request. */
    method SendCommand() returns (id: nat)
      modifies this`commands, conn
      ensures State() == Send(old(State())) && id == conn.lastId
    {
      id := conn.Send();
      commands := commands + {id};
    }

    method Enable(targetType: string)
      modifies this`commands, conn
      ensures State() == Enabled(old(State()), targetType)
    {
      var id := SendCommand();
      if targetType in DEBUGGABLE {
        id := SendCommand();
        id := SendCommand();
      }
    }

    method NavigateFirstPage(session: string, targetType: string)
      modifies this`commands, this`navId, this`pageSession, this`navigated, conn
      ensures State() == Landed(old(State()), session, targetType)
    {
      if targetType == "page" && !navigated {
        var id := SendCommand();
        id := SendCommand();
        navId := Some(id);
        pageSession := Some(session);
        navigated := true;
      }
    }

    method AttachedToTarget(session: string, targetType: string, waiting: bool, now: int)
      modifies this, conn
      ensures State() == OnAttached(old(State()), session, targetType, waiting, now)
    {
      types := types[session := targetType];
      lastEvent := now;
      Enable(targetType);
      NavigateFirstPage(session, targetType);
      if waiting {
        var id := SendCommand();
      }
    }

    method AskForSource(key: ScriptKey, url: string)
      modifies this`pendingFetch, this`fates, this`asked, conn
      ensures State() == Asked(old(State()), key, url)
    {
      var id := conn.Send();
      var targetType := if key.0.Some? && key.0.value in types then types[key.0.value] else "page";
      pendingFetch := pendingFetch[id := Meta(key, url, targetType)];
      asked := asked + {id};
      fates := fates[key := InFlight(id)];
    }

    method ScriptParsed(sid: Sid, scriptId: string, url: string, now: int)
      modifies this, conn
      ensures State() == OnParsed(old(State()), lim, sid, scriptId, url, now)
    {
      if |parsedKeys| >= lim.maxScripts {
        return;
      }
      var key := (sid, scriptId);
      if key in parsedKeys {
        return;
      }
      parsedKeys := parsedKeys + {key};
      lastEvent := now;
      if Gone(detached, sid) {
        fates := fates[key := SessionGone];
      } else {
        AskForSource(key, url);
      }
    }

    method KeepSource(info: Meta, raw: seq<Byte>, now: int)
      modifies this`seenSha, this`out, this`lastEvent, this`fates
      ensures State() == Kept(old(State()), sha, info, raw, now)
    {
      var digest := sha(raw);
      if digest in seenSha {
        fates := fates[info.key := Duplicate(digest)];
        return;
      }
      seenSha := seenSha + {digest};
      out := out + [Script(info.url, raw, digest, info.targetType)];
      lastEvent := now;
      fates := fates[info.key := Captured(digest)];
    }

    method SourceReply(id: nat, frame: Frame, now: int)
      requires id in pendingFetch
      modifies this
      ensures State() == OnSource(old(State()), lim, sha, id, frame, now)
    {
      var info := pendingFetch[id];
      pendingFetch := pendingFetch - {id};
      if frame.error.Some? || frame.source.None? || frame.source.value == [] {
        fates := fates[info.key := NoSource];
      } else {
        KeepSource(info, CaptureIngest.StoredBytes(frame.source.value, lim.maxScriptBytes), now);
      }
    }

    method RequestWillBeSent(isXhrOrFetch: bool, verb: string, target: Option<string>)
      modifies this`requests, this`seenRequests
      ensures State() == OnRequest(old(State()), lim, isXhrOrFetch, verb, target)
    {
      if !isXhrOrFetch || verb == "" || target.None? {
        return;
      }
      var key := (verb, target.value);
      if key in seenRequests || |seenRequests| >= lim.maxRequests {
        return;
      }
      seenRequests := seenRequests + {key};
      requests := requests + [key];
    }

    method DetachedFromTarget(gone: string)
      modifies this`detached, this`pendingFetch, this`fates
      ensures State() == OnDetached(old(State()), gone)
    {
      if gone != "" {
        detached := detached + {gone};
        pendingFetch := map id | id in pendingFetch && pendingFetch[id].key.0 != Some(gone) :: pendingFetch[id];
        fates := map key | key in fates :: if fates[key].InFlight? && key.0 == Some(gone) then SessionGone else fates[key];
      }
    }

    method NavAck(frame: Frame)
      modifies this`navError
      ensures State() == OnNavAck(old(State()), frame)
    {
      if frame.error.Some? {
        navError := frame.error;
      } else if frame.errorText.Some? && frame.errorText.value != "" {
        navError := frame.errorText;
      }
    }

    /** `_route`. */
    method Route(ev: Event, now: int) returns (delivered: Option<nat>)
      modifies this, conn
      ensures (State(), delivered) == Routed(old(State()), lim, sha, ev, now)
    {
      delivered := None;
      match ev
      case AttachedToTarget(session, targetType, waiting) => AttachedToTarget(session, targetType, waiting, now);
      case ScriptParsed(sid, scriptId, url) => ScriptParsed(sid, scriptId, url, now);
      case RequestWillBeSent(isXhr, verb, target) => RequestWillBeSent(isXhr, verb, target);
      case DetachedFromTarget(gone) => DetachedFromTarget(gone);
      case Reply(id, frame) =>
        if id in pendingFetch {
          SourceReply(id, frame, now);
        } else {
          if navId == Some(id) {
            NavAck(frame);
          }
          delivered := Some(id);
        }
      case Command =>
        var id := SendCommand();
      case Unrelated =>
    }

    /** The tests at the head of the loop. */
    method MayEnd(now: int, settle: bool, deadline: int, idleSettle: int, minUntil: Option<int>) returns (ends: bool)
      ensures ends <==> Ends(State(), now, settle, deadline, idleSettle, minUntil)
    {
      if now > deadline || navError.Some? {
        return true;
      }
      return settle && navigated && parsedKeys != {} && pendingFetch == map[] && now - lastEvent > idleSettle &&
        (minUntil.None? || now > minUntil.value);
    }

    /** `pump`: route messages until the wanted reply arrives, the capture settles, the deadline
        passes, the initial navigation fails or the messages run out. It returns at the first message
        that delivers the wanted reply, and goes on past none at which it should end. */
    method PumpMessages(messages: seq<(Event, int)>, wantId: Option<nat>, settle: bool, deadline: int,
                        idleSettle: int, minUntil: Option<int>)
      returns (answered: bool, handled: nat)
      modifies this, conn
      ensures handled <= |messages| && State() == Play(old(State()), lim, sha, messages[..handled])
      ensures answered ==> handled > 0 && wantId.Some?
      ensures answered ==> DeliveredAt(old(State()), lim, sha, messages, handled - 1) == wantId
      ensures NotYet(old(State()), lim, sha, messages, if answered then handled - 1 else handled, wantId)
      ensures GoesOn(old(State()), lim, sha, messages, handled, settle, deadline, idleSettle, minUntil)
      ensures !answered && handled < |messages| ==>
        Ends(State(), messages[handled].1, settle, deadline, idleSettle, minUntil)
    {
      handled := 0;
      answered := false;
      while handled < |messages|
        invariant handled <= |messages| && State() == Play(old(State()), lim, sha, messages[..handled])
        invariant NotYet(old(State()), lim, sha, messages, handled, wantId)
        invariant GoesOn(old(State()), lim, sha, messages, handled, settle, deadline, idleSettle, minUntil)
      {
        var now := messages[handled].1;
        var ends := MayEnd(now, settle, deadline, idleSettle, minUntil);
        if ends {
          return;
        }
        PumpNext(old(State()), lim, sha, messages, handled, wantId, settle, deadline, idleSettle, minUntil);
        PlayNext(old(State()), lim, sha, messages, handled);
        var delivered := Route(messages[handled].0, now);
        handled := handled + 1;
        if wantId.Some? && delivered == wantId {
          return true, handled;
        }
      }
    }
  }
}
